/**
  The coin cache: what scanning a transaction does to it, and what scanning a whole block's worth of
  confirmed transactions comes to.
 */
module Coins {
  import opened Wrappers
  import opened Transactions

  /** One cached coin; `height` is the block holding it, 0 where none does as far as the wallet knows. */
  datatype Utxo = Utxo(outpoint: OutPoint, value: int, height: int, coinbase: bool) {
    predicate Confirmed() {
      height > 0
    }
  }

  /** The outpoints of a list of coins. */
  function Points(utxos: seq<Utxo>): set<OutPoint> {
    set i | 0 <= i < |utxos| :: utxos[i].outpoint
  }

  /** The coins left once the outpoints in `spent` are gone, in the cache's order. */
  function Without(utxos: seq<Utxo>, spent: set<OutPoint>): seq<Utxo> {
    if utxos == [] then []
    else (if utxos[0].outpoint in spent then [] else [utxos[0]]) + Without(utxos[1..], spent)
  }

  lemma {:induction false} WithoutMembers(utxos: seq<Utxo>, spent: set<OutPoint>)
    ensures forall u :: u in Without(utxos, spent) <==> u in utxos && u.outpoint !in spent
  {
    if utxos != [] {
      WithoutMembers(utxos[1..], spent);
    }
  }

  /** The coins `vout[n..]` pays the wallet, in output order. */
  function CoinsFrom(tx: Tx, n: nat): seq<Utxo>
    requires n <= |tx.vout|
    decreases |tx.vout| - n
  {
    if n == |tx.vout| then []
    else (if tx.vout[n].script == AnyoneCanSpend then [NewCoin(tx, n)] else []) + CoinsFrom(tx, n + 1)
  }

  function NewCoin(tx: Tx, n: nat): Utxo
    requires n < |tx.vout|
  {
    Utxo(OutPoint(tx, n), tx.vout[n].value, 0, false)
  }

  /** `new_utxos`: the coins a transaction pays the wallet, each at height 0. */
  function NewUtxos(tx: Tx): seq<Utxo> {
    CoinsFrom(tx, 0)
  }

  /** No outpoint is cached twice. */
  ghost predicate Distinct(utxos: seq<Utxo>) {
    forall i, j :: 0 <= i < j < |utxos| ==> utxos[i].outpoint != utxos[j].outpoint
  }

  /** The new coins are the outputs paying the wallet, each once, at height 0. */
  lemma {:induction false} CoinsFromPays(tx: Tx, n: nat)
    requires n <= |tx.vout|
    ensures forall u :: u in CoinsFrom(tx, n) <==>
                          && u.outpoint.tx == tx && n <= u.outpoint.vout < |tx.vout|
                          && tx.vout[u.outpoint.vout].script == AnyoneCanSpend
                          && u == NewCoin(tx, u.outpoint.vout)
    ensures Distinct(CoinsFrom(tx, n))
    decreases |tx.vout| - n
  {
    if n < |tx.vout| {
      CoinsFromPays(tx, n + 1);
      var rest := CoinsFrom(tx, n + 1);
      forall j | 0 <= j < |rest| ensures rest[j].outpoint != OutPoint(tx, n) {
        assert rest[j] in rest;
      }
    }
  }

  // ---- filtering

  lemma {:induction false} WithoutConcat(a: seq<Utxo>, b: seq<Utxo>, spent: set<OutPoint>)
    ensures Without(a + b, spent) == Without(a, spent) + Without(b, spent)
  {
    if a == [] {
      assert a + b == b;
    } else {
      assert (a + b)[1..] == a[1..] + b;
      WithoutConcat(a[1..], b, spent);
    }
  }

  lemma {:induction false} WithoutTwice(a: seq<Utxo>, s: set<OutPoint>, t: set<OutPoint>)
    ensures Without(Without(a, s), t) == Without(a, s + t)
  {
    if a != [] {
      WithoutTwice(a[1..], s, t);
      WithoutConcat(if a[0].outpoint in s then [] else [a[0]], Without(a[1..], s), t);
    }
  }

  /** Two filters leave the same list exactly when they drop the same coins; a coarser one leaves a shorter list. */
  lemma {:induction false} WithoutSame(a: seq<Utxo>, s: set<OutPoint>, t: set<OutPoint>)
    requires s <= t
    ensures |Without(a, t)| <= |Without(a, s)|
    ensures |Without(a, t)| == |Without(a, s)| <==> forall u :: u in a && u.outpoint in t ==> u.outpoint in s
    ensures |Without(a, t)| == |Without(a, s)| ==> Without(a, t) == Without(a, s)
  {
    if a != [] {
      WithoutSame(a[1..], s, t);
    }
  }

  lemma {:induction false} WithoutNothing(a: seq<Utxo>)
    ensures Without(a, {}) == a
  {
    if a != [] {
      WithoutNothing(a[1..]);
    }
  }

  lemma {:induction false} WithoutDistinct(a: seq<Utxo>, s: set<OutPoint>)
    requires Distinct(a)
    ensures Distinct(Without(a, s))
  {
    if a != [] {
      WithoutDistinct(a[1..], s);
      WithoutMembers(a[1..], s);
      var rest := Without(a[1..], s);
      forall j | 0 <= j < |rest| ensures rest[j].outpoint != a[0].outpoint {
        assert rest[j] in rest;
      }
    }
  }

  lemma DistinctConcat(a: seq<Utxo>, b: seq<Utxo>)
    requires Distinct(a) && Distinct(b)
    requires forall u, v :: u in a && v in b ==> u.outpoint != v.outpoint
    ensures Distinct(a + b)
  {
  }

  /** Coins drawn from a list of distinct ones are distinct. */
  lemma SubsetDistinct(a: seq<Utxo>, b: seq<Utxo>)
    requires Distinct(a) && multiset(b) <= multiset(a)
    ensures Distinct(b)
  {
    forall i, j | 0 <= i < j < |b| ensures b[i].outpoint != b[j].outpoint {
      if b[i].outpoint == b[j].outpoint {
        assert b[i] in multiset(a) && b[j] in multiset(a);
        if b[i] == b[j] {
          assert b == b[..i] + [b[i]] + b[i + 1..j] + [b[j]] + b[j + 1..];
          assert multiset(b)[b[i]] >= 2;
          OnceOnly(a, b[i]);
        }
      }
    }
  }

  lemma {:induction false} OnceOnly(a: seq<Utxo>, u: Utxo)
    requires Distinct(a)
    ensures multiset(a)[u] <= 1
  {
    if a != [] {
      OnceOnly(a[1..], u);
      assert a == [a[0]] + a[1..];
      assert a[0] == u ==> u !in a[1..];
    }
  }

  // ---- outpoints

  lemma PointsConcat(a: seq<Utxo>, b: seq<Utxo>)
    ensures Points(a + b) == Points(a) + Points(b)
  {
    forall p | p in Points(a) + Points(b) ensures p in Points(a + b) {
      if p in Points(a) {
        var i :| 0 <= i < |a| && a[i].outpoint == p;
        assert (a + b)[i] == a[i];
      } else {
        var i :| 0 <= i < |b| && b[i].outpoint == p;
        assert (a + b)[|a| + i] == b[i];
      }
    }
  }

  lemma PointsMember(utxos: seq<Utxo>, u: Utxo)
    requires u in utxos
    ensures u.outpoint in Points(utxos)
  {
    var i :| 0 <= i < |utxos| && utxos[i] == u;
  }

  lemma {:induction false} PointsWithout(utxos: seq<Utxo>, spent: set<OutPoint>)
    ensures Points(Without(utxos, spent)) == Points(utxos) - spent
  {
    if utxos != [] {
      PointsWithout(utxos[1..], spent);
      var head := if utxos[0].outpoint in spent then [] else [utxos[0]];
      PointsConcat(head, Without(utxos[1..], spent));
      PointsConcat([utxos[0]], utxos[1..]);
      assert [utxos[0]] + utxos[1..] == utxos;
    }
  }

  // ---- scanning the transactions a block confirms, in block order

  /** The inputs of every transaction in the list. */
  function AllInputs(txs: seq<Tx>): set<OutPoint> {
    if txs == [] then {} else Inputs(txs[0]) + AllInputs(txs[1..])
  }

  /** What scanning the next confirmed transaction adds: nothing, where it has been scanned before. */
  function Added(scanned: set<Tx>, tx: Tx): seq<Utxo> {
    if tx in scanned then [] else NewUtxos(tx)
  }

  /** Everything the scan of a list adds, in order. */
  function News(scanned: set<Tx>, txs: seq<Tx>): seq<Utxo>
    decreases txs
  {
    if txs == [] then [] else Added(scanned, txs[0]) + News(scanned + {txs[0]}, txs[1..])
  }

  /** The scan itself: each transaction drops what it spends, then adds what it pays. */
  function Scan(utxos: seq<Utxo>, scanned: set<Tx>, txs: seq<Tx>): seq<Utxo>
    decreases txs
  {
    if txs == [] then utxos
    else Scan(Without(utxos, Inputs(txs[0])) + Added(scanned, txs[0]), scanned + {txs[0]}, txs[1..])
  }

  /** A coin the list both adds and spends is spent at or after the point where it is added. */
  ghost predicate SpendOrdered(scanned: set<Tx>, txs: seq<Tx>)
    decreases txs
  {
    txs != [] ==>
      && (forall u :: u in News(scanned, txs) && u.outpoint in Inputs(txs[0]) ==> u.outpoint in AllInputs(txs[1..]))
      && SpendOrdered(scanned + {txs[0]}, txs[1..])
  }

  /** Filtering three lists at once, where the last two lose no more to the wider filter. */
  lemma FilterParts(a: seq<Utxo>, b: seq<Utxo>, c: seq<Utxo>, first: set<OutPoint>, rest: set<OutPoint>)
    ensures
      var stepwise := Without((Without(a, first) + b) + c, rest);
      var kept := Without(a + (b + c), first + rest);
      && |stepwise| >= |kept|
      && (|stepwise| == |kept| <==> forall u :: u in b + c && u.outpoint in first ==> u.outpoint in rest)
      && (|stepwise| == |kept| ==> stepwise == kept)
  {
    assert (Without(a, first) + b) + c == Without(a, first) + (b + c);
    WithoutConcat(Without(a, first), b + c, rest);
    WithoutTwice(a, first, rest);
    WithoutConcat(a, b + c, first + rest);
    WithoutSame(b + c, rest, first + rest);
  }

  /**
    The transaction-by-transaction scan leaves the cache and every added coin, less the inputs of the whole
    list, in that order, exactly when the list is in spend order; out of it, it leaves more.
   */
  lemma {:induction false} ScanIsOneFilter(utxos: seq<Utxo>, scanned: set<Tx>, txs: seq<Tx>)
    ensures
      var kept := Without(utxos + News(scanned, txs), AllInputs(txs));
      && (Scan(utxos, scanned, txs) == kept <==> SpendOrdered(scanned, txs))
      && |Scan(utxos, scanned, txs)| >= |kept|
      && (|Scan(utxos, scanned, txs)| == |kept| ==> Scan(utxos, scanned, txs) == kept)
    decreases txs
  {
    if txs == [] {
      assert utxos + [] == utxos;
      WithoutNothing(utxos);
    } else {
      var first, rest := Inputs(txs[0]), AllInputs(txs[1..]);
      var added, later := Added(scanned, txs[0]), News(scanned + {txs[0]}, txs[1..]);
      ScanIsOneFilter(Without(utxos, first) + added, scanned + {txs[0]}, txs[1..]);
      FilterParts(utxos, added, later, first, rest);
    }
  }
}
