/** Where the satoshis go over a whole run: subsidies in, fees and payments out, the rest still accounted for. */
module WalletValue {
  import opened Wrappers
  import opened Transactions
  import opened Blocks
  import opened Coins
  import opened CoinSelection
  import opened WalletState
  import opened Transfers

  /**
    The wallet; the coins a caller has taken and not yet spent; those `generate` left out because the mempool
    spends them; those `get_utxos` forgot without answering them; and the running totals. `outside` is what the
    inputs of the scanned transactions were worth that were none of those coins.
   */
  datatype Purse = Purse(
    w: Wallet, held: seq<Utxo>, withheld: seq<Utxo>, forgotten: seq<Utxo>,
    minted: int, outside: int, fees: int, away: int)
  {
    /** Every coin not yet spent. */
    function Pool(): seq<Utxo> {
      w.utxos + Apart()
    }

    function Apart(): seq<Utxo> {
      held + (withheld + forgotten)
    }

    /** The totals the coins come to. */
    function Due(): int {
      minted + outside - fees - away
    }
  }

  predicate IsOutput(p: OutPoint) {
    p.vout < |p.tx.vout|
  }

  function Worth(p: OutPoint): int {
    if IsOutput(p) then p.tx.vout[p.vout].value else 0
  }

  /** What the inputs of a transaction are worth. */
  function InValue(vin: seq<TxIn>): int {
    if vin == [] then 0 else Worth(vin[0].prevOut) + InValue(vin[1..])
  }

  /** What those of them are worth that are among `points`. */
  function OwnValue(points: set<OutPoint>, vin: seq<TxIn>): int
    decreases vin
  {
    if vin == [] then 0
    else (if vin[0].prevOut in points then Worth(vin[0].prevOut) else 0) + OwnValue(points, vin[1..])
  }

  /** What the outputs paying anyone but the wallet are worth. */
  function Away(vout: seq<TxOut>): int {
    if vout == [] then 0 else (if vout[0].script == AnyoneCanSpend then 0 else vout[0].value) + Away(vout[1..])
  }

  function Fee(tx: Tx): int
    requires tx.Tx?
  {
    InValue(tx.vin) - Values(tx.vout)
  }

  predicate DistinctInputs(vin: seq<TxIn>) {
    forall i, j :: 0 <= i < j < |vin| ==> vin[i].prevOut != vin[j].prevOut
  }

  /** A transaction that names no outpoint twice, and is no coinbase. */
  predicate Proper(tx: Tx) {
    tx.Tx? && DistinctInputs(tx.vin)
  }

  predicate AllProper(txs: seq<Tx>) {
    forall i :: 0 <= i < |txs| ==> Proper(txs[i])
  }

  datatype Event =
    | Sent(tx: Tx)
    | Mined(confirm: seq<Tx>, now: int, spends: set<OutPoint>)
    | Unread(confirm: seq<Tx>)                                  // an accepted block, and then a raise
    | Taken(coin: Utxo, left: seq<Utxo>)                        // `get_utxo` marking its coin spent
    | TakenAll(includeImmature: bool, confirmedOnly: bool)      // `get_utxos` marking the cache spent
    | Looked(left: seq<Utxo>)                                   // either, marking nothing spent
    | Resynced(tip: Block, medianTime: int, left: seq<Utxo>)

  /** Sends of a transaction not sent before, blocks confirming any transactions, and resyncs that lower no height. */
  predicate Enabled(p: Purse, e: Event) {
    match e
    case Sent(tx) => Proper(tx) && tx !in p.w.scanned
    case Mined(confirm, now, spends) => AllProper(confirm)
    case Unread(confirm) => AllProper(confirm)
    case Taken(coin, left) => coin in p.w.utxos && multiset(left) == multiset(p.w.utxos) - multiset{coin}
    case TakenAll(_, _) => true
    case Looked(left) => multiset(left) == multiset(p.w.utxos)
    case Resynced(tip, medianTime, left) =>
      && Links(tip) >= p.w.height && |left| == |p.w.utxos|
      && forall i :: 0 <= i < |left| ==> SameCoin(left[i], p.w.utxos[i])
  }

  /** The same coin, at whatever height. */
  predicate SameCoin(u: Utxo, v: Utxo) {
    u.outpoint == v.outpoint && u.value == v.value
  }

  /** The coins at the outpoints in `spent`, in order. */
  function Within(utxos: seq<Utxo>, spent: set<OutPoint>): seq<Utxo> {
    if utxos == [] then []
    else (if utxos[0].outpoint in spent then [utxos[0]] else []) + Within(utxos[1..], spent)
  }

  /**
    Scanning one transaction. The first time, what it spends leaves every list, what it pays is cached, and its
    cost is counted; from then on it only drops what the cache still holds of its inputs, which were the
    wallet's after all.
   */
  function ScanOne(p: Purse, tx: Tx): Purse
    requires tx.Tx?
  {
    var inputs := Inputs(tx);
    if tx in p.w.scanned then
      p.(w := p.w.(utxos := Without(p.w.utxos, inputs)), outside := p.outside - Balance(Within(p.w.utxos, inputs)))
    else
      Purse(ScanTx(p.w, tx), Without(p.held, inputs), Without(p.withheld, inputs), Without(p.forgotten, inputs),
            p.minted, p.outside + InValue(tx.vin) - OwnValue(Points(p.Pool()), tx.vin),
            p.fees + Fee(tx), p.away + Away(tx.vout))
  }

  function ScanAll(p: Purse, txs: seq<Tx>): Purse
    requires AllProper(txs)
    decreases txs
  {
    if txs == [] then p else ScanAll(ScanOne(p, txs[0]), Rest(txs))
  }

  function Rest(txs: seq<Tx>): (r: seq<Tx>)
    requires txs != [] && AllProper(txs)
    ensures AllProper(r) && r == txs[1..]
  {
    txs[1..]
  }

  /** The coins `get_utxos` forgets with the rest: those its filters do not keep. */
  function Unkept(utxos: seq<Utxo>, height: int, includeImmature: bool, confirmedOnly: bool): seq<Utxo> {
    if utxos == [] then []
    else
      (if PassesAll(utxos[0], height, includeImmature, confirmedOnly) then [] else [utxos[0]])
      + Unkept(utxos[1..], height, includeImmature, confirmedOnly)
  }

  function Step(p: Purse, e: Event): Purse
    requires Enabled(p, e)
  {
    match e
    case Sent(tx) => ScanOne(p, tx)
    case Mined(confirm, now, spends) =>
      var q := ScanAll(p, confirm);
      var cached := AtHeight(q.w.utxos, TxSet(confirm), p.w.height + 1);
      q.(w := Confirmed(p.w, confirm, now, spends),
         withheld := q.withheld + Within(cached, AddedPoints(p.w, confirm) * spends),
         minted := q.minted + Subsidy(p.w.height + 1))
    case Unread(confirm) => ScanAll(p, confirm).(w := Scanned(p.w, confirm))
    case Taken(coin, left) => p.(w := p.w.(utxos := left), held := p.held + [coin])
    case TakenAll(includeImmature, confirmedOnly) =>
      p.(w := p.w.(utxos := []),
         held := p.held + KeptCoins(p.w.utxos, p.w.height, includeImmature, confirmedOnly),
         forgotten := p.forgotten + Unkept(p.w.utxos, p.w.height, includeImmature, confirmedOnly))
    case Looked(left) => p.(w := p.w.(utxos := left))
    case Resynced(tip, medianTime, left) =>
      p.(w := p.w.(utxos := left, tip := tip, height := Links(tip), lastTime := medianTime))
  }

  /** A transaction the wallet scanned, or a coinbase of a block no higher than it has come. */
  predicate Past(w: Wallet, tx: Tx) {
    if tx.Tx? then tx in w.scanned else tx.height <= w.height
  }

  predicate Sound(w: Wallet, u: Utxo) {
    IsOutput(u.outpoint) && u.value == Worth(u.outpoint) && Past(w, u.outpoint.tx)
  }

  ghost predicate PoolInv(w: Wallet, pool: seq<Utxo>) {
    Distinct(pool) && forall u :: u in pool ==> Sound(w, u)
  }

  ghost predicate Inv(p: Purse) {
    PoolInv(p.w, p.Pool()) && Balance(p.Pool()) == p.Due()
  }

  // ---- sums

  lemma {:induction false} BalanceConcat(a: seq<Utxo>, b: seq<Utxo>)
    ensures Balance(a + b) == Balance(a) + Balance(b)
  {
    if a == [] {
      assert a + b == b;
    } else {
      assert (a + b)[1..] == a[1..] + b;
      BalanceConcat(a[1..], b);
    }
  }

  lemma {:induction false} BalancePopped(b: seq<Utxo>, i: nat)
    requires i < |b|
    ensures Balance(b) == b[i].value + Balance(Popped(b, i))
  {
    if i == 0 {
      assert Popped(b, 0) == b[1..];
    } else {
      BalancePopped(b[1..], i - 1);
      assert Popped(b, i) == [b[0]] + Popped(b[1..], i - 1);
    }
  }

  /** The sum does not depend on the order. */
  lemma {:induction false} BalanceOfMultiset(a: seq<Utxo>, b: seq<Utxo>)
    requires multiset(a) == multiset(b)
    ensures Balance(a) == Balance(b)
    decreases |a|
  {
    if a == [] {
      assert multiset(b) == multiset{};
      assert b == [];
    } else {
      var i := FindIn(a, b);
      RemoveAt(b, i);
      RemoveAt(a, 0);
      BalancePopped(a, 0);
      BalancePopped(b, i);
      BalanceOfMultiset(Popped(a, 0), Popped(b, i));
    }
  }

  lemma FindIn(a: seq<Utxo>, b: seq<Utxo>) returns (i: nat)
    requires a != [] && multiset(a) == multiset(b)
    ensures i < |b| && b[i] == a[0]
  {
    assert a[0] in multiset(b);
    i :| 0 <= i < |b| && b[i] == a[0];
  }

  /** Dropping one outpoint of a list of distinct ones takes its coin's value away. */
  lemma {:induction false} DropOne(a: seq<Utxo>, p: OutPoint)
    requires Distinct(a) && p in Points(a)
    requires forall u :: u in a ==> u.value == Worth(u.outpoint)
    ensures Balance(Without(a, {p})) == Balance(a) - Worth(p)
  {
    assert a[0] in a;
    if a[0].outpoint == p {
      forall i | 0 <= i < |a[1..]| ensures a[1..][i].outpoint != p {
        assert a[1..][i] == a[i + 1];
      }
      NothingToDrop(a[1..], {p});
      assert [] + Without(a[1..], {p}) == a[1..];
    } else {
      assert p in Points(a[1..]) by {
        var i :| 0 <= i < |a| && a[i].outpoint == p;
        assert a[1..][i - 1].outpoint == p;
      }
      DropOne(a[1..], p);
    }
  }

  /** The inputs after the first, one outpoint gone that none of them names. */
  lemma {:induction false} OwnRest(points: set<OutPoint>, p: OutPoint, vin: seq<TxIn>)
    requires p !in InputsOf(vin)
    ensures OwnValue(points - {p}, vin) == OwnValue(points, vin)
    decreases vin
  {
    if vin != [] {
      assert vin[0].prevOut in InputsOf(vin);
      assert InputsOf(vin[1..]) <= InputsOf(vin) by {
        assert vin == [vin[0]] + vin[1..];
      }
      OwnRest(points, p, vin[1..]);
    }
  }

  /** Dropping the inputs of a transaction takes away what those of them are worth that are there. */
  lemma {:induction false} DropInputs(a: seq<Utxo>, vin: seq<TxIn>)
    requires Distinct(a) && DistinctInputs(vin)
    requires forall u :: u in a ==> u.value == Worth(u.outpoint)
    ensures Balance(Without(a, InputsOf(vin))) == Balance(a) - OwnValue(Points(a), vin)
    decreases vin
  {
    hide Distinct;
    if vin == [] {
      assert InputsOf(vin) == {};
      WithoutNothing(a);
    } else {
      var p, rest := vin[0].prevOut, InputsOf(vin[1..]);
      assert InputsOf(vin) == {p} + rest by {
        assert vin == [vin[0]] + vin[1..];
      }
      FirstAlone(vin);
      DropAtMostOne(a, p);
      WithoutTwice(a, {p}, rest);
      WithoutDistinct(a, {p});
      WithoutMembers(a, {p});
      PointsWithout(a, {p});
      OwnRest(Points(a), p, vin[1..]);
      DropInputs(Without(a, {p}), vin[1..]);
    }
  }

  lemma FirstAlone(vin: seq<TxIn>)
    requires vin != [] && DistinctInputs(vin)
    ensures vin[0].prevOut !in InputsOf(vin[1..]) && DistinctInputs(vin[1..])
  {
  }

  lemma DropAtMostOne(a: seq<Utxo>, p: OutPoint)
    requires Distinct(a) && forall u :: u in a ==> u.value == Worth(u.outpoint)
    ensures Balance(Without(a, {p})) == Balance(a) - if p in Points(a) then Worth(p) else 0
  {
    if p in Points(a) {
      DropOne(a, p);
    } else {
      NothingToDrop(a, {p});
    }
  }

  /** What a transaction pays the wallet and what it pays away make up its outputs. */
  lemma {:induction false} PaidAndAway(tx: Tx, n: nat)
    requires n <= |tx.vout|
    ensures Balance(CoinsFrom(tx, n)) + Away(tx.vout[n..]) == Values(tx.vout[n..])
    decreases |tx.vout| - n
  {
    if n < |tx.vout| {
      PaidAndAway(tx, n + 1);
      assert tx.vout[n..][1..] == tx.vout[n + 1..];
      BalanceConcat(if tx.vout[n].script == AnyoneCanSpend then [NewCoin(tx, n)] else [], CoinsFrom(tx, n + 1));
    }
  }

  lemma {:induction false} WithinRest(a: seq<Utxo>, spent: set<OutPoint>)
    ensures multiset(Without(a, spent) + Within(a, spent)) == multiset(a)
    ensures Balance(Without(a, spent)) + Balance(Within(a, spent)) == Balance(a)
  {
    hide Balance;
    if a != [] {
      var rest, gone := Without(a[1..], spent), Within(a[1..], spent);
      WithinRest(a[1..], spent);
      var stays, goes := if a[0].outpoint in spent then [] else [a[0]], if a[0].outpoint in spent then [a[0]] else [];
      Dealt(a, stays, rest, goes, gone);
    } else {
      assert Without(a, spent) + Within(a, spent) == a;
      BalanceConcat(Without(a, spent), Within(a, spent));
    }
  }

  /** One coin more, on either side. */
  lemma Dealt(a: seq<Utxo>, stays: seq<Utxo>, rest: seq<Utxo>, goes: seq<Utxo>, gone: seq<Utxo>)
    requires a != [] && ((stays == [] && goes == [a[0]]) || (stays == [a[0]] && goes == []))
    requires multiset(rest + gone) == multiset(a[1..]) && Balance(rest) + Balance(gone) == Balance(a[1..])
    ensures multiset((stays + rest) + (goes + gone)) == multiset(a)
    ensures Balance(stays + rest) + Balance(goes + gone) == Balance(a)
  {
    hide Balance;
    BalanceConcat(stays, rest);
    BalanceConcat(goes, gone);
    HeadCounts(a);
    assert multiset((stays + rest) + (goes + gone)) == multiset(stays + goes) + multiset(rest + gone);
    assert stays + goes == [a[0]];
  }

  lemma HeadCounts(a: seq<Utxo>)
    requires a != []
    ensures multiset(a) == multiset([a[0]]) + multiset(a[1..])
    ensures Balance([]) == 0 && Balance([a[0]]) == a[0].value && Balance(a) == a[0].value + Balance(a[1..])
  {
    assert a == [a[0]] + a[1..];
    assert [a[0]][1..] == [];
  }

  lemma {:induction false} KeptRest(a: seq<Utxo>, height: int, includeImmature: bool, confirmedOnly: bool)
    ensures multiset(
              KeptCoins(a, height, includeImmature, confirmedOnly) + Unkept(a, height, includeImmature, confirmedOnly))
         == multiset(a)
    ensures Unkept(a, height, includeImmature, confirmedOnly) == []
            <==> KeptCoins(a, height, includeImmature, confirmedOnly) == a
    ensures |KeptCoins(a, height, includeImmature, confirmedOnly)| <= |a|
  {
    hide PassesAll;
    if a != [] {
      KeptRest(a[1..], height, includeImmature, confirmedOnly);
      assert a == [a[0]] + a[1..];
    }
  }

  // ---- the pool, however it is laid out

  /** What holds of a list of coins holds of any rearrangement of it. */
  lemma PoolInvOfMultiset(w: Wallet, a: seq<Utxo>, b: seq<Utxo>)
    requires PoolInv(w, a) && multiset(a) == multiset(b)
    ensures PoolInv(w, b) && Balance(b) == Balance(a)
  {
    hide Sound;
    BalanceOfMultiset(a, b);
    SubsetDistinct(a, b);
    forall u | u in b ensures u in a {
      assert u in multiset(a);
    }
  }

  /** A purse is sound if its coins, in any order, are, and come to its totals. */
  lemma Arranged(next: Purse, pool: seq<Utxo>)
    requires PoolInv(next.w, pool) && Balance(pool) == next.Due() && multiset(pool) == multiset(next.Pool())
    ensures Inv(next)
  {
    hide PoolInv;
    PoolInvOfMultiset(next.w, pool, next.Pool());
  }

  /** Fewer coins of a sound list are a sound list. */
  lemma Fewer(w: Wallet, a: seq<Utxo>, b: seq<Utxo>)
    requires PoolInv(w, a) && multiset(b) <= multiset(a)
    ensures PoolInv(w, b)
  {
    hide Sound;
    SubsetDistinct(a, b);
    forall u | u in b ensures u in a {
      assert u in multiset(b) && u in multiset(a);
    }
  }

  /** Only what has been scanned and how far the wallet has come bear on the pool. */
  lemma LaterWallet(w: Wallet, next: Wallet, pool: seq<Utxo>)
    requires PoolInv(w, pool) && w.scanned <= next.scanned && next.height >= w.height
    ensures PoolInv(next, pool)
  {
    forall u | u in pool ensures Sound(next, u) {
      assert Sound(w, u);
    }
  }

  // ---- scans

  /** The lists of a purse filtered one by one, and their sum filtered. */
  lemma FilteredPool(p: Purse, s: set<OutPoint>)
    ensures Without(p.Pool(), s)
         == Without(p.w.utxos, s) + (Without(p.held, s) + (Without(p.withheld, s) + Without(p.forgotten, s)))
  {
    WithoutConcat(p.w.utxos, p.Apart(), s);
    WithoutConcat(p.held, p.withheld + p.forgotten, s);
    WithoutConcat(p.withheld, p.forgotten, s);
  }

  /** What a new transaction pays the wallet joins coins the wallet knew before. */
  lemma Joined(w: Wallet, tx: Tx, kept: seq<Utxo>)
    requires PoolInv(w, kept) && tx.Tx? && tx !in w.scanned
    ensures PoolInv(ScanTx(w, tx), kept + NewUtxos(tx))
  {
    CoinsFromPays(tx, 0);
    DistinctConcat(kept, NewUtxos(tx));
    LaterWallet(w, ScanTx(w, tx), kept);
  }

  lemma FilteredInv(w: Wallet, pool: seq<Utxo>, s: set<OutPoint>)
    requires PoolInv(w, pool)
    ensures PoolInv(w, Without(pool, s))
  {
    hide Sound;
    WithoutDistinct(pool, s);
    WithoutMembers(pool, s);
  }

  lemma FreshBalance(pool: seq<Utxo>, tx: Tx)
    requires Distinct(pool) && Proper(tx) && forall u :: u in pool ==> u.value == Worth(u.outpoint)
    ensures Balance(Without(pool, Inputs(tx)) + NewUtxos(tx))
         == Balance(pool) - OwnValue(Points(pool), tx.vin) + Values(tx.vout) - Away(tx.vout)
  {
    hide Distinct;
    DropInputs(pool, tx.vin);
    PaidAndAway(tx, 0);
    assert tx.vout[0..] == tx.vout;
    BalanceConcat(Without(pool, Inputs(tx)), NewUtxos(tx));
  }

  lemma ScanFreshKeeps(p: Purse, tx: Tx)
    requires Inv(p) && Proper(tx) && tx !in p.w.scanned
    ensures Inv(ScanOne(p, tx))
  {
    hide Distinct;
    var kept := Without(p.Pool(), Inputs(tx));
    FilteredPool(p, Inputs(tx));
    FilteredInv(p.w, p.Pool(), Inputs(tx));
    Joined(p.w, tx, kept);
    FreshBalance(p.Pool(), tx);
    hide PoolInv;
    Arranged(ScanOne(p, tx), kept + NewUtxos(tx));
  }

  lemma ScanAgainKeeps(p: Purse, tx: Tx)
    requires Inv(p) && tx.Tx? && tx in p.w.scanned
    ensures Inv(ScanOne(p, tx))
  {
    var next, inputs := ScanOne(p, tx), Inputs(tx);
    WithinRest(p.w.utxos, inputs);
    hide PoolInv;
    Fewer(p.w, p.Pool(), next.Pool());
    BalanceConcat(p.w.utxos, p.Apart());
    BalanceConcat(next.w.utxos, p.Apart());
    LaterInv(p.w, next.w, next.Pool());
  }

  lemma LaterInv(w: Wallet, next: Wallet, pool: seq<Utxo>)
    requires PoolInv(w, pool) && next.scanned == w.scanned && next.height == w.height
    ensures PoolInv(next, pool)
  {
    LaterWallet(w, next, pool);
  }

  lemma ScanKeeps(p: Purse, tx: Tx)
    requires Inv(p) && Proper(tx)
    ensures Inv(ScanOne(p, tx))
  {
    if tx in p.w.scanned {
      ScanAgainKeeps(p, tx);
    } else {
      ScanFreshKeeps(p, tx);
    }
  }

  lemma {:induction false} ScanAllKeeps(p: Purse, txs: seq<Tx>)
    requires Inv(p) && AllProper(txs)
    ensures Inv(ScanAll(p, txs))
    decreases txs
  {
    hide Inv, ScanOne;
    if txs != [] {
      ScanKeeps(p, txs[0]);
      ScanAllKeeps(ScanOne(p, txs[0]), Rest(txs));
    }
  }

  /** The scan of the purse is the wallet's own. */
  lemma {:induction false} ScanAllWallet(p: Purse, txs: seq<Tx>)
    requires AllProper(txs)
    ensures
      var q := ScanAll(p, txs);
      && q.w.utxos == Scan(p.w.utxos, p.w.scanned, txs) && q.w.scanned == p.w.scanned + TxSet(txs)
      && q.w.height == p.w.height && q.minted == p.minted
    decreases txs
  {
    if txs != [] {
      var q := ScanOne(p, txs[0]);
      ScanAllWallet(q, Rest(txs));
      FirstOfSet(txs);
      ScanOneWallet(p, txs[0]);
    }
  }

  lemma ScanOneWallet(p: Purse, tx: Tx)
    requires tx.Tx?
    ensures
      var q := ScanOne(p, tx);
      && q.w.utxos == Without(p.w.utxos, Inputs(tx)) + Added(p.w.scanned, tx) && q.w.scanned == p.w.scanned + {tx}
      && q.w.height == p.w.height && q.minted == p.minted
  {
  }

  lemma FirstOfSet(txs: seq<Tx>)
    requires txs != []
    ensures TxSet(txs) == {txs[0]} + TxSet(txs[1..])
  {
    forall t | t in {txs[0]} + TxSet(txs[1..]) ensures t in TxSet(txs) {
      if t in TxSet(txs[1..]) {
        var i :| 0 <= i < |txs[1..]| && txs[1..][i] == t;
        assert txs[i + 1] == t;
      } else {
        assert txs[0] == t;
      }
    }
  }

  // ---- blocks

  lemma {:induction false} AtHeightValues(utxos: seq<Utxo>, txs: set<Tx>, height: nat)
    ensures Balance(AtHeight(utxos, txs, height)) == Balance(utxos)
  {
    if utxos != [] {
      AtHeightValues(utxos[1..], txs, height);
    }
  }

  /** The same coins at other heights are as sound. */
  lemma Relabelled(w: Wallet, utxos: seq<Utxo>, others: seq<Utxo>, apart: seq<Utxo>)
    requires PoolInv(w, utxos + apart) && |others| == |utxos|
    requires forall i :: 0 <= i < |utxos| ==> SameCoin(others[i], utxos[i])
    ensures PoolInv(w, others + apart)
  {
    hide Past;
    var was, pool := utxos + apart, others + apart;
    forall i | 0 <= i < |pool| ensures SameCoin(pool[i], was[i]) && Sound(w, was[i]) {
      assert was[i] in was;
    }
    assert forall i, j :: 0 <= i < j < |pool| ==> was[i].outpoint != was[j].outpoint;
  }

  /** The coinbase of the wallet's next block joins coins the wallet knew before. */
  lemma CoinbaseJoins(w: Wallet, next: Wallet, pool: seq<Utxo>)
    requires PoolInv(w, pool) && next.scanned == w.scanned && next.height == w.height + 1
    ensures PoolInv(next, pool + [CoinbaseCoin(w.height + 1)])
  {
    var coin := CoinbaseCoin(w.height + 1);
    assert !Past(w, coin.outpoint.tx);
    DistinctConcat(pool, [coin]);
    LaterWallet(w, next, pool);
  }

  /**
    A block, once its transactions have been scanned: relabelled, the mempool's coins set apart, the coinbase behind.
   */
  lemma MinedFrom(q: Purse, next: Purse, cached: seq<Utxo>, gone: set<OutPoint>, txs: set<Tx>)
    requires Inv(q) && cached == AtHeight(q.w.utxos, txs, q.w.height + 1)
    requires next.w.utxos == Without(cached, gone) + [CoinbaseCoin(q.w.height + 1)]
    requires next.w.scanned == q.w.scanned && next.w.height == q.w.height + 1
    requires next.held == q.held && next.forgotten == q.forgotten && next.withheld == q.withheld + Within(cached, gone)
    requires next.Due() == q.Due() + Subsidy(q.w.height + 1)
    ensures Inv(next)
  {
    hide PoolInv, Within;
    var coin := CoinbaseCoin(q.w.height + 1);
    AtHeightCoins(q.w.utxos, txs, q.w.height + 1);
    Relabelled(q.w, q.w.utxos, cached, q.Apart());
    CoinbaseJoins(q.w, next.w, cached + q.Apart());
    AtHeightValues(q.w.utxos, txs, q.w.height + 1);
    BalanceConcat(q.w.utxos, q.Apart());
    BalanceConcat(cached, q.Apart());
    BalanceConcat(cached + q.Apart(), [coin]);
    WithinRest(cached, gone);
    Arranged(next, cached + q.Apart() + [coin]);
  }

  lemma MinedKeeps(p: Purse, confirm: seq<Tx>, now: int, spends: set<OutPoint>)
    requires Inv(p) && Enabled(p, Mined(confirm, now, spends))
    ensures Inv(Step(p, Mined(confirm, now, spends)))
  {
    hide Inv, AtHeight, Within, Scan, ScanAll;
    var q := ScanAll(p, confirm);
    ScanAllKeeps(p, confirm);
    ScanAllWallet(p, confirm);
    var cached := AtHeight(q.w.utxos, TxSet(confirm), p.w.height + 1);
    MinedFrom(q, Step(p, Mined(confirm, now, spends)), cached, AddedPoints(p.w, confirm) * spends, TxSet(confirm));
  }

  lemma UnreadFrom(q: Purse, next: Purse, txs: set<Tx>)
    requires Inv(q) && next.w.utxos == AtHeight(q.w.utxos, txs, q.w.height + 1)
    requires next.w.scanned == q.w.scanned && next.w.height == q.w.height && next.Apart() == q.Apart()
    requires next.Due() == q.Due()
    ensures Inv(next)
  {
    hide PoolInv;
    AtHeightCoins(q.w.utxos, txs, q.w.height + 1);
    AtHeightValues(q.w.utxos, txs, q.w.height + 1);
    Relabelled(q.w, q.w.utxos, next.w.utxos, q.Apart());
    LaterInv(q.w, next.w, next.Pool());
    BalanceConcat(q.w.utxos, q.Apart());
    BalanceConcat(next.w.utxos, q.Apart());
  }

  lemma UnreadKeeps(p: Purse, confirm: seq<Tx>)
    requires Inv(p) && Enabled(p, Unread(confirm))
    ensures Inv(Step(p, Unread(confirm)))
  {
    hide Inv, AtHeight, Scan, ScanAll;
    ScanAllKeeps(p, confirm);
    ScanAllWallet(p, confirm);
    UnreadFrom(ScanAll(p, confirm), Step(p, Unread(confirm)), TxSet(confirm));
  }

  // ---- takes and resyncs

  /** The same coins in other lists. */
  lemma Reshelved(p: Purse, next: Purse)
    requires Inv(p) && multiset(next.Pool()) == multiset(p.Pool()) && next.Due() == p.Due()
    requires next.w.scanned == p.w.scanned && next.w.height == p.w.height
    ensures Inv(next)
  {
    hide PoolInv;
    LaterInv(p.w, next.w, p.Pool());
    Arranged(next, p.Pool());
  }

  lemma TakenKeeps(p: Purse, coin: Utxo, left: seq<Utxo>)
    requires Inv(p) && Enabled(p, Taken(coin, left))
    ensures Inv(Step(p, Taken(coin, left)))
  {
    hide Inv;
    OneMoved(p.w.utxos, p.held, p.withheld + p.forgotten, coin, left);
    Reshelved(p, Step(p, Taken(coin, left)));
  }

  lemma OneMoved(utxos: seq<Utxo>, held: seq<Utxo>, rest: seq<Utxo>, coin: Utxo, left: seq<Utxo>)
    requires coin in utxos && multiset(left) == multiset(utxos) - multiset{coin}
    ensures multiset(left + ((held + [coin]) + rest)) == multiset(utxos + (held + rest))
  {
    assert coin in multiset(utxos);
  }

  lemma AllMoved(
      utxos: seq<Utxo>, held: seq<Utxo>, withheld: seq<Utxo>, forgotten: seq<Utxo>, kept: seq<Utxo>, unkept: seq<Utxo>)
    requires multiset(kept + unkept) == multiset(utxos)
    ensures multiset([] + ((held + kept) + (withheld + (forgotten + unkept))))
         == multiset(utxos + (held + (withheld + forgotten)))
  {
  }

  lemma TakenAllKeeps(p: Purse, includeImmature: bool, confirmedOnly: bool)
    requires Inv(p)
    ensures Inv(Step(p, TakenAll(includeImmature, confirmedOnly)))
  {
    hide Inv, KeptCoins, Unkept;
    KeptRest(p.w.utxos, p.w.height, includeImmature, confirmedOnly);
    AllMoved(p.w.utxos, p.held, p.withheld, p.forgotten,
             KeptCoins(p.w.utxos, p.w.height, includeImmature, confirmedOnly),
             Unkept(p.w.utxos, p.w.height, includeImmature, confirmedOnly));
    Reshelved(p, Step(p, TakenAll(includeImmature, confirmedOnly)));
  }

  lemma ResyncedKeeps(p: Purse, tip: Block, medianTime: int, left: seq<Utxo>)
    requires Inv(p) && Enabled(p, Resynced(tip, medianTime, left))
    ensures Inv(Step(p, Resynced(tip, medianTime, left)))
  {
    hide PoolInv;
    var next := Step(p, Resynced(tip, medianTime, left));
    Relabelled(p.w, p.w.utxos, left, p.Apart());
    HigherInv(p.w, next.w, next.Pool());
    SameBalance(p.w.utxos, left);
    BalanceConcat(p.w.utxos, p.Apart());
    BalanceConcat(left, p.Apart());
  }

  lemma HigherInv(w: Wallet, next: Wallet, pool: seq<Utxo>)
    requires PoolInv(w, pool) && next.scanned == w.scanned && next.height >= w.height
    ensures PoolInv(next, pool)
  {
    LaterWallet(w, next, pool);
  }

  lemma {:induction false} SameBalance(a: seq<Utxo>, b: seq<Utxo>)
    requires |a| == |b| && forall i :: 0 <= i < |a| ==> SameCoin(b[i], a[i])
    ensures Balance(a) == Balance(b)
    decreases a
  {
    if a != [] {
      assert forall i :: 0 <= i < |a[1..]| ==> SameCoin(b[1..][i], a[1..][i]);
      SameBalance(a[1..], b[1..]);
    }
  }

  // ---- every run

  lemma StepKeeps(p: Purse, e: Event)
    requires Inv(p) && Enabled(p, e)
    ensures Inv(Step(p, e))
  {
    hide Inv, ScanOne, ScanAll, KeptCoins, Unkept, Within;
    match e
    case Sent(tx) => ScanKeeps(p, tx);
    case Mined(confirm, now, spends) => MinedKeeps(p, confirm, now, spends);
    case Unread(confirm) => UnreadKeeps(p, confirm);
    case Taken(coin, left) => TakenKeeps(p, coin, left);
    case TakenAll(includeImmature, confirmedOnly) => TakenAllKeeps(p, includeImmature, confirmedOnly);
    case Looked(left) => Reshelved(p, Step(p, Looked(left)));
    case Resynced(tip, medianTime, left) => ResyncedKeeps(p, tip, medianTime, left);
  }

  ghost predicate RunEnabled(p: Purse, events: seq<Event>)
    decreases events
  {
    events != [] ==> Enabled(p, events[0]) && RunEnabled(Step(p, events[0]), events[1..])
  }

  function Run(p: Purse, events: seq<Event>): Purse
    requires RunEnabled(p, events)
    decreases events
  {
    if events == [] then p else Run(Step(p, events[0]), events[1..])
  }

  lemma {:induction false} RunSound(p: Purse, events: seq<Event>)
    requires Inv(p) && RunEnabled(p, events)
    ensures Inv(Run(p, events))
    decreases events
  {
    hide Inv, Step, Enabled;
    if events != [] {
      StepKeeps(p, events[0]);
      RunSound(Step(p, events[0]), events[1..]);
    }
  }

  function NewPurse(w: Wallet): Purse {
    Purse(w, [], [], [], 0, 0, 0, 0)
  }

  /**
    Over every run of a new wallet: its balance, with the coins callers hold, those left out because the mempool
    spends them and those `get_utxos` forgot, is the subsidies it cached and what others put into its
    transactions, less the fees and the payments those made.
   */
  lemma ValueConserved(w: Wallet, events: seq<Event>)
    requires w.utxos == [] && w.scanned == {} && RunEnabled(NewPurse(w), events)
    ensures
      var p := Run(NewPurse(w), events);
      Balance(p.w.utxos) + Balance(p.held) + Balance(p.withheld) + Balance(p.forgotten)
      == p.minted + p.outside - p.fees - p.away
  {
    hide Step, Enabled, PoolInv, Run, RunEnabled;
    NewPurseSound(w);
    RunSound(NewPurse(w), events);
    var p := Run(NewPurse(w), events);
    BalanceConcat(p.w.utxos, p.Apart());
    BalanceConcat(p.held, p.withheld + p.forgotten);
    BalanceConcat(p.withheld, p.forgotten);
  }

  lemma NewPurseSound(w: Wallet)
    requires w.utxos == []
    ensures Inv(NewPurse(w))
  {
    assert NewPurse(w).Pool() == [];
  }

  /** Every coin cached or set apart, in any run, is one outpoint's, worth its output, and none is there twice. */
  lemma CoinsSound(w: Wallet, events: seq<Event>, u: Utxo)
    requires w.utxos == [] && w.scanned == {} && RunEnabled(NewPurse(w), events)
    requires u in Run(NewPurse(w), events).Pool()
    ensures IsOutput(u.outpoint) && u.value == u.outpoint.tx.vout[u.outpoint.vout].value
    ensures Distinct(Run(NewPurse(w), events).Pool())
  {
    hide Step, Enabled, Run, RunEnabled;
    NewPurseSound(w);
    RunSound(NewPurse(w), events);
  }

  /** A `get_utxos` marking the cache spent forgets nothing exactly where its filters keep all of it. */
  lemma ForgetsNothingIff(p: Purse, includeImmature: bool, confirmedOnly: bool)
    ensures
      var next := Step(p, TakenAll(includeImmature, confirmedOnly));
      next.forgotten == p.forgotten <==> KeptCoins(p.w.utxos, p.w.height, includeImmature, confirmedOnly) == p.w.utxos
  {
    hide KeptCoins, Unkept, PassesAll;
    KeptRest(p.w.utxos, p.w.height, includeImmature, confirmedOnly);
    var gone := Unkept(p.w.utxos, p.w.height, includeImmature, confirmedOnly);
    assert |p.forgotten + gone| == |p.forgotten| + |gone|;
  }

  // ---- runs that spend only the wallet's coins

  /** No scanned transaction spends a coin of the pool, and what they spend was known before them. */
  ghost predicate Unspent(p: Purse) {
    && (forall t :: t in p.w.scanned ==> t.Tx? && Inputs(t) !! Points(p.Pool()))
    && (forall t, q :: t in p.w.scanned && q in Inputs(t) ==> Past(p.w, q.tx))
  }

  ghost predicate OwnInv(p: Purse) {
    Inv(p) && Unspent(p) && p.outside == 0
  }

  /** A transaction scanned before, or one that spends only coins of the pool. */
  predicate OwnScan(p: Purse, tx: Tx) {
    tx in p.w.scanned || Inputs(tx) <= Points(p.Pool())
  }

  predicate OwnScans(p: Purse, txs: seq<Tx>)
    requires AllProper(txs)
    decreases txs
  {
    txs != [] ==> OwnScan(p, txs[0]) && OwnScans(ScanOne(p, txs[0]), Rest(txs))
  }

  /** An event whose transactions spend, each at its turn, only what the wallet has. */
  predicate OwnEvent(p: Purse, e: Event)
    requires Enabled(p, e)
  {
    match e
    case Sent(tx) => OwnScan(p, tx)
    case Mined(confirm, now, spends) => OwnScans(p, confirm)
    case Unread(confirm) => OwnScans(p, confirm)
    case _ => true
  }

  lemma {:induction false} AllOwn(points: set<OutPoint>, vin: seq<TxIn>)
    requires InputsOf(vin) <= points
    ensures OwnValue(points, vin) == InValue(vin)
    decreases vin
  {
    if vin != [] {
      assert vin[0].prevOut in InputsOf(vin);
      assert InputsOf(vin[1..]) <= InputsOf(vin) by {
        assert vin == [vin[0]] + vin[1..];
      }
      AllOwn(points, vin[1..]);
    }
  }

  lemma PointsOfMultiset(a: seq<Utxo>, b: seq<Utxo>)
    requires multiset(a) == multiset(b)
    ensures Points(a) == Points(b)
  {
    forall u | u in a || u in b ensures u in a && u in b {
      assert u in multiset(a) && u in multiset(b);
    }
    forall i | 0 <= i < |a| ensures a[i].outpoint in Points(b) {
      PointsMember(b, a[i]);
    }
    forall i | 0 <= i < |b| ensures b[i].outpoint in Points(a) {
      PointsMember(a, b[i]);
    }
  }

  /** The outpoints of the pool once a new transaction has been scanned. */
  lemma FreshPoints(p: Purse, tx: Tx)
    requires tx.Tx? && tx !in p.w.scanned
    ensures Points(ScanOne(p, tx).Pool()) == (Points(p.Pool()) - Inputs(tx)) + Points(NewUtxos(tx))
  {
    var kept := Without(p.Pool(), Inputs(tx));
    FilteredPool(p, Inputs(tx));
    PointsOfMultiset(ScanOne(p, tx).Pool(), kept + NewUtxos(tx));
    PointsConcat(kept, NewUtxos(tx));
    PointsWithout(p.Pool(), Inputs(tx));
  }

  lemma NewPoints(tx: Tx)
    ensures forall q :: q in Points(NewUtxos(tx)) ==> q.tx == tx
  {
    CoinsFromPays(tx, 0);
    forall q | q in Points(NewUtxos(tx)) ensures q.tx == tx {
      var i :| 0 <= i < |NewUtxos(tx)| && NewUtxos(tx)[i].outpoint == q;
      assert NewUtxos(tx)[i] in NewUtxos(tx);
    }
  }

  lemma PointPast(p: Purse, q: OutPoint)
    requires Inv(p) && q in Points(p.Pool())
    ensures Past(p.w, q.tx)
  {
    var pool := p.Pool();
    var i :| 0 <= i < |pool| && pool[i].outpoint == q;
    assert Sound(p.w, pool[i]);
  }

  lemma OwnFresh(p: Purse, tx: Tx)
    requires OwnInv(p) && Proper(tx) && tx !in p.w.scanned && Inputs(tx) <= Points(p.Pool())
    ensures OwnInv(ScanOne(p, tx))
  {
    ScanFreshKeeps(p, tx);
    AllOwn(Points(p.Pool()), tx.vin);
    FreshPoints(p, tx);
    NewPoints(tx);
    NoSelfSpend(tx);
    forall q | q in Inputs(tx) ensures Past(p.w, q.tx) {
      PointPast(p, q);
    }
    hide Inv;
    FreshUnspent(p, tx, ScanOne(p, tx));
  }

  lemma FreshUnspent(p: Purse, tx: Tx, next: Purse)
    requires Unspent(p) && tx.Tx? && tx !in p.w.scanned
    requires next.w.scanned == p.w.scanned + {tx} && next.w.height == p.w.height
    requires Points(next.Pool()) == (Points(p.Pool()) - Inputs(tx)) + Points(NewUtxos(tx))
    requires (forall q :: q in Points(NewUtxos(tx)) ==> q.tx == tx) && (forall q :: q in Inputs(tx) ==> q.tx != tx)
    requires forall q :: q in Inputs(tx) ==> Past(p.w, q.tx)
    ensures Unspent(next)
  {
    forall t | t in next.w.scanned ensures t.Tx? && Inputs(t) !! Points(next.Pool()) {
      if t != tx {
        forall q | q in Inputs(t) ensures q !in Points(next.Pool()) {
          assert Past(p.w, q.tx);
        }
      }
    }
    forall t, q | t in next.w.scanned && q in Inputs(t) ensures Past(next.w, q.tx) {
      assert Past(p.w, q.tx);
    }
  }

  /** A transaction scanned before has nothing left to drop. */
  lemma OwnAgain(p: Purse, tx: Tx)
    requires OwnInv(p) && tx.Tx? && tx in p.w.scanned
    ensures ScanOne(p, tx) == p
  {
    hide Inv;
    PointsConcat(p.w.utxos, p.Apart());
    NothingToDrop(p.w.utxos, Inputs(tx));
    NothingWithin(p.w.utxos, Inputs(tx));
  }

  lemma {:induction false} NothingWithin(a: seq<Utxo>, s: set<OutPoint>)
    requires Points(a) !! s
    ensures Within(a, s) == []
    decreases a
  {
    if a != [] {
      PointsConcat([a[0]], a[1..]);
      assert a == [a[0]] + a[1..];
      PointsMember(a, a[0]);
      NothingWithin(a[1..], s);
    }
  }

  lemma OwnScanKeeps(p: Purse, tx: Tx)
    requires OwnInv(p) && Proper(tx) && OwnScan(p, tx)
    ensures OwnInv(ScanOne(p, tx))
  {
    hide OwnInv;
    if tx in p.w.scanned {
      OwnAgain(p, tx);
    } else {
      OwnFresh(p, tx);
    }
  }

  lemma {:induction false} OwnScansKeep(p: Purse, txs: seq<Tx>)
    requires OwnInv(p) && AllProper(txs) && OwnScans(p, txs)
    ensures OwnInv(ScanAll(p, txs))
    decreases txs
  {
    hide OwnInv, ScanOne, OwnScan;
    if txs != [] {
      OwnScanKeeps(p, txs[0]);
      OwnScansKeep(ScanOne(p, txs[0]), Rest(txs));
    }
  }

  /** No more outpoints than before but a coinbase's, and nothing more scanned. */
  lemma UnspentStays(p: Purse, next: Purse, more: set<OutPoint>)
    requires Unspent(p) && next.w.scanned == p.w.scanned && next.w.height >= p.w.height
    requires Points(next.Pool()) <= Points(p.Pool()) + more && forall q :: q in more ==> !Past(p.w, q.tx)
    ensures Unspent(next)
  {
    forall t | t in next.w.scanned ensures Inputs(t) !! Points(next.Pool()) {
      forall q | q in Inputs(t) ensures q !in Points(next.Pool()) {
        assert Past(p.w, q.tx);
      }
    }
    forall t, q | t in next.w.scanned && q in Inputs(t) ensures Past(next.w, q.tx) {
      assert Past(p.w, q.tx);
    }
  }

  lemma AtHeightPoints(utxos: seq<Utxo>, txs: set<Tx>, height: nat)
    ensures Points(AtHeight(utxos, txs, height)) == Points(utxos)
  {
    AtHeightCoins(utxos, txs, height);
    assert forall i :: 0 <= i < |utxos| ==> AtHeight(utxos, txs, height)[i].outpoint == utxos[i].outpoint;
  }

  /** A cache split in two and one coin added holds what it held, and that coin. */
  lemma SplitPoints(
      cached: seq<Utxo>, gone: set<OutPoint>, held: seq<Utxo>, withheld: seq<Utxo>, forgotten: seq<Utxo>, coin: Utxo)
    ensures Points((Without(cached, gone) + [coin]) + (held + ((withheld + Within(cached, gone)) + forgotten)))
         == Points(cached + (held + (withheld + forgotten))) + {coin.outpoint}
  {
    hide Within, Without;
    var stays, goes, apart := Without(cached, gone), Within(cached, gone), held + (withheld + forgotten);
    WithinRest(cached, gone);
    assert multiset((stays + [coin]) + (held + ((withheld + goes) + forgotten))) == multiset((cached + apart) + [coin]);
    PointsOfMultiset((stays + [coin]) + (held + ((withheld + goes) + forgotten)), (cached + apart) + [coin]);
    PointsConcat(cached + apart, [coin]);
    OnlyPoint(coin);
  }

  lemma MinedOwn(q: Purse, next: Purse, cached: seq<Utxo>, gone: set<OutPoint>, txs: set<Tx>)
    requires Unspent(q) && cached == AtHeight(q.w.utxos, txs, q.w.height + 1)
    requires next.w.utxos == Without(cached, gone) + [CoinbaseCoin(q.w.height + 1)]
    requires next.w.scanned == q.w.scanned && next.w.height == q.w.height + 1
    requires next.held == q.held && next.forgotten == q.forgotten && next.withheld == q.withheld + Within(cached, gone)
    ensures Unspent(next)
  {
    hide Unspent, Within, Without, AtHeight, Points;
    var coin := CoinbaseCoin(q.w.height + 1);
    AtHeightPoints(q.w.utxos, txs, q.w.height + 1);
    SplitPoints(cached, gone, q.held, q.withheld, q.forgotten, coin);
    PointsConcat(cached, q.Apart());
    PointsConcat(q.w.utxos, q.Apart());
    assert !Past(q.w, coin.outpoint.tx);
    UnspentStays(q, next, {coin.outpoint});
  }

  lemma OnlyPoint(u: Utxo)
    ensures Points([u]) == {u.outpoint}
  {
    assert [u][0] == u;
  }

  lemma MinedOwnKeeps(p: Purse, confirm: seq<Tx>, now: int, spends: set<OutPoint>)
    requires OwnInv(p) && Enabled(p, Mined(confirm, now, spends)) && OwnEvent(p, Mined(confirm, now, spends))
    ensures Unspent(Step(p, Mined(confirm, now, spends))) && Step(p, Mined(confirm, now, spends)).outside == 0
  {
    hide AtHeight, Within, Scan, ScanAll, Unspent, Inv;
    OwnScansKeep(p, confirm);
    ScanAllWallet(p, confirm);
    var q := ScanAll(p, confirm);
    var cached := AtHeight(q.w.utxos, TxSet(confirm), p.w.height + 1);
    MinedOwn(q, Step(p, Mined(confirm, now, spends)), cached, AddedPoints(p.w, confirm) * spends, TxSet(confirm));
  }

  lemma UnreadOwnKeeps(p: Purse, confirm: seq<Tx>)
    requires OwnInv(p) && Enabled(p, Unread(confirm)) && OwnEvent(p, Unread(confirm))
    ensures Unspent(Step(p, Unread(confirm))) && Step(p, Unread(confirm)).outside == 0
  {
    hide AtHeight, Scan, ScanAll, Unspent, Inv;
    OwnScansKeep(p, confirm);
    ScanAllWallet(p, confirm);
    var q, next := ScanAll(p, confirm), Step(p, Unread(confirm));
    AtHeightPoints(q.w.utxos, TxSet(confirm), p.w.height + 1);
    PointsConcat(q.w.utxos, q.Apart());
    PointsConcat(next.w.utxos, q.Apart());
    UnspentStays(q, next, {});
  }

  lemma ShelvedOwn(p: Purse, next: Purse)
    requires Unspent(p) && multiset(next.Pool()) == multiset(p.Pool())
    requires next.w.scanned == p.w.scanned && next.w.height == p.w.height
    ensures Unspent(next)
  {
    hide Unspent;
    PointsOfMultiset(next.Pool(), p.Pool());
    UnspentStays(p, next, {});
  }

  lemma ResyncedOwn(p: Purse, tip: Block, medianTime: int, left: seq<Utxo>)
    requires OwnInv(p) && Enabled(p, Resynced(tip, medianTime, left))
    ensures Unspent(Step(p, Resynced(tip, medianTime, left)))
  {
    hide Unspent, Inv;
    var next := Step(p, Resynced(tip, medianTime, left));
    assert Points(left) == Points(p.w.utxos) by {
      assert forall i :: 0 <= i < |left| ==> SameCoin(left[i], p.w.utxos[i]);
    }
    PointsConcat(p.w.utxos, p.Apart());
    PointsConcat(left, p.Apart());
    UnspentStays(p, next, {});
  }

  lemma TakesOwn(p: Purse, e: Event)
    requires OwnInv(p) && Enabled(p, e) && (e.Taken? || e.TakenAll? || e.Looked?)
    ensures Unspent(Step(p, e))
  {
    hide Unspent, Inv, KeptCoins, Unkept;
    match e {
      case Taken(coin, left) =>
        OneMoved(p.w.utxos, p.held, p.withheld + p.forgotten, coin, left);
        ShelvedOwn(p, Step(p, e));
      case TakenAll(includeImmature, confirmedOnly) =>
        var kept := KeptCoins(p.w.utxos, p.w.height, includeImmature, confirmedOnly);
        var unkept := Unkept(p.w.utxos, p.w.height, includeImmature, confirmedOnly);
        KeptRest(p.w.utxos, p.w.height, includeImmature, confirmedOnly);
        AllMoved(p.w.utxos, p.held, p.withheld, p.forgotten, kept, unkept);
        ShelvedOwn(p, Step(p, e));
      case Looked(left) =>
        ShelvedOwn(p, Step(p, e));
    }
  }

  lemma OwnStepKeeps(p: Purse, e: Event)
    requires OwnInv(p) && Enabled(p, e) && OwnEvent(p, e)
    ensures OwnInv(Step(p, e))
  {
    hide Inv, Unspent, ScanAll, OwnScans, KeptCoins, Unkept, Within;
    StepKeeps(p, e);
    match e {
      case Sent(tx) => OwnScanKeeps(p, tx);
      case Mined(confirm, now, spends) => MinedOwnKeeps(p, confirm, now, spends);
      case Unread(confirm) => UnreadOwnKeeps(p, confirm);
      case Resynced(tip, medianTime, left) => ResyncedOwn(p, tip, medianTime, left);
      case _ => TakesOwn(p, e);
    }
  }

  ghost predicate OwnRun(p: Purse, events: seq<Event>)
    requires RunEnabled(p, events)
    decreases events
  {
    events != [] ==> OwnEvent(p, events[0]) && OwnRun(Step(p, events[0]), events[1..])
  }

  lemma {:induction false} OwnRunKeeps(p: Purse, events: seq<Event>)
    requires OwnInv(p) && RunEnabled(p, events) && OwnRun(p, events)
    ensures OwnInv(Run(p, events))
    decreases events
  {
    hide OwnInv, Step, Enabled, OwnEvent;
    if events != [] {
      OwnStepKeeps(p, events[0]);
      OwnRunKeeps(Step(p, events[0]), events[1..]);
    }
  }

  /**
    In a run whose transactions spend only the wallet's own coins, each at its turn, sent or only confirmed,
    nothing comes from outside: the coins are the subsidies less the fees and the payments, to the satoshi.
   */
  lemma OwnValueConserved(w: Wallet, events: seq<Event>)
    requires w.utxos == [] && w.scanned == {} && RunEnabled(NewPurse(w), events) && OwnRun(NewPurse(w), events)
    ensures
      var p := Run(NewPurse(w), events);
      Balance(p.w.utxos) + Balance(p.held) + Balance(p.withheld) + Balance(p.forgotten) == p.minted - p.fees - p.away
  {
    hide Step, Enabled, Run, RunEnabled, OwnRun, Inv;
    ValueConserved(w, events);
    NewPurseSound(w);
    OwnRunKeeps(NewPurse(w), events);
  }
}
