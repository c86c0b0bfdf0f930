/**
  Whole runs of a wallet against a node: its own sends, takes and blocks, interleaved with transactions and
  blocks of anyone else's, and the resyncs that follow them.
 */
module WalletRuns {
  import opened Wrappers
  import opened Transactions
  import opened Blocks
  import opened Coins
  import opened WalletState

  /**
    The wallet and the node's ledger. `seen` holds every transaction the node ever took, `minedAt` the height of
    each one its chain holds. `entered` lists the outpoints that have entered the cache, in order.
   */
  datatype World = World(
    w: Wallet, nodeHeight: nat, seen: set<Tx>, mempool: set<Tx>, minedAt: map<Tx, nat>, entered: seq<OutPoint>)

  // ---- the node

  /** Every transaction an input names is one of `known`. */
  predicate ParentsIn(tx: Tx, known: set<Tx>) {
    forall p :: p in Inputs(tx) ==> p.tx in known
  }

  /** A block's transactions are new to the chain, each after the ones it spends. */
  predicate BlockOrdered(known: set<Tx>, txs: seq<Tx>)
    decreases txs
  {
    txs != [] ==>
      && txs[0].Tx? && txs[0] !in known && ParentsIn(txs[0], known)
      && BlockOrdered(known + {txs[0]}, txs[1..])
  }

  function MineAll(minedAt: map<Tx, nat>, txs: seq<Tx>, height: nat): map<Tx, nat> {
    map t | t in minedAt.Keys + TxSet(txs) :: if t in minedAt then minedAt[t] else height
  }

  /** What the node's mempool may become: known transactions, and every unmined one the wallet sent or confirmed. */
  predicate KeepsMempool(s: World, mempool: set<Tx>) {
    mempool <= s.seen && forall t :: t in s.w.scanned && t !in s.minedAt ==> t in mempool
  }

  /** The outpoints the mempool's transactions spend. */
  function SpentBy(txs: set<Tx>): set<OutPoint> {
    set t, p | t in txs && p in Inputs(t) :: p
  }

  function PointList(utxos: seq<Utxo>): (r: seq<OutPoint>)
    ensures |r| == |utxos| && forall i :: 0 <= i < |r| ==> r[i] == utxos[i].outpoint
  {
    seq(|utxos|, i requires 0 <= i < |utxos| => utxos[i].outpoint)
  }

  // ---- the steps

  datatype Event =
    | NodeTx(tx: Tx)                                          // anyone's broadcast
    | NodeMempool(mempool: set<Tx>)                           // evictions and expiries
    | NodeBlock(txs: seq<Tx>, coinbase: Tx, after: set<Tx>)   // a block mined elsewhere
    | Send(tx: Tx)
    | Take(left: seq<Utxo>)                                   // a `get_utxo` or a `get_utxos`
    | Mine(confirm: seq<Tx>, now: int, after: set<Tx>)        // one accepted block of `generate`
    | MineUnread(confirm: seq<Tx>, after: set<Tx>)            // one accepted, the mempool then unreadable: it raises
    | Resync(tip: Block, medianTime: int, left: seq<Utxo>)    // every coin re-read, or those before an unusable answer

  /** A transaction the node has not taken before, all of whose parents it knows. */
  predicate NewToNode(s: World, tx: Tx) {
    tx.Tx? && tx !in s.seen && ParentsIn(tx, s.seen)
  }

  /** No transaction the wallet sent or confirmed spends a coin `tx` pays the wallet. */
  predicate NoChildSent(s: World, tx: Tx) {
    forall t :: t in s.w.scanned ==> Inputs(t) !! Points(NewUtxos(tx))
  }

  /** No transaction the wallet sent or confirmed spends a coin that confirming these adds and leaves unspent. */
  predicate NoAddedSpent(s: World, confirm: seq<Tx>) {
    forall t :: t in s.w.scanned ==> Inputs(t) !! AddedPoints(s.w, confirm) - AllInputs(confirm)
  }

  predicate BlockConnects(s: World, txs: seq<Tx>, coinbase: Tx) {
    && BlockOrdered(s.minedAt.Keys, txs)
    && coinbase.CoinbaseTx? && coinbase.height == s.nodeHeight + 1
  }

  /** The height a resync gives a coin: the block's own where the UTXO set holds it. */
  predicate HeldBy(s: World, p: OutPoint) {
    p.tx in s.minedAt && forall t :: t in s.minedAt ==> p !in Inputs(t)
  }

  predicate Reread(s: World, u: Utxo, v: Utxo) {
    v == if u.coinbase then u else u.(height := if HeldBy(s, u.outpoint) then s.minedAt[u.outpoint.tx] else 0)
  }

  /**
    A block of the wallet's own: on the node's tip, in spend order, and leaving in the mempool every
    transaction the wallet sent that is still unmined.
   */
  predicate MineEnabled(s: World, confirm: seq<Tx>, after: set<Tx>) {
    && s.w.height == s.nodeHeight
    && BlockConnects(s, confirm, Coinbase(s.nodeHeight + 1))
    && after <= s.seen + TxSet(confirm) + {Coinbase(s.nodeHeight + 1)}
    && forall t :: t in s.w.scanned && t !in s.minedAt && t !in confirm ==> t in after
  }

  predicate Enabled(s: World, e: Event) {
    match e
    case NodeTx(tx) => NewToNode(s, tx)
    case NodeMempool(m) => KeepsMempool(s, m)
    case NodeBlock(txs, coinbase, after) =>
      BlockConnects(s, txs, coinbase) && KeepsMempool(Connected(s, txs, coinbase), after)
    case Send(tx) => tx.Tx? && tx !in s.w.scanned && (NewToNode(s, tx) || (tx in s.mempool && NoChildSent(s, tx)))
    case Take(left) => multiset(left) <= multiset(s.w.utxos)
    case Mine(confirm, now, after) => MineEnabled(s, confirm, after)
    case MineUnread(confirm, after) =>
      MineEnabled(s, confirm, after) && AddedPoints(s.w, confirm) != {} && NoAddedSpent(s, confirm)
    case Resync(tip, medianTime, left) =>
      && Links(tip) == s.nodeHeight
      && |left| == |s.w.utxos|
      && forall i :: 0 <= i < |left| ==> Reread(s, s.w.utxos[i], left[i]) || left[i] == s.w.utxos[i]
  }

  /** The node once it has connected a block. */
  function Connected(s: World, txs: seq<Tx>, coinbase: Tx): World {
    s.(nodeHeight := s.nodeHeight + 1,
       seen := s.seen + TxSet(txs) + {coinbase},
       minedAt := MineAll(s.minedAt, txs + [coinbase], s.nodeHeight + 1))
  }

  function Step(s: World, e: Event): World {
    match e
    case NodeTx(tx) => s.(seen := s.seen + {tx}, mempool := s.mempool + {tx})
    case NodeMempool(m) => s.(mempool := m)
    case NodeBlock(txs, coinbase, after) => Connected(s, txs, coinbase).(mempool := after)
    case Send(tx) =>
      s.(w := ScanTx(s.w, tx), seen := s.seen + {tx}, mempool := s.mempool + {tx},
         entered := s.entered + PointList(NewUtxos(tx)))
    case Take(left) => s.(w := s.w.(utxos := left))
    case Mine(confirm, now, after) =>
      Connected(s, confirm, Coinbase(s.nodeHeight + 1)).(
        w := Confirmed(s.w, confirm, now, SpentBy(after)), mempool := after,
        entered := s.entered + PointList(News(s.w.scanned, confirm)) + [CoinbaseCoin(s.w.height + 1).outpoint])
    case MineUnread(confirm, after) =>
      Connected(s, confirm, Coinbase(s.nodeHeight + 1)).(
        w := Scanned(s.w, confirm), mempool := after,
        entered := s.entered + PointList(News(s.w.scanned, confirm)))
    case Resync(tip, medianTime, left) =>
      s.(w := s.w.(utxos := left, tip := tip, height := Links(tip), lastTime := medianTime))
  }

  // ---- the invariant

  /** The ledger is closed under parents, and holds everything the wallet sent or confirmed. */
  ghost predicate LedgerInv(s: World) {
    && (forall t :: t in s.seen ==> ParentsIn(t, s.seen))
    && (forall t :: t in s.minedAt ==> ParentsIn(t, s.minedAt.Keys))
    && (forall t :: t in s.minedAt ==> 1 <= s.minedAt[t] <= s.nodeHeight)
    && s.minedAt.Keys <= s.seen && s.w.scanned <= s.seen
    && KeepsMempool(s, s.mempool)
    && (forall t :: t in s.w.scanned ==> t.Tx?)
    && (forall t :: t in s.seen && t.CoinbaseTx? ==> t.height <= s.nodeHeight)
    && s.w.height <= s.nodeHeight
  }

  /** The cache holds no outpoint twice, and no coin a transaction the wallet sent or confirmed spends. */
  ghost predicate CacheInv(s: World) {
    && Distinct(s.w.utxos)
    && (forall t :: t in s.w.scanned ==> Inputs(t) !! Points(s.w.utxos))
  }

  /** Each outpoint has entered the cache once at most, from a scanned transaction or one of the wallet's blocks. */
  ghost predicate EnteredInv(s: World) {
    && (forall i, j :: 0 <= i < j < |s.entered| ==> s.entered[i] != s.entered[j])
    && Points(s.w.utxos) <= (set p | p in s.entered)
    && (forall p :: p in s.entered ==>
          (if p.tx.Tx? then p.tx in s.w.scanned else p.tx.height <= s.w.height))
  }

  /** A coin is worth its output, and one with a height is held by the block at that height. */
  predicate CoinTrue(minedAt: map<Tx, nat>, u: Utxo) {
    && u.outpoint.vout < |u.outpoint.tx.vout|
    && u.value == u.outpoint.tx.vout[u.outpoint.vout].value
    && u.coinbase == u.outpoint.tx.CoinbaseTx?
    && u.height >= 0
    && (u.Confirmed() ==> u.outpoint.tx in minedAt && minedAt[u.outpoint.tx] == u.height)
  }

  ghost predicate CoinsInv(s: World) {
    forall u :: u in s.w.utxos ==> CoinTrue(s.minedAt, u)
  }

  ghost predicate Inv(s: World) {
    LedgerInv(s) && CacheInv(s) && EnteredInv(s) && CoinsInv(s)
  }

  // ---- transactions

  lemma NodeTxKeeps(s: World, tx: Tx)
    requires Inv(s) && Enabled(s, NodeTx(tx))
    ensures Inv(Step(s, NodeTx(tx)))
  {
    ParentsGrow(s.seen, tx);
  }

  lemma ParentsGrow(seen: set<Tx>, tx: Tx)
    requires (forall t :: t in seen ==> ParentsIn(t, seen)) && ParentsIn(tx, seen)
    ensures forall t :: t in seen + {tx} ==> ParentsIn(t, seen + {tx})
  {
  }

  lemma PaidBy(tx: Tx)
    ensures forall p :: p in Points(NewUtxos(tx)) ==>
                          p.tx == tx && p.vout < |tx.vout| && tx.vout[p.vout].script == AnyoneCanSpend
  {
    CoinsFromPays(tx, 0);
    forall p | p in Points(NewUtxos(tx))
      ensures p.tx == tx && p.vout < |tx.vout| && tx.vout[p.vout].script == AnyoneCanSpend
    {
      var i :| 0 <= i < |NewUtxos(tx)| && NewUtxos(tx)[i].outpoint == p;
      assert NewUtxos(tx)[i] in NewUtxos(tx);
    }
  }

  /** The parents of a new transaction are known, so nothing the wallet scanned can spend it. */
  lemma NewHasNoChild(s: World, tx: Tx)
    requires LedgerInv(s) && NewToNode(s, tx)
    ensures NoChildSent(s, tx)
  {
    PaidBy(tx);
  }

  // ---- sends

  lemma SendLedger(s: World, tx: Tx)
    requires Inv(s) && Enabled(s, Send(tx))
    ensures LedgerInv(Step(s, Send(tx)))
  {
    if tx !in s.seen {
      ParentsGrow(s.seen, tx);
    } else {
      assert s.seen + {tx} == s.seen && s.mempool + {tx} == s.mempool;
    }
  }

  /** The cache after a scan: what was cached and unspent, then what the transaction pays. */
  lemma ScannedCache(utxos: seq<Utxo>, tx: Tx)
    requires Distinct(utxos) && forall u :: u in utxos ==> u.outpoint.tx != tx
    ensures Distinct(Without(utxos, Inputs(tx)) + NewUtxos(tx))
    ensures Points(Without(utxos, Inputs(tx)) + NewUtxos(tx)) == (Points(utxos) - Inputs(tx)) + Points(NewUtxos(tx))
  {
    var kept := Without(utxos, Inputs(tx));
    WithoutDistinct(utxos, Inputs(tx));
    WithoutMembers(utxos, Inputs(tx));
    CoinsFromPays(tx, 0);
    DistinctConcat(kept, NewUtxos(tx));
    PointsConcat(kept, NewUtxos(tx));
    PointsWithout(utxos, Inputs(tx));
  }

  lemma SendCache(s: World, tx: Tx)
    requires Inv(s) && tx.Tx? && tx !in s.w.scanned
    ensures CacheInv(Step(s, Send(tx))) <==> NoChildSent(s, tx)
  {
    EnteredElsewhere(s, tx);
    ScannedCache(s.w.utxos, tx);
    NoSelfSpend(tx);
    PaidBy(tx);
  }

  /** A transaction the wallet has not scanned has no coin in the cache, nor among those that ever entered it. */
  lemma EnteredElsewhere(s: World, tx: Tx)
    requires EnteredInv(s) && tx.Tx? && tx !in s.w.scanned
    ensures forall u :: u in s.w.utxos ==> u.outpoint.tx != tx
    ensures forall p :: p in s.entered ==> p.tx != tx
  {
    forall u | u in s.w.utxos ensures u.outpoint.tx != tx {
      var i :| 0 <= i < |s.w.utxos| && s.w.utxos[i] == u;
      assert u.outpoint in Points(s.w.utxos);
    }
  }

  lemma SendEntered(s: World, tx: Tx)
    requires Inv(s) && tx.Tx? && tx !in s.w.scanned
    ensures EnteredInv(Step(s, Send(tx)))
  {
    EnteredElsewhere(s, tx);
    ScannedCache(s.w.utxos, tx);
    PaidBy(tx);
    CoinsFromPays(tx, 0);
    EnteredGrows(s.entered, NewUtxos(tx), Points(s.w.utxos));
  }

  /** Coins of a transaction that has none entered yet, entering one after the other. */
  lemma EnteredGrows(entered: seq<OutPoint>, news: seq<Utxo>, before: set<OutPoint>)
    requires forall i, j :: 0 <= i < j < |entered| ==> entered[i] != entered[j]
    requires Distinct(news) && forall u :: u in news ==> u.outpoint !in entered
    ensures
      var after := entered + PointList(news);
      && (forall i, j :: 0 <= i < j < |after| ==> after[i] != after[j])
      && (forall p :: p in after <==> p in entered || p in Points(news))
  {
    var after := entered + PointList(news);
    forall p | p in Points(news) ensures p in after {
      var i :| 0 <= i < |news| && news[i].outpoint == p;
      assert after[|entered| + i] == p;
    }
    forall i, j | 0 <= i < j < |after| ensures after[i] != after[j] {
      if i < |entered| <= j {
        assert news[j - |entered|] in news;
      }
    }
  }

  lemma SendCoins(s: World, tx: Tx)
    requires Inv(s) && tx.Tx?
    ensures CoinsInv(Step(s, Send(tx)))
  {
    WithoutMembers(s.w.utxos, Inputs(tx));
    CoinsFromPays(tx, 0);
  }

  /**
    A send keeps the invariant exactly when no transaction sent or confirmed before spends a coin of it: a
    condition on what the caller has already sent, and one that holds of every transaction new to the node.
   */
  lemma SendKeepsIff(s: World, tx: Tx)
    requires Inv(s) && tx.Tx? && tx !in s.w.scanned && (NewToNode(s, tx) || tx in s.mempool)
    ensures Inv(Step(s, Send(tx))) <==> NoChildSent(s, tx)
    ensures NewToNode(s, tx) ==> NoChildSent(s, tx)
  {
    SendCache(s, tx);
    if NewToNode(s, tx) {
      NewHasNoChild(s, tx);
    }
    if NoChildSent(s, tx) {
      SendLedger(s, tx);
      SendEntered(s, tx);
      SendCoins(s, tx);
    }
  }

  /** The case the condition leaves out: a parent broadcast some other way, sent by the wallet after its child. */
  lemma ParentSentAfterChild() returns (s: World, parent: Tx)
    ensures Inv(s) && parent.Tx? && parent !in s.w.scanned && parent in s.mempool
    ensures !CacheInv(Step(s, Send(parent)))
  {
    parent := Tx(2, 0, [], [TxOut(1, AnyoneCanSpend)]);
    var spend := WalletInput(OutPoint(parent, 0), 0);
    var child := Tx(2, 0, [spend], []);
    assert child.vin[0] == spend && child != parent;
    s := World(Wallet([], {child}, Genesis(0), 0, 0), 0, {parent, child}, {parent, child}, map[], []);
    CoinsFromPays(parent, 0);
    assert NewCoin(parent, 0) in NewUtxos(parent);
    PointsMember(NewUtxos(parent), NewCoin(parent, 0));
    assert child in s.w.scanned && OutPoint(parent, 0) in Inputs(child);
    SendCache(s, parent);
  }

  // ---- blocks

  /** In a block, what a transaction spends was known before it: nothing after it pays what it spends. */
  lemma {:induction false} BlockSpendOrdered(known: set<Tx>, scanned: set<Tx>, txs: seq<Tx>)
    requires BlockOrdered(known, txs)
    ensures SpendOrdered(scanned, txs)
    decreases txs
  {
    if txs != [] {
      NewsFrom(scanned, txs);
      forall t | t in txs ensures t !in known {
        BlockIsNew(known, txs, t);
      }
      BlockSpendOrdered(known + {txs[0]}, scanned + {txs[0]}, txs[1..]);
    }
  }

  lemma {:induction false} BlockIsNew(known: set<Tx>, txs: seq<Tx>, t: Tx)
    requires BlockOrdered(known, txs) && t in txs
    ensures t !in known && t.Tx?
    decreases txs
  {
    if t != txs[0] {
      BlockIsNew(known + {txs[0]}, txs[1..], t);
    }
  }

  /**
    What a scan adds: coins of the listed transactions not scanned before, each outpoint once, none of the list's own
    inputs late.
   */
  lemma {:induction false} NewsFrom(scanned: set<Tx>, txs: seq<Tx>)
    ensures forall u :: u in News(scanned, txs) ==>
                          && u.outpoint.tx in txs && u.outpoint.tx !in scanned
                          && u.outpoint.vout < |u.outpoint.tx.vout|
                          && u == NewCoin(u.outpoint.tx, u.outpoint.vout)
    ensures Distinct(News(scanned, txs))
    decreases txs
  {
    if txs != [] {
      NewsFrom(scanned + {txs[0]}, txs[1..]);
      CoinsFromPays(txs[0], 0);
      DistinctConcat(Added(scanned, txs[0]), News(scanned + {txs[0]}, txs[1..]));
    }
  }

  /** Heights and filters do not disturb each other. */
  lemma {:induction false} AtHeightWithout(utxos: seq<Utxo>, txs: set<Tx>, height: nat, spent: set<OutPoint>)
    ensures Without(AtHeight(utxos, txs, height), spent) == AtHeight(Without(utxos, spent), txs, height)
    decreases utxos
  {
    if utxos != [] {
      AtHeightWithout(utxos[1..], txs, height, spent);
      var u := utxos[0];
      var v := if u.outpoint.tx in txs then u.(height := height) else u;
      assert AtHeight(utxos, txs, height) == [v] + AtHeight(utxos[1..], txs, height);
      if u.outpoint !in spent {
        assert ([u] + Without(utxos[1..], spent))[1..] == Without(utxos[1..], spent);
      } else {
        assert [] + Without(utxos[1..], spent) == Without(utxos[1..], spent);
      }
    }
  }

  /** The coins a block leaves: cached before it or added by it, spent neither by the block nor by the mempool. */
  function MinedLeft(w: Wallet, confirm: seq<Tx>, spends: set<OutPoint>): seq<Utxo> {
    Without(Without(w.utxos + News(w.scanned, confirm), AllInputs(confirm)), AddedPoints(w, confirm) * spends)
  }

  /** The transaction-by-transaction scan of a block the node accepts comes to one filter and one relabelling. */
  lemma MinedCache(w: Wallet, known: set<Tx>, confirm: seq<Tx>, now: int, spends: set<OutPoint>)
    requires BlockOrdered(known, confirm)
    ensures Confirmed(w, confirm, now, spends).utxos
            == AtHeight(MinedLeft(w, confirm, spends), TxSet(confirm), w.height + 1) + [CoinbaseCoin(w.height + 1)]
  {
    BlockSpendOrdered(known, w.scanned, confirm);
    ScanIsOneFilter(w.utxos, w.scanned, confirm);
    AtHeightWithout(Scan(w.utxos, w.scanned, confirm), TxSet(confirm), w.height + 1, AddedPoints(w, confirm) * spends);
  }

  lemma {:induction false} AllInputsMember(txs: seq<Tx>, t: Tx)
    requires t in txs
    ensures Inputs(t) <= AllInputs(txs)
  {
    if t != txs[0] {
      AllInputsMember(txs[1..], t);
    }
  }

  /** Everything cached or added before a block's own coinbase, each outpoint once. */
  lemma CandidatesDistinct(s: World, confirm: seq<Tx>)
    requires EnteredInv(s) && CacheInv(s) && forall t :: t in confirm ==> t.Tx?
    ensures Distinct(s.w.utxos + News(s.w.scanned, confirm))
  {
    var news := News(s.w.scanned, confirm);
    NewsFrom(s.w.scanned, confirm);
    forall u, v | u in s.w.utxos && v in news ensures u.outpoint != v.outpoint {
      EnteredElsewhere(s, v.outpoint.tx);
    }
    DistinctConcat(s.w.utxos, news);
  }

  /** A coin the block leaves is one the wallet had or added, and none of the block's inputs. */
  lemma LeftMember(w: Wallet, confirm: seq<Tx>, spends: set<OutPoint>, u: Utxo)
    requires u in MinedLeft(w, confirm, spends)
    ensures u in w.utxos || u in News(w.scanned, confirm)
    ensures u.outpoint !in AllInputs(confirm)
    ensures u in News(w.scanned, confirm) ==> u.outpoint !in spends
  {
    var all := w.utxos + News(w.scanned, confirm);
    WithoutMembers(all, AllInputs(confirm));
    WithoutMembers(Without(all, AllInputs(confirm)), AddedPoints(w, confirm) * spends);
    if u in News(w.scanned, confirm) {
      PointsMember(News(w.scanned, confirm), u);
    }
  }

  /** No transaction sent or confirmed spends a coin the block leaves. */
  lemma LeftUnspent(s: World, confirm: seq<Tx>, now: int, after: set<Tx>, u: Utxo, t: Tx)
    requires Inv(s) && MineEnabled(s, confirm, after)
    requires u in MinedLeft(s.w, confirm, SpentBy(after)) && t in s.w.scanned + TxSet(confirm)
    ensures u.outpoint !in Inputs(t)
  {
    LeftMember(s.w, confirm, SpentBy(after), u);
    if t in confirm {
      AllInputsMember(confirm, t);
    } else if u in s.w.utxos {
      PointsMember(s.w.utxos, u);
    } else {
      NewsFrom(s.w.scanned, confirm);
      BlockIsNew(s.minedAt.Keys, confirm, u.outpoint.tx);
      assert t in s.minedAt ==> ParentsIn(t, s.minedAt.Keys);
      assert t !in TxSet(confirm);
      assert t !in s.minedAt ==> t in after;
    }
  }

  lemma {:induction false} BlockParents(known: set<Tx>, txs: seq<Tx>, t: Tx)
    requires BlockOrdered(known, txs) && t in txs
    ensures ParentsIn(t, known + TxSet(txs))
    decreases txs
  {
    if t != txs[0] {
      BlockParents(known + {txs[0]}, txs[1..], t);
      assert known + {txs[0]} + TxSet(txs[1..]) <= known + TxSet(txs) by {
        forall x | x in TxSet(txs[1..]) ensures x in TxSet(txs) {
          var i :| 0 <= i < |txs[1..]| && txs[1..][i] == x;
          assert txs[i + 1] == x;
        }
      }
    }
  }

  /** A block keeps the ledger closed under parents. */
  lemma ConnectedLedger(s: World, txs: seq<Tx>, coinbase: Tx)
    requires LedgerInv(s) && BlockConnects(s, txs, coinbase)
    ensures
      var c := Connected(s, txs, coinbase);
      && (forall t :: t in c.seen ==> ParentsIn(t, c.seen))
      && (forall t :: t in c.minedAt ==> ParentsIn(t, c.minedAt.Keys))
      && c.minedAt.Keys == s.minedAt.Keys + TxSet(txs) + {coinbase}
      && c.minedAt.Keys <= c.seen && s.seen <= c.seen
      && (forall t :: t in c.minedAt ==> 1 <= c.minedAt[t] <= c.nodeHeight)
      && (forall t :: t in c.seen && t.CoinbaseTx? ==> t.height <= c.nodeHeight)
  {
    var c := Connected(s, txs, coinbase);
    TxSetAppend(txs, coinbase);
    assert c.minedAt.Keys == s.minedAt.Keys + TxSet(txs) + {coinbase};
    forall t | t in txs ensures ParentsIn(t, s.minedAt.Keys + TxSet(txs)) && t.Tx? {
      BlockParents(s.minedAt.Keys, txs, t);
      BlockIsNew(s.minedAt.Keys, txs, t);
    }
    forall t | t in c.seen && t.CoinbaseTx? ensures t.height <= c.nodeHeight {
      assert t in TxSet(txs) ==> t in txs;
    }
  }

  lemma NodeBlockKeeps(s: World, txs: seq<Tx>, coinbase: Tx, after: set<Tx>)
    requires Inv(s) && Enabled(s, NodeBlock(txs, coinbase, after))
    ensures Inv(Step(s, NodeBlock(txs, coinbase, after)))
  {
    ConnectedLedger(s, txs, coinbase);
    NewInBlock(s, txs, coinbase);
  }

  /** Connecting a block moves nothing its chain already holds. */
  lemma NewInBlock(s: World, txs: seq<Tx>, coinbase: Tx)
    requires LedgerInv(s) && BlockConnects(s, txs, coinbase)
    ensures forall t :: t in s.minedAt ==> t in Connected(s, txs, coinbase).minedAt
                                           && Connected(s, txs, coinbase).minedAt[t] == s.minedAt[t]
    ensures forall t :: t in txs || t == coinbase ==> t in Connected(s, txs, coinbase).minedAt
                                                      && Connected(s, txs, coinbase).minedAt[t] == s.nodeHeight + 1
  {
    TxSetAppend(txs, coinbase);
    forall t | t in txs || t == coinbase ensures t !in s.minedAt {
      if t in txs {
        BlockIsNew(s.minedAt.Keys, txs, t);
      }
    }
  }

  // ---- a block of the wallet's own

  /** The ledger of a connected block, whatever cache the wallet keeps. */
  lemma LedgerWith(c: World, w: Wallet, after: set<Tx>, entered: seq<OutPoint>)
    requires forall t :: t in c.seen ==> ParentsIn(t, c.seen)
    requires forall t :: t in c.minedAt ==> ParentsIn(t, c.minedAt.Keys)
    requires c.minedAt.Keys <= c.seen && forall t :: t in c.minedAt ==> 1 <= c.minedAt[t] <= c.nodeHeight
    requires forall t :: t in c.seen && t.CoinbaseTx? ==> t.height <= c.nodeHeight
    requires w.scanned <= c.seen && w.height <= c.nodeHeight && forall t :: t in w.scanned ==> t.Tx?
    requires after <= c.seen && forall t :: t in w.scanned && t !in c.minedAt ==> t in after
    ensures LedgerInv(c.(w := w, mempool := after, entered := entered))
  {
  }

  lemma LedgerFor(s: World, confirm: seq<Tx>, after: set<Tx>, w: Wallet, entered: seq<OutPoint>)
    requires Inv(s) && MineEnabled(s, confirm, after)
    requires w.scanned == s.w.scanned + TxSet(confirm) && w.height == s.w.height + 1
    ensures LedgerInv(Connected(s, confirm, Coinbase(s.nodeHeight + 1)).(w := w, mempool := after, entered := entered))
  {
    var coinbase := Coinbase(s.nodeHeight + 1);
    ConnectedLedger(s, confirm, coinbase);
    forall t | t in w.scanned ensures t.Tx? {
      if t in confirm {
        BlockIsNew(s.minedAt.Keys, confirm, t);
      }
    }
    LedgerWith(Connected(s, confirm, coinbase), w, after, entered);
  }

  lemma MineLedger(s: World, confirm: seq<Tx>, now: int, after: set<Tx>)
    requires Inv(s) && MineEnabled(s, confirm, after)
    ensures LedgerInv(Step(s, Mine(confirm, now, after)))
  {
    hide Confirmed, MinedLeft;
    var w, next := Confirmed(s.w, confirm, now, SpentBy(after)), Step(s, Mine(confirm, now, after));
    ConfirmedFields(s.w, confirm, now, SpentBy(after));
    LedgerFor(s, confirm, after, w, next.entered);
    assert
      next == Connected(s, confirm, Coinbase(s.nodeHeight + 1)).(w := w, mempool := after, entered := next.entered);
  }

  /** The outpoints cached once the block is in. */
  lemma MinedPoints(s: World, confirm: seq<Tx>, now: int, after: set<Tx>)
    requires Inv(s) && MineEnabled(s, confirm, after)
    ensures
      var left := MinedLeft(s.w, confirm, SpentBy(after));
      var utxos := Confirmed(s.w, confirm, now, SpentBy(after)).utxos;
      && |utxos| == |left| + 1
      && (forall i :: 0 <= i < |left| ==>
            utxos[i] == if left[i].outpoint.tx in confirm then left[i].(height := s.w.height + 1) else left[i])
      && utxos[|left|] == CoinbaseCoin(s.w.height + 1)
  {
    MinedCache(s.w, s.minedAt.Keys, confirm, now, SpentBy(after));
    AtHeightCoins(MinedLeft(s.w, confirm, SpentBy(after)), TxSet(confirm), s.w.height + 1);
  }

  /** A coinbase of the wallet's next block is no coin it has had, and no input of anything known. */
  lemma NextCoinbaseIsNew(s: World, confirm: seq<Tx>, u: Utxo)
    requires Inv(s) && s.w.height == s.nodeHeight && BlockOrdered(s.minedAt.Keys, confirm)
    requires u in s.w.utxos || u in News(s.w.scanned, confirm)
    ensures u.outpoint.tx != Coinbase(s.w.height + 1)
  {
    if u in s.w.utxos {
      PointsMember(s.w.utxos, u);
    } else {
      NewsFrom(s.w.scanned, confirm);
      BlockIsNew(s.minedAt.Keys, confirm, u.outpoint.tx);
    }
  }

  /** A cache of distinct unspent coins, and one more coin behind it. */
  lemma CacheWith(left: seq<Utxo>, utxos: seq<Utxo>, scanned: set<Tx>)
    requires Distinct(left) && |utxos| == |left| + 1
    requires forall i :: 0 <= i < |left| ==> utxos[i].outpoint == left[i].outpoint
    requires forall u :: u in left ==> u.outpoint != utxos[|left|].outpoint
    requires forall t, u :: t in scanned && u in left ==> u.outpoint !in Inputs(t)
    requires forall t :: t in scanned ==> utxos[|left|].outpoint !in Inputs(t)
    ensures Distinct(utxos) && forall t :: t in scanned ==> Inputs(t) !! Points(utxos)
  {
    forall i | 0 <= i < |left| ensures left[i] in left {
    }
  }

  /** Nothing the wallet sent or confirms spends the coinbase of its next block. */
  lemma NextCoinbaseUnspent(s: World, confirm: seq<Tx>, t: Tx)
    requires Inv(s) && s.w.height == s.nodeHeight && BlockOrdered(s.minedAt.Keys, confirm)
    requires t in s.w.scanned + TxSet(confirm)
    ensures CoinbaseCoin(s.w.height + 1).outpoint !in Inputs(t)
  {
    var coinbase := Coinbase(s.w.height + 1);
    if coinbase in confirm {
      BlockIsNew(s.minedAt.Keys, confirm, coinbase);
    }
    if t in confirm {
      BlockParents(s.minedAt.Keys, confirm, t);
    }
  }

  lemma CacheFor(s: World, confirm: seq<Tx>, now: int, after: set<Tx>, left: seq<Utxo>, utxos: seq<Utxo>)
    requires Inv(s) && MineEnabled(s, confirm, after) && left == MinedLeft(s.w, confirm, SpentBy(after))
    requires |utxos| == |left| + 1 && utxos[|left|] == CoinbaseCoin(s.w.height + 1)
    requires forall i :: 0 <= i < |left| ==> utxos[i].outpoint == left[i].outpoint
    ensures Distinct(utxos) && forall t :: t in s.w.scanned + TxSet(confirm) ==> Inputs(t) !! Points(utxos)
  {
    LeftDistinct(s, confirm, SpentBy(after));
    forall u | u in left ensures u.outpoint != CoinbaseCoin(s.w.height + 1).outpoint {
      LeftMember(s.w, confirm, SpentBy(after), u);
      NextCoinbaseIsNew(s, confirm, u);
    }
    forall t, u | t in s.w.scanned + TxSet(confirm) && u in left ensures u.outpoint !in Inputs(t) {
      LeftUnspent(s, confirm, now, after, u, t);
    }
    forall t | t in s.w.scanned + TxSet(confirm) ensures CoinbaseCoin(s.w.height + 1).outpoint !in Inputs(t) {
      NextCoinbaseUnspent(s, confirm, t);
    }
    CacheWith(left, utxos, s.w.scanned + TxSet(confirm));
  }

  lemma MineCache(s: World, confirm: seq<Tx>, now: int, after: set<Tx>)
    requires Inv(s) && MineEnabled(s, confirm, after)
    ensures CacheInv(Step(s, Mine(confirm, now, after)))
  {
    hide Confirmed, MinedLeft;
    MinedPoints(s, confirm, now, after);
    CacheFor(s, confirm, now, after, MinedLeft(s.w, confirm, SpentBy(after)),
             Confirmed(s.w, confirm, now, SpentBy(after)).utxos);
    ConfirmedFields(s.w, confirm, now, SpentBy(after));
  }

  lemma LeftDistinct(s: World, confirm: seq<Tx>, spends: set<OutPoint>)
    requires Inv(s) && BlockOrdered(s.minedAt.Keys, confirm)
    ensures Distinct(MinedLeft(s.w, confirm, spends))
  {
    forall t | t in confirm ensures t.Tx? {
      BlockIsNew(s.minedAt.Keys, confirm, t);
    }
    CandidatesDistinct(s, confirm);
    var all := s.w.utxos + News(s.w.scanned, confirm);
    WithoutDistinct(all, AllInputs(confirm));
    WithoutDistinct(Without(all, AllInputs(confirm)), AddedPoints(s.w, confirm) * spends);
  }

  /** The outpoints that have entered once the block is in. */
  function MineEnters(s: World, confirm: seq<Tx>): seq<OutPoint> {
    s.entered + PointList(News(s.w.scanned, confirm)) + [CoinbaseCoin(s.w.height + 1).outpoint]
  }

  lemma MineEntersOnce(s: World, confirm: seq<Tx>)
    requires Inv(s) && s.w.height == s.nodeHeight && BlockOrdered(s.minedAt.Keys, confirm)
    ensures
      var e := MineEnters(s, confirm);
      && (forall i, j :: 0 <= i < j < |e| ==> e[i] != e[j])
      && (forall p :: p in s.entered || p in Points(News(s.w.scanned, confirm)) ==> p in e)
      && CoinbaseCoin(s.w.height + 1).outpoint in e
      && (forall p :: p in e ==>
            if p.tx.Tx? then p.tx in s.w.scanned + TxSet(confirm) else p.tx.height <= s.w.height + 1)
  {
    var news, coinbase := News(s.w.scanned, confirm), CoinbaseCoin(s.w.height + 1).outpoint;
    NewsFrom(s.w.scanned, confirm);
    forall u | u in news ensures u.outpoint !in s.entered && u.outpoint.tx.Tx? && u.outpoint.tx in TxSet(confirm) {
      BlockIsNew(s.minedAt.Keys, confirm, u.outpoint.tx);
      EnteredElsewhere(s, u.outpoint.tx);
    }
    EnteredGrows(s.entered, news, {});
    forall p | p in Points(news) ensures p.tx.Tx? && p.tx in TxSet(confirm) {
      var i :| 0 <= i < |news| && news[i].outpoint == p;
      assert news[i] in news;
    }
    var before := s.entered + PointList(news);
    assert coinbase !in before;
    assert MineEnters(s, confirm) == before + [coinbase];
  }

  lemma LeftEntered(s: World, confirm: seq<Tx>, spends: set<OutPoint>, utxos: seq<Utxo>)
    requires Inv(s) && s.w.height == s.nodeHeight && BlockOrdered(s.minedAt.Keys, confirm)
    requires
      var left := MinedLeft(s.w, confirm, spends);
      && |utxos| == |left| + 1 && utxos[|left|] == CoinbaseCoin(s.w.height + 1)
      && forall i :: 0 <= i < |left| ==> utxos[i].outpoint == left[i].outpoint
    ensures forall p :: p in Points(utxos) ==> p in MineEnters(s, confirm)
  {
    var left := MinedLeft(s.w, confirm, spends);
    MineEntersOnce(s, confirm);
    forall i | 0 <= i < |utxos| ensures utxos[i].outpoint in MineEnters(s, confirm) {
      if i < |left| {
        LeftMember(s.w, confirm, spends, left[i]);
        if left[i] in s.w.utxos {
          PointsMember(s.w.utxos, left[i]);
        } else {
          PointsMember(News(s.w.scanned, confirm), left[i]);
        }
      }
    }
  }

  lemma EnteredWith(s: World, confirm: seq<Tx>, next: World)
    requires Inv(s) && s.w.height == s.nodeHeight && BlockOrdered(s.minedAt.Keys, confirm)
    requires next.entered == MineEnters(s, confirm)
    requires next.w.scanned == s.w.scanned + TxSet(confirm) && next.w.height == s.w.height + 1
    requires forall p :: p in Points(next.w.utxos) ==> p in MineEnters(s, confirm)
    ensures EnteredInv(next)
  {
    MineEntersOnce(s, confirm);
  }

  lemma MineEntered(s: World, confirm: seq<Tx>, now: int, after: set<Tx>)
    requires Inv(s) && MineEnabled(s, confirm, after)
    ensures EnteredInv(Step(s, Mine(confirm, now, after)))
  {
    hide Confirmed, MinedLeft;
    var next := Step(s, Mine(confirm, now, after));
    MinedPoints(s, confirm, now, after);
    LeftEntered(s, confirm, SpentBy(after), Confirmed(s.w, confirm, now, SpentBy(after)).utxos);
    ConfirmedFields(s.w, confirm, now, SpentBy(after));
    assert next.entered == MineEnters(s, confirm);
    EnteredWith(s, confirm, next);
  }

  /** A coin a block leaves tells the truth about the ledger the block makes. */
  lemma LeftTrue(s: World, confirm: seq<Tx>, spends: set<OutPoint>, u: Utxo)
    requires Inv(s) && BlockConnects(s, confirm, Coinbase(s.nodeHeight + 1)) && s.w.height == s.nodeHeight
    requires u in MinedLeft(s.w, confirm, spends)
    ensures
      var minedAt := Connected(s, confirm, Coinbase(s.nodeHeight + 1)).minedAt;
      CoinTrue(minedAt, if u.outpoint.tx in confirm then u.(height := s.w.height + 1) else u)
  {
    NewInBlock(s, confirm, Coinbase(s.nodeHeight + 1));
    LeftMember(s.w, confirm, spends, u);
    if u in s.w.utxos {
      assert CoinTrue(s.minedAt, u);
    } else {
      NewsFrom(s.w.scanned, confirm);
      BlockIsNew(s.minedAt.Keys, confirm, u.outpoint.tx);
    }
  }

  lemma CoinsFor(s: World, confirm: seq<Tx>, spends: set<OutPoint>, utxos: seq<Utxo>)
    requires Inv(s) && BlockConnects(s, confirm, Coinbase(s.nodeHeight + 1)) && s.w.height == s.nodeHeight
    requires
      var left := MinedLeft(s.w, confirm, spends);
      && |utxos| == |left| + 1 && utxos[|left|] == CoinbaseCoin(s.w.height + 1)
      && forall i :: 0 <= i < |left| ==>
                       utxos[i] == if left[i].outpoint.tx !in confirm then left[i]
                                   else left[i].(height := s.w.height + 1)
    ensures forall u :: u in utxos ==> CoinTrue(Connected(s, confirm, Coinbase(s.nodeHeight + 1)).minedAt, u)
  {
    var left := MinedLeft(s.w, confirm, spends);
    forall i | 0 <= i < |utxos|
      ensures CoinTrue(Connected(s, confirm, Coinbase(s.nodeHeight + 1)).minedAt, utxos[i])
    {
      if i < |left| {
        LeftTrue(s, confirm, spends, left[i]);
      } else {
        NewInBlock(s, confirm, Coinbase(s.nodeHeight + 1));
      }
    }
  }

  lemma CoinsIn(s: World, confirm: seq<Tx>, spends: set<OutPoint>, next: World)
    requires Inv(s) && BlockConnects(s, confirm, Coinbase(s.nodeHeight + 1)) && s.w.height == s.nodeHeight
    requires
      var left := MinedLeft(s.w, confirm, spends);
      && |next.w.utxos| == |left| + 1 && next.w.utxos[|left|] == CoinbaseCoin(s.w.height + 1)
      && forall i :: 0 <= i < |left| ==>
                       next.w.utxos[i]
                       == if left[i].outpoint.tx in confirm then left[i].(height := s.w.height + 1) else left[i]
    requires next.minedAt == Connected(s, confirm, Coinbase(s.nodeHeight + 1)).minedAt
    ensures CoinsInv(next)
  {
    CoinsFor(s, confirm, spends, next.w.utxos);
  }

  lemma MineCoins(s: World, confirm: seq<Tx>, now: int, after: set<Tx>)
    requires Inv(s) && MineEnabled(s, confirm, after)
    ensures CoinsInv(Step(s, Mine(confirm, now, after)))
  {
    hide Confirmed, MinedLeft, Inv, CoinsInv, BlockConnects, Connected, Coinbase, CoinbaseCoin, PointList, News,
         SpentBy;
    MinedPoints(s, confirm, now, after);
    CoinsIn(s, confirm, SpentBy(after), Step(s, Mine(confirm, now, after)));
  }

  // ---- takes and resyncs

  lemma TakeKeeps(s: World, left: seq<Utxo>)
    requires Inv(s) && Enabled(s, Take(left))
    ensures Inv(Step(s, Take(left)))
  {
    forall u | u in left ensures u in s.w.utxos {
      assert u in multiset(left);
    }
    SubsetDistinct(s.w.utxos, left);
    forall p | p in Points(left) ensures p in Points(s.w.utxos) {
      var i :| 0 <= i < |left| && left[i].outpoint == p;
      PointsMember(s.w.utxos, left[i]);
    }
  }

  lemma ResyncKeeps(s: World, tip: Block, medianTime: int, left: seq<Utxo>)
    requires Inv(s) && Enabled(s, Resync(tip, medianTime, left))
    ensures Inv(Step(s, Resync(tip, medianTime, left)))
  {
    assert forall i :: 0 <= i < |left| ==> left[i].outpoint == s.w.utxos[i].outpoint;
    assert Points(left) == Points(s.w.utxos);
    forall u | u in left ensures CoinTrue(s.minedAt, u) {
      var i :| 0 <= i < |left| && left[i] == u;
      assert CoinTrue(s.minedAt, s.w.utxos[i]);
      assert Reread(s, s.w.utxos[i], left[i]) || left[i] == s.w.utxos[i];
    }
  }

  // ---- the wallet's own methods make these steps

  lemma {:induction false} InputsOfList(txs: seq<Tx>)
    ensures AllInputs(txs) == SpentBy(TxSet(txs))
  {
    if txs != [] {
      InputsOfList(txs[1..]);
      assert txs == [txs[0]] + txs[1..];
      forall p | p in SpentBy(TxSet(txs)) ensures p in AllInputs(txs) {
        var t :| t in TxSet(txs) && p in Inputs(t);
        assert t in txs;
        AllInputsMember(txs, t);
      }
      forall p | p in AllInputs(txs) ensures p in SpentBy(TxSet(txs)) {
        if p in Inputs(txs[0]) {
          assert txs[0] in TxSet(txs);
        } else {
          var t :| t in TxSet(txs[1..]) && p in Inputs(t);
          var i :| 0 <= i < |txs[1..]| && txs[1..][i] == t;
          assert txs[i + 1] == t;
        }
      }
    }
  }

  /** A block of `generate` that the node accepts is the step above, whether or not the mempool is asked about. */
  lemma GenerateIsMine(w: Wallet, confirm: seq<Tx>, a: NodeAnswer)
    requires MineBlock(w, confirm, a).1.Ok? && a.mempool.Some?
    ensures MineBlock(w, confirm, a).0 == Confirmed(w, confirm, a.attempt.now, SpentBy(TxSet(a.mempool.value)))
  {
    InputsOfList(a.mempool.value);
    assert {} * AllInputs(a.mempool.value) == {} * {};
  }

  /** The confirmations the node answers turn back into the height of the block holding the coin. */
  lemma ResyncReadsLedger(s: World, answers: OutPoint -> TxOutAnswer, u: Utxo)
    requires !u.coinbase ==>
               answers(u.outpoint) == if HeldBy(s, u.outpoint)
                                      then Confirmations(s.nodeHeight - s.minedAt[u.outpoint.tx] + 1) else Absent
    ensures Reread(s, u, Reheighted(u, s.nodeHeight, answers))
  {
  }

  /** The node answers for every cached coin as its chain holds it. */
  predicate Truthful(s: World, answers: OutPoint -> TxOutAnswer) {
    forall u :: u in s.w.utxos && !u.coinbase ==>
      answers(u.outpoint) == if HeldBy(s, u.outpoint)
                             then Confirmations(s.nodeHeight - s.minedAt[u.outpoint.tx] + 1) else Absent
  }

  /**
    After a `resync` the node answers truthfully, which then raises nothing: a coin that is no coinbase counts as
    confirmed exactly when the chain's UTXO set holds it, at that block's height. `left` is the cache as
    `MiniWallet.Resync` leaves it, and the step is one of the runs'.
   */
  lemma ResyncConfirms(s: World, nodeTip: Block, medianTime: int, answers: OutPoint -> TxOutAnswer, left: seq<Utxo>)
    requires Inv(s) && Links(nodeTip) == s.nodeHeight && Truthful(s, answers)
    requires |left| == |s.w.utxos|
    requires forall i :: 0 <= i < |left| ==> left[i] == Reheighted(s.w.utxos[i], Links(nodeTip), answers)
    ensures forall u :: u in s.w.utxos ==> Usable(u, answers)
    ensures Enabled(s, Resync(nodeTip, medianTime, left))
    ensures forall i :: 0 <= i < |left| && !left[i].coinbase ==>
      && left[i].outpoint == s.w.utxos[i].outpoint && left[i].value == s.w.utxos[i].value
      && (left[i].Confirmed() <==> HeldBy(s, left[i].outpoint))
      && (left[i].Confirmed() ==> left[i].height == s.minedAt[left[i].outpoint.tx])
  {
    hide CacheInv, EnteredInv, CoinsInv, HeldBy;
    forall i | 0 <= i < |left| ensures Reread(s, s.w.utxos[i], left[i]) {
      assert s.w.utxos[i] in s.w.utxos;
      ResyncReadsLedger(s, answers, s.w.utxos[i]);
    }
    forall u | u in s.w.utxos && !u.coinbase && HeldBy(s, u.outpoint) ensures u.outpoint.tx in s.minedAt {
      HeldIsMined(s, u.outpoint);
    }
    forall i | 0 <= i < |left| && !left[i].coinbase && HeldBy(s, left[i].outpoint)
      ensures left[i].outpoint.tx in s.minedAt
    {
      HeldIsMined(s, left[i].outpoint);
    }
  }

  lemma HeldIsMined(s: World, p: OutPoint)
    requires HeldBy(s, p)
    ensures p.tx in s.minedAt
  {
  }

  // ---- a block accepted, and a mempool that could not be read

  /** What an accepted block whose mempool answer is unusable leaves: the scan without its coinbase, and the old tip. */
  lemma GenerateRaisesIs(w: Wallet, confirm: seq<Tx>, a: NodeAnswer)
    requires a.attempt.solved && a.accepted && a.mempool.None?
    ensures MineBlock(w, confirm, a).1.Err? <==> AddedPoints(w, confirm) != {}
    ensures MineBlock(w, confirm, a).1.Err? ==>
      MineBlock(w, confirm, a) == (Scanned(w, confirm), Err(TypeError))
  {
  }

  lemma UnreadCache(w: Wallet, known: set<Tx>, confirm: seq<Tx>)
    requires BlockOrdered(known, confirm)
    ensures Scanned(w, confirm).utxos == AtHeight(MinedLeft(w, confirm, {}), TxSet(confirm), w.height + 1)
  {
    BlockSpendOrdered(known, w.scanned, confirm);
    ScanIsOneFilter(w.utxos, w.scanned, confirm);
    assert AddedPoints(w, confirm) * {} == {};
    WithoutNothing(Without(w.utxos + News(w.scanned, confirm), AllInputs(confirm)));
  }

  /** The cache coin by coin: what the block leaves, relabelled. */
  lemma UnreadCoins(s: World, confirm: seq<Tx>, after: set<Tx>)
    requires Inv(s) && MineEnabled(s, confirm, after)
    ensures
      var left, utxos := MinedLeft(s.w, confirm, {}), Scanned(s.w, confirm).utxos;
      && |utxos| == |left|
      && (forall i :: 0 <= i < |left| ==>
            utxos[i] == if left[i].outpoint.tx in confirm then left[i].(height := s.w.height + 1) else left[i])
  {
    UnreadCache(s.w, s.minedAt.Keys, confirm);
    AtHeightCoins(MinedLeft(s.w, confirm, {}), TxSet(confirm), s.w.height + 1);
  }

  lemma UnreadLedger(s: World, confirm: seq<Tx>, after: set<Tx>)
    requires Inv(s) && MineEnabled(s, confirm, after)
    ensures LedgerInv(Step(s, MineUnread(confirm, after)))
  {
    hide Scan, AtHeight, MinedLeft, News, PointList, CacheInv, EnteredInv, CoinsInv;
    var next := Step(s, MineUnread(confirm, after));
    var coinbase := Coinbase(s.nodeHeight + 1);
    ConnectedLedger(s, confirm, coinbase);
    forall t | t in next.w.scanned ensures t.Tx? {
      if t in confirm {
        BlockIsNew(s.minedAt.Keys, confirm, t);
      }
    }
    LedgerWith(Connected(s, confirm, coinbase), next.w, after, next.entered);
    assert next == Connected(s, confirm, coinbase).(w := next.w, mempool := after, entered := next.entered);
  }

  /**
    The coins the block leaves are unspent by what was sent or confirmed, exactly where no coin it adds was spent
    before.
   */
  lemma UnreadUnspentIff(s: World, confirm: seq<Tx>, after: set<Tx>)
    requires Inv(s) && MineEnabled(s, confirm, after)
    ensures (forall t, u ::
               t in s.w.scanned + TxSet(confirm) && u in MinedLeft(s.w, confirm, {}) ==> u.outpoint !in Inputs(t))
         <==> NoAddedSpent(s, confirm)
  {
    var left := MinedLeft(s.w, confirm, {});
    if NoAddedSpent(s, confirm) {
      forall t, u | t in s.w.scanned + TxSet(confirm) && u in left ensures u.outpoint !in Inputs(t) {
        UnreadUnspent(s, confirm, t, u);
      }
    } else {
      var t, u := SpentAdded(s, confirm);
      assert t in s.w.scanned + TxSet(confirm) && u in left && u.outpoint in Inputs(t);
    }
  }

  lemma UnreadUnspent(s: World, confirm: seq<Tx>, t: Tx, u: Utxo)
    requires CacheInv(s) && NoAddedSpent(s, confirm)
    requires t in s.w.scanned + TxSet(confirm) && u in MinedLeft(s.w, confirm, {})
    ensures u.outpoint !in Inputs(t)
  {
    LeftMember(s.w, confirm, {}, u);
    if t in confirm {
      AllInputsMember(confirm, t);
    } else if u in s.w.utxos {
      PointsMember(s.w.utxos, u);
    } else {
      PointsMember(News(s.w.scanned, confirm), u);
    }
  }

  lemma SpentAdded(s: World, confirm: seq<Tx>) returns (t: Tx, u: Utxo)
    requires !NoAddedSpent(s, confirm)
    ensures t in s.w.scanned && u in MinedLeft(s.w, confirm, {}) && u.outpoint in Inputs(t)
  {
    t :| t in s.w.scanned && !(Inputs(t) !! AddedPoints(s.w, confirm) - AllInputs(confirm));
    var p :| p in Inputs(t) && p in AddedPoints(s.w, confirm) - AllInputs(confirm);
    var news := News(s.w.scanned, confirm);
    var i :| 0 <= i < |news| && news[i].outpoint == p;
    u := news[i];
    var all := s.w.utxos + news;
    assert u in all;
    WithoutMembers(all, AllInputs(confirm));
    assert AddedPoints(s.w, confirm) * {} == {};
    WithoutNothing(Without(all, AllInputs(confirm)));
  }

  /** The relabelled coins stand for the same outpoints. */
  lemma UnreadCacheInv(left: seq<Utxo>, utxos: seq<Utxo>, scanned: set<Tx>)
    requires Distinct(left) && |utxos| == |left|
    requires forall i :: 0 <= i < |left| ==> utxos[i].outpoint == left[i].outpoint
    ensures Distinct(utxos)
    ensures (forall t :: t in scanned ==> Inputs(t) !! Points(utxos))
       <==> (forall t, u :: t in scanned && u in left ==> u.outpoint !in Inputs(t))
  {
    forall i | 0 <= i < |left| ensures left[i] in left {
    }
    assert Points(utxos) == Points(left);
    if forall t :: t in scanned ==> Inputs(t) !! Points(utxos) {
      forall t, u | t in scanned && u in left ensures u.outpoint !in Inputs(t) {
        PointsMember(left, u);
      }
    }
  }

  lemma UnreadEntered(s: World, confirm: seq<Tx>, after: set<Tx>)
    requires Inv(s) && MineEnabled(s, confirm, after)
    ensures EnteredInv(Step(s, MineUnread(confirm, after)))
  {
    hide Scan, AtHeight, MinedLeft;
    var next, news := Step(s, MineUnread(confirm, after)), News(s.w.scanned, confirm);
    NewsFrom(s.w.scanned, confirm);
    forall u | u in news ensures u.outpoint !in s.entered && u.outpoint.tx.Tx? && u.outpoint.tx in TxSet(confirm) {
      BlockIsNew(s.minedAt.Keys, confirm, u.outpoint.tx);
      EnteredElsewhere(s, u.outpoint.tx);
    }
    EnteredGrows(s.entered, news, {});
    forall p | p in Points(news) ensures p.tx.Tx? && p.tx in TxSet(confirm) {
      var i :| 0 <= i < |news| && news[i].outpoint == p;
      assert news[i] in news;
    }
    UnreadCoins(s, confirm, after);
    UnreadInside(s, confirm, next.w.utxos, next.entered);
  }

  lemma UnreadInside(s: World, confirm: seq<Tx>, utxos: seq<Utxo>, entered: seq<OutPoint>)
    requires EnteredInv(s) && |utxos| == |MinedLeft(s.w, confirm, {})|
    requires forall i :: 0 <= i < |utxos| ==> utxos[i].outpoint == MinedLeft(s.w, confirm, {})[i].outpoint
    requires forall p :: p in s.entered || p in Points(News(s.w.scanned, confirm)) ==> p in entered
    ensures Points(utxos) <= (set p | p in entered)
  {
    hide MinedLeft;
    var left := MinedLeft(s.w, confirm, {});
    forall i | 0 <= i < |utxos| ensures utxos[i].outpoint in entered {
      LeftMember(s.w, confirm, {}, left[i]);
      if left[i] in s.w.utxos {
        PointsMember(s.w.utxos, left[i]);
      } else {
        PointsMember(News(s.w.scanned, confirm), left[i]);
      }
    }
  }

  lemma UnreadCoinsTrue(s: World, confirm: seq<Tx>, after: set<Tx>)
    requires Inv(s) && MineEnabled(s, confirm, after)
    ensures CoinsInv(Step(s, MineUnread(confirm, after)))
  {
    hide Scan, AtHeight, MinedLeft, CoinTrue;
    var next, left := Step(s, MineUnread(confirm, after)), MinedLeft(s.w, confirm, {});
    UnreadCoins(s, confirm, after);
    forall u | u in next.w.utxos ensures CoinTrue(next.minedAt, u) {
      var i :| 0 <= i < |next.w.utxos| && next.w.utxos[i] == u;
      LeftTrue(s, confirm, {}, left[i]);
    }
  }

  /**
    An accepted block of `generate` that then raises keeps the invariant exactly when nothing sent or confirmed
    before spends a coin it adds: the coins the mempool spends were never left out.
   */
  lemma UnreadKeepsIff(s: World, confirm: seq<Tx>, after: set<Tx>)
    requires Inv(s) && MineEnabled(s, confirm, after)
    ensures Inv(Step(s, MineUnread(confirm, after))) <==> NoAddedSpent(s, confirm)
  {
    hide Scan, AtHeight, MinedLeft, LedgerInv, EnteredInv, CoinsInv;
    UnreadLedger(s, confirm, after);
    UnreadEntered(s, confirm, after);
    UnreadCoinsTrue(s, confirm, after);
    UnreadCacheIff(s, confirm, after);
  }

  lemma UnreadCacheIff(s: World, confirm: seq<Tx>, after: set<Tx>)
    requires Inv(s) && MineEnabled(s, confirm, after)
    ensures CacheInv(Step(s, MineUnread(confirm, after))) <==> NoAddedSpent(s, confirm)
  {
    hide Scan, AtHeight, MinedLeft, NoAddedSpent;
    UnreadCoins(s, confirm, after);
    LeftDistinct(s, confirm, {});
    UnreadUnspentIff(s, confirm, after);
    UnreadCacheInv(MinedLeft(s.w, confirm, {}), Scanned(s.w, confirm).utxos, s.w.scanned + TxSet(confirm));
  }

  /** The case the condition leaves out: a parent confirmed unsent, whose child the wallet sent before. */
  lemma UnreadParentOfSent() returns (s: World, parent: Tx, child: Tx)
    ensures Inv(s) && child in s.w.scanned && parent !in s.w.scanned
    ensures MineEnabled(s, [parent], {child}) && AddedPoints(s.w, [parent]) != {}
    ensures !CacheInv(Step(s, MineUnread([parent], {child})))
  {
    parent := Tx(2, 0, [], [TxOut(1, AnyoneCanSpend)]);
    var spend := WalletInput(OutPoint(parent, 0), 0);
    child := Tx(2, 0, [spend], []);
    assert child.vin[0] == spend && child != parent;
    s := World(Wallet([], {child}, Genesis(0), 0, 0), 0, {parent, child}, {parent, child}, map[], []);
    CoinsFromPays(parent, 0);
    assert NewCoin(parent, 0) in NewUtxos(parent);
    var news := News(s.w.scanned, [parent]);
    assert [parent][1..] == [] && parent !in s.w.scanned;
    assert News(s.w.scanned + {parent}, []) == [] && Added(s.w.scanned, parent) == NewUtxos(parent);
    assert news == NewUtxos(parent) + [];
    assert NewCoin(parent, 0) in news;
    PointsMember(news, NewCoin(parent, 0));
    assert TxSet([parent]) == {parent};
    assert MineEnabled(s, [parent], {child});
    assert AllInputs([parent]) == {};
    assert OutPoint(parent, 0) in AddedPoints(s.w, [parent]) - AllInputs([parent]);
    assert OutPoint(parent, 0) in Inputs(child);
    assert !NoAddedSpent(s, [parent]);
    UnreadCacheIff(s, [parent], {child});
  }

  // ---- every run

  lemma MineKeeps(s: World, confirm: seq<Tx>, now: int, after: set<Tx>)
    requires Inv(s) && Enabled(s, Mine(confirm, now, after))
    ensures Inv(Step(s, Mine(confirm, now, after)))
  {
    MineLedger(s, confirm, now, after);
    MineCache(s, confirm, now, after);
    MineEntered(s, confirm, now, after);
    MineCoins(s, confirm, now, after);
  }

  lemma StepKeeps(s: World, e: Event)
    requires Inv(s) && Enabled(s, e)
    ensures Inv(Step(s, e))
  {
    match e
    case NodeTx(tx) => NodeTxKeeps(s, tx);
    case NodeMempool(m) =>
    case NodeBlock(txs, coinbase, after) => NodeBlockKeeps(s, txs, coinbase, after);
    case Send(tx) => SendKeepsIff(s, tx);
    case Take(left) => TakeKeeps(s, left);
    case Mine(confirm, now, after) => MineKeeps(s, confirm, now, after);
    case MineUnread(confirm, after) => UnreadKeepsIff(s, confirm, after);
    case Resync(tip, medianTime, left) => ResyncKeeps(s, tip, medianTime, left);
  }

  ghost predicate RunEnabled(s: World, events: seq<Event>)
    decreases events
  {
    events != [] ==> Enabled(s, events[0]) && RunEnabled(Step(s, events[0]), events[1..])
  }

  function Run(s: World, events: seq<Event>): World
    decreases events
  {
    if events == [] then s else Run(Step(s, events[0]), events[1..])
  }

  /**
    In every run, the cache holds no outpoint twice, each outpoint enters it once at most, no cached coin is an
    input of a transaction the wallet sent or confirmed, and a coin's value and height are the ledger's own.
   */
  lemma {:induction false} RunKeeps(s: World, events: seq<Event>)
    requires Inv(s) && RunEnabled(s, events)
    ensures Inv(Run(s, events))
    decreases events
  {
    if events != [] {
      StepKeeps(s, events[0]);
      RunKeeps(Step(s, events[0]), events[1..]);
    }
  }

  /** A wallet constructed over any node starts from the invariant. */
  lemma StartsTrue(tip: Block, medianTime: int, seen: set<Tx>, mempool: set<Tx>, minedAt: map<Tx, nat>)
    requires forall t :: t in seen ==> ParentsIn(t, seen)
    requires forall t :: t in minedAt ==> ParentsIn(t, minedAt.Keys) && 1 <= minedAt[t] <= Links(tip)
    requires minedAt.Keys <= seen && mempool <= seen
    requires forall t :: t in seen && t.CoinbaseTx? ==> t.height <= Links(tip)
    ensures Inv(World(Wallet([], {}, tip, Links(tip), medianTime), Links(tip), seen, mempool, minedAt, []))
  {
  }
}
