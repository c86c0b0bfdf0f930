/** What each of the wallet's operations does to its cache, its set of scanned transactions and its tip. */
module WalletState {
  import opened Wrappers
  import opened Transactions
  import opened Blocks
  import opened Coins

  datatype Wallet = Wallet(utxos: seq<Utxo>, scanned: set<Tx>, tip: Block, height: nat, lastTime: int)

  /** Regtest halves the 50-coin subsidy every 150 blocks. */
  const HALVING_INTERVAL: nat := 150

  function Halved(value: nat, times: nat): nat {
    if times == 0 then value else Halved(value, times - 1) / 2
  }

  function Subsidy(height: nat): nat {
    if height / HALVING_INTERVAL >= 64 then 0 else Halved(50_0000_0000, height / HALVING_INTERVAL)
  }

  /** Fifty coins for the first 150 heights, and half as much, rounded down, for each 150 after those before. */
  lemma {:induction false} SubsidyHalves(height: nat)
    ensures height < 150 ==> Subsidy(height) == 50_0000_0000
    ensures Subsidy(height + 150) == Subsidy(height) / 2
  {
    var times := height / HALVING_INTERVAL;
    assert (height + 150) / HALVING_INTERVAL == times + 1;
    assert Halved(50_0000_0000, times + 1) == Halved(50_0000_0000, times) / 2;
    if times >= 63 {
      HalvedOut(times);
    }
  }

  /** The subsidy is used up well before the 64th halving. */
  lemma {:induction false} HalvedOut(times: nat)
    requires times >= 33
    ensures Halved(50_0000_0000, times) == 0
  {
    if times == 33 {
      assert Halved(50_0000_0000, 8) == 1953_1250 && Halved(50_0000_0000, 16) == 7_6293;
      assert Halved(50_0000_0000, 24) == 298 && Halved(50_0000_0000, 32) == 1;
    } else {
      HalvedOut(times - 1);
    }
  }

  /** The coinbase of a block of the wallet's own at `height`, and the coin it caches. */
  function Coinbase(height: nat): Tx {
    CoinbaseTx(height, [TxOut(Subsidy(height), AnyoneCanSpend)])
  }

  function CoinbaseCoin(height: nat): Utxo {
    Utxo(OutPoint(Coinbase(height), 0), Subsidy(height), height, true)
  }

  /** `get_balance`. */
  function Balance(utxos: seq<Utxo>): int {
    if utxos == [] then 0 else utxos[0].value + Balance(utxos[1..])
  }

  function TxSet(txs: seq<Tx>): set<Tx> {
    set i | 0 <= i < |txs| :: txs[i]
  }

  lemma TxSetAppend(txs: seq<Tx>, tx: Tx)
    ensures TxSet(txs + [tx]) == TxSet(txs) + {tx}
  {
    forall t | t in TxSet(txs) + {tx} ensures t in TxSet(txs + [tx]) {
      if t in TxSet(txs) {
        var i :| 0 <= i < |txs| && txs[i] == t;
        assert (txs + [tx])[i] == t;
      } else {
        assert (txs + [tx])[|txs|] == t;
      }
    }
  }

  /** `_scan_tx`. */
  function ScanTx(w: Wallet, tx: Tx): Wallet {
    w.(utxos := Without(w.utxos, Inputs(tx)) + NewUtxos(tx), scanned := w.scanned + {tx})
  }

  /** Every coin one of `txs` pays takes the height of the block confirming it. */
  function AtHeight(utxos: seq<Utxo>, txs: set<Tx>, height: nat): seq<Utxo> {
    if utxos == [] then []
    else [if utxos[0].outpoint.tx in txs then utxos[0].(height := height) else utxos[0]]
         + AtHeight(utxos[1..], txs, height)
  }

  lemma {:induction false} AtHeightCoins(utxos: seq<Utxo>, txs: set<Tx>, height: nat)
    ensures |AtHeight(utxos, txs, height)| == |utxos|
    ensures forall i :: 0 <= i < |utxos| ==>
                          AtHeight(utxos, txs, height)[i]
                          == if utxos[i].outpoint.tx in txs then utxos[i].(height := height) else utxos[i]
    decreases utxos
  {
    if utxos != [] {
      AtHeightCoins(utxos[1..], txs, height);
    }
  }

  // ---- re-reading the UTXO set

  /** `gettxout` without the mempool: absent from the UTXO set, so many confirmations, or unusable. */
  datatype TxOutAnswer = Absent | Confirmations(count: int) | Malformed

  predicate Usable(u: Utxo, answers: OutPoint -> TxOutAnswer) {
    !u.coinbase ==>
      var answer := answers(u.outpoint);
      !answer.Malformed? && (answer.Confirmations? ==> answer.count >= 1)
  }

  /** A cached coin after `resync`: a coinbase is left as it is. */
  function Reheighted(u: Utxo, height: int, answers: OutPoint -> TxOutAnswer): Utxo {
    if u.coinbase then u
    else u.(height := if answers(u.outpoint).Confirmations? then height - answers(u.outpoint).count + 1 else 0)
  }

  // ---- mining one block of `generate`

  /**
    What the wall clock, the nonce search and the node answer at one block: whether `submitblock` accepts it,
    and the transactions of the mempool, `None` where the answer is one the wallet cannot use.
   */
  datatype NodeAnswer = NodeAnswer(attempt: Attempt, accepted: bool, mempool: Option<seq<Tx>>)

  /** The cache once the confirmed transactions have been scanned, before the mempool is asked about. */
  function Scanned(w: Wallet, confirm: seq<Tx>): Wallet {
    w.(utxos := AtHeight(Scan(w.utxos, w.scanned, confirm), TxSet(confirm), w.height + 1),
       scanned := w.scanned + TxSet(confirm))
  }

  /** The outpoints the scan adds. */
  function AddedPoints(w: Wallet, confirm: seq<Tx>): set<OutPoint> {
    Points(News(w.scanned, confirm))
  }

  function MinedTip(w: Wallet, confirm: seq<Tx>, now: int): Block {
    MinedBlock(w.tip, w.height + 1, w.lastTime, AnyoneCanSpend, confirm, now)
  }

  /** The wallet after a block the node accepted, given the outpoints the mempool spends. */
  function Confirmed(w: Wallet, confirm: seq<Tx>, now: int, mempoolSpends: set<OutPoint>): Wallet {
    var scanned := Scanned(w, confirm);
    var block := MinedTip(w, confirm, now);
    Wallet(Without(scanned.utxos, AddedPoints(w, confirm) * mempoolSpends) + [CoinbaseCoin(w.height + 1)],
           scanned.scanned, block, w.height + 1, block.time)
  }

  lemma ConfirmedFields(w: Wallet, confirm: seq<Tx>, now: int, spends: set<OutPoint>)
    ensures Confirmed(w, confirm, now, spends).scanned == w.scanned + TxSet(confirm)
    ensures Confirmed(w, confirm, now, spends).height == w.height + 1
  {
  }

  /** One block of `generate`: the wallet afterwards, and the block or what is raised. */
  function MineBlock(w: Wallet, confirm: seq<Tx>, a: NodeAnswer): (Wallet, Result<Block>) {
    if !a.attempt.solved then (w, Err(RuntimeError))
    else if !a.accepted then (w, Err(TypeError))
    else if AddedPoints(w, confirm) == {} then
      (Confirmed(w, confirm, a.attempt.now, {}), Ok(MinedTip(w, confirm, a.attempt.now)))
    else if a.mempool.None? then (Scanned(w, confirm), Err(TypeError))
    else
      (Confirmed(w, confirm, a.attempt.now, AllInputs(a.mempool.value)), Ok(MinedTip(w, confirm, a.attempt.now)))
  }

  /**
    How one block of `generate` ends. It is answered where it was solved and accepted and the mempool could be read,
    or need not be; then it stands on the wallet's tip, pays the wallet, carries `confirm`, and is the new tip. One not
    solved or refused changes nothing, and only an accepted one can raise having been scanned.
   */
  ghost predicate Attempted(before: Wallet, after: Wallet, confirm: seq<Tx>, a: NodeAnswer, r: Result<Block>) {
    match r
    case Ok(block) =>
      && a.attempt.solved && a.accepted
      && block.Block? && block.prev == before.tip && block.pays == AnyoneCanSpend && block.extra == confirm
      && block.height == before.height + 1 == after.height
      && block.time > before.lastTime && block.time >= a.attempt.now
      && (block.time == a.attempt.now || block.time == before.lastTime + 1)
      && after.tip == block && after.lastTime == block.time
      && after.scanned == before.scanned + TxSet(confirm)
    case Err(e) =>
      && after.tip == before.tip && after.height == before.height && after.lastTime == before.lastTime
      && (!a.attempt.solved ==> e == RuntimeError && after == before)
      && (a.attempt.solved ==> e == TypeError)
      && (a.attempt.solved && !a.accepted ==> after == before)
      && (a.attempt.solved && a.accepted ==>
            confirm != [] && a.mempool.None? && after.scanned == before.scanned + TxSet(confirm))
  }

  lemma AsAttempted(w: Wallet, confirm: seq<Tx>, a: NodeAnswer)
    ensures Attempted(w, MineBlock(w, confirm, a).0, confirm, a, MineBlock(w, confirm, a).1)
  {
  }

  /**
    Blocks mined one after the other, `through` being the wallet before each of them and after the last: each was
    solved and accepted, stands on the one before it, pays the wallet, and only the first carries anything.
   */
  ghost predicate MinedThrough(
      blocks: seq<Block>, through: seq<Wallet>, confirm: seq<Tx>, answers: nat -> NodeAnswer)
  {
    && |through| == |blocks| + 1
    && forall i :: 0 <= i < |blocks| ==>
         && answers(i).attempt.solved && answers(i).accepted
         && blocks[i].Block? && blocks[i].prev == through[i].tip && through[i + 1].tip == blocks[i]
         && blocks[i].pays == AnyoneCanSpend && blocks[i].extra == (if i == 0 then confirm else [])
         && blocks[i].height == through[i].height + 1 == through[i + 1].height
  }

  lemma NoneMined(w: Wallet, confirm: seq<Tx>, answers: nat -> NodeAnswer)
    ensures MinedThrough([], [w], confirm, answers)
  {
  }

  lemma OneMined(
      blocks: seq<Block>, through: seq<Wallet>, confirm: seq<Tx>, answers: nat -> NodeAnswer, b: Block, after: Wallet)
    requires MinedThrough(blocks, through, confirm, answers)
    requires Attempted(
               through[|blocks|], after, if blocks == [] then confirm else [], answers(|blocks|), Ok(b))
    ensures MinedThrough(blocks + [b], through + [after], confirm, answers)
  {
  }

  lemma AllAccepted(blocks: seq<Block>, through: seq<Wallet>, confirm: seq<Tx>, answers: nat -> NodeAnswer)
    requires MinedThrough(blocks, through, confirm, answers)
    ensures forall i :: 0 <= i < |blocks| ==> answers(i).attempt.solved && answers(i).accepted
  {
  }

  /** `generate` once it has mined `hashes`: `confirm` is carried by the first block alone. */
  function GenerateFrom(w: Wallet, hashes: seq<Block>, count: nat, confirm: seq<Tx>, answers: nat -> NodeAnswer)
    : (Wallet, Result<seq<Block>>)
    requires |hashes| <= count
    decreases count - |hashes|
  {
    if |hashes| == count then (w, Ok(hashes))
    else
      var (next, mined) := MineBlock(w, if hashes == [] then confirm else [], answers(|hashes|));
      if mined.Err? then (next, Err(mined.error))
      else GenerateFrom(next, hashes + [mined.value], count, confirm, answers)
  }

  // ---- the chain a wallet mines

  /** The wallet's view of its tip: its height, and a last time its own median time past does not exceed. */
  ghost predicate OnTip(w: Wallet) {
    w.height == Links(w.tip) && Covers(Times(w.tip), w.lastTime)
  }

  lemma MineBlockOnTip(w: Wallet, confirm: seq<Tx>, a: NodeAnswer)
    requires OnTip(w)
    ensures OnTip(MineBlock(w, confirm, a).0)
    ensures MineBlock(w, confirm, a).1.Ok? ==>
              var b := MineBlock(w, confirm, a).1.value;
              NextOn(b, w.tip) && MineBlock(w, confirm, a).0.tip == b
    ensures MineBlock(w, confirm, a).1.Err? ==> MineBlock(w, confirm, a).0.tip == w.tip
  {
    MinedLater(MinedTip(w, confirm, a.attempt.now), w.lastTime);
  }

  /**
    Every block of a `generate` is on the one before it, at its own height, and later than its own chain's
    median time past, whatever the clock reads; and however the call ends, the wallet is left where the next
    one starts from the same invariant.
   */
  lemma {:induction false} GenerateOnTip(
      w: Wallet, hashes: seq<Block>, nodeTip: Block, count: nat, confirm: seq<Tx>, answers: nat -> NodeAnswer)
    requires |hashes| <= count && OnTip(w)
    requires IsFork(hashes, nodeTip) && w.tip == ForkTip(hashes, nodeTip)
    ensures OnTip(GenerateFrom(w, hashes, count, confirm, answers).0)
    ensures var r := GenerateFrom(w, hashes, count, confirm, answers).1;
            r.Ok? ==> |r.value| == count && IsFork(r.value, nodeTip)
    decreases count - |hashes|
  {
    if |hashes| < count {
      var carried := if hashes == [] then confirm else [];
      var (next, mined) := MineBlock(w, carried, answers(|hashes|));
      MineBlockOnTip(w, carried, answers(|hashes|));
      if mined.Ok? {
        assert (hashes + [mined.value])[..|hashes|] == hashes;
        GenerateOnTip(next, hashes + [mined.value], nodeTip, count, confirm, answers);
      }
    }
  }
  /** The coinbases of `count` blocks above `height`. */
  function Coinbases(height: nat, count: nat): seq<Utxo> {
    seq(count, i requires 0 <= i < count => CoinbaseCoin(height + 1 + i))
  }

  lemma {:induction false} NoneRelabelled(utxos: seq<Utxo>, height: nat)
    ensures AtHeight(utxos, {}, height) == utxos
  {
    if utxos != [] {
      NoneRelabelled(utxos[1..], height);
    }
  }

  lemma EmptyBlock(w: Wallet, a: NodeAnswer)
    requires MineBlock(w, [], a).1.Ok?
    ensures MineBlock(w, [], a).0.utxos == w.utxos + [CoinbaseCoin(w.height + 1)]
    ensures MineBlock(w, [], a).0.height == w.height + 1
  {
    assert TxSet([]) == {};
    NoneRelabelled(w.utxos, w.height + 1);
    WithoutNothing(w.utxos);
    assert AddedPoints(w, []) == {};
    assert {} * AllInputs([]) == {};
  }

  /** Blocks that confirm nothing cache their coinbases, one above the other, and leave the rest as it was. */
  lemma {:induction false} EmptyBlocks(w: Wallet, hashes: seq<Block>, count: nat, answers: nat -> NodeAnswer)
    requires |hashes| <= count && GenerateFrom(w, hashes, count, [], answers).1.Ok?
    ensures
      var next := GenerateFrom(w, hashes, count, [], answers).0;
      && next.utxos == w.utxos + Coinbases(w.height, count - |hashes|) && next.height == w.height + count - |hashes|
    decreases count - |hashes|
  {
    hide MineBlock, CoinbaseCoin;
    if |hashes| < count {
      var (next, mined) := MineBlock(w, [], answers(|hashes|));
      EmptyBlock(w, answers(|hashes|));
      EmptyBlocks(next, hashes + [mined.value], count, answers);
      var rest := count - |hashes| - 1;
      assert [CoinbaseCoin(w.height + 1)] + Coinbases(w.height + 1, rest) == Coinbases(w.height, rest + 1);
      assert (w.utxos + [CoinbaseCoin(w.height + 1)]) + Coinbases(w.height + 1, rest)
          == w.utxos + ([CoinbaseCoin(w.height + 1)] + Coinbases(w.height + 1, rest));
    }
  }
}
