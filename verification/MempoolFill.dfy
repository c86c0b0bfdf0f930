/** `fill_mempool`: the fees it sends at, and the order lowest-feerate eviction must take them in. */
module MempoolFill {
  import opened Wrappers
  import opened Transactions
  import opened Blocks
  import opened Coins
  import opened CoinSelection
  import opened WalletState
  import opened Transfers
  import opened MiniWallet

  const NUM_TXS: nat := 75
  const HIGH_FEE_TXS: nat := 3
  const TARGET_VSIZE := 67_560

  /** Twice the relay fee rate over the target size, in whole thousands. */
  function BaseFee(relayFeeRate: nat): nat {
    relayFeeRate * 2 * (TARGET_VSIZE / 1000)
  }

  /** What the unpadded transaction pays, priced at the relay fee rate. */
  function FirstFee(relayFeeRate: nat): int {
    TransferFee(relayFeeRate, 0, 0)
  }

  /** What padded transaction `k` pays: its multiple of the base fee, a zero one deferring to the default rate. */
  function PaddedFee(relayFeeRate: nat, k: nat): int {
    TransferFee(DEFAULT_FEE_RATE, (k + 1) * BaseFee(relayFeeRate), TARGET_VSIZE)
  }

  /** A fee over a size, strictly below another. */
  predicate Cheaper(fee: int, size: int, otherFee: int, otherSize: int) {
    fee * otherSize < otherFee * size
  }

  /** The unpadded transaction below every padded one, and each of those below the next. */
  ghost predicate Ladder(relayFeeRate: nat) {
    && (forall k: nat :: k < NUM_TXS ==>
          Cheaper(FirstFee(relayFeeRate), 104, PaddedFee(relayFeeRate, k), TARGET_VSIZE))
    && (forall j: nat, k: nat :: j < k < NUM_TXS ==>
          Cheaper(PaddedFee(relayFeeRate, j), TARGET_VSIZE, PaddedFee(relayFeeRate, k), TARGET_VSIZE))
  }

  lemma PaddedFeeIs(relayFeeRate: nat, k: nat)
    requires relayFeeRate > 0
    ensures PaddedFee(relayFeeRate, k) == (k + 1) * (134 * relayFeeRate)
  {
    assert BaseFee(relayFeeRate) == 134 * relayFeeRate;
    MultipleAtLeast(k + 1, 134 * relayFeeRate);
  }

  lemma MultipleAtLeast(n: nat, x: nat)
    requires n > 0
    ensures n * x >= x
  {
  }

  lemma LaterMultiple(j: nat, k: nat, x: nat)
    requires j < k && x > 0
    ensures (j + 1) * x < (k + 1) * x
  {
  }

  /** The ladder holds for every relay fee rate of at least 5 satoshis per 1000 virtual bytes, and for no lower one. */
  lemma LadderIff(relayFeeRate: nat)
    ensures Ladder(relayFeeRate) <==> relayFeeRate >= 5
  {
    hide TransferFee;
    if relayFeeRate >= 5 {
      LadderHolds(relayFeeRate);
    } else {
      LadderFails(relayFeeRate);
    }
  }

  lemma LadderHolds(r: nat)
    requires r >= 5
    ensures Ladder(r)
  {
    FirstBelow(r);
    forall k: nat | k < NUM_TXS ensures Cheaper(FirstFee(r), 104, PaddedFee(r, k), TARGET_VSIZE) {
      PaddedFeeIs(r, k);
      MultipleAtLeast(k + 1, 134 * r);
    }
    forall j: nat, k: nat | j < k < NUM_TXS
      ensures Cheaper(PaddedFee(r, j), TARGET_VSIZE, PaddedFee(r, k), TARGET_VSIZE)
    {
      PaddedFeeIs(r, j);
      PaddedFeeIs(r, k);
      LaterMultiple(j, k, 134 * r);
    }
  }

  lemma LadderFails(r: nat)
    requires r < 5
    ensures !Ladder(r)
  {
    if r == 0 {
      assert PaddedFee(0, 0) == PaddedFee(0, 1);
      assert !Cheaper(PaddedFee(0, 0), TARGET_VSIZE, PaddedFee(0, 1), TARGET_VSIZE);
    } else {
      PaddedFeeIs(r, 0);
      assert FirstFee(r) == 1;
      assert !Cheaper(FirstFee(r), 104, PaddedFee(r, 0), TARGET_VSIZE);
    }
  }

  lemma FirstBelow(r: nat)
    requires r >= 5
    ensures FirstFee(r) * TARGET_VSIZE < 134 * r * 104
  {
    var first := FirstFee(r);
    LeastFee(r, 0, (104 * r + 999) / 1000);
    assert first * 1000 <= 104 * r + 999;
    if r < 10 {
      assert first <= 1;
    }
  }

  // ---- eviction

  datatype Entry = Entry(tx: Tx, fee: int, size: nat)

  /** One eviction takes an entry no other is below. */
  predicate Evictable(pool: set<Entry>, e: Entry) {
    e in pool && forall other :: other in pool ==> !Cheaper(other.fee, other.size, e.fee, e.size)
  }

  ghost predicate EvictionRun(pool: set<Entry>, evicted: seq<Entry>)
    decreases evicted
  {
    evicted != [] ==> Evictable(pool, evicted[0]) && EvictionRun(pool - {evicted[0]}, evicted[1..])
  }

  /** In every lowest-feerate-first run, over whatever else the mempool holds, an entry below another goes before it. */
  lemma {:induction false} LowestGoesFirst(pool: set<Entry>, evicted: seq<Entry>, low: Entry, high: Entry, j: nat)
    requires EvictionRun(pool, evicted) && low in pool
    requires Cheaper(low.fee, low.size, high.fee, high.size)
    requires j < |evicted| && evicted[j] == high
    ensures low in evicted[..j]
    decreases evicted
  {
    if evicted[0] == low {
      assert j > 0;
      assert evicted[..j][0] == low;
    } else {
      assert j > 0;
      LowestGoesFirst(pool - {evicted[0]}, evicted[1..], low, high, j - 1);
      assert evicted[..j][1..] == evicted[1..][..j - 1];
    }
  }

  /** So a lowest-feerate-first run never reaches a padded transaction while the unpadded one is in the mempool. */
  lemma FirstGoesFirst(relayFeeRate: nat, pool: set<Entry>, evicted: seq<Entry>, first: Tx, padded: Tx, k: nat, j: nat)
    requires relayFeeRate >= 5 && k < NUM_TXS
    requires Entry(first, FirstFee(relayFeeRate), 104) in pool && EvictionRun(pool, evicted)
    requires j < |evicted| && evicted[j] == Entry(padded, PaddedFee(relayFeeRate, k), TARGET_VSIZE)
    ensures Entry(first, FirstFee(relayFeeRate), 104) in evicted[..j]
  {
    LadderHolds(relayFeeRate);
    LowestGoesFirst(pool, evicted, Entry(first, FirstFee(relayFeeRate), 104), evicted[j], j);
  }

  // ---- the sends

  /** What the mempool is read as before the last sends and after them. */
  datatype Readings = Readings(minFeeBefore: int, mempool: seq<Tx>, minRelayFee: int, minFeeAfter: int)

  /** Transaction `index` of `fill_mempool`, spending `coin`: the unpadded one first, then the padded ones. */
  predicate FilledBy(tx: Tx, coin: Utxo, relayFeeRate: nat, index: nat) {
    Final(tx) &&
    if index == 0 then
      IsSelfTransfer(tx, coin, FirstFee(relayFeeRate)) && Vsize(tx.vin, tx.vout) == 104
    else
      IsSelfTransfer(tx, coin, PaddedFee(relayFeeRate, index - 1)) && Vsize(tx.vin, tx.vout) == TARGET_VSIZE
  }

  /** The fee transaction `index` pays. */
  function FeeAt(relayFeeRate: nat, index: nat): int {
    if index == 0 then FirstFee(relayFeeRate) else PaddedFee(relayFeeRate, index - 1)
  }

  /** A coin above its fee, and a node that takes the transaction spending it. */
  predicate Sendable(coins: seq<Utxo>, relayFeeRate: nat, accepts: nat -> bool, index: nat)
    requires index < |coins|
  {
    coins[index].value > FeeAt(relayFeeRate, index) && accepts(index)
  }

  /** Send `coins[from..to]`, each at its own fee and size: done exactly where each can be sent. */
  method SendBatch(wallet: MiniWallet, coins: seq<Utxo>, from: nat, to: nat, relayFeeRate: nat, accepts: nat -> bool)
    returns (r: Result<seq<Tx>>)
    requires from <= to <= |coins|
    modifies wallet
    ensures r.Ok? <==> forall i :: from <= i < to ==> Sendable(coins, relayFeeRate, accepts, i)
    ensures r.Err? ==> r.error in [ValueError, TypeError]
    ensures r.Ok? ==>
              && |r.value| == to - from
              && forall i :: from <= i < to ==> FilledBy(r.value[i - from], coins[i], relayFeeRate, i)
  {
    hide Final, CostsAsAsked;
    var sent: seq<Tx> := [];
    for i := from to to
      invariant |sent| == i - from
      invariant forall n :: from <= n < i ==> FilledBy(sent[n - from], coins[n], relayFeeRate, n)
      invariant forall n :: from <= n < i ==> Sendable(coins, relayFeeRate, accepts, n)
    {
      var fee := if i == 0 then 0 else i * BaseFee(relayFeeRate);
      var rate := if i == 0 then relayFeeRate else DEFAULT_FEE_RATE;
      var target := if i == 0 then 0 else TARGET_VSIZE;
      var made := wallet.CreateSelfTransfer(rate, fee, Some(coins[i]), target, false, 2, 0, Same(0));
      if made.Err? {
        assert !Sendable(coins, relayFeeRate, accepts, i);
        return Err(made.error);
      }
      FinalTransfer(made.value, coins[i], FeeAt(relayFeeRate, i));
      var answered := wallet.Send(made.value, accepts(i));
      if answered.Err? {
        assert !Sendable(coins, relayFeeRate, accepts, i);
        return Err(answered.error);
      }
      sent := sent + [made.value];
    }
    r := Ok(sent);
  }

  /** `generate` with nothing to confirm: done exactly where every block is mined. */
  method MineEmpty(wallet: MiniWallet, count: nat, answers: nat -> NodeAnswer) returns (error: Option<Error>)
    modifies wallet
    ensures error.None? <==> AllMine(answers, count)
    ensures error in [None, Some(RuntimeError), Some(TypeError)]
    ensures error.None? ==>
      && wallet.utxos == old(wallet.utxos) + Coinbases(old(wallet.height), count)
      && wallet.height == old(wallet.height) + count
  {
    hide GenerateFrom;
    ghost var before := wallet.State();
    var generated;
    ghost var through;
    generated, through := wallet.Generate(count, [], answers);
    if generated.Err? {
      assert !Mines(answers(|through| - 1));
      return Some(generated.error);
    }
    EmptyBlocks(before, [], count, answers);
    return None;
  }

  predicate Mines(a: NodeAnswer) {
    a.attempt.solved && a.accepted
  }

  predicate AllMine(answers: nat -> NodeAnswer, count: nat) {
    forall i :: 0 <= i < count ==> Mines(answers(i))
  }

  /** At least `left` of the lowest coinbases above `height` are cached, and those the next block may spend. */
  ghost predicate Ripe(utxos: seq<Utxo>, height: nat, ripe: set<nat>, left: int) {
    && |ripe| >= left
    && forall k :: k in ripe ==> height < k <= height + NUM_TXS + 1 && CoinbaseCoin(k) in utxos
  }

  lemma {:induction false} Range(height: nat, count: nat) returns (ripe: set<nat>)
    ensures |ripe| == count && forall k :: k in ripe <==> height < k <= height + count
  {
    ripe := {};
    if count > 0 {
      ripe := Range(height, count - 1);
      ripe := ripe + {height + count};
    }
  }

  /** Once the blocks are mined, every coin wanted is ripe. */
  lemma AllRipe(utxos: seq<Utxo>, height: nat) returns (ripe: set<nat>)
    requires utxos == Coinbases(height, NUM_TXS + 1) + Coinbases(height + NUM_TXS + 1, COINBASE_MATURITY - 1)
    ensures Ripe(utxos, height, ripe, NUM_TXS + 1)
  {
    hide CoinbaseCoin;
    ripe := Range(height, NUM_TXS + 1);
    forall k | k in ripe ensures CoinbaseCoin(k) in utxos {
      assert utxos[k - height - 1] == CoinbaseCoin(k);
    }
  }

  /** While one is left `get_utxo` finds a coin, and takes at most that one away. */
  lemma TakesOne(utxos: seq<Utxo>, height: nat, ripe: set<nat>, left: nat) returns (after: set<nat>)
    requires left > 0 && Ripe(utxos, height, ripe, left)
    ensures var choice := GetUtxo(utxos, height + NUM_TXS + COINBASE_MATURITY, Query(None, None, true), true);
      choice.coin.Some? && Ripe(choice.cache, height, after, left - 1)
  {
    hide GetUtxo, CoinbaseCoin;
    var q, now := Query(None, None, true), height + NUM_TXS + COINBASE_MATURITY;
    var choice := GetUtxo(utxos, now, q, true);
    GetUtxoCoin(utxos, now, q, true);
    GetUtxoCache(utxos, now, q, true);
    var some :| some in ripe;
    CoinbaseOffered(some, now);
    assert choice.coin.Some?;
    after := ripe - {choice.coin.value.height};
    forall k | k in after ensures CoinbaseCoin(k) in choice.cache {
      CoinbaseOffered(k, now);
      assert CoinbaseCoin(k) in multiset(utxos) && CoinbaseCoin(k) != choice.coin.value;
      assert CoinbaseCoin(k) in multiset(choice.cache);
    }
  }

  lemma CoinbaseOffered(k: nat, now: nat)
    ensures CoinbaseCoin(k).height == k
    ensures 0 < k && k + 100 <= now + 1 ==> Offered(CoinbaseCoin(k), Query(None, None, true), now)
  {
  }

  /**
    `fill_mempool`: what it sent, and the coins it spent. Every transaction but the first is of exactly the
    target size, and the first has left the mempool. Where all its blocks are mined it has its coins, no pick of one
    ever failing.
   */
  method FillMempool(
      nodeTip: Block, mined: nat -> NodeAnswer, matured: nat -> NodeAnswer,
      relayFeeRate: nat, accepts: nat -> bool, readings: Readings)
    returns (r: Result<seq<Tx>>, coins: seq<Utxo>)
    ensures r.Ok? ==>
              && |r.value| == |coins| == NUM_TXS + 1
              && (forall i :: 0 <= i < |coins| ==> FilledBy(r.value[i], coins[i], relayFeeRate, i))
              && r.value[0] !in readings.mempool && |readings.mempool| < NUM_TXS
              && readings.minFeeBefore == readings.minRelayFee == relayFeeRate < readings.minFeeAfter
    ensures coins != [] ==> |coins| == NUM_TXS + 1
    ensures coins != [] <==> AllMine(mined, NUM_TXS + 1) && AllMine(matured, COINBASE_MATURITY - 1)
    ensures coins == [] ==> r.Err? && r.error in [RuntimeError, TypeError]
    ensures r.Err? && coins != [] ==>
              || (r.error in [ValueError, TypeError]
                  && exists i :: 0 <= i < |coins| && !Sendable(coins, relayFeeRate, accepts, i))
              || (r.error == AssertionError
                  && (|| !(readings.minFeeBefore == readings.minRelayFee == relayFeeRate < readings.minFeeAfter)
                      || |readings.mempool| >= NUM_TXS
                      || (exists tx :: tx in readings.mempool && FilledBy(tx, coins[0], relayFeeRate, 0))))
  {
    hide FilledBy, Sendable, GenerateFrom, GetUtxo, CoinbaseCoin;
    coins := [];
    var wallet := new MiniWallet(nodeTip);
    ghost var height := wallet.height;
    var error := MineEmpty(wallet, NUM_TXS + 1, mined);
    if error.Some? {
      return Err(error.value), coins;
    }
    error := MineEmpty(wallet, COINBASE_MATURITY - 1, matured);
    if error.Some? {
      return Err(error.value), coins;
    }
    assert [] + Coinbases(height, NUM_TXS + 1) == Coinbases(height, NUM_TXS + 1);
    ghost var ripe := AllRipe(wallet.utxos, height);
    var confirmed: seq<Utxo> := [];
    for n := 0 to NUM_TXS + 1
      invariant |confirmed| == n && wallet.height == height + NUM_TXS + COINBASE_MATURITY
      invariant Ripe(wallet.utxos, height, ripe, NUM_TXS + 1 - n)
    {
      ripe := TakesOne(wallet.utxos, height, ripe, NUM_TXS + 1 - n);
      var picked := wallet.Get(Query(None, None, true), true);
      assert picked.Ok?;
      confirmed := confirmed + [picked.value];
    }
    coins := confirmed;
    var early := SendBatch(wallet, confirmed, 0, NUM_TXS + 1 - HIGH_FEE_TXS, relayFeeRate, accepts);
    if early.Err? {
      return Err(early.error), coins;
    }
    if readings.minFeeBefore != relayFeeRate {
      return Err(AssertionError), coins;
    }
    var late := SendBatch(wallet, confirmed, NUM_TXS + 1 - HIGH_FEE_TXS, NUM_TXS + 1, relayFeeRate, accepts);
    if late.Err? {
      return Err(late.error), coins;
    }
    if |readings.mempool| >= NUM_TXS || early.value[0] in readings.mempool {
      return Err(AssertionError), coins;
    }
    if readings.minRelayFee != relayFeeRate || readings.minFeeAfter <= relayFeeRate {
      return Err(AssertionError), coins;
    }
    r := Ok(early.value + late.value);
  }
}
