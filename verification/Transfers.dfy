/** What the wallet's own transactions cost, and what sending them leaves cached. */
module Transfers {
  import opened Wrappers
  import opened Transactions
  import opened Blocks
  import opened Coins
  import opened CoinSelection
  import opened WalletState

  /** Satoshis: the fixed fee of `send_to` and, per output, of a multi-output send. */
  const FEE := 1000

  /** Satoshis per 1000 virtual bytes. */
  const DEFAULT_FEE_RATE := 300_000

  /** `sequence`: one for every input, or one each. */
  datatype Sequences = Same(value: int) | Each(values: seq<int>)

  function SequencesFor(s: Sequences, count: nat): seq<int> {
    if s.Same? then seq(count, _ => s.value) else s.values
  }

  function WalletInputs(utxos: seq<Utxo>, sequences: seq<int>): seq<TxIn>
    requires |utxos| == |sequences|
  {
    seq(|utxos|, i requires 0 <= i < |utxos| => WalletInput(utxos[i].outpoint, sequences[i]))
  }

  /** One input for each coin, in order, with the sequence number asked for. */
  lemma InputsAsAsked(utxos: seq<Utxo>, s: Sequences)
    requires |SequencesFor(s, |utxos|)| == |utxos|
    ensures
      var vin := WalletInputs(utxos, SequencesFor(s, |utxos|));
      && |vin| == |utxos| && (s.Each? ==> |s.values| == |utxos|)
      && forall i :: 0 <= i < |utxos| ==>
           vin[i].prevOut == utxos[i].outpoint && vin[i].sequence == if s.Same? then s.value else s.values[i]
  {
  }

  /** Version 2, and neither a lock time nor a sequence number of its own. */
  predicate Final(tx: Tx) {
    tx.Tx? && tx.version == 2 && tx.lockTime == 0 && forall i :: 0 <= i < |tx.vin| ==> tx.vin[i].sequence == 0
  }

  function Values(vout: seq<TxOut>): int {
    if vout == [] then 0 else vout[0].value + Values(vout[1..])
  }

  /** The coin a `create_*` method spends, and the cache once it is taken: the caller's own, or `get_utxo`'s. */
  function Funding(utxos: seq<Utxo>, height: int, given: Option<Utxo>, confirmedOnly: bool): Choice {
    if given.Some? then Choice(given, utxos) else GetUtxo(utxos, height, Query(None, None, confirmedOnly), true)
  }

  /** The caller's own coin where there is one, the cache left alone; and otherwise the choice of `get_utxo`, taken. */
  lemma FundingPicks(utxos: seq<Utxo>, height: int, given: Option<Utxo>, confirmedOnly: bool)
    ensures
      var r := Funding(utxos, height, given, confirmedOnly);
      if given.Some? then r.coin == given && r.cache == utxos
      else
        && (r.coin.None? <==> forall u :: u in utxos ==> !Offered(u, Query(None, None, confirmedOnly), height))
        && (r.coin.Some? ==> IsChoice(r.coin.value, utxos, height, Query(None, None, confirmedOnly)))
        && multiset(r.cache) == multiset(utxos) - if r.coin.Some? then multiset{r.coin.value} else multiset{}
  {
    hide GetUtxo;
    GetUtxoCoin(utxos, height, Query(None, None, confirmedOnly), true);
    GetUtxoCache(utxos, height, Query(None, None, confirmedOnly), true);
  }

  // ---- the fee of a self-transfer

  /** `fee` where nonzero, otherwise the rate over the target size, or over the 104 virtual bytes of the transfer. */
  function TransferFee(feeRate: int, fee: int, targetVsize: int): int {
    if fee != 0 then fee else -((-feeRate * (if targetVsize != 0 then targetVsize else 104)) / 1000)
  }

  /** The rate's own fee is the least whole number of satoshis at or above `feeRate * size / 1000`. */
  lemma LeastFee(feeRate: int, targetVsize: int, other: int)
    ensures
      var size := if targetVsize != 0 then targetVsize else 104;
      var fee := TransferFee(feeRate, 0, targetVsize);
      && fee * 1000 >= feeRate * size
      && (other * 1000 >= feeRate * size ==> fee <= other)
  {
    var due := -feeRate * (if targetVsize != 0 then targetVsize else 104);
    assert due / 1000 * 1000 <= due < due / 1000 * 1000 + 1000;
  }

  /**
    What a self-transfer is to cost: the caller's own `fee` where there is one, whatever the size; and otherwise the
    least whole number of satoshis at or above the rate over the target size, or over 104 virtual bytes.
   */
  ghost predicate CostsAsAsked(cost: int, feeRate: int, fee: int, targetVsize: int) {
    if fee != 0 then cost == fee
    else
      var size := if targetVsize != 0 then targetVsize else 104;
      (cost - 1) * 1000 < feeRate * size <= cost * 1000
  }

  /** The fee computed is the one asked for, and there is only one. */
  lemma FeeAsAsked(feeRate: int, fee: int, targetVsize: int, cost: int)
    ensures CostsAsAsked(cost, feeRate, fee, targetVsize) <==> cost == TransferFee(feeRate, fee, targetVsize)
  {
    if fee == 0 {
      var due := -feeRate * (if targetVsize != 0 then targetVsize else 104);
      assert due / 1000 * 1000 <= due < due / 1000 * 1000 + 1000;
    }
  }

  /** One coin paid back to the wallet less `paid` satoshis, with a zero-valued padding output at most beside it. */
  predicate IsSelfTransfer(tx: Tx, coin: Utxo, paid: int) {
    && tx.Tx?
    && |tx.vin| == 1 && tx.vin[0].prevOut == coin.outpoint
    && 1 <= |tx.vout| <= 2
    && tx.vout[0] == TxOut(coin.value - paid, AnyoneCanSpend)
    && (|tx.vout| == 2 ==> tx.vout[1].value == 0 && tx.vout[1].script.OpReturn?)
  }

  /** A self-transfer spends its coin alone, pays the wallet one coin, and costs exactly `paid`. */
  lemma SelfTransferCosts(tx: Tx, coin: Utxo, paid: int)
    requires IsSelfTransfer(tx, coin, paid)
    ensures Inputs(tx) == {coin.outpoint}
    ensures NewUtxos(tx) == [NewCoin(tx, 0)]
    ensures coin.value - Values(tx.vout) == paid
  {
    assert CoinsFrom(tx, |tx.vout|) == [];
    assert CoinsFrom(tx, 1) == [];
    assert Values(tx.vout[1..]) == 0;
  }

  lemma FinalTransfer(tx: Tx, coin: Utxo, paid: int)
    requires IsSelfTransfer(tx, coin, paid) && tx.version == 2 && tx.lockTime == 0 && tx.vin[0].sequence == 0
    ensures Final(tx)
  {
  }

  /** The size a self-transfer reaches: 104 virtual bytes, or the target exactly where no length prefix grows. */
  predicate SizedFor(tx: Tx, targetVsize: int)
    requires tx.Tx?
    requires targetVsize != 0 ==> targetVsize >= 114
  {
    if targetVsize == 0 then Vsize(tx.vin, tx.vout) == 104 && |tx.vout| == 1
    else
      && (Vsize(tx.vin, tx.vout) == targetVsize <==> !OnBoundary(targetVsize - 114))
      && targetVsize - 4 <= Vsize(tx.vin, tx.vout) <= targetVsize + 2
      && |tx.vout| == 2
  }

  /** One coin paying `value` to another script, `FEE` to the miner, and the rest back. */
  predicate IsPayment(tx: Tx, coin: Utxo, pays: Script, value: int) {
    && tx.Tx?
    && |tx.vin| == 1 && tx.vin[0].prevOut == coin.outpoint
    && tx.vout == [TxOut(coin.value - value - FEE, AnyoneCanSpend), TxOut(value, pays)]
  }

  // ---- several outputs

  function Repeated(o: TxOut, count: nat): (r: seq<TxOut>)
    ensures |r| == count && forall i :: 0 <= i < count ==> r[i] == o
  {
    seq(count, _ => o)
  }

  lemma {:induction false} RepeatedValues(o: TxOut, count: nat)
    ensures Values(Repeated(o, count)) == count * o.value
  {
    if count > 0 {
      assert Repeated(o, count)[1..] == Repeated(o, count - 1);
      RepeatedValues(o, count - 1);
    }
  }

  /** What each of `outputs` equal outputs carries. */
  function SharePerOutput(total: int, feePerOutput: int, outputs: nat): int
    requires outputs > 0
  {
    (total - feePerOutput * outputs) / outputs
  }

  /** A multi-output send costs `feePerOutput` for each output, and a remainder smaller than their number. */
  lemma MultiCosts(total: int, feePerOutput: int, outputs: nat)
    requires outputs > 0
    ensures
      var share := SharePerOutput(total, feePerOutput, outputs);
      var cost := total - Values(Repeated(TxOut(share, AnyoneCanSpend), outputs));
      outputs * feePerOutput <= cost < outputs * feePerOutput + outputs
  {
    var share := SharePerOutput(total, feePerOutput, outputs);
    RepeatedValues(TxOut(share, AnyoneCanSpend), outputs);
    assert outputs * share <= total - feePerOutput * outputs < outputs * share + outputs;
  }

  /** The equal outputs of a multi-output send. */
  function Shares(coins: seq<Utxo>, outputs: nat, feePerOutput: int): seq<TxOut>
    requires outputs > 0
  {
    Repeated(TxOut(SharePerOutput(Balance(coins), feePerOutput, outputs), AnyoneCanSpend), outputs)
  }

  /**
    Whether a multi-output transfer can be built: positive shares, a sequence for each coin, and room for the padding.
   */
  predicate MultiFits(coins: seq<Utxo>, outputs: nat, feePerOutput: int, targetVsize: int, sequence: Sequences)
    requires outputs > 0
  {
    && SharePerOutput(Balance(coins), feePerOutput, outputs) > 0
    && |SequencesFor(sequence, |coins|)| == |coins|
    && (targetVsize != 0 ==>
          var vin := WalletInputs(coins, SequencesFor(sequence, |coins|));
          Deficit(vin, Shares(coins, outputs, feePerOutput), targetVsize) >= 0)
  }

  /**
    A multi-output transfer can be built exactly where the coins are worth all the fees and a satoshi for each output,
    there is a sequence for each coin, and the size asked for has room for an empty padding output.
   */
  lemma MultiFitsIff(coins: seq<Utxo>, outputs: nat, feePerOutput: int, targetVsize: int, sequence: Sequences)
    requires outputs > 0
    ensures MultiFits(coins, outputs, feePerOutput, targetVsize, sequence) <==>
            && Balance(coins) >= outputs * feePerOutput + outputs
            && (sequence.Each? ==> |sequence.values| == |coins|)
            && (targetVsize != 0 ==>
                  var own := if sequence.Same? then seq(|coins|, _ => sequence.value) else sequence.values;
                  && |own| == |coins|
                  && var outs := Shares(coins, outputs, feePerOutput) + [TxOut(0, OpReturn(0))];
                     Vsize(WalletInputs(coins, own), outs) <= targetVsize)
  {
    hide Shares, Balance, Vsize, WalletInputs;
    PositiveShare(Balance(coins), feePerOutput, outputs);
  }

  lemma PositiveShare(total: int, feePerOutput: int, outputs: nat)
    requires outputs > 0
    ensures SharePerOutput(total, feePerOutput, outputs) > 0 <==> total >= outputs * feePerOutput + outputs
  {
    var left := total - feePerOutput * outputs;
    WholePart(left, outputs);
  }

  lemma WholePart(n: int, d: nat)
    requires d > 0
    ensures n / d > 0 <==> n >= d
  {
    assert n / d * d <= n < n / d * d + d;
    if n / d > 0 {
      assert (n / d - 1) * d >= 0;
    }
  }

  /** Every coin spent, in order, into equal outputs, with a zero-valued padding output at most behind them. */
  predicate IsMultiTransfer(tx: Tx, coins: seq<Utxo>, outputs: nat, feePerOutput: int, targetVsize: int)
    requires outputs > 0
  {
    && tx.Tx?
    && |tx.vin| == |coins| && (forall i :: 0 <= i < |coins| ==> tx.vin[i].prevOut == coins[i].outpoint)
    && outputs <= |tx.vout| <= outputs + 1
    && tx.vout[..outputs] == Shares(coins, outputs, feePerOutput)
    && (|tx.vout| > outputs ==> tx.vout[outputs].value == 0 && tx.vout[outputs].script.OpReturn?)
    && (|tx.vout| > outputs <==> targetVsize != 0)
  }

  // ---- a chain

  /** What each transaction of a chain costs. */
  const CHAIN_FEE: int := TransferFee(DEFAULT_FEE_RATE, 0, 0)

  /** Each transaction spends the single coin the one before it pays. */
  predicate IsChain(coin: Utxo, txs: seq<Tx>)
    decreases txs
  {
    txs != [] ==>
      IsSelfTransfer(txs[0], coin, CHAIN_FEE) && Final(txs[0]) && IsChain(NewCoin(txs[0], 0), txs[1..])
  }

  function ChainTip(coin: Utxo, txs: seq<Tx>): Utxo
    requires IsChain(coin, txs)
    decreases txs
  {
    if txs == [] then coin else ChainTip(NewCoin(txs[0], 0), txs[1..])
  }

  lemma NoChain(coin: Utxo)
    ensures IsChain(coin, []) && ChainTip(coin, []) == coin
  {
  }

  lemma {:induction false} ChainAppend(coin: Utxo, txs: seq<Tx>, tx: Tx)
    requires IsChain(coin, txs) && IsSelfTransfer(tx, ChainTip(coin, txs), CHAIN_FEE) && Final(tx)
    ensures IsChain(coin, txs + [tx]) && ChainTip(coin, txs + [tx]) == NewCoin(tx, 0)
    decreases txs
  {
    if txs != [] {
      assert (txs + [tx])[1..] == txs[1..] + [tx];
      ChainAppend(NewCoin(txs[0], 0), txs[1..], tx);
    } else {
      assert txs + [tx] == [tx];
    }
  }

  function SendAll(w: Wallet, txs: seq<Tx>): Wallet
    decreases txs
  {
    if txs == [] then w else SendAll(ScanTx(w, txs[0]), txs[1..])
  }

  /** A chain of n costs n fees. */
  lemma {:induction false} ChainCosts(coin: Utxo, txs: seq<Tx>)
    requires IsChain(coin, txs)
    ensures ChainTip(coin, txs).value == coin.value - |txs| * CHAIN_FEE && CHAIN_FEE == 31_200
    decreases txs
  {
    if txs != [] {
      ChainCosts(NewCoin(txs[0], 0), txs[1..]);
    }
  }

  /** Sending the first transaction of a chain. */
  lemma FirstOfChain(w: Wallet, coin: Utxo, txs: seq<Tx>)
    requires txs != [] && IsChain(coin, txs)
    requires forall u :: u in w.utxos ==> u.outpoint.tx !in txs
    ensures ScanTx(w, txs[0]).utxos == Without(w.utxos, {coin.outpoint}) + [NewCoin(txs[0], 0)]
    ensures forall u :: u in ScanTx(w, txs[0]).utxos ==> u.outpoint.tx !in txs[1..]
    ensures NewCoin(txs[0], 0).outpoint !in Points(Without(w.utxos, {coin.outpoint}))
  {
    SelfTransferCosts(txs[0], coin, CHAIN_FEE);
    WithoutMembers(w.utxos, {coin.outpoint});
    NotLaterInChain(NewCoin(txs[0], 0), txs[1..]);
  }

  lemma {:induction false} SendAllAppend(w: Wallet, txs: seq<Tx>, tx: Tx)
    ensures SendAll(w, txs + [tx]) == ScanTx(SendAll(w, txs), tx)
    decreases txs
  {
    if txs == [] {
      assert txs + [tx] == [tx];
    } else {
      assert (txs + [tx])[1..] == txs[1..] + [tx];
      SendAllAppend(ScanTx(w, txs[0]), txs[1..], tx);
    }
  }

  /**
    Sending a chain leaves the cache as it was less the coin the chain starts from, with the last
    transaction's coin alone behind it.
   */
  lemma {:induction false} ChainLeavesLast(w: Wallet, coin: Utxo, txs: seq<Tx>)
    requires txs != [] && IsChain(coin, txs)
    requires forall u :: u in w.utxos ==> u.outpoint.tx !in txs
    ensures SendAll(w, txs).utxos == Without(w.utxos, {coin.outpoint}) + [ChainTip(coin, txs)]
    decreases txs
  {
    var next, kept := NewCoin(txs[0], 0), Without(w.utxos, {coin.outpoint});
    FirstOfChain(w, coin, txs);
    if txs[1..] != [] {
      ChainLeavesLast(ScanTx(w, txs[0]), next, txs[1..]);
      WithoutConcat(kept, [next], {next.outpoint});
      NothingToDrop(kept, {next.outpoint});
    }
  }

  /** No transaction of a chain pays the coin the chain starts from: what it spends came before it. */
  lemma {:induction false} NotLaterInChain(coin: Utxo, txs: seq<Tx>)
    requires IsChain(coin, txs)
    ensures coin.outpoint.tx !in txs
  {
    ChainDeepens(coin, txs);
  }

  /** How many transactions deep the first inputs under a transaction go. */
  function Depth(tx: Tx): nat {
    if tx.Tx? && tx.vin != [] then 1 + Depth(tx.vin[0].prevOut.tx) else 0
  }

  lemma {:induction false} ChainDeepens(coin: Utxo, txs: seq<Tx>)
    requires IsChain(coin, txs)
    ensures forall t :: t in txs ==> Depth(t) > Depth(coin.outpoint.tx)
    decreases txs
  {
    if txs != [] {
      assert Depth(txs[0]) == 1 + Depth(coin.outpoint.tx);
      ChainDeepens(NewCoin(txs[0], 0), txs[1..]);
      assert forall t :: t in txs ==> t == txs[0] || t in txs[1..];
    }
  }

  lemma {:induction false} NothingToDrop(a: seq<Utxo>, s: set<OutPoint>)
    requires Points(a) !! s
    ensures Without(a, s) == a
  {
    if a != [] {
      assert a[0].outpoint in Points(a) && Points(a[1..]) <= Points(a);
      NothingToDrop(a[1..], s);
    }
  }
}
