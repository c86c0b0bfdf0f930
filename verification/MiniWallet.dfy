/** `MiniWallet`: the class whose fields hold the cache, method by method against `WalletState`. */
module MiniWallet {
  import opened Wrappers
  import opened Transactions
  import opened Blocks
  import opened Coins
  import opened CoinSelection
  import opened WalletState
  import opened Transfers

  class MiniWallet {
    var utxos: seq<Utxo>
    var scanned: set<Tx>
    var tip: Block
    var height: nat
    var lastTime: int

    function State(): Wallet
      reads this
    {
      Wallet(utxos, scanned, tip, height, lastTime)
    }

    constructor (nodeTip: Block)
      ensures State() == Wallet([], {}, nodeTip, Links(nodeTip), MedianTimePast(Times(nodeTip)))
      ensures OnTip(State())
    {
      utxos, scanned := [], {};
      tip, height, lastTime := nodeTip, Links(nodeTip), MedianTimePast(Times(nodeTip));
      CoversIsMedian(Times(nodeTip), MedianTimePast(Times(nodeTip)));
    }

    /** Forget every cached coin `tx` spends, and cache what it pays. */
    method ScanOne(tx: Tx) returns (added: seq<Utxo>)
      modifies this`utxos, this`scanned
      ensures State() == ScanTx(old(State()), tx)
      ensures added == NewUtxos(tx)
    {
      utxos := Without(utxos, Inputs(tx));
      added := NewUtxos(tx);
      utxos := utxos + added;
      scanned := scanned + {tx};
    }

    /** The loop of `generate` over `confirm`: each transaction is scanned once, and drops what it spends either way. */
    method ScanConfirmed(confirm: seq<Tx>) returns (added: set<OutPoint>)
      modifies this`utxos, this`scanned
      ensures utxos == Scan(old(utxos), old(scanned), confirm)
      ensures scanned == old(scanned) + TxSet(confirm)
      ensures added == Points(News(old(scanned), confirm))
    {
      added := {};
      assert confirm[0..] == confirm && TxSet(confirm[..0]) == {};
      for n := 0 to |confirm|
        invariant Scan(utxos, scanned, confirm[n..]) == Scan(old(utxos), old(scanned), confirm)
        invariant scanned == old(scanned) + TxSet(confirm[..n])
        invariant added + Points(News(scanned, confirm[n..])) == Points(News(old(scanned), confirm))
      {
        ScanStep(utxos, scanned, confirm, n);
        if confirm[n] !in scanned {
          var coins := ScanOne(confirm[n]);
          added := added + Points(coins);
        } else {
          utxos := Without(utxos, Inputs(confirm[n]));
        }
      }
      assert confirm[..|confirm|] == confirm;
    }

    /** One block of `generate`: on the wallet's tip, paying the wallet and carrying `confirm`. */
    method GenerateOne(confirm: seq<Tx>, answer: NodeAnswer) returns (r: Result<Block>)
      modifies this
      ensures (State(), r) == MineBlock(old(State()), confirm, answer)
      ensures Attempted(old(State()), State(), confirm, answer, r)
    {
      hide Covers, Times, TimeAccepted, Attempted, Scan, News, AtHeight, CoinbaseCoin, AllInputs, Links;
      AsAttempted(State(), confirm, answer);
      var mined := MineOne(tip, height + 1, lastTime, AnyoneCanSpend, confirm, answer.attempt);
      if mined.Err? {
        return Err(mined.error);
      }
      if !answer.accepted {
        return Err(TypeError);
      }
      var added := ScanConfirmed(confirm);
      utxos := AtHeight(utxos, TxSet(confirm), height + 1);
      if added != {} {
        if answer.mempool.None? {
          return Err(TypeError);
        }
        utxos := Without(utxos, added * AllInputs(answer.mempool.value));
      } else {
        assert added * {} == {};
        WithoutNothing(utxos);
      }
      utxos := utxos + [CoinbaseCoin(height + 1)];
      tip, height, lastTime := mined.value, height + 1, mined.value.time;
      r := Ok(mined.value);
    }

    /**
      `generate`: `count` blocks, all of them accepted, each paying the wallet and on the one before it, the first
      carrying `confirm` and the others nothing. `through` is the wallet before each of them and after the last; where
      one of them raises, it raises as that block alone does, from where the blocks before it left the wallet.
     */
    method Generate(count: nat, confirm: seq<Tx>, answers: nat -> NodeAnswer)
      returns (r: Result<seq<Block>>, ghost through: seq<Wallet>)
      modifies this
      ensures (State(), r) == GenerateFrom(old(State()), [], count, confirm, answers)
      ensures through != [] && through[0] == old(State())
      ensures r.Ok? ==>
        && |r.value| == count && MinedThrough(r.value, through, confirm, answers) && State() == through[count]
      ensures r.Err? ==>
        var n := |through| - 1;
        && n < count && (forall i :: 0 <= i < n ==> answers(i).attempt.solved && answers(i).accepted)
        && Attempted(through[n], State(), if n == 0 then confirm else [], answers(n), Err(r.error))
    {
      hide Attempted, MinedThrough, MineBlock;
      var hashes: seq<Block> := [];
      through := [State()];
      NoneMined(State(), confirm, answers);
      for index := 0 to count
        invariant |hashes| == index == |through| - 1
        invariant through[0] == old(State()) && through[index] == State()
        invariant MinedThrough(hashes, through, confirm, answers)
        invariant GenerateFrom(State(), hashes, count, confirm, answers)
                  == GenerateFrom(old(State()), [], count, confirm, answers)
      {
        var mined := GenerateOne(if index == 0 then confirm else [], answers(index));
        if mined.Err? {
          AllAccepted(hashes, through, confirm, answers);
          return Err(mined.error), through;
        }
        OneMined(hashes, through, confirm, answers, mined.value, State());
        hashes := hashes + [mined.value];
        through := through + [State()];
      }
      r := Ok(hashes);
    }

    /** `get_utxo`. */
    method Get(q: Query, markAsSpent: bool) returns (r: Result<Utxo>)
      modifies this`utxos
      ensures
        var choice := GetUtxo(old(utxos), height, q, markAsSpent);
        && utxos == choice.cache
        && r == (if choice.coin.Some? then Ok(choice.coin.value) else Err(LookupError))
    {
      ghost var before := utxos;
      var candidates := Candidates(utxos, height, q);
      utxos := SortCoins(utxos);
      if candidates == [] {
        return Err(LookupError);
      }
      CandidateMembers(before, height, q, candidates[0]);
      SortMembers(before, candidates[0]);
      var index := IndexOf(utxos, candidates[0]);
      r := Ok(utxos[index]);
      if markAsSpent {
        utxos := Popped(utxos, index);
      }
    }

    /** `_send`: a transaction the node refuses changes nothing. */
    method Send(tx: Tx, accepted: bool) returns (r: Result<Tx>)
      modifies this`utxos, this`scanned
      ensures State() == if accepted then ScanTx(old(State()), tx) else old(State())
      ensures r == if accepted then Ok(tx) else Err(TypeError)
    {
      if !accepted {
        return Err(TypeError);
      }
      var _ := ScanOne(tx);
      r := Ok(tx);
    }

    /** `get_utxos`: marking spent forgets the whole cache. */
    method GetAll(includeImmature: bool, markAsSpent: bool, confirmedOnly: bool)
      returns (coins: seq<Utxo>, ghost places: seq<nat>)
      modifies this`utxos
      ensures TakenAt(coins, old(utxos), places)
      ensures PlacesOfPassing(old(utxos), places, height, includeImmature, confirmedOnly)
      ensures coins == KeptCoins(old(utxos), height, includeImmature, confirmedOnly)
      ensures utxos == if markAsSpent then [] else old(utxos)
    {
      coins := KeptCoins(utxos, height, includeImmature, confirmedOnly);
      places := KeptExactly(utxos, height, includeImmature, confirmedOnly);
      if markAsSpent {
        utxos := [];
      }
    }

    /** `resync`: an unusable answer stops it with the coins before that one already re-read. */
    method Resync(nodeTip: Block, answers: OutPoint -> TxOutAnswer) returns (r: Result<()>)
      modifies this
      ensures scanned == old(scanned) && tip == nodeTip && OnTip(State())
      ensures lastTime == MedianTimePast(Times(nodeTip))
      ensures |utxos| == |old(utxos)|
      ensures r.Ok? ==>
                forall i :: 0 <= i < |utxos| ==>
                              Usable(old(utxos[i]), answers) && utxos[i] == Reheighted(old(utxos[i]), height, answers)
      ensures r.Ok? <==> forall u :: u in old(utxos) && !u.coinbase ==>
                                       answers(u.outpoint) == Absent
                                       || (answers(u.outpoint).Confirmations? && answers(u.outpoint).count >= 1)
      ensures r.Err? ==>
                && r.error == TypeError
                && (exists n :: 0 <= n < |utxos| && !Usable(old(utxos[n]), answers) && utxos[n..] == old(utxos[n..])
                                && forall i :: 0 <= i < n ==> utxos[i] == Reheighted(old(utxos[i]), height, answers))
    {
      tip, height, lastTime := ReadTip(nodeTip);
      for index := 0 to |utxos|
        invariant scanned == old(scanned) && tip == nodeTip && OnTip(State())
        invariant |utxos| == |old(utxos)| && height == Links(nodeTip) && lastTime == MedianTimePast(Times(nodeTip))
        invariant utxos[index..] == old(utxos[index..])
        invariant forall i :: 0 <= i < index ==>
                                Usable(old(utxos[i]), answers) && utxos[i] == Reheighted(old(utxos[i]), height, answers)
      {
        var utxo := utxos[index];
        assert utxo == utxos[index..][0] == old(utxos[index]);
        if !Usable(utxo, answers) {
          return Err(TypeError);
        }
        utxos := utxos[index := Reheighted(utxo, height, answers)];
        assert utxos[index + 1..] == old(utxos[index..])[1..];
      }
      r := Ok(());
    }

    /** `_self_transfer_tx`: the draft spending `coins` into equal outputs. */
    static method SelfTransferDraft(
        coins: seq<Utxo>, amount: int, outputs: nat, version: int, lockTime: int, sequence: Sequences)
      returns (r: Result<Draft>)
      ensures r.Ok? <==> |SequencesFor(sequence, |coins|)| == |coins|
      ensures r.Err? ==> r.error == ValueError
      ensures r.Ok? ==>
                && fresh(r.value)
                && r.value.version == version && r.value.lockTime == lockTime
                && r.value.vin == WalletInputs(coins, SequencesFor(sequence, |coins|))
                && r.value.vout == Repeated(TxOut(amount, AnyoneCanSpend), outputs)
    {
      var sequences := SequencesFor(sequence, |coins|);
      if |sequences| != |coins| {
        return Err(ValueError);
      }
      var draft := new Draft(version, lockTime, WalletInputs(coins, sequences),
                             Repeated(TxOut(amount, AnyoneCanSpend), outputs));
      r := Ok(draft);
    }

    /** The coin a `create_*` method spends. */
    method Fund(given: Option<Utxo>, confirmedOnly: bool) returns (r: Result<Utxo>)
      modifies this`utxos
      ensures
        var choice := Funding(old(utxos), height, given, confirmedOnly);
        && utxos == choice.cache
        && r == (if choice.coin.Some? then Ok(choice.coin.value) else Err(LookupError))
    {
      if given.Some? {
        return Ok(given.value);
      }
      r := Get(Query(None, None, confirmedOnly), true);
    }

    /** `create_self_transfer`, once it has its coin. */
    static method BuildSelfTransfer(
        coin: Utxo, feeRate: int, fee: int, targetVsize: int, version: int, lockTime: int, sequence: Sequences)
      returns (r: Result<Tx>)
      ensures r.Err? ==> r.error == ValueError
      ensures r.Ok? <==>
                && |SequencesFor(sequence, 1)| == 1
                && coin.value > TransferFee(feeRate, fee, targetVsize)
                && (targetVsize != 0 ==> targetVsize >= 114)
      ensures r.Ok? ==>
                && IsSelfTransfer(r.value, coin, TransferFee(feeRate, fee, targetVsize))
                && r.value.version == version && r.value.lockTime == lockTime
                && r.value.vin[0].sequence == SequencesFor(sequence, 1)[0]
                && SizedFor(r.value, targetVsize)
    {
      var drafted := SelfTransferDraft([coin], 0, 1, version, lockTime, sequence);
      if drafted.Err? {
        return Err(drafted.error);
      }
      var draft, own := drafted.value, SequencesFor(sequence, 1)[0];
      assert draft.vin == [WalletInput(coin.outpoint, own)] && draft.vout == [TxOut(0, AnyoneCanSpend)];
      SelfTransferVsize(coin.outpoint, own, 0);
      var paid := fee;
      if paid == 0 {
        var size := if targetVsize != 0 then targetVsize else Vsize(draft.vin, draft.vout);
        paid := -((-feeRate * size) / 1000);
      }
      if coin.value <= paid {
        return Err(ValueError);
      }
      draft.vout := [TxOut(coin.value - paid, AnyoneCanSpend)];
      SelfTransferVsize(coin.outpoint, own, coin.value - paid);
      if targetVsize != 0 {
        var padded := draft.PadToVsize(targetVsize);
        if padded.Err? {
          return Err(padded.error);
        }
      }
      r := Ok(Tx(draft.version, draft.lockTime, draft.vin, draft.vout));
    }

    /**
      `create_self_transfer`. A coin `get_utxo` picked stays taken where a later check refuses the transfer;
      a negative fee is refused before any is picked.
     */
    method CreateSelfTransfer(
        feeRate: int, fee: int, given: Option<Utxo>, targetVsize: int, confirmedOnly: bool,
        version: int, lockTime: int, sequence: Sequences)
      returns (r: Result<Tx>)
      modifies this`utxos
      ensures feeRate < 0 || fee < 0 ==> r == Err(ValueError) && utxos == old(utxos)
      ensures feeRate >= 0 && fee >= 0 ==>
                var choice := Funding(old(utxos), height, given, confirmedOnly);
                && utxos == choice.cache
                && (choice.coin.None? ==> r == Err(LookupError))
                && (choice.coin.Some? ==>
                      && (r.Err? ==> r.error == ValueError)
                      && (r.Ok? <==>
                            && |SequencesFor(sequence, 1)| == 1
                            && choice.coin.value.value > TransferFee(feeRate, fee, targetVsize)
                            && (targetVsize != 0 ==> targetVsize >= 114))
                      && (r.Ok? ==>
                            && IsSelfTransfer(r.value, choice.coin.value, TransferFee(feeRate, fee, targetVsize))
                            && CostsAsAsked(
                                 choice.coin.value.value - Values(r.value.vout), feeRate, fee, targetVsize)
                            && r.value.version == version && r.value.lockTime == lockTime
                            && r.value.vin[0].sequence == SequencesFor(sequence, 1)[0]
                            && SizedFor(r.value, targetVsize)))
    {
      hide GetUtxo, CostsAsAsked;
      if feeRate < 0 || fee < 0 {
        return Err(ValueError);
      }
      var funded := Fund(given, confirmedOnly);
      if funded.Err? {
        return Err(funded.error);
      }
      r := BuildSelfTransfer(funded.value, feeRate, fee, targetVsize, version, lockTime, sequence);
      if r.Ok? {
        SelfTransferCosts(r.value, funded.value, TransferFee(feeRate, fee, targetVsize));
        FeeAsAsked(feeRate, fee, targetVsize, TransferFee(feeRate, fee, targetVsize));
      }
    }

    /** `create_self_transfer_multi`, once it has its coins. */
    static method BuildMultiTransfer(
        coins: seq<Utxo>, outputs: nat, feePerOutput: int, targetVsize: int,
        version: int, lockTime: int, sequence: Sequences)
      returns (r: Result<Tx>)
      requires outputs > 0
      ensures r.Err? ==> r.error == ValueError
      ensures r.Ok? <==> MultiFits(coins, outputs, feePerOutput, targetVsize, sequence)
      ensures r.Ok? ==>
                && IsMultiTransfer(r.value, coins, outputs, feePerOutput, targetVsize)
                && r.value.version == version && r.value.lockTime == lockTime
                && r.value.vin == WalletInputs(coins, SequencesFor(sequence, |coins|))
                && (targetVsize != 0 ==>
                      (Vsize(r.value.vin, r.value.vout) == targetVsize
                       <==> !OnBoundary(Deficit(r.value.vin, Shares(coins, outputs, feePerOutput), targetVsize))))
    {
      var share := SharePerOutput(Balance(coins), feePerOutput, outputs);
      if share <= 0 {
        return Err(ValueError);
      }
      var drafted := SelfTransferDraft(coins, share, outputs, version, lockTime, sequence);
      if drafted.Err? {
        return Err(drafted.error);
      }
      var draft := drafted.value;
      if targetVsize != 0 {
        var padded := draft.PadToVsize(targetVsize);
        if padded.Err? {
          return Err(padded.error);
        }
      }
      r := Ok(Tx(draft.version, draft.lockTime, draft.vin, draft.vout));
    }

    /** `create_self_transfer_multi`: `given` is the caller's coins, or none for `get_utxo`'s own. */
    method CreateSelfTransferMulti(
        given: Option<seq<Utxo>>, outputs: nat, feePerOutput: int, targetVsize: int, confirmedOnly: bool,
        version: int, lockTime: int, sequence: Sequences)
      returns (r: Result<Tx>)
      modifies this`utxos
      ensures
        var choice := Funding(old(utxos), height, None, confirmedOnly);
        && utxos == (if given.Some? then old(utxos) else choice.cache)
        && (given.None? && choice.coin.None? ==> r == Err(LookupError))
        && (given.Some? || choice.coin.Some? ==>
              var coins := if given.Some? then given.value else [choice.coin.value];
              if outputs == 0 then r == Err(ZeroDivisionError)
              else
                && (r.Err? ==> r.error == ValueError)
                && (r.Ok? <==> MultiFits(coins, outputs, feePerOutput, targetVsize, sequence))
                && (r.Ok? ==>
                      && IsMultiTransfer(r.value, coins, outputs, feePerOutput, targetVsize)
                      && r.value.version == version && r.value.lockTime == lockTime
                      && r.value.vin == WalletInputs(coins, SequencesFor(sequence, |coins|))
                      && (targetVsize != 0 ==>
                            (Vsize(r.value.vin, r.value.vout) == targetVsize
                             <==>
                             !OnBoundary(Deficit(r.value.vin, Shares(coins, outputs, feePerOutput), targetVsize))))))
    {
      hide GetUtxo, IsMultiTransfer, MultiFits;
      var coins: seq<Utxo>;
      if given.Some? {
        coins := given.value;
      } else {
        var picked := Fund(None, confirmedOnly);
        if picked.Err? {
          return Err(picked.error);
        }
        coins := [picked.value];
      }
      if outputs == 0 {
        return Err(ZeroDivisionError);
      }
      r := BuildMultiTransfer(coins, outputs, feePerOutput, targetVsize, version, lockTime, sequence);
    }

    /** `create_self_transfer_chain`: nothing is cached, and only the first coin is ever picked. */
    method CreateChain(length: nat, given: Option<Utxo>) returns (r: Result<seq<Tx>>)
      modifies this`utxos
      ensures length == 0 ==> r == Ok([]) && utxos == old(utxos)
      ensures length > 0 ==>
                var choice := Funding(old(utxos), height, given, false);
                && utxos == choice.cache
                && (choice.coin.None? ==> r == Err(LookupError))
                && (choice.coin.Some? ==>
                      && (r.Ok? <==> choice.coin.value.value > length * CHAIN_FEE)
                      && (r.Ok? ==> |r.value| == length && IsChain(choice.coin.value, r.value)))
    {
      hide GetUtxo, CostsAsAsked, Final, IsChain, ChainTip;
      var chain: seq<Tx> := [];
      var utxo := given;
      ghost var first := Funding(utxos, height, given, false).coin;
      for n := 0 to length
        invariant |chain| == n
        invariant n == 0 ==> utxo == given && utxos == old(utxos)
        invariant n > 0 ==>
                    && first.Some? && IsChain(first.value, chain)
                    && utxo == Some(ChainTip(first.value, chain))
                    && utxos == Funding(old(utxos), height, given, false).cache
                    && first.value.value > n * CHAIN_FEE
      {
        var made := CreateSelfTransfer(DEFAULT_FEE_RATE, 0, utxo, 0, false, 2, 0, Same(0));
        if first.Some? && n > 0 {
          ChainCosts(first.value, chain);
        }
        if made.Err? {
          return Err(made.error);
        }
        if n == 0 {
          NoChain(first.value);
        }
        SelfTransferCosts(made.value, if n == 0 then first.value else utxo.value, CHAIN_FEE);
        FinalTransfer(made.value, if n == 0 then first.value else utxo.value, CHAIN_FEE);
        ChainAppend(first.value, chain, made.value);
        chain := chain + [made.value];
        utxo := Some(NewUtxos(made.value)[0]);
      }
      r := Ok(chain);
    }

    /** Broadcast a list, stopping at the first the node refuses. */
    method SendEach(txs: seq<Tx>, accepts: nat -> bool) returns (r: Result<seq<Tx>>)
      modifies this`utxos, this`scanned
      ensures exists n :: 0 <= n <= |txs| && State() == SendAll(old(State()), txs[..n])
                          && (r.Ok? <==> n == |txs|) && (n < |txs| ==> !accepts(n))
                          && forall i :: 0 <= i < n ==> accepts(i)
      ensures r == Ok(txs) || r == Err(TypeError)
    {
      for n := 0 to |txs|
        invariant State() == SendAll(old(State()), txs[..n]) && forall i :: 0 <= i < n ==> accepts(i)
      {
        var sent := Send(txs[n], accepts(n));
        if sent.Err? {
          return Err(sent.error);
        }
        SendAllAppend(old(State()), txs[..n], txs[n]);
        assert txs[..n + 1] == txs[..n] + [txs[n]];
      }
      r := Ok(txs);
      assert txs[..|txs|] == txs;
    }

    /** `send_to`: the change keeps `FEE` back, and the rest of the coin beyond `value` returns to the wallet. */
    method SendTo(pays: Script, value: int, accepted: bool) returns (r: Result<Tx>)
      modifies this`utxos, this`scanned
      ensures
        var choice := Funding(old(utxos), height, None, false);
        && (r.Ok? ==>
              && accepted && choice.coin.Some?
              && IsPayment(r.value, choice.coin.value, pays, value) && Final(r.value)
              && State() == ScanTx(old(State()).(utxos := choice.cache), r.value))
        && (r.Err? ==>
              && utxos == choice.cache && scanned == old(scanned)
              && r.error == (if choice.coin.None? then LookupError
                             else if choice.coin.value.value < value + FEE then ValueError else TypeError))
        && (r.Ok? <==> choice.coin.Some? && choice.coin.value.value >= value + FEE && accepted)
    {
      hide GetUtxo;
      var picked := Get(Query(None, None, false), true);
      if picked.Err? {
        return Err(picked.error);
      }
      var coin := picked.value;
      if coin.value < value + FEE {
        return Err(ValueError);
      }
      var drafted := SelfTransferDraft([coin], coin.value - value - FEE, 1, 2, 0, Same(0));
      var draft := drafted.value;
      assert draft.vin == [WalletInput(coin.outpoint, 0)];
      draft.vout := draft.vout + [TxOut(value, pays)];
      r := Send(Tx(draft.version, draft.lockTime, draft.vin, draft.vout), accepted);
    }
  }

  /** One turn of the loop over `confirm`. */
  lemma ScanStep(utxos: seq<Utxo>, scanned: set<Tx>, confirm: seq<Tx>, n: nat)
    requires n < |confirm|
    ensures
      var tx := confirm[n];
      && TxSet(confirm[..n + 1]) == TxSet(confirm[..n]) + {tx}
      && (if tx in scanned
          then
            && Scan(utxos, scanned, confirm[n..]) == Scan(Without(utxos, Inputs(tx)), scanned, confirm[n + 1..])
            && News(scanned, confirm[n..]) == News(scanned, confirm[n + 1..])
          else
            && Scan(utxos, scanned, confirm[n..])
               == Scan(Without(utxos, Inputs(tx)) + NewUtxos(tx), scanned + {tx}, confirm[n + 1..])
            && Points(News(scanned, confirm[n..]))
               == Points(NewUtxos(tx)) + Points(News(scanned + {tx}, confirm[n + 1..])))
  {
    var tx := confirm[n];
    assert confirm[n..][0] == tx && confirm[n..][1..] == confirm[n + 1..];
    assert confirm[..n + 1] == confirm[..n] + [tx];
    TxSetAppend(confirm[..n], tx);
    if tx in scanned {
      assert scanned + {tx} == scanned;
      assert Without(utxos, Inputs(tx)) + [] == Without(utxos, Inputs(tx));
    } else {
      PointsConcat(NewUtxos(tx), News(scanned + {tx}, confirm[n + 1..]));
    }
  }
}
