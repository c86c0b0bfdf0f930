/**
  The bookkeeping of Bitcoin Core's block test: every block built, under its name, and the height of
  every block hash, while blocks are built, rebuilt in place under a new hash, and copied under the same
  one. A transaction id and a block hash are injective, so each stands here for what it names.
 */
module ChainBook {
  import opened Wrappers
  import Merkle
  import WalletState

  type Bytes = seq<int>

  datatype OutPoint = Nowhere | OutPoint(tx: Tx, vout: nat)

  /** A signature's nonce is drawn from the name of the block being built, so the name is part of it. */
  datatype ScriptSig = Empty | HeightPush(height: int) | SignaturePush(signed: Tx, script: Bytes, signingFor: string)

  datatype TxIn = TxIn(prevOut: OutPoint, scriptSig: ScriptSig, sequence: int)
  datatype TxOut = TxOut(value: int, script: Bytes)
  datatype Tx = Tx(lockTime: int, vin: seq<TxIn>, vout: seq<TxOut>)

  datatype BlockHash = GenesisHash | HashOf(header: Header)
  datatype Header = Header(previous: BlockHash, root: Merkle.Hash<Tx>, time: int, version: int, bits: int)
  datatype Block = Block(header: Header, transactions: seq<Tx>)

  const OP_TRUE: int := 0x51
  const SEQUENCE_FINAL: int := 0xFFFFFFFF
  const MAX_SEQUENCE_NONFINAL: int := 0xFFFFFFFE
  const REGTEST_BITS: int := 0x207FFFFF

  function Hash(block: Block): BlockHash {
    HashOf(block.header)
  }

  /** How many parent links separate a hash from the genesis block. */
  function Links(hash: BlockHash): nat {
    match hash
    case GenesisHash => 0
    case HashOf(header) => Links(header.previous) + 1
  }

  function Leaves(transactions: seq<Tx>): seq<Merkle.Hash<Tx>> {
    seq(|transactions|, i requires 0 <= i < |transactions| => Merkle.Leaf(transactions[i]))
  }

  function MakeBlock(previous: BlockHash, transactions: seq<Tx>, time: int, version: int, bits: int): Block {
    Block(Header(previous, Merkle.Root(Leaves(transactions)), time, version, bits), transactions)
  }

  function CoinbaseTx(height: int, value: int, script: Bytes, extra: seq<TxOut>): Tx {
    Tx(height - 1, [TxIn(Nowhere, HeightPush(height), MAX_SEQUENCE_NONFINAL)], [TxOut(value, script)] + extra)
  }

  predicate AnyoneCanSpend(script: Bytes) {
    |script| > 0 && script[0] == OP_TRUE
  }

  /** The transaction that spends output 0 of `spend`, signed on behalf of the named block. */
  function SpendFirst(spend: Tx, value: int, script: Bytes, signingFor: string): Tx
    requires |spend.vout| > 0
  {
    var bare := Tx(0, [TxIn(OutPoint(spend, 0), Empty, SEQUENCE_FINAL)], [TxOut(value, script)]);
    var spent := spend.vout[0].script;
    if AnyoneCanSpend(spent) then bare
    else bare.(vin := [TxIn(OutPoint(spend, 0), SignaturePush(bare, spent, signingFor), SEQUENCE_FINAL)])
  }

  function OutputTotal(outputs: seq<TxOut>): int {
    if outputs == [] then 0 else outputs[0].value + OutputTotal(outputs[1..])
  }

  function BlockTotal(transactions: seq<Tx>): int {
    if transactions == [] then 0 else OutputTotal(transactions[0].vout) + BlockTotal(transactions[1..])
  }

  /** What a caller of `next_block` asks for; `keyScript` is the script the key's coinbases pay. */
  datatype Wanted =
    Wanted(spend: Option<Tx>, extraValue: int, script: Bytes, version: int, extraScripts: seq<Bytes>, keyScript: Bytes)

  function ZeroOutputs(scripts: seq<Bytes>): seq<TxOut> {
    if scripts == [] then [] else [TxOut(0, scripts[0])] + ZeroOutputs(scripts[1..])
  }

  function NewTransactions(height: nat, name: string, wanted: Wanted): seq<Tx>
    requires wanted.spend.Some? ==> |wanted.spend.value.vout| > 0
  {
    var value := WalletState.Subsidy(height) + wanted.extraValue;
    match wanted.spend
    case None => [CoinbaseTx(height, value, wanted.keyScript, ZeroOutputs(wanted.extraScripts))]
    case Some(spend) =>
      [CoinbaseTx(height, value + spend.vout[0].value - 1, wanted.keyScript, ZeroOutputs(wanted.extraScripts)),
       SpendFirst(spend, 1, wanted.script, name)]
  }

  datatype Book = Book(startTime: int, blocks: map<string, Block>, heights: map<BlockHash, nat>, tip: Option<Block>)

  function Start(startTime: int): Book {
    Book(startTime, map[], map[GenesisHash := 0], None)
  }

  function TipHash(book: Book): BlockHash {
    if book.tip.None? then GenesisHash else Hash(book.tip.value)
  }

  function NextTime(book: Book): int {
    if book.tip.None? then book.startTime + 1 else book.tip.value.header.time + 1
  }

  function HeightOf(book: Book, name: string): Result<nat> {
    if name !in book.blocks || Hash(book.blocks[name]) !in book.heights then Err(KeyError)
    else Ok(book.heights[Hash(book.blocks[name])])
  }

  function Registered(book: Book, name: string, block: Block, height: nat): Book {
    Book(book.startTime, book.blocks[name := block], book.heights[Hash(block) := height], Some(block))
  }

  /** How a rebuilt block's transactions come from the old ones. */
  datatype Edit = Whole(all: seq<Tx>) | Append(new_: seq<Tx>) | Coinbase(coinbase: Tx)

  function Edited(old_: seq<Tx>, edit: Edit): seq<Tx> {
    match edit
    case Whole(all) => all
    case Append(more) => old_ + more
    case Coinbase(coinbase) => [coinbase] + (if old_ == [] then [] else old_[1..])
  }

  function Rebuilt(old_: Block, edit: Edit, time: Option<int>): Block {
    MakeBlock(old_.header.previous, Edited(old_.transactions, edit),
              if time.None? then old_.header.time else time.value, old_.header.version, old_.header.bits)
  }

  /**
    One call. `Place` is a block built by hand and registered one above its parent; `Copy` is one under
    the header of a named block, registered at that block's height.
   */
  datatype Call =
    | NextBlock(name: string, wanted: Wanted)
    | Rebuild(name: string, edit: Edit, time: Option<int>)
    | MoveTip(name: string)
    | Place(name: string, block: Block)
    | Copy(name: string, transactions: seq<Tx>, twin: string)

  /** The block a call builds or finds, or what it raises. */
  function Answer(book: Book, call: Call): Result<Block> {
    match call
    case NextBlock(name, wanted) =>
      if name in book.blocks then Err(AssertionError)
      else if TipHash(book) !in book.heights then Err(KeyError)
      else if wanted.spend.Some? && wanted.spend.value.vout == [] then Err(IndexError)
      else Ok(MakeBlock(TipHash(book), NewTransactions(book.heights[TipHash(book)] + 1, name, wanted),
                        NextTime(book), wanted.version, REGTEST_BITS))
    case Rebuild(name, edit, time) =>
      if HeightOf(book, name).Err? then Err(KeyError) else Ok(Rebuilt(book.blocks[name], edit, time))
    case MoveTip(name) => if name in book.blocks then Ok(book.blocks[name]) else Err(KeyError)
    case Place(_, block) => if block.header.previous in book.heights then Ok(block) else Err(KeyError)
    case Copy(_, transactions, twin) =>
      if HeightOf(book, twin).Err? then Err(KeyError) else Ok(Block(book.blocks[twin].header, transactions))
  }

  /** The book afterwards: a call that raises leaves it alone. */
  function Step(book: Book, call: Call): Book {
    if Answer(book, call).Err? then book
    else
      var block := Answer(book, call).value;
      match call
      case NextBlock(name, _) => Registered(book, name, block, book.heights[TipHash(book)] + 1)
      case Rebuild(name, _, _) =>
        var popped := book.(heights := book.heights - {Hash(book.blocks[name])});
        Registered(popped, name, block, HeightOf(book, name).value)
      case MoveTip(_) => book.(tip := Some(block))
      case Place(name, _) => Registered(book, name, block, book.heights[block.header.previous] + 1)
      case Copy(name, _, twin) => Registered(book, name, block, HeightOf(book, twin).value)
  }

  function Run(book: Book, calls: seq<Call>): Book
    decreases calls
  {
    if calls == [] then book else Run(Step(book, calls[0]), calls[1..])
  }

  /** Every recorded height is the number of parent links. */
  ghost predicate HeightsAreLinks(book: Book) {
    GenesisHash in book.heights && forall h :: h in book.heights ==> book.heights[h] == Links(h)
  }

  lemma StepKeeps(book: Book, call: Call)
    requires HeightsAreLinks(book)
    ensures HeightsAreLinks(Step(book, call))
  {
    hide Edited, NewTransactions, Leaves;
    if Answer(book, call).Ok? && call.Rebuild? {
      var old_ := book.blocks[call.name];
      assert Links(Hash(old_)) == Links(Hash(Rebuilt(old_, call.edit, call.time)));
    }
  }

  lemma {:induction false} RunKeeps(book: Book, calls: seq<Call>)
    requires HeightsAreLinks(book)
    ensures HeightsAreLinks(Run(book, calls))
    decreases calls
  {
    hide Step;
    if calls != [] {
      StepKeeps(book, calls[0]);
      RunKeeps(Step(book, calls[0]), calls[1..]);
    }
  }

  /** In every run, a height that is answered is the number of parent links. */
  lemma RunHeights(startTime: int, calls: seq<Call>, name: string)
    ensures var book := Run(Start(startTime), calls);
      HeightOf(book, name).Ok? ==> name in book.blocks && HeightOf(book, name).value == Links(Hash(book.blocks[name]))
  {
    RunKeeps(Start(startTime), calls);
  }

  predicate Known(book: Book, name: string) {
    HeightOf(book, name).Ok?
  }

  ghost predicate AllKnown(book: Book) {
    forall name :: name in book.blocks ==> Known(book, name)
  }

  /** A rebuild under a new hash takes a shared entry away from another name. */
  ghost predicate Drops(book: Book, call: Call) {
    && call.Rebuild? && Known(book, call.name)
    && Hash(Rebuilt(book.blocks[call.name], call.edit, call.time)) != Hash(book.blocks[call.name])
    && exists other ::
         other in book.blocks && other != call.name && Hash(book.blocks[other]) == Hash(book.blocks[call.name])
  }

  /** What one rebuild does to every other name's height. */
  lemma RebuildForgets(book: Book, call: Call, other: string)
    requires call.Rebuild? && Known(book, call.name) && other in book.blocks && other != call.name
    ensures Known(Step(book, call), call.name)
    ensures var before := Hash(book.blocks[call.name]);
      var after := Hash(Rebuilt(book.blocks[call.name], call.edit, call.time));
      Known(Step(book, call), other) <==>
      (Known(book, other) && Hash(book.blocks[other]) != before) || Hash(book.blocks[other]) == after
  {
    hide Rebuilt;
  }

  /** While every height can be asked for, exactly a shared rebuild ends that. */
  lemma KnownIff(book: Book, call: Call)
    requires AllKnown(book)
    ensures AllKnown(Step(book, call)) <==> !Drops(book, call)
  {
    hide NewTransactions, MakeBlock, Rebuilt;
    if call.Rebuild? && Known(book, call.name) {
      KnownAfterRebuild(book, call);
    }
  }

  lemma KnownAfterRebuild(book: Book, call: Call)
    requires AllKnown(book) && call.Rebuild? && Known(book, call.name)
    ensures AllKnown(Step(book, call)) <==> !Drops(book, call)
  {
    hide Rebuilt;
    var next := Step(book, call);
    if Drops(book, call) {
      var other :|
        other in book.blocks && other != call.name && Hash(book.blocks[other]) == Hash(book.blocks[call.name]);
      RebuildForgets(book, call, other);
      assert other in next.blocks && !Known(next, other);
    } else {
      forall other | other in next.blocks ensures Known(next, other) {
        if other != call.name {
          RebuildForgets(book, call, other);
        }
      }
    }
  }

  /** No call of the run rebuilds a shared block. */
  ghost predicate NeverDrops(book: Book, calls: seq<Call>)
    decreases calls
  {
    calls == [] || (!Drops(book, calls[0]) && NeverDrops(Step(book, calls[0]), calls[1..]))
  }

  lemma {:induction false} RunKnown(book: Book, calls: seq<Call>)
    requires AllKnown(book) && NeverDrops(book, calls)
    ensures AllKnown(Run(book, calls))
    decreases calls
  {
    hide Step, Drops, AllKnown;
    if calls != [] {
      KnownIff(book, calls[0]);
      RunKnown(Step(book, calls[0]), calls[1..]);
    }
  }

  // Values.

  lemma {:induction false} ZeroTotal(scripts: seq<Bytes>)
    ensures OutputTotal(ZeroOutputs(scripts)) == 0
  {
    if scripts != [] {
      assert ZeroOutputs(scripts)[1..] == ZeroOutputs(scripts[1..]);
      ZeroTotal(scripts[1..]);
    }
  }

  lemma CoinbaseTotal(height: int, value: int, script: Bytes, scripts: seq<Bytes>)
    ensures OutputTotal(CoinbaseTx(height, value, script, ZeroOutputs(scripts)).vout) == value
  {
    var extra := ZeroOutputs(scripts);
    assert ([TxOut(value, script)] + extra)[1..] == extra;
    ZeroTotal(scripts);
  }

  lemma SingleTotal(tx: Tx)
    ensures BlockTotal([tx]) == OutputTotal(tx.vout)
  {
    assert [tx][1..] == [];
  }

  lemma SpendTotal(spend: Tx, value: int, script: Bytes, signingFor: string)
    requires |spend.vout| > 0
    ensures OutputTotal(SpendFirst(spend, value, script, signingFor).vout) == value
  {
    var out := [TxOut(value, script)];
    assert out[1..] == [];
    assert OutputTotal(out) == value;
  }

  lemma NewTotal(height: nat, name: string, wanted: Wanted)
    requires wanted.spend.Some? ==> |wanted.spend.value.vout| > 0
    ensures BlockTotal(NewTransactions(height, name, wanted)) == WalletState.Subsidy(height) + wanted.extraValue
      + if wanted.spend.Some? then wanted.spend.value.vout[0].value else 0
  {
    hide CoinbaseTx, SpendFirst, OutputTotal;
    var value, all := WalletState.Subsidy(height) + wanted.extraValue, NewTransactions(height, name, wanted);
    match wanted.spend {
      case None =>
        CoinbaseTotal(height, value, wanted.keyScript, wanted.extraScripts);
        SingleTotal(all[0]);
      case Some(spend) =>
        CoinbaseTotal(height, value + spend.vout[0].value - 1, wanted.keyScript, wanted.extraScripts);
        SpendTotal(spend, 1, wanted.script, name);
        assert all[1..] == [all[1]];
        SingleTotal(all[1]);
    }
  }

  /** A block `next_block` builds, in any run, creates the subsidy of its own height, what it spends and the extra. */
  lemma NextBlockTotals(startTime: int, calls: seq<Call>, call: Call)
    requires call.NextBlock? && Answer(Run(Start(startTime), calls), call).Ok?
    ensures var block, wanted := Answer(Run(Start(startTime), calls), call).value, call.wanted;
      BlockTotal(block.transactions) == WalletState.Subsidy(Links(Hash(block))) + wanted.extraValue
        + if wanted.spend.Some? then wanted.spend.value.vout[0].value else 0
  {
    hide NewTransactions, Run, BlockTotal, Leaves;
    var book := Run(Start(startTime), calls);
    RunKeeps(Start(startTime), calls);
    NewTotal(book.heights[TipHash(book)] + 1, call.name, call.wanted);
  }

  lemma NextTransactions(height: nat, name: string, wanted: Wanted)
    requires wanted.spend.Some? ==> |wanted.spend.value.vout| > 0
    ensures var txs := NewTransactions(height, name, wanted);
      && |txs| == (if wanted.spend.Some? then 2 else 1)
      && txs[0].vin == [TxIn(Nowhere, HeightPush(height), MAX_SEQUENCE_NONFINAL)] && txs[0].lockTime == height - 1
      && txs[0].vout != [] && txs[0].vout[0].script == wanted.keyScript
      && |txs[0].vout| == |wanted.extraScripts| + 1
      && (forall k :: 0 <= k < |wanted.extraScripts| ==> txs[0].vout[k + 1] == TxOut(0, wanted.extraScripts[k]))
      && (wanted.spend.Some? ==>
            && txs[1].vout == [TxOut(1, wanted.script)] && |txs[1].vin| == 1
            && txs[1].vin[0].prevOut == OutPoint(wanted.spend.value, 0)
            && txs[1].vin[0].sequence == 0xFFFF_FFFF
            && (txs[1].vin[0].scriptSig.Empty? <==> AnyoneCanSpend(wanted.spend.value.vout[0].script))
            && (txs[1].vin[0].scriptSig.SignaturePush? ==> txs[1].vin[0].scriptSig.signingFor == name))
  {
    hide ZeroOutputs;
    ZeroAt(wanted.extraScripts);
  }

  lemma {:induction false} ZeroAt(scripts: seq<Bytes>)
    ensures |ZeroOutputs(scripts)| == |scripts|
    ensures forall k :: 0 <= k < |scripts| ==> ZeroOutputs(scripts)[k] == TxOut(0, scripts[k])
  {
    if scripts != [] {
      ZeroAt(scripts[1..]);
    }
  }

  /**
    Where a block `next_block` builds stands, in any run: on the tip, one second after it and one link further
    from genesis, with a coinbase of that very height, spending the output asked for and nothing else.
   */
  lemma NextBlockStands(startTime: int, calls: seq<Call>, call: Call)
    requires call.NextBlock? && Answer(Run(Start(startTime), calls), call).Ok?
    ensures var book, block := Run(Start(startTime), calls), Answer(Run(Start(startTime), calls), call).value;
      && Links(Hash(block)) == Links(TipHash(book)) + 1 && block.header.previous == TipHash(book)
      && block.header.time == 1 + (if book.tip.Some? then book.tip.value.header.time else book.startTime)
      && |block.transactions| > 0 && block.transactions[0].lockTime == Links(TipHash(book))
      && block.transactions[0].vin[0].scriptSig == HeightPush(Links(Hash(block)))
      && block.header.version == call.wanted.version && block.header.bits == 0x207F_FFFF
      && block.header.root == Merkle.Root(Leaves(block.transactions))
      && block.transactions[0].vout[0].script == call.wanted.keyScript
      && |block.transactions[0].vout| == |call.wanted.extraScripts| + 1
      && (forall k :: 0 <= k < |call.wanted.extraScripts| ==>
            block.transactions[0].vout[k + 1] == TxOut(0, call.wanted.extraScripts[k]))
      && |block.transactions| == (if call.wanted.spend.Some? then 2 else 1)
      && (forall k :: 0 < k < |block.transactions| ==>
            && call.wanted.spend.Some? && block.transactions[k].vin[0].prevOut == OutPoint(call.wanted.spend.value, 0)
            && block.transactions[k].vout == [TxOut(1, call.wanted.script)])
      && Step(book, call).tip == Some(block) && HeightOf(Step(book, call), call.name) == Ok(Links(Hash(block)))
  {
    hide NewTransactions, Run, Leaves;
    var book := Run(Start(startTime), calls);
    RunKeeps(Start(startTime), calls);
    NextTransactions(book.heights[TipHash(book)] + 1, call.name, call.wanted);
  }

  /** A rebuilt block stays where it was: the same parent, and the same time unless another is asked for. */
  lemma RebuildStays(book: Book, call: Call)
    requires HeightsAreLinks(book) && call.Rebuild? && Answer(book, call).Ok?
    ensures var old_, block := book.blocks[call.name], Answer(book, call).value;
      && block.header.previous == old_.header.previous && Links(Hash(block)) == Links(Hash(old_))
      && (call.time.None? ==> block.header.time == old_.header.time)
      && HeightOf(Step(book, call), call.name) == HeightOf(book, call.name)
  {
    hide Edited, Leaves, Merkle.Root;
  }

  // Shared hashes.

  lemma RootsOfSmall(txs: seq<Tx>)
    requires 1 <= |txs| <= 2
    ensures Merkle.Root(Leaves(txs)) ==
      if |txs| == 1 then Merkle.Leaf(txs[0]) else Merkle.Pair(Merkle.Leaf(txs[0]), Merkle.Leaf(txs[1]))
  {
    var leaves := Leaves(txs);
    if |txs| == 2 {
      assert leaves[2..] == [];
      assert Merkle.Up(leaves) == [Merkle.Pair(leaves[0], leaves[1])];
    }
  }

  /** Two names asked for the same block get the same hash exactly when nothing in it has to be signed. */
  lemma BuiltAlike(book: Book, first: string, second: string, wanted: Wanted)
    requires first != second
    requires Answer(book, NextBlock(first, wanted)).Ok? && Answer(book, NextBlock(second, wanted)).Ok?
    ensures
      Hash(Answer(book, NextBlock(first, wanted)).value) == Hash(Answer(book, NextBlock(second, wanted)).value)
      <==> wanted.spend.None? || AnyoneCanSpend(wanted.spend.value.vout[0].script)
  {
    hide Leaves, CoinbaseTx;
    var height := book.heights[TipHash(book)] + 1;
    RootsOfSmall(NewTransactions(height, first, wanted));
    RootsOfSmall(NewTransactions(height, second, wanted));
  }

  lemma LeavesRepeat(txs: seq<Tx>, count: nat)
    requires count <= |txs|
    ensures Leaves(Merkle.RepeatLast(txs, count)) == Merkle.RepeatLast(Leaves(txs), count)
  {
  }

  /**
    A block of m * 2^k transactions, m odd, and the one with its last 2^k repeated: the copy stands under
    the first one's hash, and so takes its height, exactly when m > 1, and is told from it either way.
   */
  lemma CopySharesHash(block: Block, m: nat, k: nat)
    requires |block.transactions| == Merkle.Scale(m, k) && m % 2 == 1
    requires block.header.root == Merkle.Root(Leaves(block.transactions))
    ensures Merkle.Scale(1, k) <= |block.transactions|
    ensures var copy := Merkle.RepeatLast(block.transactions, Merkle.Scale(1, k));
      var built := MakeBlock(block.header.previous, copy, block.header.time, block.header.version, block.header.bits);
      (Hash(built) == Hash(block) <==> m > 1) && Merkle.Mutated(Leaves(copy))
  {
    hide Merkle.Root, Merkle.Mutated, Merkle.RepeatLast, Merkle.Scale;
    Merkle.RepeatedBlock(Leaves(block.transactions), m, k);
    LeavesRepeat(block.transactions, Merkle.Scale(1, k));
  }

  /** `_Chain`, with the blocks and heights it keeps in dictionaries. */
  class Chain {
    const startTime: int
    var blocks: map<string, Block>
    var heights: map<BlockHash, nat>
    var tip: Option<Block>
    var signingFor: string

    ghost function State(): Book
      reads this
    {
      Book(startTime, blocks, heights, tip)
    }

    constructor (startTime: int)
      ensures State() == Start(startTime)
    {
      this.startTime := startTime;
      blocks, heights, tip, signingFor := map[], map[GenesisHash := 0], None, "";
    }

    method Height(name: string) returns (r: Result<nat>)
      ensures r == HeightOf(State(), name)
      ensures r.Ok? && HeightsAreLinks(State()) ==> name in blocks && r.value == Links(Hash(blocks[name]))
      ensures r.Err? ==> r.error == KeyError && (name in blocks ==> Hash(blocks[name]) !in heights)
    {
      if name !in blocks {
        return Err(KeyError);
      }
      var hash := Hash(blocks[name]);
      if hash !in heights {
        return Err(KeyError);
      }
      r := Ok(heights[hash]);
    }

    method Register(name: string, block: Block, height: nat)
      modifies this`blocks, this`heights, this`tip
      ensures State() == Registered(old(State()), name, block, height)
    {
      tip := Some(block);
      heights := heights[Hash(block) := height];
      blocks := blocks[name := block];
    }

    method NextBlock(name: string, wanted: Wanted) returns (r: Result<Block>)
      modifies this
      ensures r == Answer(old(State()), Call.NextBlock(name, wanted))
      ensures State() == Step(old(State()), Call.NextBlock(name, wanted))
      ensures r == Err(AssertionError) <==> name in old(blocks)
      ensures r == Err(KeyError) <==>
        name !in old(blocks) && (if old(tip).None? then GenesisHash else Hash(old(tip).value)) !in old(heights)
      ensures r.Err? ==> r.error in [AssertionError, KeyError, IndexError] && State() == old(State())
      ensures r == Err(IndexError) ==> wanted.spend.Some? && wanted.spend.value.vout == []
    {
      if name in blocks {
        return Err(AssertionError);
      }
      signingFor := name;
      var previous, time := GenesisHash, startTime + 1;
      if tip.Some? {
        previous, time := Hash(tip.value), tip.value.header.time + 1;
      }
      if previous !in heights {
        return Err(KeyError);
      }
      var height := heights[previous] + 1;
      var value := WalletState.Subsidy(height) + wanted.extraValue;
      var transactions: seq<Tx> := [];
      if wanted.spend.Some? {
        var spend := wanted.spend.value;
        if |spend.vout| == 0 {
          return Err(IndexError);
        }
        value := value + spend.vout[0].value - 1;
        transactions := [SpendFirst(spend, 1, wanted.script, signingFor)];
      }
      var coinbase := CoinbaseTx(height, value, wanted.keyScript, ZeroOutputs(wanted.extraScripts));
      var block := MakeBlock(previous, [coinbase] + transactions, time, wanted.version, REGTEST_BITS);
      assert [coinbase] + transactions == NewTransactions(height, name, wanted);
      Register(name, block, height);
      r := Ok(block);
    }

    method Rebuild(name: string, transactions: seq<Tx>, time: Option<int>) returns (r: Result<Block>)
      modifies this`blocks, this`heights, this`tip
      ensures r == Answer(old(State()), Call.Rebuild(name, Whole(transactions), time))
      ensures State() == Step(old(State()), Call.Rebuild(name, Whole(transactions), time))
      ensures r.Ok? <==> name in old(blocks) && Hash(old(blocks)[name]) in old(heights)
      ensures r.Err? ==> r.error == KeyError && State() == old(State())
      ensures r.Ok? ==>
        && r.value.transactions == transactions && r.value.header.root == Merkle.Root(Leaves(transactions))
        && r.value.header.previous == old(blocks)[name].header.previous
        && r.value.header.version == old(blocks)[name].header.version
        && r.value.header.bits == old(blocks)[name].header.bits
        && r.value.header.time == (if time.None? then old(blocks)[name].header.time else time.value)
        && blocks == old(blocks)[name := r.value] && tip == Some(r.value)
        && heights == (old(heights) - {Hash(old(blocks)[name])})[Hash(r.value) := old(heights)[Hash(old(blocks)[name])]]
    {
      if name !in blocks {
        return Err(KeyError);
      }
      var old_ := blocks[name];
      if Hash(old_) !in heights {
        return Err(KeyError);
      }
      var height := heights[Hash(old_)];
      heights := heights - {Hash(old_)};
      var newTime := if time.None? then old_.header.time else time.value;
      var block := MakeBlock(old_.header.previous, transactions, newTime, old_.header.version, old_.header.bits);
      Register(name, block, height);
      r := Ok(block);
    }

    method UpdateBlock(name: string, more: seq<Tx>, time: Option<int>) returns (r: Result<Block>)
      modifies this`blocks, this`heights, this`tip
      ensures r == Answer(old(State()), Call.Rebuild(name, Append(more), time))
      ensures State() == Step(old(State()), Call.Rebuild(name, Append(more), time))
      ensures r.Ok? ==> r.value.transactions == old(blocks)[name].transactions + more && blocks[name] == r.value
      ensures r.Err? ==> r.error == KeyError && State() == old(State())
    {
      if name !in blocks {
        return Err(KeyError);
      }
      r := Rebuild(name, blocks[name].transactions + more, time);
    }

    method UpdateCoinbase(name: string, coinbase: Tx) returns (r: Result<Block>)
      modifies this`blocks, this`heights, this`tip
      ensures r == Answer(old(State()), Call.Rebuild(name, Edit.Coinbase(coinbase), None))
      ensures State() == Step(old(State()), Call.Rebuild(name, Edit.Coinbase(coinbase), None))
      ensures r.Ok? ==>
        var old_ := old(blocks)[name].transactions;
        && blocks[name] == r.value && |r.value.transactions| == (if old_ == [] then 1 else |old_|)
        && r.value.transactions[0] == coinbase
        && forall k :: 0 < k < |old_| ==> r.value.transactions[k] == old_[k]
      ensures r.Err? ==> r.error == KeyError && State() == old(State())
    {
      if name !in blocks {
        return Err(KeyError);
      }
      var old_ := blocks[name].transactions;
      var kept := if |old_| == 0 then [] else old_[1..];
      assert forall k :: 0 < k < |old_| ==> ([coinbase] + kept)[k] == old_[k];
      r := Rebuild(name, [coinbase] + kept, None);
    }

    method MoveTip(name: string) returns (r: Result<Block>)
      modifies this`tip
      ensures r == Answer(old(State()), Call.MoveTip(name))
      ensures State() == Step(old(State()), Call.MoveTip(name))
      ensures r.Ok? <==> name in blocks
      ensures r.Ok? ==> r.value == blocks[name] && tip == Some(blocks[name])
      ensures r.Err? ==> r.error == KeyError && tip == old(tip)
    {
      if name !in blocks {
        return Err(KeyError);
      }
      tip := Some(blocks[name]);
      r := Ok(blocks[name]);
    }
  }
}
