/**
  Transactions, their sizes, and the padding output of `_pad_to_vsize`.

  A transaction id is an injective name for a transaction, so an outpoint holds the
  transaction it names; nothing here depends on what a hash computes.
 */
module Transactions {
  import opened Wrappers

  /** The wallet's own scriptPubKey, an `OP_RETURN` followed by `ops` one-byte opcodes, or any other script. */
  datatype Script = AnyoneCanSpend | OpReturn(ops: nat) | Foreign(tag: int, length: nat)

  datatype TxOut = TxOut(value: int, script: Script)

  datatype OutPoint = OutPoint(tx: Tx, vout: nat)

  /** An input, with the octets its scriptSig and its witness stack serialize to. */
  datatype TxIn = TxIn(prevOut: OutPoint, sequence: int, scriptSig: nat, stack: nat)

  datatype Tx =
    | Tx(version: int, lockTime: int, vin: seq<TxIn>, vout: seq<TxOut>)
    | CoinbaseTx(height: nat, vout: seq<TxOut>)

  /** The outpoints a transaction spends. */
  function Inputs(tx: Tx): set<OutPoint> {
    if tx.Tx? then InputsOf(tx.vin) else {}
  }

  function InputsOf(vin: seq<TxIn>): set<OutPoint> {
    set i | 0 <= i < |vin| :: vin[i].prevOut
  }

  /** A transaction names its parents by their ids, so it is never its own parent. */
  lemma {:induction false} NotOwnParent(tx: Tx, i: TxIn)
    requires tx.Tx? && i in tx.vin
    ensures i.prevOut.tx != tx
    decreases tx
  {
    if i.prevOut.tx == tx {
      NotOwnParent(i.prevOut.tx, i);
    }
  }

  lemma NoSelfSpend(tx: Tx)
    ensures forall p :: p in Inputs(tx) ==> p.tx != tx
  {
    forall p | p in Inputs(tx) ensures p.tx != tx {
      var i :| 0 <= i < |tx.vin| && tx.vin[i].prevOut == p;
      NotOwnParent(tx, tx.vin[i]);
    }
  }

  /** The octets of a p2tr scriptPubKey. */
  const P2TR_LENGTH := 34

  function ScriptLength(s: Script): nat {
    match s
    case AnyoneCanSpend => P2TR_LENGTH
    case OpReturn(ops) => 1 + ops
    case Foreign(_, length) => length
  }

  /** The octets of a compact-size integer. */
  function CompactLen(n: nat): nat {
    if n < 0xfd then 1 else if n <= 0xffff then 3 else if n <= 0xffff_ffff then 5 else 9
  }

  function InSize(i: TxIn): nat {
    36 + CompactLen(i.scriptSig) + i.scriptSig + 4
  }

  function OutSize(o: TxOut): nat {
    8 + CompactLen(ScriptLength(o.script)) + ScriptLength(o.script)
  }

  function InSizes(vin: seq<TxIn>): nat {
    if vin == [] then 0 else InSizes(vin[..|vin| - 1]) + InSize(vin[|vin| - 1])
  }

  function OutSizes(vout: seq<TxOut>): nat {
    if vout == [] then 0 else OutSizes(vout[..|vout| - 1]) + OutSize(vout[|vout| - 1])
  }

  function Witnesses(vin: seq<TxIn>): nat {
    if vin == [] then 0 else Witnesses(vin[..|vin| - 1]) + vin[|vin| - 1].stack
  }

  /** Marker, flag and the stacks, where some input carries a witness. */
  function WitnessSize(vin: seq<TxIn>): nat {
    if Witnesses(vin) == 0 then 0 else 2 + Witnesses(vin)
  }

  function BaseSize(vin: seq<TxIn>, vout: seq<TxOut>): nat {
    4 + CompactLen(|vin|) + InSizes(vin) + CompactLen(|vout|) + OutSizes(vout) + 4
  }

  /** A quarter of the weight, rounded up. */
  function Vsize(vin: seq<TxIn>, vout: seq<TxOut>): nat {
    (4 * BaseSize(vin, vout) + WitnessSize(vin) + 3) / 4
  }

  /** The deficit a bare `OP_RETURN` placeholder leaves short of `target`. */
  function Deficit(vin: seq<TxIn>, vout: seq<TxOut>, target: int): int {
    target - Vsize(vin, vout + [TxOut(0, OpReturn(0))])
  }

  /** The deficits that sit on a boundary of the compact-size length prefix. */
  predicate OnBoundary(deficit: nat) {
    || deficit == 252
    || deficit == 253
    || 65536 <= deficit <= 65538
    || 0x1_0000_0000 <= deficit <= 0x1_0000_0006
  }

  /** A transaction under construction: the lists of inputs and outputs the wallet edits in place. */
  class Draft {
    var version: int
    var lockTime: int
    var vin: seq<TxIn>
    var vout: seq<TxOut>

    constructor (version: int, lockTime: int, vin: seq<TxIn>, vout: seq<TxOut>)
      ensures this.version == version && this.lockTime == lockTime
      ensures this.vin == vin && this.vout == vout
    {
      this.version, this.lockTime, this.vin, this.vout := version, lockTime, vin, vout;
    }

    /**
      Append one zero-valued output so that the draft reaches `target` virtual bytes.
      Where it cannot, the placeholder stays appended, as the source leaves it.
     */
    method PadToVsize(target: int) returns (r: Result<()>)
      modifies this`vout
      ensures r.Err? <==> Deficit(vin, old(vout), target) < 0
      ensures r.Err? ==> r == Err(ValueError) && vout == old(vout) + [TxOut(0, OpReturn(0))]
      ensures r.Ok? ==> exists ops: nat :: vout == old(vout) + [TxOut(0, OpReturn(ops))]
      ensures r.Ok? ==>
                (Vsize(vin, vout) == target <==> !OnBoundary(Deficit(vin, old(vout), target)))
      ensures r.Ok? ==> target - 4 <= Vsize(vin, vout) <= target + 2
    {
      ghost var before := vout;
      vout := vout + [TxOut(0, OpReturn(0))];
      var deficit := target - Vsize(vin, vout);
      if deficit < 0 {
        return Err(ValueError);
      }
      var ops := deficit - (CompactLen(deficit) - 1);
      vout := vout[..|vout| - 1] + [TxOut(0, OpReturn(ops))];
      assert vout == before + [TxOut(0, OpReturn(ops))];
      PaddedVsize(vin, before, target);
      r := Ok(());
    }
  }

  /** What the padding opcodes of `_pad_to_vsize` make of the size, for every transaction and every deficit. */
  lemma PaddedVsize(vin: seq<TxIn>, vout: seq<TxOut>, target: int)
    requires Deficit(vin, vout, target) >= 0
    ensures
      var deficit := Deficit(vin, vout, target);
      var ops := deficit - (CompactLen(deficit) - 1);
      && ops >= 0
      && var size := Vsize(vin, vout + [TxOut(0, OpReturn(ops))]);
         && (size == target <==> !OnBoundary(deficit))
         && target - 4 <= size <= target + 2
         && (size > target <==> deficit == 252)
  {
    var deficit := Deficit(vin, vout, target);
    var ops := deficit - (CompactLen(deficit) - 1);
    var placeholder := TxOut(0, OpReturn(0));
    var padding := TxOut(0, OpReturn(ops));
    LastOutSize(vout, placeholder);
    LastOutSize(vout, padding);
    var grown := ops + CompactLen(1 + ops) - 1;
    assert BaseSize(vin, vout + [padding]) == BaseSize(vin, vout + [placeholder]) + grown;
    VsizeShift(BaseSize(vin, vout + [placeholder]), WitnessSize(vin), grown);
  }

  lemma LastOutSize(vout: seq<TxOut>, last: TxOut)
    ensures OutSizes(vout + [last]) == OutSizes(vout) + OutSize(last)
  {
    assert (vout + [last])[..|vout|] == vout;
  }

  lemma VsizeShift(base: nat, stack: nat, grown: nat)
    ensures (4 * (base + grown) + stack + 3) / 4 == (4 * base + stack + 3) / 4 + grown
  {
  }

  // ---- the one coin shape the wallet spends

  /** `_witness()`: the count, the one-octet leaf script and the 33-octet control block, each with its length. */
  const SPEND_WITNESS: nat := 1 + (1 + 1) + (1 + 33)

  /** An input spending one of the wallet's own coins. */
  function WalletInput(prevOut: OutPoint, sequence: int): TxIn {
    TxIn(prevOut, sequence, 0, SPEND_WITNESS)
  }

  /** A self-transfer of one coin into one output is 104 virtual bytes, and the placeholder makes it 114. */
  lemma SelfTransferVsize(prevOut: OutPoint, sequence: int, value: int)
    ensures Vsize([WalletInput(prevOut, sequence)], [TxOut(value, AnyoneCanSpend)]) == 104
    ensures forall target ::
              Deficit([WalletInput(prevOut, sequence)], [TxOut(value, AnyoneCanSpend)], target) == target - 114
  {
    var vin := [WalletInput(prevOut, sequence)];
    var out := TxOut(value, AnyoneCanSpend);
    assert vin[..0] == [];
    assert InSizes(vin) == 41;
    assert Witnesses(vin) == 37;
    LastOutSize([], out);
    assert [] + [out] == [out];
    LastOutSize([out], TxOut(0, OpReturn(0)));
    assert OutSizes([out]) == 43;
  }
}
