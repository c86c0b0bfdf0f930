/**
  Blocks mined client-side, and the times they carry.

  A block's hash commits to its parent, so a block here holds its parent: the tip alone names its whole
  chain, and two chains with the same tip are the same chain.
 */
module Blocks {
  import opened Wrappers
  import opened Transactions

  datatype Block =
    | Genesis(time: int)
    | Block(prev: Block, height: nat, time: int, pays: Script, extra: seq<Tx>)

  /** The times of a block's own chain, the oldest first. */
  function Times(b: Block): (ts: seq<int>)
    ensures ts != [] && ts[|ts| - 1] == b.time
  {
    if b.Genesis? then [b.time] else Times(b.prev) + [b.time]
  }

  /** The number of parent links from a block to its genesis. */
  function Links(b: Block): nat {
    if b.Genesis? then 0 else 1 + Links(b.prev)
  }

  // ---- the median time past: the upper median of the last eleven times, or of as many as there are

  const MEDIAN_SPAN := 11

  function Window(ts: seq<int>): (w: seq<int>)
    ensures ts != [] ==> w != []
  {
    if |ts| <= MEDIAN_SPAN then ts else ts[|ts| - MEDIAN_SPAN..]
  }

  function InsertTime(t: int, sorted: seq<int>): (r: seq<int>)
    ensures |r| == |sorted| + 1
  {
    if sorted == [] || t <= sorted[0] then [t] + sorted else [sorted[0]] + InsertTime(t, sorted[1..])
  }

  function SortTimes(ts: seq<int>): (r: seq<int>)
    ensures |r| == |ts|
  {
    if ts == [] then [] else InsertTime(ts[0], SortTimes(ts[1..]))
  }

  function MedianTimePast(ts: seq<int>): int
    requires ts != []
  {
    SortTimes(Window(ts))[|Window(ts)| / 2]
  }

  /** The rule a node holds a block's time to. */
  ghost predicate TimeAccepted(b: Block) {
    b.Block? ==> b.time > MedianTimePast(Times(b.prev))
  }

  // ---- the invariant: more than half of the window is no later than the last time mined

  function NoLater(ts: seq<int>, t: int): (n: nat)
    ensures n <= |ts|
  {
    if ts == [] then 0 else NoLater(ts[1..], t) + (if ts[0] <= t then 1 else 0)
  }

  ghost predicate Covers(ts: seq<int>, last: int) {
    NoLater(Window(ts), last) >= |Window(ts)| / 2 + 1
  }

  ghost predicate Ascending(ts: seq<int>) {
    forall i, j :: 0 <= i < j < |ts| ==> ts[i] <= ts[j]
  }

  lemma {:induction false} InsertTimeSorts(t: int, s: seq<int>)
    requires Ascending(s)
    ensures Ascending(InsertTime(t, s))
    ensures forall x :: NoLater(InsertTime(t, s), x) == NoLater([t] + s, x)
    ensures InsertTime(t, s)[0] == if s == [] || t <= s[0] then t else s[0]
  {
    if s != [] && t > s[0] {
      InsertTimeSorts(t, s[1..]);
      forall x ensures NoLater(InsertTime(t, s), x) == NoLater([t] + s, x) {
        assert ([t] + s)[1..] == s && ([t] + s[1..])[1..] == s[1..];
        assert ([s[0]] + InsertTime(t, s[1..]))[1..] == InsertTime(t, s[1..]);
      }
      assert s[1..] != [] ==> s[0] <= s[1];
    }
  }

  lemma {:induction false} SortTimesSorts(ts: seq<int>)
    ensures Ascending(SortTimes(ts))
    ensures forall x :: NoLater(SortTimes(ts), x) == NoLater(ts, x)
  {
    if ts != [] {
      SortTimesSorts(ts[1..]);
      InsertTimeSorts(ts[0], SortTimes(ts[1..]));
      forall x ensures NoLater(SortTimes(ts), x) == NoLater(ts, x) {
        assert ([ts[0]] + SortTimes(ts[1..]))[1..] == SortTimes(ts[1..]);
      }
    }
  }

  /** In a sorted list, at least `k + 1` entries are no later than `x` exactly when entry `k` is. */
  lemma {:induction false} CountSorted(s: seq<int>, k: nat, x: int)
    requires Ascending(s) && k < |s|
    ensures NoLater(s, x) >= k + 1 <==> s[k] <= x
  {
    if k == 0 {
      if s[0] > x {
        NoneNoLater(s, x);
      }
    } else {
      CountSorted(s[1..], k - 1, x);
    }
  }

  lemma {:induction false} NoneNoLater(s: seq<int>, x: int)
    requires forall i :: 0 <= i < |s| ==> s[i] > x
    ensures NoLater(s, x) == 0
  {
    if s != [] {
      NoneNoLater(s[1..], x);
    }
  }

  /** The invariant says exactly that the median time past is no later than `last`. */
  lemma CoversIsMedian(ts: seq<int>, last: int)
    requires ts != []
    ensures Covers(ts, last) <==> MedianTimePast(ts) <= last
  {
    SortTimesSorts(Window(ts));
    CountSorted(SortTimes(Window(ts)), |Window(ts)| / 2, last);
  }

  /**
    The median: of the last eleven times, or of all where they are fewer, more than half are no later, and no more
    than half before.
   */
  lemma MedianIs(ts: seq<int>)
    requires ts != []
    ensures
      var last := if |ts| <= 11 then ts else ts[|ts| - 11..];
      var median := MedianTimePast(ts);
      NoLater(last, median) >= |last| / 2 + 1 && NoLater(last, median - 1) <= |last| / 2
  {
    SortTimesSorts(Window(ts));
    CountSorted(SortTimes(Window(ts)), |Window(ts)| / 2, MedianTimePast(ts));
    CountSorted(SortTimes(Window(ts)), |Window(ts)| / 2, MedianTimePast(ts) - 1);
  }

  lemma {:induction false} NoLaterAppend(a: seq<int>, t: int, x: int)
    ensures NoLater(a + [t], x) == NoLater(a, x) + (if t <= x then 1 else 0)
  {
    if a == [] {
      assert a + [t] == [t];
    } else {
      assert (a + [t])[1..] == a[1..] + [t];
      NoLaterAppend(a[1..], t, x);
    }
  }

  lemma {:induction false} NoLaterMonotone(a: seq<int>, x: int, y: int)
    requires x <= y
    ensures NoLater(a, x) <= NoLater(a, y)
  {
    if a != [] {
      NoLaterMonotone(a[1..], x, y);
    }
  }

  /** Mining a later block keeps the invariant, at every length of chain and whatever the earlier times are. */
  lemma CoversNext(ts: seq<int>, last: int, t: int)
    requires ts != [] && Covers(ts, last) && t > last
    ensures Covers(ts + [t], t)
  {
    var w := Window(ts);
    NoLaterMonotone(w, last, t);
    if |ts| < MEDIAN_SPAN {
      assert Window(ts + [t]) == w + [t];
      NoLaterAppend(w, t, t);
    } else {
      assert Window(ts + [t]) == w[1..] + [t];
      NoLaterAppend(w[1..], t, t);
    }
  }

  /** One more block over a tip the invariant holds of: its time is accepted, and the invariant holds again. */
  lemma MinedLater(b: Block, last: int)
    requires b.Block? && Covers(Times(b.prev), last) && b.time > last
    ensures TimeAccepted(b) && Covers(Times(b), b.time)
  {
    CoversIsMedian(Times(b.prev), last);
    CoversNext(Times(b.prev), last, b.time);
  }

  // ---- mining

  /** What the wall clock reads, and whether the nonce search ends, at one block. */
  datatype Attempt = Attempt(now: int, solved: bool)

  predicate AllSolved(attempts: nat -> Attempt, count: nat) {
    forall i :: 0 <= i < count ==> attempts(i).solved
  }

  function MinedBlock(tip: Block, height: nat, minTime: int, pays: Script, extra: seq<Tx>, now: int): (b: Block)
    ensures b.time > minTime
  {
    Block(tip, height, if now >= minTime + 1 then now else minTime + 1, pays, extra)
  }

  /**
    `_mine_one` with no time of the caller's own: a block on `tip` at the earliest time the clock and `minTime`
    allow. Where `minTime` covers the chain's median time past, so does the block's own time the longer chain's.
   */
  method MineOne(tip: Block, height: nat, minTime: int, pays: Script, extra: seq<Tx>, attempt: Attempt)
    returns (r: Result<Block>)
    ensures r.Ok? <==> attempt.solved
    ensures r.Err? ==> r.error == RuntimeError
    ensures r.Ok? ==>
      && r.value.Block? && r.value.prev == tip && r.value.height == height
      && r.value.pays == pays && r.value.extra == extra
      && r.value.time > minTime && r.value.time >= attempt.now
      && (r.value.time == attempt.now || r.value.time == minTime + 1)
    ensures r.Ok? && Covers(Times(tip), minTime) ==> TimeAccepted(r.value) && Covers(Times(r.value), r.value.time)
  {
    hide Covers, Times, TimeAccepted;
    if !attempt.solved {
      return Err(RuntimeError);
    }
    var time := if attempt.now >= minTime + 1 then attempt.now else minTime + 1;
    var block := Block(tip, height, time, pays, extra);
    if Covers(Times(tip), minTime) {
      MinedLater(block, minTime);
    }
    r := Ok(block);
  }

  /** `_read_tip`: the tip, its height and its median time past. */
  method ReadTip(nodeTip: Block) returns (tip: Block, height: nat, medianTime: int)
    ensures tip == nodeTip && height == Links(nodeTip)
    ensures Covers(Times(nodeTip), medianTime) && medianTime == MedianTimePast(Times(nodeTip))
  {
    tip, height, medianTime := nodeTip, Links(nodeTip), MedianTimePast(Times(nodeTip));
    CoversIsMedian(Times(nodeTip), medianTime);
  }

  /** A block on `tip`, at its own height and at a time the node accepts. */
  ghost predicate NextOn(b: Block, tip: Block) {
    b.Block? && b.prev == tip && b.height == Links(b) && TimeAccepted(b)
  }

  /** Where a run of blocks over `nodeTip` stands. */
  function ForkTip(blocks: seq<Block>, nodeTip: Block): Block {
    if blocks == [] then nodeTip else blocks[|blocks| - 1]
  }

  /** Each block on the one before it, each at its own height, each later than its own chain's median time past. */
  ghost predicate IsFork(blocks: seq<Block>, nodeTip: Block) {
    blocks != [] ==>
      var before := blocks[..|blocks| - 1];
      IsFork(before, nodeTip) && NextOn(blocks[|blocks| - 1], ForkTip(before, nodeTip))
  }

  /** A run half built: where it stands, and the last time mined. */
  ghost predicate Growing(blocks: seq<Block>, nodeTip: Block, tip: Block, height: nat, lastTime: int) {
    && IsFork(blocks, nodeTip)
    && tip == ForkTip(blocks, nodeTip)
    && height == Links(tip)
    && Covers(Times(tip), lastTime)
  }

  lemma ForkGrows(blocks: seq<Block>, nodeTip: Block, tip: Block, height: nat, lastTime: int, b: Block)
    requires Growing(blocks, nodeTip, tip, height, lastTime)
    requires b.Block? && b.prev == tip && b.height == height + 1 && b.time > lastTime
    ensures Growing(blocks + [b], nodeTip, b, height + 1, b.time)
  {
    MinedLater(b, lastTime);
    assert NextOn(b, tip);
    assert (blocks + [b])[..|blocks|] == blocks;
  }

  /** Blocks paying `pays` and carrying nothing beside their coinbase. */
  ghost predicate Empty(blocks: seq<Block>, pays: Script) {
    forall i :: 0 <= i < |blocks| ==> blocks[i].Block? && blocks[i].pays == pays && blocks[i].extra == []
  }

  function LastTime(blocks: seq<Block>, first: int): int {
    if blocks == [] then first else blocks[|blocks| - 1].time
  }

  /** Each block at the clock's time, or a second after the one before it where that is later. */
  ghost predicate Earliest(blocks: seq<Block>, first: int, attempts: nat -> Attempt) {
    forall i :: 0 <= i < |blocks| ==>
      var after := LastTime(blocks[..i], first) + 1;
      blocks[i].time == if attempts(i).now >= after then attempts(i).now else after
  }

  lemma ForkStarts(nodeTip: Block, first: int, pays: Script, attempts: nat -> Attempt)
    requires Covers(Times(nodeTip), first)
    ensures Growing([], nodeTip, nodeTip, Links(nodeTip), first)
    ensures Empty([], pays) && Earliest([], first, attempts)
  {
    hide Covers, Times;
  }

  lemma ForkGrown(blocks: seq<Block>, nodeTip: Block, tip: Block, height: nat, lastTime: int)
    requires Growing(blocks, nodeTip, tip, height, lastTime)
    ensures IsFork(blocks, nodeTip)
  {
  }

  lemma EmptyGrows(blocks: seq<Block>, pays: Script, b: Block)
    requires Empty(blocks, pays) && b.Block? && b.pays == pays && b.extra == []
    ensures Empty(blocks + [b], pays)
  {
  }

  lemma EarliestGrows(blocks: seq<Block>, first: int, attempts: nat -> Attempt, b: Block)
    requires Earliest(blocks, first, attempts)
    requires b.time > LastTime(blocks, first) && b.time >= attempts(|blocks|).now
    requires b.time == attempts(|blocks|).now || b.time == LastTime(blocks, first) + 1
    ensures Earliest(blocks + [b], first, attempts)
  {
    forall i | 0 <= i < |blocks + [b]| ensures (blocks + [b])[..i] == blocks[..i] {
    }
    assert blocks[..|blocks|] == blocks;
  }

  /** `build_fork`: `length` blocks extending whatever tip the node has. */
  method BuildFork(nodeTip: Block, pays: Script, length: nat, attempts: nat -> Attempt) returns (r: Result<seq<Block>>)
    ensures r.Ok? <==> AllSolved(attempts, length)
    ensures r.Err? ==> r.error == RuntimeError
    ensures r.Ok? ==> |r.value| == length && IsFork(r.value, nodeTip) && Empty(r.value, pays)
    ensures r.Ok? ==> Earliest(r.value, MedianTimePast(Times(nodeTip)), attempts)
  {
    hide Covers, Links, Times, MedianTimePast, NextOn, Earliest, Empty, Growing, IsFork, TimeAccepted;
    var tip, height, lastTime := ReadTip(nodeTip);
    var blocks: seq<Block> := [];
    ghost var first := lastTime;
    ForkStarts(nodeTip, first, pays, attempts);
    for n := 0 to length
      invariant |blocks| == n
      invariant Growing(blocks, nodeTip, tip, height, lastTime)
      invariant AllSolved(attempts, n)
      invariant Empty(blocks, pays)
      invariant Earliest(blocks, first, attempts) && lastTime == LastTime(blocks, first)
    {
      var mined := MineOne(tip, height + 1, lastTime, pays, [], attempts(n));
      if mined.Err? {
        return Err(mined.error);
      }
      assert AllSolved(attempts, n + 1);
      ForkGrows(blocks, nodeTip, tip, height, lastTime, mined.value);
      EarliestGrows(blocks, first, attempts, mined.value);
      EmptyGrows(blocks, pays, mined.value);
      blocks := blocks + [mined.value];
      tip, height, lastTime := mined.value, height + 1, mined.value.time;
    }
    r := Ok(blocks);
    ForkGrown(blocks, nodeTip, tip, height, lastTime);
  }
}
