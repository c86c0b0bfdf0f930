/** The ports a process draws from: its own block of the range, and a walk round it. */
module PortCursor {
  import opened Wrappers

  /** The ports from `start` up to, but not including, `start + size`. */
  datatype Block = Block(start: int, size: nat)

  const PORTS: Block := Block(26000, 6768)

  ghost predicate In(port: int, block: Block) {
    block.start <= port < block.start + block.size
  }

  predicate Digit(c: char) {
    '0' <= c <= '9'
  }

  predicate IsDecimal(s: string) {
    s != [] && forall i :: 0 <= i < |s| ==> Digit(s[i])
  }

  function Number(s: string): nat
    requires forall i :: 0 <= i < |s| ==> Digit(s[i])
  {
    if s == [] then 0
    else
      assert Digit(s[|s| - 1]);
      10 * Number(s[..|s| - 1]) + (s[|s| - 1] as nat - '0' as nat)
  }

  function WithoutPrefix(s: string, prefix: string): string {
    if prefix <= s then s[|prefix|..] else s
  }

  function Slice(workers: nat, number: nat): Block
    requires workers > 0
  {
    var size := PORTS.size / workers;
    Block(PORTS.start + number % workers * size, size)
  }

  /** The block of a process, from `pytest-xdist`'s two variables, `None` where unset. */
  function WorkerBlock(worker: Option<string>, workerCount: Option<string>): Result<Block> {
    var number := WithoutPrefix(if worker.Some? then worker.value else "", "gw");
    if !IsDecimal(number) then Ok(PORTS)
    else
      var count := if workerCount.Some? then workerCount.value else "1";
      if !IsDecimal(count) then Err(ValueError)
      else if Number(count) == 0 then Err(ZeroDivisionError)
      else Ok(Slice(Number(count), Number(number)))
  }

  /**
    Outside a numbered worker, the whole range; for one, an error exactly where the count is no number or none, and a
    share of the range otherwise, the one worker of a run whose count is unset having all of it.
   */
  lemma WorkerBlockEnds(worker: Option<string>, workerCount: Option<string>)
    ensures
      var named := if worker.None? then [] else WithoutPrefix(worker.value, "gw");
      var r := WorkerBlock(worker, workerCount);
      && (!IsDecimal(named) ==> r == Ok(Block(26000, 6768)))
      && (IsDecimal(named) && workerCount.None? ==> r == Ok(Block(26000, 6768)))
      && (IsDecimal(named) && workerCount.Some? ==>
            && (!IsDecimal(workerCount.value) <==> r == Err(ValueError))
            && (IsDecimal(workerCount.value) ==> (r.Err? <==> Number(workerCount.value) == 0))
            && (r.Err? ==> r.error in [ValueError, ZeroDivisionError]))
  {
    if workerCount.None? {
      assert "1"[..0] == [] && Number("1") == 1;
    }
  }

  lemma SliceBounds(workers: nat, number: nat)
    requires workers > 0
    ensures var (index, size) := (number % workers, PORTS.size / workers);
      0 <= index * size && (index + 1) * size <= PORTS.size
  {
    var index, size := number % workers, PORTS.size / workers;
    assert (index + 1) * size <= workers * size by { Monotone(index + 1, workers, size); }
  }

  lemma Monotone(a: nat, b: nat, c: nat)
    requires a <= b
    ensures a * c <= b * c
  {
    assert b * c == a * c + (b - a) * c;
  }

  /**
    Every block is a slice of the range, and two workers of one run share a port exactly when they share their block.
   */
  lemma BlocksDisjoint(workers: nat, one: nat, other: nat)
    requires workers > 0
    ensures forall port :: In(port, Slice(workers, one)) ==> In(port, PORTS)
    ensures (exists port :: In(port, Slice(workers, one)) && In(port, Slice(workers, other)))
         <==> one % workers == other % workers && workers <= PORTS.size
  {
    SliceBounds(workers, one);
    SliceBounds(workers, other);
    var size, i, j := PORTS.size / workers, one % workers, other % workers;
    if i < j {
      Monotone(i + 1, j, size);
    } else if j < i {
      Monotone(j + 1, i, size);
    } else if size > 0 {
      assert In(PORTS.start + i * size, Slice(workers, one));
    }
  }

  /** A number as `pytest-xdist` spells it. */
  function Decimal(n: nat): string {
    if n < 10 then ["0123456789"[n]] else Decimal(n / 10) + ["0123456789"[n % 10]]
  }

  lemma DigitRead(d: nat)
    requires d < 10
    ensures var c := "0123456789"[d]; Digit(c) && c as nat - '0' as nat == d
  {
  }

  lemma {:induction false} DecimalRead(n: nat)
    ensures IsDecimal(Decimal(n)) && Number(Decimal(n)) == n
    decreases n
  {
    DigitRead(n % 10);
    if n < 10 {
      assert Decimal(n)[..0] == [];
    } else {
      DecimalRead(n / 10);
      var s := Decimal(n);
      assert s[..|s| - 1] == Decimal(n / 10);
    }
  }

  /** What a worker of a run is given by its two variables. */
  lemma WorkerNamed(workers: nat, number: nat)
    requires workers > 0
    ensures WorkerBlock(Some("gw" + Decimal(number)), Some(Decimal(workers))) == Ok(Slice(workers, number))
  {
    DecimalRead(workers);
    DecimalRead(number);
    assert ("gw" + Decimal(number))[2..] == Decimal(number);
  }

  /** Two of the numbered workers of one run draw from blocks of one size that share no port. */
  lemma WorkersDisjoint(workers: nat, one: nat, other: nat, port: int)
    requires one < workers && other < workers && one != other
    ensures
      var count := Some(Decimal(workers));
      match (WorkerBlock(Some("gw" + Decimal(one)), count), WorkerBlock(Some("gw" + Decimal(other)), count))
      case (Ok(a), Ok(b)) => a.size == b.size == PORTS.size / workers && !(In(port, a) && In(port, b))
      case _ => false
  {
    hide In, Slice, WorkerBlock, Decimal;
    WorkerNamed(workers, one);
    WorkerNamed(workers, other);
    SmallRemainder(one, workers);
    SmallRemainder(other, workers);
    BlocksDisjoint(workers, one, other);
    SliceSize(workers, one);
    SliceSize(workers, other);
    if In(port, Slice(workers, one)) && In(port, Slice(workers, other)) {
      assert false;
    }
  }

  lemma SmallRemainder(a: nat, n: nat)
    requires a < n
    ensures a % n == a
  {
  }

  lemma SliceSize(workers: nat, number: nat)
    requires workers > 0
    ensures Slice(workers, number).size == PORTS.size / workers
  {
  }

  /** Where the walk is in a block after so many visits. */
  function Position(size: nat, origin: nat, visit: nat): (at: nat)
    requires origin < size
    ensures at < size
    decreases visit
  {
    if visit == 0 then origin
    else
      var before := Position(size, origin, visit - 1);
      if before + 1 == size then 0 else before + 1
  }

  /** The port of the walk's `visit`-th step. */
  function Visited(block: Block, origin: nat, visit: nat): int
    requires origin < block.size
  {
    block.start + Position(block.size, origin, visit)
  }

  /** Within a lap, the walk goes on through the block and round its end. */
  lemma {:induction false} Advanced(size: nat, origin: nat, visit: nat, steps: nat)
    requires origin < size && steps <= size
    ensures Position(size, origin, visit + steps) ==
      var at := Position(size, origin, visit); if at + steps < size then at + steps else at + steps - size
    decreases steps
  {
    if steps > 0 {
      Advanced(size, origin, visit, steps - 1);
    }
  }

  /** A port comes round again only after a lap. */
  lemma NoRepeat(block: Block, origin: nat, one: nat, other: nat)
    requires origin < block.size && one < other
    ensures Visited(block, origin, one) == Visited(block, origin, other) ==> other - one >= block.size
  {
    if other - one < block.size {
      Advanced(block.size, origin, one, other - one);
    }
  }

  /** A lap visits every port of the block. */
  lemma LapCovers(block: Block, origin: nat, from: nat, port: int) returns (visit: nat)
    requires origin < block.size && In(port, block)
    ensures from <= visit < from + block.size && Visited(block, origin, visit) == port
  {
    var at, target := Position(block.size, origin, from), port - block.start;
    var steps := if target >= at then target - at else target - at + block.size;
    visit := from + steps;
    Advanced(block.size, origin, from, steps);
  }

  lemma Wraps(at: nat, size: nat)
    requires at < size
    ensures (at + 1) % size == if at + 1 == size then 0 else at + 1
  {
  }

  /** The ports of some visits. */
  function PortsOf(block: Block, origin: nat, visits: seq<nat>): seq<int>
    requires origin < block.size
  {
    seq(|visits|, i requires 0 <= i < |visits| => Visited(block, origin, visits[i]))
  }

  predicate Increasing(visits: seq<nat>) {
    forall i, j :: 0 <= i < j < |visits| ==> visits[i] < visits[j]
  }

  lemma Appended(before: seq<nat>, more: seq<nat>, from: nat)
    requires Increasing(before) && Increasing(more)
    requires (forall v :: v in before ==> v < from) && (forall v :: v in more ==> v >= from)
    ensures Increasing(before + more)
  {
    forall i, j | 0 <= i < j < |before + more| ensures (before + more)[i] < (before + more)[j] {
      if i < |before| <= j {
        assert before[i] in before && more[j - |before|] in more;
      }
    }
  }

  /** The visits from one up to another that a probe bind accepts, each by its step of the call. */
  function AcceptedIn(accepts: (nat, int) -> bool, block: Block, origin: nat, from: nat, upTo: nat): seq<nat>
    requires origin < block.size && from <= upTo
    decreases upTo
  {
    if from == upTo then []
    else
      var last := upTo - 1;
      AcceptedIn(accepts, block, origin, from, last)
      + if accepts(last - from, Visited(block, origin, last)) then [last] else []
  }

  lemma {:induction false} AcceptedOrder(accepts: (nat, int) -> bool, block: Block, origin: nat, from: nat, upTo: nat)
    requires origin < block.size && from <= upTo
    ensures var visits := AcceptedIn(accepts, block, origin, from, upTo);
      && Increasing(visits)
      && (forall v :: v in visits <==> from <= v < upTo && accepts(v - from, Visited(block, origin, v)))
    decreases upTo
  {
    if from != upTo {
      AcceptedOrder(accepts, block, origin, from, upTo - 1);
      Appended(AcceptedIn(accepts, block, origin, from, upTo - 1), [upTo - 1], upTo - 1);
    }
  }

  lemma StepOn(size: nat, origin: nat, visit: nat)
    requires origin < size
    ensures Position(size, origin, visit + 1) == (Position(size, origin, visit) + 1) % size
  {
    Wraps(Position(size, origin, visit), size);
  }

  class Cursor {
    const block: Block
    var next: nat
    /** Where the walk began, how many ports it has visited, and the visits it answered. */
    ghost var origin: nat
    ghost var walked: nat
    ghost var answered: seq<nat>

    /** A walk from a start drawn at random; a block of no ports has none. */
    constructor (block: Block, drawn: nat)
      requires drawn < block.size
      ensures Valid() && this.block == block && origin == drawn && walked == 0 && answered == []
    {
      this.block, next := block, drawn;
      origin, walked, answered := drawn, 0, [];
    }

    ghost predicate Valid()
      reads this
    {
      && origin < block.size && next == Position(block.size, origin, walked)
      && Increasing(answered) && forall v :: v in answered ==> v < walked
    }

    /**
      The next `count` ports whose probe bind `accepts`, by step of this call: at most one lap, those accepted in
      order, and an error exactly where the lap ends with fewer.
     */
    method Take(count: nat, accepts: (nat, int) -> bool) returns (r: Result<seq<int>>)
      requires Valid()
      modifies this
      ensures Valid() && old(walked) <= walked <= old(walked) + block.size
      ensures var found := AcceptedIn(accepts, block, origin, old(walked), walked);
        && |found| <= count
        && (|found| < count ==> walked == old(walked) + block.size)
        && r == (if |found| == count then Ok(PortsOf(block, origin, found)) else Err(RuntimeError))
        && answered == old(answered) + if r.Ok? then found else []
    {
      hide Position;
      var ports: seq<int> := [];
      ghost var from := walked;
      ghost var found: seq<nat> := [];
      var i := 0;
      while i < block.size
        invariant i <= block.size && walked == from + i && answered == old(answered)
        invariant origin < block.size && next == Position(block.size, origin, walked)
        invariant found == AcceptedIn(accepts, block, origin, from, walked) && |found| <= count
        invariant ports == PortsOf(block, origin, found)
      {
        if |ports| == count {
          break;
        }
        var port := block.start + next;
        assert port == Visited(block, origin, walked);
        StepOn(block.size, origin, walked);
        next := (next + 1) % block.size;
        walked := walked + 1;
        if accepts(i, port) {
          ports := ports + [port];
          found := found + [walked - 1];
        }
        i := i + 1;
      }
      AcceptedOrder(accepts, block, origin, from, walked);
      if |ports| < count {
        return Err(RuntimeError);
      }
      Appended(answered, found, from);
      answered := answered + found;
      return Ok(ports);
    }
  }

  /** The ports of a block that nothing holds. */
  ghost function FreePorts(block: Block, busy: set<int>): set<int> {
    set port | block.start <= port < block.start + block.size && port !in busy
  }

  lemma {:induction false} DistinctSize(ports: seq<int>)
    requires forall i, j :: 0 <= i < j < |ports| ==> ports[i] != ports[j]
    ensures |set p | p in ports| == |ports|
    decreases ports
  {
    if ports != [] {
      var front, last := ports[..|ports| - 1], ports[|ports| - 1];
      DistinctSize(front);
      assert (set p | p in ports) == (set p | p in front) + {last};
    }
  }

  lemma SmallerSet(part: set<int>, whole: set<int>)
    requires part <= whole
    ensures |part| <= |whole|
  {
    var rest := whole - part;
    assert whole == part + rest;
    assert |part + rest| == |part| + |rest|;
  }

  /**
    The ports found against a fixed set of busy ones: no more than the free ones, and all of those once the lap is
    done.
   */
  lemma FoundFree(block: Block, origin: nat, from: nat, upTo: nat, busy: set<int>)
    requires origin < block.size && from <= upTo <= from + block.size
    ensures var found := AcceptedIn((i, p) => p !in busy, block, origin, from, upTo);
      |found| <= |FreePorts(block, busy)| && (upTo == from + block.size ==> |found| == |FreePorts(block, busy)|)
  {
    hide Position, AcceptedIn;
    var accepts := (i: nat, p: int) => p !in busy;
    var found := AcceptedIn((i, p) => p !in busy, block, origin, from, upTo);
    AcceptedOrder((i, p) => p !in busy, block, origin, from, upTo);
    var ports := PortsOf(block, origin, found);
    forall i, j | 0 <= i < j < |ports| ensures ports[i] != ports[j] {
      assert found[i] in found && found[j] in found;
      NoRepeat(block, origin, found[i], found[j]);
    }
    DistinctSize(ports);
    var answered := set p | p in ports;
    forall p | p in answered ensures p in FreePorts(block, busy) {
      var k :| 0 <= k < |ports| && ports[k] == p;
      assert found[k] in found;
    }
    SmallerSet(answered, FreePorts(block, busy));
    if upTo == from + block.size {
      forall p | p in FreePorts(block, busy) ensures p in answered {
        var visit := LapCovers(block, origin, from, p);
        assert visit in found;
        var k :| 0 <= k < |found| && found[k] == visit;
        assert ports[k] == p;
      }
      assert answered == FreePorts(block, busy);
    }
  }

  /** Against a fixed set of busy ports, `take` fails exactly when fewer than `count` ports of the block are free. */
  lemma TakeFailsIff(block: Block, origin: nat, from: nat, upTo: nat, count: nat, busy: set<int>)
    requires origin < block.size && from <= upTo <= from + block.size
    requires var found := AcceptedIn((i, p) => p !in busy, block, origin, from, upTo);
      |found| <= count && (|found| < count ==> upTo == from + block.size)
    ensures |AcceptedIn((i, p) => p !in busy, block, origin, from, upTo)| < count <==> |FreePorts(block, busy)| < count
  {
    hide AcceptedIn, FreePorts;
    FoundFree(block, origin, from, upTo, busy);
  }

  /** Over any successive calls, a port is answered again only a lap or more of visits later. */
  lemma AnsweredApart(cursor: Cursor, i: nat, j: nat)
    requires cursor.Valid() && i < j < |cursor.answered|
    requires Visited(cursor.block, cursor.origin, cursor.answered[i])
          == Visited(cursor.block, cursor.origin, cursor.answered[j])
    ensures cursor.answered[j] - cursor.answered[i] >= cursor.block.size
  {
    NoRepeat(cursor.block, cursor.origin, cursor.answered[i], cursor.answered[j]);
  }
}
