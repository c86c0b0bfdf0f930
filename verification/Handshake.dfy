/**
  The BIP324 handshake between two peers, step by step: each side's program blocks on the octets it has
  been delivered so far, and the octets of each direction are delivered in chunks of any size. That a
  side's reading depends on nothing but those octets is `PeerReceive`.
 */
module Handshake {
  import opened Octets
  import opened Wrappers
  import opened Packets
  import opened PeerReceive
  import opened Sockets

  const TERMINATOR_LEN: nat := 16

  /** What a side's key and the other side's come to. */
  datatype Session = Session(opener: Opener, sealer: Sealer, sends: Bytes, expects: Bytes)

  /** One side: its key, its garbage, the decoys and version packet it sends, and v1's `version` header. */
  datatype Party = Party(
    dialled: bool, key: Bytes, garbage: Bytes, packets: seq<Packet>, v1: Bytes, keyed: Bytes -> Session)

  datatype Phase =
    | Sniffing | SendingKey | TakingKey | SendingPackets | TakingGarbage
    | Reading(garbageLen: nat, count: nat) | Done(garbageLen: nat, count: nat)
    | SpeaksV1 | Failed

  /** A side's phase, all it has sent, how much of that is past the handshake, and how much it was delivered. */
  datatype Side = Side(phase: Phase, out: Bytes, said: Bytes, got: nat)

  datatype State = State(left: Side, right: Side)

  function Started(party: Party): Side {
    Side(if party.dialled then SendingKey else Sniffing, [], [], 0)
  }

  /** One step of a side's program on what it has been delivered, or `None` where it waits for more. */
  function Advance(me: Party, mine: Side, received: Bytes): Option<Side> {
    match mine.phase
    case Sniffing =>
      var head := if |received| < |me.v1| then received else received[..|me.v1|];
      if !(head <= me.v1) then Some(mine.(phase := SendingKey))
      else if head == me.v1 then Some(mine.(phase := SpeaksV1))
      else None
    case SendingKey => Some(mine.(phase := TakingKey, out := mine.out + me.key + me.garbage))
    case TakingKey => if |received| < ELL_SIZE then None else Some(mine.(phase := SendingPackets))
    case SendingPackets =>
      if |received| < ELL_SIZE then None
      else
        var session := me.keyed(received[..ELL_SIZE]);
        var packets := Stream(session.sealer, me.packets, me.garbage);
        Some(mine.(phase := TakingGarbage, out := mine.out + session.sends + packets))
    case TakingGarbage => if |received| < ELL_SIZE then None else AdvanceGarbage(me, mine, received)
    case Reading(garbageLen, count) =>
      if |received| < ELL_SIZE + garbageLen + TERMINATOR_LEN then None else AdvanceReading(me, mine, received)
    case _ => None
  }

  function AdvanceGarbage(me: Party, mine: Side, received: Bytes): Option<Side>
    requires |received| >= ELL_SIZE
  {
    var expects := me.keyed(received[..ELL_SIZE]).expects;
    var buffer := received[ELL_SIZE..];
    match Find(Searched(buffer, expects), expects, 0)
    case Some(at) => Some(mine.(phase := Reading(at, 0)))
    case None => if |buffer| >= MAX_GARBAGE_LEN + |expects| then Some(mine.(phase := Failed)) else None
  }

  function AdvanceReading(me: Party, mine: Side, received: Bytes): Option<Side>
    requires mine.phase.Reading? && |received| >= ELL_SIZE + mine.phase.garbageLen + TERMINATOR_LEN
  {
    var (length, count) := (mine.phase.garbageLen, mine.phase.count);
    var opener := me.keyed(received[..ELL_SIZE]).opener;
    var garbage, stream := received[ELL_SIZE..ELL_SIZE + length], received[ELL_SIZE + length + TERMINATOR_LEN..];
    if End(opener, stream, count + 1).None? then None
    else match Nth(opener, stream, garbage, count)
      case None => Some(mine.(phase := Failed))
      case Some(packet) =>
        Some(mine.(phase := if packet.ignore then Reading(length, count + 1) else Done(length, count + 1)))
  }

  /** What is assumed of the two sides: the keys match, neither terminator comes early, no key looks like v1. */
  ghost predicate Matched(me: Party, other: Party) {
    var (mine, theirs) := (me.keyed(other.key), other.keyed(me.key));
    && |me.key| == 64 && |me.garbage| <= 4095
    && 0 < |me.v1| <= ELL_SIZE && (me.dialled || !(me.v1 <= other.key))
    && Paired(theirs.opener, mine.sealer) && theirs.expects == mine.sends && |mine.sends| == TERMINATOR_LEN
    && Find(me.garbage + mine.sends, mine.sends, 0) == Some(|me.garbage|)
    && VersionLast(me.packets)
  }

  /** Decoys, then the version packet. */
  ghost predicate VersionLast(packets: seq<Packet>) {
    && packets != [] && Fits(packets)
    && forall k :: 0 <= k < |packets| ==> (packets[k].ignore <==> k < |packets| - 1)
  }

  /** All a side sends in the handshake. */
  function Whole(me: Party, other: Party): Bytes {
    var session := me.keyed(other.key);
    me.key + (me.garbage + (session.sends + Stream(session.sealer, me.packets, me.garbage)))
  }

  /** What a side has sent by its phase; only a side that is done says more. */
  ghost predicate SentBy(me: Party, other: Party, mine: Side) {
    match mine.phase
    case Sniffing => mine.out == [] && mine.said == [] && !me.dialled
    case SendingKey => mine.out == [] && mine.said == []
    case TakingKey => mine.out == me.key + me.garbage && mine.said == []
    case SendingPackets => mine.out == me.key + me.garbage && mine.said == []
    case TakingGarbage => mine.out == Whole(me, other) && mine.said == []
    case Reading(_, _) => mine.out == Whole(me, other) && mine.said == []
    case Done(_, _) => mine.out == Whole(me, other) + mine.said
    case SpeaksV1 => false
    case Failed => false
  }

  /** Where a side's reading stands by its phase. */
  ghost predicate ReadBy(me: Party, other: Party, mine: Side) {
    && (mine.phase.SendingPackets? || mine.phase.TakingGarbage? ==> mine.got >= ELL_SIZE)
    && (mine.phase.Reading? || mine.phase.Done? ==>
          mine.phase.garbageLen == |other.garbage| && mine.got >= ELL_SIZE + |other.garbage| + TERMINATOR_LEN)
    && (mine.phase.Reading? ==> mine.phase.count < |other.packets|)
    && (mine.phase.Done? ==> mine.phase.count == |other.packets| && mine.got >= |Whole(other, me)|)
  }

  ghost predicate SideInv(me: Party, other: Party, mine: Side, theirs: Side) {
    SentBy(me, other, mine) && ReadBy(me, other, mine) && mine.got <= |theirs.out|
  }

  // What a side is delivered is the beginning of what the other side sends.

  lemma OutBegins(me: Party, other: Party, mine: Side)
    requires SentBy(me, other, mine)
    ensures mine.out <= Whole(me, other) + mine.said
  {
    hide Stream;
    var session := me.keyed(other.key);
    var rest := session.sends + Stream(session.sealer, me.packets, me.garbage);
    assert Whole(me, other) == (me.key + me.garbage) + rest;
  }

  /** The key, as the other side reads it. */
  lemma KeyRead(me: Party, other: Party, theirs: Side, got: nat)
    requires SentBy(other, me, theirs) && |other.key| == ELL_SIZE && ELL_SIZE <= got <= |theirs.out|
    ensures theirs.out[..got][..ELL_SIZE] == other.key
  {
    hide Stream;
    OutBegins(other, me, theirs);
    assert (Whole(other, me) + theirs.said)[..ELL_SIZE] == other.key;
  }

  /** The octets after the key: garbage, terminator, packets, and what is said after them. */
  lemma AfterKey(me: Party, other: Party, theirs: Side, got: nat)
    requires SentBy(other, me, theirs) && |other.key| == ELL_SIZE && ELL_SIZE <= got <= |theirs.out|
    ensures var session := other.keyed(me.key);
      theirs.out[..got][ELL_SIZE..] <=
      (other.garbage + session.sends) + (Stream(session.sealer, other.packets, other.garbage) + theirs.said)
  {
    hide Stream;
    OutBegins(other, me, theirs);
    var session := other.keyed(me.key);
    var all := (other.garbage + session.sends) + (Stream(session.sealer, other.packets, other.garbage) + theirs.said);
    assert Whole(other, me) + theirs.said == other.key + all;
    assert (other.key + all)[..got][ELL_SIZE..] == all[..got - ELL_SIZE];
  }

  lemma FindPrefix(part: Bytes, whole: Bytes, needle: Bytes)
    requires part <= whole && Find(part, needle, 0).Some?
    ensures Find(whole, needle, 0) == Find(part, needle, 0)
  {
    hide Find;
    var more := whole[|part|..];
    assert whole == part + more;
    FindStable(part, more, needle, 0);
  }

  lemma Shorter(one: Bytes, other: Bytes, whole: Bytes)
    requires one <= whole && other <= whole && |one| <= |other|
    ensures one <= other
  {
  }

  /** The terminator is found where it was sent, once it is all there, and missed only before. */
  lemma FoundWhereSent(opening: Bytes, terminator: Bytes, all: Bytes, searched: Bytes)
    requires Find(opening, terminator, 0).Some? && opening <= all && searched <= all
    ensures Find(searched, terminator, 0).Some? ==> Find(searched, terminator, 0) == Find(opening, terminator, 0)
    ensures Find(searched, terminator, 0).None? ==> |searched| < |opening|
  {
    hide Find;
    FindPrefix(opening, all, terminator);
    if Find(searched, terminator, 0).Some? {
      FindPrefix(searched, all, terminator);
    } else if |searched| >= |opening| {
      Shorter(opening, searched, all);
      FindPrefix(opening, searched, terminator);
    }
  }

  lemma GarbageFound(garbage: Bytes, terminator: Bytes, rest: Bytes, buffer: Bytes)
    requires |garbage| <= 4095 && Find(garbage + terminator, terminator, 0) == Some(|garbage|)
    requires buffer <= (garbage + terminator) + rest
    ensures match Find(Searched(buffer, terminator), terminator, 0)
      case Some(at) => at == |garbage| && |buffer| >= |garbage| + |terminator|
      case None => |buffer| < |garbage| + |terminator|
  {
    hide Find;
    var opening, searched := garbage + terminator, Searched(buffer, terminator);
    FoundWhereSent(opening, terminator, opening + rest, searched);
    FindIsFirst(searched, terminator, 0);
  }

  /** A packet read during the handshake is the one the other side sent at that index. */
  lemma PacketRead(
      opener: Opener, sealer: Sealer, packets: seq<Packet>, garbage: Bytes, said: Bytes, stream: Bytes, count: nat)
    requires Paired(opener, sealer) && Fits(packets) && count < |packets|
    requires stream <= Stream(sealer, packets, garbage) + said
    ensures End(opener, stream, count + 1).Some? ==> Nth(opener, stream, garbage, count) == Some(packets[count])
    ensures End(opener, stream, count + 1).Some? ==>
      End(opener, stream, count + 1).value == |Stream(sealer, packets[..count + 1], garbage)|
    ensures |stream| >= |Stream(sealer, packets, garbage)| ==> End(opener, stream, count + 1).Some?
  {
    hide Paired, Fits, End, Stream, Nth;
    var sent := Stream(sealer, packets, garbage);
    var all := sent + said;
    FirstPackets(opener, sealer, packets, garbage, count + 1);
    if |stream| >= |sent| {
      assert stream == sent + stream[|sent|..];
      EndStable(opener, sent, stream[|sent|..], count + 1);
    }
    if End(opener, stream, count + 1).Some? {
      assert all == stream + all[|stream|..];
      EndStable(opener, stream, all[|stream|..], count + 1);
      EndStable(opener, sent, said, count + 1);
      NthStable(opener, stream, all[|stream|..], garbage, count);
      NthStable(opener, sent, said, garbage, count);
    }
  }

  // One step of either program.

  /** The stream of packets, as a side past the terminator reads it. */
  lemma StreamRead(me: Party, other: Party, theirs: Side, got: nat)
    requires SentBy(other, me, theirs) && |other.key| == ELL_SIZE && |other.keyed(me.key).sends| == TERMINATOR_LEN
    requires ELL_SIZE + |other.garbage| + TERMINATOR_LEN <= got <= |theirs.out|
    ensures var (session, start) := (other.keyed(me.key), ELL_SIZE + |other.garbage|);
      && theirs.out[..got][ELL_SIZE..start] == other.garbage
      && theirs.out[..got][start + TERMINATOR_LEN..]
         <= Stream(session.sealer, other.packets, other.garbage) + theirs.said
  {
    hide Stream;
    AfterKey(me, other, theirs, got);
    var session := other.keyed(me.key);
    var rest := theirs.out[..got][ELL_SIZE..];
    var opening := other.garbage + session.sends;
    var tail := Stream(session.sealer, other.packets, other.garbage) + theirs.said;
    assert rest == (opening + tail)[..|rest|];
    assert rest[..|other.garbage|] == other.garbage;
    assert rest[|opening|..] == tail[..|rest| - |opening|];
    assert theirs.out[..got][ELL_SIZE + |other.garbage| + TERMINATOR_LEN..] == rest[|opening|..];
    assert theirs.out[..got][ELL_SIZE..ELL_SIZE + |other.garbage|] == rest[..|other.garbage|];
  }

  lemma GarbageStep(me: Party, other: Party, mine: Side, theirs: Side)
    requires Matched(me, other) && Matched(other, me) && SideInv(me, other, mine, theirs) && SentBy(other, me, theirs)
    requires mine.phase.TakingGarbage?
    ensures var received := theirs.out[..mine.got];
      match AdvanceGarbage(me, mine, received)
      case Some(next) =>
        && next == mine.(phase := Reading(|other.garbage|, 0))
        && mine.got >= ELL_SIZE + |other.garbage| + TERMINATOR_LEN
      case None => mine.got < ELL_SIZE + |other.garbage| + TERMINATOR_LEN
  {
    hide Stream, Find, Whole, Searched, Paired, VersionLast;
    var session := other.keyed(me.key);
    var buffer := theirs.out[..mine.got][ELL_SIZE..];
    KeyRead(me, other, theirs, mine.got);
    AfterKey(me, other, theirs, mine.got);
    var tail := Stream(session.sealer, other.packets, other.garbage) + theirs.said;
    GarbageFound(other.garbage, session.sends, tail, buffer);
  }

  lemma ReadingStep(me: Party, other: Party, mine: Side, theirs: Side)
    requires Matched(me, other) && Matched(other, me) && SideInv(me, other, mine, theirs) && SentBy(other, me, theirs)
    requires mine.phase.Reading?
    ensures var count := mine.phase.count + 1;
      match AdvanceReading(me, mine, theirs.out[..mine.got])
      case Some(next) =>
        && next == mine.(phase :=
             if count < |other.packets| then Reading(|other.garbage|, count) else Done(|other.garbage|, count))
        && (count == |other.packets| ==> mine.got >= |Whole(other, me)|)
      case None => mine.got < |Whole(other, me)|
  {
    hide Stream, Find, Paired, End, Nth, Fits;
    var session, count := other.keyed(me.key), mine.phase.count;
    KeyRead(me, other, theirs, mine.got);
    StreamRead(me, other, theirs, mine.got);
    var stream := theirs.out[..mine.got][ELL_SIZE + |other.garbage| + TERMINATOR_LEN..];
    var opener := me.keyed(other.key).opener;
    PacketRead(opener, session.sealer, other.packets, other.garbage, theirs.said, stream, count);
    if End(opener, stream, count + 1).Some? {
      EndInside(opener, stream, count + 1);
      assert other.packets[..|other.packets|] == other.packets;
    }
  }

  lemma PhaseKeeps(me: Party, other: Party, mine: Side, theirs: Side)
    requires Matched(me, other) && Matched(other, me) && SideInv(me, other, mine, theirs) && SentBy(other, me, theirs)
    ensures match Advance(me, mine, theirs.out[..mine.got])
      case Some(next) =>
        SideInv(me, other, next, theirs) && mine.out <= next.out && next.said == mine.said && next.got == mine.got
      case None => true
  {
    hide Stream, Find, Paired, End, Nth, VersionLast, AdvanceGarbage, AdvanceReading, Searched;
    match mine.phase {
      case Sniffing => SniffStep(me, other, mine, theirs);
      case SendingPackets => KeyRead(me, other, theirs, mine.got); PacketsOut(me, other);
      case TakingGarbage => GarbageStep(me, other, mine, theirs); assert other.packets != [] by { SomePackets(other); }
      case Reading(_, _) => ReadingStep(me, other, mine, theirs);
      case _ =>
    }
  }

  lemma SomePackets(other: Party)
    requires VersionLast(other.packets)
    ensures other.packets != []
  {
  }

  /** What goes out behind the key and the garbage completes the handshake's own octets. */
  lemma PacketsOut(me: Party, other: Party)
    ensures var session := me.keyed(other.key);
      (me.key + me.garbage) + session.sends + Stream(session.sealer, me.packets, me.garbage) == Whole(me, other)
  {
    hide Stream;
  }

  /** The responder never takes the other side's key for v1. */
  lemma SniffStep(me: Party, other: Party, mine: Side, theirs: Side)
    requires Matched(me, other) && Matched(other, me) && SideInv(me, other, mine, theirs) && SentBy(other, me, theirs)
    requires mine.phase.Sniffing?
    ensures match Advance(me, mine, theirs.out[..mine.got])
      case Some(next) => next == mine.(phase := SendingKey)
      case None => mine.got < |me.v1|
  {
    hide Stream, Find, Paired, VersionLast;
    var received := theirs.out[..mine.got];
    OutBegins(other, me, theirs);
    if |received| >= |me.v1| {
      assert (Whole(other, me) + theirs.said)[..|me.v1|] == other.key[..|me.v1|];
      assert received[..|me.v1|] == other.key[..|me.v1|];
    }
  }

  // Runs: either program steps, octets are delivered to a side, a side that is done says something.

  datatype Act = Program | Deliver(octets: nat) | Say(message: Bytes)

  datatype Event = Event(left: bool, act: Act)

  ghost predicate Allowed(me: Party, mine: Side, theirs: Side, act: Act) {
    match act
    case Program => mine.got <= |theirs.out| && Advance(me, mine, theirs.out[..mine.got]).Some?
    case Deliver(octets) => 0 < octets && mine.got + octets <= |theirs.out|
    case Say(_) => mine.phase.Done?
  }

  ghost function Acted(me: Party, mine: Side, theirs: Side, act: Act): Side
    requires Allowed(me, mine, theirs, act)
  {
    match act
    case Program => Advance(me, mine, theirs.out[..mine.got]).value
    case Deliver(octets) => mine.(got := mine.got + octets)
    case Say(message) => mine.(out := mine.out + message, said := mine.said + message)
  }

  ghost predicate Enabled(left: Party, right: Party, s: State, e: Event) {
    if e.left then Allowed(left, s.left, s.right, e.act) else Allowed(right, s.right, s.left, e.act)
  }

  ghost function Step(left: Party, right: Party, s: State, e: Event): State
    requires Enabled(left, right, s, e)
  {
    if e.left then s.(left := Acted(left, s.left, s.right, e.act))
    else s.(right := Acted(right, s.right, s.left, e.act))
  }

  ghost predicate Good(left: Party, right: Party) {
    Matched(left, right) && Matched(right, left) && (left.dialled || right.dialled)
  }

  ghost predicate Inv(left: Party, right: Party, s: State) {
    SideInv(left, right, s.left, s.right) && SideInv(right, left, s.right, s.left)
  }

  lemma ActKeeps(me: Party, other: Party, mine: Side, theirs: Side, act: Act)
    requires Matched(me, other) && Matched(other, me)
    requires SideInv(me, other, mine, theirs) && SideInv(other, me, theirs, mine) && Allowed(me, mine, theirs, act)
    ensures var next := Acted(me, mine, theirs, act);
      SideInv(me, other, next, theirs) && SideInv(other, me, theirs, next)
  {
    hide Matched, Advance, Whole;
    if act.Program? {
      PhaseKeeps(me, other, mine, theirs);
    }
  }

  /** What a side still has to do. */
  function Rank(phase: Phase, packets: nat): nat {
    match phase
    case Sniffing => packets + 5
    case SendingKey => packets + 4
    case TakingKey => packets + 3
    case SendingPackets => packets + 2
    case TakingGarbage => packets + 1
    case Reading(_, count) => if count < packets then packets - count else 0
    case _ => 0
  }

  /** Program steps and octets still to come, of a side that says nothing past the handshake. */
  ghost function Fuel(me: Party, other: Party, mine: Side, theirs: Side): int {
    Rank(mine.phase, |other.packets|) + |Whole(other, me)| + |theirs.said| - mine.got
  }

  ghost function TotalFuel(left: Party, right: Party, s: State): int {
    Fuel(left, right, s.left, s.right) + Fuel(right, left, s.right, s.left)
  }

  lemma FuelBound(me: Party, other: Party, mine: Side, theirs: Side)
    requires SideInv(me, other, mine, theirs) && SentBy(other, me, theirs)
    ensures Fuel(me, other, mine, theirs) >= 0
  {
    hide Whole;
    OutBegins(other, me, theirs);
  }

  lemma ActSpends(me: Party, other: Party, mine: Side, theirs: Side, act: Act)
    requires Matched(me, other) && Matched(other, me) && !act.Say?
    requires SideInv(me, other, mine, theirs) && SideInv(other, me, theirs, mine) && Allowed(me, mine, theirs, act)
    ensures var next := Acted(me, mine, theirs, act);
      && Fuel(me, other, next, theirs) < Fuel(me, other, mine, theirs)
      && Fuel(other, me, theirs, next) == Fuel(other, me, theirs, mine)
  {
    hide Whole, Stream, Find, Paired, End, Nth, VersionLast, AdvanceGarbage, AdvanceReading, Searched;
    if act.Program? {
      match mine.phase {
        case Sniffing => SniffStep(me, other, mine, theirs);
        case TakingGarbage => GarbageStep(me, other, mine, theirs);
        case Reading(_, _) => ReadingStep(me, other, mine, theirs);
        case _ =>
      }
    }
  }

  /** A side that cannot go on, with all that was sent to it delivered, is done or ahead of the other. */
  lemma Blocked(me: Party, other: Party, mine: Side, theirs: Side)
    requires Matched(me, other) && Matched(other, me) && SideInv(me, other, mine, theirs) && SentBy(other, me, theirs)
    requires mine.got == |theirs.out| && Advance(me, mine, theirs.out[..mine.got]).None?
    ensures mine.phase.Done?
      || ((mine.phase.Sniffing? || mine.phase.TakingKey?) && (theirs.phase.Sniffing? || theirs.phase.SendingKey?))
      || (mine.phase.TakingGarbage? && (theirs.phase.TakingKey? || theirs.phase.SendingPackets?))
  {
    hide Stream, Find, Paired, End, Nth, VersionLast, AdvanceGarbage, AdvanceReading, Searched;
    match mine.phase {
      case Sniffing => SniffStep(me, other, mine, theirs);
      case TakingGarbage => GarbageStep(me, other, mine, theirs);
      case Reading(_, _) => ReadingStep(me, other, mine, theirs);
      case _ =>
    }
  }

  /** While either side is not done, a program can go on or octets can be delivered. */
  lemma NoDeadlock(left: Party, right: Party, s: State)
    requires Good(left, right) && Inv(left, right, s) && !(s.left.phase.Done? && s.right.phase.Done?)
    ensures exists e: Event :: !e.act.Say? && Enabled(left, right, s, e)
  {
    hide Matched, Whole, Advance;
    if s.left.got < |s.right.out| {
      assert Enabled(left, right, s, Event(true, Deliver(1)));
    } else if s.right.got < |s.left.out| {
      assert Enabled(left, right, s, Event(false, Deliver(1)));
    } else if Advance(left, s.left, s.right.out[..s.left.got]).Some? {
      assert Enabled(left, right, s, Event(true, Program));
    } else if Advance(right, s.right, s.left.out[..s.right.got]).Some? {
      assert Enabled(left, right, s, Event(false, Program));
    } else {
      Blocked(left, right, s.left, s.right);
      Blocked(right, left, s.right, s.left);
      assert false;
    }
  }

  /** A run: the states after each event of it. */
  ghost predicate Run(left: Party, right: Party, s: State, events: seq<Event>)
    decreases events
  {
    events == []
    || (Enabled(left, right, s, events[0]) && Run(left, right, Step(left, right, s, events[0]), events[1..]))
  }

  ghost function After(left: Party, right: Party, s: State, events: seq<Event>): State
    requires Run(left, right, s, events)
    decreases events
  {
    if events == [] then s else After(left, right, Step(left, right, s, events[0]), events[1..])
  }

  lemma StepKeeps(left: Party, right: Party, s: State, e: Event)
    requires Good(left, right) && Inv(left, right, s) && Enabled(left, right, s, e)
    ensures Inv(left, right, Step(left, right, s, e))
    ensures !e.act.Say? ==> TotalFuel(left, right, Step(left, right, s, e)) < TotalFuel(left, right, s)
  {
    hide Matched, SideInv, Allowed, Acted, Fuel;
    if e.left {
      ActKeeps(left, right, s.left, s.right, e.act);
      if !e.act.Say? {
        ActSpends(left, right, s.left, s.right, e.act);
      }
    } else {
      ActKeeps(right, left, s.right, s.left, e.act);
      if !e.act.Say? {
        ActSpends(right, left, s.right, s.left, e.act);
      }
    }
  }

  lemma {:induction false} RunKeeps(left: Party, right: Party, s: State, events: seq<Event>)
    requires Good(left, right) && Inv(left, right, s) && Run(left, right, s, events)
    ensures Inv(left, right, After(left, right, s, events))
    decreases events
  {
    hide Good, Inv, Enabled, Step;
    if events != [] {
      StepKeeps(left, right, s, events[0]);
      RunKeeps(left, right, Step(left, right, s, events[0]), events[1..]);
    }
  }

  lemma StartKeeps(left: Party, right: Party)
    ensures Inv(left, right, State(Started(left), Started(right)))
  {
  }

  /** No run goes on for longer than the fuel it starts with, unless a side that is done says more. */
  lemma {:induction false} RunEnds(left: Party, right: Party, s: State, events: seq<Event>)
    requires Good(left, right) && Inv(left, right, s) && Run(left, right, s, events)
    requires forall k :: 0 <= k < |events| ==> !events[k].act.Say?
    ensures |events| <= TotalFuel(left, right, s)
    decreases events
  {
    hide Good, Enabled, Step, SideInv, Fuel;
    if events != [] {
      StepKeeps(left, right, s, events[0]);
      RunEnds(left, right, Step(left, right, s, events[0]), events[1..]);
    } else {
      SideFuel(left, right, s);
    }
  }

  lemma SideFuel(left: Party, right: Party, s: State)
    requires Inv(left, right, s)
    ensures TotalFuel(left, right, s) >= 0
  {
    hide Fuel;
    FuelBound(left, right, s.left, s.right);
    FuelBound(right, left, s.right, s.left);
  }

  /**
    A side that is done has read exactly the other side's handshake: as many packets as the other sealed,
    the garbage authenticated by the first alone, and no octet past the version packet.
   */
  lemma DoneReads(left: Party, right: Party, s: State)
    requires Good(left, right) && Inv(left, right, s) && s.left.phase.Done?
    ensures var start := ELL_SIZE + |right.garbage| + TERMINATOR_LEN; var count := s.left.phase.count;
      && count == |right.packets| && s.left.phase.garbageLen == |right.garbage| && start <= s.left.got <= |s.right.out|
      && var (opener, stream) := (left.keyed(s.right.out[..ELL_SIZE]).opener, s.right.out[..s.left.got][start..]);
         && End(opener, stream, count).Some?
         && start + End(opener, stream, count).value == |Whole(right, left)|
         && Nth(opener, stream, right.garbage, count - 1) == Some(right.packets[count - 1])
  {
    hide Stream, Find, Paired, End, Nth, Fits, Searched;
    var session := right.keyed(left.key);
    KeyRead(left, right, s.right, s.left.got);
    assert s.right.out[..ELL_SIZE] == s.right.out[..s.left.got][..ELL_SIZE];
    StreamRead(left, right, s.right, s.left.got);
    var stream := s.right.out[..s.left.got][ELL_SIZE + |right.garbage| + TERMINATOR_LEN..];
    var opener := left.keyed(right.key).opener;
    PacketRead(opener, session.sealer, right.packets, right.garbage, s.right.said, stream, |right.packets| - 1);
    assert right.packets[..|right.packets|] == right.packets;
  }

  /** In every run, neither side fails or falls back to v1, and a run that can go no further leaves both done. */
  lemma Completes(left: Party, right: Party, events: seq<Event>)
    requires Good(left, right) && Run(left, right, State(Started(left), Started(right)), events)
    ensures var s := After(left, right, State(Started(left), Started(right)), events);
      && !s.left.phase.Failed? && !s.left.phase.SpeaksV1? && !s.right.phase.Failed? && !s.right.phase.SpeaksV1?
      && ((forall e: Event :: !e.act.Say? ==> !Enabled(left, right, s, e)) ==>
            s.left.phase.Done? && s.right.phase.Done?)
  {
    hide Good, Enabled, Run, After;
    var start := State(Started(left), Started(right));
    StartKeeps(left, right);
    RunKeeps(left, right, start, events);
    var s := After(left, right, start, events);
    if !(s.left.phase.Done? && s.right.phase.Done?) {
      NoDeadlock(left, right, s);
    }
  }

  // What `Peer.ReadHandshake` reads from an honest other side.

  lemma SameTail(a: Bytes, b: Bytes, c: Bytes, d: Bytes)
    requires a + b == c + d && |a| == |c|
    ensures a == c && b == d
  {
    assert a == (a + b)[..|a|] && c == (c + d)[..|c|];
    assert b == (a + b)[|a|..] && d == (c + d)[|c|..];
  }

  /** The terminator found is the one sent, so the garbage is. */
  lemma SameGarbage(garbage: Bytes, other: Bytes, terminator: Bytes, rest: Bytes, sent: Bytes)
    requires (garbage + terminator) + rest == (other + terminator) + sent
    requires Find(garbage + terminator, terminator, 0) == Some(|garbage|)
    requires Find(other + terminator, terminator, 0) == Some(|other|)
    ensures garbage == other && rest == sent
  {
    hide Find;
    var all := (garbage + terminator) + rest;
    FindPrefix(garbage + terminator, all, terminator);
    FindPrefix(other + terminator, all, terminator);
    SameTail(garbage + terminator, rest, other + terminator, sent);
    SameTail(garbage, terminator, other, terminator);
  }

  /** Decoys, then the first packet that is none: those are the packets the other side sent. */
  lemma VersionRead(
      opener: Opener, sealer: Sealer, packets: seq<Packet>, garbage: Bytes, said: Bytes, received: Bytes, n: nat)
    requires Paired(opener, sealer) && VersionLast(packets) && received <= Stream(sealer, packets, garbage) + said
    requires n > 0 && OpensAs(opener, received, garbage, n - 1, false) && Decoys(opener, received, garbage, n - 1)
    ensures n == |packets| && End(opener, received, n) == Some(|Stream(sealer, packets, garbage)|)
  {
    hide Paired, Fits, End, Stream, Nth;
    var last := |packets| - 1;
    if n > |packets| {
      assert OpensAs(opener, received, garbage, last, true);
      PacketRead(opener, sealer, packets, garbage, said, received, last);
    } else {
      PacketRead(opener, sealer, packets, garbage, said, received, n - 1);
      assert packets[..|packets|] == packets;
    }
  }

  /** Octets before and after the key, regrouped. */
  lemma Regrouped(
      key: Bytes, opening: Bytes, rest: Bytes,
      theirs: Bytes, garbage: Bytes, sends: Bytes, stream: Bytes, said: Bytes)
    requires (key + opening) + rest == (theirs + (garbage + (sends + stream))) + said && |key| == |theirs|
    ensures key == theirs && opening + rest == (garbage + sends) + (stream + said)
  {
    assert (key + opening) + rest == key + (opening + rest);
    assert (theirs + (garbage + (sends + stream))) + said == theirs + ((garbage + sends) + (stream + said));
    SameTail(key, opening + rest, theirs, (garbage + sends) + (stream + said));
  }

  /** The key and the garbage read are the other side's, and what follows is its packets and what it said. */
  lemma OpeningRead(me: Party, other: Party, said: Bytes, key: Bytes, garbage: Bytes, rest: Bytes)
    requires Matched(other, me) && |key| == ELL_SIZE
    requires key + (garbage + me.keyed(key).expects) + rest == Whole(other, me) + said
    requires Find(garbage + me.keyed(key).expects, me.keyed(key).expects, 0) == Some(|garbage|)
    ensures key == other.key && garbage == other.garbage
    ensures rest == Stream(other.keyed(me.key).sealer, other.packets, other.garbage) + said
  {
    hide Find, Stream, Paired, VersionLast;
    var session := other.keyed(me.key);
    var stream := Stream(session.sealer, other.packets, other.garbage);
    Regrouped(
      key, garbage + me.keyed(key).expects, rest, other.key, other.garbage, session.sends, stream, said);
    SameGarbage(garbage, other.garbage, session.sends, rest, stream + said);
  }

  /**
    What `ReadHandshake` leaves of an honest other side's octets. `key`, `garbage`, `rest` and the packets read are
    as it ends without an error, the whole being all the other side sent, with what it said after its handshake: the
    key and the garbage are the other side's, as many packets were read as it sealed, and what is left unread is
    what it said.
   */
  lemma HandshakeRead(
      me: Party, other: Party, said: Bytes, key: Bytes, garbage: Bytes, rest: Bytes, received: Bytes, n: nat)
    requires Matched(other, me) && |key| == ELL_SIZE
    requires key + (garbage + me.keyed(key).expects) + rest == Whole(other, me) + said && received <= rest
    requires Find(garbage + me.keyed(key).expects, me.keyed(key).expects, 0) == Some(|garbage|)
    requires n > 0 && OpensAs(me.keyed(key).opener, received, garbage, n - 1, false)
    requires Decoys(me.keyed(key).opener, received, garbage, n - 1)
    ensures key == other.key && garbage == other.garbage && n == |other.packets|
    ensures End(me.keyed(key).opener, received, n).Some? && End(me.keyed(key).opener, received, n).value <= |rest|
    ensures rest[End(me.keyed(key).opener, received, n).value..] == said
  {
    hide Find, Stream, Paired, Fits, End, Nth, OpensAs, Decoys, VersionLast, Whole;
    OpeningRead(me, other, said, key, garbage, rest);
    VersionRead(
      me.keyed(key).opener, other.keyed(me.key).sealer, other.packets, other.garbage, said, received, n);
  }
  /**
    The same of the peer itself, as `ReadHandshake` leaves it: `key` and `came` are what that method answers beside
    `None`, and `came` with what is still to come is all the other side sent.
   */
  lemma HonestHandshake(me: Party, other: Party, peer: Peer, key: Bytes, came: Bytes, said: Bytes)
    requires Matched(other, me) && peer.Valid() && |key| == ELL_SIZE
    requires came + Coming(peer.incoming) == Whole(other, me) + said
    requires peer.cipher == Some(me.keyed(key).opener)
    requires came == key + (peer.garbage + me.keyed(key).expects) + peer.received
    requires Find(peer.garbage + me.keyed(key).expects, me.keyed(key).expects, 0) == Some(|peer.garbage|)
    requires 0 < peer.packets == peer.handshaken
    requires OpensAs(peer.cipher.value, peer.received, peer.garbage, peer.packets - 1, false)
    requires Decoys(peer.cipher.value, peer.received, peer.garbage, peer.packets - 1)
    ensures key == other.key && peer.garbage == other.garbage
    ensures peer.handshaken == peer.packets == |other.packets| && peer.returned == []
    ensures End(peer.cipher.value, peer.received, peer.packets).Some?
    ensures peer.received[End(peer.cipher.value, peer.received, peer.packets).value..] + Coming(peer.incoming) == said
  {
    hide Find, Stream, Paired, Fits, End, Nth, OpensAs, Decoys, VersionLast, Whole, Coming;
    var (opener, more) := (me.keyed(key).opener, Coming(peer.incoming));
    var opening := peer.garbage + me.keyed(key).expects;
    assert (key + opening) + peer.received + more == (key + opening) + (peer.received + more);
    HandshakeRead(me, other, said, key, peer.garbage, peer.received + more, peer.received, peer.packets);
    EndInside(opener, peer.received, peer.packets);
    var end := End(opener, peer.received, peer.packets).value;
    assert (peer.received + more)[end..] == peer.received[end..] + more;
  }
}
