/** A `Peer`'s receiving side: the socket's octets, whatever chunks and timeouts they come in, into messages. */
module PeerReceive {
  import opened Octets
  import opened Wrappers
  import opened Packets
  import opened Framing
  import opened Sockets

  const CHUNK: nat := 4096

  datatype Outgoing = Ping(nonce: nat) | Pong(nonce: nat) | Other(message: Message)

  const PING: string := "ping"
  const PONG: string := "pong"

  /** A ping is answered with its own nonce, anything else not at all. */
  function Answers(nonce: Bytes -> Option<nat>, m: Message): seq<Outgoing> {
    if m.command == PING && nonce(m.payload).Some? then [Pong(nonce(m.payload).value)] else []
  }

  /** The answers to the pings among some messages, in order. */
  function Pongs(nonce: Bytes -> Option<nat>, messages: seq<Message>): seq<Outgoing> {
    if messages == [] then []
    else Pongs(nonce, messages[..|messages| - 1]) + Answers(nonce, messages[|messages| - 1])
  }

  lemma PongsOfNone(nonce: Bytes -> Option<nat>)
    ensures Pongs(nonce, []) == []
  {
  }

  lemma PongsNext(nonce: Bytes -> Option<nat>, seen: seq<Message>, m: Message)
    ensures Pongs(nonce, seen + [m]) == Pongs(nonce, seen) + Answers(nonce, m)
  {
    assert (seen + [m])[..|seen|] == seen;
  }

  /**
    The answers are pongs to the pings at `places`, in order, each with its ping's nonce, and no such ping is left out.
   */
  ghost predicate AnsweredAt(
      nonce: Bytes -> Option<nat>, messages: seq<Message>, answers: seq<Outgoing>, places: seq<nat>)
  {
    && |answers| == |places| && Increasing(places)
    && (forall k :: 0 <= k < |places| ==>
          && places[k] < |messages| && messages[places[k]].command == "ping"
          && answers[k].Pong? && nonce(messages[places[k]].payload) == Some(answers[k].nonce))
    && forall i: nat ::
         i < |messages| && messages[i].command == "ping" && nonce(messages[i].payload).Some? ==> i in places
  }

  lemma AnsweredNext(
      nonce: Bytes -> Option<nat>, messages: seq<Message>, m: Message, answers: seq<Outgoing>, places: seq<nat>)
    requires AnsweredAt(nonce, messages, answers, places)
    ensures AnsweredAt(nonce, messages + [m], answers + Answers(nonce, m),
                       places + if m.command == "ping" && nonce(m.payload).Some? then [|messages|] else [])
  {
    var all := messages + [m];
    var more := places + if m.command == "ping" && nonce(m.payload).Some? then [|messages|] else [];
    forall i: nat | i < |all| && all[i].command == "ping" && nonce(all[i].payload).Some? ensures i in more {
      if i < |messages| {
        assert i in places;
      } else {
        assert more[|places|] == i;
      }
    }
  }

  /** Every ping is answered once, in order, with its own nonce. */
  lemma {:induction false} PongsExactly(nonce: Bytes -> Option<nat>, messages: seq<Message>) returns (places: seq<nat>)
    ensures AnsweredAt(nonce, messages, Pongs(nonce, messages), places)
    decreases messages
  {
    hide AnsweredAt, Answers;
    places := [];
    if messages == [] {
      NoneAnswered(nonce);
    } else {
      var before, m := messages[..|messages| - 1], messages[|messages| - 1];
      places := PongsExactly(nonce, before);
      AnsweredNext(nonce, before, m, Pongs(nonce, before), places);
      assert before + [m] == messages;
      places := places + if m.command == "ping" && nonce(m.payload).Some? then [|before|] else [];
    }
  }

  lemma NoneAnswered(nonce: Bytes -> Option<nat>)
    ensures AnsweredAt(nonce, [], [], [])
  {
  }

  predicate IsPong(nonce: Bytes -> Option<nat>, m: Message, n: nat) {
    m.command == "pong" && nonce(m.payload) == Some(n)
  }

  /** A ping or a pong that does not parse, which `sync_with_ping` raises on. */
  predicate Malformed(nonce: Bytes -> Option<nat>, m: Message) {
    (m.command == "ping" || m.command == "pong") && nonce(m.payload).None?
  }

  /** The test `sync_with_ping` waits with: parsing a malformed payload raises. */
  function PongTest(nonce: Bytes -> Option<nat>, drawn: nat): Message -> Option<bool> {
    (m: Message) => if nonce(m.payload).None? then None else Some(nonce(m.payload).value == drawn)
  }

  /** A ping a wait cannot answer, its nonce not parsing. */
  predicate BadPing(nonce: Bytes -> Option<nat>, m: Message) {
    m.command == "ping" && nonce(m.payload).None?
  }

  /** What a wait returns on: the command, passing the test, and no ping that raised before it. */
  predicate Awaited(nonce: Bytes -> Option<nat>, command: string, matches: Message -> Option<bool>, m: Message) {
    m.command == command && matches(m) == Some(true) && !BadPing(nonce, m)
  }

  /** What a wait raises `ValueError` on: a ping it cannot answer, or one of the command that its test cannot read. */
  predicate Unreadable(nonce: Bytes -> Option<nat>, command: string, matches: Message -> Option<bool>, m: Message) {
    BadPing(nonce, m) || (m.command == command && matches(m).None?)
  }

  /** Messages a wait goes on after. */
  predicate PassedOver(
      nonce: Bytes -> Option<nat>, command: string, matches: Message -> Option<bool>, messages: seq<Message>)
  {
    forall k :: 0 <= k < |messages| ==>
      !Awaited(nonce, command, matches, messages[k]) && !Unreadable(nonce, command, matches, messages[k])
  }

  /** How a message is judged: a bad ping, or by the test. */
  lemma Judged(nonce: Bytes -> Option<nat>, command: string, matches: Message -> Option<bool>, m: Message)
    ensures BadPing(nonce, m) ==>
      Answers(nonce, m) == [] && Unreadable(nonce, command, matches, m) && !Awaited(nonce, command, matches, m)
    ensures !BadPing(nonce, m) ==>
      && (Awaited(nonce, command, matches, m) <==> m.command == command && matches(m) == Some(true))
      && (Unreadable(nonce, command, matches, m) <==> m.command == command && matches(m).None?)
    ensures Unreadable(nonce, command, matches, m) ==> !Awaited(nonce, command, matches, m)
  {
  }

  /**
    What `sync_with_ping` awaits is the pong with its nonce, and what it raises on is a ping or pong that does not
    parse.
   */
  lemma PongAwaited(nonce: Bytes -> Option<nat>, drawn: nat, m: Message)
    ensures Awaited(nonce, PONG, PongTest(nonce, drawn), m) <==> IsPong(nonce, m, drawn)
    ensures Unreadable(nonce, PONG, PongTest(nonce, drawn), m) <==> Malformed(nonce, m)
  {
  }

  lemma PongsAwaited(nonce: Bytes -> Option<nat>, drawn: nat)
    ensures forall m :: Awaited(nonce, PONG, PongTest(nonce, drawn), m) <==> IsPong(nonce, m, drawn)
    ensures forall m :: Unreadable(nonce, PONG, PongTest(nonce, drawn), m) <==> Malformed(nonce, m)
  {
    forall m ensures Awaited(nonce, PONG, PongTest(nonce, drawn), m) <==> IsPong(nonce, m, drawn) {
      PongAwaited(nonce, drawn, m);
    }
    forall m ensures Unreadable(nonce, PONG, PongTest(nonce, drawn), m) <==> Malformed(nonce, m) {
      PongAwaited(nonce, drawn, m);
    }
  }

  /** One message more: which of them are awaited, and what the answers to their pings are. */
  lemma OneMore(
      nonce: Bytes -> Option<nat>, command: string, matches: Message -> Option<bool>, seen: seq<Message>, m: Message)
    requires PassedOver(nonce, command, matches, seen)
    ensures (seen + [m])[..|seen|] == seen && (seen + [m])[|seen|] == m
    ensures Pongs(nonce, seen + [m]) == Pongs(nonce, seen) + Answers(nonce, m)
    ensures (exists x :: x in seen + [m] && Awaited(nonce, command, matches, x)) <==>
            Awaited(nonce, command, matches, m)
    ensures !Awaited(nonce, command, matches, m) && !Unreadable(nonce, command, matches, m) ==>
      PassedOver(nonce, command, matches, seen + [m])
  {
    hide Awaited, Unreadable, Pongs, Answers;
    PongsNext(nonce, seen, m);
    assert m in seen + [m];
    NoneAwaited(nonce, command, matches, seen);
  }

  lemma NonePassed(nonce: Bytes -> Option<nat>, command: string, matches: Message -> Option<bool>)
    ensures PassedOver(nonce, command, matches, [])
  {
  }

  lemma NoneAwaited(
      nonce: Bytes -> Option<nat>, command: string, matches: Message -> Option<bool>, seen: seq<Message>)
    requires PassedOver(nonce, command, matches, seen)
    ensures !(exists x :: x in seen && Awaited(nonce, command, matches, x))
  {
    hide Awaited, Unreadable;
  }

  /** How many messages of a command there are, and the latest of them. */
  function CountOf(messages: seq<Message>, command: string): nat {
    if messages == [] then 0
    else CountOf(messages[..|messages| - 1], command) + if messages[|messages| - 1].command == command then 1 else 0
  }

  function LastOf(messages: seq<Message>, command: string): Option<Message> {
    if messages == [] then None
    else if messages[|messages| - 1].command == command then Some(messages[|messages| - 1])
    else LastOf(messages[..|messages| - 1], command)
  }

  ghost predicate Tallied(messages: seq<Message>, count: map<string, nat>, last: map<string, Message>) {
    forall c: string ::
      && CountOf(messages, c) == (if c in count then count[c] else 0)
      && LastOf(messages, c) == (if c in last then Some(last[c]) else None)
  }

  lemma TallyNext(messages: seq<Message>, m: Message, count: map<string, nat>, last: map<string, Message>)
    requires Tallied(messages, count, last)
    ensures var seen := if m.command in count then count[m.command] else 0;
      Tallied(messages + [m], count[m.command := seen + 1], last[m.command := m])
  {
    assert (messages + [m])[..|messages|] == messages;
  }

  /** Where a v2 receiver stands in the octets received: `packets` whole packets in, perhaps past a length. */
  ghost predicate At(cipher: Opener, received: Bytes, garbage: Bytes, buffer: Bytes, contentsLen: Option<nat>,
                     aad: Bytes, lengths: nat, packets: nat)
  {
    && End(cipher, received, packets).Some?
    && aad == Aad(garbage, packets)
    && var start := End(cipher, received, packets).value;
       match contentsLen
       case None => lengths == packets && start <= |received| && buffer == received[start..]
       case Some(n) =>
         && lengths == packets + 1 && start + LENGTH_LEN <= |received|
         && n == cipher.openLength(packets, received[start..start + LENGTH_LEN])
         && buffer == received[start + LENGTH_LEN..]
  }

  lemma AtGrows(cipher: Opener, received: Bytes, more: Bytes, garbage: Bytes, buffer: Bytes, contentsLen: Option<nat>,
                aad: Bytes, lengths: nat, packets: nat)
    requires At(cipher, received, garbage, buffer, contentsLen, aad, lengths, packets)
    ensures At(cipher, received + more, garbage, buffer + more, contentsLen, aad, lengths, packets)
  {
    hide End;
    EndStable(cipher, received, more, packets);
    var start := End(cipher, received, packets).value;
    if contentsLen.Some? {
      assert (received + more)[start..start + LENGTH_LEN] == received[start..start + LENGTH_LEN];
      assert (received + more)[start + LENGTH_LEN..] == received[start + LENGTH_LEN..] + more;
    } else {
      assert (received + more)[start..] == received[start..] + more;
    }
  }

  /** The length read: the receiver stands past it. */
  lemma AtLength(cipher: Opener, received: Bytes, garbage: Bytes, buffer: Bytes, aad: Bytes, packets: nat)
    requires At(cipher, received, garbage, buffer, None, aad, packets, packets) && |buffer| >= LENGTH_LEN
    ensures At(cipher, received, garbage, buffer[LENGTH_LEN..], Some(cipher.openLength(packets, buffer[..LENGTH_LEN])),
               aad, packets + 1, packets)
  {
    hide End;
    var start := End(cipher, received, packets).value;
    assert received[start..][..LENGTH_LEN] == received[start..start + LENGTH_LEN];
    assert received[start..][LENGTH_LEN..] == received[start + LENGTH_LEN..];
  }

  /** The rest read: the receiver stands past the packet, and what was read is the packet's own. */
  lemma AtPacket(cipher: Opener, received: Bytes, garbage: Bytes, buffer: Bytes, length: nat, aad: Bytes, packets: nat)
    requires At(cipher, received, garbage, buffer, Some(length), aad, packets + 1, packets)
    requires |buffer| >= HEADER_LEN + length + TAG_LEN
    ensures var size := HEADER_LEN + length + TAG_LEN;
      && At(cipher, received, garbage, buffer[size..], None, [], packets + 1, packets + 1)
      && cipher.open(packets, buffer[..size], aad) == Nth(cipher, received, garbage, packets)
  {
    var start, size := End(cipher, received, packets).value, HEADER_LEN + length + TAG_LEN;
    assert End(cipher, received, packets + 1) == Some(start + LENGTH_LEN + size);
    assert received[start + LENGTH_LEN..][..size] == received[start + LENGTH_LEN..start + LENGTH_LEN + size];
    assert received[start + LENGTH_LEN..][size..] == received[start + LENGTH_LEN + size..];
  }

  /** Too few octets: the packet is not whole yet. */
  lemma AtShort(cipher: Opener, received: Bytes, garbage: Bytes, buffer: Bytes, contentsLen: Option<nat>, aad: Bytes,
                lengths: nat, packets: nat)
    requires At(cipher, received, garbage, buffer, contentsLen, aad, lengths, packets)
    requires |buffer| < if contentsLen.None? then LENGTH_LEN else HEADER_LEN + contentsLen.value + TAG_LEN
    ensures End(cipher, received, packets + 1).None?
  {
  }

  // What came of the octets, as more of them arrive.

  lemma CameSame(cipher: Opener, before: Bytes, after: Bytes, garbage: Bytes, from: nat, n: nat)
    requires End(cipher, before, n).Some? && before <= after
    ensures End(cipher, after, n).Some?
    ensures Kept(cipher, after, garbage, from, n) == Kept(cipher, before, garbage, from, n)
  {
    hide End, Kept;
    assert after == before + after[|before|..];
    KeptStable(cipher, before, after[|before|..], garbage, from, n);
  }

  lemma CameOneMore(cipher: Opener, before: Bytes, after: Bytes, garbage: Bytes, from: nat, n: nat)
    requires End(cipher, before, n).Some? && before <= after && End(cipher, after, n + 1).Some? && from <= n
    ensures Kept(cipher, after, garbage, from, n + 1)
         == Kept(cipher, before, garbage, from, n) + Carried(cipher, Nth(cipher, after, garbage, n))
  {
    hide End, Carried, Nth;
    CameSame(cipher, before, after, garbage, from, n);
  }

  /** Where a v1 receiver stands: `n` messages in. */
  ghost predicate V1At(format: Format, received: Bytes, buffer: Bytes, n: nat) {
    && Stable(format) && MessagesEnd(format, received, n).Some?
    && MessagesEnd(format, received, n).value <= |received|
    && buffer == received[MessagesEnd(format, received, n).value..]
  }

  lemma V1Grows(format: Format, received: Bytes, more: Bytes, buffer: Bytes, n: nat)
    requires V1At(format, received, buffer, n)
    ensures V1At(format, received + more, buffer + more, n)
    ensures Messages(format, received + more, n) == Messages(format, received, n)
  {
    hide MessagesEnd, Messages, Stable;
    MessagesStable(format, received, more, n);
    var start := MessagesEnd(format, received, n).value;
    assert (received + more)[start..] == received[start..] + more;
  }

  lemma V1Message(format: Format, received: Bytes, buffer: Bytes, n: nat)
    requires V1At(format, received, buffer, n) && Next(format, buffer).Whole?
    ensures Next(format, buffer).size <= |buffer|
    ensures V1At(format, received, buffer[Next(format, buffer).size..], n + 1)
    ensures Messages(format, received, n + 1) == Messages(format, received, n) + [Next(format, buffer).message]
  {
    hide Stable, Next;
    NextStable(format, buffer, []);
    var start, size := MessagesEnd(format, received, n).value, Next(format, buffer).size;
    assert received[start..][size..] == received[start + size..];
  }

  // The garbage terminator.

  const MAX_GARBAGE_LEN: nat := 4095
  const ELL_SIZE: nat := 64

  predicate Stands(hay: Bytes, needle: Bytes, i: nat) {
    i + |needle| <= |hay| && hay[i..i + |needle|] == needle
  }

  /** Where `needle` first stands in `hay`, at `i` or later. */
  function Find(hay: Bytes, needle: Bytes, i: nat): Option<nat>
    decreases |hay| - i
  {
    if i + |needle| > |hay| then None
    else if Stands(hay, needle, i) then Some(i)
    else Find(hay, needle, i + 1)
  }

  lemma {:induction false} FindIsFirst(hay: Bytes, needle: Bytes, i: nat)
    ensures match Find(hay, needle, i)
      case Some(at) => at >= i && Stands(hay, needle, at) && forall j: nat :: i <= j < at ==> !Stands(hay, needle, j)
      case None => forall j: nat :: i <= j ==> !Stands(hay, needle, j)
    decreases |hay| - i
  {
    if i + |needle| <= |hay| && !Stands(hay, needle, i) {
      FindIsFirst(hay, needle, i + 1);
    }
  }

  /** Of the octets alone: what is found is there, and whatever is there is found there or before it. */
  lemma FindsIt(hay: Bytes, needle: Bytes, at: nat)
    ensures Find(hay, needle, 0) == Some(at) ==> at + |needle| <= |hay| && hay[at..at + |needle|] == needle
    ensures at + |needle| <= |hay| && hay[at..at + |needle|] == needle ==>
      Find(hay, needle, 0).Some? && Find(hay, needle, 0).value <= at
  {
    hide Find;
    FindIsFirst(hay, needle, 0);
    if at + |needle| <= |hay| && hay[at..at + |needle|] == needle {
      assert Stands(hay, needle, at);
    }
  }

  /** What is found early on is found first in the whole. */
  lemma {:induction false} FindStable(hay: Bytes, more: Bytes, needle: Bytes, i: nat)
    requires Find(hay, needle, i).Some?
    ensures Find(hay + more, needle, i) == Find(hay, needle, i)
    decreases |hay| - i
  {
    assert (hay + more)[i..i + |needle|] == hay[i..i + |needle|];
    if !Stands(hay, needle, i) {
      FindStable(hay, more, needle, i + 1);
    }
  }

  /** The part of a buffer the terminator is looked for in. */
  function Searched(buffer: Bytes, terminator: Bytes): Bytes {
    if |buffer| < MAX_GARBAGE_LEN + |terminator| then buffer else buffer[..MAX_GARBAGE_LEN + |terminator|]
  }

  lemma SplitAt(buffer: Bytes, needle: Bytes, i: nat)
    requires Stands(buffer, needle, i)
    ensures buffer == buffer[..i] + needle + buffer[i + |needle|..]
  {
    assert buffer[i..] == buffer[i..i + |needle|] + buffer[i + |needle|..];
  }

  /** A terminator found in the part searched is the first of the whole buffer, within the bound. */
  lemma Split(buffer: Bytes, terminator: Bytes, end: nat)
    requires Find(Searched(buffer, terminator), terminator, 0) == Some(end)
    ensures Find(buffer, terminator, 0) == Some(end) && end <= MAX_GARBAGE_LEN && end + |terminator| <= |buffer|
    ensures buffer == buffer[..end] + terminator + buffer[end + |terminator|..]
  {
    hide Find, Stands;
    var searched := Searched(buffer, terminator);
    FindIsFirst(searched, terminator, 0);
    if |searched| < |buffer| {
      assert buffer == searched + buffer[|searched|..];
      FindStable(searched, buffer[|searched|..], terminator, 0);
    } else {
      assert searched == buffer;
    }
    FindIsFirst(buffer, terminator, 0);
    StandsInside(searched, terminator, end);
    SplitAt(buffer, terminator, end);
  }

  lemma StandsInside(hay: Bytes, needle: Bytes, i: nat)
    requires Stands(hay, needle, i)
    ensures i + |needle| <= |hay|
  {
  }

  /** A key's worth of octets, and no terminator among those after it: not yet, or not within the bound. */
  ghost predicate OpeningUnfinished(keyed: Bytes -> (Opener, Bytes), came: Bytes) {
    |came| < ELL_SIZE
    || var terminator := keyed(came[..ELL_SIZE]).1;
       |came| < ELL_SIZE + MAX_GARBAGE_LEN + |terminator| && Find(came[ELL_SIZE..], terminator, 0).None?
  }

  ghost predicate OpeningRefused(keyed: Bytes -> (Opener, Bytes), came: Bytes) {
    && |came| >= ELL_SIZE
    && var terminator := keyed(came[..ELL_SIZE]).1;
       && |came| >= ELL_SIZE + MAX_GARBAGE_LEN + |terminator|
       && Find(came[ELL_SIZE..][..MAX_GARBAGE_LEN + |terminator|], terminator, 0).None?
  }

  /** The terminator found is found no earlier in what was sent up to it. */
  lemma FoundInOpening(garbage: Bytes, terminator: Bytes, rest: Bytes)
    requires Find(garbage + terminator + rest, terminator, 0) == Some(|garbage|)
    ensures Find(garbage + terminator, terminator, 0) == Some(|garbage|)
  {
    hide Find;
    var opening := garbage + terminator;
    assert Stands(opening, terminator, |garbage|);
    FindIsFirst(opening, terminator, 0);
    FindStable(opening, rest, terminator, 0);
  }

  /** The packet of that index opens, as a decoy or not. */
  ghost predicate OpensAs(cipher: Opener, received: Bytes, garbage: Bytes, index: nat, ignore: bool) {
    && End(cipher, received, index + 1).Some? && Nth(cipher, received, garbage, index).Some?
    && Nth(cipher, received, garbage, index).value.ignore == ignore
  }

  ghost predicate Decoys(cipher: Opener, received: Bytes, garbage: Bytes, n: nat) {
    forall i: nat :: i < n ==> OpensAs(cipher, received, garbage, i, true)
  }

  /** That packet opens, and is a decoy or decodes to nothing. */
  ghost predicate Passed(cipher: Opener, received: Bytes, garbage: Bytes, index: nat) {
    && End(cipher, received, index + 1).Some? && Nth(cipher, received, garbage, index).Some?
    && var packet := Nth(cipher, received, garbage, index).value;
       packet.ignore || cipher.decode(packet.contents).None?
  }

  ghost predicate AllPassed(cipher: Opener, received: Bytes, garbage: Bytes, from: nat, to: int) {
    forall i: nat :: from <= i < to ==> Passed(cipher, received, garbage, i)
  }

  lemma NonePassedBy(cipher: Opener, received: Bytes, garbage: Bytes, from: nat)
    ensures AllPassed(cipher, received, garbage, from, from)
  {
  }

  lemma OneMorePassed(cipher: Opener, received: Bytes, garbage: Bytes, from: nat, to: nat)
    requires AllPassed(cipher, received, garbage, from, to) && Passed(cipher, received, garbage, to)
    ensures AllPassed(cipher, received, garbage, from, to + 1)
  {
  }

  lemma PassedStable(cipher: Opener, before: Bytes, after: Bytes, garbage: Bytes, from: nat, to: nat)
    requires before <= after && AllPassed(cipher, before, garbage, from, to)
    ensures AllPassed(cipher, after, garbage, from, to)
  {
    hide End, Nth;
    assert after == before + after[|before|..];
    forall i: nat | from <= i < to ensures Passed(cipher, after, garbage, i) {
      assert Passed(cipher, before, garbage, i);
      EndStable(cipher, before, after[|before|..], i + 1);
      NthStable(cipher, before, after[|before|..], garbage, i);
    }
  }

  ghost predicate Opens(cipher: Opener, received: Bytes, garbage: Bytes, index: nat) {
    End(cipher, received, index + 1).Some? && Nth(cipher, received, garbage, index).Some?
  }

  /** The packets from one index up to another are whole and open. */
  ghost predicate AllOpened(cipher: Opener, received: Bytes, garbage: Bytes, from: nat, to: int) {
    forall i: nat :: from <= i < to ==> Opens(cipher, received, garbage, i)
  }

  /** Packets passed over, and the one after them that is a message. */
  lemma PassedOpened(cipher: Opener, received: Bytes, garbage: Bytes, from: nat, to: nat, message: bool)
    requires AllPassed(cipher, received, garbage, from, if message then to - 1 else to)
    requires message ==> to > 0 && OpensAs(cipher, received, garbage, to - 1, false)
    ensures AllOpened(cipher, received, garbage, from, to)
  {
    hide End, Nth;
    forall i: nat | from <= i < to ensures Opens(cipher, received, garbage, i) {
      if i < to - 1 || !message {
        assert Passed(cipher, received, garbage, i);
      }
    }
  }

  /** What was opened stays so, and what is opened after it joins it. */
  lemma OpenedOn(cipher: Opener, before: Bytes, after: Bytes, garbage: Bytes, from: nat, mid: nat, to: int)
    requires before <= after && AllOpened(cipher, before, garbage, from, mid)
    requires AllOpened(cipher, after, garbage, mid, to)
    ensures AllOpened(cipher, after, garbage, from, to)
  {
    hide End, Nth;
    assert after == before + after[|before|..];
    forall i: nat | from <= i < to ensures Opens(cipher, after, garbage, i) {
      if i < mid {
        assert Opens(cipher, before, garbage, i);
        EndStable(cipher, before, after[|before|..], i + 1);
        NthStable(cipher, before, after[|before|..], garbage, i);
      }
    }
  }

  lemma OneFewerOpened(cipher: Opener, received: Bytes, garbage: Bytes, from: nat, to: int)
    requires AllOpened(cipher, received, garbage, from, to)
    ensures AllOpened(cipher, received, garbage, from, to - 1)
  {
  }

  lemma NoneOpened(cipher: Opener, received: Bytes, garbage: Bytes, from: nat)
    ensures AllOpened(cipher, received, garbage, from, from)
  {
  }

  lemma OpensStable(cipher: Opener, before: Bytes, after: Bytes, garbage: Bytes, n: nat)
    requires before <= after && Decoys(cipher, before, garbage, n)
    ensures Decoys(cipher, after, garbage, n)
  {
    hide End, Nth;
    assert after == before + after[|before|..];
    forall i: nat | i < n ensures OpensAs(cipher, after, garbage, i, true) {
      assert OpensAs(cipher, before, garbage, i, true);
      EndStable(cipher, before, after[|before|..], i + 1);
      NthStable(cipher, before, after[|before|..], garbage, i);
    }
  }

  class Peer {
    const format: Format
    const nonce: Bytes -> Option<nat>
    var cipher: Option<Opener>
    var lengths: nat
    var packets: nat
    var buffer: Bytes
    var contentsLen: Option<nat>
    var aad: Bytes
    var messageCount: map<string, nat>
    var lastMessage: map<string, Message>
    var open: bool
    var incoming: seq<Arrival>
    var outbox: seq<Outgoing>
    /** Every octet read since the framing in use began, and the garbage read ahead of it. */
    ghost var received: Bytes
    ghost var garbage: Bytes
    /** How many packets the handshake read, and how many v1 messages have been. */
    ghost var handshaken: nat
    ghost var messages: nat
    /** Every message `receive` has returned. */
    ghost var returned: seq<Message>

    /** A connection opened or accepted, still speaking v1. */
    constructor (format: Format, nonce: Bytes -> Option<nat>, incoming: seq<Arrival>)
      requires Stable(format)
      ensures Valid() && returned == [] && outbox == [] && cipher.None? && received == []
      ensures this.format == format && this.nonce == nonce && this.incoming == incoming
    {
      hide Stable;
      this.format, this.nonce, this.incoming := format, nonce, incoming;
      cipher, lengths, packets, contentsLen := None, 0, 0, None;
      buffer, aad, open, outbox := [], [], true, [];
      messageCount, lastMessage := map[], map[];
      received, garbage, handshaken, messages, returned := [], [], 0, 0, [];
    }

    ghost predicate Reading()
      reads this
    {
      match cipher
      case None => V1At(format, received, buffer, messages)
      case Some(c) =>
        At(c, received, garbage, buffer, contentsLen, aad, lengths, packets) && handshaken <= packets
    }

    /** The messages the octets received so far come to. */
    ghost function Came(): seq<Message>
      requires Reading()
      reads this
    {
      match cipher
      case None => Messages(format, received, messages)
      case Some(c) => Kept(c, received, garbage, handshaken, packets)
    }

    /** Nothing is lost and nothing reordered: what was returned is what the octets come to. */
    ghost predicate Valid()
      reads this
    {
      Reading() && returned == Came() && Tallied(returned, messageCount, lastMessage)
    }

    /** Every octet from the start of the framing in use, those still to come included. */
    ghost function Total(): Bytes
      reads this`received, this`incoming
    {
      received + Coming(incoming)
    }

    /** Every octet read, and those ahead of the next pause. */
    ghost function Burst(): Bytes
      reads this`received, this`incoming
    {
      received + Ahead(incoming)
    }

    /** What a wait meets once all that is ahead of the next pause has been read. */
    ghost function Interrupted(): Error
      reads this`open, this`incoming
    {
      if !open then OSError else if NextPause(incoming).Quiet? then TimeoutError else ConnectionError
    }

    /** One read of the socket; no octets is the other side's close, which stays. */
    method Recv() returns (r: Result<Bytes>)
      modifies this`incoming, this`received
      ensures Total() == old(Total())
      ensures r.Ok? ==> received == old(received) + r.value && |r.value| <= CHUNK
      ensures r.Ok? && r.value != [] ==> Left(incoming) < old(Left(incoming))
      ensures r.Ok? ==> Left(incoming) + |r.value| <= old(Left(incoming))
      ensures r.Err? ==> received == old(received) && Left(incoming) <= old(Left(incoming))
      ensures r.Err? ==> r.error in [TimeoutError, ConnectionError, OSError]
      ensures r.Ok? && r.value != [] ==> open && Burst() == old(Burst()) && Interrupted() == old(Interrupted())
      ensures r.Err? || r.value == [] ==> open ==> received == old(Burst())
      ensures r.Ok? && r.value == [] ==> old(Interrupted()) == ConnectionError && open
      ensures r.Err? ==> r.error == old(Interrupted())
    {
      hide Left, Coming, Ahead, NextPause;
      if !open {
        return Err(OSError);
      }
      if incoming == [] {
        NothingAhead(incoming);
        return Err(TimeoutError);
      }
      var next, rest := incoming[0], incoming[1..];
      assert incoming == [next] + rest;
      if !next.Data? {
        Skipped(next, rest);
      }
      match next {
        case NothingYet =>
          incoming := rest;
          r := Err(TimeoutError);
        case Reset =>
          incoming := rest;
          r := Err(ConnectionError);
        case Data(octets) =>
          if octets == [] {
            NothingAhead(incoming);
            return Ok([]);
          }
          ReadRest(octets, rest, CHUNK);
          incoming := Unread(octets, rest, CHUNK);
          r := Ok(Read(octets, CHUNK));
          received := received + r.value;
      }
    }

    method RecvMore() returns (error: Option<Error>)
      modifies this`incoming, this`buffer, this`received
      ensures error.None? ==> open && Burst() == old(Burst()) && Interrupted() == old(Interrupted())
      ensures error.Some? ==> error.value == old(Interrupted()) && (open ==> received == old(Burst()))
      ensures Total() == old(Total())
      ensures old(received) <= received && buffer == old(buffer) + received[|old(received)|..]
      ensures error.None? ==> 0 < |received| - |old(received)| <= CHUNK && Left(incoming) < old(Left(incoming))
      ensures error.Some? ==> received == old(received)
      ensures Left(incoming) + |buffer| <= old(Left(incoming) + |buffer|)
      ensures error in [None, Some(TimeoutError), Some(ConnectionError), Some(OSError)]
    {
      var chunk := Recv();
      if chunk.Err? {
        return Some(chunk.error);
      }
      if chunk.value == [] {
        return Some(ConnectionError);
      }
      buffer := buffer + chunk.value;
      return None;
    }

    method Take(size: nat) returns (r: Result<Bytes>)
      modifies this`incoming, this`buffer, this`received
      ensures r.Ok? || r.error == ValueError ==> Burst() == old(Burst()) && Interrupted() == old(Interrupted())
      ensures r.Err? && r.error != ValueError ==> r.error == old(Interrupted()) && (open ==> received == old(Burst()))
      ensures Total() == old(Total())
      ensures old(received) <= received && Left(incoming) + |buffer| <= old(Left(incoming) + |buffer|)
      ensures var came := old(buffer) + received[|old(received)|..];
        match r
        case Ok(taken) => |taken| == size <= |came| && taken == came[..size] && buffer == came[size..]
                          && Left(incoming) + |buffer| + size <= old(Left(incoming) + |buffer|)
        case Err(e) => buffer == came && |buffer| < size && e in [TimeoutError, ConnectionError, OSError]
    {
      hide Total, Burst, Interrupted, Left;
      while |buffer| < size
        invariant Total() == old(Total()) && Burst() == old(Burst()) && Interrupted() == old(Interrupted())
        invariant old(received) <= received && buffer == old(buffer) + received[|old(received)|..]
        invariant Left(incoming) + |buffer| <= old(Left(incoming) + |buffer|)
        decreases Left(incoming)
      {
        ghost var before := received;
        var error := RecvMore();
        assert received[|old(received)|..] == before[|old(received)|..] + received[|before|..];
        if error.Some? {
          return Err(error.value);
        }
      }
      r := Ok(buffer[..size]);
      buffer := buffer[size..];
    }

    /** The length of the packet being read, asked of the cipher only once. */
    method TakeLength(c: Opener) returns (error: Option<Error>)
      requires cipher == Some(c) && Reading()
      modifies this`incoming, this`buffer, this`received, this`lengths, this`contentsLen
      ensures error.None? ==> Burst() == old(Burst()) && Interrupted() == old(Interrupted())
      ensures error.Some? ==> error.value == old(Interrupted()) && (open ==> received == old(Burst()))
      ensures Total() == old(Total())
      ensures Reading() && old(received) <= received
      ensures Left(incoming) + |buffer| <= old(Left(incoming) + |buffer|)
      ensures error.None? ==> contentsLen.Some? && lengths == packets + 1
      ensures error.Some? ==>
        End(c, received, packets + 1).None? && error.value in [TimeoutError, ConnectionError, OSError]
    {
      hide End, Total, Burst, Interrupted, Left;
      if contentsLen.Some? {
        return None;
      }
      ghost var before, held := received, buffer;
      var taken := Take(LENGTH_LEN);
      ghost var more := received[|before|..];
      assert received == before + more;
      AtGrows(c, before, more, garbage, held, None, aad, lengths, packets);
      if taken.Err? {
        AtShort(c, received, garbage, buffer, None, aad, lengths, packets);
        return Some(taken.error);
      }
      AtLength(c, received, garbage, held + more, aad, packets);
      contentsLen := Some(c.openLength(lengths, taken.value));
      lengths := lengths + 1;
      return None;
    }

    /** The next packet, or why it could not be read; only a failed authentication moves past it. */
    method ReceivePacket(c: Opener) returns (r: Result<Packet>)
      requires cipher == Some(c) && Reading()
      modifies this`incoming, this`buffer, this`received, this`lengths, this`contentsLen, this`aad, this`packets
      ensures r.Ok? || r.error == ValueError ==> Burst() == old(Burst()) && Interrupted() == old(Interrupted())
      ensures r.Err? && r.error != ValueError ==> r.error == old(Interrupted()) && (open ==> received == old(Burst()))
      ensures Total() == old(Total())
      ensures Reading() && old(received) <= received
      ensures match r
        case Ok(packet) => packets == old(packets) + 1 && Nth(c, received, garbage, old(packets)) == Some(packet)
        case Err(ValueError) => packets == old(packets) + 1 && Nth(c, received, garbage, old(packets)) == None
        case Err(e) => packets == old(packets) && End(c, received, packets + 1).None?
                       && e in [TimeoutError, ConnectionError, OSError]
      ensures Left(incoming) + |buffer| <= old(Left(incoming) + |buffer|)
      ensures packets > old(packets) ==> Left(incoming) + |buffer| < old(Left(incoming) + |buffer|)
    {
      hide End, Nth, At, Total, Burst, Interrupted, Left;
      var error := TakeLength(c);
      if error.Some? {
        return Err(error.value);
      }
      ghost var before, held := received, buffer;
      var length := contentsLen.value;
      var taken := Take(HEADER_LEN + length + TAG_LEN);
      ghost var more := received[|before|..];
      assert received == before + more;
      AtGrows(c, before, more, garbage, held, contentsLen, aad, lengths, packets);
      if taken.Err? {
        AtShort(c, received, garbage, buffer, contentsLen, aad, lengths, packets);
        return Err(taken.error);
      }
      AtPacket(c, received, garbage, held + more, length, aad, packets);
      contentsLen := None;
      var used := aad;
      aad := [];
      var unsealed := c.open(packets, taken.value, used);
      packets := packets + 1;
      r := if unsealed.None? then Err(ValueError) else Ok(unsealed.value);
    }

    /** The next message: decoys, and contents that do not decode, are dropped. */
    method ReceiveV2(c: Opener) returns (r: Result<Message>)
      requires cipher == Some(c) && Reading()
      modifies this`incoming, this`buffer, this`received, this`lengths, this`contentsLen, this`aad, this`packets
      ensures r.Ok? || r.error == ValueError ==> Burst() == old(Burst()) && Interrupted() == old(Interrupted())
      ensures r.Err? && r.error != ValueError ==> r.error == old(Interrupted()) && (open ==> received == old(Burst()))
      ensures Total() == old(Total())
      ensures Reading() && old(received) <= received
      ensures Came() == old(Came()) + if r.Ok? then [r.value] else []
      ensures r.Err? && r.error != ValueError ==>
        End(c, received, packets + 1).None? && r.error in [TimeoutError, ConnectionError, OSError]
      ensures r == Err(ValueError) ==>
        packets > 0 && End(c, received, packets).Some? && Nth(c, received, garbage, packets - 1).None?
      ensures packets >= old(packets) + if r.Ok? || r.error == ValueError then 1 else 0
      ensures AllPassed(
                c, received, garbage, old(packets),
                if r.Ok? || r.error == ValueError then packets - 1 else packets)
      ensures r.Ok? ==> packets > 0 && OpensAs(c, received, garbage, packets - 1, false)
      ensures r.Ok? ==> c.decode(Nth(c, received, garbage, packets - 1).value.contents) == Some(r.value)
    {
      hide End, Nth, Kept, Total, Burst, Interrupted, Left, AllPassed;
      assert AllPassed(c, received, garbage, packets, packets) by { NonePassedBy(c, received, garbage, packets); }
      while true
        invariant Total() == old(Total()) && Burst() == old(Burst()) && Interrupted() == old(Interrupted())
        invariant Reading() && old(received) <= received && Came() == old(Came())
        invariant packets >= old(packets) && AllPassed(c, received, garbage, old(packets), packets)
        decreases Left(incoming) + |buffer|
      {
        ghost var before, n := received, packets;
        var packet := ReceivePacket(c);
        PassedStable(c, before, received, garbage, old(packets), n);
        if packet.Err? {
          if packet.error == ValueError {
            CameOneMore(c, before, received, garbage, handshaken, n);
          } else {
            CameSame(c, before, received, garbage, handshaken, n);
          }
          return Err(packet.error);
        }
        CameOneMore(c, before, received, garbage, handshaken, n);
        if !packet.value.ignore {
          var message := c.decode(packet.value.contents);
          if message.Some? {
            return Ok(message.value);
          }
        }
        OneMorePassed(c, received, garbage, old(packets), n);
      }
    }

    /** The next message: the magic is looked at as soon as it is there. */
    method ReceiveV1() returns (r: Result<Message>)
      requires cipher.None? && Reading()
      modifies this`incoming, this`buffer, this`received, this`messages
      ensures r.Ok? || r.error == ValueError ==> Burst() == old(Burst()) && Interrupted() == old(Interrupted())
      ensures r.Err? && r.error != ValueError ==> r.error == old(Interrupted()) && (open ==> received == old(Burst()))
      ensures Total() == old(Total())
      ensures Reading() && old(received) <= received
      ensures Came() == old(Came()) + if r.Ok? then [r.value] else []
      ensures r == Err(ValueError) ==> Next(format, buffer).Refused?
      ensures r.Err? && r.error != ValueError ==> |buffer| < |format.magic| || format.magic <= buffer
      ensures r.Err? && r.error != ValueError ==>
        Next(format, buffer).Incomplete? && r.error in [TimeoutError, ConnectionError, OSError]
    {
      hide MessagesEnd, Messages, Next, V1At, Total, Burst, Interrupted, Left;
      while true
        invariant Total() == old(Total()) && Burst() == old(Burst()) && Interrupted() == old(Interrupted())
        invariant Reading() && old(received) <= received && Came() == old(Came()) && messages == old(messages)
        decreases Left(incoming)
      {
        match Next(format, buffer) {
          case Refused => return Err(ValueError);
          case Whole(message, size) =>
            V1Message(format, received, buffer, messages);
            buffer := buffer[size..];
            messages := messages + 1;
            return Ok(message);
          case Incomplete =>
            MagicFirst(format, buffer);
            ghost var before, held := received, buffer;
            var error := RecvMore();
            assert received == before + received[|before|..];
            V1Grows(format, before, received[|before|..], held, messages);
            if error.Some? {
              assert received[|before|..] == [] && buffer == held;
              return Err(error.value);
            }
        }
      }
    }

    method ReceiveNext() returns (r: Result<Message>)
      requires Reading()
      modifies this`incoming, this`buffer, this`received, this`lengths, this`contentsLen, this`aad, this`packets
      modifies this`messages
      ensures r.Ok? || r.error == ValueError ==> Burst() == old(Burst()) && Interrupted() == old(Interrupted())
      ensures r.Err? && r.error != ValueError ==> r.error == old(Interrupted()) && (open ==> received == old(Burst()))
      ensures Total() == old(Total())
      ensures Reading() && old(received) <= received
      ensures Came() == old(Came()) + if r.Ok? then [r.value] else []
      ensures r.Err? && r.error != ValueError ==> Waiting()
      ensures r == Err(ValueError) ==> Broken()
      ensures packets >= old(packets)
      ensures cipher.Some? ==>
        AllOpened(
          cipher.value, received, garbage, old(packets),
          if r == Err(ValueError) && Broken() then packets - 1 else packets)
      ensures r.Err? ==> r.error in [ValueError, TimeoutError, ConnectionError, OSError]
    {
      hide V1At, At, Next, Left, End, Nth, Kept, MessagesEnd, Messages, Total, Burst, Interrupted, AllOpened, AllPassed,
           OpensAs;
      if cipher.None? {
        r := ReceiveV1();
      } else {
        r := ReceiveV2(cipher.value);
        PassedOpened(
          cipher.value, received, garbage, old(packets),
          if r == Err(ValueError) then packets - 1 else packets, r.Ok?);
      }
    }

    /** The octets received end inside a message or packet. */
    ghost predicate Waiting()
      reads this
    {
      match cipher
      case None => Next(format, buffer).Incomplete?
      case Some(c) => End(c, received, packets + 1).None?
    }

    /**
      The octets received do not parse: the wrong magic or a message that is refused, or a packet that does not open.
     */
    ghost predicate Broken()
      reads this
    {
      match cipher
      case None => Next(format, buffer).Refused?
      case Some(c) =>
        packets > 0 && End(c, received, packets).Some? && Nth(c, received, garbage, packets - 1).None?
    }

    method Record(m: Message)
      requires Tallied(returned, messageCount, lastMessage)
      modifies this`messageCount, this`lastMessage, this`returned
      ensures Tallied(returned, messageCount, lastMessage) && returned == old(returned) + [m]
    {
      hide Tallied;
      TallyNext(returned, m, messageCount, lastMessage);
      var seen := if m.command in messageCount then messageCount[m.command] else 0;
      messageCount := messageCount[m.command := seen + 1];
      lastMessage := lastMessage[m.command := m];
      returned := returned + [m];
    }

    /** `receive`: the next message, tallied; no wait is reported while a whole message is there. */
    method Receive() returns (r: Result<Message>)
      requires Valid()
      modifies this`incoming, this`buffer, this`received, this`lengths, this`contentsLen, this`aad, this`packets,
               this`messages, this`messageCount, this`lastMessage, this`returned
      ensures r.Ok? || r.error == ValueError ==> Burst() == old(Burst()) && Interrupted() == old(Interrupted())
      ensures r.Err? && r.error != ValueError ==> r.error == old(Interrupted()) && (open ==> received == old(Burst()))
      ensures Total() == old(Total())
      ensures Valid() && old(received) <= received
      ensures returned == old(returned) + if r.Ok? then [r.value] else []
      ensures r.Err? && r.error != ValueError ==> Waiting()
      ensures r == Err(ValueError) ==> Broken()
      ensures packets >= old(packets)
      ensures cipher.Some? ==>
        AllOpened(
          cipher.value, received, garbage, old(packets),
          if r == Err(ValueError) && Broken() then packets - 1 else packets)
      ensures r.Err? ==> r.error in [ValueError, TimeoutError, ConnectionError, OSError]
    {
      hide V1At, At, Next, Tallied, End, Kept, MessagesEnd, Messages, Total, Burst, Interrupted, Left;
      r := ReceiveNext();
      if r.Ok? {
        Record(r.value);
      }
    }

    /** Octets kept for `receive`, as they would have been read by it. */
    method Absorb(chunk: Bytes, ghost before: Bytes)
      requires received == before + chunk
      requires match cipher
        case None => V1At(format, before, buffer, messages) && returned == Messages(format, before, messages)
        case Some(c) =>
          && At(c, before, garbage, buffer, contentsLen, aad, lengths, packets) && handshaken <= packets
          && returned == Kept(c, before, garbage, handshaken, packets)
      modifies this`buffer
      ensures Reading() && returned == Came()
    {
      hide End, Kept, MessagesEnd, Messages, V1At;
      match cipher {
        case None =>
          V1Grows(format, before, chunk, buffer, messages);
        case Some(c) =>
          AtGrows(c, before, chunk, garbage, buffer, contentsLen, aad, lengths, packets);
          CameSame(c, before, received, garbage, handshaken, packets);
      }
      buffer := buffer + chunk;
    }

    /** `is_connected`: read without waiting, the octets kept. */
    method IsConnected() returns (connected: bool)
      requires Valid()
      modifies this`incoming, this`buffer, this`received
      ensures Valid() && old(received) <= received && Total() == old(Total())
      ensures connected <==> old(Interrupted()) == TimeoutError
      ensures open ==> received == old(Burst())
    {
      hide At, V1At, End, Kept, MessagesEnd, Messages, Tallied, Left, Ahead, NextPause, Total, Burst;
      if !open {
        return false;
      }
      while true
        invariant Valid() && old(received) <= received && Total() == old(Total())
        invariant Burst() == old(Burst()) && Interrupted() == old(Interrupted())
        decreases Left(incoming)
      {
        ghost var before := received;
        var chunk := Recv();
        if chunk.Err? {
          return chunk.error == TimeoutError;
        }
        if chunk.value == [] {
          assert received == before;
          return false;
        }
        Absorb(chunk.value, before);
      }
    }

    /** One round of a wait: the next message, a ping answered with its own nonce. */
    method ReceiveAnswering() returns (r: Result<Message>)
      requires Valid()
      modifies this`incoming, this`buffer, this`received, this`lengths, this`contentsLen, this`aad, this`packets,
               this`messages, this`messageCount, this`lastMessage, this`returned, this`outbox
      ensures r.Ok? || r.error == ValueError ==> Burst() == old(Burst()) && Interrupted() == old(Interrupted())
      ensures r.Err? && r.error != ValueError ==> r.error == old(Interrupted()) && (open ==> received == old(Burst()))
      ensures Valid() && old(received) <= received && Total() == old(Total())
      ensures match r
        case Ok(m) =>
          returned == old(returned) + [m] && outbox == old(outbox) + Answers(nonce, m) && !BadPing(nonce, m)
        case Err(ValueError) =>
          || (returned == old(returned) && outbox == old(outbox) && Broken())
          || (|returned| == |old(returned)| + 1 && old(returned) <= returned && outbox == old(outbox)
              && BadPing(nonce, returned[|old(returned)|]))
        case Err(e) =>
          && e in [TimeoutError, ConnectionError, OSError] && returned == old(returned) && outbox == old(outbox)
          && Waiting()
      ensures packets >= old(packets)
      ensures cipher.Some? ==>
        AllOpened(
          cipher.value, received, garbage, old(packets),
          if r == Err(ValueError) && Broken() then packets - 1 else packets)
    {
      hide At, V1At, End, Kept, MessagesEnd, Messages, Tallied, Left, Next, Total, Burst, Interrupted;
      r := Receive();
      if r.Ok? && r.value.command == PING {
        var answered := nonce(r.value.payload);
        if answered.None? {
          return Err(ValueError);
        }
        outbox := outbox + [Pong(answered.value)];
      }
    }

    /** `wait_for`: its deadline passes before the read after `rounds` of them; a test that raises answers `None`. */
    method WaitFor(command: string, matches: Message -> Option<bool>, rounds: nat) returns (r: Result<Message>)
      requires Valid()
      modifies this`incoming, this`buffer, this`received, this`lengths, this`contentsLen, this`aad, this`packets,
               this`messages, this`messageCount, this`lastMessage, this`returned, this`outbox
      ensures Valid() && old(received) <= received && Total() == old(Total())
      ensures old(returned) <= returned && outbox == old(outbox) + Pongs(nonce, returned[|old(returned)|..])
      ensures r.Ok? <==> exists m :: m in returned[|old(returned)|..] && Awaited(nonce, command, matches, m)
      ensures var new_ := returned[|old(returned)|..];
        match r
        case Ok(m) => new_ != [] && new_[|new_| - 1] == m && Awaited(nonce, command, matches, m)
                      && PassedOver(nonce, command, matches, new_[..|new_| - 1])
        case Err(ValueError) =>
          || (PassedOver(nonce, command, matches, new_) && Broken())
          || (new_ != [] && PassedOver(nonce, command, matches, new_[..|new_| - 1])
              && Unreadable(nonce, command, matches, new_[|new_| - 1]))
        case Err(e) =>
          e in [TimeoutError, ConnectionError, OSError] && PassedOver(nonce, command, matches, new_)
      ensures r.Ok? ==> |returned| - |old(returned)| <= rounds
      ensures r.Err? && r.error != ValueError ==>
        || (r.error == TimeoutError && |returned| - |old(returned)| == rounds)
        || (r.error == old(Interrupted()) && (open ==> received == old(Burst())) && Waiting())
      ensures packets >= old(packets)
      ensures cipher.Some? ==>
        AllOpened(
          cipher.value, received, garbage, old(packets),
          if r == Err(ValueError) && Broken() then packets - 1 else packets)
    {
      hide Valid, Pongs, Answers, Left, Total, Burst, Interrupted, Broken, Waiting, Awaited, Unreadable, PassedOver,
           BadPing, AllOpened;
      ghost var start := |returned|;
      assert returned[start..] == [];
      PongsOfNone(nonce);
      NonePassed(nonce, command, matches);
      if cipher.Some? {
        NoneOpened(cipher.value, received, garbage, packets);
      }
      for round := 0 to rounds
        invariant Burst() == old(Burst()) && Interrupted() == old(Interrupted()) && |returned| == start + round
        invariant Valid() && old(received) <= received && Total() == old(Total())
        invariant old(returned) <= returned && outbox == old(outbox) + Pongs(nonce, returned[start..])
        invariant PassedOver(nonce, command, matches, returned[start..]) && packets >= old(packets)
        invariant cipher.Some? ==> AllOpened(cipher.value, received, garbage, old(packets), packets)
      {
        ghost var seen, before, n := returned[start..], received, packets;
        var message := ReceiveAnswering();
        if cipher.Some? {
          OpenedOn(cipher.value, before, received, garbage, old(packets), n,
                   if message == Err(ValueError) && Broken() then packets - 1 else packets);
        }
        if message.Err? {
          if |returned| > start + |seen| {
            ghost var bad := returned[start + |seen|];
            assert returned[start..] == seen + [bad];
            Judged(nonce, command, matches, bad);
            OneMore(nonce, command, matches, seen, bad);
          } else {
            assert returned[start..] == seen;
            NoneAwaited(nonce, command, matches, seen);
          }
          return Err(message.error);
        }
        var m := message.value;
        assert returned[start..] == seen + [m];
        Judged(nonce, command, matches, m);
        OneMore(nonce, command, matches, seen, m);
        if m.command == command {
          var matched := matches(m);
          if matched.None? {
            if cipher.Some? {
              OneFewerOpened(cipher.value, received, garbage, old(packets), packets);
            }
            return Err(ValueError);
          }
          if matched.value {
            return Ok(m);
          }
        }
      }
      NoneAwaited(nonce, command, matches, returned[start..]);
      return Err(TimeoutError);
    }

    /** `sync_with_ping`, with the nonce drawn. */
    method SyncWithPing(drawn: nat, rounds: nat) returns (r: Result<Message>)
      requires Valid() && drawn != 0
      modifies this`incoming, this`buffer, this`received, this`lengths, this`contentsLen, this`aad, this`packets,
               this`messages, this`messageCount, this`lastMessage, this`returned, this`outbox
      ensures Valid() && old(received) <= received && Total() == old(Total())
      ensures old(returned) <= returned
      ensures outbox == old(outbox) + [Ping(0), Ping(drawn)] + Pongs(nonce, returned[|old(returned)|..])
      ensures r.Ok? ==> |returned| > |old(returned)| && IsPong(nonce, returned[|returned| - 1], drawn)
      ensures r.Ok? <==> exists m :: m in returned[|old(returned)|..] && IsPong(nonce, m, drawn)
      ensures r == Err(ValueError) ==>
        Broken() || (|returned| > |old(returned)| && Malformed(nonce, returned[|returned| - 1]))
      ensures r.Err? && r.error != ValueError ==>
        && (forall m :: m in returned[|old(returned)|..] ==> !Malformed(nonce, m))
        && (|| (r.error == TimeoutError && |returned| - |old(returned)| == rounds)
            || (r.error == old(Interrupted()) && (open ==> received == old(Burst())) && Waiting()))
      ensures packets >= old(packets)
      ensures cipher.Some? ==>
        AllOpened(
          cipher.value, received, garbage, old(packets),
          if r == Err(ValueError) && Broken() then packets - 1 else packets)
    {
      hide Pongs, At, V1At, End, Kept, MessagesEnd, Messages, Tallied, Broken, Waiting, Awaited, Unreadable, IsPong,
           Malformed, PongTest, Interrupted, Burst, Total;
      PongsAwaited(nonce, drawn);
      outbox := outbox + [Ping(0), Ping(drawn)];
      r := WaitFor(PONG, PongTest(nonce, drawn), rounds);
    }

    /** Whether the connection opens with v1's `version` header, read up to the first octet that differs. */
    method OpensWithV1Version(prefix: Bytes) returns (r: Result<bool>)
      modifies this`incoming, this`buffer, this`received
      ensures r.Ok? || r.error == ValueError ==> Burst() == old(Burst()) && Interrupted() == old(Interrupted())
      ensures r.Err? && r.error != ValueError ==> r.error == old(Interrupted()) && (open ==> received == old(Burst()))
      ensures Total() == old(Total())
      ensures old(received) <= received && buffer == old(buffer) + received[|old(received)|..]
      ensures match r
        case Ok(true) => prefix <= buffer
        case Ok(false) => !(prefix <= buffer) && !(buffer <= prefix)
        case Err(_) => buffer < prefix
    {
      hide Total, Burst, Interrupted, Left;
      assert received[|received|..] == [];
      while true
        invariant Total() == old(Total()) && Burst() == old(Burst()) && Interrupted() == old(Interrupted())
        invariant old(received) <= received && buffer == old(buffer) + received[|old(received)|..]
        decreases Left(incoming)
      {
        var head := if |buffer| < |prefix| then buffer else buffer[..|prefix|];
        if !(head <= prefix) {
          return Ok(false);
        }
        if head == prefix {
          return Ok(true);
        }
        ghost var before := received;
        var error := RecvMore();
        assert received[|old(received)|..] == before[|old(received)|..] + received[|before|..];
        if error.Some? {
          return Err(error.value);
        }
      }
    }

    /** The garbage ahead of its terminator, both consumed; an error names why there is none. */
    method TakeGarbage(terminator: Bytes) returns (r: Result<Bytes>)
      modifies this`incoming, this`buffer, this`received
      ensures r.Ok? || r.error == ValueError ==> Burst() == old(Burst()) && Interrupted() == old(Interrupted())
      ensures r.Err? && r.error != ValueError ==> r.error == old(Interrupted()) && (open ==> received == old(Burst()))
      ensures Total() == old(Total()) && old(received) <= received
      ensures var came := old(buffer) + received[|old(received)|..];
        match r
        case Ok(g) =>
          came == g + terminator + buffer && Find(came, terminator, 0) == Some(|g|) && |g| <= MAX_GARBAGE_LEN
        case Err(ValueError) => buffer == came && |came| >= MAX_GARBAGE_LEN + |terminator|
                                && Find(came[..MAX_GARBAGE_LEN + |terminator|], terminator, 0).None?
        case Err(_) => buffer == came && |came| < MAX_GARBAGE_LEN + |terminator| && Find(came, terminator, 0).None?
    {
      hide Find, Total, Burst, Interrupted, Left;
      assert received[|received|..] == [];
      var limit := MAX_GARBAGE_LEN + |terminator|;
      while true
        invariant Total() == old(Total()) && Burst() == old(Burst()) && Interrupted() == old(Interrupted())
        invariant old(received) <= received && buffer == old(buffer) + received[|old(received)|..]
        decreases Left(incoming)
      {
        var searched := Searched(buffer, terminator);
        var end := Find(searched, terminator, 0);
        if end.Some? {
          Split(buffer, terminator, end.value);
          r := Ok(buffer[..end.value]);
          buffer := buffer[end.value + |terminator|..];
          return;
        }
        if |buffer| >= limit {
          return Err(ValueError);
        }
        ghost var before := received;
        var error := RecvMore();
        assert received[|old(received)|..] == before[|old(received)|..] + received[|before|..];
        if error.Some? {
          return Err(error.value);
        }
      }
    }

    /** The other side's key, then its garbage and terminator; what the key makes of the ciphers is `keyed`. */
    method TakeOpening(keyed: Bytes -> (Opener, Bytes)) returns (r: Result<(Bytes, Bytes)>)
      modifies this`incoming, this`buffer, this`received
      ensures Total() == old(Total()) && old(received) <= received
      ensures r.Ok? || r.error == ValueError ==> Burst() == old(Burst()) && Interrupted() == old(Interrupted())
      ensures r.Err? && r.error != ValueError ==> r.error == old(Interrupted()) && (open ==> received == old(Burst()))
      ensures
        var came := old(buffer) + received[|old(received)|..];
        match r
        case Ok((key, found)) =>
          var terminator := keyed(key).1;
          && came == key + (found + terminator + buffer)
          && |key| == ELL_SIZE && |found| <= MAX_GARBAGE_LEN
          && Find(found + terminator, terminator, 0) == Some(|found|)
        case Err(e) => if e == ValueError then OpeningRefused(keyed, came) else OpeningUnfinished(keyed, came)
    {
      hide Find, Left, Coming, Total, Burst, Interrupted;
      ghost var start, first := received, buffer;
      var key := Take(ELL_SIZE);
      ghost var before, held := received, buffer;
      ghost var opening := first + before[|start|..];
      if key.Err? {
        assert opening == held && OpeningUnfinished(keyed, opening);
        return Err(key.error);
      }
      assert opening == key.value + held;
      var found := TakeGarbage(keyed(key.value).1);
      ghost var came := held + received[|before|..];
      assert received[|start|..] == before[|start|..] + received[|before|..];
      assert first + received[|start|..] == key.value + came;
      assert (key.value + came)[..ELL_SIZE] == key.value && (key.value + came)[ELL_SIZE..] == came;
      if found.Err? {
        return Err(found.error);
      }
      FoundInOpening(found.value, keyed(key.value).1, buffer);
      return Ok((key.value, found.value));
    }

    /** From here on the octets are packets, the first of them authenticating the garbage. */
    method StartV2(c: Opener, found: Bytes)
      modifies this`cipher, this`lengths, this`packets, this`contentsLen, this`garbage, this`aad, this`received
      modifies this`handshaken
      ensures cipher == Some(c) && packets == 0 && handshaken == 0
      ensures garbage == found && received == buffer && Reading()
    {
      cipher, lengths, packets, contentsLen := Some(c), 0, 0, None;
      garbage, aad, handshaken := found, found, 0;
      received := buffer;
    }

    /** The other side's decoys, then its version packet. */
    method ReadVersion(c: Opener) returns (error: Option<Error>)
      requires cipher == Some(c) && Reading() && packets == 0 && handshaken == 0
      modifies this`incoming, this`buffer, this`received, this`lengths, this`contentsLen, this`aad, this`packets,
               this`handshaken
      ensures Reading() && Total() == old(Total()) && handshaken == packets
      ensures error.None? ==>
        packets > 0 && OpensAs(c, received, garbage, packets - 1, false) && Decoys(c, received, garbage, packets - 1)
      ensures error == Some(ValueError) ==> packets > 0 && Nth(c, received, garbage, packets - 1).None?
      ensures error.Some? && error.value != ValueError ==>
        && End(c, received, packets + 1).None?
        && error.value == old(Interrupted()) && (open ==> received == old(Burst()))
    {
      hide Left, At, End, Nth, Coming, Burst, Interrupted;
      while true
        invariant Reading() && Total() == old(Total()) && handshaken == packets && Decoys(c, received, garbage, packets)
        invariant Burst() == old(Burst()) && Interrupted() == old(Interrupted())
        decreases Left(incoming) + |buffer|
      {
        ghost var before, n := received, packets;
        var packet := ReceivePacket(c);
        OpensStable(c, before, received, garbage, n);
        handshaken := packets;
        if packet.Err? {
          return Some(packet.error);
        }
        AtEnd();
        if !packet.value.ignore {
          return None;
        }
      }
    }

    lemma AtEnd()
      requires cipher.Some? && Reading()
      ensures End(cipher.value, received, packets).Some?
    {
    }

    lemma NothingCame()
      requires cipher.Some? && Reading() && handshaken == packets
      ensures Came() == []
    {
    }

    /** Up to the first packet: `start` is what the key, the garbage and the terminator took of what `came`. */
    method OpenV2(keyed: Bytes -> (Opener, Bytes))
      returns (error: Option<Error>, ghost key: Bytes, ghost came: Bytes, ghost start: Bytes)
      requires buffer == received && cipher.None?
      modifies this`incoming, this`buffer, this`received, this`cipher, this`lengths, this`packets, this`contentsLen,
               this`garbage, this`aad, this`handshaken
      ensures came + Coming(incoming) == old(Total())
      ensures error.None? ==>
        && came == start + received && start == key + (garbage + keyed(key).1) && |key| == ELL_SIZE
        && cipher == Some(keyed(key).0) && packets == 0 && handshaken == 0 && Reading()
        && |garbage| <= MAX_GARBAGE_LEN && Find(garbage + keyed(key).1, keyed(key).1, 0) == Some(|garbage|)
        && start + Burst() == old(Burst()) && start + Total() == old(Total()) && Interrupted() == old(Interrupted())
      ensures error.Some? ==> cipher.None?
      ensures error == Some(ValueError) ==> OpeningRefused(keyed, came)
      ensures error.Some? && error.value != ValueError ==>
        error.value == old(Interrupted()) && (open ==> came == old(Burst())) && OpeningUnfinished(keyed, came)
    {
      hide Find, Coming, Ahead, NextPause, OpeningRefused, OpeningUnfinished, Interrupted, Reading;
      key, start := [], [];
      ghost var before := received;
      var opening := TakeOpening(keyed);
      came := received;
      assert received == before + received[|before|..];
      if opening.Err? {
        return Some(opening.error), key, came, start;
      }
      key := opening.value.0;
      var theirs, found := keyed(opening.value.0), opening.value.1;
      start := key + (found + theirs.1);
      assert came == start + buffer;
      assert start + (buffer + Coming(incoming)) == came + Coming(incoming);
      assert start + (buffer + Ahead(incoming)) == came + Ahead(incoming);
      StartV2(theirs.0, found);
      error := None;
    }

    /**
      The reading half of the handshake: it ends with the version packet, and takes no octet past it. `came` is
      every octet read for it. It raises ValueError where there is no terminator within the bound or a packet fails
      authentication, and what the socket has next where that comes before the version packet is whole.
     */
    method ReadHandshake(keyed: Bytes -> (Opener, Bytes))
      returns (error: Option<Error>, ghost key: Bytes, ghost came: Bytes)
      requires Valid() && cipher.None? && returned == [] && messages == 0
      modifies this
      ensures outbox == old(outbox) && open == old(open) && returned == []
      ensures came + Coming(incoming) == old(Total())
      ensures cipher.Some? ==>
        && Reading() && |key| == ELL_SIZE && cipher == Some(keyed(key).0) && |garbage| <= MAX_GARBAGE_LEN
        && Find(garbage + keyed(key).1, keyed(key).1, 0) == Some(|garbage|)
        && came == key + (garbage + keyed(key).1) + received && handshaken == packets
      ensures error.None? ==>
        && Valid() && cipher.Some? && 0 < packets && OpensAs(cipher.value, received, garbage, packets - 1, false)
        && Decoys(cipher.value, received, garbage, packets - 1)
      ensures error == Some(ValueError) ==>
        if cipher.None? then OpeningRefused(keyed, came)
        else
          && packets > 0 && End(cipher.value, received, packets).Some?
          && Nth(cipher.value, received, garbage, packets - 1).None?
      ensures error.Some? && error.value != ValueError ==>
        && error.value == old(Interrupted()) && (open ==> came == old(Burst()))
        && if cipher.None? then OpeningUnfinished(keyed, came) else End(cipher.value, received, packets + 1).None?
    {
      hide Left, Reading, Coming, Find, Tallied, Came, Decoys, OpensAs, OpeningRefused, OpeningUnfinished, Total, Burst,
           Interrupted, End, Nth;
      assert buffer == received by { AtStart(); }
      ghost var start;
      error, key, came, start := OpenV2(keyed);
      if error.Some? {
        return;
      }
      error := ReadVersion(cipher.value);
      came := start + received;
      TotalAfter(start);
      NothingCame();
      AtEnd();
    }

    lemma TotalAfter(start: Bytes)
      ensures start + received + Coming(incoming) == start + Total()
    {
    }

    lemma AtStart()
      requires Valid() && cipher.None? && messages == 0
      ensures buffer == received
    {
    }
  }

  /**
    The messages `receive` has returned, whatever the chunks, timeouts and probes were, when the other side
    sent honest packets: those of the first packets after the handshake, decoys and contents that do not
    decode dropped; and each cipher has moved on exactly once per packet.
   */
  lemma HonestReturned(peer: Peer, sender: Sealer, sent: seq<Packet>) returns (places: seq<nat>)
    requires peer.Valid() && peer.cipher.Some? && Paired(peer.cipher.value, sender) && Fits(sent)
    requires peer.received <= Stream(sender, sent, peer.garbage)
    ensures peer.handshaken <= peer.packets <= |sent|
    ensures peer.returned == CarriedBy(peer.cipher.value, sent[peer.handshaken..peer.packets])
    ensures MessagesAt(peer.cipher.value, sent[peer.handshaken..peer.packets], peer.returned, places)
    ensures peer.lengths == peer.packets + if peer.contentsLen.Some? then 1 else 0
  {
    hide Paired, Fits, Kept, Stream, CarriedBy, Tallied, Nth, MessagesAt;
    ReceivedPrefix(peer.cipher.value, sender, sent, peer.garbage, peer.received, peer.handshaken, peer.packets);
    places := CarriedExactly(peer.cipher.value, sent[peer.handshaken..peer.packets]);
  }

  /** Once all of an honest stream has arrived, a wait is reported only when every packet has been read. */
  lemma HonestComplete(peer: Peer, sender: Sealer, sent: seq<Packet>)
    requires peer.Valid() && peer.cipher.Some? && Paired(peer.cipher.value, sender) && Fits(sent)
    requires peer.received == Stream(sender, sent, peer.garbage)
    ensures peer.Waiting() <==> peer.packets == |sent|
  {
    hide Paired, Fits, Kept, Stream, CarriedBy, Tallied, Nth, End;
    var _ := HonestReturned(peer, sender, sent);
    if peer.packets < |sent| {
      FirstPackets(peer.cipher.value, sender, sent, peer.garbage, peer.packets + 1);
    } else {
      NothingPast(peer.cipher.value, sender, sent, peer.garbage, |sent| + 1);
    }
  }
}
