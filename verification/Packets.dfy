/**
  BIP324 packets as one side reads them off a stream. A cipher is known only by what it answers for a
  packet index; reading is specified on the whole stream, whatever chunks it came in.
 */
module Packets {
  import opened Octets
  import opened Wrappers

  datatype Message = Message(command: string, payload: Bytes)

  /** A packet's contents, and whether it is a decoy. */
  datatype Packet = Packet(contents: Bytes, ignore: bool)

  /** The receiving half of a cipher, by packet index, and the decoding of a packet's contents. */
  datatype Opener = Opener(
    openLength: (nat, Bytes) -> nat,
    open: (nat, Bytes, Bytes) -> Option<Packet>,
    decode: Bytes -> Option<Message>)

  /** The sending half. */
  datatype Sealer = Sealer(
    sealLength: (nat, nat) -> Bytes,
    seal: (nat, Packet, Bytes) -> Bytes)

  const LENGTH_LEN: nat := 3
  const HEADER_LEN: nat := 1
  const TAG_LEN: nat := 16

  /** The first packet authenticates the garbage, every later one nothing. */
  function Aad(garbage: Bytes, index: nat): Bytes {
    if index == 0 then garbage else []
  }

  /** Where the packet at `start` ends, once all of it is there. */
  function PacketEnd(cipher: Opener, stream: Bytes, index: nat, start: nat): Option<nat> {
    if |stream| < start + LENGTH_LEN then None
    else
      var length := cipher.openLength(index, stream[start..start + LENGTH_LEN]);
      var end := start + LENGTH_LEN + HEADER_LEN + length + TAG_LEN;
      if |stream| < end then None else Some(end)
  }

  /** Where the first `n` packets end. */
  function End(cipher: Opener, stream: Bytes, n: nat): Option<nat>
    decreases n
  {
    if n == 0 then Some(0)
    else
      var start := End(cipher, stream, n - 1);
      if start.None? then None else PacketEnd(cipher, stream, n - 1, start.value)
  }

  lemma EndInside(cipher: Opener, stream: Bytes, n: nat)
    requires End(cipher, stream, n).Some?
    ensures End(cipher, stream, n).value <= |stream|
  {
  }

  /** The packet of that index: its contents, or `None` where it fails authentication. */
  function Nth(cipher: Opener, stream: Bytes, garbage: Bytes, index: nat): Option<Packet>
    requires End(cipher, stream, index + 1).Some?
  {
    var start := End(cipher, stream, index).value + LENGTH_LEN;
    var end := End(cipher, stream, index + 1).value;
    cipher.open(index, stream[start..end], Aad(garbage, index))
  }

  /** The message a packet carries, a decoy and contents that do not decode carrying none. */
  function Carried(cipher: Opener, packet: Option<Packet>): seq<Message> {
    if packet.None? || packet.value.ignore || cipher.decode(packet.value.contents).None? then []
    else [cipher.decode(packet.value.contents).value]
  }

  /** The messages among the packets from `from` up to `n`. */
  function Kept(cipher: Opener, stream: Bytes, garbage: Bytes, from: nat, n: nat): seq<Message>
    requires End(cipher, stream, n).Some?
    decreases n
  {
    if n <= from then []
    else Kept(cipher, stream, garbage, from, n - 1) + Carried(cipher, Nth(cipher, stream, garbage, n - 1))
  }

  // What has been read does not change with what arrives later.

  lemma PacketEndStable(cipher: Opener, stream: Bytes, more: Bytes, index: nat, start: nat)
    requires PacketEnd(cipher, stream, index, start).Some?
    ensures PacketEnd(cipher, stream + more, index, start) == PacketEnd(cipher, stream, index, start)
  {
    assert (stream + more)[start..start + LENGTH_LEN] == stream[start..start + LENGTH_LEN];
  }

  lemma {:induction false} EndStable(cipher: Opener, stream: Bytes, more: Bytes, n: nat)
    requires End(cipher, stream, n).Some?
    ensures End(cipher, stream + more, n) == End(cipher, stream, n)
    decreases n
  {
    hide PacketEnd;
    if n > 0 {
      EndStable(cipher, stream, more, n - 1);
      PacketEndStable(cipher, stream, more, n - 1, End(cipher, stream, n - 1).value);
    }
  }

  lemma EndBefore(cipher: Opener, stream: Bytes, n: nat)
    requires End(cipher, stream, n + 1).Some?
    ensures End(cipher, stream, n).Some?
    ensures
      End(cipher, stream, n).value + LENGTH_LEN + HEADER_LEN + TAG_LEN <= End(cipher, stream, n + 1).value <= |stream|
  {
  }

  lemma NthStable(cipher: Opener, stream: Bytes, more: Bytes, garbage: Bytes, index: nat)
    requires End(cipher, stream, index + 1).Some?
    ensures End(cipher, stream + more, index + 1).Some?
    ensures Nth(cipher, stream + more, garbage, index) == Nth(cipher, stream, garbage, index)
  {
    hide End;
    EndBefore(cipher, stream, index);
    EndStable(cipher, stream, more, index);
    EndStable(cipher, stream, more, index + 1);
    var start, end := End(cipher, stream, index).value + LENGTH_LEN, End(cipher, stream, index + 1).value;
    assert (stream + more)[start..end] == stream[start..end];
  }

  /** More octets never change the messages of the packets already whole. */
  lemma {:induction false} KeptStable(cipher: Opener, stream: Bytes, more: Bytes, garbage: Bytes, from: nat, n: nat)
    requires End(cipher, stream, n).Some?
    ensures End(cipher, stream + more, n).Some?
    ensures Kept(cipher, stream + more, garbage, from, n) == Kept(cipher, stream, garbage, from, n)
    decreases n
  {
    hide End, Nth, Carried;
    EndStable(cipher, stream, more, n);
    if n > from {
      EndBefore(cipher, stream, n - 1);
      KeptStable(cipher, stream, more, garbage, from, n - 1);
      NthStable(cipher, stream, more, garbage, n - 1);
    }
  }

  // An honest sender's stream.

  /** The two halves belong together: what one seals at an index, the other opens at it. */
  ghost predicate Paired(cipher: Opener, sender: Sealer) {
    && (forall i: nat, n: nat :: n < 0x100_0000 ==>
          |sender.sealLength(i, n)| == LENGTH_LEN && cipher.openLength(i, sender.sealLength(i, n)) == n)
    && (forall i: nat, p: Packet, aad: Bytes ::
          && |sender.seal(i, p, aad)| == HEADER_LEN + |p.contents| + TAG_LEN
          && cipher.open(i, sender.seal(i, p, aad), aad) == Some(p))
  }

  /** A length is three octets. */
  predicate Fits(packets: seq<Packet>) {
    forall k :: 0 <= k < |packets| ==> |packets[k].contents| < 0x100_0000
  }

  function Sealed(sender: Sealer, index: nat, packet: Packet, aad: Bytes): Bytes {
    sender.sealLength(index, |packet.contents|) + sender.seal(index, packet, aad)
  }

  function Stream(sender: Sealer, packets: seq<Packet>, garbage: Bytes): Bytes
    decreases packets
  {
    if packets == [] then []
    else
      var n := |packets| - 1;
      Stream(sender, packets[..n], garbage) + Sealed(sender, n, packets[n], if n == 0 then garbage else [])
  }

  /** The messages an honest sender's packets carry. */
  function CarriedBy(cipher: Opener, packets: seq<Packet>): seq<Message> {
    if packets == [] then []
    else CarriedBy(cipher, packets[..|packets| - 1]) + Carried(cipher, Some(packets[|packets| - 1]))
  }

  lemma SealedEnd(cipher: Opener, sender: Sealer, before: Bytes, index: nat, packet: Packet, aad: Bytes)
    requires Paired(cipher, sender) && |packet.contents| < 0x100_0000
    ensures var stream := before + Sealed(sender, index, packet, aad);
      && PacketEnd(cipher, stream, index, |before|) == Some(|stream|) && |before| + LENGTH_LEN <= |stream|
      && cipher.open(index, stream[|before| + LENGTH_LEN..], aad) == Some(packet)
  {
    var length, body := sender.sealLength(index, |packet.contents|), sender.seal(index, packet, aad);
    var stream := before + Sealed(sender, index, packet, aad);
    assert |length| == LENGTH_LEN;
    assert stream[|before|..|before| + LENGTH_LEN] == length;
    assert stream[|before| + LENGTH_LEN..] == body;
  }

  lemma AadIs(garbage: Bytes, n: nat)
    ensures Aad(garbage, n) == if n == 0 then garbage else []
  {
  }

  /** Every packet of an honest stream is read whole, in order, with its own contents. */
  lemma {:induction false} HonestEnd(cipher: Opener, sender: Sealer, packets: seq<Packet>, garbage: Bytes)
    requires Paired(cipher, sender) && Fits(packets)
    ensures End(cipher, Stream(sender, packets, garbage), |packets|) == Some(|Stream(sender, packets, garbage)|)
    ensures packets != [] ==>
      Nth(cipher, Stream(sender, packets, garbage), garbage, |packets| - 1) == Some(packets[|packets| - 1])
    decreases packets
  {
    hide Paired, Sealed, Aad, PacketEnd;
    if packets != [] {
      var n := |packets| - 1;
      assert Aad(garbage, n) == if n == 0 then garbage else [] by { AadIs(garbage, n); }
      var before, last := Stream(sender, packets[..n], garbage), Sealed(sender, n, packets[n], Aad(garbage, n));
      HonestEnd(cipher, sender, packets[..n], garbage);
      EndStable(cipher, before, last, n);
      SealedEnd(cipher, sender, before, n, packets[n], Aad(garbage, n));
      assert (before + last)[|before| + LENGTH_LEN..|before + last|] == (before + last)[|before| + LENGTH_LEN..];
    }
  }

  /** A stream's own packets are a prefix of a longer stream's. */
  lemma {:induction false} StreamPrefix(sender: Sealer, packets: seq<Packet>, n: nat, garbage: Bytes)
    requires n <= |packets|
    ensures Stream(sender, packets[..n], garbage) <= Stream(sender, packets, garbage)
    decreases packets
  {
    hide Sealed, Aad;
    if n == |packets| {
      assert packets[..n] == packets;
    } else {
      assert packets[..|packets| - 1][..n] == packets[..n];
      StreamPrefix(sender, packets[..|packets| - 1], n, garbage);
    }
  }

  /** No packet is read past the last one sent. */
  lemma NothingPast(cipher: Opener, sender: Sealer, packets: seq<Packet>, garbage: Bytes, n: nat)
    requires Paired(cipher, sender) && Fits(packets) && n > |packets|
    ensures End(cipher, Stream(sender, packets, garbage), n).None?
    decreases n
  {
    if n == |packets| + 1 {
      HonestEnd(cipher, sender, packets, garbage);
    } else {
      NothingPast(cipher, sender, packets, garbage, n - 1);
    }
  }

  lemma FirstPackets(cipher: Opener, sender: Sealer, packets: seq<Packet>, garbage: Bytes, n: nat)
    requires Paired(cipher, sender) && Fits(packets) && n <= |packets|
    ensures var all := Stream(sender, packets, garbage);
      && End(cipher, all, n) == Some(|Stream(sender, packets[..n], garbage)|)
      && (n > 0 ==> Nth(cipher, all, garbage, n - 1) == Some(packets[n - 1]))
  {
    hide Paired, End, Stream, Nth;
    var all, first := Stream(sender, packets, garbage), Stream(sender, packets[..n], garbage);
    StreamPrefix(sender, packets, n, garbage);
    assert all == first + all[|first|..];
    HonestEnd(cipher, sender, packets[..n], garbage);
    EndStable(cipher, first, all[|first|..], n);
    if n > 0 {
      NthStable(cipher, first, all[|first|..], garbage, n - 1);
    }
  }

  lemma {:induction false} KeptIsCarried(
      cipher: Opener, sender: Sealer, packets: seq<Packet>, garbage: Bytes, from: nat, n: nat)
    requires Paired(cipher, sender) && Fits(packets) && from <= n <= |packets|
    ensures End(cipher, Stream(sender, packets, garbage), n).Some?
    ensures Kept(cipher, Stream(sender, packets, garbage), garbage, from, n) == CarriedBy(cipher, packets[from..n])
    decreases n
  {
    hide Paired, End, Stream, Nth, Carried;
    FirstPackets(cipher, sender, packets, garbage, n);
    if n > from {
      KeptIsCarried(cipher, sender, packets, garbage, from, n - 1);
      assert packets[from..n][..n - 1 - from] == packets[from..n - 1];
    }
  }

  ghost predicate Increasing(places: seq<nat>) {
    forall i, j :: 0 <= i < j < |places| ==> places[i] < places[j]
  }

  /**
    The messages are those of the packets at `places`, in order: the packets that are no decoy and whose contents
    decode, and no others.
   */
  ghost predicate MessagesAt(cipher: Opener, packets: seq<Packet>, messages: seq<Message>, places: seq<nat>) {
    && |messages| == |places| && Increasing(places)
    && (forall k :: 0 <= k < |places| ==>
          && places[k] < |packets| && !packets[places[k]].ignore
          && cipher.decode(packets[places[k]].contents) == Some(messages[k]))
    && forall i: nat :: i < |packets| && !packets[i].ignore && cipher.decode(packets[i].contents).Some? ==> i in places
  }

  lemma MessagesAtNext(
      cipher: Opener, packets: seq<Packet>, packet: Packet, messages: seq<Message>, places: seq<nat>)
    requires MessagesAt(cipher, packets, messages, places)
    ensures
      var carries := !packet.ignore && cipher.decode(packet.contents).Some?;
      if carries then
        MessagesAt(cipher, packets + [packet], messages + [cipher.decode(packet.contents).value], places + [|packets|])
      else MessagesAt(cipher, packets + [packet], messages, places)
  {
    var all := packets + [packet];
    if !packet.ignore && cipher.decode(packet.contents).Some? {
      var more := places + [|packets|];
      assert more[|places|] == |packets|;
      forall i: nat | i < |all| && !all[i].ignore && cipher.decode(all[i].contents).Some? ensures i in more {
        if i < |packets| {
          assert i in places;
        }
      }
    }
  }

  /** What packets carry, apart from how it is collected. */
  lemma {:induction false} CarriedExactly(cipher: Opener, packets: seq<Packet>) returns (places: seq<nat>)
    ensures MessagesAt(cipher, packets, CarriedBy(cipher, packets), places)
    decreases packets
  {
    hide MessagesAt;
    places := [];
    if packets == [] {
      NoMessages(cipher);
    } else {
      var before, last := packets[..|packets| - 1], packets[|packets| - 1];
      places := CarriedExactly(cipher, before);
      MessagesAtNext(cipher, before, last, CarriedBy(cipher, before), places);
      assert before + [last] == packets;
      if !last.ignore && cipher.decode(last.contents).Some? {
        places := places + [|before|];
      } else {
        assert CarriedBy(cipher, packets) == CarriedBy(cipher, before) + [] == CarriedBy(cipher, before);
      }
    }
  }

  lemma NoMessages(cipher: Opener)
    ensures MessagesAt(cipher, [], [], [])
  {
  }

  /** The messages of an honest stream's packets are, in order, what each packet that is no decoy decodes to. */
  lemma HonestKept(cipher: Opener, sender: Sealer, packets: seq<Packet>, garbage: Bytes, from: nat, n: nat)
    returns (places: seq<nat>)
    requires Paired(cipher, sender) && Fits(packets) && from <= n <= |packets|
    ensures End(cipher, Stream(sender, packets, garbage), n).Some?
    ensures MessagesAt(
              cipher, packets[from..n], Kept(cipher, Stream(sender, packets, garbage), garbage, from, n), places)
  {
    hide Paired, Fits, End, Stream, Kept, CarriedBy, MessagesAt;
    KeptIsCarried(cipher, sender, packets, garbage, from, n);
    places := CarriedExactly(cipher, packets[from..n]);
  }

  /**
    Whatever part of an honest stream has arrived, the packets whole in it are the first ones sent, and
    the messages among them are those packets' messages.
   */
  lemma ReceivedPrefix(
      cipher: Opener, sender: Sealer, packets: seq<Packet>, garbage: Bytes, received: Bytes, from: nat, n: nat)
    requires Paired(cipher, sender) && Fits(packets) && from <= n
    requires received <= Stream(sender, packets, garbage) && End(cipher, received, n).Some?
    ensures n <= |packets| && Kept(cipher, received, garbage, from, n) == CarriedBy(cipher, packets[from..n])
    ensures End(cipher, received, n).value == |Stream(sender, packets[..n], garbage)|
  {
    hide Paired, Fits, End, Kept, Stream, CarriedBy, Nth;
    var all := Stream(sender, packets, garbage);
    var rest := all[|received|..];
    assert all == received + rest;
    EndStable(cipher, received, rest, n);
    KeptStable(cipher, received, rest, garbage, from, n);
    if n > |packets| {
      NothingPast(cipher, sender, packets, garbage, n);
    }
    FirstPackets(cipher, sender, packets, garbage, n);
    KeptIsCarried(cipher, sender, packets, garbage, from, n);
  }
}
