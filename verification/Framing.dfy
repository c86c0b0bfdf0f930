/** v1 messages as one side reads them off a stream, with the parsing of one message left to the library. */
module Framing {
  import opened Octets
  import opened Wrappers
  import opened Packets

  datatype Parsed = Incomplete | Refused | Whole(message: Message, size: nat)

  /** A network's magic, and what parsing the head of a stream answers. */
  datatype Format = Format(magic: Bytes, parse: Bytes -> Parsed)

  /** A parser's answer never depends on what follows it, and none comes before the magic is there. */
  ghost predicate Stable(format: Format) {
    && (forall s: Bytes, more: Bytes ::
          !format.parse(s).Incomplete? ==> format.parse(s + more) == format.parse(s))
    && (forall s: Bytes :: |s| < |format.magic| ==> format.parse(s).Incomplete?)
    && (forall s: Bytes :: format.parse(s).Whole? ==> 0 < format.parse(s).size <= |s|)
  }

  /** What the head of a stream answers: the magic is looked at before the message is whole. */
  function Next(format: Format, stream: Bytes): Parsed {
    if |stream| >= |format.magic| && stream[..|format.magic|] != format.magic then Refused else format.parse(stream)
  }

  /** A head with another magic is refused as soon as it is there, whatever follows, and no other is for its magic. */
  lemma MagicFirst(format: Format, stream: Bytes)
    ensures |stream| >= |format.magic| && !(format.magic <= stream) ==> Next(format, stream) == Refused
    ensures |stream| < |format.magic| || format.magic <= stream ==> Next(format, stream) == format.parse(stream)
  {
  }

  /** Where the first `n` messages end. */
  function MessagesEnd(format: Format, stream: Bytes, n: nat): Option<nat>
    decreases n
  {
    if n == 0 then Some(0)
    else
      var start := MessagesEnd(format, stream, n - 1);
      if start.None? || start.value > |stream| then None
      else
        var next := Next(format, stream[start.value..]);
        if next.Whole? then Some(start.value + next.size) else None
  }

  function Messages(format: Format, stream: Bytes, n: nat): seq<Message>
    requires MessagesEnd(format, stream, n).Some?
    decreases n
  {
    if n == 0 then []
    else Messages(format, stream, n - 1) + [Next(format, stream[MessagesEnd(format, stream, n - 1).value..]).message]
  }

  lemma NextStable(format: Format, stream: Bytes, more: Bytes)
    requires Stable(format) && !Next(format, stream).Incomplete?
    ensures Next(format, stream + more) == Next(format, stream)
    ensures Next(format, stream).Whole? ==> 0 < Next(format, stream).size <= |stream|
  {
    if |stream| >= |format.magic| {
      assert (stream + more)[..|format.magic|] == stream[..|format.magic|];
    }
  }

  /** More octets never change the messages already whole. */
  lemma {:induction false} MessagesStable(format: Format, stream: Bytes, more: Bytes, n: nat)
    requires Stable(format) && MessagesEnd(format, stream, n).Some?
    ensures MessagesEnd(format, stream + more, n) == MessagesEnd(format, stream, n)
    ensures Messages(format, stream + more, n) == Messages(format, stream, n)
    decreases n
  {
    hide Next, Stable;
    if n > 0 {
      MessagesStable(format, stream, more, n - 1);
      var start := MessagesEnd(format, stream, n - 1).value;
      assert (stream + more)[start..] == stream[start..] + more;
      NextStable(format, stream[start..], more);
    }
  }
}
