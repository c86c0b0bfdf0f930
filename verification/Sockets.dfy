/** What a socket has in store for its reader: any octets in any chunks, waits that time out, a close, a reset. */
module Sockets {
  import opened Octets

  /** What one read meets. No octets at all is the other side's close. */
  datatype Arrival = Data(octets: Bytes) | NothingYet | Reset

  /** How many reads and octets there still are. */
  function Left(incoming: seq<Arrival>): nat {
    if incoming == [] then 0
    else Left(incoming[1..]) + 1 + if incoming[0].Data? then |incoming[0].octets| else 0
  }

  /** The octets there still are, in order. */
  function Coming(incoming: seq<Arrival>): Bytes {
    if incoming == [] then []
    else (if incoming[0].Data? then incoming[0].octets else []) + Coming(incoming[1..])
  }

  /** What ends the octets there are to read without a wait. */
  datatype Pause = Quiet | Closed | Dropped

  /** The octets ahead of the next pause, and the pause: more than that no read meets before it. */
  function Ahead(incoming: seq<Arrival>): Bytes {
    if incoming == [] || !incoming[0].Data? || incoming[0].octets == [] then []
    else incoming[0].octets + Ahead(incoming[1..])
  }

  function NextPause(incoming: seq<Arrival>): Pause {
    if incoming == [] then Quiet
    else match incoming[0]
      case NothingYet => Quiet
      case Reset => Dropped
      case Data(octets) => if octets == [] then Closed else NextPause(incoming[1..])
  }

  /** A read of up to `size` octets leaves the rest first. */
  function Unread(octets: Bytes, rest: seq<Arrival>, size: nat): seq<Arrival> {
    if |octets| > size then [Data(octets[size..])] + rest else rest
  }

  function Read(octets: Bytes, size: nat): Bytes {
    if |octets| > size then octets[..size] else octets
  }

  lemma ReadRest(octets: Bytes, rest: seq<Arrival>, size: nat)
    requires size > 0 && octets != []
    ensures var read, left := Read(octets, size), Unread(octets, rest, size);
      && Coming([Data(octets)] + rest) == read + Coming(left)
      && Ahead([Data(octets)] + rest) == read + Ahead(left) && NextPause(left) == NextPause([Data(octets)] + rest)
      && Left(left) < Left([Data(octets)] + rest) && Left(left) + |read| <= Left([Data(octets)] + rest)
  {
    assert ([Data(octets)] + rest)[1..] == rest;
    if |octets| > size {
      var left := octets[size..];
      assert octets == octets[..size] + left;
      assert ([Data(left)] + rest)[1..] == rest;
      assert Coming([Data(left)] + rest) == left + Coming(rest);
      assert Ahead([Data(left)] + rest) == left + Ahead(rest);
    }
  }

  lemma Skipped(next: Arrival, rest: seq<Arrival>)
    requires !next.Data?
    ensures Coming([next] + rest) == Coming(rest) && Left([next] + rest) == Left(rest) + 1
    ensures Ahead([next] + rest) == [] && NextPause([next] + rest) == if next.Reset? then Dropped else Quiet
  {
    assert ([next] + rest)[1..] == rest;
  }

  /** Nothing there, or the other side's close, with nothing ahead of it. */
  lemma NothingAhead(incoming: seq<Arrival>)
    requires incoming == [] || incoming[0] == Data([])
    ensures Ahead(incoming) == [] && NextPause(incoming) == if incoming == [] then Quiet else Closed
  {
  }
}
