/** The proxy's side of one connection: the negotiation as it is read and answered, and the forwarding after it. */
module Socks5Server {
  import opened Octets
  import opened Wrappers
  import opened Sockets
  import opened Socks5Negotiation

  /** No write breaks. */
  predicate Unbroken(breaks: seq<Option<nat>>) {
    forall i :: 0 <= i < |breaks| ==> breaks[i].None?
  }

  /** A connected socket: what it will give its reader, and at which write, and after how many octets, it breaks. */
  class Connection {
    var incoming: seq<Arrival>
    var breaks: seq<Option<nat>>
    var sent: Bytes
    /** Every octet read from it. */
    ghost var taken: Bytes

    constructor (incoming: seq<Arrival>, breaks: seq<Option<nat>>)
      ensures this.incoming == incoming && this.breaks == breaks && sent == [] && taken == []
    {
      this.incoming, this.breaks := incoming, breaks;
      sent, taken := [], [];
    }

    /** Every octet of the connection, read or still to come: no read loses or reorders one. */
    ghost function Total(): Bytes
      reads this`taken, this`incoming
    {
      taken + Coming(incoming)
    }

    /** Every octet read, and those ahead of the next pause. */
    ghost function Burst(): Bytes
      reads this`taken, this`incoming
    {
      taken + Ahead(incoming)
    }

    /** What a wait meets once all that is ahead of the next pause has been read. */
    ghost function Interrupted(): Error
      reads this`incoming
    {
      if NextPause(incoming).Quiet? then TimeoutError else ConnectionError
    }

    method Recv(size: nat) returns (r: Result<Bytes>)
      requires size > 0
      modifies this`incoming, this`taken
      ensures Total() == old(Total())
      ensures match r
        case Ok(data) =>
          taken == old(taken) + data && |data| <= size && (data != [] ==> Left(incoming) < old(Left(incoming)))
        case Err(e) => taken == old(taken) && e in [TimeoutError, ConnectionError]
      ensures r.Ok? && r.value != [] ==> Burst() == old(Burst()) && Interrupted() == old(Interrupted())
      ensures r.Err? || r.value == [] ==> taken == old(Burst())
      ensures r.Ok? && r.value == [] ==> old(Interrupted()) == ConnectionError
      ensures r.Err? ==> r.error == old(Interrupted())
    {
      hide Left, Coming, Ahead, NextPause;
      if incoming == [] {
        NothingAhead(incoming);
        return Err(TimeoutError);
      }
      var next, rest := incoming[0], incoming[1..];
      assert incoming == [next] + rest;
      match next {
        case NothingYet =>
          Skipped(next, rest);
          incoming := rest;
          r := Err(TimeoutError);
        case Reset =>
          Skipped(next, rest);
          incoming := rest;
          r := Err(ConnectionError);
        case Data(octets) =>
          if octets == [] {
            NothingAhead(incoming);
            return Ok([]);
          }
          ReadRest(octets, rest, size);
          incoming := Unread(octets, rest, size);
          r := Ok(Read(octets, size));
          taken := taken + r.value;
      }
    }

    /** `_receive`: exactly `count` octets, however they come; `got` is what was read. */
    method Receive(count: nat) returns (r: Result<Bytes>, ghost got: Bytes)
      modifies this`incoming, this`taken
      ensures r.Ok? || r.error == ValueError ==> Burst() == old(Burst()) && Interrupted() == old(Interrupted())
      ensures r.Err? && r.error != ValueError ==> taken == old(Burst()) && r.error == old(Interrupted())
      ensures Total() == old(Total()) && taken == old(taken) + got
      ensures match r
        case Ok(data) => got == data && |data| == count
        case Err(e) => |got| < count && e in [TimeoutError, ConnectionError]
    {
      hide Total, Burst, Interrupted, Left;
      var data: Bytes := [];
      while |data| < count
        invariant Burst() == old(Burst()) && Interrupted() == old(Interrupted())
        invariant Total() == old(Total()) && taken == old(taken) + data && |data| <= count
        decreases Left(incoming)
      {
        var chunk := Recv(count - |data|);
        if chunk.Err? {
          return Err(chunk.error), data;
        }
        if chunk.value == [] {
          return Err(ConnectionError), data;
        }
        data := data + chunk.value;
      }
      return Ok(data), data;
    }

    /** A write that breaks leaves out at least its last octet; `out` is what was written. */
    method SendAll(data: Bytes) returns (error: Option<Error>, ghost out: Bytes)
      modifies this`breaks, this`sent
      ensures sent == old(sent) + out && out <= data
      ensures error.None? <==> out == data
      ensures error.Some? ==> error == Some(ConnectionError)
      ensures error.Some? <==> old(breaks) != [] && old(breaks)[0].Some? && old(breaks)[0].value < |data|
      ensures Unbroken(old(breaks)) ==> Unbroken(breaks)
    {
      var next := if breaks == [] then None else breaks[0];
      breaks := if breaks == [] then [] else breaks[1..];
      if next.Some? && next.value < |data| {
        sent := sent + data[..next.value];
        return Some(ConnectionError), data[..next.value];
      }
      sent := sent + data;
      return None, data;
    }
  }

  /** What a part was read as, from exactly the octets that were read for it. */
  ghost predicate ReadAs<T(!new)>(part: Part<T>, got: Bytes, r: Result<T>) {
    match r
    case Ok(value) => part == Good(value, |got|)
    case Err(ValueError) => part == Broken(|got|)
    case Err(e) => part == Short && e in [TimeoutError, ConnectionError]
  }

  method ReceiveMethods(c: Connection) returns (r: Result<Bytes>, ghost got: Bytes)
    modifies c`incoming, c`taken
    ensures r.Ok? || r.error == ValueError ==> c.Burst() == old(c.Burst()) && c.Interrupted() == old(c.Interrupted())
    ensures r.Err? && r.error != ValueError ==> c.taken == old(c.Burst()) && r.error == old(c.Interrupted())
    ensures c.Total() == old(c.Total()) && c.taken == old(c.taken) + got && ReadAs(ReadMethods(got), got, r)
  {
    hide Connection.Total, Connection.Burst, Connection.Interrupted;
    ghost var one, two;
    var head, methods;
    head, one := c.Receive(2);
    got := one;
    if head.Err? {
      return Err(head.error), got;
    }
    if head.value[0] != SOCKS_VERSION {
      return Err(ValueError), got;
    }
    methods, two := c.Receive(head.value[1]);
    got := one + two;
    if methods.Err? {
      return Err(methods.error), got;
    }
    assert got == WriteMethods(methods.value) + [];
    MethodsBack(methods.value, []);
    r := Ok(methods.value);
  }

  method ReceiveCounted(c: Connection) returns (r: Result<Bytes>, ghost got: Bytes)
    modifies c`incoming, c`taken
    ensures r.Ok? || r.error == ValueError ==> c.Burst() == old(c.Burst()) && c.Interrupted() == old(c.Interrupted())
    ensures r.Err? && r.error != ValueError ==> c.taken == old(c.Burst()) && r.error == old(c.Interrupted())
    ensures c.Total() == old(c.Total()) && c.taken == old(c.taken) + got && ReadAs(ReadCounted(got), got, r)
  {
    hide Connection.Total, Connection.Burst, Connection.Interrupted;
    ghost var one, two;
    var count, data;
    count, one := c.Receive(1);
    got := one;
    if count.Err? {
      return Err(count.error), got;
    }
    data, two := c.Receive(count.value[0]);
    got := one + two;
    if data.Err? {
      return Err(data.error), got;
    }
    assert got == WriteCounted(data.value) + [];
    CountedBack(data.value, []);
    r := Ok(data.value);
  }

  /** Half the credentials: too few octets for what follows the username. */
  lemma CredentialsShort(username: Bytes, more: Bytes)
    requires |username| <= 255 && !ReadCounted(more).Good?
    ensures ReadCredentials([AUTH_VERSION] + (WriteCounted(username) + more)) == Short
  {
    hide ReadCounted;
    var s := [AUTH_VERSION] + (WriteCounted(username) + more);
    assert s[1..] == WriteCounted(username) + more;
    CountedBack(username, more);
    assert s[1 + |WriteCounted(username)|..] == more;
  }

  lemma CountedNeverBreaks(s: Bytes)
    ensures !ReadCounted(s).Broken?
  {
  }

  method ReceiveCredentials(c: Connection) returns (r: Result<Credentials>, ghost got: Bytes)
    modifies c`incoming, c`taken
    ensures r.Ok? || r.error == ValueError ==> c.Burst() == old(c.Burst()) && c.Interrupted() == old(c.Interrupted())
    ensures r.Err? && r.error != ValueError ==> c.taken == old(c.Burst()) && r.error == old(c.Interrupted())
    ensures c.Total() == old(c.Total()) && c.taken == old(c.taken) + got && ReadAs(ReadCredentials(got), got, r)
  {
    hide ReadCounted, WriteCounted, Connection.Total, Connection.Burst, Connection.Interrupted;
    ghost var zero, one, two;
    var version, username, password;
    version, zero := c.Receive(1);
    got := zero;
    if version.Err? {
      return Err(version.error), got;
    }
    if version.value[0] != AUTH_VERSION {
      return Err(ValueError), got;
    }
    username, one := ReceiveCounted(c);
    got := zero + one;
    CountedNeverBreaks(one);
    if username.Err? {
      assert got[1..] == one;
      return Err(username.error), got;
    }
    CountedWas(one);
    assert one == WriteCounted(username.value);
    password, two := ReceiveCounted(c);
    got := zero + (one + two);
    CountedNeverBreaks(two);
    if password.Err? {
      assert got == [AUTH_VERSION] + (WriteCounted(username.value) + two);
      CredentialsShort(username.value, two);
      return Err(password.error), got;
    }
    CountedWas(two);
    r := Ok(Credentials(username.value, password.value));
    assert got == WriteCredentials(r.value) + [];
    CredentialsBack(r.value, []);
  }

  method ReceiveHost(c: Connection, kind: AddressType) returns (r: Result<Bytes>, ghost got: Bytes)
    modifies c`incoming, c`taken
    ensures r.Ok? || r.error == ValueError ==> c.Burst() == old(c.Burst()) && c.Interrupted() == old(c.Interrupted())
    ensures r.Err? && r.error != ValueError ==> c.taken == old(c.Burst()) && r.error == old(c.Interrupted())
    ensures c.Total() == old(c.Total()) && c.taken == old(c.taken) + got && ReadAs(ReadHost(kind, got), got, r)
    ensures r.Err? ==> r.error != ValueError
  {
    hide ReadCounted, Connection.Total, Connection.Burst, Connection.Interrupted;
    match FixedLength(kind) {
      case Some(n) =>
        r, got := c.Receive(n);
        assert r.Ok? ==> got[..n] == r.value;
      case None =>
        r, got := ReceiveCounted(c);
        CountedNeverBreaks(got);
    }
  }

  /** A destination's four octets, then its host and port. */
  lemma DestinationOf(head: Bytes, tail: Bytes)
    requires |head| == 4
    ensures var kind := KindOf(head[3]);
      if head[0] != SOCKS_VERSION || head[1] != CONNECT || kind.None? then ReadDestination(head + tail) == Broken(4)
      else if !ReadHost(kind.value, tail).Good? then ReadDestination(head + tail) == Short
      else
        var host := ReadHost(kind.value, tail);
        && (|tail| < host.used + 2 ==> ReadDestination(head + tail) == Short)
        && (|tail| == host.used + 2 ==>
              var port := (tail[host.used] as int) * 0x100 + tail[host.used + 1];
              ReadDestination(head + tail) == Good(Destination(kind.value, host.value, port), 4 + |tail|))
  {
    hide ReadHost, KindOf;
    assert (head + tail)[4..] == tail;
  }

  method ReceiveDestination(c: Connection) returns (r: Result<Destination>, ghost got: Bytes)
    modifies c`incoming, c`taken
    ensures r.Ok? || r.error == ValueError ==> c.Burst() == old(c.Burst()) && c.Interrupted() == old(c.Interrupted())
    ensures r.Err? && r.error != ValueError ==> c.taken == old(c.Burst()) && r.error == old(c.Interrupted())
    ensures c.Total() == old(c.Total()) && c.taken == old(c.taken) + got && ReadAs(ReadDestination(got), got, r)
  {
    hide ReadHost, KindOf, ReadDestination, Connection.Total, Connection.Burst, Connection.Interrupted;
    ghost var zero, one, two;
    var head, host, port;
    head, zero := c.Receive(4);
    got := zero;
    if head.Err? {
      TooShort(got);
      return Err(head.error), got;
    }
    var kind := KindOf(head.value[3]);
    if head.value[0] != SOCKS_VERSION || head.value[1] != CONNECT || kind.None? {
      DestinationOf(zero, []);
      assert zero + [] == zero;
      return Err(ValueError), got;
    }
    host, one := ReceiveHost(c, kind.value);
    got := zero + one;
    if host.Err? {
      DestinationOf(zero, one);
      return Err(host.error), got;
    }
    port, two := c.Receive(2);
    got := zero + (one + two);
    HostStays(kind.value, one, two);
    DestinationOf(zero, one + two);
    if port.Err? {
      return Err(port.error), got;
    }
    r := Ok(Destination(kind.value, host.value, (port.value[0] as int) * 0x100 + port.value[1]));
  }

  lemma TooShort(s: Bytes)
    requires |s| < 4
    ensures ReadDestination(s) == Short
  {
  }

  /** A host read from exactly its own octets is read the same whatever follows. */
  lemma HostStays(kind: AddressType, s: Bytes, more: Bytes)
    requires ReadHost(kind, s).Good? && ReadHost(kind, s).used == |s|
    ensures ReadHost(kind, s + more) == ReadHost(kind, s)
  {
    HostWas(kind, s, 0);
    assert s == s[..|s|];
    HostBack(Destination(kind, ReadHost(kind, s).value, 0), more);
  }

  // A part that was whole stays what it was, whatever follows.

  lemma MethodsStay(s: Bytes, more: Bytes)
    requires ReadMethods(s).Good?
    ensures ReadMethods(s + more) == ReadMethods(s) && ReadMethods(s).used <= |s|
    ensures (s + more)[ReadMethods(s).used..] == s[ReadMethods(s).used..] + more
  {
    hide ReadMethods, WriteMethods;
    MethodsWere(s);
    var part := ReadMethods(s);
    assert s + more == WriteMethods(part.value) + (s[part.used..] + more);
    MethodsBack(part.value, s[part.used..] + more);
  }

  lemma CredentialsStay(s: Bytes, more: Bytes)
    requires ReadCredentials(s).Good?
    ensures ReadCredentials(s + more) == ReadCredentials(s) && ReadCredentials(s).used <= |s|
    ensures (s + more)[ReadCredentials(s).used..] == s[ReadCredentials(s).used..] + more
  {
    hide ReadCredentials, WriteCredentials;
    CredentialsWere(s);
    var part := ReadCredentials(s);
    assert s + more == WriteCredentials(part.value) + (s[part.used..] + more);
    CredentialsBack(part.value, s[part.used..] + more);
  }

  lemma RefusedDestinationStays(credentials: Option<Credentials>, s: Bytes, more: Bytes, before: nat, replies: Bytes)
    requires WithDestination(credentials, s, before, replies).Refused?
    ensures WithDestination(credentials, s + more, before, replies) == WithDestination(credentials, s, before, replies)
  {
  }

  lemma RefusedCredentialsStay(s: Bytes, more: Bytes, before: nat, replies: Bytes)
    requires WithCredentials(s, before, replies).Refused?
    ensures WithCredentials(s + more, before, replies) == WithCredentials(s, before, replies)
  {
    hide WithDestination;
    if ReadCredentials(s).Good? {
      var credentials, used := ReadCredentials(s).value, ReadCredentials(s).used;
      CredentialsStay(s, more);
      var answers := replies + [AUTH_VERSION, AUTH_SUCCESS];
      RefusedDestinationStays(Some(credentials), s[used..], more, before + used, answers);
    }
  }

  lemma RefusedStays(authentication: bool, s: Bytes, more: Bytes)
    requires Negotiated(authentication, s).Refused?
    ensures Negotiated(authentication, s + more) == Negotiated(authentication, s)
  {
    hide WithDestination, WithCredentials, MethodOf;
    if ReadMethods(s).Good? {
      var methods, used := ReadMethods(s).value, ReadMethods(s).used;
      MethodsStay(s, more);
      if MethodOf(authentication, methods).Some? {
        var replies := [SOCKS_VERSION, MethodOf(authentication, methods).value];
        if MethodOf(authentication, methods).value == USERNAME_PASSWORD {
          RefusedCredentialsStay(s[used..], more, used, replies);
        } else {
          RefusedDestinationStays(None, s[used..], more, used, replies);
        }
      }
    }
  }

  lemma SameTail(a: Bytes, b: Bytes, c: Bytes, d: Bytes)
    requires a + b == c + d && |a| == |c|
    ensures b == d
  {
    assert b == (a + b)[|a|..];
    assert d == (c + d)[|c|..];
  }

  /**
    A negotiation's result, with `used` octets read in all: what is accepted or refused was read to its last
    octet and answered in full, and any other error comes before the end or cuts an answer short.
   */
  ghost predicate Ended(outcome: Outcome, used: int, answered: Bytes, r: Result<Request>) {
    match r
    case Ok(request) => used >= 0 && outcome == Accepted(request, used, answered)
    case Err(ValueError) => used >= 0 && outcome == Refused(used, answered)
    case Err(e) =>
      && e in [TimeoutError, ConnectionError] && answered <= outcome.replies
      && (outcome.Unfinished? || answered != outcome.replies)
  }

  method NegotiateDestination(c: Connection, credentials: Option<Credentials>, ghost before: nat, ghost replies: Bytes)
    returns (r: Result<Request>, ghost got: Bytes, ghost out: Bytes)
    modifies c
    ensures r.Ok? || r.error == ValueError ==> c.Burst() == old(c.Burst()) && c.Interrupted() == old(c.Interrupted())
    ensures r.Err? && r.error != ValueError ==>
      (c.taken == old(c.Burst()) && r.error == old(c.Interrupted())) || c.Burst() == old(c.Burst())
    ensures c.Total() == old(c.Total()) && c.taken == old(c.taken) + got && c.sent == old(c.sent) + out
    ensures Ended(WithDestination(credentials, got, before, replies), before + |got|, replies + out, r)
    ensures Unbroken(old(c.breaks)) ==> Unbroken(c.breaks)
    ensures Unbroken(old(c.breaks)) && r.Err? && r.error != ValueError ==>
      c.taken == old(c.Burst()) && WithDestination(credentials, got, before, replies).Unfinished?
  {
    hide ReadDestination, Connection.Total, Connection.Burst, Connection.Interrupted;
    var destination, error;
    destination, got := ReceiveDestination(c);
    out := [];
    assert replies + [] == replies;
    if destination.Err? {
      return Err(destination.error), got, out;
    }
    error, out := c.SendAll(SUCCESS_REPLY);
    if error.Some? {
      return Err(error.value), got, out;
    }
    r := Ok(Request(destination.value, credentials));
  }

  lemma CredentialsThen(
      one: Bytes, two: Bytes, credentials: Credentials, before: nat, replies: Bytes, answered: Bytes,
      r: Result<Request>)
    requires ReadCredentials(one) == Good(credentials, |one|)
    requires Ended(WithDestination(Some(credentials), two, before + |one|, replies + [AUTH_VERSION, AUTH_SUCCESS]),
                   before + |one| + |two|, answered, r)
    ensures Ended(WithCredentials(one + two, before, replies), before + |one + two|, answered, r)
    ensures WithCredentials(one + two, before, replies)
         == WithDestination(Some(credentials), two, before + |one|, replies + [AUTH_VERSION, AUTH_SUCCESS])
  {
    hide ReadCredentials, WithDestination, Ended;
    CredentialsStay(one, two);
    assert one[|one|..] + two == two;
  }

  method NegotiateCredentials(c: Connection, ghost before: nat, ghost replies: Bytes)
    returns (r: Result<Request>, ghost got: Bytes, ghost out: Bytes)
    modifies c
    ensures r.Ok? || r.error == ValueError ==> c.Burst() == old(c.Burst()) && c.Interrupted() == old(c.Interrupted())
    ensures r.Err? && r.error != ValueError ==>
      (c.taken == old(c.Burst()) && r.error == old(c.Interrupted())) || c.Burst() == old(c.Burst())
    ensures c.Total() == old(c.Total()) && c.taken == old(c.taken) + got && c.sent == old(c.sent) + out
    ensures Ended(WithCredentials(got, before, replies), before + |got|, replies + out, r)
    ensures Unbroken(old(c.breaks)) ==> Unbroken(c.breaks)
    ensures Unbroken(old(c.breaks)) && r.Err? && r.error != ValueError ==>
      c.taken == old(c.Burst()) && WithCredentials(got, before, replies).Unfinished?
  {
    hide ReadCredentials, WithDestination, Connection.Total, Connection.Burst, Connection.Interrupted;
    var credentials, error;
    ghost var one, two, first, second;
    credentials, one := ReceiveCredentials(c);
    got, out := one, [];
    assert replies + [] == replies;
    if credentials.Err? {
      return Err(credentials.error), got, out;
    }
    error, first := c.SendAll([AUTH_VERSION, AUTH_SUCCESS]);
    out := first;
    if error.Some? {
      UnfinishedDestination(Some(credentials.value), before + |one|, replies + [AUTH_VERSION, AUTH_SUCCESS]);
      r := Err(error.value);
      assert one + [] == one;
      CredentialsThen(one, [], credentials.value, before, replies, replies + out, r);
      return;
    }
    r, two, second := NegotiateDestination(c, Some(credentials.value), before + |one|, replies + first);
    got, out := one + two, first + second;
    assert replies + first + second == replies + out;
    CredentialsThen(one, two, credentials.value, before, replies, replies + out, r);
  }

  lemma UnfinishedDestination(credentials: Option<Credentials>, before: nat, replies: Bytes)
    ensures WithDestination(credentials, [], before, replies) == Unfinished(replies)
  {
  }

  lemma UnfinishedRest(chosen: Octet, before: nat, replies: Bytes)
    ensures AfterMethod(chosen, [], before, replies) == Unfinished(replies)
  {
  }

  method NegotiateRest(c: Connection, chosen: Octet, ghost before: nat, ghost replies: Bytes)
    returns (r: Result<Request>, ghost got: Bytes, ghost out: Bytes)
    modifies c
    ensures r.Ok? || r.error == ValueError ==> c.Burst() == old(c.Burst()) && c.Interrupted() == old(c.Interrupted())
    ensures r.Err? && r.error != ValueError ==>
      (c.taken == old(c.Burst()) && r.error == old(c.Interrupted())) || c.Burst() == old(c.Burst())
    ensures c.Total() == old(c.Total()) && c.taken == old(c.taken) + got && c.sent == old(c.sent) + out
    ensures Ended(AfterMethod(chosen, got, before, replies), before + |got|, replies + out, r)
    ensures Unbroken(old(c.breaks)) ==> Unbroken(c.breaks)
    ensures Unbroken(old(c.breaks)) && r.Err? && r.error != ValueError ==>
      c.taken == old(c.Burst()) && AfterMethod(chosen, got, before, replies).Unfinished?
  {
    hide WithDestination, WithCredentials, Ended, Connection.Total, Connection.Burst, Connection.Interrupted;
    if chosen == USERNAME_PASSWORD {
      r, got, out := NegotiateCredentials(c, before, replies);
    } else {
      r, got, out := NegotiateDestination(c, None, before, replies);
    }
  }

  /** The methods, then the rest: the whole negotiation. */
  lemma NegotiatedThen(
      authentication: bool, one: Bytes, two: Bytes, methods: Bytes, answered: Bytes, r: Result<Request>)
    requires ReadMethods(one) == Good(methods, |one|) && MethodOf(authentication, methods).Some?
    requires var chosen := MethodOf(authentication, methods).value;
      Ended(AfterMethod(chosen, two, |one|, [SOCKS_VERSION, chosen]), |one| + |two|, answered, r)
    ensures Ended(Negotiated(authentication, one + two), |one + two|, answered, r)
    ensures Negotiated(authentication, one + two)
         == var chosen := MethodOf(authentication, methods).value;
            AfterMethod(chosen, two, |one|, [SOCKS_VERSION, chosen])
  {
    hide ReadMethods, MethodOf, AfterMethod, Ended;
    MethodsStay(one, two);
    assert one[|one|..] + two == two;
  }

  lemma NotNegotiated(authentication: bool, one: Bytes, methods: Bytes)
    requires ReadMethods(one) == Good(methods, |one|) && MethodOf(authentication, methods).None?
    ensures Negotiated(authentication, one) == Refused(|one|, [SOCKS_VERSION, NO_ACCEPTABLE_METHODS])
  {
    hide ReadMethods, MethodOf, AfterMethod;
  }

  lemma MethodsUnread(authentication: bool, got: Bytes, r: Result<Bytes>)
    requires r.Err? && ReadAs(ReadMethods(got), got, r)
    ensures Ended(Negotiated(authentication, got), |got|, [], Err(r.error))
    ensures r.error != ValueError ==> Negotiated(authentication, got).Unfinished?
  {
    hide ReadMethods;
  }

  /** What a negotiation's end says of the methods offered. */
  lemma DecidedByOffer(authentication: bool, got: Bytes, out: Bytes, r: Result<Request>)
    requires Ended(Negotiated(authentication, got), |got|, out, r)
    ensures r.Ok? ==>
      && Offered(got) && ((authentication && 0x02 in Offer(got)) || 0x00 in Offer(got))
      && var credentials := authentication && 0x02 in Offer(got);
         [0x05, if credentials then 0x02 else 0x00] <= out && (r.value.credentials.Some? <==> credentials)
    ensures Offered(got) && !(authentication && 0x02 in Offer(got)) && 0x00 !in Offer(got) ==>
      && r.Err? && out <= [0x05, 0xFF] && (r.error == ValueError ==> |got| == 2 + |Offer(got)| && out == [0x05, 0xFF])
  {
    hide Negotiated;
    if Negotiated(authentication, got).Accepted? {
      AcceptedOffers(authentication, got);
    }
    if Offered(got) {
      MethodDecides(authentication, got);
    }
  }

  /**
    `_negotiate`: what it returns or raises is what the octets `got` come to, the replies `out` were sent, and no
    octet past them is read.
   */
  method Negotiate(c: Connection, authentication: bool) returns (r: Result<Request>, ghost got: Bytes, ghost out: Bytes)
    modifies c
    ensures r.Ok? || r.error == ValueError ==> c.Burst() == old(c.Burst()) && c.Interrupted() == old(c.Interrupted())
    ensures r.Err? && r.error != ValueError ==>
      (c.taken == old(c.Burst()) && r.error == old(c.Interrupted())) || c.Burst() == old(c.Burst())
    ensures c.Total() == old(c.Total()) && c.taken == old(c.taken) + got && c.sent == old(c.sent) + out
    ensures Ended(Negotiated(authentication, got), |got|, out, r)
    ensures Unbroken(old(c.breaks)) ==> Unbroken(c.breaks)
    ensures Unbroken(old(c.breaks)) && r.Err? && r.error != ValueError ==>
      c.taken == old(c.Burst()) && Negotiated(authentication, got).Unfinished?
    ensures r.Ok? ==>
      && Offered(got) && ((authentication && 0x02 in Offer(got)) || 0x00 in Offer(got))
      && var credentials := authentication && 0x02 in Offer(got);
         [0x05, if credentials then 0x02 else 0x00] <= out && (r.value.credentials.Some? <==> credentials)
    ensures Offered(got) && !(authentication && 0x02 in Offer(got)) && 0x00 !in Offer(got) ==>
      && r.Err? && out <= [0x05, 0xFF] && (r.error == ValueError ==> |got| == 2 + |Offer(got)| && out == [0x05, 0xFF])
  {
    hide ReadMethods, MethodOf, AfterMethod, Connection.Total, Connection.Burst, Connection.Interrupted, Negotiated,
         Offered, Offer;
    var methods, error;
    ghost var one, two, first, second;
    methods, one := ReceiveMethods(c);
    got, out := one, [];
    if methods.Err? {
      r := Err(methods.error);
      MethodsUnread(authentication, one, methods);
      DecidedByOffer(authentication, got, out, r);
      return;
    }
    var chosen := MethodOf(authentication, methods.value);
    var reply := [SOCKS_VERSION, if chosen.None? then NO_ACCEPTABLE_METHODS else chosen.value];
    error, first := c.SendAll(reply);
    out := first;
    if chosen.None? {
      NotNegotiated(authentication, one, methods.value);
      r := Err(if error.Some? then error.value else ValueError);
      DecidedByOffer(authentication, got, out, r);
      return;
    }
    if error.Some? {
      UnfinishedRest(chosen.value, |one|, reply);
      r := Err(error.value);
      assert one + [] == one;
      NegotiatedThen(authentication, one, [], methods.value, out, r);
      DecidedByOffer(authentication, got, out, r);
      return;
    }
    r, two, second := NegotiateRest(c, chosen.value, |one|, reply);
    got, out := one + two, first + second;
    NegotiatedThen(authentication, one, two, methods.value, out, r);
    DecidedByOffer(authentication, got, out, r);
  }

  /**
    Whatever the chunks, of a well-formed client's stream `got` is what one negotiation read: it was never
    refused, and where it was accepted the request is the one encoded, and what follows it is unread.
   */
  lemma ClientNegotiated(authentication: bool, client: Client, rest: Bytes, got: Bytes, unread: Bytes)
    requires Proper(client) && Acceptable(authentication, client.methods)
    requires got + unread == Written(authentication, client) + rest
    ensures !Negotiated(authentication, got).Refused?
    ensures Negotiated(authentication, got).Accepted? && Negotiated(authentication, got).used == |got| ==>
      Negotiated(authentication, got).request == Asked(authentication, client) && unread == rest
  {
    hide Negotiated, Written, Acceptable, Asked, Proper;
    RoundTrip(authentication, client, rest);
    if Negotiated(authentication, got).Refused? {
      RefusedStays(authentication, got, unread);
    }
    if Negotiated(authentication, got).Accepted? && Negotiated(authentication, got).used == |got| {
      var other := OnlyClients(authentication, got);
      assert Written(authentication, other) == got;
      RoundTrip(authentication, other, unread);
      SameTail(Written(authentication, client), rest, got, unread);
    }
  }

  /**
    And it is served: where all of a well-formed client's stream came ahead of any pause and no write broke,
    `_negotiate` returns the request encoded, having read the client's octets and no more. `ahead` is what came
    ahead of the pause, and the rest of the parameters what `Negotiate` gives.
   */
  lemma ClientServed(
      authentication: bool, client: Client, ahead: Bytes, r: Result<Request>, got: Bytes, unread: Bytes, out: Bytes)
    requires Proper(client) && Acceptable(authentication, client.methods)
    requires Written(authentication, client) <= ahead && ahead == got + unread
    requires Ended(Negotiated(authentication, got), |got|, out, r)
    requires r.Err? && r.error != ValueError ==> got == ahead && Negotiated(authentication, got).Unfinished?
    ensures r == Ok(Asked(authentication, client)) && got == Written(authentication, client)
    ensures out == Answered(authentication, client)
  {
    hide Negotiated, Written, Acceptable, Asked, Proper, Answered;
    var rest := ahead[|Written(authentication, client)|..];
    assert ahead == Written(authentication, client) + rest;
    ClientNegotiated(authentication, client, rest, got, unread);
    RoundTrip(authentication, client, rest);
    if r.Ok? {
      assert got == Written(authentication, client) by { SameHead(got, unread, Written(authentication, client), rest); }
      assert got + [] == got;
      RoundTrip(authentication, client, []);
    }
  }

  lemma SameHead(a: Bytes, b: Bytes, c: Bytes, d: Bytes)
    requires a + b == c + d && b == d
    ensures a == c
  {
    assert |a| == |c|;
    assert a == (a + b)[..|a|];
    assert c == (c + d)[..|c|];
  }

  const FORWARD_CHUNK: nat := 4096

  /**
    One read of an end that `select` found readable, passed on to the other: whether that ends the copying, and
    whether by a write that broke. `got` is what was read, and `out` what was written of it.
   */
  method ForwardOnce(end: Connection, other: Connection)
      returns (over: bool, broken: bool, ghost got: Bytes, ghost out: Bytes)
    requires end != other
    modifies end`incoming, end`taken, other`breaks, other`sent
    ensures end.Total() == old(end.Total()) && end.taken == old(end.taken) + got
    ensures other.sent == old(other.sent) + out && out <= got && (broken <==> out != got)
    ensures over <==> broken || got == []
    ensures got == [] ==> end.taken == old(end.Burst())
    ensures got != [] ==> end.Burst() == old(end.Burst())
  {
    hide Connection.Total, Connection.Burst, Connection.Interrupted, Left;
    got, out := [], [];
    var data := end.Recv(FORWARD_CHUNK);
    if data.Err? || data.value == [] {
      return true, false, got, out;
    }
    got := data.value;
    var error;
    error, out := other.SendAll(data.value);
    return error.Some?, error.Some?, got, out;
  }

  /** What was read from the two ends, and what was written to the other of each. */
  datatype Flow = Flow(fromNear: Bytes, toFar: Bytes, fromFar: Bytes, toNear: Bytes)

  function Count(turns: seq<bool>, near: bool): nat {
    if turns == [] then 0 else Count(turns[..|turns| - 1], near) + if turns[|turns| - 1] == near then 1 else 0
  }

  /**
    `_forward`, over the reads `select` allows: `nearReadable` says of each whether it is the near end. Each end is
    sent a prefix of what the other gave, and all of it unless a write broke; and only a write that broke or an
    end with nothing more to give stops it before the last of those reads.
   */
  method Forward(near: Connection, far: Connection, nearReadable: seq<bool>)
    returns (over: bool, broken: bool, ghost flow: Flow)
    requires near != far
    modifies near, far
    ensures near.Total() == old(near.Total()) && far.Total() == old(far.Total())
    ensures near.taken == old(near.taken) + flow.fromNear && far.sent == old(far.sent) + flow.toFar
    ensures far.taken == old(far.taken) + flow.fromFar && near.sent == old(near.sent) + flow.toNear
    ensures flow.toFar <= flow.fromNear && flow.toNear <= flow.fromFar
    ensures !broken ==> flow.toFar == flow.fromNear && flow.toNear == flow.fromFar
    ensures over && !broken ==> near.taken == old(near.Burst()) || far.taken == old(far.Burst())
    ensures !over ==> |flow.fromNear| >= Count(nearReadable, true) && |flow.fromFar| >= Count(nearReadable, false)
  {
    hide Connection.Total, Connection.Burst, Connection.Interrupted;
    over, broken, flow := false, false, Flow([], [], [], []);
    for i := 0 to |nearReadable|
      invariant near.Total() == old(near.Total()) && far.Total() == old(far.Total())
      invariant near.Burst() == old(near.Burst()) && far.Burst() == old(far.Burst())
      invariant near.taken == old(near.taken) + flow.fromNear && far.sent == old(far.sent) + flow.toFar
      invariant far.taken == old(far.taken) + flow.fromFar && near.sent == old(near.sent) + flow.toNear
      invariant flow.toFar == flow.fromNear && flow.toNear == flow.fromFar && !broken && !over
      invariant |flow.fromNear| >= Count(nearReadable[..i], true) && |flow.fromFar| >= Count(nearReadable[..i], false)
    {
      ghost var got, out;
      assert nearReadable[..i + 1][..i] == nearReadable[..i];
      if nearReadable[i] {
        over, broken, got, out := ForwardOnce(near, far);
        flow := flow.(fromNear := flow.fromNear + got, toFar := flow.toFar + out);
      } else {
        over, broken, got, out := ForwardOnce(far, near);
        flow := flow.(fromFar := flow.fromFar + got, toNear := flow.toNear + out);
      }
      if over {
        return;
      }
    }
    assert nearReadable[..|nearReadable|] == nearReadable;
  }
}
