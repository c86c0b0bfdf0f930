/**
  The server half of a SOCKS5 negotiation: RFC 1928, sections 3 to 6, and RFC 1929, section 2. The server
  reads exactly what each field needs, so what it reads is specified on the client's octets alone.
 */
module Socks5Negotiation {
  import opened Octets
  import opened Wrappers
  import opened Sockets

  const SOCKS_VERSION: Octet := 0x05
  const NO_AUTHENTICATION: Octet := 0x00
  const USERNAME_PASSWORD: Octet := 0x02
  const NO_ACCEPTABLE_METHODS: Octet := 0xFF
  const AUTH_VERSION: Octet := 0x01
  const AUTH_SUCCESS: Octet := 0x00
  const CONNECT: Octet := 0x01
  const SUCCESS_REPLY: Bytes := [0x05, 0x00, 0x00, 0x01, 0, 0, 0, 0, 0, 0]

  datatype AddressType = IPV4 | DOMAINNAME | IPV6

  function Atyp(kind: AddressType): Octet {
    match kind
    case IPV4 => 0x01
    case DOMAINNAME => 0x03
    case IPV6 => 0x04
  }

  datatype Credentials = Credentials(username: Bytes, password: Bytes)

  datatype Destination = Destination(addressType: AddressType, host: Bytes, port: nat)

  datatype Request = Request(destination: Destination, credentials: Option<Credentials>)

  // What the server reads.

  /** One part read off the front of some octets: more are needed, they break the protocol, or they are whole. */
  datatype Part<T> = Short | Broken(used: nat) | Good(value: T, used: nat)

  function MethodOf(authentication: bool, methods: Bytes): Option<Octet> {
    if authentication && USERNAME_PASSWORD in methods then Some(USERNAME_PASSWORD)
    else if NO_AUTHENTICATION in methods then Some(NO_AUTHENTICATION)
    else None
  }

  /** The client's methods. */
  function ReadMethods(s: Bytes): Part<Bytes> {
    if |s| < 2 then Short
    else if s[0] != SOCKS_VERSION then Broken(2)
    else if |s| < 2 + (s[1] as int) then Short
    else Good(s[2..2 + (s[1] as int)], 2 + (s[1] as int))
  }

  /** A length octet and as many octets. */
  function ReadCounted(s: Bytes): Part<Bytes> {
    if |s| < 1 || |s| < 1 + (s[0] as int) then Short else Good(s[1..1 + (s[0] as int)], 1 + (s[0] as int))
  }

  function ReadCredentials(s: Bytes): Part<Credentials> {
    if |s| < 1 then Short
    else if s[0] != AUTH_VERSION then Broken(1)
    else
      var username := ReadCounted(s[1..]);
      if !username.Good? then Short
      else
        var password := ReadCounted(s[1 + username.used..]);
        if !password.Good? then Short
        else Good(Credentials(username.value, password.value), 1 + username.used + password.used)
  }

  function KindOf(octet: Octet): Option<AddressType> {
    if octet == 0x01 then Some(IPV4) else if octet == 0x03 then Some(DOMAINNAME) else if octet == 0x04 then Some(IPV6)
    else None
  }

  function FixedLength(kind: AddressType): Option<nat> {
    match kind
    case IPV4 => Some(4)
    case IPV6 => Some(16)
    case DOMAINNAME => None
  }

  /** A host of its kind's length, or of the length its own first octet gives. */
  function ReadHost(kind: AddressType, s: Bytes): Part<Bytes> {
    match FixedLength(kind)
    case Some(n) => if |s| < n then Short else Good(s[..n], n)
    case None => ReadCounted(s)
  }

  function ReadDestination(s: Bytes): Part<Destination> {
    if |s| < 4 then Short
    else if s[0] != SOCKS_VERSION || s[1] != CONNECT || KindOf(s[3]).None? then Broken(4)
    else
      var kind := KindOf(s[3]).value;
      var host := ReadHost(kind, s[4..]);
      if !host.Good? then Short
      else
        var start := 4 + host.used;
        if |s| < start + 2 then Short
        else Good(Destination(kind, host.value, (s[start] as int) * 0x100 + s[start + 1]), start + 2)
  }

  /** A whole negotiation: what it comes to, and what the server has answered. */
  datatype Outcome =
    | Unfinished(replies: Bytes)
    | Refused(used: nat, replies: Bytes)
    | Accepted(request: Request, used: nat, replies: Bytes)

  function Negotiated(authentication: bool, s: Bytes): Outcome {
    match ReadMethods(s)
    case Short => Unfinished([])
    case Broken(used) => Refused(used, [])
    case Good(methods, used) =>
      match MethodOf(authentication, methods)
      case None => Refused(used, [SOCKS_VERSION, NO_ACCEPTABLE_METHODS])
      case Some(chosen) =>
        var replies := [SOCKS_VERSION, chosen];
        AfterMethod(chosen, s[used..], used, replies)
  }

  function AfterMethod(chosen: Octet, s: Bytes, before: nat, replies: Bytes): Outcome {
    if chosen == USERNAME_PASSWORD then WithCredentials(s, before, replies)
    else WithDestination(None, s, before, replies)
  }

  function WithCredentials(s: Bytes, before: nat, replies: Bytes): Outcome {
    match ReadCredentials(s)
    case Short => Unfinished(replies)
    case Broken(used) => Refused(before + used, replies)
    case Good(credentials, used) =>
      var rest := if used <= |s| then s[used..] else [];
      WithDestination(Some(credentials), rest, before + used, replies + [AUTH_VERSION, AUTH_SUCCESS])
  }

  function WithDestination(credentials: Option<Credentials>, s: Bytes, before: nat, replies: Bytes): Outcome {
    match ReadDestination(s)
    case Short => Unfinished(replies)
    case Broken(used) => Refused(before + used, replies)
    case Good(destination, used) => Accepted(Request(destination, credentials), before + used, replies + SUCCESS_REPLY)
  }

  // What a client sends.

  function WriteMethods(methods: Bytes): Bytes
    requires |methods| <= 255
  {
    [0x05, |methods|] + methods
  }

  function WriteCounted(octets: Bytes): Bytes
    requires |octets| <= 255
  {
    [|octets|] + octets
  }

  function WriteCredentials(c: Credentials): Bytes
    requires |c.username| <= 255 && |c.password| <= 255
  {
    [0x01] + (WriteCounted(c.username) + WriteCounted(c.password))
  }

  predicate WellFormed(d: Destination) {
    && d.port < 0x10000
    && match d.addressType
       case IPV4 => |d.host| == 4
       case IPV6 => |d.host| == 16
       case DOMAINNAME => |d.host| <= 255
  }

  function WriteHost(d: Destination): Bytes
    requires WellFormed(d)
  {
    if d.addressType.DOMAINNAME? then WriteCounted(d.host) else d.host
  }

  function WriteDestination(d: Destination, reserved: Octet): Bytes
    requires WellFormed(d)
  {
    [0x05, 0x01, reserved, Atyp(d.addressType)] + (WriteHost(d) + [d.port / 0x100, d.port % 0x100])
  }

  /** A well-formed client: its methods, and the credentials it holds, sent only where that method is chosen. */
  datatype Client = Client(methods: Bytes, credentials: Credentials, destination: Destination, reserved: Octet)

  predicate Proper(client: Client) {
    && |client.methods| <= 255 && |client.credentials.username| <= 255 && |client.credentials.password| <= 255
    && WellFormed(client.destination)
  }

  /** The method the server is to choose: username and password, X'02', where that is enabled and offered. */
  predicate Authenticates(authentication: bool, methods: Bytes) {
    authentication && 0x02 in methods
  }

  /** Otherwise none, X'00', where that is offered. */
  predicate Acceptable(authentication: bool, methods: Bytes) {
    Authenticates(authentication, methods) || 0x00 in methods
  }

  /** The method chosen is that one, and there is none exactly where neither is to be had. */
  lemma Chosen(authentication: bool, methods: Bytes)
    ensures MethodOf(authentication, methods)
         == if Authenticates(authentication, methods) then Some(0x02) else if 0x00 in methods then Some(0x00) else None
    ensures MethodOf(authentication, methods).Some? <==> Acceptable(authentication, methods)
    ensures MethodOf(authentication, methods) == Some(USERNAME_PASSWORD) <==> Authenticates(authentication, methods)
  {
  }

  function Asked(authentication: bool, client: Client): Request {
    Request(client.destination,
            if Authenticates(authentication, client.methods) then Some(client.credentials) else None)
  }

  /** What the server answers along the way. */
  function Answered(authentication: bool, client: Client): Bytes {
    (if Authenticates(authentication, client.methods) then [0x05, 0x02, 0x01, 0x00] else [0x05, 0x00])
    + [0x05, 0x00, 0x00, 0x01, 0, 0, 0, 0, 0, 0]
  }

  function Written(authentication: bool, client: Client): Bytes
    requires Proper(client)
  {
    WriteMethods(client.methods)
    + ((if Authenticates(authentication, client.methods) then WriteCredentials(client.credentials) else [])
       + WriteDestination(client.destination, client.reserved))
  }

  // Reading undoes writing.

  lemma MethodsBack(methods: Bytes, rest: Bytes)
    requires |methods| <= 255
    ensures ReadMethods(WriteMethods(methods) + rest) == Good(methods, |WriteMethods(methods)|)
  {
    var s := WriteMethods(methods) + rest;
    assert s[2..2 + |methods|] == methods;
  }

  lemma CountedBack(octets: Bytes, rest: Bytes)
    requires |octets| <= 255
    ensures ReadCounted(WriteCounted(octets) + rest) == Good(octets, 1 + |octets|)
  {
    var s := WriteCounted(octets) + rest;
    assert s[1..1 + |octets|] == octets;
  }

  lemma CredentialsBack(c: Credentials, rest: Bytes)
    requires |c.username| <= 255 && |c.password| <= 255
    ensures ReadCredentials(WriteCredentials(c) + rest) == Good(c, |WriteCredentials(c)|)
  {
    hide ReadCounted;
    var s := WriteCredentials(c) + rest;
    var first, second := WriteCounted(c.username), WriteCounted(c.password);
    assert s[1..] == first + (second + rest);
    CountedBack(c.username, second + rest);
    assert s[1 + |first|..] == second + rest;
    CountedBack(c.password, rest);
  }

  lemma HostBack(d: Destination, rest: Bytes)
    requires WellFormed(d)
    ensures ReadHost(d.addressType, WriteHost(d) + rest) == Good(d.host, |WriteHost(d)|)
  {
    if d.addressType.DOMAINNAME? {
      CountedBack(d.host, rest);
    } else {
      assert (d.host + rest)[..|d.host|] == d.host;
    }
  }

  lemma DestinationBack(d: Destination, reserved: Octet, rest: Bytes)
    requires WellFormed(d)
    ensures ReadDestination(WriteDestination(d, reserved) + rest) == Good(d, |WriteDestination(d, reserved)|)
  {
    hide ReadHost, WriteHost;
    var s, host := WriteDestination(d, reserved) + rest, WriteHost(d);
    var port := [d.port / 0x100, d.port % 0x100];
    assert s[4..] == host + (port + rest);
    HostBack(d, port + rest);
    assert s[4 + |host|..] == port + rest;
    assert s[4 + |host|] == d.port / 0x100 && s[4 + |host| + 1] == d.port % 0x100;
  }

  /**
    The negotiation undoes the client's encoding: the request is the one encoded, with its credentials
    exactly where that method is enabled and offered, every reply is sent, and not one octet past it is read.
   */
  lemma RoundTrip(authentication: bool, client: Client, rest: Bytes)
    requires Proper(client) && Acceptable(authentication, client.methods)
    ensures Negotiated(authentication, Written(authentication, client) + rest)
         == Accepted(Asked(authentication, client), |Written(authentication, client)|, Answered(authentication, client))
  {
    hide ReadMethods, ReadCredentials, ReadDestination, WriteMethods, WriteCredentials, WriteDestination;
    Chosen(authentication, client.methods);
    var s := Written(authentication, client) + rest;
    var methods, destination := WriteMethods(client.methods), WriteDestination(client.destination, client.reserved);
    DestinationBack(client.destination, client.reserved, rest);
    if Authenticates(authentication, client.methods) {
      var credentials := WriteCredentials(client.credentials);
      assert s == methods + (credentials + (destination + rest));
      MethodsBack(client.methods, credentials + (destination + rest));
      assert s[|methods|..] == credentials + (destination + rest);
      CredentialsBack(client.credentials, destination + rest);
      assert s[|methods|..][|credentials|..] == destination + rest;
    } else {
      assert s == methods + (destination + rest);
      MethodsBack(client.methods, destination + rest);
      assert s[|methods|..] == destination + rest;
    }
  }

  /** A client with no method the server takes is refused with X'FF'. */
  lemma NoMethod(authentication: bool, client: Client, rest: Bytes)
    requires Proper(client) && !Acceptable(authentication, client.methods)
    ensures Negotiated(authentication, Written(authentication, client) + rest)
         == Refused(2 + |client.methods|, [0x05, 0xFF])
  {
    Chosen(authentication, client.methods);
    hide ReadMethods, WriteDestination;
    var methods, destination := WriteMethods(client.methods), WriteDestination(client.destination, client.reserved);
    assert Written(authentication, client) + rest == methods + (destination + rest);
    MethodsBack(client.methods, destination + rest);
  }

  /** The methods offered are all there. */
  predicate Offered(s: Bytes) {
    |s| >= 2 && s[0] == 0x05 && |s| >= 2 + (s[1] as int)
  }

  function Offer(s: Bytes): Bytes
    requires Offered(s)
  {
    s[2..2 + (s[1] as int)]
  }

  /**
    Of any octets whatever: the methods offered decide the first reply, and whether credentials are asked for. Where
    X'02' is enabled and offered it is chosen, where only X'00' can be that is, and otherwise it ends there with X'FF'.
   */
  lemma MethodDecides(authentication: bool, s: Bytes)
    requires Offered(s)
    ensures
      var outcome := Negotiated(authentication, s);
      if authentication && 0x02 in Offer(s) then
        [0x05, 0x02] <= outcome.replies && (outcome.Accepted? ==> outcome.request.credentials.Some?)
      else if 0x00 in Offer(s) then
        [0x05, 0x00] <= outcome.replies && (outcome.Accepted? ==> outcome.request.credentials.None?)
      else outcome == Refused(2 + |Offer(s)|, [0x05, 0xFF])
  {
    hide ReadCredentials, ReadDestination;
    Chosen(authentication, Offer(s));
    assert ReadMethods(s) == Good(Offer(s), 2 + |Offer(s)|);
  }

  /** Nothing is accepted that offers no methods. */
  lemma AcceptedOffers(authentication: bool, s: Bytes)
    requires Negotiated(authentication, s).Accepted?
    ensures Offered(s)
  {
    hide AfterMethod, MethodOf;
  }

  // What is accepted was written by a well-formed client.

  lemma CountedWas(s: Bytes)
    requires ReadCounted(s).Good?
    ensures var part := ReadCounted(s);
      |part.value| <= 255 && part.used <= |s| && s[..part.used] == WriteCounted(part.value)
  {
  }

  lemma MethodsWere(s: Bytes)
    requires ReadMethods(s).Good?
    ensures var part := ReadMethods(s);
      |part.value| <= 255 && part.used <= |s| && s[..part.used] == WriteMethods(part.value)
  {
  }

  lemma CredentialsWere(s: Bytes)
    requires ReadCredentials(s).Good?
    ensures var part := ReadCredentials(s);
      && |part.value.username| <= 255 && |part.value.password| <= 255
      && part.used <= |s| && s[..part.used] == WriteCredentials(part.value)
  {
    hide ReadCounted, WriteCounted;
    CountedWas(s[1..]);
    var username := ReadCounted(s[1..]);
    CountedWas(s[1 + username.used..]);
    var password := ReadCounted(s[1 + username.used..]);
    assert s[..1 + username.used + password.used]
        == [s[0]] + (s[1..][..username.used] + s[1 + username.used..][..password.used]);
  }

  lemma HostWas(kind: AddressType, s: Bytes, port: nat)
    requires ReadHost(kind, s).Good? && port < 0x10000
    ensures var part := ReadHost(kind, s); var d := Destination(kind, part.value, port);
      WellFormed(d) && part.used <= |s| && s[..part.used] == WriteHost(d)
  {
    if kind.DOMAINNAME? {
      CountedWas(s);
    }
  }

  lemma DestinationWas(s: Bytes)
    requires ReadDestination(s).Good?
    ensures var part := ReadDestination(s);
      WellFormed(part.value) && 4 <= part.used <= |s| && s[..part.used] == WriteDestination(part.value, s[2])
  {
    hide ReadHost, WriteHost;
    var d, used := ReadDestination(s).value, ReadDestination(s).used;
    HostWas(d.addressType, s[4..], d.port);
    var host := WriteHost(d);
    assert s[4..][..|host|] == host;
    assert s[..used] == [s[0], s[1], s[2], s[3]] + (host + [s[used - 2], s[used - 1]]);
  }

  ghost predicate WrittenBy(authentication: bool, client: Client, s: Bytes) {
    && Proper(client) && Acceptable(authentication, client.methods)
    && Written(authentication, client) <= s
    && Negotiated(authentication, s).Accepted?
    && Negotiated(authentication, s).request == Asked(authentication, client)
    && Negotiated(authentication, s).used == |Written(authentication, client)|
  }

  /** The octets after the methods: with credentials, or without. */
  lemma RestWas(chosen: bool, rest: Bytes) returns (credentials: Credentials, after: Bytes)
    requires chosen ==> ReadCredentials(rest).Good?
    ensures |credentials.username| <= 255 && |credentials.password| <= 255
    ensures chosen ==> credentials == ReadCredentials(rest).value && ReadCredentials(rest).used <= |rest|
                       && after == rest[ReadCredentials(rest).used..]
    ensures !chosen ==> after == rest
    ensures rest == (if chosen then WriteCredentials(credentials) else []) + after
  {
    hide ReadCredentials, WriteCredentials;
    credentials, after := Credentials([], []), rest;
    if chosen {
      CredentialsWere(rest);
      credentials := ReadCredentials(rest).value;
      after := rest[ReadCredentials(rest).used..];
    }
  }

  lemma Regrouped(a: Bytes, b: Bytes, c: Bytes, d: Bytes)
    ensures a + (b + (c + d)) == (a + (b + c)) + d
  {
  }

  /** What an accepted negotiation's parts were. */
  lemma PartsOf(authentication: bool, s: Bytes)
    requires Negotiated(authentication, s).Accepted?
    ensures ReadMethods(s).Good? && ReadMethods(s).used <= |s|
    ensures var rest := s[ReadMethods(s).used..]; var chosen := MethodOf(authentication, ReadMethods(s).value);
      && chosen.Some?
      && if chosen == Some(USERNAME_PASSWORD)
         then
           && ReadCredentials(rest).Good? && ReadCredentials(rest).used <= |rest|
           && ReadDestination(rest[ReadCredentials(rest).used..]).Good?
         else ReadDestination(rest).Good?
  {
    hide ReadCredentials, ReadDestination, ReadMethods, MethodOf;
    MethodsWere(s);
    var rest := s[ReadMethods(s).used..];
    if ReadCredentials(rest).Good? {
      CredentialsWere(rest);
    }
  }

  lemma Assembled(authentication: bool, s: Bytes, client: Client, rest: Bytes, after: Bytes, tail: Bytes)
    requires Proper(client) && s == WriteMethods(client.methods) + rest
    requires
      rest == (if Authenticates(authentication, client.methods) then WriteCredentials(client.credentials) else [])
              + after
    requires after == WriteDestination(client.destination, client.reserved) + tail
    ensures s == Written(authentication, client) + tail
  {
    hide Authenticates, WriteMethods, WriteCredentials, WriteDestination, WellFormed;
    var sent := if Authenticates(authentication, client.methods) then WriteCredentials(client.credentials) else [];
    Regrouped(WriteMethods(client.methods), sent, WriteDestination(client.destination, client.reserved), tail);
  }

  lemma TakeDestination(s: Bytes) returns (d: Destination, reserved: Octet, tail: Bytes)
    requires ReadDestination(s).Good?
    ensures WellFormed(d) && s == WriteDestination(d, reserved) + tail
  {
    hide ReadDestination, WriteDestination, WellFormed;
    DestinationWas(s);
    d, reserved, tail := ReadDestination(s).value, s[2], s[ReadDestination(s).used..];
  }

  lemma TakeMethods(s: Bytes) returns (methods: Bytes, rest: Bytes)
    requires ReadMethods(s).Good?
    ensures methods == ReadMethods(s).value && ReadMethods(s).used <= |s| && rest == s[ReadMethods(s).used..]
    ensures |methods| <= 255 && s == WriteMethods(methods) + rest
  {
    hide ReadMethods, WriteMethods;
    MethodsWere(s);
    methods, rest := ReadMethods(s).value, s[ReadMethods(s).used..];
  }

  lemma ClientOf(authentication: bool, s: Bytes) returns (client: Client, tail: Bytes)
    requires Negotiated(authentication, s).Accepted?
    ensures Proper(client) && Acceptable(authentication, client.methods)
    ensures s == Written(authentication, client) + tail
  {
    hide Negotiated, MethodOf, ReadMethods, ReadCredentials, ReadDestination, WriteMethods, WriteCredentials,
         WriteDestination, WellFormed, Written, Authenticates, Acceptable;
    PartsOf(authentication, s);
    var methods, rest := TakeMethods(s);
    Chosen(authentication, methods);
    var credentials, after := RestWas(Authenticates(authentication, methods), rest);
    var d, reserved;
    d, reserved, tail := TakeDestination(after);
    client := Client(methods, credentials, d, reserved);
    Assembled(authentication, s, client, rest, after, tail);
  }

  /** Nothing but a well-formed client's octets is accepted. */
  lemma OnlyClients(authentication: bool, s: Bytes) returns (client: Client)
    requires Negotiated(authentication, s).Accepted?
    ensures WrittenBy(authentication, client, s)
  {
    hide Negotiated, Acceptable, Written, Proper;
    var tail;
    client, tail := ClientOf(authentication, s);
    RoundTrip(authentication, client, tail);
  }
}
