/**
  `sync_with_ping` against a node that handles a connection's messages in the order they arrive, answers a
  ping with its nonce as it handles it, and otherwise sends what it likes when it likes. What the peer
  itself sends and receives meanwhile is `Peer.WaitFor`.
 */
module PingBarrier {
  import opened Octets
  import opened Wrappers
  import opened Packets
  import opened PeerReceive

  type NonceOf = Bytes -> Option<nat>

  /** What each side has sent, and how much of it the other has handled. */
  datatype World = World(sent: seq<Outgoing>, handled: nat, answered: seq<Message>, got: nat)

  datatype Event =
    | Send(message: Outgoing)
    | Handle(replies: seq<Message>)
    | Emit(messages: seq<Message>)
    | Receive

  function PingNonces(sent: seq<Outgoing>): seq<nat> {
    if sent == [] then []
    else PingNonces(sent[..|sent| - 1]) + if sent[|sent| - 1].Ping? then [sent[|sent| - 1].nonce] else []
  }

  function PongNonces(nonce: NonceOf, messages: seq<Message>): seq<nat>
    decreases messages
  {
    if messages == [] then []
    else
      var last := messages[|messages| - 1];
      PongNonces(nonce, messages[..|messages| - 1])
      + if last.command == PONG && nonce(last.payload).Some? then [nonce(last.payload).value] else []
  }

  predicate Enabled(nonce: NonceOf, w: World, e: Event) {
    match e
    case Send(_) => true
    case Handle(replies) => w.handled < |w.sent| && PongNonces(nonce, replies) == PingNonces([w.sent[w.handled]])
    case Emit(messages) => PongNonces(nonce, messages) == []
    case Receive => w.got < |w.answered|
  }

  function Step(nonce: NonceOf, w: World, e: Event): World
    requires Enabled(nonce, w, e)
  {
    match e
    case Send(message) => w.(sent := w.sent + [message])
    case Handle(replies) => w.(handled := w.handled + 1, answered := w.answered + replies)
    case Emit(messages) => w.(answered := w.answered + messages)
    case Receive => w.(got := w.got + 1, sent := w.sent + Answers(nonce, w.answered[w.got]))
  }

  predicate Run(nonce: NonceOf, w: World, events: seq<Event>)
    decreases events
  {
    events == [] || (Enabled(nonce, w, events[0]) && Run(nonce, Step(nonce, w, events[0]), events[1..]))
  }

  function After(nonce: NonceOf, w: World, events: seq<Event>): World
    requires Run(nonce, w, events)
    decreases events
  {
    if events == [] then w else After(nonce, Step(nonce, w, events[0]), events[1..])
  }

  /** The pongs sent are the nonces of the pings handled, in order. */
  ghost predicate Inv(nonce: NonceOf, w: World) {
    && w.handled <= |w.sent| && w.got <= |w.answered|
    && PongNonces(nonce, w.answered) == PingNonces(w.sent[..w.handled])
  }

  lemma {:induction false} PongsConcat(nonce: NonceOf, a: seq<Message>, b: seq<Message>)
    ensures PongNonces(nonce, a + b) == PongNonces(nonce, a) + PongNonces(nonce, b)
    decreases b
  {
    if b == [] {
      assert a + b == a;
    } else {
      assert (a + b)[..|a + b| - 1] == a + b[..|b| - 1];
      PongsConcat(nonce, a, b[..|b| - 1]);
    }
  }

  lemma {:induction false} PingsConcat(a: seq<Outgoing>, b: seq<Outgoing>)
    ensures PingNonces(a + b) == PingNonces(a) + PingNonces(b)
    decreases b
  {
    if b == [] {
      assert a + b == a;
    } else {
      assert (a + b)[..|a + b| - 1] == a + b[..|b| - 1];
      PingsConcat(a, b[..|b| - 1]);
    }
  }

  lemma StepKeeps(nonce: NonceOf, w: World, e: Event)
    requires Inv(nonce, w) && Enabled(nonce, w, e)
    ensures Inv(nonce, Step(nonce, w, e)) && w.sent <= Step(nonce, w, e).sent
  {
    hide PongNonces, PingNonces, Answers;
    var next := Step(nonce, w, e);
    match e {
      case Handle(replies) =>
        assert w.sent[..w.handled + 1] == w.sent[..w.handled] + [w.sent[w.handled]];
        PingsConcat(w.sent[..w.handled], [w.sent[w.handled]]);
        PongsConcat(nonce, w.answered, replies);
      case Emit(messages) =>
        PongsConcat(nonce, w.answered, messages);
      case _ =>
        assert next.sent[..w.handled] == w.sent[..w.handled];
    }
  }

  lemma {:induction false} RunKeeps(nonce: NonceOf, w: World, events: seq<Event>)
    requires Inv(nonce, w) && Run(nonce, w, events)
    ensures Inv(nonce, After(nonce, w, events))
    decreases events
  {
    hide Inv, Enabled, Step;
    if events != [] {
      StepKeeps(nonce, w, events[0]);
      RunKeeps(nonce, Step(nonce, w, events[0]), events[1..]);
    }
  }

  predicate NoSend(events: seq<Event>) {
    forall k :: 0 <= k < |events| ==> !events[k].Send?
  }

  lemma PongsOfOne(nonce: NonceOf, m: Message)
    ensures Pongs(nonce, [m]) == Answers(nonce, m)
  {
    assert [m][..0] == [];
  }

  lemma {:induction false} AnswersConcat(nonce: NonceOf, a: seq<Message>, b: seq<Message>)
    ensures Pongs(nonce, a + b) == Pongs(nonce, a) + Pongs(nonce, b)
    decreases b
  {
    hide Answers;
    if b == [] {
      assert a + b == a;
    } else {
      assert (a + b)[..|a + b| - 1] == a + b[..|b| - 1];
      AnswersConcat(nonce, a, b[..|b| - 1]);
    }
  }

  /** While it waits, the peer sends the answers to the pings it receives, once each and in order, and nothing else. */
  lemma {:induction false} WaitingSends(nonce: NonceOf, w: World, events: seq<Event>)
    requires Inv(nonce, w) && Run(nonce, w, events) && NoSend(events)
    ensures var after := After(nonce, w, events);
      && w.got <= after.got <= |after.answered| && w.answered <= after.answered
      && after.sent == w.sent + Pongs(nonce, after.answered[w.got..after.got])
    decreases events, 0
  {
    hide Enabled, PongNonces, PingNonces, Pongs, Answers;
    if events == [] {
      assert w.answered[w.got..w.got] == [];
      PongsOfNone(nonce);
    } else {
      WaitingStep(nonce, w, events[0], events[1..]);
    }
  }

  lemma {:induction false} WaitingStep(nonce: NonceOf, w: World, e: Event, rest: seq<Event>)
    requires Inv(nonce, w) && Enabled(nonce, w, e) && Run(nonce, Step(nonce, w, e), rest) && !e.Send? && NoSend(rest)
    ensures var after := After(nonce, Step(nonce, w, e), rest);
      && w.got <= after.got <= |after.answered| && w.answered <= after.answered
      && after.sent == w.sent + Pongs(nonce, after.answered[w.got..after.got])
    decreases rest, 1
  {
    hide PongNonces, PingNonces, Pongs, Answers, Inv, After, Run;
    var next := Step(nonce, w, e);
    StepKeeps(nonce, w, e);
    WaitingSends(nonce, next, rest);
    var after := After(nonce, next, rest);
    if e.Receive? {
      var received := after.answered[w.got..after.got];
      assert w.got < |w.answered|;
      assert received == [w.answered[w.got]] + after.answered[next.got..after.got];
      AnswersConcat(nonce, [w.answered[w.got]], after.answered[next.got..after.got]);
      PongsOfOne(nonce, w.answered[w.got]);
    }
  }

  lemma {:induction false} PongsAreNoPings(nonce: NonceOf, messages: seq<Message>)
    ensures PingNonces(Pongs(nonce, messages)) == []
    decreases messages
  {
    if messages != [] {
      var front, last := messages[..|messages| - 1], messages[|messages| - 1];
      PongsAreNoPings(nonce, front);
      PingsConcat(Pongs(nonce, front), Answers(nonce, last));
    }
  }

  lemma {:induction false} NonceReceived(nonce: NonceOf, messages: seq<Message>, k: nat, n: nat)
    requires k < |messages| && IsPong(nonce, messages[k], n)
    ensures n in PongNonces(nonce, messages)
    decreases messages
  {
    if k < |messages| - 1 {
      NonceReceived(nonce, messages[..|messages| - 1], k, n);
    }
  }

  lemma TwoPings(before: seq<Outgoing>, n: nat)
    requires n != 0 && n !in PingNonces(before)
    ensures n !in PingNonces(before + [Ping(0)])
  {
    PingsConcat(before, [Ping(0)]);
    assert PingNonces([Ping(0)]) == [0] by { assert [Ping(0)][..0] == []; }
  }

  lemma {:induction false} FewerPings(sent: seq<Outgoing>, k: nat, n: nat)
    requires k <= |sent| && n in PingNonces(sent[..k])
    ensures n in PingNonces(sent)
  {
    assert sent == sent[..k] + sent[k..];
    PingsConcat(sent[..k], sent[k..]);
  }

  /**
    The barrier: whatever was pending when the two pings went out, once the second one's nonce has come
    back, every message sent before the pings has been handled, and so have both pings.
   */
  lemma Barrier(nonce: NonceOf, before: seq<Event>, n: nat, during: seq<Event>, k: nat)
    requires Run(nonce, World([], 0, [], 0), before)
    requires n != 0 && n !in PingNonces(After(nonce, World([], 0, [], 0), before).sent)
    requires var w := After(nonce, World([], 0, [], 0), before);
      && NoSend(during) && Run(nonce, w.(sent := w.sent + [Ping(0), Ping(n)]), during)
      && var after := After(nonce, w.(sent := w.sent + [Ping(0), Ping(n)]), during);
         k < after.got <= |after.answered| && IsPong(nonce, after.answered[k], n)
    ensures var w := After(nonce, World([], 0, [], 0), before);
      After(nonce, w.(sent := w.sent + [Ping(0), Ping(n)]), during).handled >= |w.sent| + 2
  {
    hide Run, After, PingNonces, PongNonces, IsPong, NoSend;
    assert Inv(nonce, World([], 0, [], 0)) by { NothingYet(nonce); }
    RunKeeps(nonce, World([], 0, [], 0), before);
    var w := After(nonce, World([], 0, [], 0), before);
    BarrierFrom(nonce, w, n, during, k);
  }

  lemma NothingYet(nonce: NonceOf)
    ensures Inv(nonce, World([], 0, [], 0))
  {
  }

  lemma BarrierFrom(nonce: NonceOf, w: World, n: nat, during: seq<Event>, k: nat)
    requires Inv(nonce, w) && n != 0 && n !in PingNonces(w.sent)
    requires var start := w.(sent := w.sent + [Ping(0), Ping(n)]);
      && NoSend(during) && Run(nonce, start, during)
      && k < |After(nonce, start, during).answered| && IsPong(nonce, After(nonce, start, during).answered[k], n)
    ensures After(nonce, w.(sent := w.sent + [Ping(0), Ping(n)]), during).handled >= |w.sent| + 2
  {
    hide Run, After, PingNonces, PongNonces, IsPong, NoSend, Pongs;
    var start := w.(sent := w.sent + [Ping(0), Ping(n)]);
    assert start.sent[..w.handled] == w.sent[..w.handled];
    RunKeeps(nonce, start, during);
    WaitingSends(nonce, start, during);
    var after := After(nonce, start, during);
    NonceReceived(nonce, after.answered, k, n);
    if after.handled < |w.sent| + 2 {
      TwoPings(w.sent, n);
      var early := w.sent + [Ping(0)];
      assert after.sent[..after.handled] == early[..after.handled];
      FewerPings(early, after.handled, n);
    }
  }

  /** Handling goes one message at a time, so a run that handled more passed every count on the way. */
  lemma {:induction false} Passes(nonce: NonceOf, w: World, events: seq<Event>, count: nat)
    requires Run(nonce, w, events) && w.handled <= count <= After(nonce, w, events).handled
    ensures exists j: nat ::
      j <= |events| && Run(nonce, w, events[..j]) && After(nonce, w, events[..j]).handled == count
    decreases events
  {
    if w.handled == count {
      assert events[..0] == [];
      assert Run(nonce, w, events[..0]) && After(nonce, w, events[..0]).handled == count;
    } else {
      var next := Step(nonce, w, events[0]);
      Passes(nonce, next, events[1..], count);
      var rest := events[1..];
      var j: nat :| j <= |rest| && Run(nonce, next, rest[..j]) && After(nonce, next, rest[..j]).handled == count;
      assert events[..j + 1][1..] == events[1..][..j];
      assert Run(nonce, w, events[..j + 1]) && After(nonce, w, events[..j + 1]).handled == count;
    }
  }

  /** So the first ping was handled by a step of its own, before the second. */
  lemma FirstPingHandledApart(nonce: NonceOf, w: World, n: nat, during: seq<Event>, k: nat)
    requires Inv(nonce, w) && n != 0 && n !in PingNonces(w.sent)
    requires var start := w.(sent := w.sent + [Ping(0), Ping(n)]);
      && NoSend(during) && Run(nonce, start, during)
      && k < |After(nonce, start, during).answered| && IsPong(nonce, After(nonce, start, during).answered[k], n)
    ensures var start := w.(sent := w.sent + [Ping(0), Ping(n)]);
      exists j: nat ::
        j <= |during| && Run(nonce, start, during[..j]) && After(nonce, start, during[..j]).handled == |w.sent| + 1
  {
    hide Run, After, PingNonces, PongNonces, IsPong, NoSend;
    BarrierFrom(nonce, w, n, during, k);
    Passes(nonce, w.(sent := w.sent + [Ping(0), Ping(n)]), during, |w.sent| + 1);
  }

  /**
    `Peer.SyncWithPing` makes that barrier. `returned` is what the peer received while it waited, ending with the
    pong the method returns on: everything sent before has been handled, and what the peer has sent since is what
    the method says of its outbox.
   */
  lemma SyncIsBarrier(nonce: NonceOf, w: World, n: nat, during: seq<Event>, returned: seq<Message>)
    requires Inv(nonce, w) && n != 0 && n !in PingNonces(w.sent)
    requires NoSend(during) && Run(nonce, w.(sent := w.sent + [Ping(0), Ping(n)]), during)
    requires
      var after := After(nonce, w.(sent := w.sent + [Ping(0), Ping(n)]), during);
      w.got <= after.got <= |after.answered| && returned == after.answered[w.got..after.got]
    requires returned != [] && IsPong(nonce, returned[|returned| - 1], n)
    ensures
      var after := After(nonce, w.(sent := w.sent + [Ping(0), Ping(n)]), during);
      after.handled >= |w.sent| + 2 && after.sent == w.sent + [Ping(0), Ping(n)] + Pongs(nonce, returned)
  {
    hide Run, After, PingNonces, PongNonces, IsPong, NoSend, Pongs;
    var start := w.(sent := w.sent + [Ping(0), Ping(n)]);
    assert start.sent[..w.handled] == w.sent[..w.handled];
    var after := After(nonce, start, during);
    assert after.answered[after.got - 1] == returned[|returned| - 1];
    WaitingSends(nonce, start, during);
    BarrierFrom(nonce, w, n, during, after.got - 1);
  }
}
