/**
  The proxy's threads and `close`, one atomic step at a time: the serving thread, a forwarding thread for
  each connection handed on, and the closing thread, in any interleaving, with joins that may expire.
 */
module Socks5Close {

  type Conn = nat

  /** What `next_request` is to find, in order. */
  datatype Queued = Requested(conn: Conn) | Refusal(conn: Conn) | ForwardFailure(conn: Conn)

  /** Where the serving thread is; `Taking` is past the check for `close`, and not yet seen to negotiate. */
  datatype Serve =
    | Accepting
    | Checking(conn: Conn)
    | Taking(conn: Conn)
    | Negotiating(conn: Conn)
    | Closing(conn: Conn)
    | Reporting(conn: Conn)
    | Queueing(conn: Conn)
    | Tracking(conn: Conn)
    | Holding(conn: Conn)
    | Starting(conn: Conn)
    | Clearing
    | Exited

  /** Where a forwarding thread is, `Raised` with its connection already closed. */
  datatype Forwarder = Forwarding | Raised | Putting | Discarding | Finished

  /** Where `close` is. */
  datatype Close =
    | Idle
    | Shutting(todo: set<Conn>)
    | ShuttingNegotiating
    | Waking
    | JoiningServe
    | ClosingHeld(done: nat)
    | JoiningForwarders(done: nat)
    | Returned

  datatype State = State(
    forwards: bool,
    closing: bool,
    negotiating: set<Conn>,
    held: seq<Conn>,
    forwarded: set<Conn>,
    forwarders: seq<Conn>,
    threads: map<Conn, Forwarder>,
    results: seq<Queued>,
    accepted: set<Conn>,
    open: set<Conn>,
    shut: set<Conn>,
    serve: Serve,
    close: Close,
    completed: bool)

  function Started(forwards: bool): State {
    State(forwards, false, {}, [], {}, [], map[], [], {}, {}, {}, Accepting, Idle, true)
  }

  /** The steps there is a choice in: a new connection, a negotiation's end, a copying's end, a join's end. */
  datatype Event =
    | Accept(conn: Conn)
    | Negotiated(ok: bool)
    | ServeOn
    | ForwardEnds(conn: Conn, raised: bool)
    | ForwardOn(conn: Conn)
    | CloseOn
    | ShutOne(conn: Conn)
    | JoinEnds(expired: bool)

  predicate ServeEnabled(s: State, e: Event) {
    match e
    case Accept(conn) => s.serve.Accepting? && conn !in s.accepted
    case Negotiated(_) => s.serve.Negotiating?
    case ServeOn => !s.serve.Accepting? && !s.serve.Negotiating? && !s.serve.Exited?
    case _ => false
  }

  function ServeStep(s: State, e: Event): State
    requires ServeEnabled(s, e)
  {
    match s.serve
    case Accepting => s.(serve := Checking(e.conn), accepted := s.accepted + {e.conn}, open := s.open + {e.conn})
    case Checking(c) =>
      if s.closing then s.(serve := Exited, open := s.open - {c}) else s.(serve := Taking(c))
    case Taking(c) => s.(serve := Negotiating(c), negotiating := {c})
    case Negotiating(c) => s.(serve := if e.ok then Queueing(c) else Closing(c))
    case Closing(c) => s.(serve := Reporting(c), open := s.open - {c})
    case Reporting(c) => s.(serve := Clearing, results := s.results + [Refusal(c)])
    case Queueing(c) => s.(serve := Tracking(c), results := s.results + [Requested(c)])
    case Tracking(c) =>
      if !s.forwards || s.closing then s.(serve := Holding(c))
      else s.(serve := Starting(c), forwarded := s.forwarded + {c})
    case Holding(c) => s.(serve := Clearing, held := s.held + [c])
    case Starting(c) => s.(serve := Clearing, forwarders := s.forwarders + [c], threads := s.threads[c := Forwarding])
    case Clearing => s.(serve := Accepting, negotiating := {})
    case Exited => s
  }

  predicate ForwardEnabled(s: State, e: Event) {
    match e
    case ForwardEnds(c, _) => c in s.threads && s.threads[c].Forwarding?
    case ForwardOn(c) => c in s.threads && !s.threads[c].Forwarding? && !s.threads[c].Finished?
    case _ => false
  }

  function ForwardStep(s: State, e: Event): State
    requires ForwardEnabled(s, e)
  {
    var c := e.conn;
    match s.threads[c]
    case Forwarding => s.(threads := s.threads[c := if e.raised then Raised else Discarding], open := s.open - {c})
    case Raised => s.(threads := s.threads[c := if s.closing then Discarding else Putting])
    case Putting => s.(threads := s.threads[c := Discarding], results := s.results + [ForwardFailure(c)])
    case Discarding => s.(threads := s.threads[c := Finished], forwarded := s.forwarded - {c})
    case Finished => s
  }

  predicate CloseEnabled(s: State, e: Event) {
    match e
    case CloseOn =>
      (match s.close
       case Idle => true
       case Shutting(todo) => todo == {}
       case ShuttingNegotiating => true
       case Waking => true
       case JoiningServe => false
       case ClosingHeld(_) => true
       case JoiningForwarders(done) => done >= |s.forwarders|
       case Returned => false)
    case ShutOne(c) => s.close.Shutting? && c in s.close.todo
    case JoinEnds(expired) =>
      || (s.close.JoiningServe? && (expired || s.serve.Exited?))
      || (s.close.JoiningForwarders? && s.close.done < |s.forwarders|
          && (expired || (s.forwarders[s.close.done] in s.threads && s.threads[s.forwarders[s.close.done]].Finished?)))
    case _ => false
  }

  function CloseStep(s: State, e: Event): State
    requires CloseEnabled(s, e)
  {
    match s.close
    case Idle => s.(closing := true, close := Shutting(s.forwarded))
    case Shutting(todo) =>
      if e.ShutOne? then s.(close := Shutting(todo - {e.conn}), shut := s.shut + {e.conn})
      else s.(close := ShuttingNegotiating)
    case ShuttingNegotiating => s.(close := Waking, shut := s.shut + s.negotiating)
    case Waking => s.(close := JoiningServe)
    case JoiningServe => s.(close := ClosingHeld(0), completed := !e.expired)
    case ClosingHeld(done) =>
      if done < |s.held| then s.(close := ClosingHeld(done + 1), open := s.open - {s.held[done]})
      else s.(close := JoiningForwarders(0))
    case JoiningForwarders(done) =>
      if done < |s.forwarders| && e.JoinEnds? then
        s.(close := JoiningForwarders(done + 1), completed := s.completed && !e.expired)
      else s.(close := Returned)
    case Returned => s
  }

  predicate Enabled(s: State, e: Event) {
    ServeEnabled(s, e) || ForwardEnabled(s, e) || CloseEnabled(s, e)
  }

  function Step(s: State, e: Event): State
    requires Enabled(s, e)
  {
    if ServeEnabled(s, e) then ServeStep(s, e) else if ForwardEnabled(s, e) then ForwardStep(s, e) else CloseStep(s, e)
  }

  predicate Run(s: State, events: seq<Event>)
    decreases events
  {
    events == [] || (Enabled(s, events[0]) && Run(Step(s, events[0]), events[1..]))
  }

  function After(s: State, events: seq<Event>): State
    requires Run(s, events)
    decreases events
  {
    if events == [] then s else After(Step(s, events[0]), events[1..])
  }

  // What every step keeps.

  /** The connection the serving thread has in hand. */
  function InHand(serve: Serve): set<Conn> {
    match serve
    case Checking(c) => {c}
    case Taking(c) => {c}
    case Negotiating(c) => {c}
    case Closing(c) => {c}
    case Reporting(c) => {c}
    case Queueing(c) => {c}
    case Tracking(c) => {c}
    case Holding(c) => {c}
    case Starting(c) => {c}
    case _ => {}
  }

  /** Every connection has one owner: the serving thread, the list held for `close`, or a thread of its own. */
  ghost predicate OneOwner(serve: Serve, accepted: set<Conn>, held: seq<Conn>, threads: map<Conn, Forwarder>,
                           forwarders: seq<Conn>, forwarded: set<Conn>)
  {
    && (forall c :: c in InHand(serve) ==> c in accepted && c !in held && c !in threads)
    && (forall c :: c in held ==> c in accepted && c !in threads)
    && (forall c :: c in threads ==> c in accepted)
    && (forall c :: c in forwarders <==> c in threads)
    && (forall c :: c in forwarded ==> serve == Starting(c) || c in threads)
    && (serve.Starting? ==> serve.conn in forwarded)
  }

  /** A connection that is open is one its owner is still to close. */
  ghost predicate Owned(serve: Serve, held: seq<Conn>, threads: map<Conn, Forwarder>, open: set<Conn>) {
    && (serve.Reporting? ==> serve.conn !in open)
    && (forall c :: c in open ==> c in InHand(serve) || c in held || (c in threads && threads[c].Forwarding?))
  }

  /** A thread has its connection tracked until it is finished. */
  ghost predicate Tracked(threads: map<Conn, Forwarder>, forwarded: set<Conn>) {
    forall c :: c in threads ==> (c in forwarded <==> !threads[c].Finished?)
  }

  /** A forwarding failure stands behind its own request. */
  ghost predicate InOrder(results: seq<Queued>) {
    forall i :: 0 <= i < |results| && results[i].ForwardFailure? ==> Requested(results[i].conn) in results[..i]
  }

  ghost predicate Asked(serve: Serve, threads: map<Conn, Forwarder>, results: seq<Queued>) {
    && InOrder(results)
    && (forall c :: c in threads ==> Requested(c) in results)
    && (serve.Tracking? || serve.Holding? || serve.Starting? ==> Requested(serve.conn) in results)
  }

  /** How far `close` has come, where its joins so far have completed. */
  ghost predicate Exiting(closing: bool, close: Close, serve: Serve, completed: bool) {
    && (closing <==> !close.Idle?)
    && (serve.Exited? ==> closing)
    && (completed && (close.ClosingHeld? || close.JoiningForwarders? || close.Returned?) ==> serve.Exited?)
  }

  ghost predicate HeldClosed(close: Close, held: seq<Conn>, open: set<Conn>, completed: bool) {
    && (completed && close.ClosingHeld? ==>
          close.done <= |held| && forall i :: 0 <= i < close.done ==> held[i] !in open)
    && (completed && (close.JoiningForwarders? || close.Returned?) ==> forall c :: c in held ==> c !in open)
  }

  predicate FinishedIn(threads: map<Conn, Forwarder>, c: Conn) {
    c in threads && threads[c].Finished?
  }

  ghost predicate Joined(close: Close, forwarders: seq<Conn>, threads: map<Conn, Forwarder>, completed: bool) {
    && (completed && close.JoiningForwarders? ==>
          close.done <= |forwarders| && forall i :: 0 <= i < close.done ==> FinishedIn(threads, forwarders[i]))
    && (completed && close.Returned? ==> forall c :: c in forwarders ==> FinishedIn(threads, c))
  }

  /** Once `close` is past shutting connections down, every one still forwarded has been. */
  ghost predicate ShutDown(close: Close, forwarded: set<Conn>, shut: set<Conn>) {
    && (close.Shutting? ==> forwarded <= shut + close.todo)
    && (!close.Idle? && !close.Shutting? ==> forwarded <= shut)
  }

  /** What a thread is still at work on is still open. */
  ghost predicate Live(serve: Serve, threads: map<Conn, Forwarder>, open: set<Conn>) {
    && (!serve.Reporting? ==> InHand(serve) <= open)
    && (forall c :: c in threads && threads[c].Forwarding? ==> c in open)
  }

  ghost predicate Inv(s: State) {
    && OneOwner(s.serve, s.accepted, s.held, s.threads, s.forwarders, s.forwarded)
    && Owned(s.serve, s.held, s.threads, s.open)
    && Tracked(s.threads, s.forwarded)
    && Asked(s.serve, s.threads, s.results)
    && Exiting(s.closing, s.close, s.serve, s.completed)
    && HeldClosed(s.close, s.held, s.open, s.completed)
    && Joined(s.close, s.forwarders, s.threads, s.completed)
    && ShutDown(s.close, s.forwarded, s.shut)
    && Live(s.serve, s.threads, s.open)
  }

  lemma InOrderNext(results: seq<Queued>, r: Queued)
    requires InOrder(results) && (r.ForwardFailure? ==> Requested(r.conn) in results)
    ensures InOrder(results + [r])
  {
    var more := results + [r];
    forall i | 0 <= i < |more| && more[i].ForwardFailure? ensures Requested(more[i].conn) in more[..i] {
      assert more[..i] == results[..i];
    }
  }

  // The connection in hand, as the serving thread goes on.

  lemma HandShrinks(serve: Serve, next: Serve, accepted: set<Conn>, held: seq<Conn>, threads: map<Conn, Forwarder>,
                    forwarders: seq<Conn>, forwarded: set<Conn>)
    requires OneOwner(serve, accepted, held, threads, forwarders, forwarded)
    requires InHand(next) <= InHand(serve) && !serve.Starting? && !next.Starting?
    ensures OneOwner(next, accepted, held, threads, forwarders, forwarded)
  {
  }

  lemma HandAccepts(c: Conn, accepted: set<Conn>, held: seq<Conn>, threads: map<Conn, Forwarder>,
                    forwarders: seq<Conn>, forwarded: set<Conn>)
    requires OneOwner(Accepting, accepted, held, threads, forwarders, forwarded) && c !in accepted
    ensures OneOwner(Checking(c), accepted + {c}, held, threads, forwarders, forwarded)
  {
  }

  lemma HandTracks(c: Conn, accepted: set<Conn>, held: seq<Conn>, threads: map<Conn, Forwarder>,
                   forwarders: seq<Conn>, forwarded: set<Conn>)
    requires OneOwner(Tracking(c), accepted, held, threads, forwarders, forwarded)
    ensures OneOwner(Starting(c), accepted, held, threads, forwarders, forwarded + {c})
  {
  }

  lemma HandHolds(c: Conn, accepted: set<Conn>, held: seq<Conn>, threads: map<Conn, Forwarder>,
                  forwarders: seq<Conn>, forwarded: set<Conn>)
    requires OneOwner(Holding(c), accepted, held, threads, forwarders, forwarded)
    ensures OneOwner(Clearing, accepted, held + [c], threads, forwarders, forwarded)
  {
    assert c in InHand(Holding(c));
  }

  lemma HandStarts(c: Conn, accepted: set<Conn>, held: seq<Conn>, threads: map<Conn, Forwarder>,
                   forwarders: seq<Conn>, forwarded: set<Conn>)
    requires OneOwner(Starting(c), accepted, held, threads, forwarders, forwarded)
    ensures OneOwner(Clearing, accepted, held, threads[c := Forwarding], forwarders + [c], forwarded)
  {
    assert c in InHand(Starting(c));
  }

  /** What a step of the serving thread does to the connections it owns, by where it is. */
  lemma ServeKeepsOneOwner(s: State, e: Event)
    requires Inv(s) && ServeEnabled(s, e)
    ensures var t := ServeStep(s, e); OneOwner(t.serve, t.accepted, t.held, t.threads, t.forwarders, t.forwarded)
  {
    hide OneOwner, Owned, Tracked, Asked, Exiting, HeldClosed, Joined, ShutDown, Live;
    var t := ServeStep(s, e);
    match s.serve {
      case Accepting => HandAccepts(e.conn, s.accepted, s.held, s.threads, s.forwarders, s.forwarded);
      case Holding(c) => HandHolds(c, s.accepted, s.held, s.threads, s.forwarders, s.forwarded);
      case Starting(c) => HandStarts(c, s.accepted, s.held, s.threads, s.forwarders, s.forwarded);
      case Tracking(c) =>
        if t.serve.Starting? {
          HandTracks(c, s.accepted, s.held, s.threads, s.forwarders, s.forwarded);
        } else {
          HandShrinks(s.serve, t.serve, s.accepted, s.held, s.threads, s.forwarders, s.forwarded);
        }
      case _ => HandShrinks(s.serve, t.serve, s.accepted, s.held, s.threads, s.forwarders, s.forwarded);
    }
  }

  lemma OwnedMoves(serve: Serve, next: Serve, held: seq<Conn>, more: seq<Conn>, threads: map<Conn, Forwarder>,
                   open: set<Conn>, left: set<Conn>)
    requires Owned(serve, held, threads, open) && left <= open && held <= more
    requires forall c :: c in left && c in InHand(serve) ==> c in InHand(next) || c in more
    requires next.Reporting? ==> next.conn !in left
    ensures Owned(next, more, threads, left)
  {
  }

  lemma OwnedStarts(c: Conn, held: seq<Conn>, threads: map<Conn, Forwarder>, open: set<Conn>)
    requires Owned(Starting(c), held, threads, open)
    ensures Owned(Clearing, held, threads[c := Forwarding], open)
  {
  }

  lemma OwnedAccepts(c: Conn, held: seq<Conn>, threads: map<Conn, Forwarder>, open: set<Conn>)
    requires Owned(Accepting, held, threads, open)
    ensures Owned(Checking(c), held, threads, open + {c})
  {
  }

  lemma ServeKeepsOwned(s: State, e: Event)
    requires Inv(s) && ServeEnabled(s, e)
    ensures var t := ServeStep(s, e); Owned(t.serve, t.held, t.threads, t.open)
  {
    hide OneOwner, Owned, Tracked, Asked, Exiting, HeldClosed, Joined, ShutDown, Live;
    var t := ServeStep(s, e);
    match s.serve {
      case Accepting => OwnedAccepts(e.conn, s.held, s.threads, s.open);
      case Starting(c) => OwnedStarts(c, s.held, s.threads, s.open);
      case Reporting(c) => ReportingClosed(s); OwnedMoves(s.serve, t.serve, s.held, t.held, s.threads, s.open, t.open);
      case _ => OwnedMoves(s.serve, t.serve, s.held, t.held, s.threads, s.open, t.open);
    }
  }

  lemma ReportingClosed(s: State)
    requires Inv(s) && s.serve.Reporting?
    ensures s.serve.conn !in s.open
  {
    hide OneOwner, Tracked, Asked, Exiting, HeldClosed, Joined, ShutDown, Live;
  }

  // What each thread leaves alone.

  lemma ServeLeaves(s: State, e: Event)
    requires ServeEnabled(s, e)
    ensures var t := ServeStep(s, e);
      && t.closing == s.closing && t.close == s.close && t.completed == s.completed && t.shut == s.shut
      && s.forwarded <= t.forwarded && (s.closing ==> t.forwarded == s.forwarded)
      && (t.serve.Exited? ==> s.closing || s.serve.Exited?)
      && !s.serve.Exited?
      && (s.held == t.held || t.held == s.held + [s.serve.conn])
  {
    hide ServeStep;
    ServeLeavesClose(s, e);
    ServeLeavesForwarded(s, e);
  }

  lemma ServeLeavesClose(s: State, e: Event)
    requires ServeEnabled(s, e)
    ensures var t := ServeStep(s, e);
      && t.closing == s.closing && t.close == s.close && t.completed == s.completed && t.shut == s.shut
      && (t.serve.Exited? ==> s.closing || s.serve.Exited?)
      && !s.serve.Exited?
  {
  }

  lemma ServeLeavesForwarded(s: State, e: Event)
    requires ServeEnabled(s, e)
    ensures var t := ServeStep(s, e);
      && s.forwarded <= t.forwarded && (s.closing ==> t.forwarded == s.forwarded)
      && (s.held == t.held || t.held == s.held + [s.serve.conn])
  {
  }

  lemma ForwardLeaves(s: State, e: Event)
    requires ForwardEnabled(s, e)
    ensures var t := ForwardStep(s, e);
      && t.closing == s.closing && t.close == s.close && t.completed == s.completed && t.shut == s.shut
      && t.serve == s.serve && t.accepted == s.accepted && t.held == s.held && t.forwarders == s.forwarders
      && t.forwarded <= s.forwarded && t.open <= s.open && (forall c :: c in t.threads <==> c in s.threads)
      && (forall c :: c in s.forwarded && c !in s.threads ==> c in t.forwarded)
      && (forall c :: c in s.threads && s.threads[c].Finished? ==> t.threads[c].Finished?)
  {
  }

  lemma CloseLeaves(s: State, e: Event)
    requires CloseEnabled(s, e)
    ensures var t := CloseStep(s, e);
      && t.serve == s.serve && t.accepted == s.accepted && t.held == s.held && t.forwarders == s.forwarders
      && t.threads == s.threads && t.forwarded == s.forwarded && t.results == s.results && t.open <= s.open
  {
  }

  lemma OwnedLess(serve: Serve, held: seq<Conn>, threads: map<Conn, Forwarder>, open: set<Conn>, left: set<Conn>)
    requires Owned(serve, held, threads, open) && left <= open
    ensures Owned(serve, held, threads, left)
  {
  }

  lemma ServeKeepsTracked(s: State, e: Event)
    requires Inv(s) && ServeEnabled(s, e)
    ensures var t := ServeStep(s, e); Tracked(t.threads, t.forwarded)
  {
    hide Owned, Asked, Exiting, HeldClosed, Joined, ShutDown, Live;
  }

  lemma ServeKeepsAsked(s: State, e: Event)
    requires Inv(s) && ServeEnabled(s, e)
    ensures var t := ServeStep(s, e); Asked(t.serve, t.threads, t.results)
  {
    hide Owned, Tracked, Exiting, HeldClosed, Joined, ShutDown, Live, InOrder;
    if s.serve.Reporting? {
      InOrderNext(s.results, Refusal(s.serve.conn));
    } else if s.serve.Queueing? {
      InOrderNext(s.results, Requested(s.serve.conn));
    }
  }

  lemma ServeKeepsExiting(s: State, e: Event)
    requires Inv(s) && ServeEnabled(s, e)
    ensures var t := ServeStep(s, e); Exiting(t.closing, t.close, t.serve, t.completed)
  {
    hide OneOwner, Owned, Tracked, Asked, HeldClosed, Joined, ShutDown, Live, ServeStep, ServeEnabled;
    ServeLeaves(s, e);
  }

  lemma ServeKeepsHeldClosed(s: State, e: Event)
    requires Inv(s) && ServeEnabled(s, e)
    ensures var t := ServeStep(s, e); HeldClosed(t.close, t.held, t.open, t.completed)
  {
    hide OneOwner, Owned, Tracked, Asked, Joined, ShutDown, Live, ServeStep, ServeEnabled;
    ServeLeaves(s, e);
    ServeNeverReopens(s, e);
  }

  /** Before it has exited, the serving thread opens only what it has just accepted. */
  lemma ServeNeverReopens(s: State, e: Event)
    requires Inv(s) && ServeEnabled(s, e)
    ensures forall c :: c in s.held && c !in s.open ==> c !in ServeStep(s, e).open
  {
    hide Owned, Tracked, Asked, Exiting, HeldClosed, Joined, ShutDown, Live;
  }

  lemma ServeKeepsJoined(s: State, e: Event)
    requires Inv(s) && ServeEnabled(s, e)
    ensures var t := ServeStep(s, e); Joined(t.close, t.forwarders, t.threads, t.completed)
  {
    hide OneOwner, Owned, Tracked, Asked, HeldClosed, ShutDown, Live, ServeStep, ServeEnabled;
    ServeLeaves(s, e);
  }

  lemma ServeKeepsShutDown(s: State, e: Event)
    requires Inv(s) && ServeEnabled(s, e)
    ensures var t := ServeStep(s, e); ShutDown(t.close, t.forwarded, t.shut)
  {
    hide OneOwner, Owned, Tracked, Asked, HeldClosed, Joined, ServeStep, ServeEnabled;
    ServeLeaves(s, e);
  }

  lemma ForwardKeepsOneOwner(s: State, e: Event)
    requires Inv(s) && ForwardEnabled(s, e)
    ensures var t := ForwardStep(s, e); OneOwner(t.serve, t.accepted, t.held, t.threads, t.forwarders, t.forwarded)
  {
    hide Owned, Tracked, Asked, Exiting, HeldClosed, Joined, ShutDown, Live, ForwardStep, ForwardEnabled;
    ForwardLeaves(s, e);
  }

  lemma ForwardKeepsOwned(s: State, e: Event)
    requires Inv(s) && ForwardEnabled(s, e)
    ensures var t := ForwardStep(s, e); Owned(t.serve, t.held, t.threads, t.open)
  {
    hide OneOwner, Tracked, Asked, Exiting, HeldClosed, Joined, ShutDown, Live;
  }

  lemma ForwardKeepsTracked(s: State, e: Event)
    requires Inv(s) && ForwardEnabled(s, e)
    ensures var t := ForwardStep(s, e); Tracked(t.threads, t.forwarded)
  {
    hide OneOwner, Owned, Asked, Exiting, HeldClosed, Joined, ShutDown, Live;
  }

  lemma ForwardKeepsAsked(s: State, e: Event)
    requires Inv(s) && ForwardEnabled(s, e)
    ensures var t := ForwardStep(s, e); Asked(t.serve, t.threads, t.results)
  {
    hide OneOwner, Owned, Tracked, Exiting, HeldClosed, Joined, ShutDown, Live, InOrder;
    if s.threads[e.conn].Putting? {
      InOrderNext(s.results, ForwardFailure(e.conn));
    }
  }

  lemma ForwardKeepsExiting(s: State, e: Event)
    requires Inv(s) && ForwardEnabled(s, e)
    ensures var t := ForwardStep(s, e); Exiting(t.closing, t.close, t.serve, t.completed)
  {
    hide OneOwner, Owned, Tracked, Asked, Exiting, HeldClosed, Joined, ShutDown, Live, ForwardStep, ForwardEnabled;
    ForwardLeaves(s, e);
  }

  lemma ForwardKeepsHeldClosed(s: State, e: Event)
    requires Inv(s) && ForwardEnabled(s, e)
    ensures var t := ForwardStep(s, e); HeldClosed(t.close, t.held, t.open, t.completed)
  {
    hide OneOwner, Owned, Tracked, Asked, Exiting, Joined, ShutDown, Live, ForwardStep, ForwardEnabled;
    ForwardLeaves(s, e);
  }

  lemma ForwardKeepsJoined(s: State, e: Event)
    requires Inv(s) && ForwardEnabled(s, e)
    ensures var t := ForwardStep(s, e); Joined(t.close, t.forwarders, t.threads, t.completed)
  {
    hide OneOwner, Owned, Tracked, Asked, Exiting, HeldClosed, ShutDown, Live, ForwardStep, ForwardEnabled;
    ForwardLeaves(s, e);
  }

  lemma ForwardKeepsShutDown(s: State, e: Event)
    requires Inv(s) && ForwardEnabled(s, e)
    ensures var t := ForwardStep(s, e); ShutDown(t.close, t.forwarded, t.shut)
  {
    hide OneOwner, Owned, Tracked, Asked, Exiting, HeldClosed, Joined, ForwardStep, ForwardEnabled;
    ForwardLeaves(s, e);
  }

  lemma CloseKeepsOneOwner(s: State, e: Event)
    requires Inv(s) && CloseEnabled(s, e)
    ensures var t := CloseStep(s, e); OneOwner(t.serve, t.accepted, t.held, t.threads, t.forwarders, t.forwarded)
  {
    hide OneOwner, Owned, Tracked, Asked, Exiting, HeldClosed, Joined, ShutDown, Live, CloseStep, CloseEnabled;
    CloseLeaves(s, e);
  }

  lemma CloseKeepsOwned(s: State, e: Event)
    requires Inv(s) && CloseEnabled(s, e)
    ensures var t := CloseStep(s, e); Owned(t.serve, t.held, t.threads, t.open)
  {
    hide OneOwner, Owned, Tracked, Asked, Exiting, HeldClosed, Joined, ShutDown, Live, CloseStep, CloseEnabled;
    CloseLeaves(s, e);
    OwnedLess(s.serve, s.held, s.threads, s.open, CloseStep(s, e).open);
  }

  lemma CloseKeepsTracked(s: State, e: Event)
    requires Inv(s) && CloseEnabled(s, e)
    ensures var t := CloseStep(s, e); Tracked(t.threads, t.forwarded)
  {
    hide OneOwner, Owned, Tracked, Asked, Exiting, HeldClosed, Joined, ShutDown, Live, CloseStep, CloseEnabled;
    CloseLeaves(s, e);
  }

  lemma CloseKeepsAsked(s: State, e: Event)
    requires Inv(s) && CloseEnabled(s, e)
    ensures var t := CloseStep(s, e); Asked(t.serve, t.threads, t.results)
  {
    hide OneOwner, Owned, Tracked, Asked, Exiting, HeldClosed, Joined, ShutDown, Live, CloseStep, CloseEnabled;
    CloseLeaves(s, e);
  }

  lemma CloseKeepsExiting(s: State, e: Event)
    requires Inv(s) && CloseEnabled(s, e)
    ensures var t := CloseStep(s, e); Exiting(t.closing, t.close, t.serve, t.completed)
  {
    hide OneOwner, Owned, Tracked, Asked, HeldClosed, Joined, ShutDown, Live;
  }

  lemma CloseKeepsHeldClosed(s: State, e: Event)
    requires Inv(s) && CloseEnabled(s, e)
    ensures var t := CloseStep(s, e); HeldClosed(t.close, t.held, t.open, t.completed)
  {
    hide OneOwner, Owned, Tracked, Asked, Exiting, Joined, ShutDown, Live;
  }

  lemma CloseKeepsJoined(s: State, e: Event)
    requires Inv(s) && CloseEnabled(s, e)
    ensures var t := CloseStep(s, e); Joined(t.close, t.forwarders, t.threads, t.completed)
  {
    hide OneOwner, Owned, Tracked, Asked, Exiting, HeldClosed, ShutDown, Live;
  }

  lemma CloseKeepsShutDown(s: State, e: Event)
    requires Inv(s) && CloseEnabled(s, e)
    ensures var t := CloseStep(s, e); ShutDown(t.close, t.forwarded, t.shut)
  {
    hide OneOwner, Owned, Tracked, Asked, Exiting, HeldClosed, Joined;
  }

  lemma LiveMoves(serve: Serve, next: Serve, threads: map<Conn, Forwarder>, open: set<Conn>)
    requires Live(serve, threads, open) && InHand(next) <= if serve.Reporting? then {} else InHand(serve)
    ensures Live(next, threads, open)
  {
  }

  lemma LiveCloses(serve: Serve, next: Serve, c: Conn, threads: map<Conn, Forwarder>, open: set<Conn>)
    requires Live(serve, threads, open) && c !in threads && (InHand(next) == {} || next.Reporting?)
    ensures Live(next, threads, open - {c})
  {
  }

  lemma LiveAccepts(c: Conn, threads: map<Conn, Forwarder>, open: set<Conn>)
    requires Live(Accepting, threads, open)
    ensures Live(Checking(c), threads, open + {c})
  {
  }

  lemma LiveStarts(c: Conn, threads: map<Conn, Forwarder>, open: set<Conn>)
    requires Live(Starting(c), threads, open)
    ensures Live(Clearing, threads[c := Forwarding], open)
  {
  }

  lemma HandIsOwn(s: State, c: Conn)
    requires Inv(s) && c in InHand(s.serve)
    ensures c !in s.threads && c !in s.held
  {
    hide Owned, Tracked, Asked, Exiting, HeldClosed, Joined, ShutDown, Live;
  }

  lemma ServeKeepsLive(s: State, e: Event)
    requires Inv(s) && ServeEnabled(s, e)
    ensures var t := ServeStep(s, e); Live(t.serve, t.threads, t.open)
  {
    hide OneOwner, Owned, Tracked, Asked, Exiting, HeldClosed, Joined, ShutDown, Live;
    var t := ServeStep(s, e);
    match s.serve {
      case Accepting => LiveAccepts(e.conn, s.threads, s.open);
      case Checking(c) =>
        HandIsOwn(s, c);
        if s.closing {
          LiveCloses(s.serve, t.serve, c, s.threads, s.open);
        } else {
          LiveMoves(s.serve, t.serve, s.threads, s.open);
        }
      case Closing(c) => HandIsOwn(s, c); LiveCloses(s.serve, t.serve, c, s.threads, s.open);
      case Starting(c) => LiveStarts(c, s.threads, s.open);
      case _ => LiveMoves(s.serve, t.serve, s.threads, s.open);
    }
  }

  lemma ForwardKeepsLive(s: State, e: Event)
    requires Inv(s) && ForwardEnabled(s, e)
    ensures var t := ForwardStep(s, e); Live(t.serve, t.threads, t.open)
  {
    hide Owned, Tracked, Asked, Exiting, HeldClosed, Joined, ShutDown;
  }

  lemma CloseKeepsLive(s: State, e: Event)
    requires Inv(s) && CloseEnabled(s, e)
    ensures var t := CloseStep(s, e); Live(t.serve, t.threads, t.open)
  {
    hide OneOwner, Owned, Tracked, Asked, Exiting, HeldClosed, Joined, ShutDown, Live;
    if s.close.ClosingHeld? && s.close.done < |s.held| {
      HeldIsNoOther(s, s.held[s.close.done]);
      LiveLess(s.serve, s.threads, s.open, s.held[s.close.done]);
    }
  }

  lemma HeldIsNoOther(s: State, c: Conn)
    requires Inv(s) && c in s.held
    ensures c !in InHand(s.serve) && c !in s.threads
  {
    hide Owned, Tracked, Asked, Exiting, HeldClosed, Joined, ShutDown, Live, InHand;
  }

  lemma LiveLess(serve: Serve, threads: map<Conn, Forwarder>, open: set<Conn>, c: Conn)
    requires Live(serve, threads, open) && c !in InHand(serve) && c !in threads
    ensures Live(serve, threads, open - {c})
  {
  }

  lemma StepKeeps(s: State, e: Event)
    requires Inv(s) && Enabled(s, e)
    ensures Inv(Step(s, e))
  {
    hide OneOwner, Owned, Tracked, Asked, Exiting, HeldClosed, Joined, ShutDown, Live,
         ServeEnabled, ServeStep, ForwardEnabled, ForwardStep, CloseEnabled, CloseStep;
    if ServeEnabled(s, e) {
      ServeKeepsOneOwner(s, e);
      ServeKeepsOwned(s, e);
      ServeKeepsTracked(s, e);
      ServeKeepsAsked(s, e);
      ServeKeepsExiting(s, e);
      ServeKeepsHeldClosed(s, e);
      ServeKeepsJoined(s, e);
      ServeKeepsShutDown(s, e);
      ServeKeepsLive(s, e);
    } else if ForwardEnabled(s, e) {
      ForwardKeepsOneOwner(s, e);
      ForwardKeepsOwned(s, e);
      ForwardKeepsTracked(s, e);
      ForwardKeepsAsked(s, e);
      ForwardKeepsExiting(s, e);
      ForwardKeepsHeldClosed(s, e);
      ForwardKeepsJoined(s, e);
      ForwardKeepsShutDown(s, e);
      ForwardKeepsLive(s, e);
    } else {
      CloseKeepsOneOwner(s, e);
      CloseKeepsOwned(s, e);
      CloseKeepsTracked(s, e);
      CloseKeepsAsked(s, e);
      CloseKeepsExiting(s, e);
      CloseKeepsHeldClosed(s, e);
      CloseKeepsJoined(s, e);
      CloseKeepsShutDown(s, e);
      CloseKeepsLive(s, e);
    }
  }

  lemma {:induction false} RunKeeps(s: State, events: seq<Event>)
    requires Inv(s) && Run(s, events)
    ensures Inv(After(s, events))
    decreases events
  {
    hide Inv, Enabled, Step;
    if events != [] {
      StepKeeps(s, events[0]);
      RunKeeps(Step(s, events[0]), events[1..]);
    }
  }

  lemma StartKeeps(forwards: bool)
    ensures Inv(Started(forwards))
  {
  }

  // What follows for every run.

  /** Once `close` has begun, no connection is handed to a forwarding thread any more. */
  lemma NoneForwardedLate(s: State, e: Event)
    requires Enabled(s, e) && s.closing
    ensures Step(s, e).closing && Step(s, e).forwarded <= s.forwarded
  {
    hide ServeStep, ServeEnabled, ForwardStep, ForwardEnabled, CloseStep, CloseEnabled;
    if ServeEnabled(s, e) {
      ServeLeaves(s, e);
    } else if ForwardEnabled(s, e) {
      ForwardLeaves(s, e);
    } else {
      CloseLeaves(s, e);
      StillClosing(s, e);
    }
  }

  lemma StillClosing(s: State, e: Event)
    requires CloseEnabled(s, e) && s.closing
    ensures CloseStep(s, e).closing
  {
  }

  lemma {:induction false} NoneForwardedAfter(s: State, events: seq<Event>)
    requires Run(s, events) && s.closing
    ensures After(s, events).closing && After(s, events).forwarded <= s.forwarded
    decreases events
  {
    hide Enabled, Step;
    if events != [] {
      NoneForwardedLate(s, events[0]);
      NoneForwardedAfter(Step(s, events[0]), events[1..]);
    }
  }

  /** At no point of any run is a connection both held and forwarded. */
  lemma HeldOrForwarded(forwards: bool, events: seq<Event>, c: Conn)
    requires Run(Started(forwards), events)
    ensures !(c in After(Started(forwards), events).held && c in After(Started(forwards), events).forwarded)
  {
    hide Owned, Tracked, Asked, Exiting, HeldClosed, Joined, ShutDown, Live, Run, After;
    StartKeeps(forwards);
    RunKeeps(Started(forwards), events);
    var s := After(Started(forwards), events);
    assert s.serve == Starting(c) ==> c in InHand(s.serve);
  }

  /** In every run, a forwarding failure is queued behind its own request. */
  lemma RequestFirst(forwards: bool, events: seq<Event>, i: nat)
    requires Run(Started(forwards), events)
    requires i < |After(Started(forwards), events).results|
    requires After(Started(forwards), events).results[i].ForwardFailure?
    ensures var results := After(Started(forwards), events).results; Requested(results[i].conn) in results[..i]
  {
    hide OneOwner, Owned, Tracked, Exiting, HeldClosed, Joined, ShutDown, Live, Run, After;
    StartKeeps(forwards);
    RunKeeps(Started(forwards), events);
  }

  /** While `close` waits for the threads, every connection still forwarded has been shut down. */
  lemma ForwardedShutDown(forwards: bool, events: seq<Event>, c: Conn)
    requires Run(Started(forwards), events)
    requires var s := After(Started(forwards), events); !s.close.Idle? && !s.close.Shutting? && c in s.forwarded
    ensures c in After(Started(forwards), events).shut
  {
    hide OneOwner, Owned, Tracked, Asked, Exiting, HeldClosed, Joined, Run, After;
    StartKeeps(forwards);
    RunKeeps(Started(forwards), events);
  }

  /** In every run, where `close` has returned with its joins completed, no connection is left open or forwarded. */
  lemma AllClosed(forwards: bool, events: seq<Event>)
    requires Run(Started(forwards), events)
    requires After(Started(forwards), events).close.Returned? && After(Started(forwards), events).completed
    ensures After(Started(forwards), events).open == {} && After(Started(forwards), events).forwarded == {}
  {
    hide Asked, ShutDown, Live, Run, After;
    StartKeeps(forwards);
    RunKeeps(Started(forwards), events);
    var s := After(Started(forwards), events);
    assert s.open == {};
    assert s.forwarded == {};
  }

  /** A run in two parts. */
  lemma {:induction false} RunConcat(s: State, one: seq<Event>, two: seq<Event>)
    requires Run(s, one) && Run(After(s, one), two)
    ensures Run(s, one + two) && After(s, one + two) == After(After(s, one), two)
    decreases one
  {
    hide Step, Enabled;
    if one == [] {
      assert one + two == two;
    } else {
      assert (one + two)[1..] == one[1..] + two;
      RunConcat(Step(s, one[0]), one[1..], two);
    }
  }

  lemma RunOne(s: State, e: Event)
    requires Enabled(s, e)
    ensures Run(s, [e]) && After(s, [e]) == Step(s, e)
  {
    assert [e][1..] == [];
    assert Run(Step(s, e), []);
  }

  lemma RunNext(start: State, events: seq<Event>, e: Event)
    requires Run(start, events) && Enabled(After(start, events), e)
    ensures Run(start, events + [e]) && After(start, events + [e]) == Step(After(start, events), e)
  {
    hide Step, Enabled, Run, After;
    RunOne(After(start, events), e);
    RunConcat(start, events, [e]);
  }

  /**
    The joins matter: where the serving thread's join expires, a client still negotiating is held after `close`
    has closed what was held, and stays open.
   */
  lemma ExpiredJoinLeaves(forwards: bool) returns (events: seq<Event>)
    ensures Run(Started(forwards), events)
    ensures var s := After(Started(forwards), events); s.close.Returned? && !s.completed && s.open == {0}
  {
    hide Run, After;
    var start := Started(forwards);
    events := NegotiatingOne(start);
    events := ClosingOn(start, events, CloseOn);
    events := ClosingOn(start, events, CloseOn);
    events := ClosingOn(start, events, CloseOn);
    events := ClosingOn(start, events, CloseOn);
    events := ClosingOn(start, events, JoinEnds(true));
    events := ClosingOn(start, events, CloseOn);
    events := ClosingOn(start, events, CloseOn);
  }

  /** One connection, being negotiated. */
  lemma NegotiatingOne(start: State) returns (events: seq<Event>)
    requires start == Started(start.forwards)
    ensures Run(start, events)
    ensures
      After(start, events) == start.(accepted := {0}, open := {0}, serve := Negotiating(0), negotiating := {0})
  {
    hide Run, After;
    events := [];
    RunNothing(start);
    events := Serving(start, events, Accept(0));
    events := Serving(start, events, ServeOn);
    events := Serving(start, events, ServeOn);
  }

  lemma RunNothing(s: State)
    ensures Run(s, []) && After(s, []) == s
  {
  }

  // ---- exactly when `close` leaves nothing open

  /** Nothing is left to open a connection or to keep one: only those held are open, and `close` comes to them. */
  ghost predicate Settled(s: State) {
    && s.serve.Exited? && (forall c :: c in s.threads ==> !s.threads[c].Forwarding?)
    && (s.close.JoiningServe? || s.close.ClosingHeld? || s.close.JoiningForwarders? || s.close.Returned?)
    && (s.close.ClosingHeld? ==> forall i :: 0 <= i < s.close.done && i < |s.held| ==> s.held[i] !in s.open)
    && (s.close.JoiningForwarders? || s.close.Returned? ==> forall c :: c in s.held ==> c !in s.open)
  }

  lemma ForwardStaysSettled(s: State, e: Event)
    requires Settled(s) && ForwardEnabled(s, e)
    ensures Settled(ForwardStep(s, e))
  {
  }

  lemma CloseStaysSettled(s: State, e: Event)
    requires Settled(s) && CloseEnabled(s, e)
    ensures Settled(CloseStep(s, e))
  {
  }

  lemma StaysSettled(s: State, e: Event)
    requires Settled(s) && Enabled(s, e)
    ensures Settled(Step(s, e))
  {
    hide ForwardStep, CloseStep, ForwardEnabled, CloseEnabled, Settled;
    assert s.serve.Exited? by { SettledExited(s); }
    if ForwardEnabled(s, e) {
      ForwardStaysSettled(s, e);
    } else {
      CloseStaysSettled(s, e);
    }
  }

  lemma SettledExited(s: State)
    requires Settled(s)
    ensures s.serve.Exited?
  {
  }

  lemma {:induction false} RunSettled(s: State, events: seq<Event>)
    requires Settled(s) && Run(s, events)
    ensures Settled(After(s, events))
    decreases events
  {
    hide Settled, Enabled, Step;
    if events != [] {
      StaysSettled(s, events[0]);
      RunSettled(Step(s, events[0]), events[1..]);
    }
  }

  lemma SettledClosed(s: State)
    requires Inv(s) && Settled(s) && s.close.Returned?
    ensures s.open == {}
  {
    hide OneOwner, Tracked, Asked, Exiting, HeldClosed, Joined, ShutDown, Live;
    assert s.open == {};
  }

  /** What `close` leaves alone on its way: everything but the connections it holds. */
  ghost predicate LeftOpen(s: State, t: State) {
    && t.held == s.held && t.forwarders == s.forwarders
    && forall c :: c in s.open && c !in s.held ==> c in t.open
  }

  lemma OnStep(s: State, e: Event)
    requires CloseEnabled(s, e) && (e.CloseOn? || e.JoinEnds?)
    ensures Enabled(s, e) && Step(s, e) == CloseStep(s, e)
  {
  }

  /** One step of `close`, and then a run from there. */
  lemma Onward(s: State, e: Event, rest: seq<Event>) returns (events: seq<Event>)
    requires CloseEnabled(s, e) && (e.CloseOn? || e.JoinEnds?) && Run(CloseStep(s, e), rest)
    ensures Run(s, events) && After(s, events) == After(CloseStep(s, e), rest)
  {
    hide CloseStep, CloseEnabled;
    OnStep(s, e);
    events := [e] + rest;
    assert events[1..] == rest;
  }

  /** From the closing of what is held, every join left may expire. */
  lemma {:induction false} JoinsExpire(s: State) returns (events: seq<Event>)
    requires s.close.JoiningForwarders? && s.close.done <= |s.forwarders|
    ensures Run(s, events) && After(s, events).close.Returned? && LeftOpen(s, After(s, events))
    decreases |s.forwarders| - s.close.done
  {
    hide Run, After;
    var e := if s.close.done < |s.forwarders| then JoinEnds(true) else CloseOn;
    var t := CloseStep(s, e);
    var rest: seq<Event> := [];
    if s.close.done < |s.forwarders| {
      rest := JoinsExpire(t);
    } else {
      RunNothing(t);
    }
    events := Onward(s, e, rest);
  }

  lemma {:induction false} HeldClose(s: State) returns (events: seq<Event>)
    requires s.close.ClosingHeld? && s.close.done <= |s.held|
    ensures Run(s, events) && After(s, events).close.Returned? && LeftOpen(s, After(s, events))
    decreases |s.held| - s.close.done
  {
    hide Run, After;
    var t := CloseStep(s, CloseOn);
    var rest;
    if s.close.done < |s.held| {
      rest := HeldClose(t);
    } else {
      rest := JoinsExpire(t);
    }
    events := Onward(s, CloseOn, rest);
  }

  lemma Expires(s: State) returns (events: seq<Event>)
    requires s.close.JoiningServe?
    ensures Run(s, events) && After(s, events).close.Returned? && LeftOpen(s, After(s, events))
  {
    hide Run, After;
    var rest := HeldClose(CloseStep(s, JoinEnds(true)));
    events := Onward(s, JoinEnds(true), rest);
  }

  lemma {:induction false} FreshConn(taken: set<Conn>) returns (c: Conn)
    ensures forall x :: x in taken ==> x < c
    decreases taken
  {
    c := 0;
    if exists x :: x in taken {
      var x :| x in taken;
      var rest := FreshConn(taken - {x});
      c := if rest > x then rest else x + 1;
      forall y | y in taken ensures y < c {
        assert y == x || y in taken - {x};
      }
    }
  }

  lemma ServeFirst(s: State, e: Event, rest: seq<Event>) returns (events: seq<Event>)
    requires ServeEnabled(s, e) && Run(ServeStep(s, e), rest)
    ensures Run(s, events) && After(s, events) == After(ServeStep(s, e), rest)
  {
    hide ServeStep, ServeEnabled;
    events := [e] + rest;
    assert events[1..] == rest;
  }

  /** While the serving thread has not exited, it can have a connection in hand when `close` returns. */
  lemma ServingLeaves(s: State) returns (events: seq<Event>)
    requires Inv(s) && s.close.JoiningServe? && !s.serve.Exited?
    ensures Run(s, events) && After(s, events).close.Returned? && After(s, events).open != {}
    decreases match s.serve case Reporting(_) => 2 case Clearing => 1 case _ => 0
  {
    hide Run, After, OneOwner, Owned, Tracked, Asked, Exiting, HeldClosed, Joined, ShutDown, Live;
    match s.serve {
      case Accepting =>
        var c := FreshConn(s.accepted);
        AcceptedAll(s, c);
        var t := ServeStep(s, Accept(c));
        var rest := Expires(t);
        assert c in t.open && c !in t.held;
        events := ServeFirst(s, Accept(c), rest);
      case Reporting(_) =>
        StepKeepsServe(s);
        var rest := ServingLeaves(ServeStep(s, ServeOn));
        events := ServeFirst(s, ServeOn, rest);
      case Clearing =>
        StepKeepsServe(s);
        var rest := ServingLeaves(ServeStep(s, ServeOn));
        events := ServeFirst(s, ServeOn, rest);
      case _ =>
        var c := SomeHand(s.serve);
        HandIsOwn(s, c);
        HandIsOpen(s, c);
        events := Expires(s);
    }
  }

  lemma SomeHand(serve: Serve) returns (c: Conn)
    requires !serve.Accepting? && !serve.Clearing? && !serve.Exited?
    ensures c in InHand(serve)
  {
    assert InHand(serve) != {};
    c :| c in InHand(serve);
  }

  lemma StepKeepsServe(s: State)
    requires Inv(s) && ServeEnabled(s, ServeOn)
    ensures Inv(ServeStep(s, ServeOn))
  {
    hide Inv, ServeStep;
    StepKeeps(s, ServeOn);
  }

  lemma HandIsOpen(s: State, c: Conn)
    requires Inv(s) && c in InHand(s.serve) && !s.serve.Reporting?
    ensures c in s.open
  {
    hide OneOwner, Owned, Tracked, Asked, Exiting, HeldClosed, Joined, ShutDown;
  }

  lemma AcceptedAll(s: State, c: Conn)
    requires Inv(s) && forall x :: x in s.accepted ==> x < c
    ensures c !in s.accepted && c !in s.held
  {
    hide Owned, Tracked, Asked, Exiting, HeldClosed, Joined, ShutDown, Live;
  }

  lemma ForwardingIsOpen(s: State, c: Conn)
    requires Inv(s) && c in s.threads && s.threads[c].Forwarding?
    ensures c in s.open && c !in s.held
  {
    hide Owned, Tracked, Asked, Exiting, HeldClosed, Joined, ShutDown;
  }

  /** The serving thread has exited, and no forwarding thread is still copying. */
  predicate Quiet(s: State) {
    s.serve.Exited? && forall c :: c in s.threads ==> !s.threads[c].Forwarding?
  }

  /**
    In every run: when `close` comes to its joins, it is sure to leave nothing open, whatever happens from there
    and whichever joins expire, exactly where the serving thread has exited and no thread is still forwarding.
   */
  lemma LeavesNothingIff(forwards: bool, before: seq<Event>)
    requires Run(Started(forwards), before) && After(Started(forwards), before).close.JoiningServe?
    ensures
      var s := After(Started(forwards), before);
      (forall events ::
         Run(s, events) && After(s, events).close.Returned? ==> After(s, events).open == {}) <==> Quiet(s)
  {
    hide Run, After, Inv;
    StartKeeps(forwards);
    RunKeeps(Started(forwards), before);
    var s := After(Started(forwards), before);
    if Quiet(s) {
      forall events | Run(s, events) && After(s, events).close.Returned? ensures After(s, events).open == {} {
        RunSettled(s, events);
        RunKeeps(s, events);
        SettledClosed(After(s, events));
      }
    } else if !s.serve.Exited? {
      var events := ServingLeaves(s);
      assert !(After(s, events).open == {});
    } else {
      var c :| c in s.threads && s.threads[c].Forwarding?;
      ForwardingIsOpen(s, c);
      var events := Expires(s);
      assert c in After(s, events).open;
    }
  }

  lemma Serving(start: State, events: seq<Event>, e: Event) returns (more: seq<Event>)
    requires Run(start, events) && ServeEnabled(After(start, events), e)
    ensures Run(start, more) && After(start, more) == ServeStep(After(start, events), e)
  {
    hide Run, After, ServeStep, ServeEnabled;
    RunNext(start, events, e);
    more := events + [e];
  }

  lemma ClosingOn(start: State, events: seq<Event>, e: Event) returns (more: seq<Event>)
    requires Run(start, events) && CloseEnabled(After(start, events), e)
    ensures Run(start, more) && After(start, more) == CloseStep(After(start, events), e)
  {
    hide Run, After, CloseStep;
    RunNext(start, events, e);
    more := events + [e];
  }

  /** A forwarding thread at work when its own join expires leaves its connection open, the serving thread gone. */
  lemma ExpiredForwarderLeaves() returns (events: seq<Event>)
    ensures Run(Started(true), events)
    ensures
      var s := After(Started(true), events);
      s.close.Returned? && !s.completed && s.serve.Exited? && s.open == {0} && s.threads == map[0 := Forwarding]
  {
    hide Run, After;
    var start := Started(true);
    events := AtItsJoins(start);
    events := ClosingOn(start, events, JoinEnds(false));
    events := ClosingOn(start, events, CloseOn);
    events := ClosingOn(start, events, JoinEnds(true));
    events := ClosingOn(start, events, CloseOn);
  }

  lemma AtItsJoins(start: State) returns (events: seq<Event>)
    requires start == Started(true)
    ensures Run(start, events)
    ensures
      var s := After(start, events);
      && s.serve.Exited? && s.close.JoiningServe? && s.held == [] && s.forwarders == [0] && s.open == {0} && s.completed
      && s.threads == map[0 := Forwarding]
  {
    hide Run, After;
    events := Forwarded(start);
    events := ClosingOn(start, events, CloseOn);
    assert After(start, events).close == Shutting({0});
    events := ClosingOn(start, events, ShutOne(0));
    assert After(start, events).close == Shutting({}) by { assert {0} - {0} == {}; }
    events := ClosingOn(start, events, CloseOn);
    events := ClosingOn(start, events, CloseOn);
    events := ClosingOn(start, events, CloseOn);
    events := Serving(start, events, Accept(1));
    events := Serving(start, events, ServeOn);
  }

  /** One connection negotiated and handed to its thread. */
  lemma Forwarded(start: State) returns (events: seq<Event>)
    requires start == Started(true)
    ensures Run(start, events)
    ensures After(start, events) == start.(
      forwarded := {0}, forwarders := [0], threads := map[0 := Forwarding], results := [Requested(0)],
      accepted := {0}, open := {0})
  {
    hide Run, After;
    events := [];
    RunNothing(start);
    events := Serving(start, events, Accept(0));
    events := Serving(start, events, ServeOn);
    events := Serving(start, events, ServeOn);
    events := Serving(start, events, Negotiated(true));
    assert After(start, events).serve == Queueing(0);
    events := Serving(start, events, ServeOn);
    events := Serving(start, events, ServeOn);
    assert After(start, events).serve == Starting(0);
    events := Serving(start, events, ServeOn);
    events := Serving(start, events, ServeOn);
  }
}
