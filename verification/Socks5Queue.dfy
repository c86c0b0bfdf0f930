/**
  What the proxy's threads leave for `next_request`, in any interleaving, and which client still negotiating `close`
  shuts down: the step model is `Socks5Close`'s.
 */
module Socks5Queue {
  import opened Socks5Close

  // What is queued.

  /** The connection accepted and not yet reported, where there is one. */
  function Unreported(serve: Serve): set<Conn> {
    match serve
    case Checking(c) => {c}
    case Taking(c) => {c}
    case Negotiating(c) => {c}
    case Closing(c) => {c}
    case Reporting(c) => {c}
    case Queueing(c) => {c}
    case _ => {}
  }

  /** A connection's negotiation has been reported, one way or the other. */
  predicate Has(results: seq<Queued>, c: Conn) {
    Requested(c) in results || Refusal(c) in results
  }

  ghost predicate OnceEach(results: seq<Queued>) {
    forall i, j :: 0 <= i < j < |results| ==> results[i] != results[j]
  }

  ghost predicate OneWay(results: seq<Queued>) {
    forall c :: Requested(c) in results ==> Refusal(c) !in results
  }

  /** Every connection accepted is reported or in hand, but for the one that lets the serving thread go. */
  ghost predicate Told(serve: Serve, accepted: set<Conn>, results: seq<Queued>) {
    && (forall c :: Has(results, c) ==> c in accepted && c !in Unreported(serve))
    && (!serve.Exited? ==> forall c :: c in accepted ==> Has(results, c) || c in Unreported(serve))
    && (forall c, d ::
          c in accepted && d in accepted && c != d && c !in Unreported(serve) && d !in Unreported(serve) ==>
            Has(results, c) || Has(results, d))
  }

  /** A failure queued is of a thread past queueing it. */
  ghost predicate Failed(threads: map<Conn, Forwarder>, results: seq<Queued>) {
    forall c :: ForwardFailure(c) in results ==> c in threads && (threads[c].Discarding? || threads[c].Finished?)
  }

  ghost predicate HeldAsked(held: seq<Conn>, results: seq<Queued>) {
    forall c :: c in held ==> Requested(c) in results
  }

  ghost predicate QueueInv(s: State) {
    && OnceEach(s.results) && OneWay(s.results) && Told(s.serve, s.accepted, s.results)
    && Failed(s.threads, s.results) && HeldAsked(s.held, s.results)
  }

  lemma Queues(results: seq<Queued>, r: Queued)
    requires OnceEach(results) && OneWay(results) && r !in results && (!r.ForwardFailure? ==> !Has(results, r.conn))
    ensures OnceEach(results + [r]) && OneWay(results + [r])
    ensures forall c :: Has(results + [r], c) <==> Has(results, c) || (!r.ForwardFailure? && c == r.conn)
    ensures forall x :: x in results + [r] <==> x in results || x == r
  {
  }

  lemma Reports(serve: Serve, c: Conn, next: Serve, accepted: set<Conn>, results: seq<Queued>, r: Queued)
    requires Told(serve, accepted, results) && Unreported(serve) == {c} && c in accepted && Unreported(next) == {}
    requires !serve.Exited? && !next.Exited?
    requires forall d :: Has(results + [r], d) <==> Has(results, d) || d == c
    ensures Told(next, accepted, results + [r])
  {
  }

  lemma TellsOn(serve: Serve, next: Serve, accepted: set<Conn>, results: seq<Queued>)
    requires Told(serve, accepted, results) && !serve.Exited?
    requires Unreported(next) == Unreported(serve) || next.Exited?
    ensures Told(next, accepted, results)
  {
  }

  lemma InHandAccepted(s: State, c: Conn)
    requires Inv(s) && c in InHand(s.serve)
    ensures c in s.accepted && c !in s.threads && c !in s.held
  {
    hide Owned, Tracked, Asked, Exiting, HeldClosed, Joined, ShutDown, Live;
  }

  lemma AskedInHand(s: State)
    requires Inv(s)
    ensures s.serve.Tracking? || s.serve.Holding? || s.serve.Starting? ==> Requested(s.serve.conn) in s.results
    ensures forall c :: c in s.threads ==> Requested(c) in s.results
  {
    hide OneOwner, Owned, Tracked, Exiting, HeldClosed, Joined, ShutDown, Live, InOrder;
  }

  lemma ServeQueues(s: State, e: Event)
    requires Inv(s) && QueueInv(s) && ServeEnabled(s, e)
    ensures QueueInv(ServeStep(s, e))
  {
    hide Inv, OnceEach, OneWay, Told, Failed, HeldAsked, InHand;
    AskedInHand(s);
    match s.serve {
      case Accepting => TellsNew(s.accepted, s.results, e.conn);
      case Checking(c) => TellsOn(s.serve, ServeStep(s, e).serve, s.accepted, s.results);
      case Taking(c) => TellsOn(s.serve, ServeStep(s, e).serve, s.accepted, s.results);
      case Negotiating(c) => TellsOn(s.serve, ServeStep(s, e).serve, s.accepted, s.results);
      case Closing(c) => TellsOn(s.serve, ServeStep(s, e).serve, s.accepted, s.results);
      case Reporting(c) => ReportsHand(s, c, Clearing, Refusal(c));
      case Queueing(c) => ReportsHand(s, c, Tracking(c), Requested(c));
      case Tracking(c) => TellsOn(s.serve, ServeStep(s, e).serve, s.accepted, s.results);
      case Holding(c) =>
        TellsOn(s.serve, Clearing, s.accepted, s.results);
        HoldsAsked(s.held, c, s.results);
      case Starting(c) =>
        TellsOn(s.serve, Clearing, s.accepted, s.results);
        StartsUnfailed(s, c);
      case Clearing => TellsOn(s.serve, Accepting, s.accepted, s.results);
      case Exited =>
    }
  }

  lemma TellsNew(accepted: set<Conn>, results: seq<Queued>, c: Conn)
    requires Told(Accepting, accepted, results) && c !in accepted
    ensures Told(Checking(c), accepted + {c}, results)
  {
  }

  lemma HoldsAsked(held: seq<Conn>, c: Conn, results: seq<Queued>)
    requires HeldAsked(held, results) && Requested(c) in results
    ensures HeldAsked(held + [c], results)
  {
  }

  lemma StartsUnfailed(s: State, c: Conn)
    requires Inv(s) && s.serve == Starting(c) && Failed(s.threads, s.results)
    ensures Failed(s.threads[c := Forwarding], s.results)
  {
    InHandAccepted(s, c);
  }

  /** The connection in hand is reported. */
  lemma ReportsHand(s: State, c: Conn, next: Serve, r: Queued)
    requires Inv(s) && QueueInv(s) && (s.serve == Reporting(c) || s.serve == Queueing(c))
    requires Unreported(next) == {} && !next.Exited? && (r == Refusal(c) || r == Requested(c))
    ensures QueueInv(s.(serve := next, results := s.results + [r]))
  {
    hide OnceEach, OneWay;
    InHandAccepted(s, c) by { InHandOf(s.serve, c); }
    Queues(s.results, r);
    Reports(s.serve, c, next, s.accepted, s.results, r);
  }

  lemma InHandOf(serve: Serve, c: Conn)
    requires serve == Reporting(c) || serve == Queueing(c)
    ensures c in InHand(serve)
  {
  }

  lemma ForwardQueues(s: State, e: Event)
    requires Inv(s) && QueueInv(s) && ForwardEnabled(s, e)
    ensures QueueInv(ForwardStep(s, e))
  {
    hide Inv, OnceEach, OneWay, Told;
    if s.threads[e.conn].Putting? {
      Queues(s.results, ForwardFailure(e.conn));
      TellsAlike(s.serve, s.accepted, s.results, s.results + [ForwardFailure(e.conn)]);
    }
  }

  lemma TellsAlike(serve: Serve, accepted: set<Conn>, results: seq<Queued>, more: seq<Queued>)
    requires Told(serve, accepted, results) && forall c :: Has(more, c) <==> Has(results, c)
    ensures Told(serve, accepted, more)
  {
  }

  lemma CloseQueues(s: State, e: Event)
    requires QueueInv(s) && CloseEnabled(s, e)
    ensures QueueInv(CloseStep(s, e))
  {
    hide OnceEach, OneWay, Told, Failed, HeldAsked, CloseStep, CloseEnabled;
    CloseLeaves(s, e);
  }

  lemma {:induction false} RunQueues(s: State, events: seq<Event>)
    requires Inv(s) && QueueInv(s) && Run(s, events)
    ensures Inv(After(s, events)) && QueueInv(After(s, events))
    decreases events
  {
    hide Inv, QueueInv, ServeEnabled, ServeStep, ForwardEnabled, ForwardStep, CloseEnabled, CloseStep;
    if events != [] {
      StepKeeps(s, events[0]);
      if ServeEnabled(s, events[0]) {
        ServeQueues(s, events[0]);
      } else if ForwardEnabled(s, events[0]) {
        ForwardQueues(s, events[0]);
      } else {
        CloseQueues(s, events[0]);
      }
      RunQueues(Step(s, events[0]), events[1..]);
    }
  }

  lemma StartQueues(forwards: bool)
    ensures QueueInv(Started(forwards))
  {
  }

  /**
    In every run: nothing is queued twice, and no connection both as a request and as a refusal; every connection the
    serving thread is done with has been queued, but for the one at most that it exits on; and what is held or
    forwarded was queued as a request.
   */
  lemma ReportedOnce(forwards: bool, events: seq<Event>)
    requires Run(Started(forwards), events)
    ensures
      var s := After(Started(forwards), events);
      && (forall i, j :: 0 <= i < j < |s.results| ==> s.results[i] != s.results[j])
      && (forall c :: Requested(c) in s.results ==> Refusal(c) !in s.results)
      && (!s.serve.Exited? ==> forall c :: c in s.accepted && c !in Unreported(s.serve) ==> Has(s.results, c))
      && (forall c, d :: c in s.accepted && d in s.accepted && c != d && s.serve.Exited? ==>
            Has(s.results, c) || Has(s.results, d))
      && (forall c :: c in s.held || c in s.threads ==> Requested(c) in s.results)
  {
    hide Inv, Run, After;
    StartKeeps(forwards);
    RunQueues(Started(forwards), events);
    AskedInHand(After(Started(forwards), events));
  }

  // A failure of a forwarding thread.

  ghost predicate Settling(s: State, c: Conn, queued: bool) {
    && c in s.threads
    && (if queued then s.threads[c].Putting? || ForwardFailure(c) in s.results else ForwardFailure(c) !in s.results)
    && (s.threads[c].Putting? || s.threads[c].Discarding? || s.threads[c].Finished?)
    && (!queued ==> !s.threads[c].Putting?)
  }

  lemma ServeSettles(s: State, e: Event, c: Conn, queued: bool)
    requires Inv(s) && Settling(s, c, queued) && ServeEnabled(s, e)
    ensures Settling(ServeStep(s, e), c, queued)
  {
    hide Inv, InHand;
    if s.serve.Starting? {
      assert s.serve.conn in InHand(s.serve) by { StartingInHand(s.serve); }
      InHandAccepted(s, s.serve.conn);
    }
  }

  lemma StartingInHand(serve: Serve)
    requires serve.Starting?
    ensures serve.conn in InHand(serve)
  {
  }

  lemma ForwardSettles(s: State, e: Event, c: Conn, queued: bool)
    requires Settling(s, c, queued) && ForwardEnabled(s, e)
    ensures Settling(ForwardStep(s, e), c, queued)
  {
  }

  lemma CloseSettles(s: State, e: Event, c: Conn, queued: bool)
    requires Settling(s, c, queued) && CloseEnabled(s, e)
    ensures Settling(CloseStep(s, e), c, queued)
  {
    hide CloseStep, CloseEnabled;
    CloseLeaves(s, e);
  }

  lemma {:induction false} RunSettles(s: State, events: seq<Event>, c: Conn, queued: bool)
    requires Inv(s) && Settling(s, c, queued) && Run(s, events)
    ensures Settling(After(s, events), c, queued)
    decreases events
  {
    hide Inv, Settling, ServeEnabled, ServeStep, ForwardEnabled, ForwardStep, CloseEnabled, CloseStep;
    if events != [] {
      StepKeeps(s, events[0]);
      if ServeEnabled(s, events[0]) {
        ServeSettles(s, events[0], c, queued);
      } else if ForwardEnabled(s, events[0]) {
        ForwardSettles(s, events[0], c, queued);
      } else {
        CloseSettles(s, events[0], c, queued);
      }
      RunSettles(Step(s, events[0]), events[1..], c, queued);
    }
  }

  /**
    What a factory or a destination raises is queued in the end exactly where `close` had not begun as it was caught:
    `before` comes to that point, and `after` goes on from it until the thread has finished.
   */
  lemma FailureQueuedIff(forwards: bool, before: seq<Event>, c: Conn, after: seq<Event>)
    requires Run(Started(forwards), before)
    requires var s := After(Started(forwards), before);
      && c in s.threads && s.threads[c].Raised? && Run(ForwardStep(s, ForwardOn(c)), after)
      && c in After(ForwardStep(s, ForwardOn(c)), after).threads
      && After(ForwardStep(s, ForwardOn(c)), after).threads[c].Finished?
    ensures var s := After(Started(forwards), before);
      ForwardFailure(c) in After(ForwardStep(s, ForwardOn(c)), after).results <==> !s.closing
  {
    hide Inv, Run, After, OnceEach, OneWay, Told, HeldAsked;
    StartKeeps(forwards);
    StartQueues(forwards);
    RunQueues(Started(forwards), before);
    var s := After(Started(forwards), before);
    var t := ForwardStep(s, ForwardOn(c));
    StepKeepsForward(s, ForwardOn(c));
    RunSettles(t, after, c, !s.closing);
  }

  lemma StepKeepsForward(s: State, e: Event)
    requires Inv(s) && ForwardEnabled(s, e)
    ensures Inv(ForwardStep(s, e))
  {
    hide Inv, ForwardStep, ServeStep;
    StepKeeps(s, e);
  }

  // The client still negotiating.

  /** The connection the serving thread is seen to negotiate, from then until it is done with it. */
  function Seen(serve: Serve): set<Conn> {
    if serve.Checking? || serve.Taking? then {} else InHand(serve)
  }

  /** What `_negotiating` holds, and what has been shut down before `close` looks at it. */
  ghost predicate Looked(s: State) {
    && (!s.serve.Clearing? ==> s.negotiating == Seen(s.serve))
    && (s.close.Idle? ==> s.shut == {})
    && (s.close.Shutting? ==> forall c :: c in s.shut + s.close.todo ==> c in s.threads || s.serve == Starting(c))
    && (s.close.ShuttingNegotiating? ==> forall c :: c in s.shut ==> c in s.threads || s.serve == Starting(c))
  }

  lemma ServeLooks(s: State, e: Event)
    requires Looked(s) && ServeEnabled(s, e)
    ensures Looked(ServeStep(s, e))
  {
  }

  lemma ForwardLooks(s: State, e: Event)
    requires Looked(s) && ForwardEnabled(s, e)
    ensures Looked(ForwardStep(s, e))
  {
  }

  lemma CloseLooks(s: State, e: Event)
    requires Inv(s) && Looked(s) && CloseEnabled(s, e)
    ensures Looked(CloseStep(s, e))
  {
    hide Owned, Tracked, Asked, Exiting, HeldClosed, Joined, ShutDown, Live, InHand;
  }

  lemma {:induction false} RunLooks(s: State, events: seq<Event>)
    requires Inv(s) && Looked(s) && Run(s, events)
    ensures Inv(After(s, events)) && Looked(After(s, events))
    decreases events
  {
    hide Inv, Looked, ServeEnabled, ServeStep, ForwardEnabled, ForwardStep, CloseEnabled, CloseStep;
    if events != [] {
      StepKeeps(s, events[0]);
      if ServeEnabled(s, events[0]) {
        ServeLooks(s, events[0]);
      } else if ForwardEnabled(s, events[0]) {
        ForwardLooks(s, events[0]);
      } else {
        CloseLooks(s, events[0]);
      }
      RunLooks(Step(s, events[0]), events[1..]);
    }
  }

  /** `close` has looked: what it shuts down is settled, and the serving thread takes on nothing new. */
  ghost predicate Past(looked: Serve, shut: set<Conn>, s: State) {
    && s.closing && s.shut == shut
    && !s.close.Idle? && !s.close.Shutting? && !s.close.ShuttingNegotiating?
    && (s.serve.Taking? ==> s.serve == looked)
    && (s.serve.Negotiating? ==> looked == s.serve || looked == Taking(s.serve.conn))
  }

  lemma StepPast(looked: Serve, shut: set<Conn>, s: State, e: Event)
    requires Past(looked, shut, s) && Enabled(s, e)
    ensures Past(looked, shut, Step(s, e))
  {
    hide ServeStep, ServeEnabled, ForwardStep, ForwardEnabled, CloseStep, CloseEnabled;
    if ServeEnabled(s, e) {
      ServePast(looked, shut, s, e);
    } else if ForwardEnabled(s, e) {
      ForwardLeaves(s, e);
    } else {
      ClosePast(looked, shut, s, e);
    }
  }

  lemma ServePast(looked: Serve, shut: set<Conn>, s: State, e: Event)
    requires Past(looked, shut, s) && ServeEnabled(s, e)
    ensures Past(looked, shut, ServeStep(s, e))
  {
  }

  lemma ClosePast(looked: Serve, shut: set<Conn>, s: State, e: Event)
    requires Past(looked, shut, s) && CloseEnabled(s, e)
    ensures Past(looked, shut, CloseStep(s, e))
  {
  }

  lemma {:induction false} RunPast(looked: Serve, shut: set<Conn>, s: State, events: seq<Event>)
    requires Past(looked, shut, s) && Run(s, events)
    ensures Past(looked, shut, After(s, events))
    decreases events
  {
    hide Past, Enabled, Step;
    if events != [] {
      StepPast(looked, shut, s, events[0]);
      RunPast(looked, shut, Step(s, events[0]), events[1..]);
    }
  }

  /**
    In every run: once `close` has looked for a client still negotiating, in the state `before` comes to, one that
    negotiates at any later point has been shut down exactly where it was already seen to negotiate; the only other is
    one accepted and checked by then, and not yet seen.
   */
  lemma NegotiatingShutIff(forwards: bool, before: seq<Event>, after: seq<Event>)
    requires Run(Started(forwards), before)
    requires var s := After(Started(forwards), before);
      && s.close.ShuttingNegotiating? && Run(CloseStep(s, CloseOn), after)
      && After(CloseStep(s, CloseOn), after).serve.Negotiating?
    ensures
      var s := After(Started(forwards), before);
      var later := After(CloseStep(s, CloseOn), after);
      && (later.serve.conn in later.shut <==> s.serve == later.serve)
      && (later.serve.conn !in later.shut <==> s.serve == Taking(later.serve.conn))
  {
    hide Inv, Run, After;
    StartKeeps(forwards);
    RunLooks(Started(forwards), before);
    var s := After(Started(forwards), before);
    var t := CloseStep(s, CloseOn);
    ClosingOnce(s);
    RunPast(s.serve, t.shut, t, after);
    if s.serve.Taking? {
      assert s.serve.conn in InHand(s.serve) by { TakingInHand(s.serve); }
      InHandAccepted(s, s.serve.conn);
    }
  }

  lemma TakingInHand(serve: Serve)
    requires serve.Taking?
    ensures serve.conn in InHand(serve)
  {
  }

  lemma ClosingOnce(s: State)
    requires Inv(s) && s.close.ShuttingNegotiating?
    ensures s.closing
  {
    hide OneOwner, Owned, Tracked, Asked, HeldClosed, Joined, ShutDown, Live;
  }

  /** Such a client can be: accepted and checked before `close` begins, and negotiating unshut once it joins. */
  lemma UnshutNegotiates(forwards: bool) returns (events: seq<Event>)
    ensures Run(Started(forwards), events)
    ensures
      var s := After(Started(forwards), events); s.close.JoiningServe? && s.serve == Negotiating(0) && s.shut == {}
  {
    hide Run, After;
    var start := Started(forwards);
    events := [];
    RunNothing(start);
    events := Serving(start, events, Accept(0));
    events := Serving(start, events, ServeOn);
    events := ClosingOn(start, events, CloseOn);
    events := ClosingOn(start, events, CloseOn);
    events := ClosingOn(start, events, CloseOn);
    events := Serving(start, events, ServeOn);
    events := ClosingOn(start, events, CloseOn);
  }
}
