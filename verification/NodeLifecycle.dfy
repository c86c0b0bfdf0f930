/**
  One adapter's process over its life: starting, stopping, restarting and waiting, with every outcome of the
  readiness wait and of the waits for an exit. A process also exits by itself, at any time between calls.
 */
module NodeLifecycle {
  import opened Wrappers
  import ArgvGuard

  type Argv = seq<string>

  /** A wait for an exit: it ends, it expires, or something else, `KeyboardInterrupt` say, is raised out of it. */
  datatype Wait = Ends | Expires | Interrupted(error: Error)
  {
    /** What leaves the wait, uncaught. */
    function Raises(): Error
      requires !Ends?
    {
      if Expires? then TimeoutExpired else error
    }
  }

  /** How a process met its spawning and its readiness wait, with the wait for the kill that follows a failed one. */
  datatype Launch = Unspawned | Ready | Unready(error: Error, kill: Wait)

  /**
    How a process meets `stop`: the code it exits with, the wait for that, and the wait for the kill that follows an
    expired one.
   */
  datatype End = End(code: int, wait: Wait, kill: Wait)

  const CLEAN_EXIT: int := 0

  /** The adapter and the processes it has spawned, numbered in order. */
  datatype State = State(
    command: Argv,
    extraArgs: Argv,
    running: Option<nat>,
    connected: bool,
    spawned: seq<Argv>,
    alive: set<nat>)

  datatype Outcome = Done | Raised(error: Error)

  datatype Call =
    | Start(launch: Launch)
    | Stop(end: End)
    | Restart(replacement: Option<Argv>, end: End, launch: Launch)
    | WaitUntilStopped(code: int, wait: Wait)
    | Dies(process: nat)
    | Connects

  function Constructed(command: Argv, extraArgs: Argv): Result<State> {
    if ArgvGuard.Accepts(command, extraArgs) then Ok(State(command, extraArgs, None, false, [], {}))
    else Err(ValueError)
  }

  /** `_start`. */
  function Spawned(s: State, args: Argv, launch: Launch): (State, Outcome) {
    match launch
    case Unspawned => (s, Raised(OSError))
    case Ready =>
      (s.(running := Some(|s.spawned|), connected := true,
          spawned := s.spawned + [s.command + args], alive := s.alive + {|s.spawned|}), Done)
    case Unready(error, kill) =>
      (s.(running := None, connected := false, spawned := s.spawned + [s.command + args],
          alive := if kill.Ends? then s.alive - {|s.spawned|} else s.alive + {|s.spawned|}),
       Raised(if kill.Ends? then error else kill.Raises()))
  }

  /**
    `_terminate`: whether the process is gone, and what is raised. One already dead ends the wait at once, so that
    only an interrupt keeps its code from being read.
   */
  function Terminated(dead: bool, end: End): (bool, Outcome) {
    if end.wait.Interrupted? then (dead, Raised(end.wait.error))
    else if dead || end.wait.Ends? then (true, if end.code == CLEAN_EXIT then Done else Raised(RuntimeError))
    else if end.kill.Ends? then (true, Raised(TimeoutError))
    else (false, Raised(end.kill.Raises()))
  }

  /** `stop`, which forgets the process before it waits for it. */
  function Stopped(s: State, end: End): (State, Outcome) {
    if s.running.None? then (s.(connected := false), Done)
    else
      var (gone, outcome) := Terminated(s.running.value !in s.alive, end);
      (s.(running := None, connected := false, alive := if gone then s.alive - {s.running.value} else s.alive), outcome)
  }

  function Called(s: State, call: Call): (State, Outcome) {
    match call
    case Start(launch) => if s.running.Some? then (s, Raised(RuntimeError)) else Spawned(s, s.extraArgs, launch)
    case Stop(end) => Stopped(s, end)
    case Restart(replacement, end, launch) =>
      if replacement.Some? && !ArgvGuard.Accepts(s.command, replacement.value) then (s, Raised(ValueError))
      else
        var (stopped, outcome) := Stopped(s, end);
        if outcome.Raised? then (stopped, outcome)
        else Spawned(stopped, if replacement.Some? then replacement.value else s.extraArgs, launch)
    case WaitUntilStopped(_, wait) =>
      if s.running.None? then (s, Raised(RuntimeError))
      else if wait.Interrupted? then (s, Raised(wait.error))
      else if s.running.value in s.alive && wait.Expires? then (s, Raised(TimeoutError))
      else (s.(running := None, connected := false, alive := s.alive - {s.running.value}), Done)
    case Dies(process) => (s.(alive := s.alive - {process}), Done)
    case Connects => (s.(connected := s.running.Some?), Done)
  }

  function Run(s: State, calls: seq<Call>): State
    decreases calls
  {
    if calls == [] then s else Run(Called(s, calls[0]).0, calls[1..])
  }

  /** The outcomes a call leaves a process behind on: a kill not seen to end it, or an interrupted wait of `stop`. */
  predicate LeavesBehind(s: State, call: Call) {
    match call
    case Start(launch) => s.running.None? && Abandoned(launch)
    case Stop(end) => Abandons(s, end)
    case Restart(replacement, end, launch) =>
      && (replacement.Some? ==> ArgvGuard.Accepts(s.command, replacement.value))
      && (Abandons(s, end) || (Stopped(s, end).1.Done? && Abandoned(launch)))
    case _ => false
  }

  /** A start that fails, and whose kill is not seen to end the process. */
  predicate Abandoned(launch: Launch) {
    launch.Unready? && !launch.kill.Ends?
  }

  /** `stop` gives up on a process that is still there: it has forgotten it before it waits. */
  predicate Abandons(s: State, end: End) {
    && s.running.Some? && s.running.value in s.alive
    && (end.wait.Interrupted? || (end.wait.Expires? && !end.kill.Ends?))
  }

  /** The only process that can be alive is the one the adapter holds. */
  ghost predicate OnlyRunning(s: State) {
    forall p :: p in s.alive ==> s.running == Some(p)
  }

  /** No connection outlives the process it was for, and no process is held that was never spawned. */
  ghost predicate Tidy(s: State) {
    && (s.connected ==> s.running.Some?)
    && (s.running.Some? ==> s.running.value < |s.spawned|)
    && (forall p :: p in s.alive ==> p < |s.spawned|)
  }

  /** A call leaves a process behind exactly where a kill is not seen to end it, or a wait of `stop` is interrupted. */
  lemma OnlyRunningIff(s: State, call: Call)
    requires OnlyRunning(s) && Tidy(s)
    ensures OnlyRunning(Called(s, call).0) <==> !LeavesBehind(s, call)
    ensures Tidy(Called(s, call).0)
  {
    hide ArgvGuard.Accepts;
    var t := Called(s, call).0;
    if LeavesBehind(s, call) {
      if s.running.Some? && s.running.value in s.alive && call.Stop? {
        assert s.running.value in t.alive;
      }
      assert exists p :: p in t.alive && t.running != Some(p) by {
        if t.spawned == s.spawned {
          assert s.running.value in t.alive;
        } else {
          assert |s.spawned| in t.alive;
        }
      }
    }
  }

  /** A start or stop that raises leaves none alive, where nothing was left behind, and no connection. */
  lemma RaisingLeavesNone(s: State, call: Call)
    requires OnlyRunning(s) && Tidy(s) && Called(s, call).1.Raised? && !LeavesBehind(s, call)
    requires (call.Start? && s.running.None?) || call.Stop?
             || (call.Restart? && Called(s, call).1 != Raised(ValueError))
    ensures Called(s, call).0.running.None? && Called(s, call).0.alive == {} && !Called(s, call).0.connected
  {
    hide ArgvGuard.Accepts;
    OnlyRunningIff(s, call);
  }

  ghost predicate NothingLeftBehind(s: State, calls: seq<Call>)
    decreases calls
  {
    calls == [] || (!LeavesBehind(s, calls[0]) && NothingLeftBehind(Called(s, calls[0]).0, calls[1..]))
  }

  lemma {:induction false} RunKeeps(s: State, calls: seq<Call>)
    requires OnlyRunning(s) && Tidy(s) && NothingLeftBehind(s, calls)
    ensures OnlyRunning(Run(s, calls)) && Tidy(Run(s, calls))
    decreases calls
  {
    hide Called, LeavesBehind, OnlyRunning, Tidy;
    if calls != [] {
      OnlyRunningIff(s, calls[0]);
      RunKeeps(Called(s, calls[0]).0, calls[1..]);
    }
  }

  /** Every run of an adapter, from its construction, holds the only process it has alive. */
  lemma RunHoldsItsProcess(command: Argv, extraArgs: Argv, calls: seq<Call>)
    requires Constructed(command, extraArgs).Ok? && NothingLeftBehind(Constructed(command, extraArgs).value, calls)
    ensures OnlyRunning(Run(Constructed(command, extraArgs).value, calls))
    ensures Tidy(Run(Constructed(command, extraArgs).value, calls))
  {
    hide ArgvGuard.Accepts, NothingLeftBehind;
    RunKeeps(Constructed(command, extraArgs).value, calls);
  }

  // What is spawned.

  /** The arguments a call asks a process to be started with. */
  function Wanted(extraArgs: Argv, call: Call): Argv {
    if call.Restart? && call.replacement.Some? then call.replacement.value else extraArgs
  }

  /** An argv is the command and the constructor's arguments, or those of one of the restarts so far, checked. */
  ghost predicate ArgvOf(command: Argv, extraArgs: Argv, calls: seq<Call>, argv: Argv) {
    exists args: Argv :: argv == command + args && ArgvGuard.Accepts(command, args)
      && (args == extraArgs || exists k :: 0 <= k < |calls| && calls[k].Restart? && calls[k].replacement == Some(args))
  }

  /** What one call spawns, if anything. */
  lemma CallSpawns(s: State, call: Call)
    ensures var t := Called(s, call).0;
      && t.command == s.command && t.extraArgs == s.extraArgs
      && (t.spawned == s.spawned || t.spawned == s.spawned + [s.command + Wanted(s.extraArgs, call)])
      && (t.spawned != s.spawned && Wanted(s.extraArgs, call) != s.extraArgs ==>
            ArgvGuard.Accepts(s.command, Wanted(s.extraArgs, call)))
  {
    hide ArgvGuard.Accepts;
  }

  lemma ArgvLater(command: Argv, extraArgs: Argv, calls: seq<Call>, more: seq<Call>, argv: Argv)
    requires ArgvOf(command, extraArgs, calls, argv)
    ensures ArgvOf(command, extraArgs, calls + more, argv)
  {
    var args: Argv :| argv == command + args && ArgvGuard.Accepts(command, args)
      && (args == extraArgs || exists k :: 0 <= k < |calls| && calls[k].Restart? && calls[k].replacement == Some(args));
    if args != extraArgs {
      var k :| 0 <= k < |calls| && calls[k].Restart? && calls[k].replacement == Some(args);
      assert (calls + more)[k] == calls[k];
    }
  }

  lemma {:induction false} RunSpawns(command: Argv, extraArgs: Argv, done: seq<Call>, s: State, calls: seq<Call>)
    requires s.command == command && s.extraArgs == extraArgs && ArgvGuard.Accepts(command, extraArgs)
    requires forall i :: 0 <= i < |s.spawned| ==> ArgvOf(command, extraArgs, done, s.spawned[i])
    ensures forall i :: 0 <= i < |Run(s, calls).spawned| ==>
              ArgvOf(command, extraArgs, done + calls, Run(s, calls).spawned[i])
    decreases calls
  {
    hide Called, ArgvGuard.Accepts, ArgvOf;
    if calls == [] {
      assert done + calls == done;
    } else {
      var call, t := calls[0], Called(s, calls[0]).0;
      CallSpawns(s, call);
      forall i | 0 <= i < |t.spawned| ensures ArgvOf(command, extraArgs, done + [call], t.spawned[i]) {
        if i < |s.spawned| {
          ArgvLater(command, extraArgs, done, [call], s.spawned[i]);
        } else {
          LastArgv(command, extraArgs, done, call);
        }
      }
      RunSpawns(command, extraArgs, done + [call], t, calls[1..]);
      assert done + [call] + calls[1..] == done + calls;
    }
  }

  lemma LastArgv(command: Argv, extraArgs: Argv, done: seq<Call>, call: Call)
    requires ArgvGuard.Accepts(command, extraArgs)
    requires Wanted(extraArgs, call) != extraArgs ==> ArgvGuard.Accepts(command, Wanted(extraArgs, call))
    ensures ArgvOf(command, extraArgs, done + [call], command + Wanted(extraArgs, call))
  {
    hide ArgvGuard.Accepts;
    assert (done + [call])[|done|] == call;
  }

  /**
    In every run, every process was spawned with the command and checked arguments, the constructor's or one
    restart's.
   */
  lemma EverySpawned(command: Argv, extraArgs: Argv, calls: seq<Call>, i: nat)
    requires Constructed(command, extraArgs).Ok?
    requires i < |Run(Constructed(command, extraArgs).value, calls).spawned|
    ensures ArgvOf(command, extraArgs, calls, Run(Constructed(command, extraArgs).value, calls).spawned[i])
  {
    hide Called, ArgvGuard.Accepts, ArgvOf;
    RunSpawns(command, extraArgs, [], Constructed(command, extraArgs).value, calls);
    assert [] + calls == calls;
  }

  /** `NodeAdapter`'s plumbing. */
  class Node {
    const command: Argv
    const extraArgs: Argv
    var running: Option<nat>
    /** Whether a connection to the node is kept. */
    var connected: bool
    /** What the operating system knows: every argv spawned, and which processes are alive. */
    var spawned: seq<Argv>
    var alive: set<nat>

    ghost function Now(): State
      reads this
    {
      State(command, extraArgs, running, connected, spawned, alive)
    }

    constructor (command: Argv, extraArgs: Argv)
      requires ArgvGuard.Accepts(command, extraArgs)
      ensures Constructed(command, extraArgs) == Ok(Now())
    {
      this.command, this.extraArgs := command, extraArgs;
      running, connected, spawned, alive := None, false, [], {};
    }

    method Start(launch: Launch) returns (outcome: Outcome)
      modifies this
      ensures (Now(), outcome) == Called(old(Now()), Call.Start(launch))
      ensures old(running).Some? ==> outcome == Raised(RuntimeError) && Now() == old(Now())
      ensures old(running).None? && launch.Unspawned? ==> outcome == Raised(OSError) && Now() == old(Now())
      ensures old(running).None? && !launch.Unspawned? ==> spawned == old(spawned) + [command + extraArgs]
      ensures old(running).None? && launch.Ready? ==>
        outcome == Done && running == Some(|old(spawned)|) && |old(spawned)| in alive && connected
      ensures old(running).None? && launch.Unready? ==>
        && running.None? && !connected && (|old(spawned)| in alive <==> !launch.kill.Ends?)
        && outcome == Raised(match launch.kill
                             case Ends => launch.error
                             case Expires => TimeoutExpired
                             case Interrupted(error) => error)
    {
      if running.Some? {
        return Raised(RuntimeError);
      }
      outcome := Spawn(extraArgs, launch);
    }

    method Spawn(args: Argv, launch: Launch) returns (outcome: Outcome)
      modifies this
      ensures (Now(), outcome) == Spawned(old(Now()), args, launch)
    {
      if launch.Unspawned? {
        return Raised(OSError);
      }
      var process := |spawned|;
      spawned := spawned + [command + args];
      assert alive + {process} - {process} == alive - {process};
      alive := alive + {process};
      running := Some(process);
      connected := true;
      match launch {
        case Ready =>
          outcome := Done;
        case Unready(error, kill) =>
          running := None;
          outcome := Raised(if kill.Ends? then error else kill.Raises());
          if kill.Ends? {
            alive := alive - {process};
          }
          connected := false;
      }
    }

    method Stop(end: End) returns (outcome: Outcome)
      modifies this
      ensures (Now(), outcome) == Stopped(old(Now()), end)
      ensures running.None? && !connected && spawned == old(spawned) && alive <= old(alive)
      ensures old(running).None? ==> outcome == Done && alive == old(alive)
      ensures old(running).Some? && (end.wait.Ends? || (end.wait.Expires? && old(running).value !in old(alive))) ==>
        old(running).value !in alive && outcome == if end.code == 0 then Done else Raised(RuntimeError)
      ensures old(running).Some? && old(running).value in old(alive) && end.wait.Expires? ==>
        && (old(running).value in alive <==> !end.kill.Ends?)
        && outcome == Raised(match end.kill
                             case Ends => TimeoutError
                             case Expires => TimeoutExpired
                             case Interrupted(error) => error)
      ensures old(running).Some? && end.wait.Interrupted? ==> outcome == Raised(end.wait.error) && alive == old(alive)
    {
      if running.None? {
        connected := false;
        return Done;
      }
      var process := running.value;
      running := None;
      outcome := Terminate(process, end);
      assert process !in old(alive) ==> old(alive) - {process} == old(alive);
      connected := false;
    }

    method Terminate(process: nat, end: End) returns (outcome: Outcome)
      modifies this`alive
      ensures
        var terminated := Terminated(process !in old(alive), end);
        outcome == terminated.1 && alive == if terminated.0 then old(alive) - {process} else old(alive)
    {
      if end.wait.Interrupted? {
        return Raised(end.wait.error);
      }
      if process in alive && end.wait.Expires? {
        if !end.kill.Ends? {
          return Raised(end.kill.Raises());
        }
        alive := alive - {process};
        return Raised(TimeoutError);
      }
      alive := alive - {process};
      outcome := if end.code == CLEAN_EXIT then Done else Raised(RuntimeError);
    }

    method WaitUntilStopped(code: int, wait: Wait) returns (outcome: Outcome, exitCode: Option<int>)
      modifies this
      ensures (Now(), outcome) == Called(old(Now()), Call.WaitUntilStopped(code, wait))
      ensures outcome.Raised? ==> Now() == old(Now())
      ensures outcome.Done? <==>
        old(running).Some? && (wait.Ends? || (wait.Expires? && old(running).value !in old(alive)))
      ensures outcome.Done? ==> running.None? && !connected && old(running).value !in alive
      ensures old(running).None? ==> outcome == Raised(RuntimeError)
      ensures old(running).Some? && outcome.Raised? ==>
        outcome == Raised(if wait.Expires? then TimeoutError else wait.error)
      ensures exitCode == if outcome.Done? then Some(code) else None
    {
      if running.None? {
        return Raised(RuntimeError), None;
      }
      if wait.Interrupted? {
        return Raised(wait.error), None;
      }
      if running.value in alive && wait.Expires? {
        return Raised(TimeoutError), None;
      }
      alive := alive - {running.value};
      running := None;
      connected := false;
      return Done, Some(code);
    }

    method Restart(replacement: Option<Argv>, end: End, launch: Launch) returns (outcome: Outcome)
      modifies this
      ensures (Now(), outcome) == Called(old(Now()), Call.Restart(replacement, end, launch))
      ensures replacement.Some? && !ArgvGuard.Accepts(command, replacement.value) ==>
        outcome == Raised(ValueError) && Now() == old(Now())
      ensures Stopped(old(Now()), end).1.Raised? ==>
        (replacement.None? || ArgvGuard.Accepts(command, replacement.value)) ==>
        (Now(), outcome) == Stopped(old(Now()), end)
      ensures outcome.Done? ==>
        && running == Some(|old(spawned)|) && connected && |old(spawned)| in alive
        && spawned == old(spawned) + [command + if replacement.Some? then replacement.value else extraArgs]
    {
      var args := extraArgs;
      if replacement.Some? {
        var error := ArgvGuard.CheckExtraArgs(command, replacement.value);
        if error.Some? {
          return Raised(error.value);
        }
        args := replacement.value;
      }
      outcome := Stop(end);
      if outcome.Done? {
        outcome := Spawn(args, launch);
      }
    }
  }
}
