/**
 * What stopping does to a runtime, over every interleaving of its callers and workers, and what a
 * start that nobody disturbs comes to.
 */
module RuntimeSignals {
  import opened Prelude
  import opened AsyncRuntime

  // ---- the event a stop has read ------------------------------------------------------------------

  /** The errand of a call whose signal step is behind it. */
  function Signalling(c: Caller): Option<Errand> {
    match c
    case AtStopFn(e) => Some(e)
    case AtJoin(e) => Some(e)
    case AtSettle(e, _) => Some(e)
    case _ => None
  }

  /** The event is that of the latest generation; what a call has read and passed on is signalled. */
  ghost predicate Signals(s: State) {
    && (s.event.Some? ==> s.event.value == s.gen)
    && forall i :: 0 <= i < |s.callers| ==> Passed(s, s.callers[i])
  }

  ghost predicate Passed(s: State, c: Caller) {
    match Signalling(c)
    case None => true
    case Some(e) => e.event.Some? ==> e.event.value in s.signalled
  }

  lemma CallerSignals(s: State, i: nat, timeout: bool)
    requires Signals(s) && i < |s.callers| == |s.began| && MoveCaller(s, i, timeout).Some?
    ensures var t := MoveCaller(s, i, timeout).value; Signals(t) && s.signalled <= t.signalled
  {
    CallersApart(s, i, timeout);
  }

  lemma WorkerSignals(s: State, g: nat, raises: bool)
    requires Signals(s) && g in s.workers && MoveWorker(s, g, raises).Some?
    ensures var t := MoveWorker(s, g, raises).value; Signals(t) && s.signalled == t.signalled
  {
  }

  lemma StepSignals(s: State, a: Action)
    requires Signals(s) && Step(s, a).Some?
    ensures Signals(Step(s, a).value) && s.signalled <= Step(s, a).value.signalled
  {
    hide MoveCaller, MoveWorker;
    match a {
      case CallerMoves(i, timeout) => CallerSignals(s, i, timeout);
      case WorkerMoves(g, raises) => WorkerSignals(s, g, raises);
      case CallStart(i) =>
      case CallStop(i) =>
    }
  }

  lemma {:induction false} RunSignals(s: State, actions: seq<Action>)
    requires Signals(s) && Run(s, actions).Some?
    ensures Signals(Run(s, actions).value) && s.signalled <= Run(s, actions).value.signalled
    decreases |actions|
  {
    hide Step, Signals;
    if actions != [] {
      RunSignals(s, actions[..|actions| - 1]);
      StepSignals(Run(s, actions[..|actions| - 1]).value, actions[|actions| - 1]);
    }
  }

  /** In every run: a call past its signal step has signalled the event it read. */
  lemma ReadEventsAreSignalled(n: nat, actions: seq<Action>, i: nat)
    requires Run(Init(n), actions).Some? && i < |Run(Init(n), actions).value.callers|
    ensures var s := Run(Init(n), actions).value;
            match s.callers[i]
            case AtStopFn(e) => e.event.Some? ==> e.event.value in s.signalled
            case AtJoin(e) => e.event.Some? ==> e.event.value in s.signalled
            case AtSettle(e, _) => e.event.Some? ==> e.event.value in s.signalled
            case _ => true
  {
    RunSignals(Init(n), actions);
    var s := Run(Init(n), actions).value;
    assert Passed(s, s.callers[i]);
  }

  // ---- a stop silences the runtime ------------------------------------------------------------------

  /** Generations only grow; while one stays, the event can only go. */
  lemma StepGenerations(s: State, a: Action)
    requires Step(s, a).Some?
    ensures var t := Step(s, a).value;
            s.gen <= t.gen && |t.callers| == |s.callers| && (t.gen == s.gen ==> t.event == s.event || t.event == None)
  {
  }

  lemma {:induction false} RunGenerations(s: State, actions: seq<Action>)
    requires Run(s, actions).Some?
    ensures s.gen <= Run(s, actions).value.gen && |Run(s, actions).value.callers| == |s.callers|
    decreases |actions|
  {
    hide Step;
    if actions != [] {
      RunGenerations(s, actions[..|actions| - 1]);
      StepGenerations(Run(s, actions[..|actions| - 1]).value, actions[|actions| - 1]);
    }
  }

  lemma RunPrefix(s: State, actions: seq<Action>, k: nat)
    requires Run(s, actions).Some? && k <= |actions|
    ensures Run(s, actions[..k]).Some?
    decreases |actions| - k
  {
    if k < |actions| {
      RunPrefix(s, actions, k + 1);
      assert actions[..k + 1][..k] == actions[..k];
    } else {
      assert actions[..k] == actions;
    }
  }

  /** The call is still where it was about to signal, or what it read is signalled. */
  ghost predicate Silenced(s: State, t: State, i: nat, e: Errand) {
    && |t.callers| == |s.callers|
    && (t.event == s.event || t.event == None)
    && ((i < |t.callers| && t.callers[i] == AtSignal(e)) || (e.event.Some? ==> e.event.value in t.signalled))
  }

  lemma StepSilences(s: State, t: State, i: nat, e: Errand, a: Action)
    requires Silenced(s, t, i, e) && i < |s.callers| && Step(t, a).Some? && Step(t, a).value.gen == t.gen
    ensures Silenced(s, Step(t, a).value, i, e)
  {
    StepGenerations(t, a);
    SignalStep(t, i, e, a);
  }

  /** The one step that leaves that place signals; no step takes a signal back. */
  lemma SignalStep(t: State, i: nat, e: Errand, a: Action)
    requires i < |t.callers| && Step(t, a).Some?
    ensures var u := Step(t, a).value;
            && t.signalled <= u.signalled
            && (t.callers[i] == AtSignal(e) ==>
                  u.callers[i] == AtSignal(e) || (e.event.Some? ==> e.event.value in u.signalled))
  {
  }

  lemma {:induction false} RunSilences(s: State, i: nat, e: Errand, actions: seq<Action>)
    requires i < |s.callers| && s.callers[i] == AtSignal(e) && Run(s, actions).Some?
    requires Run(s, actions).value.gen == s.gen
    ensures Silenced(s, Run(s, actions).value, i, e)
    decreases |actions|
  {
    hide Step, Silenced;
    if actions == [] {
      assert Silenced(s, s, i, e) by { StillThere(s, i, e); }
    } else {
      var init, a := actions[..|actions| - 1], actions[|actions| - 1];
      var t := Run(s, init).value;
      RunGenerations(s, init);
      StepGenerations(t, a);
      RunSilences(s, i, e, init);
      StepSilences(s, t, i, e, a);
    }
  }

  lemma StillThere(s: State, i: nat, e: Errand)
    requires i < |s.callers| && s.callers[i] == AtSignal(e)
    ensures Silenced(s, s, i, e)
  {
  }

  /**
   * Any state, any call in `stop`, its own or within a start: let it read the event, and let then
   * happen anything that does not claim a new generation. Once the call has taken its signal step, the
   * runtime is not running, and stays so.
   */
  lemma StopSilences(s: State, i: nat, x: bool, actions: seq<Action>, j: nat)
    requires i < |s.callers| == |s.began| && s.callers[i].AtSnapshot?
    requires var e := Errand(s.thread, s.event, s.callers[i].forStart);
             var s1 := MoveCaller(s, i, x).value;
             && Run(s1, actions).Some? && Run(s1, actions).value.gen == s.gen && j <= |actions|
             && Run(s1, actions[..j]).Some?
             && i < |Run(s1, actions[..j]).value.callers| && Run(s1, actions[..j]).value.callers[i] != AtSignal(e)
    ensures !IsRunning(Run(MoveCaller(s, i, x).value, actions).value)
  {
    hide Step;
    var e := Errand(s.thread, s.event, s.callers[i].forStart);
    var s1 := MoveCaller(s, i, x).value;
    assert s1.callers[i] == AtSignal(e);
    var u := Run(s1, actions[..j]).value;
    var rest := actions[j..];
    assert actions == actions[..j] + rest;
    RunSplits(s1, actions[..j], rest);
    RunGenerations(s1, actions[..j]);
    RunGenerations(u, rest);
    RunSilences(s1, i, e, actions[..j]);
    RunSilences(s1, i, e, actions);
    RunKeepsSignals(u, rest);
  }

  lemma {:induction false} RunSplits(s: State, a: seq<Action>, b: seq<Action>)
    requires Run(s, a + b).Some?
    ensures Run(s, a).Some? && Run(Run(s, a).value, b) == Run(s, a + b)
    decreases |b|
  {
    if b == [] {
      assert a + b == a;
    } else {
      assert (a + b)[..|a + b| - 1] == a + b[..|b| - 1];
      RunSplits(s, a, b[..|b| - 1]);
    }
  }

  lemma {:induction false} RunKeepsSignals(s: State, actions: seq<Action>)
    requires Run(s, actions).Some?
    ensures s.signalled <= Run(s, actions).value.signalled
    decreases |actions|
  {
    hide Step;
    if actions != [] {
      RunKeepsSignals(s, actions[..|actions| - 1]);
      KeepsSignals(Run(s, actions[..|actions| - 1]).value, actions[|actions| - 1]);
    }
  }

  lemma KeepsSignals(s: State, a: Action)
    requires Step(s, a).Some?
    ensures s.signalled <= Step(s, a).value.signalled
  {
  }

  // ---- a worker that was signalled in time ----------------------------------------------------------

  /** A worker that has not passed its second check, or is on its way out. */
  predicate InTime(w: Worker) { !w.spot.AtRunning? && !w.spot.InLoop? }

  lemma CallersKeepWorkers(s: State, g: nat, i: nat, timeout: bool)
    requires g in s.workers && i < |s.callers| == |s.began| && MoveCaller(s, i, timeout).Some?
    ensures var t := MoveCaller(s, i, timeout).value;
            g in t.workers && (t.workers[g] == s.workers[g] || t.workers[g] == Worker(AtEntry, NotMade))
  {
  }

  lemma OthersKeepWorker(s: State, g: nat, h: nat, raises: bool)
    requires g in s.workers && h in s.workers && g != h && MoveWorker(s, h, raises).Some?
    ensures var t := MoveWorker(s, h, raises).value; g in t.workers && t.workers[g] == s.workers[g]
  {
  }

  lemma SignalledMove(s: State, g: nat, raises: bool)
    requires g in s.workers && g in s.signalled && InTime(s.workers[g]) && MoveWorker(s, g, raises).Some?
    ensures var t := MoveWorker(s, g, raises).value; g in t.workers && InTime(t.workers[g])
  {
  }

  lemma WorkerStaysOut(s: State, g: nat, a: Action)
    requires g in s.workers && g in s.signalled && InTime(s.workers[g]) && Step(s, a).Some?
    ensures var t := Step(s, a).value; g in t.workers && g in t.signalled && InTime(t.workers[g])
  {
    hide MoveCaller, MoveWorker;
    KeepsSignals(s, a);
    match a {
      case CallerMoves(i, timeout) => CallersKeepWorkers(s, g, i, timeout);
      case WorkerMoves(h, raises) =>
        if h == g { SignalledMove(s, g, raises); } else { OthersKeepWorker(s, g, h, raises); }
      case CallStart(i) =>
      case CallStop(i) =>
    }
  }

  /** Signalled before its second check, a worker never comes to the loop, whatever happens. */
  lemma {:induction false} SignalledInTime(s: State, g: nat, actions: seq<Action>)
    requires g in s.workers && g in s.signalled && !s.workers[g].spot.AtRunning? && !s.workers[g].spot.InLoop?
    requires Run(s, actions).Some?
    ensures var t := Run(s, actions).value;
            g in t.workers && g in t.signalled && !t.workers[g].spot.AtRunning? && !t.workers[g].spot.InLoop?
    decreases |actions|
  {
    hide Step;
    if actions != [] {
      SignalledInTime(s, g, actions[..|actions| - 1]);
      WorkerStaysOut(Run(s, actions[..|actions| - 1]).value, g, actions[|actions| - 1]);
    }
  }

  // ---- a start that nobody disturbs -------------------------------------------------------------------

  /** One worker's moves in a row, each with its own outcome. */
  function Alone(s: State, g: nat, raises: seq<bool>): Option<State> {
    if raises == [] then Some(s)
    else
      match Alone(s, g, raises[..|raises| - 1])
      case None => None
      case Some(t) => Step(t, WorkerMoves(g, raises[|raises| - 1]))
  }

  ghost predicate Lives(s: State, g: nat, raises: seq<bool>, t: State) { Alone(s, g, raises) == Some(t) }

  lemma LivesOn(s: State, g: nat, raises: seq<bool>, t: State, r: bool) returns (after: seq<bool>, u: State)
    requires Lives(s, g, raises, t) && g in t.workers && MoveWorker(t, g, r).Some?
    ensures after == raises + [r] && u == MoveWorker(t, g, r).value && Lives(s, g, after, u)
  {
    after, u := raises + [r], MoveWorker(t, g, r).value;
    assert after[..|raises|] == raises;
  }

  /** A generation just spawned. */
  ghost predicate Spawned(s: State) {
    && s.gen in s.workers && s.workers[s.gen] == Worker(AtEntry, NotMade) && s.gen !in s.signalled
    && s.event == Some(s.gen) && s.thread == Some(s.gen) && s.phase == Starting
  }

  lemma Begins(s: State, g: nat)
    ensures Lives(s, g, [], s)
  {
  }

  /** A worker left to itself, with a factory that works, makes the runtime run. */
  lemma StartRuns(s: State) returns (raises: seq<bool>, t: State)
    requires Spawned(s)
    ensures Lives(s, s.gen, raises, t) && |raises| == 5 && IsRunning(t)
    ensures t == s.(phase := Running, stopFn := Some(s.gen), workers := s.workers[s.gen := Worker(InLoop, Settled)])
  {
    hide Lives;
    raises, t := [], s;
    Begins(s, s.gen);
    raises, t := LivesOn(s, s.gen, raises, t, false);
    raises, t := LivesOn(s, s.gen, raises, t, false);
    raises, t := LivesOn(s, s.gen, raises, t, false);
    raises, t := LivesOn(s, s.gen, raises, t, false);
    raises, t := LivesOn(s, s.gen, raises, t, false);
  }

  /** The state a finished generation leaves: nothing shared is held, and a failure is remembered. */
  ghost predicate LeftAs(s: State, t: State, phase: Phase, a: Awaitable) {
    t == s.(phase := phase, stopFn := None, event := None, thread := None,
            workers := s.workers[s.gen := Worker(Gone, a)])
  }

  /** It runs until its loop ends, well or badly; the runtime is stopped then, or failed. */
  lemma RunEnds(s: State, failed: bool) returns (raises: seq<bool>, t: State)
    requires Spawned(s)
    ensures Lives(s, s.gen, raises, t) && LeftAs(s, t, if failed then Failed else Stopped, Settled)
  {
    hide Lives;
    raises, t := StartRuns(s);
    raises, t := LivesOn(s, s.gen, raises, t, failed);
    if failed { raises, t := LivesOn(s, s.gen, raises, t, false); }
    raises, t := LivesOn(s, s.gen, raises, t, false);
    raises, t := LivesOn(s, s.gen, raises, t, false);
    raises, t := LivesOn(s, s.gen, raises, t, false);
  }

  /** A factory that raises fails the runtime before it has run. */
  lemma FactoryFails(s: State) returns (raises: seq<bool>, t: State)
    requires Spawned(s)
    ensures Lives(s, s.gen, raises, t) && LeftAs(s, t, Failed, NotMade)
  {
    hide Lives;
    raises, t := [], s;
    Begins(s, s.gen);
    raises, t := LivesOn(s, s.gen, raises, t, false);
    raises, t := LivesOn(s, s.gen, raises, t, true);
    raises, t := LivesOn(s, s.gen, raises, t, false);
    raises, t := LivesOn(s, s.gen, raises, t, false);
    raises, t := LivesOn(s, s.gen, raises, t, false);
    raises, t := LivesOn(s, s.gen, raises, t, false);
  }

  /** A start with nothing before it claims the next generation and spawns its worker. */
  lemma FreshStartSpawns(s: State, i: nat) returns (t: State)
    requires i < |s.callers| == |s.began| && s.callers[i] == Idle && !Alive(s, s.thread)
    requires (s.phase.Stopped? || s.phase.Failed?) && s.gen + 1 !in s.signalled
    ensures Walk(Step(s, CallStart(i)).value, i, 3) == Some(t) && Spawned(t) && t.gen == s.gen + 1
    ensures t.callers == s.callers
    ensures t.answers == s.answers + [Answer(true, s.gen, s.gen + 1, s.spawned, s.spawned + 1)]
  {
    var s1 := Step(s, CallStart(i)).value;
    var s2 := Put(s1, i, AtClaim);
    var s3 := Put(s2.(gen := s.gen + 1, event := Some(s.gen + 1), phase := Starting), i, AtSpawn(s.gen + 1));
    assert Walk(s1, i, 1) == Some(s2) && Walk(s1, i, 2) == Some(s3);
    t := MoveCaller(s3, i, false).value;
  }

  /** A start that has stopped the worker before it may claim; a failure is not forgotten on the way. */
  lemma StoppedThenClaims(s: State, i: nat) returns (t: State)
    requires i < |s.callers| == |s.began| && s.callers[i].AtJoin? && s.callers[i].e.forStart
    requires !Alive(s, s.callers[i].e.thread)
    ensures Walk(s, i, 2) == Some(t) && t.callers[i] == AtClaim
    ensures t.phase == if s.phase.Failed? then Failed else Stopped
    ensures Claims(t, i) && t.workers == s.workers && t.gen == s.gen
  {
    var e := s.callers[i].e;
    var s1 := Put(s, i, AtSettle(e, false));
    assert Walk(s, i, 1) == Some(s1);
    t := MoveCaller(s1, i, false).value;
  }

  /** A start whose join times out over a live worker is refused and leaves everything as it is. */
  lemma StuckThenRefused(s: State, i: nat) returns (t: State)
    requires i < |s.callers| == |s.began| && s.callers[i].AtJoin? && s.callers[i].e.forStart
    requires Alive(s, s.callers[i].e.thread) && s.callers[i].e.event.Some? && s.began[i] == (s.gen, s.spawned)
    ensures var s1 := MoveCaller(s, i, true); s1.Some? && Walk(s1.value, i, 2) == Some(t)
    ensures t == s.(callers := s.callers[i := Idle],
                    answers := s.answers + [Answer(false, s.gen, s.gen, s.spawned, s.spawned)])
    ensures MoveCaller(s, i, false) == None
  {
    var e := s.callers[i].e;
    var s1 := Put(s, i, AtSettle(e, true));
    var s2 := Put(s, i, AtRefuse);
    assert MoveCaller(s, i, true) == Some(s1) && MoveCaller(s1, i, false) == Some(Put(s1, i, AtRefuse));
    assert Put(s1, i, AtRefuse) == s2 && Walk(s1, i, 1) == Some(s2);
    t := MoveCaller(s2, i, false).value;
  }

  // ---- a stop that nobody disturbs --------------------------------------------------------------------

  /** A caller's moves in a row, each time-out taken. */
  function Hurried(s: State, i: nat, n: nat): Option<State> {
    if n == 0 then Some(s)
    else match Hurried(s, i, n - 1) case None => None case Some(t) => Step(t, CallerMoves(i, true))
  }

  /**
   * A stop of its own, from the lock to its answer: the event is signalled; a failure stays one; without
   * a live thread the runtime is stopped, with one it stays as it is, but what was starting is stopping,
   * and what has no event counts as running.
   */
  lemma StopSays(s: State, i: nat) returns (t: State)
    requires i < |s.callers| == |s.began| && s.callers[i] == AtSnapshot(false)
    ensures Hurried(s, i, 5) == Some(t)
    ensures t == s.(callers := s.callers[i := Idle],
                    signalled := if s.event.Some? then s.signalled + {s.event.value} else s.signalled,
                    phase := if s.phase.Failed? then Failed
                             else if !Alive(s, s.thread) then Stopped
                             else if s.event == None then Running
                             else if s.phase.Starting? then Stopping
                             else s.phase)
  {
    var e := Errand(s.thread, s.event, false);
    var s1 := MoveCaller(s, i, true).value;
    var s2 := MoveCaller(s1, i, true).value;
    var s3 := MoveCaller(s2, i, true).value;
    var s4 := MoveCaller(s3, i, true).value;
    t := MoveCaller(s4, i, true).value;
    assert s1.callers[i] == AtSignal(e) && s2.callers[i] == AtStopFn(e) && s3.callers[i] == AtJoin(e);
    assert s4.callers[i] == AtSettle(e, Alive(s, s.thread)) && t.callers[i] == Idle;
    assert Hurried(s, i, 1) == Some(s1) && Hurried(s, i, 2) == Some(s2);
    assert Hurried(s, i, 3) == Some(s3) && Hurried(s, i, 4) == Some(s4);
  }

  // ---- workers of earlier generations ----------------------------------------------------------------

  /** Only worker g is another one, and what was starting may count as running. */
  ghost predicate OnlyItself(s: State, g: nat, t: State) {
    && g in t.workers && t == s.(workers := s.workers[g := t.workers[g]], phase := t.phase)
    && (t.phase != s.phase ==> s.phase.Starting? && t.phase.Running?)
  }

  /** A worker that finds its generation over closes what it has made. */
  lemma SupersededMove(s: State, g: nat, raises: bool)
    requires g in s.workers && g != s.gen && MoveWorker(s, g, raises).Some?
    ensures var t := MoveWorker(s, g, raises).value;
            && OnlyItself(s, g, t)
            && (t.phase != s.phase <==> s.workers[g].spot.AtRunning? && s.phase.Starting?)
            && (s.workers[g].spot.AtPublish? ==> t.workers[g] == Worker(AtFinally, Settled))
  {
  }

  /**
   * A worker whose generation is over, whatever it does and however it ends, leaves everything shared
   * as it is; only, entering the loop while its successor is starting, it makes that count as running.
   */
  lemma {:induction false} SupersededStaysOut(s: State, g: nat, raises: seq<bool>)
    requires g in s.workers && g != s.gen && Alone(s, g, raises).Some?
    ensures OnlyItself(s, g, Alone(s, g, raises).value)
  {
    if raises != [] {
      var init := raises[..|raises| - 1];
      SupersededStaysOut(s, g, init);
      SupersededMove(Alone(s, g, init).value, g, raises[|raises| - 1]);
    }
  }
}
