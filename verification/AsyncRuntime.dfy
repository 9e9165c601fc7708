/**
 * The thread-owning runtime as a transition system. Callers and worker threads interleave at the
 * points where the code takes or releases its lock; joins may time out; coroutines may fail.
 */
module AsyncRuntime {
  import opened Prelude

  datatype Phase = Stopped | Starting | Running | Stopping | Failed

  /** The awaitable of one worker: not made, made, or dealt with by awaiting, closing or cancelling. */
  datatype Awaitable = NotMade | Made | Settled

  /** Where a worker stands; `Leaving` has left its final block, `Gone` no longer exists. */
  datatype Spot = AtEntry | AtFactory | AtPublish | AtRecheck | AtRunning | InLoop
    | AtError | AtFinally | AtFinal | Leaving | Gone

  datatype Worker = Worker(spot: Spot, awaitable: Awaitable) {
    predicate Finished() { spot.Leaving? || spot.Gone? }
  }

  /** What `stop` read under the lock, and whether it works for a `start`. */
  datatype Errand = Errand(thread: Option<nat>, event: Option<nat>, forStart: bool)

  datatype Caller =
    | Idle
    | AtShutdown
    | AtSnapshot(forStart: bool)
    | AtSignal(e: Errand)
    | AtStopFn(e: Errand)
    | AtJoin(e: Errand)
    | AtSettle(e: Errand, alive: bool)
    | AtRefuse
    | AtClaim
    | AtSpawn(mine: nat)

  /** A finished `start`: its answer, and generation and number of workers before and after. */
  datatype Answer = Answer(ok: bool, gen0: nat, gen1: nat, spawned0: nat, spawned1: nat)

  datatype State = State(
    phase: Phase,
    gen: nat,
    thread: Option<nat>,
    stopFn: Option<nat>,
    event: Option<nat>,
    signalled: set<nat>,
    workers: map<nat, Worker>,
    spawned: nat,
    callers: seq<Caller>,
    began: seq<(nat, nat)>,
    answers: seq<Answer>)

  function Init(n: nat): State {
    State(Stopped, 0, None, None, None, {}, map[], 0, seq(n, i => Idle), seq(n, i => (0, 0)), [])
  }

  /** How a worker's open question is answered: the factory or the loop succeeds, or raises. */
  datatype Action =
    | CallStart(i: nat)
    | CallStop(i: nat)
    | CallerMoves(i: nat, timeout: bool)
    | WorkerMoves(g: nat, raises: bool)

  function Alive(s: State, t: Option<nat>): bool {
    t.Some? && t.value in s.workers && !s.workers[t.value].spot.Gone?
  }

  function Put(s: State, i: nat, c: Caller): State
    requires i < |s.callers|
  {
    s.(callers := s.callers[i := c])
  }

  /** The caller's `start` returns. */
  function Return(s: State, i: nat, ok: bool): State
    requires i < |s.callers| == |s.began|
  {
    Put(s, i, Idle).(answers := s.answers + [Answer(ok, s.began[i].0, s.gen, s.began[i].1, s.spawned)])
  }

  /** One move of caller i, from one lock boundary to the next; none while it has to wait. */
  function MoveCaller(s: State, i: nat, timeout: bool): Option<State>
    requires i < |s.callers| == |s.began|
  {
    match s.callers[i]
    case Idle => None
    case AtShutdown =>
      if (s.phase.Stopped? || s.phase.Failed?) && !Alive(s, s.thread) then Some(Put(s, i, AtClaim))
      else Some(Put(s.(phase := Stopping), i, AtSnapshot(true)))
    case AtSnapshot(forStart) =>
      var t := if s.phase.Starting? then s.(phase := Stopping) else s;
      Some(Put(t, i, AtSignal(Errand(s.thread, s.event, forStart))))
    case AtSignal(e) =>
      var t := if e.event.Some? then s.(signalled := s.signalled + {e.event.value}) else s;
      Some(Put(t, i, AtStopFn(e)))
    case AtStopFn(e) => Some(Put(s, i, AtJoin(e)))
    case AtJoin(e) =>
      if Alive(s, e.thread) && !timeout then None else Some(Put(s, i, AtSettle(e, Alive(s, e.thread))))
    case AtSettle(e, alive) =>
      var phase :=
        if s.phase.Failed? then Failed
        else if !alive then Stopped
        else if e.event == None then Running
        else s.phase;
      Some(Put(s.(phase := phase), i, if !e.forStart then Idle else if alive then AtRefuse else AtClaim))
    case AtRefuse => Some(Return(s, i, false))
    case AtClaim =>
      if !(s.phase.Stopped? || s.phase.Failed?) then Some(Return(s, i, false))
      else Some(Put(s.(gen := s.gen + 1, event := Some(s.gen + 1), phase := Starting), i, AtSpawn(s.gen + 1)))
    case AtSpawn(mine) =>
      Some(Return(s.(thread := Some(mine),
                     workers := s.workers[mine := Worker(AtEntry, NotMade)],
                     spawned := s.spawned + 1), i, true))
  }

  function Place(s: State, g: nat, w: Worker): State { s.(workers := s.workers[g := w]) }

  /** One move of the worker of generation g. */
  function MoveWorker(s: State, g: nat, raises: bool): Option<State>
    requires g in s.workers
  {
    var w := s.workers[g];
    match w.spot
    case AtEntry => Some(Place(s, g, w.(spot := if g in s.signalled then AtFinally else AtFactory)))
    case AtFactory => Some(Place(s, g, if raises then w.(spot := AtError) else Worker(AtPublish, Made)))
    case AtPublish =>
      if g != s.gen then Some(Place(s, g, Worker(AtFinally, Settled)))
      else Some(Place(s.(stopFn := Some(g)), g, w.(spot := AtRecheck)))
    case AtRecheck => Some(Place(s, g, w.(spot := if g in s.signalled then AtFinally else AtRunning)))
    case AtRunning =>
      Some(Place(if s.phase.Starting? then s.(phase := Running) else s, g, Worker(InLoop, Settled)))
    case InLoop => Some(Place(s, g, w.(spot := if raises then AtError else AtFinally)))
    case AtError => Some(Place(if g == s.gen then s.(phase := Failed) else s, g, w.(spot := AtFinally)))
    case AtFinally => Some(Place(s, g, Worker(AtFinal, if w.awaitable.Made? then Settled else w.awaitable)))
    case AtFinal =>
      var t :=
        if g == s.gen then s.(stopFn := None, event := None, thread := None,
                              phase := if s.phase.Failed? then Failed else Stopped)
        else s;
      Some(Place(t, g, w.(spot := Leaving)))
    case Leaving => Some(Place(s, g, w.(spot := Gone)))
    case Gone => None
  }

  function Step(s: State, a: Action): Option<State> {
    match a
    case CallStart(i) =>
      if i < |s.callers| == |s.began| && s.callers[i].Idle?
      then Some(Put(s.(began := s.began[i := (s.gen, s.spawned)]), i, AtShutdown))
      else None
    case CallStop(i) =>
      if i < |s.callers| && s.callers[i].Idle? then Some(Put(s, i, AtSnapshot(false))) else None
    case CallerMoves(i, timeout) => if i < |s.callers| == |s.began| then MoveCaller(s, i, timeout) else None
    case WorkerMoves(g, raises) => if g in s.workers then MoveWorker(s, g, raises) else None
  }

  ghost predicate OthersIdle(s: State, i: int) {
    forall j :: 0 <= j < |s.callers| && j != i ==> s.callers[j].Idle?
  }

  /** A start that goes on to claim the next generation. */
  predicate Claims(s: State, i: int) {
    0 <= i < |s.callers| && s.callers[i].AtClaim? && (s.phase.Stopped? || s.phase.Failed?)
  }

  /**
   * Callers may overlap while they stop the previous worker. Only a start that claims a generation
   * has to be the one call in progress, and stay it until it has spawned.
   */
  ghost predicate ClaimsAlone(s: State, a: Action) {
    match a
    case CallerMoves(i, _) => Claims(s, i) ==> OthersIdle(s, i)
    case WorkerMoves(_, _) => true
    case _ => forall j :: 0 <= j < |s.callers| ==> !s.callers[j].AtSpawn?
  }

  function Run(s: State, actions: seq<Action>): Option<State> {
    if actions == [] then Some(s)
    else
      match Run(s, actions[..|actions| - 1])
      case None => None
      case Some(t) => Step(t, actions[|actions| - 1])
  }

  ghost predicate ClaimsAlwaysAlone(s: State, actions: seq<Action>) {
    actions == [] ||
    (ClaimsAlwaysAlone(s, actions[..|actions| - 1]) &&
     match Run(s, actions[..|actions| - 1]) case None => true case Some(t) => ClaimsAlone(t, actions[|actions| - 1]))
  }

  /** `running`, as the property reads it under the lock. */
  predicate IsRunning(s: State) {
    s.phase.Running? && s.event.Some? && s.event.value !in s.signalled
  }

  // ---- the invariant --------------------------------------------------------------------------

  ghost predicate Quiet(s: State) { forall g :: g in s.workers ==> s.workers[g].Finished() }

  ghost predicate WorkerFits(s: State, g: nat, w: Worker) {
    && g <= s.gen
    && (g < s.gen ==> w.Finished())
    && match w.spot
       case AtEntry => w.awaitable.NotMade?
       case AtFactory => w.awaitable.NotMade?
       case AtPublish => w.awaitable.Made?
       case AtRecheck => w.awaitable.Made?
       case AtRunning => w.awaitable.Made?
       case InLoop => w.awaitable.Settled?
       case AtError => true
       case AtFinally => true
       case AtFinal => !w.awaitable.Made?
       case Leaving => !w.awaitable.Made?
       case Gone => !w.awaitable.Made?
  }

  /** While a worker of the current generation is at work, the shared fields point at it. */
  ghost predicate FieldsFit(s: State) {
    if s.gen in s.workers && !s.workers[s.gen].Finished() then
      && s.thread == Some(s.gen) && s.event == Some(s.gen) && !s.phase.Stopped?
    else
      s.thread == None && !s.phase.Running?
  }

  ghost predicate CallerFits(s: State, c: Caller) {
    match c
    case Idle => true
    case AtShutdown => true
    case AtSnapshot(_) => true
    case AtSignal(e) => ErrandFits(s, e)
    case AtStopFn(e) => ErrandFits(s, e)
    case AtJoin(e) => ErrandFits(s, e)
    case AtSettle(e, alive) => ErrandFits(s, e) && (!alive ==> Quiet(s)) && (alive ==> e.event.Some?)
    case AtRefuse => true
    case AtClaim => Quiet(s)
    case AtSpawn(mine) =>
      Quiet(s) && mine == s.gen && s.gen !in s.workers
      && s.phase.Starting? && s.event == Some(s.gen)
  }

  ghost predicate ErrandFits(s: State, e: Errand) {
    && (e.thread == None ==> Quiet(s))
    && (e.thread.Some? ==> e.event.Some? && e.thread.value == s.gen && s.gen in s.workers)
  }

  ghost predicate AnswerFits(a: Answer) {
    if a.ok then a.gen1 == a.gen0 + 1 && a.spawned1 == a.spawned0 + 1 else a.gen1 == a.gen0 && a.spawned1 == a.spawned0
  }

  /** Since its call began, a caller that has not claimed a generation has changed nothing. */
  ghost predicate BeganFits(s: State, i: nat)
    requires i < |s.callers| == |s.began|
  {
    match s.callers[i]
    case Idle => true
    case AtSpawn(_) => s.began[i] == (s.gen - 1, s.spawned)
    case AtShutdown => s.began[i] == (s.gen, s.spawned)
    case AtRefuse => s.began[i] == (s.gen, s.spawned)
    case AtClaim => s.began[i] == (s.gen, s.spawned)
    case AtSnapshot(f) => f ==> s.began[i] == (s.gen, s.spawned)
    case AtSignal(e) => e.forStart ==> s.began[i] == (s.gen, s.spawned)
    case AtStopFn(e) => e.forStart ==> s.began[i] == (s.gen, s.spawned)
    case AtJoin(e) => e.forStart ==> s.began[i] == (s.gen, s.spawned)
    case AtSettle(e, _) => e.forStart ==> s.began[i] == (s.gen, s.spawned)
  }

  ghost predicate SpawnsAlone(s: State) {
    forall i :: 0 <= i < |s.callers| && s.callers[i].AtSpawn? ==> OthersIdle(s, i)
  }

  ghost predicate Inv(s: State) {
    && |s.callers| == |s.began|
    && (forall g :: g in s.workers ==> WorkerFits(s, g, s.workers[g]))
    && FieldsFit(s)
    && (forall i :: 0 <= i < |s.callers| ==> CallerFits(s, s.callers[i]) && BeganFits(s, i))
    && SpawnsAlone(s)
    && (forall k :: 0 <= k < |s.answers| ==> AnswerFits(s.answers[k]))
  }

  ghost predicate CallersFit(s: State) {
    |s.callers| == |s.began| && forall i :: 0 <= i < |s.callers| ==> CallerFits(s, s.callers[i]) && BeganFits(s, i)
  }

  lemma CallerStaysFit(s: State, i: nat, timeout: bool)
    requires Inv(s) && i < |s.callers| && MoveCaller(s, i, timeout).Some?
    ensures var t := MoveCaller(s, i, timeout).value; CallerFits(t, t.callers[i])
  {
    assert CallerFits(s, s.callers[i]);
  }

  lemma CallerStaysBegun(s: State, i: nat, timeout: bool)
    requires Inv(s) && i < |s.callers| && MoveCaller(s, i, timeout).Some?
    ensures var t := MoveCaller(s, i, timeout).value; |t.callers| == |t.began| && BeganFits(t, i)
  {
    assert BeganFits(s, i);
  }

  /** A move that neither claims nor spawns touches no generation and no worker. */
  lemma QuietMove(s: State, i: nat, timeout: bool)
    requires i < |s.callers| == |s.began| && MoveCaller(s, i, timeout).Some?
    requires !Claims(s, i) && !s.callers[i].AtSpawn?
    ensures var t := MoveCaller(s, i, timeout).value;
            t.workers == s.workers && t.gen == s.gen && t.spawned == s.spawned && t.event == s.event
  {
  }

  lemma CallersApart(s: State, i: nat, timeout: bool)
    requires i < |s.callers| == |s.began| && MoveCaller(s, i, timeout).Some?
    ensures var t := MoveCaller(s, i, timeout).value;
            && |t.callers| == |s.callers| && t.began == s.began
            && forall j :: 0 <= j < |s.callers| && j != i ==> t.callers[j] == s.callers[j]
  {
  }

  lemma OtherStaysFit(s: State, i: nat, timeout: bool, j: nat)
    requires Inv(s) && i < |s.callers| && MoveCaller(s, i, timeout).Some?
    requires (Claims(s, i) ==> OthersIdle(s, i)) && j < |s.callers| && j != i
    ensures var t := MoveCaller(s, i, timeout).value;
            j < |t.callers| == |t.began| && CallerFits(t, t.callers[j]) && BeganFits(t, j)
  {
    hide MoveCaller;
    CallersApart(s, i, timeout);
    assert CallerFits(s, s.callers[j]) && BeganFits(s, j);
    if !s.callers[j].Idle? {
      if s.callers[i].Idle? { NoMoveIdle(s, i, timeout); }
      QuietMove(s, i, timeout);
    }
  }

  lemma NoMoveIdle(s: State, i: nat, timeout: bool)
    requires i < |s.callers| == |s.began| && s.callers[i].Idle?
    ensures MoveCaller(s, i, timeout) == None
  {
  }

  lemma CallerKeepsCallers(s: State, i: nat, timeout: bool)
    requires Inv(s) && i < |s.callers| && MoveCaller(s, i, timeout).Some? && (Claims(s, i) ==> OthersIdle(s, i))
    ensures CallersFit(MoveCaller(s, i, timeout).value)
  {
    hide MoveCaller, CallerFits, BeganFits;
    CallerStaysFit(s, i, timeout);
    CallerStaysBegun(s, i, timeout);
    CallersApart(s, i, timeout);
    var t := MoveCaller(s, i, timeout).value;
    forall j | 0 <= j < |t.callers| ensures CallerFits(t, t.callers[j]) && BeganFits(t, j) {
      if j != i { OtherStaysFit(s, i, timeout, j); }
    }
  }

  lemma CallerKeepsWorkers(s: State, i: nat, timeout: bool)
    requires Inv(s) && i < |s.callers| && MoveCaller(s, i, timeout).Some?
    ensures var t := MoveCaller(s, i, timeout).value;
            && (forall g :: g in t.workers ==> WorkerFits(t, g, t.workers[g]))
            && FieldsFit(t)
            && (forall k :: 0 <= k < |t.answers| ==> AnswerFits(t.answers[k]))
  {
    assert CallerFits(s, s.callers[i]) && BeganFits(s, i);
  }

  lemma CallerSpawnsAlone(s: State, i: nat, timeout: bool)
    requires SpawnsAlone(s) && i < |s.callers| == |s.began| && MoveCaller(s, i, timeout).Some?
    requires Claims(s, i) ==> OthersIdle(s, i)
    ensures SpawnsAlone(MoveCaller(s, i, timeout).value)
  {
    CallersApart(s, i, timeout);
    assert !s.callers[i].Idle?;
    var t := MoveCaller(s, i, timeout).value;
    assert forall k :: 0 <= k < |t.callers| && k != i ==> t.callers[k] == s.callers[k];
  }

  lemma CallerKeepsInv(s: State, i: nat, timeout: bool)
    requires Inv(s) && i < |s.callers| && MoveCaller(s, i, timeout).Some? && (Claims(s, i) ==> OthersIdle(s, i))
    ensures Inv(MoveCaller(s, i, timeout).value)
  {
    hide MoveCaller;
    CallerSpawnsAlone(s, i, timeout);
    CallerKeepsCallers(s, i, timeout);
    CallerKeepsWorkers(s, i, timeout);
  }

  lemma WorkerStaysFit(s: State, g: nat, raises: bool)
    requires Inv(s) && g in s.workers && MoveWorker(s, g, raises).Some?
    ensures var t := MoveWorker(s, g, raises).value;
            && t.workers.Keys == s.workers.Keys && t.gen == s.gen && WorkerFits(t, g, t.workers[g])
            && forall h :: h in s.workers && h != g ==> t.workers[h] == s.workers[h]
  {
    assert WorkerFits(s, g, s.workers[g]);
  }

  lemma WorkerKeepsFields(s: State, g: nat, raises: bool)
    requires Inv(s) && g in s.workers && MoveWorker(s, g, raises).Some?
    ensures FieldsFit(MoveWorker(s, g, raises).value)
  {
    assert WorkerFits(s, g, s.workers[g]);
  }

  lemma WorkerKeepsCaller(s: State, g: nat, raises: bool, j: nat)
    requires Inv(s) && g in s.workers && MoveWorker(s, g, raises).Some? && j < |s.callers|
    ensures var t := MoveWorker(s, g, raises).value;
            && t.callers == s.callers && t.began == s.began && t.answers == s.answers
            && CallerFits(t, t.callers[j]) && BeganFits(t, j)
  {
    assert CallerFits(s, s.callers[j]) && BeganFits(s, j) && WorkerFits(s, g, s.workers[g]);
  }

  lemma WorkerLeaves(s: State, g: nat, raises: bool)
    requires g in s.workers && MoveWorker(s, g, raises).Some?
    ensures var t := MoveWorker(s, g, raises).value;
            t.callers == s.callers && t.began == s.began && t.answers == s.answers
  {
  }

  lemma WorkerKeepsInv(s: State, g: nat, raises: bool)
    requires Inv(s) && g in s.workers && MoveWorker(s, g, raises).Some?
    ensures Inv(MoveWorker(s, g, raises).value)
  {
    hide MoveWorker, FieldsFit, CallerFits, BeganFits;
    var t := MoveWorker(s, g, raises).value;
    WorkerLeaves(s, g, raises);
    WorkerStaysFit(s, g, raises);
    WorkerKeepsFields(s, g, raises);
    forall h | h in t.workers ensures WorkerFits(t, h, t.workers[h]) {
      assert h in t.workers.Keys;
      assert WorkerFits(s, h, s.workers[h]);
    }
    forall j | 0 <= j < |t.callers| ensures CallerFits(t, t.callers[j]) && BeganFits(t, j) {
      WorkerKeepsCaller(s, g, raises, j);
    }
  }

  lemma StepKeepsInv(s: State, a: Action)
    requires Inv(s) && ClaimsAlone(s, a) && Step(s, a).Some?
    ensures Inv(Step(s, a).value)
  {
    match a {
      case CallerMoves(i, timeout) => CallerKeepsInv(s, i, timeout);
      case WorkerMoves(g, raises) => WorkerKeepsInv(s, g, raises);
      case CallStart(i) =>
      case CallStop(i) =>
    }
  }

  lemma {:induction false} RunKeepsInv(n: nat, actions: seq<Action>)
    requires ClaimsAlwaysAlone(Init(n), actions) && Run(Init(n), actions).Some?
    ensures Inv(Run(Init(n), actions).value)
  {
    if actions != [] {
      RunKeepsInv(n, actions[..|actions| - 1]);
      StepKeepsInv(Run(Init(n), actions[..|actions| - 1]).value, actions[|actions| - 1]);
    }
  }

  /**
   * Over every run in which only a claiming start is alone, however the other calls and the workers
   * interleave: at most one worker has not finished its final block; `running` means a worker of the current
   * generation is at work; a refused start has changed no generation and made no worker; and no
   * finished worker leaves an awaitable neither awaited nor closed.
   */
  lemma OneWorkerAtATime(n: nat, actions: seq<Action>)
    requires ClaimsAlwaysAlone(Init(n), actions) && Run(Init(n), actions).Some?
    ensures var s := Run(Init(n), actions).value;
            && (forall g, h ::
                  g in s.workers && h in s.workers && !s.workers[g].Finished() && !s.workers[h].Finished() ==> g == h)
            && (IsRunning(s) ==> s.gen in s.workers && !s.workers[s.gen].Finished())
            && (forall k :: 0 <= k < |s.answers| && !s.answers[k].ok ==>
                  s.answers[k].gen1 == s.answers[k].gen0 && s.answers[k].spawned1 == s.answers[k].spawned0)
            && (forall g :: g in s.workers && s.workers[g].Finished() ==> !s.workers[g].awaitable.Made?)
  {
    RunKeepsInv(n, actions);
    var s := Run(Init(n), actions).value;
    forall g | g in s.workers ensures WorkerFits(s, g, s.workers[g]) {}
  }

  // ---- why a claim has to be alone -------------------------------------------------------------------

  lemma Extend(s: State, actions: seq<Action>, t: State, a: Action)
    requires Run(s, actions) == Some(t) && Step(t, a).Some?
    ensures Run(s, actions + [a]) == Step(t, a)
  {
    assert (actions + [a])[..|actions|] == actions;
  }

  /** Several moves of one caller in a row. */
  lemma Moves(s: State, actions: seq<Action>, t: State, i: nat, n: nat, u: State)
    requires Run(s, actions) == Some(t) && Walk(t, i, n) == Some(u)
    ensures Run(s, actions + seq(n, k => CallerMoves(i, false))) == Some(u)
    decreases n
  {
    var more := seq(n, k => CallerMoves(i, false));
    if n == 0 {
      assert actions + more == actions;
    } else {
      var v := Walk(t, i, n - 1).value;
      Moves(s, actions, t, i, n - 1, v);
      var before := actions + seq(n - 1, k => CallerMoves(i, false));
      Extend(s, before, v, CallerMoves(i, false));
      assert actions + more == before + [CallerMoves(i, false)];
    }
  }

  function Walk(t: State, i: nat, n: nat): Option<State> {
    if n == 0 then Some(t) else match Walk(t, i, n - 1) case None => None case Some(u) => Step(u, CallerMoves(i, false))
  }

  /**
   * With a call between claim and spawn the guarantee fails. Two starts in progress at once both
   * claim a generation and both spawn: two workers are at work and the shared field names the second.
   */
  lemma ConcurrentStartsOverlap() returns (actions: seq<Action>)
    ensures Run(Init(2), actions).Some?
    ensures var s := Run(Init(2), actions).value;
            && 1 in s.workers && 2 in s.workers && !s.workers[1].Finished() && !s.workers[2].Finished()
            && s.thread == Some(2) && |s.answers| == 2 && s.answers[0].ok && s.answers[1].ok
  {
    hide Run;
    var s0 := Init(2);
    var s4;
    actions, s4 := FirstClaims();
    var s11 := SecondStart(s4);
    Moves(s0, actions, s4, 1, 7, s11);
    actions := actions + seq(7, k => CallerMoves(1, false));
    var s12, s13 := BothSpawn(s11);
    Extend(s0, actions, s11, CallerMoves(0, false));
    actions := actions + [CallerMoves(0, false)];
    Extend(s0, actions, s12, CallerMoves(1, false));
    actions := actions + [CallerMoves(1, false)];
  }

  /** Two claims that are both through spawn a worker each. */
  lemma BothSpawn(s: State) returns (t: State, u: State)
    requires |s.callers| == |s.began| == 2 && s.callers == [AtSpawn(1), AtSpawn(2)] && s.answers == []
    ensures Step(s, CallerMoves(0, false)) == Some(t) && Step(t, CallerMoves(1, false)) == Some(u)
    ensures 1 in u.workers && 2 in u.workers && !u.workers[1].Finished() && !u.workers[2].Finished()
    ensures u.thread == Some(2) && |u.answers| == 2 && u.answers[0].ok && u.answers[1].ok
  {
    t := Step(s, CallerMoves(0, false)).value;
    u := Step(t, CallerMoves(1, false)).value;
  }

  /** One start has claimed its generation but spawned nothing, another is at its shutdown. */
  lemma FirstClaims() returns (actions: seq<Action>, s: State)
    ensures Run(Init(2), actions) == Some(s)
    ensures s == Init(2).(gen := 1, event := Some(1), phase := Starting,
                          callers := [AtSpawn(1), AtShutdown], began := [(0, 0), (1, 0)])
  {
    hide Run;
    var s0 := Init(2);
    EmptyRun(s0);
    var s1 := Step(s0, CallStart(0)).value;
    Extend(s0, [], s0, CallStart(0));
    actions := [] + [CallStart(0)];
    var s2 := Put(s1, 0, AtClaim);
    var s3 := Put(s2.(gen := 1, event := Some(1), phase := Starting), 0, AtSpawn(1));
    assert Walk(s1, 0, 1) == Some(s2) && Walk(s1, 0, 2) == Some(s3);
    Moves(s0, actions, s1, 0, 2, s3);
    actions := actions + seq(2, k => CallerMoves(0, false));
    s := Step(s3, CallStart(1)).value;
    Extend(s0, actions, s3, CallStart(1));
    actions := actions + [CallStart(1)];
  }

  lemma EmptyRun(s: State)
    ensures Run(s, []) == Some(s)
  {
  }

  /** A start that meets another one between claim and spawn stops nothing and claims as well. */
  lemma SecondStart(s: State) returns (t: State)
    requires |s.callers| == |s.began| == 2 && s.callers[1] == AtShutdown
    requires s.phase == Starting && s.thread == None && s.event == Some(1) && s.gen == 1
    ensures Walk(s, 1, 7) == Some(t)
    ensures t == s.(phase := Starting, signalled := s.signalled + {1}, gen := 2,
                    event := Some(2), callers := s.callers[1 := AtSpawn(2)])
  {
    var e := Errand(None, Some(1), true);
    var a := Put(s.(phase := Stopping), 1, AtSnapshot(true));
    assert Walk(s, 1, 1) == Some(a);
    var b := Put(a, 1, AtSignal(e));
    assert Walk(s, 1, 2) == Some(b);
    var c := Put(b.(signalled := s.signalled + {1}), 1, AtStopFn(e));
    assert Walk(s, 1, 3) == Some(c);
    var d := Put(c, 1, AtJoin(e));
    assert Walk(s, 1, 4) == Some(d);
    var f := Put(d, 1, AtSettle(e, false));
    assert Walk(s, 1, 5) == Some(f);
    var g := Put(f.(phase := Stopped), 1, AtClaim);
    assert Walk(s, 1, 6) == Some(g);
    t := Put(g.(gen := 2, event := Some(2), phase := Starting), 1, AtSpawn(2));
    assert Walk(s, 1, 7) == Some(t);
    assert t.callers == s.callers[1 := AtSpawn(2)];
  }

  // ---- and not only until it has spawned -------------------------------------------------------

  /** No call begins between a claim and its spawn. */
  ghost predicate Undisturbed(s: State, actions: seq<Action>) {
    actions == [] ||
    (Undisturbed(s, actions[..|actions| - 1]) &&
     match Run(s, actions[..|actions| - 1])
     case None => true
     case Some(t) => BeginsFreely(t, actions[|actions| - 1]))
  }

  ghost predicate BeginsFreely(s: State, a: Action) {
    a.CallStart? || a.CallStop? ==> forall j :: 0 <= j < |s.callers| ==> !s.callers[j].AtSpawn?
  }

  ghost predicate Reaches(actions: seq<Action>, t: State) {
    Run(Init(2), actions) == Some(t) && Undisturbed(Init(2), actions)
  }

  lemma Onward(actions: seq<Action>, t: State, a: Action) returns (after: seq<Action>, u: State)
    requires Reaches(actions, t) && Step(t, a).Some? && BeginsFreely(t, a)
    ensures after == actions + [a] && u == Step(t, a).value && Reaches(after, u)
  {
    after, u := actions + [a], Step(t, a).value;
    Extend(Init(2), actions, t, a);
    assert after[..|actions|] == actions;
  }

  /** Two calls that both began before either claimed: the claims come one after the other, and overlap. */
  lemma EarlierStartsOverlap() returns (actions: seq<Action>)
    ensures Run(Init(2), actions).Some? && Undisturbed(Init(2), actions)
    ensures var s := Run(Init(2), actions).value;
            && 2 in s.workers && 3 in s.workers && !s.workers[2].Finished() && !s.workers[3].Finished()
            && s.thread == Some(3) && |s.answers| == 3 && s.answers[1].ok && s.answers[2].ok
  {
    hide Reaches;
    var s;
    actions, s := FirstWorker();
    actions, s := BothBegin(actions, s);
    actions, s := Stops(actions, s, 0);
    actions, s := Stops(actions, s, 1);
    actions, s := WorkerEnds(actions, s);
    actions, s := BothJoin(actions, s);
    actions, s := ClaimsAndSpawns(actions, s, 0);
    actions, s := ClaimsAndSpawns(actions, s, 1);
    assert Run(Init(2), actions) == Some(s) && Undisturbed(Init(2), actions) by { Reached(actions, s); }
  }

  lemma Reached(actions: seq<Action>, s: State)
    requires Reaches(actions, s)
    ensures Run(Init(2), actions) == Some(s) && Undisturbed(Init(2), actions)
  {
  }

  lemma FirstWorker() returns (actions: seq<Action>, s: State)
    ensures Reaches(actions, s)
    ensures s == State(Starting, 1, Some(1), None, Some(1), {}, map[1 := Worker(AtEntry, NotMade)], 1,
                       [Idle, Idle], [(0, 0), (0, 0)], [Answer(true, 0, 1, 0, 1)])
  {
    actions, s := [], Init(2);
    assert Reaches(actions, s);
    hide Reaches;
    actions, s := Onward(actions, s, CallStart(0));
    actions, s := Onward(actions, s, CallerMoves(0, false));
    actions, s := Onward(actions, s, CallerMoves(0, false));
    actions, s := Onward(actions, s, CallerMoves(0, false));
  }

  /** Both find a worker at work and go on to stop it. */
  lemma BothBegin(before: seq<Action>, t: State) returns (actions: seq<Action>, s: State)
    requires Reaches(before, t) && t.callers == [Idle, Idle] && |t.began| == 2 && t.phase == Starting
    ensures Reaches(actions, s)
    ensures s == t.(phase := Stopping, callers := [AtSnapshot(true), AtSnapshot(true)],
                    began := [(t.gen, t.spawned), (t.gen, t.spawned)])
  {
    hide Reaches;
    actions, s := Onward(before, t, CallStart(0));
    actions, s := Onward(actions, s, CallStart(1));
    actions, s := Onward(actions, s, CallerMoves(0, false));
    actions, s := Onward(actions, s, CallerMoves(1, false));
  }

  lemma Stops(before: seq<Action>, t: State, i: nat) returns (actions: seq<Action>, s: State)
    requires Reaches(before, t) && |t.callers| == |t.began| == 2 && i < 2 && t.callers[i] == AtSnapshot(true)
    requires t.phase == Stopping && t.thread == Some(1) && t.event == Some(1)
    ensures Reaches(actions, s)
    ensures s == t.(signalled := t.signalled + {1},
                    callers := t.callers[i := AtJoin(Errand(Some(1), Some(1), true))])
  {
    hide Reaches;
    actions, s := Onward(before, t, CallerMoves(i, false));
    actions, s := Onward(actions, s, CallerMoves(i, false));
    actions, s := Onward(actions, s, CallerMoves(i, false));
  }

  lemma WorkerEnds(before: seq<Action>, t: State) returns (actions: seq<Action>, s: State)
    requires Reaches(before, t) && t.gen == 1 && t.phase == Stopping && 1 in t.signalled
    requires 1 in t.workers && t.workers[1] == Worker(AtEntry, NotMade)
    ensures Reaches(actions, s)
    ensures s == t.(phase := Stopped, thread := None, event := None, stopFn := None,
                    workers := t.workers[1 := Worker(Gone, NotMade)])
  {
    hide Reaches;
    actions, s := Onward(before, t, WorkerMoves(1, false));
    actions, s := Onward(actions, s, WorkerMoves(1, false));
    actions, s := Onward(actions, s, WorkerMoves(1, false));
    actions, s := Onward(actions, s, WorkerMoves(1, false));
  }

  lemma BothJoin(before: seq<Action>, t: State) returns (actions: seq<Action>, s: State)
    requires Reaches(before, t) && |t.began| == 2 && 1 in t.workers && t.workers[1].spot == Gone
    requires var e := Errand(Some(1), Some(1), true); t.callers == [AtJoin(e), AtJoin(e)]
    ensures Reaches(actions, s)
    ensures var e := Errand(Some(1), Some(1), true); s == t.(callers := [AtSettle(e, false), AtSettle(e, false)])
  {
    hide Reaches;
    actions, s := Onward(before, t, CallerMoves(0, false));
    actions, s := Onward(actions, s, CallerMoves(1, false));
  }

  lemma ClaimsAndSpawns(before: seq<Action>, t: State, i: nat) returns (actions: seq<Action>, s: State)
    requires Reaches(before, t) && |t.callers| == |t.began| == 2 && i < 2 && t.phase != Failed
    requires t.callers[i] == AtSettle(Errand(Some(1), Some(1), true), false)
    ensures Reaches(actions, s)
    ensures s == t.(phase := Starting, gen := t.gen + 1, thread := Some(t.gen + 1), event := Some(t.gen + 1),
                    workers := t.workers[t.gen + 1 := Worker(AtEntry, NotMade)], spawned := t.spawned + 1,
                    callers := t.callers[i := Idle],
                    answers := t.answers + [Answer(true, t.began[i].0, t.gen + 1, t.began[i].1, t.spawned + 1)])
  {
    hide Reaches;
    actions, s := Onward(before, t, CallerMoves(i, false));
    actions, s := Onward(actions, s, CallerMoves(i, false));
    actions, s := Onward(actions, s, CallerMoves(i, false));
  }
}
