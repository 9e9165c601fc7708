/** The controller above the system-proxy transaction: converge to (on, connected, not paused). */
module ProxyController {
  import opened Prelude
  import opened SystemProxy
  import opened SystemProxySafety
  import NetworkHost

  const HOST := "127.0.0.1"
  const BYPASS: seq<string> := ["*.local", "169.254/16", "127.0.0.1", "localhost"]

  datatype Notice = Quiet | BadPort | NoSnapshot | ApplyError | ReleaseError

  /** No snapshot, and an empty one, are the same to the controller: []. */
  datatype Controller = Controller(
    on: bool, applied: bool, target: Option<string>, snapshot: Snapshot, desired: Snapshot, error: Notice)

  /** What the controller asks its surroundings for; `port` is None when none can be parsed. */
  datatype World = World(connected: bool, paused: bool, port: Option<string>, services: seq<string>)

  datatype Outcome = Idle | Blind | Apply(a: Applying) | Release(r: Releasing)
  datatype Synced = Synced(outcome: Outcome, c: Controller, m: Machine)

  predicate Wanted(c: Controller, w: World) {
    c.on && w.connected && !w.paused && w.port.Some?
  }

  function TakeHold(c: Controller, m: Machine, port: string): Synced {
    var r := ApplyTransaction(m, HOST, port, BYPASS, c.snapshot);
    var after := match r.what
      case Applied(desired) => c.(applied := true, target := Some(port), desired := desired, error := Quiet)
      case RollbackFailed(desired) =>
        c.(applied := false, target := None, desired := desired, on := false, error := ApplyError)
      case ApplyDied => c
      case NothingToDo => c.(applied := false, target := None, snapshot := [], desired := [], error := ApplyError)
      case JournalFailed => c.(applied := false, target := None, snapshot := [], desired := [], error := ApplyError)
      case RolledBack => c.(applied := false, target := None, snapshot := [], desired := [], error := ApplyError);
    Synced(Apply(r.what), after, r.m)
  }

  function LetGo(c: Controller, m: Machine): Synced {
    var r := ReleaseTransaction(m, c.snapshot, c.desired);
    var after := match r.what
      case Released => c.(applied := false, target := None, snapshot := [], desired := [], error := Quiet)
      case ReleaseDied => c
      case ChangedExternally => c.(applied := true, error := ReleaseError)
      case RestoreFailed => c.(applied := true, error := ReleaseError);
    Synced(Release(r.what), after, r.m)
  }

  function Converge(c0: Controller, m: Machine, w: World): Synced {
    var c := if w.port.None? && c0.on then c0.(error := BadPort) else c0;
    if Wanted(c, w) && (!c.applied || c.target != w.port) then
      if c.applied then TakeHold(c, m, w.port.value)
      else
        var now := ReadBack(m, w.services);
        if now.dead then Synced(Apply(ApplyDied), c, now.m)
        else if now.snap == [] then Synced(Blind, c.(snapshot := [], error := NoSnapshot), now.m)
        else TakeHold(c.(snapshot := now.snap), now.m, w.port.value)
    else if !Wanted(c, w) && c.snapshot != [] then LetGo(c, m)
    else Synced(Idle, c, m)
  }

  function Toggled(c: Controller): Controller { c.(on := !c.on, error := Quiet) }

  /** `quit_cleanup`: it lets go without looking at anything else. */
  function Quit(c: Controller, m: Machine): Synced {
    if c.snapshot == [] then Synced(Idle, c, m)
    else
      var r := ReleaseTransaction(m, c.snapshot, c.desired);
      Synced(Release(r.what),
             if r.what == Released then c.(applied := false, snapshot := [], desired := [])
             else c, r.m)
  }

  class SystemProxyController {
    var on: bool
    var applied: bool
    var target: Option<string>
    var snapshot: Snapshot
    var desired: Snapshot
    var error: Notice
    const host: NetworkHost.Host

    ghost function State(): Controller
      reads this
    {
      Controller(on, applied, target, snapshot, desired, error)
    }

    /** Recover what a previous run left behind; a refusal is only noted. */
    constructor (h: NetworkHost.Host, initialOn: bool)
      modifies h
      ensures host == h
      ensures var r := RecoverStale(old(h.Now()));
              && h.Now() == r.1
              && State() == Controller(initialOn, false, None, [], [],
                                       if r.0 == NothingStale || r.0 == Recovered(Released)
                                       then Quiet
                                       else ReleaseError)
    {
      host := h;
      on, applied, target, snapshot, desired := initialOn, false, None, [], [];
      var outcome := h.RecoverStale();
      error := if outcome == NothingStale || outcome == Recovered(Released) then Quiet else ReleaseError;
    }

    method Sync(w: World) returns (outcome: Outcome)
      modifies this, host
      ensures Synced(outcome, State(), host.Now()) == Converge(old(State()), old(host.Now()), w)
    {
      hide ApplyTransaction, ReleaseTransaction, ReadBack;
      var wanted := on && w.connected && !w.paused && w.port.Some?;
      if w.port.None? && on {
        error := BadPort;
      }
      if wanted && (!applied || target != w.port) {
        if !applied {
          var snap, dead := host.SnapshotServices(w.services);
          if dead {
            return Apply(ApplyDied);
          }
          snapshot := snap;
          if snapshot == [] {
            error := NoSnapshot;
            return Blind;
          }
        }
        var what := host.ApplyTransaction(HOST, w.port.value, BYPASS, snapshot);
        Settle(what, w.port.value);
        return Apply(what);
      } else if !wanted && snapshot != [] {
        var what := host.ReleaseTransaction(snapshot, desired);
        if what == ReleaseDied {
          return Release(what);
        }
        applied := what != Released;
        if what == Released {
          target, snapshot, desired := None, [], [];
        }
        error := if what == Released then Quiet else ReleaseError;
        return Release(what);
      }
      return Idle;
    }

    /** What the controller remembers of an apply. */
    method Settle(what: Applying, port: string)
      modifies this
      ensures what == ApplyDied ==> State() == old(State())
      ensures what.Applied? ==>
              State() ==
                old(State()).(applied := true, target := Some(port), desired := what.desired, error := Quiet)
      ensures what.RollbackFailed? ==>
                State() ==
                  old(State()).(applied := false, target := None, desired := what.desired, on := false,
                                error := ApplyError)
      ensures what.NothingToDo? || what.JournalFailed? || what.RolledBack? ==>
                State() ==
                  old(State()).(applied := false, target := None, snapshot := [], desired := [], error := ApplyError)
    {
      if what == ApplyDied {
        return;
      }
      applied := what.Applied?;
      target := if what.Applied? then Some(port) else None;
      error := if what.Applied? then Quiet else ApplyError;
      if what.Applied? {
        desired := what.desired;
      } else if what.RollbackFailed? {
        desired, on := what.desired, false;
      } else {
        snapshot, desired := [], [];
      }
    }

    method Toggle(w: World) returns (outcome: Outcome)
      modifies this, host
      ensures Synced(outcome, State(), host.Now()) == Converge(Toggled(old(State())), old(host.Now()), w)
    {
      on := !on;
      error := Quiet;
      outcome := Sync(w);
    }

    method QuitCleanup() returns (outcome: Outcome)
      modifies this, host
      ensures Synced(outcome, State(), host.Now()) == Quit(old(State()), old(host.Now()))
    {
      hide ReleaseTransaction;
      if snapshot == [] {
        return Idle;
      }
      var what := host.ReleaseTransaction(snapshot, desired);
      if what == Released {
        applied, snapshot, desired := false, [], [];
      }
      return Release(what);
    }
  }

  // ---- lockstep ------------------------------------------------------------------------------------

  /** The same services with the same settings, up to the address of a proxy that is off. */
  ghost predicate Alike(a: map<string, Service>, b: map<string, Service>) {
    a.Keys == b.Keys && forall n :: n in a ==> PlainService(a[n]) == PlainService(b[n])
  }

  ghost predicate SnapshotOf(snap: Snapshot, base: map<string, Service>) {
    Distinct(snap) && AllAsSaved(base, snap)
  }

  /** Everything the snapshot does not name is as in `base`. */
  ghost predicate AlikeOutside(sys: map<string, Service>, base: map<string, Service>, snap: Snapshot) {
    && sys.Keys == base.Keys
    && forall n :: n in sys && !Knows(snap, n) ==> PlainService(sys[n]) == PlainService(base[n])
  }

  /**
   * Either we hold nothing and settings are the original ones, or we hold a snapshot of the original
   * ones, settings are the desired ones, and the journal on disk says both.
   */
  ghost predicate Lockstep(c: Controller, m: Machine, base: map<string, Service>) {
    if c.snapshot == [] then !c.applied && Alike(m.sys, base)
    else
      && c.applied && c.target.Some?
      && SnapshotOf(c.snapshot, base) && AlikeOutside(m.sys, base, c.snapshot)
      && c.desired == DesiredState(c.snapshot, HOST, c.target.value, BYPASS)
      && AllAsDesired(m.sys, c.desired) && AllAsSaved(m.sys, c.desired)
      && m.journal == Holds(c.snapshot, c.desired)
  }

  predicate UniqueNames(names: seq<string>) {
    forall i, j :: 0 <= i < j < |names| ==> names[i] != names[j]
  }

  lemma PresentIn(sys: map<string, Service>, base: map<string, Service>, snap: Snapshot)
    requires SnapshotOf(snap, base) && sys.Keys == base.Keys
    ensures AllPresent(sys, snap)
  {
    forall k | 0 <= k < |snap| ensures snap[k].name in sys {
      assert AsSaved(base, snap[k]);
      assert snap[k].name in base.Keys;
    }
  }

  lemma OutsideStays(before: map<string, Service>, after: map<string, Service>, base: map<string, Service>,
                    snap: Snapshot)
    requires AlikeOutside(before, base, snap) && OnlyTouches(before, after, snap)
    ensures AlikeOutside(after, base, snap)
  {
  }

  lemma RestoredIsAlike(sys: map<string, Service>, base: map<string, Service>, snap: Snapshot)
    requires SnapshotOf(snap, base) && AlikeOutside(sys, base, snap) && AllAsSaved(sys, snap)
    ensures Alike(sys, base)
  {
    forall n | n in sys ensures PlainService(sys[n]) == PlainService(base[n]) {
      if Knows(snap, n) {
        var k :| 0 <= k < |snap| && snap[k].name == n;
        assert AsSaved(sys, snap[k]) && AsSaved(base, snap[k]);
      }
    }
  }

  lemma {:induction false} ReadBackNames(m: Machine, names: seq<string>)
    requires UniqueNames(names)
    ensures Distinct(ReadBack(m, names).snap)
    ensures forall k :: 0 <= k < |ReadBack(m, names).snap| ==> ReadBack(m, names).snap[k].name in names
    decreases |names|
  {
    if names != [] && !NextFate(m).Dies? {
      assert forall i :: 0 <= i < |names[1..]| ==> names[1..][i] == names[i + 1];
      ReadBackNames(Later(m), names[1..]);
    }
  }

  lemma FreshSnapshot(m: Machine, names: seq<string>, base: map<string, Service>)
    requires UniqueNames(names) && Alike(m.sys, base)
    ensures SnapshotOf(ReadBack(m, names).snap, base)
  {
    ReadBackNames(m, names);
    ReadBackReads(m, names);
    var snap := ReadBack(m, names).snap;
    forall k | 0 <= k < |snap| ensures AsSaved(base, snap[k]) {
      assert snap[k].name in m.sys.Keys;
    }
  }

  /** The outcomes that lose track: a rollback or a restore that failed, or an end in the middle. */
  predicate LosesTrack(o: Outcome) {
    match o
    case Apply(a) => a.RollbackFailed? || a.ApplyDied?
    case Release(r) => r.RestoreFailed? || r.ReleaseDied?
    case _ => false
  }

  lemma AppliedState(m: Machine, host: string, port: string, bypass: seq<string>, original: Snapshot)
    ensures var r := ApplyTransaction(m, host, port, bypass, original);
            && (r.what.Applied? ==> r.what.desired == DesiredState(original, host, port, bypass))
            && (original != [] ==> !r.what.NothingToDo?)
  {
    hide RunUntilError, ApplyAll, RunEvery, RestoreAll;
  }

  /** Converging from a snapshot of the original, wherever the services stand at that moment. */
  lemma TakeHoldKeeps(c: Controller, m: Machine, port: string, base: map<string, Service>)
    requires c.snapshot != [] && SnapshotOf(c.snapshot, base) && AlikeOutside(m.sys, base, c.snapshot)
    ensures var s := TakeHold(c, m, port);
            && (LosesTrack(s.outcome) || s.outcome == Apply(JournalFailed) || Lockstep(s.c, s.m, base))
            && (s.outcome == Apply(JournalFailed) ==> s.c.snapshot == [] && !s.c.applied && s.m == Later(m))
            && (s.c.snapshot == [] || s.c.snapshot == c.snapshot)
  {
    hide ApplyTransaction, DesiredState;
    PresentIn(m.sys, base, c.snapshot);
    ApplyKeeps(m, HOST, port, BYPASS, c.snapshot);
    AppliedState(m, HOST, port, BYPASS, c.snapshot);
    var r := ApplyTransaction(m, HOST, port, BYPASS, c.snapshot);
    OutsideStays(m.sys, r.m.sys, base, c.snapshot);
    if r.what == RolledBack { RestoredIsAlike(r.m.sys, base, c.snapshot); }
  }

  lemma LetGoKeeps(c: Controller, m: Machine, base: map<string, Service>)
    requires Lockstep(c, m, base) && c.snapshot != []
    ensures var s := LetGo(c, m);
            && (LosesTrack(s.outcome) || Lockstep(s.c, s.m, base))
            && (s.c.snapshot == [] || s.c.snapshot == c.snapshot)
  {
    hide ReleaseTransaction, DesiredState;
    PresentIn(m.sys, base, c.snapshot);
    ReleaseKeeps(m, c.snapshot, c.desired);
    var r := ReleaseTransaction(m, c.snapshot, c.desired);
    OutsideStays(m.sys, r.m.sys, base, c.snapshot);
    if r.what == Released { RestoredIsAlike(r.m.sys, base, c.snapshot); }
  }

  predicate Retargets(c: Controller, w: World) {
    Wanted(c, w) && c.applied && c.target != w.port
  }

  /**
   * One sync keeps lockstep unless it loses track, or the journal cannot be written for a new
   * target; and the snapshot it goes on holding is the one it held.
   */
  lemma SyncKeepsLockstep(c: Controller, m: Machine, w: World, base: map<string, Service>)
    requires Lockstep(c, m, base) && UniqueNames(w.services)
    ensures var s := Converge(c, m, w);
            && (LosesTrack(s.outcome) || (s.outcome == Apply(JournalFailed) && Retargets(c, w))
                 || Lockstep(s.c, s.m, base))
            && (c.snapshot != [] && s.c.snapshot != [] ==> s.c.snapshot == c.snapshot)
  {
    hide TakeHold, LetGo, ReadBack, DesiredState;
    var c1 := if w.port.None? && c.on then c.(error := BadPort) else c;
    if Wanted(c, w) && (!c.applied || c.target != w.port) {
      if c.applied {
        TakeHoldKeeps(c1, m, w.port.value, base);
      } else {
        ReadBackReads(m, w.services);
        FreshSnapshot(m, w.services, base);
        var now := ReadBack(m, w.services);
        if !now.dead && now.snap != [] {
          TakeHoldKeeps(c1.(snapshot := now.snap), now.m, w.port.value, base);
        }
      }
    } else if !Wanted(c, w) && c.snapshot != [] {
      LetGoKeeps(c1, m, base);
    }
  }

  datatype Event = Tick(w: World) | Click(w: World)

  function Step(c: Controller, m: Machine, e: Event): Synced {
    match e
    case Tick(w) => Converge(c, m, w)
    case Click(w) => Converge(Toggled(c), m, w)
  }

  /** Every step on the way keeps track, and no journal write fails. */
  ghost predicate KeepsTrack(c: Controller, m: Machine, events: seq<Event>)
    decreases |events|
  {
    events != [] ==>
      var s := Step(c, m, events[0]);
      && UniqueNames(events[0].w.services)
      && !LosesTrack(s.outcome) && s.outcome != Apply(JournalFailed) && KeepsTrack(s.c, s.m, events[1..])
  }

  function Run(c: Controller, m: Machine, events: seq<Event>): Synced
    decreases |events|
  {
    if events == [] then Synced(Idle, c, m)
    else
      var s := Step(c, m, events[0]);
      Run(s.c, s.m, events[1..])
  }

  /** Lockstep over whole runs of toggles, retargets, pauses and disconnects. */
  lemma {:induction false} RunsKeepLockstep(c: Controller, m: Machine, events: seq<Event>, base: map<string, Service>)
    requires Lockstep(c, m, base) && KeepsTrack(c, m, events)
    ensures Lockstep(Run(c, m, events).c, Run(c, m, events).m, base)
    decreases |events|
  {
    hide Converge;
    if events != [] {
      var from := if events[0].Click? then Toggled(c) else c;
      SyncKeepsLockstep(from, m, events[0].w, base);
      var s := Step(c, m, events[0]);
      RunsKeepLockstep(s.c, s.m, events[1..], base);
    }
  }

  /** Quitting in lockstep with steps that work puts every setting back. */
  lemma QuitRestores(c: Controller, m: Machine, base: map<string, Service>)
    requires Lockstep(c, m, base) && m.fates == []
    ensures Alike(Quit(c, m).m.sys, base)
    ensures c.snapshot != [] ==> Quit(c, m).m.journal == NoJournal
  {
    if c.snapshot != [] {
      hide DesiredState, RunEvery, RestoreAll, StateMatches, ReadBack;
      PresentIn(m.sys, base, c.snapshot);
      MatchesWhenDesired(m, c.snapshot, HOST, c.target.value, BYPASS);
      CleanRestore(m, RestoreAll(c.snapshot));
      ReleaseKeeps(m, c.snapshot, c.desired);
      var r := ReleaseTransaction(m, c.snapshot, c.desired);
      OutsideStays(m.sys, r.m.sys, base, c.snapshot);
      RestoredIsAlike(r.m.sys, base, c.snapshot);
    }
  }

  /**
   * A new target whose journal cannot be written: the snapshot is forgotten while the old target
   * stays set, so lockstep is lost unless the original settings were the desired ones all along.
   */
  lemma FailedRetargetForgets(c: Controller, m: Machine, w: World, base: map<string, Service>)
    requires Lockstep(c, m, base) && Retargets(c, w) && Converge(c, m, w).outcome == Apply(JournalFailed)
    ensures var s := Converge(c, m, w);
            && s.c.snapshot == [] && s.m.sys == m.sys && s.m.journal == m.journal
            && (Lockstep(s.c, s.m, base) <==> AllAsSaved(base, c.desired))
            && Quit(s.c, s.m).m == s.m
  {
    hide TakeHold, ReadBack;
    TakeHoldKeeps(c, m, w.port.value, base);
    var s := Converge(c, m, w);
    assert Lockstep(s.c, s.m, base) <==> Alike(m.sys, base);
    AlikeWhenDesired(c, m, base);
  }

  lemma AlikeWhenDesired(c: Controller, m: Machine, base: map<string, Service>)
    requires Lockstep(c, m, base) && c.snapshot != []
    ensures Alike(m.sys, base) <==> AllAsSaved(base, c.desired)
  {
    DesiredNames(c.snapshot, HOST, c.target.value, BYPASS);
    if Alike(m.sys, base) {
      forall k | 0 <= k < |c.desired| ensures AsSaved(base, c.desired[k]) { assert AsSaved(m.sys, c.desired[k]); }
    }
    if AllAsSaved(base, c.desired) {
      forall n | n in m.sys ensures PlainService(m.sys[n]) == PlainService(base[n]) {
        if Knows(c.snapshot, n) {
          var k :| 0 <= k < |c.snapshot| && c.snapshot[k].name == n;
          assert AsSaved(m.sys, c.desired[k]) && AsSaved(base, c.desired[k]);
        }
      }
    }
  }
}
