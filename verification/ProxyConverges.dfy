/** What the system settings are after a sync whose steps work: the wish, said setting by setting. */
module ProxyConverges {
  import opened Prelude
  import opened SystemProxy
  import opened SystemProxySafety
  import opened ProxyController

  /** A service as the controller sets it: both proxies on the loopback port, and what goes past them. */
  predicate SetTo(s: Service, port: string) {
    && s.web == Proxy(true, "127.0.0.1", port) && s.secure == Proxy(true, "127.0.0.1", port)
    && s.bypass == ["*.local", "169.254/16", "127.0.0.1", "localhost"]
  }

  /** The switch is on, the tunnel is connected, nobody has paused it, and there is a port. */
  predicate ShouldBeOn(c: Controller, w: World) { c.on && w.connected && !w.paused && w.port.Some? }

  lemma {:induction false} CleanRun(m: Machine, cs: seq<Command>)
    requires m.fates == []
    ensures RunUntilError(m, cs) == Ran(true, false, m.(sys := Effects(m.sys, cs)))
    decreases |cs|
  {
    if cs == [] {
      assert m.(sys := Effects(m.sys, [])) == m;
    } else {
      CleanRun(RunCommand(m, cs[0]).m, cs[1..]);
    }
  }

  lemma CleanTakeHold(c: Controller, m: Machine, port: string)
    requires m.fates == [] && c.snapshot != [] && Distinct(c.snapshot) && AllPresent(m.sys, c.snapshot)
    ensures var s := TakeHold(c, m, port);
            && s.c == Controller(c.on, true, Some(port), c.snapshot,
                                 DesiredState(c.snapshot, HOST, port, BYPASS), Quiet)
            && s.m.journal == Holds(c.snapshot, DesiredState(c.snapshot, HOST, port, BYPASS)) && s.m.fates == []
            && forall k :: 0 <= k < |c.snapshot| ==>
                 c.snapshot[k].name in s.m.sys && SetTo(s.m.sys[c.snapshot[k].name], port)
  {
    hide ApplyAll, DesiredState, RunUntilError;
    var desired := DesiredState(c.snapshot, HOST, port, BYPASS);
    var cs := ApplyAll(c.snapshot, HOST, port, BYPASS);
    CleanRun(Later(m).(journal := Holds(c.snapshot, desired)), cs);
    AppliesTake(m.sys, c.snapshot, HOST, port, BYPASS);
  }

  lemma {:induction false} ReadableNames(m: Machine, names: seq<string>)
    requires m.fates == []
    ensures var r := ReadBack(m, names);
            && !r.dead && r.m == m
            && forall n :: Knows(r.snap, n) <==> n in names && n in m.sys
    decreases |names|
  {
    if names != [] {
      assert Later(m) == m;
      ReadableNames(m, names[1..]);
      var rest, snap := ReadBack(m, names[1..]).snap, ReadBack(m, names).snap;
      forall n ensures Knows(snap, n) <==> n in names && n in m.sys {
        assert n in names <==> n == names[0] || n in names[1..];
        if names[0] in m.sys { KnowsCons(Saved(names[0], m.sys[names[0]]), rest, n); }
      }
    }
  }

  lemma KnowsCons(e: Saved, rest: Snapshot, n: string)
    ensures Knows([e] + rest, n) <==> e.name == n || Knows(rest, n)
  {
    var all := [e] + rest;
    if e.name == n { assert all[0].name == n; }
    if k :| 0 <= k < |rest| && rest[k].name == n { assert all[k + 1].name == n; }
  }

  lemma SomethingKnown(snap: Snapshot)
    requires snap != []
    ensures exists n :: Knows(snap, n)
  {
    assert Knows(snap, snap[0].name);
  }

  /** After a sync that should be on: the services it holds are set to this port, and the journal has what they were. */
  ghost predicate IsOn(s: Synced, base: map<string, Service>, port: string) {
    && s.c.applied && s.c.target == Some(port) && s.c.error == Quiet
    && s.m.journal.Holds? && s.m.journal.original == s.c.snapshot && SnapshotOf(s.c.snapshot, base)
    && forall k :: 0 <= k < |s.c.snapshot| ==>
         s.c.snapshot[k].name in s.m.sys && SetTo(s.m.sys[s.c.snapshot[k].name], port)
  }

  /** From any lockstep, with steps that work: settings are as they should be for this world. */
  lemma SyncConverges(c: Controller, m: Machine, w: World, base: map<string, Service>)
    requires Lockstep(c, m, base) && m.fates == [] && UniqueNames(w.services)
    requires ShouldBeOn(c, w) && (c.applied || exists n :: n in w.services && n in m.sys)
    requires c.target != w.port || !c.applied
    ensures IsOn(Converge(c, m, w), base, w.port.value)
    ensures !c.applied ==> forall n :: n in w.services && n in m.sys ==> Knows(Converge(c, m, w).c.snapshot, n)
  {
    hide TakeHold, ReadBack, DesiredState;
    if c.applied {
      PresentIn(m.sys, base, c.snapshot);
      CleanTakeHold(c, m, w.port.value);
    } else {
      ReadableNames(m, w.services);
      FreshSnapshot(m, w.services, base);
      var now := ReadBack(m, w.services);
      var n :| n in w.services && n in m.sys;
      assert Knows(now.snap, n);
      PresentIn(m.sys, base, now.snap);
      CleanTakeHold(c.(snapshot := now.snap), m, w.port.value);
    }
  }

  /** A sync that should be on and already is does nothing. */
  lemma SyncRests(c: Controller, m: Machine, w: World)
    requires ShouldBeOn(c, w) && c.applied && c.target == w.port
    ensures Converge(c, m, w) == Synced(Idle, c, m)
  {
  }

  /** A sync that should be off puts every setting back as it was, and drops the journal. */
  lemma SyncLetsGo(c: Controller, m: Machine, w: World, base: map<string, Service>)
    requires Lockstep(c, m, base) && m.fates == [] && !ShouldBeOn(c, w)
    ensures var s := Converge(c, m, w);
            && Alike(s.m.sys, base) && !s.c.applied && s.c.snapshot == []
            && (c.snapshot != [] ==> s.m.journal == NoJournal && s.c.error == Quiet)
            && (c.snapshot == [] ==> s.m == m && s.c.error == if c.on && w.port == None then BadPort else c.error)
  {
    hide ReleaseTransaction, Lockstep;
    if c.snapshot != [] {
      CleanRelease(c, m, base);
      var c1 := if w.port.None? && c.on then c.(error := BadPort) else c;
      SameHold(c, c1, m, base);
      LetGoKeeps(c1, m, base);
      NothingHeld(LetGo(c1, m).c, LetGo(c1, m).m, base);
    } else {
      NothingHeld(c, m, base);
    }
  }

  lemma NothingHeld(c: Controller, m: Machine, base: map<string, Service>)
    requires Lockstep(c, m, base) && c.snapshot == []
    ensures !c.applied && Alike(m.sys, base)
  {
  }

  lemma SameHold(c: Controller, c1: Controller, m: Machine, base: map<string, Service>)
    requires Lockstep(c, m, base) && c1.(error := c.error) == c
    ensures Lockstep(c1, m, base)
  {
  }

  lemma CleanRelease(c: Controller, m: Machine, base: map<string, Service>)
    requires Lockstep(c, m, base) && m.fates == [] && c.snapshot != []
    ensures var r := ReleaseTransaction(m, c.snapshot, c.desired); r.what == Released && r.m.journal == NoJournal
  {
    hide DesiredState, RunEvery, RestoreAll, StateMatches, ReadBack;
    PresentIn(m.sys, base, c.snapshot);
    MatchesWhenDesired(m, c.snapshot, HOST, c.target.value, BYPASS);
    CleanRestore(m, RestoreAll(c.snapshot));
  }

  /** Where no named service can be read, nothing is set, and that is said. */
  lemma SyncWithoutServices(c: Controller, m: Machine, w: World)
    requires m.fates == [] && ShouldBeOn(c, w) && !c.applied && forall n :: n in w.services ==> n !in m.sys
    ensures Converge(c, m, w).m == m && !Converge(c, m, w).c.applied && Converge(c, m, w).c.error == NoSnapshot
  {
    hide ReadBack, TakeHold;
    ReadableNames(m, w.services);
    var snap := ReadBack(m, w.services).snap;
    if snap != [] { SomethingKnown(snap); }
  }

  lemma SameLockstep(c: Controller, m: Machine, base: map<string, Service>)
    requires Lockstep(c, m, base)
    ensures Lockstep(Toggled(c), m, base)
  {
  }

  /** A click switches off what is on, and on what is off, with steps that work and all else in place. */
  lemma ClickSwitches(c: Controller, m: Machine, w: World, base: map<string, Service>)
    requires Lockstep(c, m, base) && m.fates == [] && UniqueNames(w.services)
    requires w.connected && !w.paused && w.port.Some? && exists n :: n in w.services && n in m.sys
    requires !c.on ==> !c.applied
    ensures var s := Step(c, m, Click(w));
            if c.on then Alike(s.m.sys, base) && !s.c.applied else IsOn(s, base, w.port.value)
    ensures Step(c, m, Click(w)).c.on == !c.on
  {
    hide Converge, Lockstep;
    SameLockstep(c, m, base);
    if c.on { SyncLetsGo(Toggled(c), m, w, base); } else { SyncConverges(Toggled(c), m, w, base); }
    SwitchStays(Toggled(c), m, w, base);
  }

  lemma SwitchStays(c: Controller, m: Machine, w: World, base: map<string, Service>)
    requires m.fates == [] && Lockstep(c, m, base) && UniqueNames(w.services)
    ensures Converge(c, m, w).c.on == c.on
  {
    hide TakeHold, LetGo, ReadBack, DesiredState;
    LetGoStays(if w.port.None? && c.on then c.(error := BadPort) else c, m);
    if ShouldBeOn(c, w) && (!c.applied || c.target != w.port) {
      if c.applied {
        PresentIn(m.sys, base, c.snapshot);
        CleanTakeHold(c, m, w.port.value);
      } else {
        ReadableNames(m, w.services);
        FreshSnapshot(m, w.services, base);
        var now := ReadBack(m, w.services);
        PresentIn(m.sys, base, now.snap);
        if now.snap != [] { CleanTakeHold(c.(snapshot := now.snap), m, w.port.value); }
      }
    }
  }

  lemma LetGoStays(c: Controller, m: Machine)
    ensures LetGo(c, m).c.on == c.on
  {
    hide ReleaseTransaction;
  }

  /**
   * Steps that do not work: a rollback that fails switches the proxy off and keeps the snapshot; one that
   * works, or a journal that cannot be written, forgets it; a refused release holds on. All of it is said.
   */
  lemma FailuresSay(c: Controller, m: Machine, port: string)
    ensures var s := TakeHold(c, m, port);
            && (s.outcome.a.RollbackFailed? ==>
                  !s.c.on && !s.c.applied && s.c.target == None
                  && s.c.snapshot == c.snapshot && s.c.error == ApplyError)
            && (s.outcome.a in {RolledBack, JournalFailed} ==>
                  s.c.on == c.on && !s.c.applied && s.c.target == None && s.c.snapshot == [] && s.c.error == ApplyError)
    ensures var s := LetGo(c, m);
            s.outcome.r in {ChangedExternally, RestoreFailed} ==>
              s.c == c.(applied := true, error := ReleaseError)
  {
    hide ApplyTransaction, ReleaseTransaction;
  }
}
