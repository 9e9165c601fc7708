/** What the system-proxy transaction keeps, whatever becomes of its commands. */
module SystemProxySafety {
  import opened SystemProxy

  lemma AppliedIsDesired(sys: map<string, Service>, snap: Snapshot, host: string, port: string, bypass: seq<string>)
    requires Distinct(snap) && AllPresent(sys, snap) && bypass != ["Empty"]
    ensures var after := Effects(sys, ApplyAll(snap, host, port, bypass));
            var desired := DesiredState(snap, host, port, bypass);
            AllAsDesired(after, desired) && AllAsSaved(after, desired)
  {
    AppliesTake(sys, snap, host, port, bypass);
    DesiredNames(snap, host, port, bypass);
  }

  lemma PresentStays(before: map<string, Service>, after: map<string, Service>, snap: Snapshot)
    requires AllPresent(before, snap) && OnlyTouches(before, after, snap)
    ensures AllPresent(after, snap)
  {
  }

  /**
   * A restore step by step: the journal is not touched, nothing else is, and if no command failed
   * then every captured service is as it was.
   */
  lemma RestoreKeeps(m: Machine, original: Snapshot)
    requires Distinct(original) && AllPresent(m.sys, original)
    ensures var b := RunEvery(m, RestoreAll(original));
            && OnlyTouches(m.sys, b.m.sys, original) && b.m.journal == m.journal
            && (b.ok && !b.dead ==> AllAsSaved(b.m.sys, original))
  {
    RestoreFor(original);
    RunsTouch(m, RestoreAll(original), original);
    CleanRun(m, RestoreAll(original));
    RestoresTake(m.sys, original);
  }

  lemma ApplyRunKeeps(m: Machine, host: string, port: string, bypass: seq<string>, original: Snapshot)
    requires Distinct(original) && AllPresent(m.sys, original) && bypass != ["Empty"]
    ensures var r := RunUntilError(m, ApplyAll(original, host, port, bypass));
            && OnlyTouches(m.sys, r.m.sys, original) && r.m.journal == m.journal
            && (r.ok && !r.dead ==>
                  var desired := DesiredState(original, host, port, bypass);
                  AllAsDesired(r.m.sys, desired) && AllAsSaved(r.m.sys, desired))
  {
    ApplyFor(original, host, port, bypass);
    RunsTouch(m, ApplyAll(original, host, port, bypass), original);
    CleanRun(m, ApplyAll(original, host, port, bypass));
    AppliedIsDesired(m.sys, original, host, port, bypass);
  }

  /** The journal never holds anybody else's snapshot, and covers every difference from ours. */
  ghost predicate Safe(m: Machine, original: Snapshot) {
    && Distinct(original) && AllPresent(m.sys, original) && Covered(m, original)
    && (m.journal.Holds? ==> m.journal.original == original)
  }

  ghost predicate ApplyPromise(m: Machine, original: Snapshot, r: ApplyResult) {
    match r.what
    case NothingToDo => original == [] && r.m == m
    case JournalFailed => r.m == Later(m)
    case Applied(desired) =>
      r.m.journal == Holds(original, desired) && AllAsDesired(r.m.sys, desired)
      && AllAsSaved(r.m.sys, desired)
    case RolledBack => r.m.journal == NoJournal && AllAsSaved(r.m.sys, original)
    case RollbackFailed(desired) => r.m.journal == Holds(original, desired)
    case ApplyDied =>
      (r.m.sys == m.sys && r.m.journal == m.journal)
      || (r.m.journal.Holds? && r.m.journal.original == original)
  }

  lemma RollBackKeeps(m: Machine, original: Snapshot, desired: Snapshot)
    requires Distinct(original) && AllPresent(m.sys, original) && m.journal == Holds(original, desired)
    ensures var r := RollBack(m, original, desired);
            && OnlyTouches(m.sys, r.m.sys, original)
            && (r.what == RolledBack ==> r.m.journal == NoJournal && AllAsSaved(r.m.sys, original))
            && (r.what != RolledBack ==> r.m.journal == Holds(original, desired))
  {
    hide RunEvery, RestoreAll;
    RestoreKeeps(m, original);
  }

  /** Wherever an apply stops, failed, rolled back, or dead, the journal covers what it changed. */
  lemma ApplyKeeps(m: Machine, host: string, port: string, bypass: seq<string>, original: Snapshot)
    requires Distinct(original) && AllPresent(m.sys, original) && bypass != ["Empty"]
    ensures var r := ApplyTransaction(m, host, port, bypass, original);
            OnlyTouches(m.sys, r.m.sys, original) && ApplyPromise(m, original, r)
  {
    hide RunUntilError, RunEvery, ApplyAll, RestoreAll, DesiredState;
    if original != [] && NextFate(m).Works? {
      var desired := DesiredState(original, host, port, bypass);
      var m1 := Later(m).(journal := Holds(original, desired));
      ApplyRunKeeps(m1, host, port, bypass, original);
      var r := RunUntilError(m1, ApplyAll(original, host, port, bypass));
      PresentStays(m.sys, r.m.sys, original);
      if !r.ok && !r.dead {
        RollBackKeeps(r.m, original, desired);
        TouchesTwice(m.sys, r.m.sys, RollBack(r.m, original, desired).m.sys, original);
      }
    }
  }

  lemma ApplyIsSafe(m: Machine, host: string, port: string, bypass: seq<string>, original: Snapshot)
    requires Safe(m, original) && bypass != ["Empty"]
    ensures Safe(ApplyTransaction(m, host, port, bypass, original).m, original)
  {
    hide ApplyTransaction;
    ApplyKeeps(m, host, port, bypass, original);
    PresentStays(m.sys, ApplyTransaction(m, host, port, bypass, original).m.sys, original);
  }

  lemma {:induction false} ReadBackReads(m: Machine, names: seq<string>)
    ensures var c := ReadBack(m, names);
            && c.m.sys == m.sys && c.m.journal == m.journal
            && forall k :: 0 <= k < |c.snap| ==> c.snap[k].name in m.sys && c.snap[k].service == m.sys[c.snap[k].name]
    decreases |names|
  {
    if names != [] && !NextFate(m).Dies? { ReadBackReads(Later(m), names[1..]); }
  }

  lemma MatchedIsDesired(m: Machine, names: seq<string>, desired: Snapshot)
    requires StateMatches(ReadBack(m, names).snap, desired)
    ensures AllAsDesired(m.sys, desired)
  {
    ReadBackReads(m, names);
    var current := ReadBack(m, names).snap;
    forall k | 0 <= k < |desired|
      ensures desired[k].name in m.sys && IsSet(m.sys[desired[k].name], desired[k].service)
    {
      assert Has(current, desired[k]);
      var j :| 0 <= j < |current| && Same(current[j], desired[k]);
      SameIsSet(current[j], desired[k]);
    }
  }

  ghost predicate ReleasePromise(m: Machine, original: Snapshot, desired: Snapshot, r: ReleaseResult) {
    && ((r.m.sys != m.sys || r.m.journal != m.journal) ==> AllAsDesired(m.sys, desired))
    && match r.what
       case Released => r.m.journal == NoJournal && AllAsSaved(r.m.sys, original)
       case ChangedExternally => r.m.sys == m.sys && r.m.journal == m.journal
       case RestoreFailed => r.m.journal == m.journal
       case ReleaseDied => r.m.journal == m.journal
  }

  /** A release writes nothing unless every service still is as we set it. */
  lemma ReleaseKeeps(m: Machine, original: Snapshot, desired: Snapshot)
    requires Distinct(original) && AllPresent(m.sys, original)
    ensures var r := ReleaseTransaction(m, original, desired);
            OnlyTouches(m.sys, r.m.sys, original) && ReleasePromise(m, original, desired, r)
  {
    hide RunEvery, RestoreAll, StateMatches, ReadBack, Names;
    ReadBackReads(m, Names(original));
    var now := ReadBack(m, Names(original));
    RestoreKeeps(now.m, original);
    if StateMatches(now.snap, desired) { MatchedIsDesired(m, Names(original), desired); }
  }

  lemma ReleaseIsSafe(m: Machine, original: Snapshot, desired: Snapshot)
    requires Safe(m, original) && m.journal.Holds?
    ensures Safe(ReleaseTransaction(m, original, desired).m, original)
  {
    hide ReleaseTransaction;
    ReleaseKeeps(m, original, desired);
    PresentStays(m.sys, ReleaseTransaction(m, original, desired).m.sys, original);
  }

  lemma RecoverIsSafe(m: Machine, original: Snapshot)
    requires Safe(m, original)
    ensures var r := RecoverStale(m);
            && Safe(r.1, original) && OnlyTouches(m.sys, r.1.sys, original)
            && ((r.1.sys != m.sys || r.1.journal != m.journal) ==>
                 m.journal.Holds? && AllAsDesired(m.sys, m.journal.desired))
            && (r.0 == Recovered(Released) ==> r.1.journal == NoJournal && AllAsSaved(r.1.sys, original))
  {
    if m.journal.Holds? && NextFate(m).Works? {
      ReleaseIsSafe(Later(m), original, m.journal.desired);
      ReleaseKeeps(Later(m), original, m.journal.desired);
    }
  }

  // ---- when recovery works ---------------------------------------------------------------------------

  lemma {:induction false} CleanReadBack(m: Machine, names: seq<string>)
    requires m.fates == [] && forall k :: 0 <= k < |names| ==> names[k] in m.sys
    ensures var c := ReadBack(m, names);
            && !c.dead && c.m == m && |c.snap| == |names|
            && forall k :: 0 <= k < |names| ==> c.snap[k] == Saved(names[k], m.sys[names[k]])
    decreases |names|
  {
    if names != [] {
      assert Later(m) == m;
      assert forall k :: 0 <= k < |names[1..]| ==> names[1..][k] == names[k + 1];
      CleanReadBack(m, names[1..]);
    }
  }

  lemma {:induction false} CleanRestore(m: Machine, cs: seq<Command>)
    requires m.fates == []
    ensures RunEvery(m, cs).ok && !RunEvery(m, cs).dead && RunEvery(m, cs).m.fates == []
    decreases |cs|
  {
    if cs != [] { CleanRestore(RunCommand(m, cs[0]).m, cs[1..]); }
  }

  lemma MatchesWhenDesired(m: Machine, original: Snapshot, host: string, port: string, bypass: seq<string>)
    requires m.fates == [] && AllPresent(m.sys, original)
    ensures var d := DesiredState(original, host, port, bypass);
            var c := ReadBack(m, Names(original));
            && !c.dead && c.m == m
            && (StateMatches(c.snap, d) <==> AllAsDesired(m.sys, d))
  {
    DesiredNames(original, host, port, bypass);
    CleanReadBack(m, Names(original));
    var d := DesiredState(original, host, port, bypass);
    var c := ReadBack(m, Names(original));
    if StateMatches(c.snap, d) { MatchedIsDesired(m, Names(original), d); }
    if AllAsDesired(m.sys, d) {
      forall k | 0 <= k < |c.snap| ensures Knows(d, c.snap[k].name) { assert d[k].name == c.snap[k].name; }
      forall k | 0 <= k < |d| ensures Has(c.snap, d[k]) {
        SameIsSet(c.snap[k], d[k]);
        assert Same(c.snap[k], d[k]);
      }
    }
  }

  /** With steps that work, recovery restores exactly when every service still is as the journal says. */
  lemma RecoveryRestores(m: Machine, original: Snapshot, host: string, port: string, bypass: seq<string>)
    requires Safe(m, original) && m.fates == []
    requires m.journal == Holds(original, DesiredState(original, host, port, bypass))
    ensures var r := RecoverStale(m);
            && (r.0 == Recovered(Released) <==> AllAsDesired(m.sys, m.journal.desired))
            && (r.0 == Recovered(Released) ==>
                 AllAsSaved(r.1.sys, original) && RecoverStale(r.1) == (NothingStale, r.1))
            && (r.0 != Recovered(Released) ==> r == (Recovered(ChangedExternally), m))
  {
    assert Later(m) == m;
    MatchesWhenDesired(m, original, host, port, bypass);
    CleanRestore(m, RestoreAll(original));
    ReleaseKeeps(m, original, m.journal.desired);
    assert Later(RunEvery(m, RestoreAll(original)).m) == RunEvery(m, RestoreAll(original)).m;
  }

  /** A crash after a completed apply, then a start: every service is as it was before the apply. */
  lemma CrashAfterApplyRecovers(m: Machine, host: string, port: string, bypass: seq<string>, original: Snapshot)
    requires Safe(m, original) && bypass != ["Empty"]
    ensures var r := ApplyTransaction(m, host, port, bypass, original);
            r.what.Applied? ==>
              var again := RecoverStale(r.m.(fates := []));
              again.0 == Recovered(Released) && AllAsSaved(again.1.sys, original) && again.1.journal == NoJournal
  {
    ApplyIsSafe(m, host, port, bypass, original);
    ApplyKeeps(m, host, port, bypass, original);
    var r := ApplyTransaction(m, host, port, bypass, original);
    if r.what.Applied? {
      var later := r.m.(fates := []);
      assert Safe(later, original);
      RecoveryRestores(later, original, host, port, bypass);
      RecoverIsSafe(later, original);
    }
  }

  /**
   * A crash inside an apply is not recovered: after one of five commands the service is neither as
   * it was nor as the journal wants it, so recovery refuses, and keeps the journal.
   */
  lemma CrashInsideApplyIsRefused(host: string, port: string, bypass: seq<string>, was: Service)
    requires was.web == Proxy(true, "corp", "80") && host != "corp"
    ensures var sys := map["Wi-Fi" := was];
            var original := [Saved("Wi-Fi", was)];
            var r := ApplyTransaction(Machine(sys, NoJournal, [Works, Works, Dies]), host, port, bypass, original);
            && r.what == ApplyDied && !AllAsSaved(r.m.sys, original) && r.m.fates == []
            && (was.secure != Proxy(true, host, port) ==> RecoverStale(r.m) == (Recovered(ChangedExternally), r.m))
  {
    var sys := map["Wi-Fi" := was];
    var original := [Saved("Wi-Fi", was)];
    var m := Machine(sys, NoJournal, [Works, Works, Dies]);
    var desired := DesiredState(original, host, port, bypass);
    var cs := ApplyAll(original, host, port, bypass);
    var m1 := Later(m).(journal := Holds(original, desired));
    assert original[1..] == [] && ApplyAll([], host, port, bypass) == [];
    assert cs == ApplyTo("Wi-Fi", host, port, bypass);
    assert m1.fates == [Works, Dies];
    var m2 := RunCommand(m1, cs[0]).m;
    assert m2.fates == [Dies];
    assert RunUntilError(m1, cs) == RunUntilError(m2, cs[1..]);
    assert RunUntilError(m2, cs[1..]) == RunCommand(m2, cs[1]);
    var r := ApplyTransaction(m, host, port, bypass, original);
    assert r.m == m2.(fates := []);
    assert r.m.sys["Wi-Fi"].web.host == host;
    assert !AsSaved(r.m.sys, original[0]);
    if was.secure != Proxy(true, host, port) {
      DesiredNames(original, host, port, bypass);
      MatchesWhenDesired(r.m, original, host, port, bypass);
      assert Later(r.m) == r.m;
      assert r.m.sys["Wi-Fi"].secure == was.secure;
      assert desired[0].service.secure != was.secure && desired[0].name == "Wi-Fi";
      assert !IsSet(r.m.sys["Wi-Fi"], desired[0].service);
    }
  }
}
