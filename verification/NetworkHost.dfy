/** The transaction as it is carried out: commands in loops, a journal written first and removed last. */
module NetworkHost {
  import opened SystemProxy

  lemma RunEveryCons(m: Machine, cs: seq<Command>, more: seq<Command>, j: nat)
    requires j < |cs|
    ensures cs[j..] + more == [cs[j]] + (cs[j + 1..] + more)
    ensures RunEvery(m, cs[j..] + more) ==
            var r := RunCommand(m, cs[j]);
            if r.dead then r else var t := RunEvery(r.m, cs[j + 1..] + more); Ran(r.ok && t.ok, t.dead, t.m)
    ensures RunUntilError(m, cs[j..] + more) ==
            var r := RunCommand(m, cs[j]);
            if r.dead || !r.ok then r else RunUntilError(r.m, cs[j + 1..] + more)
  {
    var all := cs[j..] + more;
    assert all == [cs[j]] + (cs[j + 1..] + more);
    assert all[0] == cs[j] && all[1..] == cs[j + 1..] + more;
  }

  lemma RestoreAllFrom(state: Snapshot, i: nat)
    requires i < |state|
    ensures RestoreAll(state[i..]) == RestoreTo(state[i]) + RestoreAll(state[i + 1..])
  {
    assert state[i..][0] == state[i] && state[i..][1..] == state[i + 1..];
  }

  lemma ApplyAllFrom(state: Snapshot, i: nat, host: string, port: string, bypass: seq<string>)
    requires i < |state|
    ensures ApplyAll(state[i..], host, port, bypass) ==
            ApplyTo(state[i].name, host, port, bypass) + ApplyAll(state[i + 1..], host, port, bypass)
  {
    assert state[i..][0] == state[i] && state[i..][1..] == state[i + 1..];
  }

  /** What is left to say of a run that is under way: `ok` so far, and the rest still to be run. */
  function Continued(ok: bool, rest: Ran): Ran { Ran(ok && rest.ok, rest.dead, rest.m) }

  class Host {
    var sys: map<string, Service>
    var journal: Journal
    var fates: seq<Fate>

    constructor (m: Machine)
      ensures Now() == m
    {
      sys, journal, fates := m.sys, m.journal, m.fates;
    }

    ghost function Now(): Machine
      reads this
    {
      Machine(sys, journal, fates)
    }

    /** The fate of the next step. */
    method Step() returns (f: Fate)
      modifies this`fates
      ensures f == NextFate(old(Now())) && Now() == Later(old(Now()))
    {
      if fates == [] {
        f := Works;
      } else {
        f := fates[0];
        fates := fates[1..];
      }
    }

    method Run(c: Command) returns (ok: bool, dead: bool)
      modifies this`sys, this`fates
      ensures Ran(ok, dead, Now()) == RunCommand(old(Now()), c)
    {
      var f := Step();
      ok, dead := f == Works, f == Dies;
      if f == Works || f == Lost {
        sys := Effect(sys, c);
      }
    }

    /** `restore`: every command is issued, whatever became of the ones before it. */
    method Restore(state: Snapshot) returns (ok: bool, dead: bool)
      modifies this`sys, this`fates
      ensures Ran(ok, dead, Now()) == RunEvery(old(Now()), RestoreAll(state))
    {
      hide RunEvery, RestoreAll, RestoreTo, RunCommand;
      ghost var whole := RunEvery(Now(), RestoreAll(state));
      ok, dead := true, false;
      var i := 0;
      assert state[0..] == state;
      while i < |state|
        invariant 0 <= i <= |state| && !dead
        invariant whole == Continued(ok, RunEvery(Now(), RestoreAll(state[i..])))
      {
        RestoreAllFrom(state, i);
        var commands := RestoreTo(state[i]);
        var j := 0;
        assert commands[0..] == commands;
        while j < |commands|
          invariant 0 <= j <= |commands| && !dead
          invariant whole == Continued(ok, RunEvery(Now(), commands[j..] + RestoreAll(state[i + 1..])))
        {
          RunEveryCons(Now(), commands, RestoreAll(state[i + 1..]), j);
          var fine, gone := Run(commands[j]);
          ok := ok && fine;
          if gone {
            dead := true;
            return;
          }
          j := j + 1;
        }
        assert commands[j..] + RestoreAll(state[i + 1..]) == RestoreAll(state[i + 1..]);
        i := i + 1;
      }
      NothingLeft(state, i, Now());
    }

    /** `apply_transaction`, its journal first. */
    method ApplyTransaction(host: string, port: string, bypass: seq<string>, original: Snapshot)
      returns (what: Applying)
      modifies this
      ensures ApplyResult(what, Now()) == SystemProxy.ApplyTransaction(old(Now()), host, port, bypass, original)
    {
      hide RunUntilError, ApplyAll, RunEvery, RestoreAll, DesiredState;
      if original == [] {
        return NothingToDo;
      }
      var desired := DesiredState(original, host, port, bypass);
      var f := Step();
      if f == Dies {
        return ApplyDied;
      }
      if f != Works {
        return JournalFailed;
      }
      journal := Holds(original, desired);
      var ok, dead := ApplyCommands(host, port, bypass, original);
      if dead {
        return ApplyDied;
      }
      if ok {
        return Applied(desired);
      }
      var restored, died := Restore(original);
      if died {
        return ApplyDied;
      }
      if !restored {
        return RollbackFailed(desired);
      }
      f := Step();
      if f != Works {
        return ApplyDied;
      }
      journal := NoJournal;
      return RolledBack;
    }

    /** The two nested loops: the first failure ends both. */
    method ApplyCommands(host: string, port: string, bypass: seq<string>, original: Snapshot)
      returns (ok: bool, dead: bool)
      modifies this`sys, this`fates
      ensures Ran(ok, dead, Now()) == RunUntilError(old(Now()), ApplyAll(original, host, port, bypass))
    {
      hide RunUntilError, ApplyAll, ApplyTo, RunCommand;
      ghost var whole := RunUntilError(Now(), ApplyAll(original, host, port, bypass));
      var i := 0;
      assert original[0..] == original;
      while i < |original|
        invariant 0 <= i <= |original|
        invariant whole == RunUntilError(Now(), ApplyAll(original[i..], host, port, bypass))
      {
        ApplyAllFrom(original, i, host, port, bypass);
        var commands := ApplyTo(original[i].name, host, port, bypass);
        var j := 0;
        assert commands[0..] == commands;
        while j < |commands|
          invariant 0 <= j <= |commands|
          invariant whole == RunUntilError(Now(), commands[j..] + ApplyAll(original[i + 1..], host, port, bypass))
        {
          RunEveryCons(Now(), commands, ApplyAll(original[i + 1..], host, port, bypass), j);
          ok, dead := Run(commands[j]);
          if dead || !ok {
            return;
          }
          j := j + 1;
        }
        assert commands[j..] + ApplyAll(original[i + 1..], host, port, bypass) ==
               ApplyAll(original[i + 1..], host, port, bypass);
        i := i + 1;
      }
      NothingToApply(original, i, host, port, bypass, Now());
      ok, dead := true, false;
    }

    /** `snapshot_services`: a service that cannot be read is skipped. */
    method SnapshotServices(names: seq<string>) returns (snap: Snapshot, dead: bool)
      modifies this`fates
      ensures Captured(snap, dead, Now()) == ReadBack(old(Now()), names)
    {
      ghost var whole := ReadBack(Now(), names);
      snap, dead := [], false;
      var i := 0;
      assert names[0..] == names;
      while i < |names|
        invariant 0 <= i <= |names| && !dead && sys == old(sys) && journal == old(journal)
        invariant whole == var rest := ReadBack(Now(), names[i..]); rest.(snap := snap + rest.snap)
      {
        assert names[i..][0] == names[i] && names[i..][1..] == names[i + 1..];
        var f := Step();
        if f == Dies {
          dead := true;
          assert snap + [] == snap;
          return;
        }
        if f == Works && names[i] in sys {
          ghost var rest := ReadBack(Now(), names[i + 1..]).snap;
          assert snap + ([Saved(names[i], sys[names[i]])] + rest) == snap + [Saved(names[i], sys[names[i]])] + rest;
          snap := snap + [Saved(names[i], sys[names[i]])];
        }
        i := i + 1;
      }
      assert snap + [] == snap;
    }

    /** `release_transaction`: compare, then restore. */
    method ReleaseTransaction(original: Snapshot, desired: Snapshot) returns (what: Releasing)
      modifies this
      ensures ReleaseResult(what, Now()) == SystemProxy.ReleaseTransaction(old(Now()), original, desired)
    {
      hide ReadBack, StateMatches, RunEvery, RestoreAll, Names;
      var current, died := SnapshotServices(Names(original));
      if died {
        return ReleaseDied;
      }
      if !StateMatches(current, desired) {
        return ChangedExternally;
      }
      var ok, dead := Restore(original);
      if dead {
        return ReleaseDied;
      }
      if !ok {
        return RestoreFailed;
      }
      var f := Step();
      if f != Works {
        return ReleaseDied;
      }
      journal := NoJournal;
      return Released;
    }

    /** `recover_stale_transaction`, run when the program starts. */
    method RecoverStale() returns (outcome: Recovering)
      modifies this
      ensures (outcome, Now()) == SystemProxy.RecoverStale(old(Now()))
    {
      hide SystemProxy.ReleaseTransaction;
      if journal == NoJournal {
        return NothingStale;
      }
      if journal == Unreadable {
        return BadJournal;
      }
      var f := Step();
      if f == Dies {
        return Recovered(ReleaseDied);
      }
      if f != Works {
        return BadJournal;
      }
      var what := ReleaseTransaction(journal.original, journal.desired);
      return Recovered(what);
    }
  }

  lemma NothingLeft(state: Snapshot, i: nat, m: Machine)
    requires i == |state|
    ensures RunEvery(m, RestoreAll(state[i..])) == Ran(true, false, m)
  {
  }

  lemma NothingToApply(state: Snapshot, i: nat, host: string, port: string, bypass: seq<string>, m: Machine)
    requires i == |state|
    ensures RunUntilError(m, ApplyAll(state[i..], host, port, bypass)) == Ran(true, false, m)
  {
  }
}
