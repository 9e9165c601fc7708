/** What the transaction guarantees over crashes, failures and repeated recoveries. */
module ConfigAtomicity {
  import opened Prelude
  import opened ConfigState

  ghost predicate AllOld(d0: Disk, d: Disk) { d.mp == d0.mp && d.sp == d0.sp }

  /** The disk contents a plan asks for. */
  function Applied(d0: Disk, plan: Plan): Disk {
    Disk(if plan.mp.Some? then plan.mp else d0.mp, if plan.sp.Some? then plan.sp else d0.sp, NoJournal)
  }

  ghost predicate AllNew(d0: Disk, plan: Plan, d: Disk) { AllOld(Applied(d0, plan), d) }

  /** Each file by itself is old or new, and a file the plan leaves alone is as it was. */
  ghost predicate EachOldOrNew(d0: Disk, plan: Plan, d: Disk) {
    && (d.mp == d0.mp || d.mp == Applied(d0, plan).mp)
    && (d.sp == d0.sp || d.sp == Applied(d0, plan).sp)
  }

  /** A disk some crash may leave: settled on one side, or still holding the journal. */
  ghost predicate Recoverable(d0: Disk, plan: Plan, d: Disk) {
    || (d.journal == NoJournal && (AllOld(d0, d) || AllNew(d0, plan, d)))
    || (d.journal == Holds(PayloadOf(d0, plan)) && EachOldOrNew(d0, plan, d))
  }

  /** The files as a journal's redo, or its undo, would make them. */
  function Redone(d: Disk, p: Payload): Disk {
    Disk(if p.mp.Some? then Some(p.mp.value.candidate) else d.mp,
         if p.sp.Some? then Some(p.sp.value.candidate) else d.sp, NoJournal)
  }

  function Undone(d: Disk, p: Payload): Disk {
    Disk(if p.mp.Some? then p.mp.value.before else d.mp, if p.sp.Some? then p.sp.value.before else d.sp, NoJournal)
  }

  /** A rollback puts old contents back file by file, and drops the journal last. */
  lemma RollbackShape(w: World, p: Payload)
    ensures var d, r := w.disk, Rollback(w, p);
            && r.w.disk.mp in {d.mp, Undone(d, p).mp} && r.w.disk.sp in {d.sp, Undone(d, p).sp}
            && (r.w.disk.journal == d.journal || r.w.disk == Undone(d, p))
            && (r.complete ==> r.w.disk.(journal := NoJournal) == Undone(d, p))
  {
  }

  lemma RollbackRecoverable(d0: Disk, plan: Plan, w: World)
    requires EachOldOrNew(d0, plan, w.disk)
    requires w.disk.journal == Holds(PayloadOf(d0, plan)) || (w.disk.journal == NoJournal && AllOld(d0, w.disk))
    ensures var r := Rollback(w, PayloadOf(d0, plan));
            Recoverable(d0, plan, r.w.disk) && (r.complete ==> AllOld(d0, r.w.disk))
  {
    hide Rollback;
    RollbackShape(w, PayloadOf(d0, plan));
  }

  lemma {:induction false} SecretsLeaveDisk(w: World, names: seq<string>, failed: bool)
    ensures StoreSecrets(w, names).w.disk == w.disk
    ensures DropSecrets(w, names, failed).w.disk == w.disk
    ensures !StoreSecrets(w, names).dead ==> DropSecrets(w, names, failed).w.disk == w.disk
    decreases |names|
  {
    if names != [] {
      SecretsLeaveDisk(Later(w).(secrets := w.secrets + [Set(names[0])]), names[1..], failed);
      SecretsLeaveDisk(Later(w).(secrets := w.secrets + [Delete(names[0])]), names[1..], failed);
      SecretsLeaveDisk(Later(w), names[1..], true);
    }
  }

  /** Up to the keychain: an error leaves what a rollback can undo, completion has installed all. */
  lemma InstallRecoverable(w: World, plan: Plan)
    requires w.disk.journal == NoJournal
    ensures var p := PayloadOf(w.disk, plan);
            var i := InstallStage(w, p).1;
            && Recoverable(w.disk, plan, i.w.disk)
            && (i.status == Done ==> AllNew(w.disk, plan, i.w.disk))
  {
  }

  /**
   * Whatever works, fails or dies inside a commit that finds no journal: the disk it leaves is
   * recoverable; a success has installed everything; a refusal whose journal is gone has left
   * everything as it was.
   */
  lemma CommitIsRecoverable(w: World, plan: Plan)
    requires w.disk.journal == NoJournal
    ensures var c := Commit(w, plan);
            && Recoverable(w.disk, plan, c.w.disk)
            && (c.outcome == Saved ==> AllNew(w.disk, plan, c.w.disk))
            && (c.outcome.Refused? && c.w.disk.journal == NoJournal ==> AllOld(w.disk, c.w.disk))
            && (c.outcome == Refused(Validate) ==> c.w.disk == w.disk)
  {
    if plan.ok {
      var p := PayloadOf(w.disk, plan);
      var (stage, i) := InstallStage(w, p);
      InstallRecoverable(w, plan);
      if i.status == Raised {
        UndoRecoverable(w.disk, plan, i.w, stage);
      } else if i.status == Done {
        KeychainLeavesDisk(i.w, plan);
        var k := KeychainStage(i.w, plan);
        if k.failed && !k.dead { UndoRecoverable(w.disk, plan, k.w, AtKeychain); }
      }
    }
  }

  lemma KeychainLeavesDisk(w: World, plan: Plan)
    ensures KeychainStage(w, plan).w.disk == w.disk
  {
    SecretsLeaveDisk(w, plan.sets, false);
    SecretsLeaveDisk(StoreSecrets(w, plan.sets).w, plan.dels, false);
  }

  lemma UndoRecoverable(d0: Disk, plan: Plan, w: World, stage: Stage)
    requires d0.journal == NoJournal && Recoverable(d0, plan, w.disk)
    requires w.disk.journal == NoJournal ==> AllOld(d0, w.disk) || PayloadOf(d0, plan) == Payload(None, None)
    ensures var c := Undo(w, PayloadOf(d0, plan), stage);
            && Recoverable(d0, plan, c.w.disk)
            && (c.outcome == Refused(stage) || c.outcome == Died)
            && (c.outcome == Refused(stage) && c.w.disk.journal == NoJournal ==> AllOld(d0, c.w.disk))
  {
    RollbackRecoverable(d0, plan, w);
    RollbackJournal(d0, plan, w);
  }

  /** A rollback that could not restore a file has kept the journal. */
  lemma RollbackJournal(d0: Disk, plan: Plan, w: World)
    requires EachOldOrNew(d0, plan, w.disk)
    requires w.disk.journal == Holds(PayloadOf(d0, plan)) || AllOld(d0, w.disk)
    ensures var r := Rollback(w, PayloadOf(d0, plan));
            r.w.disk.journal == NoJournal ==> AllOld(d0, r.w.disk)
  {
    hide Rollback;
    RollbackShape(w, PayloadOf(d0, plan));
  }

  /** A recovery installs new contents file by file, and drops the journal last. */
  lemma RecoverShape(w: World, p: Payload)
    requires w.disk.journal == Holds(p)
    ensures var d, r := w.disk, Recover(w);
            && r.w.disk.mp in {d.mp, Redone(d, p).mp} && r.w.disk.sp in {d.sp, Redone(d, p).sp}
            && (r.w.disk.journal == d.journal || r.w.disk == Redone(d, p))
            && (r.converged ==> r.w.disk == Redone(d, p))
  {
  }

  lemma RecoverNothing(w: World)
    requires w.disk.journal == NoJournal
    ensures Recover(w).w.disk == w.disk
  {
  }

  /** Recovery keeps a disk recoverable however it ends, and settles it when it succeeds. */
  lemma RecoverKeeps(d0: Disk, plan: Plan, w: World)
    requires Recoverable(d0, plan, w.disk)
    ensures var r := Recover(w);
            && Recoverable(d0, plan, r.w.disk)
            && (r.converged ==> r.w.disk.journal == NoJournal)
            && (r.converged && w.disk.journal != NoJournal ==> AllNew(d0, plan, r.w.disk))
            && (w.disk.journal == NoJournal ==> r.w.disk == w.disk)
  {
    hide Recover;
    if w.disk.journal == NoJournal { RecoverNothing(w); } else { RecoverShape(w, PayloadOf(d0, plan)); }
  }

  /** Any number of recovery attempts, each with fates of its own. */
  function Attempts(d: Disk, tries: seq<seq<Fate>>): Disk {
    if tries == [] then d else Recover(World(Attempts(d, tries[..|tries| - 1]), [], tries[|tries| - 1])).w.disk
  }

  lemma {:induction false} AttemptsKeep(d0: Disk, plan: Plan, d: Disk, tries: seq<seq<Fate>>)
    requires Recoverable(d0, plan, d)
    ensures Recoverable(d0, plan, Attempts(d, tries))
    ensures d.journal == NoJournal ==> Attempts(d, tries) == d
    ensures d.journal != NoJournal ==>
              Attempts(d, tries).journal == d.journal || AllNew(d0, plan, Attempts(d, tries))
  {
    if tries != [] {
      AttemptsKeep(d0, plan, d, tries[..|tries| - 1]);
      RecoverKeeps(d0, plan, World(Attempts(d, tries[..|tries| - 1]), [], tries[|tries| - 1]));
    }
  }

  /**
   * Crash atomicity. From no journal, let a commit and then any number of recoveries be cut
   * short or fail anywhere. Once a recovery succeeds, the participating files are all old or all
   * new, the others untouched, no journal is left, and recovering again changes nothing. They
   * are all new after a reported success; after a reported failure they are all new exactly when
   * the failing commit could not remove its journal.
   */
  lemma CrashAtomicity(w: World, plan: Plan, tries: seq<seq<Fate>>, last: seq<Fate>, again: World)
    requires w.disk.journal == NoJournal
    requires Recover(World(Attempts(Commit(w, plan).w.disk, tries), [], last)).converged
    ensures var c := Commit(w, plan);
            var d := Recover(World(Attempts(c.w.disk, tries), [], last)).w.disk;
            && d.journal == NoJournal
            && (AllOld(w.disk, d) || AllNew(w.disk, plan, d))
            && (c.outcome == Saved ==> AllNew(w.disk, plan, d))
            && (c.outcome.Refused? ==>
               if c.w.disk.journal == NoJournal then AllOld(w.disk, d)
               else AllNew(w.disk, plan, d))
            && (again.disk == d ==> Recover(again).w.disk == d)
  {
    var c := Commit(w, plan);
    CommitIsRecoverable(w, plan);
    AttemptsKeep(w.disk, plan, c.w.disk, tries);
    var d := Attempts(c.w.disk, tries);
    RecoverKeeps(w.disk, plan, World(d, [], last));
  }

  // ---- commits over a journal that was left behind ---------------------------------------------

  /** The files wholly on one side of the journal they lie beside, if there is one. */
  predicate Settled(d: Disk) {
    match d.journal
    case NoJournal => true
    case Corrupt => true
    case Holds(p) => d.(journal := NoJournal) == Redone(d, p) || d.(journal := NoJournal) == Undone(d, p)
  }

  /**
   * Wherever a commit ends that found any journal: without one and settled; with its own and each
   * file old or new; or with the one it found, and every file as it was.
   */
  ghost predicate LeftBy(d: Disk, plan: Plan, after: Disk) {
    || (after.journal == NoJournal && (AllOld(d, after) || AllNew(d, plan, after)))
    || (after.journal == Holds(PayloadOf(d, plan)) && EachOldOrNew(d, plan, after))
    || after == d
  }

  ghost predicate Empty(plan: Plan) { plan.mp == None && plan.sp == None }

  lemma InstallLeaves(w: World, plan: Plan)
    ensures var p := PayloadOf(w.disk, plan);
            var i := InstallStage(w, p).1;
            && LeftBy(w.disk, plan, i.w.disk)
            && (i.status == Done ==> AllNew(w.disk, plan, i.w.disk))
            && (i.status == Done && !Empty(plan) ==> i.w.disk.journal == Holds(p))
            && (i.w.disk.journal != Holds(p) ==> i.w.disk == w.disk)
  {
  }

  lemma UndoLeaves(d: Disk, plan: Plan, w: World, stage: Stage)
    requires w.disk == d || (w.disk.journal == Holds(PayloadOf(d, plan)) && EachOldOrNew(d, plan, w.disk))
    ensures var c := Undo(w, PayloadOf(d, plan), stage); LeftBy(d, plan, c.w.disk) && c.outcome != Saved
  {
    hide Rollback;
    RollbackShape(w, PayloadOf(d, plan));
  }

  lemma FinishLeaves(d: Disk, plan: Plan, w: World)
    requires AllNew(d, plan, w.disk)
    requires if Empty(plan) then w.disk == d else w.disk.journal == Holds(PayloadOf(d, plan))
    ensures LeftBy(d, plan, w.disk) && LeftBy(d, plan, UnlinkJournal(w).w.disk)
    ensures AllNew(d, plan, UnlinkJournal(w).w.disk)
  {
  }

  lemma CommitLeaves(w: World, plan: Plan)
    ensures var c := Commit(w, plan);
            && LeftBy(w.disk, plan, c.w.disk)
            && (c.outcome == Saved ==> AllNew(w.disk, plan, c.w.disk))
            && (c.outcome == Saved && c.w.disk == w.disk && w.disk.journal != Holds(PayloadOf(w.disk, plan)) ==>
                  Empty(plan) || c.w.disk.journal == NoJournal)
  {
    if plan.ok {
      var p := PayloadOf(w.disk, plan);
      var (stage, i) := InstallStage(w, p);
      InstallLeaves(w, plan);
      if i.status == Raised {
        UndoLeaves(w.disk, plan, i.w, stage);
      } else if i.status == Done {
        KeychainLeavesDisk(i.w, plan);
        var k := KeychainStage(i.w, plan);
        if k.failed && !k.dead {
          UndoLeaves(w.disk, plan, k.w, AtKeychain);
        } else if !k.dead {
          FinishLeaves(w.disk, plan, k.w);
        }
      }
    }
  }

  /** Redoing on the way: done, or still to be done with the same result. */
  ghost predicate Redoing(d: Disk, p: Payload, after: Disk) {
    || after == Redone(d, p)
    || (after.journal == Holds(p) && Redone(after, p) == Redone(d, p) && Undone(after, p) == Undone(d, p)
        && (d.(journal := NoJournal) == Redone(d, p) ==> after == d))
  }

  lemma RecoverRedoes(d: Disk, p: Payload, w: World)
    requires d.journal == Holds(p) && Redoing(d, p, w.disk)
    ensures Redoing(d, p, Recover(w).w.disk) && (Recover(w).converged ==> Recover(w).w.disk == Redone(d, p))
  {
    hide Recover;
    if w.disk.journal == NoJournal { RecoverNothing(w); } else { RecoverShape(w, p); }
  }

  lemma {:induction false} AttemptsRedo(d: Disk, p: Payload, tries: seq<seq<Fate>>)
    requires d.journal == Holds(p)
    ensures Redoing(d, p, Attempts(d, tries))
    decreases |tries|
  {
    if tries != [] {
      AttemptsRedo(d, p, tries[..|tries| - 1]);
      RecoverRedoes(d, p, World(Attempts(d, tries[..|tries| - 1]), [], tries[|tries| - 1]));
    }
  }

  lemma {:induction false} AttemptsOnNone(d: Disk, tries: seq<seq<Fate>>)
    requires d.journal == NoJournal
    ensures Attempts(d, tries) == d
    decreases |tries|
  {
    if tries != [] { AttemptsOnNone(d, tries[..|tries| - 1]); }
  }

  // ---- runs ---------------------------------------------------------------------------------

  /** A commit, and recoveries that may each fail or be cut short. */
  datatype Round = Round(plan: Plan, fates: seq<Fate>, tries: seq<seq<Fate>>)

  function CommitOf(d: Disk, r: Round): Committed { Commit(World(d, [], r.fates), r.plan) }

  function AfterRound(d: Disk, r: Round): Disk { Attempts(CommitOf(d, r).w.disk, r.tries) }

  /** The files of a run whose last recovery works. */
  function Files(d: Disk): Disk { if d.journal.Holds? then Redone(d, d.journal.payload) else d.(journal := NoJournal) }

  /** A commit over any journal, then recovery: the files as they were, the plan, or the journal's redo. */
  lemma EndsOverJournal(d: Disk, r: Round)
    requires d.journal != Corrupt
    ensures Files(AfterRound(d, r)) in {d.(journal := NoJournal), Applied(d, r.plan), Files(d)}
    ensures AfterRound(d, r).journal != Corrupt
  {
    CommitLeaves(World(d, [], r.fates), r.plan);
    var after := CommitOf(d, r).w.disk;
    if after.journal == NoJournal {
      AttemptsOnNone(after, r.tries);
    } else {
      AttemptsRedo(after, after.journal.payload, r.tries);
    }
  }

  /** Of a first plan and a second one, each is there as a whole or not at all. */
  ghost predicate Whole(d0: Disk, first: Plan, second: Plan, d: Disk) {
    d in {d0.(journal := NoJournal), Applied(d0, first), Applied(d0, second), Applied(Applied(d0, first), second)}
  }

  /** A plan for the second file only, with a text it does not hold. */
  function Other(d: Disk): Plan { Plan(true, None, Some(d.sp.GetOr("") + "#"), false, [], []) }

  lemma MixedStays(d0: Disk, first: Plan, half: Disk)
    requires half.journal == Holds(PayloadOf(d0, first)) && EachOldOrNew(d0, first, half) && !Settled(half)
    ensures var r := Round(Other(half), [Fails], []);
            Files(AfterRound(half, r)) == half.(journal := NoJournal)
            && !Whole(d0, first, r.plan, half.(journal := NoJournal))
  {
    var r := Round(Other(half), [Fails], []);
    assert CommitOf(half, r).w.disk == half.(journal := NoJournal);
    assert |r.plan.sp.value| > |half.sp.GetOr("")|;
  }

  /**
   * A transaction was cut short and left its journal. Every commit over it, with any plan and any
   * fates, leaves each of the two plans whole or not there once recovery works, if and only if the
   * files were wholly old or wholly new when it began.
   */
  lemma CommitOverJournalIsAtomicWhenSettled(d0: Disk, first: Plan, half: Disk)
    requires half.journal == Holds(PayloadOf(d0, first)) && EachOldOrNew(d0, first, half)
    ensures Settled(half) <==> AllOld(d0, half) || AllNew(d0, first, half)
    ensures Settled(half) <==> forall r: Round :: Whole(d0, first, r.plan, Files(AfterRound(half, r)))
  {
    if Settled(half) {
      forall r: Round ensures Whole(d0, first, r.plan, Files(AfterRound(half, r))) {
        EndsOverJournal(half, r);
      }
    } else {
      MixedStays(d0, first, half);
    }
  }

  /**
   * Unsettled files are there to be met. A crash leaves the first plan half installed behind its journal; a
   * second commit that cannot write its own journal then rolls back and drops the first one's.
   * The pair left for good is of neither plan, nor of both in any way.
   */
  lemma CommitOverJournalLosesAtomicity() returns (d0: Disk, first: Plan, second: Plan, half: Disk, d: Disk)
    ensures d0.journal == NoJournal && half.journal.Holds? && d.journal == NoJournal
    ensures Commit(World(d0, [], [Works, Works, Dies]), first) == Committed(Died, World(half, [], []))
    ensures Commit(World(half, [], [Fails]), second) == Committed(Refused(AtJournal), World(d, [], []))
    ensures d != d0 && d != Applied(d0, first) && d != Applied(d0, second)
    ensures d != Applied(Applied(d0, first), second) && d != Applied(Applied(d0, second), first)
  {
    d0 := Disk(Some("m0"), Some("s0"), NoJournal);
    first := Plan(true, Some("m1"), Some("s1"), false, [], []);
    second := Plan(true, None, Some("s2"), false, [], []);
    half := Disk(Some("m1"), Some("s0"), Holds(PayloadOf(d0, first)));
    d := Disk(Some("m1"), Some("s0"), NoJournal);
  }

  function RunRounds(d: Disk, rounds: seq<Round>): Disk {
    if rounds == [] then d else AfterRound(RunRounds(d, rounds[..|rounds| - 1]), rounds[|rounds| - 1])
  }

  /** Every commit begins over settled files, whether or not a journal lies beside them. */
  ghost predicate BeginsSettled(d: Disk, rounds: seq<Round>) {
    rounds == [] ||
    (BeginsSettled(d, rounds[..|rounds| - 1]) && Settled(RunRounds(d, rounds[..|rounds| - 1])))
  }

  /** Applying the chosen plans one after the other, each as a whole. */
  function ApplyChosen(d: Disk, rounds: seq<Round>, chosen: seq<bool>): Disk
    requires |chosen| == |rounds|
  {
    if rounds == [] then d
    else
      var n := |rounds| - 1;
      var before := ApplyChosen(d, rounds[..n], chosen[..n]);
      if chosen[n] then Applied(before, rounds[n].plan) else before
  }

  ghost predicate SavedAreChosen(d: Disk, rounds: seq<Round>, chosen: seq<bool>) {
    |chosen| == |rounds| &&
    forall k :: 0 <= k < |rounds| && CommitOf(RunRounds(d, rounds[..k]), rounds[k]).outcome == Saved ==> chosen[k]
  }

  lemma SavedSnoc(d: Disk, init: seq<Round>, r: Round, chosen: seq<bool>, c: bool)
    requires SavedAreChosen(d, init, chosen)
    requires CommitOf(RunRounds(d, init), r).outcome == Saved ==> c
    ensures SavedAreChosen(d, init + [r], chosen + [c])
  {
    var rounds := init + [r];
    forall k | 0 <= k < |rounds| && CommitOf(RunRounds(d, rounds[..k]), rounds[k]).outcome == Saved
      ensures (chosen + [c])[k] {
      if k < |init| { assert rounds[..k] == init[..k]; } else { assert rounds[..k] == init; }
    }
  }

  lemma ApplySnoc(d: Disk, init: seq<Round>, r: Round, chosen: seq<bool>, c: bool)
    requires |chosen| == |init|
    ensures var before := ApplyChosen(d, init, chosen);
            ApplyChosen(d, init + [r], chosen + [c]) == if c then Applied(before, r.plan) else before
  {
    assert (init + [r])[..|init|] == init && (chosen + [c])[..|init|] == chosen;
  }

  /** Some of the plans in order, every saved one among them, make these files. */
  ghost predicate Explains(d: Disk, rounds: seq<Round>, chosen: seq<bool>, files: Disk) {
    SavedAreChosen(d, rounds, chosen) && ApplyChosen(d, rounds, chosen) == files
  }

  ghost predicate Explained(d: Disk, rounds: seq<Round>, files: Disk) {
    exists chosen :: Explains(d, rounds, chosen, files)
  }

  lemma ExplainedSnoc(d: Disk, init: seq<Round>, r: Round, files: Disk, c: bool)
    requires Explained(d, init, files) && (CommitOf(RunRounds(d, init), r).outcome == Saved ==> c)
    ensures Explained(d, init + [r], if c then Applied(files, r.plan) else files)
  {
    var chosen :| Explains(d, init, chosen, files);
    SavedSnoc(d, init, r, chosen, c);
    ApplySnoc(d, init, r, chosen, c);
    assert Explains(d, init + [r], chosen + [c], if c then Applied(files, r.plan) else files);
  }

  /**
   * What is true after every round: recovering now would give explained files; and unless the files
   * are those already, undoing would too.
   */
  ghost predicate Sound(d: Disk, rounds: seq<Round>) {
    var now := RunRounds(d, rounds);
    && now.journal != Corrupt
    && Explained(d, rounds, Files(now))
    && (now.journal.Holds? && now.(journal := NoJournal) != Files(now) ==>
        Explained(d, rounds, Undone(now, now.journal.payload)))
  }

  lemma SettledIsExplained(d: Disk, rounds: seq<Round>)
    requires Sound(d, rounds) && Settled(RunRounds(d, rounds))
    ensures Explained(d, rounds, RunRounds(d, rounds).(journal := NoJournal))
  {
  }

  lemma SoundSnoc(d: Disk, init: seq<Round>, r: Round)
    requires Sound(d, init) && Settled(RunRounds(d, init))
    ensures Sound(d, init + [r])
  {
    hide Explained, Commit;
    var now := RunRounds(d, init);
    var files := now.(journal := NoJournal);
    assert (init + [r])[..|init|] == init;
    SettledIsExplained(d, init);
    var c := CommitOf(now, r);
    CommitLeaves(World(now, [], r.fates), r.plan);
    var after := c.w.disk;
    if c.outcome != Saved { ExplainedSnoc(d, init, r, files, false); }
    ExplainedSnoc(d, init, r, files, true);
    assert Applied(files, r.plan) == Applied(now, r.plan);
    if after.journal == NoJournal {
      AttemptsOnNone(after, r.tries);
    } else if after.journal == Holds(PayloadOf(now, r.plan)) && EachOldOrNew(now, r.plan, after) {
      AttemptsRedo(after, after.journal.payload, r.tries);
      assert Redone(after, after.journal.payload) == Applied(now, r.plan);
      assert Undone(after, after.journal.payload) == files;
    } else {
      assert after == now;
      AttemptsRedo(after, after.journal.payload, r.tries);
      ExplainedSnoc(d, init, r, Files(now), c.outcome == Saved);
      if c.outcome == Saved { assert Applied(Files(now), r.plan) == Files(now); }
      if files != Files(now) { ExplainedSnoc(d, init, r, Undone(now, now.journal.payload), c.outcome == Saved); }
    }
  }

  /**
   * Over a whole run of commits and recoveries, each cut short anywhere, every commit beginning over
   * settled files: once a recovery works, the files are what applying some of the plans in order
   * would give, each whole or not at all, and every plan reported saved is among them.
   */
  lemma {:induction false} RunsAreAtomic(d: Disk, rounds: seq<Round>)
    requires d.journal == NoJournal && BeginsSettled(d, rounds)
    ensures Sound(d, rounds)
    ensures Explained(d, rounds, Files(RunRounds(d, rounds)))
    decreases |rounds|
  {
    if rounds == [] {
      assert Explains(d, [], [], d);
    } else {
      var init := rounds[..|rounds| - 1];
      RunsAreAtomic(d, init);
      assert rounds == init + [rounds[|rounds| - 1]];
      SoundSnoc(d, init, rounds[|rounds| - 1]);
    }
  }

  /** A recovery that works makes them the files on disk. */
  lemma RecoveryMakesFiles(d: Disk, fates: seq<Fate>)
    requires d.journal != Corrupt && Recover(World(d, [], fates)).converged
    ensures Recover(World(d, [], fates)).w.disk == Files(d)
  {
  }
}
