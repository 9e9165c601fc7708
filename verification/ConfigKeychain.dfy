/** What a commit does to the keychain: said by the plan and the fates of its steps. */
module ConfigKeychain {
  import opened Prelude
  import opened ConfigState

  /** The fate of the k-th step from here. */
  function Nth(w: World, k: nat): Fate { if k < |w.fates| then w.fates[k] else Works }

  /** How many steps the files take: the journal and each file of the plan. */
  function FileSteps(plan: Plan): nat {
    (if plan.mp.Some? || plan.sp.Some? then 1 else 0) + (if plan.mp.Some? then 1 else 0)
    + (if plan.sp.Some? then 1 else 0)
  }

  /** Nothing goes wrong in the steps from `from` up to `to`. */
  ghost predicate AllWork(w: World, from: nat, to: nat) { forall k :: from <= k < to ==> Nth(w, k) == Works }

  /** `after` is `w` some steps later. */
  ghost predicate Past(w: World, n: nat, after: World) { forall k: nat :: Nth(after, k) == Nth(w, n + k) }

  lemma LaterIsPast(w: World)
    ensures Past(w, 1, Later(w)) && NextFate(w) == Nth(w, 0)
  {
  }

  // ---- the keychain alone ---------------------------------------------------------------------------

  /** One set for each of these accounts, in order. */
  ghost predicate AreSets(ops: seq<Secret>, accounts: seq<string>) {
    |ops| == |accounts| && forall k :: 0 <= k < |ops| ==> ops[k] == Set(accounts[k])
  }

  /** In order, the deletes of the accounts whose step works. */
  function Deletes(w: World, from: nat, accounts: seq<string>): seq<Secret> {
    if accounts == [] then []
    else
      var k := |accounts| - 1;
      Deletes(w, from, accounts[..k]) + if Nth(w, from + k) == Works then [Delete(accounts[k])] else []
  }

  /** The first of these steps that does not work; `n` when all do. */
  ghost predicate FirstTrouble(w: World, from: nat, n: nat, k: nat) {
    k <= n && AllWork(w, from, from + k) && (k < n ==> Nth(w, from + k) != Works)
  }

  lemma {:induction false} StoresUntilTrouble(w: World, sets: seq<string>) returns (n: nat, ops: seq<Secret>)
    ensures FirstTrouble(w, 0, |sets|, n) && AreSets(ops, sets[..n])
    ensures var s := StoreSecrets(w, sets);
            && s.w.disk == w.disk && s.w.secrets == w.secrets + ops
            && s.dead == (n < |sets| && Nth(w, n) == Dies) && s.failed == (n < |sets| && Nth(w, n) == Fails)
            && (n == |sets| ==> Past(w, n, s.w))
    decreases |sets|
  {
    LaterIsPast(w);
    if sets == [] || NextFate(w) != Works {
      n, ops := 0, [];
      assert w.secrets + [] == w.secrets;
    } else {
      var next := Later(w).(secrets := w.secrets + [Set(sets[0])]);
      var m, more := StoresUntilTrouble(next, sets[1..]);
      n, ops := m + 1, [Set(sets[0])] + more;
      hide Nth, AllWork, FirstTrouble, AreSets, Past;
      TroubleShift(w, next, |sets| - 1, m);
      assert w.secrets + ops == next.secrets + more;
      assert sets[..n] == [sets[0]] + sets[1..][..m];
      OneMoreSet(more, sets[0], sets[1..][..m]);
      if n == |sets| { PastShift(w, next, m, StoreSecrets(w, sets).w); }
    }
  }

  lemma TroubleShift(w: World, next: World, size: nat, m: nat)
    requires next.fates == Later(w).fates && NextFate(w) == Works && FirstTrouble(next, 0, size, m)
    ensures FirstTrouble(w, 0, size + 1, m + 1) && Nth(w, m + 1) == Nth(next, m)
  {
    assert forall k: nat :: Nth(next, k) == Nth(w, k + 1);
    forall k: nat | k < m + 1 ensures Nth(w, k) == Works { if k > 0 { assert Nth(next, k - 1) == Works; } }
  }

  lemma OneMoreSet(ops: seq<Secret>, first: string, accounts: seq<string>)
    requires AreSets(ops, accounts)
    ensures AreSets([Set(first)] + ops, [first] + accounts)
  {
  }

  lemma DeletesShift(w: World, after: World, first: string, rest: seq<string>)
    requires Past(w, 1, after)
    ensures Deletes(w, 0, [first] + rest) ==
            (if Nth(w, 0) == Works then [Delete(first)] else []) + Deletes(after, 0, rest)
    decreases |rest|
  {
    var all := [first] + rest;
    if rest == [] {
      assert all[..0] == [];
    } else {
      assert all[..|all| - 1] == [first] + rest[..|rest| - 1];
      DeletesShift(w, after, first, rest[..|rest| - 1]);
      assert Nth(after, |rest| - 1) == Nth(w, |rest|);
    }
  }

  /** The first step the process does not survive; `n` when it survives all. */
  ghost predicate FirstDeath(w: World, from: nat, n: nat, k: nat) {
    k <= n && (forall j :: from <= j < from + k ==> Nth(w, j) != Dies) && (k < n ==> Nth(w, from + k) == Dies)
  }

  ghost predicate SomeFail(w: World, from: nat, n: nat) { exists k :: from <= k < from + n && Nth(w, k) == Fails }

  lemma SomeFailShift(w: World, after: World, n: nat)
    requires Past(w, 1, after)
    ensures SomeFail(w, 0, n + 1) <==> Nth(w, 0) == Fails || SomeFail(after, 0, n)
  {
    assert forall k: nat :: Nth(after, k) == Nth(w, k + 1);
    if SomeFail(w, 0, n + 1) {
      var k :| 0 <= k < n + 1 && Nth(w, k) == Fails;
      if k > 0 { assert Nth(after, k - 1) == Fails; }
    }
    if k :| 0 <= k < n && Nth(after, k) == Fails { assert Nth(w, k + 1) == Fails; }
  }

  lemma FirstDeathShift(w: World, after: World, n: nat, k: nat)
    requires Past(w, 1, after) && Nth(w, 0) != Dies && FirstDeath(after, 0, n, k)
    ensures FirstDeath(w, 0, n + 1, k + 1)
  {
    assert forall j: nat :: Nth(after, j) == Nth(w, j + 1);
    assert forall j :: 1 <= j < k + 1 ==> Nth(w, j) == Nth(after, j - 1);
  }

  lemma PastShift(w: World, after: World, n: nat, last: World)
    requires Past(w, 1, after) && Past(after, n, last)
    ensures Past(w, n + 1, last)
  {
    forall k: nat ensures Nth(last, k) == Nth(w, n + 1 + k) { assert Nth(after, n + k) == Nth(w, 1 + (n + k)); }
  }

  lemma {:induction false} DropsUntilDeath(w: World, dels: seq<string>, failed: bool) returns (n: nat)
    ensures FirstDeath(w, 0, |dels|, n)
    ensures var s := DropSecrets(w, dels, failed);
            && s.w.disk == w.disk && s.w.secrets == w.secrets + Deletes(w, 0, dels[..n])
            && s.dead == (n < |dels|) && s.failed == (failed || SomeFail(w, 0, n))
            && (n == |dels| ==> Past(w, n, s.w))
    decreases |dels|
  {
    LaterIsPast(w);
    if dels == [] || NextFate(w) == Dies {
      n := 0;
      assert dels[..0] == [] && w.secrets + [] == w.secrets;
    } else {
      hide Nth, Past, SomeFail, FirstDeath, Deletes;
      var first := if NextFate(w) == Works then [Delete(dels[0])] else [];
      var next := Later(w).(secrets := w.secrets + first);
      NextPast(w, next);
      var m := DropsUntilDeath(next, dels[1..], failed || NextFate(w) == Fails);
      n := m + 1;
      DropStep(w, dels, failed);
      FirstDeathShift(w, next, |dels| - 1, m);
      SomeFailShift(w, next, m);
      assert dels[..n] == [dels[0]] + dels[1..][..m];
      DeletesShift(w, next, dels[0], dels[1..][..m]);
      Regrouped(w.secrets, first, Deletes(next, 0, dels[1..][..m]));
      if m == |dels| - 1 { PastShift(w, next, m, DropSecrets(w, dels, failed).w); }
    }
  }

  lemma NextPast(w: World, next: World)
    requires next.fates == Later(w).fates
    ensures Past(w, 1, next)
  {
  }

  lemma Regrouped(a: seq<Secret>, b: seq<Secret>, c: seq<Secret>)
    ensures (a + b) + c == a + (b + c)
  {
  }

  lemma DropStep(w: World, dels: seq<string>, failed: bool)
    requires dels != [] && NextFate(w) != Dies
    ensures var first := if NextFate(w) == Works then [Delete(dels[0])] else [];
            DropSecrets(w, dels, failed) ==
            DropSecrets(Later(w).(secrets := w.secrets + first), dels[1..], failed || NextFate(w) == Fails)
  {
    if NextFate(w) == Fails { assert w.secrets + [] == w.secrets; }
  }

  // ---- the files before it ----------------------------------------------------------------------------

  /** As many steps as the files took: done exactly if all of them worked. */
  ghost predicate Taken(w: World, n: nat, s: Step) {
    && s.w.secrets == w.secrets
    && (s.status == Done <==> AllWork(w, 0, n)) && (s.status == Done ==> Past(w, n, s.w))
  }

  lemma NothingTaken(w: World)
    ensures Taken(w, 0, Step(Done, w))
  {
  }

  lemma OneMoreTaken(w: World, n: nat, s: Step, d: Disk)
    requires Taken(w, n, s) && s.status == Done
    ensures Taken(w, n + 1, Attempt(s.w, d))
  {
    var t := Attempt(s.w, d);
    LaterIsPast(s.w);
    assert Nth(s.w, 0) == Nth(w, n);
    assert AllWork(w, 0, n + 1) <==> Nth(w, n) == Works;
    if t.status == Done {
      forall k: nat ensures Nth(t.w, k) == Nth(w, n + 1 + k) {
        assert Nth(t.w, k) == Nth(Later(s.w), k) == Nth(s.w, k + 1) == Nth(w, n + (k + 1));
      }
    }
  }

  lemma StaysUndone(w: World, n: nat, more: nat, s: Step)
    requires Taken(w, n, s) && s.status != Done && n <= more
    ensures Taken(w, more, s)
  {
  }

  /** Up to the keychain a commit takes the steps of its files; if one does not work it ends there. */
  lemma FilesFirst(w: World, plan: Plan)
    ensures var i := InstallStage(w, PayloadOf(w.disk, plan)).1;
            && i.w.secrets == w.secrets
            && (i.status == Done <==> AllWork(w, 0, FileSteps(plan)))
            && (i.status == Done ==> Past(w, FileSteps(plan), i.w))
    ensures InstallStage(w, PayloadOf(w.disk, plan)).0 != AtKeychain
  {
    var p, all := PayloadOf(w.disk, plan), FileSteps(plan);
    NothingTaken(w);
    if plan.mp.Some? || plan.sp.Some? {
      hide Attempt, AllWork, Past;
      var j := WriteJournal(w, p);
      OneMoreTaken(w, 0, Step(Done, w), w.disk.(journal := Holds(p)));
      if j.status != Done {
        StaysUndone(w, 1, all, j);
      } else if plan.mp.Some? {
        var a := PutMp(j.w, Some(p.mp.value.candidate));
        OneMoreTaken(w, 1, j, j.w.disk.(mp := Some(p.mp.value.candidate)));
        if a.status != Done {
          StaysUndone(w, 2, all, a);
        } else if plan.sp.Some? {
          OneMoreTaken(w, 2, a, a.w.disk.(sp := Some(p.sp.value.candidate)));
        }
      } else {
        OneMoreTaken(w, 1, j, j.w.disk.(sp := Some(p.sp.value.candidate)));
      }
    }
  }

  lemma UndoSparesKeychain(w: World, p: Payload, stage: Stage)
    ensures Undo(w, p, stage).w.secrets == w.secrets
    ensures Undo(w, p, stage).outcome in {Refused(stage), Died}
  {
  }

  // ---- the commit -------------------------------------------------------------------------------------

  lemma ShiftWork(w: World, from: nat, after: World, n: nat)
    requires Past(w, from, after)
    ensures forall k :: 0 <= k < n ==> Nth(after, k) == Nth(w, from + k)
    ensures AllWork(after, 0, n) <==> AllWork(w, from, from + n)
    ensures SomeFail(after, 0, n) <==> SomeFail(w, from, n)
  {
    assert forall k: nat :: Nth(after, k) == Nth(w, from + k);
    if AllWork(after, 0, n) {
      forall k | from <= k < from + n ensures Nth(w, k) == Works { assert Nth(after, k - from) == Works; }
    }
    if k :| 0 <= k < n && Nth(after, k) == Fails { assert Nth(w, from + k) == Fails; }
    if k :| from <= k < from + n && Nth(w, k) == Fails { assert Nth(after, k - from) == Fails; }
  }

  lemma {:induction false} ShiftDeletes(w: World, from: nat, after: World, dels: seq<string>)
    requires Past(w, from, after)
    ensures Deletes(after, 0, dels) == Deletes(w, from, dels)
    decreases |dels|
  {
    if dels != [] {
      ShiftDeletes(w, from, after, dels[..|dels| - 1]);
      assert Nth(after, |dels| - 1) == Nth(w, from + (|dels| - 1));
    }
  }

  /** Without a keychain, or with files that could not be installed, the keychain is left alone. */
  lemma NoFilesNoKeychain(w: World, plan: Plan)
    requires !plan.ok || !plan.keychain || !AllWork(w, 0, FileSteps(plan))
    ensures Commit(w, plan).w.secrets == w.secrets && Commit(w, plan).outcome != Refused(AtKeychain)
  {
    hide InstallStage, Undo, AllWork;
    FilesFirst(w, plan);
    var p := PayloadOf(w.disk, plan);
    var (stage, i) := InstallStage(w, p);
    UndoSparesKeychain(i.w, p, stage);
  }

  /** The first password that is not stored ends it: those before it are stored, and nothing is deleted. */
  lemma SetsUntilTrouble(w: World, plan: Plan, n: nat) returns (ops: seq<Secret>)
    requires plan.ok && plan.keychain && AllWork(w, 0, FileSteps(plan))
    requires n < |plan.sets| && FirstTrouble(w, FileSteps(plan), |plan.sets|, n)
    ensures Commit(w, plan).w.secrets == w.secrets + ops && AreSets(ops, plan.sets[..n])
    ensures Commit(w, plan).outcome in {Refused(AtKeychain), Died}
    ensures Nth(w, FileSteps(plan) + n) == Dies ==> Commit(w, plan).outcome == Died
  {
    hide InstallStage, Undo, StoreSecrets, DropSecrets;
    var p := PayloadOf(w.disk, plan);
    var (stage, i) := InstallStage(w, p);
    FilesFirst(w, plan);
    var m;
    m, ops := StoresUntilTrouble(i.w, plan.sets);
    SameTrouble(w, FileSteps(plan), i.w, |plan.sets|, n, m);
    UndoSparesKeychain(StoreSecrets(i.w, plan.sets).w, p, AtKeychain);
  }

  lemma SameTrouble(w: World, from: nat, after: World, size: nat, n: nat, m: nat)
    requires Past(w, from, after) && FirstTrouble(w, from, size, n) && FirstTrouble(after, 0, size, m)
    ensures n == m && (n < size ==> Nth(after, n) == Nth(w, from + n))
  {
    assert forall k: nat :: Nth(after, k) == Nth(w, from + k);
    assert n < m ==> Nth(after, n) == Works;
    var there := Nth(w, from + m);
    assert m < n ==> there == Works;
  }

  lemma SameDeath(w: World, from: nat, after: World, size: nat, n: nat, m: nat)
    requires Past(w, from, after) && FirstDeath(w, from, size, n) && FirstDeath(after, 0, size, m)
    ensures n == m
  {
    assert forall k: nat :: Nth(after, k) == Nth(w, from + k);
    assert n < m ==> Nth(after, n) != Dies;
    var there := Nth(w, from + m);
    assert m < n ==> there != Dies;
  }

  lemma PastPast(w: World, m: nat, v: World, n: nat, u: World)
    requires Past(w, m, v) && Past(v, n, u)
    ensures Past(w, m + n, u)
  {
    forall k: nat ensures Nth(u, k) == Nth(w, m + n + k) { assert Nth(v, n + k) == Nth(w, m + (n + k)); }
  }

  /**
   * Once every password is stored, deletes are attempted up to the end, or the end of the process: those
   * whose step works are carried out; if one fails, the commit is refused, and the others are made still.
   */
  lemma DeletesFollowSets(w: World, plan: Plan, n: nat) returns (ops: seq<Secret>)
    requires plan.ok && plan.keychain && AllWork(w, 0, FileSteps(plan) + |plan.sets|)
    requires FirstDeath(w, FileSteps(plan) + |plan.sets|, |plan.dels|, n)
    ensures var before := FileSteps(plan) + |plan.sets|;
            var c := Commit(w, plan);
            && AreSets(ops, plan.sets) && c.w.secrets == w.secrets + ops + Deletes(w, before, plan.dels[..n])
            && (n < |plan.dels| ==> c.outcome == Died)
            && (n == |plan.dels| && SomeFail(w, before, n) ==> c.outcome in {Refused(AtKeychain), Died})
            && (n == |plan.dels| && !SomeFail(w, before, n) ==> c.outcome in {Saved, Died})
  {
    hide InstallStage, Undo, StoreSecrets, DropSecrets, Deletes, SomeFail;
    var f := FileSteps(plan);
    var p := PayloadOf(w.disk, plan);
    var (stage, i) := InstallStage(w, p);
    FilesFirst(w, plan);
    var m;
    m, ops := StoresUntilTrouble(i.w, plan.sets);
    ShiftWork(w, f, i.w, |plan.sets|);
    assert m == |plan.sets|;
    assert plan.sets[..m] == plan.sets;
    var v := StoreSecrets(i.w, plan.sets).w;
    PastPast(w, f, i.w, m, v);
    var k := DropsUntilDeath(v, plan.dels, false);
    SameDeath(w, f + m, v, |plan.dels|, n, k);
    ShiftDeletes(w, f + m, v, plan.dels[..n]);
    ShiftWork(w, f + m, v, n);
    UndoSparesKeychain(DropSecrets(v, plan.dels, false).w, p, AtKeychain);
  }

  lemma {:induction false} AllDeletes(w: World, from: nat, dels: seq<string>)
    requires AllWork(w, from, from + |dels|)
    ensures |Deletes(w, from, dels)| == |dels|
    ensures forall k :: 0 <= k < |dels| ==> Deletes(w, from, dels)[k] == Delete(dels[k])
    decreases |dels|
  {
    if dels != [] { AllDeletes(w, from, dels[..|dels| - 1]); }
  }

  lemma FindTrouble(w: World, from: nat, size: nat) returns (n: nat)
    ensures n <= size && FirstTrouble(w, from, size, n)
  {
    n := 0;
    while n < size && Nth(w, from + n) == Works
      invariant n <= size && AllWork(w, from, from + n)
    {
      n := n + 1;
    }
  }

  lemma FindDeath(w: World, from: nat, size: nat) returns (n: nat)
    ensures n <= size && FirstDeath(w, from, size, n)
  {
    n := 0;
    while n < size && Nth(w, from + n) != Dies
      invariant n <= size && forall j :: from <= j < from + n ==> Nth(w, j) != Dies
    {
      n := n + 1;
    }
  }

  /** All sets and then all deletes of the plan, in order. */
  ghost predicate Whole(ops: seq<Secret>, plan: Plan) {
    && |ops| == |plan.sets| + |plan.dels|
    && (forall k :: 0 <= k < |plan.sets| ==> ops[k] == Set(plan.sets[k]))
    && forall k :: 0 <= k < |plan.dels| ==> ops[|plan.sets| + k] == Delete(plan.dels[k])
  }

  /**
   * A commit that answers "saved" has set every new password and deleted every old one, once and in order;
   * without a keychain it has touched none.
   */
  lemma SavedIsWhole(w: World, plan: Plan) returns (ops: seq<Secret>)
    requires Commit(w, plan).outcome == Saved
    ensures Commit(w, plan).w.secrets == w.secrets + ops
    ensures if plan.keychain then Whole(ops, plan) else ops == []
  {
    hide Commit, AllWork, FirstTrouble, FirstDeath, SomeFail, Deletes;
    var f := FileSteps(plan);
    if !plan.ok || !plan.keychain || !AllWork(w, 0, f) {
      NoFilesNoKeychain(w, plan);
      ops := [];
      OkWithoutFiles(w, plan);
    } else {
      var n := FindTrouble(w, f, |plan.sets|);
      if n < |plan.sets| {
        ops := SetsUntilTrouble(w, plan, n);
      } else {
        AllTheWay(w, f, n);
        var k := FindDeath(w, f + n, |plan.dels|);
        var sets := DeletesFollowSets(w, plan, k);
        NoTrouble(w, f + n, k, |plan.dels|);
        assert plan.dels[..k] == plan.dels;
        AllDeletes(w, f + n, plan.dels);
        ops := sets + Deletes(w, f + n, plan.dels);
        assert w.secrets + sets + Deletes(w, f + n, plan.dels) == w.secrets + ops;
      }
    }
  }

  lemma OkWithoutFiles(w: World, plan: Plan)
    requires Commit(w, plan).outcome == Saved
    ensures plan.ok && AllWork(w, 0, FileSteps(plan))
  {
    hide InstallStage, KeychainStage, Undo, AllWork;
    FilesFirst(w, plan);
    var p := PayloadOf(w.disk, plan);
    var (stage, i) := InstallStage(w, p);
    UndoSparesKeychain(i.w, p, stage);
  }

  lemma AllTheWay(w: World, m: nat, n: nat)
    requires AllWork(w, 0, m) && FirstTrouble(w, m, n, n)
    ensures AllWork(w, 0, m + n)
  {
  }

  lemma NoTrouble(w: World, from: nat, n: nat, size: nat)
    requires FirstDeath(w, from, size, n)
    ensures n == size && !SomeFail(w, from, n) ==> AllWork(w, from, from + size)
  {
    if n == size && !SomeFail(w, from, n) {
      forall k | from <= k < from + size ensures Nth(w, k) == Works {
        assert Nth(w, k) != Dies;
        assert Nth(w, k) != Fails;
      }
    }
  }

  /** Deletes stand behind all the sets, if there are any. */
  ghost predicate SetsFirst(ops: seq<Secret>, accounts: seq<string>) {
    forall k :: 0 <= k < |ops| && ops[k].Delete? ==> |accounts| <= k && AreSets(ops[..|accounts|], accounts)
  }

  lemma SetsAlone(ops: seq<Secret>, done: seq<string>, accounts: seq<string>)
    requires AreSets(ops, done)
    ensures SetsFirst(ops, accounts)
  {
  }

  lemma SetsThenDeletes(sets: seq<Secret>, more: seq<Secret>, accounts: seq<string>)
    requires AreSets(sets, accounts)
    ensures SetsFirst(sets + more, accounts)
  {
    assert (sets + more)[..|accounts|] == sets;
    forall k | 0 <= k < |accounts| ensures (sets + more)[k].Set? { assert (sets + more)[k] == sets[k]; }
  }

  /** However a commit ends: it has deleted nothing unless every new password was stored before. */
  lemma OldPasswordsOutliveFailures(w: World, plan: Plan) returns (ops: seq<Secret>)
    ensures Commit(w, plan).w.secrets == w.secrets + ops
    ensures SetsFirst(ops, plan.sets)
  {
    hide Commit, AllWork, FirstTrouble, FirstDeath, SomeFail, Deletes, AreSets, SetsFirst;
    var f := FileSteps(plan);
    if !plan.ok || !plan.keychain || !AllWork(w, 0, f) {
      NoFilesNoKeychain(w, plan);
      ops := [];
      NoOps(plan.sets);
    } else {
      var n := FindTrouble(w, f, |plan.sets|);
      if n < |plan.sets| {
        ops := SetsUntilTrouble(w, plan, n);
        SetsAlone(ops, plan.sets[..n], plan.sets);
      } else {
        AllTheWay(w, f, n);
        var k := FindDeath(w, f + n, |plan.dels|);
        var sets := DeletesFollowSets(w, plan, k);
        var more := Deletes(w, f + n, plan.dels[..k]);
        ops := sets + more;
        SetsThenDeletes(sets, more, plan.sets);
        assert w.secrets + sets + more == w.secrets + ops;
      }
    }
  }

  lemma NoOps(accounts: seq<string>)
    ensures SetsFirst([], accounts)
  {
  }
}
