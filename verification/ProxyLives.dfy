/**
 * Whole lives of the controller: syncs, clicks, quits, deaths at any command and restarts. The user's
 * settings are safe while the disk still has them, in force or in the journal.
 */
module ProxyLives {
  import opened Prelude
  import opened SystemProxy
  import opened SystemProxySafety
  import opened ProxyController

  /** What happens next, with the fates of its steps; after the last of them steps work. */
  datatype Event =
    | Syncs(w: World, fates: seq<Fate>)
    | Clicks(w: World, fates: seq<Fate>)
    | Quits(fates: seq<Fate>)
    | Starts(on: bool, fates: seq<Fate>)

  /** No controller means that the program is not running; a start while it runs is a kill before it. */
  datatype Life = Life(running: Option<Controller>, m: Machine)

  predicate Died(o: Outcome) { o == Apply(ApplyDied) || o == Release(ReleaseDied) }

  function Outlived(s: Synced): Life { Life(if Died(s.outcome) then None else Some(s.c), s.m) }

  function Started(on: bool, m: Machine): Life {
    var r := RecoverStale(m);
    var quiet := r.0 == NothingStale || r.0 == Recovered(Released);
    Life(if r.0 == Recovered(ReleaseDied) then None
         else Some(Controller(on, false, None, [], [], if quiet then Quiet else ReleaseError)), r.1)
  }

  function Next(l: Life, e: Event): Life {
    var m := l.m.(fates := e.fates);
    match e
    case Starts(on, _) => Started(on, m)
    case Syncs(w, _) => if l.running.None? then l else Outlived(Converge(l.running.value, m, w))
    case Clicks(w, _) => if l.running.None? then l else Outlived(Converge(Toggled(l.running.value), m, w))
    case Quits(_) => if l.running.None? then l else Life(None, Quit(l.running.value, m).m)
  }

  /** The settings are the user's, or the journal holds them and nothing else was touched. */
  ghost predicate Kept(m: Machine, base: map<string, Service>) {
    || Alike(m.sys, base)
    || (m.journal.Holds? && SnapshotOf(m.journal.original, base) && AlikeOutside(m.sys, base, m.journal.original))
  }

  // ---- the one write that can lose them ---------------------------------------------------------------

  /** A sync that captures anew and gets to write its journal; the machine as that write leaves it. */
  predicate Captures(c: Controller, m: Machine, w: World) {
    && Wanted(c, w) && !c.applied
    && !ReadBack(m, w.services).dead && ReadBack(m, w.services).snap != []
    && NextFate(ReadBack(m, w.services).m).Works?
  }

  function AtCapture(m: Machine, w: World): Machine
    requires w.port.Some?
  {
    var now := ReadBack(m, w.services);
    Later(now.m).(journal := Holds(now.snap, DesiredState(now.snap, HOST, w.port.value, BYPASS)))
  }

  /** The controller that is about to sync, and the world it syncs with, if the event makes it. */
  predicate Converging(l: Life, e: Event) { l.running.Some? && (e.Syncs? || e.Clicks?) }

  function Before(l: Life, e: Event): Controller
    requires Converging(l, e)
  {
    if e.Clicks? then Toggled(l.running.value) else l.running.value
  }

  predicate CapturesAt(l: Life, e: Event) {
    Converging(l, e) && Captures(Before(l, e), l.m.(fates := e.fates), e.w)
  }

  /** Dying right behind the write leaves exactly that machine. */
  lemma DeathAtCapture(c: Controller, m: Machine, w: World)
    requires Captures(c, m, w) && NextFate(AtCapture(m, w)).Dies?
    ensures Converge(c, m, w).m == Later(AtCapture(m, w)) && Died(Converge(c, m, w).outcome)
  {
    hide RunUntilError, RestoreAll, RunEvery, DesiredState, ReadBack;
    FirstCommand(AtCapture(m, w), ReadBack(m, w.services).snap, w.port.value);
  }

  lemma FirstCommand(m: Machine, snap: Snapshot, port: string)
    requires snap != [] && NextFate(m).Dies?
    ensures RunUntilError(m, ApplyAll(snap, HOST, port, BYPASS)) == Ran(false, true, Later(m))
  {
    var cs := ApplyAll(snap, HOST, port, BYPASS);
    assert cs[0] == SetProxy(snap[0].name, false, HOST, port);
  }

  /** What a fresh capture journals is the user's exactly if the settings still are. */
  lemma CaptureKeeps(m: Machine, w: World, base: map<string, Service>)
    requires UniqueNames(w.services) && w.port.Some? && m.sys.Keys == base.Keys
    ensures Kept(AtCapture(m, w), base) <==> Alike(m.sys, base)
  {
    hide DesiredState;
    ReadBackReads(m, w.services);
    var snap := ReadBack(m, w.services).snap;
    if SnapshotOf(snap, base) && AlikeOutside(m.sys, base, snap) {
      forall n | n in m.sys ensures PlainService(m.sys[n]) == PlainService(base[n]) {
        if Knows(snap, n) {
          var k :| 0 <= k < |snap| && snap[k].name == n;
          assert AsSaved(base, snap[k]);
        }
      }
    }
  }

  // ---- whole lives ------------------------------------------------------------------------------------

  function Final(l: Life, es: seq<Event>): Life
    decreases |es|
  {
    if es == [] then l else Final(Next(l, es[0]), es[1..])
  }

  /** The user's settings are kept behind every event, and behind every journal written for a fresh capture. */
  ghost predicate KeptThroughout(l: Life, es: seq<Event>, base: map<string, Service>)
    decreases |es|
  {
    && Kept(l.m, base)
    && (es != [] ==>
          && (CapturesAt(l, es[0]) ==> Kept(AtCapture(l.m.(fates := es[0].fates), es[0].w), base))
          && KeptThroughout(Next(l, es[0]), es[1..], base))
  }

  /** No fresh capture gets to write its journal while settings differ from the user's. */
  ghost predicate CapturesOnlyTheUsers(l: Life, es: seq<Event>, base: map<string, Service>)
    decreases |es|
  {
    es != [] ==>
      && (CapturesAt(l, es[0]) ==> Alike(l.m.sys, base))
      && CapturesOnlyTheUsers(Next(l, es[0]), es[1..], base)
  }

  /** Network services have one name each. */
  predicate Proper(es: seq<Event>) {
    forall k :: 0 <= k < |es| && (es[k].Syncs? || es[k].Clicks?) ==> UniqueNames(es[k].w.services)
  }

  /** A journal is always the user's; what a controller holds is what the journal holds. */
  ghost predicate LifeInv(l: Life, base: map<string, Service>) {
    && l.m.sys.Keys == base.Keys
    && (match l.m.journal
        case Holds(original, _) => SnapshotOf(original, base) && AlikeOutside(l.m.sys, base, original)
        case _ => Alike(l.m.sys, base))
    && (l.running.Some? ==>
          var c := l.running.value;
          && (c.applied ==> c.snapshot != [])
          && (c.snapshot != [] ==> l.m.journal == Holds(c.snapshot, c.desired)))
  }

  lemma StartKeeps(on: bool, m: Machine, base: map<string, Service>)
    requires LifeInv(Life(None, m), base)
    ensures LifeInv(Started(on, m), base)
  {
    hide ReleaseTransaction;
    if m.journal.Holds? && NextFate(m).Works? {
      var original, desired := m.journal.original, m.journal.desired;
      PresentIn(m.sys, base, original);
      ReleaseKeeps(Later(m), original, desired);
      var r := ReleaseTransaction(Later(m), original, desired);
      OutsideStays(m.sys, r.m.sys, base, original);
      if r.what == Released { RestoredIsAlike(r.m.sys, base, original); }
    }
  }

  /** Letting go of a snapshot of the user's. */
  lemma ReleaseLeaves(m: Machine, original: Snapshot, desired: Snapshot, base: map<string, Service>)
    requires m.journal == Holds(original, desired) && SnapshotOf(original, base) && AlikeOutside(m.sys, base, original)
    ensures var r := ReleaseTransaction(m, original, desired);
            && r.m.sys.Keys == base.Keys && AlikeOutside(r.m.sys, base, original)
            && (r.what == Released ==> r.m.journal == NoJournal && Alike(r.m.sys, base))
            && (r.what != Released ==> r.m.journal == m.journal)
  {
    hide ReleaseTransaction;
    PresentIn(m.sys, base, original);
    ReleaseKeeps(m, original, desired);
    var r := ReleaseTransaction(m, original, desired);
    OutsideStays(m.sys, r.m.sys, base, original);
    if r.what == Released { RestoredIsAlike(r.m.sys, base, original); }
  }

  lemma LetGoLives(c: Controller, m: Machine, base: map<string, Service>)
    requires LifeInv(Life(Some(c), m), base) && c.snapshot != []
    ensures LifeInv(Outlived(LetGo(c, m)), base) && LifeInv(Life(None, Quit(c, m).m), base)
  {
    hide ReleaseTransaction;
    ReleaseLeaves(m, c.snapshot, c.desired, base);
  }

  /** Applying from a snapshot of the user's. */
  lemma ApplyLeaves(m: Machine, port: string, original: Snapshot, base: map<string, Service>)
    requires original != [] && SnapshotOf(original, base) && AlikeOutside(m.sys, base, original)
    ensures var r := ApplyTransaction(m, HOST, port, BYPASS, original);
            && r.m.sys.Keys == base.Keys && AlikeOutside(r.m.sys, base, original)
            && ApplyPromise(m, original, r) && !r.what.NothingToDo?
            && (r.what == RolledBack ==> Alike(r.m.sys, base))
  {
    hide ApplyTransaction;
    PresentIn(m.sys, base, original);
    ApplyKeeps(m, HOST, port, BYPASS, original);
    AppliedState(m, HOST, port, BYPASS, original);
    var r := ApplyTransaction(m, HOST, port, BYPASS, original);
    OutsideStays(m.sys, r.m.sys, base, original);
    if r.what == RolledBack { RestoredIsAlike(r.m.sys, base, original); }
  }

  lemma TakeHoldLives(c: Controller, m: Machine, port: string, base: map<string, Service>)
    requires LifeInv(Life(None, m), base) && c.snapshot != []
    requires SnapshotOf(c.snapshot, base) && AlikeOutside(m.sys, base, c.snapshot)
    ensures LifeInv(Outlived(TakeHold(c, m, port)), base)
  {
    hide ApplyTransaction, SnapshotOf, AlikeOutside, Alike, AllAsSaved, AllAsDesired;
    ApplyLeaves(m, port, c.snapshot, base);
  }

  /** A capture whose journal was never written has changed nothing. */
  lemma NoCapture(c: Controller, m: Machine, port: string)
    requires c.snapshot != [] && !NextFate(m).Works?
    ensures var s := TakeHold(c, m, port);
            s.m == Later(m) && (Died(s.outcome) || (s.c.snapshot == [] && !s.c.applied))
  {
  }

  lemma ConvergeLives(c: Controller, m: Machine, w: World, base: map<string, Service>)
    requires LifeInv(Life(Some(c), m), base) && UniqueNames(w.services)
    requires Captures(c, m, w) ==> Alike(m.sys, base)
    ensures LifeInv(Outlived(Converge(c, m, w)), base)
  {
    hide TakeHold, LetGo, ReadBack;
    var c1 := if w.port.None? && c.on then c.(error := BadPort) else c;
    if Wanted(c, w) && (!c.applied || c.target != w.port) {
      if c.applied {
        TakeHoldLives(c1, m, w.port.value, base);
      } else {
        ReadBackReads(m, w.services);
        var now := ReadBack(m, w.services);
        if !now.dead && now.snap != [] {
          var c2 := c1.(snapshot := now.snap);
          if NextFate(now.m).Works? {
            FreshSnapshot(m, w.services, base);
            TakeHoldLives(c2, now.m, w.port.value, base);
          } else {
            NoCapture(c2, now.m, w.port.value);
          }
        }
      }
    } else if !Wanted(c, w) && c.snapshot != [] {
      LetGoLives(c1, m, base);
    }
  }

  lemma NextLives(l: Life, e: Event, base: map<string, Service>)
    requires LifeInv(l, base) && Proper([e]) && (CapturesAt(l, e) ==> Alike(l.m.sys, base))
    ensures LifeInv(Next(l, e), base)
  {
    hide Converge, Started, Quit;
    var m := l.m.(fates := e.fates);
    assert [e][0] == e;
    if e.Starts? {
      StartKeeps(e.on, m, base);
    } else if Converging(l, e) {
      ConvergeLives(Before(l, e), m, e.w, base);
    } else if l.running.Some? {
      QuitLives(l.running.value, m, base);
    }
  }

  lemma QuitLives(c: Controller, m: Machine, base: map<string, Service>)
    requires LifeInv(Life(Some(c), m), base)
    ensures LifeInv(Life(None, Quit(c, m).m), base)
  {
    if c.snapshot != [] { LetGoLives(c, m, base); }
  }

  /**
   * Over every life, with deaths at any command, failed rollbacks, refused recoveries and restarts:
   * the user's settings are kept throughout if and only if no fresh capture is journalled while
   * settings differ from them.
   */
  lemma {:induction false} KeptWhenCapturesAreTheUsers(l: Life, es: seq<Event>, base: map<string, Service>)
    requires LifeInv(l, base) && Proper(es)
    ensures KeptThroughout(l, es, base) <==> CapturesOnlyTheUsers(l, es, base)
    decreases |es|
  {
    hide Next, CapturesAt;
    if es != [] {
      var e := es[0];
      assert forall k :: 0 <= k < |es[1..]| ==> es[1..][k] == es[k + 1];
      assert [e][0] == e;
      CaptureAtKeeps(l, e, base);
      if CapturesAt(l, e) ==> Alike(l.m.sys, base) {
        NextLives(l, e, base);
        KeptWhenCapturesAreTheUsers(Next(l, e), es[1..], base);
      }
    }
  }

  lemma CaptureAtKeeps(l: Life, e: Event, base: map<string, Service>)
    requires LifeInv(l, base) && Proper([e])
    ensures CapturesAt(l, e) ==> e.w.port.Some?
    ensures CapturesAt(l, e) ==> (Kept(AtCapture(l.m.(fates := e.fates), e.w), base) <==> Alike(l.m.sys, base))
  {
    hide ReadBack, AtCapture;
    assert [e][0] == e;
    if CapturesAt(l, e) { CaptureKeeps(l.m.(fates := e.fates), e.w, base); }
  }

  /** No fresh capture gets to write over a journal. */
  ghost predicate CapturesOverNoJournal(l: Life, es: seq<Event>)
    decreases |es|
  {
    es != [] ==> (CapturesAt(l, es[0]) ==> !l.m.journal.Holds?) && CapturesOverNoJournal(Next(l, es[0]), es[1..])
  }

  /** So refusing to capture while a journal is there would keep them in every life. */
  lemma {:induction false} NoJournalNoLoss(l: Life, es: seq<Event>, base: map<string, Service>)
    requires LifeInv(l, base) && Proper(es) && CapturesOverNoJournal(l, es)
    ensures KeptThroughout(l, es, base)
    decreases |es|
  {
    hide Next, CapturesAt;
    if es != [] {
      assert forall k :: 0 <= k < |es[1..]| ==> es[1..][k] == es[k + 1];
      assert [es[0]][0] == es[0];
      CaptureAtKeeps(l, es[0], base);
      NextLives(l, es[0], base);
      NoJournalNoLoss(Next(l, es[0]), es[1..], base);
    }
  }

  /**
   * A running controller that holds nothing in force captures at its next wanted sync, over whatever
   * journal there is. If settings are not the user's then, the disk no longer has the user's: after a
   * refused recovery, and after a failed rollback and one more click.
   */
  lemma StaleJournalIsOverwritten(l: Life, e: Event, base: map<string, Service>)
    requires LifeInv(l, base) && Proper([e]) && Converging(l, e) && e.fates == []
    requires Wanted(Before(l, e), e.w) && !l.running.value.applied
    requires e.w.services != [] && e.w.services[0] in l.m.sys && !Alike(l.m.sys, base)
    ensures CapturesAt(l, e) && !Kept(AtCapture(l.m.(fates := []), e.w), base) && !KeptThroughout(l, [e], base)
  {
    CaptureAtKeeps(l, e, base);
    var m := l.m.(fates := []);
    NoFates(m, e.w.services);
    assert ReadBack(m, e.w.services).snap != [];
  }

  lemma {:induction false} NoFates(m: Machine, names: seq<string>)
    requires m.fates == []
    ensures !ReadBack(m, names).dead && ReadBack(m, names).m == m
    decreases |names|
  {
    if names != [] {
      assert Later(m) == m;
      NoFates(m, names[1..]);
    }
  }

  /**
   * Such a life: the program dies between two commands of its first apply, recovery refuses the half
   * set service, and the next sync journals it as the original.
   */
  lemma CrashThenSyncLosesSettings(port: string, was: Service)
    requires was.web == Proxy(true, "corp", "80") && was.secure != Proxy(true, HOST, port)
    ensures var base := map["Wi-Fi" := was];
            var w := World(true, false, Some(port), ["Wi-Fi"]);
            var es := [Starts(true, []), Syncs(w, [Works, Works, Works, Dies]), Starts(true, []), Syncs(w, [])];
            !KeptThroughout(Life(None, Machine(base, NoJournal, [])), es, base)
  {
    var base := map["Wi-Fi" := was];
    var w := World(true, false, Some(port), ["Wi-Fi"]);
    var l0 := Life(None, Machine(base, NoJournal, []));
    var crash, sync := Syncs(w, [Works, Works, Works, Dies]), Syncs(w, []);
    var es := [Starts(true, []), crash, Starts(true, []), sync];
    var c := Controller(true, false, None, [], [], Quiet);
    var l1 := Life(Some(c), l0.m);
    var l2 := HalfSet(c, w, port, was);
    assert es[1..] == [crash, es[2], sync] && es[1..][1..] == [es[2], sync] && es[1..][1..][1..] == [sync];
    hide Converge, RecoverStale, KeptThroughout, Alike, LifeInv, Captures, Wanted;
    FreshStart(l0);
    assert Next(l1, crash) == l2;
    var l3 := RefusedStart(l2, base);
    WantedNow(l3, sync);
    StaleJournalIsOverwritten(l3, sync, base);
    if KeptThroughout(l0, es, base) { Unfold(l0, es, base); }
  }

  /** A start whose recovery refuses runs on, with the half set service and the journal as they are. */
  lemma RefusedStart(l: Life, base: map<string, Service>) returns (after: Life)
    requires LifeInv(l, base) && l.m.fates == []
    requires RecoverStale(l.m) == (Recovered(ChangedExternally), l.m)
    ensures after == Next(l, Starts(true, [])) && LifeInv(after, base) && after.m == l.m
    ensures after.running == Some(Controller(true, false, None, [], [], ReleaseError))
  {
    hide RecoverStale, Alike;
    StartKeeps(true, l.m, base);
    assert l.m.(fates := []) == l.m;
    after := Next(l, Starts(true, []));
  }

  lemma WantedNow(l: Life, e: Event)
    requires Converging(l, e) && e.Syncs? && l.running.value.on && e.w.connected && !e.w.paused && e.w.port.Some?
    ensures Wanted(Before(l, e), e.w)
  {
  }

  lemma FreshStart(l: Life)
    requires l.m.journal == NoJournal && l.m.fates == []
    ensures Next(l, Starts(true, [])) == Life(Some(Controller(true, false, None, [], [], Quiet)), l.m)
  {
  }

  lemma Unfold(l: Life, es: seq<Event>, base: map<string, Service>)
    requires |es| == 4 && KeptThroughout(l, es, base)
    ensures KeptThroughout(Next(Next(Next(l, es[0]), es[1]), es[2]), [es[3]], base)
  {
    hide Next, Kept;
    var l1 := Next(l, es[0]);
    var l2 := Next(l1, es[1]);
    assert KeptThroughout(l1, es[1..], base);
    assert es[1..][0] == es[1] && es[1..][1..] == es[2..];
    assert KeptThroughout(l2, es[2..], base);
    assert es[2..][0] == es[2] && es[2..][1..] == [es[3]];
  }

  /** The half set service, and what the disk says of it. */
  lemma HalfSet(c: Controller, w: World, port: string, was: Service) returns (l: Life)
    requires c == Controller(true, false, None, [], [], Quiet) && w == World(true, false, Some(port), ["Wi-Fi"])
    requires was.web == Proxy(true, "corp", "80") && was.secure != Proxy(true, HOST, port)
    ensures var base := map["Wi-Fi" := was];
            && l == Outlived(Converge(c, Machine(base, NoJournal, [Works, Works, Works, Dies]), w)) && l.running == None
            && LifeInv(l, base) && !Alike(l.m.sys, base) && "Wi-Fi" in l.m.sys
            && l.m.fates == [] && RecoverStale(l.m) == (Recovered(ChangedExternally), l.m)
  {
    hide RunUntilError, RunEvery, RestoreAll, ApplyAll, DesiredState;
    var base := map["Wi-Fi" := was];
    var m := Machine(base, NoJournal, [Works, Works, Works, Dies]);
    var original := [Saved("Wi-Fi", was)];
    assert w.services[1..] == [];
    assert ReadBack(Later(m), []) == Captured([], false, Later(m));
    assert ReadBack(m, w.services).snap == original && ReadBack(m, w.services).m == Later(m);
    assert Later(m) == Machine(base, NoJournal, [Works, Works, Dies]);
    CrashInsideApplyIsRefused(HOST, port, BYPASS, was);
    l := Outlived(Converge(c, m, w));
    ConvergeLives(c, m, w, base);
    assert l.m == ApplyTransaction(Later(m), HOST, port, BYPASS, original).m;
    assert !AsSaved(l.m.sys, original[0]);
  }
}
