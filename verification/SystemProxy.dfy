/**
 * The system-proxy transaction: snapshot, journal, apply, compare, restore. Every command can
 * work, fail, take effect and yet be reported as failed, or be the one before which we die.
 */
module SystemProxy {

  datatype Proxy = Proxy(enabled: bool, host: string, port: string)
  datatype Service = Service(web: Proxy, secure: Proxy, bypass: seq<string>)
  datatype Saved = Saved(name: string, service: Service)

  /** Services in the order of the captured dictionary. */
  type Snapshot = seq<Saved>

  datatype Journal = NoJournal | Unreadable | Holds(original: Snapshot, desired: Snapshot)
  datatype Fate = Works | Fails | Lost | Dies

  /** Network settings, the recovery journal, and the fates of the steps to come. */
  datatype Machine = Machine(sys: map<string, Service>, journal: Journal, fates: seq<Fate>)

  datatype Command =
    | SetProxy(svc: string, secure: bool, host: string, port: string)
    | SetState(svc: string, secure: bool, on: bool)
    | SetBypass(svc: string, domains: seq<string>)

  function Turned(p: Proxy, on: bool): Proxy { p.(enabled := on) }

  function Effect(sys: map<string, Service>, c: Command): map<string, Service> {
    if c.svc !in sys then sys
    else
      var s := sys[c.svc];
      sys[c.svc := match c
          case SetProxy(_, secure, host, port) =>
            if secure then s.(secure := Proxy(s.secure.enabled, host, port))
            else s.(web := Proxy(s.web.enabled, host, port))
          case SetState(_, secure, on) =>
            if secure then s.(secure := Turned(s.secure, on)) else s.(web := Turned(s.web, on))
          case SetBypass(_, domains) => s.(bypass := if domains == ["Empty"] then [] else domains)]
  }

  function NextFate(m: Machine): Fate { if m.fates == [] then Works else m.fates[0] }
  function Later(m: Machine): Machine { m.(fates := if m.fates == [] then [] else m.fates[1..]) }

  /** `ok` is what the command reports; `dead` that we never got to issue it. */
  datatype Ran = Ran(ok: bool, dead: bool, m: Machine)

  function RunCommand(m: Machine, c: Command): Ran {
    match NextFate(m)
    case Works => Ran(true, false, Later(m).(sys := Effect(m.sys, c)))
    case Lost => Ran(false, false, Later(m).(sys := Effect(m.sys, c)))
    case Fails => Ran(false, false, Later(m))
    case Dies => Ran(false, true, Later(m))
  }

  /** Stop at the first failure. */
  function RunUntilError(m: Machine, cs: seq<Command>): Ran
    decreases |cs|
  {
    if cs == [] then Ran(true, false, m)
    else
      var r := RunCommand(m, cs[0]);
      if r.dead || !r.ok then r else RunUntilError(r.m, cs[1..])
  }

  /** Run them all and remember whether any failed. */
  function RunEvery(m: Machine, cs: seq<Command>): Ran
    decreases |cs|
  {
    if cs == [] then Ran(true, false, m)
    else
      var r := RunCommand(m, cs[0]);
      if r.dead then r
      else
        var t := RunEvery(r.m, cs[1..]);
        Ran(r.ok && t.ok, t.dead, t.m)
  }

  function ApplyTo(svc: string, host: string, port: string, bypass: seq<string>): seq<Command> {
    [SetProxy(svc, false, host, port), SetState(svc, false, true),
     SetProxy(svc, true, host, port), SetState(svc, true, true),
     SetBypass(svc, if bypass == [] then ["Empty"] else bypass)]
  }

  function ApplyAll(snap: Snapshot, host: string, port: string, bypass: seq<string>): seq<Command> {
    if snap == [] then [] else ApplyTo(snap[0].name, host, port, bypass) + ApplyAll(snap[1..], host, port, bypass)
  }

  function RestoreProxy(svc: string, secure: bool, p: Proxy): seq<Command> {
    if p.enabled then [SetProxy(svc, secure, p.host, p.port), SetState(svc, secure, true)]
    else [SetState(svc, secure, false)]
  }

  function RestoreTo(e: Saved): seq<Command> {
    RestoreProxy(e.name, false, e.service.web) + RestoreProxy(e.name, true, e.service.secure)
    + [SetBypass(e.name, if e.service.bypass == [] then ["Empty"] else e.service.bypass)]
  }

  function RestoreAll(snap: Snapshot): seq<Command> {
    if snap == [] then [] else RestoreTo(snap[0]) + RestoreAll(snap[1..])
  }

  /** What a capture read, whether we died in it, and what was left. */
  datatype Captured = Captured(snap: Snapshot, dead: bool, m: Machine)

  /** Capture the named services; one that cannot be read is left out. */
  function ReadBack(m: Machine, names: seq<string>): Captured
    decreases |names|
  {
    if names == [] then Captured([], false, m)
    else if NextFate(m).Dies? then Captured([], true, Later(m))
    else
      var c := ReadBack(Later(m), names[1..]);
      if NextFate(m).Works? && names[0] in m.sys then c.(snap := [Saved(names[0], m.sys[names[0]])] + c.snap) else c
  }

  function Names(snap: Snapshot): seq<string> {
    if snap == [] then [] else [snap[0].name] + Names(snap[1..])
  }

  function DesiredState(snap: Snapshot, host: string, port: string, bypass: seq<string>): Snapshot {
    if snap == [] then []
    else
      [Saved(snap[0].name, Service(Proxy(true, host, port), Proxy(true, host, port), bypass))]
      + DesiredState(snap[1..], host, port, bypass)
  }

  predicate Has(snap: Snapshot, e: Saved) {
    exists k :: 0 <= k < |snap| && Same(snap[k], e)
  }

  /** Same name, same proxies, same bypass domains in any order. */
  predicate Same(a: Saved, b: Saved) {
    a.name == b.name && a.service.web == b.service.web && a.service.secure == b.service.secure
    && multiset(a.service.bypass) == multiset(b.service.bypass)
  }

  predicate Knows(snap: Snapshot, name: string) { exists k :: 0 <= k < |snap| && snap[k].name == name }

  /** `_state_matches`: the same services, each of them the same. */
  predicate StateMatches(current: Snapshot, expected: Snapshot) {
    (forall k :: 0 <= k < |current| ==> Knows(expected, current[k].name))
    && (forall k :: 0 <= k < |expected| ==> Has(current, expected[k]))
  }

  datatype Applying =
    NothingToDo | JournalFailed | Applied(desired: Snapshot)
    | RolledBack | RollbackFailed(desired: Snapshot) | ApplyDied
  datatype ApplyResult = ApplyResult(what: Applying, m: Machine)

  /** What an apply does once a command has failed. */
  function RollBack(m: Machine, original: Snapshot, desired: Snapshot): ApplyResult {
    var b := RunEvery(m, RestoreAll(original));
    if b.dead then ApplyResult(ApplyDied, b.m)
    else if !b.ok then ApplyResult(RollbackFailed(desired), b.m)
    else if NextFate(b.m).Works? then ApplyResult(RolledBack, Later(b.m).(journal := NoJournal))
    else ApplyResult(ApplyDied, Later(b.m))
  }

  function ApplyTransaction(m: Machine, host: string, port: string, bypass: seq<string>,
                            original: Snapshot): ApplyResult {
    if original == [] then ApplyResult(NothingToDo, m)
    else
      var desired := DesiredState(original, host, port, bypass);
      match NextFate(m)
      case Dies => ApplyResult(ApplyDied, Later(m))
      case Fails => ApplyResult(JournalFailed, Later(m))
      case Lost => ApplyResult(JournalFailed, Later(m))
      case Works =>
        var r := RunUntilError(Later(m).(journal := Holds(original, desired)), ApplyAll(original, host, port, bypass));
        if r.dead then ApplyResult(ApplyDied, r.m)
        else if r.ok then ApplyResult(Applied(desired), r.m)
        else RollBack(r.m, original, desired)
  }

  datatype Releasing = Released | ChangedExternally | RestoreFailed | ReleaseDied
  datatype ReleaseResult = ReleaseResult(what: Releasing, m: Machine)

  function ReleaseTransaction(m: Machine, original: Snapshot, desired: Snapshot): ReleaseResult {
    var now := ReadBack(m, Names(original));
    if now.dead then ReleaseResult(ReleaseDied, now.m)
    else if !StateMatches(now.snap, desired) then ReleaseResult(ChangedExternally, now.m)
    else
      var b := RunEvery(now.m, RestoreAll(original));
      if b.dead then ReleaseResult(ReleaseDied, b.m)
      else if !b.ok then ReleaseResult(RestoreFailed, b.m)
      else if NextFate(b.m).Works? then ReleaseResult(Released, Later(b.m).(journal := NoJournal))
      else ReleaseResult(ReleaseDied, Later(b.m))
  }

  datatype Recovering = NothingStale | BadJournal | Recovered(outcome: Releasing)

  function RecoverStale(m: Machine): (Recovering, Machine) {
    match m.journal
    case NoJournal => (NothingStale, m)
    case Unreadable => (BadJournal, m)
    case Holds(original, desired) =>
      match NextFate(m)
      case Works => var r := ReleaseTransaction(Later(m), original, desired); (Recovered(r.what), r.m)
      case Dies => (Recovered(ReleaseDied), Later(m))
      case Fails => (BadJournal, Later(m))
      case Lost => (BadJournal, Later(m))
  }

  // ---- what a service is, up to the address of a proxy that is off ------------------------------

  function Plain(p: Proxy): Proxy { if p.enabled then p else Proxy(false, "", "") }

  function PlainService(s: Service): Service {
    Service(Plain(s.web), Plain(s.secure), if s.bypass == ["Empty"] then [] else s.bypass)
  }

  ghost predicate AsSaved(sys: map<string, Service>, e: Saved) {
    e.name in sys && PlainService(sys[e.name]) == PlainService(e.service)
  }

  /** Every captured service is as it was captured. */
  ghost predicate AllAsSaved(sys: map<string, Service>, snap: Snapshot) {
    forall k :: 0 <= k < |snap| ==> AsSaved(sys, snap[k])
  }

  ghost predicate Distinct(snap: Snapshot) {
    forall i, j :: 0 <= i < j < |snap| ==> snap[i].name != snap[j].name
  }

  /** If anything differs from the snapshot, the journal on disk holds that snapshot. */
  ghost predicate Covered(m: Machine, original: Snapshot) {
    AllAsSaved(m.sys, original) || (m.journal.Holds? && m.journal.original == original)
  }

  /** Nothing but the named services was touched. */
  ghost predicate OnlyTouches(before: map<string, Service>, after: map<string, Service>, snap: Snapshot) {
    && after.Keys == before.Keys
    && forall n :: n in before && (forall k :: 0 <= k < |snap| ==> snap[k].name != n) ==> after[n] == before[n]
  }

  ghost predicate For(cs: seq<Command>, snap: Snapshot) {
    forall i :: 0 <= i < |cs| ==> Knows(snap, cs[i].svc)
  }

  lemma EffectTouches(sys: map<string, Service>, c: Command, snap: Snapshot)
    requires Knows(snap, c.svc)
    ensures OnlyTouches(sys, Effect(sys, c), snap)
  {
    assert Effect(sys, c).Keys == sys.Keys;
  }

  lemma TouchesTwice(a: map<string, Service>, b: map<string, Service>, c: map<string, Service>, snap: Snapshot)
    requires OnlyTouches(a, b, snap) && OnlyTouches(b, c, snap)
    ensures OnlyTouches(a, c, snap)
  {
  }

  lemma RunTouches(m: Machine, c: Command, snap: Snapshot)
    requires Knows(snap, c.svc)
    ensures OnlyTouches(m.sys, RunCommand(m, c).m.sys, snap) && RunCommand(m, c).m.journal == m.journal
  {
    EffectTouches(m.sys, c, snap);
  }

  lemma {:induction false} RunsTouch(m: Machine, cs: seq<Command>, snap: Snapshot)
    requires For(cs, snap)
    ensures OnlyTouches(m.sys, RunUntilError(m, cs).m.sys, snap) && RunUntilError(m, cs).m.journal == m.journal
    ensures OnlyTouches(m.sys, RunEvery(m, cs).m.sys, snap) && RunEvery(m, cs).m.journal == m.journal
    decreases |cs|
  {
    if cs != [] {
      var r := RunCommand(m, cs[0]);
      assert Knows(snap, cs[0].svc);
      RunTouches(m, cs[0], snap);
      assert forall i :: 0 <= i < |cs[1..]| ==> cs[1..][i] == cs[i + 1];
      RunsTouch(r.m, cs[1..], snap);
      TouchesTwice(m.sys, r.m.sys, RunUntilError(r.m, cs[1..]).m.sys, snap);
      TouchesTwice(m.sys, r.m.sys, RunEvery(r.m, cs[1..]).m.sys, snap);
    }
  }

  lemma KnowsAt(snap: Snapshot, k: nat)
    requires k < |snap|
    ensures Knows(snap, snap[k].name)
  {
  }

  lemma ForCons(cs: seq<Command>, ds: seq<Command>, snap: Snapshot)
    requires For(cs, snap) && For(ds, snap)
    ensures For(cs + ds, snap)
  {
    forall i | 0 <= i < |cs + ds| ensures Knows(snap, (cs + ds)[i].svc) {
      if i < |cs| { assert (cs + ds)[i] == cs[i]; } else { assert (cs + ds)[i] == ds[i - |cs|]; }
    }
  }

  lemma ForMore(cs: seq<Command>, snap: Snapshot)
    requires snap != [] && For(cs, snap[1..])
    ensures For(cs, snap)
  {
    forall i | 0 <= i < |cs| ensures Knows(snap, cs[i].svc) {
      var k :| 0 <= k < |snap[1..]| && snap[1..][k].name == cs[i].svc;
      assert snap[k + 1].name == cs[i].svc;
    }
  }

  lemma {:induction false} ApplyFor(snap: Snapshot, host: string, port: string, bypass: seq<string>)
    ensures For(ApplyAll(snap, host, port, bypass), snap)
  {
    if snap != [] {
      ApplyFor(snap[1..], host, port, bypass);
      ForMore(ApplyAll(snap[1..], host, port, bypass), snap);
      KnowsAt(snap, 0);
      ForCons(ApplyTo(snap[0].name, host, port, bypass), ApplyAll(snap[1..], host, port, bypass), snap);
    }
  }

  lemma {:induction false} RestoreFor(snap: Snapshot)
    ensures For(RestoreAll(snap), snap)
  {
    if snap != [] {
      RestoreFor(snap[1..]);
      ForMore(RestoreAll(snap[1..]), snap);
      KnowsAt(snap, 0);
      ForCons(RestoreTo(snap[0]), RestoreAll(snap[1..]), snap);
    }
  }

  // ---- a run without a failure takes full effect --------------------------------------------------

  function Effects(sys: map<string, Service>, cs: seq<Command>): map<string, Service>
    decreases |cs|
  {
    if cs == [] then sys else Effects(Effect(sys, cs[0]), cs[1..])
  }

  lemma {:induction false} CleanRun(m: Machine, cs: seq<Command>)
    ensures RunUntilError(m, cs).ok && !RunUntilError(m, cs).dead ==> RunUntilError(m, cs).m.sys == Effects(m.sys, cs)
    ensures RunEvery(m, cs).ok && !RunEvery(m, cs).dead ==> RunEvery(m, cs).m.sys == Effects(m.sys, cs)
    decreases |cs|
  {
    if cs != [] { CleanRun(RunCommand(m, cs[0]).m, cs[1..]); }
  }

  lemma {:induction false} EffectsAppend(sys: map<string, Service>, a: seq<Command>, b: seq<Command>)
    ensures Effects(sys, a + b) == Effects(Effects(sys, a), b)
    decreases |a|
  {
    if a == [] {
      assert a + b == b;
    } else {
      assert (a + b)[1..] == a[1..] + b;
      EffectsAppend(Effect(sys, a[0]), a[1..], b);
    }
  }

  lemma Effects2(sys: map<string, Service>, a: Command, b: Command)
    ensures Effects(sys, [a, b]) == Effect(Effect(sys, a), b) && Effects(sys, [a]) == Effect(sys, a)
  {
    assert [a, b][1..] == [b] && [b][1..] == [] && [a][1..] == [];
    assert Effects(Effect(sys, a), [b]) == Effects(Effect(Effect(sys, a), b), [b][1..]);
  }

  lemma RestoreProxyTakes(sys: map<string, Service>, svc: string, secure: bool, p: Proxy)
    requires svc in sys
    ensures var after := Effects(sys, RestoreProxy(svc, secure, p));
            && svc in after
            && Plain(if secure then after[svc].secure else after[svc].web) == Plain(p)
            && (if secure then after[svc].web == sys[svc].web else after[svc].secure == sys[svc].secure)
            && after[svc].bypass == sys[svc].bypass
            && after == sys[svc := after[svc]]
  {
    Effects2(sys, SetProxy(svc, secure, p.host, p.port), SetState(svc, secure, true));
    Effects2(sys, SetState(svc, secure, false), SetState(svc, secure, false));
  }

  lemma RestoreTakes(sys: map<string, Service>, e: Saved)
    requires e.name in sys
    ensures var after := Effects(sys, RestoreTo(e)); AsSaved(after, e) && after == sys[e.name := after[e.name]]
  {
    var w, s := RestoreProxy(e.name, false, e.service.web), RestoreProxy(e.name, true, e.service.secure);
    var b := SetBypass(e.name, if e.service.bypass == [] then ["Empty"] else e.service.bypass);
    EffectsAppend(sys, w + s, [b]);
    EffectsAppend(sys, w, s);
    RestoreProxyTakes(sys, e.name, false, e.service.web);
    RestoreProxyTakes(Effects(sys, w), e.name, true, e.service.secure);
    Effects2(Effects(sys, w + s), b, b);
  }

  lemma ApplyTakes(sys: map<string, Service>, svc: string, host: string, port: string, bypass: seq<string>)
    requires svc in sys && bypass != ["Empty"]
    ensures Effects(sys, ApplyTo(svc, host, port, bypass)) ==
            sys[svc := Service(Proxy(true, host, port), Proxy(true, host, port), bypass)]
  {
    var cs := ApplyTo(svc, host, port, bypass);
    assert cs == [cs[0], cs[1]] + ([cs[2], cs[3]] + [cs[4]]);
    EffectsAppend(sys, [cs[0], cs[1]], [cs[2], cs[3]] + [cs[4]]);
    EffectsAppend(Effects(sys, [cs[0], cs[1]]), [cs[2], cs[3]], [cs[4]]);
    Effects2(sys, cs[0], cs[1]);
    Effects2(Effects(sys, [cs[0], cs[1]]), cs[2], cs[3]);
    Effects2(Effects(Effects(sys, [cs[0], cs[1]]), [cs[2], cs[3]]), cs[4], cs[4]);
  }

  ghost predicate AllPresent(sys: map<string, Service>, snap: Snapshot) {
    forall k :: 0 <= k < |snap| ==> snap[k].name in sys
  }

  lemma {:induction false} RestoresTake(sys: map<string, Service>, snap: Snapshot)
    requires Distinct(snap) && AllPresent(sys, snap)
    ensures var after := Effects(sys, RestoreAll(snap));
            AllAsSaved(after, snap) && forall n :: n in sys ==> n in after && (!Knows(snap, n) ==> after[n] == sys[n])
    decreases |snap|
  {
    if snap != [] {
      var e, more := snap[0], snap[1..];
      EffectsAppend(sys, RestoreTo(e), RestoreAll(more));
      RestoreTakes(sys, e);
      var mid := Effects(sys, RestoreTo(e));
      assert forall k :: 0 <= k < |more| ==> more[k] == snap[k + 1];
      RestoresTake(mid, more);
      var after := Effects(sys, RestoreAll(snap));
      assert !Knows(more, e.name);
      forall k | 0 <= k < |snap| ensures AsSaved(after, snap[k]) { if k > 0 { assert AsSaved(after, more[k - 1]); } }
      forall n | n in sys ensures n in after && (!Knows(snap, n) ==> after[n] == sys[n]) {
        if !Knows(snap, n) {
          assert n != e.name by { KnowsAt(snap, 0); }
          if Knows(more, n) { KnowsMore(snap, n); }
        }
      }
    }
  }

  lemma KnowsMore(snap: Snapshot, n: string)
    requires snap != [] && Knows(snap[1..], n)
    ensures Knows(snap, n)
  {
    var k :| 0 <= k < |snap[1..]| && snap[1..][k].name == n;
    KnowsAt(snap, k + 1);
  }

  /** What apply writes, service by service. */
  ghost predicate AllAsDesired(sys: map<string, Service>, desired: Snapshot) {
    forall k :: 0 <= k < |desired| ==> desired[k].name in sys && IsSet(sys[desired[k].name], desired[k].service)
  }

  /** Both proxies are these, and the bypass list has these domains, as often, in any order. */
  ghost predicate IsSet(s: Service, wanted: Service) {
    && s.web.enabled == wanted.web.enabled && s.web.host == wanted.web.host && s.web.port == wanted.web.port
    && s.secure.enabled == wanted.secure.enabled
    && s.secure.host == wanted.secure.host && s.secure.port == wanted.secure.port
    && multiset(s.bypass) == multiset(wanted.bypass)
  }

  lemma SameIsSet(a: Saved, b: Saved)
    ensures Same(a, b) <==> a.name == b.name && IsSet(a.service, b.service)
  {
  }

  ghost predicate SameNames(current: Snapshot, expected: Snapshot) {
    && (forall i :: 0 <= i < |current| ==> Knows(expected, current[i].name))
    && (forall j :: 0 <= j < |expected| ==> Knows(current, expected[j].name))
  }

  ghost predicate SetAlike(current: Snapshot, expected: Snapshot) {
    forall i, j :: 0 <= i < |current| && 0 <= j < |expected| && current[i].name == expected[j].name ==>
      IsSet(current[i].service, expected[j].service)
  }

  /** Two captures match when they are of the same services, and each is set alike. */
  lemma MatchSays(current: Snapshot, expected: Snapshot)
    requires Distinct(current) && Distinct(expected)
    ensures StateMatches(current, expected) <==> SameNames(current, expected) && SetAlike(current, expected)
  {
    hide IsSet, Same;
    forall i, j | 0 <= i < |current| && 0 <= j < |expected|
      ensures Same(current[i], expected[j]) <==>
              current[i].name == expected[j].name && IsSet(current[i].service, expected[j].service)
    {
      SameIsSet(current[i], expected[j]);
    }
    if SameNames(current, expected) && SetAlike(current, expected) {
      forall j | 0 <= j < |expected| ensures Has(current, expected[j]) {
        assert Knows(current, expected[j].name);
        var i :| 0 <= i < |current| && current[i].name == expected[j].name;
        assert Same(current[i], expected[j]);
      }
    }
    if StateMatches(current, expected) {
      forall j | 0 <= j < |expected|
        ensures Knows(current, expected[j].name)
        ensures forall i :: 0 <= i < |current| && current[i].name == expected[j].name ==>
                  IsSet(current[i].service, expected[j].service)
      {
        assert Has(current, expected[j]);
        var k :| 0 <= k < |current| && Same(current[k], expected[j]);
        assert current[k].name == expected[j].name;
      }
    }
  }

  lemma {:induction false} DesiredNames(snap: Snapshot, host: string, port: string, bypass: seq<string>)
    ensures var d := DesiredState(snap, host, port, bypass);
            && |d| == |snap| && |Names(snap)| == |snap|
            && forall k :: 0 <= k < |snap| ==>
                 Names(snap)[k] == snap[k].name
                 && d[k] == Saved(snap[k].name, Service(Proxy(true, host, port), Proxy(true, host, port), bypass))
  {
    if snap != [] {
      DesiredNames(snap[1..], host, port, bypass);
      assert forall k :: 0 <= k < |snap[1..]| ==> snap[1..][k] == snap[k + 1];
    }
  }

  lemma {:induction false} AppliesTake(sys: map<string, Service>, snap: Snapshot,
                                  host: string, port: string, bypass: seq<string>)
    requires Distinct(snap) && AllPresent(sys, snap) && bypass != ["Empty"]
    ensures var after := Effects(sys, ApplyAll(snap, host, port, bypass));
            && (forall n :: n in sys ==> n in after)
            && (forall n :: n in sys && !Knows(snap, n) ==> after[n] == sys[n])
            && (forall k :: 0 <= k < |snap| ==>
                  after[snap[k].name] == Service(Proxy(true, host, port), Proxy(true, host, port), bypass))
    decreases |snap|
  {
    if snap != [] {
      var e, more := snap[0], snap[1..];
      EffectsAppend(sys, ApplyTo(e.name, host, port, bypass), ApplyAll(more, host, port, bypass));
      ApplyTakes(sys, e.name, host, port, bypass);
      var mid := Effects(sys, ApplyTo(e.name, host, port, bypass));
      assert forall k :: 0 <= k < |more| ==> more[k] == snap[k + 1];
      AppliesTake(mid, more, host, port, bypass);
      var after := Effects(sys, ApplyAll(snap, host, port, bypass));
      assert !Knows(more, e.name);
      forall n | n in sys && !Knows(snap, n) ensures after[n] == sys[n] {
        assert n != e.name by { KnowsAt(snap, 0); }
        if Knows(more, n) { KnowsMore(snap, n); }
      }
      forall k | 0 <= k < |snap|
        ensures after[snap[k].name] == Service(Proxy(true, host, port), Proxy(true, host, port), bypass) {
        if k > 0 {
          assert after[more[k - 1].name] == Service(Proxy(true, host, port), Proxy(true, host, port), bypass);
        }
      }
    }
  }
}
