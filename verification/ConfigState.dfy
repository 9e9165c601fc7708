/**
 * The two-file configuration transaction: journal, install, roll back, recover. Every disk step
 * can work, fail without effect, or be the one before which the process dies.
 */
module ConfigState {
  import opened Prelude

  type Text = string

  /** One file's part in a transaction: its candidate text and what the file held before. */
  datatype Side = Side(candidate: Text, before: Option<Text>)
  datatype Payload = Payload(mp: Option<Side>, sp: Option<Side>)
  datatype JournalFile = NoJournal | Corrupt | Holds(payload: Payload)
  datatype Disk = Disk(mp: Option<Text>, sp: Option<Text>, journal: JournalFile)

  datatype Fate = Works | Fails | Dies

  datatype Secret = Set(account: string) | Delete(account: string)

  /** Disk, the keychain operations carried out so far, and the fates of the steps to come. */
  datatype World = World(disk: Disk, secrets: seq<Secret>, fates: seq<Fate>)

  /** A step is done, raises an error, or never happens because the process is gone. */
  datatype Status = Done | Raised | Dead
  datatype Step = Step(status: Status, w: World)

  datatype Plan = Plan(ok: bool, mp: Option<Text>, sp: Option<Text>, keychain: bool,
                       sets: seq<string>, dels: seq<string>)

  datatype Stage = Validate | AtJournal | AtMp | AtSp | AtKeychain
  datatype Outcome = Saved | Refused(stage: Stage) | Died

  // ---- single steps -------------------------------------------------------------------------

  function NextFate(w: World): Fate { if w.fates == [] then Works else w.fates[0] }
  function Later(w: World): World { w.(fates := if w.fates == [] then [] else w.fates[1..]) }

  /** An atomic step that turns the disk into `d`, or does not happen. */
  function Attempt(w: World, d: Disk): Step {
    match NextFate(w)
    case Works => Step(Done, Later(w).(disk := d))
    case Fails => Step(Raised, Later(w))
    case Dies => Step(Dead, Later(w))
  }

  function WriteJournal(w: World, p: Payload): Step { Attempt(w, w.disk.(journal := Holds(p))) }
  function UnlinkJournal(w: World): Step { Attempt(w, w.disk.(journal := NoJournal)) }
  function PutMp(w: World, t: Option<Text>): Step { Attempt(w, w.disk.(mp := t)) }
  function PutSp(w: World, t: Option<Text>): Step { Attempt(w, w.disk.(sp := t)) }

  // ---- roll back ----------------------------------------------------------------------------

  datatype RollStep = RollStep(dead: bool, complete: bool, w: World)

  /** Restore the old contents in order, then drop the journal; stop at the first failure. */
  function Rollback(w: World, p: Payload): RollStep {
    var a := if p.mp.Some? then PutMp(w, p.mp.value.before) else Step(Done, w);
    if a.status != Done then RollStep(a.status == Dead, false, a.w)
    else
      var b := if p.sp.Some? then PutSp(a.w, p.sp.value.before) else Step(Done, a.w);
      if b.status != Done then RollStep(b.status == Dead, false, b.w)
      else
        var c := UnlinkJournal(b.w);
        RollStep(c.status == Dead, c.status != Dead, c.w)
  }

  // ---- keychain -----------------------------------------------------------------------------

  datatype SecretStep = SecretStep(dead: bool, failed: bool, w: World)

  /** Passwords are stored one by one; the first failure ends the loop. */
  function StoreSecrets(w: World, sets: seq<string>): SecretStep
    decreases |sets|
  {
    if sets == [] then SecretStep(false, false, w)
    else match NextFate(w)
      case Works => StoreSecrets(Later(w).(secrets := w.secrets + [Set(sets[0])]), sets[1..])
      case Fails => SecretStep(false, true, Later(w))
      case Dies => SecretStep(true, false, Later(w))
  }

  /** Deletions are all attempted; failures are collected. */
  function DropSecrets(w: World, dels: seq<string>, failed: bool): SecretStep
    decreases |dels|
  {
    if dels == [] then SecretStep(false, failed, w)
    else match NextFate(w)
      case Works => DropSecrets(Later(w).(secrets := w.secrets + [Delete(dels[0])]), dels[1..], failed)
      case Fails => DropSecrets(Later(w), dels[1..], true)
      case Dies => SecretStep(true, failed, Later(w))
  }

  function KeychainStage(w: World, plan: Plan): SecretStep {
    if !plan.keychain then SecretStep(false, false, w)
    else
      var s := StoreSecrets(w, plan.sets);
      if s.dead || s.failed then s else DropSecrets(s.w, plan.dels, false)
  }

  // ---- commit and recover -------------------------------------------------------------------

  function PayloadOf(d: Disk, plan: Plan): Payload {
    Payload(if plan.mp.Some? then Some(Side(plan.mp.value, d.mp)) else None,
            if plan.sp.Some? then Some(Side(plan.sp.value, d.sp)) else None)
  }

  datatype Committed = Committed(outcome: Outcome, w: World)

  function Undo(w: World, p: Payload, stage: Stage): Committed {
    var r := Rollback(w, p);
    Committed(if r.dead then Died else Refused(stage), r.w)
  }

  function InstallStage(w: World, p: Payload): (Stage, Step) {
    var j := if p.mp.Some? || p.sp.Some? then WriteJournal(w, p) else Step(Done, w);
    if j.status != Done then (AtJournal, j)
    else
      var a := if p.mp.Some? then PutMp(j.w, Some(p.mp.value.candidate)) else j;
      if a.status != Done then (AtMp, a)
      else (AtSp, if p.sp.Some? then PutSp(a.w, Some(p.sp.value.candidate)) else a)
  }

  function Commit(w: World, plan: Plan): Committed {
    if !plan.ok then Committed(Refused(Validate), w)
    else
      var p := PayloadOf(w.disk, plan);
      var (stage, i) := InstallStage(w, p);
      if i.status == Dead then Committed(Died, i.w)
      else if i.status == Raised then Undo(i.w, p, stage)
      else
        var k := KeychainStage(i.w, plan);
        if k.dead then Committed(Died, k.w)
        else if k.failed then Undo(k.w, p, AtKeychain)
        else if k.w.disk.journal == NoJournal then Committed(Saved, k.w)
        else
          var u := UnlinkJournal(k.w);
          Committed(if u.status == Dead then Died else Saved, u.w)
  }

  /** `converged` is the result a recovery reports; a run that dies or raises reports nothing. */
  datatype Recovered = Recovered(converged: bool, w: World)

  function Recover(w: World): Recovered {
    if NextFate(w) != Works then Recovered(false, Later(w))
    else
      var r := Later(w);
      match w.disk.journal
      case NoJournal => Recovered(true, r)
      case Corrupt => var u := UnlinkJournal(r); Recovered(u.status != Dead, u.w)
      case Holds(p) =>
        var a := if p.mp.Some? then PutMp(r, Some(p.mp.value.candidate)) else Step(Done, r);
        if a.status != Done then Recovered(false, a.w)
        else
          var b := if p.sp.Some? then PutSp(a.w, Some(p.sp.value.candidate)) else a;
          if b.status != Done then Recovered(false, b.w)
          else
            var u := UnlinkJournal(b.w);
            Recovered(u.status == Done, u.w)
  }

  // ---- the store as it runs -----------------------------------------------------------------

  class ConfigStateStore {
    var mp: Option<Text>
    var sp: Option<Text>
    var journal: JournalFile
    var secrets: seq<Secret>
    var fates: seq<Fate>

    ghost function Abs(): World
      reads this
    {
      World(Disk(mp, sp, journal), secrets, fates)
    }

    constructor (d: Disk, fates: seq<Fate>)
      ensures Abs() == World(d, [], fates)
    {
      mp, sp, journal, secrets, this.fates := d.mp, d.sp, d.journal, [], fates;
    }

    method Meet() returns (f: Fate)
      modifies this`fates
      ensures f == NextFate(old(Abs())) && Abs() == Later(old(Abs()))
    {
      f := Works;
      if fates != [] { f, fates := fates[0], fates[1..]; }
    }

    method JournalWrite(p: Payload) returns (s: Status)
      modifies this`fates, this`journal
      ensures Step(s, Abs()) == WriteJournal(old(Abs()), p)
    {
      var f := Meet();
      if f == Works { journal := Holds(p); }
      s := match f case Works => Done case Fails => Raised case Dies => Dead;
    }

    method JournalUnlink() returns (s: Status)
      modifies this`fates, this`journal
      ensures Step(s, Abs()) == UnlinkJournal(old(Abs()))
    {
      var f := Meet();
      if f == Works { journal := NoJournal; }
      s := match f case Works => Done case Fails => Raised case Dies => Dead;
    }

    method ReplaceMp(t: Option<Text>) returns (s: Status)
      modifies this`fates, this`mp
      ensures Step(s, Abs()) == PutMp(old(Abs()), t)
    {
      var f := Meet();
      if f == Works { mp := t; }
      s := match f case Works => Done case Fails => Raised case Dies => Dead;
    }

    method ReplaceSp(t: Option<Text>) returns (s: Status)
      modifies this`fates, this`sp
      ensures Step(s, Abs()) == PutSp(old(Abs()), t)
    {
      var f := Meet();
      if f == Works { sp := t; }
      s := match f case Works => Done case Fails => Raised case Dies => Dead;
    }

    method RollBack(p: Payload) returns (dead: bool, complete: bool)
      modifies this`fates, this`mp, this`sp, this`journal
      ensures RollStep(dead, complete, Abs()) == Rollback(old(Abs()), p)
    {
      if p.mp.Some? {
        var s := ReplaceMp(p.mp.value.before);
        if s != Done { return s == Dead, false; }
      }
      if p.sp.Some? {
        var s := ReplaceSp(p.sp.value.before);
        if s != Done { return s == Dead, false; }
      }
      var s := JournalUnlink();
      return s == Dead, s != Dead;
    }

    method KeychainSets(sets: seq<string>) returns (dead: bool, failed: bool)
      modifies this`fates, this`secrets
      ensures SecretStep(dead, failed, Abs()) == StoreSecrets(old(Abs()), sets)
    {
      for k := 0 to |sets|
        invariant StoreSecrets(Abs(), sets[k..]) == StoreSecrets(old(Abs()), sets)
        invariant mp == old(mp) && sp == old(sp) && journal == old(journal)
      {
        assert sets[k..][0] == sets[k] && sets[k..][1..] == sets[k + 1..];
        var f := Meet();
        if f == Dies { return true, false; }
        if f == Fails { return false, true; }
        secrets := secrets + [Set(sets[k])];
      }
      return false, false;
    }

    method KeychainDels(dels: seq<string>) returns (dead: bool, failed: bool)
      modifies this`fates, this`secrets
      ensures SecretStep(dead, failed, Abs()) == DropSecrets(old(Abs()), dels, false)
    {
      failed := false;
      for k := 0 to |dels|
        invariant DropSecrets(Abs(), dels[k..], failed) == DropSecrets(old(Abs()), dels, false)
        invariant mp == old(mp) && sp == old(sp) && journal == old(journal)
      {
        assert dels[k..][0] == dels[k] && dels[k..][1..] == dels[k + 1..];
        var f := Meet();
        match f {
          case Dies => return true, failed;
          case Fails => failed := true;
          case Works => secrets := secrets + [Delete(dels[k])];
        }
      }
      dead := false;
    }

    method Refuse(p: Payload, stage: Stage) returns (o: Outcome)
      modifies this`fates, this`mp, this`sp, this`journal
      ensures Committed(o, Abs()) == Undo(old(Abs()), p, stage)
    {
      var dead, complete := RollBack(p);
      o := if dead then Died else Refused(stage);
    }

    method CommitPlan(plan: Plan) returns (o: Outcome)
      modifies this
      ensures Committed(o, Abs()) == Commit(old(Abs()), plan)
    {
      if !plan.ok { return Refused(Validate); }
      var p := Payload(if plan.mp.Some? then Some(Side(plan.mp.value, mp)) else None,
                       if plan.sp.Some? then Some(Side(plan.sp.value, sp)) else None);
      var stage, s := AtJournal, Done;
      if p.mp.Some? || p.sp.Some? { s := JournalWrite(p); }
      if s == Done {
        if p.mp.Some? {
          stage := AtMp;
          s := ReplaceMp(Some(p.mp.value.candidate));
        }
        if s == Done && p.sp.Some? {
          stage := AtSp;
          s := ReplaceSp(Some(p.sp.value.candidate));
        }
      }
      if s == Dead { return Died; }
      if s == Raised {
        o := Refuse(p, stage);
        return;
      }
      if plan.keychain {
        var dead, failed := KeychainSets(plan.sets);
        if !dead && !failed { dead, failed := KeychainDels(plan.dels); }
        if dead { return Died; }
        if failed {
          o := Refuse(p, AtKeychain);
          return;
        }
      }
      if journal != NoJournal {
        var u := JournalUnlink();
        if u == Dead { return Died; }
      }
      o := Saved;
    }

    method RecoverPending() returns (converged: bool)
      modifies this`fates, this`mp, this`sp, this`journal
      ensures Recovered(converged, Abs()) == Recover(old(Abs()))
    {
      var f := Meet();
      if f != Works { return false; }
      match journal {
        case NoJournal => return true;
        case Corrupt =>
          var u := JournalUnlink();
          return u != Dead;
        case Holds(p) =>
          if p.mp.Some? {
            var s := ReplaceMp(Some(p.mp.value.candidate));
            if s != Done { return false; }
          }
          if p.sp.Some? {
            var s := ReplaceSp(Some(p.sp.value.candidate));
            if s != Done { return false; }
          }
          var u := JournalUnlink();
          return u == Done;
      }
    }
  }
}
