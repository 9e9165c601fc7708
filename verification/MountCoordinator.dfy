/**
 * The mount coordinator: a tick that converges every mount, and the jobs it hands to workers. Every
 * operation on it is one step of each mount's own machine.
 */
module MountCoordinator {
  import opened Prelude
  import opened MountMachine

  function JobsOf(jobs: seq<Job>, k: Key): seq<Job> {
    if jobs == [] then []
    else JobsOf(jobs[..|jobs| - 1], k) + (if jobs[|jobs| - 1].key == k then [jobs[|jobs| - 1]] else [])
  }

  lemma JobsOfSnoc(jobs: seq<Job>, j: Job, k: Key)
    ensures JobsOf(jobs + [j], k) == JobsOf(jobs, k) + (if j.key == k then [j] else [])
  {
    assert (jobs + [j])[..|jobs|] == jobs;
  }

  lemma {:induction false} JobsOfAppend(a: seq<Job>, b: seq<Job>, k: Key)
    ensures JobsOf(a + b, k) == JobsOf(a, k) + JobsOf(b, k)
    decreases |b|
  {
    if b == [] {
      assert a + b == a;
    } else {
      var init, last := b[..|b| - 1], b[|b| - 1];
      assert a + b == (a + init) + [last];
      JobsOfSnoc(a + init, last, k);
      JobsOfAppend(a, init, k);
    }
  }

  /** Taking out the only job of a key, and nobody else's. */
  lemma JobsOfWithout(jobs: seq<Job>, i: nat, k: Key)
    requires i < |jobs| && (jobs[i].key == k ==> |JobsOf(jobs, k)| == 1)
    ensures JobsOf(jobs[..i] + jobs[i + 1..], k) == if jobs[i].key == k then [] else JobsOf(jobs, k)
    ensures jobs[i].key == k ==> JobsOf(jobs, k) == [jobs[i]]
  {
    var a, b := jobs[..i], jobs[i + 1..];
    assert jobs == (a + [jobs[i]]) + b;
    JobsOfAppend(a + [jobs[i]], b, k);
    JobsOfSnoc(a, jobs[i], k);
    JobsOfAppend(a, b, k);
  }

  function FindRow(rows: seq<Row>, name: string): Option<Row> {
    if rows == [] then None else if rows[0].name == name then Some(rows[0]) else FindRow(rows[1..], name)
  }

  function RowOf(config: Config, k: Key): Option<Row> {
    if k.tid in config then FindRow(config[k.tid].rows, k.name) else None
  }

  function Look(config: Config, k: Key, connected: set<string>, table: set<string>): Seen {
    match RowOf(config, k)
    case None => Nowhere
    case Some(row) => There(row, row.dir in table, k.tid in connected)
  }

  /** A named row whose directory is mounted, among the first rows of a tunnel. */
  predicate StaleRow(rows: seq<Row>, name: string, table: set<string>) {
    name != "" && exists i :: 0 <= i < |rows| && rows[i].name == name && rows[i].dir in table
  }

  predicate Stale(config: Config, k: Key, table: set<string>) {
    k.tid in config && StaleRow(config[k.tid].rows, k.name, table)
  }

  ghost predicate WantsTunnel(desired: set<Key>, tid: string) { exists k :: k in desired && k.tid == tid }

  /** Sessions exist for the enabled tunnels of desired mounts, on the configured ports. */
  ghost predicate SessionsConverged(sessions: map<string, int>, desired: set<Key>, config: Config) {
    forall tid :: (tid in sessions <==> tid in config && config[tid].enabled && WantsTunnel(desired, tid))
                  && (tid in sessions ==> sessions[tid] == config[tid].port)
  }

  ghost function ViewIn(states: map<Key, Entry>, desired: set<Key>, pending: seq<Job>, k: Key): View {
    View(if k in states then states[k] else FRESH, k in desired, JobsOf(pending, k))
  }

  /** Rows the configuration mounts by itself, among the first rows of a tunnel. */
  predicate AutoRow(rows: seq<Row>, name: string) {
    name != "" && exists i :: 0 <= i < |rows| && rows[i].name == name && rows[i].auto
  }

  predicate Auto(config: Config, k: Key) {
    k.tid in config && config[k.tid].enabled && AutoRow(config[k.tid].rows, k.name)
  }

  class Coordinator {
    var desired: set<Key>
    var sessions: map<string, int>
    var states: map<Key, Entry>
    var pending: seq<Job>

    constructor ()
      ensures forall k :: ViewOf(k) == View(FRESH, false, [])
      ensures Valid() && sessions == map[]
    {
      desired, sessions, states, pending := {}, map[], map[], [];
    }

    ghost function ViewOf(k: Key): View
      reads this
    {
      ViewIn(states, desired, pending, k)
    }

    ghost predicate Valid()
      reads this
    {
      forall k: Key :: Good(ViewOf(k), k)
    }

    function EntryOf(k: Key): Entry
      reads this
    {
      if k in states then states[k] else FRESH
    }

    method SetDefault(k: Key)
      modifies this`states
      ensures k in states && states[k] == old(EntryOf(k))
      ensures forall j :: ViewOf(j) == old(ViewOf(j))
    {
      if k !in states {
        states := states[k := FRESH];
      }
    }

    method Want(k: Key, wanted: bool)
      modifies this`desired
      ensures desired == if wanted then old(desired) + {k} else old(desired) - {k}
      ensures forall j :: ViewOf(j) == if j == k then old(ViewOf(k)).(wanted := wanted) else old(ViewOf(j))
    {
      desired := if wanted then desired + {k} else desired - {k};
      assert forall j :: j in desired <==> (if j == k then wanted else j in old(desired));
    }

    /** Submit to the workers. */
    method Submit(j: Job)
      modifies this`pending
      ensures pending == old(pending) + [j]
      ensures forall k :: JobsOf(pending, k) == JobsOf(old(pending), k) + (if j.key == k then [j] else [])
    {
      forall k { JobsOfSnoc(pending, j, k); }
      pending := pending + [j];
    }

    method DispatchMount(k: Key, row: Row)
      modifies this`states, this`pending
      ensures forall j :: ViewOf(j) == if j == k then Dispatch(old(ViewOf(k)), k, row) else old(ViewOf(j))
    {
      SetDefault(k);
      var e := states[k];
      if e.busy {
        return;
      }
      states := states[k := e.(busy := true, status := Mounting, error := "")];
      Submit(MountJob(k, row));
    }

    method Unmount(k: Key)
      modifies this`states, this`pending
      ensures forall j :: ViewOf(j) == if j == k then DispatchUnmount(old(ViewOf(k)), k) else old(ViewOf(j))
    {
      SetDefault(k);
      var e := states[k];
      if e.busy {
        return;
      }
      states := states[k := e.(busy := true, status := Unmounting)];
      Submit(UnmountJob(k));
    }

    /** Converge the wishes to what the configuration mounts by itself. */
    method ApplyAutostarts(config: Config)
      requires Valid()
      modifies this`desired
      ensures Valid()
      ensures forall k ::
                ViewOf(k) == if Auto(config, k) then Step(old(ViewOf(k)), k, Autostart) else old(ViewOf(k))
    {
      var todo := config.Keys;
      while todo != {}
        invariant todo <= config.Keys
        invariant forall k ::
                    ViewOf(k) ==
                    if k.tid !in todo && Auto(config, k) then old(ViewOf(k)).(wanted := true)
                    else old(ViewOf(k))
        decreases todo
      {
        SomeString(todo);
        var tid :| tid in todo;
        todo := todo - {tid};
        if config[tid].enabled {
          WantAutos(tid, config[tid].rows);
        }
      }
      forall j ensures Good(ViewOf(j), j) {
        assert Good(old(ViewOf(j)), j);
      }
    }

    method WantAutos(tid: string, rows: seq<Row>)
      modifies this`desired
      ensures forall k ::
                ViewOf(k) ==
                if k.tid == tid && AutoRow(rows, k.name) then old(ViewOf(k)).(wanted := true)
                else old(ViewOf(k))
    {
      for i := 0 to |rows|
        invariant forall k ::
                    ViewOf(k) ==
                    if k.tid == tid && AutoRow(rows[..i], k.name) then old(ViewOf(k)).(wanted := true)
                    else old(ViewOf(k))
      {
        var row := rows[i];
        forall name ensures AutoRow(rows[..i + 1], name) <==>
                            AutoRow(rows[..i], name) || (name != "" && row.name == name && row.auto) {
          AutoRowSnoc(rows, i, name);
        }
        if row.name != "" && row.auto {
          Want(Key(tid, row.name), true);
        }
      }
      assert rows[..|rows|] == rows;
    }

    /** The user asks for a mount: remember it, forget the backoff, try at once. */
    method StartMount(k: Key, config: Config)
      requires Valid()
      modifies this
      ensures Valid()
      ensures forall j ::
                ViewOf(j) ==
                if j == k then Step(old(ViewOf(k)), k, Wish(RowOf(config, k))) else old(ViewOf(j))
      ensures k.tid in config && config[k.tid].enabled ==> k.tid in sessions
    {
      Want(k, true);
      SetDefault(k);
      states := states[k := states[k].(nextRetry := 0)];
      if k.tid in config && config[k.tid].enabled && k.tid !in sessions {
        sessions := sessions[k.tid := config[k.tid].port];
      }
      var row := RowOf(config, k);
      ghost var was := old(ViewOf(k));
      assert ViewOf(k) == was.(wanted := true, entry := was.entry.(nextRetry := 0));
      assert forall j :: j != k ==> ViewOf(j) == old(ViewOf(j));
      if row.Some? {
        DispatchMount(k, row.value);
      }
      forall j ensures Good(ViewOf(j), j) {
        assert Good(old(ViewOf(j)), j);
        if j == k { StepKeepsGood(old(ViewOf(k)), k, Wish(RowOf(config, k))); }
      }
    }

    /** The user lets go of a mount; its session goes with the last one. */
    method StopMount(k: Key, config: Config, table: set<string>)
      requires Valid()
      modifies this
      ensures Valid()
      ensures forall j ::
                ViewOf(j) ==
                if j == k then
                  Step(old(ViewOf(k)), k, Unwish(RowOf(config, k).Some? && RowOf(config, k).value.dir in table))
                else
                  old(ViewOf(j))
      ensures sessions == if WantsTunnel(desired, k.tid) then old(sessions) else old(sessions) - {k.tid}
    {
      Want(k, false);
      var row := RowOf(config, k);
      SetDefault(k);
      if row.Some? && row.value.dir in table {
        Unmount(k);
      }
      var wanted := exists j :: j in desired && j.tid == k.tid;
      if !wanted {
        sessions := sessions - {k.tid};
      }
      forall j ensures Good(ViewOf(j), j) {
        assert Good(old(ViewOf(j)), j);
        if j == k { StepKeepsGood(old(ViewOf(k)), k, Unwish(row.Some? && row.value.dir in table)); }
      }
    }

    /** One beat of the clock. */
    method Tick(now: int, config: Config, online: set<string>, table: set<string>)
      requires Valid()
      modifies this
      ensures Valid()
      ensures SessionsConverged(sessions, desired, config)
      ensures forall k ::
                ViewOf(k) ==
                Step(old(ViewOf(k)), k,
                     Beat(now, Look(config, k, online * sessions.Keys, table), Stale(config, k, table)))
    {
      ReconcileSessions(config);
      label middle:
      ReconcileMounts(now, config, online * sessions.Keys, table);
      SweepStaleMounts(config, table);
      forall k
        ensures Good(ViewOf(k), k)
        ensures ViewOf(k) ==

                Step(old(ViewOf(k)), k,
                     Beat(now, Look(config, k, online * sessions.Keys, table), Stale(config, k, table)))
      {
        StepKeepsGood(old(ViewOf(k)), k,
                      Beat(now, Look(config, k, online * sessions.Keys, table), Stale(config, k, table)));
      }
    }

    method ReconcileSessions(config: Config)
      modifies this`sessions
      ensures SessionsConverged(sessions, desired, config)
    {
      var tids := (set k | k in desired :: k.tid) + sessions.Keys;
      var todo := tids;
      while todo != {}
        invariant todo <= tids
        invariant forall tid :: tid in sessions ==> tid in tids
        invariant forall tid :: tid in tids && tid !in todo ==>
                    && (tid in sessions <==> tid in config && config[tid].enabled && WantsTunnel(desired, tid))
                    && (tid in sessions ==> sessions[tid] == config[tid].port)
        decreases todo
      {
        SomeString(todo);
        var tid :| tid in todo;
        todo := todo - {tid};
        var wanted := tid in config && config[tid].enabled && exists k :: k in desired && k.tid == tid;
        if !wanted {
          sessions := sessions - {tid};
        } else {
          // missing, or on another port: a new session; otherwise the one there is
          sessions := sessions[tid := config[tid].port];
        }
      }
      forall tid | WantsTunnel(desired, tid) ensures tid in tids {
        var k :| k in desired && k.tid == tid;
      }
    }

    method ReconcileMounts(now: int, config: Config, connected: set<string>, table: set<string>)
      modifies this`states, this`pending
      ensures forall k ::
                ViewOf(k) ==
                if k in desired then Reconcile(old(ViewOf(k)), k, now, Look(config, k, connected, table))
                else old(ViewOf(k))
    {
      var todo := desired;
      while todo != {}
        invariant todo <= desired
        invariant forall k ::
                  ViewOf(k) ==
                  if k in desired && k !in todo then
                    Reconcile(old(ViewOf(k)), k, now, Look(config, k, connected, table))
                  else
                    old(ViewOf(k))
        decreases todo
      {
        SomeKey(todo);
        var k :| k in todo;
        todo := todo - {k};
        ReconcileOne(k, now, Look(config, k, connected, table));
      }
    }

    method ReconcileOne(k: Key, now: int, seen: Seen)
      modifies this`states, this`pending
      ensures forall j :: ViewOf(j) == if j == k then Reconcile(old(ViewOf(k)), k, now, seen) else old(ViewOf(j))
    {
      if seen.There? {
        SetDefault(k);
        var e := states[k];
        if e.busy {
        } else if seen.mounted && seen.connected {
          states := states[k := Cleared(e, Mounted)];
        } else if seen.mounted {
          Unmount(k);
        } else if seen.connected {
          if now >= e.nextRetry {
            DispatchMount(k, seen.row);
          }
        } else {
          states := states[k := Cleared(e, Unmounted)];
        }
      }
    }

    method SweepStaleMounts(config: Config, table: set<string>)
      modifies this`states, this`pending
      ensures forall k ::
                ViewOf(k) ==
                if k !in desired && Stale(config, k, table) then DispatchUnmount(old(ViewOf(k)), k)
                else old(ViewOf(k))
    {
      var todo := config.Keys;
      while todo != {}
        invariant todo <= config.Keys
        invariant forall k ::
                  ViewOf(k) ==
                  if k !in desired && k.tid !in todo && Stale(config, k, table) then
                    DispatchUnmount(old(ViewOf(k)), k)
                  else
                    old(ViewOf(k))
        decreases todo
      {
        SomeString(todo);
        var tid :| tid in todo;
        todo := todo - {tid};
        SweepTunnel(tid, config[tid].rows, table);
      }
    }

    method SweepTunnel(tid: string, rows: seq<Row>, table: set<string>)
      modifies this`states, this`pending
      ensures forall k ::
                ViewOf(k) ==
                if k !in desired && k.tid == tid && StaleRow(rows, k.name, table) then
                  DispatchUnmount(old(ViewOf(k)), k)
                else
                  old(ViewOf(k))
    {
      for i := 0 to |rows|
        invariant forall k ::
                  ViewOf(k) ==
                  if k !in desired && k.tid == tid && StaleRow(rows[..i], k.name, table) then
                    DispatchUnmount(old(ViewOf(k)), k)
                  else
                    old(ViewOf(k))
      {
        var row := rows[i];
        forall name ensures StaleRow(rows[..i + 1], name, table) <==>
                            StaleRow(rows[..i], name, table) || (name != "" && row.name == name && row.dir in table) {
          StaleRowSnoc(rows, i, name, table);
        }
        var k := Key(tid, row.name);
        if row.name != "" && k !in desired {
          SetDefault(k);
          if row.dir in table {
            Unmount(k);
          }
        }
      }
      assert rows[..|rows|] == rows;
    }

    /** A worker comes back from a mount. */
    method FinishMount(i: nat, now: int, error: string, fixable: string)
      requires Valid() && i < |pending| && pending[i].MountJob?
      modifies this`states, this`pending
      ensures Valid()
      ensures var k := old(pending[i]).key;
              && Enabled(old(ViewOf(k)), MountEnded(now, error, fixable))
              && forall j ::
                 ViewOf(j) ==
                 if j == k then Step(old(ViewOf(k)), k, MountEnded(now, error, fixable)) else old(ViewOf(j))
    {
      var k := pending[i].key;
      TakeJob(i);
      var e := EntryOf(k);
      states := states[k := if error != "" then Entry(Failed, error, fixable, false, now + BACKOFF)
                            else Cleared(e.(busy := false), Mounted)];
      forall j ensures Good(ViewOf(j), j) {
        assert Good(old(ViewOf(j)), j);
        if j == k { StepKeepsGood(old(ViewOf(k)), k, MountEnded(now, error, fixable)); }
      }
    }

    /** A worker comes back from an unmount, whatever came of it. */
    method FinishUnmount(i: nat)
      requires Valid() && i < |pending| && pending[i].UnmountJob?
      modifies this`states, this`pending
      ensures Valid()
      ensures var k := old(pending[i]).key;
              && Enabled(old(ViewOf(k)), UnmountEnded)
              && forall j :: ViewOf(j) == if j == k then Step(old(ViewOf(k)), k, UnmountEnded) else old(ViewOf(j))
    {
      var k := pending[i].key;
      TakeJob(i);
      var e := EntryOf(k);
      states := states[k := Cleared(e.(busy := false), Unmounted)];
      forall j ensures Good(ViewOf(j), j) {
        assert Good(old(ViewOf(j)), j);
        if j == k { StepKeepsGood(old(ViewOf(k)), k, UnmountEnded); }
      }
    }

    method TakeJob(i: nat)
      requires Valid() && i < |pending|
      modifies this`pending
      ensures var k := old(pending[i]).key;
              && old(ViewOf(k)).jobs == [old(pending[i])]
              && forall j :: JobsOf(pending, j) == if j == k then [] else JobsOf(old(pending), j)
    {
      ghost var k := pending[i].key;
      HasJob(pending, i);
      assert Good(ViewOf(k), k);
      forall j { JobsOfWithout(pending, i, j); }
      pending := pending[..i] + pending[i + 1..];
    }
  }

  lemma HasJob(jobs: seq<Job>, i: nat)
    requires i < |jobs|
    ensures JobsOf(jobs, jobs[i].key) != []
  {
    hide JobsOf;
    var k := jobs[i].key;
    assert jobs == (jobs[..i] + [jobs[i]]) + jobs[i + 1..];
    JobsOfAppend(jobs[..i] + [jobs[i]], jobs[i + 1..], k);
    JobsOfSnoc(jobs[..i], jobs[i], k);
  }

  lemma StaleRowSnoc(rows: seq<Row>, i: nat, name: string, table: set<string>)
    requires i < |rows|
    ensures StaleRow(rows[..i + 1], name, table) <==>
            StaleRow(rows[..i], name, table) || (name != "" && rows[i].name == name && rows[i].dir in table)
  {
    var some := rows[..i + 1];
    assert forall j :: 0 <= j < i ==> rows[..i][j] == some[j];
    assert some[i] == rows[i];
  }

  lemma AutoRowSnoc(rows: seq<Row>, i: nat, name: string)
    requires i < |rows|
    ensures AutoRow(rows[..i + 1], name) <==>
            AutoRow(rows[..i], name) || (name != "" && rows[i].name == name && rows[i].auto)
  {
    var some := rows[..i + 1];
    assert forall j :: 0 <= j < i ==> rows[..i][j] == some[j];
    assert some[i] == rows[i];
  }

  lemma SomeString(s: set<string>)
    requires s != {}
    ensures exists x :: x in s
  {
    if forall x :: x !in s { assert false; }
  }

  lemma SomeKey(s: set<Key>)
    requires s != {}
    ensures exists x :: x in s
  {
    if forall x :: x !in s { assert false; }
  }

  // ---- what a tick submits, by the configuration and the mount table ---------------------------------------

  /** The row of that name, the first if there are several. */
  ghost predicate IsRow(rows: seq<Row>, name: string, row: Row) {
    exists i :: 0 <= i < |rows| && rows[i] == row && row.name == name && forall j :: 0 <= j < i ==> rows[j].name != name
  }

  ghost predicate HasRow(rows: seq<Row>, name: string) { exists i :: 0 <= i < |rows| && rows[i].name == name }

  lemma {:induction false} FoundRow(rows: seq<Row>, name: string)
    ensures FindRow(rows, name) == None <==> !HasRow(rows, name)
    ensures forall row :: FindRow(rows, name) == Some(row) <==> IsRow(rows, name, row)
    decreases |rows|
  {
    if rows != [] {
      var more := rows[1..];
      assert forall i :: 0 <= i < |more| ==> more[i] == rows[i + 1];
      FoundRow(more, name);
      if rows[0].name == name {
        assert IsRow(rows, name, rows[0]);
      } else {
        forall row ensures IsRow(rows, name, row) <==> IsRow(more, name, row) { RowBehind(rows, name, row); }
        if HasRow(more, name) {
          var i :| 0 <= i < |more| && more[i].name == name;
          assert rows[i + 1].name == name;
        }
        if HasRow(rows, name) {
          var i :| 0 <= i < |rows| && rows[i].name == name;
          assert more[i - 1].name == name;
        }
      }
    }
  }

  lemma RowBehind(rows: seq<Row>, name: string, row: Row)
    requires rows != [] && rows[0].name != name
    ensures IsRow(rows, name, row) <==> IsRow(rows[1..], name, row)
  {
    var more := rows[1..];
    if IsRow(rows, name, row) {
      var i :| 0 <= i < |rows| && rows[i] == row && row.name == name && forall j :: 0 <= j < i ==> rows[j].name != name;
      assert more[i - 1] == row && forall j :: 0 <= j < i - 1 ==> more[j] == rows[j + 1];
    }
    if IsRow(more, name, row) {
      var i :| 0 <= i < |more| && more[i] == row && row.name == name && forall j :: 0 <= j < i ==> more[j].name != name;
      assert rows[i + 1] == row && forall j :: 0 < j < i + 1 ==> rows[j] == more[j - 1];
    }
  }

  /** The mount is wished and has a row, whose directory is mounted or not, and a connected tunnel or not. */
  ghost predicate Wished(v: View, config: Config, k: Key, row: Row) {
    v.wanted && k.tid in config && IsRow(config[k.tid].rows, k.name, row)
  }

  /**
   * A tick submits a mount exactly for an idle wished row that is not mounted, has a connected tunnel and
   * is due; and an unmount exactly for an idle mount that is mounted, and either wished with its tunnel
   * gone, or not wished and named in the configuration.
   */
  lemma TickSubmits(v: View, k: Key, now: int, config: Config, up: set<string>, table: set<string>)
    requires Good(v, k)
    ensures var t := Step(v, k, Beat(now, Look(config, k, up, table), Stale(config, k, table)));
            && (forall row :: t.jobs == v.jobs + [MountJob(k, row)] <==>
                  && !v.entry.busy && Wished(v, config, k, row)
                  && row.dir !in table && k.tid in up && v.entry.nextRetry <= now)
            && (t.jobs == v.jobs + [UnmountJob(k)] <==>
                  !v.entry.busy &&
                  if v.wanted then exists row :: Wished(v, config, k, row) && row.dir in table && k.tid !in up
                  else
                    k.name != "" && k.tid in config &&
                    exists i :: 0 <= i < |config[k.tid].rows| &&
                                config[k.tid].rows[i].name == k.name && config[k.tid].rows[i].dir in table)
  {
    hide IsRow, FindRow, Step;
    SubmittedExactlyWhen(v, k, Beat(now, Look(config, k, up, table), Stale(config, k, table)));
    if k.tid in config { FoundRow(config[k.tid].rows, k.name); }
  }
}
