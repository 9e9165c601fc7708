/**
 * One mount as a small state machine: wishes, ticks and the ends of its jobs, and what every run of it
 * keeps.
 */
module MountMachine {
  import opened Prelude

  /** Seconds between a failed mount and the next one. */
  const BACKOFF := 30

  datatype Status = Unmounted | Mounting | Mounted | Unmounting | Failed
  datatype Entry = Entry(status: Status, error: string, fixable: string, busy: bool, nextRetry: int)

  const FRESH := Entry(Unmounted, "", "", false, 0)

  datatype Key = Key(tid: string, name: string)
  datatype Row = Row(name: string, dir: string, auto: bool)
  datatype Tunnel = Tunnel(enabled: bool, port: int, rows: seq<Row>)
  type Config = map<string, Tunnel>

  datatype Job = MountJob(key: Key, row: Row) | UnmountJob(key: Key)

  // ---- one mount -------------------------------------------------------------------------------------

  /** All there is to one mount: its entry, whether it is desired, the jobs submitted and not ended. */
  datatype View = View(entry: Entry, wanted: bool, jobs: seq<Job>)

  /** What a tick sees of a desired mount: its row, is it in the mount table, is the session connected. */
  datatype Seen = Nowhere | There(row: Row, mounted: bool, connected: bool)

  function Cleared(e: Entry, s: Status): Entry { e.(status := s, error := "", fixable := "") }

  /** `_dispatch_mount_locked`. */
  function Dispatch(v: View, k: Key, row: Row): View {
    if v.entry.busy then v
    else v.(entry := v.entry.(busy := true, status := Mounting, error := ""), jobs := v.jobs + [MountJob(k, row)])
  }

  function DispatchUnmount(v: View, k: Key): View {
    if v.entry.busy then v
    else v.(entry := v.entry.(busy := true, status := Unmounting), jobs := v.jobs + [UnmountJob(k)])
  }

  function Reconcile(v: View, k: Key, now: int, seen: Seen): View {
    match seen
    case Nowhere => v
    case There(row, mounted, connected) =>
      if v.entry.busy then v
      else if mounted then (if connected then v.(entry := Cleared(v.entry, Mounted)) else DispatchUnmount(v, k))
      else if connected then (if now >= v.entry.nextRetry then Dispatch(v, k, row) else v)
      else v.(entry := Cleared(v.entry, Unmounted))
  }

  /** What befalls one mount. */
  datatype Event =
    | Wish(row: Option<Row>)
    | Unwish(mounted: bool)
    | Autostart
    | Beat(now: int, seen: Seen, stale: bool)
    | MountEnded(now: int, error: string, fixable: string)
    | UnmountEnded

  /** A job ends only if it was submitted. */
  predicate Enabled(v: View, e: Event) {
    match e
    case MountEnded(_, _, _) => v.jobs != [] && v.jobs[0].MountJob?
    case UnmountEnded => v.jobs != [] && v.jobs[0].UnmountJob?
    case _ => true
  }

  function Step(v: View, k: Key, e: Event): View
    requires Enabled(v, e)
  {
    match e
    case Wish(row) =>
      var w := v.(wanted := true, entry := v.entry.(nextRetry := 0));
      if row.Some? then Dispatch(w, k, row.value) else w
    case Unwish(mounted) =>
      var w := v.(wanted := false);
      if mounted then DispatchUnmount(w, k) else w
    case Autostart => v.(wanted := true)
    case Beat(now, seen, stale) =>
      if v.wanted then Reconcile(v, k, now, seen) else if stale then DispatchUnmount(v, k) else v
    case MountEnded(now, error, fixable) =>
      View(if error != "" then Entry(Failed, error, fixable, false, now + BACKOFF)
           else Cleared(v.entry.(busy := false), Mounted), v.wanted, v.jobs[1..])
    case UnmountEnded => View(Cleared(v.entry.(busy := false), Unmounted), v.wanted, v.jobs[1..])
  }

  /**
   * Busy exactly while one job is out, and then the status names that job; idle statuses are the
   * other three, and unless the last mount failed there is no message and no offer to fix it.
   */
  ghost predicate Good(v: View, k: Key) {
    && (if v.entry.busy then
          && |v.jobs| == 1 && v.jobs[0].key == k
          && v.entry.status == (if v.jobs[0].MountJob? then Mounting else Unmounting)
        else v.jobs == [] && v.entry.status in {Unmounted, Mounted, Failed})
    && (v.entry.status in {Unmounted, Mounted} ==> v.entry.error == "" && v.entry.fixable == "")
    && (v.entry.status == Failed ==> v.entry.error != "")
    && (v.entry.status == Mounting ==> v.entry.error == "")
  }

  lemma StepKeepsGood(v: View, k: Key, e: Event)
    requires Good(v, k) && Enabled(v, e)
    ensures Good(Step(v, k, e), k)
  {
  }

  ghost predicate Possible(v: View, k: Key, es: seq<Event>)
    decreases |es|
  {
    es != [] ==> Enabled(v, es[0]) && Possible(Step(v, k, es[0]), k, es[1..])
  }

  function Run(v: View, k: Key, es: seq<Event>): View
    requires Possible(v, k, es)
    decreases |es|
  {
    if es == [] then v else Run(Step(v, k, es[0]), k, es[1..])
  }

  lemma {:induction false} RunsAreGood(v: View, k: Key, es: seq<Event>)
    requires Good(v, k) && Possible(v, k, es)
    ensures Good(Run(v, k, es), k)
    decreases |es|
  {
    if es != [] {
      StepKeepsGood(v, k, es[0]);
      RunsAreGood(Step(v, k, es[0]), k, es[1..]);
    }
  }

  // ---- no retry before its time ------------------------------------------------------------------------

  predicate Submits(v: View, k: Key, e: Event)
    requires Enabled(v, e)
  {
    |Step(v, k, e).jobs| > |v.jobs| && Step(v, k, e).jobs[|v.jobs|].MountJob?
  }

  predicate NotBefore(e: Event, t: int) {
    match e
    case MountEnded(now, _, _) => now >= t
    case Beat(now, _, _) => now >= t
    case _ => true
  }

  /** Events that can happen, with no clock reading before a moment and no wish of the user among them. */
  ghost predicate Meanwhile(v: View, k: Key, es: seq<Event>, t: int): (b: bool)
    ensures b ==> Possible(v, k, es)
    decreases |es|
  {
    es != [] ==> Enabled(v, es[0]) && NotBefore(es[0], t) && !es[0].Wish? && Meanwhile(Step(v, k, es[0]), k, es[1..], t)
  }

  lemma {:induction false} RetryTimeStands(v: View, k: Key, es: seq<Event>, t: int)
    requires v.entry.nextRetry >= t + BACKOFF && Meanwhile(v, k, es, t)
    ensures Run(v, k, es).entry.nextRetry >= t + BACKOFF
    decreases |es|
  {
    if es != [] { RetryTimeStands(Step(v, k, es[0]), k, es[1..], t); }
  }

  /**
   * A mount failed at time t; whatever happens then, short of the user asking for it again, no tick
   * before t + BACKOFF submits another mount.
   */
  lemma NoEarlyRetry(v: View, k: Key, failure: Event, es: seq<Event>, beat: Event)
    requires Enabled(v, failure) && failure.MountEnded? && failure.error != ""
    requires Meanwhile(Step(v, k, failure), k, es, failure.now)
    requires beat.Beat? && Submits(Run(Step(v, k, failure), k, es), k, beat)
    ensures beat.now >= failure.now + BACKOFF
  {
    RetryTimeStands(Step(v, k, failure), k, es, failure.now);
  }

  /**
   * Letting go while the mount is still being made: nothing is submitted beside it, and once it has
   * ended, well or badly, the first tick that finds the directory mounted submits the unmount.
   */
  lemma LateMountIsSwept(v: View, k: Key, mounted: bool, done: Event, beat: Event)
    requires Good(v, k) && v.entry.status == Mounting
    requires done.MountEnded? && beat.Beat? && beat.stale
    ensures Possible(v, k, [Unwish(mounted), done, beat])
    ensures Step(v, k, Unwish(mounted)).jobs == v.jobs
    ensures Run(v, k, [Unwish(mounted), done, beat]).jobs == [UnmountJob(k)]
  {
    var v1 := Step(v, k, Unwish(mounted));
    var v2 := Step(v1, k, done);
    var v3 := Step(v2, k, beat);
    assert [Unwish(mounted), done, beat][1..] == [done, beat] && [done, beat][1..] == [beat] && [beat][1..] == [];
    assert Possible(v3, k, []) && Possible(v2, k, [beat]) && Possible(v1, k, [done, beat]);
    assert Run(v3, k, []) == v3 && Run(v2, k, [beat]) == v3 && Run(v1, k, [done, beat]) == v3;
  }

  // ---- what is submitted when -----------------------------------------------------------------------------

  /** The mount is idle, and the user asks for a known row, or a tick finds it wished, connected, unmounted and due. */
  predicate AsksForMount(v: View, e: Event, row: Row) {
    !v.entry.busy &&
    match e
    case Wish(r) => r == Some(row)
    case Beat(now, seen, _) => v.wanted && seen == There(row, false, true) && v.entry.nextRetry <= now
    case _ => false
  }

  /** It is idle, and mounted where it should not be, or with nothing connected behind it. */
  predicate AsksForUnmount(v: View, e: Event) {
    !v.entry.busy &&
    match e
    case Unwish(mounted) => mounted
    case Beat(_, seen, stale) =>
      if v.wanted then seen.There? && seen.mounted && !seen.connected else stale
    case _ => false
  }

  /** The jobs that are left when a job that has ended is gone. */
  function Before(v: View, e: Event): seq<Job>
    requires Enabled(v, e)
  {
    if e.MountEnded? || e.UnmountEnded? then v.jobs[1..] else v.jobs
  }

  /** A mount is submitted exactly when it is asked for, with its row; so is an unmount; and nothing else is. */
  lemma SubmittedExactlyWhen(v: View, k: Key, e: Event)
    requires Good(v, k) && Enabled(v, e)
    ensures forall row :: Step(v, k, e).jobs == Before(v, e) + [MountJob(k, row)] <==> AsksForMount(v, e, row)
    ensures Step(v, k, e).jobs == Before(v, e) + [UnmountJob(k)] <==> AsksForUnmount(v, e)
    ensures (forall row :: !AsksForMount(v, e, row)) && !AsksForUnmount(v, e) ==> Step(v, k, e).jobs == Before(v, e)
  {
    var t, before := Step(v, k, e), Before(v, e);
    forall row ensures t.jobs == before + [MountJob(k, row)] <==> AsksForMount(v, e, row) {
      if |t.jobs| == |before| + 1 { assert t.jobs[|before|] in t.jobs; }
    }
  }

  /** A failed mount still wished is tried again at the first tick, thirty seconds on, that finds it connected. */
  lemma RetryComes(v: View, k: Key, failure: Event, now: int, row: Row, stale: bool)
    requires Good(v, k) && Enabled(v, failure) && failure.MountEnded? && failure.error != "" && v.wanted
    requires failure.now + 30 <= now
    ensures Step(Step(v, k, failure), k, Beat(now, There(row, false, true), stale)).jobs == [MountJob(k, row)]
  {
  }

  /** A wish that is left alone is fulfilled: mounted once the job ends well, and shown so from then on. */
  lemma WishIsFulfilled(v: View, k: Key, row: Row, now: int, later: int, stale: bool)
    requires Good(v, k) && !v.entry.busy
    ensures var v1 := Step(v, k, Wish(Some(row)));
            && v1.jobs == [MountJob(k, row)] && v1.entry.status == Mounting && v1.wanted
            && var v2 := Step(v1, k, MountEnded(now, "", ""));
               && v2 == View(Entry(Mounted, "", "", false, 0), true, [])
               && Step(v2, k, Beat(later, There(row, true, true), stale)) == v2
  {
  }

  /** Letting go of what is mounted unmounts it, and it stays so. */
  lemma LetGoIsFulfilled(v: View, k: Key, now: int, seen: Seen)
    requires Good(v, k) && !v.entry.busy
    ensures var v1 := Step(v, k, Unwish(true));
            && v1.jobs == [UnmountJob(k)] && v1.entry.status == Unmounting && !v1.wanted
            && var v2 := Step(v1, k, UnmountEnded);
               && v2 == View(Entry(Unmounted, "", "", false, v.entry.nextRetry), false, [])
               && Step(v2, k, Beat(now, seen, false)) == v2
    ensures Step(v, k, Unwish(false)) == v.(wanted := false)
  {
  }

  /** A tick that submits nothing shows an idle mount as it finds it, unless a retry is still to come. */
  lemma TickShows(v: View, k: Key, now: int, row: Row, stale: bool)
    requires Good(v, k) && !v.entry.busy && v.wanted
    ensures Step(v, k, Beat(now, There(row, true, true), stale)) ==
            View(Entry(Mounted, "", "", false, v.entry.nextRetry), true, [])
    ensures Step(v, k, Beat(now, There(row, false, false), stale)) ==
            View(Entry(Unmounted, "", "", false, v.entry.nextRetry), true, [])
    ensures now < v.entry.nextRetry ==> Step(v, k, Beat(now, There(row, false, true), stale)) == v
    ensures Step(v, k, Beat(now, Nowhere, stale)) == v
  {
  }

  /** One that fails is shown with its error and what is offered against it, until the next attempt. */
  lemma FailureIsShown(v: View, k: Key, now: int, error: string, fixable: string)
    requires Good(v, k) && Enabled(v, MountEnded(now, error, fixable)) && error != ""
    ensures Step(v, k, MountEnded(now, error, fixable)) ==
            View(Entry(Failed, error, fixable, false, now + 30), v.wanted, [])
  {
  }

  // ---- where the code is narrower than its comment --------------------------------------------------------

  /** The promise that nothing but a failed mount carries an offer to fix it. */
  predicate OffersOnlyWhenFailed(v: View) {
    v.entry.status != Failed ==> v.entry.fixable == ""
  }

  /** An event that finds the mount idle and hands out a job. */
  predicate Dispatches(v: View, e: Event) {
    !v.entry.busy &&
    match e
    case Wish(row) => row.Some?
    case Unwish(mounted) => mounted
    case Beat(now, Nowhere, stale) => !v.wanted && stale
    case Beat(now, There(_, mounted, connected), stale) =>
      if !v.wanted then stale else if mounted then !connected else connected && now >= v.entry.nextRetry
    case _ => false
  }

  /** It is broken exactly by a dispatch out of a failure that came with an offer. */
  lemma OffersOutliveDispatch(v: View, k: Key, e: Event)
    requires Good(v, k) && Enabled(v, e) && OffersOnlyWhenFailed(v)
    ensures OffersOnlyWhenFailed(Step(v, k, e)) <==> !(v.entry.fixable != "" && Dispatches(v, e))
  {
  }

  /** `unmount_all` submits beside whatever is out, and marks nothing busy. */
  function QuitAll(v: View, k: Key): View {
    View(v.entry, false, if v.entry.status in {Mounted, Mounting} then v.jobs + [UnmountJob(k)] else v.jobs)
  }

  /** So quitting ends the invariant for exactly the mounts it submits a job for. */
  lemma QuitEndsInvariant(v: View, k: Key)
    requires Good(v, k)
    ensures Good(QuitAll(v, k), k) <==> v.entry.status !in {Mounted, Mounting}
    ensures v.entry.status == Mounting ==> |QuitAll(v, k).jobs| == 2
  {
  }
}
