/** Usage statistics: five families of buckets filled in one pass, and the figures derived from them. */
module UsageStats {
  import opened Prelude

  /** A number of the log: an integer, or a fraction, whose rounding is not modelled. */
  datatype Number = Integer(n: int) | Fraction(x: real)

  function Value(a: Number): real { if a.Integer? then a.n as real else a.x }

  /** No valid entry holds a negative number. */
  type Count = c: Number | Value(c) >= 0.0 witness Integer(0)

  /** The sum of integers is an integer; with a fraction in it, it is a fraction. */
  function Added(a: Count, b: Count): Count {
    if a.Integer? && b.Integer? then Integer(a.n + b.n) else Fraction(Value(a) + Value(b))
  }

  datatype Entry = Entry(
    provider: string, scenario: string, agent: string, day: int,
    input: Count, output: Count, cacheRead: Count, cacheCreation: Count, latency: Count, status: Count)

  datatype Bucket = Bucket(
    calls: nat, input: Count, output: Count, cacheRead: Count, cacheCreation: Count, errors: nat, latencySum: Count)

  const NOTHING := Integer(0)
  const EMPTY := Bucket(0, NOTHING, NOTHING, NOTHING, NOTHING, 0, NOTHING)

  predicate IsError(e: Entry) { Value(e.status) >= 400.0 }

  /** `_add_usage`; only the total keeps a latency sum. */
  function Add(b: Bucket, e: Entry, latency: bool): Bucket {
    Bucket(b.calls + 1, Added(b.input, e.input), Added(b.output, e.output), Added(b.cacheRead, e.cacheRead),
           Added(b.cacheCreation, e.cacheCreation), b.errors + (if IsError(e) then 1 else 0),
           if latency then Added(b.latencySum, e.latency) else b.latencySum)
  }

  /** A dictionary of buckets, its keys in the order they were first seen. */
  type Family<K> = seq<(K, Bucket)>

  function IndexOf<K(==)>(f: Family<K>, k: K): (i: nat)
    ensures i <= |f| && (i < |f| ==> f[i].0 == k) && forall j :: 0 <= j < i ==> f[j].0 != k
  {
    if f == [] || f[0].0 == k then 0
    else
      assert forall j :: 1 <= j < |f| ==> f[j] == f[1..][j - 1];
      1 + IndexOf(f[1..], k)
  }

  function At<K(==)>(f: Family<K>, k: K): Bucket {
    var i := IndexOf(f, k);
    if i < |f| then f[i].1 else EMPTY
  }

  /** `_add_usage(family.setdefault(key, _usage_bucket()), entry)` */
  function AddTo<K(==)>(f: Family<K>, k: K, e: Entry): Family<K> {
    var i := IndexOf(f, k);
    if i < |f| then f[i := (k, Add(f[i].1, e, false))] else f + [(k, Add(EMPTY, e, false))]
  }

  datatype Range = All | Days(first: int, last: int)

  predicate Within(r: Range, day: int) { r == All || r.first <= day <= r.last }

  /** The range a name stands for on a given day, the first of whose month is `monthStart`. */
  datatype RangeName = Today | SevenDays | Month | Always

  function RangeOf(name: RangeName, today: int, monthStart: int): Range {
    match name
    case Today => Days(today, today)
    case SevenDays => Days(today - 6, today)
    case Month => Days(monthStart, today)
    case Always => All
  }

  /** Entries that are valid and in range; a line that is neither JSON nor valid is None. */
  function Kept(lines: seq<Option<Entry>>, r: Range): seq<Entry> {
    if lines == [] then []
    else
      var before := Kept(lines[..|lines| - 1], r);
      var last := lines[|lines| - 1];
      if last.Some? && Within(r, last.value.day) then before + [last.value] else before
  }

  /** Today is one date, seven days are today and the six before it, a month ends today; both ends count. */
  lemma RangesSay(today: int, monthStart: int, day: int)
    ensures Within(RangeOf(Today, today, monthStart), day) <==> day == today
    ensures Within(RangeOf(SevenDays, today, monthStart), day) <==>
            day in {today - 6, today - 5, today - 4, today - 3, today - 2, today - 1, today}
    ensures Within(RangeOf(Month, today, monthStart), day) <==> monthStart <= day && day <= today
    ensures Within(RangeOf(Always, today, monthStart), day)
  {
  }

  /** Which lines are kept: these, in order. */
  ghost predicate KeptAt(kept: seq<Entry>, lines: seq<Option<Entry>>, at: seq<nat>) {
    && |at| == |kept| && (forall i, j :: 0 <= i < j < |at| ==> at[i] < at[j])
    && forall k :: 0 <= k < |at| ==> at[k] < |lines| && lines[at[k]] == Some(kept[k])
  }

  lemma KeptSnoc(kept: seq<Entry>, lines: seq<Option<Entry>>, at: seq<nat>, line: Option<Entry>)
    requires KeptAt(kept, lines, at)
    ensures KeptAt(kept, lines + [line], at)
    ensures line.Some? ==> KeptAt(kept + [line.value], lines + [line], at + [|lines|])
  {
  }

  /** The valid entries in range, all of them, in order. */
  lemma {:induction false} KeptAre(lines: seq<Option<Entry>>, r: Range) returns (at: seq<nat>)
    ensures KeptAt(Kept(lines, r), lines, at)
    ensures forall i: nat :: i in at <==>
              i < |lines| && lines[i].Some?
              && (r == All || (r.first <= lines[i].value.day && lines[i].value.day <= r.last))
    decreases |lines|
  {
    hide KeptAt;
    if lines == [] {
      at := [];
      KeptNothing();
    } else {
      var n: nat := |lines| - 1;
      var init := lines[..n];
      var before := KeptAre(init, r);
      KeptSnoc(Kept(init, r), init, before, lines[n]);
      assert lines == init + [lines[n]];
      at := if lines[n].Some? && Within(r, lines[n].value.day) then before + [n] else before;
      forall i: nat ensures i in at <==> i < |lines| && lines[i].Some? &&
                                         (r == All || (r.first <= lines[i].value.day && lines[i].value.day <= r.last))
      {
        if i < n { assert init[i] == lines[i]; }
      }
    }
  }

  lemma KeptNothing()
    ensures KeptAt([], [], [])
  {
  }

  // ---- what the buckets should hold, said without buckets of buckets --------------------------------------

  function TotalOf(es: seq<Entry>, latency: bool): Bucket {
    if es == [] then EMPTY else Add(TotalOf(es[..|es| - 1], latency), es[|es| - 1], latency)
  }

  datatype Figure = Input | Output | CacheRead | CacheCreation | Errors | Latency

  /** What one entry adds to a figure; a status from 400 on is an error. */
  function Counts(e: Entry, f: Figure): Count {
    match f
    case Input => e.input
    case Output => e.output
    case CacheRead => e.cacheRead
    case CacheCreation => e.cacheCreation
    case Errors => Integer(if IsError(e) then 1 else 0)
    case Latency => e.latency
  }

  function Shows(b: Bucket, f: Figure): Count {
    match f
    case Input => b.input
    case Output => b.output
    case CacheRead => b.cacheRead
    case CacheCreation => b.cacheCreation
    case Errors => Integer(b.errors)
    case Latency => b.latencySum
  }

  function Tally(es: seq<Entry>, f: Figure): Count {
    if es == [] then NOTHING else Added(Tally(es[..|es| - 1], f), Counts(es[|es| - 1], f))
  }

  /** A bucket shows, figure by figure, what its entries add up to. */
  lemma {:induction false} TotalsAreTallies(es: seq<Entry>, latency: bool, f: Figure)
    ensures TotalOf(es, latency).calls == |es|
    ensures Shows(TotalOf(es, latency), f) == if f == Latency && !latency then NOTHING else Tally(es, f)
    decreases |es|
  {
    if es != [] { TotalsAreTallies(es[..|es| - 1], latency, f); }
  }

  /** One number for each entry, added up. */
  function SumOf(of: Entry -> real, es: seq<Entry>): real {
    if es == [] then 0.0 else SumOf(of, es[..|es| - 1]) + of(es[|es| - 1])
  }

  lemma AddsUp(a: Count, b: Count)
    ensures Value(Added(a, b)) == Value(a) + Value(b)
  {
  }

  /** Calls are counted, tokens and latencies added up field by field, and errors are the statuses from 400 on. */
  lemma {:induction false} TotalsSay(es: seq<Entry>)
    ensures var b := TotalOf(es, true);
            && b.calls == |es|
            && Value(b.input) == SumOf((e: Entry) => Value(e.input), es)
            && Value(b.output) == SumOf((e: Entry) => Value(e.output), es)
            && Value(b.cacheRead) == SumOf((e: Entry) => Value(e.cacheRead), es)
            && Value(b.cacheCreation) == SumOf((e: Entry) => Value(e.cacheCreation), es)
            && Value(b.latencySum) == SumOf((e: Entry) => Value(e.latency), es)
            && b.errors as real == SumOf((e: Entry) => if Value(e.status) >= 400.0 then 1.0 else 0.0, es)
    decreases |es|
  {
    hide Added;
    if es != [] {
      var init, e := es[..|es| - 1], es[|es| - 1];
      TotalsSay(init);
      var b := TotalOf(init, true);
      AddsUp(b.input, e.input);
      AddsUp(b.output, e.output);
      AddsUp(b.cacheRead, e.cacheRead);
      AddsUp(b.cacheCreation, e.cacheCreation);
      AddsUp(b.latencySum, e.latency);
    }
  }

  function Only<K(==)>(es: seq<Entry>, key: Entry -> K, k: K): seq<Entry> {
    if es == [] then []
    else
      var before := Only(es[..|es| - 1], key, k);
      if key(es[|es| - 1]) == k then before + [es[|es| - 1]] else before
  }

  function Plus(a: Bucket, b: Bucket): Bucket {
    Bucket(a.calls + b.calls, Added(a.input, b.input), Added(a.output, b.output), Added(a.cacheRead, b.cacheRead),
           Added(a.cacheCreation, b.cacheCreation), a.errors + b.errors, Added(a.latencySum, b.latencySum))
  }

  function Sum<K>(f: Family<K>): Bucket {
    if f == [] then EMPTY else Plus(Sum(f[..|f| - 1]), f[|f| - 1].1)
  }

  ghost predicate UniqueKeys<K>(f: Family<K>) { forall i, j :: 0 <= i < j < |f| ==> f[i].0 != f[j].0 }

  /**
   * A family is right for a list of entries: one bucket a key, each holding just the entries of its
   * key, none for a key without entries, and all of them together holding every entry once.
   */
  ghost predicate Right<K(!new)>(f: Family<K>, es: seq<Entry>, key: Entry -> K) {
    && UniqueKeys(f)
    && (forall k: K :: At(f, k) == TotalOf(Only(es, key, k), false))
    && (forall i :: 0 <= i < |f| ==> f[i].1.calls > 0)
    && Sum(f) == TotalOf(es, false)
  }

  lemma AddsOnce(a: Bucket, b: Bucket, e: Entry)
    ensures Plus(Add(a, e, false), b) == Add(Plus(a, b), e, false)
    ensures Plus(a, Add(b, e, false)) == Add(Plus(a, b), e, false)
  {
  }

  lemma {:induction false} SumAfter<K>(f: Family<K>, i: nat, e: Entry)
    requires i < |f|
    ensures Sum(f[i := (f[i].0, Add(f[i].1, e, false))]) == Add(Sum(f), e, false)
    decreases |f|
  {
    hide Add, Plus;
    var g := f[i := (f[i].0, Add(f[i].1, e, false))];
    var last := |f| - 1;
    AddsOnce(Sum(f[..last]), f[last].1, e);
    if i == last {
      assert g[..last] == f[..last];
    } else {
      assert g[..last] == f[..last][i := (f[i].0, Add(f[i].1, e, false))];
      SumAfter(f[..last], i, e);
    }
  }

  lemma IndexUnique<K>(f: Family<K>, k: K, i: nat)
    requires i <= |f| && (i < |f| ==> f[i].0 == k) && forall j :: 0 <= j < i ==> f[j].0 != k
    ensures IndexOf(f, k) == i
  {
  }

  lemma AddedAt<K>(f: Family<K>, k: K, e: Entry, other: K)
    ensures At(AddTo(f, k, e), other) == if other == k then Add(At(f, k), e, false) else At(f, other)
  {
    var g := AddTo(f, k, e);
    var i := IndexOf(f, k);
    if other == k {
      IndexUnique(g, k, i);
    } else {
      var j := IndexOf(f, other);
      IndexUnique(g, other, if j < |f| then j else |g|);
    }
  }

  lemma AddKeepsRight<K(!new)>(f: Family<K>, es: seq<Entry>, key: Entry -> K, e: Entry)
    requires Right(f, es, key)
    ensures Right(AddTo(f, key(e), e), es + [e], key)
  {
    var more, g := es + [e], AddTo(f, key(e), e);
    assert more[..|es|] == es;
    forall k ensures At(g, k) == TotalOf(Only(more, key, k), false) {
      AddedAt(f, key(e), e, k);
      var before := Only(es, key, k);
      if key(e) == k { assert (before + [e])[..|before|] == before; }
    }
    var i := IndexOf(f, key(e));
    if i < |f| {
      SumAfter(f, i, e);
      assert f[i].0 == key(e);
    } else {
      assert g[..|f|] == f;
    }
  }

  datatype Usage = Usage(total: Bucket, providers: Family<string>, scenarios: Family<string>,
                         agents: Family<string>, days: Family<int>)

  /** `fetch_usage`: one pass over the lines of the log. */
  method FetchUsage(lines: seq<Option<Entry>>, name: RangeName, today: int, monthStart: int) returns (u: Usage)
    ensures var es := Kept(lines, RangeOf(name, today, monthStart));
            && u.total == TotalOf(es, true)
            && Right(u.providers, es, (e: Entry) => e.provider)
            && Right(u.scenarios, es, (e: Entry) => e.scenario)
            && Right(u.agents, es, (e: Entry) => e.agent)
            && Right(u.days, es, (e: Entry) => e.day)
  {
    var range := RangeOf(name, today, monthStart);
    ghost var p, s, a, d :=
      (e: Entry) => e.provider, (e: Entry) => e.scenario,
      (e: Entry) => e.agent, (e: Entry) => e.day;
    var total := EMPTY;
    var providers: Family<string>, scenarios: Family<string>, agents: Family<string>, days: Family<int> :=
      [], [], [], [];
    for i := 0 to |lines|
      invariant total == TotalOf(Kept(lines[..i], range), true)
      invariant Right(providers, Kept(lines[..i], range), p) && Right(scenarios, Kept(lines[..i], range), s)
      invariant Right(agents, Kept(lines[..i], range), a) && Right(days, Kept(lines[..i], range), d)
    {
      assert lines[..i + 1][..i] == lines[..i];
      var line := lines[i];
      if line.Some? && Within(range, line.value.day) {
        var e := line.value;
        ghost var es := Kept(lines[..i], range);
        AddKeepsRight(providers, es, p, e);
        AddKeepsRight(scenarios, es, s, e);
        AddKeepsRight(agents, es, a, e);
        AddKeepsRight(days, es, d, e);
        assert (es + [e])[..|es|] == es;
        providers := AddTo(providers, e.provider, e);
        scenarios := AddTo(scenarios, e.scenario, e);
        agents := AddTo(agents, e.agent, e);
        days := AddTo(days, e.day, e);
        total := Add(total, e, true);
      }
    }
    assert lines[..|lines|] == lines;
    return Usage(total, providers, scenarios, agents, days);
  }

  lemma {:induction false} LatencyApart(es: seq<Entry>)
    ensures TotalOf(es, true).(latencySum := NOTHING) == TotalOf(es, false)
    decreases |es|
  {
    if es != [] { LatencyApart(es[..|es| - 1]); }
  }

  /** Every family adds up to the total, field by field. */
  lemma FamiliesAddUp(u: Usage, es: seq<Entry>)
    requires u.total == TotalOf(es, true)
    requires Right(u.providers, es, (e: Entry) => e.provider) && Right(u.scenarios, es, (e: Entry) => e.scenario)
    requires Right(u.agents, es, (e: Entry) => e.agent) && Right(u.days, es, (e: Entry) => e.day)
    ensures Sum(u.providers) == Sum(u.scenarios) == Sum(u.agents) == Sum(u.days) == u.total.(latencySum := NOTHING)
  {
    LatencyApart(es);
  }

  // ---- the days, in order ------------------------------------------------------------------------------------

  function Insert(f: Family<int>, x: (int, Bucket)): Family<int> {
    if f == [] || f[|f| - 1].0 <= x.0 then f + [x] else Insert(f[..|f| - 1], x) + [f[|f| - 1]]
  }

  /** `sorted(by_day.items())` */
  function Sorted(f: Family<int>): Family<int> {
    if f == [] then [] else Insert(Sorted(f[..|f| - 1]), f[|f| - 1])
  }

  ghost predicate InOrder(f: Family<int>) { forall i, j :: 0 <= i < j < |f| ==> f[i].0 <= f[j].0 }

  lemma PlusSwaps(a: Bucket, b: Bucket, c: Bucket)
    ensures Plus(Plus(a, b), c) == Plus(Plus(a, c), b)
  {
  }

  lemma {:induction false} InsertInOrder(f: Family<int>, x: (int, Bucket), top: int)
    requires InOrder(f) && x.0 <= top && forall i :: 0 <= i < |f| ==> f[i].0 <= top
    ensures InOrder(Insert(f, x)) && forall i :: 0 <= i < |Insert(f, x)| ==> Insert(f, x)[i].0 <= top
    decreases |f|
  {
    if f != [] && f[|f| - 1].0 > x.0 { InsertInOrder(f[..|f| - 1], x, f[|f| - 1].0); }
  }

  lemma {:induction false} InsertAddsUp(f: Family<int>, x: (int, Bucket))
    ensures Sum(Insert(f, x)) == Plus(Sum(f), x.1)
    decreases |f|
  {
    if f == [] || f[|f| - 1].0 <= x.0 {
      assert (f + [x])[..|f|] == f;
    } else {
      var init, last := f[..|f| - 1], f[|f| - 1];
      InsertAddsUp(init, x);
      assert (Insert(init, x) + [last])[..|Insert(init, x)|] == Insert(init, x);
      PlusSwaps(Sum(init), x.1, last.1);
    }
  }

  lemma {:induction false} InsertKeepsAll(f: Family<int>, x: (int, Bucket))
    ensures multiset(Insert(f, x)) == multiset(f) + multiset{x}
    decreases |f|
  {
    if f != [] && f[|f| - 1].0 > x.0 {
      InsertKeepsAll(f[..|f| - 1], x);
      assert f == f[..|f| - 1] + [f[|f| - 1]];
    }
  }

  lemma {:induction false} SortedInOrder(f: Family<int>)
    ensures InOrder(Sorted(f))
    decreases |f|
  {
    hide Insert;
    if f == [] {
      assert Sorted(f) == [];
    } else {
      var before, x := Sorted(f[..|f| - 1]), f[|f| - 1];
      SortedInOrder(f[..|f| - 1]);
      InsertInOrder(before, x, if before == [] || before[|before| - 1].0 < x.0 then x.0 else before[|before| - 1].0);
    }
  }

  lemma {:induction false} SortedAddsUp(f: Family<int>)
    ensures Sum(Sorted(f)) == Sum(f)
    decreases |f|
  {
    hide Insert;
    if f != [] {
      SortedAddsUp(f[..|f| - 1]);
      InsertAddsUp(Sorted(f[..|f| - 1]), f[|f| - 1]);
    }
  }

  lemma {:induction false} SortedKeepsAll(f: Family<int>)
    ensures multiset(Sorted(f)) == multiset(f)
    decreases |f|
  {
    hide Insert;
    if f != [] {
      SortedKeepsAll(f[..|f| - 1]);
      InsertKeepsAll(Sorted(f[..|f| - 1]), f[|f| - 1]);
      assert f == f[..|f| - 1] + [f[|f| - 1]];
    }
  }

  /** The daily list is the day buckets in order, and still adds up to the total. */
  lemma DailyAddsUp(u: Usage, es: seq<Entry>)
    requires u.total == TotalOf(es, true) && Right(u.days, es, (e: Entry) => e.day)
    ensures InOrder(Sorted(u.days)) && multiset(Sorted(u.days)) == multiset(u.days)
    ensures Sum(Sorted(u.days)) == u.total.(latencySum := NOTHING)
  {
    SortedInOrder(u.days);
    SortedKeepsAll(u.days);
    SortedAddsUp(u.days);
    LatencyApart(es);
  }

  // ---- derived figures -----------------------------------------------------------------------------------------

  function Half(quotient: int, remainder: int, calls: int): int {
    quotient + if 2 * remainder > calls || (2 * remainder == calls && quotient % 2 == 1) then 1 else 0
  }

  /** `round(x)`: to the nearest integer, and to the even one of two that are as near. */
  function Round(x: real): int {
    var q := x.Floor;
    var d := x - q as real;
    q + if d > 0.5 || (d == 0.5 && q % 2 == 1) then 1 else 0
  }

  datatype Finished = Finished(hitRate: Option<real>, average: Option<int>)

  function Billed(b: Bucket): real { Value(b.input) + Value(b.cacheRead) + Value(b.cacheCreation) }

  /** `_finish_usage`, for the bucket that keeps latencies. */
  function Finish(b: Bucket): Finished {
    Finished(if Billed(b) == 0.0 then None else Some(Value(b.cacheRead) / Billed(b)),
             if b.calls == 0 then None
             else if b.latencySum.Integer? then Some(Half(b.latencySum.n / b.calls, b.latencySum.n % b.calls, b.calls))
             else Some(Round(b.latencySum.x / b.calls as real)))
  }

  predicate IsHalfEven(x: real, r: int) {
    && -0.5 <= x - r as real <= 0.5
    && (x - r as real == 0.5 || x - r as real == -0.5 ==> r % 2 == 0)
  }

  lemma RoundIsHalfEven(x: real, r: int)
    ensures IsHalfEven(x, r) <==> r == Round(x)
  {
    var q := x.Floor;
    assert q as real <= x < (q + 1) as real;
    if IsHalfEven(x, r) { assert r == q || r == q + 1; }
  }

  /** The quotient of two integers by its floor and what is left. */
  lemma QuotientParts(n: int, c: int)
    requires c > 0
    ensures var x := n as real / c as real;
            && x.Floor == n / c
            && (x - (n / c) as real > 0.5 <==> 2 * (n % c) > c)
            && (x - (n / c) as real == 0.5 <==> 2 * (n % c) == c)
  {
    var x, q, rem := n as real / c as real, n / c, n % c;
    assert n == q * c + rem;
    assert n as real == q as real * c as real + rem as real by { assert (q * c) as real == q as real * c as real; }
    var f := rem as real / c as real;
    assert f * c as real == rem as real;
    SameQuotient(n as real, q as real, f, c as real);
    assert x == q as real + f;
    Halves(rem, c);
  }

  lemma SameQuotient(n: real, q: real, f: real, c: real)
    requires c > 0.0 && n == q * c + f * c
    ensures n / c == q + f
  {
    assert (q + f) * c == n;
  }

  lemma Halves(rem: int, c: int)
    requires 0 <= rem < c
    ensures var f := rem as real / c as real;
            0.0 <= f < 1.0 && (f > 0.5 <==> 2 * rem > c) && (f == 0.5 <==> 2 * rem == c)
  {
    var f := rem as real / c as real;
    assert f * c as real == rem as real;
    Scale(f, 0.0, c as real);
    Scale(f, 1.0, c as real);
    Scale(f, 0.5, c as real);
  }

  lemma Scale(f: real, g: real, c: real)
    requires c > 0.0
    ensures (f > g <==> f * c > g * c) && (f == g <==> f * c == g * c) && (f < g <==> f * c < g * c)
  {
    assert f * c - g * c == (f - g) * c;
    Sign(f - g, c);
  }

  lemma Sign(d: real, c: real)
    requires c > 0.0
    ensures (d > 0.0 <==> d * c > 0.0) && (d == 0.0 <==> d * c == 0.0)
  {
  }

  /**
   * The average latency is the exact quotient rounded half to even, and nothing else is, whether the
   * sum is an integer or a fraction.
   */
  lemma AverageIsHalfEven(b: Bucket, r: int)
    requires b.calls > 0
    ensures IsHalfEven(Value(b.latencySum) / b.calls as real, r) <==> Finish(b).average == Some(r)
  {
    RoundIsHalfEven(Value(b.latencySum) / b.calls as real, r);
    if b.latencySum.Integer? { QuotientParts(b.latencySum.n, b.calls); }
  }

  /** The hit rate is there unless nothing was billed, and is a proportion. */
  lemma HitRateIsProportion(b: Bucket)
    ensures Finish(b).hitRate == None <==>
            Value(b.input) == 0.0 && Value(b.cacheRead) == 0.0 && Value(b.cacheCreation) == 0.0
    ensures Finish(b).hitRate.Some? ==> 0.0 <= Finish(b).hitRate.value <= 1.0
    ensures Finish(b).hitRate.Some? ==>
              Finish(b).hitRate.value * (Value(b.input) + Value(b.cacheRead) + Value(b.cacheCreation)) ==
              Value(b.cacheRead)
  {
    if Billed(b) > 0.0 { Proportion(Value(b.cacheRead), Billed(b)); }
  }

  lemma Proportion(x: real, y: real)
    requires 0.0 <= x <= y && y > 0.0
    ensures 0.0 <= x / y <= 1.0
  {
    assert x / y * y == x;
  }
}
