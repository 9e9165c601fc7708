/** What the usage scanner counts, said by the documents and the bytes it is given. */
module UsageCounts {
  import opened Prelude
  import opened ByteLines
  import opened UsageExtractor
  import UsageLanes

  // ---- which values count -------------------------------------------------------------------------

  datatype Figure = InputTokens | OutputTokens | CacheRead | CacheCreation

  predicate Field(u: UsageObject, key: string, v: int) { key in u.fields && u.fields[key] == v }

  /** A usage object as Anthropic names its members. */
  predicate Native(u: UsageObject, f: Figure, v: int) {
    match f
    case InputTokens => Field(u, "input_tokens", v)
    case OutputTokens => Field(u, "output_tokens", v)
    case CacheRead => Field(u, "cache_read_input_tokens", v)
    case CacheCreation => Field(u, "cache_creation_input_tokens", v)
  }

  /** A usage object that counts gives this value for a figure. */
  predicate Shows(w: Wire, u: UsageObject, f: Figure, v: int) {
    match w
    case Messages => Native(u, f, v)
    case Responses => Native(u, f, v) || (f == CacheRead && u.inputCached == Some(v))
    case Chat =>
      match f
      case InputTokens => Field(u, "prompt_tokens", v)
      case OutputTokens => Field(u, "completion_tokens", v)
      case CacheRead => u.promptCached == Some(v)
      case CacheCreation => false
  }

  /** The usage object of a document of the stream, if it is one that counts. */
  function UsageOf(w: Wire, d: Doc): Option<UsageObject> {
    match w
    case Chat => d.usage
    case Responses => if d.kind in {"response.completed", "response.incomplete"} then d.responseUsage else None
    case Messages =>
      if d.kind == "message_start" then d.messageUsage
      else if d.kind == "message_delta" then d.usage
      else None
  }

  predicate Given(w: Wire, us: seq<Option<UsageObject>>, f: Figure, v: int) {
    exists k :: 0 <= k < |us| && us[k].Some? && Shows(w, us[k].value, f, v)
  }

  function Counter(c: Counters, f: Figure): int {
    match f
    case InputTokens => c.input
    case OutputTokens => c.output
    case CacheRead => c.cacheRead
    case CacheCreation => c.cacheCreation
  }

  /** Every counter is the greatest of 0 and all the values given for its figure. */
  ghost predicate Greatest(w: Wire, c: Counters, us: seq<Option<UsageObject>>) {
    forall f: Figure ::
      && 0 <= Counter(c, f)
      && (forall v :: Given(w, us, f, v) ==> v <= Counter(c, f))
      && (Counter(c, f) == 0 || Given(w, us, f, Counter(c, f)))
  }

  lemma GivenSnoc(w: Wire, us: seq<Option<UsageObject>>, u: Option<UsageObject>, f: Figure, v: int)
    ensures Given(w, us + [u], f, v) <==> Given(w, us, f, v) || (u.Some? && Shows(w, u.value, f, v))
  {
    hide Shows;
    var all := us + [u];
    assert all[|us|] == u && forall k :: 0 <= k < |us| ==> all[k] == us[k];
    if k :| 0 <= k < |us| && us[k].Some? && Shows(w, us[k].value, f, v) {
      assert all[k].Some? && Shows(w, all[k].value, f, v);
    }
  }

  /** One merge takes each counter to the greater of itself and what the object shows. */
  lemma MergeShows(w: Wire, c: Counters, u: UsageObject, f: Figure)
    ensures var n, m := Counter(c, f), Counter(MergeWire(w, c, Some(u)), f);
            && n <= m
            && (forall v :: Shows(w, u, f, v) ==> v <= m)
            && (m == n || Shows(w, u, f, m))
  {
  }

  lemma GreatestSnoc(w: Wire, c: Counters, us: seq<Option<UsageObject>>, u: Option<UsageObject>)
    requires Greatest(w, c, us)
    ensures Greatest(w, MergeWire(w, c, u), us + [u])
  {
    hide Given, Shows, Counter;
    var d := MergeWire(w, c, u);
    forall f: Figure
      ensures 0 <= Counter(d, f) && (forall v :: Given(w, us + [u], f, v) ==> v <= Counter(d, f))
      ensures Counter(d, f) == 0 || Given(w, us + [u], f, Counter(d, f))
    {
      if u.Some? {
        hide MergeWire;
        MergeShows(w, c, u.value, f);
        forall v | Given(w, us + [u], f, v) ensures v <= Counter(d, f) { GivenSnoc(w, us, u, f, v); }
        GivenSnoc(w, us, u, f, Counter(d, f));
      } else {
        forall v ensures Given(w, us + [u], f, v) <==> Given(w, us, f, v) { GivenSnoc(w, us, u, f, v); }
      }
    }
  }

  function UsagesOf(w: Wire, docs: seq<Doc>): seq<Option<UsageObject>> {
    if docs == [] then [] else UsagesOf(w, docs[..|docs| - 1]) + [UsageOf(w, docs[|docs| - 1])]
  }

  lemma DocMerges(w: Wire, c: Counters, d: Doc)
    ensures MergeDoc(w, c, d) == MergeWire(w, c, UsageOf(w, d))
  {
  }

  lemma NothingGiven(w: Wire)
    ensures Greatest(w, ZERO, [])
  {
  }

  /** For any documents on any wire. */
  lemma {:induction false} CountersAreGreatest(w: Wire, docs: seq<Doc>)
    ensures Greatest(w, UsageLanes.MergeDocs(w, ZERO, docs), UsagesOf(w, docs))
  {
    hide Greatest, MergeDoc, MergeWire;
    if docs == [] {
      NothingGiven(w);
    } else {
      var init, d := docs[..|docs| - 1], docs[|docs| - 1];
      CountersAreGreatest(w, init);
      var c := UsageLanes.MergeDocs(w, ZERO, init);
      DocMerges(w, c, d);
      GreatestSnoc(w, c, UsagesOf(w, init), UsageOf(w, d));
    }
  }

  // ---- documents in frames --------------------------------------------------------------------------

  /** The document behind `data:` and one space at most, if the line carries one. */
  function LineDoc(parse: DocParser, line: Bytes): Option<Doc> {
    if "data: " <= line then parse(line[6..]) else if "data:" <= line then parse(line[5..]) else None
  }

  function LineDocs(parse: DocParser, lines: seq<Bytes>): seq<Doc> {
    if lines == [] then []
    else
      LineDocs(parse, lines[..|lines| - 1])
      + match LineDoc(parse, lines[|lines| - 1]) case Some(d) => [d] case None => []
  }

  function FrameDocs(parse: DocParser, frames: seq<Bytes>): seq<Doc> {
    if frames == [] then []
    else FrameDocs(parse, frames[..|frames| - 1])
         + LineDocs(parse, Lines(frames[|frames| - 1]) + [Rest(frames[|frames| - 1])])
  }

  lemma {:induction false} MergeDocsAppend(w: Wire, c: Counters, a: seq<Doc>, b: seq<Doc>)
    ensures UsageLanes.MergeDocs(w, c, a + b) == UsageLanes.MergeDocs(w, UsageLanes.MergeDocs(w, c, a), b)
    decreases |b|
  {
    hide MergeDoc;
    if b == [] {
      assert a + b == a;
    } else {
      assert (a + b)[..|a + b| - 1] == a + b[..|b| - 1];
      MergeDocsAppend(w, c, a, b[..|b| - 1]);
    }
  }

  lemma LineMerges(parse: DocParser, w: Wire, c: Counters, line: Bytes)
    ensures ConsumeLine(parse, w, c, line) ==
            match LineDoc(parse, line) case Some(d) => MergeDoc(w, c, d) case None => c
  {
    hide MergeDoc;
    SpaceBehind(line);
    if "data:" <= line && " " <= line[5..] { assert line[5..][1..] == line[6..]; }
  }

  lemma SpaceBehind(line: Bytes)
    ensures "data: " <= line <==> "data:" <= line && " " <= line[5..]
  {
    if "data: " <= line { assert "data: "[..5] == "data:" && line[5] == ' '; }
    if "data:" <= line && " " <= line[5..] { assert line[5] == ' ' && line[..6] == line[..5] + [' ']; }
  }

  lemma {:induction false} LinesMerge(parse: DocParser, w: Wire, c: Counters, lines: seq<Bytes>)
    ensures ConsumeLines(parse, w, c, lines) == UsageLanes.MergeDocs(w, c, LineDocs(parse, lines))
    decreases |lines|
  {
    hide ConsumeLine, LineDoc, MergeDoc;
    if lines != [] {
      var init, last := lines[..|lines| - 1], lines[|lines| - 1];
      LinesMerge(parse, w, c, init);
      LineMerges(parse, w, UsageLanes.MergeDocs(w, c, LineDocs(parse, init)), last);
      var more := match LineDoc(parse, last) case Some(d) => [d] case None => [];
      MergeDocsAppend(w, c, LineDocs(parse, init), more);
      if more != [] { assert more[..0] == []; }
    }
  }

  lemma {:induction false} FramesMerge(parse: DocParser, w: Wire, c: Counters, frames: seq<Bytes>)
    ensures ConsumeAll(parse, w, c, frames) == UsageLanes.MergeDocs(w, c, FrameDocs(parse, frames))
    decreases |frames|
  {
    hide ConsumeLines, LineDocs, MergeDoc;
    if frames != [] {
      var init, last := frames[..|frames| - 1], frames[|frames| - 1];
      FramesMerge(parse, w, c, init);
      var lines := Lines(last) + [Rest(last)];
      LinesMerge(parse, w, UsageLanes.MergeDocs(w, c, FrameDocs(parse, init)), lines);
      MergeDocsAppend(w, c, FrameDocs(parse, init), LineDocs(parse, lines));
    }
  }

  /** Over bytes, however cut: the counters are the greatest values in the complete frames. */
  lemma StreamCounts(parse: DocParser, w: Wire, pieces: seq<Bytes>)
    requires NeverOverLimit(Concat(pieces))
    ensures Greatest(w, FeedAll(parse, w, pieces).counters, UsagesOf(w, FrameDocs(parse, Scan(Concat(pieces)).frames)))
  {
    hide Greatest, Scan, ConsumeAll, UsagesOf, FrameDocs;
    FeedsAreOneScan(parse, w, pieces);
    var frames := Scan(Concat(pieces)).frames;
    FramesMerge(parse, w, ZERO, frames);
    CountersAreGreatest(w, FrameDocs(parse, frames));
  }

  // ---- where frames end -----------------------------------------------------------------------------

  /** A blank line, in any of the three ways to end a line. */
  ghost predicate BlankLineAt(b: Bytes, k: int) {
    Occurs(b, "\n\n", k) || Occurs(b, "\r\n\r\n", k) || Occurs(b, "\r\r", k)
  }

  lemma SeparatorsAre(b: Bytes, k: int)
    ensures SepAt(b, k) > 0 <==> BlankLineAt(b, k)
  {
    hide Occurs;
  }

  lemma SeparatorIs(b: Bytes, sep: Bytes, k: int)
    requires Occurs(b, sep, k) && (sep == "\n\n" || sep == "\r\n\r\n" || sep == "\r\r")
    ensures SepAt(b, k) == |sep| && b[k] == sep[0]
  {
    FirstsDiffer(b, k);
    assert b[k..k + |sep|][0] == b[k];
  }

  lemma NextIs(b: Bytes, k: nat)
    requires SepAt(b, k) > 0 && forall j :: 0 <= j < k ==> SepAt(b, j) == 0
    ensures k < |b| && NextSep(b, 0) == Sep(k, SepAt(b, k), b[k])
  {
    Inside(b, k);
    hide SepAt;
    var s := NextSep(b, 0);
    assert s.Sep? && s.at == k;
  }

  lemma Inside(b: Bytes, k: int)
    requires SepAt(b, k) > 0
    ensures 0 <= k < |b|
  {
  }

  /** The first blank line ends a frame; frames of CRLF lines are handed on with LF lines, others as they are. */
  lemma BlankLineEnds(f: Bytes, sep: Bytes, more: Bytes)
    requires sep == "\n\n" || sep == "\r\n\r\n" || sep == "\r\r"
    requires forall k :: 0 <= k < |f| ==> !BlankLineAt(f + sep + more, k)
    ensures Scan(f + sep + more) ==
            Scanned([if sep == "\r\n\r\n" then CrlfToLf(f) else f] + Scan(more).frames, Scan(more).rest)
  {
    hide CrlfToLf, SepAt, NextSep, Scan, BlankLineAt;
    var b := f + sep + more;
    assert b[|f|..|f| + |sep|] == sep;
    SeparatorIs(b, sep, |f|);
    forall k | 0 <= k < |f| ensures SepAt(b, k) == 0 { SeparatorsAre(b, k); }
    NextIs(b, |f|);
    assert b[..|f|] == f && b[|f| + |sep|..] == more;
    ScanUnfold(b, NextSep(b, 0), f, more);
    if sep == "\r\r" {
      assert b[0..|f|] == f;
      CrFrameUnchanged(b, 0, NextSep(b, 0));
    }
  }

  lemma NoBlankLineNoFrame(b: Bytes)
    requires forall k :: 0 <= k <= |b| ==> !BlankLineAt(b, k)
    ensures Scan(b) == Scanned([], b)
  {
    hide SepAt, BlankLineAt;
    var s := NextSep(b, 0);
    if s.Sep? { SeparatorsAre(b, s.at); }
  }

  /** A stretch of more than four mebibytes without a blank line ends the counting. */
  lemma OverLimitEnds(parse: DocParser, w: Wire, u: State, chunk: Bytes)
    requires !u.truncated
    ensures var t := FeedSse(parse, w, u, chunk); t.truncated <==> |Scan(u.buffer + chunk).rest| > 4194304
  {
  }

  // ---- a plain document -------------------------------------------------------------------------------

  function FeedAllJson(parse: DocParser, w: Wire, pieces: seq<Bytes>): State {
    if pieces == [] then FRESH
    else FeedJson(parse, w, FeedAllJson(parse, w, pieces[..|pieces| - 1]), pieces[|pieces| - 1])
  }

  lemma {:induction false} WaitsForDocument(parse: DocParser, w: Wire, pieces: seq<Bytes>)
    requires |Concat(pieces)| <= 8388608
    requires forall k :: 0 < k <= |pieces| ==> parse(Concat(pieces[..k])) == None
    ensures FeedAllJson(parse, w, pieces) == State(ZERO, false, Concat(pieces))
    decreases |pieces|
  {
    if pieces != [] {
      var init := pieces[..|pieces| - 1];
      assert forall k :: 0 < k <= |init| ==> init[..k] == pieces[..k];
      WaitsForDocument(parse, w, init);
      assert pieces[..|pieces|] == pieces;
    }
  }

  /**
   * A document that comes in any pieces, and cannot be read before its last one: the counters are the
   * greatest values of its own usage object; beyond eight mebibytes nothing is counted.
   */
  lemma DocumentCounts(parse: DocParser, w: Wire, pieces: seq<Bytes>)
    requires pieces != [] && parse(Concat(pieces)).Some?
    requires |Concat(pieces[..|pieces| - 1])| <= 8388608
    requires forall k :: 0 < k < |pieces| ==> parse(Concat(pieces[..k])) == None
    ensures var u := FeedAllJson(parse, w, pieces);
            if |Concat(pieces)| > 8388608 then u == State(ZERO, true, [])
            else !u.truncated && u.buffer == [] && Greatest(w, u.counters, [parse(Concat(pieces)).value.usage])
  {
    hide Greatest, MergeWire;
    var init := pieces[..|pieces| - 1];
    assert forall k :: 0 < k <= |init| ==> init[..k] == pieces[..k];
    WaitsForDocument(parse, w, init);
    NothingGiven(w);
    if |Concat(pieces)| <= 8388608 {
      var usage := parse(Concat(pieces)).value.usage;
      GreatestSnoc(w, ZERO, [], usage);
      assert [] + [usage] == [usage];
    }
  }
}
