/** Two ways to count the same stream: behind the translator, and on the raw chunks. */
module UsageLanes {
  import opened Prelude
  import opened ByteLines
  import opened ChatStream
  import opened MessagesStream
  import opened Translator
  import opened W = Wire
  import U = UsageExtractor

  /** The JSON objects behind the events and chunks, as the scanner reads them. */
  function EventDoc(ev: Event): U.Doc {
    match ev
    case MessageStart => U.Doc("message_start", None, Some(U.UsageObject(START_USAGE, None, None)), None)
    case MessageDelta(_, u) => U.Doc("message_delta", Some(U.UsageObject(u, None, None)), None, None)
    case _ => U.Doc(EventName(ev), None, None, None)
  }

  function Member(m: map<string, int>, key: string, v: Option<int>): map<string, int> {
    if v.Some? then m[key := v.value] else m
  }

  function UsageDoc(u: Usage): U.UsageObject {
    U.UsageObject(Member(Member(map[], "prompt_tokens", u.prompt), "completion_tokens", u.completion), u.cached, None)
  }

  function ChunkDoc(e: Chunk): U.Doc {
    U.Doc("", match e.usage case Some(u) => Some(UsageDoc(u)) case None => None, None, None)
  }

  /** One-line JSON text that the scanner reads as the given object. */
  ghost predicate Readable<T(!new)>(print_: T -> Bytes, parse: U.DocParser, doc: T -> U.Doc) {
    forall x :: CleanObject(print_(x)) && parse(print_(x)) == Some(doc(x))
  }

  // ---- the scanner on frames ------------------------------------------------------------------

  lemma NextSepFrame(f: Bytes, more: Bytes)
    requires FrameBody(f)
    ensures U.NextSep(f + "\n\n" + more, 0) == U.Sep(|f|, 2, '\n')
  {
    var b := f + "\n\n" + more;
    assert b[|f|..|f| + 2] == "\n\n";
    forall k | 0 <= k < |f| ensures U.SepAt(b, k) == 0 {
      assert b[k] == f[k] != '\r';
      U.Firsts(b, k);
      PairAt(b, k);
      if k + 1 < |f| {
        PairAt(f, k);
        assert b[k + 1] == f[k + 1];
      }
    }
    assert U.SepAt(b, |f|) == 2;
  }

  lemma ScanFrame(f: Bytes, more: Bytes)
    requires FrameBody(f)
    ensures U.Scan(f + "\n\n" + more) == U.Cons(f, U.Scan(more))
  {
    NextSepFrame(f, more);
    SliceFrame(f, more);
    U.ScanUnfold(f + "\n\n" + more, U.Sep(|f|, 2, '\n'), f, more);
  }

  lemma SliceFrame(f: Bytes, more: Bytes)
    ensures var b := f + "\n\n" + more; f == b[..|f|] && more == b[|f| + 2..]
  {
  }

  lemma NothingToScan()
    ensures U.Scan([]) == U.Scanned([], [])
  {
    assert U.NextSep([], 0).NoSep?;
  }

  lemma {:induction false} ScanFrames(bodies: seq<Bytes>)
    requires forall k :: 0 <= k < |bodies| ==> FrameBody(bodies[k])
    ensures U.Scan(Frames(bodies)) == U.Scanned(bodies, [])
  {
    hide U.Scan, FrameBody;
    if bodies == [] {
      NothingToScan();
    } else {
      var f, more := bodies[0], bodies[1..];
      assert forall k :: 0 <= k < |more| ==> more[k] == bodies[k + 1];
      ScanFrames(more);
      ScanFrame(f, Frames(more));
      assert bodies == [f] + more;
    }
  }

  lemma ConsumeData(parse: U.DocParser, w: U.Wire, c: U.Counters, json: Bytes)
    requires CleanObject(json) || json == "[DONE]"
    ensures U.Consume(parse, w, c, "data: " + json) ==
            match parse(json) case Some(d) => U.MergeDoc(w, c, d) case None => c
  {
    var line := "data: " + json;
    forall k | 0 <= k < |line| ensures line[k] != '\n' { if 6 <= k { assert line[k] == json[k - 6]; } }
    NoNewline(line);
    assert U.SplitLines(line) == [line] && [line][..0] == [];
    assert U.ConsumeLines(parse, w, c, [line]) == U.ConsumeLine(parse, w, c, line);
    DataLine(parse, w, c, json);
  }

  lemma DataLine(parse: U.DocParser, w: U.Wire, c: U.Counters, json: Bytes)
    ensures U.ConsumeLine(parse, w, c, "data: " + json) ==
            match parse(json) case Some(d) => U.MergeDoc(w, c, d) case None => c
  {
    var line := "data: " + json;
    assert line[..5] == "data:" && line[5..] == " " + json && (" " + json)[1..] == json;
  }

  lemma ConsumeEvent(parse: U.DocParser, w: U.Wire, c: U.Counters, name: Bytes, json: Bytes)
    requires CleanName(name) && CleanObject(json)
    ensures U.Consume(parse, w, c, "event: " + name + "\n" + "data: " + json) ==
            match parse(json) case Some(d) => U.MergeDoc(w, c, d) case None => c
  {
    var l1, l2 := "event: " + name, "data: " + json;
    assert "event: " + name + "\n" + "data: " + json == l1 + "\n" + l2;
    PrefixedLine("event: ", name);
    PrefixedLine("data: ", json);
    TwoLines(l1, l2);
    assert l1[0] == 'e';
    assert [l1, l2][..1] == [l1] && [l1][..0] == [];
    assert U.ConsumeLines(parse, w, c, [l1]) == c;
    DataLine(parse, w, c, json);
  }

  function MergeDocs(w: U.Wire, c: U.Counters, docs: seq<U.Doc>): U.Counters {
    if docs == [] then c else U.MergeDoc(w, MergeDocs(w, c, docs[..|docs| - 1]), docs[|docs| - 1])
  }

  function EventDocs(evs: seq<Event>): seq<U.Doc> {
    if evs == [] then [] else EventDocs(evs[..|evs| - 1]) + [EventDoc(evs[|evs| - 1])]
  }

  function ChunkDocs(es: seq<Chunk>): seq<U.Doc> {
    if es == [] then [] else ChunkDocs(es[..|es| - 1]) + [ChunkDoc(es[|es| - 1])]
  }

  lemma {:induction false} ConsumeEventBodies(print_: Event -> Bytes, parse: U.DocParser, evs: seq<Event>)
    requires Readable(print_, parse, EventDoc)
    ensures U.ConsumeAll(parse, U.Messages, U.ZERO, EventBodies(print_, evs)) ==
            MergeDocs(U.Messages, U.ZERO, EventDocs(evs))
  {
    if evs != [] {
      var init, ev := evs[..|evs| - 1], evs[|evs| - 1];
      ConsumeEventBodies(print_, parse, init);
      var c := U.ConsumeAll(parse, U.Messages, U.ZERO, EventBodies(print_, init));
      assert parse(print_(ev)) == Some(EventDoc(ev));
      ConsumeEvent(parse, U.Messages, c, EventName(ev), print_(ev));
    }
  }

  lemma {:induction false} ConsumeChunkBodies(print_: Chunk -> Bytes, parse: U.DocParser, es: seq<Chunk>)
    requires Readable(print_, parse, ChunkDoc)
    ensures U.ConsumeAll(parse, U.Chat, U.ZERO, ChunkBodies(print_, es)) == MergeDocs(U.Chat, U.ZERO, ChunkDocs(es))
  {
    if es != [] {
      var init, e := es[..|es| - 1], es[|es| - 1];
      ConsumeChunkBodies(print_, parse, init);
      var c := U.ConsumeAll(parse, U.Chat, U.ZERO, ChunkBodies(print_, init));
      assert parse(print_(e)) == Some(ChunkDoc(e));
      ConsumeData(parse, U.Chat, c, print_(e));
    }
  }

  /** Counters of a scanner that is fed a text in pieces and never runs over its limit. */
  lemma Counted(parse: U.DocParser, w: U.Wire, bodies: seq<Bytes>, pieces: seq<Bytes>)
    requires forall k :: 0 <= k < |bodies| ==> FrameBody(bodies[k])
    requires Concat(pieces) == Frames(bodies) && U.NeverOverLimit(Frames(bodies))
    ensures U.FeedAll(parse, w, pieces) == U.State(U.ConsumeAll(parse, w, U.ZERO, bodies), false, [])
  {
    U.FeedsAreOneScan(parse, w, pieces);
    ScanFrames(bodies);
  }

  // ---- what the two lanes count ---------------------------------------------------------------

  function LastUsage(es: seq<Chunk>): Option<Usage> {
    if es == [] then None
    else if es[|es| - 1].usage.Some? then es[|es| - 1].usage
    else LastUsage(es[..|es| - 1])
  }

  predicate Neutral(ev: Event) { !ev.MessageDelta? }

  lemma {:induction false} NeutralEvents(evs: seq<Event>)
    requires forall k :: 0 <= k < |evs| ==> Neutral(evs[k])
    ensures MergeDocs(U.Messages, U.ZERO, EventDocs(evs)) == U.ZERO
  {
    if evs != [] {
      assert forall k :: 0 <= k < |evs| - 1 ==> evs[..|evs| - 1][k] == evs[k];
      NeutralEvents(evs[..|evs| - 1]);
      assert Neutral(evs[|evs| - 1]);
    }
  }

  lemma {:induction false} RunIsNeutral(s: Translator.State, atoms: seq<Atom>)
    ensures forall k :: 0 <= k < |Run(s, atoms).out| ==> Neutral(Run(s, atoms).out[k])
    ensures forall a :: a in atoms && a.UsageSeen? ==> Run(s, atoms).s.usage.Some?
    ensures (forall a :: a in atoms ==> !a.UsageSeen?) ==> Run(s, atoms).s.usage == s.usage
  {
    if atoms != [] {
      var pre := atoms[..|atoms| - 1];
      RunIsNeutral(s, pre);
      assert atoms == pre + [atoms[|atoms| - 1]];
    }
  }

  lemma {:induction false} ChunksUsage(es: seq<Chunk>)
    requires ErrorFree(es)
    ensures var r := Chunks(INITIAL, es);
            r.s.usage == LastUsage(es) && forall k :: 0 <= k < |r.out| ==> Neutral(r.out[k])
  {
    if es != [] {
      var init, e := es[..|es| - 1], es[|es| - 1];
      ChunksUsage(init);
      var r := Chunks(INITIAL, init);
      RunIsNeutral(r.s, Atoms(e));
      ChunkUsage(r.s, e);
    }
  }

  lemma ChoiceKeepsUsage(s: Translator.State, c: Choice)
    ensures Run(s, ChoiceAtoms(c)).s.usage == s.usage
  {
    RunIsNeutral(s, ChoiceAtoms(c));
  }

  lemma ChunkUsage(s: Translator.State, e: Chunk)
    ensures Run(s, Atoms(e)).s.usage == if e.usage.Some? then e.usage else s.usage
  {
    var ch := match e.choice case Some(c) => ChoiceAtoms(c) case None => [];
    if e.usage.Some? {
      var seen := UsageSeen(e.usage.value);
      RunSnoc(s, [], seen);
      assert [] + [seen] == [seen];
      assert Run(s, [seen]).s == s.(usage := e.usage);
      RunAppend(s, [seen], ch);
      if e.choice.Some? { ChoiceKeepsUsage(s.(usage := e.usage), e.choice.value); }
    } else {
      assert Atoms(e) == ch;
      if e.choice.Some? { ChoiceKeepsUsage(s, e.choice.value); }
    }
  }

  function Least(v: Option<int>): int { U.Max(0, v.GetOr(0)) }

  /** What the lane behind the translator counts: the last usage object and nothing else. */
  function TranslatedCount(es: seq<Chunk>): U.Counters {
    var u := LastUsage(es).GetOr(Usage(None, None, None));
    U.Counters(Least(u.prompt), Least(u.completion), Least(u.cached), 0)
  }

  lemma EventDocsSnoc(evs: seq<Event>, ev: Event)
    ensures EventDocs(evs + [ev]) == EventDocs(evs) + [EventDoc(ev)]
  {
    assert (evs + [ev])[..|evs|] == evs;
  }

  lemma MergeDocsSnoc(w: U.Wire, c: U.Counters, docs: seq<U.Doc>, d: U.Doc)
    ensures MergeDocs(w, c, docs + [d]) == U.MergeDoc(w, MergeDocs(w, c, docs), d)
  {
    assert (docs + [d])[..|docs|] == docs;
  }

  lemma CountedOnce(pre: seq<Event>, stop: string, u: map<string, int>, evs: seq<Event>)
    requires forall k :: 0 <= k < |pre| ==> Neutral(pre[k])
    requires evs == pre + [MessageDelta(stop, u)] + [MessageStop]
    ensures MergeDocs(U.Messages, U.ZERO, EventDocs(evs)) == U.Merge(U.ZERO, U.UsageObject(u, None, None))
  {
    var d := MessageDelta(stop, u);
    NeutralEvents(pre);
    EventDocsSnoc(pre, d);
    EventDocsSnoc(pre + [d], MessageStop);
    MergeDocsSnoc(U.Messages, U.ZERO, EventDocs(pre), EventDoc(d));
    MergeDocsSnoc(U.Messages, U.ZERO, EventDocs(pre) + [EventDoc(d)], EventDoc(MessageStop));
  }

  function BeforeDelta(s: Translator.State): seq<Event> {
    (if s.started then [] else [MessageStart]) + CloseBlock(s.(done := true, started := true)).out
  }

  lemma CloseShape(s: Translator.State)
    ensures Close(s).out ==
            BeforeDelta(s) + [MessageDelta(StopReason(s.finish), UsageFromOpenAi(s.usage))] + [MessageStop]
    ensures forall k :: 0 <= k < |BeforeDelta(s)| ==> Neutral(BeforeDelta(s)[k])
  {
  }

  lemma MergedUsage(u: Option<Usage>)
    ensures U.Merge(U.ZERO, U.UsageObject(UsageFromOpenAi(u), None, None)) ==
            var v := u.GetOr(Usage(None, None, None));
            U.Counters(Least(v.prompt), Least(v.completion), Least(v.cached), 0)
  {
  }

  lemma TranslatedLane(es: seq<Chunk>)
    requires ErrorFree(es)
    ensures MergeDocs(U.Messages, U.ZERO, EventDocs(Translate(es))) == TranslatedCount(es)
  {
    ChunksUsage(es);
    var r := Chunks(INITIAL, es);
    CloseShape(r.s);
    MergedUsage(r.s.usage);
    var stop, u := StopReason(r.s.finish), UsageFromOpenAi(r.s.usage);
    RegroupTail(r.out, BeforeDelta(r.s), MessageDelta(stop, u), MessageStop);
    CountedOnce(r.out + BeforeDelta(r.s), stop, u, Translate(es));
  }

  lemma RegroupTail(a: seq<Event>, b: seq<Event>, x: Event, y: Event)
    ensures a + (b + [x] + [y]) == (a + b) + [x] + [y]
  {
  }

  /** Every usage object of the stream stays within these counts. */
  ghost predicate Within(es: seq<Chunk>, c: U.Counters) {
    forall k :: 0 <= k < |es| && es[k].usage.Some? ==>
      var u := es[k].usage.value;
      u.prompt.GetOr(0) <= c.input && u.completion.GetOr(0) <= c.output && u.cached.GetOr(0) <= c.cacheRead
  }

  function ChatCount(es: seq<Chunk>): U.Counters { MergeDocs(U.Chat, U.ZERO, ChunkDocs(es)) }

  lemma {:induction false} ChatLane(es: seq<Chunk>)
    ensures var c := ChatCount(es);
            0 <= c.input && 0 <= c.output && 0 <= c.cacheRead && c.cacheCreation == 0 && Within(es, c)
    ensures var c := ChatCount(es);
            forall d: U.Counters :: 0 <= d.input && 0 <= d.output && 0 <= d.cacheRead && Within(es, d) ==>
              c.input <= d.input && c.output <= d.output && c.cacheRead <= d.cacheRead
  {
    if es != [] {
      var init, e := es[..|es| - 1], es[|es| - 1];
      ChatLane(init);
      MergeDocsSnoc(U.Chat, U.ZERO, ChunkDocs(init), ChunkDoc(e));
      assert forall k :: 0 <= k < |init| ==> init[k] == es[k];
      var c, c' := ChatCount(init), ChatCount(es);
      assert c.input <= c'.input && c.output <= c'.output && c.cacheRead <= c'.cacheRead;
      forall d: U.Counters | 0 <= d.input && 0 <= d.output && 0 <= d.cacheRead && Within(es, d)
        ensures c'.input <= d.input && c'.output <= d.output && c'.cacheRead <= d.cacheRead
      {
        assert Within(init, d);
      }
    }
  }

  lemma {:induction false} LastWithin(es: seq<Chunk>, c: U.Counters)
    requires Within(es, c) && 0 <= c.input && 0 <= c.output && 0 <= c.cacheRead
    ensures var t := TranslatedCount(es); t.input <= c.input && t.output <= c.output && t.cacheRead <= c.cacheRead
  {
    if es != [] && es[|es| - 1].usage == None {
      var init := es[..|es| - 1];
      assert forall k :: 0 <= k < |init| ==> init[k] == es[k];
      LastWithin(init, c);
    }
  }

  /**
   * Lane equivalence: for every error-free stream the two lanes end with the same four counters
   * if and only if no usage object exceeds the last one, a missing member counting as zero.
   */
  lemma LanesAgree(es: seq<Chunk>)
    requires ErrorFree(es)
    ensures MergeDocs(U.Messages, U.ZERO, EventDocs(Translate(es))) == ChatCount(es)
            <==> Within(es, TranslatedCount(es))
  {
    TranslatedLane(es);
    ChatLane(es);
    LastWithin(es, ChatCount(es));
  }

  /** No member of a usage object ever falls below an earlier value, nor is it dropped again. */
  ghost predicate Cumulative(es: seq<Chunk>) {
    forall i, j :: 0 <= i <= j < |es| && es[i].usage.Some? && es[j].usage.Some? ==>
      var u, v := es[i].usage.value, es[j].usage.value;
      u.prompt.GetOr(0) <= v.prompt.GetOr(0) && u.completion.GetOr(0) <= v.completion.GetOr(0)
      && u.cached.GetOr(0) <= v.cached.GetOr(0)
  }

  lemma {:induction false} LastIsSomewhere(es: seq<Chunk>) returns (j: int)
    ensures LastUsage(es) == None ==> forall k :: 0 <= k < |es| ==> es[k].usage == None
    ensures LastUsage(es).Some? ==>
            0 <= j < |es| && es[j].usage == LastUsage(es)
            && forall k :: j < k < |es| ==> es[k].usage == None
  {
    j := |es| - 1;
    if es != [] && es[|es| - 1].usage == None {
      var init := es[..|es| - 1];
      j := LastIsSomewhere(init);
      assert forall k :: 0 <= k < |init| ==> init[k] == es[k];
    }
  }

  /** Cumulative usage, as the upstream protocol promises it, counts alike in both lanes. */
  lemma CumulativeLanesAgree(es: seq<Chunk>)
    requires ErrorFree(es) && Cumulative(es)
    ensures MergeDocs(U.Messages, U.ZERO, EventDocs(Translate(es))) == ChatCount(es)
  {
    var j := LastIsSomewhere(es);
    assert Within(es, TranslatedCount(es));
    LanesAgree(es);
  }

  /**
   * The same on the wire: the scanner behind the translator and the chat scanner on the raw
   * text, each fed in pieces of its own, agree exactly under that condition.
   */
  lemma LanesAgreeOnTheWire(
      printChunk: Chunk -> Bytes, chunkDocs: U.DocParser, printEvent: Event -> Bytes, eventDocs: U.DocParser,
      es: seq<Chunk>, rawPieces: seq<Bytes>, newPieces: seq<Bytes>)
    requires Readable(printChunk, chunkDocs, ChunkDoc) && Readable(printEvent, eventDocs, EventDoc)
    requires chunkDocs("[DONE]") == None
    requires ErrorFree(es)
    requires Concat(rawPieces) == Frames(StreamBodies(printChunk, es, true)) && U.NeverOverLimit(Concat(rawPieces))
    requires Concat(newPieces) == Frames(EventBodies(printEvent, Translate(es))) && U.NeverOverLimit(Concat(newPieces))
    ensures U.FeedAll(eventDocs, U.Messages, newPieces) == U.FeedAll(chunkDocs, U.Chat, rawPieces)
            <==> Within(es, TranslatedCount(es))
  {
    LanesAgree(es);
    RawCount(printChunk, chunkDocs, es, rawPieces, "[DONE]");
    NewCount(printEvent, eventDocs, Translate(es), newPieces);
  }

  lemma NewCount(print_: Event -> Bytes, parse: U.DocParser, evs: seq<Event>, pieces: seq<Bytes>)
    requires Readable(print_, parse, EventDoc)
    requires Concat(pieces) == Frames(EventBodies(print_, evs)) && U.NeverOverLimit(Concat(pieces))
    ensures U.FeedAll(parse, U.Messages, pieces) == U.State(MergeDocs(U.Messages, U.ZERO, EventDocs(evs)), false, [])
  {
    ConsumeEventBodies(print_, parse, evs);
    var bodies := EventBodies(print_, evs);
    forall k | 0 <= k < |bodies| ensures FrameBody(bodies[k]) { EventBody(EventName(evs[k]), print_(evs[k])); }
    Counted(parse, U.Messages, bodies, pieces);
  }

  lemma RawCount(print_: Chunk -> Bytes, parse: U.DocParser, es: seq<Chunk>, pieces: seq<Bytes>, mark: Bytes)
    requires Readable(print_, parse, ChunkDoc) && mark == "[DONE]" && parse(mark) == None
    requires Concat(pieces) == Frames(StreamBodies(print_, es, true)) && U.NeverOverLimit(Concat(pieces))
    ensures U.FeedAll(parse, U.Chat, pieces) == U.State(ChatCount(es), false, [])
  {
    hide FrameBody, Frames, Concat, U.NeverOverLimit, U.FeedAll, U.Consume;
    ConsumeChunkBodies(print_, parse, es);
    var chunks := ChunkBodies(print_, es);
    var bodies := chunks + ["data: " + mark];
    assert "data: " + mark == "data: [DONE]";
    assert StreamBodies(print_, es, true) == bodies;
    forall k | 0 <= k < |bodies| ensures FrameBody(bodies[k]) { DataBody(if k < |es| then print_(es[k]) else mark); }
    Counted(parse, U.Chat, bodies, pieces);
    assert bodies[..|chunks|] == chunks;
    ConsumeData(parse, U.Chat, ChatCount(es), mark);
  }
}
