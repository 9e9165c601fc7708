/**
 * Two readers of one text: capture splits it into events, the translator into lines. Exactly when
 * both find the same payloads in arbitrary bytes, and what then follows end to end.
 */
module WireText {
  import opened Prelude
  import opened ByteLines
  import opened ChatStream
  import opened MessagesStream
  import opened Translator
  import opened StreamTranslator
  import opened Wire
  import opened Blanks
  import opened EventText
  import opened EventSays
  import TranslatorChunking
  import TranslatorMeaning

  // ---- one line, read both ways -----------------------------------------------------------------

  /** What stands behind `data:`, without the blanks and without the other spaces. */
  predicate SameCore(a: Bytes, b: Bytes) { Strip(a) == Strip(b) && Trim(a) == Trim(b) }

  lemma PrefixStays(line: Bytes, c: char)
    requires c == '\r'
    ensures IsData(line + [c]) <==> IsData(line)
    ensures IsData(line) ==> (line + [c])[5..] == line[5..] + [c]
  {
    assert IsData(line + [c]) ==> (line + [c])[0] == 'd' && (line + [c])[1] == 'a' && (line + [c])[2] == 't';
    assert IsData(line + [c]) ==> (line + [c])[3] == 'a' && (line + [c])[4] == ':';
  }

  lemma {:induction false} RStripCrCore(line: Bytes)
    ensures IsData(RStripCr(line)) <==> IsData(line)
    ensures IsData(line) ==> SameCore(RStripCr(line)[5..], line[5..])
  {
    if line != [] && line[|line| - 1] == '\r' {
      var init := line[..|line| - 1];
      assert line == init + ['\r'];
      RStripCrCore(init);
      PrefixStays(init, '\r');
      if IsData(init) {
        StripSnoc(init[5..], '\r');
        TrimSnoc(init[5..], '\r');
      }
    }
  }

  /** Dropping the CR of a line end does not change what the line says. */
  lemma DropCrSays(line: Bytes)
    ensures Said(Payloads([DropCr(line)])) == Said(Payloads([line]))
  {
    OnePayload(line);
    OnePayload(DropCr(line));
    if line != [] && line[|line| - 1] == '\r' {
      var init := line[..|line| - 1];
      assert line == init + ['\r'];
      PrefixStays(init, '\r');
      if IsData(init) {
        var d := init[5..];
        LStripSnoc(d, '\r');
        assert ['\r'][1..] == [];
        if LStrip(d) != [] {
          StripSnoc(LStrip(d), '\r');
          TrimSnoc(LStrip(d), '\r');
        }
      }
    }
  }

  lemma OnePayload(line: Bytes)
    ensures Payloads([line]) == if IsData(line) then [LStrip(line[5..])] else []
    ensures Said(Payloads([line])) == if IsData(line) then One(LStrip(line[5..])) else []
  {
    hide One, LStrip;
    assert [line][..0] == [];
    if IsData(line) { SaidOne(LStrip(line[5..])); }
  }

  lemma {:induction false} DropCrsSay(lines: seq<Bytes>)
    ensures Said(Payloads(DropCrs(lines))) == Said(Payloads(lines))
    decreases |lines|
  {
    hide Said, Payloads, DropCr;
    if lines != [] {
      var first, more := lines[0], lines[1..];
      assert lines == [first] + more && DropCrs(lines) == [DropCr(first)] + DropCrs(more);
      DropCrsSay(more);
      DropCrSays(first);
      PayloadsAppend([first], more);
      PayloadsAppend([DropCr(first)], DropCrs(more));
      SaidAppend(Payloads([first]), Payloads(more));
      SaidAppend(Payloads([DropCr(first)]), Payloads(DropCrs(more)));
    }
  }

  /** How the translator sees a line: the marker, or a payload up to blanks. */
  lemma ClassifyCore(line: Bytes)
    ensures Classify(line) == Skip <==> !IsData(line)
    ensures Classify(line) == DoneMark <==> IsData(line) && Strip(line[5..]) == "[DONE]"
    ensures Classify(line).Data? ==> Trim(Classify(line).payload) == Trim(line[5..])
  {
    RStripCrCore(line);
    var l := RStripCr(line);
    if IsData(l) {
      var d := l[5..];
      if " " <= d {
        assert d[0] == ' ' && d == [' '] + d[1..];
        TrimCons(' ', d[1..]);
      }
    }
  }

  /** What a line tells the translator. */
  function Tell(line: Bytes): seq<Bytes> {
    match Classify(line)
    case Data(d) => if Trim(d) == [] then [] else [Trim(d)]
    case _ => []
  }

  function Heard(lines: seq<Bytes>): seq<Bytes> {
    if lines == [] then [] else Heard(lines[..|lines| - 1]) + Tell(lines[|lines| - 1])
  }

  /** The payload begins where JSON begins: no vertical tab or form feed among the blanks before it. */
  predicate PlainStart(line: Bytes) { IsData(line) ==> LTrim(line[5..]) == LStrip(line[5..]) }

  lemma PlainTells(line: Bytes)
    requires PlainStart(line) && !Classify(line).DoneMark?
    ensures Tell(line) == Said(Payloads([line]))
  {
    ClassifyCore(line);
    OnePayload(line);
    if IsData(line) {
      var d := line[5..];
      StripTwice(d);
      LTrimTwice(d);
    }
  }

  lemma LTrimTwice(s: Bytes)
    ensures Trim(LTrim(s)) == Trim(s)
  {
    LTrimStart(s);
  }

  lemma OddTells(line: Bytes)
    requires !PlainStart(line) && !Classify(line).DoneMark?
    ensures |Tell(line)| == 1 && Tell(line)[0] != [] && IsSpace(Tell(line)[0][0])
  {
    ClassifyCore(line);
    LTrimStart(line[5..]);
    TrimStart(line[5..]);
  }

  lemma {:induction false} PlainHeard(lines: seq<Bytes>)
    requires forall k :: 0 <= k < |lines| ==> PlainStart(lines[k]) && !Classify(lines[k]).DoneMark?
    ensures Heard(lines) == Said(Payloads(lines))
    decreases |lines|
  {
    hide Said, Payloads, Tell, PlainStart, Classify;
    if lines == [] {
      NothingPaid();
    } else {
      var init, last := lines[..|lines| - 1], lines[|lines| - 1];
      assert lines == init + [last] && forall k :: 0 <= k < |init| ==> init[k] == lines[k];
      PlainHeard(init);
      PlainTells(last);
      PayloadsAppend(init, [last]);
      SaidAppend(Payloads(init), Payloads([last]));
    }
  }

  lemma NothingPaid()
    ensures Said(Payloads([])) == []
  {
  }

  /** A line nobody needs: no payload, an empty one or the marker. */
  predicate Idle(line: Bytes) { IsData(line) ==> Strip(line[5..]) == [] || Strip(line[5..]) == "[DONE]" }

  lemma IdleSays(line: Bytes)
    ensures Idle(line) <==> Said(Payloads([line])) == []
  {
    OnePayload(line);
    if IsData(line) {
      var d := line[5..];
      StripTwice(d);
      LStripClean(d);
      CutStays(LStrip(d));
    }
  }

  lemma {:induction false} IdleLines(lines: seq<Bytes>)
    ensures (forall k :: 0 <= k < |lines| ==> Idle(lines[k])) <==> Said(Payloads(lines)) == []
    decreases |lines|
  {
    hide Said, Payloads, Idle;
    if lines == [] {
      NothingPaid();
    } else {
      var init, last := lines[..|lines| - 1], lines[|lines| - 1];
      assert lines == init + [last] && forall k :: 0 <= k < |init| ==> init[k] == lines[k];
      IdleLines(init);
      IdleSays(last);
      PayloadsAppend(init, [last]);
      SaidAppend(Payloads(init), Payloads([last]));
    }
  }

  // ---- up to the end marker ---------------------------------------------------------------------

  function FirstMark(lines: seq<Bytes>): (m: nat)
    ensures m <= |lines|
    ensures forall k :: 0 <= k < m ==> !Classify(lines[k]).DoneMark?
    ensures m < |lines| ==> Classify(lines[m]).DoneMark?
  {
    if lines == [] then 0
    else
      var init := lines[..|lines| - 1];
      var m := FirstMark(init);
      assert forall k :: 0 <= k < |init| ==> init[k] == lines[k];
      if m < |init| || Classify(lines[|lines| - 1]).DoneMark? then m else |lines|
  }

  /** The translator's chunks are those of what the lines before the marker tell. */
  lemma {:induction false} LinesDecoded(parse: Parser, lines: seq<Bytes>)
    requires Blind(parse)
    ensures var p := TranslatorChunking.Decode(parse, lines);
            p.chunks == Parsed(parse, Heard(lines[..FirstMark(lines)])) && (p.closed <==> FirstMark(lines) < |lines|)
    decreases |lines|
  {
    hide Trim, Classify, Parsed;
    if lines == [] {
      assert lines[..0] == [];
      ParsedNone(parse);
    } else {
      var init, last := lines[..|lines| - 1], lines[|lines| - 1];
      LinesDecoded(parse, init);
      var m := FirstMark(init);
      if m < |init| || Classify(last).DoneMark? {
        assert lines[..m] == init[..m];
      } else {
        assert lines[..|lines|] == lines && init[..m] == init;
        match Classify(last)
        case Data(d) => ParsedOne(parse, Heard(init), d);
        case Skip => assert Heard(init) + [] == Heard(init);
      }
    }
  }

  lemma ParsedNone(parse: Parser)
    ensures Parsed(parse, []) == []
  {
  }

  // ---- both readers -------------------------------------------------------------------------------

  function AtCapture(b: Bytes): seq<Bytes> { Seen(Blocks(CrlfToLf(b))) }

  function AtTranslator(b: Bytes): seq<Bytes> { Heard(Lines(b)[..FirstMark(Lines(b))]) }

  ghost predicate AllSparse(b: Bytes) {
    forall k :: 0 <= k < |Blocks(CrlfToLf(b))| ==> Sparse(Blocks(CrlfToLf(b))[k])
  }

  ghost predicate AllPlain(lines: seq<Bytes>) { forall k :: 0 <= k < |lines| ==> PlainStart(lines[k]) }

  ghost predicate AllIdle(lines: seq<Bytes>) { forall k :: 0 <= k < |lines| ==> Idle(lines[k]) }

  /**
   * No event has two data lines with something on them, payloads before the end marker begin as JSON
   * does, and nothing but blanks and markers stands behind the first marker or on an unfinished line.
   */
  ghost predicate ReadAlike(b: Bytes) {
    var m := FirstMark(Lines(b));
    AllSparse(b) && AllPlain(Lines(b)[..m]) && AllIdle(AllLines(b)[m..])
  }

  lemma SparseCapture(b: Bytes)
    requires AllSparse(b)
    ensures AtCapture(b) == Said(Payloads(AllLines(b)))
  {
    hide Blocks, CrlfToLf, Lines, Rest, Payloads, Said, DropCrs, Items, Sparse;
    var t := CrlfToLf(b);
    SparseSeen(Blocks(t));
    BlocksLosePayloads(t);
    CrlfLines(b);
    DropCrsSay(Lines(b));
    PayloadsAppend(DropCrs(Lines(b)), [Rest(b)]);
    PayloadsAppend(Lines(b), [Rest(b)]);
    SaidAppend(Payloads(DropCrs(Lines(b))), Payloads([Rest(b)]));
    SaidAppend(Payloads(Lines(b)), Payloads([Rest(b)]));
  }

  /** Cut at the marker. */
  lemma CaptureInTwo(b: Bytes)
    ensures var m := FirstMark(Lines(b));
            Said(Payloads(AllLines(b))) == Said(Payloads(Lines(b)[..m])) + Said(Payloads(AllLines(b)[m..]))
  {
    hide Lines, Rest, Payloads, Said;
    var m := FirstMark(Lines(b));
    var before, after := Lines(b)[..m], AllLines(b)[m..];
    assert AllLines(b) == before + after;
    PayloadsAppend(before, after);
    SaidAppend(Payloads(before), Payloads(after));
  }

  lemma LinesAndRest(b: Bytes)
    ensures |AllLines(b)| == |Lines(b)| + 1
  {
  }

  lemma AlikeIsEnough(b: Bytes)
    requires ReadAlike(b)
    ensures AtCapture(b) == AtTranslator(b)
  {
    hide Lines, AllLines, Payloads, Said, Heard, PlainStart, Idle, Seen, Blocks, CrlfToLf, Sparse;
    var m := FirstMark(Lines(b));
    assert m <= |AllLines(b)| by { LinesAndRest(b); }
    SparseCapture(b);
    CaptureInTwo(b);
    PlainHeard(Lines(b)[..m]);
    IdleLines(AllLines(b)[m..]);
    assert Heard(Lines(b)[..m]) + [] == Heard(Lines(b)[..m]);
  }

  lemma {:induction false} LinesAreFlat(b: Bytes)
    ensures forall k :: 0 <= k < |Lines(b)| ==> '\n' !in Lines(b)[k]
  {
    var nl := Find(b, '\n');
    if 0 <= nl {
      LinesAreFlat(b[nl + 1..]);
      assert forall k :: 0 < k < |Lines(b)| ==> Lines(b)[k] == Lines(b[nl + 1..])[k - 1];
    }
  }

  lemma TellIsFlat(line: Bytes)
    requires '\n' !in line
    ensures forall x :: x in Tell(line) ==> '\n' !in x
  {
    hide Classify;
    ClassifyCore(line);
    if IsData(line) { TrimIsFlat(line[5..]); }
  }

  lemma TrimIsFlat(s: Bytes)
    requires '\n' !in s
    ensures '\n' !in Trim(s)
  {
    LTrimIsFlat(s);
    RTrimKeeps(LTrim(s));
  }

  lemma {:induction false} LTrimIsFlat(s: Bytes)
    requires '\n' !in s
    ensures '\n' !in LTrim(s)
  {
    if s != [] && IsBlank(s[0]) { LTrimIsFlat(s[1..]); }
  }

  lemma {:induction false} HeardIsFlat(lines: seq<Bytes>, x: Bytes)
    requires forall k :: 0 <= k < |lines| ==> '\n' !in lines[k]
    requires x in Heard(lines)
    ensures '\n' !in x
    decreases |lines|
  {
    hide Tell;
    var init, last := lines[..|lines| - 1], lines[|lines| - 1];
    if x in Heard(init) { HeardIsFlat(init, x); } else { TellIsFlat(last); }
  }

  lemma {:induction false} SaidIsCut(ps: seq<Bytes>, x: Bytes)
    requires AllCut(ps) && x in Said(ps)
    ensures x != [] && !IsSpace(x[0])
    decreases |ps|
  {
    var init, last := ps[..|ps| - 1], ps[|ps| - 1];
    if x in Said(init) { SaidIsCut(init, x); } else { CutStays(last); }
  }

  lemma {:induction false} TellIsHeard(lines: seq<Bytes>, k: nat, x: Bytes)
    requires k < |lines| && x in Tell(lines[k])
    ensures x in Heard(lines)
    decreases |lines|
  {
    hide Tell;
    if k < |lines| - 1 { TellIsHeard(lines[..|lines| - 1], k, x); }
  }

  lemma AlikeNeedsSparse(b: Bytes)
    requires AtCapture(b) == AtTranslator(b)
    ensures AllSparse(b)
  {
    hide Blocks, CrlfToLf, Lines, Seen, Heard, Sparse;
    var blocks, lines := Blocks(CrlfToLf(b)), Lines(b)[..FirstMark(Lines(b))];
    forall k | 0 <= k < |blocks| ensures Sparse(blocks[k]) {
      if !Sparse(blocks[k]) {
        var x := CrowdedSeen(blocks, k);
        LinesAreFlat(b);
        HeardIsFlat(lines, x);
        assert false;
      }
    }
  }

  lemma AlikeNeedsPlain(b: Bytes)
    requires AtCapture(b) == AtTranslator(b) && AllSparse(b)
    ensures AllPlain(Lines(b)[..FirstMark(Lines(b))])
  {
    hide Blocks, CrlfToLf, Lines, AllLines, Seen, Heard, Said, Payloads, PlainStart, Tell;
    var lines := Lines(b)[..FirstMark(Lines(b))];
    SparseCapture(b);
    forall k | 0 <= k < |lines| ensures PlainStart(lines[k]) {
      if !PlainStart(lines[k]) {
        OddTells(lines[k]);
        TellIsHeard(lines, k, Tell(lines[k])[0]);
        PayloadsAreCut(AllLines(b));
        SaidIsCut(Payloads(AllLines(b)), Tell(lines[k])[0]);
        assert false;
      }
    }
  }

  lemma AlikeIsNeeded(b: Bytes)
    requires AtCapture(b) == AtTranslator(b)
    ensures ReadAlike(b)
  {
    hide Lines, AllLines, Payloads, Said, Heard, PlainStart, Idle, Seen, Blocks, CrlfToLf, Sparse;
    AlikeNeedsSparse(b);
    AlikeNeedsPlain(b);
    var m := FirstMark(Lines(b));
    assert m <= |AllLines(b)| by { LinesAndRest(b); }
    SparseCapture(b);
    CaptureInTwo(b);
    PlainHeard(Lines(b)[..m]);
    IdleLines(AllLines(b)[m..]);
    var whole, half := Said(Payloads(AllLines(b))), Said(Payloads(AllLines(b)[m..]));
    assert |whole| == |whole| + |half|;
  }

  // ---- the chunks ---------------------------------------------------------------------------------

  ghost predicate SameChunks(parse: Parser, b: Bytes) {
    DecodeItems(parse, IterSse(b)) == TranslatorChunking.Decode(parse, Lines(b)).chunks
  }

  lemma ChunksFollow(parse: Parser, b: Bytes)
    requires Blind(parse)
    ensures DecodeItems(parse, IterSse(b)) == Parsed(parse, AtCapture(b))
    ensures TranslatorChunking.Decode(parse, Lines(b)).chunks == Parsed(parse, AtTranslator(b))
  {
    ItemsDecoded(parse, IterSse(b));
    LinesDecoded(parse, Lines(b));
  }

  /** A parser that keeps the text: it tells any two payloads apart. */
  function Echo(s: Bytes): Option<Chunk> {
    if Trim(s) == [] then None else Some(Chunk(None, None, Some(Choice(Some(Trim(s)), None))))
  }

  lemma EchoIsBlind()
    ensures Blind(Echo)
  {
    forall s: Bytes ensures Echo(s) == Echo(Trim(s)) { TrimTwice(s); }
  }

  ghost predicate Trimmed(texts: seq<Bytes>) {
    forall k :: 0 <= k < |texts| ==> texts[k] != [] && Trim(texts[k]) == texts[k]
  }

  lemma {:induction false} EchoTells(texts: seq<Bytes>)
    requires Trimmed(texts)
    ensures |Parsed(Echo, texts)| == |texts|
    ensures forall k :: 0 <= k < |texts| ==>
                          Parsed(Echo, texts)[k] == Chunk(None, None, Some(Choice(Some(texts[k]), None)))
    decreases |texts|
  {
    hide Trim;
    if texts != [] {
      var init := texts[..|texts| - 1];
      assert forall k :: 0 <= k < |init| ==> init[k] == texts[k];
      EchoTells(init);
    }
  }

  lemma {:induction false} SaidIsTrimmed(ps: seq<Bytes>)
    ensures Trimmed(Said(ps))
  {
    hide Trim, Strip;
    if ps != [] {
      SaidIsTrimmed(ps[..|ps| - 1]);
      TrimTwice(ps[|ps| - 1]);
    }
  }

  lemma {:induction false} HeardIsTrimmed(lines: seq<Bytes>)
    ensures Trimmed(Heard(lines))
  {
    hide Trim, Classify;
    if lines != [] {
      HeardIsTrimmed(lines[..|lines| - 1]);
      if Classify(lines[|lines| - 1]).Data? { TrimTwice(Classify(lines[|lines| - 1]).payload); }
    }
  }

  lemma EchoDecides(b: Bytes)
    requires SameChunks(Echo, b)
    ensures AtCapture(b) == AtTranslator(b)
  {
    hide Heard, Said, Items, Parsed, Echo;
    EchoIsBlind();
    ChunksFollow(Echo, b);
    var x, y := AtCapture(b), AtTranslator(b);
    SaidIsTrimmed(ItemData(Items(Blocks(CrlfToLf(b)))));
    HeardIsTrimmed(Lines(b)[..FirstMark(Lines(b))]);
    EchoTells(x);
    EchoTells(y);
    forall k | 0 <= k < |x| ensures x[k] == y[k] {
      assert Parsed(Echo, x)[k] == Parsed(Echo, y)[k];
    }
  }

  /**
   * Capture's events and the translator's lines carry the same chunks, whatever the JSON parser makes
   * of a payload, exactly when the text reads alike.
   */
  lemma SameChunksWhenReadAlike(b: Bytes)
    ensures ReadAlike(b) <==> forall parse: Parser | Blind(parse) :: SameChunks(parse, b)
  {
    hide ReadAlike, AtCapture, AtTranslator, SameChunks, Blind, Echo;
    if ReadAlike(b) {
      forall parse: Parser | Blind(parse) ensures SameChunks(parse, b) { AlikeChunks(parse, b); }
    } else if SameChunks(Echo, b) {
      EchoDecides(b);
      AlikeIsNeeded(b);
      assert false;
    } else {
      EchoIsBlind();
    }
  }

  lemma AlikeChunks(parse: Parser, b: Bytes)
    requires Blind(parse) && ReadAlike(b)
    ensures SameChunks(parse, b)
  {
    hide ReadAlike, AtCapture, AtTranslator, Blind;
    AlikeIsEnough(b);
    ChunksFollow(parse, b);
  }

  /**
   * Meaning over arbitrary bytes: comments, other fields, any blanks and line ends, any pieces. If the
   * text reads alike, what capture reads out of the text the client receives is what it reads out of
   * the bytes the upstream sent, mapped.
   */
  lemma MeaningOfAnyText(parse: Parser, print_: Event -> Bytes, parseEvent: Bytes -> Option<Event>, pieces: seq<Bytes>)
    requires Blind(parse) && Faithful(print_, parseEvent) && ReadAlike(Concat(pieces))
    requires TranslatorChunking.NoErrorLine(parse, Lines(Concat(pieces)))
    requires var es := DecodeItems(parse, IterSse(Concat(pieces)));
             Ascending(TranslatorMeaning.Mentions(AllAtoms(es)).order) && TranslatorMeaning.NamesWhole(AllAtoms(es))
    ensures var sent := CaptureOpenAi(parse, Concat(pieces));
            CaptureMessages(parseEvent, Frames(EventBodies(print_, Received(parse, pieces)))) ==
            Reassembled(sent.text, sent.tools, Some(StopReason(sent.finish)), UsageFromOpenAi(sent.usage))
  {
    var b := Concat(pieces);
    AlikeChunks(parse, b);
    var es := TranslatorChunking.Decode(parse, Lines(b)).chunks;
    TranslatorChunking.ReceivedIsTranslation(parse, pieces);
    TranslatorChunking.DecodedErrorFree(parse, Lines(b));
    EventsFramed(print_, Translate(es));
    EventItemsDecode(print_, parseEvent, Translate(es));
    TranslatorMeaning.MeaningPreserved(es);
  }
}
