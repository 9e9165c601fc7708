/** Both streams as text: server-sent-event framing, and the theorem end to end. */
module Wire {
  import opened Prelude
  import opened ByteLines
  import opened ChatStream
  import opened MessagesStream
  import opened Translator
  import opened StreamTranslator
  import TranslatorChunking
  import TranslatorMeaning

  // ---- the capture addon's event iterator ---------------------------------------------------

  /** `text.split("\n\n")` */
  function Blocks(b: Bytes): seq<Bytes> {
    var i := FindSub(b, "\n\n", 0);
    if i < 0 then [b] else [b[..i]] + Blocks(b[i + 2..])
  }

  datatype Item = Item(name: Option<Bytes>, data: Bytes)
  datatype Fields = Fields(name: Option<Bytes>, data: seq<Bytes>)

  function TakeField(f: Fields, line: Bytes): Fields {
    if "event:" <= line then f.(name := Some(Strip(line[6..])))
    else if "data:" <= line then f.(data := f.data + [LStrip(line[5..])])
    else f
  }

  function TakeFields(lines: seq<Bytes>): Fields {
    if lines == [] then Fields(None, []) else TakeField(TakeFields(lines[..|lines| - 1]), lines[|lines| - 1])
  }

  function JoinLines(parts: seq<Bytes>): Bytes {
    if parts == [] then ""
    else if |parts| == 1 then parts[0]
    else JoinLines(parts[..|parts| - 1]) + "\n" + parts[|parts| - 1]
  }

  function BlockItem(block: Bytes): seq<Item> {
    var f := TakeFields(Lines(block) + [Rest(block)]);
    if f.data == [] then [] else [Item(f.name, JoinLines(f.data))]
  }

  function FlatMap(f: Bytes -> seq<Item>, blocks: seq<Bytes>): seq<Item> {
    if blocks == [] then [] else FlatMap(f, blocks[..|blocks| - 1]) + f(blocks[|blocks| - 1])
  }

  function Items(blocks: seq<Bytes>): seq<Item> {
    FlatMap(BlockItem, blocks)
  }

  function IterSse(text: Bytes): seq<Item> {
    Items(Blocks(CrlfToLf(text)))
  }

  // ---- frames -------------------------------------------------------------------------------

  /** What serialised JSON objects look like on one line. */
  predicate CleanObject(b: Bytes) {
    && 2 <= |b| && b[0] == '{' && b[|b| - 1] == '}'
    && (forall k :: 0 <= k < |b| ==> b[k] != '\n' && b[k] != '\r')
  }

  /** A printable event name: no spaces or line ends. */
  predicate CleanName(b: Bytes) {
    b != [] && forall k :: 0 <= k < |b| ==> !IsSpace(b[k])
  }

  function EventName(ev: Event): (r: Bytes)
    ensures CleanName(r)
  {
    match ev
    case MessageStart => "message_start"
    case BlockStart(_, _) => "content_block_start"
    case TextDelta(_, _) => "content_block_delta"
    case JsonDelta(_, _) => "content_block_delta"
    case BlockStop(_) => "content_block_stop"
    case MessageDelta(_, _) => "message_delta"
    case MessageStop => "message_stop"
    case ErrorEvent(_, _) => "error"
  }

  /** A frame body: no blank line inside and no carriage return. */
  ghost predicate FrameBody(f: Bytes) {
    && f != [] && f[|f| - 1] != '\n'
    && (forall k :: 0 <= k < |f| ==> f[k] != '\r')
    && FindSub(f, "\n\n", 0) == -1
  }

  lemma PairAt(b: Bytes, k: nat)
    requires k + 1 < |b|
    ensures Occurs(b, "\n\n", k) <==> b[k] == '\n' && b[k + 1] == '\n'
  {
    assert b[k..k + 2] == [b[k], b[k + 1]];
  }

  lemma NoBlankLine(f: Bytes)
    requires forall k :: 0 <= k < |f| - 1 ==> !Occurs(f, "\n\n", k)
    ensures FindSub(f, "\n\n", 0) == -1
  {
  }

  lemma BlocksCons(f: Bytes, more: Bytes)
    requires FrameBody(f)
    ensures Blocks(f + "\n\n" + more) == [f] + Blocks(more)
  {
    var b := f + "\n\n" + more;
    assert b[|f|..|f| + 2] == "\n\n";
    forall k | 0 <= k < |f| ensures !Occurs(b, "\n\n", k) {
      PairAt(b, k);
      assert b[k] == f[k];
      if k + 1 < |f| {
        PairAt(f, k);
        assert b[k + 1] == f[k + 1];
      }
    }
    FindSubUnique(b, "\n\n", 0, |f|);
    assert b[..|f|] == f && b[|f| + 2..] == more;
  }

  function Frames(bodies: seq<Bytes>): Bytes {
    if bodies == [] then [] else bodies[0] + "\n\n" + Frames(bodies[1..])
  }

  lemma {:induction false} FramesSplit(bodies: seq<Bytes>)
    requires forall k :: 0 <= k < |bodies| ==> FrameBody(bodies[k])
    ensures Blocks(Frames(bodies)) == bodies + [[]]
    ensures forall k :: 0 <= k < |Frames(bodies)| ==> Frames(bodies)[k] != '\r'
  {
    if bodies == [] {
      assert !Occurs([], "\n\n", 0);
    } else {
      var more := bodies[1..];
      assert forall k :: 0 <= k < |more| ==> more[k] == bodies[k + 1];
      FramesSplit(more);
      BlocksCons(bodies[0], Frames(more));
      var f := bodies[0] + "\n\n";
      forall k | 0 <= k < |f + Frames(more)| ensures (f + Frames(more))[k] != '\r' {
        if k < |bodies[0]| { assert (f + Frames(more))[k] == bodies[0][k]; }
        else if k < |f| { assert (f + Frames(more))[k] == "\n\n"[k - |bodies[0]|]; }
        else { assert (f + Frames(more))[k] == Frames(more)[k - |f|]; }
      }
    }
  }

  lemma ItemsSnoc(blocks: seq<Bytes>, last: Bytes)
    ensures Items(blocks + [last]) == Items(blocks) + BlockItem(last)
  {
    assert (blocks + [last])[..|blocks|] == blocks;
  }

  lemma EmptyBlock()
    ensures BlockItem([]) == []
  {
    assert Lines([]) + [Rest([])] == [[]];
    assert TakeFields([[]]) == TakeField(TakeFields([]), []) by { var one: seq<Bytes> := [[]]; assert one[..0] == []; }
  }

  /** Frames come back as their items, one each. */
  lemma FramesIter(bodies: seq<Bytes>)
    requires forall k :: 0 <= k < |bodies| ==> FrameBody(bodies[k])
    ensures IterSse(Frames(bodies)) == Items(bodies)
  {
    FramesSplit(bodies);
    CrlfToLfSame(Frames(bodies));
    ItemsSnoc(bodies, []);
    EmptyBlock();
    assert Items(bodies) + [] == Items(bodies);
  }

  lemma {:induction false} StripClean(b: Bytes)
    requires b != [] && !IsSpace(b[0]) && !IsSpace(b[|b| - 1])
    ensures Strip(b) == b && LStrip(b) == b && LStrip(" " + b) == b && Strip(" " + b) == b
  {
    assert (" " + b)[1..] == b;
  }

  lemma NoNewline(b: Bytes)
    requires forall k :: 0 <= k < |b| ==> b[k] != '\n'
    ensures Lines(b) == [] && Rest(b) == b && Find(b, '\n') == -1
  {
  }

  lemma DataBody(json: Bytes)
    requires CleanObject(json) || json == "[DONE]"
    ensures FrameBody("data: " + json)
    ensures BlockItem("data: " + json) == [Item(None, json)]
  {
    var line := "data: " + json;
    forall k | 0 <= k < |line| ensures line[k] != '\n' && line[k] != '\r' {
      if 6 <= k { assert line[k] == json[k - 6]; }
    }
    assert line[|line| - 1] == json[|json| - 1];
    forall k | 0 <= k < |line| - 1 ensures !Occurs(line, "\n\n", k) { PairAt(line, k); }
    NoBlankLine(line);
    NoNewline(line);
    assert [] + [line] == [line] && [line][..0] == [];
    assert line[..5] == "data:" && line[5..] == " " + json;
    StripClean(json);
    assert TakeFields([line]) == Fields(None, [] + [json]);
  }

  /** Two lines make a frame body. */
  lemma TwoLines(l1: Bytes, l2: Bytes)
    requires l2 != []
    requires forall k :: 0 <= k < |l1| ==> l1[k] != '\n' && l1[k] != '\r'
    requires forall k :: 0 <= k < |l2| ==> l2[k] != '\n' && l2[k] != '\r'
    ensures FrameBody(l1 + "\n" + l2)
    ensures Lines(l1 + "\n" + l2) + [Rest(l1 + "\n" + l2)] == [l1, l2]
  {
    var f := l1 + "\n" + l2;
    forall k | 0 <= k < |f| ensures f[k] != '\r' && (f[k] == '\n' ==> k == |l1|) {
      if k < |l1| { assert f[k] == l1[k]; } else if |l1| < k { assert f[k] == l2[k - |l1| - 1]; }
    }
    assert f[|f| - 1] == l2[|l2| - 1];
    forall k | 0 <= k < |f| - 1 ensures !Occurs(f, "\n\n", k) { PairAt(f, k); }
    NoBlankLine(f);
    FindUnique(f, '\n', |l1|);
    assert f[..|l1|] == l1 && f[|l1| + 1..] == l2;
    NoNewline(l2);
  }

  lemma PrefixedLine(tag: Bytes, b: Bytes)
    requires forall k :: 0 <= k < |tag| ==> tag[k] != '\n' && tag[k] != '\r'
    requires forall k :: 0 <= k < |b| ==> b[k] != '\n' && b[k] != '\r'
    ensures forall k :: 0 <= k < |tag + b| ==> (tag + b)[k] != '\n' && (tag + b)[k] != '\r'
  {
  }

  lemma EventBody(name: Bytes, json: Bytes)
    requires CleanName(name) && CleanObject(json)
    ensures FrameBody("event: " + name + "\n" + "data: " + json)
    ensures BlockItem("event: " + name + "\n" + "data: " + json) == [Item(Some(name), json)]
  {
    var l1 := "event: " + name;
    var l2 := "data: " + json;
    assert "event: " + name + "\n" + "data: " + json == l1 + "\n" + l2;
    PrefixedLine("event: ", name);
    PrefixedLine("data: ", json);
    TwoLines(l1, l2);
    EventFields(name, json);
  }

  lemma EventFields(name: Bytes, json: Bytes)
    requires CleanName(name) && CleanObject(json)
    ensures TakeFields(["event: " + name, "data: " + json]) == Fields(Some(name), [json])
  {
    var l1 := "event: " + name;
    var l2 := "data: " + json;
    assert [l1, l2][..1] == [l1];
    assert TakeFields([l1]) == TakeField(TakeFields([]), l1);
    assert l1[..6] == "event:" && l1[6..] == " " + name;
    StripClean(name);
    assert TakeFields([l1]) == Fields(Some(name), []);
    assert l2[..5] == "data:" && l2[5..] == " " + json && l2[0] == 'd';
    StripClean(json);
    assert [] + [json] == [json];
  }

  // ---- the theorem, end to end ---------------------------------------------------------------

  /** JSON text for one message type: printing gives a one-line object, parsing undoes it. */
  ghost predicate Faithful<T(!new)>(print_: T -> Bytes, parse: Bytes -> Option<T>) {
    forall x :: CleanObject(print_(x)) && parse(print_(x)) == Some(x)
  }

  function EventBodyOf(print_: Event -> Bytes, ev: Event): Bytes {
    "event: " + EventName(ev) + "\n" + "data: " + print_(ev)
  }

  /** The bytes the translator writes for these events. */
  function EventBodies(print_: Event -> Bytes, evs: seq<Event>): (r: seq<Bytes>)
    ensures |r| == |evs|
    ensures forall k :: 0 <= k < |r| ==> r[k] == EventBodyOf(print_, evs[k])
  {
    if evs == [] then []
    else
      var ev := evs[|evs| - 1];
      EventBodies(print_, evs[..|evs| - 1]) + [EventBodyOf(print_, ev)]
  }

  /** A chunk stream as an upstream sends it, with or without the end marker. */
  function ChunkBodies(print_: Chunk -> Bytes, es: seq<Chunk>): (r: seq<Bytes>)
    ensures |r| == |es|
    ensures forall k :: 0 <= k < |r| ==> r[k] == "data: " + print_(es[k])
  {
    if es == [] then [] else ChunkBodies(print_, es[..|es| - 1]) + ["data: " + print_(es[|es| - 1])]
  }

  function StreamBodies(print_: Chunk -> Bytes, es: seq<Chunk>, marked: bool): seq<Bytes> {
    ChunkBodies(print_, es) + if marked then ["data: [DONE]"] else []
  }

  /** Capture's decoding of the items of a stream: unparsable payloads are passed over. */
  function DecodeItems<T>(parse: Bytes -> Option<T>, items: seq<Item>): seq<T> {
    if items == [] then []
    else
      var data := items[|items| - 1].data;
      DecodeItems(parse, items[..|items| - 1])
      + if Strip(data) == "[DONE]" then [] else match parse(data) case Some(x) => [x] case None => []
  }

  function CaptureOpenAi(parse: Bytes -> Option<Chunk>, text: Bytes): Reassembled<Option<Usage>> {
    OaResult(OaRun(AllAtoms(DecodeItems(parse, IterSse(text)))))
  }

  function CaptureMessages(parse: Bytes -> Option<Event>, text: Bytes): Reassembled<map<string, int>> {
    AccResult(AccFrom(ACC_INIT, DecodeItems(parse, IterSse(text))))
  }

  lemma CleanIsNotDone(json: Bytes)
    requires CleanObject(json)
    ensures Strip(json) == json && json != "[DONE]"
  {
    StripClean(json);
  }

  lemma DecodeItemsSnoc<T>(parse: Bytes -> Option<T>, items: seq<Item>, item: Item)
    ensures DecodeItems(parse, items + [item]) ==
            DecodeItems(parse, items) +
            if Strip(item.data) == "[DONE]" then []
            else match parse(item.data) case Some(x) => [x] case None => []
  {
    assert (items + [item])[..|items|] == items;
  }

  ghost predicate Yields(bodies: seq<Bytes>, items: seq<Item>) {
    |bodies| == |items| && forall k :: 0 <= k < |bodies| ==> BlockItem(bodies[k]) == [items[k]]
  }

  /** Each body is a frame of its own and yields its item. */
  ghost predicate Framed(bodies: seq<Bytes>, items: seq<Item>) {
    Yields(bodies, items) && forall k :: 0 <= k < |bodies| ==> FrameBody(bodies[k])
  }

  lemma {:induction false} FlatMapSingles(f: Bytes -> seq<Item>, bodies: seq<Bytes>, items: seq<Item>)
    requires |bodies| == |items| && forall k :: 0 <= k < |bodies| ==> f(bodies[k]) == [items[k]]
    ensures FlatMap(f, bodies) == items
  {
    if bodies != [] {
      var n := |bodies| - 1;
      FlatMapSingles(f, bodies[..n], items[..n]);
      assert items == items[..n] + [items[n]];
    }
  }

  lemma FramedIter(bodies: seq<Bytes>, items: seq<Item>)
    requires Framed(bodies, items)
    ensures IterSse(Frames(bodies)) == items
  {
    FramesIter(bodies);
    FlatMapSingles(BlockItem, bodies, items);
  }

  function EventItems(print_: Event -> Bytes, evs: seq<Event>): (r: seq<Item>)
    ensures |r| == |evs| && forall k :: 0 <= k < |r| ==> r[k] == Item(Some(EventName(evs[k])), print_(evs[k]))
  {
    if evs == [] then []
    else
      var ev := evs[|evs| - 1];
      EventItems(print_, evs[..|evs| - 1]) + [Item(Some(EventName(ev)), print_(ev))]
  }

  function ChunkItems(print_: Chunk -> Bytes, es: seq<Chunk>): (r: seq<Item>)
    ensures |r| == |es| && forall k :: 0 <= k < |r| ==> r[k] == Item(None, print_(es[k]))
  {
    if es == [] then [] else ChunkItems(print_, es[..|es| - 1]) + [Item(None, print_(es[|es| - 1]))]
  }

  lemma {:induction false} EventItemsDecode(print_: Event -> Bytes, parse: Bytes -> Option<Event>, evs: seq<Event>)
    requires Faithful(print_, parse)
    ensures DecodeItems(parse, EventItems(print_, evs)) == evs
  {
    if evs != [] {
      var init, ev := evs[..|evs| - 1], evs[|evs| - 1];
      EventItemsDecode(print_, parse, init);
      CleanIsNotDone(print_(ev));
      DecodeItemsSnoc(parse, EventItems(print_, init), Item(Some(EventName(ev)), print_(ev)));
    }
  }

  lemma {:induction false} ChunkItemsDecode(print_: Chunk -> Bytes, parse: Bytes -> Option<Chunk>, es: seq<Chunk>)
    requires Faithful(print_, parse)
    ensures DecodeItems(parse, ChunkItems(print_, es)) == es
  {
    if es != [] {
      var init, e := es[..|es| - 1], es[|es| - 1];
      ChunkItemsDecode(print_, parse, init);
      CleanIsNotDone(print_(e));
      DecodeItemsSnoc(parse, ChunkItems(print_, init), Item(None, print_(e)));
    }
  }

  lemma EventsFramed(print_: Event -> Bytes, evs: seq<Event>)
    requires forall ev :: CleanObject(print_(ev))
    ensures IterSse(Frames(EventBodies(print_, evs))) == EventItems(print_, evs)
  {
    var bodies, items := EventBodies(print_, evs), EventItems(print_, evs);
    forall k | 0 <= k < |bodies| ensures FrameBody(bodies[k]) && BlockItem(bodies[k]) == [items[k]] {
      EventBody(EventName(evs[k]), print_(evs[k]));
    }
    FramedIter(bodies, items);
  }

  function StreamItems(print_: Chunk -> Bytes, es: seq<Chunk>, marked: bool): seq<Item> {
    ChunkItems(print_, es) + if marked then [Item(None, "[DONE]")] else []
  }

  lemma StreamFramed(print_: Chunk -> Bytes, es: seq<Chunk>, marked: bool)
    requires forall e :: CleanObject(print_(e))
    ensures IterSse(Frames(StreamBodies(print_, es, marked))) == StreamItems(print_, es, marked)
  {
    var bodies, items := StreamBodies(print_, es, marked), StreamItems(print_, es, marked);
    forall k | 0 <= k < |bodies| ensures FrameBody(bodies[k]) && BlockItem(bodies[k]) == [items[k]] {
      var json := if k < |es| then print_(es[k]) else "[DONE]";
      assert bodies[k] == "data: " + json && items[k] == Item(None, json);
      DataBody(json);
    }
    FramedIter(bodies, items);
  }

  lemma StreamRoundTrip(print_: Chunk -> Bytes, parse: Bytes -> Option<Chunk>, es: seq<Chunk>, marked: bool)
    requires Faithful(print_, parse)
    ensures DecodeItems(parse, IterSse(Frames(StreamBodies(print_, es, marked)))) == es
  {
    StreamFramed(print_, es, marked);
    ChunkItemsDecode(print_, parse, es);
    var items := ChunkItems(print_, es);
    if marked {
      MarkDecodes(parse, items, "[DONE]");
    } else {
      assert items + [] == items;
    }
  }

  lemma MarkDecodes(parse: Bytes -> Option<Chunk>, items: seq<Item>, mark: Bytes)
    requires mark == "[DONE]"
    ensures DecodeItems(parse, items + [Item(None, mark)]) == DecodeItems(parse, items)
  {
    DecodeItemsSnoc(parse, items, Item(None, mark));
    StripClean(mark);
    assert DecodeItems(parse, items) + [] == DecodeItems(parse, items);
  }

  /** A payload line as the translator reads it. */
  lemma ClassifyData(json: Bytes)
    requires CleanObject(json)
    ensures Classify("data: " + json) == Data(json)
  {
    var line := "data: " + json;
    assert line[|line| - 1] == json[|json| - 1];
    assert line[..5] == "data:" && line[5..] == " " + json && (" " + json)[1..] == json;
    CleanIsNotDone(json);
  }

  lemma ClassifyDone()
    ensures Classify("data: [DONE]") == DoneMark
  {
    var line := "data: [DONE]";
    assert line[|line| - 1] == ']';
    assert RStripCr(line) == line;
    assert line[..5] == "data:" && line[5..] == " [DONE]" && " [DONE]"[1..] == "[DONE]";
    StripClean("[DONE]");
  }

  /** Each frame is one payload line and one empty line to the translator. */
  lemma FrameLines(body: Bytes, more: Bytes)
    requires forall k :: 0 <= k < |body| ==> body[k] != '\n'
    ensures Lines(body + "\n\n" + more) == [body, []] + Lines(more)
  {
    hide Lines;
    LineThen(body, ['\n'] + more);
    LineThen([], more);
    assert [] + ['\n'] + more == ['\n'] + more;
    assert body + "\n\n" + more == body + ['\n'] + (['\n'] + more);
    AppendAssoc([body], [[]], Lines(more));
    assert [body] + [[]] == [body, []];
  }

  lemma LineThen(line: Bytes, more: Bytes)
    requires forall k :: 0 <= k < |line| ==> line[k] != '\n'
    ensures Lines(line + ['\n'] + more) == [line] + Lines(more)
  {
    NoNewline(line);
    OneLine(line);
    LinesAppend(line + ['\n'], more);
    assert [] + more == more;
  }

  function WithBlanks(bodies: seq<Bytes>): seq<Bytes> {
    if bodies == [] then [] else WithBlanks(bodies[..|bodies| - 1]) + [bodies[|bodies| - 1], []]
  }

  lemma {:induction false} WithBlanksCons(body: Bytes, bodies: seq<Bytes>)
    ensures WithBlanks([body] + bodies) == [body, []] + WithBlanks(bodies)
  {
    if bodies == [] {
      assert [body] + bodies == [] + [body] && ([] + [body])[..0] == [];
      assert [] + [body, []] == [body, []] + [];
    } else {
      var init, last := bodies[..|bodies| - 1], bodies[|bodies| - 1];
      WithBlanksCons(body, init);
      assert ([body] + bodies)[..|bodies|] == [body] + init;
      AppendAssoc([body, []], WithBlanks(init), [last, []]);
    }
  }

  ghost predicate OneLiners(bodies: seq<Bytes>) {
    forall k, j :: 0 <= k < |bodies| && 0 <= j < |bodies[k]| ==> bodies[k][j] != '\n'
  }

  lemma {:induction false} LinesOfFrames(bodies: seq<Bytes>)
    requires OneLiners(bodies)
    ensures Lines(Frames(bodies)) == WithBlanks(bodies)
  {
    if bodies != [] {
      var more := bodies[1..];
      assert forall k :: 0 <= k < |more| ==> more[k] == bodies[k + 1];
      LinesOfFrames(more);
      FrameLines(bodies[0], Frames(more));
      WithBlanksCons(bodies[0], more);
      assert bodies == [bodies[0]] + more;
    }
  }

  lemma {:induction false} ChunkOneLiners(print_: Chunk -> Bytes, es: seq<Chunk>)
    requires forall e :: CleanObject(print_(e))
    ensures OneLiners(ChunkBodies(print_, es))
  {
    if es != [] {
      ChunkOneLiners(print_, es[..|es| - 1]);
      PrefixedLine("data: ", print_(es[|es| - 1]));
    }
  }

  lemma DecodeSnoc2(parse: Parser, lines: seq<Bytes>, line: Bytes)
    ensures TranslatorChunking.Decode(parse, lines + [line, []]) ==
            TranslatorChunking.Decode(parse, lines + [line])
  {
    assert lines + [line, []] == (lines + [line]) + [[]];
    assert ((lines + [line]) + [[]])[..|lines| + 1] == lines + [line];
    assert Classify([]) == Skip;
  }

  lemma {:induction false} DecodesChunks(print_: Chunk -> Bytes, parse: Parser, es: seq<Chunk>)
    requires Faithful(print_, parse)
    ensures TranslatorChunking.Decode(parse, WithBlanks(ChunkBodies(print_, es))) ==
            TranslatorChunking.Payload(es, false)
  {
    if es != [] {
      var init, e := es[..|es| - 1], es[|es| - 1];
      DecodesChunks(print_, parse, init);
      var lines := WithBlanks(ChunkBodies(print_, init));
      var line := "data: " + print_(e);
      ClassifyData(print_(e));
      DecodeSnoc2(parse, lines, line);
      assert (lines + [line])[..|lines|] == lines;
      assert WithBlanks(ChunkBodies(print_, es)) == lines + [line, []];
    }
  }

  function MarkLines(marked: bool, mark: Bytes): seq<Bytes> {
    if marked then [mark, []] else []
  }

  lemma LinesOfStream(print_: Chunk -> Bytes, es: seq<Chunk>, marked: bool, mark: Bytes)
    requires forall e :: CleanObject(print_(e))
    requires mark == "data: [DONE]"
    ensures Lines(Frames(StreamBodies(print_, es, marked))) ==
            WithBlanks(ChunkBodies(print_, es)) + MarkLines(marked, mark)
  {
    var bodies := ChunkBodies(print_, es);
    ChunkOneLiners(print_, es);
    if marked {
      assert OneLiners(bodies + [mark]);
      LinesOfFrames(bodies + [mark]);
      assert (bodies + [mark])[..|bodies|] == bodies;
    } else {
      assert StreamBodies(print_, es, marked) == bodies;
      LinesOfFrames(bodies);
    }
  }

  lemma DecodeMark(parse: Parser, lines: seq<Bytes>, mark: Bytes)
    requires Classify(mark) == DoneMark && !TranslatorChunking.Decode(parse, lines).closed
    ensures TranslatorChunking.Decode(parse, lines + [mark, []]).chunks ==
            TranslatorChunking.Decode(parse, lines).chunks
  {
    DecodeSnoc2(parse, lines, mark);
    assert (lines + [mark])[..|lines|] == lines;
  }

  lemma StreamDecodes(print_: Chunk -> Bytes, parse: Parser, es: seq<Chunk>, marked: bool, mark: Bytes)
    requires Faithful(print_, parse) && mark == "data: [DONE]" && Classify(mark) == DoneMark
    ensures TranslatorChunking.Decode(parse, Lines(Frames(StreamBodies(print_, es, marked)))).chunks == es
  {
    LinesOfStream(print_, es, marked, mark);
    DecodesChunks(print_, parse, es);
    var lines := WithBlanks(ChunkBodies(print_, es));
    if marked {
      DecodeMark(parse, lines, mark);
    } else {
      assert lines + [] == lines;
    }
  }

  ghost predicate AllWell(parse: Parser, lines: seq<Bytes>) {
    forall k :: 0 <= k < |lines| ==> !TranslatorChunking.IsErrorLine(parse, lines[k])
  }

  lemma AllWellHasNoError(parse: Parser, lines: seq<Bytes>)
    requires AllWell(parse, lines)
    ensures TranslatorChunking.NoErrorLine(parse, lines)
  {
    hide TranslatorChunking.IsErrorLine, TranslatorChunking.Reached;
  }

  lemma {:induction false} NoErrorLines(print_: Chunk -> Bytes, parse: Parser, es: seq<Chunk>)
    requires Faithful(print_, parse) && ErrorFree(es)
    ensures AllWell(parse, WithBlanks(ChunkBodies(print_, es)))
  {
    if es != [] {
      var init, e := es[..|es| - 1], es[|es| - 1];
      assert ErrorFree(init) by { assert forall i :: 0 <= i < |init| ==> init[i] == es[i]; }
      NoErrorLines(print_, parse, init);
      ClassifyData(print_(e));
      assert e.error == None;
      assert Classify([]) == Skip;
    }
  }

  lemma StreamHasNoErrorLine(print_: Chunk -> Bytes, parse: Parser, es: seq<Chunk>, marked: bool, mark: Bytes)
    requires Faithful(print_, parse) && ErrorFree(es) && mark == "data: [DONE]" && Classify(mark) == DoneMark
    ensures TranslatorChunking.NoErrorLine(parse, Lines(Frames(StreamBodies(print_, es, marked))))
  {
    hide TranslatorChunking.NoErrorLine;
    LinesOfStream(print_, es, marked, mark);
    NoErrorLines(print_, parse, es);
    assert Classify([]) == Skip;
    assert AllWell(parse, Lines(Frames(StreamBodies(print_, es, marked))));
    AllWellHasNoError(parse, Lines(Frames(StreamBodies(print_, es, marked))));
  }

  /**
   * On the wire: send an error-free chunk stream in any pieces, with or without the end marker.
   * What capture reads out of the text the client receives is what it reads out of the text the
   * upstream sent, with the finish reason and the usage mapped.
   */
  lemma MeaningOnTheWire(
      printChunk: Chunk -> Bytes, parseChunk: Bytes -> Option<Chunk>,
      printEvent: Event -> Bytes, parseEvent: Bytes -> Option<Event>,
      es: seq<Chunk>, marked: bool, pieces: seq<Bytes>)
    requires Faithful(printChunk, parseChunk) && Faithful(printEvent, parseEvent)
    requires Concat(pieces) == Frames(StreamBodies(printChunk, es, marked))
    requires ErrorFree(es)
    requires Ascending(TranslatorMeaning.Mentions(AllAtoms(es)).order)
    requires TranslatorMeaning.NamesWhole(AllAtoms(es))
    ensures var sent := CaptureOpenAi(parseChunk, Concat(pieces));
            CaptureMessages(parseEvent, Frames(EventBodies(printEvent, Received(parseChunk, pieces)))) ==
            Reassembled(sent.text, sent.tools, Some(StopReason(sent.finish)), UsageFromOpenAi(sent.usage))
  {
    ClassifyDone();
    StreamHasNoErrorLine(printChunk, parseChunk, es, marked, "data: [DONE]");
    TranslatorChunking.ReceivedIsTranslation(parseChunk, pieces);
    StreamDecodes(printChunk, parseChunk, es, marked, "data: [DONE]");
    StreamRoundTrip(printChunk, parseChunk, es, marked);
    var evs := Translate(es);
    EventsFramed(printEvent, evs);
    EventItemsDecode(printEvent, parseEvent, evs);
    TranslatorMeaning.MeaningPreserved(es);
  }
}
