/**
 * A chat response turned into message blocks, and those blocks, come back as history, turned into a
 * chat message again. Printing and parsing JSON are parameters.
 */
module Replay {
  import opened Prelude

  datatype Json =
    | JNull | JBool(b: bool) | JNumber(n: real) | JString(s: string)
    | JArray(items: seq<Json>) | JObject(fields: map<string, Json>)

  const NO_FIELDS := JObject(map[])

  predicate Truthy(v: Json) {
    match v
    case JNull => false
    case JBool(b) => b
    case JNumber(n) => n != 0.0
    case JString(s) => s != ""
    case JArray(items) => items != []
    case JObject(fields) => fields != map[]
  }

  /** `v or {}` */
  function OrEmpty(v: Json): Json { if Truthy(v) then v else NO_FIELDS }

  /** A field that should hold a string: `str(d.get(key, ""))` of it. */
  datatype Field = Absent | Null | Str(s: string)

  function Text(f: Field): string {
    match f
    case Absent => ""
    case Null => "None"
    case Str(s) => s
  }

  datatype Part = TextPart(text: Option<string>) | OtherPart
  datatype Content = NoContent | StringContent(s: string) | PartsContent(parts: seq<Part>)

  /** A tool call; one that is no dictionary is passed over. */
  datatype Call = Junk | Call(id: Field, name: Field, arguments: Field)
  datatype Message = Message(content: Content, calls: seq<Call>)

  datatype Block = TextBlock(text: string) | ToolUse(id: string, name: string, input: Json) | OtherBlock

  datatype Function = Function(id: string, name: string, arguments: string)
  datatype History = History(content: Option<string>, calls: seq<Function>)

  /** `fn.get("arguments") or "{}"`, parsed; what does not parse is kept as text. */
  function Arguments(parse: string -> Option<Json>, f: Field): Json {
    match parse(if f.Str? && f.s != "" then f.s else "{}")
    case Some(v) => v
    case None => JObject(map["_raw" := if f.Str? then JString(f.s) else JNull])
  }

  function PartBlocks(parts: seq<Part>): seq<Block> {
    if parts == [] then []
    else
      var last := parts[|parts| - 1];
      var before := PartBlocks(parts[..|parts| - 1]);
      if last.TextPart? then before + [TextBlock(last.text.GetOr(""))] else before
  }

  function TextBlocks(c: Content): seq<Block> {
    match c
    case NoContent => []
    case StringContent(s) => if s != "" then [TextBlock(s)] else []
    case PartsContent(parts) => PartBlocks(parts)
  }

  function CallBlocks(parse: string -> Option<Json>, calls: seq<Call>): seq<Block> {
    if calls == [] then []
    else
      var last := calls[|calls| - 1];
      var before := CallBlocks(parse, calls[..|calls| - 1]);
      if last.Call?
      then before + [ToolUse(Text(last.id), Text(last.name), Arguments(parse, last.arguments))]
      else before
  }

  function ToBlocks(parse: string -> Option<Json>, m: Message): seq<Block> {
    TextBlocks(m.content) + CallBlocks(parse, m.calls)
  }

  function Texts(blocks: seq<Block>): seq<string> {
    if blocks == [] then []
    else
      var last := blocks[|blocks| - 1];
      var before := Texts(blocks[..|blocks| - 1]);
      if last.TextBlock? then before + [last.text] else before
  }

  function Calls(show: Json -> string, blocks: seq<Block>): seq<Function> {
    if blocks == [] then []
    else
      var last := blocks[|blocks| - 1];
      var before := Calls(show, blocks[..|blocks| - 1]);
      if last.ToolUse? then before + [Function(last.id, last.name, show(OrEmpty(last.input)))] else before
  }

  /** `"\n".join(texts)` */
  function JoinLines(texts: seq<string>): string {
    if texts == [] then "" else if |texts| == 1 then texts[0] else texts[0] + "\n" + JoinLines(texts[1..])
  }

  function ToHistory(show: Json -> string, blocks: seq<Block>): History {
    var texts, calls := Texts(blocks), Calls(show, blocks);
    History(if calls != [] && texts == [] then None else Some(JoinLines(texts)), calls)
  }

  method ResponseToBlocks(parse: string -> Option<Json>, m: Message) returns (content: seq<Block>)
    ensures content == ToBlocks(parse, m)
  {
    content := [];
    match m.content {
      case StringContent(s) => if s != "" { content := [TextBlock(s)]; }
      case PartsContent(parts) =>
        for i := 0 to |parts|
          invariant content == PartBlocks(parts[..i])
        {
          assert parts[..i + 1][..i] == parts[..i];
          if parts[i].TextPart? {
            content := content + [TextBlock(parts[i].text.GetOr(""))];
          }
        }
        assert parts[..|parts|] == parts;
      case NoContent =>
    }
    for i := 0 to |m.calls|
      invariant content == TextBlocks(m.content) + CallBlocks(parse, m.calls[..i])
    {
      assert m.calls[..i + 1][..i] == m.calls[..i];
      var call := m.calls[i];
      if call.Call? {
        content := content + [ToolUse(Text(call.id), Text(call.name), Arguments(parse, call.arguments))];
      }
    }
    assert m.calls[..|m.calls|] == m.calls;
  }

  method AssistantToHistory(show: Json -> string, blocks: seq<Block>) returns (h: History)
    ensures h == ToHistory(show, blocks)
  {
    var texts: seq<string>, calls: seq<Function> := [], [];
    for i := 0 to |blocks|
      invariant texts == Texts(blocks[..i]) && calls == Calls(show, blocks[..i])
    {
      assert blocks[..i + 1][..i] == blocks[..i];
      var b := blocks[i];
      if b.TextBlock? {
        texts := texts + [b.text];
      } else if b.ToolUse? {
        calls := calls + [Function(b.id, b.name, show(OrEmpty(b.input)))];
      }
    }
    assert blocks[..|blocks|] == blocks;
    if calls != [] {
      return History(if texts != [] then Some(JoinLines(texts)) else None, calls);
    }
    return History(Some(JoinLines(texts)), []);
  }

  // ---- there and back ---------------------------------------------------------------------------

  ghost predicate Returns(parse: string -> Option<Json>, show: Json -> string, v: Json) { parse(show(v)) == Some(v) }

  function Kept(s: string): Json { JObject(map["_raw" := JString(s)]) }

  /** What was read, or kept unread, can be printed and read again; nothing cannot be read. */
  ghost predicate Faithful(parse: string -> Option<Json>, show: Json -> string) {
    && (forall s :: parse(s).Some? ==> Returns(parse, show, parse(s).value))
    && (forall s :: Returns(parse, show, Kept(s)))
    && parse("{}") == Some(NO_FIELDS) && parse("") == None
  }

  /** A value some text reads as. */
  ghost predicate Known(parse: string -> Option<Json>, v: Json) { exists s :: parse(s) == Some(v) }

  lemma KnownReturns(parse: string -> Option<Json>, show: Json -> string, v: Json)
    requires Faithful(parse, show) && Known(parse, v)
    ensures Returns(parse, show, v) && Returns(parse, show, OrEmpty(v)) && Known(parse, OrEmpty(v))
    ensures show(OrEmpty(v)) != ""
  {
    var s :| parse(s) == Some(v);
    assert parse("{}") == Some(NO_FIELDS);
    assert Returns(parse, show, parse("{}").value);
  }

  lemma ArgumentsAreKnown(parse: string -> Option<Json>, show: Json -> string, f: Field)
    requires Faithful(parse, show)
    ensures Known(parse, Arguments(parse, f))
  {
    var text := if f.Str? && f.s != "" then f.s else "{}";
    if parse(text).Some? {
      assert Known(parse, parse(text).value);
    } else {
      assert Returns(parse, show, Kept(f.s));
      assert Known(parse, Kept(f.s));
    }
  }

  /** Every tool's input is a value that was read. */
  ghost predicate AllKnown(parse: string -> Option<Json>, blocks: seq<Block>) {
    forall k :: 0 <= k < |blocks| && blocks[k].ToolUse? ==> Known(parse, blocks[k].input)
  }

  /** The calls that are dictionaries. */
  function Real(calls: seq<Call>): seq<Call> {
    if calls == [] then []
    else
      var before := Real(calls[..|calls| - 1]);
      if calls[|calls| - 1].Call? then before + [calls[|calls| - 1]] else before
  }

  lemma OneBlock(show: Json -> string, b: Block)
    ensures Texts([b]) == if b.TextBlock? then [b.text] else []
    ensures Calls(show, [b]) == if b.ToolUse? then [Function(b.id, b.name, show(OrEmpty(b.input)))] else []
    ensures Tools([b]) == if b.ToolUse? then [b.(input := OrEmpty(b.input))] else []
  {
    assert [b][..0] == [];
  }

  lemma {:induction false} TextsAppend(a: seq<Block>, b: seq<Block>)
    ensures Texts(a + b) == Texts(a) + Texts(b)
    decreases |b|
  {
    if b == [] {
      assert a + b == a;
    } else {
      assert (a + b)[..|a + b| - 1] == a + b[..|b| - 1];
      TextsAppend(a, b[..|b| - 1]);
    }
  }

  lemma {:induction false} CallsAppend(show: Json -> string, a: seq<Block>, b: seq<Block>)
    ensures Calls(show, a + b) == Calls(show, a) + Calls(show, b)
    decreases |b|
  {
    if b == [] {
      assert a + b == a;
    } else {
      assert (a + b)[..|a + b| - 1] == a + b[..|b| - 1];
      CallsAppend(show, a, b[..|b| - 1]);
    }
  }

  lemma {:induction false} PartBlocksAreTexts(show: Json -> string, parts: seq<Part>)
    ensures Calls(show, PartBlocks(parts)) == []
    decreases |parts|
  {
    if parts != [] {
      var init, last := parts[..|parts| - 1], parts[|parts| - 1];
      PartBlocksAreTexts(show, init);
      if last.TextPart? {
        var b := TextBlock(last.text.GetOr(""));
        assert PartBlocks(parts) == PartBlocks(init) + [b];
        CallsAppend(show, PartBlocks(init), [b]);
        OneBlock(show, b);
      }
    }
  }

  /** One call of the response, and the same call in the history. */
  ghost predicate SameCall(parse: string -> Option<Json>, c: Call, f: Function) {
    && c.Call? && f.id == Text(c.id) && f.name == Text(c.name)
    && parse(f.arguments) == Some(OrEmpty(Arguments(parse, c.arguments)))
  }

  lemma {:induction false} CallsReturn(parse: string -> Option<Json>, show: Json -> string, calls: seq<Call>)
    requires Faithful(parse, show)
    ensures Texts(CallBlocks(parse, calls)) == []
    ensures var fs := Calls(show, CallBlocks(parse, calls));
            |fs| == |Real(calls)| && forall i :: 0 <= i < |fs| ==> SameCall(parse, Real(calls)[i], fs[i])
    decreases |calls|
  {
    if calls != [] {
      var init, last := calls[..|calls| - 1], calls[|calls| - 1];
      CallsReturn(parse, show, init);
      if last.Call? {
        var one := [ToolUse(Text(last.id), Text(last.name), Arguments(parse, last.arguments))];
        CallsAppend(show, CallBlocks(parse, init), one);
        TextsAppend(CallBlocks(parse, init), one);
        OneBlock(show, one[0]);
        assert CallBlocks(parse, calls) == CallBlocks(parse, init) + one;
        ArgumentsAreKnown(parse, show, last.arguments);
        KnownReturns(parse, show, one[0].input);
      }
    }
  }

  /**
   * Every call comes back, in order, under its own id and name, and with the arguments it was parsed
   * to, unless these were an empty value other than {}; and the text comes back.
   */
  lemma ReplayReturns(parse: string -> Option<Json>, show: Json -> string, m: Message)
    requires Faithful(parse, show)
    ensures var h := ToHistory(show, ToBlocks(parse, m));
            && |h.calls| == |Real(m.calls)|
            && (forall i :: 0 <= i < |h.calls| ==> SameCall(parse, Real(m.calls)[i], h.calls[i]))
            && (m.content.StringContent? ==>
                  h.content == if m.content.s == "" && h.calls != [] then None else Some(m.content.s))
            && (m.content.PartsContent? ==>
                  h.content == if Texts(PartBlocks(m.content.parts)) == [] && h.calls != [] then None
                               else Some(JoinLines(Texts(PartBlocks(m.content.parts)))))
  {
    hide CallBlocks, Calls, Real, PartBlocks, Texts;
    var t, c := TextBlocks(m.content), CallBlocks(parse, m.calls);
    TextsAppend(t, c);
    CallsAppend(show, t, c);
    CallsReturn(parse, show, m.calls);
    TextSide(show, m.content);
    assert Texts(t) + [] == Texts(t) && [] + Calls(show, c) == Calls(show, c);
  }

  lemma TextSide(show: Json -> string, c: Content)
    ensures Calls(show, TextBlocks(c)) == []
    ensures c.StringContent? ==> Texts(TextBlocks(c)) == if c.s == "" then [] else [c.s]
  {
    if c.PartsContent? { PartBlocksAreTexts(show, c.parts); }
    if c.StringContent? { OneBlock(show, TextBlock(c.s)); }
  }

  /** The parsed arguments survive exactly when they are not an empty value, or are {}. */
  lemma ArgumentsSurvive(parse: string -> Option<Json>, c: Call, f: Function, v: Json)
    requires SameCall(parse, c, f) && c.arguments.Str? && c.arguments.s != "" && parse(c.arguments.s) == Some(v)
    ensures parse(f.arguments) == Some(v) <==> Truthy(v) || v == NO_FIELDS
  {
  }

  /** What does not parse comes back as an object that holds it. */
  lemma UnparsedArgumentsAreKept(parse: string -> Option<Json>, c: Call, f: Function)
    requires SameCall(parse, c, f) && c.arguments.Str? && c.arguments.s != "" && parse(c.arguments.s) == None
    ensures parse(f.arguments) == Some(JObject(map["_raw" := JString(c.arguments.s)]))
  {
    var fields := map["_raw" := JString(c.arguments.s)];
    assert "_raw" in fields;
    assert fields != map[];
  }

  // ---- a second time round --------------------------------------------------------------------------

  function AsMessage(h: History): Message {
    Message(match h.content case None => NoContent case Some(s) => StringContent(s), AsCalls(h.calls))
  }

  function AsCalls(fs: seq<Function>): seq<Call> {
    if fs == [] then []
    else
      var f := fs[|fs| - 1];
      AsCalls(fs[..|fs| - 1]) + [Call(Str(f.id), Str(f.name), Str(f.arguments))]
  }

  function Tools(blocks: seq<Block>): seq<Block> {
    if blocks == [] then []
    else
      var last := blocks[|blocks| - 1];
      var before := Tools(blocks[..|blocks| - 1]);
      if last.ToolUse? then before + [last.(input := OrEmpty(last.input))] else before
  }

  /** One text, then the tools, no empty value but {}. */
  function Normal(blocks: seq<Block>): seq<Block> {
    var text := JoinLines(Texts(blocks));
    (if text == "" then [] else [TextBlock(text)]) + Tools(blocks)
  }

  lemma AsCallsSnoc(fs: seq<Function>, f: Function)
    ensures AsCalls(fs + [f]) == AsCalls(fs) + [Call(Str(f.id), Str(f.name), Str(f.arguments))]
  {
    assert (fs + [f])[..|fs|] == fs;
  }

  lemma CallBlocksSnoc(parse: string -> Option<Json>, cs: seq<Call>, c: Call)
    requires c.Call?
    ensures CallBlocks(parse, cs + [c]) ==
            CallBlocks(parse, cs) + [ToolUse(Text(c.id), Text(c.name), Arguments(parse, c.arguments))]
  {
    assert (cs + [c])[..|cs|] == cs;
  }

  lemma {:induction false} ToolsReturn(parse: string -> Option<Json>, show: Json -> string, blocks: seq<Block>)
    requires Faithful(parse, show) && AllKnown(parse, blocks)
    ensures CallBlocks(parse, AsCalls(Calls(show, blocks))) == Tools(blocks)
    decreases |blocks|
  {
    hide CallBlocks, AsCalls;
    if blocks == [] {
      NothingReturns(parse);
    } else {
      var init, last := blocks[..|blocks| - 1], blocks[|blocks| - 1];
      ToolsReturn(parse, show, init);
      if last.ToolUse? {
        var f := Function(last.id, last.name, show(OrEmpty(last.input)));
        assert Calls(show, blocks) == Calls(show, init) + [f];
        AsCallsSnoc(Calls(show, init), f);
        CallBlocksSnoc(parse, AsCalls(Calls(show, init)), Call(Str(f.id), Str(f.name), Str(f.arguments)));
        assert Known(parse, last.input);
        KnownReturns(parse, show, last.input);
      }
    }
  }

  lemma NothingReturns(parse: string -> Option<Json>)
    ensures CallBlocks(parse, AsCalls([])) == []
  {
  }

  /** Blocks that go round again come out in normal form. */
  lemma SecondRoundNormalises(parse: string -> Option<Json>, show: Json -> string, blocks: seq<Block>)
    requires Faithful(parse, show) && AllKnown(parse, blocks)
    ensures ToBlocks(parse, AsMessage(ToHistory(show, blocks))) == Normal(blocks)
  {
    ToolsReturn(parse, show, blocks);
  }

  lemma {:induction false} ToolsAreNormal(blocks: seq<Block>)
    ensures Texts(Tools(blocks)) == [] && Tools(Tools(blocks)) == Tools(blocks)
    decreases |blocks|
  {
    if blocks != [] {
      var init, last := blocks[..|blocks| - 1], blocks[|blocks| - 1];
      ToolsAreNormal(init);
      if last.ToolUse? {
        var t := last.(input := OrEmpty(last.input));
        TextsAppend(Tools(init), [t]);
        ToolsAppend(Tools(init), [t]);
        OneBlock(_ => "", t);
      }
    }
  }

  lemma {:induction false} ToolsAppend(a: seq<Block>, b: seq<Block>)
    ensures Tools(a + b) == Tools(a) + Tools(b)
    decreases |b|
  {
    if b == [] {
      assert a + b == a;
    } else {
      assert (a + b)[..|a + b| - 1] == a + b[..|b| - 1];
      ToolsAppend(a, b[..|b| - 1]);
    }
  }

  lemma {:induction false} ToolsAreKnown(parse: string -> Option<Json>, show: Json -> string, blocks: seq<Block>)
    requires Faithful(parse, show) && AllKnown(parse, blocks)
    ensures AllKnown(parse, Tools(blocks))
    decreases |blocks|
  {
    if blocks != [] {
      var init, last := blocks[..|blocks| - 1], blocks[|blocks| - 1];
      ToolsAreKnown(parse, show, init);
      if last.ToolUse? { KnownReturns(parse, show, last.input); }
    }
  }

  lemma NormalTwice(blocks: seq<Block>)
    ensures Normal(Normal(blocks)) == Normal(blocks)
  {
    hide Texts, Tools;
    var text := JoinLines(Texts(blocks));
    var tools := Tools(blocks);
    var head := if text == "" then [] else [TextBlock(text)];
    ToolsAreNormal(blocks);
    TextsAppend(head, tools);
    ToolsAppend(head, tools);
    OneBlock(_ => "", TextBlock(text));
    NoBlocks();
    if text != "" { assert [text] + [] == [text]; }
  }

  lemma NoBlocks()
    ensures Texts([]) == [] && Tools([]) == []
  {
  }

  lemma NormalIsKnown(parse: string -> Option<Json>, show: Json -> string, blocks: seq<Block>)
    requires Faithful(parse, show) && AllKnown(parse, blocks)
    ensures AllKnown(parse, Normal(blocks))
  {
    hide Tools, Known;
    ToolsAreKnown(parse, show, blocks);
  }

  /** So from the second round on nothing changes any more. */
  lemma NormalFormIsStable(parse: string -> Option<Json>, show: Json -> string, blocks: seq<Block>)
    requires Faithful(parse, show) && AllKnown(parse, blocks)
    ensures var once := ToBlocks(parse, AsMessage(ToHistory(show, blocks)));
            ToBlocks(parse, AsMessage(ToHistory(show, once))) == once
  {
    hide ToBlocks, ToHistory, AsMessage, Normal;
    SecondRoundNormalises(parse, show, blocks);
    NormalIsKnown(parse, show, blocks);
    SecondRoundNormalises(parse, show, Normal(blocks));
    NormalTwice(blocks);
  }
}
