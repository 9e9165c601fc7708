/** Which blocks a response becomes, and which message its blocks become, said block by block. */
module ReplaySays {
  import opened Prelude
  import opened Replay

  // ---- picking out of a list --------------------------------------------------------------------------

  /** Places in ascending order. */
  ghost predicate Places(at: seq<nat>, size: nat) {
    (forall k :: 0 <= k < |at| ==> at[k] < size) && forall i, j :: 0 <= i < j < |at| ==> at[i] < at[j]
  }

  lemma PlacesSnoc(at: seq<nat>, size: nat)
    requires Places(at, size)
    ensures Places(at, size + 1) && Places(at + [size], size + 1)
    ensures forall i: nat :: i in at + [size] <==> i in at || i == size
    ensures size !in at
  {
  }

  // ---- a response as blocks ---------------------------------------------------------------------------

  predicate Prints(f: Field, s: string) {
    match f
    case Absent => s == ""
    case Null => s == "None"
    case Str(t) => s == t
  }

  /** The input of a tool block: what the arguments say, {} where there are none, or the text that cannot be read. */
  ghost predicate Input(parse: string -> Option<Json>, f: Field, v: Json) {
    if f.Str? && f.s != "" then
      if parse(f.s).Some? then v == parse(f.s).value else v == JObject(map["_raw" := JString(f.s)])
    else parse("{}").Some? ==> v == parse("{}").value
  }

  ghost predicate IsCall(parse: string -> Option<Json>, b: Block, c: Call) {
    b.ToolUse? && c.Call? && Prints(c.id, b.id) && Prints(c.name, b.name) && Input(parse, c.arguments, b.input)
  }

  ghost predicate CallsAt(parse: string -> Option<Json>, bs: seq<Block>, calls: seq<Call>, at: seq<nat>) {
    |at| == |bs| && Places(at, |calls|) && forall k :: 0 <= k < |at| ==> IsCall(parse, bs[k], calls[at[k]])
  }

  lemma CallsAtSnoc(parse: string -> Option<Json>, bs: seq<Block>, calls: seq<Call>, at: seq<nat>, c: Call, b: Block)
    requires CallsAt(parse, bs, calls, at)
    ensures CallsAt(parse, bs, calls + [c], at)
    ensures IsCall(parse, b, c) ==> CallsAt(parse, bs + [b], calls + [c], at + [|calls|])
  {
    hide IsCall, Places;
    PlacesSnoc(at, |calls|);
    assert forall k :: 0 <= k < |at| ==> at[k] < |calls| by { InPlace(at, |calls|); }
  }

  lemma InPlace(at: seq<nat>, size: nat)
    requires Places(at, size)
    ensures forall k :: 0 <= k < |at| ==> at[k] < size
  {
  }

  lemma CallIs(parse: string -> Option<Json>, c: Call)
    requires c.Call?
    ensures IsCall(parse, ToolUse(Text(c.id), Text(c.name), Arguments(parse, c.arguments)), c)
  {
  }

  /** The tool blocks are the calls that are dictionaries, in order. */
  lemma {:induction false} ToolBlocksSay(parse: string -> Option<Json>, calls: seq<Call>) returns (at: seq<nat>)
    ensures CallsAt(parse, CallBlocks(parse, calls), calls, at)
    ensures forall i: nat :: i in at <==> i < |calls| && calls[i].Call?
    decreases |calls|
  {
    hide CallsAt, IsCall, Arguments;
    if calls == [] {
      at := [];
      NoCalls(parse);
    } else {
      var n: nat := |calls| - 1;
      var init, c := calls[..n], calls[n];
      var before := ToolBlocksSay(parse, init);
      assert calls == init + [c];
      var b := if c.Call? then ToolUse(Text(c.id), Text(c.name), Arguments(parse, c.arguments)) else OtherBlock;
      CallsAtSnoc(parse, CallBlocks(parse, init), init, before, c, b);
      if c.Call? { CallIs(parse, c); }
      at := if c.Call? then before + [n] else before;
      forall i: nat ensures i in at <==> i < |calls| && calls[i].Call? {
        if i < n { assert init[i] == calls[i]; }
      }
    }
  }

  lemma NoCalls(parse: string -> Option<Json>)
    ensures CallsAt(parse, [], [], [])
  {
  }

  ghost predicate TextsAt(bs: seq<Block>, parts: seq<Part>, at: seq<nat>) {
    |at| == |bs| && Places(at, |parts|) &&
    forall k :: 0 <= k < |at| ==> at[k] < |parts| && parts[at[k]].TextPart? &&
                                  bs[k] == TextBlock(if parts[at[k]].text.Some? then parts[at[k]].text.value else "")
  }

  lemma TextsAtSnoc(bs: seq<Block>, parts: seq<Part>, at: seq<nat>, p: Part)
    requires TextsAt(bs, parts, at)
    ensures TextsAt(bs, parts + [p], at)
    ensures p.TextPart? ==>
              TextsAt(bs + [TextBlock(if p.text.Some? then p.text.value else "")], parts + [p], at + [|parts|])
  {
    PlacesSnoc(at, |parts|);
  }

  lemma {:induction false} TextBlocksSay(parts: seq<Part>) returns (at: seq<nat>)
    ensures TextsAt(PartBlocks(parts), parts, at)
    ensures forall i: nat :: i in at <==> i < |parts| && parts[i].TextPart?
    decreases |parts|
  {
    hide TextsAt;
    if parts == [] {
      at := [];
      NoParts();
    } else {
      var n: nat := |parts| - 1;
      var init, p := parts[..n], parts[n];
      var before := TextBlocksSay(init);
      assert parts == init + [p];
      TextsAtSnoc(PartBlocks(init), init, before, p);
      at := if p.TextPart? then before + [n] else before;
      forall i: nat ensures i in at <==> i < |parts| && parts[i].TextPart? {
        if i < n { assert init[i] == parts[i]; }
      }
    }
  }

  lemma NoParts()
    ensures TextsAt([], [], [])
  {
  }

  ghost predicate TextIs(c: Content, texts: seq<Block>) {
    match c
    case NoContent => texts == []
    case StringContent(s) => texts == if s == "" then [] else [TextBlock(s)]
    case PartsContent(parts) => texts == PartBlocks(parts)
  }

  /** A response is its text, a string as one block and a list part by part, and then its tools. */
  lemma ResponseSays(parse: string -> Option<Json>, m: Message) returns (texts: seq<Block>)
    ensures TextIs(m.content, texts) && ToBlocks(parse, m) == texts + CallBlocks(parse, m.calls)
  {
    texts := TextBlocks(m.content);
  }

  // ---- blocks as history --------------------------------------------------------------------------------

  /** An input that Python takes for empty. */
  predicate Falsy(v: Json) {
    v in {JNull, JBool(false), JNumber(0.0), JString(""), JArray([]), JObject(map[])}
  }

  ghost predicate IsFunction(show: Json -> string, f: Function, b: Block) {
    b.ToolUse? && f == Function(b.id, b.name, show(if Falsy(b.input) then JObject(map[]) else b.input))
  }

  ghost predicate FunctionsAt(show: Json -> string, fs: seq<Function>, blocks: seq<Block>, at: seq<nat>) {
    |at| == |fs| && Places(at, |blocks|) &&
    forall k :: 0 <= k < |at| ==> at[k] < |blocks| && IsFunction(show, fs[k], blocks[at[k]])
  }

  lemma FunctionsSnoc(show: Json -> string, fs: seq<Function>, blocks: seq<Block>, at: seq<nat>, b: Block, f: Function)
    requires FunctionsAt(show, fs, blocks, at)
    ensures FunctionsAt(show, fs, blocks + [b], at)
    ensures IsFunction(show, f, b) ==> FunctionsAt(show, fs + [f], blocks + [b], at + [|blocks|])
  {
    hide IsFunction;
    PlacesSnoc(at, |blocks|);
  }

  lemma FalsyIsUntrue(v: Json)
    ensures Falsy(v) <==> !Truthy(v)
  {
  }

  /** The calls of the message are the tool blocks, in order, with {} for an empty input. */
  lemma {:induction false} HistoryCallsSay(show: Json -> string, blocks: seq<Block>) returns (at: seq<nat>)
    ensures FunctionsAt(show, Calls(show, blocks), blocks, at)
    ensures forall i: nat :: i in at <==> i < |blocks| && blocks[i].ToolUse?
    decreases |blocks|
  {
    hide FunctionsAt, Falsy, Truthy;
    if blocks == [] {
      at := [];
      NoFunctions(show);
    } else {
      var n: nat := |blocks| - 1;
      var init, b := blocks[..n], blocks[n];
      var before := HistoryCallsSay(show, init);
      assert blocks == init + [b];
      var f := if b.ToolUse? then Function(b.id, b.name, show(OrEmpty(b.input))) else Function("", "", "");
      if b.ToolUse? { FalsyIsUntrue(b.input); }
      FunctionsSnoc(show, Calls(show, init), init, before, b, f);
      at := if b.ToolUse? then before + [n] else before;
      forall i: nat ensures i in at <==> i < |blocks| && blocks[i].ToolUse? {
        if i < n { assert init[i] == blocks[i]; }
      }
    }
  }

  lemma NoFunctions(show: Json -> string)
    ensures FunctionsAt(show, [], [], [])
  {
  }

  /** Text `parts[k]` begins at `cuts[k]`, and a newline stands between each two. */
  ghost predicate Lined(text: string, parts: seq<string>, cuts: seq<nat>) {
    && |cuts| == |parts| && (parts == [] ==> text == "")
    && (parts != [] ==> cuts[0] == 0 && cuts[|parts| - 1] + |parts[|parts| - 1]| == |text|)
    && (forall k :: 0 <= k < |parts| ==>
          cuts[k] + |parts[k]| <= |text| && text[cuts[k]..cuts[k] + |parts[k]|] == parts[k])
    && (forall k :: 0 <= k < |parts| - 1 ==> Joint(text, parts, cuts, k))
  }

  predicate Joint(text: string, parts: seq<string>, cuts: seq<nat>, k: nat)
    requires |cuts| == |parts| && k < |parts| - 1
  {
    cuts[k + 1] == cuts[k] + |parts[k]| + 1 && cuts[k + 1] <= |text| && text[cuts[k + 1] - 1] == '\n'
  }

  lemma LinedCons(part: string, text: string, parts: seq<string>, cuts: seq<nat>) returns (all: seq<nat>)
    requires Lined(text, parts, cuts) && parts != []
    ensures Lined(part + "\n" + text, [part] + parts, all)
  {
    var t, ps := part + "\n" + text, [part] + parts;
    var shift := |part| + 1;
    all := [0] + seq(|cuts|, k requires 0 <= k < |cuts| => cuts[k] + shift);
    assert forall k :: 0 < k < |ps| ==> ps[k] == parts[k - 1] && all[k] == cuts[k - 1] + shift;
    forall k | 0 <= k < |ps| ensures all[k] + |ps[k]| <= |t| && t[all[k]..all[k] + |ps[k]|] == ps[k] {
      if k > 0 { assert t[all[k]..all[k] + |ps[k]|] == text[cuts[k - 1]..cuts[k - 1] + |parts[k - 1]|]; }
    }
    forall k | 0 <= k < |ps| - 1 ensures Joint(t, ps, all, k) {
      if k > 0 {
        assert Joint(text, parts, cuts, k - 1);
        assert t[all[k + 1] - 1] == text[cuts[k] - 1];
      }
    }
  }

  lemma {:induction false} LinesJoined(texts: seq<string>) returns (cuts: seq<nat>)
    ensures Lined(JoinLines(texts), texts, cuts)
    decreases |texts|
  {
    if |texts| <= 1 {
      cuts := if texts == [] then [] else [0];
    } else {
      var more := LinesJoined(texts[1..]);
      cuts := LinedCons(texts[0], JoinLines(texts[1..]), texts[1..], more);
      assert texts == [texts[0]] + texts[1..];
    }
  }

  ghost predicate TextsOf(texts: seq<string>, blocks: seq<Block>, at: seq<nat>) {
    |at| == |texts| && Places(at, |blocks|) &&
    forall k :: 0 <= k < |at| ==> at[k] < |blocks| && blocks[at[k]] == TextBlock(texts[k])
  }

  lemma TextsOfSnoc(texts: seq<string>, blocks: seq<Block>, at: seq<nat>, b: Block)
    requires TextsOf(texts, blocks, at)
    ensures TextsOf(texts, blocks + [b], at)
    ensures b.TextBlock? ==> TextsOf(texts + [b.text], blocks + [b], at + [|blocks|])
  {
    PlacesSnoc(at, |blocks|);
  }

  lemma {:induction false} TextsAre(blocks: seq<Block>) returns (at: seq<nat>)
    ensures TextsOf(Texts(blocks), blocks, at)
    ensures forall i: nat :: i in at <==> i < |blocks| && blocks[i].TextBlock?
    decreases |blocks|
  {
    hide TextsOf;
    if blocks == [] {
      at := [];
      NoTexts();
    } else {
      var n: nat := |blocks| - 1;
      var init, b := blocks[..n], blocks[n];
      var before := TextsAre(init);
      assert blocks == init + [b];
      TextsOfSnoc(Texts(init), init, before, b);
      at := if b.TextBlock? then before + [n] else before;
      forall i: nat ensures i in at <==> i < |blocks| && blocks[i].TextBlock? {
        if i < n { assert init[i] == blocks[i]; }
      }
    }
  }

  lemma NoTexts()
    ensures TextsOf([], [], [])
  {
  }

  /**
   * The text of the message is that of all the text blocks, in order, a newline between each two; it is
   * absent exactly when there are tools and no text block.
   */
  lemma HistoryTextSays(show: Json -> string, blocks: seq<Block>)
    returns (texts: seq<string>, at: seq<nat>, cuts: seq<nat>)
    ensures TextsOf(texts, blocks, at) && forall i: nat :: i in at <==> i < |blocks| && blocks[i].TextBlock?
    ensures var h := ToHistory(show, blocks);
            && (h.content == None <==> texts == [] && h.calls != [])
            && (h.content.Some? ==> Lined(h.content.value, texts, cuts))
  {
    hide TextsOf, Lined;
    texts := Texts(blocks);
    at := TextsAre(blocks);
    cuts := LinesJoined(texts);
  }
}
