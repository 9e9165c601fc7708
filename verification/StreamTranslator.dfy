/** The translator as it runs: a line buffer fed with arbitrary pieces of the byte stream. */
module StreamTranslator {
  import opened Prelude
  import opened ByteLines
  import opened ChatStream
  import opened MessagesStream
  import opened Translator

  datatype Line = Skip | DoneMark | Data(payload: Bytes)

  /** What a line of the stream is for: payload lines lose one leading space. */
  function Classify(raw: Bytes): Line {
    var line := RStripCr(raw);
    if !("data:" <= line) then Skip
    else
      var d := line[5..];
      var data := if " " <= d then d[1..] else d;
      if Strip(data) == "[DONE]" then DoneMark else Data(data)
  }

  type Parser = Bytes -> Option<Chunk>

  /** `closed` says that the end marker was met, after which the call in progress returns. */
  datatype Progress = Progress(s: State, out: seq<Event>, closed: bool)

  function StepLine(parse: Parser, p: Progress, line: Bytes): Progress {
    if p.closed then p
    else
      match Classify(line)
      case Skip => p
      case DoneMark => var c := Close(p.s); Progress(c.s, p.out + c.out, true)
      case Data(d) =>
        match parse(d)
        case None => p
        case Some(e) => var c := OnChunk(p.s, e); Progress(c.s, p.out + c.out, false)
  }

  function RunLines(parse: Parser, s: State, lines: seq<Bytes>): Progress {
    if lines == [] then Progress(s, [], false)
    else StepLine(parse, RunLines(parse, s, lines[..|lines| - 1]), lines[|lines| - 1])
  }

  lemma RunLinesSnoc(parse: Parser, s: State, lines: seq<Bytes>, line: Bytes)
    ensures RunLines(parse, s, lines + [line]) == StepLine(parse, RunLines(parse, s, lines), line)
  {
    assert (lines + [line])[..|lines|] == lines;
  }

  /** Running on from a closed run changes nothing; otherwise outputs concatenate. */
  function Continue(p: Progress, q: Progress): Progress {
    if p.closed then p else Progress(q.s, p.out + q.out, q.closed)
  }

  lemma StepContinue(parse: Parser, p: Progress, q: Progress, line: Bytes)
    ensures StepLine(parse, Continue(p, q), line) == Continue(p, StepLine(parse, q, line))
  {
    if !p.closed && !q.closed {
      match Classify(line) {
        case Skip =>
        case DoneMark => AppendAssoc(p.out, q.out, Close(q.s).out);
        case Data(d) =>
          if parse(d).Some? { AppendAssoc(p.out, q.out, OnChunk(q.s, parse(d).value).out); }
      }
    }
  }

  lemma {:induction false} RunLinesAppend(parse: Parser, s: State, a: seq<Bytes>, b: seq<Bytes>)
    ensures RunLines(parse, s, a + b) == Continue(RunLines(parse, s, a), RunLines(parse, RunLines(parse, s, a).s, b))
  {
    if b == [] {
      assert a + b == a;
    } else {
      var i := b[..|b| - 1];
      assert a + b == (a + i) + [b[|b| - 1]];
      RunLinesSnoc(parse, s, a + i, b[|b| - 1]);
      RunLinesAppend(parse, s, a, i);
      var p := RunLines(parse, s, a);
      StepContinue(parse, p, RunLines(parse, p.s, i), b[|b| - 1]);
    }
  }

  lemma RunsOn(parse: Parser, s: State, seen: seq<Bytes>, line: Bytes, q: Progress)
    requires !RunLines(parse, s, seen).closed
    requires q == StepLine(parse, Progress(RunLines(parse, s, seen).s, [], false), line)
    ensures var p := RunLines(parse, s, seen);
            RunLines(parse, s, seen + [line]) == Progress(q.s, p.out + q.out, q.closed)
    ensures q.closed ==> q.s.done
  {
    hide RunLines;
    var p := RunLines(parse, s, seen);
    RunLinesSnoc(parse, s, seen, line);
    StepContinue(parse, p, Progress(p.s, [], false), line);
    assert p.out + [] == p.out;
  }

  lemma ClosedStays(parse: Parser, s: State, seen: seq<Bytes>, more: seq<Bytes>)
    requires RunLines(parse, s, seen).closed
    ensures RunLines(parse, s, seen + more) == RunLines(parse, s, seen)
  {
    hide RunLines;
    RunLinesAppend(parse, s, seen, more);
  }

  // ---- feeding ----------------------------------------------------------------------------

  datatype Feeder = Feeder(s: State, buf: Bytes)
  datatype Fed = Fed(f: Feeder, out: seq<Event>)

  lemma NextLine(b: Bytes)
    ensures var nl := Find(b, '\n');
            if nl < 0 then Lines(b) == [] && Rest(b) == b
            else Lines(b) == [b[..nl]] + Lines(b[nl + 1..]) && Rest(b) == Rest(b[nl + 1..])
  {
    hide Find;
  }

  function FeedOnce(parse: Parser, f: Feeder, chunk: Bytes): Fed {
    if f.s.done then Fed(f, [])
    else
      var p := RunLines(parse, f.s, Lines(f.buf + chunk));
      Fed(Feeder(p.s, Rest(f.buf + chunk)), p.out)
  }

  function FeedAll(parse: Parser, chunks: seq<Bytes>): Fed {
    if chunks == [] then Fed(Feeder(INITIAL, []), [])
    else
      var r := FeedAll(parse, chunks[..|chunks| - 1]);
      var t := FeedOnce(parse, r.f, chunks[|chunks| - 1]);
      Fed(t.f, r.out + t.out)
  }

  function FinishWith(f: Feeder): seq<Event> {
    if f.s.done then [] else Close(f.s).out
  }

  /** Everything a client receives when the stream arrives in these pieces and then ends. */
  function Received(parse: Parser, chunks: seq<Bytes>): seq<Event> {
    var r := FeedAll(parse, chunks);
    r.out + FinishWith(r.f)
  }

  /** The translator object. */
  class OpenAIChatToAnthropicSSE {
    const parse: Parser
    var buf: Bytes
    var started: bool
    var blockIndex: int
    var blockType: Option<Kind>
    var toolBlockFor: map<int, int>
    var finishReason: Option<string>
    var usage: Option<Usage>
    var done: bool

    ghost function Abs(): State
      reads this
    {
      State(started, blockIndex, blockType, toolBlockFor, finishReason, usage, done)
    }

    /** A feeder describes this object; the buffer is never looked at again once done. */
    ghost predicate Is(f: Feeder)
      reads this
    {
      Abs() == f.s && (!done ==> buf == f.buf)
    }

    constructor (parse: Parser)
      ensures this.parse == parse && Is(Feeder(INITIAL, []))
    {
      this.parse := parse;
      buf, started, blockIndex, blockType := [], false, -1, None;
      toolBlockFor, finishReason, usage, done := map[], None, None, false;
    }

    method CloseBlock() returns (out: seq<Event>)
      modifies this`blockType
      ensures Step(Abs(), out) == Translator.CloseBlock(old(Abs()))
    {
      if blockType == None { return []; }
      out := [BlockStop(blockIndex)];
      blockType := None;
    }

    method Close() returns (out: seq<Event>)
      modifies this`blockType, this`done, this`started
      ensures Step(Abs(), out) == Translator.Close(old(Abs()))
    {
      done := true;
      out := [];
      if !started {
        out := [MessageStart];
        started := true;
      }
      var c := CloseBlock();
      out := out + c + [MessageDelta(StopReason(finishReason), UsageFromOpenAi(usage)), MessageStop];
    }

    method OnText(text: string) returns (out: seq<Event>)
      modifies this`blockType, this`blockIndex
      ensures Step(Abs(), out) == Apply(old(Abs()), Text(text))
    {
      out := [];
      if text != "" {
        if blockType != Some(TextKind) {
          out := CloseBlock();
          blockIndex := blockIndex + 1;
          blockType := Some(TextKind);
          out := out + [BlockStart(blockIndex, TextBlock)];
        }
        out := out + [TextDelta(blockIndex, text)];
      }
    }

    method OnToolCall(tc: ToolDelta) returns (out: seq<Event>)
      modifies this`blockType, this`blockIndex, this`toolBlockFor
      ensures Step(Abs(), out) == Apply(old(Abs()), Tool(tc))
    {
      out := [];
      var idx := tc.Idx();
      if idx !in toolBlockFor {
        out := CloseBlock();
        blockIndex := blockIndex + 1;
        toolBlockFor := toolBlockFor[idx := blockIndex];
        blockType := Some(ToolKind);
        out := out + [BlockStart(blockIndex, ToolUse(PyStr(tc.id, ""), PyStr(tc.name, "")))];
      }
      if tc.arguments.Some? && tc.arguments.value != "" {
        out := out + [JsonDelta(toolBlockFor[idx], tc.arguments.value)];
      }
    }

    method OnToolCalls(tools: seq<ToolDelta>) returns (out: seq<Event>)
      modifies this`blockType, this`blockIndex, this`toolBlockFor
      ensures Step(Abs(), out) == Run(old(Abs()), ToolAtoms(tools))
    {
      out := [];
      for j := 0 to |tools|
        invariant Step(Abs(), out) == Run(old(Abs()), ToolAtoms(tools[..j]))
      {
        assert ToolAtoms(tools[..j + 1]) == ToolAtoms(tools[..j]) + [Tool(tools[j])];
        RunSnoc(old(Abs()), ToolAtoms(tools[..j]), Tool(tools[j]));
        var o := OnToolCall(tools[j]);
        out := out + o;
      }
      assert tools[..|tools|] == tools;
    }

    /** One decoded chunk. */
    method OnChunk(e: Chunk) returns (out: seq<Event>)
      modifies this`started, this`blockType, this`blockIndex, this`toolBlockFor,
               this`finishReason, this`usage, this`done
      ensures Step(Abs(), out) == Translator.OnChunk(old(Abs()), e)
    {
      if e.error.Some? {
        done := true;
        return [ErrorEvent(PyStr(e.error.value.kind, "api_error"), PyStr(e.error.value.message, ""))];
      }
      ghost var s0 := Abs();
      ghost var us := match e.usage case Some(u) => [UsageSeen(u)] case None => [];
      if e.usage.Some? { usage := e.usage; }
      RunSnoc(s0, [], UsageSeen(e.usage.GetOr(Usage(None, None, None))));
      assert Step(Abs(), []) == Run(s0, us);
      if e.choice == None { return []; }
      var c := e.choice.value;
      RunAppend(s0, us, ChoiceAtoms(c));
      assert Atoms(e) == us + ChoiceAtoms(c);
      out := OnChoice(c);
    }

    method OnChoice(c: Choice) returns (out: seq<Event>)
      modifies this`started, this`blockType, this`blockIndex, this`toolBlockFor, this`finishReason
      ensures Step(Abs(), out) == Run(old(Abs()), ChoiceAtoms(c))
    {
      ghost var s0 := Abs();
      ghost var fin := match c.finish case Some(f) => if f == "" then [] else [FinishSeen(f)] case None => [];
      if c.finish.Some? && c.finish.value != "" {
        finishReason := c.finish;
        RunSnoc(s0, [], FinishSeen(c.finish.value));
      }
      assert Step(Abs(), []) == Run(s0, fin);
      RunSnoc(s0, fin, Opened);
      out := [];
      if !started {
        started := true;
        out := [MessageStart];
      }
      assert Step(Abs(), out) == Run(s0, fin + [Opened]);
      if c.delta == None {
        assert ChoiceAtoms(c) == fin + [Opened];
        return;
      }
      ghost var da := DeltaAtoms(c.delta.value);
      RunAppend(s0, fin + [Opened], da);
      assert ChoiceAtoms(c) == fin + [Opened] + da;
      var o := OnDelta(c.delta.value);
      out := out + o;
    }

    method OnDelta(d: Delta) returns (out: seq<Event>)
      modifies this`blockType, this`blockIndex, this`toolBlockFor
      ensures Step(Abs(), out) == Run(old(Abs()), DeltaAtoms(d))
    {
      ghost var s0 := Abs();
      ghost var txt := match d.content case Some(t) => [Text(t)] case None => [];
      RunAppend(s0, txt, ToolAtoms(d.tools));
      assert DeltaAtoms(d) == txt + ToolAtoms(d.tools);
      out := [];
      if d.content.Some? {
        RunSnoc(s0, [], Text(d.content.value));
        out := OnText(d.content.value);
      }
      assert Step(Abs(), out) == Run(s0, txt);
      var o := OnToolCalls(d.tools);
      out := out + o;
    }

    /** One line of the stream; `closed` when it was the end marker. */
    method OnLine(line: Bytes) returns (out: seq<Event>, closed: bool)
      modifies this`started, this`blockType, this`blockIndex, this`toolBlockFor,
               this`finishReason, this`usage, this`done
      ensures Progress(Abs(), out, closed) == StepLine(parse, Progress(old(Abs()), [], false), line)
    {
      out, closed := [], false;
      match Classify(line) {
        case Skip =>
        case DoneMark =>
          out := Close();
          closed := true;
        case Data(data) =>
          var evt := parse(data);
          if evt.Some? { out := OnChunk(evt.value); }
      }
    }

    /** Bytes in, events out; the unfinished line waits in the buffer. */
    method Feed(chunk: Bytes) returns (out: seq<Event>)
      modifies this
      ensures var t := FeedOnce(parse, Feeder(old(Abs()), old(buf)), chunk); Is(t.f) && out == t.out
    {
      if done { return []; }
      hide RunLines, StepLine, Lines, Rest;
      ghost var s0 := Abs();
      ghost var all := buf + chunk;
      ghost var seen: seq<Bytes> := [];
      buf := buf + chunk;
      out := [];
      while true
        invariant seen + Lines(buf) == Lines(all) && Rest(buf) == Rest(all)
        invariant Progress(Abs(), out, false) == RunLines(parse, s0, seen)
        decreases |buf|
      {
        var nl := Find(buf, '\n');
        NextLine(buf);
        if nl < 0 {
          assert seen + [] == seen;
          break;
        }
        var line := buf[..nl];
        buf := buf[nl + 1..];
        var o, closed := OnLine(line);
        RunsOn(parse, s0, seen, line, Progress(Abs(), o, closed));
        out := out + o;
        AppendAssoc(seen, [line], Lines(buf));
        seen := seen + [line];
        if closed {
          ClosedStays(parse, s0, seen, Lines(buf));
          return;
        }
      }
    }

    method Finish() returns (out: seq<Event>)
      modifies this
      ensures out == FinishWith(Feeder(old(Abs()), old(buf)))
      ensures done
    {
      if done { return []; }
      buf := [];
      out := Close();
    }
  }
}
