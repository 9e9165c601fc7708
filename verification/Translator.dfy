/** The incremental chat-to-messages translator: its step function and the class that runs it. */
module Translator {
  import opened Prelude
  import opened ChatStream
  import opened MessagesStream

  /** Kind of the content block currently open. */
  datatype Kind = TextKind | ToolKind

  datatype State = State(
    started: bool,
    blockIndex: int,
    blockType: Option<Kind>,
    toolBlockFor: map<int, int>,
    finish: Option<string>,
    usage: Option<Usage>,
    done: bool)

  datatype Step = Step(s: State, out: seq<Event>)

  const INITIAL := State(false, -1, None, map[], None, None, false)

  function StopReason(finish: Option<string>): string {
    match finish
    case None => "end_turn"
    case Some(f) =>
      if f == "stop" then "end_turn"
      else if f == "length" then "max_tokens"
      else if f == "tool_calls" || f == "function_call" then "tool_use"
      else if f == "content_filter" then "refusal"
      else "end_turn"
  }

  function UsageFromOpenAi(u: Option<Usage>): map<string, int> {
    var usage := u.GetOr(Usage(None, None, None));
    map["input_tokens" := usage.prompt.GetOr(0),
        "output_tokens" := usage.completion.GetOr(0),
        "cache_read_input_tokens" := usage.cached.GetOr(0)]
  }

  function CloseBlock(s: State): Step {
    if s.blockType == None then Step(s, []) else Step(s.(blockType := None), [BlockStop(s.blockIndex)])
  }

  function StartBlock(s: State, kind: Kind, b: Block): Step {
    var c := CloseBlock(s);
    var s' := c.s.(blockIndex := c.s.blockIndex + 1, blockType := Some(kind));
    Step(s', c.out + [BlockStart(s'.blockIndex, b)])
  }

  /** One effect of a chunk. */
  function Apply(s: State, a: Atom): Step {
    match a
    case UsageSeen(u) => Step(s.(usage := Some(u)), [])
    case FinishSeen(f) => Step(s.(finish := Some(f)), [])
    case Opened => if s.started then Step(s, []) else Step(s.(started := true), [MessageStart])
    case Text(t) =>
      if t == "" then Step(s, [])
      else
        var o := if s.blockType == Some(TextKind) then Step(s, []) else StartBlock(s, TextKind, TextBlock);
        Step(o.s, o.out + [TextDelta(o.s.blockIndex, t)])
    case Tool(d) =>
      var o := if d.Idx() in s.toolBlockFor then Step(s, [])
               else
                 var b := StartBlock(s, ToolKind, ToolUse(PyStr(d.id, ""), PyStr(d.name, "")));
                 Step(b.s.(toolBlockFor := s.toolBlockFor[d.Idx() := b.s.blockIndex]), b.out);
      if d.Args() == "" then o
      else Step(o.s, o.out + [JsonDelta(o.s.toolBlockFor[d.Idx()], d.Args())])
  }

  function Run(s: State, atoms: seq<Atom>): Step {
    if atoms == [] then Step(s, [])
    else
      var r := Run(s, atoms[..|atoms| - 1]);
      var t := Apply(r.s, atoms[|atoms| - 1]);
      Step(t.s, r.out + t.out)
  }

  function OnChunk(s: State, e: Chunk): Step {
    match e.error
    case Some(err) =>
      Step(s.(done := true), [ErrorEvent(PyStr(err.kind, "api_error"), PyStr(err.message, ""))])
    case None => Run(s, Atoms(e))
  }

  function Close(s: State): Step {
    var opening := if s.started then [] else [MessageStart];
    var c := CloseBlock(s.(done := true, started := true));
    Step(c.s, opening + c.out + [MessageDelta(StopReason(s.finish), UsageFromOpenAi(s.usage)), MessageStop])
  }

  /** The whole translation of a chunk list: one call per chunk, then the close. */
  function Chunks(s: State, es: seq<Chunk>): Step {
    if es == [] then Step(s, [])
    else
      var r := Chunks(s, es[..|es| - 1]);
      var t := OnChunk(r.s, es[|es| - 1]);
      Step(t.s, r.out + t.out)
  }

  function Translate(es: seq<Chunk>): seq<Event> {
    var r := Chunks(INITIAL, es);
    r.out + Close(r.s).out
  }

  lemma RunSnoc(s: State, atoms: seq<Atom>, a: Atom)
    ensures Run(s, atoms + [a]) ==
            var r := Run(s, atoms); var t := Apply(r.s, a); Step(t.s, r.out + t.out)
  {
    assert (atoms + [a])[..|atoms|] == atoms;
  }

  lemma {:induction false} RunAppend(s: State, a: seq<Atom>, b: seq<Atom>)
    ensures Run(s, a + b) ==
            var r := Run(s, a); var t := Run(r.s, b); Step(t.s, r.out + t.out)
  {
    if b == [] {
      assert a + b == a;
    } else {
      var i := b[..|b| - 1];
      assert a + b == (a + i) + [b[|b| - 1]];
      RunSnoc(s, a + i, b[|b| - 1]);
      RunAppend(s, a, i);
      var last := Apply(Run(Run(s, a).s, i).s, b[|b| - 1]);
      AppendAssoc(Run(s, a).out, Run(Run(s, a).s, i).out, last.out);
    }
  }

  lemma AppendAssoc<T>(a: seq<T>, b: seq<T>, c: seq<T>)
    ensures (a + b) + c == a + (b + c)
  {
  }

  /** Without an error chunk the chunk boundaries do not matter: only the effects do. */
  lemma {:induction false} ChunksAreAtoms(s: State, es: seq<Chunk>)
    requires ErrorFree(es)
    ensures Chunks(s, es) == Run(s, AllAtoms(es))
  {
    if es != [] {
      ChunksAreAtoms(s, es[..|es| - 1]);
      RunAppend(s, AllAtoms(es[..|es| - 1]), Atoms(es[|es| - 1]));
    }
  }
}
