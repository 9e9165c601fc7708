/** The upstream wire: OpenAI chat chunks, and what capture makes of them. */
module ChatStream {
  import opened Prelude

  /** A JSON member that should be a string: missing, `null`, or a string. */
  datatype JsonString = Absent | Null | Str(s: string)

  /** `str(d.get(k, default))`: an explicit null prints as "None". */
  function PyStr(j: JsonString, default: string): string {
    match j
    case Absent => default
    case Null => "None"
    case Str(s) => s
  }

  /** `if d.get(k)`: the value when truthy. */
  function Truthy(j: JsonString): Option<string> {
    if j.Str? && j.s != "" then Some(j.s) else None
  }

  function NonEmpty(s: string): Option<string> {
    if s != "" then Some(s) else None
  }

  datatype ToolDelta = ToolDelta(index: Option<int>, id: JsonString, name: JsonString, arguments: Option<string>) {
    function Idx(): int { index.GetOr(0) }
    function Args(): string { arguments.GetOr("") }
  }

  /** Token counts as the upstream reports them; a missing or empty object is `None` at its use. */
  datatype Usage = Usage(prompt: Option<int>, completion: Option<int>, cached: Option<int>)

  datatype Delta = Delta(content: Option<string>, tools: seq<ToolDelta>)
  datatype Choice = Choice(finish: Option<string>, delta: Option<Delta>)
  datatype UpstreamError = UpstreamError(kind: JsonString, message: JsonString)

  /** One decoded chunk. `choice` is the first choice, absent when the list is empty. */
  datatype Chunk = Chunk(error: Option<UpstreamError>, usage: Option<Usage>, choice: Option<Choice>)

  /** The effects a chunk carries, in the order both consumers apply them. */
  datatype Atom = UsageSeen(u: Usage) | FinishSeen(f: string) | Opened | Text(t: string) | Tool(d: ToolDelta)

  function ToolAtoms(tools: seq<ToolDelta>): (r: seq<Atom>)
    ensures |r| == |tools| && forall i :: 0 <= i < |r| ==> r[i] == Tool(tools[i])
  {
    seq(|tools|, i requires 0 <= i < |tools| => Tool(tools[i]))
  }

  function DeltaAtoms(d: Delta): seq<Atom> {
    (match d.content case Some(t) => [Text(t)] case None => []) + ToolAtoms(d.tools)
  }

  function ChoiceAtoms(c: Choice): seq<Atom> {
    (match c.finish case Some(f) => if f == "" then [] else [FinishSeen(f)] case None => [])
    + [Opened]
    + (match c.delta case Some(d) => DeltaAtoms(d) case None => [])
  }

  function Atoms(e: Chunk): seq<Atom> {
    (match e.usage case Some(u) => [UsageSeen(u)] case None => [])
    + (match e.choice case Some(c) => ChoiceAtoms(c) case None => [])
  }

  function AllAtoms(es: seq<Chunk>): seq<Atom> {
    if es == [] then [] else AllAtoms(es[..|es| - 1]) + Atoms(es[|es| - 1])
  }

  ghost predicate ErrorFree(es: seq<Chunk>) {
    forall i :: 0 <= i < |es| ==> es[i].error == None
  }

  datatype ToolCall = ToolCall(name: Option<string>, arguments: string)

  /** The capture record: answer text, tool calls, finish reason and usage. */
  datatype Reassembled<U> = Reassembled(text: string, tools: seq<ToolCall>, finish: Option<string>, usage: U)

  datatype OaSlot = OaSlot(name: Option<string>, args: seq<string>)
  datatype OaAcc = OaAcc(answer: seq<string>, tools: map<int, OaSlot>, finish: Option<string>, usage: Option<Usage>)

  const OA_INIT := OaAcc([], map[], None, None)

  function OaMerge(slot: OaSlot, d: ToolDelta): OaSlot {
    OaSlot(if Truthy(d.name).Some? then Truthy(d.name) else slot.name,
           if d.arguments.Some? then slot.args + [d.arguments.value] else slot.args)
  }

  function OaSlotAt(tools: map<int, OaSlot>, i: int): OaSlot {
    if i in tools then tools[i] else OaSlot(None, [])
  }

  function OaStep(r: OaAcc, a: Atom): OaAcc {
    match a
    case UsageSeen(u) => r.(usage := Some(u))
    case FinishSeen(f) => r.(finish := Some(f))
    case Opened => r
    case Text(t) => r.(answer := r.answer + [t])
    case Tool(d) => r.(tools := r.tools[d.Idx() := OaMerge(OaSlotAt(r.tools, d.Idx()), d)])
  }

  function OaFrom(r: OaAcc, atoms: seq<Atom>): OaAcc {
    if atoms == [] then r else OaStep(OaFrom(r, atoms[..|atoms| - 1]), atoms[|atoms| - 1])
  }

  function OaRun(atoms: seq<Atom>): OaAcc {
    OaFrom(OA_INIT, atoms)
  }

  lemma OaFromSnoc(r: OaAcc, atoms: seq<Atom>, a: Atom)
    ensures OaFrom(r, atoms + [a]) == OaStep(OaFrom(r, atoms), a)
  {
    assert (atoms + [a])[..|atoms|] == atoms;
  }

  lemma {:induction false} OaFromAppend(r: OaAcc, a: seq<Atom>, b: seq<Atom>)
    ensures OaFrom(r, a + b) == OaFrom(OaFrom(r, a), b)
  {
    if b == [] {
      assert a + b == a;
    } else {
      assert a + b == (a + b[..|b| - 1]) + [b[|b| - 1]];
      OaFromSnoc(r, a + b[..|b| - 1], b[|b| - 1]);
      OaFromAppend(r, a, b[..|b| - 1]);
    }
  }

  function OaToolList(tools: map<int, OaSlot>, order: seq<int>): (r: seq<ToolCall>)
    requires forall k :: 0 <= k < |order| ==> order[k] in tools
    ensures |r| == |order|
    ensures forall i :: 0 <= i < |order| ==> r[i] == ToolCall(tools[order[i]].name, Join(tools[order[i]].args))
  {
    if order == [] then []
    else
      var i := order[|order| - 1];
      OaToolList(tools, order[..|order| - 1]) + [ToolCall(tools[i].name, Join(tools[i].args))]
  }

  lemma SortedSetMembers(s: set<int>)
    ensures forall i :: i in SortedSet(s) <==> i in s
    ensures Ascending(SortedSet(s))
  {
    if s != {} {
      var q := SortedSet(s);
      assert q[0] in s && q == [q[0]] + SortedSet(s - {q[0]});
      SortedSetMembers(s - {q[0]});
    }
  }

  function OaResult(r: OaAcc): Reassembled<Option<Usage>> {
    assert forall k :: 0 <= k < |SortedSet(r.tools.Keys)| ==> SortedSet(r.tools.Keys)[k] in r.tools by {
      SortedSetMembers(r.tools.Keys);
    }
    Reassembled(Join(r.answer), OaToolList(r.tools, SortedSet(r.tools.Keys)), r.finish, r.usage)
  }

  lemma AllAtomsSnoc(es: seq<Chunk>, e: Chunk)
    ensures AllAtoms(es + [e]) == AllAtoms(es) + Atoms(e)
  {
    assert (es + [e])[..|es|] == es;
  }

  method MergeToolCalls(tools0: map<int, OaSlot>, calls: seq<ToolDelta>, ghost r: OaAcc)
    returns (tools: map<int, OaSlot>)
    requires r.tools == tools0
    ensures OaFrom(r, ToolAtoms(calls)) == r.(tools := tools)
  {
    tools := tools0;
    for j := 0 to |calls|
      invariant OaFrom(r, ToolAtoms(calls[..j])) == r.(tools := tools)
    {
      var call := calls[j];
      var slot := if call.Idx() in tools then tools[call.Idx()] else OaSlot(None, []);
      if Truthy(call.name).Some? { slot := slot.(name := Truthy(call.name)); }
      if call.arguments.Some? { slot := slot.(args := slot.args + [call.arguments.value]); }
      tools := tools[call.Idx() := slot];
      assert ToolAtoms(calls[..j + 1]) == ToolAtoms(calls[..j]) + [Tool(call)];
      OaFromSnoc(r, ToolAtoms(calls[..j]), Tool(call));
    }
    assert calls[..|calls|] == calls;
  }

  /** What the accumulator gains from the parts of one choice. */
  lemma ChoiceEffect(r: OaAcc, c: Choice)
    ensures OaFrom(r, ChoiceAtoms(c)) ==
            var f := if c.finish.Some? && c.finish.value != "" then r.(finish := c.finish) else r;
            if c.delta == None then f
            else
              var d := c.delta.value;
              OaFrom(if d.content.Some? then f.(answer := f.answer + [d.content.value]) else f, ToolAtoms(d.tools))
  {
    var fin := match c.finish case Some(f) => if f == "" then [] else [FinishSeen(f)] case None => [];
    var f := OaFrom(r, fin + [Opened]);
    OaFromSnoc(r, fin, Opened);
    if c.finish.Some? && c.finish.value != "" { OaFromSnoc(r, [], FinishSeen(c.finish.value)); }
    if c.delta == None {
      assert ChoiceAtoms(c) == fin + [Opened];
    } else {
      var d := c.delta.value;
      var txt := match d.content case Some(t) => [Text(t)] case None => [];
      assert ChoiceAtoms(c) == (fin + [Opened]) + (txt + ToolAtoms(d.tools));
      OaFromAppend(r, fin + [Opened], txt + ToolAtoms(d.tools));
      OaFromAppend(f, txt, ToolAtoms(d.tools));
      if d.content.Some? { OaFromSnoc(f, [], Text(d.content.value)); }
    }
  }

  /** The capture addon's reassembly of a chunk stream, loop by loop as it is written. */
  method ReassembleOpenAi(es: seq<Chunk>) returns (r: Reassembled<Option<Usage>>)
    ensures r == OaResult(OaRun(AllAtoms(es)))
  {
    var acc := OA_INIT;
    for k := 0 to |es|
      invariant acc == OaRun(AllAtoms(es[..k]))
    {
      var e := es[k];
      assert es[..k + 1] == es[..k] + [e];
      AllAtomsSnoc(es[..k], e);
      OaFromAppend(OA_INIT, AllAtoms(es[..k]), Atoms(e));
      ghost var start := acc;
      ghost var us := match e.usage case Some(u) => [UsageSeen(u)] case None => [];
      if e.usage.Some? {
        acc := acc.(usage := e.usage);
        OaFromSnoc(start, [], UsageSeen(e.usage.value));
      }
      assert acc == OaFrom(start, us);
      if e.choice.Some? {
        var c := e.choice.value;
        ChoiceEffect(acc, c);
        OaFromAppend(start, us, ChoiceAtoms(c));
        assert Atoms(e) == us + ChoiceAtoms(c);
        if c.finish.Some? && c.finish.value != "" { acc := acc.(finish := c.finish); }
        if c.delta.Some? {
          var d := c.delta.value;
          if d.content.Some? { acc := acc.(answer := acc.answer + [d.content.value]); }
          var tools := MergeToolCalls(acc.tools, d.tools, acc);
          acc := acc.(tools := tools);
        }
      } else {
        assert Atoms(e) == us;
      }
    }
    assert es[..|es|] == es;
    r := OaResult(acc);
  }
}
