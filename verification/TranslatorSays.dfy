/**
 * What capture reads and what the client is told, said by the chunks of the stream alone: which texts,
 * which tools, which reason to stop, which error.
 */
module TranslatorSays {
  import opened Prelude
  import opened ByteLines
  import opened ChatStream
  import opened MessagesStream
  import opened Translator
  import opened StreamTranslator
  import TranslatorChunking

  // ---- the input ------------------------------------------------------------------------------

  /** The tool deltas of the first choices, in order. */
  function Deltas(es: seq<Chunk>): seq<ToolDelta> {
    if es == [] then []
    else
      var e := es[|es| - 1];
      Deltas(es[..|es| - 1])
      + if e.choice.Some? && e.choice.value.delta.Some? then e.choice.value.delta.value.tools else []
  }

  function Contents(es: seq<Chunk>): seq<string> {
    if es == [] then []
    else
      var e := es[|es| - 1];
      Contents(es[..|es| - 1])
      + if e.choice.Some? && e.choice.value.delta.Some? && e.choice.value.delta.value.content.Some?
        then [e.choice.value.delta.value.content.value]
        else []
  }

  /** The last finish reason that is not empty. */
  function LastFinish(es: seq<Chunk>): Option<string> {
    if es == [] then None
    else
      var e := es[|es| - 1];
      if e.choice.Some? && e.choice.value.finish.Some? && e.choice.value.finish.value != ""
      then e.choice.value.finish
      else LastFinish(es[..|es| - 1])
  }

  function LastCounts(es: seq<Chunk>): Option<Usage> {
    if es == [] then None
    else if es[|es| - 1].usage.Some? then es[|es| - 1].usage
    else LastCounts(es[..|es| - 1])
  }

  /** A delta without an index belongs to the first tool. */
  function IndexOf(d: ToolDelta): int { match d.index case Some(i) => i case None => 0 }

  predicate About(d: ToolDelta, i: int) { IndexOf(d) == i }

  predicate Mentioned(ds: seq<ToolDelta>, i: int) { exists k :: 0 <= k < |ds| && About(ds[k], i) }

  function ArgumentsFor(ds: seq<ToolDelta>, i: int): seq<string> {
    if ds == [] then []
    else
      var d := ds[|ds| - 1];
      ArgumentsFor(ds[..|ds| - 1], i) + if About(d, i) && d.arguments.Some? then [d.arguments.value] else []
  }

  function LastNameFor(ds: seq<ToolDelta>, i: int): Option<string> {
    if ds == [] then None
    else
      var d := ds[|ds| - 1];
      if About(d, i) && d.name.Str? && d.name.s != "" then Some(d.name.s) else LastNameFor(ds[..|ds| - 1], i)
  }

  // ---- what capture reads out of the upstream's stream ------------------------------------------

  /** A reading of the first n chunks, member by member. */
  ghost predicate Reads(r: OaAcc, texts: seq<string>, ds: seq<ToolDelta>,
                        finish: Option<string>, usage: Option<Usage>) {
    && r.answer == texts && r.finish == finish && r.usage == usage
    && (forall i :: i in r.tools <==> Mentioned(ds, i))
    && (forall i :: i in r.tools ==> r.tools[i] == OaSlot(LastNameFor(ds, i), ArgumentsFor(ds, i)))
  }

  lemma MentionedSnoc(ds: seq<ToolDelta>, d: ToolDelta, i: int)
    ensures Mentioned(ds + [d], i) <==> Mentioned(ds, i) || About(d, i)
  {
    var all := ds + [d];
    if About(d, i) { assert About(all[|ds|], i); }
    if k :| 0 <= k < |ds| && About(ds[k], i) { assert About(all[k], i); }
  }

  lemma {:induction false} Unmentioned(ds: seq<ToolDelta>, i: int)
    requires !Mentioned(ds, i)
    ensures LastNameFor(ds, i) == None && ArgumentsFor(ds, i) == []
  {
    if ds != [] {
      var init := ds[..|ds| - 1];
      assert ds == init + [ds[|ds| - 1]];
      MentionedSnoc(init, ds[|ds| - 1], i);
      Unmentioned(init, i);
    }
  }

  lemma ForSnoc(ds: seq<ToolDelta>, d: ToolDelta, i: int)
    ensures ArgumentsFor(ds + [d], i) ==
            ArgumentsFor(ds, i) + if About(d, i) && d.arguments.Some? then [d.arguments.value] else []
    ensures LastNameFor(ds + [d], i) ==
            if About(d, i) && d.name.Str? && d.name.s != "" then Some(d.name.s) else LastNameFor(ds, i)
  {
    assert (ds + [d])[..|ds|] == ds;
  }

  lemma ReadsTool(r: OaAcc, texts: seq<string>, ds: seq<ToolDelta>, finish: Option<string>, usage: Option<Usage>,
                  d: ToolDelta)
    requires Reads(r, texts, ds, finish, usage)
    ensures Reads(OaStep(r, Tool(d)), texts, ds + [d], finish, usage)
  {
    hide LastNameFor, ArgumentsFor, Mentioned;
    var r' := OaStep(r, Tool(d));
    forall i
      ensures i in r'.tools <==> Mentioned(ds + [d], i)
      ensures i in r'.tools ==> r'.tools[i] == OaSlot(LastNameFor(ds + [d], i), ArgumentsFor(ds + [d], i))
    {
      MentionedSnoc(ds, d, i);
      ForSnoc(ds, d, i);
      if !Mentioned(ds, i) { Unmentioned(ds, i); }
    }
  }

  lemma {:induction false} ReadsTools(r: OaAcc, texts: seq<string>, ds: seq<ToolDelta>, finish: Option<string>,
                                      usage: Option<Usage>, more: seq<ToolDelta>)
    requires Reads(r, texts, ds, finish, usage)
    ensures Reads(OaFrom(r, ToolAtoms(more)), texts, ds + more, finish, usage)
    decreases |more|
  {
    hide Reads;
    if more == [] {
      assert ds + more == ds;
    } else {
      var init, d := more[..|more| - 1], more[|more| - 1];
      ReadsTools(r, texts, ds, finish, usage, init);
      assert ToolAtoms(more) == ToolAtoms(init) + [Tool(d)];
      OaFromSnoc(r, ToolAtoms(init), Tool(d));
      ReadsTool(OaFrom(r, ToolAtoms(init)), texts, ds + init, finish, usage, d);
      assert ds + more == (ds + init) + [d];
    }
  }

  function UsageAtoms(e: Chunk): seq<Atom> { if e.usage.Some? then [UsageSeen(e.usage.value)] else [] }

  function FinishAtoms(e: Chunk): seq<Atom> {
    if e.choice.Some? && e.choice.value.finish.Some? && e.choice.value.finish.value != ""
    then [FinishSeen(e.choice.value.finish.value)] else []
  }

  function OpenedAtoms(e: Chunk): seq<Atom> { if e.choice.Some? then [Opened] else [] }

  function TextAtoms(e: Chunk): seq<Atom> {
    if e.choice.Some? && e.choice.value.delta.Some? && e.choice.value.delta.value.content.Some?
    then [Text(e.choice.value.delta.value.content.value)] else []
  }

  function ToolsOf(e: Chunk): seq<ToolDelta> {
    if e.choice.Some? && e.choice.value.delta.Some? then e.choice.value.delta.value.tools else []
  }

  lemma AtomsApart(e: Chunk)
    ensures Atoms(e) == UsageAtoms(e) + FinishAtoms(e) + OpenedAtoms(e) + TextAtoms(e) + ToolAtoms(ToolsOf(e))
  {
  }

  lemma AtMostOne(r: OaAcc, atoms: seq<Atom>)
    requires |atoms| <= 1
    ensures OaFrom(r, atoms) == if atoms == [] then r else OaStep(r, atoms[0])
  {
    if atoms != [] { assert atoms[..0] == []; }
  }

  lemma HeadSteps(r: OaAcc, e: Chunk)
    ensures OaFrom(r, UsageAtoms(e) + FinishAtoms(e) + OpenedAtoms(e) + TextAtoms(e)) ==
            OaAcc(r.answer + (if TextAtoms(e) == [] then [] else [TextAtoms(e)[0].t]), r.tools,
                  if FinishAtoms(e) == [] then r.finish else Some(FinishAtoms(e)[0].f),
                  if e.usage.Some? then e.usage else r.usage)
  {
    hide OaFrom;
    var a, b, c, d := UsageAtoms(e), FinishAtoms(e), OpenedAtoms(e), TextAtoms(e);
    OaFromAppend(r, a + b + c, d);
    OaFromAppend(r, a + b, c);
    OaFromAppend(r, a, b);
    AtMostOne(r, a);
    AtMostOne(OaFrom(r, a), b);
    AtMostOne(OaFrom(r, a + b), c);
    AtMostOne(OaFrom(r, a + b + c), d);
  }

  lemma HeadReads(r: OaAcc, e: Chunk, texts: seq<string>, ds: seq<ToolDelta>, finish: Option<string>,
                  usage: Option<Usage>)
    requires Reads(r, texts, ds, finish, usage)
    ensures Reads(OaFrom(r, UsageAtoms(e) + FinishAtoms(e) + OpenedAtoms(e) + TextAtoms(e)),
                  texts + (if TextAtoms(e) == [] then [] else [TextAtoms(e)[0].t]), ds,
                  if FinishAtoms(e) == [] then finish else Some(FinishAtoms(e)[0].f),
                  if e.usage.Some? then e.usage else usage)
  {
    hide Mentioned, LastNameFor, ArgumentsFor, OaFrom, TextAtoms, FinishAtoms, UsageAtoms, OpenedAtoms;
    HeadSteps(r, e);
  }

  /**
   * For every list of chunks: the answer is their texts, finish reason and usage are the last ones given,
   * and a tool is listed when a delta is about it, under the last name given for it, with its arguments.
   */
  lemma {:induction false} WhatIsRead(es: seq<Chunk>)
    ensures Reads(OaRun(AllAtoms(es)), Contents(es), Deltas(es), LastFinish(es), LastCounts(es))
  {
    hide Reads, OaFrom, Atoms;
    if es == [] {
      ReadsNothing();
    } else {
      var init, e := es[..|es| - 1], es[|es| - 1];
      WhatIsRead(init);
      var head := UsageAtoms(e) + FinishAtoms(e) + OpenedAtoms(e) + TextAtoms(e);
      var r := OaRun(AllAtoms(init));
      AtomsApart(e);
      OaFromAppend(OA_INIT, AllAtoms(init), Atoms(e));
      OaFromAppend(r, head, ToolAtoms(ToolsOf(e)));
      HeadReads(r, e, Contents(init), Deltas(init), LastFinish(init), LastCounts(init));
      assert Contents(es) == Contents(init) + (if TextAtoms(e) == [] then [] else [TextAtoms(e)[0].t]);
      ReadsTools(OaFrom(r, head), Contents(es), Deltas(init), LastFinish(es), LastCounts(es), ToolsOf(e));
      assert Deltas(es) == Deltas(init) + ToolsOf(e);
    }
  }

  lemma ReadsNothing()
    ensures Reads(OaRun(AllAtoms([])), [], [], None, None)
  {
  }

  /** The record capture makes of it: the texts joined, the tools by ascending index. */
  lemma RecordSays(es: seq<Chunk>) returns (order: seq<int>)
    ensures var r := OaResult(OaRun(AllAtoms(es)));
            && r.text == Join(Contents(es)) && r.finish == LastFinish(es) && r.usage == LastCounts(es)
            && Ascending(order) && (forall i :: i in order <==> Mentioned(Deltas(es), i))
            && |r.tools| == |order|
            && (forall k :: 0 <= k < |order| ==>
                  r.tools[k] == ToolCall(LastNameFor(Deltas(es), order[k]), Join(ArgumentsFor(Deltas(es), order[k]))))
  {
    hide OaFrom, AllAtoms, Mentioned, LastNameFor, ArgumentsFor;
    WhatIsRead(es);
    var tools := OaRun(AllAtoms(es)).tools;
    order := SortedSet(tools.Keys);
    SortedSetMembers(tools.Keys);
    forall k | 0 <= k < |order|
      ensures tools[order[k]] == OaSlot(LastNameFor(Deltas(es), order[k]), ArgumentsFor(Deltas(es), order[k]))
    {
      assert order[k] in order;
    }
  }

  // ---- what the client is told --------------------------------------------------------------------

  /** The tool blocks an output opens, in order. */
  function ToolsOpened(evs: seq<Event>): seq<Block> {
    if evs == [] then []
    else
      var ev := evs[|evs| - 1];
      ToolsOpened(evs[..|evs| - 1]) + if ev.BlockStart? && ev.block.ToolUse? then [ev.block] else []
  }

  function AtomDeltas(atoms: seq<Atom>): seq<ToolDelta> {
    if atoms == [] then []
    else
      var a := atoms[|atoms| - 1];
      AtomDeltas(atoms[..|atoms| - 1]) + if a.Tool? then [a.d] else []
  }

  /** One block for each tool, with the id and the name of the first delta about it. */
  function FirstDeltas(ds: seq<ToolDelta>): seq<Block> {
    if ds == [] then []
    else
      var init, d := ds[..|ds| - 1], ds[|ds| - 1];
      FirstDeltas(init)
      + if Mentioned(init, IndexOf(d)) then [] else [ToolUse(Printed(d.id), Printed(d.name))]
  }

  /** As `str` prints it: nothing for a missing member, "None" for null. */
  function Printed(j: JsonString): string { if j.Absent? then "" else if j.Null? then "None" else j.s }

  lemma {:induction false} ToolsOpenedAppend(a: seq<Event>, b: seq<Event>)
    ensures ToolsOpened(a + b) == ToolsOpened(a) + ToolsOpened(b)
    decreases |b|
  {
    if b == [] {
      assert a + b == a;
    } else {
      assert (a + b)[..|a + b| - 1] == a + b[..|b| - 1];
      ToolsOpenedAppend(a, b[..|b| - 1]);
    }
  }

  lemma NoTools(evs: seq<Event>)
    requires forall k :: 0 <= k < |evs| ==> !evs[k].BlockStart? || !evs[k].block.ToolUse?
    ensures ToolsOpened(evs) == []
  {
    if evs != [] { NoTools(evs[..|evs| - 1]); }
  }

  /** The tools known to the translator are the ones mentioned, and it has opened a block for each. */
  ghost predicate Opens(p: Step, ds: seq<ToolDelta>) {
    && ToolsOpened(p.out) == FirstDeltas(ds)
    && forall i :: i in p.s.toolBlockFor <==> Mentioned(ds, i)
  }

  lemma QuietOpens(s: State, a: Atom)
    requires !a.Tool?
    ensures Apply(s, a).s.toolBlockFor == s.toolBlockFor && ToolsOpened(Apply(s, a).out) == []
  {
    hide ToolsOpened;
    NoTools(Apply(s, a).out);
  }

  lemma KnownTool(s: State, d: ToolDelta)
    requires IndexOf(d) in s.toolBlockFor
    ensures Apply(s, Tool(d)).s == s && ToolsOpened(Apply(s, Tool(d)).out) == []
  {
    NoTools(Apply(s, Tool(d)).out);
  }

  lemma NewTool(s: State, d: ToolDelta) returns (tail: seq<Event>)
    requires IndexOf(d) !in s.toolBlockFor
    ensures Apply(s, Tool(d)).out ==
            CloseBlock(s).out + [BlockStart(s.blockIndex + 1, ToolUse(Printed(d.id), Printed(d.name)))] + tail
    ensures |tail| <= 1 && (tail != [] ==> tail[0].JsonDelta?)
    ensures Apply(s, Tool(d)).s.toolBlockFor == s.toolBlockFor[IndexOf(d) := s.blockIndex + 1]
  {
    tail := if d.Args() == "" then [] else [JsonDelta(s.blockIndex + 1, d.Args())];
  }

  lemma NewToolOpens(s: State, d: ToolDelta)
    requires IndexOf(d) !in s.toolBlockFor
    ensures ToolsOpened(Apply(s, Tool(d)).out) == [ToolUse(Printed(d.id), Printed(d.name))]
    ensures Apply(s, Tool(d)).s.toolBlockFor.Keys == s.toolBlockFor.Keys + {IndexOf(d)}
  {
    hide Apply, Printed, IndexOf, ToolsOpened;
    var tail := NewTool(s, d);
    var c, opening := CloseBlock(s).out, BlockStart(s.blockIndex + 1, ToolUse(Printed(d.id), Printed(d.name)));
    ToolsOpenedAppend(c + [opening], tail);
    ToolsOpenedAppend(c, [opening]);
    NoTools(c);
    NoTools(tail);
    OneOpened(opening);
  }

  lemma OneOpened(ev: Event)
    requires ev.BlockStart? && ev.block.ToolUse?
    ensures ToolsOpened([ev]) == [ev.block]
  {
    assert [ev][..0] == [];
  }

  lemma {:induction false} RunOpens(atoms: seq<Atom>, ds: seq<ToolDelta>)
    requires ds == AtomDeltas(atoms)
    ensures Opens(Run(INITIAL, atoms), ds)
    decreases |atoms|
  {
    hide Apply, Mentioned, Printed;
    if atoms == [] {
      NobodyMentioned();
    } else {
      var init, a := atoms[..|atoms| - 1], atoms[|atoms| - 1];
      var p := Run(INITIAL, init);
      RunOpens(init, AtomDeltas(init));
      ToolsOpenedAppend(p.out, Apply(p.s, a).out);
      if a.Tool? { DeltaOpens(p, AtomDeltas(init), a.d); } else {
        QuietOpens(p.s, a);
        assert AtomDeltas(init) + [] == AtomDeltas(init) && ToolsOpened(p.out) + [] == ToolsOpened(p.out);
      }
    }
  }

  lemma NobodyMentioned()
    ensures forall i :: !Mentioned([], i)
  {
  }

  lemma DeltaOpens(p: Step, ds: seq<ToolDelta>, d: ToolDelta)
    requires Opens(p, ds)
    ensures var t := Apply(p.s, Tool(d));
            && ToolsOpened(p.out) + ToolsOpened(t.out) == FirstDeltas(ds + [d])
            && forall i :: i in t.s.toolBlockFor <==> Mentioned(ds + [d], i)
  {
    hide Apply, Mentioned, Printed, FirstDeltas;
    FirstSnoc(ds, d);
    var t := Apply(p.s, Tool(d));
    if IndexOf(d) in p.s.toolBlockFor { KnownTool(p.s, d); } else { NewToolOpens(p.s, d); }
    forall i ensures i in t.s.toolBlockFor <==> Mentioned(ds + [d], i) {
      MentionedSnoc(ds, d, i);
      assert About(d, i) <==> i == IndexOf(d);
      assert i in t.s.toolBlockFor <==> i in t.s.toolBlockFor.Keys;
    }
  }

  lemma FirstSnoc(ds: seq<ToolDelta>, d: ToolDelta)
    ensures FirstDeltas(ds + [d]) ==
            FirstDeltas(ds) + if Mentioned(ds, IndexOf(d)) then [] else [ToolUse(Printed(d.id), Printed(d.name))]
  {
    hide Printed, Mentioned;
    assert (ds + [d])[..|ds|] == ds;
  }

  lemma {:induction false} AtomDeltasAppend(a: seq<Atom>, b: seq<Atom>)
    ensures AtomDeltas(a + b) == AtomDeltas(a) + AtomDeltas(b)
    decreases |b|
  {
    if b == [] {
      assert a + b == a;
    } else {
      assert (a + b)[..|a + b| - 1] == a + b[..|b| - 1];
      AtomDeltasAppend(a, b[..|b| - 1]);
    }
  }

  lemma {:induction false} ToolAtomDeltas(ds: seq<ToolDelta>)
    ensures AtomDeltas(ToolAtoms(ds)) == ds
  {
    if ds != [] {
      ToolAtomDeltas(ds[..|ds| - 1]);
      assert ToolAtoms(ds)[..|ds| - 1] == ToolAtoms(ds[..|ds| - 1]);
    }
  }

  lemma NoDeltas(atoms: seq<Atom>)
    requires forall k :: 0 <= k < |atoms| ==> !atoms[k].Tool?
    ensures AtomDeltas(atoms) == []
  {
    if atoms != [] { NoDeltas(atoms[..|atoms| - 1]); }
  }

  lemma {:induction false} DeltasOfAtoms(es: seq<Chunk>)
    ensures AtomDeltas(AllAtoms(es)) == Deltas(es)
  {
    hide Atoms, AtomDeltas;
    if es == [] {
      NoDeltas([]);
    } else {
      var init, e := es[..|es| - 1], es[|es| - 1];
      DeltasOfAtoms(init);
      var head := UsageAtoms(e) + FinishAtoms(e) + OpenedAtoms(e) + TextAtoms(e);
      AtomsApart(e);
      AtomDeltasAppend(AllAtoms(init), Atoms(e));
      AtomDeltasAppend(head, ToolAtoms(ToolsOf(e)));
      NoDeltas(head);
      ToolAtomDeltas(ToolsOf(e));
      assert Deltas(es) == Deltas(init) + ToolsOf(e);
    }
  }

  /** For every stream without an error: each tool gets one block, under the id and name of its first delta. */
  lemma ToolsAnnounced(es: seq<Chunk>)
    requires ErrorFree(es)
    ensures ToolsOpened(Translate(es)) == FirstDeltas(Deltas(es))
  {
    hide Run, Chunks, ToolsOpened, FirstDeltas, Deltas;
    ChunksAreAtoms(INITIAL, es);
    DeltasOfAtoms(es);
    RunOpens(AllAtoms(es), Deltas(es));
    var r := Chunks(INITIAL, es);
    ToolsOpenedAppend(r.out, Close(r.s).out);
    NoTools(Close(r.s).out);
  }

  /**
   * For every stream without an error: it ends by saying why, and what was used. The reason is to call
   * tools exactly if the last one given upstream is, and so on; the counts are the last ones given.
   */
  lemma StopReasonSays(es: seq<Chunk>)
    requires ErrorFree(es)
    ensures var evs := Translate(es);
            && 2 <= |evs| && evs[|evs| - 1] == MessageStop && evs[|evs| - 2].MessageDelta?
            && (forall k :: 0 <= k < |evs| - 2 ==> !evs[k].MessageDelta?)
    ensures var evs := Translate(es);
            var stop, given := evs[|evs| - 2].stop, LastFinish(es);
            && (stop == "tool_use" <==> given == Some("tool_calls") || given == Some("function_call"))
            && (stop == "max_tokens" <==> given == Some("length"))
            && (stop == "refusal" <==> given == Some("content_filter"))
            && stop in {"tool_use", "max_tokens", "refusal", "end_turn"}
    ensures var evs := Translate(es);
            var counts := LastCounts(es).GetOr(Usage(None, None, None));
            evs[|evs| - 2].usage == map["input_tokens" := counts.prompt.GetOr(0),
                                        "output_tokens" := counts.completion.GetOr(0),
                                        "cache_read_input_tokens" := counts.cached.GetOr(0)]
  {
    hide Chunks, Run, AllAtoms, OaFrom, LastFinish, LastCounts;
    ChunksAreAtoms(INITIAL, es);
    WhatIsRead(es);
    KeptForTheEnd(AllAtoms(es));
    var r := Chunks(INITIAL, es);
    var closing := Close(r.s).out;
    NoDeltaYet(AllAtoms(es));
  }

  lemma {:induction false} KeptForTheEnd(atoms: seq<Atom>)
    ensures Run(INITIAL, atoms).s.finish == OaRun(atoms).finish && Run(INITIAL, atoms).s.usage == OaRun(atoms).usage
  {
    if atoms != [] {
      KeptForTheEnd(atoms[..|atoms| - 1]);
      KeptByStep(Run(INITIAL, atoms[..|atoms| - 1]).s, atoms[|atoms| - 1]);
    }
  }

  lemma KeptByStep(s: State, a: Atom)
    ensures Apply(s, a).s.finish == (if a.FinishSeen? then Some(a.f) else s.finish)
    ensures Apply(s, a).s.usage == (if a.UsageSeen? then Some(a.u) else s.usage)
    ensures forall k :: 0 <= k < |Apply(s, a).out| ==> !Apply(s, a).out[k].MessageDelta?
  {
  }

  lemma {:induction false} NoDeltaYet(atoms: seq<Atom>)
    ensures forall k :: 0 <= k < |Run(INITIAL, atoms).out| ==> !Run(INITIAL, atoms).out[k].MessageDelta?
  {
    hide Apply;
    if atoms != [] {
      NoDeltaYet(atoms[..|atoms| - 1]);
      KeptByStep(Run(INITIAL, atoms[..|atoms| - 1]).s, atoms[|atoms| - 1]);
    }
  }

  /**
   * The first error chunk of a stream: what went before is translated, then the error is passed on with
   * its type and its message, and the translation is over.
   */
  lemma ErrorSays(parse: Parser, lines: seq<Bytes>, k: nat)
    requires TranslatorChunking.FailsAt(parse, lines, k)
    ensures Classify(lines[k]).Data? && parse(Classify(lines[k]).payload).Some?
            && parse(Classify(lines[k]).payload).value.error.Some?
    ensures var before := TranslatorChunking.Decode(parse, lines[..k]).chunks;
            var error := parse(Classify(lines[k]).payload).value.error.value;
            var p := RunLines(parse, INITIAL, lines[..k + 1]);
            && ErrorFree(before) && p.s.done
            && p.out == Chunks(INITIAL, before).out
                        + [ErrorEvent(if error.kind.Absent? then "api_error" else Printed(error.kind),
                                      Printed(error.message))]
  {
    hide RunLines, Chunks, Classify;
    assert lines[..k + 1] == lines[..k] + [lines[k]];
    RunLinesSnoc(parse, INITIAL, lines[..k], lines[k]);
    TranslatorChunking.DecodedErrorFree(parse, lines[..k]);
    TranslatorChunking.LinesAreChunks(parse, INITIAL, lines[..k]);
  }

  // ---- one line ----------------------------------------------------------------------------------------

  lemma {:induction false} CrsSay(raw: Bytes) returns (ends: Bytes)
    ensures raw == RStripCr(raw) + ends && forall k :: 0 <= k < |ends| ==> ends[k] == '\r'
    ensures RStripCr(raw) != [] ==> RStripCr(raw)[|RStripCr(raw)| - 1] != '\r'
  {
    ends := [];
    if raw != [] && raw[|raw| - 1] == '\r' {
      ends := CrsSay(raw[..|raw| - 1]);
      ends := ends + ['\r'];
    }
  }

  /**
   * A line without its carriage returns: it carries data if it begins with "data:", one space behind that
   * not counting, and ends the stream if that is [DONE], blanks around it or not. Other lines are skipped.
   */
  lemma LineSays(raw: Bytes) returns (line: Bytes, ends: Bytes)
    ensures raw == line + ends && forall k :: 0 <= k < |ends| ==> ends[k] == '\r'
    ensures line != [] ==> line[|line| - 1] != '\r'
    ensures Classify(raw) ==
            if !("data:" <= line) then Skip
            else if Strip(line[5..]) == "[DONE]" then DoneMark
            else Data(if " " <= line[5..] then line[6..] else line[5..])
  {
    line := RStripCr(raw);
    ends := CrsSay(raw);
    if "data:" <= line && " " <= line[5..] { SpaceInFront(line[5..]); }
  }

  lemma SpaceInFront(d: Bytes)
    requires " " <= d
    ensures Strip(d) == Strip(d[1..])
  {
  }
}
