/**
 * Translation preserves meaning: capture reads the same answer, tool calls, finish reason and
 * usage out of the translated stream as out of the stream it was translated from.
 */
module TranslatorMeaning {
  import opened Prelude
  import opened ChatStream
  import opened MessagesStream
  import opened Translator

  /** The tool indices in order of first mention, with the name given in that first mention. */
  datatype Firsts = Firsts(order: seq<int>, name: map<int, JsonString>)

  function Mentions(atoms: seq<Atom>): Firsts {
    if atoms == [] then Firsts([], map[])
    else
      var f := Mentions(atoms[..|atoms| - 1]);
      match atoms[|atoms| - 1]
      case Tool(d) => if d.Idx() in f.name then f else Firsts(f.order + [d.Idx()], f.name[d.Idx() := d.name])
      case _ => f
  }

  /** The name a tool block ends up with: what its first mention printed, unless that was empty. */
  function ShownName(first: JsonString): Option<string> {
    NonEmpty(PyStr(first, ""))
  }

  // ---- readings of a table of blocks 0..n ----------------------------------------------------

  ghost predicate Dense(b: map<int, Slot>, n: int) {
    0 <= n && forall k :: k in b <==> 0 <= k < n
  }

  /** Text lives in text blocks only and argument fragments in tool blocks only. */
  ghost predicate Tidy(b: map<int, Slot>) {
    forall k :: k in b ==>
      && b[k].kind.Some?
      && (b[k].kind.value.ToolUse? ==> b[k].text == [])
      && (b[k].kind.value.TextBlock? ==> b[k].args == [])
  }

  predicate IsTool(s: Slot) { s.kind.Some? && s.kind.value.ToolUse? }

  ghost function BlocksText(b: map<int, Slot>, n: nat): string {
    if n == 0 then "" else BlocksText(b, n - 1) + Join(SlotAt(b, n - 1).text)
  }

  ghost function ToolBlocks(b: map<int, Slot>, n: nat): seq<int> {
    if n == 0 then [] else ToolBlocks(b, n - 1) + if IsTool(SlotAt(b, n - 1)) then [n - 1] else []
  }

  lemma {:induction false} ReadingFrame(b: map<int, Slot>, c: map<int, Slot>, n: nat)
    requires forall k :: 0 <= k < n ==> SlotAt(b, k).kind == SlotAt(c, k).kind
    ensures ToolBlocks(b, n) == ToolBlocks(c, n)
    ensures (forall k :: 0 <= k < n ==> SlotAt(b, k).text == SlotAt(c, k).text) ==> BlocksText(b, n) == BlocksText(c, n)
  {
    if n > 0 {
      assert SlotAt(b, n - 1).kind == SlotAt(c, n - 1).kind;
      ReadingFrame(b, c, n - 1);
    }
  }

  ghost function Range(n: nat): (r: seq<int>)
    ensures |r| == n && forall k :: 0 <= k < n ==> r[k] == k
  {
    if n == 0 then [] else Range(n - 1) + [n - 1]
  }

  ghost function Calls(b: map<int, Slot>, ks: seq<int>): seq<ToolCall> {
    if ks == [] then []
    else
      var s := SlotAt(b, ks[|ks| - 1]);
      Calls(b, ks[..|ks| - 1]) + [ToolCall(s.name, Join(s.args))]
  }

  lemma CallsSnoc(b: map<int, Slot>, ks: seq<int>, k: int)
    ensures Calls(b, ks + [k]) == Calls(b, ks) + [ToolCall(SlotAt(b, k).name, Join(SlotAt(b, k).args))]
  {
    assert (ks + [k])[..|ks|] == ks;
  }

  lemma SlotsSnoc(o: seq<Slot>, slot: Slot)
    ensures SlotsText(o + [slot]) == SlotsText(o) + Join(slot.text)
    ensures SlotsTools(o + [slot]) == SlotsTools(o) +
            if slot.Lists() then [ToolCall(slot.name, Join(slot.args))] else []
  {
    assert (o + [slot])[..|o|] == o;
  }

  lemma {:induction false} ReadRange(b: map<int, Slot>, m: nat, n: nat)
    requires Dense(b, n) && Tidy(b) && m <= n
    ensures SlotsText(Ordered(b, Range(m))) == BlocksText(b, m)
    ensures SlotsTools(Ordered(b, Range(m))) == Calls(b, ToolBlocks(b, m))
  {
    if m > 0 {
      ReadRange(b, m - 1, n);
      assert Range(m)[..m - 1] == Range(m - 1);
      var slot := b[m - 1];
      assert Ordered(b, Range(m)) == Ordered(b, Range(m - 1)) + [slot];
      SlotsSnoc(Ordered(b, Range(m - 1)), slot);
      CallsSnoc(b, ToolBlocks(b, m - 1), m - 1);
      assert slot.Lists() == IsTool(slot);
      assert SlotAt(b, m - 1) == slot;
      assert ToolBlocks(b, m) == if IsTool(slot) then ToolBlocks(b, m - 1) + [m - 1] else ToolBlocks(b, m - 1);
    }
  }

  lemma {:induction false} RangeMembers(n: nat)
    ensures forall k :: k in Members(Range(n)) <==> 0 <= k < n
  {
    if n > 0 {
      RangeMembers(n - 1);
      MembersSnoc(Range(n - 1), n - 1);
    }
  }

  /** Capture's result over a dense, tidy table, without the sorting. */
  lemma ReadDense(r: Acc, n: nat)
    requires Dense(r.blocks, n) && Tidy(r.blocks)
    ensures AccResult(r) ==
            Reassembled(BlocksText(r.blocks, n), Calls(r.blocks, ToolBlocks(r.blocks, n)), r.finish, r.usage)
  {
    RangeMembers(n);
    SameInts(r.blocks.Keys, Members(Range(n)));
    SortedSetUnique(Range(n));
    ReadRange(r.blocks, n, n);
  }

  // ---- the simulation ---------------------------------------------------------------------

  ghost function Targets(order: seq<int>, m: map<int, int>): seq<int> {
    if order == [] then []
    else
      var i := order[|order| - 1];
      Targets(order[..|order| - 1], m) + [if i in m then m[i] else -1]
  }

  lemma {:induction false} TargetsFrame(order: seq<int>, m: map<int, int>, i: int, v: int)
    requires forall k :: 0 <= k < |order| ==> order[k] != i
    ensures Targets(order, m[i := v]) == Targets(order, m)
  {
    if order != [] { TargetsFrame(order[..|order| - 1], m, i, v); }
  }

  ghost predicate Shape(s: State, b: map<int, Slot>) {
    && Dense(b, s.blockIndex + 1)
    && Tidy(b)
    && !s.done
    && (s.blockType == Some(TextKind) ==> 0 <= s.blockIndex && b[s.blockIndex].kind == Some(TextBlock))
  }

  /** Slot `t` holds what the chat side knows about tool `i`. */
  ghost predicate Mirrors(slot: Slot, first: JsonString, oa: OaSlot) {
    IsTool(slot) && slot.name == ShownName(first) && Join(slot.args) == Join(oa.args)
  }

  ghost predicate ToolSim(s: State, b: map<int, Slot>, f: Firsts, oa: map<int, OaSlot>) {
    && s.toolBlockFor.Keys == f.name.Keys == oa.Keys
    && oa.Keys == Members(f.order)
    && -1 <= s.blockIndex
    && ToolBlocks(b, s.blockIndex + 1) == Targets(f.order, s.toolBlockFor)
    && (forall i :: i in s.toolBlockFor ==> s.toolBlockFor[i] in b && Mirrors(b[s.toolBlockFor[i]], f.name[i], oa[i]))
    && (forall i, j :: i in s.toolBlockFor && j in s.toolBlockFor && i != j ==> s.toolBlockFor[i] != s.toolBlockFor[j])
  }

  ghost predicate Sim(s: State, r: Acc, atoms: seq<Atom>) {
    var o := OaRun(atoms);
    && Shape(s, r.blocks)
    && ToolSim(s, r.blocks, Mentions(atoms), o.tools)
    && BlocksText(r.blocks, s.blockIndex + 1) == Join(o.answer)
    && s.finish == o.finish && s.usage == o.usage
    && r.finish == None && r.usage.Keys <= {"input_tokens", "output_tokens"}
  }

  lemma AccOne(r: Acc, ev: Event)
    ensures AccFrom(r, [ev]) == AccStep(r, ev)
  {
    assert [ev][..0] == [];
  }

  lemma AccPrefix(r: Acc, pre: seq<Event>, ev: Event)
    ensures AccFrom(r, pre + [ev]) == AccStep(AccFrom(r, pre), ev)
  {
    assert (pre + [ev])[..|pre|] == pre;
  }

  lemma AccCloseBlock(s: State, r: Acc)
    ensures AccFrom(r, CloseBlock(s).out) == r
  {
    AccOne(r, BlockStop(s.blockIndex));
  }

  ghost predicate TidySlot(slot: Slot) {
    && slot.kind.Some?
    && (slot.kind.value.ToolUse? ==> slot.text == [])
    && (slot.kind.value.TextBlock? ==> slot.args == [])
  }

  lemma AppendSlot(b: map<int, Slot>, n: nat, slot: Slot)
    requires Dense(b, n) && Tidy(b) && TidySlot(slot)
    ensures var c := b[n := slot];
            && Dense(c, n + 1) && Tidy(c)
            && BlocksText(c, n + 1) == BlocksText(b, n) + Join(slot.text)
            && ToolBlocks(c, n + 1) == ToolBlocks(b, n) + if IsTool(slot) then [n] else []
  {
    ReadingFrame(b, b[n := slot], n);
  }

  lemma UpdateSlot(b: map<int, Slot>, n: nat, k: int, slot: Slot)
    requires Dense(b, n) && Tidy(b) && TidySlot(slot) && k in b && slot.kind == b[k].kind
    ensures var c := b[k := slot];
            && Dense(c, n) && Tidy(c)
            && ToolBlocks(c, n) == ToolBlocks(b, n)
            && (slot.text == b[k].text ==> BlocksText(c, n) == BlocksText(b, n))
            && BlocksText(c, k) == BlocksText(b, k)
  {
    ReadingFrame(b, b[k := slot], n);
    ReadingFrame(b, b[k := slot], k);
  }

  function NewSlot(b: Block): Slot {
    Slot(Some(b), [], if b.ToolUse? then NonEmpty(b.name) else None, [])
  }

  /** Opening a block appends one slot and changes no reading of the others. */
  lemma AccStartBlock(s: State, r: Acc, kind: Kind, b: Block)
    requires s.blockIndex + 1 !in r.blocks
    ensures AccFrom(r, StartBlock(s, kind, b).out) == r.(blocks := r.blocks[s.blockIndex + 1 := NewSlot(b)])
  {
    AccCloseBlock(s, r);
    AccPrefix(r, CloseBlock(s).out, BlockStart(s.blockIndex + 1, b));
  }

  /** Making sure a text block is open. */
  function OpenText(s: State): Step {
    if s.blockType == Some(TextKind) then Step(s, []) else StartBlock(s, TextKind, TextBlock)
  }

  /** The tool correspondence only looks at tool blocks. */
  lemma ToolSimFrame(s: State, b: map<int, Slot>, s': State, b': map<int, Slot>, f: Firsts, oa: map<int, OaSlot>)
    requires ToolSim(s, b, f, oa)
    requires s'.toolBlockFor == s.toolBlockFor && -1 <= s'.blockIndex
    requires ToolBlocks(b', s'.blockIndex + 1) == ToolBlocks(b, s.blockIndex + 1)
    requires forall k :: k in b && IsTool(b[k]) ==> k in b' && b'[k] == b[k]
    ensures ToolSim(s', b', f, oa)
  {
  }

  /** One more empty block at most, and no change of meaning. */
  lemma SimOpenText(s: State, r: Acc, f: Firsts, oa: map<int, OaSlot>)
    requires Shape(s, r.blocks) && ToolSim(s, r.blocks, f, oa)
    ensures var op := OpenText(s);
            var r' := AccFrom(r, op.out);
            && op.s == s.(blockIndex := op.s.blockIndex, blockType := Some(TextKind))
            && Shape(op.s, r'.blocks)
            && r' == r.(blocks := r'.blocks)
            && BlocksText(r'.blocks, op.s.blockIndex + 1) == BlocksText(r.blocks, s.blockIndex + 1)
            && ToolSim(op.s, r'.blocks, f, oa)
  {
    if s.blockType != Some(TextKind) {
      AccStartBlock(s, r, TextKind, TextBlock);
      var slot := NewSlot(TextBlock);
      AppendSlot(r.blocks, s.blockIndex + 1, slot);
      assert Join(slot.text) == "";
      ToolSimFrame(s, r.blocks, OpenText(s).s, r.blocks[s.blockIndex + 1 := slot], f, oa);
    }
  }

  lemma SimTextLands(s: State, b: map<int, Slot>, t: string, f: Firsts, oa: map<int, OaSlot>)
    requires Shape(s, b) && s.blockType == Some(TextKind) && ToolSim(s, b, f, oa)
    ensures var b' := b[s.blockIndex := b[s.blockIndex].(text := b[s.blockIndex].text + [t])];
            && Shape(s, b')
            && BlocksText(b', s.blockIndex + 1) == BlocksText(b, s.blockIndex + 1) + t
            && ToolSim(s, b', f, oa)
  {
    hide ToolSim, Join;
    var n := s.blockIndex;
    var slot := b[n].(text := b[n].text + [t]);
    UpdateSlot(b, n + 1, n, slot);
    JoinSnoc(b[n].text, t);
    assert BlocksText(b[n := slot], n + 1) == BlocksText(b, n) + Join(slot.text);
    ToolSimFrame(s, b, s, b[n := slot], f, oa);
  }

  lemma MentionsSame(atoms: seq<Atom>, a: Atom)
    requires !a.Tool?
    ensures Mentions(atoms + [a]) == Mentions(atoms)
  {
    assert (atoms + [a])[..|atoms|] == atoms;
  }

  lemma ChatText(atoms: seq<Atom>, t: string)
    ensures Mentions(atoms + [Text(t)]) == Mentions(atoms)
    ensures var o, o' := OaRun(atoms), OaRun(atoms + [Text(t)]);
            o'.tools == o.tools && Join(o'.answer) == Join(o.answer) + t && o'.finish == o.finish && o'.usage == o.usage
  {
    OaFromSnoc(OA_INIT, atoms, Text(t));
    JoinSnoc(OaRun(atoms).answer, t);
    MentionsSame(atoms, Text(t));
    if t == "" { assert Join(OaRun(atoms).answer) + "" == Join(OaRun(atoms).answer); }
  }

  lemma OpenBlockIsThere(s: State, b: map<int, Slot>)
    requires Shape(s, b) && s.blockType == Some(TextKind)
    ensures s.blockIndex in b
  {
  }

  lemma ApplyText(s: State, t: string)
    requires t != ""
    ensures var op := OpenText(s); Apply(s, Text(t)) == Step(op.s, op.out + [TextDelta(op.s.blockIndex, t)])
  {
  }

  lemma AppliedText(s: State, r: Acc, t: string)
    requires t != "" && OpenText(s).s.blockIndex in AccFrom(r, OpenText(s).out).blocks
    ensures var op := OpenText(s);
            var b := AccFrom(r, op.out).blocks;
            var n := op.s.blockIndex;
            && Apply(s, Text(t)).s == op.s
            && AccFrom(r, Apply(s, Text(t)).out) ==
               AccFrom(r, op.out).(blocks := b[n := b[n].(text := b[n].text + [t])])
  {
    hide OpenText, Apply, AccFrom;
    var op := OpenText(s);
    AccPrefix(r, op.out, TextDelta(op.s.blockIndex, t));
    ApplyText(s, t);
  }

  lemma SimText(s: State, r: Acc, atoms: seq<Atom>, t: string)
    requires Sim(s, r, atoms)
    ensures Sim(Apply(s, Text(t)).s, AccFrom(r, Apply(s, Text(t)).out), atoms + [Text(t)])
  {
    hide OaRun, AccFrom, Apply, OpenText, Mentions, Join, BlocksText, ToolSim, Shape;
    var o := OaRun(atoms);
    ChatText(atoms, t);
    SimOpenText(s, r, Mentions(atoms), o.tools);
    if t != "" {
      var op := OpenText(s);
      OpenBlockIsThere(op.s, AccFrom(r, op.out).blocks);
      AppliedText(s, r, t);
      SimTextLands(op.s, AccFrom(r, op.out).blocks, t, Mentions(atoms), o.tools);
    } else {
      ApplyNoText(s, r);
      assert Join(o.answer) + "" == Join(o.answer);
    }
  }

  lemma ApplyNoText(s: State, r: Acc)
    ensures Apply(s, Text("")) == Step(s, []) && AccFrom(r, []) == r
  {
  }

  /** A new tool index joins the correspondence, mirrored from empty. */
  lemma ToolSimGrows(s: State, b: map<int, Slot>, f: Firsts, oa: map<int, OaSlot>,
                   s': State, b': map<int, Slot>, i: int, name: JsonString)
    requires ToolSim(s, b, f, oa) && i !in s.toolBlockFor && Dense(b, s.blockIndex + 1)
    requires s'.toolBlockFor == s.toolBlockFor[i := s.blockIndex + 1] && s'.blockIndex == s.blockIndex + 1
    requires b' == b[s.blockIndex + 1 := SlotAt(b', s.blockIndex + 1)]
             && Mirrors(SlotAt(b', s.blockIndex + 1), name, OaSlot(None, []))
    requires ToolBlocks(b', s.blockIndex + 2) == ToolBlocks(b, s.blockIndex + 1) + [s.blockIndex + 1]
    ensures ToolSim(s', b', Firsts(f.order + [i], f.name[i := name]), oa[i := OaSlot(None, [])])
  {
    hide Members, Join, ToolBlocks, Mirrors, SlotAt;
    MembersAt(f.order);
    MembersSnoc(f.order, i);
    TargetsGrow(f.order, s.toolBlockFor, i, s.blockIndex + 1);
    var m := s'.toolBlockFor;
    assert forall j :: j in s.toolBlockFor ==> m[j] == s.toolBlockFor[j] && m[j] < s.blockIndex + 1;
    assert forall j :: j in s.toolBlockFor ==> b'[m[j]] == b[m[j]];
    assert m[i] in b' && b'[m[i]] == SlotAt(b', s.blockIndex + 1) by { SlotIs(b', s.blockIndex + 1); }
  }

  lemma SlotIs(b: map<int, Slot>, n: int)
    requires n in b
    ensures SlotAt(b, n) == b[n]
  {
  }

  lemma TargetsGrow(order: seq<int>, m: map<int, int>, i: int, v: int)
    requires forall k :: 0 <= k < |order| ==> order[k] != i
    ensures Targets(order + [i], m[i := v]) == Targets(order, m) + [v]
  {
    TargetsFrame(order, m, i, v);
    assert (order + [i])[..|order|] == order;
  }

  /** Making sure tool `d` has a block. */
  function OpenTool(s: State, d: ToolDelta): Step {
    if d.Idx() in s.toolBlockFor then Step(s, [])
    else
      var b := StartBlock(s, ToolKind, ToolUse(PyStr(d.id, ""), PyStr(d.name, "")));
      Step(b.s.(toolBlockFor := s.toolBlockFor[d.Idx() := b.s.blockIndex]), b.out)
  }

  function Noted(f: Firsts, d: ToolDelta): Firsts {
    if d.Idx() in f.name then f else Firsts(f.order + [d.Idx()], f.name[d.Idx() := d.name])
  }

  function WithSlot(oa: map<int, OaSlot>, i: int): map<int, OaSlot> {
    if i in oa then oa else oa[i := OaSlot(None, [])]
  }

  lemma OpenToolState(s: State, d: ToolDelta)
    requires d.Idx() !in s.toolBlockFor
    ensures OpenTool(s, d) ==
            Step(State(s.started, s.blockIndex + 1, Some(ToolKind),
                       s.toolBlockFor[d.Idx() := s.blockIndex + 1], s.finish, s.usage, s.done),
                 StartBlock(s, ToolKind, ToolUse(PyStr(d.id, ""), PyStr(d.name, ""))).out)
  {
  }

  lemma NewToolSlot(s: State, b: map<int, Slot>, f: Firsts, oa: map<int, OaSlot>,
                    s': State, slot: Slot, i: int, name: JsonString)
    requires Shape(s, b) && ToolSim(s, b, f, oa) && i !in s.toolBlockFor
    requires s' == State(s.started, s.blockIndex + 1, Some(ToolKind),
                         s.toolBlockFor[i := s.blockIndex + 1], s.finish, s.usage, s.done)
    requires IsTool(slot) && slot.text == [] && slot.args == [] && slot.name == ShownName(name)
    ensures var b' := b[s.blockIndex + 1 := slot];
            && Shape(s', b')
            && BlocksText(b', s.blockIndex + 2) == BlocksText(b, s.blockIndex + 1)
            && ToolSim(s', b', Firsts(f.order + [i], f.name[i := name]), oa[i := OaSlot(None, [])])
  {
    AppendSlot(b, s.blockIndex + 1, slot);
    assert Join(slot.text) == "" && Join(slot.args) == "";
    ToolSimGrows(s, b, f, oa, s', b[s.blockIndex + 1 := slot], i, name);
  }

  lemma SimNewTool(s: State, r: Acc, f: Firsts, oa: map<int, OaSlot>, d: ToolDelta)
    requires Shape(s, r.blocks) && ToolSim(s, r.blocks, f, oa) && d.Idx() !in s.toolBlockFor
    ensures var op := OpenTool(s, d);
            var n := s.blockIndex + 1;
            var b' := r.blocks[n := NewSlot(ToolUse(PyStr(d.id, ""), PyStr(d.name, "")))];
            && AccFrom(r, op.out) == r.(blocks := b')
            && Shape(op.s, b')
            && BlocksText(b', n + 1) == BlocksText(r.blocks, n)
            && ToolSim(op.s, b', Firsts(f.order + [d.Idx()], f.name[d.Idx() := d.name]),
                       oa[d.Idx() := OaSlot(None, [])])
  {
    var b := ToolUse(PyStr(d.id, ""), PyStr(d.name, ""));
    AccStartBlock(s, r, ToolKind, b);
    OpenToolState(s, d);
    var slot := NewSlot(b);
    assert slot.name == ShownName(d.name);
    NewToolSlot(s, r.blocks, f, oa, OpenTool(s, d).s, slot, d.Idx(), d.name);
  }

  lemma SimOpenTool(s: State, r: Acc, f: Firsts, oa: map<int, OaSlot>, d: ToolDelta)
    requires Shape(s, r.blocks) && ToolSim(s, r.blocks, f, oa)
    ensures var op := OpenTool(s, d);
            var i := d.Idx();
            var r' := AccFrom(r, op.out);
            && op.s == s.(blockIndex := op.s.blockIndex, blockType := op.s.blockType, toolBlockFor := op.s.toolBlockFor)
            && i in op.s.toolBlockFor
            && Shape(op.s, r'.blocks)
            && r' == r.(blocks := r'.blocks)
            && BlocksText(r'.blocks, op.s.blockIndex + 1) == BlocksText(r.blocks, s.blockIndex + 1)
            && ToolSim(op.s, r'.blocks, Noted(f, d), WithSlot(oa, i))
  {
    hide ToolBlocks, BlocksText, Members, Join;
    if d.Idx() !in s.toolBlockFor {
      SimNewTool(s, r, f, oa, d);
    }
  }

  /** An argument fragment lands in the slot of its own tool, open or not, and nowhere else. */
  lemma SimArgs(s: State, r: Acc, f: Firsts, oa: map<int, OaSlot>, d: ToolDelta)
    requires Shape(s, r.blocks) && ToolSim(s, r.blocks, f, oa)
    requires d.Idx() in oa && d.Args() != ""
    ensures var r' := AccStep(r, JsonDelta(s.toolBlockFor[d.Idx()], d.Args()));
            && Shape(s, r'.blocks)
            && ToolSim(s, r'.blocks, f, oa[d.Idx() := OaMerge(oa[d.Idx()], d)])
            && BlocksText(r'.blocks, s.blockIndex + 1) == BlocksText(r.blocks, s.blockIndex + 1)
            && r' == r.(blocks := r'.blocks)
  {
    var i := d.Idx();
    var k := s.toolBlockFor[i];
    var slot := r.blocks[k].(args := r.blocks[k].args + [d.Args()]);
    UpdateSlot(r.blocks, s.blockIndex + 1, k, slot);
    JoinSnoc(r.blocks[k].args, d.Args());
    JoinSnoc(oa[i].args, d.Args());
    assert Mirrors(slot, f.name[i], OaMerge(oa[i], d));
    assert oa[i := OaMerge(oa[i], d)].Keys == oa.Keys;
  }

  lemma SimNoArgs(s: State, b: map<int, Slot>, f: Firsts, oa: map<int, OaSlot>, d: ToolDelta)
    requires ToolSim(s, b, f, oa)
    requires d.Idx() in oa && d.Args() == ""
    ensures ToolSim(s, b, f, oa[d.Idx() := OaMerge(oa[d.Idx()], d)])
  {
    var i := d.Idx();
    JoinSnoc(oa[i].args, "");
    assert Join(oa[i].args) + "" == Join(oa[i].args);
    assert Mirrors(b[s.toolBlockFor[i]], f.name[i], OaMerge(oa[i], d));
    assert oa[i := OaMerge(oa[i], d)].Keys == oa.Keys;
  }

  lemma ChatSide(atoms: seq<Atom>, d: ToolDelta)
    ensures Mentions(atoms + [Tool(d)]) == Noted(Mentions(atoms), d)
    ensures var o := OaRun(atoms);
            var oa := WithSlot(o.tools, d.Idx());
            OaRun(atoms + [Tool(d)]) == o.(tools := oa[d.Idx() := OaMerge(oa[d.Idx()], d)])
  {
    assert (atoms + [Tool(d)])[..|atoms|] == atoms;
    OaFromSnoc(OA_INIT, atoms, Tool(d));
  }

  lemma SimToolParts(s: State, r: Acc, f: Firsts, oa: map<int, OaSlot>, d: ToolDelta)
    requires Shape(s, r.blocks) && ToolSim(s, r.blocks, f, oa)
    requires d.Idx() in oa
    ensures var out := if d.Args() == "" then [] else [JsonDelta(s.toolBlockFor[d.Idx()], d.Args())];
            var r' := AccFrom(r, out);
            && Shape(s, r'.blocks)
            && ToolSim(s, r'.blocks, f, oa[d.Idx() := OaMerge(oa[d.Idx()], d)])
            && BlocksText(r'.blocks, s.blockIndex + 1) == BlocksText(r.blocks, s.blockIndex + 1)
            && r' == r.(blocks := r'.blocks)
  {
    if d.Args() == "" {
      SimNoArgs(s, r.blocks, f, oa, d);
    } else {
      AccOne(r, JsonDelta(s.toolBlockFor[d.Idx()], d.Args()));
      SimArgs(s, r, f, oa, d);
    }
  }

  lemma ApplyTool(s: State, r: Acc, d: ToolDelta)
    requires d.Idx() in OpenTool(s, d).s.toolBlockFor
    ensures var op := OpenTool(s, d);
            var out := if d.Args() == "" then [] else [JsonDelta(op.s.toolBlockFor[d.Idx()], d.Args())];
            && Apply(s, Tool(d)) == Step(op.s, op.out + out)
            && AccFrom(r, op.out + out) == AccFrom(AccFrom(r, op.out), out)
  {
    var op := OpenTool(s, d);
    AccFromAppend(r, op.out, if d.Args() == "" then [] else [JsonDelta(op.s.toolBlockFor[d.Idx()], d.Args())]);
    assert op.out + [] == op.out;
  }

  lemma SimTool(s: State, r: Acc, atoms: seq<Atom>, d: ToolDelta)
    requires Sim(s, r, atoms)
    ensures Sim(Apply(s, Tool(d)).s, AccFrom(r, Apply(s, Tool(d)).out), atoms + [Tool(d)])
  {
    hide OaRun, Mentions, Join, BlocksText, ToolSim, Shape, AccFrom, OpenTool, Noted;
    var o := OaRun(atoms);
    ChatSide(atoms, d);
    SimOpenTool(s, r, Mentions(atoms), o.tools, d);
    ApplyTool(s, r, d);
    var op := OpenTool(s, d);
    SimToolParts(op.s, AccFrom(r, op.out), Noted(Mentions(atoms), d), WithSlot(o.tools, d.Idx()), d);
  }

  /** Start marker, usage and finish reason touch neither blocks nor tools. */
  lemma SimQuiet(s: State, r: Acc, atoms: seq<Atom>, a: Atom)
    requires Sim(s, r, atoms) && !a.Text? && !a.Tool?
    ensures Sim(Apply(s, a).s, AccFrom(r, Apply(s, a).out), atoms + [a])
  {
    OaFromSnoc(OA_INIT, atoms, a);
    MentionsSame(atoms, a);
    AccOne(r, MessageStart);
    var t := Apply(s, a);
    var r' := AccFrom(r, t.out);
    assert r' == r.(usage := r'.usage) && r'.usage.Keys <= {"input_tokens", "output_tokens"};
    assert Shape(t.s, r.blocks);
    ToolSimFrame(s, r.blocks, t.s, r.blocks, Mentions(atoms), OaRun(atoms).tools);
  }

  lemma SimStep(s: State, r: Acc, atoms: seq<Atom>, a: Atom)
    requires Sim(s, r, atoms)
    ensures Sim(Apply(s, a).s, AccFrom(r, Apply(s, a).out), atoms + [a])
  {
    match a {
      case Text(t) => SimText(s, r, atoms, t);
      case Tool(d) => SimTool(s, r, atoms, d);
      case _ => SimQuiet(s, r, atoms, a);
    }
  }

  lemma {:induction false} Simulation(atoms: seq<Atom>)
    ensures Sim(Run(INITIAL, atoms).s, AccFrom(ACC_INIT, Run(INITIAL, atoms).out), atoms)
  {
    if atoms == [] {
      assert Sim(INITIAL, ACC_INIT, []);
    } else {
      var pre := atoms[..|atoms| - 1];
      Simulation(pre);
      var p := Run(INITIAL, pre);
      SimStep(p.s, AccFrom(ACC_INIT, p.out), pre, atoms[|atoms| - 1]);
      AccFromAppend(ACC_INIT, p.out, Apply(p.s, atoms[|atoms| - 1]).out);
      assert atoms == pre + [atoms[|atoms| - 1]];
    }
  }

  // ---- the theorem ------------------------------------------------------------------------

  /** The tool calls in order of first mention, named as first mentioned. */
  ghost function ByMention(f: Firsts, oa: map<int, OaSlot>, order: seq<int>): seq<ToolCall> {
    if order == [] then []
    else
      var i := order[|order| - 1];
      ByMention(f, oa, order[..|order| - 1])
      + [ToolCall(ShownName(if i in f.name then f.name[i] else Absent), Join(OaSlotAt(oa, i).args))]
  }

  lemma {:induction false} CallsByMention(s: State, b: map<int, Slot>, f: Firsts, oa: map<int, OaSlot>, order: seq<int>)
    requires ToolSim(s, b, f, oa)
    requires forall k :: 0 <= k < |order| ==> order[k] in oa
    ensures Calls(b, Targets(order, s.toolBlockFor)) == ByMention(f, oa, order)
  {
    if order != [] {
      var i := order[|order| - 1];
      CallsByMention(s, b, f, oa, order[..|order| - 1]);
      CallsSnoc(b, Targets(order[..|order| - 1], s.toolBlockFor), s.toolBlockFor[i]);
      assert Mirrors(b[s.toolBlockFor[i]], f.name[i], oa[i]);
    }
  }

  lemma OpeningReads(s: State, r: Acc)
    ensures var r' := AccFrom(r, if s.started then [] else [MessageStart]);
            r'.blocks == r.blocks && r'.finish == r.finish
            && r'.usage.Keys <= r.usage.Keys + {"input_tokens", "output_tokens"}
  {
    AccOne(r, MessageStart);
  }

  lemma CloseReads(s: State, r: Acc)
    requires r.finish == None && r.usage.Keys <= {"input_tokens", "output_tokens"}
    ensures AccFrom(r, Close(s).out) == Acc(r.blocks, UsageFromOpenAi(s.usage), Some(StopReason(s.finish)))
  {
    hide AccFrom;
    var u := UsageFromOpenAi(s.usage);
    var d := MessageDelta(StopReason(s.finish), u);
    var opening := if s.started then [] else [MessageStart];
    var closing := CloseBlock(s.(done := true, started := true)).out;
    var r1 := AccFrom(r, opening);
    OpeningReads(s, r);
    assert r1.usage + u == u;
    AccCloseBlock(s.(done := true, started := true), r1);
    AccFromAppend(r, opening, closing);
    AccPrefix(r, opening + closing, d);
    AccPrefix(r, opening + closing + [d], MessageStop);
    assert Close(s).out == opening + closing + [d] + [MessageStop];
  }

  /**
   * For every stream without an error chunk, interleaved tool deltas included: capture reads the
   * same text out of the translation, the mapped finish reason, the mapped usage, and the same
   * tools in the order they were first mentioned, under the name of their first mention.
   */
  lemma TranslationMeaning(es: seq<Chunk>)
    requires ErrorFree(es)
    ensures var here := OaResult(OaRun(AllAtoms(es)));
            var there := AccResult(AccFrom(ACC_INIT, Translate(es)));
            var f := Mentions(AllAtoms(es));
            && there.text == here.text
            && there.finish == Some(StopReason(here.finish))
            && there.usage == UsageFromOpenAi(here.usage)
            && there.tools == ByMention(f, OaRun(AllAtoms(es)).tools, f.order)
            && Members(f.order) == OaRun(AllAtoms(es)).tools.Keys
  {
    var atoms := AllAtoms(es);
    ChunksAreAtoms(INITIAL, es);
    var p := Run(INITIAL, atoms);
    Simulation(atoms);
    var r := AccFrom(ACC_INIT, p.out);
    AccFromAppend(ACC_INIT, p.out, Close(p.s).out);
    CloseReads(p.s, r);
    ReadDense(AccFrom(ACC_INIT, Translate(es)), p.s.blockIndex + 1);
    var f := Mentions(atoms);
    MembersAt(f.order);
    CallsByMention(p.s, r.blocks, f, OaRun(atoms).tools, f.order);
  }

  /** The last non-empty name the input gives a tool. */
  function LastName(atoms: seq<Atom>, i: int): Option<string> {
    if atoms == [] then None
    else
      var last := atoms[|atoms| - 1];
      if last.Tool? && last.d.Idx() == i && Truthy(last.d.name).Some? then Truthy(last.d.name)
      else LastName(atoms[..|atoms| - 1], i)
  }

  lemma {:induction false} LastNameIsRead(atoms: seq<Atom>, i: int)
    ensures OaSlotAt(OaRun(atoms).tools, i).name == LastName(atoms, i)
    decreases |atoms|
  {
    if atoms != [] { LastNameIsRead(atoms[..|atoms| - 1], i); }
  }

  /** Every tool's first name is its last one. */
  ghost predicate SameNames(atoms: seq<Atom>, order: seq<int>) {
    var f := Mentions(atoms);
    forall k :: 0 <= k < |order| && order[k] in f.name ==> ShownName(f.name[order[k]]) == LastName(atoms, order[k])
  }

  lemma {:induction false} ListsAgree(atoms: seq<Atom>, order: seq<int>)
    requires forall k :: 0 <= k < |order| ==> order[k] in Mentions(atoms).name && order[k] in OaRun(atoms).tools
    ensures ByMention(Mentions(atoms), OaRun(atoms).tools, order) == OaToolList(OaRun(atoms).tools, order)
            <==> SameNames(atoms, order)
  {
    if order != [] {
      var init := order[..|order| - 1];
      ListsAgree(atoms, init);
      var i := order[|order| - 1];
      var f := Mentions(atoms);
      var oa := OaRun(atoms).tools;
      var x := ByMention(f, oa, init);
      var y := OaToolList(oa, init);
      assert |x| == |y| by { ByMentionLength(f, oa, init); }
      assert SameNames(atoms, order) <==> SameNames(atoms, init) && ShownName(f.name[i]) == oa[i].name by {
        assert forall k :: 0 <= k < |init| ==> init[k] == order[k];
        LastNameIsRead(atoms, i);
      }
      SnocEqual(x, ToolCall(ShownName(f.name[i]), Join(oa[i].args)), y, ToolCall(oa[i].name, Join(oa[i].args)));
    }
  }

  lemma SnocEqual<T>(x: seq<T>, a: T, y: seq<T>, b: T)
    requires |x| == |y|
    ensures x + [a] == y + [b] <==> x == y && a == b
  {
    if x + [a] == y + [b] {
      assert (x + [a])[..|x|] == x && (y + [b])[..|y|] == y;
      assert (x + [a])[|x|] == a && (y + [b])[|y|] == b;
    }
  }

  lemma {:induction false} ByMentionLength(f: Firsts, oa: map<int, OaSlot>, order: seq<int>)
    ensures |ByMention(f, oa, order)| == |order|
  {
    if order != [] { ByMentionLength(f, oa, order[..|order| - 1]); }
  }

  /**
   * When indices first appear in ascending order, capture lists exactly the same tool calls on
   * both sides if and only if every tool's last non-empty name is the one of its first mention.
   */
  lemma SameToolCalls(es: seq<Chunk>)
    requires ErrorFree(es)
    requires Ascending(Mentions(AllAtoms(es)).order)
    ensures AccResult(AccFrom(ACC_INIT, Translate(es))).tools == OaResult(OaRun(AllAtoms(es))).tools
            <==> SameNames(AllAtoms(es), Mentions(AllAtoms(es)).order)
  {
    var atoms := AllAtoms(es);
    TranslationMeaning(es);
    var order := Mentions(atoms).order;
    SortedSetUnique(order);
    MembersAt(order);
    Simulation(atoms);
    ListsAgree(atoms, order);
  }

  /** Every non-empty name a tool is given is whole in the chunk that first mentions the tool. */
  ghost predicate NamesWhole(atoms: seq<Atom>) {
    forall k :: 0 <= k < |atoms| && atoms[k].Tool? && atoms[k].d.Idx() in Mentions(atoms).name ==>
      var first := Mentions(atoms).name[atoms[k].d.Idx()];
      first != Null && (Truthy(atoms[k].d.name).Some? ==> Truthy(atoms[k].d.name) == Truthy(first))
  }

  lemma {:induction false} MentionsGrow(atoms: seq<Atom>, n: nat)
    requires n <= |atoms|
    ensures forall i :: i in Mentions(atoms[..n]).name ==>
              i in Mentions(atoms).name && Mentions(atoms).name[i] == Mentions(atoms[..n]).name[i]
    decreases |atoms|
  {
    if n < |atoms| {
      var init := atoms[..|atoms| - 1];
      MentionsGrow(init, n);
      assert init[..n] == atoms[..n];
    } else {
      assert atoms[..n] == atoms;
    }
  }

  lemma {:induction false} WholeNamesSurvive(atoms: seq<Atom>, n: nat)
    requires NamesWhole(atoms) && n <= |atoms|
    ensures var f := Mentions(atoms[..n]);
            var oa := OaRun(atoms[..n]).tools;
            forall i :: i in f.name && i in oa ==> oa[i].name == ShownName(f.name[i])
    ensures Mentions(atoms[..n]).name.Keys == OaRun(atoms[..n]).tools.Keys
  {
    if n > 0 {
      WholeNamesSurvive(atoms, n - 1);
      assert atoms[..n][..n - 1] == atoms[..n - 1];
      MentionsGrow(atoms, n);
      var a := atoms[n - 1];
      if a.Tool? {
        var i := a.d.Idx();
        var f := Mentions(atoms[..n]);
        assert f == Noted(Mentions(atoms[..n - 1]), a.d);
        assert i in f.name && f.name[i] == Mentions(atoms).name[i];
        var oa := OaRun(atoms[..n - 1]).tools;
        assert OaRun(atoms[..n]).tools == oa[i := OaMerge(OaSlotAt(oa, i), a.d)];
        NameKept(f.name[i], OaSlotAt(oa, i), a.d);
      } else {
        MentionsSame(atoms[..n - 1], a);
        assert atoms[..n] == atoms[..n - 1] + [a];
      }
    }
  }

  lemma NameKept(first: JsonString, slot: OaSlot, d: ToolDelta)
    requires first != Null && (Truthy(d.name).Some? ==> Truthy(d.name) == Truthy(first))
    requires slot.name == ShownName(first) || (d.name == first && slot.name == None)
    ensures OaMerge(slot, d).name == ShownName(first)
  {
  }

  /** Translation preserves meaning, whole: text, tools, finish reason and usage. */
  lemma MeaningPreserved(es: seq<Chunk>)
    requires ErrorFree(es)
    requires Ascending(Mentions(AllAtoms(es)).order)
    requires NamesWhole(AllAtoms(es))
    ensures var here := OaResult(OaRun(AllAtoms(es)));
            AccResult(AccFrom(ACC_INIT, Translate(es))) ==
            Reassembled(here.text, here.tools, Some(StopReason(here.finish)), UsageFromOpenAi(here.usage))
  {
    var atoms := AllAtoms(es);
    assert atoms[..|atoms|] == atoms;
    WholeNamesSurvive(atoms, |atoms|);
    forall i | i in Mentions(atoms).name ensures ShownName(Mentions(atoms).name[i]) == LastName(atoms, i) {
      LastNameIsRead(atoms, i);
    }
    assert SameNames(atoms, Mentions(atoms).order);
    SameToolCalls(es);
    TranslationMeaning(es);
  }

  /** No two tools are shown under one name. */
  ghost predicate NamesApart(f: Firsts) {
    forall i, j :: i in f.name && j in f.name && ShownName(f.name[i]) == ShownName(f.name[j]) ==> i == j
  }

  lemma {:induction false} ByMentionAt(f: Firsts, oa: map<int, OaSlot>, order: seq<int>, k: nat)
    requires k < |order| && order[k] in f.name
    ensures |ByMention(f, oa, order)| == |order|
    ensures ByMention(f, oa, order)[k].name == ShownName(f.name[order[k]])
    decreases |order|
  {
    ByMentionLength(f, oa, order[..|order| - 1]);
    if k < |order| - 1 { ByMentionAt(f, oa, order[..|order| - 1], k); }
  }

  lemma SameListSameOrder(f: Firsts, oa: map<int, OaSlot>, q: seq<int>)
    requires NamesApart(f) && f.name.Keys == oa.Keys
    requires forall i :: i in f.name ==> oa[i].name == ShownName(f.name[i])
    requires (forall k :: 0 <= k < |q| ==> q[k] in oa) && (forall k :: 0 <= k < |f.order| ==> f.order[k] in oa)
    requires ByMention(f, oa, f.order) == OaToolList(oa, q)
    ensures f.order == q
  {
    hide Mentions, ByMention, OaToolList, ShownName;
    ByMentionLength(f, oa, f.order);
    forall k | 0 <= k < |q| ensures f.order[k] == q[k] {
      ByMentionAt(f, oa, f.order, k);
      assert OaToolList(oa, q)[k].name == oa[q[k]].name;
    }
  }

  /**
   * That indices first appear in ascending order is needed: among tools named whole and apart,
   * capture lists the same calls on both sides if and only if they do.
   */
  lemma OrderMatters(es: seq<Chunk>)
    requires ErrorFree(es) && NamesWhole(AllAtoms(es)) && NamesApart(Mentions(AllAtoms(es)))
    ensures AccResult(AccFrom(ACC_INIT, Translate(es))).tools == OaResult(OaRun(AllAtoms(es))).tools
            <==> Ascending(Mentions(AllAtoms(es)).order)
  {
    hide Mentions, OaFrom, AccFrom, ByMention, Translate, AllAtoms, NamesWhole, ShownName;
    var atoms := AllAtoms(es);
    var f, oa := Mentions(atoms), OaRun(atoms).tools;
    assert atoms[..|atoms|] == atoms;
    WholeNamesSurvive(atoms, |atoms|);
    TranslationMeaning(es);
    MembersAt(f.order);
    SortedSetMembers(oa.Keys);
    if Ascending(f.order) { MeaningPreserved(es); }
    if AccResult(AccFrom(ACC_INIT, Translate(es))).tools == OaResult(OaRun(atoms)).tools {
      SameListSameOrder(f, oa, SortedSet(oa.Keys));
    }
  }
}
