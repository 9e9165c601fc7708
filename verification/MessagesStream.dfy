/** The downstream wire: Anthropic Messages events, what capture makes of them, and their grammar. */
module MessagesStream {
  import opened Prelude
  import opened ChatStream

  datatype Block = TextBlock | ToolUse(id: string, name: string)

  datatype Event =
    | MessageStart
    | BlockStart(index: int, block: Block)
    | TextDelta(index: int, text: string)
    | JsonDelta(index: int, json: string)
    | BlockStop(index: int)
    | MessageDelta(stop: string, usage: map<string, int>)
    | MessageStop
    | ErrorEvent(kind: string, message: string)

  const START_USAGE: map<string, int> := map["input_tokens" := 0, "output_tokens" := 0]

  // ---- the capture addon's reassembly -----------------------------------------------------

  datatype Slot = Slot(kind: Option<Block>, text: seq<string>, name: Option<string>, args: seq<string>) {
    predicate Lists() { (kind.Some? && kind.value.ToolUse?) || args != [] }
  }
  datatype Acc = Acc(blocks: map<int, Slot>, usage: map<string, int>, finish: Option<string>)

  const ACC_INIT := Acc(map[], map[], None)

  function SlotAt(blocks: map<int, Slot>, i: int): Slot {
    if i in blocks then blocks[i] else Slot(None, [], None, [])
  }

  function AccStep(r: Acc, ev: Event): Acc {
    match ev
    case MessageStart => r.(usage := r.usage + START_USAGE)
    case BlockStart(i, b) =>
      var slot := SlotAt(r.blocks, i);
      var named := if b.ToolUse? && b.name != "" then slot.(name := Some(b.name)) else slot;
      r.(blocks := r.blocks[i := named.(kind := Some(b))])
    case TextDelta(i, t) =>
      var slot := SlotAt(r.blocks, i);
      r.(blocks := r.blocks[i := slot.(text := slot.text + [t])])
    case JsonDelta(i, j) =>
      var slot := SlotAt(r.blocks, i);
      r.(blocks := r.blocks[i := slot.(args := slot.args + [j])])
    case MessageDelta(stop, usage) =>
      Acc(r.blocks, r.usage + usage, if stop != "" then Some(stop) else r.finish)
    case BlockStop(_) => r
    case MessageStop => r
    case ErrorEvent(_, _) => r
  }

  function AccFrom(r: Acc, evs: seq<Event>): Acc {
    if evs == [] then r else AccStep(AccFrom(r, evs[..|evs| - 1]), evs[|evs| - 1])
  }

  lemma {:induction false} AccFromAppend(r: Acc, a: seq<Event>, b: seq<Event>)
    ensures AccFrom(r, a + b) == AccFrom(AccFrom(r, a), b)
  {
    if b == [] {
      assert a + b == a;
    } else {
      assert (a + b)[..|a + b| - 1] == a + b[..|b| - 1];
      AccFromAppend(r, a, b[..|b| - 1]);
    }
  }

  /** `ordered = [blocks[i] for i in sorted(blocks)]` */
  function Ordered(blocks: map<int, Slot>, order: seq<int>): seq<Slot>
    requires forall k :: 0 <= k < |order| ==> order[k] in blocks
  {
    if order == [] then [] else Ordered(blocks, order[..|order| - 1]) + [blocks[order[|order| - 1]]]
  }

  function SlotsText(slots: seq<Slot>): string {
    if slots == [] then "" else SlotsText(slots[..|slots| - 1]) + Join(slots[|slots| - 1].text)
  }

  function SlotsTools(slots: seq<Slot>): seq<ToolCall> {
    if slots == [] then []
    else
      var b := slots[|slots| - 1];
      SlotsTools(slots[..|slots| - 1]) + if b.Lists() then [ToolCall(b.name, Join(b.args))] else []
  }

  function AccResult(r: Acc): Reassembled<map<string, int>> {
    var order := SortedSet(r.blocks.Keys);
    assert forall k :: 0 <= k < |order| ==> order[k] in r.blocks by { SortedSetMembers(r.blocks.Keys); }
    var slots := Ordered(r.blocks, order);
    Reassembled(SlotsText(slots), SlotsTools(slots), r.finish, r.usage)
  }

  method ReassembleMessages(evs: seq<Event>) returns (r: Reassembled<map<string, int>>)
    ensures r == AccResult(AccFrom(ACC_INIT, evs))
  {
    var blocks: map<int, Slot>, usage: map<string, int>, finish: Option<string> := map[], map[], None;
    for k := 0 to |evs|
      invariant Acc(blocks, usage, finish) == AccFrom(ACC_INIT, evs[..k])
    {
      assert evs[..k + 1][..k] == evs[..k];
      match evs[k] {
        case MessageStart => usage := usage + START_USAGE;
        case BlockStart(i, b) =>
          var slot := SlotAt(blocks, i);
          slot := slot.(kind := Some(b));
          if b.ToolUse? && b.name != "" { slot := slot.(name := Some(b.name)); }
          blocks := blocks[i := slot];
        case TextDelta(i, t) =>
          var slot := SlotAt(blocks, i);
          blocks := blocks[i := slot.(text := slot.text + [t])];
        case JsonDelta(i, j) =>
          var slot := SlotAt(blocks, i);
          blocks := blocks[i := slot.(args := slot.args + [j])];
        case MessageDelta(stop, u) =>
          if stop != "" { finish := Some(stop); }
          usage := usage + u;
        case BlockStop(_) =>
        case MessageStop =>
        case ErrorEvent(_, _) =>
      }
    }
    assert evs[..|evs|] == evs;
    r := AccResult(Acc(blocks, usage, finish));
  }

  // ---- the grammar a client expects -------------------------------------------------------

  /**
   * Position in an event stream. `tools` are the indices of the tool blocks started so far and
   * `nested` is lost the first time an argument fragment targets a block other than the open one.
   */
  datatype Position =
    | Before
    | Inside(next: int, open: Option<Block>, tools: set<int>, nested: bool)
    | Finishing(blocks: int, nested: bool)
    | Complete(blocks: int, nested: bool)
    | Malformed

  /** One event of the grammar: start, blocks 0, 1, 2, ... one at a time, delta, stop. */
  function Accept(p: Position, ev: Event): Position {
    match ev
    case MessageStart => if p.Before? then Inside(0, None, {}, true) else Malformed
    case BlockStart(i, b) =>
      if p.Inside? && p.open == None && i == p.next
      then Inside(p.next + 1, Some(b), if b.ToolUse? then p.tools + {i} else p.tools, p.nested)
      else Malformed
    case TextDelta(i, t) =>
      if p.Inside? && p.open == Some(TextBlock) && i == p.next - 1 && t != "" then p else Malformed
    case JsonDelta(i, j) =>
      if p.Inside? && i in p.tools && j != ""
      then Inside(p.next, p.open, p.tools, p.nested && p.open.Some? && i == p.next - 1)
      else Malformed
    case BlockStop(i) =>
      if p.Inside? && p.open.Some? && i == p.next - 1 then Inside(p.next, None, p.tools, p.nested) else Malformed
    case MessageDelta(_, _) =>
      if p.Inside? && p.open == None then Finishing(p.next, p.nested) else Malformed
    case MessageStop =>
      if p.Finishing? then Complete(p.blocks, p.nested) else Malformed
    case ErrorEvent(_, _) => Malformed
  }

  function After(p: Position, evs: seq<Event>): Position {
    if evs == [] then p else Accept(After(p, evs[..|evs| - 1]), evs[|evs| - 1])
  }

  lemma {:induction false} PositionAppend(p: Position, a: seq<Event>, b: seq<Event>)
    ensures After(p, a + b) == After(After(p, a), b)
  {
    if b == [] {
      assert a + b == a;
    } else {
      assert (a + b)[..|a + b| - 1] == a + b[..|b| - 1];
      PositionAppend(p, a, b[..|b| - 1]);
    }
  }
}
