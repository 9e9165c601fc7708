/** Whatever the upstream sends, short of an error, the client sees one well-formed message. */
module TranslatorGrammar {
  import opened Prelude
  import opened ChatStream
  import opened MessagesStream
  import opened Translator

  /**
   * Who is speaking, read off the input alone: the tool whose block is the one just opened, the
   * tools seen, and whether every argument fragment so far belonged to the tool then speaking.
   */
  datatype Turn = Turn(speaking: Option<int>, known: set<int>, orderly: bool)

  function TakeTurn(t: Turn, a: Atom): Turn {
    match a
    case Text(s) => if s == "" then t else t.(speaking := None)
    case Tool(d) =>
      var i := d.Idx();
      var t' := if i in t.known then t else Turn(Some(i), t.known + {i}, t.orderly);
      if d.Args() == "" then t' else t'.(orderly := t'.orderly && t'.speaking == Some(i))
    case _ => t
  }

  function Turns(atoms: seq<Atom>): Turn {
    if atoms == [] then Turn(None, {}, true) else TakeTurn(Turns(atoms[..|atoms| - 1]), atoms[|atoms| - 1])
  }

  /** No tool's arguments resume after another block was opened. */
  predicate NotInterleaved(es: seq<Chunk>) { Turns(AllAtoms(es)).orderly }

  ghost predicate OpenMatches(open: Option<Block>, kind: Option<Kind>) {
    match kind
    case None => open == None
    case Some(TextKind) => open == Some(TextBlock)
    case Some(ToolKind) => open.Some? && open.value.ToolUse?
  }

  ghost predicate Targeted(s: State, t: Turn, p: Position)
    requires p.Inside?
  {
    && s.toolBlockFor.Keys == t.known
    && (forall i :: i in s.toolBlockFor ==> s.toolBlockFor[i] in p.tools && 0 <= s.toolBlockFor[i] <= s.blockIndex)
    && (forall i :: i in s.toolBlockFor ==> (t.speaking == Some(i) <==> s.toolBlockFor[i] == s.blockIndex))
    && (t.speaking.Some? ==> t.speaking.value in s.toolBlockFor && s.blockType == Some(ToolKind))
  }

  ghost predicate Follows(s: State, t: Turn, p: Position) {
    if s.started then
      p.Inside? && p.next == s.blockIndex + 1 && 0 <= p.next && p.nested == t.orderly
      && OpenMatches(p.open, s.blockType) && Targeted(s, t, p)
    else
      p == Before && s == INITIAL.(finish := s.finish, usage := s.usage) && t == Turn(None, {}, true)
  }

  lemma AcceptOne(p: Position, ev: Event)
    ensures After(p, [ev]) == Accept(p, ev)
  {
    assert [ev][..0] == [];
  }

  lemma AfterSnoc(p: Position, pre: seq<Event>, ev: Event)
    ensures After(p, pre + [ev]) == Accept(After(p, pre), ev)
  {
    assert (pre + [ev])[..|pre|] == pre;
  }

  lemma AcceptStartBlock(s: State, p: Position, kind: Kind, b: Block)
    requires p.Inside? && p.next == s.blockIndex + 1 && OpenMatches(p.open, s.blockType)
    ensures After(p, StartBlock(s, kind, b).out) ==
            Inside(p.next + 1, Some(b), if b.ToolUse? then p.tools + {p.next} else p.tools, p.nested)
  {
    AcceptOne(p, BlockStop(s.blockIndex));
    AfterSnoc(p, CloseBlock(s).out, BlockStart(s.blockIndex + 1, b));
  }

  /** A text block is opened unless one is open; the tools keep their blocks. */
  lemma FollowOpenText(s: State, t: Turn, p: Position)
    requires Follows(s, t, p) && s.started && s.blockType != Some(TextKind)
    ensures var op := StartBlock(s, TextKind, TextBlock);
            && op.s == s.(blockIndex := s.blockIndex + 1, blockType := Some(TextKind))
            && Follows(op.s, t.(speaking := None), After(p, op.out))
  {
    AcceptStartBlock(s, p, TextKind, TextBlock);
  }

  lemma FollowKeptText(s: State, t: Turn, p: Position)
    requires Follows(s, t, p) && s.started && s.blockType == Some(TextKind)
    ensures t.speaking == None
  {
  }

  /** Text lands in the open text block. */
  lemma FollowTextDelta(s: State, t: Turn, p: Position, text: string)
    requires Follows(s, t, p) && s.started && s.blockType == Some(TextKind) && text != ""
    ensures Accept(p, TextDelta(s.blockIndex, text)) == p
  {
  }

  lemma FollowText(s: State, t: Turn, p: Position, text: string)
    requires Follows(s, t, p) && s.started
    ensures var q := Apply(s, Text(text)); Follows(q.s, TakeTurn(t, Text(text)), After(p, q.out))
  {
    hide Follows, Accept, StartBlock;
    if text == "" {
      assert After(p, []) == p;
    } else if s.blockType == Some(TextKind) {
      FollowKeptText(s, t, p);
      AfterSnoc(p, [], TextDelta(s.blockIndex, text));
      assert [] + [TextDelta(s.blockIndex, text)] == [TextDelta(s.blockIndex, text)];
      FollowTextDelta(s, t, p, text);
    } else {
      var op := StartBlock(s, TextKind, TextBlock);
      FollowOpenText(s, t, p);
      AfterSnoc(p, op.out, TextDelta(op.s.blockIndex, text));
      FollowTextDelta(op.s, t.(speaking := None), After(p, op.out), text);
    }
  }

  lemma FollowArgs(s: State, t: Turn, p: Position, i: int, args: string)
    requires Follows(s, t, p) && s.started && i in s.toolBlockFor && args != ""
    ensures Follows(s, t.(orderly := t.orderly && t.speaking == Some(i)), Accept(p, JsonDelta(s.toolBlockFor[i], args)))
  {
  }

  lemma FollowTool(s: State, t: Turn, p: Position, d: ToolDelta)
    requires Follows(s, t, p) && s.started
    ensures var q := Apply(s, Tool(d)); Follows(q.s, TakeTurn(t, Tool(d)), After(p, q.out))
  {
    var i := d.Idx();
    var op := Step(s, []);
    var t' := t;
    if i !in s.toolBlockFor {
      var b := ToolUse(PyStr(d.id, ""), PyStr(d.name, ""));
      var st := StartBlock(s, ToolKind, b);
      op := Step(st.s.(toolBlockFor := s.toolBlockFor[i := st.s.blockIndex]), st.out);
      t' := Turn(Some(i), t.known + {i}, t.orderly);
      AcceptStartBlock(s, p, ToolKind, b);
      assert Follows(op.s, t', After(p, op.out));
    }
    if d.Args() == "" {
      assert Apply(s, Tool(d)) == op;
    } else {
      AfterSnoc(p, op.out, JsonDelta(op.s.toolBlockFor[i], d.Args()));
      FollowArgs(op.s, t', After(p, op.out), i, d.Args());
      assert Apply(s, Tool(d)) == Step(op.s, op.out + [JsonDelta(op.s.toolBlockFor[i], d.Args())]);
    }
  }

  lemma FollowStep(s: State, t: Turn, p: Position, a: Atom)
    requires Follows(s, t, p) && (a.Text? || a.Tool? ==> s.started)
    ensures var q := Apply(s, a); Follows(q.s, TakeTurn(t, a), After(p, q.out))
  {
    match a {
      case Text(text) => FollowText(s, t, p, text);
      case Tool(d) => FollowTool(s, t, p, d);
      case _ => AcceptOne(p, MessageStart);
    }
  }

  /** Content only ever follows the start marker of its own chunk. */
  ghost predicate Prompted(started: bool, atoms: seq<Atom>) {
    forall k :: 0 <= k < |atoms| && (atoms[k].Text? || atoms[k].Tool?) ==> started || Opened in atoms[..k]
  }

  lemma PromptedPrefix(started: bool, pre: seq<Atom>, a: Atom)
    requires Prompted(started, pre + [a])
    ensures Prompted(started, pre)
    ensures a.Text? || a.Tool? ==> started || Opened in pre
  {
    var atoms := pre + [a];
    assert forall k :: 0 <= k < |pre| ==> pre[k] == atoms[k] && pre[..k] == atoms[..k];
    assert atoms[|pre|] == a && atoms[..|pre|] == pre;
  }

  lemma {:induction false} RunStarts(s: State, atoms: seq<Atom>)
    ensures Run(s, atoms).s.started <==> s.started || Opened in atoms
  {
    if atoms != [] {
      RunStarts(s, atoms[..|atoms| - 1]);
      assert atoms == atoms[..|atoms| - 1] + [atoms[|atoms| - 1]];
    }
  }

  lemma TurnsSnoc(atoms: seq<Atom>, a: Atom)
    ensures Turns(atoms + [a]) == TakeTurn(Turns(atoms), a)
  {
    assert (atoms + [a])[..|atoms|] == atoms;
  }

  lemma {:induction false} FollowRun(s: State, seen: seq<Atom>, p: Position, atoms: seq<Atom>)
    requires Follows(s, Turns(seen), p) && Prompted(s.started, atoms)
    ensures var q := Run(s, atoms); Follows(q.s, Turns(seen + atoms), After(p, q.out))
  {
    if atoms == [] {
      assert seen + atoms == seen;
    } else {
      var pre := atoms[..|atoms| - 1];
      var a := atoms[|atoms| - 1];
      assert atoms == pre + [a];
      PromptedPrefix(s.started, pre, a);
      FollowRun(s, seen, p, pre);
      var q := Run(s, pre);
      RunStarts(s, pre);
      TurnsSnoc(seen + pre, a);
      assert seen + atoms == (seen + pre) + [a];
      PositionAppend(p, q.out, Apply(q.s, a).out);
      FollowStep(q.s, Turns(seen + pre), After(p, q.out), a);
    }
  }

  lemma ChunkPrompted(started: bool, e: Chunk)
    ensures Prompted(started, Atoms(e))
  {
    if e.choice.Some? {
      var c := e.choice.value;
      var us := match e.usage case Some(u) => [UsageSeen(u)] case None => [];
      var fin := match c.finish case Some(f) => if f == "" then [] else [FinishSeen(f)] case None => [];
      var m := |us| + |fin|;
      var atoms := Atoms(e);
      assert atoms[m] == Opened;
      forall k | 0 <= k < |atoms| && (atoms[k].Text? || atoms[k].Tool?) ensures Opened in atoms[..k] {
        assert m < k;
        assert atoms[..k][m] == Opened;
      }
    }
  }

  lemma {:induction false} FollowChunks(es: seq<Chunk>)
    requires ErrorFree(es)
    ensures var q := Chunks(INITIAL, es); Follows(q.s, Turns(AllAtoms(es)), After(Before, q.out))
  {
    if es != [] {
      var pre := es[..|es| - 1];
      var e := es[|es| - 1];
      FollowChunks(pre);
      var q := Chunks(INITIAL, pre);
      ChunkPrompted(q.s.started, e);
      FollowRun(q.s, AllAtoms(pre), After(Before, q.out), Atoms(e));
      PositionAppend(Before, q.out, OnChunk(q.s, e).out);
    }
  }

  lemma AcceptClose(s: State, t: Turn, p: Position)
    requires Follows(s, t, p)
    ensures After(p, Close(s).out) == Complete(s.blockIndex + 1, t.orderly)
  {
    var opening := if s.started then [] else [MessageStart];
    var c := CloseBlock(s.(done := true, started := true)).out;
    var d := MessageDelta(StopReason(s.finish), UsageFromOpenAi(s.usage));
    AcceptOne(p, MessageStart);
    var p1 := After(p, opening);
    assert p1.Inside? && p1.next == s.blockIndex + 1 && p1.nested == t.orderly && OpenMatches(p1.open, s.blockType);
    AcceptOne(p1, BlockStop(s.blockIndex));
    PositionAppend(p, opening, c);
    AfterSnoc(p, opening + c, d);
    AfterSnoc(p, opening + c + [d], MessageStop);
    assert Close(s).out == opening + c + [d] + [MessageStop];
  }

  /**
   * Every error-free chunk list translates to exactly one complete message, and every argument
   * fragment targets the block then open if and only if tool deltas do not interleave.
   */
  lemma OneCompleteMessage(es: seq<Chunk>)
    requires ErrorFree(es)
    ensures After(Before, Translate(es)) ==
            Complete(Chunks(INITIAL, es).s.blockIndex + 1, NotInterleaved(es))
  {
    FollowChunks(es);
    var q := Chunks(INITIAL, es);
    AcceptClose(q.s, Turns(AllAtoms(es)), After(Before, q.out));
    PositionAppend(Before, q.out, Close(q.s).out);
  }

  /** Malformed is final, so every prefix of an accepted stream was accepted so far. */
  lemma {:induction false} PrefixesAreWellFormed(p: Position, evs: seq<Event>, n: nat)
    requires n <= |evs| && !After(p, evs).Malformed?
    ensures !After(p, evs[..n]).Malformed?
  {
    assert evs == evs[..n] + evs[n..];
    PositionAppend(p, evs[..n], evs[n..]);
    if After(p, evs[..n]).Malformed? { StaysMalformed(evs[n..]); }
  }

  lemma {:induction false} StaysMalformed(evs: seq<Event>)
    ensures After(Malformed, evs) == Malformed
  {
    if evs != [] { StaysMalformed(evs[..|evs| - 1]); }
  }
}
