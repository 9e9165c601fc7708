/** The lines and events of a text, and what capture takes from their data lines. */
module EventText {
  import opened ByteLines
  import opened Wire

  /** `text.split("\n")` */
  function AllLines(b: Bytes): seq<Bytes> { Lines(b) + [Rest(b)] }

  predicate IsData(line: Bytes) { "data:" <= line }

  /** What capture takes from the data lines among these. */
  function Payloads(lines: seq<Bytes>): seq<Bytes> {
    if lines == [] then []
    else
      var before := Payloads(lines[..|lines| - 1]);
      var last := lines[|lines| - 1];
      if IsData(last) then before + [LStrip(last[5..])] else before
  }

  lemma {:induction false} PayloadsAppend(a: seq<Bytes>, b: seq<Bytes>)
    ensures Payloads(a + b) == Payloads(a) + Payloads(b)
    decreases |b|
  {
    if b == [] {
      assert a + b == a;
    } else {
      assert (a + b)[..|a + b| - 1] == a + b[..|b| - 1];
      PayloadsAppend(a, b[..|b| - 1]);
    }
  }

  lemma {:induction false} FieldsArePayloads(lines: seq<Bytes>)
    ensures TakeFields(lines).data == Payloads(lines)
  {
    if lines != [] {
      FieldsArePayloads(lines[..|lines| - 1]);
      NotBoth(lines[|lines| - 1]);
    }
  }

  lemma NotBoth(line: Bytes)
    ensures !("event:" <= line && "data:" <= line)
  {
    assert "event:" <= line ==> line[0] == 'e';
    assert "data:" <= line ==> line[0] == 'd';
  }

  // ---- blocks and lines -------------------------------------------------------------------------------

  function BlockPayloads(blocks: seq<Bytes>): seq<Bytes> {
    if blocks == [] then [] else Payloads(AllLines(blocks[0])) + BlockPayloads(blocks[1..])
  }

  lemma Regroup(before: seq<Bytes>, rest: Bytes, more: seq<Bytes>, last: Bytes)
    ensures (before + ([rest] + ([[]] + more))) + [last] == (before + [rest]) + [[]] + (more + [last])
  {
  }

  lemma LinesAcross(block: Bytes, more: Bytes)
    ensures AllLines(block + "\n\n" + more) == AllLines(block) + [[]] + AllLines(more)
  {
    hide Lines, Rest;
    var rest, ends, second := Rest(block), "\n\n" + more, ['\n'] + more;
    assert block + "\n\n" + more == block + ends;
    assert rest + ends == (rest + ['\n']) + second;
    LinesAppend(block, ends);
    RestHasNoNewline(block);
    OneLine(rest);
    LinesAppend(rest + ['\n'], second);
    assert [] + second == second;
    EmptyLine(more);
    Regroup(Lines(block), rest, Lines(more), Rest(more));
  }

  lemma EmptyLine(more: Bytes)
    ensures Lines(['\n'] + more) == [[]] + Lines(more) && Rest(['\n'] + more) == Rest(more)
  {
    FindUnique(['\n'] + more, '\n', 0);
    assert (['\n'] + more)[1..] == more && (['\n'] + more)[..0] == [];
  }

  lemma {:induction false} BlocksLosePayloads(b: Bytes)
    ensures BlockPayloads(Blocks(b)) == Payloads(AllLines(b))
    decreases |b|
  {
    hide AllLines;
    var i := FindSub(b, "\n\n", 0);
    if i < 0 {
      assert [b][1..] == [] && BlockPayloads([]) == [];
      assert Payloads(AllLines(b)) + [] == Payloads(AllLines(b));
    } else {
      var more := b[i + 2..];
      BlocksLosePayloads(more);
      assert Blocks(b) == [b[..i]] + Blocks(more) && ([b[..i]] + Blocks(more))[1..] == Blocks(more);
      assert b == b[..i] + "\n\n" + more;
      LinesAcross(b[..i], more);
      PayloadsAppend(AllLines(b[..i]) + [[]], AllLines(more));
      PayloadsAppend(AllLines(b[..i]), [[]]);
      NoPayload();
    }
  }

  lemma NoPayload()
    ensures Payloads([[]]) == []
  {
    assert !("data:" <= []);
    var one: seq<Bytes> := [[]];
    assert one[..0] == [];
  }

  function ItemData(items: seq<Item>): seq<Bytes> {
    if items == [] then [] else ItemData(items[..|items| - 1]) + [items[|items| - 1].data]
  }

  lemma {:induction false} BlockPayloadsSnoc(blocks: seq<Bytes>, last: Bytes)
    ensures BlockPayloads(blocks + [last]) == BlockPayloads(blocks) + Payloads(AllLines(last))
  {
    hide AllLines, Payloads;
    if blocks == [] {
      assert [last][1..] == [] && blocks + [last] == [last];
      assert BlockPayloads([]) == [];
      assert Payloads(AllLines(last)) + [] == [] + Payloads(AllLines(last));
    } else {
      assert (blocks + [last])[1..] == blocks[1..] + [last];
      BlockPayloadsSnoc(blocks[1..], last);
    }
  }

  // ---- line ends ------------------------------------------------------------------------------------------

  function DropCr(line: Bytes): Bytes { if line != [] && line[|line| - 1] == '\r' then line[..|line| - 1] else line }

  function DropCrs(lines: seq<Bytes>): seq<Bytes> {
    if lines == [] then [] else [DropCr(lines[0])] + DropCrs(lines[1..])
  }

  lemma NotCrlf(b: Bytes)
    requires |b| < 2 || b[0] != '\r' || b[1] != '\n'
    ensures !("\r\n" <= b)
  {
    assert "\r\n"[0] == '\r' && "\r\n"[1] == '\n';
  }

  lemma CrlfStep(c: char, more: Bytes)
    requires c != '\r' || more == [] || more[0] != '\n'
    ensures CrlfToLf([c] + more) == [c] + CrlfToLf(more)
  {
    NotCrlf([c] + more);
    assert ([c] + more)[1..] == more;
  }

  lemma CrlfPair(more: Bytes)
    ensures CrlfToLf(['\r'] + ['\n'] + more) == ['\n'] + CrlfToLf(more)
  {
    var b := ['\r'] + ['\n'] + more;
    assert b[..2] == "\r\n" && b[2..] == more;
  }

  lemma {:induction false} CrlfLine(line: Bytes, more: Bytes)
    requires forall k :: 0 <= k < |line| ==> line[k] != '\n'
    ensures CrlfToLf(line + ['\n'] + more) == DropCr(line) + ['\n'] + CrlfToLf(more)
  {
    hide CrlfToLf;
    if line == [] {
      CrlfStep('\n', more);
      assert line + ['\n'] + more == ['\n'] + more;
    } else if line == ['\r'] {
      CrlfPair(more);
      assert line[..0] == [];
    } else {
      var tail := line[1..] + ['\n'] + more;
      assert line + ['\n'] + more == [line[0]] + tail;
      assert 1 < |line| ==> tail[0] == line[1];
      CrlfStep(line[0], tail);
      CrlfLine(line[1..], more);
      DropCrCons(line);
      assert [line[0]] + (DropCr(line[1..]) + ['\n'] + CrlfToLf(more)) ==
             ([line[0]] + DropCr(line[1..])) + ['\n'] + CrlfToLf(more);
    }
  }

  lemma DropCrCons(line: Bytes)
    requires line != [] && line != ['\r']
    ensures [line[0]] + DropCr(line[1..]) == DropCr(line)
  {
    if |line| == 1 { assert line[1..] == []; }
  }

  lemma {:induction false} CrlfTail(b: Bytes)
    requires forall k :: 0 <= k < |b| ==> b[k] != '\n'
    ensures CrlfToLf(b) == b
  {
    if b != [] {
      NotCrlf(b);
      assert forall k :: 0 <= k < |b[1..]| ==> b[1..][k] == b[k + 1];
      CrlfTail(b[1..]);
    }
  }

  /** Turning CRLF into LF drops one CR from every line that has its end. */
  lemma {:induction false} CrlfLines(b: Bytes)
    ensures Lines(CrlfToLf(b)) == DropCrs(Lines(b)) && Rest(CrlfToLf(b)) == Rest(b)
    decreases |b|
  {
    hide CrlfToLf;
    var nl := Find(b, '\n');
    if nl < 0 {
      CrlfTail(b);
    } else {
      var line, more := b[..nl], b[nl + 1..];
      assert b == line + ['\n'] + more;
      CrlfLine(line, more);
      CrlfLines(more);
      FirstOf(DropCr(line), CrlfToLf(more));
      assert Lines(b) == [line] + Lines(more) && ([line] + Lines(more))[1..] == Lines(more);
    }
  }

  lemma FirstOf(line: Bytes, more: Bytes)
    requires forall k :: 0 <= k < |line| ==> line[k] != '\n'
    ensures Lines(line + ['\n'] + more) == [line] + Lines(more) && Rest(line + ['\n'] + more) == Rest(more)
  {
    var b := line + ['\n'] + more;
    FindUnique(b, '\n', |line|);
    assert b[..|line|] == line && b[|line| + 1..] == more;
  }
}
