/** The pieces a stream arrives in do not matter, and exactly when an error makes them matter. */
module TranslatorChunking {
  import opened Prelude
  import opened ByteLines
  import opened ChatStream
  import opened Translator
  import opened StreamTranslator

  predicate IsErrorLine(parse: Parser, line: Bytes) {
    var l := Classify(line);
    l.Data? && parse(l.payload).Some? && parse(l.payload).value.error.Some?
  }

  /** No end marker before line k. */
  ghost predicate Reached(lines: seq<Bytes>, k: int) {
    forall j :: 0 <= j < k && j < |lines| ==> !Classify(lines[j]).DoneMark?
  }

  /** No error line, unless behind the end marker. */
  ghost predicate NoErrorLine(parse: Parser, lines: seq<Bytes>) {
    forall k :: 0 <= k < |lines| && Reached(lines, k) ==> !IsErrorLine(parse, lines[k])
  }

  lemma NoErrorPrefix(parse: Parser, lines: seq<Bytes>, n: nat)
    requires NoErrorLine(parse, lines) && n <= |lines|
    ensures NoErrorLine(parse, lines[..n])
  {
    forall k | 0 <= k < n && Reached(lines[..n], k) ensures !IsErrorLine(parse, lines[..n][k]) {
      assert Reached(lines, k) by { assert forall j :: 0 <= j < k ==> lines[j] == lines[..n][j]; }
    }
  }

  lemma LastIsWell(parse: Parser, lines: seq<Bytes>)
    requires lines != [] && NoErrorLine(parse, lines) && Reached(lines[..|lines| - 1], |lines| - 1)
    ensures !IsErrorLine(parse, lines[|lines| - 1])
  {
    var init := lines[..|lines| - 1];
    assert Reached(lines, |lines| - 1) by { assert forall j :: 0 <= j < |init| ==> init[j] == lines[j]; }
  }

  lemma {:induction false} OpenIsReached(parse: Parser, s: State, lines: seq<Bytes>)
    requires !RunLines(parse, s, lines).closed
    ensures Reached(lines, |lines|)
  {
    if lines != [] { OpenIsReached(parse, s, lines[..|lines| - 1]); }
  }

  /** Without an error line, being done and having met the end marker are the same thing. */
  lemma {:induction false} DoneIsClosed(parse: Parser, s: State, lines: seq<Bytes>)
    requires NoErrorLine(parse, lines) && !s.done
    ensures var p := RunLines(parse, s, lines); p.s.done <==> p.closed
  {
    hide Run, Atoms, NoErrorLine;
    if lines != [] {
      var init := lines[..|lines| - 1];
      NoErrorPrefix(parse, lines, |lines| - 1);
      DoneIsClosed(parse, s, init);
      var p := RunLines(parse, s, init);
      var line := lines[|lines| - 1];
      if !p.closed {
        OpenIsReached(parse, s, init);
        LastIsWell(parse, lines);
        match Classify(line) {
          case Data(d) =>
            if parse(d).Some? { RunKeepsDone(p.s, Atoms(parse(d).value)); }
          case _ =>
        }
      }
    }
  }

  lemma ApplyKeepsDone(s: State, a: Atom)
    ensures Apply(s, a).s.done == s.done
  {
  }

  lemma {:induction false} RunKeepsDone(s: State, atoms: seq<Atom>)
    ensures Run(s, atoms).s.done == s.done
  {
    hide Apply;
    if atoms != [] {
      RunKeepsDone(s, atoms[..|atoms| - 1]);
      ApplyKeepsDone(Run(s, atoms[..|atoms| - 1]).s, atoms[|atoms| - 1]);
    }
  }

  /** After any pieces: the state of running all complete lines received so far. */
  ghost predicate InStep(parse: Parser, r: Fed, data: Bytes) {
    var p := RunLines(parse, INITIAL, Lines(data));
    r.f.s == p.s && r.out == p.out && (!p.s.done ==> r.f.buf == Rest(data))
  }

  lemma FeedInStep(parse: Parser, r: Fed, data: Bytes, chunk: Bytes)
    requires InStep(parse, r, data)
    requires var p := RunLines(parse, INITIAL, Lines(data)); p.s.done <==> p.closed
    ensures var t := FeedOnce(parse, r.f, chunk); InStep(parse, Fed(t.f, r.out + t.out), data + chunk)
  {
    var p := RunLines(parse, INITIAL, Lines(data));
    LinesAppend(data, chunk);
    RunLinesAppend(parse, INITIAL, Lines(data), Lines(Rest(data) + chunk));
    if p.closed { assert r.out + [] == r.out; }
  }

  lemma {:induction false} FeedsInStep(parse: Parser, chunks: seq<Bytes>)
    requires NoErrorLine(parse, Lines(Concat(chunks)))
    ensures InStep(parse, FeedAll(parse, chunks), Concat(chunks))
  {
    if chunks != [] {
      var init := chunks[..|chunks| - 1];
      var last := chunks[|chunks| - 1];
      LinesAppend(Concat(init), last);
      var a := Lines(Concat(init));
      assert Lines(Concat(chunks))[..|a|] == a;
      NoErrorPrefix(parse, Lines(Concat(chunks)), |a|);
      FeedsInStep(parse, init);
      DoneIsClosed(parse, INITIAL, a);
      FeedInStep(parse, FeedAll(parse, init), Concat(init), last);
    }
  }

  lemma ConcatOne(b: Bytes)
    ensures Concat([b]) == b
  {
    assert [b][..0] == [];
    assert [] + b == b;
  }

  /**
   * Chunk invariance: unless some complete line before the end marker is an error chunk, the client
   * receives the same events however the byte stream is cut into pieces.
   */
  lemma PiecesDoNotMatter(parse: Parser, chunks: seq<Bytes>)
    requires NoErrorLine(parse, Lines(Concat(chunks)))
    ensures Received(parse, chunks) == Received(parse, [Concat(chunks)])
  {
    ConcatOne(Concat(chunks));
    FeedsInStep(parse, chunks);
    FeedsInStep(parse, [Concat(chunks)]);
  }

  /** The chunks a line list carries, up to the end marker. */
  datatype Payload = Payload(chunks: seq<Chunk>, closed: bool)

  function Decode(parse: Parser, lines: seq<Bytes>): Payload {
    if lines == [] then Payload([], false)
    else
      var p := Decode(parse, lines[..|lines| - 1]);
      if p.closed then p
      else
        match Classify(lines[|lines| - 1])
        case Skip => p
        case DoneMark => Payload(p.chunks, true)
        case Data(d) => if parse(d) == None then p else Payload(p.chunks + [parse(d).value], false)
  }

  lemma {:induction false} DecodingIsReached(parse: Parser, lines: seq<Bytes>)
    requires !Decode(parse, lines).closed
    ensures Reached(lines, |lines|)
  {
    if lines != [] { DecodingIsReached(parse, lines[..|lines| - 1]); }
  }

  lemma {:induction false} DecodedErrorFree(parse: Parser, lines: seq<Bytes>)
    requires NoErrorLine(parse, lines)
    ensures ErrorFree(Decode(parse, lines).chunks)
  {
    if lines != [] {
      var init, last := lines[..|lines| - 1], lines[|lines| - 1];
      NoErrorPrefix(parse, lines, |lines| - 1);
      DecodedErrorFree(parse, init);
      if !Decode(parse, init).closed {
        DecodingIsReached(parse, init);
        LastIsWell(parse, lines);
      }
    }
  }

  lemma ChunksSnoc(s: State, es: seq<Chunk>, e: Chunk)
    ensures Chunks(s, es + [e]) == var r := Chunks(s, es); var t := OnChunk(r.s, e); Step(t.s, r.out + t.out)
  {
    assert (es + [e])[..|es|] == es;
  }

  lemma {:induction false} LinesAreChunks(parse: Parser, s: State, lines: seq<Bytes>)
    ensures var p := RunLines(parse, s, lines);
            var d := Decode(parse, lines);
            var r := Chunks(s, d.chunks);
            p == if d.closed then Progress(Close(r.s).s, r.out + Close(r.s).out, true) else Progress(r.s, r.out, false)
  {
    if lines != [] {
      LinesAreChunks(parse, s, lines[..|lines| - 1]);
      var d := Decode(parse, lines[..|lines| - 1]);
      match Classify(lines[|lines| - 1]) {
        case Data(b) => if parse(b).Some? { ChunksSnoc(s, d.chunks, parse(b).value); }
        case _ =>
      }
    }
  }

  /** The bytes, however cut, translate as the chunks they encode. */
  lemma ReceivedIsTranslation(parse: Parser, chunks: seq<Bytes>)
    requires NoErrorLine(parse, Lines(Concat(chunks)))
    ensures Received(parse, chunks) == Translate(Decode(parse, Lines(Concat(chunks))).chunks)
  {
    FeedsInStep(parse, chunks);
    var lines := Lines(Concat(chunks));
    DoneIsClosed(parse, INITIAL, lines);
    LinesAreChunks(parse, INITIAL, lines);
    var p := RunLines(parse, INITIAL, lines);
    assert p.out + [] == p.out;
  }

  // ---- streams with an error chunk ----------------------------------------------------------

  /** An effect that produces no event in this state. */
  predicate QuietAtom(s: State, a: Atom) {
    match a
    case UsageSeen(_) => true
    case FinishSeen(_) => true
    case Opened => s.started
    case Text(t) => t == ""
    case Tool(d) => d.Idx() in s.toolBlockFor && d.Args() == ""
  }

  predicate QuietChunk(s: State, e: Chunk) {
    e.error == None && forall k :: 0 <= k < |Atoms(e)| ==> QuietAtom(s, Atoms(e)[k])
  }

  /** A line that is neither end marker nor error nor carries anything for the client. */
  predicate QuietLine(parse: Parser, s: State, line: Bytes) {
    match Classify(line)
    case Skip => true
    case DoneMark => false
    case Data(d) => parse(d) == None || QuietChunk(s, parse(d).value)
  }

  ghost predicate SameFooting(s: State, t: State) {
    t == s.(finish := t.finish, usage := t.usage)
  }

  lemma {:induction false} QuietRun(s: State, atoms: seq<Atom>)
    ensures (forall k :: 0 <= k < |atoms| ==> QuietAtom(s, atoms[k])) <==> Run(s, atoms).out == []
    ensures Run(s, atoms).out == [] ==> SameFooting(s, Run(s, atoms).s)
  {
    if atoms != [] {
      var init := atoms[..|atoms| - 1];
      var a := atoms[|atoms| - 1];
      QuietRun(s, init);
      assert forall k :: 0 <= k < |init| ==> init[k] == atoms[k];
      var r := Run(s, init);
      if r.out == [] {
        assert QuietAtom(r.s, a) == QuietAtom(s, a);
        assert QuietAtom(s, a) <==> Apply(r.s, a).out == [];
      } else {
        assert !(forall k :: 0 <= k < |init| ==> QuietAtom(s, init[k]));
      }
    }
  }

  lemma QuietStep(parse: Parser, p: Progress, line: Bytes)
    requires !p.closed
    ensures var q := StepLine(parse, p, line);
            && p.out <= q.out
            && (QuietLine(parse, p.s, line) <==> q.out == p.out)
            && (QuietLine(parse, p.s, line) ==> SameFooting(p.s, q.s) && !q.closed)
  {
    match Classify(line) {
      case Skip =>
      case DoneMark => assert Close(p.s).out != [];
      case Data(d) =>
        if parse(d).Some? && parse(d).value.error == None { QuietRun(p.s, Atoms(parse(d).value)); }
    }
  }

  lemma QuietSame(parse: Parser, s: State, t: State, line: Bytes)
    requires SameFooting(s, t)
    ensures QuietLine(parse, s, line) == QuietLine(parse, t, line)
  {
    match Classify(line) {
      case Data(d) =>
        if parse(d).Some? {
          var atoms := Atoms(parse(d).value);
          assert forall k :: 0 <= k < |atoms| ==> QuietAtom(s, atoms[k]) == QuietAtom(t, atoms[k]);
        }
      case _ =>
    }
  }

  ghost predicate QuietTail(parse: Parser, s: State, lines: seq<Bytes>) {
    forall k :: 0 <= k < |lines| ==> QuietLine(parse, s, lines[k])
  }

  lemma QuietTailSnoc(parse: Parser, s: State, init: seq<Bytes>, line: Bytes)
    ensures QuietTail(parse, s, init + [line]) <==> QuietTail(parse, s, init) && QuietLine(parse, s, line)
  {
    var lines := init + [line];
    assert forall k :: 0 <= k < |init| ==> init[k] == lines[k];
    assert lines[|init|] == line;
  }

  lemma {:induction false} QuietTailRun(parse: Parser, s: State, lines: seq<Bytes>)
    ensures QuietTail(parse, s, lines) <==> RunLines(parse, s, lines).out == []
    ensures QuietTail(parse, s, lines) ==>
            SameFooting(s, RunLines(parse, s, lines).s)
            && !RunLines(parse, s, lines).closed
  {
    if lines != [] {
      var init, line := lines[..|lines| - 1], lines[|lines| - 1];
      QuietTailRun(parse, s, init);
      assert lines == init + [line];
      QuietTailSnoc(parse, s, init, line);
      var p := RunLines(parse, s, init);
      if !p.closed { QuietStep(parse, p, line); }
      if QuietTail(parse, s, init) { QuietSame(parse, s, p.s, line); }
    }
  }

  /** `lines[k]` is the first error line, and the stream has not been closed before it. */
  ghost predicate FailsAt(parse: Parser, lines: seq<Bytes>, k: nat) {
    k < |lines| && NoErrorLine(parse, lines[..k]) && IsErrorLine(parse, lines[k])
    && !RunLines(parse, INITIAL, lines[..k]).closed
  }

  /** A stream fails at some line exactly when it has an error line before the end marker. */
  lemma {:induction false} FailsSomewhere(parse: Parser, lines: seq<Bytes>)
    ensures NoErrorLine(parse, lines) <==> !exists k: nat :: FailsAt(parse, lines, k)
    decreases |lines|
  {
    hide RunLines, IsErrorLine, Classify;
    if k: nat :| FailsAt(parse, lines, k) {
      OpenIsReached(parse, INITIAL, lines[..k]);
      assert Reached(lines, k) by { assert forall j :: 0 <= j < k ==> lines[..k][j] == lines[j]; }
    } else if lines != [] {
      var n := |lines| - 1;
      var init := lines[..n];
      forall k: nat | k < n ensures !FailsAt(parse, init, k) {
        assert init[..k] == lines[..k];
        assert !FailsAt(parse, lines, k);
      }
      FailsSomewhere(parse, init);
      forall k | 0 <= k < |lines| && Reached(lines, k) ensures !IsErrorLine(parse, lines[k]) {
        if k < n {
          assert Reached(init, k) by { assert forall j :: 0 <= j < k ==> init[j] == lines[j]; }
          assert !IsErrorLine(parse, init[k]);
        } else {
          ReachedIsOpen(parse, init, lines);
          assert !FailsAt(parse, lines, n);
        }
      }
    }
  }

  lemma ReachedIsOpen(parse: Parser, init: seq<Bytes>, lines: seq<Bytes>)
    requires init <= lines && Reached(lines, |init|)
    ensures !RunLines(parse, INITIAL, init).closed
  {
    assert forall j :: 0 <= j < |init| ==> init[j] == lines[j];
    NeverClosed(parse, INITIAL, init);
  }

  lemma {:induction false} NeverClosed(parse: Parser, s: State, lines: seq<Bytes>)
    requires Reached(lines, |lines|)
    ensures !RunLines(parse, s, lines).closed
  {
    if lines != [] {
      assert Reached(lines[..|lines| - 1], |lines| - 1);
      NeverClosed(parse, s, lines[..|lines| - 1]);
    }
  }

  /** State and events once the error line has been handled. */
  lemma AtError(parse: Parser, lines: seq<Bytes>, k: nat)
    requires FailsAt(parse, lines, k)
    ensures var p := RunLines(parse, INITIAL, lines[..k + 1]); p.s.done && !p.closed
  {
    assert lines[..k + 1] == lines[..k] + [lines[k]];
    RunLinesSnoc(parse, INITIAL, lines[..k], lines[k]);
  }

  lemma BeyondError(parse: Parser, lines: seq<Bytes>, k: nat, n: nat)
    requires FailsAt(parse, lines, k) && k < n <= |lines|
    ensures var p := RunLines(parse, INITIAL, lines[..k + 1]);
            var q := RunLines(parse, INITIAL, lines[..n]);
            && q.s.done
            && (QuietTail(parse, p.s, lines[k + 1..]) ==> q.out == p.out)
            && (n == |lines| && q.out == p.out ==> QuietTail(parse, p.s, lines[k + 1..]))
  {
    hide RunLines;
    var p := RunLines(parse, INITIAL, lines[..k + 1]);
    AtError(parse, lines, k);
    var tail := lines[k + 1..n];
    assert lines[..n] == lines[..k + 1] + tail;
    RunLinesAppend(parse, INITIAL, lines[..k + 1], tail);
    QuietTailRun(parse, p.s, tail);
    DoneStays(parse, p.s, tail);
    assert forall j :: 0 <= j < |tail| ==> tail[j] == lines[k + 1..][j];
    var t := RunLines(parse, p.s, tail);
    if p.out + t.out == p.out { assert |t.out| == 0; }
    if n == |lines| { assert tail == lines[k + 1..]; }
  }

  lemma {:induction false} DoneStays(parse: Parser, s: State, lines: seq<Bytes>)
    requires s.done
    ensures RunLines(parse, s, lines).s.done
  {
    if lines != [] {
      var init := lines[..|lines| - 1];
      DoneStays(parse, s, init);
      match Classify(lines[|lines| - 1]) {
        case Data(d) => if parse(d).Some? { RunKeepsDone(RunLines(parse, s, init).s, Atoms(parse(d).value)); }
        case _ =>
      }
    }
  }

  /**
   * Pieces of a failing stream: until the error line is complete they are in step; the call that
   * completes it also handles the rest of its piece; afterwards nothing more comes out.
   */
  lemma {:induction false} FeedsPastError(parse: Parser, chunks: seq<Bytes>, k: nat) returns (n: nat)
    requires FailsAt(parse, Lines(Concat(chunks)), k)
    ensures Ends(parse, chunks, k, n)
    decreases |chunks|
  {
    var init := chunks[..|chunks| - 1];
    var lines := Lines(Concat(chunks));
    LinesAppend(Concat(init), chunks[|chunks| - 1]);
    var m := |Lines(Concat(init))|;
    assert Lines(Concat(init)) == lines[..m];
    if k < m {
      assert lines[..m][..k] == lines[..k];
      n := FeedsPastError(parse, init, k);
      assert lines[..m][..n] == lines[..n];
      assert FeedAll(parse, init).out + [] == FeedAll(parse, init).out;
    } else {
      n := |lines|;
      PieceWithError(parse, chunks, k);
    }
  }

  lemma PieceWithError(parse: Parser, chunks: seq<Bytes>, k: nat)
    requires chunks != [] && FailsAt(parse, Lines(Concat(chunks)), k)
    requires |Lines(Concat(chunks[..|chunks| - 1]))| <= k
    ensures Ends(parse, chunks, k, |Lines(Concat(chunks))|)
  {
    var init := chunks[..|chunks| - 1];
    var last := chunks[|chunks| - 1];
    var data := Concat(init);
    var lines := Lines(Concat(chunks));
    LinesAppend(data, last);
    var m := |Lines(data)|;
    assert Lines(data) == lines[..k][..m];
    NoErrorPrefix(parse, lines[..k], m);
    hide RunLines, Classify, NoErrorLine;
    FeedsInStep(parse, init);
    NotClosedBefore(parse, lines[..k], m);
    DoneIsClosed(parse, INITIAL, Lines(data));
    FeedInStep(parse, FeedAll(parse, init), data, last);
    assert lines[..|lines|] == lines;
    BeyondError(parse, lines, k, |lines|);
  }

  ghost predicate Ends(parse: Parser, chunks: seq<Bytes>, k: nat, n: nat) {
    var lines := Lines(Concat(chunks));
    k < n <= |lines| &&
    var q := RunLines(parse, INITIAL, lines[..n]);
    q.s.done && FeedAll(parse, chunks).f.s.done && FeedAll(parse, chunks).out == q.out
  }

  lemma NotClosedBefore(parse: Parser, lines: seq<Bytes>, m: nat)
    requires m <= |lines| && !RunLines(parse, INITIAL, lines).closed
    ensures !RunLines(parse, INITIAL, lines[..m]).closed
  {
    assert lines == lines[..m] + lines[m..];
    RunLinesAppend(parse, INITIAL, lines[..m], lines[m..]);
  }

  lemma OnePiece(parse: Parser, p: Bytes)
    ensures var q := RunLines(parse, INITIAL, Lines(p)); FeedAll(parse, [p]) == Fed(Feeder(q.s, Rest(p)), q.out)
  {
    hide RunLines;
    assert [p][..0] == [] && [] + p == p;
    var q := RunLines(parse, INITIAL, Lines(p));
    assert [] + q.out == q.out;
    assert FeedAll(parse, []) == Fed(Feeder(INITIAL, []), []);
    assert FeedOnce(parse, Feeder(INITIAL, []), p) == Fed(Feeder(q.s, Rest(p)), q.out);
  }

  lemma NothingAfterDone(parse: Parser, p: Bytes, tail: Bytes)
    requires FeedAll(parse, [p]).f.s.done
    ensures FeedAll(parse, [p, tail]) == FeedAll(parse, [p])
  {
    assert [p, tail][..1] == [p];
    assert FeedAll(parse, [p]).out + [] == FeedAll(parse, [p]).out;
  }

  /** Cutting right behind the error line hides everything that follows it. */
  lemma CutBehindError(parse: Parser, b: Bytes, k: nat) returns (p: Bytes, tail: Bytes)
    requires FailsAt(parse, Lines(b), k)
    ensures b == p + tail && Concat([p, tail]) == b
    ensures Received(parse, [p, tail]) == RunLines(parse, INITIAL, Lines(b)[..k + 1]).out
  {
    hide RunLines, FeedAll;
    p, tail := LinesCut(b, k + 1);
    ConcatOne(p);
    assert [p, tail][..1] == [p];
    AtError(parse, Lines(b), k);
    hide FailsAt;
    OnePiece(parse, p);
    NothingAfterDone(parse, p, tail);
    assert FeedAll(parse, [p]).out + [] == FeedAll(parse, [p]).out;
  }

  lemma ReceivedWhole(parse: Parser, b: Bytes)
    requires RunLines(parse, INITIAL, Lines(b)).s.done
    ensures Received(parse, [b]) == RunLines(parse, INITIAL, Lines(b)).out
  {
    hide RunLines, FeedAll;
    OnePiece(parse, b);
    assert FeedAll(parse, [b]).out + [] == FeedAll(parse, [b]).out;
  }

  /**
   * A stream with an error chunk is received alike in all its cuttings if and only if no line
   * behind the error carries anything for the client.
   */
  lemma ErrorMakesPiecesMatter(parse: Parser, b: Bytes, k: nat)
    requires FailsAt(parse, Lines(b), k)
    ensures (forall chunks :: Concat(chunks) == b ==> Received(parse, chunks) == Received(parse, [b]))
            <==> QuietTail(parse, RunLines(parse, INITIAL, Lines(b)[..k + 1]).s, Lines(b)[k + 1..])
  {
    var lines := Lines(b);
    var p := RunLines(parse, INITIAL, lines[..k + 1]);
    assert lines[..|lines|] == lines;
    BeyondError(parse, lines, k, |lines|);
    ReceivedWhole(parse, b);
    if QuietTail(parse, p.s, lines[k + 1..]) {
      forall chunks | Concat(chunks) == b ensures Received(parse, chunks) == Received(parse, [b]) {
        var n := FeedsPastError(parse, chunks, k);
        BeyondError(parse, lines, k, n);
      }
    } else {
      var head, tail := CutBehindError(parse, b, k);
      assert Received(parse, [head, tail]) != Received(parse, [b]);
    }
  }
}
