/** Message heads and the framing they declare; well-formed bodies are relayed exactly. */
module HttpHead {
  import opened Prelude
  import opened ByteLines
  import opened HttpFramer

  // ---- heads ----------------------------------------------------------------------------------

  datatype Head = Head(start: Bytes, headers: seq<Bytes>)
  datatype HeadRead = NoMessage | Got(head: Head, taken: nat) | TooLong | MidHeaders

  /** Header lines through the blank one, `total` bytes of the head having been read before. */
  datatype LinesRead = Lines(headers: seq<Bytes>, taken: nat) | NoLines(tooLong: bool)

  /** What a line means for the head, `total` bytes having been read before it. */
  datatype LineStep = TooMuch | Cut | Closing | Header

  function Weigh(line: Bytes, total: nat): (s: LineStep)
    ensures s.Header? ==> |line| > 0
  {
    if total + |line| > MAX_HEAD_BYTES then TooMuch
    else if |line| == 0 then Cut
    else if Blank(line) then Closing
    else Header
  }

  function ReadLines(data: Bytes, total: nat): (r: LinesRead)
    ensures r.Lines? ==> r.taken <= |data|
    decreases |data|
  {
    var n := LineLen(data);
    match Weigh(data[..n], total)
    case TooMuch => NoLines(true)
    case Cut => NoLines(false)
    case Closing => Lines([], n)
    case Header => Before([data[..n]], n, ReadLines(data[n..], total + n))
  }

  /** One header line further. */
  lemma ReadLinesStep(data: Bytes, total: nat, line: Bytes, more: Bytes)
    requires line == data[..LineLen(data)] && more == data[|line|..] && Weigh(line, total).Header?
    ensures ReadLines(data, total) == Before([line], |line|, ReadLines(more, total + |line|))
  {
  }

  /** Lines read earlier, put in front. */
  function Before(headers: seq<Bytes>, taken: nat, r: LinesRead): LinesRead {
    match r
    case Lines(more, t) => Lines(headers + more, taken + t)
    case NoLines(_) => r
  }

  lemma BeforeBefore(a: seq<Bytes>, m: nat, b: seq<Bytes>, n: nat, r: LinesRead)
    ensures Before(a, m, Before(b, n, r)) == Before(a + b, m + n, r)
  {
    if r.Lines? { assert a + (b + r.headers) == (a + b) + r.headers; }
  }

  function ReadHead(data: Bytes): HeadRead {
    if data == [] then NoMessage
    else
      var n := LineLen(data);
      match ReadLines(data[n..], n)
      case Lines(headers, t) => Got(Head(data[..n], headers), n + t)
      case NoLines(tooLong) => if tooLong then TooLong else MidHeaders
  }

  lemma ReadLinesStop(data: Bytes, total: nat, line: Bytes)
    requires line == data[..LineLen(data)] && !Weigh(line, total).Header?
    ensures ReadLines(data, total) ==
            if Weigh(line, total).Closing? then Lines([], |line|)
            else NoLines(Weigh(line, total).TooMuch?)
  {
  }

  lemma TailOf(data: Bytes, n: nat, m: nat)
    requires n + m <= |data|
    ensures data[n..][m..] == data[n + m..]
  {
  }

  method ReadLinesFrom(src: Source, sofar: nat) returns (r: LinesRead)
    modifies src
    ensures r == ReadLines(old(src.data), sofar)
    ensures r.Lines? ==> src.data == old(src.data)[r.taken..]
  {
    hide ReadLines;
    ghost var data := src.data;
    ghost var goal := ReadLines(data, sofar);
    var n: nat := 0;
    var headers: seq<Bytes> := [];
    assert goal.Lines? ==> [] + goal.headers == goal.headers;
    while true
      invariant n <= |data| && src.data == data[n..]
      invariant goal == Before(headers, n, ReadLines(src.data, sofar + n))
      decreases |src.data|
    {
      ghost var left := src.data;
      var line := src.ReadLine();
      TailOf(data, n, |line|);
      var step := Weigh(line, sofar + n);
      if !step.Header? {
        ReadLinesStop(left, sofar + n, line);
        assert headers + [] == headers;
        return if step.Closing? then Lines(headers, n + |line|) else NoLines(step.TooMuch?);
      }
      ReadLinesStep(left, sofar + n, line, src.data);
      BeforeBefore(headers, n, [line], |line|, ReadLines(src.data, sofar + n + |line|));
      n := n + |line|;
      headers := headers + [line];
    }
  }

  method ReadHeadFrom(src: Source) returns (r: HeadRead)
    modifies src
    ensures r == ReadHead(old(src.data))
    ensures r.Got? ==> r.taken <= |old(src.data)| && src.data == old(src.data)[r.taken..]
  {
    var start := src.ReadLine();
    if |start| == 0 { return NoMessage; }
    var ls := ReadLinesFrom(src, |start|);
    match ls {
      case Lines(headers, t) => return Got(Head(start, headers), |start| + t);
      case NoLines(tooLong) => return if tooLong then TooLong else MidHeaders;
    }
  }

  /** The bytes of a head that ends with this blank line. */
  function HeadBytes(h: Head, blank: Bytes): Bytes { h.start + Concat(h.headers) + blank }

  ghost predicate PlainLines(lines: seq<Bytes>) {
    forall k :: 0 <= k < |lines| ==> IsLine(lines[k]) && !Blank(lines[k])
  }

  lemma ConcatCons(x: Bytes, more: seq<Bytes>)
    ensures Concat([x] + more) == x + Concat(more)
  {
    ConcatAppend([x], more);
    ConcatSnoc([], x);
    assert [] + [x] == [x] && [] + x == x;
  }

  lemma BlankIsLine(blank: Bytes)
    requires Blank(blank)
    ensures IsLine(blank)
  {
    FindUnique(blank, '\n', |blank| - 1);
  }

  lemma BlankExact(data: Bytes, blank: Bytes, rest: Bytes, total: nat)
    requires Blank(blank) && data == blank + rest && total + |blank| <= MAX_HEAD_BYTES
    ensures ReadLines(data, total) == Lines([], |blank|)
  {
    BlankIsLine(blank);
    LineFirst(blank, rest);
    ReadLinesStop(data, total, blank);
  }

  lemma LineExact(data: Bytes, line: Bytes, tail: Bytes, total: nat)
    requires IsLine(line) && !Blank(line) && data == line + tail && total + |line| <= MAX_HEAD_BYTES
    ensures ReadLines(data, total) == Before([line], |line|, ReadLines(tail, total + |line|))
  {
    LineFirst(line, tail);
    ReadLinesStep(data, total, line, tail);
  }

  lemma {:induction false} LinesExact(data: Bytes, lines: seq<Bytes>, blank: Bytes, rest: Bytes, total: nat)
    requires PlainLines(lines) && Blank(blank)
    requires data == Concat(lines) + (blank + rest) && total + |Concat(lines)| + |blank| <= MAX_HEAD_BYTES
    ensures ReadLines(data, total) == Lines(lines, |Concat(lines)| + |blank|)
    decreases |lines|
  {
    hide ReadLines;
    if lines == [] {
      assert data == blank + rest;
      BlankExact(data, blank, rest, total);
    } else {
      var line, more := lines[0], lines[1..];
      assert lines == [line] + more && forall k :: 0 <= k < |more| ==> more[k] == lines[k + 1];
      ConcatCons(line, more);
      Regroup(line, Concat(more), blank + rest);
      var tail := Concat(more) + (blank + rest);
      LineExact(data, line, tail, total);
      LinesExact(tail, more, blank, rest, total + |line|);
    }
  }

  lemma Regroup(a: Bytes, b: Bytes, c: Bytes)
    ensures (a + b) + c == a + (b + c)
  {
  }

  lemma ReadHeadOf(data: Bytes, start: Bytes, tail: Bytes)
    requires data == start + tail && IsLine(start)
    ensures ReadHead(data) == match ReadLines(tail, |start|)
                              case Lines(headers, t) => Got(Head(start, headers), |start| + t)
                              case NoLines(tooLong) => if tooLong then TooLong else MidHeaders
  {
    LineFirst(start, tail);
  }

  /** A well-formed head is read as it is, and not a byte more. */
  lemma HeadExact(h: Head, blank: Bytes, rest: Bytes)
    requires IsLine(h.start) && PlainLines(h.headers) && Blank(blank) && |HeadBytes(h, blank)| <= MAX_HEAD_BYTES
    ensures ReadHead(HeadBytes(h, blank) + rest) == Got(h, |HeadBytes(h, blank)|)
  {
    var tail := Concat(h.headers) + (blank + rest);
    Regroup(h.start + Concat(h.headers), blank, rest);
    Regroup(h.start, Concat(h.headers), blank + rest);
    ReadHeadOf(HeadBytes(h, blank) + rest, h.start, tail);
    LinesExact(tail, h.headers, blank, rest, |h.start|);
  }

  /** Conversely, lines that were read are exactly the bytes that were consumed. */
  lemma {:induction false} LinesReadBack(data: Bytes, total: nat) returns (blank: Bytes)
    requires ReadLines(data, total).Lines?
    ensures var r := ReadLines(data, total); Blank(blank) && data[..r.taken] == Concat(r.headers) + blank
    decreases |data|
  {
    var n := LineLen(data);
    var line, rest := data[..n], data[n..];
    if Weigh(line, total).Closing? {
      blank := line;
      assert [] + blank == blank;
    } else {
      ReadLinesStep(data, total, line, rest);
      blank := LinesReadBack(rest, total + n);
      var r := ReadLines(rest, total + n);
      ConcatCons(line, r.headers);
      SplitTaken(data, n, r.taken);
      Regroup(line, Concat(r.headers), blank);
    }
  }

  lemma NoLinesToRead(total: nat)
    ensures !ReadLines([], total).Lines?
  {
  }

  /** A line with lines to be read behind it is a whole line. */
  lemma WholeLine(data: Bytes, total: nat)
    requires data != [] && ReadLines(data[LineLen(data)..], total).Lines?
    ensures IsLine(data[..LineLen(data)])
  {
    hide ReadLines;
    var n := LineLen(data);
    var rest := data[n..];
    NoLinesToRead(total);
    assert Find(data, '\n') < 0 ==> rest == [];
    FindUnique(data[..n], '\n', n - 1);
  }

  lemma {:induction false} LinesArePlain(data: Bytes, total: nat)
    requires ReadLines(data, total).Lines?
    ensures PlainLines(ReadLines(data, total).headers)
    decreases |data|
  {
    hide ReadLines, IsLine;
    var n := LineLen(data);
    if Weigh(data[..n], total).Header? {
      ReadLinesStep(data, total, data[..n], data[n..]);
      LinesArePlain(data[n..], total + n);
      WholeLine(data, total + n);
    } else {
      ReadLinesStop(data, total, data[..n]);
    }
  }

  lemma SplitTaken(data: Bytes, n: nat, m: nat)
    requires n + m <= |data|
    ensures data[..n + m] == data[..n] + data[n..][..m]
  {
  }

  lemma HeadReadBack(data: Bytes) returns (blank: Bytes)
    requires ReadHead(data).Got?
    ensures IsLine(ReadHead(data).head.start) && PlainLines(ReadHead(data).head.headers)
    ensures var r := ReadHead(data);
            r.taken <= |data| && Blank(blank) && data[..r.taken] == HeadBytes(r.head, blank) && 0 < r.taken
  {
    var n := LineLen(data);
    blank := LinesReadBack(data[n..], n);
    LinesArePlain(data[n..], n);
    WholeLine(data, n);
    var ls := ReadLines(data[n..], n);
    SplitTaken(data, n, ls.taken);
    assert data[..n] + (Concat(ls.headers) + blank) == data[..n] + Concat(ls.headers) + blank;
  }

  // ---- framing headers ------------------------------------------------------------------------

  predicate TextSpace(c: char) {
    IsSpace(c) || '\U{1C}' <= c <= '\U{1F}' || c == '\U{85}' || c == '\U{A0}'
  }

  function TextStrip(b: Bytes): Bytes
    decreases |b|
  {
    if b != [] && TextSpace(b[0]) then TextStrip(b[1..])
    else if b != [] && TextSpace(b[|b| - 1]) then TextStrip(b[..|b| - 1])
    else b
  }

  /** `lower`, on text of one byte a character. */
  function LowerChar(c: char): char {
    if 'A' <= c <= 'Z' || ('\U{C0}' <= c <= '\U{DE}' && c != '\U{D7}') then (c as int + 32) as char else c
  }

  function Lower(b: Bytes): Bytes { seq(|b|, i requires 0 <= i < |b| => LowerChar(b[i])) }

  /** `split_header`: name in lower case, or none when there is no colon. */
  function HeaderName(raw: Bytes): Option<Bytes> {
    var c := Find(raw, ':');
    if c < 0 then None else Some(Lower(TextStrip(raw[..c])))
  }

  function HeaderValue(raw: Bytes): Bytes {
    var c := Find(raw, ':');
    if c < 0 then "" else TextStrip(raw[c + 1..])
  }

  predicate Mentions(value: Bytes, word: Bytes) { 0 <= FindSub(Lower(value), word, 0) }

  datatype Framing = Framing(contentLength: Option<int>, chunked: bool, close: bool)
  datatype Scan = Scan(f: Framing, sawLength: bool, bad: bool)

  const UNFRAMED := Framing(None, false, false)

  function FramingStep(s: Scan, raw: Bytes): Scan {
    var name := HeaderName(raw);
    var v := HeaderValue(raw);
    if s.bad || name == None then s
    else if name.value == "content-length" then
      if s.sawLength || PyInt(v, 10) == None then s.(bad := true)
      else Scan(s.f.(contentLength := PyInt(v, 10)), true, false)
    else if name.value == "transfer-encoding" && Mentions(v, "chunked") then s.(f := s.f.(chunked := true))
    else if name.value == "connection" && Mentions(v, "close") then s.(f := s.f.(close := true))
    else s
  }

  function ScanFraming(headers: seq<Bytes>): Scan {
    if headers == [] then Scan(UNFRAMED, false, false)
    else FramingStep(ScanFraming(headers[..|headers| - 1]), headers[|headers| - 1])
  }

  /** The declared framing; none when lengths are repeated, unreadable or contradict chunking. */
  function ParseFraming(headers: seq<Bytes>): Option<Framing> {
    var s := ScanFraming(headers);
    if s.bad || (s.sawLength && s.f.chunked) then None else Some(s.f)
  }

  lemma ScanSnoc(headers: seq<Bytes>, k: nat)
    requires k < |headers|
    ensures ScanFraming(headers[..k + 1]) == FramingStep(ScanFraming(headers[..k]), headers[k])
  {
    assert headers[..k + 1][..k] == headers[..k];
  }

  lemma ScanNothing()
    ensures ScanFraming([]) == Scan(UNFRAMED, false, false)
  {
  }

  method ParseFramingOf(headers: seq<Bytes>) returns (r: Option<Framing>)
    ensures r == ParseFraming(headers)
  {
    hide HeaderName, HeaderValue, Mentions, PyInt, ScanFraming;
    ScanNothing();
    assert headers[..0] == [];
    var length: Option<int>, saw, chunked, close := None, false, false, false;
    for k := 0 to |headers|
      invariant ScanFraming(headers[..k]) == Scan(Framing(length, chunked, close), saw, false)
    {
      ScanSnoc(headers, k);
      var name, v := HeaderName(headers[k]), HeaderValue(headers[k]);
      if name.Some? {
        if name.value == "content-length" {
          if saw || PyInt(v, 10) == None {
            BadStays(headers, k + 1);
            return None;
          }
          saw, length := true, PyInt(v, 10);
        } else if name.value == "transfer-encoding" && Mentions(v, "chunked") {
          chunked := true;
        } else if name.value == "connection" && Mentions(v, "close") {
          close := true;
        }
      }
    }
    assert headers[..|headers|] == headers;
    r := if saw && chunked then None else Some(Framing(length, chunked, close));
  }

  lemma {:induction false} BadStays(headers: seq<Bytes>, n: nat)
    requires n <= |headers| && ScanFraming(headers[..n]).bad
    ensures ScanFraming(headers).bad
    decreases |headers|
  {
    if n < |headers| {
      assert headers[..|headers| - 1][..n] == headers[..n];
      BadStays(headers[..|headers| - 1], n);
    } else {
      assert headers[..n] == headers;
    }
  }

  // ---- well-formed chunked bodies (section 7.1 of RFC 9112) --------------------------------------

  /** A chunk: its size in hexadecimal, an extension that may be empty, its data. */
  datatype ChunkText = ChunkText(digits: Bytes, ext: Bytes, data: Bytes)
  datatype ChunkedText = ChunkedText(chunks: seq<ChunkText>, zeros: Bytes, ext: Bytes, trailers: seq<Bytes>)

  ghost predicate IsSize(digits: Bytes, ext: Bytes, n: nat) {
    && digits != [] && (forall k :: 0 <= k < |digits| ==> Digit(digits[k]) < 16) && HexValue(digits) == n
    && (ext == [] || ext[0] == ';') && (forall k :: 0 <= k < |ext| ==> ext[k] != '\n')
  }

  ghost predicate WellFormed(b: ChunkedText) {
    && (forall k :: 0 <= k < |b.chunks| ==>
        IsSize(b.chunks[k].digits, b.chunks[k].ext, |b.chunks[k].data|) && b.chunks[k].data != [])
    && IsSize(b.zeros, b.ext, 0)
    && PlainLines(b.trailers)
  }

  function SizeLine(digits: Bytes, ext: Bytes): Bytes { digits + ext + "\r\n" }
  function ChunkBytes(c: ChunkText): Bytes { SizeLine(c.digits, c.ext) + c.data + "\r\n" }

  function LastBytes(b: ChunkedText): Bytes { SizeLine(b.zeros, b.ext) + (Concat(b.trailers) + "\r\n") }

  function BodyBytes(chunks: seq<ChunkText>, last: Bytes): Bytes {
    if chunks == [] then last else ChunkBytes(chunks[0]) + BodyBytes(chunks[1..], last)
  }

  lemma HexIsNoSpace(c: char)
    requires Digit(c) < 16
    ensures !IsSpace(c) && c != '-' && c != '+' && c != ';' && c != '\n' && c != '_'
  {
  }

  lemma StripSize(digits: Bytes)
    requires digits != [] && forall k :: 0 <= k < |digits| ==> Digit(digits[k]) < 16
    ensures PyInt(digits, 16) == Some(HexValue(digits)) && PyInt(digits + "\r\n", 16) == Some(HexValue(digits))
  {
    HexIsNoSpace(digits[0]);
    HexIsNoSpace(digits[|digits| - 1]);
    PlainHex(digits);
    var b := digits + "\r\n";
    assert LStrip(b) == b && LStrip(digits) == digits;
    assert b[..|b| - 1] == digits + "\r" && (digits + "\r")[..|digits|] == digits;
    assert RStrip(digits + "\r") == RStrip(digits) == digits;
  }

  /** A size line is one line and reads as its size. */
  lemma SizeLineReads(digits: Bytes, ext: Bytes, n: nat)
    requires IsSize(digits, ext, n)
    ensures IsLine(SizeLine(digits, ext)) && PyInt(SizeToken(SizeLine(digits, ext)), 16) == Some(n)
  {
    var line := SizeLine(digits, ext);
    forall k | 0 <= k < |digits| ensures line[k] != '\n' && line[k] != ';' {
      HexIsNoSpace(digits[k]);
      assert line[k] == digits[k];
    }
    forall k | |digits| <= k < |line| - 1 ensures line[k] != '\n' {
      if k < |line| - 2 { assert line[k] == ext[k - |digits|]; }
    }
    FindUnique(line, '\n', |line| - 1);
    StripSize(digits);
    if ext == [] {
      assert line == digits + "\r\n";
      assert Find(line, ';') == -1;
    } else {
      FindUnique(line, ';', |digits|);
      assert line[..|digits|] == digits;
    }
  }

  lemma {:induction false} TrailersExact(lines: seq<Bytes>, rest: Bytes)
    requires PlainLines(lines)
    ensures Trailers(Concat(lines) + "\r\n" + rest) == Relay(|Concat(lines)| + 2, true)
  {
    if lines == [] {
      var blank: Bytes := "\r\n";
      assert IsLine(blank) by { FindUnique(blank, '\n', 1); }
      LineFirst(blank, rest);
      assert Concat(lines) + blank + rest == blank + rest;
    } else {
      var line, more := lines[0], lines[1..];
      ConcatCons(line, more);
      assert lines == [line] + more;
      var tail := Concat(more) + "\r\n" + rest;
      assert Concat(lines) + "\r\n" + rest == line + tail;
      LineFirst(line, tail);
      assert forall k :: 0 <= k < |more| ==> more[k] == lines[k + 1];
      TrailersExact(more, rest);
    }
  }

  lemma LastExact(b: ChunkedText, rest: Bytes)
    requires IsSize(b.zeros, b.ext, 0) && PlainLines(b.trailers)
    ensures Chunked(LastBytes(b) + rest) == Relay(|LastBytes(b)|, true)
  {
    var line := SizeLine(b.zeros, b.ext);
    var tail := Concat(b.trailers) + "\r\n" + rest;
    SizeLineReads(b.zeros, b.ext, 0);
    assert LastBytes(b) + rest == line + tail;
    LineFirst(line, tail);
    TrailersExact(b.trailers, rest);
  }

  lemma DataPartExact(data: Bytes, more: Bytes)
    requires data != []
    ensures DataPart(data + ("\r\n" + more), |data|) == Part.More(|data| + 2)
  {
    var end: Bytes := "\r\n";
    var left := data + (end + more);
    assert left[|data|..] == end + more;
    assert IsLine(end) by { FindUnique(end, '\n', 1); }
    LineFirst(end, more);
  }

  lemma ChunkPartOf(line: Bytes, left: Bytes, size: nat)
    requires IsLine(line) && PyInt(SizeToken(line), 16) == Some(size) && size > 0 && DataPart(left, size).More?
    ensures ChunkPart(line + left) == Part.More(|line| + DataPart(left, size).taken)
  {
    hide DataPart, SizeToken, PyInt;
    LineFirst(line, left);
    assert (line + left)[..|line|] == line && (line + left)[|line|..] == left;
  }

  lemma ChunkPartExact(c: ChunkText, more: Bytes)
    requires IsSize(c.digits, c.ext, |c.data|) && c.data != []
    ensures ChunkPart(ChunkBytes(c) + more) == Part.More(|ChunkBytes(c)|)
  {
    hide ChunkPart, DataPart, SizeToken, PyInt, SizeLine, IsSize;
    var line := SizeLine(c.digits, c.ext);
    SizeLineReads(c.digits, c.ext, |c.data|);
    DataPartExact(c.data, more);
    ChunkPartOf(line, c.data + ("\r\n" + more), |c.data|);
    assert ChunkBytes(c) + more == line + (c.data + ("\r\n" + more));
  }

  lemma ChunkedGoesOn(data: Bytes, n: nat)
    requires ChunkPart(data) == Part.More(n)
    ensures n <= |data| && Chunked(data) == Plus(n, Chunked(data[n..]))
  {
  }

  lemma ChunkExact(c: ChunkText, more: Bytes)
    requires IsSize(c.digits, c.ext, |c.data|) && c.data != []
    ensures Chunked(ChunkBytes(c) + more) == Plus(|ChunkBytes(c)|, Chunked(more))
  {
    hide Chunked, ChunkPart, ChunkBytes;
    ChunkPartExact(c, more);
    ChunkedGoesOn(ChunkBytes(c) + more, |ChunkBytes(c)|);
    assert (ChunkBytes(c) + more)[|ChunkBytes(c)|..] == more;
  }

  /**
   * On a stream that starts with a well-formed chunked body, the relay takes exactly that body,
   * reports success and leaves everything behind it.
   */
  lemma {:induction false} WellFormedChunkedExact(b: ChunkedText, rest: Bytes)
    requires WellFormed(b)
    ensures Chunked(BodyBytes(b.chunks, LastBytes(b)) + rest) == Relay(|BodyBytes(b.chunks, LastBytes(b))|, true)
    decreases |b.chunks|
  {
    if b.chunks == [] {
      LastExact(b, rest);
    } else {
      var c, more := b.chunks[0], b.(chunks := b.chunks[1..]);
      assert forall k :: 0 <= k < |more.chunks| ==> more.chunks[k] == b.chunks[k + 1];
      WellFormedChunkedExact(more, rest);
      assert LastBytes(more) == LastBytes(b);
      var tail := BodyBytes(more.chunks, LastBytes(b));
      assert ChunkBytes(c) + tail + rest == ChunkBytes(c) + (tail + rest);
      ChunkExact(c, tail + rest);
    }
  }
}
