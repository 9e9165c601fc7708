/** Delimiting plain HTTP/1.1 messages: heads, framing headers, counted and chunked bodies. */
module HttpFramer {
  import opened Prelude
  import opened ByteLines

  const CHUNK: nat := 65536
  const MAX_HEAD_BYTES: nat := 64 * 1024

  // ---- numbers as Python reads them -----------------------------------------------------------

  function Digit(c: char): int {
    if '0' <= c <= '9' then c as int - '0' as int
    else if 'a' <= c <= 'z' then c as int - 'a' as int + 10
    else if 'A' <= c <= 'Z' then c as int - 'A' as int + 10
    else 99
  }

  /** Digits of a base with single underscores between them; `after` says a digit came just before. */
  function Digits(s: Bytes, base: nat, acc: nat, after: bool): Option<nat>
    decreases |s|
  {
    if s == [] then if after then Some(acc) else None
    else if s[0] == '_' then if after then Digits(s[1..], base, acc, false) else None
    else if Digit(s[0]) < base then Digits(s[1..], base, acc * base + Digit(s[0]), true)
    else None
  }

  function Unsigned(s: Bytes, base: nat): Option<nat> {
    if base == 16 && |s| >= 2 && s[0] == '0' && (s[1] == 'x' || s[1] == 'X') then
      if |s| >= 3 && s[2] == '_' then Digits(s[3..], base, 0, false) else Digits(s[2..], base, 0, false)
    else Digits(s, base, 0, false)
  }

  function Signed(n: Option<nat>, sign: int): Option<int> {
    if n == None then None else Some(sign * n.value)
  }

  /** `int(b, base)`: surrounding blanks, a sign and underscores are accepted. */
  function PyInt(b: Bytes, base: nat): Option<int> {
    var s := Strip(b);
    if |s| > 0 && s[0] == '-' then Signed(Unsigned(s[1..], base), -1)
    else if |s| > 0 && s[0] == '+' then Signed(Unsigned(s[1..], base), 1)
    else Signed(Unsigned(s, base), 1)
  }

  /** The value of plain digits, as section 7.1 of RFC 9112 means a chunk size. */
  function HexValue(s: Bytes): nat
    requires forall k :: 0 <= k < |s| ==> 0 <= Digit(s[k]) < 16
  {
    if s == [] then 0 else HexValue(s[..|s| - 1]) * 16 + Digit(s[|s| - 1])
  }

  lemma {:induction false} DigitsAreHex(s: Bytes, done: Bytes)
    requires forall k :: 0 <= k < |s| ==> Digit(s[k]) < 16
    requires forall k :: 0 <= k < |done| ==> Digit(done[k]) < 16
    ensures done + s != [] ==> Digits(s, 16, HexValue(done), done != []) == Some(HexValue(done + s))
    decreases |s|
  {
    if s == [] {
      assert done + s == done;
    } else {
      assert s[0] != '_';
      assert (done + [s[0]])[..|done|] == done;
      assert (done + [s[0]]) + s[1..] == done + s;
      DigitsAreHex(s[1..], done + [s[0]]);
    }
  }

  /** Plain hexadecimal digits read as their value. */
  lemma PlainHex(s: Bytes)
    requires s != [] && forall k :: 0 <= k < |s| ==> Digit(s[k]) < 16
    ensures Unsigned(s, 16) == Some(HexValue(s))
  {
    if |s| >= 2 { assert Digit(s[1]) < 16; }
    assert [] + s == s;
    DigitsAreHex(s, []);
    assert Digits(s, 16, HexValue([]), false) == Some(HexValue(s));
  }

  // ---- lines ----------------------------------------------------------------------------------

  /** Length of what `readline` returns: through the first newline, or all there is. */
  function LineLen(data: Bytes): (n: nat)
    ensures n <= |data| && (data != [] ==> 0 < n)
  {
    var nl := Find(data, '\n');
    if nl < 0 then |data| else nl + 1
  }

  /** A whole line: one newline, at its end. */
  ghost predicate IsLine(line: Bytes) {
    line != [] && Find(line, '\n') == |line| - 1
  }

  lemma LineFirst(line: Bytes, more: Bytes)
    requires IsLine(line)
    ensures LineLen(line + more) == |line| && (line + more)[..|line|] == line && (line + more)[|line|..] == more
  {
    FindInPrefix(line, more, '\n');
  }

  predicate Blank(line: Bytes) { line == "\r\n" || line == "\n" }

  // ---- streams --------------------------------------------------------------------------------

  /** What is still to come on an incoming stream; reads may return any part of it. */
  class Source {
    var data: Bytes

    constructor (data: Bytes)
      ensures this.data == data
    {
      this.data := data;
    }

    method ReadLine() returns (line: Bytes)
      modifies this
      ensures line == old(data)[..LineLen(old(data))] && data == old(data)[|line|..]
    {
      var n := LineLen(data);
      line, data := data[..n], data[n..];
    }

    /** At most `max` bytes, at least one unless the stream has ended. */
    method Read(max: nat) returns (chunk: Bytes)
      requires 0 < max
      modifies this
      ensures |chunk| <= max && |chunk| <= |old(data)| && chunk == old(data)[..|chunk|] && data == old(data)[|chunk|..]
      ensures chunk == [] <==> old(data) == []
    {
      if |data| == 0 { return []; }
      var n: nat := *;
      if !(1 <= n <= max && n <= |data|) { n := 1; }
      chunk := data[..n];
      data := data[n..];
    }
  }

  class Sink {
    var written: Bytes

    constructor ()
      ensures written == []
    {
      written := [];
    }

    method Write(b: Bytes)
      modifies this
      ensures written == old(written) + b
    {
      written := written + b;
    }
  }

  // ---- bodies ---------------------------------------------------------------------------------

  datatype Relay = Relay(taken: nat, ok: bool)

  /** A counted body: all of it, or whatever there is. A negative count is no body. */
  function Fixed(data: Bytes, length: int): (r: Relay)
    ensures r.taken <= |data|
  {
    if length <= 0 then Relay(0, true) else if length <= |data| then Relay(length, true) else Relay(|data|, false)
  }

  function SizeToken(line: Bytes): Bytes {
    var semi := Find(line, ';');
    if semi < 0 then line else line[..semi]
  }

  /** Trailer lines through the blank one. */
  function Trailers(data: Bytes): (r: Relay)
    ensures r.taken <= |data|
    decreases |data|
  {
    if data == [] then Relay(0, false)
    else
      var n := LineLen(data);
      if Blank(data[..n]) then Relay(n, true)
      else var r := Trailers(data[n..]); Relay(n + r.taken, r.ok)
  }

  /** One round of the chunk loop: it ends the relay, or hands on to the next chunk. */
  datatype Part = Stop(taken: nat, ok: bool) | More(taken: nat)

  function ChunkPart(data: Bytes): (p: Part)
    ensures p.taken <= |data| && (p.More? ==> 0 < p.taken)
  {
    if data == [] then Stop(0, false)
    else
      var n := LineLen(data);
      match PyInt(SizeToken(data[..n]), 16)
      case None => Stop(n, false)
      case Some(size) =>
        if size == 0 then var t := Trailers(data[n..]); Stop(n + t.taken, t.ok)
        else
          var d := DataPart(data[n..], size);
          if d.More? then More(n + d.taken) else Stop(n + d.taken, false)
  }

  function Plus(n: nat, r: Relay): Relay { Relay(n + r.taken, r.ok) }

  /** A chunked body as it is relayed: how far into the stream, and whether it ended properly. */
  function Chunked(data: Bytes): (r: Relay)
    ensures r.taken <= |data|
    decreases |data|
  {
    match ChunkPart(data)
    case Stop(n, ok) => Relay(n, ok)
    case More(n) => Plus(n, Chunked(data[n..]))
  }

  /** What has been relayed so far is exactly what has been consumed so far. */
  ghost predicate InStep(data: Bytes, n: nat, left: Bytes, before: Bytes, written: Bytes) {
    n <= |data| && left == data[n..] && written == before + data[..n]
  }

  lemma StepOn(data: Bytes, n: nat, left: Bytes, before: Bytes, written: Bytes, m: nat)
    requires InStep(data, n, left, before, written) && m <= |left|
    ensures InStep(data, n + m, left[m..], before, written + left[..m])
  {
    assert data[..n] + left[..m] == data[..n + m];
    assert before + data[..n] + left[..m] == before + (data[..n] + left[..m]);
  }

  method RelayFixed(src: Source, dst: Sink, length: int) returns (ok: bool)
    modifies src, dst
    ensures var r := Fixed(old(src.data), length);
            ok == r.ok && src.data == old(src.data)[r.taken..]
            && dst.written == old(dst.written) + old(src.data)[..r.taken]
  {
    ghost var data := src.data;
    ghost var n: nat := 0;
    assert dst.written + data[..0] == dst.written;
    var remaining := length;
    while remaining > 0
      invariant remaining == length - n && (n > 0 ==> n <= length)
      invariant InStep(data, n, src.data, old(dst.written), dst.written)
      decreases |src.data|
    {
      ghost var left := src.data;
      var chunk := src.Read(if CHUNK < remaining then CHUNK else remaining);
      if chunk == [] { return false; }
      StepOn(data, n, left, old(dst.written), dst.written, |chunk|);
      dst.Write(chunk);
      remaining := remaining - |chunk|;
      n := n + |chunk|;
    }
    ok := true;
  }

  method RelayTrailers(src: Source, dst: Sink) returns (ok: bool)
    modifies src, dst
    ensures var r := Trailers(old(src.data));
            ok == r.ok && src.data == old(src.data)[r.taken..]
            && dst.written == old(dst.written) + old(src.data)[..r.taken]
  {
    ghost var data := src.data;
    ghost var n: nat := 0;
    ghost var goal := Trailers(data);
    assert dst.written + data[..0] == dst.written;
    while true
      invariant InStep(data, n, src.data, old(dst.written), dst.written)
      invariant goal == Plus(n, Trailers(src.data))
      decreases |src.data|
    {
      ghost var left := src.data;
      var t := src.ReadLine();
      if |t| == 0 { return false; }
      StepOn(data, n, left, old(dst.written), dst.written, |t|);
      dst.Write(t);
      n := n + |t|;
      if Blank(t) { return true; }
    }
  }

  /** One chunk: size line, data, line end. `more` says that the loop goes on. */
  method RelayPart(src: Source, dst: Sink) returns (more: bool, ok: bool)
    modifies src, dst
    ensures var p := ChunkPart(old(src.data));
            && more == p.More? && (p.Stop? ==> ok == p.ok)
            && InStep(old(src.data), p.taken, src.data, old(dst.written), dst.written)
  {
    ghost var data := src.data;
    ghost var before := dst.written;
    assert before + data[..0] == before;
    var line := src.ReadLine();
    if |line| == 0 { return false, false; }
    StepOn(data, 0, data, before, before, |line|);
    dst.Write(line);
    ghost var n := |line|;
    var size := PyInt(SizeToken(line), 16);
    if size == None { return false, false; }
    if size.value == 0 {
      StepOn(data, n, src.data, before, dst.written, Trailers(src.data).taken);
      ok := RelayTrailers(src, dst);
      return false, ok;
    }
    more := RelayChunkData(src, dst, size.value);
    StepOn(data, n, data[n..], before, before + data[..n], ChunkPart(data).taken - n);
    return more, more;
  }

  /** The data of one chunk and the line end behind it. */
  function DataPart(data: Bytes, size: int): (p: Part)
    ensures p.taken <= |data|
  {
    var body := Fixed(data, size);
    if !body.ok || body.taken == |data| then Stop(body.taken, false)
    else More(body.taken + LineLen(data[body.taken..]))
  }

  method RelayChunkData(src: Source, dst: Sink, size: int) returns (more: bool)
    modifies src, dst
    ensures var p := DataPart(old(src.data), size);
            && more == p.More?
            && src.data == old(src.data)[p.taken..] && dst.written == old(dst.written) + old(src.data)[..p.taken]
  {
    ghost var data := src.data;
    ghost var before := dst.written;
    assert before + data[..0] == before;
    StepOn(data, 0, data, before, before, Fixed(data, size).taken);
    ghost var n := Fixed(data, size).taken;
    var whole := RelayFixed(src, dst, size);
    if !whole { return false; }
    StepOn(data, n, src.data, before, dst.written, LineLen(src.data));
    var crlf := src.ReadLine();
    if |crlf| == 0 { return false; }
    dst.Write(crlf);
    return true;
  }

  method RelayChunked(src: Source, dst: Sink) returns (ok: bool)
    modifies src, dst
    ensures var r := Chunked(old(src.data));
            ok == r.ok && src.data == old(src.data)[r.taken..]
            && dst.written == old(dst.written) + old(src.data)[..r.taken]
  {
    hide ChunkPart;
    ghost var data := src.data;
    ghost var n: nat := 0;
    ghost var goal := Chunked(data);
    assert dst.written + data[..0] == dst.written;
    while true
      invariant InStep(data, n, src.data, old(dst.written), dst.written)
      invariant goal == Plus(n, Chunked(src.data))
      decreases |src.data|
    {
      ghost var left, sent := src.data, dst.written;
      var more, done := RelayPart(src, dst);
      StepOn(data, n, left, old(dst.written), sent, ChunkPart(left).taken);
      n := n + ChunkPart(left).taken;
      if !more { return done; }
    }
  }

  method RelayUntilEof(src: Source, dst: Sink)
    modifies src, dst
    ensures src.data == [] && dst.written == old(dst.written) + old(src.data)
  {
    ghost var data := src.data;
    ghost var n: nat := 0;
    assert dst.written + data[..0] == dst.written;
    while true
      invariant InStep(data, n, src.data, old(dst.written), dst.written)
      decreases |src.data|
    {
      ghost var left := src.data;
      var chunk := src.Read(CHUNK);
      if chunk == [] { return; }
      StepOn(data, n, left, old(dst.written), dst.written, |chunk|);
      dst.Write(chunk);
      n := n + |chunk|;
    }
  }
}
