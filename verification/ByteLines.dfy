/** Byte strings, one `char` per byte, and the splitting of a growing buffer into lines. */
module ByteLines {

  type Bytes = seq<char>

  /** `buf.find(c)` */
  function Find(b: Bytes, c: char): (r: int)
    ensures -1 <= r < |b|
    ensures 0 <= r ==> b[r] == c
    ensures forall k :: 0 <= k < (if r < 0 then |b| else r) ==> b[k] != c
  {
    if b == [] then -1
    else if b[0] == c then 0
    else
      var r := Find(b[1..], c);
      assert forall k :: 0 <= k < |b[1..]| ==> b[1..][k] == b[k + 1];
      assert forall k :: 0 < k < |b| ==> b[k] == b[1..][k - 1];
      if r < 0 then -1 else r + 1
  }

  lemma FindUnique(b: Bytes, c: char, i: nat)
    requires i < |b| && b[i] == c
    requires forall k :: 0 <= k < i ==> b[k] != c
    ensures Find(b, c) == i
  {
  }

  lemma FindInPrefix(a: Bytes, b: Bytes, c: char)
    requires 0 <= Find(a, c)
    ensures Find(a + b, c) == Find(a, c)
  {
    FindUnique(a + b, c, Find(a, c));
  }

  /** The complete lines of a buffer, without their newlines, and what is left after the last one. */
  function Lines(b: Bytes): seq<Bytes> {
    var nl := Find(b, '\n');
    if nl < 0 then [] else [b[..nl]] + Lines(b[nl + 1..])
  }

  function Rest(b: Bytes): Bytes {
    var nl := Find(b, '\n');
    if nl < 0 then b else Rest(b[nl + 1..])
  }

  lemma {:induction false} LinesAppend(a: Bytes, b: Bytes)
    ensures Lines(a + b) == Lines(a) + Lines(Rest(a) + b)
    ensures Rest(a + b) == Rest(Rest(a) + b)
  {
    var nl := Find(a, '\n');
    if 0 <= nl {
      FindInPrefix(a, b, '\n');
      assert (a + b)[..nl] == a[..nl];
      assert (a + b)[nl + 1..] == a[nl + 1..] + b;
      LinesAppend(a[nl + 1..], b);
    }
  }

  lemma {:induction false} RestHasNoNewline(b: Bytes)
    ensures Find(Rest(b), '\n') == -1
  {
    var nl := Find(b, '\n');
    if 0 <= nl { RestHasNoNewline(b[nl + 1..]); }
  }

  lemma OneLine(line: Bytes)
    requires Find(line, '\n') == -1
    ensures Lines(line + ['\n']) == [line] && Rest(line + ['\n']) == []
  {
    var b := line + ['\n'];
    FindUnique(b, '\n', |line|);
    assert b[..|line|] == line && b[|line| + 1..] == [];
  }

  /** A buffer holding a complete line is that line, its newline and a tail. */
  lemma FirstLine(b: Bytes) returns (line: Bytes, tail: Bytes)
    requires Lines(b) != []
    ensures Find(line, '\n') == -1 && b == line + ['\n'] + tail
    ensures Lines(b) == [line] + Lines(tail) && |tail| < |b|
  {
    var nl := Find(b, '\n');
    line, tail := b[..nl], b[nl + 1..];
  }

  lemma ConsCut<T>(x: T, s: seq<T>, n: nat)
    requires 0 < n <= |s| + 1
    ensures ([x] + s)[..n] == [x] + s[..n - 1] && ([x] + s)[n..] == s[n - 1..]
  {
  }

  lemma AppendThree<T>(a: seq<T>, b: seq<T>, c: seq<T>)
    ensures (a + b) + c == a + (b + c)
  {
  }

  /** The bytes up to and including the n-th newline. */
  lemma {:induction false} LinesCut(b: Bytes, n: nat) returns (p: Bytes, tail: Bytes)
    requires n <= |Lines(b)|
    ensures b == p + tail && Rest(p) == []
    ensures Lines(p) == Lines(b)[..n] && Lines(tail) == Lines(b)[n..]
    decreases n
  {
    if n == 0 {
      p, tail := [], b;
    } else {
      var line, more := FirstLine(b);
      var q;
      q, tail := LinesCut(more, n - 1);
      p := line + ['\n'] + q;
      OneLine(line);
      LinesAppend(line + ['\n'], q);
      assert [] + q == q;
      ConsCut(line, Lines(more), n);
      AppendThree(line + ['\n'], q, tail);
    }
  }

  function RStripCr(b: Bytes): Bytes {
    if b != [] && b[|b| - 1] == '\r' then RStripCr(b[..|b| - 1]) else b
  }

  predicate IsSpace(c: char) {
    c == ' ' || c == '\t' || c == '\n' || c == '\r' || c == '\U{0B}' || c == '\U{0C}'
  }

  function LStrip(b: Bytes): Bytes {
    if b != [] && IsSpace(b[0]) then LStrip(b[1..]) else b
  }

  function RStrip(b: Bytes): Bytes {
    if b != [] && IsSpace(b[|b| - 1]) then RStrip(b[..|b| - 1]) else b
  }

  /** `b.strip()` */
  function Strip(b: Bytes): Bytes { RStrip(LStrip(b)) }

  predicate Clean(s: Bytes) { s == "" || (!IsSpace(s[0]) && !IsSpace(s[|s| - 1])) }

  lemma {:induction false} LStripClean(s: Bytes)
    ensures LStrip(s) == "" || !IsSpace(LStrip(s)[0])
  {
    if s != "" && IsSpace(s[0]) { LStripClean(s[1..]); }
  }

  lemma {:induction false} RStripClean(s: Bytes)
    ensures RStrip(s) <= s && (RStrip(s) == "" || !IsSpace(RStrip(s)[|RStrip(s)| - 1]))
  {
    if s != "" && IsSpace(s[|s| - 1]) { RStripClean(s[..|s| - 1]); }
  }

  lemma StripIsClean(s: Bytes)
    ensures Clean(Strip(s))
  {
    LStripClean(s);
    RStripClean(LStrip(s));
  }

  lemma CleanStays(s: Bytes)
    requires Clean(s)
    ensures Strip(s) == s
  {
  }

  ghost predicate AllBlank(s: Bytes) { forall k :: 0 <= k < |s| ==> s[k] in " \t\n\r\U{0B}\U{0C}" }

  /** What is left of a text without the blanks at both ends. */
  ghost predicate Stripped(s: Bytes, m: Bytes) {
    && (exists a, b :: AllBlank(a) && AllBlank(b) && s == a + m + b)
    && (m != "" ==> !AllBlank([m[0]]) && !AllBlank([m[|m| - 1]]))
  }

  lemma SpaceSays(c: char)
    ensures IsSpace(c) <==> AllBlank([c])
  {
    assert [c][0] == c;
    assert [' ', '\t', '\n', '\r', '\U{0B}', '\U{0C}'] == " \t\n\r\U{0B}\U{0C}";
  }

  lemma {:induction false} LStripSays(s: Bytes) returns (a: Bytes)
    ensures AllBlank(a) && s == a + LStrip(s)
  {
    a := "";
    if s != "" && IsSpace(s[0]) {
      SpaceSays(s[0]);
      a := LStripSays(s[1..]);
      a := [s[0]] + a;
    }
  }

  lemma {:induction false} RStripSays(s: Bytes) returns (b: Bytes)
    ensures AllBlank(b) && s == RStrip(s) + b
  {
    b := "";
    if s != "" && IsSpace(s[|s| - 1]) {
      SpaceSays(s[|s| - 1]);
      b := RStripSays(s[..|s| - 1]);
      b := b + [s[|s| - 1]];
    }
  }

  lemma StripSays(s: Bytes)
    ensures Stripped(s, Strip(s))
  {
    var m := Strip(s);
    var a := LStripSays(s);
    var b := RStripSays(LStrip(s));
    assert s == a + m + b;
    StripIsClean(s);
    if m != "" {
      SpaceSays(m[0]);
      SpaceSays(m[|m| - 1]);
    }
  }

  lemma BlankSays(s: Bytes)
    ensures AllBlank(s) <==> Strip(s) == ""
  {
    var m := Strip(s);
    StripSays(s);
    var a, b :| AllBlank(a) && AllBlank(b) && s == a + m + b;
    if m == "" {
      assert s == a + b;
    } else {
      assert s[|a|] == m[0] == [m[0]][0];
    }
  }

  lemma StripTwice(s: Bytes)
    ensures Strip(Strip(s)) == Strip(s) && Strip(LStrip(s)) == Strip(s)
  {
    StripIsClean(s);
    CleanStays(Strip(s));
    LStripClean(s);
  }

  lemma {:induction false} LStripSnoc(s: Bytes, c: char)
    ensures LStrip(s + [c]) == if LStrip(s) == [] then LStrip([c]) else LStrip(s) + [c]
  {
    if s == [] {
      assert s + [c] == [c];
    } else {
      assert (s + [c])[1..] == s[1..] + [c];
      if IsSpace(s[0]) { LStripSnoc(s[1..], c); }
    }
  }

  /** A blank at the end does not matter to stripping. */
  lemma StripSnoc(s: Bytes, c: char)
    requires IsSpace(c)
    ensures Strip(s + [c]) == Strip(s)
  {
    LStripSnoc(s, c);
    assert [c][1..] == [];
    if LStrip(s) != [] { assert (LStrip(s) + [c])[..|LStrip(s)|] == LStrip(s); }
  }

  // ---- substrings -------------------------------------------------------------------------

  predicate Occurs(b: Bytes, pat: Bytes, i: int) {
    0 <= i && i + |pat| <= |b| && b[i..i + |pat|] == pat
  }

  /** `b.find(pat, from)` */
  function FindSub(b: Bytes, pat: Bytes, from: nat): (r: int)
    ensures r == -1 || (from <= r && Occurs(b, pat, r))
    ensures forall k :: from <= k < (if r < 0 then |b| + 1 else r) ==> !Occurs(b, pat, k)
    decreases |b| - from
  {
    if |b| < from + |pat| then -1
    else if b[from..from + |pat|] == pat then from
    else if from == |b| then -1
    else FindSub(b, pat, from + 1)
  }

  lemma FindSubUnique(b: Bytes, pat: Bytes, from: nat, i: nat)
    requires from <= i && Occurs(b, pat, i)
    requires forall k :: from <= k < i ==> !Occurs(b, pat, k)
    ensures FindSub(b, pat, from) == i
  {
  }

  /** `b.replace("\r\n", "\n")` */
  function CrlfToLf(b: Bytes): Bytes {
    if b == [] then []
    else if "\r\n" <= b then "\n" + CrlfToLf(b[2..])
    else [b[0]] + CrlfToLf(b[1..])
  }

  lemma {:induction false} CrlfToLfSame(b: Bytes)
    requires forall k :: 0 <= k < |b| ==> b[k] != '\r'
    ensures CrlfToLf(b) == b
  {
    if b != [] {
      assert forall k :: 0 <= k < |b[1..]| ==> b[1..][k] == b[k + 1];
      CrlfToLfSame(b[1..]);
      assert b == [b[0]] + b[1..];
    }
  }
}
