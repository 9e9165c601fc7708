/** What header lines say, and what they declare: names, values and numbers by their characters. */
module FramingSays {
  import opened Prelude
  import opened ByteLines
  import opened HttpFramer
  import opened HttpHead

  // ---- one header line ------------------------------------------------------------------------------

  /** White space as text knows it, the separators and the no-break space included. */
  predicate White(c: char) {
    || c == ' ' || c == '\t' || c == '\n' || c == '\r' || c == '\U{0B}' || c == '\U{0C}'
    || c == '\U{1C}' || c == '\U{1D}' || c == '\U{1E}' || c == '\U{1F}' || c == '\U{85}' || c == '\U{A0}'
  }

  lemma WhiteIsTextSpace(c: char)
    ensures White(c) <==> TextSpace(c)
  {
  }

  ghost predicate Spaces(s: Bytes) { forall k :: 0 <= k < |s| ==> White(s[k]) }

  /** A text that neither begins nor ends with white space. */
  ghost predicate Tight(s: Bytes) { s == [] || (!White(s[0]) && !White(s[|s| - 1])) }

  /** The second is the first in lower case: 32 further for the letters A to Z and those of ISO 8859-1. */
  ghost predicate SameButCase(s: Bytes, t: Bytes) {
    |s| == |t| &&
    forall k :: 0 <= k < |s| ==>
      t[k] as int == s[k] as int + if s[k] in "ABCDEFGHIJKLMNOPQRSTUVWXYZ" || AccentedCapital(s[k]) then 32 else 0
  }

  predicate AccentedCapital(c: char) { 192 <= c as int <= 222 && c as int != 215 }

  lemma FrontStripped(s: Bytes)
    requires s != [] && White(s[0])
    ensures TextStrip(s) == TextStrip(s[1..])
  {
    WhiteIsTextSpace(s[0]);
  }

  lemma BackStripped(s: Bytes)
    requires s != [] && White(s[|s| - 1]) && !White(s[0])
    ensures TextStrip(s) == TextStrip(s[..|s| - 1])
  {
    WhiteIsTextSpace(s[0]);
    WhiteIsTextSpace(s[|s| - 1]);
  }

  lemma TightStays(s: Bytes)
    requires Tight(s)
    ensures TextStrip(s) == s
  {
    if s != [] {
      WhiteIsTextSpace(s[0]);
      WhiteIsTextSpace(s[|s| - 1]);
    }
  }

  lemma {:induction false} SpacesGo(s: Bytes)
    requires Spaces(s)
    ensures TextStrip(s) == []
  {
    hide TextStrip, White;
    if s == [] {
      TightStays(s);
    } else {
      FrontStripped(s);
      SpacesGo(s[1..]);
    }
  }

  lemma {:induction false} TrailStripped(core: Bytes, trail: Bytes)
    requires Spaces(trail) && Tight(core)
    ensures TextStrip(core + trail) == core
    decreases |trail|
  {
    hide TextStrip, White;
    if core == [] {
      assert core + trail == trail;
      SpacesGo(trail);
    } else if trail == [] {
      assert core + trail == core;
      TightStays(core);
    } else {
      assert (core + trail)[..|core + trail| - 1] == core + trail[..|trail| - 1];
      BackStripped(core + trail);
      TrailStripped(core, trail[..|trail| - 1]);
    }
  }

  /** White space around a text is dropped, and nothing else. */
  lemma {:induction false} StripsSpaces(lead: Bytes, core: Bytes, trail: Bytes)
    requires Spaces(lead) && Spaces(trail) && Tight(core)
    ensures TextStrip(lead + (core + trail)) == core
    decreases |lead|
  {
    hide TextStrip, White;
    if lead == [] {
      assert lead + (core + trail) == core + trail;
      TrailStripped(core, trail);
    } else {
      assert (lead + (core + trail))[1..] == lead[1..] + (core + trail);
      FrontStripped(lead + (core + trail));
      StripsSpaces(lead[1..], core, trail);
    }
  }

  lemma LowersLetters(s: Bytes)
    ensures SameButCase(s, Lower(s))
  {
    forall k | 0 <= k < |s|
      ensures Lower(s)[k] as int ==
              s[k] as int + if s[k] in "ABCDEFGHIJKLMNOPQRSTUVWXYZ" || AccentedCapital(s[k]) then 32 else 0
    {
      CapitalsAre(s[k]);
    }
  }

  lemma CapitalsAre(c: char)
    ensures c in "ABCDEFGHIJKLMNOPQRSTUVWXYZ" <==> 'A' <= c <= 'Z'
  {
    if 'A' <= c <= 'Z' { assert "ABCDEFGHIJKLMNOPQRSTUVWXYZ"[c as int - 65] == c; }
  }

  /**
   * A line is a field of this name and value: the name before the first colon, in any case, the value
   * behind it, white space around either.
   */
  lemma FieldReads(lead: Bytes, name: Bytes, trail: Bytes, before: Bytes, value: Bytes, after: Bytes)
    requires Spaces(lead) && Spaces(trail) && Spaces(before) && Spaces(after) && Tight(name) && Tight(value)
    requires ':' !in lead && ':' !in name && ':' !in trail
    ensures var line := lead + (name + trail) + [':'] + (before + (value + after));
            && HeaderName(line).Some? && SameButCase(name, HeaderName(line).value)
            && HeaderValue(line) == value
  {
    hide TextStrip, Lower, SameButCase, Spaces, Tight;
    var key, rest := lead + (name + trail), before + (value + after);
    var line := key + [':'] + rest;
    assert forall k :: 0 <= k < |key| ==> key[k] in lead || key[k] in name || key[k] in trail;
    FindUnique(line, ':', |key|);
    assert line[..|key|] == key && line[|key| + 1..] == rest;
    StripsSpaces(lead, name, trail);
    StripsSpaces(before, value, after);
    LowersLetters(name);
  }

  /** A line without a colon is no field. */
  lemma NoField(line: Bytes)
    requires ':' !in line
    ensures HeaderName(line) == None
  {
    assert forall k :: 0 <= k < |line| ==> line[k] in line;
  }

  // ---- heads -------------------------------------------------------------------------------------------

  /** A line of a head: one newline, at its end, and something before it. */
  ghost predicate FieldLine(line: Bytes) {
    line != "\r\n" && line != "\n" && line != [] && line[|line| - 1] == '\n' && '\n' !in line[..|line| - 1]
  }

  /** A text begins with this head: a first line, header lines, and a blank one, 65536 bytes at most. */
  ghost predicate BeginsWith(data: Bytes, h: Head, blank: Bytes) {
    && (FieldLine(h.start) || h.start == "\r\n" || h.start == "\n")
    && (forall k :: 0 <= k < |h.headers| ==> FieldLine(h.headers[k]))
    && (blank == "\r\n" || blank == "\n")
    && h.start + Concat(h.headers) + blank <= data && |h.start + Concat(h.headers) + blank| <= 65536
  }

  lemma FieldLineSays(line: Bytes)
    ensures FieldLine(line) <==> IsLine(line) && !Blank(line)
    ensures Blank(line) <==> line == "\r\n" || line == "\n"
  {
    var nl := Find(line, '\n');
    if line != [] && line[|line| - 1] == '\n' && '\n' !in line[..|line| - 1] {
      assert forall k :: 0 <= k < |line| - 1 ==> line[k] in line[..|line| - 1];
    }
    assert IsLine(line) ==> forall k :: 0 <= k < |line| - 1 ==> line[..|line| - 1][k] == line[k];
  }

  lemma {:induction false} LinesLimit(data: Bytes, total: nat)
    ensures var r := ReadLines(data, total);
            if r.Lines? then total + r.taken <= 65536 else r.tooLong <==> total + |data| > 65536
    decreases |data|
  {
    hide ReadLines;
    var n := LineLen(data);
    if Weigh(data[..n], total).Header? {
      ReadLinesStep(data, total, data[..n], data[n..]);
      LinesLimit(data[n..], total + n);
    } else {
      ReadLinesStop(data, total, data[..n]);
    }
  }

  lemma BeginsIsRead(data: Bytes, h: Head, blank: Bytes)
    requires BeginsWith(data, h, blank)
    ensures ReadHead(data) == Got(h, |h.start + Concat(h.headers) + blank|)
  {
    hide ReadHead, FieldLine;
    FieldLineSays(h.start);
    forall k | 0 <= k < |h.headers| ensures IsLine(h.headers[k]) && !Blank(h.headers[k]) {
      FieldLineSays(h.headers[k]);
    }
    if Blank(h.start) { BlankIsLine(h.start); }
    var n := |HeadBytes(h, blank)|;
    assert data == HeadBytes(h, blank) + data[n..];
    HeadExact(h, blank, data[n..]);
  }

  lemma ReadBegins(data: Bytes) returns (blank: Bytes)
    requires ReadHead(data).Got?
    ensures var r := ReadHead(data);
            BeginsWith(data, r.head, blank) && r.taken == |r.head.start + Concat(r.head.headers) + blank|
  {
    hide FieldLine, ReadLines;
    var h := ReadHead(data).head;
    blank := HeadReadBack(data);
    LinesLimit(data[LineLen(data)..], LineLen(data));
    FieldLineSays(h.start);
    FieldLineSays(blank);
    forall k | 0 <= k < |h.headers| ensures FieldLine(h.headers[k]) { FieldLineSays(h.headers[k]); }
  }

  /**
   * A head is read exactly when the text begins with one, and it is that one; otherwise it is too long
   * when there are more than 65536 bytes, and cut off when there are not.
   */
  lemma HeadSays(data: Bytes)
    ensures ReadHead(data) == NoMessage <==> data == []
    ensures ReadHead(data).Got? <==> exists h, blank :: BeginsWith(data, h, blank)
    ensures forall h, blank :: BeginsWith(data, h, blank) ==>
              ReadHead(data) == Got(h, |h.start + Concat(h.headers) + blank|)
    ensures data != [] && !ReadHead(data).Got? ==> ReadHead(data) == if |data| > 65536 then TooLong else MidHeaders
  {
    hide BeginsWith, ReadLines;
    forall h, blank | BeginsWith(data, h, blank)
      ensures ReadHead(data) == Got(h, |h.start + Concat(h.headers) + blank|)
    {
      BeginsIsRead(data, h, blank);
    }
    if ReadHead(data).Got? { var blank := ReadBegins(data); }
    LinesLimit(data[LineLen(data)..], LineLen(data));
  }

  // ---- numbers ----------------------------------------------------------------------------------------

  predicate IsDigit(c: char) { '0' <= c <= '9' }

  predicate DoubleAt(s: Bytes, k: int) { 0 <= k < |s| - 1 && s[k] == '_' && s[k + 1] == '_' }

  /** Decimal digits, with at most one underscore between two of them. */
  ghost predicate Numeral(s: Bytes) {
    && s != [] && s[0] != '_' && s[|s| - 1] != '_'
    && (forall k :: 0 <= k < |s| ==> IsDigit(s[k]) || s[k] == '_')
    && (forall k :: !DoubleAt(s, k))
  }

  function NumeralValue(s: Bytes): nat {
    if s == [] then 0
    else
      var before, last := NumeralValue(s[..|s| - 1]), s[|s| - 1];
      if IsDigit(last) then before * 10 + (last as int - '0' as int) else before
  }

  /** What may follow when `after` tells whether a digit came just before. */
  ghost predicate Continues(s: Bytes, after: bool) {
    && (if s == [] then after else (s[0] == '_' ==> after) && s[|s| - 1] != '_')
    && (forall k :: 0 <= k < |s| ==> IsDigit(s[k]) || s[k] == '_')
    && (forall k :: !DoubleAt(s, k))
  }

  lemma ContinuesStep(s: Bytes, after: bool)
    requires s != []
    ensures Continues(s, after) <==>
            (if s[0] == '_' then after && Continues(s[1..], false) else IsDigit(s[0]) && Continues(s[1..], true))
  {
    var t := s[1..];
    assert forall k :: 0 <= k < |t| ==> t[k] == s[k + 1];
    assert forall k :: DoubleAt(t, k) ==> DoubleAt(s, k + 1);
    assert forall k :: 1 <= k && DoubleAt(s, k) ==> DoubleAt(t, k - 1);
    assert DoubleAt(s, 0) <==> t != [] && s[0] == '_' && t[0] == '_';
    assert (forall k :: !DoubleAt(s, k)) <==> (forall k :: !DoubleAt(t, k)) && !DoubleAt(s, 0);
  }

  lemma {:induction false} DigitsSay(s: Bytes, done: Bytes, after: bool)
    ensures Digits(s, 10, NumeralValue(done), after) ==
            if Continues(s, after) then Some(NumeralValue(done + s)) else None
    decreases |s|
  {
    if s == [] {
      assert done + s == done;
    } else {
      ContinuesStep(s, after);
      assert (done + [s[0]])[..|done|] == done;
      assert (done + [s[0]]) + s[1..] == done + s;
      DigitsSay(s[1..], done + [s[0]], s[0] != '_');
    }
  }

  lemma UnsignedSays(s: Bytes)
    ensures Unsigned(s, 10) == if Numeral(s) then Some(NumeralValue(s)) else None
  {
    var none: Bytes := [];
    assert none + s == s && NumeralValue(none) == 0;
    DigitsSay(s, none, false);
  }

  /** A numeral, with a sign or without. */
  ghost predicate SignedNumeral(s: Bytes, n: int) {
    if s != [] && s[0] == '-' then Numeral(s[1..]) && n + NumeralValue(s[1..]) == 0
    else if s != [] && s[0] == '+' then Numeral(s[1..]) && n == NumeralValue(s[1..])
    else Numeral(s) && n == NumeralValue(s)
  }

  /** A length is read as the number that stands there between blanks, and only a number is. */
  lemma LengthReads(s: Bytes, n: int)
    ensures PyInt(s, 10) == Some(n) <==> SignedNumeral(Strip(s), n)
    ensures Stripped(s, Strip(s))
  {
    hide Unsigned, Strip, Numeral, NumeralValue, Stripped;
    var m := Strip(s);
    StripSays(s);
    UnsignedSays(m);
    if m != [] { UnsignedSays(m[1..]); }
  }

  /** Chunk sizes are written with sixteen digits, in either case. */
  lemma SixteenDigits(k: nat)
    requires k < 16
    ensures Digit("0123456789abcdef"[k]) == k && Digit("0123456789ABCDEF"[k]) == k
  {
  }

  // ---- what the headers declare -------------------------------------------------------------------------

  predicate IsField(line: Bytes, name: Bytes) { HeaderName(line) == Some(name) }

  ghost predicate Gives(headers: seq<Bytes>, name: Bytes) {
    exists i :: 0 <= i < |headers| && IsField(headers[i], name)
  }

  ghost predicate GivesTwice(headers: seq<Bytes>, name: Bytes) {
    exists i, j :: 0 <= i < j < |headers| && IsField(headers[i], name) && IsField(headers[j], name)
  }

  ghost predicate IsLength(line: Bytes, n: Option<int>) {
    IsField(line, "content-length") && PyInt(HeaderValue(line), 10) == n
  }

  ghost predicate GivesLength(headers: seq<Bytes>, n: Option<int>) {
    exists i :: 0 <= i < |headers| && IsLength(headers[i], n)
  }

  /** The word occurs in the value, in any case. */
  ghost predicate FieldHas(line: Bytes, name: Bytes, word: Bytes) {
    IsField(line, name) && exists k :: Occurs(Lower(HeaderValue(line)), word, k)
  }

  ghost predicate Has(headers: seq<Bytes>, name: Bytes, word: Bytes) {
    exists i :: 0 <= i < |headers| && FieldHas(headers[i], name, word)
  }

  /** A length is given twice, or cannot be read, or stands beside chunking. */
  ghost predicate Contradicts(headers: seq<Bytes>) {
    || GivesTwice(headers, "content-length")
    || GivesLength(headers, None)
    || (Gives(headers, "content-length") && Has(headers, "transfer-encoding", "chunked"))
  }

  lemma MentionsOccurs(line: Bytes, name: Bytes, word: Bytes)
    requires word != []
    ensures FieldHas(line, name, word) <==> IsField(line, name) && Mentions(HeaderValue(line), word)
  {
    var v := Lower(HeaderValue(line));
    var r := FindSub(v, word, 0);
    if r < 0 { assert forall k :: 0 <= k <= |v| ==> !Occurs(v, word, k); } else { assert Occurs(v, word, r); }
  }

  lemma Snoc(init: seq<Bytes>, last: Bytes, name: Bytes, word: Bytes)
    ensures Gives(init + [last], name) <==> Gives(init, name) || IsField(last, name)
    ensures GivesTwice(init + [last], name) <==> GivesTwice(init, name) || (Gives(init, name) && IsField(last, name))
    ensures Has(init + [last], name, word) <==> Has(init, name, word) || FieldHas(last, name, word)
  {
    hide IsField, FieldHas;
    var all := init + [last];
    assert all[|init|] == last && forall i :: 0 <= i < |init| ==> all[i] == init[i];
    if i :| 0 <= i < |init| && IsField(init[i], name) { assert IsField(all[i], name); }
    if i :| 0 <= i < |init| && FieldHas(init[i], name, word) { assert FieldHas(all[i], name, word); }
    if i, j :| 0 <= i < j < |init| && IsField(init[i], name) && IsField(init[j], name) {
      assert IsField(all[i], name) && IsField(all[j], name);
    }
  }

  lemma LengthSnoc(init: seq<Bytes>, last: Bytes, n: Option<int>)
    ensures GivesLength(init + [last], n) <==> GivesLength(init, n) || IsLength(last, n)
  {
    hide IsLength;
    var all := init + [last];
    assert all[|init|] == last && forall i :: 0 <= i < |init| ==> all[i] == init[i];
    if i :| 0 <= i < |init| && IsLength(init[i], n) { assert IsLength(all[i], n); }
  }

  /** What the scan knows of the headers it has seen. */
  ghost predicate Knows(s: Scan, headers: seq<Bytes>) {
    && (s.bad <==> GivesTwice(headers, "content-length") || GivesLength(headers, None))
    && (!s.bad ==>
          && (s.sawLength <==> Gives(headers, "content-length"))
          && (forall n :: s.f.contentLength == Some(n) <==> GivesLength(headers, Some(n)))
          && (s.f.chunked <==> Has(headers, "transfer-encoding", "chunked"))
          && (s.f.close <==> Has(headers, "connection", "close")))
  }

  lemma LengthIsGiven(headers: seq<Bytes>, n: Option<int>)
    requires GivesLength(headers, n)
    ensures Gives(headers, "content-length")
  {
    var i :| 0 <= i < |headers| && IsLength(headers[i], n);
    assert IsField(headers[i], "content-length");
  }

  lemma SnocAll(init: seq<Bytes>, last: Bytes)
    ensures var all, cl := init + [last], "content-length";
            && (Gives(all, cl) <==> Gives(init, cl) || IsField(last, cl))
            && (GivesTwice(all, cl) <==> GivesTwice(init, cl) || (Gives(init, cl) && IsField(last, cl)))
            && (forall n :: GivesLength(all, n) <==> GivesLength(init, n) || IsLength(last, n))
            && (forall n :: GivesLength(init, n) ==> Gives(init, cl))
            && (Has(all, "transfer-encoding", "chunked") <==>
                Has(init, "transfer-encoding", "chunked") || FieldHas(last, "transfer-encoding", "chunked"))
            && (Has(all, "connection", "close") <==>
                Has(init, "connection", "close") || FieldHas(last, "connection", "close"))
  {
    hide Gives, GivesTwice, GivesLength, Has, IsField, IsLength, FieldHas;
    Snoc(init, last, "content-length", "");
    Snoc(init, last, "transfer-encoding", "chunked");
    Snoc(init, last, "connection", "close");
    forall n ensures GivesLength(init + [last], n) <==> GivesLength(init, n) || IsLength(last, n) {
      LengthSnoc(init, last, n);
    }
    forall n | GivesLength(init, n) ensures Gives(init, "content-length") { LengthIsGiven(init, n); }
  }

  lemma KnowsStep(s: Scan, init: seq<Bytes>, last: Bytes)
    requires Knows(s, init)
    ensures Knows(FramingStep(s, last), init + [last])
  {
    hide Gives, GivesTwice, GivesLength, Has, HeaderName, HeaderValue, Mentions, PyInt, FieldHas;
    SnocAll(init, last);
    MentionsOccurs(last, "transfer-encoding", "chunked");
    MentionsOccurs(last, "connection", "close");
  }

  lemma {:induction false} ScanKnows(headers: seq<Bytes>)
    ensures Knows(ScanFraming(headers), headers)
  {
    hide Knows, FramingStep;
    if headers == [] {
      KnowsNothing();
    } else {
      var init, last := headers[..|headers| - 1], headers[|headers| - 1];
      ScanKnows(init);
      KnowsStep(ScanFraming(init), init, last);
      assert headers == init + [last];
    }
  }

  lemma KnowsNothing()
    ensures Knows(ScanFraming([]), [])
  {
  }

  /**
   * For all header lines: there is no framing exactly when lengths contradict; else the length is the
   * one that is given, if any is, and chunking and closing are what some header says.
   */
  lemma DeclaredFraming(headers: seq<Bytes>)
    ensures ParseFraming(headers) == None <==> Contradicts(headers)
    ensures ParseFraming(headers).Some? ==>
              var f := ParseFraming(headers).value;
              && (forall n :: f.contentLength == Some(n) <==> GivesLength(headers, Some(n)))
              && (f.chunked <==> Has(headers, "transfer-encoding", "chunked"))
              && (f.close <==> Has(headers, "connection", "close"))
  {
    hide Gives, GivesTwice, GivesLength, Has, ScanFraming;
    ScanKnows(headers);
  }
}
