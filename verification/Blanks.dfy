/** The blanks JSON passes over, set against the spaces that stripping removes. */
module Blanks {
  import opened ByteLines

  /** The blanks a JSON parser passes over. Stripping takes two more, the vertical tab and the form feed. */
  predicate IsBlank(c: char) { c == ' ' || c == '\t' || c == '\n' || c == '\r' }

  function LTrim(s: Bytes): Bytes { if s != [] && IsBlank(s[0]) then LTrim(s[1..]) else s }

  function RTrim(s: Bytes): Bytes { if s != [] && IsBlank(s[|s| - 1]) then RTrim(s[..|s| - 1]) else s }

  function Trim(s: Bytes): Bytes { RTrim(LTrim(s)) }

  lemma {:induction false} LTrimSnoc(s: Bytes, c: char)
    requires IsBlank(c)
    ensures LTrim(s + [c]) == if LTrim(s) == [] then [] else LTrim(s) + [c]
  {
    if s == [] {
      assert s + [c] == [c] && [c][1..] == [];
    } else {
      assert (s + [c])[1..] == s[1..] + [c];
      if IsBlank(s[0]) { LTrimSnoc(s[1..], c); }
    }
  }

  lemma TrimSnoc(s: Bytes, c: char)
    requires IsBlank(c)
    ensures Trim(s + [c]) == Trim(s)
  {
    LTrimSnoc(s, c);
    if LTrim(s) != [] { assert (LTrim(s) + [c])[..|LTrim(s)|] == LTrim(s); }
  }

  lemma TrimCons(c: char, s: Bytes)
    requires IsBlank(c)
    ensures Trim([c] + s) == Trim(s) && Strip([c] + s) == Strip(s)
  {
    assert ([c] + s)[1..] == s;
  }

  /** What trimming leaves begins where the left trim does and ends in no blank. */
  lemma {:induction false} RTrimKeeps(s: Bytes)
    ensures RTrim(s) <= s
    ensures RTrim(s) == [] || !IsBlank(RTrim(s)[|RTrim(s)| - 1])
    ensures s != [] && !IsBlank(s[0]) ==> RTrim(s) != []
  {
    if s != [] && IsBlank(s[|s| - 1]) { RTrimKeeps(s[..|s| - 1]); }
  }

  lemma {:induction false} LTrimStart(s: Bytes)
    ensures LTrim(s) == [] || !IsBlank(LTrim(s)[0])
    ensures LTrim(s) == LStrip(s) || (LTrim(s) != [] && IsSpace(LTrim(s)[0]))
  {
    if s != [] && IsBlank(s[0]) { LTrimStart(s[1..]); }
  }

  lemma TrimStart(s: Bytes)
    ensures Trim(s) == [] <==> LTrim(s) == []
    ensures Trim(s) != [] ==> Trim(s)[0] == LTrim(s)[0]
  {
    LTrimStart(s);
    RTrimKeeps(LTrim(s));
  }

  lemma TrimTwice(s: Bytes)
    ensures Trim(Trim(s)) == Trim(s)
  {
    LTrimStart(s);
    TrimStart(s);
    RTrimKeeps(LTrim(s));
  }

  /** A payload after `lstrip`: it does not begin with a space. */
  predicate Cut(p: Bytes) { p == [] || !IsSpace(p[0]) }

  lemma CutStays(p: Bytes)
    requires Cut(p)
    ensures LTrim(p) == p && LStrip(p) == p
    ensures Trim(p) == [] <==> p == []
    ensures Strip(p) == [] <==> p == []
    ensures p != [] ==> Trim(p)[0] == p[0]
  {
    TrimStart(p);
    RStripKeepsStart(p);
  }

  lemma {:induction false} RStripKeepsStart(s: Bytes)
    requires s != [] ==> !IsSpace(s[0])
    ensures RStrip(s) == [] <==> s == []
  {
    if s != [] && IsSpace(s[|s| - 1]) { RStripKeepsStart(s[..|s| - 1]); }
  }
}
