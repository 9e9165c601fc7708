/** The capture accumulator: one byte budget per flow, and a cut that steps back to a character. */
module CaptureBudget {
  import opened Prelude

  type Byte = b: int | 0 <= b < 256
  type Octets = seq<Byte>

  datatype Accumulated = Accumulated(budget: nat, buf: Octets, reserved: nat, total: nat, truncated: bool)

  function Min(a: nat, b: nat): nat { if a < b then a else b }

  function Reserve(a: Accumulated, data: Octets): Accumulated {
    a.(reserved := Min(|data|, a.budget), truncated := a.truncated || |data| > a.budget)
  }

  function Tee(a: Accumulated, chunk: Octets): Accumulated {
    var remaining := a.budget - a.reserved - |a.buf|;
    if remaining <= 0 then a.(total := a.total + |chunk|, truncated := true)
    else
      a.(total := a.total + |chunk|, buf := a.buf + chunk[..Min(|chunk|, remaining)],
         truncated := a.truncated || |chunk| > remaining)
  }

  /** 10xxxxxx */
  predicate Continuation(b: Byte) { 0x80 <= b < 0xC0 }

  /** Length of a character by its first byte. */
  function Need(lead: Byte): nat {
    if lead < 0xC0 then 1 else if lead < 0xE0 then 2 else if lead < 0xF0 then 3 else 4
  }

  /** The end of what is left when trailing continuation bytes are stepped over. */
  function StepBack(buf: Octets, end: nat): (r: nat)
    requires end <= |buf|
    ensures r <= end
    ensures forall i :: r <= i < end ==> Continuation(buf[i])
    ensures r > 0 ==> !Continuation(buf[r - 1])
  {
    if end > 0 && Continuation(buf[end - 1]) then StepBack(buf, end - 1) else end
  }

  function Cut(buf: Octets): Octets {
    var end := StepBack(buf, |buf|);
    if end > 0 && buf[end - 1] >= 0xC0 && end - 1 + Need(buf[end - 1]) > |buf| then buf[..end - 1] else buf[..end]
  }

  class CaptureAccumulator {
    const budget: nat
    var buf: Octets
    var reserved: nat
    var totalSeen: nat
    var truncated: bool

    constructor (limit: nat)
      ensures Now() == Accumulated(limit, [], 0, 0, false)
    {
      budget, buf, reserved, totalSeen, truncated := limit, [], 0, 0, false;
    }

    ghost function Now(): Accumulated
      reads this
    {
      Accumulated(budget, buf, reserved, totalSeen, truncated)
    }

    method ReserveRequestSnapshot(data: Octets)
      modifies this
      ensures Now() == Reserve(old(Now()), data)
    {
      var take := Min(|data|, budget);
      reserved := take;
      if |data| > take {
        truncated := true;
      }
    }

    /** Bytes go through unchanged; what the budget has room for is kept. */
    method TeeChunk(chunk: Octets) returns (out: Octets)
      modifies this
      ensures out == chunk
      ensures Now() == Tee(old(Now()), chunk)
    {
      out := chunk;
      totalSeen := totalSeen + |chunk|;
      var remaining := budget - reserved - |buf|;
      if remaining <= 0 {
        truncated := true;
        return;
      }
      var take := Min(|chunk|, remaining);
      buf := buf + chunk[..take];
      if take < |chunk| {
        truncated := true;
      }
    }

    method Captured() returns (kept: Octets)
      ensures kept == if truncated then Cut(buf) else buf
    {
      if !truncated {
        return buf;
      }
      var end := |buf|;
      while end > 0 && Continuation(buf[end - 1])
        invariant 0 <= end <= |buf| && StepBack(buf, end) == StepBack(buf, |buf|)
      {
        end := end - 1;
      }
      if end > 0 && buf[end - 1] >= 0xC0 {
        var need := Need(buf[end - 1]);
        if end - 1 + need > |buf| {
          end := end - 1;
        }
      }
      return buf[..end];
    }
  }

  // ---- the budget --------------------------------------------------------------------------------

  function TeeAll(a: Accumulated, chunks: seq<Octets>): Accumulated {
    if chunks == [] then a else Tee(TeeAll(a, chunks[..|chunks| - 1]), chunks[|chunks| - 1])
  }

  /** A flow as it begins: nothing seen, the request snapshot reserved. */
  function Begun(budget: nat, request: Octets): Accumulated {
    Reserve(Accumulated(budget, [], 0, 0, false), request)
  }

  function Room(budget: nat, request: Octets): nat { budget - Min(|request|, budget) }

  /** An empty chunk that arrives when there is no room left. */
  ghost predicate IdleChunk(chunks: seq<Octets>, room: nat) {
    exists i :: 0 <= i < |chunks| && chunks[i] == [] && |Concat(chunks[..i])| >= room
  }

  lemma IdleChunkSnoc(chunks: seq<Octets>, room: nat)
    requires chunks != []
    ensures var last := |chunks| - 1;
            IdleChunk(chunks, room) <==>
            IdleChunk(chunks[..last], room) || (chunks[last] == [] && |Concat(chunks[..last])| >= room)
  {
    var init := chunks[..|chunks| - 1];
    assert forall i :: 0 <= i < |init| ==> init[i] == chunks[i] && init[..i] == chunks[..i];
    if IdleChunk(init, room) {
      var i :| 0 <= i < |init| && init[i] == [] && |Concat(init[..i])| >= room;
      assert chunks[i] == [] && chunks[..i] == init[..i];
    }
    if IdleChunk(chunks, room) {
      var i :| 0 <= i < |chunks| && chunks[i] == [] && |Concat(chunks[..i])| >= room;
      if i < |init| { assert init[i] == [] && init[..i] == chunks[..i]; }
    }
  }

  /**
   * However the response is cut into chunks, what is kept is the same prefix of it, never beyond the
   * budget; and it counts as truncated exactly when bytes were dropped, or an empty chunk came when
   * the room was used up.
   */
  lemma {:induction false} BudgetIsAPrefix(budget: nat, request: Octets, chunks: seq<Octets>)
    ensures var a := TeeAll(Begun(budget, request), chunks);
            var room := Room(budget, request);
            && a.budget == budget && a.reserved == Min(|request|, budget)
            && a.total == |Concat(chunks)|
            && a.buf == Concat(chunks)[..Min(|Concat(chunks)|, room)]
            && a.reserved + |a.buf| <= budget
            && (a.truncated <==> |request| > budget || |Concat(chunks)| > room || IdleChunk(chunks, room))
  {
    if chunks != [] {
      var init, last := chunks[..|chunks| - 1], chunks[|chunks| - 1];
      BudgetIsAPrefix(budget, request, init);
      IdleChunkSnoc(chunks, Room(budget, request));
      OneMore(TeeAll(Begun(budget, request), init), Concat(init), last, Room(budget, request));
    }
  }

  lemma OneMore(a: Accumulated, seen: Octets, chunk: Octets, room: nat)
    requires a.budget == a.reserved + room && a.buf == seen[..Min(|seen|, room)]
    ensures Tee(a, chunk).buf == (seen + chunk)[..Min(|seen + chunk|, room)]
    ensures Tee(a, chunk).truncated <==> a.truncated || |seen + chunk| > room || (chunk == [] && |seen| >= room)
  {
    if |seen| < room {
      assert seen[..|seen|] == seen;
      var n := Min(|chunk|, room - |seen|);
      assert seen + chunk[..n] == (seen + chunk)[..|seen| + n];
    } else {
      assert (seen + chunk)[..room] == seen[..room];
    }
  }

  /** With no empty chunks, truncated means bytes were dropped. */
  lemma TruncatedMeansDropped(budget: nat, request: Octets, chunks: seq<Octets>)
    requires forall i :: 0 <= i < |chunks| ==> chunks[i] != []
    ensures var a := TeeAll(Begun(budget, request), chunks);
            a.truncated <==> |request| > a.reserved || |Concat(chunks)| > |a.buf|
  {
    BudgetIsAPrefix(budget, request, chunks);
  }

  // ---- the cut ---------------------------------------------------------------------------------------

  /** A first byte that is no continuation, and as many continuations as it calls for. */
  ghost predicate Character(c: Octets) {
    && c != [] && !Continuation(c[0]) && |c| == Need(c[0])
    && forall i :: 1 <= i < |c| ==> Continuation(c[i])
  }

  /** Section 4 of RFC 3629: UTF8-tail, and UTF8-1 to UTF8-4. */
  predicate Tail(b: Byte) { 0x80 <= b <= 0xBF }

  predicate Utf8Char(c: Octets) {
    || (|c| == 1 && c[0] < 0x80)
    || (|c| == 2 && 0xC2 <= c[0] <= 0xDF && Tail(c[1]))
    || (|c| == 3 && Tail(c[2]) && (
          || (c[0] == 0xE0 && 0xA0 <= c[1] <= 0xBF)
          || ((0xE1 <= c[0] <= 0xEC || 0xEE <= c[0] <= 0xEF) && Tail(c[1]))
          || (c[0] == 0xED && 0x80 <= c[1] <= 0x9F)))
    || (|c| == 4 && Tail(c[2]) && Tail(c[3]) && (
          || (c[0] == 0xF0 && 0x90 <= c[1] <= 0xBF)
          || (0xF1 <= c[0] <= 0xF3 && Tail(c[1]))
          || (c[0] == 0xF4 && 0x80 <= c[1] <= 0x8F)))
  }

  lemma Utf8IsCharacter(c: Octets)
    requires Utf8Char(c)
    ensures Character(c)
  {
  }

  lemma {:induction false} StepsBackTo(buf: Octets, end: nat, stop: nat)
    requires 0 < stop <= end <= |buf| && !Continuation(buf[stop - 1])
    requires forall i :: stop <= i < end ==> Continuation(buf[i])
    ensures StepBack(buf, end) == stop
    decreases end
  {
    if end > stop { StepsBackTo(buf, end - 1, stop); }
  }

  /** Inside a character the cut drops all of it. */
  lemma CutInside(whole: Octets, c: Octets, p: nat)
    requires Character(c) && 0 < p < |c|
    ensures Cut(whole + c[..p]) == whole
  {
    var buf := whole + c[..p];
    assert buf[|whole|] == c[0];
    assert forall i :: |whole| + 1 <= i < |buf| ==> buf[i] == c[i - |whole|];
    StepsBackTo(buf, |buf|, |whole| + 1);
    assert buf[..|whole|] == whole;
  }

  /** Behind a character it keeps the first byte and drops the others. */
  lemma CutBehind(whole: Octets, c: Octets)
    requires Character(c)
    ensures Cut(whole + c) == whole + [c[0]]
  {
    var buf := whole + c;
    assert buf[|whole|] == c[0];
    assert forall i :: |whole| + 1 <= i < |buf| ==> buf[i] == c[i - |whole|];
    StepsBackTo(buf, |buf|, |whole| + 1);
    assert buf[..|whole| + 1] == whole + [c[0]];
  }

  /** How many characters lie wholly within the first n bytes. */
  function Whole(chars: seq<Octets>, n: nat): (j: nat)
    ensures j <= |chars|
  {
    if chars == [] then 0
    else if |Concat(chars)| <= n then |chars|
    else Whole(chars[..|chars| - 1], n)
  }

  lemma {:induction false} WholeIsLongest(chars: seq<Octets>, n: nat)
    ensures |Concat(chars[..Whole(chars, n)])| <= n
    ensures Whole(chars, n) < |chars| ==> |Concat(chars[..Whole(chars, n) + 1])| > n
  {
    if chars == [] || |Concat(chars)| <= n {
      assert chars[..|chars|] == chars;
    } else {
      var init := chars[..|chars| - 1];
      WholeIsLongest(init, n);
      var j := Whole(init, n);
      assert init[..j] == chars[..j];
      if j < |init| { assert init[..j + 1] == chars[..j + 1]; } else { assert chars[..j + 1] == chars; }
    }
  }

  lemma {:induction false} ConcatTakes(chars: seq<Octets>, j: nat)
    requires j <= |chars|
    ensures Concat(chars[..j]) <= Concat(chars)
    decreases |chars| - j
  {
    if j == |chars| {
      assert chars[..j] == chars;
    } else {
      ConcatTakes(chars, j + 1);
      assert chars[..j + 1][..j] == chars[..j];
    }
  }

  /** The cut falls exactly behind a character of more than one byte. */
  ghost predicate BehindMultibyte(chars: seq<Octets>, n: nat) {
    var j := Whole(chars, n);
    j > 0 && |Concat(chars[..j])| == n && |chars[j - 1]| > 1
  }

  lemma CutAtBoundary(chars: seq<Octets>, j: nat)
    requires forall i :: 0 <= i < |chars| ==> Character(chars[i])
    requires 0 < j <= |chars|
    ensures |chars[j - 1]| > 0 && Cut(Concat(chars[..j])) == Concat(chars[..j - 1]) + [chars[j - 1][0]]
    ensures Cut(Concat(chars[..j])) == Concat(chars[..j]) <==> |chars[j - 1]| == 1
  {
    hide Cut;
    var c, before := chars[j - 1], Concat(chars[..j - 1]);
    assert chars[..j][..j - 1] == chars[..j - 1];
    CutBehind(before, c);
    if |c| == 1 {
      assert [c[0]] == c;
    } else {
      assert |before + [c[0]]| != |before + c|;
    }
  }

  lemma CutAmid(chars: seq<Octets>, j: nat, n: nat)
    requires forall i :: 0 <= i < |chars| ==> Character(chars[i])
    requires j < |chars| && |Concat(chars[..j])| < n < |Concat(chars[..j + 1])| && n <= |Concat(chars)|
    ensures Cut(Concat(chars)[..n]) == Concat(chars[..j])
  {
    hide Cut, Character;
    var whole, c := Concat(chars[..j]), chars[j];
    var p := n - |whole|;
    ConcatTakes(chars, j + 1);
    assert chars[..j + 1][..j] == chars[..j];
    assert Concat(chars[..j + 1]) == whole + c;
    assert Concat(chars)[..n] == whole + c[..p];
    CutInside(whole, c, p);
  }

  /**
   * The longest prefix of whole characters is what is kept, unless the cut falls exactly behind a
   * character of several bytes: then that character's first byte is kept and the others are lost.
   */
  lemma CutKeepsCharacters(chars: seq<Octets>, n: nat)
    requires forall i :: 0 <= i < |chars| ==> Character(chars[i])
    requires n <= |Concat(chars)|
    ensures var kept := Cut(Concat(chars)[..n]);
            var j := Whole(chars, n);
            && (kept == Concat(chars[..j]) <==> !BehindMultibyte(chars, n))
            && (BehindMultibyte(chars, n) ==> kept == Concat(chars[..j - 1]) + [chars[j - 1][0]])
  {
    hide Character;
    var j := Whole(chars, n);
    WholeIsLongest(chars, n);
    ConcatTakes(chars, j);
    assert chars[..|chars|] == chars;
    if |Concat(chars[..j])| == n {
      assert Concat(chars)[..n] == Concat(chars[..j]);
      if j > 0 {
        hide Cut;
        CutAtBoundary(chars, j);
      }
    } else {
      hide Cut;
      CutAmid(chars, j, n);
    }
  }

  /** What a flow keeps of a response of whole characters, however it was cut into chunks. */
  lemma CapturedCharacters(budget: nat, request: Octets, chunks: seq<Octets>, chars: seq<Octets>)
    requires forall i :: 0 <= i < |chars| ==> Utf8Char(chars[i])
    requires Concat(chunks) == Concat(chars)
    ensures var a := TeeAll(Begun(budget, request), chunks);
            var n := Min(|Concat(chars)|, Room(budget, request));
            && (!a.truncated ==> a.buf == Concat(chars))
            && (Cut(a.buf) == Concat(chars[..Whole(chars, n)]) <==> !BehindMultibyte(chars, n))
  {
    BudgetIsAPrefix(budget, request, chunks);
    forall i | 0 <= i < |chars| ensures Character(chars[i]) { Utf8IsCharacter(chars[i]); }
    CutKeepsCharacters(chars, Min(|Concat(chars)|, Room(budget, request)));
  }
}
