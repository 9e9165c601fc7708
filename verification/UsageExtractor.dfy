/** The read-only usage scanner: frame boundaries in a byte stream, and counters merged by maximum. */
module UsageExtractor {
  import opened Prelude
  import opened ByteLines

  const MAX_EVENT_BYTES: nat := 4 * 1024 * 1024
  const MAX_JSON_DOC_BYTES: nat := 8 * 1024 * 1024

  // ---- separators ---------------------------------------------------------------------------

  /** Length of the separator at position i, 0 for none. */
  function SepAt(b: Bytes, i: int): nat {
    if Occurs(b, "\n\n", i) then 2
    else if Occurs(b, "\r\n\r\n", i) then 4
    else if Occurs(b, "\r\r", i) then 2
    else 0
  }

  /** A separator: where it starts, its length and its first byte. */
  datatype Sep = Sep(at: nat, len: nat, first: char) | NoSep

  function Min(a: int, b: int): int { if a < 0 then b else if b < 0 then a else if a < b then a else b }

  /** The next separator from `pos` on, chosen as the least of three searches. */
  function NextSep(b: Bytes, pos: nat): (r: Sep)
    ensures r.Sep? ==>
            pos <= r.at && r.len == SepAt(b, r.at) && r.len in {2, 4}
            && r.at + r.len <= |b| && r.first == b[r.at]
    ensures forall k :: pos <= k < (if r.Sep? then r.at else |b| + 1) ==> SepAt(b, k) == 0
  {
    var lf := FindSub(b, "\n\n", pos);
    var crlf := FindSub(b, "\r\n\r\n", pos);
    var cr := FindSub(b, "\r\r", pos);
    var nxt := Min(lf, Min(crlf, cr));
    if nxt < 0 then NoSep
    else if nxt == lf then Sep(nxt, 2, b[nxt])
    else if nxt == crlf then (FirstsDiffer(b, nxt); Sep(nxt, 4, b[nxt]))
    else (FirstsDiffer(b, nxt); Sep(nxt, 2, b[nxt]))
  }

  /** No two kinds of separator start at the same place. */
  lemma FirstsDiffer(b: Bytes, i: int)
    ensures Occurs(b, "\n\n", i) ==> !Occurs(b, "\r\n\r\n", i) && !Occurs(b, "\r\r", i)
    ensures Occurs(b, "\r\n\r\n", i) ==> !Occurs(b, "\r\r", i)
  {
    if Occurs(b, "\n\n", i) { assert b[i] == "\n\n"[0]; }
    if Occurs(b, "\r\n\r\n", i) { assert b[i] == "\r\n\r\n"[0] && b[i + 1] == "\r\n\r\n"[1]; }
    if Occurs(b, "\r\r", i) { assert b[i] == "\r\r"[0] && b[i + 1] == "\r\r"[1]; }
  }

  lemma CrLfCrLf(b: Bytes, i: int)
    requires Occurs(b, "\r\n\r\n", i)
    ensures b[i + 1] == '\n' && b[i + 2] == '\r' && b[i + 3] == '\n'
  {
    assert b[i..i + 4][1] == b[i + 1] && b[i..i + 4][2] == b[i + 2] && b[i..i + 4][3] == b[i + 3];
  }

  lemma Firsts(b: Bytes, j: int)
    ensures Occurs(b, "\n\n", j) ==> b[j] == '\n' && b[j + 1] == '\n'
    ensures Occurs(b, "\r\n\r\n", j) ==> b[j] == '\r'
    ensures Occurs(b, "\r\r", j) ==> b[j] == '\r' && b[j + 1] == '\r'
  {
    if Occurs(b, "\n\n", j) { assert b[j..j + 2][0] == b[j] && b[j..j + 2][1] == b[j + 1]; }
    if Occurs(b, "\r\n\r\n", j) { assert b[j..j + 4][0] == b[j]; }
    if Occurs(b, "\r\r", j) { assert b[j..j + 2][0] == b[j] && b[j..j + 2][1] == b[j + 1]; }
  }

  /** The earliest separator to start is the earliest to end. */
  lemma EarliestEnds(b: Bytes, i: int, j: int)
    requires i < j && SepAt(b, i) > 0 && SepAt(b, j) > 0
    ensures i + SepAt(b, i) < j + SepAt(b, j)
  {
    if SepAt(b, i) == 4 && j <= i + 2 {
      CrLfCrLf(b, i);
      Firsts(b, j);
    }
  }

  lemma OccursGrows(a: Bytes, b: Bytes, pat: Bytes, i: int)
    ensures i + |pat| <= |a| ==> Occurs(a + b, pat, i) == Occurs(a, pat, i)
  {
    if 0 <= i && i + |pat| <= |a| { assert (a + b)[i..i + |pat|] == a[i..i + |pat|]; }
  }

  lemma SepAtGrows(a: Bytes, b: Bytes, i: int)
    ensures SepAt(a, i) > 0 ==> SepAt(a + b, i) == SepAt(a, i)
    ensures i + SepAt(a + b, i) <= |a| ==> SepAt(a, i) == SepAt(a + b, i)
  {
    OccursGrows(a, b, "\n\n", i);
    OccursGrows(a, b, "\r\n\r\n", i);
    OccursGrows(a, b, "\r\r", i);
    FirstsDiffer(a, i);
    FirstsDiffer(a + b, i);
  }

  /** A separator found in a prefix is never revised by what comes later. */
  lemma NextSepStable(a: Bytes, b: Bytes)
    requires NextSep(a, 0).Sep?
    ensures NextSep(a + b, 0) == NextSep(a, 0)
  {
    var s, t := NextSep(a, 0), NextSep(a + b, 0);
    SepAtGrows(a, b, s.at);
    assert t.Sep? && t.at <= s.at;
    SepAtGrows(a, b, t.at);
    if t.at < s.at { EarliestEnds(a + b, t.at, s.at); }
  }

  lemma OccursFrom(b: Bytes, pos: nat, pat: Bytes, k: int)
    requires pos <= |b| && 0 <= k
    ensures Occurs(b[pos..], pat, k) == Occurs(b, pat, pos + k)
  {
    if pos + k + |pat| <= |b| { assert b[pos..][k..k + |pat|] == b[pos + k..pos + k + |pat|]; }
  }

  lemma SepAtFrom(b: Bytes, pos: nat, k: int)
    requires pos <= |b| && 0 <= k
    ensures SepAt(b[pos..], k) == SepAt(b, pos + k)
  {
    OccursFrom(b, pos, "\n\n", k);
    OccursFrom(b, pos, "\r\n\r\n", k);
    OccursFrom(b, pos, "\r\r", k);
  }

  /** Searching from a position is searching the rest. */
  lemma NextSepFrom(b: Bytes, pos: nat)
    requires pos <= |b|
    ensures var s := NextSep(b, pos);
            NextSep(b[pos..], 0) == if s.Sep? then Sep(s.at - pos, s.len, s.first) else NoSep
  {
    hide NextSep, SepAt;
    var s, t := NextSep(b[pos..], 0), NextSep(b, pos);
    if s.Sep? { SepAtFrom(b, pos, s.at); }
    if t.Sep? { SepAtFrom(b, pos, t.at - pos); }
  }

  // ---- frames -------------------------------------------------------------------------------

  datatype Scanned = Scanned(frames: seq<Bytes>, rest: Bytes)

  /** A frame as it is handed on, its line ends normalised to suit its separator. */
  function FrameOf(raw: Bytes, len: nat, first: char): Bytes {
    if len == 4 then CrlfToLf(raw) else if first == '\r' then CrCrToLf(raw) else raw
  }

  function Cons(frame: Bytes, s: Scanned): Scanned { Scanned([frame] + s.frames, s.rest) }

  function Scan(b: Bytes): Scanned
    decreases |b|
  {
    var s := NextSep(b, 0);
    if s.NoSep? then Scanned([], b) else Cons(FrameOf(b[..s.at], s.len, s.first), Scan(b[s.at + s.len..]))
  }

  /** Two scans in a row: frames concatenate, the second one's rest stays. */
  function Then(s: Scanned, t: Scanned): Scanned { Scanned(s.frames + t.frames, t.rest) }

  lemma ConsThen(frame: Bytes, s: Scanned, t: Scanned)
    ensures Then(Cons(frame, s), t) == Cons(frame, Then(s, t))
  {
    assert ([frame] + s.frames) + t.frames == [frame] + (s.frames + t.frames);
  }

  lemma {:induction false} ScanAppend(a: Bytes, b: Bytes)
    ensures Scan(a + b) == Then(Scan(a), Scan(Scan(a).rest + b))
    decreases |a|
  {
    var s := NextSep(a, 0);
    if s.Sep? {
      NextSepStable(a, b);
      var n := s.at + s.len;
      assert (a + b)[..s.at] == a[..s.at];
      assert (a + b)[n..] == a[n..] + b;
      ScanAppend(a[n..], b);
      ConsThen(FrameOf(a[..s.at], s.len, s.first), Scan(a[n..]), Scan(Scan(a[n..]).rest + b));
    } else {
      assert [] + Scan(a + b).frames == Scan(a + b).frames;
    }
  }

  lemma ScanUnfold(t: Bytes, s: Sep, raw: Bytes, more: Bytes)
    requires NextSep(t, 0) == s && s.Sep?
    requires raw == t[..s.at] && more == t[s.at + s.len..]
    ensures Scan(t) == Cons(FrameOf(raw, s.len, s.first), Scan(more))
  {
  }

  /** `b.replace("\r\r", "\n")` */
  function CrCrToLf(b: Bytes): Bytes {
    if b == [] then []
    else if "\r\r" <= b then "\n" + CrCrToLf(b[2..])
    else [b[0]] + CrCrToLf(b[1..])
  }

  lemma {:induction false} CrCrToLfSame(b: Bytes)
    requires forall k :: 0 <= k < |b| ==> !Occurs(b, "\r\r", k)
    ensures CrCrToLf(b) == b
  {
    if b != [] {
      assert !Occurs(b, "\r\r", 0);
      assert !("\r\r" <= b);
      forall k | 0 <= k < |b[1..]| ensures !Occurs(b[1..], "\r\r", k) { OccursFrom(b, 1, "\r\r", k); }
      CrCrToLfSame(b[1..]);
      assert b == [b[0]] + b[1..];
    }
  }

  /** Normalising a frame that ends in a bare-CR separator changes nothing: it holds no such pair. */
  lemma CrFrameUnchanged(b: Bytes, pos: nat, s: Sep)
    requires pos <= |b| && s == NextSep(b, pos) && s.Sep?
    ensures CrCrToLf(b[pos..s.at]) == b[pos..s.at]
  {
    var raw := b[pos..s.at];
    assert raw == b[..s.at][pos..];
    forall k | 0 <= k < |raw| ensures !Occurs(raw, "\r\r", k) {
      OccursFrom(b[..s.at], pos, "\r\r", k);
      OccursGrows(b[..s.at], b[s.at..], "\r\r", pos + k);
      assert b[..s.at] + b[s.at..] == b;
      assert SepAt(b, pos + k) == 0;
    }
    CrCrToLfSame(raw);
  }

  /** One step of a scan that stands at `pos`. */
  lemma ScanStep(b: Bytes, pos: nat, s: Sep)
    requires pos <= |b| && s == NextSep(b, pos) && s.Sep?
    ensures Scan(b[pos..]) == Cons(FrameOf(b[pos..s.at], s.len, s.first), Scan(b[s.at + s.len..]))
  {
    NextSepFrom(b, pos);
    SliceOfRest(b, pos, s.at, s.at + s.len);
    ScanUnfold(b[pos..], Sep(s.at - pos, s.len, s.first), b[pos..s.at], b[s.at + s.len..]);
  }

  lemma SliceOfRest(b: Bytes, pos: nat, x: nat, y: nat)
    requires pos <= x <= y <= |b|
    ensures b[pos..][..x - pos] == b[pos..x] && b[pos..][y - pos..] == b[y..]
  {
  }

  /** The frames consumed so far, and where the scan stands. */
  ghost predicate Standing(b: Bytes, seen: seq<Bytes>, pos: nat) {
    pos <= |b| && Scan(b) == Then(Scanned(seen, []), Scan(b[pos..]))
  }

  lemma StandingStart(b: Bytes)
    ensures Standing(b, [], 0)
  {
    assert b[0..] == b;
    assert [] + Scan(b).frames == Scan(b).frames;
  }

  lemma StandingStep(b: Bytes, seen: seq<Bytes>, pos: nat, s: Sep)
    requires Standing(b, seen, pos) && s == NextSep(b, pos) && s.Sep?
    ensures Standing(b, seen + [FrameOf(b[pos..s.at], s.len, s.first)], s.at + s.len)
  {
    ScanStep(b, pos, s);
    var later := Scan(b[s.at + s.len..]);
    var frame := FrameOf(b[pos..s.at], s.len, s.first);
    assert seen + ([frame] + later.frames) == (seen + [frame]) + later.frames;
  }

  lemma StandingEnd(b: Bytes, seen: seq<Bytes>, pos: nat)
    requires Standing(b, seen, pos) && NextSep(b, pos).NoSep?
    ensures Scan(b) == Scanned(seen, b[pos..])
  {
    NextSepFrom(b, pos);
    assert seen + [] == seen;
  }

  // ---- counters -----------------------------------------------------------------------------

  datatype Wire = Messages | Chat | Responses

  /** A usage object: its integer members and the two cached-token details. */
  datatype UsageObject = UsageObject(fields: map<string, int>, promptCached: Option<int>, inputCached: Option<int>)

  /** A JSON object as far as the scanner looks into it. */
  datatype Doc = Doc(kind: string, usage: Option<UsageObject>,
                     messageUsage: Option<UsageObject>, responseUsage: Option<UsageObject>)

  datatype Counters = Counters(input: int, output: int, cacheRead: int, cacheCreation: int)

  const ZERO := Counters(0, 0, 0, 0)

  function Max(a: int, b: int): int { if a < b then b else a }

  function Raise(current: int, m: map<string, int>, key: string): int {
    if key in m then Max(current, m[key]) else current
  }

  function RaiseTo(current: int, v: Option<int>): int {
    match v case Some(x) => Max(current, x) case None => current
  }

  function Merge(c: Counters, u: UsageObject): Counters {
    Counters(Raise(c.input, u.fields, "input_tokens"),
             Raise(c.output, u.fields, "output_tokens"),
             Raise(c.cacheRead, u.fields, "cache_read_input_tokens"),
             Raise(c.cacheCreation, u.fields, "cache_creation_input_tokens"))
  }

  function MergeOpenAi(c: Counters, u: UsageObject): Counters {
    c.(input := Raise(c.input, u.fields, "prompt_tokens"),
       output := Raise(c.output, u.fields, "completion_tokens"),
       cacheRead := RaiseTo(c.cacheRead, u.promptCached))
  }

  function MergeResponses(c: Counters, u: UsageObject): Counters {
    var d := Merge(c, u);
    d.(cacheRead := RaiseTo(d.cacheRead, u.inputCached))
  }

  function MergeWire(w: Wire, c: Counters, u: Option<UsageObject>): Counters {
    if u == None then c
    else match w
      case Messages => Merge(c, u.value)
      case Chat => MergeOpenAi(c, u.value)
      case Responses => MergeResponses(c, u.value)
  }

  function MergeDoc(w: Wire, c: Counters, d: Doc): Counters {
    match w
    case Chat => MergeWire(Chat, c, d.usage)
    case Responses =>
      if d.kind == "response.completed" || d.kind == "response.incomplete"
      then MergeWire(Responses, c, d.responseUsage)
      else c
    case Messages =>
      if d.kind == "message_start" then MergeWire(Messages, c, d.messageUsage)
      else if d.kind == "message_delta" then MergeWire(Messages, c, d.usage)
      else c
  }

  /** JSON that is not an object reads as one without any of these members. */
  type DocParser = Bytes -> Option<Doc>

  function ConsumeLine(parse: DocParser, w: Wire, c: Counters, line: Bytes): Counters {
    if !("data:" <= line) then c
    else
      var d := line[5..];
      var data := if " " <= d then d[1..] else d;
      match parse(data) case Some(doc) => MergeDoc(w, c, doc) case None => c
  }

  function ConsumeLines(parse: DocParser, w: Wire, c: Counters, lines: seq<Bytes>): Counters {
    if lines == [] then c
    else ConsumeLine(parse, w, ConsumeLines(parse, w, c, lines[..|lines| - 1]), lines[|lines| - 1])
  }

  /** `event.split("\n")` */
  function SplitLines(frame: Bytes): seq<Bytes> { Lines(frame) + [Rest(frame)] }

  function Consume(parse: DocParser, w: Wire, c: Counters, frame: Bytes): Counters {
    ConsumeLines(parse, w, c, SplitLines(frame))
  }

  function ConsumeAll(parse: DocParser, w: Wire, c: Counters, frames: seq<Bytes>): Counters {
    if frames == [] then c else Consume(parse, w, ConsumeAll(parse, w, c, frames[..|frames| - 1]), frames[|frames| - 1])
  }

  lemma {:induction false} ConsumeAllAppend(parse: DocParser, w: Wire, c: Counters, a: seq<Bytes>, b: seq<Bytes>)
    ensures ConsumeAll(parse, w, c, a + b) == ConsumeAll(parse, w, ConsumeAll(parse, w, c, a), b)
  {
    if b == [] {
      assert a + b == a;
    } else {
      assert (a + b)[..|a + b| - 1] == a + b[..|b| - 1];
      ConsumeAllAppend(parse, w, c, a, b[..|b| - 1]);
    }
  }

  // ---- feeding ------------------------------------------------------------------------------

  datatype State = State(counters: Counters, truncated: bool, buffer: Bytes)

  const FRESH := State(ZERO, false, [])

  /** One piece of an event stream. */
  function FeedSse(parse: DocParser, w: Wire, u: State, chunk: Bytes): State {
    if u.truncated then u
    else
      var s := Scan(u.buffer + chunk);
      var c := ConsumeAll(parse, w, u.counters, s.frames);
      if |s.rest| > MAX_EVENT_BYTES then State(c, true, []) else State(c, false, s.rest)
  }

  /** One piece of a plain JSON body: read once the buffer is a document. */
  function FeedJson(parse: DocParser, w: Wire, u: State, chunk: Bytes): State {
    if u.truncated then u
    else
      var data := u.buffer + chunk;
      if |data| > MAX_JSON_DOC_BYTES then u.(truncated := true, buffer := [])
      else match parse(data)
        case None => u.(buffer := data)
        case Some(doc) => State(MergeWire(w, u.counters, doc.usage), false, [])
  }

  lemma NothingConsumed(parse: DocParser, w: Wire, c: Counters)
    ensures ConsumeAll(parse, w, c, []) == c
  {
  }

  lemma ConsumeSnoc(parse: DocParser, w: Wire, c: Counters, seen: seq<Bytes>, frame: Bytes)
    ensures ConsumeAll(parse, w, c, seen + [frame]) == Consume(parse, w, ConsumeAll(parse, w, c, seen), frame)
  {
    assert (seen + [frame])[..|seen|] == seen;
  }

  lemma SseEnd(parse: DocParser, w: Wire, c: Counters, b: Bytes, seen: seq<Bytes>, pos: nat)
    requires Standing(b, seen, pos) && NextSep(b, pos).NoSep?
    ensures FeedSse(parse, w, State(c, false, []), b) ==
            var after := ConsumeAll(parse, w, c, seen);
            if |b| - pos > MAX_EVENT_BYTES then State(after, true, []) else State(after, false, b[pos..])
  {
    StandingEnd(b, seen, pos);
    assert [] + b == b;
  }

  class Extractor {
    const parse: DocParser
    const wire: Wire
    const jsonMode: bool
    var input: int
    var output: int
    var cacheRead: int
    var cacheCreation: int
    var truncated: bool
    var buffer: Bytes

    ghost function Abs(): State
      reads this
    {
      State(Counters(input, output, cacheRead, cacheCreation), truncated, buffer)
    }

    constructor (parse: DocParser, jsonMode: bool, wire: Wire)
      ensures this.parse == parse && this.jsonMode == jsonMode && this.wire == wire
      ensures Abs() == FRESH
    {
      this.parse, this.jsonMode, this.wire := parse, jsonMode, wire;
      input, output, cacheRead, cacheCreation := 0, 0, 0, 0;
      truncated, buffer := false, [];
    }

    method SetCounters(c: Counters)
      modifies this`input, this`output, this`cacheRead, this`cacheCreation
      ensures Abs() == old(Abs()).(counters := c)
    {
      input, output, cacheRead, cacheCreation := c.input, c.output, c.cacheRead, c.cacheCreation;
    }

    method ConsumeEvent(event: Bytes)
      modifies this`input, this`output, this`cacheRead, this`cacheCreation
      ensures Abs() == old(Abs()).(counters := Consume(parse, wire, old(Abs()).counters, event))
    {
      var lines := SplitLines(event);
      for k := 0 to |lines|
        invariant Abs() == old(Abs()).(counters := ConsumeLines(parse, wire, old(Abs()).counters, lines[..k]))
      {
        assert lines[..k + 1][..k] == lines[..k];
        var line := lines[k];
        if "data:" <= line {
          line := line[5..];
          if " " <= line { line := line[1..]; }
          var doc := parse(line);
          if doc.Some? {
            SetCounters(MergeDoc(wire, Counters(input, output, cacheRead, cacheCreation), doc.value));
          }
        }
      }
      assert lines[..|lines|] == lines;
    }

    method ConsumeSse()
      requires !truncated
      modifies this`input, this`output, this`cacheRead, this`cacheCreation, this`truncated, this`buffer
      ensures Abs() == FeedSse(parse, wire, old(Abs()).(buffer := []), old(buffer))
    {
      hide NextSep, FrameOf, Scan, Standing, Consume, ConsumeAll, FeedSse;
      var pos: nat := 0;
      ghost var c0 := Abs().counters;
      ghost var seen: seq<Bytes> := [];
      StandingStart(buffer);
      NothingConsumed(parse, wire, c0);
      while true
        invariant pos <= |buffer| && buffer == old(buffer) && !truncated && Standing(buffer, seen, pos)
        invariant Abs().counters == ConsumeAll(parse, wire, c0, seen)
        decreases |buffer| - pos
      {
        var s := NextSep(buffer, pos);
        if s.NoSep? {
          SseEnd(parse, wire, c0, buffer, seen, pos);
          if |buffer| - pos > MAX_EVENT_BYTES {
            truncated := true;
            buffer := [];
          } else {
            buffer := buffer[pos..];
          }
          return;
        }
        StandingStep(buffer, seen, pos, s);
        var frame := FrameOf(buffer[pos..s.at], s.len, s.first);
        ConsumeEvent(frame);
        ConsumeSnoc(parse, wire, c0, seen, frame);
        seen := seen + [frame];
        pos := s.at + s.len;
      }
    }

    method Feed(chunk: Bytes)
      modifies this`input, this`output, this`cacheRead, this`cacheCreation, this`truncated, this`buffer
      ensures Abs() ==
              if jsonMode then FeedJson(parse, wire, old(Abs()), chunk)
              else FeedSse(parse, wire, old(Abs()), chunk)
    {
      if truncated { return; }
      buffer := buffer + chunk;
      if jsonMode {
        if |buffer| > MAX_JSON_DOC_BYTES {
          truncated := true;
          buffer := [];
          return;
        }
        var doc := parse(buffer);
        if doc.Some? {
          SetCounters(MergeWire(wire, Counters(input, output, cacheRead, cacheCreation), doc.value.usage));
          buffer := [];
        }
        return;
      }
      ConsumeSse();
      assert [] + (old(buffer) + chunk) == old(buffer) + chunk;
    }
  }

  // ---- pieces -------------------------------------------------------------------------------

  function FeedAll(parse: DocParser, w: Wire, chunks: seq<Bytes>): State {
    if chunks == [] then FRESH else FeedSse(parse, w, FeedAll(parse, w, chunks[..|chunks| - 1]), chunks[|chunks| - 1])
  }

  /** No piece of the stream leaves an unterminated stretch over the limit. */
  ghost predicate NeverOverLimit(b: Bytes) {
    forall n :: 0 <= n <= |b| ==> |Scan(b[..n]).rest| <= MAX_EVENT_BYTES
  }

  lemma OverLimitPrefix(a: Bytes, b: Bytes)
    requires NeverOverLimit(a + b)
    ensures NeverOverLimit(a)
  {
    forall n | 0 <= n <= |a| ensures |Scan(a[..n]).rest| <= MAX_EVENT_BYTES {
      assert (a + b)[..n] == a[..n];
    }
  }

  lemma {:induction false} FeedsAreOneScan(parse: DocParser, w: Wire, chunks: seq<Bytes>)
    requires NeverOverLimit(Concat(chunks))
    ensures var s := Scan(Concat(chunks));
            FeedAll(parse, w, chunks) == State(ConsumeAll(parse, w, ZERO, s.frames), false, s.rest)
  {
    if chunks == [] {
      assert NextSep([], 0).NoSep?;
    } else {
      var init, last := chunks[..|chunks| - 1], chunks[|chunks| - 1];
      OverLimitPrefix(Concat(init), last);
      FeedsAreOneScan(parse, w, init);
      ScanAppend(Concat(init), last);
      var s := Scan(Concat(init));
      ConsumeAllAppend(parse, w, ZERO, s.frames, Scan(s.rest + last).frames);
      var all := Concat(chunks);
      assert all[..|all|] == all;
    }
  }

  lemma OneFeed(parse: DocParser, w: Wire, b: Bytes)
    ensures FeedAll(parse, w, [b]) == FeedSse(parse, w, FRESH, b) && Concat([b]) == b
    ensures FeedSse(parse, w, FRESH, b).truncated <==> |Scan(b).rest| > MAX_EVENT_BYTES
  {
    assert [b][..0] == [];
    assert [] + b == b;
  }

  lemma TwoFeeds(parse: DocParser, w: Wire, a: Bytes, b: Bytes)
    ensures FeedAll(parse, w, [a, b]) == FeedSse(parse, w, FeedSse(parse, w, FRESH, a), b) && Concat([a, b]) == a + b
  {
    OneFeed(parse, w, a);
    assert [a, b][..1] == [a];
  }

  lemma OverLimitMatters(parse: DocParser, w: Wire, b: Bytes, n: nat)
    requires n <= |b| && |Scan(b[..n]).rest| > MAX_EVENT_BYTES
    ensures Concat([b[..n], b[n..]]) == b && FeedAll(parse, w, [b[..n], b[n..]]).truncated
  {
    TwoFeeds(parse, w, b[..n], b[n..]);
    OneFeed(parse, w, b[..n]);
    assert b[..n] + b[n..] == b;
  }

  ghost predicate PiecesDoNotMatter(parse: DocParser, w: Wire, b: Bytes) {
    forall chunks :: Concat(chunks) == b ==> FeedAll(parse, w, chunks) == FeedAll(parse, w, [b])
  }

  lemma WithinLimit(parse: DocParser, w: Wire, b: Bytes)
    requires NeverOverLimit(b)
    ensures PiecesDoNotMatter(parse, w, b)
  {
    OneFeed(parse, w, b);
    forall chunks | Concat(chunks) == b ensures FeedAll(parse, w, chunks) == FeedAll(parse, w, [b]) {
      FeedsAreOneScan(parse, w, chunks);
      FeedsAreOneScan(parse, w, [b]);
    }
  }

  lemma OnlyWithinLimit(parse: DocParser, w: Wire, b: Bytes)
    requires !FeedAll(parse, w, [b]).truncated && PiecesDoNotMatter(parse, w, b)
    ensures NeverOverLimit(b)
  {
    hide Scan, FeedAll;
    forall n | 0 <= n <= |b| ensures |Scan(b[..n]).rest| <= MAX_EVENT_BYTES {
      if |Scan(b[..n]).rest| > MAX_EVENT_BYTES { OverLimitMatters(parse, w, b, n); }
    }
  }

  /**
   * Chunk invariance of the scanner. For a stream that one feed does not truncate: counters,
   * leftover buffer and flag are the same for all its cuttings into pieces if and only if no
   * prefix leaves an unterminated stretch longer than the limit.
   */
  lemma ScanningPieces(parse: DocParser, w: Wire, b: Bytes)
    requires !FeedAll(parse, w, [b]).truncated
    ensures PiecesDoNotMatter(parse, w, b) <==> NeverOverLimit(b)
  {
    if NeverOverLimit(b) {
      WithinLimit(parse, w, b);
    } else if PiecesDoNotMatter(parse, w, b) {
      OnlyWithinLimit(parse, w, b);
    }
  }
}
