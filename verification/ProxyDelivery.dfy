/** What an upstream finds when it reads what the proxy wrote to it. */
module ProxyDelivery {
  import opened Prelude
  import opened ByteLines
  import opened HttpFramer
  import opened HttpHead
  import opened HttpProxy
  import opened ProxyAttribution

  // ---- which headers go on ----------------------------------------------------------------------

  /** One of the comma-separated pieces of the value is this word, blanks and case aside. */
  ghost predicate Lists(v: Bytes, word: Bytes) {
    exists a, b :: IsPiece(v, a, b) && Lower(TextStrip(v[a..b])) == word
  }

  ghost predicate IsPiece(v: Bytes, a: int, b: int) {
    && 0 <= a <= b <= |v|
    && (a == 0 || v[a - 1] == ',') && (b == |v| || v[b] == ',')
    && forall k :: a <= k < b ==> v[k] != ','
  }

  lemma {:induction false} WordsAreListed(v: Bytes, word: Bytes)
    ensures word in Words(v) <==> Lists(v, word)
    decreases |v|
  {
    hide Lower, TextStrip;
    var c := Find(v, ',');
    if c < 0 {
      assert v[0..|v|] == v;
      assert IsPiece(v, 0, |v|);
      forall a, b | IsPiece(v, a, b) ensures v[a..b] == v { OnlyPiece(v, a, b); }
    } else {
      var more := v[c + 1..];
      WordsAreListed(more, word);
      assert IsPiece(v, 0, c) && v[0..c] == v[..c];
      if Lists(more, word) {
        var a, b :| IsPiece(more, a, b) && Lower(TextStrip(more[a..b])) == word;
        LaterPiece(v, c, a, b);
        assert IsPiece(v, a + c + 1, b + c + 1) && v[a + c + 1..b + c + 1] == more[a..b];
      }
      if Lists(v, word) {
        var a, b :| IsPiece(v, a, b) && Lower(TextStrip(v[a..b])) == word;
        PieceBehind(v, c, a, b);
        if a != 0 { assert IsPiece(more, a - c - 1, b - c - 1) && more[a - c - 1..b - c - 1] == v[a..b]; }
      }
    }
  }

  lemma OnlyPiece(v: Bytes, a: int, b: int)
    requires Find(v, ',') < 0 && IsPiece(v, a, b)
    ensures v[a..b] == v
  {
    assert forall k :: 0 <= k < |v| ==> v[k] != ',';
    assert a == 0 && b == |v|;
  }

  lemma LaterPiece(v: Bytes, c: int, a: int, b: int)
    requires 0 <= c < |v| && v[c] == ',' && IsPiece(v[c + 1..], a, b)
    ensures IsPiece(v, a + c + 1, b + c + 1) && v[a + c + 1..b + c + 1] == v[c + 1..][a..b]
  {
    var more := v[c + 1..];
    assert forall k :: 0 <= k < |more| ==> more[k] == v[k + c + 1];
    forall k | a + c + 1 <= k < b + c + 1 ensures v[k] != ',' { assert more[k - c - 1] != ','; }
  }

  lemma PieceBehind(v: Bytes, c: int, a: int, b: int)
    requires c == Find(v, ',') && 0 <= c && IsPiece(v, a, b)
    ensures a == 0 ==> b == c && v[a..b] == v[..c]
    ensures a != 0 ==> c < a && IsPiece(v[c + 1..], a - c - 1, b - c - 1)
                       && v[c + 1..][a - c - 1..b - c - 1] == v[a..b]
  {
    var more := v[c + 1..];
    assert forall k :: 0 <= k < |more| ==> more[k] == v[k + c + 1];
    assert v[c] == ',' && forall k :: 0 <= k < c ==> v[k] != ',';
    if a == 0 { assert b == c; } else { assert c < a; }
  }

  /** A Connection header of the request names this header. */
  ghost predicate Named(headers: seq<Bytes>, name: Bytes) {
    exists j :: 0 <= j < |headers| && HeaderName(headers[j]) == Some("connection")
                && Lists(HeaderValue(headers[j]), name)
  }

  lemma {:induction false} TokensAreNamed(headers: seq<Bytes>, name: Bytes)
    ensures name in ConnectionTokens(headers) <==> Named(headers, name)
    decreases |headers|
  {
    hide Words, Lists, HeaderName, HeaderValue;
    if headers != [] {
      var init, last := headers[..|headers| - 1], headers[|headers| - 1];
      TokensAreNamed(init, name);
      WordsAreListed(HeaderValue(last), name);
      assert forall j :: 0 <= j < |init| ==> headers[j] == init[j];
      if Named(init, name) {
        var j :| 0 <= j < |init| && HeaderName(init[j]) == Some("connection") && Lists(HeaderValue(init[j]), name);
        assert HeaderName(headers[j]) == Some("connection");
      }
      if HeaderName(last) == Some("connection") && Lists(HeaderValue(last), name) {
        assert HeaderName(headers[|headers| - 1]) == Some("connection");
      }
    }
  }

  /** A header line that is the origin's business. */
  ghost predicate ForOrigin(headers: seq<Bytes>, line: Bytes) {
    match HeaderName(line)
    case None => true
    case Some(name) =>
      && name != "proxy-authorization" && name != "proxy-connection" && name != "connection" && name != "keep-alive"
      && name != "te" && name != "trailer" && name != "upgrade" && !Named(headers, name)
  }

  /** These lines are, in order, exactly the ones among the headers that are the origin's business. */
  ghost predicate Chosen(lines: seq<Bytes>, headers: seq<Bytes>, at: seq<int>) {
    && |at| == |lines| && Ascending(at)
    && (forall i :: i in at <==> 0 <= i < |headers| && ForOrigin(headers, headers[i]))
    && forall k :: 0 <= k < |at| ==> 0 <= at[k] < |headers| && lines[k] == headers[at[k]]
  }

  /** The same for any test of single lines. */
  ghost predicate Picked(lines: seq<Bytes>, headers: seq<Bytes>, blocked: set<Bytes>, at: seq<int>) {
    && |at| == |lines| && Ascending(at)
    && (forall i :: i in at <==> 0 <= i < |headers| && Passes(headers[i], blocked))
    && forall k :: 0 <= k < |at| ==> 0 <= at[k] < |headers| && lines[k] == headers[at[k]]
  }

  lemma PicksMore(lines: seq<Bytes>, headers: seq<Bytes>, last: Bytes, blocked: set<Bytes>, at: seq<int>)
    requires Picked(lines, headers, blocked, at)
    ensures Passes(last, blocked) ==> Picked(lines + [last], headers + [last], blocked, at + [|headers|])
    ensures !Passes(last, blocked) ==> Picked(lines, headers + [last], blocked, at)
  {
    hide Passes;
    var all, more := headers + [last], at + [|headers|];
    assert all[|headers|] == last && forall i :: 0 <= i < |headers| ==> all[i] == headers[i];
    assert forall i :: i in more <==> i in at || i == |headers|;
    assert forall k :: 0 <= k < |at| ==> at[k] in at;
  }

  lemma {:induction false} PassingPicks(headers: seq<Bytes>, blocked: set<Bytes>) returns (at: seq<int>)
    ensures Picked(Passing(headers, blocked), headers, blocked, at)
    decreases |headers|
  {
    hide Picked, Passes;
    at := [];
    if headers == [] {
      NothingPicked(blocked);
    } else {
      var init, last := headers[..|headers| - 1], headers[|headers| - 1];
      var before := PassingPicks(init, blocked);
      PicksMore(Passing(init, blocked), init, last, blocked, before);
      assert headers == init + [last];
      if Passes(last, blocked) {
        at := before + [|init|];
      } else {
        at := before;
        assert Passing(init, blocked) + [] == Passing(init, blocked);
      }
    }
  }

  lemma NothingPicked(blocked: set<Bytes>)
    ensures Picked([], [], blocked, [])
  {
  }

  lemma ForwardedAreChosen(headers: seq<Bytes>) returns (at: seq<int>)
    ensures Chosen(Forwarded(headers), headers, at)
  {
    hide Passing, HeaderName, Named, ConnectionTokens;
    var blocked := HOP_BY_HOP + ConnectionTokens(headers);
    at := PassingPicks(headers, blocked);
    forall i | 0 <= i < |headers| ensures Passes(headers[i], blocked) <==> ForOrigin(headers, headers[i]) {
      if HeaderName(headers[i]).Some? { TokensAreNamed(headers, HeaderName(headers[i]).value); }
    }
  }

  // ---- one request as the upstream reads it -------------------------------------------------------

  /** Targets are parts of one line, shorter in origin form than the line they were read from. */
  ghost predicate OriginForm(parse: LineParser) {
    forall line :: parse(line).Target? ==>
      && '\n' !in parse(line).verb && '\n' !in parse(line).path && '\n' !in parse(line).version
      && |parse(line).verb| + |parse(line).path| + |parse(line).version| + 4 < |line|
  }

  /** A request read off a connection: its lines and its body. */
  datatype Seen = Seen(start: Bytes, headers: seq<Bytes>, body: Bytes)

  /**
   * Request `r` as it has to arrive: its method, path and version, exactly the header lines that are
   * the origin's business, in order, and the body.
   */
  ghost predicate Delivered(parse: LineParser, r: Request, seen: Seen) {
    var t := parse(r.head.start);
    && t.Target? && seen.start == t.verb + " " + t.path + " " + t.version + "\r\n"
    && (exists at :: Chosen(seen.headers, r.head.headers, at))
    && seen.body == BodyText(r.body)
  }

  lemma LineOf(parts: Bytes)
    requires '\n' !in parts
    ensures IsLine(parts + "\r\n")
  {
    var line := parts + "\r\n";
    assert forall k :: 0 <= k < |parts| ==> line[k] == parts[k] && parts[k] in parts;
    FindUnique(line, '\n', |parts| + 1);
  }

  lemma {:induction false} PassingIsPlain(headers: seq<Bytes>, blocked: set<Bytes>)
    requires PlainLines(headers)
    ensures PlainLines(Passing(headers, blocked)) && |Concat(Passing(headers, blocked))| <= |Concat(headers)|
    decreases |headers|
  {
    hide Passes;
    if headers != [] {
      var init := headers[..|headers| - 1];
      assert forall k :: 0 <= k < |init| ==> init[k] == headers[k];
      PassingIsPlain(init, blocked);
      ConcatSnoc(Passing(init, blocked), headers[|headers| - 1]);
      assert Passing(init, blocked) + [] == Passing(init, blocked);
    }
  }

  /** The head that was written is read back line by line, and the body is what follows it. */
  lemma SentHeadReads(parse: LineParser, r: Request, rest: Bytes) returns (n: nat)
    requires ProperRequest(parse, r) && OriginForm(parse)
    ensures var t := parse(r.head.start);
            && ReadHead(ForwardOf(t, r) + rest) ==
               Got(Head(t.verb + " " + t.path + " " + t.version + "\r\n", Forwarded(r.head.headers)), n)
            && 0 < n <= |ForwardOf(t, r)|
            && (ForwardOf(t, r) + rest)[n..] == BodyText(r.body) + rest
  {
    hide Forwarded, BodyText, ParseFraming;
    var t := parse(r.head.start);
    var parts := t.verb + " " + t.path + " " + t.version;
    var h := Head(parts + "\r\n", Forwarded(r.head.headers));
    LineOf(parts);
    ForwardedIsPlain(r.head.headers);
    assert ForwardHead(t, r.head.headers) == HeadBytes(h, "\r\n");
    n := |HeadBytes(h, "\r\n")|;
    HeadExact(h, "\r\n", BodyText(r.body) + rest);
    Regroup(HeadBytes(h, "\r\n"), BodyText(r.body), rest);
    CutAt(HeadBytes(h, "\r\n"), BodyText(r.body) + rest);
  }

  lemma ForwardedIsPlain(headers: seq<Bytes>)
    requires PlainLines(headers)
    ensures PlainLines(Forwarded(headers)) && |Concat(Forwarded(headers))| <= |Concat(headers)|
  {
    PassingIsPlain(headers, HOP_BY_HOP + ConnectionTokens(headers));
  }

  /** No Connection header names the header that delimits the body. */
  ghost predicate BodyHeaderStays(r: Request) {
    match r.body
    case NoBody => true
    case Counted(_) => !Named(r.head.headers, "content-length")
    case InChunks(_) => !Named(r.head.headers, "transfer-encoding")
  }

  /** What the headers that arrive declare. */
  lemma FramingOfForwarded(headers: seq<Bytes>)
    requires ParseFraming(headers).Some?
    ensures var f, g := ParseFraming(headers).value, ParseFraming(Forwarded(headers));
            && g.Some?
            && g.value.contentLength == (if Named(headers, "content-length") then None else f.contentLength)
            && g.value.chunked == (f.chunked && !Named(headers, "transfer-encoding"))
            && !(f.contentLength.Some? && f.chunked)
  {
    hide ScanFraming, ConnectionTokens, Named;
    TokensAreNamed(headers, "content-length");
    TokensAreNamed(headers, "transfer-encoding");
    PassingScan(headers, HOP_BY_HOP + ConnectionTokens(headers));
  }

  lemma BodyIsThere(b: Body)
    requires (b.Counted? && b.data != []) || b.InChunks?
    ensures BodyText(b) != []
  {
    if b.InChunks? { ChunksAreThere(b.text.chunks, LastBytes(b.text)); }
  }

  lemma {:induction false} ChunksAreThere(chunks: seq<ChunkText>, last: Bytes)
    requires last != []
    ensures BodyBytes(chunks, last) != []
  {
    if chunks != [] { ChunksAreThere(chunks[1..], last); }
  }

  /** The headers that arrive delimit the body if and only if the client has not named the one that does. */
  lemma BodyStaysDelimited(parse: LineParser, r: Request, rest: Bytes)
    requires ProperRequest(parse, r)
    ensures var g := ParseFraming(Forwarded(r.head.headers));
            g.Some? && RequestBody(g.value, BodyText(r.body) + rest) == Relay(|BodyText(r.body)|, true)
            <==> BodyHeaderStays(r)
  {
    hide ParseFraming, Forwarded, Named, ConnectionTokens, WellFormed, Chunked;
    var headers := r.head.headers;
    FramingOfForwarded(headers);
    var f, g := ParseFraming(headers).value, ParseFraming(Forwarded(headers));
    if BodyHeaderStays(r) {
      if r.body != NoBody { BodyIsTaken(g.value, r.body, rest); }
    } else {
      BodyIsThere(r.body);
    }
  }

  // ---- all of them --------------------------------------------------------------------------------

  /** Message after message, by the heads and the lengths they declare. */
  function ReadAll(data: Bytes): seq<Seen>
    decreases |data|
  {
    var r := ReadHead(data);
    if !r.Got? || r.taken == 0 || r.taken > |data| || ParseFraming(r.head.headers) == None then []
    else
      var rest := data[r.taken..];
      var b := RequestBody(ParseFraming(r.head.headers).value, rest);
      [Seen(r.head.start, r.head.headers, rest[..b.taken])] + ReadAll(rest[b.taken..])
  }

  lemma FirstIsDelivered(parse: LineParser, r: Request, rest: Bytes) returns (seen: Seen)
    requires ProperRequest(parse, r) && OriginForm(parse) && BodyHeaderStays(r)
    ensures ReadAll(ForwardOf(parse(r.head.start), r) + rest) == [seen] + ReadAll(rest) && Delivered(parse, r, seen)
  {
    hide ReadHead, ParseFraming, RequestBody, Forwarded, BodyHeaderStays, BodyText, ForwardHead;
    var t := parse(r.head.start);
    var n := SentHeadReads(parse, r, rest);
    BodyStaysDelimited(parse, r, rest);
    CutAt(BodyText(r.body), rest);
    var at := ForwardedAreChosen(r.head.headers);
    seen := Seen(t.verb + " " + t.path + " " + t.version + "\r\n", Forwarded(r.head.headers), BodyText(r.body));
    assert Chosen(seen.headers, r.head.headers, at);
  }

  /** The entries of the log that went out on connection c. */
  function OnConn(log: seq<Entry>, c: nat): seq<nat> {
    if log == [] then []
    else OnConn(log[..|log| - 1], c) + if log[|log| - 1].conn == c then [|log| - 1] else []
  }

  lemma {:induction false} OnConnAre(log: seq<Entry>, c: nat)
    ensures Ascending(OnConn(log, c))
    ensures forall k: nat :: k in OnConn(log, c) <==> k < |log| && log[k].conn == c
    decreases |log|
  {
    if log != [] {
      var init, n: nat := log[..|log| - 1], |log| - 1;
      OnConnAre(init, c);
      var before := OnConn(init, c);
      forall k: nat ensures k in OnConn(log, c) <==> k < |log| && log[k].conn == c {
        if k < n { assert init[k] == log[k]; }
        InSnoc(before, n, k);
      }
      forall i, j | 0 <= i < j < |OnConn(log, c)| ensures OnConn(log, c)[i] < OnConn(log, c)[j] {
        if j == |before| { assert before[i] in before; }
      }
    }
  }

  lemma InSnoc(s: seq<nat>, n: nat, k: nat)
    ensures k in s + [n] <==> k in s || k == n
    ensures k in s + [] <==> k in s
  {
  }

  ghost predicate AllDelivered(parse: LineParser, rs: seq<Request>, ids: seq<nat>, all: seq<Seen>) {
    && |all| == |ids|
    && forall j :: 0 <= j < |ids| ==> ids[j] < |rs| && Delivered(parse, rs[ids[j]], all[j])
  }

  ghost predicate Deliverable(parse: LineParser, rs: seq<Request>) {
    OriginForm(parse) && forall j :: 0 <= j < |rs| ==> ProperRequest(parse, rs[j]) && BodyHeaderStays(rs[j])
  }

  lemma LastDeliverable(parse: LineParser, rs: seq<Request>, log: seq<Entry>)
    requires log != [] && Deliverable(parse, rs) && Attributed(parse, log, rs)
    ensures var n := |log| - 1;
            && Attributed(parse, log[..n], rs) && n < |rs|
            && ProperRequest(parse, rs[n]) && BodyHeaderStays(rs[n]) && OriginForm(parse)
            && log[n].sent == ForwardOf(parse(rs[n].head.start), rs[n])
  {
    hide ProperRequest, BodyHeaderStays, OriginForm, ForwardOf;
    var n := |log| - 1;
    assert EntryOf(parse, log[n], rs[n]);
    forall k | 0 <= k < n ensures EntryOf(parse, log[..n][k], rs[k]) { assert EntryOf(parse, log[k], rs[k]); }
  }

  /** The tail lets the proof take the log from its end. */
  lemma {:induction false} SentIsDelivered(parse: LineParser, rs: seq<Request>, log: seq<Entry>, c: nat, tail: Bytes)
    returns (all: seq<Seen>)
    requires Deliverable(parse, rs) && Attributed(parse, log, rs)
    ensures ReadAll(SentOn(log, c) + tail) == all + ReadAll(tail) && AllDelivered(parse, rs, OnConn(log, c), all)
    decreases |log|
  {
    hide ReadAll, ProperRequest, BodyHeaderStays, Delivered, OriginForm, Deliverable, Attributed, ForwardOf;
    if log == [] {
      all := [];
      assert [] + tail == tail && [] + ReadAll(tail) == ReadAll(tail);
    } else {
      var init, e := log[..|log| - 1], log[|log| - 1];
      LastDeliverable(parse, rs, log);
      if e.conn == c {
        var r := rs[|init|];
        var seen := FirstIsDelivered(parse, r, tail);
        var before := SentIsDelivered(parse, rs, init, c, e.sent + tail);
        Regroup(SentOn(init, c), e.sent, tail);
        all := before + [seen];
        assert before + ([seen] + ReadAll(tail)) == all + ReadAll(tail);
      } else {
        all := SentIsDelivered(parse, rs, init, c, tail);
        assert SentOn(init, c) + [] == SentOn(init, c) && OnConn(init, c) + [] == OnConn(init, c);
      }
    }
  }

  /**
   * Whatever dials and upstreams do: an upstream that reads what it was written, by heads and declared
   * lengths, finds exactly the requests forwarded to it, one by one and as they have to arrive.
   */
  lemma UpstreamsFindTheRequests(parse: LineParser, status: StatusParser, dial: Dialer, rs: seq<Request>, c: nat)
    requires Deliverable(parse, rs)
    requires c < |Conns(Serve(parse, status, dial, Start(StreamOf(rs))))|
    ensures var s := Serve(parse, status, dial, Start(StreamOf(rs)));
            AllDelivered(parse, rs, OnConn(s.log, c), ReadAll(Conns(s)[c].written))
  {
    hide Serve, ProperRequest, ReadAll, Delivered, BodyHeaderStays, OriginForm;
    RequestsAreAttributed(parse, status, dial, rs);
    var s := Serve(parse, status, dial, Start(StreamOf(rs)));
    assert Accounted(Conns(s)[c], s.log, c);
    var all := SentIsDelivered(parse, rs, s.log, c, []);
    assert SentOn(s.log, c) + [] == SentOn(s.log, c);
    NothingToRead();
    assert all + [] == all;
  }

  lemma NothingToRead()
    ensures ReadAll([]) == []
  {
  }
}
