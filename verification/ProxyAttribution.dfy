/** Whose bytes go where: attribution of requests, completeness of replies, framing kept. */
module ProxyAttribution {
  import opened Prelude
  import opened ByteLines
  import opened HttpFramer
  import opened HttpHead
  import opened HttpProxy

  // ---- requests as a client means them ---------------------------------------------------------

  datatype Body = NoBody | Counted(data: Bytes) | InChunks(text: ChunkedText)
  datatype Request = Request(head: Head, blank: Bytes, body: Body)

  function BodyText(b: Body): Bytes {
    match b
    case NoBody => []
    case Counted(d) => d
    case InChunks(t) => BodyBytes(t.chunks, LastBytes(t))
  }

  function RequestBytes(r: Request): Bytes { HeadBytes(r.head, r.blank) + BodyText(r.body) }

  /** The declared framing is the framing of the body. */
  ghost predicate Fits(f: Framing, b: Body) {
    match b
    case NoBody => !f.chunked && (f.contentLength == None || f.contentLength == Some(0))
    case Counted(d) => d != [] && f.contentLength == Some(|d|)
    case InChunks(t) => f.contentLength == None && f.chunked && WellFormed(t)
  }

  ghost predicate ProperRequest(parse: LineParser, r: Request) {
    && IsLine(r.head.start) && PlainLines(r.head.headers) && Blank(r.blank)
    && |HeadBytes(r.head, r.blank)| <= MAX_HEAD_BYTES
    && parse(r.head.start).Target?
    && ParseFraming(r.head.headers).Some? && Fits(ParseFraming(r.head.headers).value, r.body)
  }

  function StreamOf(rs: seq<Request>): Bytes {
    if rs == [] then [] else RequestBytes(rs[0]) + StreamOf(rs[1..])
  }

  /** What must reach the upstream for this request. */
  function ForwardOf(t: Target, r: Request): Bytes
    requires t.Target?
  {
    ForwardHead(t, r.head.headers) + BodyText(r.body)
  }

  lemma BodyIsTaken(f: Framing, b: Body, rest: Bytes)
    requires Fits(f, b)
    ensures RequestBody(f, BodyText(b) + rest) == Relay(|BodyText(b)|, true)
  {
    if b.InChunks? { WellFormedChunkedExact(b.text, rest); }
  }

  /** Reading the next request of a proper stream takes exactly that request. */
  lemma NextRequest(parse: LineParser, r: Request, rest: Bytes)
    requires ProperRequest(parse, r)
    ensures var data := RequestBytes(r) + rest;
            var n := |HeadBytes(r.head, r.blank)|;
            && ReadHead(data) == Got(r.head, n) && n <= |data|
            && data[n..] == BodyText(r.body) + rest
            && RequestBody(ParseFraming(r.head.headers).value, data[n..]) == Relay(|BodyText(r.body)|, true)
            && data[n..][..|BodyText(r.body)|] == BodyText(r.body) && data[n..][|BodyText(r.body)|..] == rest
  {
    var h, b := HeadBytes(r.head, r.blank), BodyText(r.body);
    Regroup(h, b, rest);
    HeadExact(r.head, r.blank, b + rest);
    BodyIsTaken(ParseFraming(r.head.headers).value, r.body, rest);
    CutAt(h, b + rest);
    CutAt(b, rest);
  }

  lemma CutAt(a: Bytes, b: Bytes)
    ensures (a + b)[..|a|] == a && (a + b)[|a|..] == b
  {
  }

  // ---- attribution ------------------------------------------------------------------------------

  /** Entry `e` of the log is request `r`, sent whole and as it was given, for its own origin. */
  ghost predicate EntryOf(parse: LineParser, e: Entry, r: Request) {
    var t := parse(r.head.start);
    t.Target? && e.origin == t.origin && e.verb == t.verb && e.sent == ForwardOf(t, r)
  }

  ghost predicate Attributed(parse: LineParser, log: seq<Entry>, rs: seq<Request>) {
    |log| <= |rs| && forall k :: 0 <= k < |log| ==> EntryOf(parse, log[k], rs[k])
  }

  lemma RoundAttributes(parse: LineParser, status: StatusParser, dial: Dialer, s: Session, r: Request, rest: Bytes)
    requires ProperRequest(parse, r) && s.input == RequestBytes(r) + rest
    ensures var t := Round(parse, status, dial, s);
            && (t.s.log == s.log
                || (|t.s.log| == |s.log| + 1 && t.s.log[..|s.log|] == s.log
                    && EntryOf(parse, t.s.log[|s.log|], r)))
            && (t.more ==> t.s.log != s.log && t.s.input == rest)
  {
    hide ReadHead, ParseFraming, RequestBody, ReplyTo, HeadBytes, ForwardHead, BodyText;
    NextRequest(parse, r, rest);
  }

  lemma {:induction false} ServeAttributes(parse: LineParser, status: StatusParser, dial: Dialer, s: Session,
                                      rs: seq<Request>, k: nat)
    requires k <= |rs| && |s.log| == k && Attributed(parse, s.log, rs)
    requires forall j :: 0 <= j < |rs| ==> ProperRequest(parse, rs[j])
    requires s.input == StreamOf(rs[k..])
    ensures Attributed(parse, Serve(parse, status, dial, s).log, rs)
    decreases |rs| - k
  {
    hide Serve, Round, ProperRequest, EntryOf;
    ServeStep(parse, status, dial, s);
    var t := Round(parse, status, dial, s);
    if k == |rs| {
      assert s.input == [];
      RoundOnNothing(parse, status, dial, s);
    } else {
      assert rs[k..][0] == rs[k] && rs[k..][1..] == rs[k + 1..];
      RoundAttributes(parse, status, dial, s, rs[k], StreamOf(rs[k + 1..]));
      assert forall j :: 0 <= j < k ==> t.s.log[..|s.log|] == s.log ==> t.s.log[j] == s.log[j];
      if t.more { ServeAttributes(parse, status, dial, t.s, rs, k + 1); }
    }
  }

  lemma RoundOnNothing(parse: LineParser, status: StatusParser, dial: Dialer, s: Session)
    requires s.input == []
    ensures Round(parse, status, dial, s) == End(s)
  {
  }

  // ---- complete replies -------------------------------------------------------------------------

  datatype Message = Message(head: Head, blank: Bytes)

  function MessageBytes(m: Message): Bytes { HeadBytes(m.head, m.blank) }

  function MessagesBytes(ms: seq<Message>): Bytes {
    if ms == [] then [] else MessageBytes(ms[0]) + MessagesBytes(ms[1..])
  }

  ghost predicate IsInterim(status: StatusParser, m: Message) {
    Blank(m.blank) && status(m.head.start).Some? && 100 <= status(m.head.start).value < 200
  }

  /** The body ends where its own framing says, and the connection stays open behind it. */
  ghost predicate SelfDelimited(verb: Bytes, code: int, headers: seq<Bytes>, body: Bytes) {
    if verb == "HEAD" || code == 204 || code == 304 then body == []
    else
      var f := ParseFraming(headers);
      && f.Some? && !f.value.close
      && if f.value.contentLength.Some? then
               |body| == (if f.value.contentLength.value < 0 then 0 else f.value.contentLength.value)
         else f.value.chunked && Chunked(body) == Relay(|body|, true)
  }

  /** Any number of interim messages, then one final message with a self-delimited body. */
  ghost predicate Consists(status: StatusParser, verb: Bytes, reply: Bytes, interims: seq<Message>,
                            final: Message, body: Bytes) {
    && reply == MessagesBytes(interims) + (MessageBytes(final) + body)
    && (forall k :: 0 <= k < |interims| ==> IsInterim(status, interims[k]))
    && Blank(final.blank) && status(final.head.start).Some? && !(100 <= status(final.head.start).value < 200)
    && SelfDelimited(verb, status(final.head.start).value, final.head.headers, body)
  }

  ghost predicate CompleteReply(status: StatusParser, verb: Bytes, reply: Bytes) {
    exists interims, final, body :: Consists(status, verb, reply, interims, final, body)
  }

  lemma {:induction false} FinalHeadShape(status: StatusParser, inbox: Bytes)
    returns (interims: seq<Message>, blank: Bytes)
    requires FinalHead(status, inbox).Final?
    ensures var f := FinalHead(status, inbox);
            && Blank(blank) && inbox[..f.taken] == MessagesBytes(interims) + HeadBytes(f.head, blank)
            && (forall k :: 0 <= k < |interims| ==> IsInterim(status, interims[k]))
            && status(f.head.start) == Some(f.code) && !(100 <= f.code < 200)
    decreases |inbox|
  {
    hide FinalHead, ReadHead, HeadBytes;
    FinalHeadStep(status, inbox);
    var r := ReadHead(inbox);
    var b := HeadReadBack(inbox);
    if 100 <= status(r.head.start).value < 200 {
      var more;
      more, blank := FinalHeadShape(status, inbox[r.taken..]);
      var f := FinalHead(status, inbox[r.taken..]);
      var m := Message(r.head, b);
      interims := [m] + more;
      assert interims[1..] == more && forall k :: 0 < k < |interims| ==> interims[k] == more[k - 1];
      SplitTaken(inbox, r.taken, f.taken);
      Regroup(MessageBytes(m), MessagesBytes(more), HeadBytes(f.head, blank));
    } else {
      interims, blank := [], b;
      assert [] + HeadBytes(r.head, blank) == HeadBytes(r.head, blank);
    }
  }

  lemma LineOfPrefix(data: Bytes, m: nat)
    requires LineLen(data) <= m <= |data|
    ensures LineLen(data[..m]) == LineLen(data) && data[..m][..LineLen(data)] == data[..LineLen(data)]
    ensures data[..m][LineLen(data)..] == data[LineLen(data)..][..m - LineLen(data)]
  {
    var n := LineLen(data);
    if 0 <= Find(data, '\n') {
      FindUnique(data[..m], '\n', n - 1);
    } else {
      assert data[..m] == data;
    }
  }

  lemma LineGoesOn(data: Bytes)
    requires data != []
    ensures 0 < LineLen(data)
  {
  }

  lemma {:induction false} TrailersOfPrefix(data: Bytes)
    requires Trailers(data).ok
    ensures Trailers(data[..Trailers(data).taken]) == Trailers(data)
    decreases |data|
  {
    hide LineLen, Blank;
    var n := LineLen(data);
    var cut := data[..Trailers(data).taken];
    LineOfPrefix(data, |cut|);
    assert cut != [] by { LineGoesOn(data); }
    if !Blank(data[..n]) {
      TrailersOfPrefix(data[n..]);
      assert Trailers(cut) == Relay(n + Trailers(cut[n..]).taken, Trailers(cut[n..]).ok);
    }
  }

  lemma DataPartOfPrefix(data: Bytes, size: int, m: nat)
    requires DataPart(data, size).More? && DataPart(data, size).taken <= m <= |data|
    ensures DataPart(data[..m], size) == DataPart(data, size)
  {
    var n := Fixed(data, size).taken;
    LineOfPrefix(data[n..], m - n);
    PrefixOfRest(data, n, m);
  }

  lemma PrefixOfRest(data: Bytes, n: nat, m: nat)
    requires n <= m <= |data|
    ensures data[..m][n..] == data[n..][..m - n]
  {
  }

  lemma PartOfPrefix(data: Bytes, m: nat)
    requires ChunkPart(data).taken <= m <= |data|
    requires ChunkPart(data).More? || (ChunkPart(data).Stop? && ChunkPart(data).ok && m == ChunkPart(data).taken)
    ensures ChunkPart(data[..m]) == ChunkPart(data)
  {
    hide PyInt, Trailers, DataPart;
    var n := LineLen(data);
    LineOfPrefix(data, m);
    var size := PyInt(SizeToken(data[..n]), 16).value;
    if size == 0 {
      TrailersOfPrefix(data[n..]);
    } else {
      DataPartOfPrefix(data[n..], size, m - n);
    }
  }

  /** A chunked body that was relayed to its end is chunked to that end by itself. */
  lemma {:induction false} ChunkedOfPrefix(data: Bytes)
    requires Chunked(data).ok
    ensures Chunked(data[..Chunked(data).taken]) == Chunked(data)
    decreases |data|
  {
    hide ChunkPart;
    var m := Chunked(data).taken;
    PartOfPrefix(data, m);
    var p := ChunkPart(data);
    if p.More? {
      ChunkedOfPrefix(data[p.taken..]);
      PrefixOfRest(data, p.taken, m);
    }
  }

  lemma KeptBodyDelimited(verb: Bytes, code: int, headers: seq<Bytes>, data: Bytes)
    requires BodyOfReply(verb, code, headers, data).keep
    ensures SelfDelimited(verb, code, headers, data[..BodyOfReply(verb, code, headers, data).taken])
  {
    hide ParseFraming, Chunked;
    if !Bodyless(verb, code) {
      var f := ParseFraming(headers).GetOr(Framing(None, false, true));
      if f.contentLength == None && f.chunked { ChunkedOfPrefix(data); }
    }
  }

  /** A reply after which the connection is used again was complete, to the byte. */
  lemma KeptReplyComplete(status: StatusParser, verb: Bytes, inbox: Bytes)
    requires ReplyTo(status, verb, inbox).keep
    ensures CompleteReply(status, verb, inbox[..ReplyTo(status, verb, inbox).taken])
  {
    hide FinalHead, BodyOfReply, SelfDelimited, HeadBytes;
    var f := FinalHead(status, inbox);
    var interims, blank := FinalHeadShape(status, inbox);
    var data := inbox[f.taken..];
    var b := BodyOfReply(verb, f.code, f.head.headers, data);
    KeptBodyDelimited(verb, f.code, f.head.headers, data);
    SplitTaken(inbox, f.taken, b.taken);
    Regroup(MessagesBytes(interims), HeadBytes(f.head, blank), data[..b.taken]);
    assert Consists(status, verb, inbox[..f.taken + b.taken], interims, Message(f.head, blank), data[..b.taken]);
  }

  // ---- accounts ---------------------------------------------------------------------------------

  function SentOn(log: seq<Entry>, c: nat): Bytes {
    if log == [] then []
    else
      var e := log[|log| - 1];
      SentOn(log[..|log| - 1], c) + if e.conn == c then e.sent else []
  }

  function RepliesOn(log: seq<Entry>, c: nat): Bytes {
    if log == [] then []
    else
      var e := log[|log| - 1];
      RepliesOn(log[..|log| - 1], c) + if e.conn == c then e.reply else []
  }

  function Conns(s: Session): seq<Conn> { s.closed + if s.current.Some? then [s.current.value] else [] }

  /** A connection carries exactly its own requests, and its replies are read off it in order. */
  ghost predicate Accounted(c: Conn, log: seq<Entry>, id: nat) {
    c.written == SentOn(log, id) && RepliesOn(log, id) <= c.offered
  }

  ghost predicate EntrySound(status: StatusParser, conns: seq<Conn>, e: Entry) {
    && e.conn < |conns| && conns[e.conn].origin == e.origin
    && (e.kept ==> CompleteReply(status, e.verb, e.reply))
  }

  ghost predicate Books(status: StatusParser, s: Session) {
    && (forall c :: 0 <= c < |Conns(s)| ==> Accounted(Conns(s)[c], s.log, c))
    && (s.current.Some? ==> s.current.value.offered == RepliesOn(s.log, |s.closed|) + s.current.value.inbox)
    && (forall k :: 0 <= k < |s.log| ==> EntrySound(status, Conns(s), s.log[k]))
    && (forall k :: 0 <= k < |s.log| - 1 ==> s.log[k].kept)
  }

  lemma {:induction false} NothingOn(status: StatusParser, log: seq<Entry>, c: nat)
    requires forall k :: 0 <= k < |log| ==> log[k].conn < c
    ensures SentOn(log, c) == [] && RepliesOn(log, c) == []
  {
    if log != [] {
      var init := log[..|log| - 1];
      assert forall k :: 0 <= k < |init| ==> init[k] == log[k];
      NothingOn(status, init, c);
      assert log[|log| - 1].conn < c;
    }
  }

  lemma HangupBooks(status: StatusParser, s: Session)
    requires Books(status, s)
    ensures Books(status, Hangup(s))
  {
    hide SentOn, RepliesOn, CompleteReply;
    if s.current.Some? {
      var h := Hangup(s);
      assert |Conns(h)| == |Conns(s)|;
      forall c | 0 <= c < |Conns(h)| ensures Accounted(Conns(h)[c], h.log, c) {
        assert Accounted(Conns(s)[c], s.log, c);
      }
      forall k | 0 <= k < |h.log| ensures EntrySound(status, Conns(h), h.log[k]) {
        assert EntrySound(status, Conns(s), s.log[k]);
      }
    }
  }

  lemma DialAccounts(status: StatusParser, s: Session, dialled: Conn, c: nat)
    requires Books(status, s) && s.current == None && dialled.written == [] && c <= |s.closed|
    ensures Accounted((s.closed + [dialled])[c], s.log, c)
    ensures RepliesOn(s.log, |s.closed|) == []
  {
    hide SentOn, RepliesOn, CompleteReply;
    assert Conns(s) == s.closed;
    assert forall k :: 0 <= k < |s.log| ==> EntrySound(status, Conns(s), s.log[k]);
    NothingOn(status, s.log, |s.closed|);
    if c < |s.closed| { assert Accounted(Conns(s)[c], s.log, c); }
  }

  lemma DialSound(status: StatusParser, s: Session, dialled: Conn, e: Entry)
    requires s.current == None && EntrySound(status, Conns(s), e)
    ensures EntrySound(status, s.closed + [dialled], e)
  {
    hide CompleteReply;
    assert Conns(s) == s.closed;
  }

  lemma DialBooks(status: StatusParser, s: Session, origin: Origin, offered: Bytes, dials: nat)
    requires Books(status, s) && s.current == None
    ensures Books(status, s.(dials := dials, current := Some(Conn(origin, [], offered, offered))))
  {
    hide SentOn, RepliesOn, EntrySound, Accounted;
    var dialled := Conn(origin, [], offered, offered);
    var d := s.(dials := dials, current := Some(dialled));
    assert Conns(d) == s.closed + [dialled];
    forall c | 0 <= c < |Conns(d)| ensures Accounted(Conns(d)[c], d.log, c) { DialAccounts(status, s, dialled, c); }
    DialAccounts(status, s, dialled, |s.closed|);
    assert [] + offered == offered;
    forall k | 0 <= k < |d.log| ensures EntrySound(status, Conns(d), d.log[k]) {
      DialSound(status, s, dialled, s.log[k]);
    }
  }

  lemma ConnectBooks(status: StatusParser, dial: Dialer, s: Session, origin: Origin)
    requires Books(status, s)
    ensures var d := Connect(dial, s, origin);
            Books(status, d) && d.log == s.log && (d.current.Some? ==> d.current.value.origin == origin)
  {
    hide Books;
    var h := if s.current.Some? && s.current.value.origin != origin then Hangup(s) else s;
    HangupBooks(status, s);
    if h.current == None {
      if dial(h.dials).Some? {
        DialBooks(status, h, origin, dial(h.dials).value, h.dials + 1);
      } else {
        BooksFrame(status, h, h.(dials := h.dials + 1));
      }
    }
  }

  lemma BooksFrame(status: StatusParser, s: Session, t: Session)
    requires Books(status, s) && t.closed == s.closed && t.current == s.current && t.log == s.log
    ensures Books(status, t)
  {
    assert Conns(t) == Conns(s);
  }

  lemma SentSnoc(log: seq<Entry>, e: Entry, c: nat)
    ensures SentOn(log + [e], c) == SentOn(log, c) + if e.conn == c then e.sent else []
    ensures RepliesOn(log + [e], c) == RepliesOn(log, c) + if e.conn == c then e.reply else []
  {
    assert (log + [e])[..|log|] == log;
  }

  /** One more entry on the current connection. */
  lemma EntryBooks(status: StatusParser, s: Session, e: Entry, inbox: Bytes, t: Session)
    requires Books(status, s) && s.current.Some? && (forall k :: 0 <= k < |s.log| ==> s.log[k].kept)
    requires e.conn == |s.closed| && e.origin == s.current.value.origin
             && (e.kept ==> CompleteReply(status, e.verb, e.reply))
    requires s.current.value.inbox == e.reply + inbox
    requires t.closed == s.closed && t.log == s.log + [e]
    requires t.current == Some(s.current.value.(written := s.current.value.written + e.sent, inbox := inbox))
    ensures Books(status, t)
  {
    hide SentOn, RepliesOn, CompleteReply;
    var id := |s.closed|;
    Regroup(RepliesOn(s.log, id), e.reply, inbox);
    assert Accounted(Conns(s)[id], s.log, id);
    forall c | 0 <= c < |Conns(t)| ensures Accounted(Conns(t)[c], t.log, c) {
      SentSnoc(s.log, e, c);
      assert Accounted(Conns(s)[c], s.log, c);
    }
    SentSnoc(s.log, e, id);
    forall k | 0 <= k < |t.log| ensures EntrySound(status, Conns(t), t.log[k]) {
      if k < |s.log| { assert EntrySound(status, Conns(s), s.log[k]); }
    }
  }

  ghost predicate AllKept(log: seq<Entry>) { forall k :: 0 <= k < |log| ==> log[k].kept }

  lemma ExchangeBooks(status: StatusParser, s: Session, t: Target, h: Head, f: Framing)
    requires t.Target? && s.current.Some? && s.current.value.origin == t.origin && Books(status, s) && AllKept(s.log)
    ensures var x := Exchange(status, s, t, h, f); Books(status, x.s) && (x.more ==> AllKept(x.s.log))
  {
    hide Books, CompleteReply, ReplyTo, RequestBody, ForwardHead;
    var c := s.current.value;
    var body := RequestBody(f, s.input);
    var sent := ForwardHead(t, h.headers) + s.input[..body.taken];
    var r := ReplyTo(status, t.verb, c.inbox);
    var kept := body.ok && r.keep && !f.close && !Undelimited(t.verb, f);
    var reply := if kept then c.inbox[..r.taken] else [];
    var inbox := if kept then c.inbox[r.taken..] else c.inbox;
    assert c.inbox == reply + inbox;
    if kept { KeptReplyComplete(status, t.verb, c.inbox); }
    var e := Entry(|s.closed|, t.origin, t.verb, sent, reply, kept);
    var client := if body.ok then s.client + r.out else s.client;
    var x := Session(s.input[body.taken..], client, s.closed, Some(c.(written := c.written + sent, inbox := inbox)),
                     s.dials, s.log + [e]);
    EntryBooks(status, s, e, inbox, x);
    HangupBooks(status, x);
    assert Exchange(status, s, t, h, f) == if kept then Turn(x, true) else End(x);
  }

  lemma RoundBooks(parse: LineParser, status: StatusParser, dial: Dialer, s: Session)
    requires Books(status, s) && AllKept(s.log)
    ensures var t := Round(parse, status, dial, s); Books(status, t.s) && (t.more ==> AllKept(t.s.log))
  {
    hide Books, Exchange, ReadHead, ParseFraming, Connect, AllKept;
    var r := ReadHead(s.input);
    if !r.Got? || r.taken > |s.input| {
      HangupBooks(status, s);
    } else {
      var s1 := s.(input := s.input[r.taken..]);
      BooksFrame(status, s, s1);
      BooksFrame(status, s, Answer(s1, BAD_REQUEST));
      HangupBooks(status, s1);
      HangupBooks(status, Answer(s1, BAD_REQUEST));
      var t := parse(r.head.start);
      var f := ParseFraming(r.head.headers);
      if t.Target? && f.Some? {
        ConnectBooks(status, dial, s1, t.origin);
        var s2 := Connect(dial, s1, t.origin);
        BooksFrame(status, s2, Answer(s2, BAD_GATEWAY));
        HangupBooks(status, Answer(s2, BAD_GATEWAY));
        if s2.current.Some? { ExchangeBooks(status, s2, t, r.head, f.value); }
      }
    }
  }

  lemma {:induction false} ServeBooks(parse: LineParser, status: StatusParser, dial: Dialer, s: Session)
    requires Books(status, s) && AllKept(s.log)
    ensures Books(status, Serve(parse, status, dial, s))
    decreases |s.input|
  {
    hide Books, AllKept, Round, Serve;
    ServeStep(parse, status, dial, s);
    RoundProgress(parse, status, dial, s);
    RoundBooks(parse, status, dial, s);
    var t := Round(parse, status, dial, s);
    if t.more { ServeBooks(parse, status, dial, t.s); }
  }

  // ---- the theorem ------------------------------------------------------------------------------

  /**
   * Request attribution and no desynchronisation. Let the client send any proper requests, let
   * dials fail and upstreams send anything. The forwarded requests are the first ones of the
   * client, in order, each whole; each went to a connection opened for its own host and port; each
   * connection was written exactly its own requests; and every request but the last to be forwarded
   * was answered by one complete, self-delimited reply read off its connection in order.
   */
  lemma RequestsAreAttributed(parse: LineParser, status: StatusParser, dial: Dialer, rs: seq<Request>)
    requires forall j :: 0 <= j < |rs| ==> ProperRequest(parse, rs[j])
    ensures var s := Serve(parse, status, dial, Start(StreamOf(rs)));
            && Attributed(parse, s.log, rs)
            && (forall k :: 0 <= k < |s.log| ==> EntrySound(status, Conns(s), s.log[k]))
            && (forall c :: 0 <= c < |Conns(s)| ==> Accounted(Conns(s)[c], s.log, c))
            && (forall k :: 0 <= k < |s.log| - 1 ==> s.log[k].kept)
  {
    hide Serve, ProperRequest;
    var s0 := Start(StreamOf(rs));
    assert rs[0..] == rs;
    ServeAttributes(parse, status, dial, s0, rs, 0);
    ServeBooks(parse, status, dial, s0);
  }

  // ---- framing headers --------------------------------------------------------------------------

  /** How the scan of the headers that pass relates to the scan of all of them. */
  ghost predicate Sifted(s: Scan, p: Scan, blocked: set<Bytes>) {
    s.bad || (
      && !p.bad
      && p.sawLength == (s.sawLength && "content-length" !in blocked)
      && p.f.contentLength == (if "content-length" in blocked then None else s.f.contentLength)
      && p.f.chunked == (s.f.chunked && "transfer-encoding" !in blocked)
      && (s.sawLength <==> s.f.contentLength.Some?))
  }

  lemma LengthHeaderSifts(s: Scan, p: Scan, raw: Bytes, blocked: set<Bytes>)
    requires Sifted(s, p, blocked) && HeaderName(raw) == Some("content-length")
    ensures Sifted(FramingStep(s, raw), if Passes(raw, blocked) then FramingStep(p, raw) else p, blocked)
  {
    hide HeaderName, HeaderValue, PyInt, Mentions;
  }

  lemma OtherHeaderSifts(s: Scan, p: Scan, raw: Bytes, blocked: set<Bytes>)
    requires Sifted(s, p, blocked) && HeaderName(raw) != Some("content-length") && "connection" in blocked
    ensures Sifted(FramingStep(s, raw), if Passes(raw, blocked) then FramingStep(p, raw) else p, blocked)
  {
    hide HeaderName, HeaderValue, PyInt, Mentions;
  }

  lemma {:induction false} PassingScan(headers: seq<Bytes>, blocked: set<Bytes>)
    requires "connection" in blocked
    ensures Sifted(ScanFraming(headers), ScanFraming(Passing(headers, blocked)), blocked)
  {
    hide FramingStep, Passes, Sifted;
    if headers == [] {
      NothingSifts(blocked);
    } else {
      var init, last := headers[..|headers| - 1], headers[|headers| - 1];
      PassingScan(init, blocked);
      var p := Passing(init, blocked);
      assert (p + [last])[..|p|] == p;
      assert Passing(headers, blocked) == if Passes(last, blocked) then p + [last] else p;
      if HeaderName(last) == Some("content-length") {
        LengthHeaderSifts(ScanFraming(init), ScanFraming(p), last, blocked);
      } else {
        OtherHeaderSifts(ScanFraming(init), ScanFraming(p), last, blocked);
      }
    }
  }

  lemma NothingSifts(blocked: set<Bytes>)
    ensures Sifted(ScanFraming([]), ScanFraming(Passing([], blocked)), blocked)
  {
  }

  /**
   * The framing a request arrives with is the framing it is forwarded with if and only if the
   * client's own Connection header does not name the header that carries it.
   */
  lemma FramingSurvivesForwarding(headers: seq<Bytes>)
    requires ParseFraming(headers).Some?
    ensures var f := ParseFraming(headers).value;
            var g := ParseFraming(Forwarded(headers));
            var tokens := ConnectionTokens(headers);
            (g.Some? && g.value.contentLength == f.contentLength && g.value.chunked == f.chunked)
            <==> !(f.contentLength.Some? && "content-length" in tokens) && !(f.chunked && "transfer-encoding" in tokens)
  {
    hide ScanFraming, ConnectionTokens;
    PassingScan(headers, HOP_BY_HOP + ConnectionTokens(headers));
  }
}
