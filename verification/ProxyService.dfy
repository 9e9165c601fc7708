/** What a session that goes well does, and what makes a request the last one. */
module ProxyService {
  import opened Prelude
  import opened ByteLines
  import opened HttpFramer
  import opened HttpHead
  import opened HttpProxy
  import opened ProxyAttribution

  // ---- replies as an upstream means them ----------------------------------------------------------

  datatype Response = Response(interims: seq<Message>, final: Message, body: Body)

  ghost predicate ProperHead(m: Message) {
    IsLine(m.head.start) && PlainLines(m.head.headers) && Blank(m.blank) && |MessageBytes(m)| <= MAX_HEAD_BYTES
  }

  /** Interim messages, a final one, and a body it delimits without closing the connection. */
  ghost predicate ProperResponse(status: StatusParser, verb: Bytes, p: Response) {
    && (forall k :: 0 <= k < |p.interims| ==> ProperHead(p.interims[k]) && IsInterim(status, p.interims[k]))
    && ProperHead(p.final) && status(p.final.head.start).Some?
    && var code := status(p.final.head.start).value;
       && !(100 <= code < 200)
       && if verb == "HEAD" || code == 204 || code == 304 then p.body == NoBody
          else
            var f := ParseFraming(p.final.head.headers);
            f.Some? && !f.value.close && Carries(f.value, p.body)
  }

  ghost predicate Carries(f: Framing, b: Body) {
    match b
    case NoBody => f.contentLength == Some(0)
    case Counted(d) => f.contentLength == Some(|d|)
    case InChunks(t) => f.contentLength == None && f.chunked && WellFormed(t)
  }

  function ResponseBytes(p: Response): Bytes { MessagesBytes(p.interims) + (MessageBytes(p.final) + BodyText(p.body)) }

  /** What the client gets of it: the same, heads ended by CRLF. */
  function Ended(m: Message): Message { m.(blank := "\r\n") }

  function ForClient(p: Response): Bytes {
    AllEnded(p.interims) + (MessageBytes(Ended(p.final)) + BodyText(p.body))
  }

  function AllEnded(ms: seq<Message>): Bytes {
    if ms == [] then [] else MessageBytes(Ended(ms[0])) + AllEnded(ms[1..])
  }

  lemma HeadTaken(m: Message, rest: Bytes)
    requires ProperHead(m)
    ensures ReadHead(MessageBytes(m) + rest) == Got(m.head, |MessageBytes(m)|) && 0 < |MessageBytes(m)|
    ensures (MessageBytes(m) + rest)[|MessageBytes(m)|..] == rest
  {
    HeadExact(m.head, m.blank, rest);
    CutAt(MessageBytes(m), rest);
  }

  lemma {:induction false} FinalTaken(status: StatusParser, ms: seq<Message>, final: Message, rest: Bytes)
    requires forall k :: 0 <= k < |ms| ==> ProperHead(ms[k]) && IsInterim(status, ms[k])
    requires ProperHead(final) && status(final.head.start).Some? && !(100 <= status(final.head.start).value < 200)
    ensures FinalHead(status, MessagesBytes(ms) + (MessageBytes(final) + rest)) ==
            Final(final.head, status(final.head.start).value, |MessagesBytes(ms)| + |MessageBytes(final)|,
                  AllEnded(ms) + MessageBytes(Ended(final)))
    decreases |ms|
  {
    hide FinalHead, ReadHead, HeadBytes;
    if ms == [] {
      assert [] + (MessageBytes(final) + rest) == MessageBytes(final) + rest;
      assert [] + MessageBytes(Ended(final)) == MessageBytes(Ended(final));
      HeadTaken(final, rest);
      FinalHeadStep(status, MessageBytes(final) + rest);
    } else {
      var first, more := ms[0], ms[1..];
      assert forall k :: 0 <= k < |more| ==> more[k] == ms[k + 1];
      var tail := MessagesBytes(more) + (MessageBytes(final) + rest);
      Regroup(MessageBytes(first), MessagesBytes(more), MessageBytes(final) + rest);
      HeadTaken(first, tail);
      FinalHeadStep(status, MessageBytes(first) + tail);
      assert IsInterim(status, first);
      FinalTaken(status, more, final, rest);
      Regroup(MessageBytes(Ended(first)), AllEnded(more), MessageBytes(Ended(final)));
    }
  }

  lemma BodyTaken(verb: Bytes, code: int, headers: seq<Bytes>, b: Body, rest: Bytes)
    requires if verb == "HEAD" || code == 204 || code == 304 then b == NoBody
             else ParseFraming(headers).Some? && !ParseFraming(headers).value.close
                  && Carries(ParseFraming(headers).value, b)
    ensures BodyOfReply(verb, code, headers, BodyText(b) + rest) == ReplyBody(|BodyText(b)|, true)
    ensures (BodyText(b) + rest)[..|BodyText(b)|] == BodyText(b) && (BodyText(b) + rest)[|BodyText(b)|..] == rest
  {
    hide ParseFraming, Chunked;
    CutAt(BodyText(b), rest);
    if b.InChunks? { WellFormedChunkedExact(b.text, rest); }
  }

  /** A reply that is complete and leaves its connection open is relayed whole, and nothing behind it. */
  lemma ResponseRelayed(status: StatusParser, verb: Bytes, p: Response, rest: Bytes)
    requires ProperResponse(status, verb, p)
    ensures ReplyTo(status, verb, ResponseBytes(p) + rest) == Reply(true, |ResponseBytes(p)|, ForClient(p))
    ensures (ResponseBytes(p) + rest)[|ResponseBytes(p)|..] == rest
  {
    hide FinalHead, BodyOfReply, ParseFraming, HeadBytes;
    var ms, f, b := MessagesBytes(p.interims), MessageBytes(p.final), BodyText(p.body);
    var inbox := ResponseBytes(p) + rest;
    assert inbox == ms + (f + (b + rest)) && inbox == (ms + f) + (b + rest);
    FinalTaken(status, p.interims, p.final, b + rest);
    CutAt(ms + f, b + rest);
    BodyTaken(verb, status(p.final.head.start).value, p.final.head.headers, p.body, rest);
    CutAt(ResponseBytes(p), rest);
    Regroup(AllEnded(p.interims), MessageBytes(Ended(p.final)), b);
  }

  // ---- one round ------------------------------------------------------------------------------------

  /** A request after which the connection may go on. */
  ghost predicate StaysOpen(parse: LineParser, r: Request) {
    var t, f := parse(r.head.start), ParseFraming(r.head.headers);
    && t.Target? && f.Some? && !f.value.close
    && (t.verb in {"POST", "PUT", "PATCH"} ==> f.value.contentLength.Some? || f.value.chunked)
  }

  /** The upstream for the origin will next send these bytes: the current one, or the one dialled for it. */
  predicate NextFrom(s: Session, dial: Dialer, origin: Origin, bytes: Bytes) {
    if s.current.Some? && s.current.value.origin == origin then s.current.value.inbox == bytes
    else dial(s.dials) == Some(bytes)
  }

  predicate Reuses(s: Session, origin: Origin) { s.current.Some? && s.current.value.origin == origin }

  /**
   * A proper request that leaves the connection open, and a proper reply to it: the request goes to the
   * current upstream if that is of its origin, else to a new one and the old one is closed; the reply goes
   * to the client; and the session goes on behind both.
   */
  lemma RoundServes(parse: LineParser, status: StatusParser, dial: Dialer, s: Session, r: Request, rest: Bytes,
                    p: Response, more: Bytes)
    requires ProperRequest(parse, r) && StaysOpen(parse, r) && s.input == RequestBytes(r) + rest
    requires ProperResponse(status, parse(r.head.start).verb, p)
    requires NextFrom(s, dial, parse(r.head.start).origin, ResponseBytes(p) + more)
    ensures var t, origin := Round(parse, status, dial, s), parse(r.head.start).origin;
            && t.more && t.s.input == rest && t.s.client == s.client + ForClient(p)
            && t.s.current.Some? && t.s.current.value.origin == origin && t.s.current.value.inbox == more
            && |t.s.log| == |s.log| + 1 && t.s.log[..|s.log|] == s.log
            && t.s.log[|s.log|].reply == ResponseBytes(p) && t.s.log[|s.log|].conn == |t.s.closed|
            && t.s.dials == s.dials + (if Reuses(s, origin) then 0 else 1)
            && |t.s.closed| == |s.closed| + (if s.current.Some? && !Reuses(s, origin) then 1 else 0)
  {
    hide ReadHead, ParseFraming, RequestBody, ReplyTo, HeadBytes, ForwardHead, BodyText, ResponseBytes, ProperResponse;
    NextRequest(parse, r, rest);
    ResponseRelayed(status, parse(r.head.start).verb, p, more);
    CutAt(ResponseBytes(p), more);
  }

  /** What is not a request for a proxy, or has no readable framing, is answered by 400 and nothing goes on. */
  lemma BadRequestSays(parse: LineParser, status: StatusParser, dial: Dialer, s: Session)
    requires var r := ReadHead(s.input);
             r.Got? && r.taken <= |s.input|
             && (parse(r.head.start).NotHttp? || (parse(r.head.start).Target? && ParseFraming(r.head.headers) == None))
    ensures var t := Round(parse, status, dial, s);
            && !t.more && t.s.log == s.log && t.s.dials == s.dials
            && t.s.client == s.client + "HTTP/1.1 400 Bad Request\r\nContent-Length: 0\r\nConnection: close\r\n\r\n"
  {
  }

  /** An upstream that cannot be reached is answered for by 502. */
  lemma BadGatewaySays(parse: LineParser, status: StatusParser, dial: Dialer, s: Session)
    requires var r := ReadHead(s.input);
             && r.Got? && r.taken <= |s.input| && parse(r.head.start).Target? && ParseFraming(r.head.headers).Some?
             && !Reuses(s, parse(r.head.start).origin) && dial(s.dials) == None
    ensures var t := Round(parse, status, dial, s);
            && !t.more && t.s.log == s.log
            && t.s.client == s.client + "HTTP/1.1 502 Bad Gateway\r\nContent-Length: 0\r\nConnection: close\r\n\r\n"
  {
    hide ReadHead, ParseFraming;
  }

  // ---- whole sessions ---------------------------------------------------------------------------------

  function AllResponses(ps: seq<Response>): Bytes {
    if ps == [] then [] else ResponseBytes(ps[0]) + AllResponses(ps[1..])
  }

  function AllForClient(ps: seq<Response>): Bytes {
    if ps == [] then [] else ForClient(ps[0]) + AllForClient(ps[1..])
  }

  ghost predicate Answers(parse: LineParser, status: StatusParser, origin: Origin,
                          rs: seq<Request>, ps: seq<Response>) {
    |rs| == |ps| &&
    forall k :: 0 <= k < |rs| ==>
      && ProperRequest(parse, rs[k]) && StaysOpen(parse, rs[k]) && parse(rs[k].head.start).origin == origin
      && ProperResponse(status, parse(rs[k].head.start).verb, ps[k])
  }

  lemma {:induction false} OneOriginFrom(parse: LineParser, status: StatusParser, dial: Dialer, s: Session,
                                         origin: Origin, rs: seq<Request>, ps: seq<Response>, more: Bytes)
    requires Answers(parse, status, origin, rs, ps) && s.input == StreamOf(rs)
    requires s.current.Some? || s.closed == []
    requires s.current.Some? ==> s.current.value.origin == origin
    requires rs != [] ==> NextFrom(s, dial, origin, AllResponses(ps) + more)
    ensures var t := Serve(parse, status, dial, s);
            && t.client == s.client + AllForClient(ps) && |t.log| == |s.log| + |rs|
            && (rs != [] ==> |t.closed| == |s.closed| + 1)
            && t.dials == s.dials + (if rs != [] && s.current == None then 1 else 0)
    decreases |rs|
  {
    hide Serve, Round, ProperRequest, StaysOpen, ProperResponse, ResponseBytes, ForClient;
    ServeStep(parse, status, dial, s);
    if rs == [] {
      RoundOnNothing(parse, status, dial, s);
      assert s.client + [] == s.client;
    } else {
      var tail, later := AllResponses(ps[1..]) + more, StreamOf(rs[1..]);
      Regroup(ResponseBytes(ps[0]), AllResponses(ps[1..]), more);
      RoundServes(parse, status, dial, s, rs[0], later, ps[0], tail);
      var t := Round(parse, status, dial, s).s;
      assert forall k :: 0 <= k < |rs[1..]| ==> rs[1..][k] == rs[k + 1] && ps[1..][k] == ps[k + 1];
      OneOriginFrom(parse, status, dial, t, origin, rs[1..], ps[1..], more);
      Regroup(s.client, ForClient(ps[0]), AllForClient(ps[1..]));
      if rs[1..] == [] { ServeStep(parse, status, dial, t); RoundOnNothing(parse, status, dial, t); }
    }
  }

  /**
   * A client that sends proper requests for one origin, each leaving the connection open, to an upstream
   * that gives each a proper reply: every request is forwarded, on the one connection that is dialled,
   * and the client receives every reply, in order.
   */
  lemma OneOriginServed(parse: LineParser, status: StatusParser, dial: Dialer, origin: Origin, rs: seq<Request>,
                        ps: seq<Response>, more: Bytes)
    requires Answers(parse, status, origin, rs, ps) && rs != []
    requires dial(0) == Some(AllResponses(ps) + more)
    ensures var t := Serve(parse, status, dial, Start(StreamOf(rs)));
            t.client == AllForClient(ps) && |t.log| == |rs| && |t.closed| == 1 && t.dials == 1
  {
    hide Serve, Answers;
    OneOriginFrom(parse, status, dial, Start(StreamOf(rs)), origin, rs, ps, more);
    assert [] + AllForClient(ps) == AllForClient(ps);
  }

  lemma RoundGoesOn(parse: LineParser, status: StatusParser, dial: Dialer, s: Session, r: Request, rest: Bytes)
    requires ProperRequest(parse, r) && s.input == RequestBytes(r) + rest
    ensures Round(parse, status, dial, s).more ==> StaysOpen(parse, r)
  {
    hide ReadHead, ParseFraming, RequestBody, ReplyTo, HeadBytes, ForwardHead, BodyText;
    NextRequest(parse, r, rest);
  }

  lemma {:induction false} ServeStops(parse: LineParser, status: StatusParser, dial: Dialer, s: Session,
                                      rs: seq<Request>, k: nat)
    requires k <= |rs| && |s.log| == k && Attributed(parse, s.log, rs) && s.input == StreamOf(rs[k..])
    requires forall j :: 0 <= j < |rs| ==> ProperRequest(parse, rs[j])
    requires forall j :: 0 <= j < k ==> StaysOpen(parse, rs[j])
    ensures forall j :: 0 <= j < |Serve(parse, status, dial, s).log| - 1 && j < |rs| ==> StaysOpen(parse, rs[j])
    decreases |rs| - k
  {
    hide Serve, Round, ProperRequest, StaysOpen, EntryOf;
    ServeStep(parse, status, dial, s);
    var t := Round(parse, status, dial, s);
    if k == |rs| {
      assert s.input == [];
      RoundOnNothing(parse, status, dial, s);
    } else {
      assert rs[k..][0] == rs[k] && rs[k..][1..] == rs[k + 1..];
      RoundAttributes(parse, status, dial, s, rs[k], StreamOf(rs[k + 1..]));
      RoundGoesOn(parse, status, dial, s, rs[k], StreamOf(rs[k + 1..]));
      assert forall j :: 0 <= j < k ==> t.s.log[..|s.log|] == s.log ==> t.s.log[j] == s.log[j];
      if t.more { ServeStops(parse, status, dial, t.s, rs, k + 1); }
    }
  }

  /** A request that asks to close, or may have a body nobody can delimit, is the last one forwarded. */
  lemma ClosingIsLast(parse: LineParser, status: StatusParser, dial: Dialer, rs: seq<Request>)
    requires forall j :: 0 <= j < |rs| ==> ProperRequest(parse, rs[j])
    ensures var s := Serve(parse, status, dial, Start(StreamOf(rs)));
            forall j :: 0 <= j < |s.log| - 1 && j < |rs| ==> StaysOpen(parse, rs[j])
  {
    hide Serve, ProperRequest, StaysOpen;
    assert rs[0..] == rs;
    ServeStops(parse, status, dial, Start(StreamOf(rs)), rs, 0);
  }
}
