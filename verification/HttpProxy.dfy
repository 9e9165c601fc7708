/** One client connection of the plain HTTP proxy: request by request, one upstream at a time. */
module HttpProxy {
  import opened Prelude
  import opened ByteLines
  import opened HttpFramer
  import opened HttpHead

  datatype Origin = Origin(host: Bytes, port: nat)

  /** What a request line asks for; splitting it into method, URL and version is a parameter. */
  datatype Target = NotARequest | NotHttp | BadPort | Target(verb: Bytes, origin: Origin, path: Bytes, version: Bytes)

  type LineParser = Bytes -> Target
  /** The code of a status line, none when it is not one. */
  type StatusParser = Bytes -> Option<int>
  /** The n-th connection attempt: refused, or everything that upstream will ever send. */
  type Dialer = nat -> Option<Bytes>

  const BAD_REQUEST: Bytes := "HTTP/1.1 400 Bad Request\r\nContent-Length: 0\r\nConnection: close\r\n\r\n"
  const BAD_GATEWAY: Bytes := "HTTP/1.1 502 Bad Gateway\r\nContent-Length: 0\r\nConnection: close\r\n\r\n"

  // ---- forwarding -----------------------------------------------------------------------------

  /** The comma-separated words of a header value, stripped and in lower case. */
  function Words(v: Bytes): set<Bytes>
    decreases |v|
  {
    var c := Find(v, ',');
    if c < 0 then {Lower(TextStrip(v))} else {Lower(TextStrip(v[..c]))} + Words(v[c + 1..])
  }

  function ConnectionTokens(headers: seq<Bytes>): set<Bytes> {
    if headers == [] then {}
    else
      var last := headers[|headers| - 1];
      ConnectionTokens(headers[..|headers| - 1])
      + if HeaderName(last) == Some("connection") then Words(HeaderValue(last)) else {}
  }

  const HOP_BY_HOP: set<Bytes> :=
    {"proxy-authorization", "proxy-connection", "connection", "keep-alive", "te", "trailer", "upgrade"}

  predicate Passes(raw: Bytes, blocked: set<Bytes>) {
    HeaderName(raw) == None || HeaderName(raw).value !in blocked
  }

  function Passing(headers: seq<Bytes>, blocked: set<Bytes>): seq<Bytes> {
    if headers == [] then []
    else
      var last := headers[|headers| - 1];
      Passing(headers[..|headers| - 1], blocked) + if Passes(last, blocked) then [last] else []
  }

  function Forwarded(headers: seq<Bytes>): seq<Bytes> { Passing(headers, HOP_BY_HOP + ConnectionTokens(headers)) }

  function ForwardHead(t: Target, headers: seq<Bytes>): Bytes
    requires t.Target?
  {
    t.verb + " " + t.path + " " + t.version + "\r\n" + Concat(Forwarded(headers)) + "\r\n"
  }

  /** The body a request declares: counted, chunked, or none. */
  function RequestBody(f: Framing, data: Bytes): (r: Relay)
    ensures r.taken <= |data|
  {
    if f.contentLength.Some? && f.contentLength.value != 0 then Fixed(data, f.contentLength.value)
    else if f.chunked then Chunked(data)
    else Relay(0, true)
  }

  predicate Undelimited(verb: Bytes, f: Framing) {
    (verb == "POST" || verb == "PUT" || verb == "PATCH") && f.contentLength == None && !f.chunked
  }

  // ---- replies --------------------------------------------------------------------------------

  /** The final head of a reply behind any number of interim ones, or none. */
  datatype Final = NoFinal(out: Bytes) | Final(head: Head, code: int, taken: nat, out: Bytes)

  function HeadOut(h: Head): Bytes { HeadBytes(h, "\r\n") }

  function After(h: Head, taken: nat, f: Final): Final {
    match f
    case NoFinal(out) => NoFinal(HeadOut(h) + out)
    case Final(head, code, t, out) => Final(head, code, taken + t, HeadOut(h) + out)
  }

  function FinalHead(status: StatusParser, inbox: Bytes): (f: Final)
    ensures f.Final? ==> f.taken <= |inbox|
    decreases |inbox|
  {
    var r := ReadHead(inbox);
    if !r.Got? || r.taken == 0 || r.taken > |inbox| || status(r.head.start) == None then NoFinal([])
    else if 100 <= status(r.head.start).value < 200 then After(r.head, r.taken, FinalHead(status, inbox[r.taken..]))
    else Final(r.head, status(r.head.start).value, r.taken, HeadOut(r.head))
  }

  predicate Bodyless(verb: Bytes, code: int) { verb == "HEAD" || code == 204 || code == 304 }

  /** The body of a reply; `last` when the connection cannot be used again. */
  datatype ReplyBody = ReplyBody(taken: nat, keep: bool)

  function BodyOfReply(verb: Bytes, code: int, headers: seq<Bytes>, data: Bytes): (r: ReplyBody)
    ensures r.taken <= |data|
  {
    if Bodyless(verb, code) then ReplyBody(0, true)
    else
      var f := ParseFraming(headers).GetOr(Framing(None, false, true));
      if f.contentLength.Some? then var b := Fixed(data, f.contentLength.value); ReplyBody(b.taken, b.ok && !f.close)
      else if f.chunked then var b := Chunked(data); ReplyBody(b.taken, b.ok && !f.close)
      else ReplyBody(|data|, false)
  }

  /** One whole reply: bytes taken from the upstream, bytes given to the client, and whether both go on. */
  datatype Reply = Reply(keep: bool, taken: nat, out: Bytes)

  function ReplyTo(status: StatusParser, verb: Bytes, inbox: Bytes): (r: Reply)
    ensures r.taken <= |inbox|
  {
    var f := FinalHead(status, inbox);
    if f.NoFinal? then Reply(false, 0, f.out)
    else
      var b := BodyOfReply(verb, f.code, f.head.headers, inbox[f.taken..]);
      Reply(b.keep, f.taken + b.taken, f.out + inbox[f.taken..][..b.taken])
  }

  method RelayFinalHead(status: StatusParser, remote: Source, client: Sink) returns (f: Final)
    modifies remote, client
    ensures f == FinalHead(status, old(remote.data)) && client.written == old(client.written) + f.out
    ensures f.Final? ==> remote.data == old(remote.data)[f.taken..]
  {
    hide FinalHead, ReadHead, HeadBytes;
    ghost var data := remote.data;
    ghost var goal := FinalHead(status, data);
    var n: nat := 0;
    var sent: Bytes := [];
    assert client.written + [] == client.written;
    assert FinalHead(status, data) == Shift(0, [], FinalHead(status, data)) by { ShiftNone(FinalHead(status, data)); }
    while true
      invariant n <= |data| && remote.data == data[n..] && client.written == old(client.written) + sent
      invariant goal == Shift(n, sent, FinalHead(status, remote.data))
      decreases |remote.data|
    {
      ghost var left := remote.data;
      var r := ReadHeadFrom(remote);
      FinalHeadStep(status, left);
      if !r.Got? || r.taken == 0 || status(r.head.start) == None {
        assert sent + [] == sent;
        return NoFinal(sent);
      }
      var code := status(r.head.start).value;
      client.Write(HeadOut(r.head));
      assert old(client.written) + sent + HeadOut(r.head) == old(client.written) + (sent + HeadOut(r.head));
      TailOf(data, n, r.taken);
      if !(100 <= code < 200) {
        return Final(r.head, code, n + r.taken, sent + HeadOut(r.head));
      }
      ShiftAfter(n, sent, r.head, r.taken, FinalHead(status, remote.data));
      n := n + r.taken;
      sent := sent + HeadOut(r.head);
    }
  }

  /** A reply whose beginning has been dealt with. */
  function Shift(n: nat, sent: Bytes, f: Final): Final {
    match f
    case NoFinal(out) => NoFinal(sent + out)
    case Final(head, code, t, out) => Final(head, code, n + t, sent + out)
  }

  lemma ShiftNone(f: Final)
    ensures Shift(0, [], f) == f
  {
    assert [] + f.out == f.out;
  }

  lemma ShiftAfter(n: nat, sent: Bytes, h: Head, m: nat, f: Final)
    ensures Shift(n, sent, After(h, m, f)) == Shift(n + m, sent + HeadOut(h), f)
  {
    Regroup(sent, HeadOut(h), f.out);
  }

  lemma FinalHeadStep(status: StatusParser, inbox: Bytes)
    ensures var r := ReadHead(inbox);
            FinalHead(status, inbox) ==
            if !r.Got? || r.taken == 0 || r.taken > |inbox| || status(r.head.start) == None then NoFinal([])
            else if 100 <= status(r.head.start).value < 200 then
              After(r.head, r.taken, FinalHead(status, inbox[r.taken..]))
            else Final(r.head, status(r.head.start).value, r.taken, HeadOut(r.head))
  {
  }

  method RelayReplyBody(verb: Bytes, code: int, headers: seq<Bytes>, remote: Source, client: Sink) returns (keep: bool)
    modifies remote, client
    ensures var b := BodyOfReply(verb, code, headers, old(remote.data));
            keep == b.keep && remote.data == old(remote.data)[b.taken..]
            && client.written == old(client.written) + old(remote.data)[..b.taken]
  {
    if Bodyless(verb, code) {
      assert client.written + remote.data[..0] == client.written;
      return true;
    }
    var parsed := ParseFramingOf(headers);
    var f := parsed.GetOr(Framing(None, false, true));
    keep := true;
    if f.contentLength.Some? {
      keep := RelayFixed(remote, client, f.contentLength.value);
    } else if f.chunked {
      keep := RelayChunked(remote, client);
    } else {
      ghost var data := remote.data;
      RelayUntilEof(remote, client);
      assert data[..|data|] == data && data[|data|..] == [];
      keep := false;
    }
    if f.close { keep := false; }
  }

  method RelayOneResponse(status: StatusParser, remote: Source, client: Sink, verb: Bytes) returns (keep: bool)
    modifies remote, client
    ensures var r := ReplyTo(status, verb, old(remote.data));
            keep == r.keep && client.written == old(client.written) + r.out
            && (keep ==> remote.data == old(remote.data)[r.taken..])
  {
    ghost var data, before := remote.data, client.written;
    var f := RelayFinalHead(status, remote, client);
    if f.NoFinal? { return false; }
    ghost var b := BodyOfReply(verb, f.code, f.head.headers, remote.data);
    TailOf(data, f.taken, b.taken);
    Regroup(before, f.out, remote.data[..b.taken]);
    keep := RelayReplyBody(verb, f.code, f.head.headers, remote, client);
  }

  // ---- the session ------------------------------------------------------------------------------

  /** An upstream connection: whose it is, what it was sent, what it offered and what is unread. */
  datatype Conn = Conn(origin: Origin, written: Bytes, offered: Bytes, inbox: Bytes)

  /** One forwarded request: on which connection, for whom, what was sent and what came back. */
  datatype Entry = Entry(conn: nat, origin: Origin, verb: Bytes, sent: Bytes, reply: Bytes, kept: bool)

  datatype Session = Session(input: Bytes, client: Bytes, closed: seq<Conn>, current: Option<Conn>,
                             dials: nat, log: seq<Entry>)

  function Start(input: Bytes): Session { Session(input, [], [], None, 0, []) }

  /** A connection that is closed drops whatever it has not read. */
  function Shut(c: Conn): Conn { c.(inbox := []) }

  function Hangup(s: Session): Session {
    if s.current == None then s else s.(closed := s.closed + [Shut(s.current.value)], current := None)
  }

  datatype Turn = Turn(s: Session, more: bool)

  function End(s: Session): Turn { Turn(Hangup(s), false) }
  function Answer(s: Session, b: Bytes): Session { s.(client := s.client + b) }

  /** The upstream for an origin: the current one if it is of that origin, else a new one. */
  function Connect(dial: Dialer, s: Session, origin: Origin): Session {
    var h := if s.current.Some? && s.current.value.origin != origin then Hangup(s) else s;
    if h.current.Some? then h
    else match dial(h.dials)
      case None => h.(dials := h.dials + 1)
      case Some(offered) => h.(dials := h.dials + 1, current := Some(Conn(origin, [], offered, offered)))
  }

  /** Forward one request over the current connection and relay its reply. */
  function Exchange(status: StatusParser, s: Session, t: Target, h: Head, f: Framing): Turn
    requires t.Target? && s.current.Some?
  {
    var c := s.current.value;
    var body := RequestBody(f, s.input);
    var sent := ForwardHead(t, h.headers) + s.input[..body.taken];
    var c1 := c.(written := c.written + sent);
    var s1 := s.(input := s.input[body.taken..], current := Some(c1));
    if !body.ok then End(s1.(log := s.log + [Entry(|s.closed|, t.origin, t.verb, sent, [], false)]))
    else
      var r := ReplyTo(status, t.verb, c1.inbox);
      var kept := r.keep && !f.close && !Undelimited(t.verb, f);
      var e := Entry(|s.closed|, t.origin, t.verb, sent, if kept then c1.inbox[..r.taken] else [], kept);
      var s2 := Answer(s1, r.out).(log := s.log + [e]);
      if kept then Turn(s2.(current := Some(c1.(inbox := c1.inbox[r.taken..]))), true) else End(s2)
  }

  /** One round of the request loop. */
  function Round(parse: LineParser, status: StatusParser, dial: Dialer, s: Session): Turn {
    var r := ReadHead(s.input);
    if !r.Got? || r.taken > |s.input| then End(s)
    else
      var s1 := s.(input := s.input[r.taken..]);
      var t := parse(r.head.start);
      if t.NotARequest? || t.BadPort? then End(s1)
      else if t.NotHttp? then End(Answer(s1, BAD_REQUEST))
      else
        var f := ParseFraming(r.head.headers);
        if f == None then End(Answer(s1, BAD_REQUEST))
        else
          var s2 := Connect(dial, s1, t.origin);
          if s2.current == None then End(Answer(s2, BAD_GATEWAY))
          else Exchange(status, s2, t, r.head, f.value)
  }

  lemma RoundProgress(parse: LineParser, status: StatusParser, dial: Dialer, s: Session)
    ensures var t := Round(parse, status, dial, s); t.more ==> |t.s.input| < |s.input|
  {
    hide ParseFraming, ReplyTo;
    if ReadHead(s.input).Got? { var blank := HeadReadBack(s.input); }
  }

  /** The whole connection. */
  function Serve(parse: LineParser, status: StatusParser, dial: Dialer, s: Session): Session
    decreases |s.input|
  {
    var t := Round(parse, status, dial, s);
    RoundProgress(parse, status, dial, s);
    if t.more then Serve(parse, status, dial, t.s) else t.s
  }

  // ---- the loop as it runs ----------------------------------------------------------------------

  /** The live upstream: its two ends and whom it belongs to. */
  class Upstream {
    const reader: Source
    const writer: Sink
    const origin: Origin
    const offered: Bytes

    constructor (origin: Origin, offered: Bytes)
      ensures fresh(reader) && fresh(writer) && this.origin == origin && this.offered == offered
      ensures writer.written == [] && reader.data == offered
    {
      this.origin, this.offered := origin, offered;
      reader := new Source(offered);
      writer := new Sink();
    }

    function View(): Conn
      reads reader, writer
    {
      Conn(origin, writer.written, offered, reader.data)
    }
  }

  ghost predicate Shows(remote: Upstream?, c: Option<Conn>)
    reads if remote == null then {} else {remote.reader, remote.writer}
  {
    if remote == null then c == None else c == Some(remote.View())
  }

  method ConnectTo(dial: Dialer, remote: Upstream?, origin: Origin, closed0: seq<Conn>, dials0: nat, ghost s: Session)
    returns (live: Upstream?, closed: seq<Conn>, dials: nat)
    requires Shows(remote, s.current) && s.closed == closed0 && s.dials == dials0
    ensures live != null ==> (live == remote || (fresh(live.reader) && fresh(live.writer))) && live.origin == origin
    ensures var s' := Connect(dial, s, origin); Shows(live, s'.current) && s'.closed == closed && s'.dials == dials
    ensures s.log == Connect(dial, s, origin).log && s.client == Connect(dial, s, origin).client
            && s.input == Connect(dial, s, origin).input
  {
    live, closed, dials := remote, closed0, dials0;
    if live != null && live.origin != origin {
      closed := closed + [Shut(live.View())];
      live := null;
    }
    if live == null {
      var offered := dial(dials);
      dials := dials + 1;
      if offered.Some? { live := new Upstream(origin, offered.value); }
    }
  }

  method RelayRequestBody(f: Framing, client: Source, up: Sink) returns (ok: bool)
    modifies client, up
    ensures var b := RequestBody(f, old(client.data));
            ok == b.ok && client.data == old(client.data)[b.taken..]
            && up.written == old(up.written) + old(client.data)[..b.taken]
  {
    if f.contentLength.Some? && f.contentLength.value != 0 {
      ok := RelayFixed(client, up, f.contentLength.value);
    } else if f.chunked {
      ok := RelayChunked(client, up);
    } else {
      assert up.written + client.data[..0] == up.written;
      ok := true;
    }
  }

  /** One request over a live upstream: the new log entry, and whether the loop goes on. */
  method ExchangeOn(status: StatusParser, live: Upstream, conn: nat, t: Target,
                    h: Head, f: Framing, client: Source, out: Sink, ghost s: Session)
    returns (e: Entry, more: bool)
    requires t.Target? && s.current == Some(live.View()) && s.input == client.data && conn == |s.closed|
    requires live.reader != client && live.writer != out
    modifies live.reader, live.writer, client, out
    ensures var r := Exchange(status, s, t, h, f);
            && more == r.more && r.s.log == s.log + [e]
            && s.client <= r.s.client && out.written == old(out.written) + r.s.client[|s.client|..]
            && (more ==> r.s == Session(client.data, r.s.client, s.closed, Some(live.View()), s.dials, s.log + [e]))
            && (!more ==> r.s.closed == s.closed + [Shut(live.View())] && r.s.current == None)
  {
    ghost var c := s.current.value;
    ghost var body := RequestBody(f, client.data);
    var w0 := live.writer.written;
    live.writer.Write(ForwardHead(t, h.headers));
    Regroup(w0, ForwardHead(t, h.headers), client.data[..body.taken]);
    var ok := RelayRequestBody(f, client, live.writer);
    var sent := live.writer.written[|w0|..];
    assert sent == ForwardHead(t, h.headers) + s.input[..body.taken];
    assert live.writer.written == w0 + sent;
    if !ok {
      assert s.client[|s.client|..] == [] && out.written + [] == out.written;
      return Entry(conn, t.origin, t.verb, sent, [], false), false;
    }
    var inbox := live.reader.data;
    var keep := RelayOneResponse(status, live.reader, out, t.verb);
    ghost var r := ReplyTo(status, t.verb, inbox);
    more := keep && !f.close && !Undelimited(t.verb, f);
    assert (s.client + r.out)[|s.client|..] == r.out;
    var reply: Bytes := [];
    if more {
      assert |live.reader.data| == |inbox| - r.taken;
      reply := inbox[..|inbox| - |live.reader.data|];
    }
    e := Entry(conn, t.origin, t.verb, sent, reply, more);
  }

  /** One round of the loop: read a request, forward it, relay its reply. */
  method ServeRound(parse: LineParser, status: StatusParser, dial: Dialer, client: Source, out: Sink, remote: Upstream?,
                    closed0: seq<Conn>, dials0: nat, log0: seq<Entry>, ghost s: Session)
    returns (more: bool, live: Upstream?, closed: seq<Conn>, dials: nat, log: seq<Entry>)
    requires s == Session(client.data, s.client, closed0, s.current, dials0, log0) && Shows(remote, s.current)
    requires remote != null ==> remote.reader != client && remote.writer != out
    modifies client, out, if remote == null then {} else {remote.reader, remote.writer}
    ensures var t := Round(parse, status, dial, s);
            && more == t.more
            && s.client <= t.s.client && out.written == old(out.written) + t.s.client[|s.client|..]
            && closed == t.s.closed && log == t.s.log
            && (more ==>
               t.s == Session(client.data, t.s.client, closed, t.s.current, dials, log)
               && Shows(live, t.s.current))
            && (!more ==> t.s.current == None)
    ensures more && live != null ==> live == remote || (fresh(live.reader) && fresh(live.writer))
  {
    hide ReadHead, ParseFraming, Exchange;
    more, live, closed, dials, log := false, remote, closed0, dials0, log0;
    assert s.client[|s.client|..] == [] && out.written + [] == out.written;
    var head := ReadHeadFrom(client);
    if !head.Got? {
      if live != null { closed := closed + [Shut(live.View())]; }
      return;
    }
    var t := parse(head.head.start);
    var f := None;
    if t.Target? { f := ParseFramingOf(head.head.headers); }
    if f == None {
      if t.NotHttp? || t.Target? { out.Write(BAD_REQUEST); }
      assert (s.client + BAD_REQUEST)[|s.client|..] == BAD_REQUEST;
      if live != null { closed := closed + [Shut(live.View())]; }
      return;
    }
    ghost var s1 := s.(input := client.data);
    live, closed, dials := ConnectTo(dial, live, t.origin, closed, dials, s1);
    ghost var s2 := Connect(dial, s1, t.origin);
    if live == null {
      out.Write(BAD_GATEWAY);
      assert (s.client + BAD_GATEWAY)[|s.client|..] == BAD_GATEWAY;
      return;
    }
    var e;
    e, more := ExchangeOn(status, live, |closed|, t, head.head, f.value, client, out, s2);
    log := log + [e];
    if !more { closed := closed + [Shut(live.View())]; }
  }

  method HandleHttp(parse: LineParser, status: StatusParser, dial: Dialer, client: Source, out: Sink)
    returns (closed: seq<Conn>, log: seq<Entry>)
    modifies client, out
    ensures var s := Serve(parse, status, dial, Start(old(client.data)));
            closed == s.closed && log == s.log && s.current == None && out.written == old(out.written) + s.client
  {
    hide Serve, Round;
    ghost var s := Start(client.data);
    ghost var goal := Serve(parse, status, dial, s);
    var live: Upstream? := null;
    var dials: nat := 0;
    closed, log := [], [];
    assert out.written + [] == out.written;
    while true
      invariant s == Session(client.data, s.client, closed, s.current, dials, log) && Shows(live, s.current)
      invariant live != null ==> fresh(live.reader) && fresh(live.writer)
      invariant out.written == old(out.written) + s.client && goal == Serve(parse, status, dial, s)
      decreases |client.data|
    {
      RoundProgress(parse, status, dial, s);
      ServeStep(parse, status, dial, s);
      ghost var t := Round(parse, status, dial, s).s;
      var more;
      more, live, closed, dials, log := ServeRound(parse, status, dial, client, out, live, closed, dials, log, s);
      Regroup(old(out.written), s.client, t.client[|s.client|..]);
      if !more { return; }
      s := t;
    }
  }

  lemma ServeStep(parse: LineParser, status: StatusParser, dial: Dialer, s: Session)
    ensures var t := Round(parse, status, dial, s);
            Serve(parse, status, dial, s) == if t.more then Serve(parse, status, dial, t.s) else t.s
  {
  }
}
