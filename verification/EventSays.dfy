/** What the events of a text say to capture: payloads without blanks, joined data lines included. */
module EventSays {
  import opened Prelude
  import opened ByteLines
  import opened ChatStream
  import opened StreamTranslator
  import opened Wire
  import opened Blanks
  import opened EventText

  // ---- what a payload says --------------------------------------------------------------------

  /** Blanks around a payload do not matter to the parser, and blanks alone are no chunk. */
  ghost predicate Blind(parse: Parser) { parse([]) == None && forall s :: parse(s) == parse(Trim(s)) }

  /** Payloads that are neither empty nor the end marker, without their blanks. */
  function One(p: Bytes): seq<Bytes> { if Strip(p) == "[DONE]" || Trim(p) == [] then [] else [Trim(p)] }

  function Said(ps: seq<Bytes>): seq<Bytes> {
    if ps == [] then [] else Said(ps[..|ps| - 1]) + One(ps[|ps| - 1])
  }

  function Parsed(parse: Parser, texts: seq<Bytes>): seq<Chunk> {
    if texts == [] then []
    else
      Parsed(parse, texts[..|texts| - 1])
      + match parse(texts[|texts| - 1]) case Some(e) => [e] case None => []
  }

  lemma ParsedOne(parse: Parser, texts: seq<Bytes>, p: Bytes)
    requires Blind(parse)
    ensures Parsed(parse, texts + if Trim(p) == [] then [] else [Trim(p)]) ==
            Parsed(parse, texts) + match parse(p) case Some(e) => [e] case None => []
  {
    assert parse(p) == parse(Trim(p));
    assert (texts + [Trim(p)])[..|texts|] == texts;
    assert texts + [] == texts && Parsed(parse, texts) + [] == Parsed(parse, texts);
  }

  lemma {:induction false} SaidAppend(a: seq<Bytes>, b: seq<Bytes>)
    ensures Said(a + b) == Said(a) + Said(b)
    decreases |b|
  {
    hide One;
    if b == [] {
      assert a + b == a;
    } else {
      assert (a + b)[..|a + b| - 1] == a + b[..|b| - 1];
      SaidAppend(a, b[..|b| - 1]);
    }
  }

  lemma SaidOne(p: Bytes)
    ensures Said([p]) == One(p)
  {
    assert [p][..0] == [];
  }

  /** Capture's chunks are those of what its events say. */
  lemma {:induction false} ItemsDecoded(parse: Parser, items: seq<Item>)
    requires Blind(parse)
    ensures DecodeItems(parse, items) == Parsed(parse, Said(ItemData(items)))
    decreases |items|
  {
    hide Strip, Trim;
    if items != [] {
      var init, last := items[..|items| - 1], items[|items| - 1].data;
      ItemsDecoded(parse, init);
      ParsedOne(parse, Said(ItemData(init)), last);
      assert (ItemData(init) + [last])[..|ItemData(init)|] == ItemData(init);
      var before := DecodeItems(parse, init);
      if Strip(last) == "[DONE]" {
        assert before + [] == before && Said(ItemData(init)) + [] == Said(ItemData(init));
      }
    }
  }

  // ---- one event ------------------------------------------------------------------------------

  function Filled(ps: seq<Bytes>): seq<Bytes> {
    if ps == [] then []
    else Filled(ps[..|ps| - 1]) + if ps[|ps| - 1] == [] then [] else [ps[|ps| - 1]]
  }

  ghost predicate AllCut(ps: seq<Bytes>) { forall k :: 0 <= k < |ps| ==> Cut(ps[k]) }

  lemma {:induction false} PayloadsAreCut(lines: seq<Bytes>)
    ensures AllCut(Payloads(lines))
  {
    if lines != [] {
      PayloadsAreCut(lines[..|lines| - 1]);
      var last := lines[|lines| - 1];
      if IsData(last) { LStripClean(last[5..]); }
    }
  }

  lemma {:induction false} EmptyJoin(ps: seq<Bytes>)
    requires Filled(ps) == []
    ensures forall k :: 0 <= k < |JoinLines(ps)| ==> JoinLines(ps)[k] == '\n'
    ensures Said(ps) == []
    decreases |ps|
  {
    if ps != [] {
      assert ps[|ps| - 1] == [];
      EmptyJoin(ps[..|ps| - 1]);
    }
  }

  lemma {:induction false} NewlinesPass(n: Bytes, s: Bytes)
    requires forall k :: 0 <= k < |n| ==> n[k] == '\n'
    ensures Trim(n + s) == Trim(s) && Strip(n + s) == Strip(s)
  {
    if n == [] {
      assert n + s == s;
    } else {
      NewlinesPass(n[1..], s);
      assert n + s == [n[0]] + (n[1..] + s);
      TrimCons(n[0], n[1..] + s);
    }
  }

  lemma JoinSnoc(ps: seq<Bytes>, last: Bytes)
    requires ps != []
    ensures JoinLines(ps + [last]) == JoinLines(ps) + "\n" + last
  {
    assert (ps + [last])[..|ps|] == ps;
  }

  /** With one filled payload at most, an event says what its payloads say. */
  lemma {:induction false} JoinSaid(ps: seq<Bytes>)
    requires AllCut(ps) && ps != [] && |Filled(ps)| <= 1
    ensures One(JoinLines(ps)) == Said(ps)
    decreases |ps|
  {
    var init, last := ps[..|ps| - 1], ps[|ps| - 1];
    assert ps == init + [last];
    SaidAppend(init, [last]);
    SaidOne(last);
    if init == [] {
      assert JoinLines(ps) == last && Said(init) == [];
    } else {
      assert forall k :: 0 <= k < |init| ==> init[k] == ps[k];
      JoinSnoc(init, last);
      var joined := JoinLines(init);
      if last == [] {
        assert joined + "\n" + last == joined + ['\n'];
        JoinSaid(init);
        TrimSnoc(joined, '\n');
        StripSnoc(joined, '\n');
      } else {
        EmptyJoin(init);
        NewlinesPass(joined + "\n", last);
      }
    }
  }

  /** Something before a newline and something after it. */
  predicate Straddles(s: Bytes, i: nat, j: nat, k: nat) {
    i < j < k < |s| && !IsSpace(s[i]) && s[j] == '\n' && !IsSpace(s[k])
  }

  lemma {:induction false} StraddleStays(s: Bytes, i: nat, j: nat, k: nat)
    requires Straddles(s, i, j, k)
    ensures '\n' in Strip(s) && '\n' in Trim(s)
  {
    if IsSpace(s[0]) {
      StraddleStays(s[1..], i - 1, j - 1, k - 1);
      if !IsBlank(s[0]) { TrimsWithin(s, i, j, k); }
    } else {
      RightStays(s, j, k);
    }
  }

  lemma TrimsWithin(s: Bytes, i: nat, j: nat, k: nat)
    requires Straddles(s, i, j, k) && !IsBlank(s[0])
    ensures '\n' in Trim(s)
  {
    RightStays(s, j, k);
  }

  lemma {:induction false} RightStays(s: Bytes, j: nat, k: nat)
    requires j < k < |s| && s[j] == '\n' && !IsSpace(s[k])
    ensures '\n' in RStrip(s) && '\n' in RTrim(s)
    decreases |s|
  {
    var last := s[|s| - 1];
    if IsSpace(last) {
      RightStays(s[..|s| - 1], j, k);
    }
    assert s[j] in s;
  }

  lemma {:induction false} FilledShows(ps: seq<Bytes>) returns (i: nat)
    requires AllCut(ps) && Filled(ps) != []
    ensures i < |JoinLines(ps)| && !IsSpace(JoinLines(ps)[i])
    decreases |ps|
  {
    var init, last := ps[..|ps| - 1], ps[|ps| - 1];
    assert ps == init + [last];
    if init != [] { JoinSnoc(init, last); }
    if last != [] {
      i := |JoinLines(ps)| - |last|;
    } else {
      i := FilledShows(init);
    }
  }

  /** Two filled payloads leave a newline in the middle. */
  lemma {:induction false} CrowdShows(ps: seq<Bytes>) returns (i: nat, j: nat, k: nat)
    requires AllCut(ps) && 1 < |Filled(ps)|
    ensures Straddles(JoinLines(ps), i, j, k)
    decreases |ps|
  {
    var init, last := ps[..|ps| - 1], ps[|ps| - 1];
    assert ps == init + [last];
    JoinSnoc(init, last);
    if last == [] {
      i, j, k := CrowdShows(init);
    } else {
      i := FilledShows(init);
      j := |JoinLines(init)|;
      k := j + 1;
    }
  }

  function EventPayloads(block: Bytes): seq<Bytes> { Payloads(AllLines(block)) }

  /** At most one data line of an event carries anything. */
  predicate Sparse(block: Bytes) { |Filled(EventPayloads(block))| <= 1 }

  lemma EventData(block: Bytes)
    ensures ItemData(BlockItem(block)) ==
            if EventPayloads(block) == [] then [] else [JoinLines(EventPayloads(block))]
  {
    hide JoinLines, Payloads;
    FieldsArePayloads(AllLines(block));
    if EventPayloads(block) != [] {
      var item := BlockItem(block)[0];
      assert BlockItem(block) == [item] && [item][..0] == [];
    }
  }

  lemma {:induction false} ItemDataAppend(a: seq<Item>, b: seq<Item>)
    ensures ItemData(a + b) == ItemData(a) + ItemData(b)
    decreases |b|
  {
    if b == [] {
      assert a + b == a;
    } else {
      assert (a + b)[..|a + b| - 1] == a + b[..|b| - 1];
      ItemDataAppend(a, b[..|b| - 1]);
    }
  }

  /** What the events of these blocks say to capture. */
  function Seen(blocks: seq<Bytes>): seq<Bytes> { Said(ItemData(Items(blocks))) }

  lemma SeenSnoc(init: seq<Bytes>, last: Bytes)
    ensures Seen(init + [last]) ==
            Seen(init) + if EventPayloads(last) == [] then [] else One(JoinLines(EventPayloads(last)))
  {
    hide EventPayloads, One, Said, Items, BlockItem;
    ItemsSnoc(init, last);
    ItemDataAppend(Items(init), BlockItem(last));
    EventData(last);
    var d := ItemData(BlockItem(last));
    SaidAppend(ItemData(Items(init)), d);
    if d == [] { NothingSaid(); } else { SaidOne(d[0]); }
  }

  lemma NothingSaid()
    ensures Said([]) == []
  {
  }

  lemma {:induction false} SparseSeen(blocks: seq<Bytes>)
    requires forall k :: 0 <= k < |blocks| ==> Sparse(blocks[k])
    ensures Seen(blocks) == Said(BlockPayloads(blocks))
    decreases |blocks|
  {
    hide One, Said, JoinLines, AllLines;
    if blocks == [] {
      assert Items(blocks) == [] && BlockPayloads(blocks) == [];
    } else {
      var init, last := blocks[..|blocks| - 1], blocks[|blocks| - 1];
      assert blocks == init + [last] && forall k :: 0 <= k < |init| ==> init[k] == blocks[k];
      SparseSeen(init);
      SeenSnoc(init, last);
      BlockPayloadsSnoc(init, last);
      var ps := EventPayloads(last);
      SaidAppend(BlockPayloads(init), ps);
      PayloadsAreCut(AllLines(last));
      assert Sparse(last);
      if ps == [] { NothingSaid(); } else { JoinSaid(ps); }
    }
  }

  /** An event with two filled data lines says something with a newline inside. */
  lemma {:induction false} CrowdedSeen(blocks: seq<Bytes>, k: nat) returns (x: Bytes)
    requires k < |blocks| && !Sparse(blocks[k])
    ensures x in Seen(blocks) && '\n' in x
    decreases |blocks|
  {
    hide Said, Items, JoinLines, AllLines, Strip, Trim, Filled;
    var init, last := blocks[..|blocks| - 1], blocks[|blocks| - 1];
    assert blocks == init + [last];
    SeenSnoc(init, last);
    if k < |init| {
      assert init[k] == blocks[k];
      x := CrowdedSeen(init, k);
    } else {
      x := CrowdedEvent(EventPayloads(last), AllLines(last));
    }
  }

  lemma CrowdedEvent(ps: seq<Bytes>, lines: seq<Bytes>) returns (x: Bytes)
    requires ps == Payloads(lines) && 1 < |Filled(ps)|
    ensures ps != [] && One(JoinLines(ps)) == [x] && '\n' in x
  {
    hide Payloads, JoinLines;
    PayloadsAreCut(lines);
    var i, j, k := CrowdShows(ps);
    StraddleStays(JoinLines(ps), i, j, k);
    x := Trim(JoinLines(ps));
    DoneIsOneLine();
  }

  lemma DoneIsOneLine()
    ensures '\n' !in "[DONE]"
  {
  }
}
