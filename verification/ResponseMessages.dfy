/** Exactly which bytes the upstream decoder reads as a whole response, and as what: sections 6
    and 7.1 of RFC 9112, as far as the decoder implements them. */
module ResponseMessages {
  import opened Octets
  import opened Numerals
  import opened ChunkLine
  import opened Headers
  import opened UpstreamCodec
  import opened UpstreamFragments
  import opened HeadGrammar

  // ---------------------------------------------------------------- the grammar of a response

  /** A trailer section: an empty line, or fields up to one. */
  ghost predicate TrailerPart(L: Limits, s: bytes, ts: seq<Header>) {
    if CrlfAt(s, 0) then s == CRLF && ts == []
    else
      && 4 <= |s| <= L.headerBytes && FirstEmptyLine(s, |s| - 4)
      && exists raw: seq<Header> ::
           FieldsOf(SplitCrlf(s[..|s| - 4]), raw) && (raw == [] || |raw| <= L.headerCount) && Unrouted(raw)
             && ts == Sanitize(raw)
  }

  ghost predicate Ending(L: Limits, s: bytes, us: seq<Unit>) {
    exists ts :: us == [EndUnit(ts)] && TrailerPart(L, s, ts)
  }

  /** The first line of `m` bytes announces `n` bytes, within the limits. */
  ghost predicate Announces(L: Limits, s: bytes, received: nat, m: nat, n: nat) {
    && FirstLineEnd(s, m) && m <= 128 && LineOfSize(s[..m], n)
    && n <= L.chunkBytes && received + n <= L.bodyBytes
  }

  /** Chunks with their sizes and line ends, a last chunk of size zero, and a trailer section. */
  ghost predicate Chunks(L: Limits, s: bytes, received: nat, us: seq<Unit>)
    decreases |s|
  {
    exists m: nat, n: nat ::
      && Announces(L, s, received, m, n)
      && if n == 0 then Ending(L, s[m + 2..], us)
         else
           && CrlfAt(s, m + 2 + n) && n <= |us| && us[..n] == ByteUnits(s[m + 2..m + 2 + n])
           && Chunks(L, s[m + n + 4..], received + n, us[n..])
  }

  /** The body a final head calls for. A response that is `closed` goes on until the connection ends. */
  ghost predicate BodyOf(L: Limits, h: ResponseHead, s: bytes, closed: bool, us: seq<Unit>) {
    if !h.bodyExpected || h.contentLength == 0 then !closed && s == [] && us == [EndUnit([])]
    else if h.chunked then !closed && Chunks(L, s, 0, us)
    else if h.contentLength > 0 then !closed && |s| == h.contentLength && us == ByteUnits(s) + [EndUnit([])]
    else closed && (s == [] || |s| <= L.bodyBytes) && us == ByteUnits(s)
  }

  ghost predicate HeadBlock(L: Limits, s: bytes, m: nat, h: ResponseHead) {
    FirstEmptyLine(s, m) && m + 4 <= L.headerBytes && ResponseHeadOf(L, s[..m], h)
  }

  /** Interim heads, a final head, and its body. */
  ghost predicate Response(L: Limits, s: bytes, closed: bool, us: seq<Unit>)
    decreases |s|
  {
    exists m: nat, h ::
      && HeadBlock(L, s, m, h) && us != [] && us[0] == HeadUnit(h)
      && if h.informational then Response(L, s[m + 4..], closed, us[1..])
         else BodyOf(L, h, s[m + 4..], closed, us[1..])
  }

  // ---------------------------------------------------------------- what the decoder makes of a state

  /** What the loop makes of its buffer: nothing on an error or if the response is not over, or,
      when `closed`, not one that goes on until the connection ends. */
  function Reading(L: Limits, c: Codec, closed: bool): Option<seq<Unit>>
    requires Wf(c)
  {
    var o := Run(L, c);
    if o.error.Some? || o.codec.phase != (if closed then UntilEof else Complete) then None else Some(Flat(o.events))
  }

  function Onto(us: seq<Unit>, r: Option<seq<Unit>>): Option<seq<Unit>> {
    if r.None? then None else Some(us + r.value)
  }

  lemma ReadNext(L: Limits, c: Codec, closed: bool)
    requires Wf(c) && Step(L, c).Next?
    ensures Reading(L, c, closed) == Onto(Flat(Step(L, c).events), Reading(L, Step(L, c).codec, closed))
  {
    hide Step;
    FlatAppend(Step(L, c).events, Run(L, Step(L, c).codec).events);
  }

  lemma ReadStop(L: Limits, c: Codec, closed: bool)
    requires Wf(c) && !Step(L, c).Next?
    ensures Reading(L, c, closed)
         == if Step(L, c).Stop? && c.phase == (if closed then UntilEof else Complete) then Some([]) else None
  {
    hide Step;
  }

  lemma ReadOver(L: Limits, c: Codec, closed: bool)
    requires c.phase == Complete
    ensures Reading(L, c, closed) == if closed then None else Some([])
  {
    ReadStop(L, c, closed);
  }

  /** The last step: the response is over unless there are more bytes. */
  lemma ReadFinish(L: Limits, c: Codec, d: Codec, events: seq<Event>, ts: seq<Header>, closed: bool)
    requires Wf(c) && Step(L, c) == Finish(d, events, ts)
    ensures Reading(L, c, closed) == if closed || d.buffer != [] then None else Some(Flat(events) + [EndUnit(ts)])
  {
    hide Step;
    if d.buffer == [] {
      ReadNext(L, c, closed);
      ReadOver(L, d.(phase := Complete), closed);
      FlatAppend(events, [EndEvent(ts)]);
      FlatOne(EndEvent(ts));
      var us := Flat(events) + [EndUnit(ts)];
      assert us + [] == us;
    } else {
      ReadStop(L, c, closed);
    }
  }

  // ---------------------------------------------------------------- bodies

  lemma FixedRead(L: Limits, c: Codec, closed: bool, us: seq<Unit>)
    requires Wf(c) && c.phase == Fixed
    ensures Reading(L, c, closed) == Some(us)
       <==> !closed && |c.buffer| == c.remaining && us == ByteUnits(c.buffer) + [EndUnit([])]
  {
    hide Run, Flat;
    var take := Min(c.remaining, |c.buffer|);
    var part := BodyEvent(c.buffer[..take]);
    FlatOne(part);
    if c.buffer == [] {
      ReadStop(L, c, closed);
    } else if take == c.remaining {
      var d := c.(buffer := c.buffer[take..], remaining := 0, received := c.received + take);
      ReadFinish(L, c, d, [part], [], closed);
      assert |c.buffer| == take ==> c.buffer[..take] == c.buffer;
    } else {
      ReadNext(L, c, closed);
      ReadStop(L, Step(L, c).codec, closed);
    }
  }

  lemma UntilEofRead(L: Limits, c: Codec, closed: bool, us: seq<Unit>)
    requires Wf(c) && c.phase == UntilEof && c.received == 0
    ensures Reading(L, c, closed) == Some(us)
       <==> closed && (c.buffer == [] || |c.buffer| <= L.bodyBytes) && us == ByteUnits(c.buffer)
  {
    hide Run, Flat;
    FlatOne(BodyEvent(c.buffer));
    if Step(L, c).Next? {
      ReadNext(L, c, closed);
      ReadStop(L, Step(L, c).codec, closed);
      assert ByteUnits(c.buffer) + [] == ByteUnits(c.buffer);
    } else {
      ReadStop(L, c, closed);
      assert c.buffer == [] ==> ByteUnits(c.buffer) == [];
    }
  }

  lemma TrailersRead(L: Limits, c: Codec, us: seq<Unit>)
    requires Wf(c) && c.phase == InTrailers
    ensures Reading(L, c, false) == Some(us) <==> Ending(L, c.buffer, us)
  {
    hide Run, ParseTrailers, FieldsOf, SplitCrlf, Unrouted, Sanitize;
    var s := c.buffer;
    var m := FindDoubleCrlf(s);
    if CrlfAt(s, 0) {
      assert s[..2] == CRLF;
      ReadFinish(L, c, c.(buffer := s[2..]), [], [], false);
      assert s[2..] == [] <==> s == CRLF;
      assert [] + [EndUnit([])] == [EndUnit([])];
      assert s == CRLF ==> TrailerPart(L, s, []);
    } else {
      assert |s| >= 2 ==> s[..2] != CRLF;
      TrailerBlockRead(L, c, us);
    }
  }

  lemma TrailerBlockRead(L: Limits, c: Codec, us: seq<Unit>)
    requires Wf(c) && c.phase == InTrailers && !CrlfAt(c.buffer, 0) && (|c.buffer| >= 2 ==> c.buffer[..2] != CRLF)
    ensures Reading(L, c, false) == Some(us) <==> Ending(L, c.buffer, us)
  {
    hide Run, ParseTrailers, FieldsOf, SplitCrlf, Unrouted, Sanitize;
    var s, m := c.buffer, FindDoubleCrlf(c.buffer);
    if m < 0 || m + 4 > L.headerBytes || ParseTrailers(L, s[..m]).Err? {
      ReadStop(L, c, false);
    } else {
      var ts := ParseTrailers(L, s[..m]).value;
      ReadFinish(L, c, c.(buffer := s[m + 4..]), [], ts, false);
      assert [] + [EndUnit(ts)] == [EndUnit(ts)];
    }
    forall ts ensures TrailerPart(L, s, ts) <==>
                      m >= 0 && m + 4 == |s| <= L.headerBytes && ParseTrailers(L, s[..m]) == Ok(ts) {
      TrailerPartIs(L, s, ts);
    }
  }

  lemma TrailerPartIs(L: Limits, s: bytes, ts: seq<Header>)
    requires !CrlfAt(s, 0)
    ensures var m := FindDoubleCrlf(s);
            TrailerPart(L, s, ts) <==> m >= 0 && m + 4 == |s| <= L.headerBytes && ParseTrailers(L, s[..m]) == Ok(ts)
  {
    hide ParseTrailers, FieldsOf, SplitCrlf, Unrouted, Sanitize;
    if |s| >= 4 {
      FirstEmptyIs(s, |s| - 4);
      ResponseTrailersGrammar(L, s[..|s| - 4], ts);
    }
  }

  // ---------------------------------------------------------------- chunks

  /** A chunk's data and line end, once its size is known. */
  lemma DataRead(L: Limits, c: Codec)
    requires Wf(c) && c.phase == ChunkData
    ensures Reading(L, c, false) ==
            if !CrlfAt(c.buffer, c.remaining) then None
            else Onto(ByteUnits(c.buffer[..c.remaining]),
                      Reading(L, Codec(c.buffer[c.remaining + 2..], ChunkSize, 0, c.received + c.remaining), false))
  {
    hide Run, Flat;
    var n := c.remaining;
    if c.buffer == [] {
      ReadStop(L, c, false);
    } else {
      var d := Step(L, c).codec;
      FlatOne(Step(L, c).events[0]);
      ReadNext(L, c, false);
      if |c.buffer| < n || |d.buffer| < 2 {
        ReadStop(L, d, false);
      } else {
        assert CrlfAt(c.buffer, n) <==> d.buffer[..2] == CRLF;
        if d.buffer[..2] == CRLF {
          ReadNext(L, d, false);
          assert c.buffer[n..][2..] == c.buffer[n + 2..];
          OntoNothing(Reading(L, Step(L, d).codec, false));
        } else {
          ReadStop(L, d, false);
        }
      }
    }
  }

  lemma OntoNothing(r: Option<seq<Unit>>)
    ensures Onto(Flat([]), r) == r
  {
    assert r.Some? ==> [] + r.value == r.value;
  }

  lemma AnnouncedIs(L: Limits, s: bytes, received: nat, m: nat, n: nat)
    ensures Announces(L, s, received, m, n) <==>
            m == FindCrlf(s) <= 128 && ParseLine(s[..m]) == Ok(n) && n <= L.chunkBytes && received + n <= L.bodyBytes
  {
    hide ParseLine, LineOfSize;
    FirstLineIs(s, m);
    if m == FindCrlf(s) {
      LineOfSizeIs(s[..m], n);
    }
  }

  lemma OntoIs(us: seq<Unit>, r: Option<seq<Unit>>, all: seq<Unit>)
    ensures Onto(us, r) == Some(all) <==> |us| <= |all| && all[..|us|] == us && r == Some(all[|us|..])
  {
    if r.Some? && all == us + r.value {
      assert all[|us|..] == r.value;
    }
    if |us| <= |all| && all[..|us|] == us {
      assert all == us + all[|us|..];
    }
  }

  /** The next chunk of a body, or its last one. */
  ghost predicate NextChunk(L: Limits, s: bytes, received: nat, us: seq<Unit>, m: nat, n: nat)
    requires CrlfAt(s, m)
  {
    if n == 0 then Ending(L, s[m + 2..], us)
    else
      && CrlfAt(s, m + 2 + n) && n <= |us| && us[..n] == ByteUnits(s[m + 2..m + 2 + n])
      && Chunks(L, s[m + n + 4..], received + n, us[n..])
  }

  lemma ChunksAre(L: Limits, s: bytes, received: nat, us: seq<Unit>)
    ensures Chunks(L, s, received, us) <==>
            exists m: nat, n: nat :: Announces(L, s, received, m, n) && NextChunk(L, s, received, us, m, n)
  {
    hide Ending, LineOfSize;
  }

  lemma DataParts(s: bytes, m: nat, n: nat)
    requires m + 2 <= |s|
    ensures var d := s[m + 2..];
            && (CrlfAt(d, n) <==> CrlfAt(s, m + 2 + n))
            && (CrlfAt(d, n) ==> d[..n] == s[m + 2..m + 2 + n] && d[n + 2..] == s[m + n + 4..])
  {
  }

  /** An accepted size line leads to its chunk. */
  lemma SizeRead(L: Limits, c: Codec, m: nat, n: nat)
    requires Wf(c) && c.phase == ChunkSize && Announces(L, c.buffer, c.received, m, n)
    ensures CrlfAt(c.buffer, m)
    ensures var d := c.(buffer := c.buffer[m + 2..]);
            && var e := if n == 0 then d.(phase := InTrailers) else d.(phase := ChunkData, remaining := n);
            Wf(e) && Reading(L, c, false) == Reading(L, e, false)
  {
    hide Run, Flat, ParseLine, Announces, Reading;
    AnnouncedIs(L, c.buffer, c.received, m, n);
    ReadNext(L, c, false);
    OntoNothing(Reading(L, Step(L, c).codec, false));
  }

  lemma NothingAnnounced(L: Limits, c: Codec)
    requires Wf(c) && c.phase == ChunkSize && forall m: nat, n: nat :: !Announces(L, c.buffer, c.received, m, n)
    ensures Reading(L, c, false) == None
  {
    hide Run, Flat, ParseLine, Announces, Reading;
    var m := FindCrlf(c.buffer);
    if m >= 0 && ParseLine(c.buffer[..m]).Ok? {
      AnnouncedIs(L, c.buffer, c.received, m, ParseLine(c.buffer[..m]).value);
    }
    ReadStop(L, c, false);
  }

  lemma {:induction false} ChunksRead(L: Limits, c: Codec, us: seq<Unit>)
    requires Wf(c) && c.phase == ChunkSize
    ensures Reading(L, c, false) == Some(us) <==> Chunks(L, c.buffer, c.received, us)
    decreases |c.buffer|, 1
  {
    hide Run, Flat, Chunks, Announces, NextChunk, Reading;
    ChunksAre(L, c.buffer, c.received, us);
    if m: nat, n: nat :| Announces(L, c.buffer, c.received, m, n) {
      SizeRead(L, c, m, n);
      OneAnnounced(L, c.buffer, c.received, m, n);
      NextRead(L, c, us, m, n);
    } else {
      NothingAnnounced(L, c);
    }
  }

  lemma OneAnnounced(L: Limits, s: bytes, received: nat, m: nat, n: nat)
    requires Announces(L, s, received, m, n)
    ensures forall k: nat, j: nat :: Announces(L, s, received, k, j) ==> k == m && j == n
  {
    hide ParseLine, Announces;
    AnnouncedIs(L, s, received, m, n);
    forall k: nat, j: nat | Announces(L, s, received, k, j) ensures k == m && j == n {
      AnnouncedIs(L, s, received, k, j);
    }
  }

  lemma {:induction false} NextRead(L: Limits, c: Codec, us: seq<Unit>, m: nat, n: nat)
    requires Wf(c) && c.phase == ChunkSize && CrlfAt(c.buffer, m)
    ensures var d := c.(buffer := c.buffer[m + 2..]);
            var e := if n == 0 then d.(phase := InTrailers) else d.(phase := ChunkData, remaining := n);
            Reading(L, e, false) == Some(us) <==> NextChunk(L, c.buffer, c.received, us, m, n)
    decreases |c.buffer|, 0
  {
    hide Run, Flat, Chunks, Ending, Reading;
    var d := c.(buffer := c.buffer[m + 2..]);
    if n == 0 {
      TrailersRead(L, d.(phase := InTrailers), us);
    } else {
      DataRead(L, d.(phase := ChunkData, remaining := n));
      DataParts(c.buffer, m, n);
      if CrlfAt(d.buffer, n) {
        var e := Codec(d.buffer[n + 2..], ChunkSize, 0, c.received + n);
        OntoIs(ByteUnits(d.buffer[..n]), Reading(L, e, false), us);
        if n <= |us| {
          ChunksRead(L, e, us[n..]);
        }
      }
    }
  }

  // ---------------------------------------------------------------- heads

  lemma HeadBlockIs(L: Limits, s: bytes, m: nat, h: ResponseHead)
    ensures HeadBlock(L, s, m, h) <==> m == FindDoubleCrlf(s) <= L.headerBytes - 4 && ParseHead(L, s[..m]) == Ok(h)
  {
    hide ParseHead, ResponseHeadOf;
    FirstEmptyIs(s, m);
    if m == FindDoubleCrlf(s) {
      ResponseHeadGrammar(L, s[..m], h);
    }
  }

  /** A body with its own end never becomes one that goes on until the connection ends. */
  lemma {:induction false} StaysFramed(L: Limits, c: Codec)
    requires Wf(c) && c.phase != InHead && c.phase != UntilEof
    ensures Run(L, c).codec.phase != UntilEof
    decreases |c.buffer|
  {
    match Step(L, c)
    case Next(d, _) =>
      StepFramed(L, c);
      StaysFramed(L, d);
    case Fail(_, _) => StepFramed(L, c);
    case Stop =>
  }

  lemma StepFramed(L: Limits, c: Codec)
    requires Wf(c) && c.phase != InHead && c.phase != UntilEof && !Step(L, c).Stop?
    ensures Step(L, c).codec.phase != UntilEof && Step(L, c).codec.phase != InHead
  {
    hide ParseTrailers, ParseLine;
  }

  lemma NeverClosed(L: Limits, c: Codec)
    requires Wf(c) && c.phase == ChunkSize
    ensures Reading(L, c, true) == None
  {
    hide Run;
    StaysFramed(L, c);
  }

  lemma BodyRead(L: Limits, d: Codec, h: ResponseHead, closed: bool, us: seq<Unit>)
    requires d.phase == InHead && d.received == 0 && !h.informational && Wf(d)
    requires h.contentLength >= -1 && (h.chunked ==> h.contentLength == -1)
    requires h.bodyExpected && h.contentLength != 0
    ensures var r := EnterBody(d, h);
            r.Next? && Wf(r.codec) && (Reading(L, r.codec, closed) == Some(us) <==> BodyOf(L, h, d.buffer, closed, us))
  {
    hide Run, Flat, Chunks, Reading;
    var e := EnterBody(d, h).codec;
    if h.chunked {
      ChunksRead(L, e, us);
      if closed {
        NeverClosed(L, e);
      }
    } else if h.contentLength > 0 {
      FixedRead(L, e, closed, us);
    } else {
      UntilEofRead(L, e, closed, us);
    }
  }

  /** What follows a head. */
  ghost predicate AfterHead(L: Limits, h: ResponseHead, s: bytes, closed: bool, us: seq<Unit>)
    decreases |s|
  {
    && us != [] && us[0] == HeadUnit(h)
    && if h.informational then Response(L, s, closed, us[1..]) else BodyOf(L, h, s, closed, us[1..])
  }

  lemma ResponseIs(L: Limits, s: bytes, closed: bool, us: seq<Unit>)
    ensures Response(L, s, closed, us) <==>
            exists m: nat, h :: HeadBlock(L, s, m, h) && AfterHead(L, h, s[m + 4..], closed, us)
  {
    hide BodyOf, ResponseHeadOf;
  }

  lemma HeadFacts(L: Limits, block: bytes, h: ResponseHead)
    requires ParseHead(L, block) == Ok(h)
    ensures h.contentLength >= -1 && (h.chunked ==> h.contentLength == -1)
  {
    hide ParseStatusLine, ParseFields, Values, Codings, SplitCrlf, BodyExpected, KeepsAlive;
  }

  lemma HeadEventRead(L: Limits, c: Codec, d: Codec, h: ResponseHead, closed: bool, us: seq<Unit>)
    requires Wf(c) && Step(L, c) == Next(d, [HeadEvent(h)])
    ensures Reading(L, c, closed) == Some(us)
       <==> us != [] && us[0] == HeadUnit(h) && Reading(L, d, closed) == Some(us[1..])
  {
    hide Run, Flat, Step;
    ReadNext(L, c, closed);
    FlatOne(HeadEvent(h));
    OntoIs([HeadUnit(h)], Reading(L, d, closed), us);
    assert us != [] ==> us[..1] == [us[0]];
  }

  lemma HeadStep(L: Limits, c: Codec, m: nat, h: ResponseHead)
    requires Wf(c) && c.phase == InHead && HeadBlock(L, c.buffer, m, h)
    ensures m + 4 <= |c.buffer| && Step(L, c) == EnterBody(c.(buffer := c.buffer[m + 4..]), h)
    ensures h.contentLength >= -1 && (h.chunked ==> h.contentLength == -1)
  {
    hide ParseHead, HeadBlock;
    HeadBlockIs(L, c.buffer, m, h);
    HeadFacts(L, c.buffer[..m], h);
  }

  lemma NoHead(L: Limits, c: Codec, closed: bool)
    requires Wf(c) && c.phase == InHead && forall m: nat, h :: !HeadBlock(L, c.buffer, m, h)
    ensures Reading(L, c, closed) == None
  {
    hide Run, Flat, ParseHead, HeadBlock, Reading;
    var m := FindDoubleCrlf(c.buffer);
    if m >= 0 && ParseHead(L, c.buffer[..m]).Ok? {
      HeadBlockIs(L, c.buffer, m, ParseHead(L, c.buffer[..m]).value);
    }
    ReadStop(L, c, closed);
  }

  lemma OneHead(L: Limits, s: bytes, m: nat, h: ResponseHead)
    requires HeadBlock(L, s, m, h)
    ensures forall k: nat, g :: HeadBlock(L, s, k, g) ==> k == m && g == h
  {
    hide ParseHead, HeadBlock;
    HeadBlockIs(L, s, m, h);
    forall k: nat, g | HeadBlock(L, s, k, g) ensures k == m && g == h {
      HeadBlockIs(L, s, k, g);
    }
  }

  lemma FinalRead(L: Limits, c: Codec, m: nat, h: ResponseHead, closed: bool, us: seq<Unit>)
    requires Wf(c) && c.phase == InHead && c.received == 0
    requires HeadBlock(L, c.buffer, m, h) && !h.informational
    ensures Reading(L, c, closed) == Some(us) <==> AfterHead(L, h, c.buffer[m + 4..], closed, us)
  {
    hide Run, Flat, ParseHead, HeadBlock, Reading, Chunks;
    HeadStep(L, c, m, h);
    var d := c.(buffer := c.buffer[m + 4..]);
    if !h.bodyExpected || h.contentLength == 0 {
      ReadFinish(L, c, d, [HeadEvent(h)], [], closed);
      FlatOne(HeadEvent(h));
      assert us == [HeadUnit(h)] + [EndUnit([])] <==> us != [] && us[0] == HeadUnit(h) && us[1..] == [EndUnit([])];
    } else {
      HeadEventRead(L, c, EnterBody(d, h).codec, h, closed, us);
      if us != [] {
        BodyRead(L, d, h, closed, us[1..]);
      }
    }
  }

  lemma {:induction false} MessageRead(L: Limits, c: Codec, closed: bool, us: seq<Unit>)
    requires Wf(c) && c.phase == InHead && c.received == 0
    ensures Reading(L, c, closed) == Some(us) <==> Response(L, c.buffer, closed, us)
    decreases |c.buffer|, 1
  {
    hide Run, Flat, HeadBlock, Reading, Response, BodyOf, EnterBody;
    ResponseIs(L, c.buffer, closed, us);
    if m: nat, h :| HeadBlock(L, c.buffer, m, h) {
      OneHead(L, c.buffer, m, h);
      if h.informational {
        InterimRead(L, c, m, h, closed, us);
      } else {
        FinalRead(L, c, m, h, closed, us);
      }
    } else {
      NoHead(L, c, closed);
    }
  }

  lemma {:induction false} InterimRead(L: Limits, c: Codec, m: nat, h: ResponseHead, closed: bool, us: seq<Unit>)
    requires Wf(c) && c.phase == InHead && c.received == 0
    requires HeadBlock(L, c.buffer, m, h) && h.informational
    ensures Reading(L, c, closed) == Some(us) <==> AfterHead(L, h, c.buffer[m + 4..], closed, us)
    decreases |c.buffer|, 0
  {
    hide Run, Flat, HeadBlock, Reading, Response, BodyOf;
    HeadStep(L, c, m, h);
    var d := c.(buffer := c.buffer[m + 4..]);
    HeadEventRead(L, c, d, h, closed, us);
    if us != [] {
      MessageRead(L, d, closed, us[1..]);
    }
  }

  predicate ReadsAs(o: Outcome, closed: bool, us: seq<Unit>) {
    o.error.None? && o.codec.phase == (if closed then UntilEof else Complete) && Flat(o.events) == us
  }

  /** The decoder reads bytes as a complete response if and only if they are one in this grammar,
      and reads its interim heads, its final head, its body and its trailers. A response without
      an end of its own is complete when the connection ends. */
  lemma ResponseExactly(L: Limits, s: bytes, closed: bool, us: seq<Unit>)
    requires ValidLimits(L)
    ensures ReadsAs(Feed(L, UpstreamCodec.Fresh, s), closed, us) <==> Response(L, s, closed, us)
  {
    hide Run, Flat, Response;
    var c := UpstreamCodec.Fresh.(buffer := s);
    assert [] + s == s;
    MessageRead(L, c, closed, us);
  }
}
