/** Exactly which bytes the request decoder reads as one request, and as what: sections 6 and 7.1
    of RFC 9112, as far as the decoder implements them. */
module RequestMessages {
  import opened Octets
  import opened Numerals
  import opened ChunkLine
  import opened Headers
  import opened ServerCodec
  import opened ServerFragments
  import opened ServerTraces
  import opened HeadGrammar

  // ---------------------------------------------------------------- the grammar of a request

  /** The first `n` bytes are a trailer section: an empty line, or fields up to one. */
  ghost predicate TrailerPart(L: Limits, s: bytes, n: int, ts: seq<Header>) {
    if CrlfAt(s, 0) then n == 2 && ts == []
    else
      && 4 <= n <= |s| && n <= L.headerBytes && FirstEmptyLine(s, n - 4)
      && FieldsOf(SplitCrlf(s[..n - 4]), ts) && (ts == [] || |ts| <= L.headerCount)
      && Unrouted(ts) && Values(ts, HOST) == []
  }

  ghost predicate Ending(L: Limits, s: bytes, n: int, us: seq<Unit>) {
    exists ts :: us == [EndUnit(ts)] && TrailerPart(L, s, n, ts)
  }

  /** The first line of `m` bytes announces `k` bytes, within the limits. */
  ghost predicate Announces(L: Limits, s: bytes, received: nat, m: nat, k: nat) {
    && FirstLineEnd(s, m) && m <= 128 && LineOfSize(s[..m], k)
    && k <= L.chunkBytes && received + k <= L.bodyBytes
  }

  /** The first `n` bytes are chunks with their sizes and line ends, a last chunk of size zero,
      and a trailer section. */
  ghost predicate Chunks(L: Limits, s: bytes, received: nat, n: int, us: seq<Unit>)
    decreases |s|
  {
    exists m: nat, k: nat ::
      && Announces(L, s, received, m, k)
      && if k == 0 then Ending(L, s[m + 2..], n - m - 2, us)
         else
           && CrlfAt(s, m + 2 + k) && k <= |us| && us[..k] == ByteUnits(s[m + 2..m + 2 + k])
           && Chunks(L, s[m + k + 4..], received + k, n - m - k - 4, us[k..])
  }

  /** The first `n` bytes are the body a head calls for. */
  ghost predicate BodyOf(L: Limits, h: RequestHead, s: bytes, n: int, us: seq<Unit>) {
    if h.chunked then Chunks(L, s, 0, n, us)
    else 0 <= n <= |s| && n == h.contentLength && us == ByteUnits(s[..n]) + [EndUnit([])]
  }

  ghost predicate AfterHead(L: Limits, h: RequestHead, s: bytes, n: int, us: seq<Unit>) {
    us != [] && us[0] == HeadUnit(h) && BodyOf(L, h, s, n, us[1..])
  }

  ghost predicate HeadBlock(L: Limits, s: bytes, m: nat, h: RequestHead) {
    FirstEmptyLine(s, m) && m + 4 <= L.headerBytes && RequestHeadOf(L, s[..m], h)
  }

  /** The first `n` bytes are a request: a head and its body. */
  ghost predicate Request(L: Limits, s: bytes, n: int, us: seq<Unit>) {
    exists m: nat, h :: HeadBlock(L, s, m, h) && AfterHead(L, h, s[m + 4..], n - m - 4, us)
  }

  // ---------------------------------------------------------------- what the decoder makes of a state

  /** The units up to the end of the message being read, and the bytes after it. */
  function One(L: Limits, c: Codec): Option<(seq<Unit>, bytes)>
    requires Wf(c)
    decreases |c.buffer|
  {
    match Step(L, c)
    case Next(d, events, done) => if done then Some((Flat(events), d.buffer)) else Onto(Flat(events), One(L, d))
    case _ => None
  }

  function Onto(us: seq<Unit>, r: Option<(seq<Unit>, bytes)>): Option<(seq<Unit>, bytes)> {
    if r.None? then None else Some((us + r.value.0, r.value.1))
  }

  lemma OntoNothing(r: Option<(seq<Unit>, bytes)>)
    ensures Onto(Flat([]), r) == r
  {
    assert r.Some? ==> [] + r.value.0 == r.value.0;
  }

  /** The decoder has read these units of one message and these bytes are left. */
  predicate ReadsAs(o: Outcome, us: seq<Unit>, rest: bytes) {
    o.error.None? && Ended(o) && Flat(o.events) == us && o.codec == Fresh.(buffer := rest)
  }

  lemma StepDone(L: Limits, c: Codec)
    requires Wf(c) && Step(L, c).Next? && Step(L, c).done
    ensures Step(L, c).codec == Fresh.(buffer := Step(L, c).codec.buffer)
  {
    hide ParseHead, ParseTrailers, ParseLine;
  }

  lemma EndedAfter(events: seq<Event>, o: Outcome)
    requires events == [] || !events[|events| - 1].EndEvent?
    ensures Ended(After(events, o)) <==> Ended(o)
  {
    if o.events == [] {
      assert events + o.events == events;
    }
  }

  /** One message is what a run with a budget of one message reads. */
  lemma {:induction false} OneIsRun(L: Limits, c: Codec, us: seq<Unit>, rest: bytes)
    requires Wf(c)
    ensures ReadsAs(Run(L, c, 1), us, rest) <==> One(L, c) == Some((us, rest))
    decreases |c.buffer|
  {
    hide Step, Flat;
    var s := Step(L, c);
    if s.Next? {
      StepEnds(L, c);
      if s.done {
        StepDone(L, c);
      } else {
        EndedAfter(s.events, Run(L, s.codec, 1));
        FlatAppend(s.events, Run(L, s.codec, 1).events);
        var first := Flat(s.events);
        if |first| <= |us| {
          OneIsRun(L, s.codec, us[|first|..], rest);
        }
        OntoIs(first, One(L, s.codec), us, rest);
        var more := Flat(Run(L, s.codec, 1).events);
        assert first + more == us <==> |first| <= |us| && us[..|first|] == first && us[|first|..] == more;
      }
    }
  }

  lemma OntoIs(us: seq<Unit>, r: Option<(seq<Unit>, bytes)>, all: seq<Unit>, rest: bytes)
    ensures Onto(us, r) == Some((all, rest)) <==> |us| <= |all| && all[..|us|] == us && r == Some((all[|us|..], rest))
  {
    if r.Some? && all == us + r.value.0 {
      assert all[|us|..] == r.value.0;
    }
    if |us| <= |all| && all[..|us|] == us {
      assert all == us + all[|us|..];
    }
  }

  // ---------------------------------------------------------------- bodies

  /** The rest after the first `n` bytes. */
  predicate RestAfter(s: bytes, n: int, rest: bytes) {
    0 <= n <= |s| && rest == s[n..]
  }

  lemma FixedOne(L: Limits, c: Codec, n: int, us: seq<Unit>, rest: bytes)
    requires Wf(c) && c.phase == Fixed && RestAfter(c.buffer, n, rest)
    ensures One(L, c) == Some((us, rest)) <==> n == c.remaining && us == ByteUnits(c.buffer[..n]) + [EndUnit([])]
  {
    hide Flat;
    var take := Min(c.remaining, |c.buffer|);
    var part := BodyEvent(c.buffer[..take]);
    if c.buffer != [] {
      FlatOne(part);
      FlatAppend([part], [EndEvent([])]);
      FlatOne(EndEvent([]));
      if take != c.remaining {
        assert Step(L, Step(L, c).codec).Stop?;
      } else if c.buffer[take..] == rest {
        assert |c.buffer| - take == |c.buffer| - n;
      }
    }
  }

  lemma TrailersOne(L: Limits, c: Codec, n: int, us: seq<Unit>, rest: bytes)
    requires Wf(c) && c.phase == InTrailers && RestAfter(c.buffer, n, rest)
    ensures One(L, c) == Some((us, rest)) <==> Ending(L, c.buffer, n, us)
  {
    hide ParseTrailers, FieldsOf, SplitCrlf, Unrouted, Values, Flat;
    var s, m := c.buffer, FindDoubleCrlf(c.buffer);
    FlatOne(EndEvent([]));
    if CrlfAt(s, 0) {
      assert [] + [EndEvent([])] == [EndEvent([])];
      assert s[2..] == rest <==> n == 2;
      assert n == 2 ==> TrailerPart(L, s, n, []);
    } else {
      if m >= 0 && m + 4 <= L.headerBytes && ParseTrailers(L, s[..m]).Ok? {
        var ts := ParseTrailers(L, s[..m]).value;
        assert [] + [EndEvent(ts)] == [EndEvent(ts)];
        FlatOne(EndEvent(ts));
        assert s[m + 4..] == rest <==> n == m + 4;
      }
      forall ts ensures TrailerPart(L, s, n, ts) <==>
                        m >= 0 && n == m + 4 <= L.headerBytes && ParseTrailers(L, s[..m]) == Ok(ts) {
        TrailerPartIs(L, s, n, ts);
      }
    }
  }

  lemma TrailerPartIs(L: Limits, s: bytes, n: int, ts: seq<Header>)
    requires !CrlfAt(s, 0)
    ensures var m := FindDoubleCrlf(s);
            TrailerPart(L, s, n, ts) <==> m >= 0 && n == m + 4 <= L.headerBytes && ParseTrailers(L, s[..m]) == Ok(ts)
  {
    hide ParseTrailers, FieldsOf, SplitCrlf, Unrouted, Values;
    if 4 <= n <= |s| {
      FirstEmptyIs(s, n - 4);
      RequestTrailersGrammar(L, s[..n - 4], ts);
    }
  }

  // ---------------------------------------------------------------- chunks

  lemma DataOne(L: Limits, c: Codec)
    requires Wf(c) && c.phase == ChunkData
    ensures One(L, c) ==
            if !CrlfAt(c.buffer, c.remaining) then None
            else Onto(ByteUnits(c.buffer[..c.remaining]),
                      One(L, Codec(c.buffer[c.remaining + 2..], ChunkSize, 0, c.received + c.remaining)))
  {
    hide Flat;
    if |c.buffer| >= c.remaining {
      FlatOne(BodyEvent(c.buffer[..c.remaining]));
    }
  }

  lemma AnnouncedIs(L: Limits, s: bytes, received: nat, m: nat, k: nat)
    ensures Announces(L, s, received, m, k) <==>
            m == FindCrlf(s) <= 128 && ParseLine(s[..m]) == Ok(k) && k <= L.chunkBytes && received + k <= L.bodyBytes
  {
    hide ParseLine, LineOfSize;
    FirstLineIs(s, m);
    if m == FindCrlf(s) {
      LineOfSizeIs(s[..m], k);
    }
  }

  lemma OneAnnounced(L: Limits, s: bytes, received: nat, m: nat, k: nat)
    requires Announces(L, s, received, m, k)
    ensures forall i: nat, j: nat :: Announces(L, s, received, i, j) ==> i == m && j == k
  {
    hide ParseLine, Announces;
    AnnouncedIs(L, s, received, m, k);
    forall i: nat, j: nat | Announces(L, s, received, i, j) ensures i == m && j == k {
      AnnouncedIs(L, s, received, i, j);
    }
  }

  lemma SizeOne(L: Limits, c: Codec, m: nat, k: nat)
    requires Wf(c) && c.phase == ChunkSize && Announces(L, c.buffer, c.received, m, k)
    ensures CrlfAt(c.buffer, m)
    ensures var d := c.(buffer := c.buffer[m + 2..]);
            && var e := if k == 0 then d.(phase := InTrailers) else d.(phase := ChunkData, remaining := k);
            Wf(e) && One(L, c) == One(L, e)
  {
    hide ParseLine, Announces;
    AnnouncedIs(L, c.buffer, c.received, m, k);
    OntoNothing(One(L, Step(L, c).codec));
  }

  lemma NothingAnnounced(L: Limits, c: Codec)
    requires Wf(c) && c.phase == ChunkSize && forall m: nat, k: nat :: !Announces(L, c.buffer, c.received, m, k)
    ensures One(L, c) == None
  {
    hide ParseLine, Announces;
    var m := FindCrlf(c.buffer);
    if m >= 0 && ParseLine(c.buffer[..m]).Ok? {
      AnnouncedIs(L, c.buffer, c.received, m, ParseLine(c.buffer[..m]).value);
    }
  }

  /** The next chunk of a body, or its last one. */
  ghost predicate NextChunk(L: Limits, s: bytes, received: nat, n: int, us: seq<Unit>, m: nat, k: nat)
    requires CrlfAt(s, m)
  {
    if k == 0 then Ending(L, s[m + 2..], n - m - 2, us)
    else
      && CrlfAt(s, m + 2 + k) && k <= |us| && us[..k] == ByteUnits(s[m + 2..m + 2 + k])
      && Chunks(L, s[m + k + 4..], received + k, n - m - k - 4, us[k..])
  }

  lemma ChunksAre(L: Limits, s: bytes, received: nat, n: int, us: seq<Unit>)
    ensures Chunks(L, s, received, n, us) <==>
            exists m: nat, k: nat :: Announces(L, s, received, m, k) && NextChunk(L, s, received, n, us, m, k)
  {
    hide Ending, LineOfSize;
  }

  /** A body takes no more than there is, and no less than nothing. */
  lemma {:induction false} ChunksFit(L: Limits, s: bytes, received: nat, n: int, us: seq<Unit>)
    requires Chunks(L, s, received, n, us)
    ensures 0 <= n <= |s|
    decreases |s|
  {
    hide Ending, LineOfSize, Chunks;
    ChunksAre(L, s, received, n, us);
    var m: nat, k: nat :| Announces(L, s, received, m, k) && NextChunk(L, s, received, n, us, m, k);
    if k == 0 {
      EndingFits(L, s[m + 2..], n - m - 2, us);
    } else {
      ChunksFit(L, s[m + k + 4..], received + k, n - m - k - 4, us[k..]);
    }
  }

  lemma EndingFits(L: Limits, s: bytes, n: int, us: seq<Unit>)
    requires Ending(L, s, n, us)
    ensures 0 <= n <= |s|
  {
    hide FieldsOf, SplitCrlf, Unrouted, Values;
  }

  lemma {:induction false} ChunksOne(L: Limits, c: Codec, n: int, us: seq<Unit>, rest: bytes)
    requires Wf(c) && c.phase == ChunkSize && RestAfter(c.buffer, n, rest)
    ensures One(L, c) == Some((us, rest)) <==> Chunks(L, c.buffer, c.received, n, us)
    decreases |c.buffer|, 1
  {
    hide One, Chunks, Announces, NextChunk;
    ChunksAre(L, c.buffer, c.received, n, us);
    if m: nat, k: nat :| Announces(L, c.buffer, c.received, m, k) {
      SizeOne(L, c, m, k);
      OneAnnounced(L, c.buffer, c.received, m, k);
      if k == 0 {
        LastOne(L, c, n, us, rest, m);
      } else {
        NextOne(L, c, n, us, rest, m, k);
      }
    } else {
      NothingAnnounced(L, c);
    }
  }

  lemma {:induction false} OneShorter(L: Limits, c: Codec)
    requires Wf(c)
    ensures One(L, c).Some? ==> |One(L, c).value.1| <= |c.buffer|
    decreases |c.buffer|
  {
    hide Step, Flat;
    var s := Step(L, c);
    if s.Next? && !s.done {
      OneShorter(L, s.codec);
    }
  }

  lemma DataParts(s: bytes, m: nat, k: nat)
    requires m + 2 <= |s|
    ensures var d := s[m + 2..];
            && (CrlfAt(d, k) <==> CrlfAt(s, m + 2 + k))
            && (CrlfAt(d, k) ==> d[..k] == s[m + 2..m + 2 + k] && d[k + 2..] == s[m + k + 4..])
  {
  }

  lemma LastOne(L: Limits, c: Codec, n: int, us: seq<Unit>, rest: bytes, m: nat)
    requires Wf(c) && c.phase == ChunkSize && RestAfter(c.buffer, n, rest) && CrlfAt(c.buffer, m)
    ensures One(L, c.(buffer := c.buffer[m + 2..], phase := InTrailers)) == Some((us, rest))
       <==> NextChunk(L, c.buffer, c.received, n, us, m, 0)
  {
    hide One, Chunks, Ending, Flat;
    var e := c.(buffer := c.buffer[m + 2..], phase := InTrailers);
    OneShorter(L, e);
    if Ending(L, e.buffer, n - m - 2, us) {
      EndingFits(L, e.buffer, n - m - 2, us);
    }
    if n >= m + 2 {
      assert e.buffer[n - m - 2..] == c.buffer[n..];
      TrailersOne(L, e, n - m - 2, us, rest);
    }
  }

  /** From the line end after a chunk on. */
  lemma {:induction false} RestOne(L: Limits, e: Codec, n: int, us: seq<Unit>, rest: bytes)
    requires Wf(e) && e.phase == ChunkSize
    requires if n < 0 then |rest| > |e.buffer| else RestAfter(e.buffer, n, rest)
    ensures One(L, e) == Some((us, rest)) <==> Chunks(L, e.buffer, e.received, n, us)
    decreases |e.buffer|, 2
  {
    hide One, Chunks;
    OneShorter(L, e);
    if n >= 0 {
      ChunksOne(L, e, n, us, rest);
    } else if Chunks(L, e.buffer, e.received, n, us) {
      ChunksFit(L, e.buffer, e.received, n, us);
    }
  }

  lemma {:induction false} NextOne(L: Limits, c: Codec, n: int, us: seq<Unit>, rest: bytes, m: nat, k: nat)
    requires Wf(c) && c.phase == ChunkSize && RestAfter(c.buffer, n, rest) && CrlfAt(c.buffer, m) && k > 0
    ensures One(L, c.(buffer := c.buffer[m + 2..], phase := ChunkData, remaining := k)) == Some((us, rest))
       <==> NextChunk(L, c.buffer, c.received, n, us, m, k)
    decreases |c.buffer|, 0
  {
    hide One, Chunks, Ending;
    var d := c.(buffer := c.buffer[m + 2..], phase := ChunkData, remaining := k);
    DataOne(L, d);
    DataParts(c.buffer, m, k);
    if CrlfAt(d.buffer, k) {
      var e := Codec(c.buffer[m + k + 4..], ChunkSize, 0, c.received + k);
      OntoIs(ByteUnits(d.buffer[..k]), One(L, e), us, rest);
      if k <= |us| {
        assert n >= m + k + 4 ==> e.buffer[n - m - k - 4..] == c.buffer[n..];
        RestOne(L, e, n - m - k - 4, us[k..], rest);
      }
    }
  }

  // ---------------------------------------------------------------- the whole request

  lemma HeadBlockIs(L: Limits, s: bytes, m: nat, h: RequestHead)
    ensures HeadBlock(L, s, m, h) <==> m == FindDoubleCrlf(s) <= L.headerBytes - 4 && ParseHead(L, s[..m]) == Ok(h)
  {
    hide ParseHead, RequestHeadOf;
    FirstEmptyIs(s, m);
    if m == FindDoubleCrlf(s) {
      RequestHeadGrammar(L, s[..m], h);
    }
  }

  lemma OneHead(L: Limits, s: bytes, m: nat, h: RequestHead)
    requires HeadBlock(L, s, m, h)
    ensures forall k: nat, g :: HeadBlock(L, s, k, g) ==> k == m && g == h
  {
    hide ParseHead, HeadBlock;
    HeadBlockIs(L, s, m, h);
    forall k: nat, g | HeadBlock(L, s, k, g) ensures k == m && g == h {
      HeadBlockIs(L, s, k, g);
    }
  }

  lemma HeadFacts(L: Limits, block: bytes, h: RequestHead)
    requires RequestHeadOf(L, block, h)
    ensures h.contentLength >= -1 && (h.chunked <==> h.contentLength == -1)
  {
    hide RequestLineOf, FieldsOf, SplitCrlf, Values, Codings, KeepsAlive, DecimalValue;
  }

  lemma HeadStep(L: Limits, c: Codec, m: nat, h: RequestHead)
    requires Wf(c) && c.phase == InHead && HeadBlock(L, c.buffer, m, h)
    ensures m + 4 <= |c.buffer| && Step(L, c) == EnterBody(c.(buffer := c.buffer[m + 4..]), h)
    ensures h.contentLength >= -1 && (h.chunked <==> h.contentLength == -1)
  {
    hide ParseHead, RequestHeadOf;
    HeadBlockIs(L, c.buffer, m, h);
    HeadFacts(L, c.buffer[..m], h);
  }

  lemma NoHead(L: Limits, c: Codec)
    requires Wf(c) && c.phase == InHead && forall m: nat, h :: !HeadBlock(L, c.buffer, m, h)
    ensures One(L, c) == None
  {
    hide ParseHead, HeadBlock;
    var m := FindDoubleCrlf(c.buffer);
    if m >= 0 && ParseHead(L, c.buffer[..m]).Ok? {
      HeadBlockIs(L, c.buffer, m, ParseHead(L, c.buffer[..m]).value);
    }
  }

  /** What follows a head, once the loop has taken it. */
  lemma ChunkedOne(L: Limits, c: Codec, s: bytes, h: RequestHead, n: int, us: seq<Unit>, rest: bytes)
    requires Wf(c) && h.chunked && Step(L, c) == Next(Codec(s, ChunkSize, 0, 0), [HeadEvent(h)], false)
    requires if n < 0 then |rest| > |s| else RestAfter(s, n, rest)
    ensures One(L, c) == Some((us, rest)) <==> AfterHead(L, h, s, n, us)
  {
    hide Step, Flat, Chunks;
    var d := Codec(s, ChunkSize, 0, 0);
    FlatOne(HeadEvent(h));
    OntoIs([HeadUnit(h)], One(L, d), us, rest);
    OneShorter(L, d);
    if us != [] {
      assert us[..1] == [us[0]];
      if n >= 0 {
        ChunksOne(L, d, n, us[1..], rest);
      } else if Chunks(L, s, 0, n, us[1..]) {
        ChunksFit(L, s, 0, n, us[1..]);
      }
    }
  }

  lemma LengthOne(L: Limits, c: Codec, s: bytes, h: RequestHead, n: int, us: seq<Unit>, rest: bytes)
    requires Wf(c) && !h.chunked && h.contentLength > 0
    requires Step(L, c) == Next(Codec(s, Fixed, h.contentLength, 0), [HeadEvent(h)], false)
    requires if n < 0 then |rest| > |s| else RestAfter(s, n, rest)
    ensures One(L, c) == Some((us, rest)) <==> AfterHead(L, h, s, n, us)
  {
    hide Step, Flat, Chunks;
    var d := Codec(s, Fixed, h.contentLength, 0);
    FlatOne(HeadEvent(h));
    OntoIs([HeadUnit(h)], One(L, d), us, rest);
    OneShorter(L, d);
    if us != [] {
      assert us[..1] == [us[0]];
      if n >= 0 {
        FixedOne(L, d, n, us[1..], rest);
      }
    }
  }

  lemma BareOne(L: Limits, c: Codec, s: bytes, h: RequestHead, n: int, us: seq<Unit>, rest: bytes)
    requires Wf(c) && !h.chunked && h.contentLength == 0 && Step(L, c) == Finish(s, [HeadEvent(h)], [])
    requires if n < 0 then |rest| > |s| else RestAfter(s, n, rest)
    ensures One(L, c) == Some((us, rest)) <==> AfterHead(L, h, s, n, us)
  {
    hide Step, Flat, Chunks;
    FlatAppend([HeadEvent(h)], [EndEvent([])]);
    FlatOne(HeadEvent(h));
    FlatOne(EndEvent([]));
    assert n == 0 ==> s[n..] == s;
    assert ByteUnits([]) + [EndUnit([])] == [EndUnit([])];
    assert us == [HeadUnit(h)] + [EndUnit([])] <==> us != [] && us[0] == HeadUnit(h) && us[1..] == [EndUnit([])];
  }

  lemma HeadOne(L: Limits, c: Codec, m: nat, h: RequestHead, n: int, us: seq<Unit>, rest: bytes)
    requires Wf(c) && c.phase == InHead && m + 4 <= |c.buffer| && RestAfter(c.buffer, n, rest)
    requires Step(L, c) == EnterBody(c.(buffer := c.buffer[m + 4..]), h)
    requires h.contentLength >= -1 && (h.chunked <==> h.contentLength == -1)
    ensures One(L, c) == Some((us, rest)) <==> AfterHead(L, h, c.buffer[m + 4..], n - m - 4, us)
  {
    hide Step, AfterHead, One;
    var s, k := c.buffer[m + 4..], n - m - 4;
    assert k >= 0 ==> s[k..] == c.buffer[n..];
    if h.chunked {
      ChunkedOne(L, c, s, h, k, us, rest);
    } else if h.contentLength > 0 {
      LengthOne(L, c, s, h, k, us, rest);
    } else {
      BareOne(L, c, s, h, k, us, rest);
    }
  }

  lemma RequestWith(L: Limits, s: bytes, n: int, us: seq<Unit>, m: nat, h: RequestHead)
    requires HeadBlock(L, s, m, h)
    ensures m + 4 <= |s| && (Request(L, s, n, us) <==> AfterHead(L, h, s[m + 4..], n - m - 4, us))
  {
    hide RequestHeadOf, AfterHead;
    OneHead(L, s, m, h);
  }

  /** The decoder reads the first `n` bytes as one request and leaves the others if and only if
      they are a request in this grammar, and reads its head, its body and its trailers. */
  lemma RequestExactly(L: Limits, s: bytes, n: nat, us: seq<Unit>)
    requires n <= |s|
    ensures ReadsAs(Feed(L, Fresh, s, 1), us, s[n..]) <==> Request(L, s, n, us)
  {
    hide Run, Flat, HeadBlock, AfterHead, One, ReadsAs;
    var c := Fresh.(buffer := s);
    assert [] + s == s;
    OneIsRun(L, c, us, s[n..]);
    if m: nat, h :| HeadBlock(L, s, m, h) {
      RequestWith(L, s, n, us, m, h);
      HeadStep(L, c, m, h);
      HeadOne(L, c, m, h, n, us, s[n..]);
    } else {
      NoHead(L, c);
    }
  }
}
