/** Relay transparency: a client that decodes what the relay wrote is always in step with
    the decoder that read the upstream, and ends with the same response. */
module ResponseTransparency {
  import opened Octets
  import opened Numerals
  import opened ChunkLine
  import opened Headers
  import opened UpstreamCodec
  import opened UpstreamFragments
  import opened ResponseEncoder
  import opened ResponseRelay
  import UC = UpstreamCuts

  // ---------------------------------------------------------------- encoded chunks decode

  lemma StepsTo(L: Limits, c: Codec, d: Codec, events: seq<Event>)
    requires Wf(c) && Step(L, c) == Next(d, events)
    ensures Run(L, c) == After(events, Run(L, d))
  {
    hide Step;
  }

  lemma StopsAt(L: Limits, c: Codec)
    requires Wf(c) && Step(L, c) == Stop
    ensures Run(L, c) == Outcome(c, [], None)
  {
    hide Step;
  }

  lemma EmptyBufferStops(L: Limits, c: Codec)
    requires Wf(c) && c.buffer == [] && L.headerBytes > 0
    ensures Step(L, c) == Stop
  {
    assert FindCrlf([]) == -1;
    assert FindDoubleCrlf([]) == -1;
  }

  lemma SizeStep(L: Limits, c: Codec, n: nat, rest: bytes)
    requires c.phase == ChunkSize && c.buffer == Hex(n) + CRLF + rest && 0 < n < Pow16(16)
    requires n <= L.chunkBytes && c.received + n <= L.bodyBytes
    ensures Step(L, c) == Next(Codec(rest, ChunkData, n, c.received), [])
  {
    hide ParseLine, Hex, FindCrlf, StepHead, StepTrailers;
    SizeLine(n, rest);
  }

  lemma DataStep(L: Limits, c: Codec, data: bytes)
    requires c.phase == ChunkData && c.buffer == data + CRLF && c.remaining == |data| && data != []
    ensures Step(L, c) == Next(Codec(CRLF, ChunkCrlf, 0, c.received + |data|), [BodyEvent(data)])
  {
    hide StepHead, StepTrailers, StepChunkSize;
    assert (data + CRLF)[..|data|] == data && (data + CRLF)[|data|..] == CRLF;
  }

  lemma CrlfStep(L: Limits, c: Codec)
    requires c.phase == ChunkCrlf && c.buffer == CRLF
    ensures Step(L, c) == Next(c.(buffer := [], phase := ChunkSize), [])
  {
    hide StepHead, StepTrailers, StepChunkSize;
    assert CRLF[..2] == CRLF && CRLF[2..] == [];
  }

  lemma ChunkParts(data: bytes)
    requires data != []
    ensures ChunkBytes(data) == Hex(|data|) + CRLF + (data + CRLF)
  {
    hide Hex;
    Regrouped(Hex(|data|) + CRLF, data, CRLF);
  }

  lemma Regrouped(a: bytes, b: bytes, c: bytes)
    ensures a + b + c == a + (b + c)
  {
  }

  lemma ChunkDecodes(L: Limits, c: Codec, data: bytes)
    requires c.phase == ChunkSize && c.buffer == ChunkBytes(data) && data != [] && L.headerBytes > 0
    requires |data| <= L.chunkBytes && c.received + |data| <= L.bodyBytes && |data| < Pow16(16)
    ensures Run(L, c) == Outcome(Codec([], ChunkSize, 0, c.received + |data|), [BodyEvent(data)], None)
  {
    hide Step, Run, Hex, Pow16, ChunkBytes;
    var c1 := Codec(data + CRLF, ChunkData, |data|, c.received);
    var c2 := Codec(CRLF, ChunkCrlf, 0, c.received + |data|);
    var c3 := Codec([], ChunkSize, 0, c.received + |data|);
    ChunkParts(data);
    SizeStep(L, c, |data|, data + CRLF);
    StepsTo(L, c, c1, []);
    DataStep(L, c1, data);
    StepsTo(L, c1, c2, [BodyEvent(data)]);
    CrlfStep(L, c2);
    StepsTo(L, c2, c3, []);
    EmptyBufferStops(L, c3);
    StopsAt(L, c3);
    assert [BodyEvent(data)] + [] == [BodyEvent(data)];
  }

  lemma {:induction false} TrailersAccepted(ts: seq<Header>)
    requires TrailerRefusal(ts) == None
    ensures forall i :: 0 <= i < |ts| ==>
              SafeField(ts[i]) && !FramingName(Lower(ts[i].name)) && Lower(ts[i].name) != HOST
  {
    if ts != [] {
      TrailersAccepted(ts[1..]);
    }
  }

  lemma TrailerFieldsKept(ts: seq<Header>)
    requires AllCanonical(ts) && TrailerRefusal(ts) == None
    requires forall i :: 0 <= i < |ts| ==> !HopByHop(ts[i].name)
    ensures Values(ts, CONTENT_LENGTH) == [] && Values(ts, TRANSFER_ENCODING) == [] && Sanitize(ts) == ts
  {
    hide HopByHop, Canonical, SafeField, FramingName;
    TrailersAccepted(ts);
    forall i | 0 <= i < |ts| ensures Lower(ts[i].name) == ts[i].name && ts[i].name != CONNECTION {
      CanonicalLower(ts[i]);
      assert !HopByHop(ts[i].name);
      ConnectionIsHop();
    }
    FramingNamesFrame();
    Absent(ts, CONTENT_LENGTH);
    Absent(ts, TRANSFER_ENCODING);
    NothingNamed(ts);
    KeepAll(ts);
  }

  lemma FramingNamesFrame()
    ensures FramingName(CONTENT_LENGTH) && FramingName(TRANSFER_ENCODING)
  {
  }

  lemma TrailerBlockDecodes(L: Limits, ts: seq<Header>)
    requires ts != [] && AllCanonical(ts) && |ts| <= L.headerCount && TrailerRefusal(ts) == None
    requires forall i :: 0 <= i < |ts| ==> !HopByHop(ts[i].name)
    ensures var out := Terminated(FieldLines(ts)) + CRLF;
            && |out| > 4 && FindDoubleCrlf(out) == |out| - 4 && out[..2] != CRLF
            && ParseTrailers(L, out[..|out| - 4]) == Ok(ts)
  {
    hide ParseFields, FieldLine, CleanLine, HopByHop, Canonical, TrailerRefusal, Sanitize, Terminated, SplitCrlf;
    FieldsRoundTrip(ts, L.headerCount, 0);
    TerminatedBlock(FieldLines(ts));
    TrailerFieldsKept(ts);
  }

  lemma ConnectionIsHop()
    ensures HopByHop(CONNECTION)
  {
  }

  lemma {:induction false} Absent(hs: seq<Header>, name: bytes)
    requires FramingName(name)
    requires forall i :: 0 <= i < |hs| ==> Lower(hs[i].name) == hs[i].name && !FramingName(Lower(hs[i].name))
    ensures Values(hs, name) == []
  {
    if hs != [] {
      Absent(hs[1..], name);
    }
  }

  /** The trailer section after the last chunk. */
  lemma TrailerStep(L: Limits, c: Codec, ts: seq<Header>)
    requires c.phase == InTrailers && c.buffer == Terminated(FieldLines(ts)) + CRLF
    requires AllCanonical(ts) && |ts| <= L.headerCount && L.headerBytes >= |c.buffer| && TrailerRefusal(ts) == None
    requires forall i :: 0 <= i < |ts| ==> !HopByHop(ts[i].name)
    ensures Step(L, c) == Next(c.(buffer := [], phase := Complete), [EndEvent(ts)])
  {
    hide *;
    if ts == [] {
      NothingTerminated();
      NoTrailerStep(L, c);
    } else {
      TrailerBlockDecodes(L, ts);
      BlockTrailerStep(L, c, ts);
    }
  }

  lemma NothingTerminated()
    ensures Terminated(FieldLines([])) == []
  {
    assert FieldLines([]) == [];
  }

  lemma NoTrailerStep(L: Limits, c: Codec)
    requires c.phase == InTrailers && c.buffer == [] + CRLF
    ensures Step(L, c) == Next(c.(buffer := [], phase := Complete), [EndEvent([])])
  {
    hide ParseTrailers;
    assert c.buffer[..2] == CRLF && c.buffer[2..] == [];
  }

  lemma BlockTrailerStep(L: Limits, c: Codec, ts: seq<Header>)
    requires c.phase == InTrailers && 4 < |c.buffer| <= L.headerBytes && c.buffer[..2] != CRLF
    requires FindDoubleCrlf(c.buffer) == |c.buffer| - 4
    requires ParseTrailers(L, c.buffer[..|c.buffer| - 4]) == Ok(ts)
    ensures Step(L, c) == Next(c.(buffer := [], phase := Complete), [EndEvent(ts)])
  {
    hide ParseTrailers;
    assert c.buffer[|c.buffer| - 4 + 4..] == [];
  }

  lemma LastChunkStep(L: Limits, c: Codec, rest: bytes)
    requires c.phase == ChunkSize && c.buffer == [48] + CRLF + rest
    requires 0 <= L.chunkBytes && c.received <= L.bodyBytes
    ensures Step(L, c) == Next(c.(buffer := rest, phase := InTrailers), [])
  {
    hide ParseLine;
    assert Hex(0) == [48];
    assert Pow16(16) > 0;
    SizeLine(0, rest);
  }

  lemma EndDecodes(L: Limits, c: Codec, ts: seq<Header>)
    requires c.phase == ChunkSize && EndBytes(ts) == Ok(c.buffer)
    requires AllCanonical(ts) && |ts| <= L.headerCount && L.headerBytes > |c.buffer|
    requires forall i :: 0 <= i < |ts| ==> !HopByHop(ts[i].name)
    requires 0 <= L.chunkBytes && c.received <= L.bodyBytes
    ensures Run(L, c) == Outcome(c.(buffer := [], phase := Complete), [EndEvent(ts)], None)
  {
    hide Run, Step, HopByHop, Canonical, TrailerRefusal, FieldLines;
    var rest := Terminated(FieldLines(ts)) + CRLF;
    assert c.buffer == [48] + CRLF + rest;
    var c1 := c.(buffer := rest, phase := InTrailers);
    LastChunkStep(L, c, rest);
    StepsTo(L, c, c1, []);
    var c2 := c.(buffer := [], phase := Complete);
    TrailerStep(L, c1, ts);
    StepsTo(L, c1, c2, [EndEvent(ts)]);
    EmptyBufferStops(L, c2);
    StopsAt(L, c2);
    assert [EndEvent(ts)] + [] == [EndEvent(ts)];
  }

  // ---------------------------------------------------------------- encoded bytes can be cut anywhere

  /** However few of the bytes have arrived, decoding them does not fail. */
  ghost predicate AnyCut(L: Limits, d: Codec, x: bytes)
    requires Wf(d)
  {
    forall n :: 0 <= n <= |x| ==> Feed(L, d, x[..n]).error.None?
  }

  lemma FeedEmpty(L: Limits, c: Codec, data: bytes)
    requires c.buffer == []
    ensures c.(buffer := c.buffer + data) == c.(buffer := data)
  {
    assert [] + data == data;
  }

  lemma FeedEmptyRun(L: Limits, d: Codec, data: bytes)
    requires Wf(d) && d.buffer == [] && d.phase != Complete
    ensures Feed(L, d, data) == Run(L, d.(buffer := data))
  {
    hide Run;
    FeedEmpty(L, d, data);
  }

  lemma CutNothing(L: Limits, d: Codec)
    requires Wf(d) && d.buffer == [] && ValidLimits(L)
    ensures AnyCut(L, d, [])
  {
    hide Step;
    var none: bytes := [];
    assert none[..0] == none;
    if d.phase != Complete {
      FeedEmptyRun(L, d, []);
      EmptyBufferStops(L, d);
      StopsAt(L, d);
    }
  }

  /** A head block is waited for until its last byte. */
  lemma CutHead(L: Limits, d: Codec, out: bytes)
    requires Wf(d) && d.buffer == [] && d.phase == InHead && 4 < |out| <= L.headerBytes
    requires FindDoubleCrlf(out) == |out| - 4 && Feed(L, d, out).error.None?
    ensures AnyCut(L, d, out)
  {
    hide Run, Feed;
    forall n | 0 <= n <= |out| ensures Feed(L, d, out[..n]).error.None? {
      if n == |out| {
        assert out[..n] == out;
      } else {
        HeadWaits(L, d, out, n);
      }
    }
  }

  lemma HeadWaits(L: Limits, d: Codec, out: bytes, n: nat)
    requires Wf(d) && d.buffer == [] && d.phase == InHead && 4 < |out| <= L.headerBytes
    requires FindDoubleCrlf(out) == |out| - 4 && n < |out|
    ensures Feed(L, d, out[..n]).error.None?
  {
    hide ParseHead;
    assert [] + out[..n] == out[..n];
    assert out[..n] + out[n..] == out;
    FindDoubleCrlfExtend(out[..n], out[n..]);
    assert Step(L, d.(buffer := out[..n])) == Stop;
  }

  lemma CutFixed(L: Limits, d: Codec, data: bytes)
    requires Wf(d) && d.buffer == [] && d.phase == Fixed && |data| <= d.remaining && ValidLimits(L)
    ensures AnyCut(L, d, data)
  {
    hide Run;
    forall n | 0 <= n <= |data| ensures Feed(L, d, data[..n]).error.None? {
      var a := data[..n];
      FeedEmptyRun(L, d, a);
      if a == [] {
        StopsAt(L, d.(buffer := a));
      } else {
        assert a[..n] == a && a[n..] == [];
        var r := Step(L, d.(buffer := a));
        StepsTo(L, d.(buffer := a), r.codec, r.events);
        StopsAt(L, r.codec);
      }
    }
  }

  /** What has short lines only. */
  lemma CutShort(L: Limits, d: Codec, x: bytes)
    requires ValidLimits(L) && Wf(d) && d.buffer == [] && Feed(L, d, x).error.None?
    requires UC.ShortLines(L, d.(buffer := x))
    ensures AnyCut(L, d, x)
  {
    hide Feed, Step, UC.ShortLines, Wf;
    EmptyBufferStops(L, d);
    FeedEmpty(L, d, x);
    forall n | 0 <= n <= |x| ensures Feed(L, d, x[..n]).error.None? {
      assert x[..n] + x[n..] == x;
      WfExtend(d, x);
      UC.ShortLinesReadable(L, d, x[..n], x[n..]);
    }
  }

  lemma ShortStep(L: Limits, c: Codec, t: Codec, events: seq<Event>)
    requires Wf(c) && Step(L, c) == Next(t, events) && UC.ShortLines(L, t)
    requires c.phase == ChunkSize ==> FindCrlf(c.buffer) < 128
    ensures UC.ShortLines(L, c)
  {
    hide Step;
  }

  lemma ShortEmpty(L: Limits, c: Codec)
    requires Wf(c) && c.buffer == [] && L.headerBytes > 0
    ensures UC.ShortLines(L, c)
  {
    hide Step;
    EmptyBufferStops(L, c);
    assert FindCrlf([]) == -1;
  }

  lemma ChunkCut(L: Limits, d: Codec, data: bytes)
    requires d.phase == ChunkSize && d.buffer == [] && data != [] && ValidLimits(L)
    requires |data| <= L.chunkBytes && d.received + |data| <= L.bodyBytes && |data| < Pow16(16)
    requires Feed(L, d, ChunkBytes(data)).error.None?
    ensures AnyCut(L, d, ChunkBytes(data))
  {
    hide Step, Run, Feed, Hex, Pow16, ChunkBytes, UC.ShortLines, AnyCut;
    var c := d.(buffer := ChunkBytes(data));
    var c1 := Codec(data + CRLF, ChunkData, |data|, c.received);
    var c2 := Codec(CRLF, ChunkCrlf, 0, c.received + |data|);
    var c3 := Codec([], ChunkSize, 0, c.received + |data|);
    ChunkParts(data);
    SizeStep(L, c, |data|, data + CRLF);
    DataStep(L, c1, data);
    CrlfStep(L, c2);
    SizeLine(|data|, data + CRLF);
    ShortEmpty(L, c3);
    ShortStep(L, c2, c3, []);
    ShortStep(L, c1, c2, [BodyEvent(data)]);
    ShortStep(L, c, c1, []);
    CutShort(L, d, ChunkBytes(data));
  }

  lemma EndCut(L: Limits, d: Codec, ts: seq<Header>, out: bytes)
    requires d.phase == ChunkSize && d.buffer == [] && EndBytes(ts) == Ok(out) && ValidLimits(L)
    requires AllCanonical(ts) && |ts| <= L.headerCount && L.headerBytes > |out|
    requires forall i :: 0 <= i < |ts| ==> !HopByHop(ts[i].name)
    requires 0 <= L.chunkBytes && d.received <= L.bodyBytes && Feed(L, d, out).error.None?
    ensures AnyCut(L, d, out)
  {
    hide Run, Step, Feed, HopByHop, Canonical, TrailerRefusal, FieldLines, UC.ShortLines, AnyCut;
    var c := d.(buffer := out);
    var rest := Terminated(FieldLines(ts)) + CRLF;
    assert out == [48] + CRLF + rest;
    var c1 := c.(buffer := rest, phase := InTrailers);
    var c2 := c.(buffer := [], phase := Complete);
    LastChunkStep(L, c, rest);
    TrailerStep(L, c1, ts);
    assert CrlfAt(out, 1);
    ShortEmpty(L, c2);
    ShortStep(L, c1, c2, [EndEvent(ts)]);
    ShortStep(L, c, c1, []);
    CutShort(L, d, out);
  }

  /** Two stretches that can be cut anywhere, one after the other. */
  lemma CutTwo(L: Limits, d: Codec, x: bytes, y: bytes)
    requires ValidLimits(L) && Wf(d) && AnyCut(L, d, x) && Feed(L, d, x).error.None?
    requires Wf(Feed(L, d, x).codec) && AnyCut(L, Feed(L, d, x).codec, y)
    ensures AnyCut(L, d, x + y)
  {
    hide Feed, Wf, Flat, ValidLimits;
    forall n | 0 <= n <= |x + y| ensures Feed(L, d, (x + y)[..n]).error.None? {
      if n <= |x| {
        assert (x + y)[..n] == x[..n];
      } else {
        assert (x + y)[..n] == x + y[..n - |x|];
        FeedSplit(L, d, x, y[..n - |x|]);
      }
    }
  }

  // ---------------------------------------------------------------- lockstep

  /** Limits that do not refuse a re-encoded response of at most `n` bytes. */
  predicate Covers(L: Limits, big: Limits, n: nat) {
    && ValidLimits(L) && ValidLimits(big)
    && big.requestMethod == L.requestMethod
    && big.headerBytes > n && big.headerCount > L.headerCount
    && 0 <= big.bodyBytes && L.bodyBytes <= big.bodyBytes
    && 0 <= big.chunkBytes && L.bodyBytes <= big.chunkBytes
    && L.bodyBytes < Pow16(16)
  }

  /** Upstream decoder, relay and client decoder after the same events. */
  predicate InStep(L: Limits, c: Codec, s: Side, d: Codec) {
    && Wf(c) && Wf(d) && d.buffer == [] && s.requestMethod == L.requestMethod
    && (match c.phase
        case InHead => d.phase == InHead && c.received == 0 && d.received == 0
        case Fixed => d.phase == Fixed && d.remaining == c.remaining && !s.chunked
        case Complete => d.phase == Complete
        case _ => d.phase == ChunkSize && s.chunked && d.received == c.received)
    && (c.phase == ChunkData ==> c.received + c.remaining <= L.bodyBytes)
    && (c.phase in {UntilEof, ChunkSize, ChunkCrlf, InTrailers} ==> c.received == 0 || c.received <= L.bodyBytes)
  }

  /** What the client decoder does with the relayed bytes of some events. */
  ghost predicate Follows(L: Limits, big: Limits, c': Codec, s: Side, d: Codec, events: seq<Event>, x: Relayed) {
    && Wf(d) && AnyCut(big, d, x.output)
    && var o := Feed(big, d, x.output);
       && o.error.None? && InStep(L, c', x.side, o.codec) && SameRequest(s, x.side)
       && Flat(o.events) == SeenAll(s, events)
  }

  lemma SilentEvents(L: Limits, big: Limits, c': Codec, s: Side, d: Codec)
    requires ValidLimits(big) && InStep(L, c', s, d)
    ensures Follows(L, big, c', s, d, [], Relayed(s, []))
  {
    hide InStep, Run, AnyCut;
    assert Wf(d) && d.buffer == [] by { InStepShape(L, c', s, d); }
    CutNothing(big, d);
    if d.phase != Complete {
      FeedEmptyRun(big, d, []);
      assert d.(buffer := []) == d;
      EmptyBufferStops(big, d);
      StopsAt(big, d);
    }
  }

  lemma InStepShape(L: Limits, c: Codec, s: Side, d: Codec)
    requires InStep(L, c, s, d)
    ensures Wf(c) && Wf(d) && d.buffer == [] && s.requestMethod == L.requestMethod
  {
  }

  lemma RelayOne(s: Side, e: Event)
    ensures RelayEvents(s, [e]) == RelayEvent(s, e)
  {
    hide RelayEvent;
    var rest: seq<Event> := [e][1..];
    assert rest == [];
    match RelayEvent(s, e) {
      case Ok(x) => assert x.output + [] == x.output;
      case Err(_) =>
    }
  }

  lemma SeenOne(s: Side, e: Event)
    ensures SeenAll(s, [e]) == Seen(s, e)
  {
    hide Seen;
    assert [e][1..] == [];
  }

  // ---- heads

  /** The client decodes a relayed head and enters the matching state. */
  lemma HeadFollows(L: Limits, big: Limits, h: ResponseHead, d: Codec, out: bytes, chunked: bool)
    requires GoodHead(L, h) && Covers(L, big, |out|)
    requires d.buffer == [] && d.phase == InHead
    requires chunked == (!h.informational && OutChunked(h))
    requires HeadBytes(h.status, OutHeaders(h.headers), OutLength(L.requestMethod, h), chunked, true) == Ok(out)
    ensures Step(big, d.(buffer := out)) == EnterBody(d, SeenHead(L.requestMethod, h))
    ensures 4 < |out| <= big.headerBytes && FindDoubleCrlf(out) == |out| - 4
  {
    hide HeadBytes, OutHeaders, DecodedFraming, ParseHead, Reason;
    var hs, length := OutHeaders(h.headers), OutLength(L.requestMethod, h);
    OutHeadersProperties(h.headers);
    HeadDecodes(big, h.status, hs, length, chunked);
    assert out[|out| - 4 + 4..] == [];
    assert d.(buffer := []) == d;
  }

  lemma HeadNeverRefused(L: Limits, s: Side, h: ResponseHead)
    requires GoodHead(L, h) && s.requestMethod == L.requestMethod
    ensures RelayHead(s, h).Ok?
  {
    hide HeadRefusal, OutHeaders, HeadLines;
    OutHeadersProperties(h.headers);
    UnframedAccepted(OutHeaders(h.headers));
  }

  /** A head on its own: informational, or the start of a body. */
  lemma HeadStepFollows(L: Limits, big: Limits, c: Codec, h: ResponseHead, s: Side, d: Codec)
    requires InStep(L, c, s, d) && c.phase == InHead && GoodHead(L, h)
    requires EnterBody(c, h).Next? && EnterBody(c, h).events == [HeadEvent(h)]
    requires RelayHead(s, h).Ok? && Covers(L, big, |RelayHead(s, h).value.output|)
    ensures Follows(L, big, EnterBody(c, h).codec, s, d, [HeadEvent(h)], RelayHead(s, h).value)
  {
    hide HeadBytes, Run, SeenHead, AnyCut;
    var x := RelayHead(s, h).value;
    SeenOne(s, HeadEvent(h));
    if Suppressed(s, h) {
      SilentEvents(L, big, c, s, d);
    } else {
      var chunked := !h.informational && OutChunked(h);
      HeadFollows(L, big, h, d, x.output, chunked);
      FeedEmptyRun(big, d, x.output);
      var seen := SeenHead(L.requestMethod, h);
      HeadEnters(L, c, h, s, d);
      var d' := EnterBody(d, seen).codec;
      StepsTo(big, d.(buffer := x.output), d', [HeadEvent(seen)]);
      EmptyBufferStops(big, d');
      StopsAt(big, d');
      assert [HeadEvent(seen)] + [] == [HeadEvent(seen)];
      CutHead(big, d, x.output);
      FlatOne(HeadEvent(seen));
    }
  }

  /** The client's state after the relayed head matches the upstream's after its own. */
  lemma HeadEnters(L: Limits, c: Codec, h: ResponseHead, s: Side, d: Codec)
    requires InStep(L, c, s, d) && c.phase == InHead && GoodHead(L, h)
    requires EnterBody(c, h).Next? && EnterBody(c, h).events == [HeadEvent(h)]
    requires RelayHead(s, h).Ok? && !Suppressed(s, h)
    ensures var seen := SeenHead(L.requestMethod, h);
            var e := EnterBody(d, seen);
            && e.Next? && e.events == [HeadEvent(seen)] && Wf(e.codec) && e.codec.buffer == []
            && e.codec.phase != Complete
            && InStep(L, EnterBody(c, h).codec, RelayHead(s, h).value.side, e.codec)
  {
    hide HeadBytes, OutHeaders, DecodedFraming, Reason;
  }

  lemma TwoEvents(s: Side, a: Event, b: Event)
    ensures Flat([a, b]) == Units(a) + Units(b)
    ensures SeenAll(s, [a, b]) == Seen(s, a) + Seen(s, b)
  {
    hide Units, Seen;
    assert [a, b] == [a] + [b];
    FlatAppend([a], [b]);
    FlatOne(a);
    FlatOne(b);
    SeenAppend(s, [a], [b]);
    SeenOne(s, a);
    SeenOne(s, b);
  }

  /** A head that is the whole response. */
  lemma EmptyResponseFollows(L: Limits, big: Limits, c: Codec, h: ResponseHead, s: Side, d: Codec)
    requires InStep(L, c, s, d) && c.phase == InHead && c.buffer == [] && GoodHead(L, h) && !h.informational
    requires !h.bodyExpected || h.contentLength == 0
    requires RelayHead(s, h).Ok? && Covers(L, big, |RelayHead(s, h).value.output|)
    ensures var x := RelayHead(s, h).value;
            Follows(L, big, c.(phase := Complete), s, d, [HeadEvent(h), EndEvent([])],
              Relayed(x.side.(finished := true), x.output))
  {
    hide HeadBytes, Run, OutHeaders, DecodedFraming, Reason, Flat, SeenAll, AnyCut;
    var x := RelayHead(s, h).value;
    HeadFollows(L, big, h, d, x.output, false);
    FeedEmptyRun(big, d, x.output);
    var seen := SeenHead(L.requestMethod, h);
    var d' := d.(phase := Complete);
    var events := [HeadEvent(seen), EndEvent([])];
    assert [HeadEvent(seen)] + [EndEvent([])] == events;
    assert EnterBody(d, seen) == Next(d', events);
    StepsTo(big, d.(buffer := x.output), d', events);
    EmptyBufferStops(big, d');
    StopsAt(big, d');
    assert events + [] == events;
    CutHead(big, d, x.output);
    TwoEvents(s, HeadEvent(seen), EndEvent([]));
    TwoEvents(s, HeadEvent(h), EndEvent([]));
  }

  // ---- bodies and ends

  /** Body bytes of a response with a declared length go through unchanged. */
  lemma FixedFollows(L: Limits, big: Limits, c: Codec, s: Side, d: Codec, data: bytes)
    requires InStep(L, c, s, d) && c.phase == Fixed && ValidLimits(big)
    requires 0 < |data| < c.remaining
    ensures Follows(L, big, c.(remaining := c.remaining - |data|), s, d, [BodyEvent(data)], Relayed(s, data))
  {
    hide Run, AnyCut;
    CutFixed(big, d, data);
    FeedEmptyRun(big, d, data);
    var d' := Codec([], Fixed, d.remaining - |data|, d.received + |data|);
    assert data[..|data|] == data && data[|data|..] == [];
    StepsTo(big, d.(buffer := data), d', [BodyEvent(data)]);
    EmptyBufferStops(big, d');
    StopsAt(big, d');
    assert [BodyEvent(data)] + [] == [BodyEvent(data)];
    FlatOne(BodyEvent(data));
    SeenOne(s, BodyEvent(data));
  }

  lemma FixedEnds(L: Limits, big: Limits, c: Codec, s: Side, d: Codec, data: bytes)
    requires InStep(L, c, s, d) && c.phase == Fixed && ValidLimits(big)
    requires |data| == c.remaining
    ensures Follows(L, big, Codec([], Complete, 0, c.received + |data|), s, d, [BodyEvent(data), EndEvent([])],
                    Relayed(s.(finished := true), data))
  {
    hide Run, Flat, SeenAll, AnyCut;
    CutFixed(big, d, data);
    FeedEmptyRun(big, d, data);
    var d' := Codec([], Complete, 0, d.received + |data|);
    assert data[..|data|] == data && data[|data|..] == [];
    var events := [BodyEvent(data), EndEvent([])];
    assert [BodyEvent(data)] + [EndEvent([])] == events;
    StepsTo(big, d.(buffer := data), d', events);
    EmptyBufferStops(big, d');
    StopsAt(big, d');
    assert events + [] == events;
    TwoEvents(s, BodyEvent(data), EndEvent([]));
  }

  /** Body bytes of a response without a length are framed as one chunk. */
  lemma ChunkFollows(L: Limits, big: Limits, c: Codec, c': Codec, s: Side, d: Codec, data: bytes)
    requires InStep(L, c, s, d) && s.chunked && data != [] && Covers(L, big, 0)
    requires c.phase == ChunkData || c.phase == UntilEof
    requires c'.phase in {ChunkData, ChunkCrlf, UntilEof} && Wf(c')
    requires c'.received == c.received + |data| <= L.bodyBytes
    requires c'.phase == ChunkData ==> c'.received + c'.remaining <= L.bodyBytes
    ensures Follows(L, big, c', s, d, [BodyEvent(data)], Relayed(s, ChunkBytes(data)))
  {
    hide Run, ChunkBytes, AnyCut;
    FeedEmptyRun(big, d, ChunkBytes(data));
    ChunkDecodes(big, d.(buffer := ChunkBytes(data)), data);
    ChunkCut(big, d, data);
    FlatOne(BodyEvent(data));
    SeenOne(s, BodyEvent(data));
  }

  lemma EndFollows(L: Limits, big: Limits, c: Codec, s: Side, d: Codec, ts: seq<Header>)
    requires InStep(L, c, s, d) && s.chunked && (c.phase == InTrailers || c.phase == UntilEof)
    requires AllCanonical(ts) && |ts| < big.headerCount
    requires forall i :: 0 <= i < |ts| ==> !HopByHop(ts[i].name)
    requires RelayEnd(s, ts).Ok? && Covers(L, big, |RelayEnd(s, ts).value.output|)
    ensures Follows(L, big, c.(phase := Complete), s, d, [EndEvent(ts)], RelayEnd(s, ts).value)
  {
    hide Run, EndBytes, HopByHop, AllCanonical, AnyCut;
    var x := RelayEnd(s, ts).value;
    FeedEmptyRun(big, d, x.output);
    EndDecodes(big, d.(buffer := x.output), ts);
    EndCut(big, d, ts, x.output);
    FlatOne(EndEvent(ts));
    SeenOne(s, EndEvent(ts));
  }

  // ---- steps, reads and whole responses

  function Relay(s: Side, events: seq<Event>): Relayed
    requires RelayEvents(s, events).Ok?
  {
    RelayEvents(s, events).value
  }

  lemma RelayTwo(s: Side, a: Event, b: Event)
    requires RelayEvents(s, [a, b]).Ok?
    ensures RelayEvent(s, a).Ok? && RelayEvent(RelayEvent(s, a).value.side, b).Ok?
    ensures var x := RelayEvent(s, a).value;
            var y := RelayEvent(x.side, b).value;
            Relay(s, [a, b]) == Relayed(y.side, x.output + y.output)
  {
    hide RelayEvent;
    assert [a, b] == [a] + [b];
    RelayAppend(s, [a], [b]);
    RelayOne(s, a);
    RelayOne(RelayEvent(s, a).value.side, b);
  }

  lemma HeadStepSim(L: Limits, big: Limits, c: Codec, s: Side, d: Codec)
    requires InStep(L, c, s, d) && c.phase == InHead && StepHead(L, c).Next?
    requires RelayEvents(s, StepHead(L, c).events).Ok?
    requires Covers(L, big, |Relay(s, StepHead(L, c).events).output|)
    ensures var t := StepHead(L, c);
            Follows(L, big, t.codec, s, d, t.events, Relay(s, t.events))
  {
    hide ParseHead, GoodHead, Follows, RelayEvents, RelayHead;
    var marker := FindDoubleCrlf(c.buffer);
    var c' := c.(buffer := c.buffer[marker + 4..]);
    var h := ParseHead(L, c.buffer[..marker]).value;
    ParsedHeadGood(L, c.buffer[..marker]);
    GoodHeadShape(L, h);
    var t := StepHead(L, c);
    if t.codec.phase == Complete {
      assert t.events == [HeadEvent(h), EndEvent([])];
      RelayTwo(s, HeadEvent(h), EndEvent([]));
      CompleteHeadRelay(s, h);
      EmptyResponseFollows(L, big, c', h, s, d);
    } else {
      RelayOne(s, HeadEvent(h));
      HeadStepFollows(L, big, c', h, s, d);
    }
  }

  lemma GoodHeadShape(L: Limits, h: ResponseHead)
    requires GoodHead(L, h)
    ensures h.informational == (100 <= h.status < 200)
    ensures h.informational ==> !h.bodyExpected
    ensures h.chunked ==> h.contentLength < 0
  {
  }

  /** Ending a response that has no body bytes writes nothing. */
  lemma CompleteHeadRelay(s: Side, h: ResponseHead)
    requires !h.informational && (!h.bodyExpected || h.contentLength == 0)
    requires RelayEvent(s, HeadEvent(h)).Ok?
    ensures var x := RelayEvent(s, HeadEvent(h)).value;
            RelayEvent(x.side, EndEvent([])) == Ok(Relayed(x.side.(finished := true), [])) && x.output + [] == x.output
  {
    hide HeadBytes, OutHeaders;
  }

  lemma FixedStepSim(L: Limits, big: Limits, c: Codec, s: Side, d: Codec)
    requires InStep(L, c, s, d) && c.phase == Fixed && StepFixed(c).Next? && ValidLimits(big)
    ensures var t := StepFixed(c);
            && RelayEvents(s, t.events).Ok?
            && Follows(L, big, t.codec, s, d, t.events, Relay(s, t.events))
  {
    hide Follows, RelayEvents;
    var take := Min(c.remaining, |c.buffer|);
    var data := c.buffer[..take];
    if take == c.remaining {
      RelayOne(s, BodyEvent(data));
      RelayOne(s, EndEvent([]));
      assert [BodyEvent(data)] + [EndEvent([])] == [BodyEvent(data), EndEvent([])];
      RelayAppend(s, [BodyEvent(data)], [EndEvent([])]);
      assert data + [] == data;
      FixedEnds(L, big, c, s, d, data);
    } else {
      assert c.buffer[take..] == [];
      RelayOne(s, BodyEvent(data));
      FixedFollows(L, big, c.(buffer := []), s, d, data);
      FollowsCodec(L, big, c.(buffer := [], remaining := c.remaining - take), StepFixed(c).codec, s, d,
        [BodyEvent(data)], Relayed(s, data));
    }
  }

  /** The lockstep relation reads only phase, remaining and received of the upstream state. */
  lemma FollowsCodec(L: Limits, big: Limits, a: Codec, b: Codec, s: Side, d: Codec, events: seq<Event>, x: Relayed)
    requires Follows(L, big, a, s, d, events, x)
    requires a.phase == b.phase && a.remaining == b.remaining && Wf(b)
    requires a.phase == Fixed || a.received == b.received
    ensures Follows(L, big, b, s, d, events, x)
  {
    hide Feed, Flat, SeenAll, AnyCut;
  }

  lemma ChunkStepSim(L: Limits, big: Limits, c: Codec, s: Side, d: Codec)
    requires InStep(L, c, s, d) && Covers(L, big, 0)
    requires c.phase == ChunkData || c.phase == UntilEof
    requires Step(L, c).Next?
    ensures var t := Step(L, c);
            && RelayEvents(s, t.events).Ok?
            && Follows(L, big, t.codec, s, d, t.events, Relay(s, t.events))
  {
    hide Follows, RelayEvents, ChunkBytes;
    var data := if c.phase == UntilEof then c.buffer else c.buffer[..Min(c.remaining, |c.buffer|)];
    assert c.buffer != [] && data != [];
    RelayOne(s, BodyEvent(data));
    ChunkFollows(L, big, c, Step(L, c).codec, s, d, data);
  }

  lemma SilentStepSim(L: Limits, big: Limits, c: Codec, s: Side, d: Codec)
    requires InStep(L, c, s, d) && ValidLimits(big)
    requires c.phase == ChunkSize || c.phase == ChunkCrlf
    requires Step(L, c).Next?
    ensures var t := Step(L, c);
            && RelayEvents(s, t.events).Ok?
            && Follows(L, big, t.codec, s, d, t.events, Relay(s, t.events))
  {
    hide Follows, ParseLine;
    SilentEvents(L, big, Step(L, c).codec, s, d);
  }

  lemma TrailerStepSim(L: Limits, big: Limits, c: Codec, s: Side, d: Codec)
    requires InStep(L, c, s, d) && c.phase == InTrailers && StepTrailers(L, c).Next?
    requires RelayEvents(s, StepTrailers(L, c).events).Ok?
    requires Covers(L, big, |Relay(s, StepTrailers(L, c).events).output|)
    ensures var t := StepTrailers(L, c);
            Follows(L, big, t.codec, s, d, t.events, Relay(s, t.events))
  {
    hide Follows, RelayEvents, ParseTrailers, RelayEnd;
    var t := StepTrailers(L, c);
    var ts := t.events[0].trailers;
    assert t.events == [EndEvent(ts)];
    if |c.buffer| >= 2 && c.buffer[..2] == CRLF {
    } else {
      ParsedTrailersGood(L, c.buffer[..FindDoubleCrlf(c.buffer)]);
    }
    RelayOne(s, EndEvent(ts));
    EndFollows(L, big, c, s, d, ts);
    FollowsCodec(L, big, c.(phase := Complete), t.codec, s, d, t.events, Relay(s, t.events));
  }

  lemma ParsedTrailersGood(L: Limits, block: bytes)
    requires ParseTrailers(L, block).Ok? && ValidLimits(L)
    ensures var ts := ParseTrailers(L, block).value;
            && AllCanonical(ts) && |ts| <= L.headerCount
            && forall i :: 0 <= i < |ts| ==> !HopByHop(ts[i].name)
  {
    hide Values, HopByHop, Canonical;
    var lines := SplitCrlf(block);
    ParsedCanonical(lines, L.headerCount, 0);
    SanitizeIdempotent(ParseFields(lines, L.headerCount, 0).value);
  }

  /** One step of the upstream decoder, relayed, keeps the client decoder in step. */
  lemma StepSim(L: Limits, big: Limits, c: Codec, s: Side, d: Codec)
    requires InStep(L, c, s, d) && Step(L, c).Next?
    requires RelayEvents(s, Step(L, c).events).Ok?
    requires Covers(L, big, |Relay(s, Step(L, c).events).output|)
    ensures var t := Step(L, c);
            Follows(L, big, t.codec, s, d, t.events, Relay(s, t.events))
  {
    hide Follows, RelayEvents, StepHead, StepFixed, StepChunkSize, StepChunkData, StepChunkCrlf, StepTrailers,
         StepUntilEof;
    match c.phase
    case InHead => HeadStepSim(L, big, c, s, d);
    case Fixed => FixedStepSim(L, big, c, s, d);
    case ChunkSize => SilentStepSim(L, big, c, s, d);
    case ChunkCrlf => SilentStepSim(L, big, c, s, d);
    case InTrailers => TrailerStepSim(L, big, c, s, d);
    case ChunkData => ChunkStepSim(L, big, c, s, d);
    case UntilEof => ChunkStepSim(L, big, c, s, d);
    case Complete =>
  }

  lemma FollowsUnfold(L: Limits, big: Limits, c': Codec, s: Side, d: Codec, events: seq<Event>, x: Relayed)
    requires Follows(L, big, c', s, d, events, x)
    ensures Wf(d) && Feed(big, d, x.output).error.None? && AnyCut(big, d, x.output)
    ensures InStep(L, c', x.side, Feed(big, d, x.output).codec) && SameRequest(s, x.side)
    ensures Flat(Feed(big, d, x.output).events) == SeenAll(s, events)
  {
  }

  /** Two relayed stretches, one after the other, are followed when each is. */
  lemma FollowsTwo(L: Limits, big: Limits, c1: Codec, c2: Codec, s: Side, d: Codec,
                   a: seq<Event>, x: Relayed, b: seq<Event>, y: Relayed)
    requires ValidLimits(big) && Follows(L, big, c1, s, d, a, x)
    requires Follows(L, big, c2, x.side, Feed(big, d, x.output).codec, b, y)
    ensures Follows(L, big, c2, s, d, a + b, Relayed(y.side, x.output + y.output))
  {
    hide Feed, Flat, SeenAll, InStep, Wf, ValidLimits, AnyCut;
    FollowsUnfold(L, big, c1, s, d, a, x);
    var d1 := Feed(big, d, x.output).codec;
    FollowsUnfold(L, big, c2, x.side, d1, b, y);
    CutTwo(big, d, x.output, y.output);
    FeedSplit(big, d, x.output, y.output);
    SeenAppend(s, a, b);
    SeenSame(s, x.side, b);
  }

  lemma CoversLess(L: Limits, big: Limits, n: nat, m: nat)
    requires Covers(L, big, n) && m <= n
    ensures Covers(L, big, m) && ValidLimits(big) && ValidLimits(L)
  {
  }

  /** A whole run of the upstream decoder, relayed, keeps the client decoder in step. */
  lemma {:induction false} RunSim(L: Limits, big: Limits, c: Codec, s: Side, d: Codec)
    requires Wf(c) && InStep(L, c, s, d) && Run(L, c).error.None?
    requires RelayEvents(s, Run(L, c).events).Ok?
    requires Covers(L, big, |Relay(s, Run(L, c).events).output|)
    ensures Follows(L, big, Run(L, c).codec, s, d, Run(L, c).events, Relay(s, Run(L, c).events))
    decreases |c.buffer|
  {
    hide Step, Follows, InStep, RelayEvents, Covers, Wf, Feed;
    var t := Step(L, c);
    var n := |Relay(s, Run(L, c).events).output|;
    CoversLess(L, big, n, n);
    if t.Stop? {
      SilentEvents(L, big, c, s, d);
      RelayNone(s);
    } else {
      var rest := Run(L, t.codec);
      RelayAppend(s, t.events, rest.events);
      var x := Relay(s, t.events);
      CoversLess(L, big, n, |x.output|);
      StepSim(L, big, c, s, d);
      FollowsUnfold(L, big, t.codec, s, d, t.events, x);
      var d1 := Feed(big, d, x.output).codec;
      CoversLess(L, big, n, |Relay(x.side, rest.events).output|);
      RunSim(L, big, t.codec, x.side, d1);
      FollowsTwo(L, big, t.codec, rest.codec, s, d, t.events, x, rest.events, Relay(x.side, rest.events));
    }
  }

  lemma RelayNone(s: Side)
    ensures RelayEvents(s, []) == Ok(Relayed(s, []))
  {
  }

  /** The upstream codec after a sequence of reads, all of them successful. */
  function FeedAll(L: Limits, c: Codec, fragments: seq<bytes>): (o: Outcome)
    requires Wf(c)
    ensures o.error.None? ==> Wf(o.codec)
    decreases |fragments|
  {
    if fragments == [] then Outcome(c, [], None)
    else
      var o := Feed(L, c, fragments[0]);
      if o.error.Some? then o
      else
        FeedWf(L, c, fragments[0]);
        After(o.events, FeedAll(L, o.codec, fragments[1..]))
  }

  lemma FeedWf(L: Limits, c: Codec, data: bytes)
    requires Wf(c) && Feed(L, c, data).error.None?
    ensures Wf(Feed(L, c, data).codec)
  {
    if c.phase != Complete {
      RunWf(L, c.(buffer := c.buffer + data));
    }
  }

  /** Any sequence of reads, relayed, keeps the client decoder in step. */
  lemma {:induction false} FeedAllSim(L: Limits, big: Limits, c: Codec, fragments: seq<bytes>, s: Side, d: Codec)
    requires Wf(c) && InStep(L, c, s, d) && FeedAll(L, c, fragments).error.None?
    requires RelayEvents(s, FeedAll(L, c, fragments).events).Ok?
    requires Covers(L, big, |Relay(s, FeedAll(L, c, fragments).events).output|)
    ensures var o := FeedAll(L, c, fragments);
            Follows(L, big, o.codec, s, d, o.events, Relay(s, o.events))
    decreases |fragments|
  {
    hide Step, Follows, InStep, RelayEvents, Covers, Wf, Feed;
    var o := FeedAll(L, c, fragments);
    var n := |Relay(s, o.events).output|;
    CoversLess(L, big, n, n);
    if fragments == [] {
      SilentEvents(L, big, c, s, d);
      RelayNone(s);
    } else {
      var first := Feed(L, c, fragments[0]);
      FeedWf(L, c, fragments[0]);
      var rest := FeedAll(L, first.codec, fragments[1..]);
      RelayAppend(s, first.events, rest.events);
      var x := Relay(s, first.events);
      CoversLess(L, big, n, |x.output|);
      FeedSim(L, big, c, fragments[0], s, d);
      FollowsUnfold(L, big, first.codec, s, d, first.events, x);
      var d1 := Feed(big, d, x.output).codec;
      CoversLess(L, big, n, |Relay(x.side, rest.events).output|);
      FeedAllSim(L, big, first.codec, fragments[1..], x.side, d1);
      FollowsTwo(L, big, first.codec, rest.codec, s, d, first.events, x, rest.events, Relay(x.side, rest.events));
    }
  }

  lemma FeedSim(L: Limits, big: Limits, c: Codec, data: bytes, s: Side, d: Codec)
    requires Wf(c) && InStep(L, c, s, d) && Feed(L, c, data).error.None?
    requires RelayEvents(s, Feed(L, c, data).events).Ok?
    requires Covers(L, big, |Relay(s, Feed(L, c, data).events).output|)
    ensures var o := Feed(L, c, data);
            Follows(L, big, o.codec, s, d, o.events, Relay(s, o.events))
  {
    hide Step, Follows, RelayEvents, Run;
    if c.phase == Complete {
      SilentEvents(L, big, c, s, d);
      RelayNone(s);
    } else {
      var c1 := c.(buffer := c.buffer + data);
      assert InStep(L, c1, s, d);
      RunSim(L, big, c1, s, d);
    }
  }

  // ---------------------------------------------------------------- the theorem

  /** Everything the upstream decoder emits over the reads and, if the response runs until
      the upstream closes, that close. */
  function AllEvents(L: Limits, fragments: seq<bytes>, closed: bool): seq<Event>
  {
    FeedAll(L, Fresh, fragments).events + if closed then [EndEvent([])] else []
  }

  /** Relay transparency. However the upstream's bytes were cut into reads, and at every
      moment of the exchange, the client decodes the bytes written so far without error and
      sees the upstream's events: the same statuses, the same body bytes, the same trailers,
      each head with sanitized fields and the relay's own framing. When the response is
      finished, the client's decoder is finished too. And however few of the bytes written have
      arrived, the client decodes them without error. */
  lemma RelayTransparency(L: Limits, big: Limits, fragments: seq<bytes>, closed: bool, continueHandled: bool)
    requires FeedAll(L, Fresh, fragments).error.None?
    requires closed ==> FeedAll(L, Fresh, fragments).codec.phase == UntilEof
    requires RelayEvents(NewSide(L.requestMethod, continueHandled), AllEvents(L, fragments, closed)).Ok?
    requires Covers(L, big, |Relay(NewSide(L.requestMethod, continueHandled), AllEvents(L, fragments, closed)).output|)
    ensures var s := NewSide(L.requestMethod, continueHandled);
            var events := AllEvents(L, fragments, closed);
            var o := Feed(big, Fresh, Relay(s, events).output);
            && o.error.None? && o.codec.buffer == []
            && Flat(o.events) == SeenAll(s, events) && AnyCut(big, Fresh, Relay(s, events).output)
            && (o.codec.phase == Complete <==> closed || FeedAll(L, Fresh, fragments).codec.phase == Complete)
  {
    hide Step, Follows, RelayEvents, Run, FeedAll, Flat, SeenAll, Covers, AnyCut;
    var s := NewSide(L.requestMethod, continueHandled);
    var o := FeedAll(L, Fresh, fragments);
    assert InStep(L, Fresh, s, Fresh);
    var events := AllEvents(L, fragments, closed);
    var n := |Relay(s, events).output|;
    if !closed {
      assert events == o.events;
      FeedAllSim(L, big, Fresh, fragments, s, Fresh);
      FollowsUnfold(L, big, o.codec, s, Fresh, events, Relay(s, events));
      PhasesAgree(L, o.codec, Relay(s, events).side, Feed(big, Fresh, Relay(s, events).output).codec);
    } else {
      RelayAppend(s, o.events, [EndEvent([])]);
      var x := Relay(s, o.events);
      CoversLess(L, big, n, |x.output|);
      FeedAllSim(L, big, Fresh, fragments, s, Fresh);
      FollowsUnfold(L, big, o.codec, s, Fresh, o.events, x);
      var d1 := Feed(big, Fresh, x.output).codec;
      RelayOne(x.side, EndEvent([]));
      var y := Relay(x.side, [EndEvent([])]);
      CoversLess(L, big, n, |y.output|);
      CoversCount(L, big, |y.output|);
      EndFollows(L, big, o.codec, x.side, d1, []);
      FollowsTwo(L, big, o.codec, o.codec.(phase := Complete), s, Fresh, o.events, x, [EndEvent([])], y);
      FollowsUnfold(L, big, o.codec.(phase := Complete), s, Fresh, events, Relay(s, events));
      PhasesAgree(L, o.codec.(phase := Complete), Relay(s, events).side,
        Feed(big, Fresh, Relay(s, events).output).codec);
    }
  }

  lemma CoversCount(L: Limits, big: Limits, n: nat)
    requires Covers(L, big, n)
    ensures big.headerCount > 0
  {
  }

  lemma PhasesAgree(L: Limits, c: Codec, s: Side, d: Codec)
    requires InStep(L, c, s, d)
    ensures d.phase == Complete <==> c.phase == Complete
    ensures d.buffer == []
  {
  }
}
