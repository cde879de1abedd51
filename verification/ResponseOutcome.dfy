/** When the relay refuses a response, and what relay transparency says about status,
    body and trailers. */
module ResponseOutcome {
  import opened Octets
  import opened Numerals
  import opened ChunkLine
  import opened Headers
  import opened UpstreamCodec
  import opened UpstreamFragments
  import opened ResponseEncoder
  import opened ResponseRelay
  import opened ResponseTransparency

  // ---------------------------------------------------------------- refusals

  /** Some trailer section names the Host field, which the upstream decoder lets through
      and the client-side encoder does not. */
  predicate HostTrailer(events: seq<Event>) {
    exists i :: 0 <= i < |events| && events[i].EndEvent? && Has(events[i].trailers, HOST)
  }

  lemma HostTrailerAppend(a: seq<Event>, b: seq<Event>)
    ensures HostTrailer(a + b) <==> HostTrailer(a) || HostTrailer(b)
  {
    var c := a + b;
    if HostTrailer(a) {
      var i :| 0 <= i < |a| && a[i].EndEvent? && Has(a[i].trailers, HOST);
      assert c[i] == a[i];
    }
    if HostTrailer(b) {
      var i :| 0 <= i < |b| && b[i].EndEvent? && Has(b[i].trailers, HOST);
      assert c[|a| + i] == b[i];
    }
    if HostTrailer(c) {
      var i :| 0 <= i < |c| && c[i].EndEvent? && Has(c[i].trailers, HOST);
      if i >= |a| {
        assert b[i - |a|] == c[i];
      }
    }
  }

  /** The relay's framing choice after a final head. */
  predicate Framed(L: Limits, c: Codec, s: Side) {
    && s.requestMethod == L.requestMethod
    && (c.phase == Fixed ==> !s.chunked)
    && (c.phase in {ChunkSize, ChunkData, ChunkCrlf, InTrailers, UntilEof} ==> s.chunked)
  }

  lemma {:induction false} EndRefusedFor(ts: seq<Header>)
    requires AllCanonical(ts)
    requires forall i :: 0 <= i < |ts| ==> !HopByHop(ts[i].name)
    requires Values(ts, CONTENT_LENGTH) == []
    ensures TrailerRefusal(ts).Some? <==> Has(ts, HOST)
  {
    hide HopByHop, SafeField, FramingName;
    if ts != [] {
      var t := ts[0];
      assert Canonical(t) && !HopByHop(t.name);
      SafeTrailer(t);
      assert t.name != CONTENT_LENGTH;
      EndRefusedFor(ts[1..]);
      assert Has(ts, HOST) <==> t.name == HOST || Has(ts[1..], HOST) by {
        if Has(ts[1..], HOST) {
          var i :| 0 <= i < |ts| - 1 && ts[1..][i].name == HOST;
          assert ts[i + 1].name == HOST;
        }
        if i :| 0 <= i < |ts| && ts[i].name == HOST && i > 0 {
          assert ts[1..][i - 1].name == HOST;
        }
      }
    }
  }

  lemma SafeTrailer(t: Header)
    requires Canonical(t) && !HopByHop(t.name)
    ensures SafeField(t) && Lower(t.name) == t.name
    ensures t.name != CONTENT_LENGTH ==> !FramingName(t.name)
  {
  }

  lemma {:induction false} KeptWithout(hs: seq<Header>, named: seq<bytes>, name: bytes)
    requires AllCanonical(hs) && Values(hs, name) == []
    ensures Values(Keep(hs, named), name) == []
  {
    hide HopByHop;
    if hs != [] {
      assert Canonical(hs[0]);
      KeptWithout(hs[1..], named, name);
      var lower := Lower(hs[0].name);
      var first := if HopByHop(lower) || lower in named then [] else [Header(lower, hs[0].value)];
      ValuesAppend(first, Keep(hs[1..], named), name);
      OneValue(Header(lower, hs[0].value));
    }
  }

  lemma ParsedTrailersRefusal(L: Limits, block: bytes)
    requires ParseTrailers(L, block).Ok? && ValidLimits(L)
    ensures TrailerRefusal(ParseTrailers(L, block).value).Some? <==> Has(ParseTrailers(L, block).value, HOST)
  {
    hide Values, HopByHop, Canonical, Keep, TrailerRefusal, Has;
    var lines := SplitCrlf(block);
    var raw := ParseFields(lines, L.headerCount, 0).value;
    ParsedCanonical(lines, L.headerCount, 0);
    SanitizeIdempotent(raw);
    KeptWithout(raw, ConnectionNamed(raw), CONTENT_LENGTH);
    EndRefusedFor(Sanitize(raw));
  }

  lemma NoHost(events: seq<Event>)
    requires forall i :: 0 <= i < |events| && events[i].EndEvent? ==> events[i].trailers == []
    ensures !HostTrailer(events)
  {
  }

  lemma HeadStepRefusal(L: Limits, c: Codec, s: Side)
    requires ValidLimits(L) && Framed(L, c, s) && c.phase == InHead && StepHead(L, c).Next?
    ensures var t := StepHead(L, c);
            && RelayEvents(s, t.events).Ok? && !HostTrailer(t.events)
            && Framed(L, t.codec, Relay(s, t.events).side)
  {
    hide ParseHead, GoodHead, RelayEvents, OutHeaders, HeadBytes, HostTrailer;
    var marker := FindDoubleCrlf(c.buffer);
    var h := ParseHead(L, c.buffer[..marker]).value;
    ParsedHeadGood(L, c.buffer[..marker]);
    GoodHeadShape(L, h);
    HeadNeverRefused(L, s, h);
    RelayOne(s, HeadEvent(h));
    var t := StepHead(L, c);
    NoHost(t.events);
    if t.codec.phase == Complete {
      assert t.events == [HeadEvent(h)] + [EndEvent([])];
      RelayAppend(s, [HeadEvent(h)], [EndEvent([])]);
      CompleteHeadRelay(s, h);
      RelayOne(RelayHead(s, h).value.side, EndEvent([]));
    }
  }

  lemma BodyStepRefusal(L: Limits, c: Codec, s: Side)
    requires Wf(c) && Framed(L, c, s) && Step(L, c).Next?
    requires c.phase in {Fixed, ChunkSize, ChunkData, ChunkCrlf, UntilEof}
    ensures var t := Step(L, c);
            && RelayEvents(s, t.events).Ok? && !HostTrailer(t.events)
            && Framed(L, t.codec, Relay(s, t.events).side)
  {
    hide RelayEvents, ParseLine, ChunkBytes, HostTrailer;
    var t := Step(L, c);
    NoHost(t.events);
    if t.events == [] {
      RelayNone(s);
    } else {
      var e := t.events[0];
      RelayOne(s, e);
      if |t.events| == 2 {
        assert t.events == [e] + [EndEvent([])];
        RelayAppend(s, [e], [EndEvent([])]);
        RelayOne(s, EndEvent([]));
      } else {
        assert t.events == [e];
      }
    }
  }

  lemma TrailerStepRefusal(L: Limits, c: Codec, s: Side)
    requires ValidLimits(L) && Framed(L, c, s) && c.phase == InTrailers && StepTrailers(L, c).Next?
    ensures var t := StepTrailers(L, c);
            && (RelayEvents(s, t.events).Err? <==> HostTrailer(t.events))
            && (RelayEvents(s, t.events).Ok? ==> Framed(L, t.codec, Relay(s, t.events).side))
  {
    hide RelayEvents, ParseTrailers, TrailerRefusal, Has;
    var t := StepTrailers(L, c);
    var ts := t.events[0].trailers;
    assert t.events == [EndEvent(ts)];
    RelayOne(s, EndEvent(ts));
    assert HostTrailer(t.events) <==> Has(ts, HOST);
    if |c.buffer| >= 2 && c.buffer[..2] == CRLF {
      EmptyHasNothing();
    } else {
      ParsedTrailersRefusal(L, c.buffer[..FindDoubleCrlf(c.buffer)]);
    }
  }

  lemma EmptyHasNothing()
    ensures TrailerRefusal([]) == None && !Has([], HOST)
  {
  }

  lemma StepRefusal(L: Limits, c: Codec, s: Side)
    requires ValidLimits(L) && Wf(c) && Framed(L, c, s) && Step(L, c).Next?
    ensures var t := Step(L, c);
            && (RelayEvents(s, t.events).Err? <==> HostTrailer(t.events))
            && (RelayEvents(s, t.events).Ok? ==> Framed(L, t.codec, Relay(s, t.events).side))
  {
    hide StepHead, StepFixed, StepChunkSize, StepChunkData, StepChunkCrlf, StepTrailers, StepUntilEof,
         RelayEvents, HostTrailer, ValidLimits;
    match c.phase
    case InHead => HeadStepRefusal(L, c, s);
    case InTrailers => TrailerStepRefusal(L, c, s);
    case Complete =>
    case _ => BodyStepRefusal(L, c, s);
  }

  lemma {:induction false} RunRefusal(L: Limits, c: Codec, s: Side)
    requires ValidLimits(L) && Wf(c) && Framed(L, c, s)
    ensures var o := Run(L, c);
            && (RelayEvents(s, o.events).Err? <==> HostTrailer(o.events))
            && (o.error.None? && RelayEvents(s, o.events).Ok? ==> Framed(L, o.codec, Relay(s, o.events).side))
    decreases |c.buffer|
  {
    hide Step, RelayEvents, Framed, HostTrailer, ValidLimits, Wf;
    RelayNone(s);
    NoHost([]);
    var t := Step(L, c);
    if t.Next? {
      StepRefusal(L, c, s);
      var rest := Run(L, t.codec);
      RelayAppend(s, t.events, rest.events);
      HostTrailerAppend(t.events, rest.events);
      if RelayEvents(s, t.events).Ok? {
        RunRefusal(L, t.codec, Relay(s, t.events).side);
      }
    }
  }

  lemma {:induction false} FeedAllRefusal(L: Limits, c: Codec, fragments: seq<bytes>, s: Side)
    requires ValidLimits(L) && Wf(c) && Framed(L, c, s)
    ensures var o := FeedAll(L, c, fragments);
            && (RelayEvents(s, o.events).Err? <==> HostTrailer(o.events))
            && (o.error.None? && RelayEvents(s, o.events).Ok? ==> Framed(L, o.codec, Relay(s, o.events).side))
    decreases |fragments|
  {
    hide Run, RelayEvents, HostTrailer, ValidLimits, Wf;
    RelayNone(s);
    NoHost([]);
    if fragments != [] {
      var o := Feed(L, c, fragments[0]);
      if c.phase != Complete {
        WfExtend(c, fragments[0]);
        RunRefusal(L, c.(buffer := c.buffer + fragments[0]), s);
      }
      if o.error.None? {
        FeedWf(L, c, fragments[0]);
        var rest := FeedAll(L, o.codec, fragments[1..]);
        RelayAppend(s, o.events, rest.events);
        HostTrailerAppend(o.events, rest.events);
        if RelayEvents(s, o.events).Ok? {
          FeedAllRefusal(L, o.codec, fragments[1..], Relay(s, o.events).side);
        }
      }
    }
  }

  /** The relay raises on a decoded response exactly when a trailer section names Host. */
  lemma RelayRefuses(L: Limits, fragments: seq<bytes>, closed: bool, continueHandled: bool)
    requires ValidLimits(L) && FeedAll(L, Fresh, fragments).error.None?
    requires closed ==> FeedAll(L, Fresh, fragments).codec.phase == UntilEof
    ensures var s := NewSide(L.requestMethod, continueHandled);
            var events := AllEvents(L, fragments, closed);
            RelayEvents(s, events).Err? <==> HostTrailer(events)
  {
    hide RelayEvents, FeedAll, HostTrailer, RelayEvent;
    var s := NewSide(L.requestMethod, continueHandled);
    var o := FeedAll(L, Fresh, fragments);
    FeedAllRefusal(L, Fresh, fragments, s);
    var events := AllEvents(L, fragments, closed);
    if closed {
      RelayAppend(s, o.events, [EndEvent([])]);
      HostTrailerAppend(o.events, [EndEvent([])]);
      NoHost([EndEvent([])]);
      if RelayEvents(s, o.events).Ok? {
        var side := Relay(s, o.events).side;
        RelayOne(side, EndEvent([]));
        EmptyEndAccepted(side);
      }
    } else {
      assert events == o.events;
    }
  }

  lemma EmptyEndAccepted(s: Side)
    ensures RelayEvent(s, EndEvent([])).Ok?
  {
    EmptyHasNothing();
  }

  // ---------------------------------------------------------------- heads, body, trailers

  /** The first final head. */
  function FinalHead(us: seq<Unit>): Option<ResponseHead> {
    if us == [] then None
    else if us[0].HeadUnit? && !us[0].head.informational then Some(us[0].head)
    else FinalHead(us[1..])
  }

  function InterimHeads(us: seq<Unit>): seq<ResponseHead> {
    if us == [] then []
    else (if us[0].HeadUnit? && us[0].head.informational then [us[0].head] else []) + InterimHeads(us[1..])
  }

  function BodyBytes(us: seq<Unit>): bytes {
    if us == [] then [] else (if us[0].ByteUnit? then [us[0].b] else []) + BodyBytes(us[1..])
  }

  /** Trailers of the first end. */
  function FinalTrailers(us: seq<Unit>): Option<seq<Header>> {
    if us == [] then None
    else if us[0].EndUnit? then Some(us[0].trailers)
    else FinalTrailers(us[1..])
  }

  /** The interim heads the client has not had from the gateway already. */
  function Due(hs: seq<ResponseHead>, continueHandled: bool): seq<ResponseHead> {
    if hs == [] then []
    else (if continueHandled && hs[0].status == 100 then [] else [hs[0]]) + Due(hs[1..], continueHandled)
  }

  /** The length a relayed head declares, -1 for none: that of the body that follows, or of the
      one that a HEAD request or a 304 leaves out. */
  predicate SameLength(requestMethod: bytes, seen: ResponseHead, sent: ResponseHead) {
    if !sent.informational && (sent.bodyExpected || requestMethod == HEAD_METHOD || sent.status == 304)
    then seen.contentLength == sent.contentLength
    else seen.contentLength == -1
  }

  /** The client's head is the upstream's, with the relay's own framing: chunked exactly when a
      body follows whose length the upstream did not declare. */
  ghost predicate SameHead(requestMethod: bytes, seen: ResponseHead, sent: ResponseHead) {
    && seen.status == sent.status && seen.informational == sent.informational && seen.bodyExpected == sent.bodyExpected
    && SameFields(seen.headers, sent.headers)
    && (seen.chunked <==> !sent.informational && sent.bodyExpected && sent.contentLength < 0)
    && SameLength(requestMethod, seen, sent)
    && Values(seen.headers, TRANSFER_ENCODING) == (if seen.chunked then [CHUNKED] else [])
    && Values(seen.headers, CONTENT_LENGTH) == (if seen.contentLength >= 0 then [Decimal(seen.contentLength)] else [])
  }

  ghost predicate SameHeads(requestMethod: bytes, seen: seq<ResponseHead>, sent: seq<ResponseHead>) {
    |seen| == |sent| && forall i :: 0 <= i < |seen| ==> SameHead(requestMethod, seen[i], sent[i])
  }

  ghost predicate SameFinal(requestMethod: bytes, seen: Option<ResponseHead>, sent: Option<ResponseHead>) {
    if sent.None? then seen.None? else seen.Some? && SameHead(requestMethod, seen.value, sent.value)
  }

  /** The same interim and final heads, the same body and the same trailers. */
  ghost predicate SameResponse(requestMethod: bytes, continueHandled: bool, seen: seq<Unit>, sent: seq<Unit>) {
    && SameFinal(requestMethod, FinalHead(seen), FinalHead(sent))
    && SameHeads(requestMethod, InterimHeads(seen), Due(InterimHeads(sent), continueHandled))
    && BodyBytes(seen) == BodyBytes(sent) && FinalTrailers(seen) == FinalTrailers(sent)
  }

  predicate NoHeads(us: seq<Unit>) {
    forall i :: 0 <= i < |us| ==> !us[i].HeadUnit?
  }

  lemma OneUnit(u: Unit, a: seq<Unit>)
    ensures var us := [u] + a;
            && FinalHead(us) == (if u.HeadUnit? && !u.head.informational then Some(u.head) else FinalHead(a))
            && InterimHeads(us) == (if u.HeadUnit? && u.head.informational then [u.head] else []) + InterimHeads(a)
            && BodyBytes(us) == (if u.ByteUnit? then [u.b] else []) + BodyBytes(a)
            && FinalTrailers(us) == (if u.EndUnit? then Some(u.trailers) else FinalTrailers(a))
  {
    assert ([u] + a)[1..] == a;
  }

  lemma {:induction false} HeadlessPrefix(p: seq<Unit>, a: seq<Unit>)
    requires NoHeads(p)
    ensures FinalHead(p + a) == FinalHead(a) && InterimHeads(p + a) == InterimHeads(a)
    ensures BodyBytes(p + a) == BodyBytes(p) + BodyBytes(a)
    ensures FinalTrailers(p + a) == if FinalTrailers(p).Some? then FinalTrailers(p) else FinalTrailers(a)
  {
    hide FinalHead, InterimHeads, BodyBytes, FinalTrailers;
    if p == [] {
      assert p + a == a;
      NoUnits();
    } else {
      var rest := p[1..];
      assert p == [p[0]] + rest && p + a == [p[0]] + (rest + a);
      HeadlessPrefix(rest, a);
      OneUnit(p[0], rest);
      OneUnit(p[0], rest + a);
    }
  }

  lemma NoUnits()
    ensures FinalHead([]) == None && InterimHeads([]) == [] && BodyBytes([]) == [] && FinalTrailers([]) == None
  {
  }

  lemma SamePrefix(requestMethod: bytes, continueHandled: bool, p: seq<Unit>, a: seq<Unit>, b: seq<Unit>)
    requires SameResponse(requestMethod, continueHandled, a, b) && NoHeads(p)
    ensures SameResponse(requestMethod, continueHandled, p + a, p + b)
  {
    hide SameHeads, SameFinal, FinalHead, InterimHeads, BodyBytes, FinalTrailers, Due, NoHeads;
    HeadlessPrefix(p, a);
    HeadlessPrefix(p, b);
  }

  lemma SeenHeadSame(requestMethod: bytes, h: ResponseHead)
    requires AllCanonical(h.headers) && h.contentLength >= -1
    ensures SameHead(requestMethod, SeenHead(requestMethod, h), h)
  {
    hide SameFields, OutHeaders, DecodedFraming, Reason, Decimal;
    SeenFields(requestMethod, h);
    var seen := SeenHead(requestMethod, h);
    OutHeadersProperties(h.headers);
    var extra := DecodedFraming(seen.contentLength, seen.chunked);
    FramingValues(OutHeaders(h.headers), extra, CONTENT_LENGTH);
    FramingValues(OutHeaders(h.headers), extra, TRANSFER_ENCODING);
    OwnFraming(seen.contentLength, seen.chunked);
  }

  lemma OwnFraming(contentLength: int, chunked: bool)
    ensures var extra := DecodedFraming(contentLength, chunked);
            && Values(extra, CONTENT_LENGTH) == (if contentLength >= 0 then [Decimal(contentLength)] else [])
            && Values(extra, TRANSFER_ENCODING) == (if chunked then [CHUNKED] else [])
  {
    hide Decimal;
    NamesDiffer();
    var a := if contentLength >= 0 then [Header(CONTENT_LENGTH, Decimal(contentLength))] else [];
    var b := if chunked then [Header(TRANSFER_ENCODING, CHUNKED)] else [];
    ValuesAppend(a, b, CONTENT_LENGTH);
    ValuesAppend(a, b, TRANSFER_ENCODING);
    if a != [] {
      OneValue(a[0]);
      assert a == [a[0]];
    }
    if b != [] {
      OneValue(b[0]);
      assert b == [b[0]];
    }
  }

  /** Every head has the fields of a decoded head. */
  predicate DecodedHeads(events: seq<Event>) {
    forall i :: 0 <= i < |events| && events[i].HeadEvent? ==>
      AllCanonical(events[i].head.headers) && events[i].head.contentLength >= -1
  }

  /** One more head: the same final head, or one more interim head, unless the gateway has sent it. */
  lemma SameWithHead(s: Side, h: ResponseHead, a: seq<Unit>, b: seq<Unit>)
    requires AllCanonical(h.headers) && h.contentLength >= -1
    requires SameResponse(s.requestMethod, s.continueHandled, a, b)
    ensures SameResponse(s.requestMethod, s.continueHandled, Seen(s, HeadEvent(h)) + a, [HeadUnit(h)] + b)
  {
    hide SameHead, SeenHead, Due, FinalHead, InterimHeads, BodyBytes, FinalTrailers;
    SeenHeadSame(s.requestMethod, h);
    SeenInformational(s.requestMethod, h);
    var seen := SeenHead(s.requestMethod, h);
    OneUnit(HeadUnit(h), b);
    OneUnit(HeadUnit(seen), a);
    assert [] + a == a;
    DueMore(h, InterimHeads(b), s.continueHandled);
    assert [] + InterimHeads(b) == InterimHeads(b) && [] + InterimHeads(a) == InterimHeads(a);
  }

  lemma SeenInformational(requestMethod: bytes, h: ResponseHead)
    ensures SeenHead(requestMethod, h).informational == h.informational
  {
    hide OutHeaders, DecodedFraming, Reason;
  }

  lemma DueMore(h: ResponseHead, rest: seq<ResponseHead>, continueHandled: bool)
    ensures Due([h] + rest, continueHandled) ==
            (if continueHandled && h.status == 100 then [] else [h]) + Due(rest, continueHandled)
    ensures [] + Due(rest, continueHandled) == Due(rest, continueHandled)
  {
    assert ([h] + rest)[1..] == rest;
  }

  lemma {:induction false} SeenSameResponse(s: Side, events: seq<Event>)
    requires DecodedHeads(events)
    ensures SameResponse(s.requestMethod, s.continueHandled, SeenAll(s, events), Flat(events))
  {
    hide SameResponse, Suppressed, SeenHead, AllCanonical;
    if events == [] {
      EmptySame(s.requestMethod, s.continueHandled);
    } else {
      var e := events[0];
      var a, b := SeenAll(s, events[1..]), Flat(events[1..]);
      SeenSameResponse(s, events[1..]);
      match e
      case HeadEvent(h) => SameWithHead(s, h, a, b);
      case BodyEvent(data) => SamePrefix(s.requestMethod, s.continueHandled, ByteUnits(data), a, b);
      case EndEvent(ts) => SamePrefix(s.requestMethod, s.continueHandled, [EndUnit(ts)], a, b);
    }
  }

  lemma EmptySame(requestMethod: bytes, continueHandled: bool)
    ensures SameResponse(requestMethod, continueHandled, [], [])
  {
  }

  // ---------------------------------------------------------------- decoded heads

  lemma DecodedAppend(a: seq<Event>, b: seq<Event>)
    requires DecodedHeads(a) && DecodedHeads(b)
    ensures DecodedHeads(a + b)
  {
  }

  lemma StepDecoded(L: Limits, c: Codec)
    requires ValidLimits(L) && Wf(c) && Step(L, c).Next?
    ensures DecodedHeads(Step(L, c).events)
  {
    hide ParseHead, ParseTrailers, ParseLine, FindDoubleCrlf, FindCrlf, AllCanonical;
    if c.phase == InHead {
      ParsedHeadGood(L, c.buffer[..FindDoubleCrlf(c.buffer)]);
    }
  }

  lemma {:induction false} RunDecoded(L: Limits, c: Codec)
    requires ValidLimits(L) && Wf(c)
    ensures DecodedHeads(Run(L, c).events)
    decreases |c.buffer|
  {
    hide Step, DecodedHeads, ValidLimits, Wf;
    NoneDecoded();
    if Step(L, c).Next? {
      StepDecoded(L, c);
      RunDecoded(L, Step(L, c).codec);
      DecodedAppend(Step(L, c).events, Run(L, Step(L, c).codec).events);
    }
  }

  lemma NoneDecoded()
    ensures DecodedHeads([])
  {
  }

  lemma {:induction false} FeedAllDecoded(L: Limits, c: Codec, fragments: seq<bytes>)
    requires ValidLimits(L) && Wf(c)
    ensures DecodedHeads(FeedAll(L, c, fragments).events)
    decreases |fragments|
  {
    hide Run, DecodedHeads, ValidLimits, Wf;
    NoneDecoded();
    if fragments != [] {
      var o := Feed(L, c, fragments[0]);
      if c.phase != Complete {
        WfExtend(c, fragments[0]);
        RunDecoded(L, c.(buffer := c.buffer + fragments[0]));
      }
      if o.error.None? {
        FeedWf(L, c, fragments[0]);
        FeedAllDecoded(L, o.codec, fragments[1..]);
        DecodedAppend(o.events, FeedAll(L, o.codec, fragments[1..]).events);
      }
    }
  }

  lemma AllDecoded(L: Limits, fragments: seq<bytes>, closed: bool)
    requires ValidLimits(L)
    ensures DecodedHeads(AllEvents(L, fragments, closed))
  {
    hide FeedAll;
    FeedAllDecoded(L, Fresh, fragments);
    DecodedAppend(FeedAll(L, Fresh, fragments).events, if closed then [EndEvent([])] else []);
  }

  /** A relayed response is the upstream's: unless a trailer section names Host, the client
      decodes the same interim and final heads, with the same end-to-end fields, the same body
      and the same sanitized trailers. */
  lemma ClientSeesTheResponse(L: Limits, big: Limits, fragments: seq<bytes>, closed: bool, continueHandled: bool,
                              n: nat)
    requires Covers(L, big, n)
    requires FeedAll(L, Fresh, fragments).error.None?
    requires closed ==> FeedAll(L, Fresh, fragments).codec.phase == UntilEof
    requires !HostTrailer(AllEvents(L, fragments, closed))
    ensures var s := NewSide(L.requestMethod, continueHandled);
            var events := AllEvents(L, fragments, closed);
            && RelayEvents(s, events).Ok?
            && var output := Relay(s, events).output;
               |output| <= n ==>
                 && Feed(big, Fresh, output).error.None?
                 && SameResponse(L.requestMethod, continueHandled, Flat(Feed(big, Fresh, output).events), Flat(events))
  {
    hide RelayEvents, FeedAll, HostTrailer, Feed, Flat, SeenAll, SameResponse, DecodedHeads;
    CoversLess(L, big, n, n);
    RelayRefuses(L, fragments, closed, continueHandled);
    var s := NewSide(L.requestMethod, continueHandled);
    var events := AllEvents(L, fragments, closed);
    if |Relay(s, events).output| <= n {
      CoversLess(L, big, n, |Relay(s, events).output|);
      RelayTransparency(L, big, fragments, closed, continueHandled);
      AllDecoded(L, fragments, closed);
      SeenSameResponse(s, events);
    }
  }

  // ---------------------------------------------------------------- a response that is refused

  const HOST_X: seq<Header> := [Header(HOST, [120])]

  /** A chunked 200 response without a body whose trailer section is `host: x`. */
  function HostResponse(): bytes {
    (match HeadBytes(200, [], -1, true, true) case Ok(head) => head case Err(_) => [])
    + ([48] + CRLF + (Terminated(FieldLines(HOST_X)) + CRLF))
  }

  lemma HostField()
    ensures Canonical(HOST_X[0]) && AllCanonical(HOST_X) && !HopByHop(HOST)
  {
    assert forall i :: 0 <= i < |HOST| ==> TokenByte(HOST[i]);
  }

  lemma HostKept()
    ensures Values(HOST_X, CONTENT_LENGTH) == [] && Values(HOST_X, TRANSFER_ENCODING) == []
            && Sanitize(HOST_X) == HOST_X
  {
    HostField();
    assert |HOST| == 4 && |CONTENT_LENGTH| == 14 && |TRANSFER_ENCODING| == 17;
    assert HOST_X[1..] == [];
    NothingNamed(HOST_X);
    KeepAll(HOST_X);
  }

  lemma HostTrailers(L: Limits)
    requires L.headerCount >= 1
    ensures var out := Terminated(FieldLines(HOST_X)) + CRLF;
            && |out| > 4 && FindDoubleCrlf(out) == |out| - 4 && out[..2] != CRLF
            && ParseTrailers(L, out[..|out| - 4]) == Ok(HOST_X)
  {
    hide Values, Sanitize, ParseFields, SplitCrlf, Terminated, FieldLine, Canonical, FindDoubleCrlf, CleanLine;
    HostField();
    HostKept();
    FieldsRoundTrip(HOST_X, L.headerCount, 0);
    TerminatedBlock(FieldLines(HOST_X));
  }

  /** The head of a chunked response, whatever follows it. */
  lemma ChunkedHeadStep(L: Limits, head: bytes, rest: bytes) returns (h: ResponseHead)
    requires HeadBytes(200, [], -1, true, true) == Ok(head) && L.headerBytes >= |head| && L.headerCount > 1
    requires L.requestMethod != HEAD_METHOD && 0 <= L.bodyBytes
    ensures Step(L, Codec(head + rest, InHead, 0, 0)) == Next(Codec(rest, ChunkSize, 0, 0), [HeadEvent(h)])
  {
    hide ParseHead, HeadBytes, FindDoubleCrlf;
    HeadDecodes(L, 200, [], -1, true);
    FindDoubleCrlfExtend(head, rest);
    var data := head + rest;
    assert data[..|head| - 4] == head[..|head| - 4] && data[|head| - 4 + 4..] == rest;
    h := ParseHead(L, head[..|head| - 4]).value;
  }

  lemma HostEnding(L: Limits, tail: bytes)
    requires ValidLimits(L) && 0 <= L.bodyBytes && 0 <= L.chunkBytes && |tail| <= L.headerBytes
    requires tail == Terminated(FieldLines(HOST_X)) + CRLF
    ensures Run(L, Codec([48] + CRLF + tail, ChunkSize, 0, 0))
              == Outcome(Codec([], Complete, 0, 0), [EndEvent(HOST_X)], None)
  {
    hide Step, ParseTrailers, Terminated, FieldLine, FindDoubleCrlf;
    var c1, c2, c3 := Codec([48] + CRLF + tail, ChunkSize, 0, 0), Codec(tail, InTrailers, 0, 0),
      Codec([], Complete, 0, 0);
    LastChunkStep(L, c1, tail);
    StepsTo(L, c1, c2, []);
    HostTrailers(L);
    BlockTrailerStep(L, c2, HOST_X);
    StepsTo(L, c2, c3, [EndEvent(HOST_X)]);
    CompleteStops(L, c3);
    StopsAt(L, c3);
    assert [EndEvent(HOST_X)] + [] == [EndEvent(HOST_X)];
  }

  lemma HostResponseDecodes(L: Limits) returns (h: ResponseHead)
    requires ValidLimits(L) && L.headerBytes >= |HostResponse()| && L.headerCount > 1
    requires L.requestMethod != HEAD_METHOD && 0 <= L.bodyBytes && 0 <= L.chunkBytes
    ensures Feed(L, Fresh, HostResponse()) == Outcome(Codec([], Complete, 0, 0), [HeadEvent(h), EndEvent(HOST_X)], None)
  {
    hide Step, Run, HeadBytes, Terminated, FieldLine;
    AllAccepted();
    var head := HeadBytes(200, [], -1, true, true).value;
    var tail := Terminated(FieldLines(HOST_X)) + CRLF;
    var rest := [48] + CRLF + tail;
    assert HostResponse() == head + rest;
    h := ChunkedHeadStep(L, head, rest);
    StepsTo(L, Codec(head + rest, InHead, 0, 0), Codec(rest, ChunkSize, 0, 0), [HeadEvent(h)]);
    HostEnding(L, tail);
    assert Fresh.(buffer := Fresh.buffer + HostResponse()) == Codec(head + rest, InHead, 0, 0);
    assert [HeadEvent(h)] + [EndEvent(HOST_X)] == [HeadEvent(h), EndEvent(HOST_X)];
  }

  lemma AllAccepted()
    ensures HeadBytes(200, [], -1, true, true).Ok?
  {
  }

  /** The upstream decoder accepts it, and relaying it raises. */
  lemma HostResponseRefused(L: Limits)
    requires ValidLimits(L) && L.headerBytes >= |HostResponse()| && L.headerCount > 1
    requires L.requestMethod != HEAD_METHOD && 0 <= L.bodyBytes && 0 <= L.chunkBytes
    ensures FeedAll(L, Fresh, [HostResponse()]).error.None?
    ensures RelayEvents(NewSide(L.requestMethod, false), AllEvents(L, [HostResponse()], false)).Err?
  {
    hide Feed, RelayEvents, HostResponse;
    var h := HostResponseDecodes(L);
    var fragments := [HostResponse()];
    assert fragments[1..] == [];
    var o := FeedAll(L, Fresh, fragments);
    assert o.events == Feed(L, Fresh, HostResponse()).events;
    var events := AllEvents(L, fragments, false);
    assert events == o.events && Has(HOST_X, HOST) by {
      assert HOST_X[0].name == HOST;
    }
    assert events[1] == EndEvent(HOST_X);
    assert HostTrailer(events);
    RelayRefuses(L, fragments, false, false);
  }
}
