/** The request relay theorem: head, body pieces and trailers written for the upstream
    decode to exactly one request with the same framing, body and trailers. */
module RequestOutcome {
  import opened Octets
  import opened Joining
  import opened Numerals
  import opened ChunkLine
  import opened Headers
  import opened ServerCodec
  import opened ServerFragments
  import opened RequestRelay
  import opened RequestTransparency
  import opened RequestFields

  // ---------------------------------------------------------------- reaching a state

  /** Reading `data` in state `d` succeeds, ends in state `e` and means `us`. */
  predicate Reaches(L: Limits, d: Codec, data: bytes, e: Codec, us: seq<Unit>) {
    && Wf(d)
    && var o := Feed(L, d, data, 0);
       o.error.None? && o.codec == e && Flat(o.events) == us
  }

  lemma ReachesTwo(L: Limits, d: Codec, a: bytes, e: Codec, us: seq<Unit>, b: bytes, f: Codec, vs: seq<Unit>)
    requires ValidLimits(L) && Reaches(L, d, a, e, us) && Reaches(L, e, b, f, vs)
    ensures Reaches(L, d, a + b, f, us + vs)
  {
    hide Feed, Flat;
    FeedSplit(L, d, a, b);
  }

  lemma StepsTo(L: Limits, c: Codec, d: Codec, events: seq<Event>, done: bool)
    requires Wf(c) && Step(L, c) == Next(d, events, done)
    ensures Run(L, c, 0) == After(events, Run(L, d, 0))
  {
    hide Step;
  }

  lemma StopsAt(L: Limits, c: Codec)
    requires Wf(c) && c.buffer == [] && ValidLimits(L)
    ensures Run(L, c, 0) == Outcome(c, [], None)
  {
    assert FindCrlf([]) == -1;
    assert FindDoubleCrlf([]) == -1;
  }

  lemma FeedEmptyRun(L: Limits, d: Codec, data: bytes)
    requires Wf(d) && d.buffer == []
    ensures Wf(d.(buffer := data)) && Feed(L, d, data, 0) == Run(L, d.(buffer := data), 0)
  {
    hide Run;
    assert [] + data == data;
  }

  lemma ReachesNothing(L: Limits, d: Codec)
    requires Wf(d) && d.buffer == [] && ValidLimits(L)
    ensures Reaches(L, d, [], d, [])
  {
    hide Run;
    FeedEmptyRun(L, d, []);
    StopsAt(L, d);
    FlatNone();
  }

  /** One step that takes the whole buffer. */
  lemma ReachesByStep(L: Limits, d: Codec, data: bytes, e: Codec, events: seq<Event>, done: bool)
    requires Wf(d) && d.buffer == [] && ValidLimits(L) && e.buffer == []
    requires Step(L, d.(buffer := data)) == Next(e, events, done)
    ensures Reaches(L, d, data, e, Flat(events))
  {
    hide Step, Run;
    FeedEmptyRun(L, d, data);
    StepsTo(L, d.(buffer := data), e, events, done);
    StopsAt(L, e);
    assert events + [] == events;
  }

  // ---------------------------------------------------------------- states between pieces

  /** The upstream decoder after the head and `sent` body bytes. */
  function Waiting(contentLength: int, sent: nat): Codec
    requires contentLength >= 0 ==> sent <= contentLength
  {
    if contentLength < 0 then Codec([], ChunkSize, 0, sent)
    else if sent < contentLength then Codec([], Fixed, contentLength - sent, sent)
    else Fresh
  }

  /** A declared body that is complete closes the message at once. */
  function Closing(contentLength: int, sent: nat): seq<Unit> {
    if contentLength == sent then [EndUnit([])] else []
  }

  lemma HeadReaches(L: Limits, out: bytes, h: RequestHead)
    requires ValidLimits(L) && 4 < |out| <= L.headerBytes && FindDoubleCrlf(out) == |out| - 4
    requires ParseHead(L, out[..|out| - 4]) == Ok(h)
    requires h.chunked <==> h.contentLength == -1
    requires h.contentLength >= -1
    ensures Reaches(L, Fresh, out, Waiting(h.contentLength, 0), [HeadUnit(h)] + Closing(h.contentLength, 0))
  {
    hide ParseHead, Flat, Reaches;
    assert out[|out| - 4 + 4..] == [];
    var events := [HeadEvent(h)] + (if h.contentLength == 0 then [EndEvent([])] else []);
    ReachesByStep(L, Fresh, out, Waiting(h.contentLength, 0), events, h.contentLength == 0);
    FlatAppend([HeadEvent(h)], if h.contentLength == 0 then [EndEvent([])] else []);
    FlatOne(HeadEvent(h));
    FlatOne(EndEvent([]));
    FlatNone();
  }

  lemma FixedReaches(L: Limits, contentLength: nat, sent: nat, data: bytes)
    requires ValidLimits(L) && data != [] && sent + |data| <= contentLength
    ensures Reaches(L, Waiting(contentLength, sent), data, Waiting(contentLength, sent + |data|),
                    ByteUnits(data) + Closing(contentLength, sent + |data|))
  {
    hide Flat, Reaches;
    assert data[..|data|] == data && data[|data|..] == [];
    var full := sent + |data| == contentLength;
    var events := [BodyEvent(data)] + (if full then [EndEvent([])] else []);
    assert full ==> events == [BodyEvent(data)] + [EndEvent([])];
    assert !full ==> events == [BodyEvent(data)];
    ReachesByStep(L, Waiting(contentLength, sent), data, Waiting(contentLength, sent + |data|), events, full);
    FlatAppend([BodyEvent(data)], if full then [EndEvent([])] else []);
    FlatOne(BodyEvent(data));
    FlatOne(EndEvent([]));
    FlatNone();
  }

  lemma ChunkReaches(L: Limits, sent: nat, data: bytes)
    requires ValidLimits(L) && data != []
    requires |data| <= L.chunkBytes && sent + |data| <= L.bodyBytes && |data| < Pow16(16)
    ensures Reaches(L, Waiting(-1, sent), BodyBytesFor(data, true), Waiting(-1, sent + |data|), ByteUnits(data))
  {
    hide ParseLine, Run, Hex, Flat;
    var d, out := Waiting(-1, sent), BodyBytesFor(data, true);
    var c1 := Codec(data + CRLF, ChunkData, |data|, sent);
    var c2 := Waiting(-1, sent + |data|);
    assert out == Hex(|data|) + CRLF + (data + CRLF);
    SizeLine(|data|, data + CRLF);
    FeedEmptyRun(L, d, out);
    StepsTo(L, d.(buffer := out), c1, [], false);
    assert (data + CRLF)[..|data|] == data && (data + CRLF)[|data| + 2..] == [];
    assert CrlfAt(data + CRLF, |data|);
    StepsTo(L, c1, c2, [BodyEvent(data)], false);
    StopsAt(L, c2);
    assert [BodyEvent(data)] + [] == [BodyEvent(data)];
    FlatOne(BodyEvent(data));
  }

  /** One body piece, whatever the framing. */
  lemma PieceReaches(L: Limits, contentLength: int, sent: nat, data: bytes)
    requires ValidLimits(L) && contentLength >= -1
    requires contentLength >= 0 ==> sent + |data| <= contentLength
    requires contentLength < 0 ==> |data| <= L.chunkBytes && sent + |data| <= L.bodyBytes && |data| < Pow16(16)
    ensures Reaches(L, Waiting(contentLength, sent), BodyBytesFor(data, contentLength < 0),
                    Waiting(contentLength, sent + |data|), PieceUnits(contentLength, sent, data))
  {
    hide Reaches;
    if data == [] {
      ReachesNothing(L, Waiting(contentLength, sent));
      assert ByteUnits(data) + [] == [];
    } else if contentLength >= 0 {
      FixedReaches(L, contentLength, sent, data);
    } else {
      ChunkReaches(L, sent, data);
      assert ByteUnits(data) + [] == ByteUnits(data);
    }
  }

  function Pieces(pieces: seq<bytes>, chunked: bool): bytes {
    if pieces == [] then [] else BodyBytesFor(pieces[0], chunked) + Pieces(pieces[1..], chunked)
  }

  lemma {:induction false} PiecesReach(L: Limits, contentLength: int, sent: nat, pieces: seq<bytes>)
    requires ValidLimits(L) && contentLength >= -1
    requires contentLength >= 0 ==> sent + |Concat(pieces)| <= contentLength
    requires contentLength < 0 ==>
               |Concat(pieces)| <= L.chunkBytes && sent + |Concat(pieces)| <= L.bodyBytes
                 && |Concat(pieces)| < Pow16(16)
    ensures Reaches(L, Waiting(contentLength, sent), Pieces(pieces, contentLength < 0),
                    Waiting(contentLength, sent + |Concat(pieces)|), PieceUnits(contentLength, sent, Concat(pieces)))
    decreases |pieces|
  {
    hide Reaches, BodyBytesFor, Waiting, PieceUnits;
    if pieces == [] {
      PieceReaches(L, contentLength, sent, []);
      EmptyPiece(contentLength < 0);
    } else {
      var data, rest := pieces[0], Concat(pieces[1..]);
      assert |Concat(pieces)| == |data| + |rest|;
      PieceReaches(L, contentLength, sent, data);
      PiecesReach(L, contentLength, sent + |data|, pieces[1..]);
      ReachesTwo(L, Waiting(contentLength, sent), BodyBytesFor(data, contentLength < 0),
                 Waiting(contentLength, sent + |data|), PieceUnits(contentLength, sent, data),
                 Pieces(pieces[1..], contentLength < 0),
                 Waiting(contentLength, sent + |data| + |rest|), PieceUnits(contentLength, sent + |data|, rest));
      PieceUnitsJoin(contentLength, sent, data, rest);
    }
  }

  /** What a stretch of body bytes means: the bytes and, if they complete a declared body, the end. */
  function PieceUnits(contentLength: int, sent: nat, data: bytes): seq<Unit> {
    ByteUnits(data) + if data == [] then [] else Closing(contentLength, sent + |data|)
  }

  lemma PieceUnitsJoin(contentLength: int, sent: nat, data: bytes, rest: bytes)
    requires contentLength >= 0 ==> sent + |data| + |rest| <= contentLength
    ensures PieceUnits(contentLength, sent, data) + PieceUnits(contentLength, sent + |data|, rest)
         == PieceUnits(contentLength, sent, data + rest)
  {
    assert ByteUnits(data + rest) == ByteUnits(data) + ByteUnits(rest);
    if rest == [] {
      assert data + rest == data;
    }
  }

  lemma EmptyPiece(chunked: bool)
    ensures BodyBytesFor([], chunked) == []
  {
  }

  // ---------------------------------------------------------------- the end

  /** Trailers that the client decoder accepted, sanitized. */
  predicate GoodTrailers(ts: seq<Header>) {
    && AllCanonical(ts)
    && Values(ts, CONTENT_LENGTH) == [] && Values(ts, TRANSFER_ENCODING) == [] && Values(ts, HOST) == []
  }

  lemma AcceptedTrailers(L: Limits, block: bytes)
    requires ParseTrailers(L, block).Ok? && L.headerCount >= 0
    ensures var ts := ParseTrailers(L, block).value;
            GoodTrailers(ts) && GoodTrailers(Sanitize(ts)) && |ts| <= L.headerCount
              && Lowered(Sanitize(ts)) == Sanitize(ts)
  {
    hide Canonical, Values, Keep, ConnectionNamed;
    var lines := SplitCrlf(block);
    ParsedCanonical(lines, L.headerCount, 0);
    var ts := ParseTrailers(L, block).value;
    SanitizeIdempotent(ts);
    var named := ConnectionNamed(ts);
    KeptValues(ts, named, CONTENT_LENGTH);
    KeptValues(ts, named, TRANSFER_ENCODING);
    KeptValues(ts, named, HOST);
    forall i | 0 <= i < |Sanitize(ts)| ensures Lowered(Sanitize(ts))[i] == Sanitize(ts)[i] {
      assert Canonical(Sanitize(ts)[i]);
      LowerCanonical(Sanitize(ts)[i]);
    }
  }

  lemma LowerCanonical(h: Header)
    requires Canonical(h)
    ensures Lower(h.name) == h.name
  {
  }

  lemma {:induction false} UnvaluedNames(hs: seq<Header>, name: bytes)
    requires Values(hs, name) == []
    ensures forall i :: 0 <= i < |hs| ==> hs[i].name != name
  {
    if hs != [] {
      UnvaluedNames(hs[1..], name);
      forall i | 0 <= i < |hs| ensures hs[i].name != name {
        if i > 0 {
          assert hs[i] == hs[1..][i - 1];
        }
      }
    }
  }

  /** Trailers the client decoder accepted are never refused on the way out. */
  lemma EndNeverRefused(L: Limits, block: bytes, chunked: bool)
    requires ParseTrailers(L, block).Ok? && L.headerCount >= 0
    ensures EndBytesFor(ParseTrailers(L, block).value, chunked).Ok?
  {
    hide Values, Sanitize, ParseTrailers, Canonical;
    AcceptedTrailers(L, block);
    var ts := Sanitize(ParseTrailers(L, block).value);
    UnvaluedNames(ts, CONTENT_LENGTH);
    UnvaluedNames(ts, TRANSFER_ENCODING);
    UnvaluedNames(ts, HOST);
    forall i | 0 <= i < |ts| ensures !FramingTrailer(ts[i]) {
      assert Canonical(ts[i]);
      LowerCanonical(ts[i]);
    }
  }

  lemma NoTrailersTerminated()
    ensures Terminated(FieldLines([])) == []
  {
    assert FieldLines([]) == [];
  }

  lemma TrailerBlockDecodes(L: Limits, ts: seq<Header>)
    requires ts != [] && GoodTrailers(ts) && |ts| <= L.headerCount
    ensures var out := Terminated(FieldLines(ts)) + CRLF;
            && |out| > 4 && FindDoubleCrlf(out) == |out| - 4 && !CrlfAt(out, 0)
            && ParseTrailers(L, out[..|out| - 4]) == Ok(ts)
  {
    hide ParseFields, FieldLine, CleanLine, Canonical, Terminated, SplitCrlf, Values;
    FieldsRoundTrip(ts, L.headerCount, 0);
    var lines := FieldLines(ts);
    TerminatedBlock(lines);
    assert CleanLine(lines[0]);
    FirstByte(lines[0]);
  }

  lemma TrailerStep(L: Limits, c: Codec, ts: seq<Header>)
    requires Wf(c) && c.phase == InTrailers && c.buffer == Terminated(FieldLines(ts)) + CRLF
    requires GoodTrailers(ts) && |ts| <= L.headerCount && |c.buffer| <= L.headerBytes
    ensures Step(L, c) == Next(Fresh, [EndEvent(ts)], true)
  {
    hide *;
    if ts == [] {
      NoTrailersTerminated();
      EmptyTrailerStep(L, c);
    } else {
      TrailerBlockDecodes(L, ts);
      BlockTrailerStep(L, c, ts);
    }
  }

  lemma EmptyTrailerStep(L: Limits, c: Codec)
    requires Wf(c) && c.phase == InTrailers && c.buffer == [] + CRLF
    ensures Step(L, c) == Next(Fresh, [EndEvent([])], true)
  {
    hide ParseTrailers;
    assert CrlfAt(c.buffer, 0) && c.buffer[2..] == [];
    assert [] + [EndEvent([])] == [EndEvent([])];
  }

  lemma BlockTrailerStep(L: Limits, c: Codec, ts: seq<Header>)
    requires Wf(c) && c.phase == InTrailers && 4 < |c.buffer| <= L.headerBytes && !CrlfAt(c.buffer, 0)
    requires FindDoubleCrlf(c.buffer) == |c.buffer| - 4
    requires ParseTrailers(L, c.buffer[..|c.buffer| - 4]) == Ok(ts)
    ensures Step(L, c) == Next(Fresh, [EndEvent(ts)], true)
  {
    hide ParseTrailers;
    assert c.buffer[|c.buffer| - 4 + 4..] == [];
    assert [] + [EndEvent(ts)] == [EndEvent(ts)];
  }

  lemma LastChunkStep(L: Limits, c: Codec, rest: bytes)
    requires Wf(c) && c.phase == ChunkSize && c.buffer == [48] + CRLF + rest
    requires 0 <= L.chunkBytes && c.received <= L.bodyBytes
    ensures Step(L, c) == Next(c.(buffer := rest, phase := InTrailers), [], false)
  {
    hide ParseLine;
    assert Hex(0) == [48];
    assert Pow16(16) > 0;
    SizeLine(0, rest);
  }

  lemma EndReaches(L: Limits, sent: nat, ts: seq<Header>)
    requires ValidLimits(L) && GoodTrailers(ts) && |ts| <= L.headerCount
    requires |[48] + CRLF + Terminated(FieldLines(ts)) + CRLF| <= L.headerBytes
    requires 0 <= L.chunkBytes && sent <= L.bodyBytes
    ensures Reaches(L, Waiting(-1, sent), [48] + CRLF + Terminated(FieldLines(ts)) + CRLF, Fresh, [EndUnit(ts)])
  {
    hide Run, Step, GoodTrailers, FieldLines, Flat;
    var out := [48] + CRLF + Terminated(FieldLines(ts)) + CRLF;
    var rest := Terminated(FieldLines(ts)) + CRLF;
    assert out == [48] + CRLF + rest;
    var d := Waiting(-1, sent);
    FeedEmptyRun(L, d, out);
    var c1 := d.(buffer := rest, phase := InTrailers);
    LastChunkStep(L, d.(buffer := out), rest);
    StepsTo(L, d.(buffer := out), c1, [], false);
    TrailerStep(L, c1, ts);
    StepsTo(L, c1, Fresh, [EndEvent(ts)], true);
    StopsAt(L, Fresh);
    assert [EndEvent(ts)] + [] == [EndEvent(ts)];
    FlatOne(EndEvent(ts));
  }

  // ---------------------------------------------------------------- the theorem

  /** Limits of an upstream decoder that does not refuse the relayed request for its size. */
  predicate Room(L: Limits, big: Limits, lineLength: nat, n: nat, body: nat) {
    && ValidLimits(big) && L.headerCount >= 0
    && big.requestLine >= lineLength && big.headerBytes >= n && big.headerCount > L.headerCount + 4
    && big.bodyBytes >= L.bodyBytes && big.bodyBytes >= body && big.chunkBytes >= body && body < Pow16(16)
  }

  /** The head the relay writes for an accepted client head. */
  function RelayedHead(h: RequestHead, r: Route, expectHandled: bool): Result<bytes, ProxyError> {
    RequestHeadBytes(Upper(h.requestMethod), h.target, h.headers, r, h.contentLength, h.chunked, expectHandled)
  }

  /** An accepted head is relayed exactly when the gateway's own texts are usable. */
  lemma HeadEncodesWhen(L: Limits, block: bytes, r: Route, expectHandled: bool)
    requires ParseHead(L, block).Ok? && L.headerCount >= 0
    ensures RelayedHead(ParseHead(L, block).value, r, expectHandled).Ok? <==> GoodRoute(r)
  {
    hide ParseHead, Token, SafeTarget, SafeFields, OutFields, CleanValue, HeadLines;
    var h := ParseHead(L, block).value;
    AcceptedHead(L, block);
    UpperToken(h.requestMethod);
    OutFieldsSafe(h.headers, r, expectHandled);
  }

  /** The head the upstream decodes, by its fields. */
  lemma HeadForwarded(L: Limits, block: bytes, r: Route, expectHandled: bool)
    requires ParseHead(L, block).Ok? && L.headerCount >= 0
    requires RelayedHead(ParseHead(L, block).value, r, expectHandled).Ok?
    ensures var h := ParseHead(L, block).value;
            ForwardedHead(h, r, expectHandled,
                          SeenHead(Upper(h.requestMethod), h.target, OutFields(h.headers, r, expectHandled),
                                   h.contentLength, h.chunked))
  {
    hide ParseHead, Token, SafeTarget, OutFields, CleanValue, FramingField, HeadLines, RequestLineBytes, Seen, Values,
         AllCanonical, SafeFields, ForwardedHead;
    var h := ParseHead(L, block).value;
    AcceptedHead(L, block);
    UpperToken(h.requestMethod);
    OutFieldsSafe(h.headers, r, expectHandled);
    OutFieldsValues(h.headers, r, expectHandled);
    RequestForwarded(h, r, expectHandled);
  }

  lemma RelayedHeadReaches(L: Limits, big: Limits, block: bytes, r: Route, expectHandled: bool, out: bytes, body: nat)
    requires ParseHead(L, block).Ok? && RelayedHead(ParseHead(L, block).value, r, expectHandled) == Ok(out)
    requires var h := ParseHead(L, block).value;
             Room(L, big, |RequestLineBytes(Upper(h.requestMethod), h.target)|, |out|, body)
    ensures var h := ParseHead(L, block).value;
            var fields := OutFields(h.headers, r, expectHandled);
            Reaches(big, Fresh, out, Waiting(h.contentLength, 0),
                    [HeadUnit(SeenHead(Upper(h.requestMethod), h.target, fields, h.contentLength, h.chunked))]
                    + Closing(h.contentLength, 0))
  {
    hide ParseHead, Token, SafeTarget, OutFields, CleanValue, FramingField, HeadLines, RequestLineBytes, Seen, Values,
         AllCanonical, Reaches, Terminated, SafeFields;
    var h := ParseHead(L, block).value;
    AcceptedHead(L, block);
    UpperToken(h.requestMethod);
    var m := Upper(h.requestMethod);
    var fields := OutFields(h.headers, r, expectHandled);
    OutFieldsSafe(h.headers, r, expectHandled);
    OutFieldsValues(h.headers, r, expectHandled);
    assert Framable(fields, r.authority, h.headers);
    HeadDecodes(big, m, h.target, fields, r.authority, h.headers, h.contentLength, h.chunked);
    HeadReaches(big, out, SeenHead(m, h.target, fields, h.contentLength, h.chunked));
  }

  /** Request relay. A head and trailers accepted by the client-side decoder and any body
      pieces of the declared total are written so that an upstream using the same decoder
      reads exactly one request: the method in upper case, the same target and framing, the
      end-to-end fields and the gateway's own, the concatenated body, and the sanitized trailers;
      and it is then ready for the next. */
  lemma RequestRelayed(L: Limits, big: Limits, block: bytes, r: Route, expectHandled: bool,
                       pieces: seq<bytes>, trailerBlock: bytes, out: bytes, ending: bytes)
    requires ParseHead(L, block).Ok? && ParseTrailers(L, trailerBlock).Ok?
    requires var h := ParseHead(L, block).value;
             && RelayedHead(h, r, expectHandled) == Ok(out)
             && EndBytesFor(ParseTrailers(L, trailerBlock).value, h.chunked) == Ok(ending)
             && (!h.chunked ==> |Concat(pieces)| == h.contentLength)
             && Room(L, big, |RequestLineBytes(Upper(h.requestMethod), h.target)|, |out| + |ending|, |Concat(pieces)|)
    ensures var h := ParseHead(L, block).value;
            var ts := ParseTrailers(L, trailerBlock).value;
            var seen := SeenHead(Upper(h.requestMethod), h.target, OutFields(h.headers, r, expectHandled),
              h.contentLength, h.chunked);
            Reaches(big, Fresh, out + Pieces(pieces, h.chunked) + ending, Fresh,
                    [HeadUnit(seen)] + ByteUnits(Concat(pieces)) + [EndUnit(if h.chunked then Sanitize(ts) else [])])
            && ForwardedHead(h, r, expectHandled, seen)
  {
    hide ParseHead, ParseTrailers, Token, SafeTarget, OutFields, FramingField, Seen, RequestLineBytes, Reaches, Pieces,
         Sanitize, FieldLines, Canonical, Values, RequestHeadBytes, GoodTrailers, ForwardedHead;
    var h := ParseHead(L, block).value;
    var ts := ParseTrailers(L, trailerBlock).value;
    HeadForwarded(L, block, r, expectHandled);
    var body := Concat(pieces);
    var seen := SeenHead(Upper(h.requestMethod), h.target, OutFields(h.headers, r, expectHandled), h.contentLength,
      h.chunked);
    AcceptedHead(L, block);
    RelayedHeadReaches(L, big, block, r, expectHandled, out, |body|);
    PiecesReach(big, h.contentLength, 0, pieces);
    var start := [HeadUnit(seen)] + Closing(h.contentLength, 0);
    var middle := PieceUnits(h.contentLength, 0, body);
    ReachesTwo(big, Fresh, out, Waiting(h.contentLength, 0), start,
               Pieces(pieces, h.chunked), Waiting(h.contentLength, |body|), middle);
    if h.chunked {
      AcceptedTrailers(L, trailerBlock);
      EndReaches(big, |body|, Sanitize(ts));
      ReachesTwo(big, Fresh, out + Pieces(pieces, true), Waiting(-1, |body|), start + middle,
                 ending, Fresh, [EndUnit(Sanitize(ts))]);
      assert start + middle + [EndUnit(Sanitize(ts))] == [HeadUnit(seen)] + ByteUnits(body) + [EndUnit(Sanitize(ts))];
    } else {
      assert ending == [];
      assert out + Pieces(pieces, false) + ending == out + Pieces(pieces, false);
      assert start + middle == [HeadUnit(seen)] + ByteUnits(body) + [EndUnit([])];
    }
  }

  /** The relayed method differs from the client's only in the case of letters, has no lower-case
      letter, and is the client's exactly when that has none. */
  lemma MethodKept(m: bytes)
    ensures Upper(m) == m <==> forall i :: 0 <= i < |m| ==> !(97 <= m[i] <= 122)
    ensures Lower(Upper(m)) == Lower(m) && forall i :: 0 <= i < |m| ==> !(97 <= Upper(m)[i] <= 122)
  {
    assert forall i :: 0 <= i < |m| ==> LowerByte(UpperByte(m[i])) == LowerByte(m[i]);
    assert Lower(Upper(m)) == Lower(m);
    if Upper(m) == m {
      forall i | 0 <= i < |m| ensures !(97 <= m[i] <= 122) {
        assert Upper(m)[i] == m[i];
      }
    }
  }

  // "get", "GET", "/"
  const LOWER_GET: bytes := [103, 101, 116]
  const UPPER_GET: bytes := [71, 69, 84]
  const ROOT: bytes := [47]

  // "host: a"
  const HOST_A: seq<Header> := [Header(HOST, [97])]

  /** The whole request `get / HTTP/1.1` to host `a`, with an empty body. */
  function LowerRequest(): bytes {
    Terminated(HeadLines(LOWER_GET, ROOT, HOST_A + [FramingField(0, false)])) + CRLF
  }

  function LowerHead(): RequestHead {
    SeenHead(LOWER_GET, ROOT, HOST_A, 0, false)
  }

  lemma LowerFramable()
    ensures Framable(HOST_A, [97], [])
  {
    NamesApart();
    OneValue(HOST_A[0], HOST);
    OneValue(HOST_A[0], CONTENT_LENGTH);
    OneValue(HOST_A[0], TRANSFER_ENCODING);
    OneValue(HOST_A[0], CONNECTION);
    OneValue(HOST_A[0], EXPECT);
    OwnNamesCanonical();
  }

  lemma OneValue(h: Header, name: bytes)
    ensures Values([h], name) == if h.name == name then [h.value] else []
  {
    assert [h][1..] == [];
  }

  lemma GetTokens()
    ensures Token(LOWER_GET) && Upper(LOWER_GET) == UPPER_GET != LOWER_GET
  {
    assert forall i :: 0 <= i < 3 ==> TokenByte(LOWER_GET[i]);
    assert LOWER_GET[0] != UPPER_GET[0];
  }

  lemma LowerAccepted(L: Limits)
    requires ValidLimits(L) && L.requestLine >= 14 && L.headerCount >= 2 && L.bodyBytes >= 0
    requires L.headerBytes >= |LowerRequest()|
    ensures var out := LowerRequest(); |out| > 4 && ParseHead(L, out[..|out| - 4]) == Ok(LowerHead())
    ensures Reaches(L, Fresh, LowerRequest(), Fresh, [HeadUnit(LowerHead()), EndUnit([])])
  {
    hide Framable, Token, Terminated, ParseHead, FindDoubleCrlf, Reaches, FramingField, Seen, Values;
    LowerFramable();
    GetTokens();
    HeadDecodes(L, LOWER_GET, ROOT, HOST_A, [97], [], 0, false);
    HeadReaches(L, LowerRequest(), LowerHead());
    assert [HeadUnit(LowerHead())] + [EndUnit([])] == [HeadUnit(LowerHead()), EndUnit([])];
  }

  /** So the request `get /`, which the client-side decoder reads as one request with that method,
      is relayed as one with the method `GET`. */
  lemma LowerCaseMethodChanged(L: Limits, big: Limits, r: Route, expectHandled: bool)
    requires ValidLimits(L) && L.requestLine >= 14 && L.headerCount >= 2 && L.bodyBytes >= 0
    requires L.headerBytes >= |LowerRequest()| && GoodRoute(r)
    ensures LowerHead().requestMethod == LOWER_GET != UPPER_GET
    ensures Reaches(L, Fresh, LowerRequest(), Fresh, [HeadUnit(LowerHead()), EndUnit([])])
    ensures RelayedHead(LowerHead(), r, expectHandled).Ok?
    ensures var out := RelayedHead(LowerHead(), r, expectHandled).value;
            Room(L, big, 14, |out|, 0) ==>
              Reaches(big, Fresh, out, Fresh,
                      [HeadUnit(SeenHead(UPPER_GET, ROOT, OutFields(LowerHead().headers, r, expectHandled), 0, false)),
                        EndUnit([])])
  {
    hide ParseHead, RelayedHead, GoodRoute, Reaches, OutFields, Seen, LowerRequest;
    GetTokens();
    LowerAccepted(L);
    var block := LowerRequest()[..|LowerRequest()| - 4];
    HeadEncodesWhen(L, block, r, expectHandled);
    var out := RelayedHead(LowerHead(), r, expectHandled).value;
    if Room(L, big, 14, |out|, 0) {
      RelayedHeadReaches(L, big, block, r, expectHandled, out, 0);
      var seen := SeenHead(UPPER_GET, ROOT, OutFields(LowerHead().headers, r, expectHandled), 0, false);
      assert [HeadUnit(seen)] + [EndUnit([])] == [HeadUnit(seen), EndUnit([])];
    }
  }
}
