/** Relaying a response: events decoded from the upstream are encoded again for the client.
    The main result is that the client, decoding with the same decoder, sees the response
    the upstream sent. */
module ResponseRelay {
  import opened Octets
  import opened Numerals
  import opened ChunkLine
  import opened Headers
  import opened UpstreamCodec
  import opened UpstreamFragments
  import opened ResponseEncoder

  // ---------------------------------------------------------------- what the relay writes

  /** The response side of an exchange. */
  datatype Side = Side(
    requestMethod: bytes, continueHandled: bool,
    committed: bool, status: nat, keepAlive: bool, chunked: bool, finished: bool)

  function NewSide(requestMethod: bytes, continueHandled: bool): Side {
    Side(requestMethod, continueHandled, false, 0, false, false, false)
  }

  function WithoutFraming(hs: seq<Header>): (r: seq<Header>)
    ensures |r| <= |hs|
  {
    if hs == [] then []
    else
      var lower := Lower(hs[0].name);
      (if lower == CONTENT_LENGTH || lower == TRANSFER_ENCODING then [] else [hs[0]]) + WithoutFraming(hs[1..])
  }

  function OutHeaders(hs: seq<Header>): (r: seq<Header>)
    ensures |r| <= |hs|
  {
    WithoutFraming(Sanitize(hs))
  }

  predicate OutChunked(h: ResponseHead) {
    h.bodyExpected && h.contentLength < 0
  }

  /** The Content-Length the relay declares, -1 for none. */
  function OutLength(requestMethod: bytes, h: ResponseHead): int {
    if h.informational || OutChunked(h) then -1
    else if !h.bodyExpected && requestMethod != HEAD_METHOD && h.status != 304 then -1
    else h.contentLength
  }

  predicate Suppressed(s: Side, h: ResponseHead) {
    h.informational && h.status == 100 && s.continueHandled
  }

  datatype Relayed = Relayed(side: Side, output: bytes)

  type RelayResult = Result<Relayed, EncodeError>

  function RelayHead(s: Side, h: ResponseHead): RelayResult {
    if Suppressed(s, h) then Ok(Relayed(s, []))
    else
      var chunked := !h.informational && OutChunked(h);
      match HeadBytes(h.status, OutHeaders(h.headers), OutLength(s.requestMethod, h), chunked, true)
      case Err(e) => Err(e)
      case Ok(output) =>
        Ok(Relayed(if h.informational then s
                   else s.(committed := true, status := h.status, keepAlive := h.keepAlive, chunked := chunked),
                   output))
  }

  function RelayEnd(s: Side, trailers: seq<Header>): RelayResult {
    if !s.chunked then Ok(Relayed(s.(finished := true), []))
    else
      match EndBytes(trailers)
      case Err(e) => Err(e)
      case Ok(output) => Ok(Relayed(s.(finished := true), output))
  }

  /** What one decoded event adds to the client's side. */
  function RelayEvent(s: Side, e: Event): RelayResult {
    match e
    case HeadEvent(h) => RelayHead(s, h)
    case BodyEvent(data) => Ok(Relayed(s, if s.chunked then ChunkBytes(data) else data))
    case EndEvent(trailers) => RelayEnd(s, trailers)
  }

  function Joined(output: bytes, r: RelayResult): RelayResult {
    match r
    case Err(e) => Err(e)
    case Ok(x) => Ok(Relayed(x.side, output + x.output))
  }

  function RelayEvents(s: Side, events: seq<Event>): RelayResult
    decreases |events|
  {
    if events == [] then Ok(Relayed(s, []))
    else
      match RelayEvent(s, events[0])
      case Err(e) => Err(e)
      case Ok(x) => Joined(x.output, RelayEvents(x.side, events[1..]))
  }

  lemma {:induction false} RelayAppend(s: Side, a: seq<Event>, b: seq<Event>)
    ensures RelayEvents(s, a + b) ==
            match RelayEvents(s, a)
            case Err(e) => Err(e)
            case Ok(x) => Joined(x.output, RelayEvents(x.side, b))
    decreases |a|
  {
    hide RelayEvent;
    if a == [] {
      assert a + b == b;
      match RelayEvents(s, b) {
        case Ok(x) => assert [] + x.output == x.output;
        case Err(_) =>
      }
    } else {
      assert (a + b)[1..] == a[1..] + b;
      match RelayEvent(s, a[0]) {
        case Err(_) =>
        case Ok(x) =>
          RelayAppend(x.side, a[1..], b);
          match RelayEvents(x.side, a[1..]) {
            case Err(_) =>
            case Ok(y) => JoinedTwice(x.output, y.output, RelayEvents(y.side, b));
          }
      }
    }
  }

  lemma JoinedTwice(a: bytes, b: bytes, r: RelayResult)
    ensures Joined(a, Joined(b, r)) == Joined(a + b, r)
  {
    if r.Ok? {
      assert a + (b + r.value.output) == a + b + r.value.output;
    }
  }

  // ---------------------------------------------------------------- what the client should see

  function DecodedFraming(contentLength: int, chunked: bool): seq<Header> {
    (if contentLength >= 0 then [Header(CONTENT_LENGTH, Decimal(contentLength))] else []) +
    (if chunked then [Header(TRANSFER_ENCODING, CHUNKED)] else [])
  }

  /** The head the client decodes for an upstream head. */
  function SeenHead(requestMethod: bytes, h: ResponseHead): ResponseHead {
    var length := OutLength(requestMethod, h);
    var chunked := !h.informational && OutChunked(h);
    ResponseHead(h.status, Reason(h.status), true, OutHeaders(h.headers) + DecodedFraming(length, chunked),
                 length, chunked, true, h.informational, h.bodyExpected)
  }

  function Seen(s: Side, e: Event): seq<Unit> {
    match e
    case HeadEvent(h) => if Suppressed(s, h) then [] else [HeadUnit(SeenHead(s.requestMethod, h))]
    case BodyEvent(data) => ByteUnits(data)
    case EndEvent(ts) => [EndUnit(ts)]
  }

  function SeenAll(s: Side, events: seq<Event>): seq<Unit> {
    if events == [] then [] else Seen(s, events[0]) + SeenAll(s, events[1..])
  }

  lemma {:induction false} SeenAppend(s: Side, a: seq<Event>, b: seq<Event>)
    ensures SeenAll(s, a + b) == SeenAll(s, a) + SeenAll(s, b)
  {
    if a == [] {
      assert a + b == b;
    } else {
      assert (a + b)[1..] == a[1..] + b;
      SeenAppend(s, a[1..], b);
    }
  }

  predicate SameRequest(s: Side, t: Side) {
    s.requestMethod == t.requestMethod && s.continueHandled == t.continueHandled
  }

  lemma {:induction false} SeenSame(s: Side, t: Side, events: seq<Event>)
    requires SameRequest(s, t)
    ensures SeenAll(s, events) == SeenAll(t, events)
  {
    if events != [] {
      SeenSame(s, t, events[1..]);
    }
  }

  // ---------------------------------------------------------------- decoded heads

  /** What the decoder guarantees of every head it emits. */
  predicate GoodHead(L: Limits, h: ResponseHead) {
    && 100 <= h.status <= 999 && h.status != 101
    && AllCanonical(h.headers) && |h.headers| <= L.headerCount
    && -1 <= h.contentLength && (h.contentLength >= 0 ==> h.contentLength <= L.bodyBytes)
    && (h.chunked ==> h.contentLength < 0)
    && h.informational == (100 <= h.status < 200)
    && h.bodyExpected == BodyExpected(L.requestMethod, h.status)
  }

  lemma ThreeDigits(s: bytes)
    requires |s| == 3 && Digits(s)
    ensures DecimalValue(s) <= 999
  {
    assert DecimalValue(s[..2][..1][..0]) == 0;
    assert DecimalValue(s[..2][..1]) <= 9;
    assert DecimalValue(s[..2]) <= 99;
  }

  lemma StatusLineRange(line: bytes)
    requires ParseStatusLine(line).Ok?
    ensures 100 <= ParseStatusLine(line).value.status <= 999
  {
    var rest := line[FindByte(line, 32) + 1..];
    var b := FindByte(rest, 32);
    ThreeDigits(if b < 0 then rest else rest[..b]);
  }

  lemma ParsedHeadGood(L: Limits, block: bytes)
    requires ParseHead(L, block).Ok? && L.headerCount >= 0
    ensures GoodHead(L, ParseHead(L, block).value)
  {
    hide ParseStatusLine, ParseFields, Codings, AllCanonical;
    var lines := SplitCrlf(block);
    StatusLineRange(lines[0]);
    ParsedCanonical(lines[1..], L.headerCount, 0);
  }

  // ---------------------------------------------------------------- encoded heads decode

  lemma DecimalStatus(n: nat)
    requires 100 <= n <= 999
    ensures |Decimal(n)| == 3 && DecimalValue(Decimal(n)) == n
  {
    DecimalRoundTrip(n);
    assert |Decimal(n / 10 / 10)| == 1;
    assert |Decimal(n / 10)| == 2;
  }

  lemma StartLineDecodes(status: nat)
    requires 100 <= status <= 999
    ensures CleanLine(StartLine(status))
    ensures ParseStatusLine(StartLine(status)) == Ok(StatusLine(true, status, Reason(status)))
  {
    hide Reason, CleanValue, Digits, Decimal, DecimalValue;
    DecimalStatus(status);
    var digits, reason := Decimal(status), Reason(status);
    var line := StartLine(status);
    assert |VERSION_SP| == 9 && VERSION_SP[8] == 32;
    assert line == VERSION_SP + (digits + [32] + reason);
    VersionBytes();
    assert forall i :: 0 <= i < 9 ==> line[i] == VERSION_SP[i];
    assert FindByte(line, 32) == 8;
    assert line[..8] == HTTP_11;
    var rest := line[9..];
    assert rest == digits + [32] + reason;
    DigitBytes(digits);
    assert forall i :: 0 <= i < 3 ==> rest[i] == digits[i];
    assert rest[3] == 32;
    assert FindByte(rest, 32) == 3;
    assert rest[..3] == digits && rest[4..] == reason;
    ReasonBytes(status);
    forall i | 0 <= i < |line| ensures line[i] != 13 {
      if i >= 13 {
        assert line[i] == reason[i - 13];
      } else if 9 <= i < 12 {
        assert line[i] == digits[i - 9];
      }
    }
  }

  lemma VersionBytes()
    ensures forall i :: 0 <= i < 8 ==> VERSION_SP[i] == HTTP_11[i] && VERSION_SP[i] != 32 && VERSION_SP[i] != 13
    ensures VERSION_SP[..8] == HTTP_11
  {
  }

  lemma DigitBytes(s: bytes)
    requires Digits(s)
    ensures forall i :: 0 <= i < |s| ==> s[i] != 32 && s[i] != 13 && s[i] != 44
  {
    forall i | 0 <= i < |s| ensures s[i] != 32 && s[i] != 13 && s[i] != 44 {
      assert Digit(s[i]);
    }
  }

  lemma ReasonBytes(status: nat)
    ensures forall i :: 0 <= i < |Reason(status)| ==> Reason(status)[i] != 13
    ensures CleanValue(Reason(status))
  {
    hide ReasonBelow400, ReasonRequestError, ReasonRequestLimit, ReasonServerError;
    var r := Reason(status);
    forall i | 0 <= i < |r| ensures r[i] != 13 {
      assert !BadValueByte(r[i]);
    }
  }

  /** No header of the list is named like a framing field. */
  predicate Unframed(hs: seq<Header>) {
    forall i :: 0 <= i < |hs| ==> !FramingName(hs[i].name)
  }

  lemma {:induction false} UnframedAccepted(hs: seq<Header>)
    requires AllCanonical(hs) && Unframed(hs)
    ensures HeadRefusal(hs) == None
  {
    if hs != [] {
      assert Canonical(hs[0]);
      UnframedAccepted(hs[1..]);
    }
  }

  lemma {:induction false} WithoutFramingProperties(hs: seq<Header>)
    requires AllCanonical(hs)
    requires forall i :: 0 <= i < |hs| ==> !HopByHop(hs[i].name)
    ensures AllCanonical(WithoutFraming(hs)) && Unframed(WithoutFraming(hs))
  {
    hide Canonical;
    if hs != [] {
      WithoutFramingProperties(hs[1..]);
      assert Lower(hs[0].name) == hs[0].name by { CanonicalLower(hs[0]); }
    }
  }

  lemma {:induction false} WithoutFramingValues(hs: seq<Header>, name: bytes)
    requires AllCanonical(hs)
    ensures Values(WithoutFraming(hs), name) ==
            if name == CONTENT_LENGTH || name == TRANSFER_ENCODING then [] else Values(hs, name)
  {
    if hs != [] {
      assert Canonical(hs[0]);
      WithoutFramingValues(hs[1..], name);
      var lower := Lower(hs[0].name);
      var first := if lower == CONTENT_LENGTH || lower == TRANSFER_ENCODING then [] else [hs[0]];
      ValuesAppend(first, WithoutFraming(hs[1..]), name);
      if first != [] {
        assert first[1..] == [];
      }
    }
  }

  /** The client's head has the upstream's end-to-end fields, each with all its values in order,
      and no other field but those of the framing. */
  ghost predicate SameFields(seen: seq<Header>, sent: seq<Header>) {
    forall name :: name != CONTENT_LENGTH && name != TRANSFER_ENCODING ==>
      Values(seen, name) == if EndToEnd(sent, name) then Values(sent, name) else []
  }

  lemma SeenFields(requestMethod: bytes, h: ResponseHead)
    requires AllCanonical(h.headers)
    ensures SameFields(SeenHead(requestMethod, h).headers, h.headers)
  {
    hide HopByHop, EndToEnd, Sanitize, WithoutFraming, Decimal, Reason, AllCanonical;
    var length, chunked := OutLength(requestMethod, h), !h.informational && OutChunked(h);
    var extra := DecodedFraming(length, chunked);
    forall name | name != CONTENT_LENGTH && name != TRANSFER_ENCODING
      ensures Values(SeenHead(requestMethod, h).headers, name) ==
              if EndToEnd(h.headers, name) then Values(h.headers, name) else []
    {
      SanitizeIdempotent(h.headers);
      SanitizedValues(h.headers, name);
      WithoutFramingValues(Sanitize(h.headers), name);
      ValuesAppend(OutHeaders(h.headers), extra, name);
      NoOtherFraming(length, chunked, name);
    }
  }

  lemma NoOtherFraming(contentLength: int, chunked: bool, name: bytes)
    requires name != CONTENT_LENGTH && name != TRANSFER_ENCODING
    ensures Values(DecodedFraming(contentLength, chunked), name) == []
  {
    hide Decimal;
    var a := if contentLength >= 0 then [Header(CONTENT_LENGTH, Decimal(contentLength))] else [];
    var b := if chunked then [Header(TRANSFER_ENCODING, CHUNKED)] else [];
    ValuesAppend(a, b, name);
    if a != [] {
      assert a[1..] == [];
    }
    if b != [] {
      assert b[1..] == [];
    }
  }

  lemma CanonicalLower(h: Header)
    requires Canonical(h)
    ensures Lower(h.name) == h.name && Token(h.name) && CleanValue(h.value)
  {
  }

  lemma OutHeadersProperties(hs: seq<Header>)
    requires AllCanonical(hs)
    ensures AllCanonical(OutHeaders(hs)) && Unframed(OutHeaders(hs))
  {
    SanitizeIdempotent(hs);
    WithoutFramingProperties(Sanitize(hs));
  }

  lemma FramingLineDecodes(name: bytes, value: bytes, lower: bytes, max: int, have: nat)
    requires Token(name) && Lower(name) == lower && CleanValue(value)
    requires value != [] && !Blank(value[0]) && !Blank(value[|value| - 1]) && have < max
    ensures ParseFields(FieldLines([Header(name, value)]), max, have) == Ok([Header(lower, value)])
    ensures CleanLine(FieldLine(name, value))
  {
    hide ParseField, Token, CleanValue, Lower, FieldLine;
    FieldRoundTrip(name, value);
    StripStripped(value, Blank);
    var lines := FieldLines([Header(name, value)]);
    assert lines[1..] == [];
    assert [Header(lower, value)] + [] == [Header(lower, value)];
  }

  lemma FramingNames()
    ensures Token(CONTENT_LENGTH_NAME) && Lower(CONTENT_LENGTH_NAME) == CONTENT_LENGTH
    ensures Token(TRANSFER_ENCODING_NAME) && Lower(TRANSFER_ENCODING_NAME) == TRANSFER_ENCODING
  {
  }

  lemma DecimalField(n: nat)
    ensures var s := Decimal(n); CleanValue(s) && !Blank(s[0]) && !Blank(s[|s| - 1]) && 44 !in s
  {
    var s := Decimal(n);
    DigitBytes(s);
    forall i | 0 <= i < |s| ensures !BadValueByte(s[i]) {
      assert Digit(s[i]);
    }
    assert Digit(s[0]) && Digit(s[|s| - 1]);
  }

  lemma ChunkedField()
    ensures CleanValue(CHUNKED) && !Blank(CHUNKED[0]) && !Blank(CHUNKED[|CHUNKED| - 1])
    ensures Token(CHUNKED) && Lower(CHUNKED) == CHUNKED
  {
  }

  lemma FramingFieldsDecode(contentLength: int, chunked: bool, max: int, have: nat)
    requires !(contentLength >= 0 && chunked) && have < max
    ensures var fs := FramingFields(contentLength, chunked, true);
            && ParseFields(FieldLines(fs), max, have) == Ok(DecodedFraming(contentLength, chunked))
            && CleanLines(FieldLines(fs))
  {
    hide Lower, Token, CleanValue, Decimal, FieldLine, CleanLine;
    FramingNames();
    var fs := FramingFields(contentLength, chunked, true);
    if contentLength >= 0 {
      DecimalField(contentLength);
      FramingLineDecodes(CONTENT_LENGTH_NAME, Decimal(contentLength), CONTENT_LENGTH, max, have);
      assert fs == [Header(CONTENT_LENGTH_NAME, Decimal(contentLength))];
      assert DecodedFraming(contentLength, chunked) == [Header(CONTENT_LENGTH, Decimal(contentLength))];
    } else if chunked {
      ChunkedField();
      FramingLineDecodes(TRANSFER_ENCODING_NAME, CHUNKED, TRANSFER_ENCODING, max, have);
      assert fs == [Header(TRANSFER_ENCODING_NAME, CHUNKED)];
      assert DecodedFraming(contentLength, chunked) == [Header(TRANSFER_ENCODING, CHUNKED)];
    } else {
      assert fs == [];
    }
  }

  lemma HeadFieldsDecode(hs: seq<Header>, contentLength: int, chunked: bool, max: int)
    requires AllCanonical(hs) && |hs| < max
    requires !(contentLength >= 0 && chunked)
    ensures var lines := FieldLines(hs + FramingFields(contentLength, chunked, true));
            && CleanLines(lines)
            && ParseFields(lines, max, 0) == Ok(hs + DecodedFraming(contentLength, chunked))
  {
    hide FramingFields, DecodedFraming, ParseFields, AllCanonical, CleanLine;
    var fs := FramingFields(contentLength, chunked, true);
    FieldsRoundTrip(hs, max, 0);
    FramingFieldsDecode(contentLength, chunked, max, |hs|);
    FieldLinesAppend(hs, fs);
    ParseFieldsAppend(FieldLines(hs), FieldLines(fs), max, 0);
  }

  lemma {:induction false} UnframedValues(hs: seq<Header>, name: bytes)
    requires Unframed(hs) && FramingName(name)
    ensures Values(hs, name) == []
  {
    if hs != [] {
      UnframedValues(hs[1..], name);
    }
  }

  lemma NamesDiffer()
    ensures CONTENT_LENGTH != TRANSFER_ENCODING && CONTENT_LENGTH != CONNECTION && TRANSFER_ENCODING != CONNECTION
  {
    assert |CONTENT_LENGTH| == 14 && |TRANSFER_ENCODING| == 17 && |CONNECTION| == 10;
  }

  lemma FramingDecodes(hs: seq<Header>, contentLength: int, chunked: bool, maxBody: int)
    requires Unframed(hs) && -1 <= contentLength && !(contentLength >= 0 && chunked)
    requires contentLength >= 0 ==> contentLength <= maxBody
    ensures var all := hs + DecodedFraming(contentLength, chunked);
            && ParseFraming(all, maxBody) == Ok(Framing(contentLength, chunked))
            && KeepsAlive(true, all)
  {
    hide Codings, Decimal, DecimalValue, Digits, FramingName;
    var extra := DecodedFraming(contentLength, chunked);
    FramingValues(hs, extra, CONTENT_LENGTH);
    FramingValues(hs, extra, TRANSFER_ENCODING);
    FramingValues(hs, extra, CONNECTION);
    NamesDiffer();
    NoTokens();
    if contentLength >= 0 {
      DecimalField(contentLength);
      DecimalRoundTrip(contentLength);
      assert extra == [Header(CONTENT_LENGTH, Decimal(contentLength))];
      OneValue(extra[0]);
    } else if chunked {
      assert extra == [Header(TRANSFER_ENCODING, CHUNKED)];
      OneValue(extra[0]);
      ChunkedField();
      SingleToken(CHUNKED);
    } else {
      assert extra == [];
    }
  }

  lemma NoTokens()
    ensures Codings([]) == []
  {
  }

  lemma OneValue(h: Header)
    ensures forall name :: Values([h], name) == if h.name == name then [h.value] else []
  {
    forall name ensures Values([h], name) == if h.name == name then [h.value] else [] {
      assert [h][1..] == [];
    }
  }

  lemma FramingValues(hs: seq<Header>, extra: seq<Header>, name: bytes)
    requires Unframed(hs) && (name == CONTENT_LENGTH || name == TRANSFER_ENCODING || name == CONNECTION)
    ensures Values(hs + extra, name) == Values(extra, name)
  {
    UnframedValues(hs, name);
    ValuesAppend(hs, extra, name);
  }

  /** An encoded head decodes to the status, fields and framing it was written for. */
  lemma HeadDecodes(L: Limits, status: nat, hs: seq<Header>, contentLength: int, chunked: bool)
    requires 100 <= status <= 999 && status != 101
    requires AllCanonical(hs) && Unframed(hs) && |hs| < L.headerCount
    requires -1 <= contentLength && !(contentLength >= 0 && chunked)
    requires contentLength >= 0 ==> contentLength <= L.bodyBytes
    ensures var out := HeadBytes(status, hs, contentLength, chunked, true);
            && out.Ok? && |out.value| > 4
            && FindDoubleCrlf(out.value) == |out.value| - 4
            && var informational := 100 <= status < 200;
               var body := BodyExpected(L.requestMethod, status);
               ParseHead(L, out.value[..|out.value| - 4]) ==
               Ok(ResponseHead(status, Reason(status), true, hs + DecodedFraming(contentLength, chunked),
                               contentLength, chunked, !(body && contentLength < 0 && !chunked),
                               informational, body))
  {
    hide StartLine, ParseStatusLine, ParseFields, ParseFraming, KeepsAlive, AllCanonical, FieldLines,
         FramingFields, DecodedFraming, CleanLine, Reason, Unframed, HeadRefusal;
    UnframedAccepted(hs);
    StartLineDecodes(status);
    var rest := FieldLines(hs + FramingFields(contentLength, chunked, true));
    HeadFieldsDecode(hs, contentLength, chunked, L.headerCount);
    var lines := [StartLine(status)] + rest;
    assert lines == HeadLines(status, hs, contentLength, chunked, true);
    assert CleanLines(lines);
    var block := Block(lines);
    var out := Terminated(lines) + CRLF;
    TerminatedIsBlock(lines);
    BlockEnd(lines, []);
    assert out == block + CRLF + CRLF + [];
    assert out[..|out| - 4] == block;
    SplitBlock(lines);
    assert lines[1..] == rest;
    FramingDecodes(hs, contentLength, chunked, L.bodyBytes);
  }

  // ---------------------------------------------------------------- heads that close the connection

  lemma CloseField()
    ensures Token(CONNECTION_NAME) && Lower(CONNECTION_NAME) == CONNECTION
    ensures Token(CLOSE) && Lower(CLOSE) == CLOSE && CleanValue(CLOSE)
    ensures !Blank(CLOSE[0]) && !Blank(CLOSE[|CLOSE| - 1])
  {
  }

  lemma ClosingFieldsDecode(hs: seq<Header>, contentLength: int, chunked: bool, max: int)
    requires AllCanonical(hs) && |hs| + 1 < max
    requires !(contentLength >= 0 && chunked)
    ensures var lines := FieldLines(hs + FramingFields(contentLength, chunked, false));
            && CleanLines(lines)
            && ParseFields(lines, max, 0)
               == Ok(hs + DecodedFraming(contentLength, chunked) + [Header(CONNECTION, CLOSE)])
  {
    hide DecodedFraming, ParseFields, AllCanonical, CleanLine, Token, Lower, CleanValue, FieldLine;
    var fs, last := FramingFields(contentLength, chunked, true), [Header(CONNECTION_NAME, CLOSE)];
    assert FramingFields(contentLength, chunked, false) == fs + last;
    assert hs + (fs + last) == hs + fs + last;
    HeadFieldsDecode(hs, contentLength, chunked, max);
    CloseField();
    DecodedLength(contentLength, chunked);
    var have := |hs + DecodedFraming(contentLength, chunked)|;
    FramingLineDecodes(CONNECTION_NAME, CLOSE, CONNECTION, max, have);
    FieldLinesAppend(hs + fs, last);
    ParseFieldsAppend(FieldLines(hs + fs), FieldLines(last), max, 0);
  }

  lemma DecodedLength(contentLength: int, chunked: bool)
    requires !(contentLength >= 0 && chunked)
    ensures |DecodedFraming(contentLength, chunked)| <= 1
  {
  }

  lemma ClosingFramingDecodes(hs: seq<Header>, contentLength: int, chunked: bool, maxBody: int)
    requires Unframed(hs) && -1 <= contentLength && !(contentLength >= 0 && chunked)
    requires contentLength >= 0 ==> contentLength <= maxBody
    ensures var all := hs + DecodedFraming(contentLength, chunked) + [Header(CONNECTION, CLOSE)];
            ParseFraming(all, maxBody) == Ok(Framing(contentLength, chunked)) && !KeepsAlive(true, all)
  {
    hide Codings, Decimal, DecimalValue, Digits, Unframed, Values, DecodedFraming;
    var some, last := hs + DecodedFraming(contentLength, chunked), [Header(CONNECTION, CLOSE)];
    FramingDecodes(hs, contentLength, chunked, maxBody);
    NamesDiffer();
    OneValue(last[0]);
    ValuesAppend(some, last, CONTENT_LENGTH);
    ValuesAppend(some, last, TRANSFER_ENCODING);
    assert Values(some, CONTENT_LENGTH) + [] == Values(some, CONTENT_LENGTH);
    assert Values(some, TRANSFER_ENCODING) + [] == Values(some, TRANSFER_ENCODING);
    assert HasOption(some + last, CONNECTION, CLOSE) by {
      CloseListed();
      assert (some + last)[|some|] == last[0];
    }
    Persistence(true, some + last);
  }

  lemma CloseListed()
    ensures ListsOption(CLOSE, CLOSE)
  {
    CloseField();
    SingleToken(CLOSE);
    ListedOption(CLOSE, CLOSE);
  }

  /** A head encoded for a connection that ends decodes as one, and otherwise in the same way. */
  lemma ClosingHeadDecodes(L: Limits, status: nat, hs: seq<Header>, contentLength: int, chunked: bool)
    requires 100 <= status <= 999 && status != 101
    requires AllCanonical(hs) && Unframed(hs) && |hs| + 1 < L.headerCount
    requires -1 <= contentLength && !(contentLength >= 0 && chunked)
    requires contentLength >= 0 ==> contentLength <= L.bodyBytes
    ensures var out := HeadBytes(status, hs, contentLength, chunked, false);
            && out.Ok? && |out.value| > 4 && FindDoubleCrlf(out.value) == |out.value| - 4
            && ParseHead(L, out.value[..|out.value| - 4]) ==
               Ok(ResponseHead(status, Reason(status), true,
                               hs + DecodedFraming(contentLength, chunked) + [Header(CONNECTION, CLOSE)],
                               contentLength, chunked, false, 100 <= status < 200,
                               BodyExpected(L.requestMethod, status)))
  {
    hide StartLine, ParseStatusLine, ParseFields, ParseFraming, KeepsAlive, AllCanonical, FieldLines,
         FramingFields, DecodedFraming, CleanLine, Reason, Unframed, HeadRefusal;
    UnframedAccepted(hs);
    StartLineDecodes(status);
    var rest := FieldLines(hs + FramingFields(contentLength, chunked, false));
    ClosingFieldsDecode(hs, contentLength, chunked, L.headerCount);
    var lines := [StartLine(status)] + rest;
    assert lines == HeadLines(status, hs, contentLength, chunked, false);
    assert CleanLines(lines);
    var block := Block(lines);
    var out := Terminated(lines) + CRLF;
    TerminatedIsBlock(lines);
    BlockEnd(lines, []);
    assert out == block + CRLF + CRLF + [];
    assert out[..|out| - 4] == block;
    SplitBlock(lines);
    assert lines[1..] == rest;
    ClosingFramingDecodes(hs, contentLength, chunked, L.bodyBytes);
  }

  // ---------------------------------------------------------------- what the encoder refuses and writes

  /** A field the encoder takes from its caller into a head. */
  predicate Writable(h: Header) {
    SafeField(h) && !FramingName(Lower(h.name))
  }

  predicate AllWritable(hs: seq<Header>) {
    forall i :: 0 <= i < |hs| ==> Writable(hs[i])
  }

  lemma {:induction false} WritableAccepted(hs: seq<Header>)
    ensures HeadRefusal(hs) == None <==> AllWritable(hs)
  {
    hide SafeField, FramingName;
    if hs != [] {
      WritableAccepted(hs[1..]);
      assert forall i :: 0 < i < |hs| ==> hs[i] == hs[1..][i - 1];
    }
  }

  /** The first field that cannot be written decides the error. */
  lemma {:induction false} RefusedAt(hs: seq<Header>, i: nat)
    requires i < |hs| && AllWritable(hs[..i]) && !Writable(hs[i])
    ensures HeadRefusal(hs) == Some(if !SafeField(hs[i]) then UnsafeHeader else FramingOwned)
  {
    hide SafeField, FramingName;
    if i > 0 {
      assert hs[..i][0] == hs[0] && hs[1..][..i - 1] == hs[..i][1..];
      RefusedAt(hs[1..], i - 1);
    }
  }

  lemma {:induction false} WritableTrailers(ts: seq<Header>)
    ensures TrailerRefusal(ts) == None <==> AllWritable(ts) && forall i :: 0 <= i < |ts| ==> Lower(ts[i].name) != HOST
  {
    hide SafeField, FramingName;
    if ts != [] {
      WritableTrailers(ts[1..]);
      assert forall i :: 0 < i < |ts| ==> ts[i] == ts[1..][i - 1];
    }
  }

  /** Whatever fields it takes, a head is written as its lines and no others: nothing in a name
      or a value ends a line or the head early. */
  lemma WrittenLines(status: nat, hs: seq<Header>, contentLength: int, chunked: bool, keepAlive: bool)
    requires 100 <= status <= 999 && AllWritable(hs) && !(contentLength >= 0 && chunked)
    ensures var out := HeadBytes(status, hs, contentLength, chunked, keepAlive);
            && out.Ok? && |out.value| > 4 && FindDoubleCrlf(out.value) == |out.value| - 4
            && SplitCrlf(out.value[..|out.value| - 4])
               == [StartLine(status)] + FieldLines(hs) + FieldLines(FramingFields(contentLength, chunked, keepAlive))
  {
    hide StartLine, FieldLine, CleanLine, SafeField, FramingName, HeadRefusal, FramingFields, Terminated;
    WritableAccepted(hs);
    StartLineDecodes(status);
    var fs := FramingFields(contentLength, chunked, keepAlive);
    FieldLinesAppend(hs, fs);
    var lines := [StartLine(status)] + FieldLines(hs) + FieldLines(fs);
    assert lines == HeadLines(status, hs, contentLength, chunked, keepAlive);
    FramingWritable(contentLength, chunked, keepAlive);
    forall i | 0 <= i < |hs| ensures CleanLine(FieldLines(hs)[i]) {
      SafeLine(hs[i]);
    }
    TerminatedBlock(lines);
  }

  lemma SafeLine(h: Header)
    requires SafeField(h)
    ensures CleanLine(FieldLine(h.name, h.value))
  {
    hide Token, CleanValue, FieldLine, CleanLine;
    LineParts(h.name, h.value);
  }

  lemma FramingWritable(contentLength: int, chunked: bool, keepAlive: bool)
    requires !(contentLength >= 0 && chunked)
    ensures CleanLines(FieldLines(FramingFields(contentLength, chunked, keepAlive)))
  {
    hide Token, CleanValue, Lower, Decimal, FieldLine, CleanLine;
    FramingNames();
    CloseField();
    ChunkedField();
    if contentLength >= 0 {
      DecimalField(contentLength);
    }
    var fs := FramingFields(contentLength, chunked, keepAlive);
    forall i | 0 <= i < |fs| ensures CleanLine(FieldLines(fs)[i]) {
      LineParts(fs[i].name, fs[i].value);
    }
  }
}
