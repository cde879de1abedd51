/** Exactly which head blocks the two decoders accept, and how they frame what follows:
    sections 3, 4, 5 and 6.3 of RFC 9112, as far as the decoders implement them. */
module HeadGrammar {
  import opened Octets
  import opened Numerals
  import opened ChunkLine
  import opened Headers
  import RT = RequestTransparency
  import S = ServerCodec
  import U = UpstreamCodec

  function Version(http11: bool): bytes {
    if http11 then S.HTTP_11 else S.HTTP_10
  }

  lemma VersionPlain(http11: bool)
    ensures |Version(http11)| == 8 && forall i :: 0 <= i < 8 ==> Version(http11)[i] != 32 && Version(http11)[i] != 9
  {
  }

  // ---------------------------------------------------------------- request line

  /** One token, one origin-form target, one version, single spaces between them. */
  predicate RequestLineOf(L: S.Limits, line: bytes, r: S.RequestLine) {
    && line == r.requestMethod + [32] + r.target + [32] + Version(r.http11) && |line| <= L.requestLine
    && Token(r.requestMethod) && r.target != [] && r.target[0] == 47 && S.SafeTarget(r.target)
  }

  lemma FirstPart(s: bytes)
    requires |SplitByte(s, 32)| > 1
    ensures var m := FindByte(s, 32);
            0 <= m < |s| && s == s[..m] + [32] + s[m + 1..] && SplitByte(s, 32) == [s[..m]] + SplitByte(s[m + 1..], 32)
  {
  }

  lemma ThreeParts(line: bytes)
    requires |SplitByte(line, 32)| == 3
    ensures var p := SplitByte(line, 32); line == p[0] + [32] + p[1] + [32] + p[2]
  {
    hide SplitByte, FindByte;
    FirstPart(line);
    var a, rest := line[..FindByte(line, 32)], line[FindByte(line, 32) + 1..];
    FirstPart(rest);
    var b, last := rest[..FindByte(rest, 32)], rest[FindByte(rest, 32) + 1..];
    LastPart(last);
    assert SplitByte(line, 32) == [a] + ([b] + [last]) == [a, b, last];
    assert a + [32] + (b + [32] + last) == a + [32] + b + [32] + last;
  }

  lemma LastPart(s: bytes)
    requires |SplitByte(s, 32)| == 1
    ensures SplitByte(s, 32) == [s]
  {
  }

  lemma PartsOf(m: bytes, target: bytes, version: bytes)
    requires forall i :: 0 <= i < |m| ==> m[i] != 32
    requires forall i :: 0 <= i < |target| ==> target[i] != 32
    requires forall i :: 0 <= i < |version| ==> version[i] != 32
    ensures SplitByte(m + [32] + target + [32] + version, 32) == [m, target, version]
  {
    hide SplitByte;
    assert m + [32] + target + [32] + version == m + [32] + (target + [32] + version);
    RT.SplitAt(m, target + [32] + version, 32);
    RT.SplitAt(target, version, 32);
    RT.SplitAt(version, [], 32);
    assert [m] + ([target] + [version]) == [m, target, version];
  }

  lemma NoTab(r: S.RequestLine, line: bytes)
    requires line == r.requestMethod + [32] + r.target + [32] + Version(r.http11)
    requires Token(r.requestMethod) && S.SafeTarget(r.target)
    ensures 9 !in line
  {
    hide Token, Version;
    RT.TokenPlain(r.requestMethod);
    VersionPlain(r.http11);
    var m, t := |r.requestMethod|, |r.target|;
    forall i | 0 <= i < |line| ensures line[i] != 9 {
      if i < m {
        assert line[i] == r.requestMethod[i];
      } else if m < i < m + 1 + t {
        assert line[i] == r.target[i - m - 1];
      } else if i > m + 1 + t {
        assert line[i] == Version(r.http11)[i - m - t - 2];
      }
    }
  }

  lemma RequestLineGrammar(L: S.Limits, line: bytes, r: S.RequestLine)
    ensures S.ParseRequestLine(L, line) == Ok(r) <==> RequestLineOf(L, line, r)
  {
    hide Token, SplitByte, S.SafeTarget;
    if S.ParseRequestLine(L, line) == Ok(r) {
      ThreeParts(line);
    }
    if RequestLineOf(L, line, r) {
      RT.TokenPlain(r.requestMethod);
      VersionPlain(r.http11);
      PlainTarget(r.target);
      PartsOf(r.requestMethod, r.target, Version(r.http11));
      NoTab(r, line);
    }
  }

  lemma PlainTarget(target: bytes)
    requires S.SafeTarget(target)
    ensures forall i :: 0 <= i < |target| ==> target[i] != 32
  {
  }

  // ---------------------------------------------------------------- status line

  /** A version, three digits, and a reason phrase whose space may be missing when it is empty. */
  ghost predicate StatusLineOf(line: bytes, s: U.StatusLine) {
    exists digits: bytes ::
      && |digits| == 3 && Digits(digits) && DecimalValue(digits) == s.status >= 100 && CleanValue(s.reason)
      && (line == Version(s.http11) + [32] + digits + [32] + s.reason
          || (s.reason == [] && line == Version(s.http11) + [32] + digits))
  }

  lemma StatusLineGrammar(line: bytes, s: U.StatusLine)
    ensures U.ParseStatusLine(line) == Ok(s) <==> StatusLineOf(line, s)
  {
    if U.ParseStatusLine(line) == Ok(s) {
      ParsedStatusLine(line, s);
    }
    if StatusLineOf(line, s) {
      StatusLineParses(line, s);
    }
  }

  /** What an accepted status line is cut into. */
  lemma StatusParts(line: bytes, s: U.StatusLine) returns (rest: bytes, digits: bytes)
    requires U.ParseStatusLine(line) == Ok(s)
    ensures line == Version(s.http11) + [32] + rest
    ensures |digits| == 3 && Digits(digits) && DecimalValue(digits) == s.status >= 100 && CleanValue(s.reason)
    ensures rest == digits + [32] + s.reason || (s.reason == [] && rest == digits)
  {
    hide CleanValue, Digits, DecimalValue;
    var a := FindByte(line, 32);
    rest := line[a + 1..];
    var b := FindByte(rest, 32);
    digits := if b < 0 then rest else rest[..b];
    CutAt(line, a);
    if b >= 0 {
      CutAt(rest, b);
    }
  }

  lemma ParsedStatusLine(line: bytes, s: U.StatusLine)
    requires U.ParseStatusLine(line) == Ok(s)
    ensures StatusLineOf(line, s)
  {
    hide *;
    var rest, digits := StatusParts(line, s);
    var v := Version(s.http11);
    assert v + [32] + (digits + [32] + s.reason) == v + [32] + digits + [32] + s.reason;
    OneStatusLine(line, s, digits);
  }

  lemma CutAt(s: bytes, i: int)
    requires 0 <= i < |s| && s[i] == 32
    ensures s == s[..i] + [32] + s[i + 1..]
  {
  }

  lemma OneStatusLine(line: bytes, s: U.StatusLine, digits: bytes)
    requires |digits| == 3 && Digits(digits) && DecimalValue(digits) == s.status >= 100 && CleanValue(s.reason)
    requires line == Version(s.http11) + [32] + digits + [32] + s.reason
             || (s.reason == [] && line == Version(s.http11) + [32] + digits)
    ensures StatusLineOf(line, s)
  {
  }

  lemma StatusLineParses(line: bytes, s: U.StatusLine)
    requires StatusLineOf(line, s)
    ensures U.ParseStatusLine(line) == Ok(s)
  {
    hide CleanValue, DecimalValue;
    var digits: bytes :|
      && |digits| == 3 && Digits(digits) && DecimalValue(digits) == s.status >= 100 && CleanValue(s.reason)
      && (line == Version(s.http11) + [32] + digits + [32] + s.reason
          || (s.reason == [] && line == Version(s.http11) + [32] + digits));
    var short := line == Version(s.http11) + [32] + digits;
    var rest := if short then digits else digits + [32] + s.reason;
    assert line == Version(s.http11) + [32] + rest;
    AfterVersion(s.http11, rest);
    AfterDigits(digits, s.reason);
  }

  lemma AfterVersion(http11: bool, rest: bytes)
    ensures var line := Version(http11) + [32] + rest;
            FindByte(line, 32) == 8 && line[..8] == Version(http11) && line[9..] == rest
  {
    VersionPlain(http11);
    var line := Version(http11) + [32] + rest;
    assert forall i :: 0 <= i < 8 ==> line[i] == Version(http11)[i];
    assert line[8] == 32;
  }

  lemma AfterDigits(digits: bytes, reason: bytes)
    requires |digits| == 3 && Digits(digits)
    ensures FindByte(digits, 32) == -1
    ensures var rest := digits + [32] + reason;
            FindByte(rest, 32) == 3 && rest[..3] == digits && rest[4..] == reason
  {
    var rest := digits + [32] + reason;
    assert Digit(digits[0]) && Digit(digits[1]) && Digit(digits[2]);
    assert forall i :: 0 <= i < 3 ==> rest[i] == digits[i];
    assert rest[3] == 32;
  }

  // ---------------------------------------------------------------- field lines

  /** A token, a colon and a value without control bytes; the name is lower-cased and the value
      loses its outer blanks. A line that starts with a blank is none. */
  ghost predicate FieldOf(line: bytes, h: Header) {
    exists name: bytes, value: bytes ::
      line == name + [58] + value && Token(name) && CleanValue(value) && h == Header(Lower(name), Strip(value, Blank))
  }

  /** Field lines in order, blank lines among them ignored. */
  ghost predicate FieldsOf(lines: seq<bytes>, hs: seq<Header>) {
    if lines == [] then hs == []
    else if lines[0] == [] then FieldsOf(lines[1..], hs)
    else hs != [] && FieldOf(lines[0], hs[0]) && FieldsOf(lines[1..], hs[1..])
  }

  lemma FieldGrammar(line: bytes, h: Header)
    requires line != []
    ensures ParseField(line) == Ok(h) <==> FieldOf(line, h)
  {
    hide Lower, Strip, CleanValue;
    if ParseField(line) == Ok(h) {
      var colon := FindByte(line, 58);
      assert line == line[..colon] + [58] + line[colon + 1..];
    }
    if FieldOf(line, h) {
      var name: bytes, value: bytes :|
        line == name + [58] + value && Token(name) && CleanValue(value)
          && h == Header(Lower(name), Strip(value, Blank));
      FieldParses(line, name, value);
    }
  }

  lemma FieldParses(line: bytes, name: bytes, value: bytes)
    requires line == name + [58] + value && Token(name) && CleanValue(value)
    ensures line != [] && ParseField(line) == Ok(Header(Lower(name), Strip(value, Blank)))
  {
    hide Lower, Strip, CleanValue;
    forall i | 0 <= i < |name| ensures line[i] == name[i] && line[i] != 58 && line[i] != 32 && line[i] != 9 {
      assert TokenByte(name[i]);
    }
    assert line[|name|] == 58 && FindByte(line, 58) == |name|;
    assert line[..|name|] == name && line[|name| + 1..] == value;
  }

  lemma {:induction false} FieldsGrammar(lines: seq<bytes>, max: int, have: nat, hs: seq<Header>)
    ensures ParseFields(lines, max, have) == Ok(hs) <==> FieldsOf(lines, hs) && (hs == [] || have + |hs| <= max)
    decreases |lines|
  {
    hide ParseField, FieldOf;
    if lines == [] {
    } else if lines[0] == [] {
      FieldsGrammar(lines[1..], max, have, hs);
    } else {
      if ParseFields(lines, max, have) == Ok(hs) {
        var rest := ParseFields(lines[1..], max, have + 1).value;
        FieldsGrammar(lines[1..], max, have + 1, rest);
        FieldGrammar(lines[0], hs[0]);
        assert hs[1..] == rest;
      }
      if FieldsOf(lines, hs) && have + |hs| <= max {
        FieldGrammar(lines[0], hs[0]);
        FieldsGrammar(lines[1..], max, have + 1, hs[1..]);
        assert [hs[0]] + hs[1..] == hs;
      }
    }
  }

  // ---------------------------------------------------------------- framing

  /** One number, one final chunked coding, or nothing: never two of them. -1 stands for no length. */
  predicate FramedBy(hs: seq<Header>, maxBody: int, contentLength: int, chunked: bool) {
    var lengths, encodings := Values(hs, CONTENT_LENGTH), Values(hs, TRANSFER_ENCODING);
    if chunked then contentLength == -1 && lengths == [] && encodings != [] && Codings(encodings) == [CHUNKED]
    else
      && encodings == []
      && if lengths == [] then contentLength == -1
         else
           && |lengths| == 1 && lengths[0] != [] && Digits(lengths[0])
           && contentLength == DecimalValue(lengths[0]) <= maxBody
  }

  lemma NoComma(s: bytes)
    requires Digits(s)
    ensures 44 !in s
  {
    forall i | 0 <= i < |s| ensures s[i] != 44 {
      assert Digit(s[i]);
    }
  }

  lemma RequestFraming(hs: seq<Header>, maxBody: int, n: int, chunked: bool)
    ensures S.ParseFraming(hs, maxBody) == Ok(S.Framing(n, chunked)) <==> FramedBy(hs, maxBody, n, chunked)
  {
    hide Values, Codings, DecimalValue;
    var lengths := Values(hs, CONTENT_LENGTH);
    if |lengths| == 1 && Digits(lengths[0]) {
      NoComma(lengths[0]);
    }
  }

  lemma ResponseFraming(hs: seq<Header>, maxBody: int, n: int, chunked: bool)
    ensures U.ParseFraming(hs, maxBody) == Ok(U.Framing(n, chunked)) <==> FramedBy(hs, maxBody, n, chunked)
  {
    hide Values, Codings, DecimalValue;
    var lengths := Values(hs, CONTENT_LENGTH);
    if |lengths| == 1 && Digits(lengths[0]) {
      NoComma(lengths[0]);
    }
  }

  /** One decimal Content-Length. */
  predicate OneLength(hs: seq<Header>) {
    var lengths := Values(hs, CONTENT_LENGTH);
    |lengths| == 1 && lengths[0] != [] && Digits(lengths[0])
  }

  /** Which fields the request decoder refuses to frame by, and with which error. */
  predicate Unframed(hs: seq<Header>, maxBody: int, e: S.RequestError) {
    var lengths, encodings := Values(hs, CONTENT_LENGTH), Values(hs, TRANSFER_ENCODING);
    match e
    case AmbiguousLength => |lengths| > 1 || (|lengths| == 1 && 44 in lengths[0])
    case BadContentLength => |lengths| == 1 && 44 !in lengths[0] && !OneLength(hs)
    case BodyTooLarge => OneLength(hs) && DecimalValue(lengths[0]) > maxBody
    case AmbiguousFraming => OneLength(hs) && DecimalValue(lengths[0]) <= maxBody && encodings != []
    case UnsupportedTransferCoding => lengths == [] && encodings != [] && Codings(encodings) != [CHUNKED]
    case _ => false
  }

  lemma FramingRefused(hs: seq<Header>, maxBody: int, e: S.RequestError)
    ensures S.ParseFraming(hs, maxBody) == Err(e) <==> Unframed(hs, maxBody, e)
  {
    hide Values, Codings, DecimalValue;
    var lengths := Values(hs, CONTENT_LENGTH);
    if |lengths| == 1 && Digits(lengths[0]) {
      NoComma(lengths[0]);
    }
  }

  lemma SameTooLarge(hs: seq<Header>, maxBody: int)
    ensures S.ParseFraming(hs, maxBody) == Err(S.BodyTooLarge) <==> U.ParseFraming(hs, maxBody) == Err(U.BodyTooLarge)
  {
    hide Values, Codings, DecimalValue;
  }

  /** Both decoders read the same framing from the same fields, or both refuse them, and they
      find the same bodies too large. */
  lemma DecodersAgree(hs: seq<Header>, maxBody: int)
    ensures S.ParseFraming(hs, maxBody) == Err(S.BodyTooLarge) <==> U.ParseFraming(hs, maxBody) == Err(U.BodyTooLarge)
    ensures S.ParseFraming(hs, maxBody).Ok? == U.ParseFraming(hs, maxBody).Ok?
    ensures S.ParseFraming(hs, maxBody).Ok? ==>
              var a, b := S.ParseFraming(hs, maxBody).value, U.ParseFraming(hs, maxBody).value;
              a.contentLength == b.contentLength && a.chunked == b.chunked
  {
    hide S.ParseFraming, U.ParseFraming, FramedBy;
    SameTooLarge(hs, maxBody);
    if S.ParseFraming(hs, maxBody).Ok? {
      var f := S.ParseFraming(hs, maxBody).value;
      RequestFraming(hs, maxBody, f.contentLength, f.chunked);
      ResponseFraming(hs, maxBody, f.contentLength, f.chunked);
    }
    if U.ParseFraming(hs, maxBody).Ok? {
      var f := U.ParseFraming(hs, maxBody).value;
      RequestFraming(hs, maxBody, f.contentLength, f.chunked);
      ResponseFraming(hs, maxBody, f.contentLength, f.chunked);
    }
  }

  // ---------------------------------------------------------------- whole heads

  ghost predicate RequestHeadOf(L: S.Limits, block: bytes, h: S.RequestHead) {
    var lines := SplitCrlf(block);
    && RequestLineOf(L, lines[0], S.RequestLine(h.requestMethod, h.target, h.http11))
    && FieldsOf(lines[1..], h.headers) && (h.headers == [] || |h.headers| <= L.headerCount)
    && |Values(h.headers, HOST)| <= 1 && (h.http11 ==> |Values(h.headers, HOST)| == 1)
    && (FramedBy(h.headers, L.bodyBytes, h.contentLength, h.chunked)
        || (h.contentLength == 0 && FramedBy(h.headers, L.bodyBytes, -1, h.chunked) && !h.chunked))
    && (h.contentLength == -1 ==> h.chunked)
    && h.expectContinue == (Values(h.headers, EXPECT) != [])
    && (h.expectContinue ==> Codings(Values(h.headers, EXPECT)) == [CONTINUE_100])
    && h.keepAlive == KeepsAlive(h.http11, h.headers)
  }

  /** A block is the head of a request if and only if it derives from this grammar, with one
      Host for HTTP/1.1, one framing, and no expectation but 100-continue. */
  lemma RequestHeadGrammar(L: S.Limits, block: bytes, h: S.RequestHead)
    ensures S.ParseHead(L, block) == Ok(h) <==> RequestHeadOf(L, block, h)
  {
    hide S.ParseRequestLine, ParseFields, S.ParseFraming, Values, Codings, RequestLineOf, FieldsOf, FramedBy, SplitCrlf;
    var lines := SplitCrlf(block);
    RequestLineGrammar(L, lines[0], S.RequestLine(h.requestMethod, h.target, h.http11));
    FieldsGrammar(lines[1..], L.headerCount, 0, h.headers);
    RequestFraming(h.headers, L.bodyBytes, h.contentLength, h.chunked);
    RequestFraming(h.headers, L.bodyBytes, -1, h.chunked);
    LengthRange(h.headers, L.bodyBytes);
  }

  lemma LengthRange(hs: seq<Header>, maxBody: int)
    ensures S.ParseFraming(hs, maxBody).Ok? ==>
              var f := S.ParseFraming(hs, maxBody).value; f.contentLength >= -1 && (f.chunked ==> f.contentLength == -1)
  {
  }

  ghost predicate ResponseHeadOf(L: U.Limits, block: bytes, h: U.ResponseHead) {
    var lines := SplitCrlf(block);
    && StatusLineOf(lines[0], U.StatusLine(h.http11, h.status, h.reason)) && h.status != 101
    && FieldsOf(lines[1..], h.headers) && (h.headers == [] || |h.headers| <= L.headerCount)
    && FramedBy(h.headers, L.bodyBytes, h.contentLength, h.chunked)
    && h.informational == (h.status < 200)
    && h.bodyExpected == !(L.requestMethod == U.HEAD_METHOD || h.status < 200 || h.status == 204 || h.status == 304)
    && h.keepAlive == (KeepsAlive(h.http11, h.headers) && !(h.bodyExpected && h.contentLength == -1 && !h.chunked))
  }

  lemma ResponseHeadGrammar(L: U.Limits, block: bytes, h: U.ResponseHead)
    ensures U.ParseHead(L, block) == Ok(h) <==> ResponseHeadOf(L, block, h)
  {
    hide U.ParseStatusLine, ParseFields, U.ParseFraming, Values, Codings, StatusLineOf, FieldsOf, SplitCrlf;
    var lines := SplitCrlf(block);
    StatusLineGrammar(lines[0], U.StatusLine(h.http11, h.status, h.reason));
    if StatusLineOf(lines[0], U.StatusLine(h.http11, h.status, h.reason)) {
      StatusFrom100(lines[0], U.StatusLine(h.http11, h.status, h.reason));
    }
    FieldsGrammar(lines[1..], L.headerCount, 0, h.headers);
    ResponseFraming(h.headers, L.bodyBytes, h.contentLength, h.chunked);
  }

  lemma StatusFrom100(line: bytes, s: U.StatusLine)
    requires StatusLineOf(line, s)
    ensures s.status >= 100
  {
  }

  // ---------------------------------------------------------------- where lines and blocks end

  predicate FirstLineEnd(s: bytes, m: nat) {
    CrlfAt(s, m) && forall j :: 0 <= j < m ==> !CrlfAt(s, j)
  }

  predicate FirstEmptyLine(s: bytes, m: nat) {
    DoubleCrlfAt(s, m) && forall j :: 0 <= j < m ==> !DoubleCrlfAt(s, j)
  }

  ghost predicate LineOfSize(line: bytes, n: nat) {
    exists digits, es :: Derives(line, digits, es) && HexValue(digits) == n
  }

  lemma FirstLineIs(s: bytes, m: nat)
    ensures FirstLineEnd(s, m) <==> FindCrlf(s) == m
  {
  }

  lemma FirstEmptyIs(s: bytes, m: nat)
    ensures FirstEmptyLine(s, m) <==> FindDoubleCrlf(s) == m
  {
  }

  lemma LineOfSizeIs(line: bytes, n: nat)
    ensures LineOfSize(line, n) <==> ParseLine(line) == Ok(n)
  {
    hide Derives, ParseLine, HexValue;
    LineGrammar(line, n);
  }

  // ---------------------------------------------------------------- bodies that are too large

  predicate HostsFit(http11: bool, hs: seq<Header>) {
    |Values(hs, HOST)| <= 1 && (http11 ==> |Values(hs, HOST)| == 1)
  }

  /** The block is a request's head up to its framing, and declares more bytes than allowed. */
  ghost predicate DeclaresTooMuch(L: S.Limits, block: bytes, r: S.RequestLine, hs: seq<Header>) {
    && RequestLineOf(L, SplitCrlf(block)[0], r)
    && FieldsOf(SplitCrlf(block)[1..], hs) && (hs == [] || |hs| <= L.headerCount) && HostsFit(r.http11, hs)
    && Unframed(hs, L.bodyBytes, S.BodyTooLarge)
  }

  lemma HeadTooLarge(L: S.Limits, block: bytes)
    ensures S.ParseHead(L, block) == Err(S.BodyTooLarge) <==> exists r, hs :: DeclaresTooMuch(L, block, r, hs)
  {
    hide S.ParseRequestLine, ParseFields, S.ParseFraming, Values, Codings, RequestLineOf, FieldsOf, Unframed, SplitCrlf;
    var lines := SplitCrlf(block);
    if S.ParseHead(L, block) == Err(S.BodyTooLarge) {
      LineErrors(L, lines[0]);
      var r := S.ParseRequestLine(L, lines[0]).value;
      var hs := ParseFields(lines[1..], L.headerCount, 0).value;
      RequestLineGrammar(L, lines[0], r);
      FieldsGrammar(lines[1..], L.headerCount, 0, hs);
      FramingRefused(hs, L.bodyBytes, S.BodyTooLarge);
      assert DeclaresTooMuch(L, block, r, hs);
    }
    if r, hs :| DeclaresTooMuch(L, block, r, hs) {
      RequestLineGrammar(L, lines[0], r);
      FieldsGrammar(lines[1..], L.headerCount, 0, hs);
      FramingRefused(hs, L.bodyBytes, S.BodyTooLarge);
    }
  }

  lemma LineErrors(L: S.Limits, line: bytes)
    ensures S.ParseRequestLine(L, line) != Err(S.BodyTooLarge)
  {
  }

  /** The chunk-size line at the front of the buffer, of `m` bytes, announces a chunk that is
      allowed by itself but takes the body over the limit. */
  ghost predicate ChunkTooMuch(L: S.Limits, c: S.Codec, m: nat, digits: bytes, es: seq<Extension>) {
    && CrlfAt(c.buffer, m) && m <= 128 && Derives(c.buffer[..m], digits, es)
    && HexValue(digits) <= L.chunkBytes && c.received + HexValue(digits) > L.bodyBytes
  }

  ghost predicate HeadTooMuch(L: S.Limits, c: S.Codec) {
    var m := FindDoubleCrlf(c.buffer);
    0 <= m <= L.headerBytes - 4 && exists r, hs :: DeclaresTooMuch(L, c.buffer[..m], r, hs)
  }

  ghost predicate ChunkGoesBeyond(L: S.Limits, c: S.Codec) {
    var m := FindCrlf(c.buffer);
    m >= 0 && exists digits, es :: ChunkTooMuch(L, c, m, digits, es)
  }

  predicate FoundTooLarge(r: S.StepResult) {
    r.Fail? && r.error == S.BodyTooLarge
  }

  lemma HeadStepTooLarge(L: S.Limits, c: S.Codec)
    ensures FoundTooLarge(S.StepHead(L, c)) <==> HeadTooMuch(L, c)
  {
    hide S.ParseHead, DeclaresTooMuch;
    var m := FindDoubleCrlf(c.buffer);
    if m >= 0 {
      HeadTooLarge(L, c.buffer[..m]);
    }
  }

  lemma ChunkStepTooLarge(L: S.Limits, c: S.Codec)
    ensures FoundTooLarge(S.StepChunkSize(L, c)) <==> ChunkGoesBeyond(L, c)
  {
    hide ParseLine, Derives, HexValue;
    var m := FindCrlf(c.buffer);
    if m >= 0 {
      var line := c.buffer[..m];
      if ParseLine(line).Ok? {
        LineGrammar(line, ParseLine(line).value);
        var digits, es :| Derives(line, digits, es) && HexValue(digits) == ParseLine(line).value;
        assert FoundTooLarge(S.StepChunkSize(L, c)) ==> ChunkTooMuch(L, c, m, digits, es);
      }
      forall digits, es | Derives(line, digits, es) ensures ParseLine(line) == Ok(HexValue(digits)) {
        LineGrammar(line, HexValue(digits));
      }
    }
  }

  lemma OtherStepsFine(L: S.Limits, c: S.Codec)
    ensures !FoundTooLarge(S.StepFixed(c)) && !FoundTooLarge(S.StepChunkData(c)) && !FoundTooLarge(S.StepTrailers(L, c))
  {
  }

  /** When a request is refused because its body is too large: a head that declares it, or a
      chunk that goes beyond the limit. */
  lemma BodyTooLargeWhen(L: S.Limits, c: S.Codec)
    requires S.Wf(c)
    ensures FoundTooLarge(S.Step(L, c)) <==>
            (c.phase == S.InHead && HeadTooMuch(L, c)) || (c.phase == S.ChunkSize && ChunkGoesBeyond(L, c))
  {
    hide S.StepHead, S.StepFixed, S.StepChunkSize, S.StepChunkData, S.StepTrailers, HeadTooMuch, ChunkGoesBeyond;
    HeadStepTooLarge(L, c);
    ChunkStepTooLarge(L, c);
    OtherStepsFine(L, c);
  }

  // ---------------------------------------------------------------- trailer sections

  predicate Unrouted(hs: seq<Header>) {
    Values(hs, CONTENT_LENGTH) == [] && Values(hs, TRANSFER_ENCODING) == []
  }

  /** A request's trailer section is fields that neither frame nor name the host. */
  lemma RequestTrailersGrammar(L: S.Limits, block: bytes, ts: seq<Header>)
    ensures S.ParseTrailers(L, block) == Ok(ts) <==>
            && FieldsOf(SplitCrlf(block), ts) && (ts == [] || |ts| <= L.headerCount)
            && Unrouted(ts) && Values(ts, HOST) == []
  {
    hide ParseFields, Values, FieldsOf, SplitCrlf;
    FieldsGrammar(SplitCrlf(block), L.headerCount, 0, ts);
  }

  /** A response's is fields that do not frame, and is handed on without hop-by-hop fields. */
  lemma ResponseTrailersGrammar(L: U.Limits, block: bytes, ts: seq<Header>)
    ensures U.ParseTrailers(L, block) == Ok(ts) <==>
            exists raw: seq<Header> ::
              FieldsOf(SplitCrlf(block), raw) && (raw == [] || |raw| <= L.headerCount) && Unrouted(raw)
                && ts == Sanitize(raw)
  {
    hide ParseFields, Values, FieldsOf, SplitCrlf, Sanitize;
    var lines := SplitCrlf(block);
    if ParseFields(lines, L.headerCount, 0).Ok? {
      FieldsGrammar(lines, L.headerCount, 0, ParseFields(lines, L.headerCount, 0).value);
    }
    forall raw: seq<Header> | FieldsOf(lines, raw) && (raw == [] || |raw| <= L.headerCount)
      ensures ParseFields(lines, L.headerCount, 0) == Ok(raw)
    {
      FieldsGrammar(lines, L.headerCount, 0, raw);
    }
  }
}
