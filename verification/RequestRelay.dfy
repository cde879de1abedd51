/** Relaying a request: the head, body and trailers accepted from a client are written for
    the upstream. The main result is that an upstream decoding with the gateway's own
    request decoder reads exactly that one request. */
module RequestRelay {
  import opened Octets
  import opened Numerals
  import opened ChunkLine
  import opened Headers
  import opened ServerCodec
  import opened ServerFragments

  datatype ProxyError =
    | BadRequest | BadTarget | BadUpstream | UnknownFraming | AmbiguousFraming | BadHeader
    | BadTrailer | RequestOverflow | RequestUnderflow

  // ---------------------------------------------------------------- forwarded fields

  predicate ForwardedName(name: bytes) {
    name == FORWARDED_FOR || name == FORWARDED_PROTO || name == FORWARDED_HOST
  }

  predicate KeepForwarded(h: Header, trust: bool) {
    !ForwardedName(h.name) || (trust && h.name == FORWARDED_FOR)
  }

  function KeptForwarded(hs: seq<Header>, trust: bool): seq<Header> {
    if hs == [] then []
    else (if KeepForwarded(hs[0], trust) then [hs[0]] else []) + KeptForwarded(hs[1..], trust)
  }

  /** The last trusted X-Forwarded-For value, empty when there is none. */
  function IncomingFor(hs: seq<Header>, trust: bool): bytes {
    if hs == [] then []
    else if trust && hs[|hs| - 1].name == FORWARDED_FOR then hs[|hs| - 1].value
    else IncomingFor(hs[..|hs| - 1], trust)
  }

  /** Where a request came from and where it goes. */
  datatype Route = Route(authority: bytes, clientIp: bytes, scheme: bytes, originalHost: bytes, trust: bool)

  function Chain(hs: seq<Header>, r: Route): bytes {
    var incoming := IncomingFor(hs, r.trust);
    if incoming == [] then r.clientIp else incoming + [44, 32] + r.clientIp
  }

  /** `forwarded_request_headers(...)`. */
  function Forwarded(hs: seq<Header>, r: Route): seq<Header> {
    var kept := Sanitize(hs);
    KeptForwarded(kept, r.trust) +
    [Header(FORWARDED_FOR, Chain(kept, r)), Header(FORWARDED_PROTO, r.scheme), Header(FORWARDED_HOST, r.originalHost)]
  }

  predicate Skipped(name: bytes, expectHandled: bool) {
    || name == HOST || name == CONTENT_LENGTH || name == TRANSFER_ENCODING
    || (expectHandled && name == EXPECT)
  }

  function NotSkipped(hs: seq<Header>, expectHandled: bool): seq<Header> {
    if hs == [] then []
    else (if Skipped(Lower(hs[0].name), expectHandled) then [] else [hs[0]]) + NotSkipped(hs[1..], expectHandled)
  }

  /** The fields written for the upstream, before the framing field. */
  function OutFields(hs: seq<Header>, r: Route, expectHandled: bool): seq<Header> {
    [Header(HOST, r.authority)] + NotSkipped(Forwarded(hs, r), expectHandled)
  }

  function FramingField(contentLength: int, chunked: bool): Header {
    if chunked || contentLength < 0 then Header(TRANSFER_ENCODING, CHUNKED)
    else Header(CONTENT_LENGTH, Decimal(contentLength))
  }

  predicate SafeFields(hs: seq<Header>) {
    forall i :: 0 <= i < |hs| ==> SafeField(hs[i])
  }

  function RequestLineBytes(requestMethod: bytes, target: bytes): bytes {
    requestMethod + [32] + target + [32] + HTTP_11
  }

  function HeadLines(requestMethod: bytes, target: bytes, fields: seq<Header>): seq<bytes> {
    [RequestLineBytes(requestMethod, target)] + FieldLines(fields)
  }

  /** `encode_proxy_request_head(...)`. */
  function RequestHeadBytes(requestMethod: bytes, target: bytes, hs: seq<Header>, r: Route,
                            contentLength: int, chunked: bool, expectHandled: bool)
    : Result<bytes, ProxyError>
  {
    if !Token(requestMethod) || target == [] then Err(BadRequest)
    else if !SafeTarget(target) then Err(ProxyError.BadTarget)
    else if r.authority == [] then Err(BadUpstream)
    else if contentLength < 0 && !chunked then Err(UnknownFraming)
    else if contentLength >= 0 && chunked then Err(ProxyError.AmbiguousFraming)
    else
      var fields := OutFields(hs, r, expectHandled);
      if !SafeFields(fields) then Err(BadHeader)
      else Ok(Terminated(HeadLines(requestMethod, target, fields + [FramingField(contentLength, chunked)])) + CRLF)
  }

  /** `feed_request_body(data)`: the bytes written for it. */
  function BodyBytesFor(data: bytes, chunked: bool): bytes {
    if chunked && data != [] then Hex(|data|) + CRLF + data + CRLF else data
  }

  predicate FramingTrailer(t: Header) {
    var lower := Lower(t.name);
    lower == CONTENT_LENGTH || lower == TRANSFER_ENCODING || lower == HOST
  }

  function Lowered(hs: seq<Header>): (r: seq<Header>)
    ensures |r| == |hs| && forall i :: 0 <= i < |hs| ==> r[i] == Header(Lower(hs[i].name), hs[i].value)
  {
    seq(|hs|, i requires 0 <= i < |hs| => Header(Lower(hs[i].name), hs[i].value))
  }

  /** `finish_request(trailers)`: the bytes written for it. */
  function EndBytesFor(trailers: seq<Header>, chunked: bool): Result<bytes, ProxyError> {
    var ts := Sanitize(trailers);
    if !chunked then Ok([])
    else if exists i :: 0 <= i < |ts| && FramingTrailer(ts[i]) then Err(BadTrailer)
    else Ok([48] + CRLF + Terminated(FieldLines(Lowered(ts))) + CRLF)
  }

  function UpperByte(b: byte): byte {
    if 97 <= b <= 122 then b - 32 else b
  }

  /** `method.upper()` of a token. */
  function Upper(s: bytes): (r: bytes)
    ensures |r| == |s| && forall i :: 0 <= i < |s| ==> r[i] == UpperByte(s[i])
  {
    seq(|s|, i requires 0 <= i < |s| => UpperByte(s[i]))
  }

  lemma UpperToken(s: bytes)
    requires Token(s)
    ensures Token(Upper(s))
  {
    forall i | 0 <= i < |s| ensures TokenByte(Upper(s)[i]) {
      assert TokenByte(s[i]);
    }
  }

  // ---------------------------------------------------------------- the encoder

  method ForwardHeaders(headers: seq<Header>, r: Route) returns (kept: seq<Header>)
    ensures kept == Forwarded(headers, r)
  {
    hide KeepForwarded, Sanitize;
    var output := SanitizeHopByHop(headers);
    kept := [];
    var incoming: bytes := [];
    assert output[0..] == output && output[..0] == [];
    for k := 0 to |output|
      invariant KeptForwarded(output, r.trust) == kept + KeptForwarded(output[k..], r.trust)
      invariant incoming == IncomingFor(output[..k], r.trust)
    {
      var h := output[k];
      assert output[k..][0] == h && output[k..][1..] == output[k + 1..];
      assert output[..k + 1][..k] == output[..k];
      if r.trust && h.name == FORWARDED_FOR {
        incoming := h.value;
      }
      if KeepForwarded(h, r.trust) {
        kept := kept + [h];
      }
    }
    assert output[..|output|] == output && output[|output|..] == [] && kept + [] == kept;
    var chain := if incoming == [] then r.clientIp else incoming + [44, 32] + r.clientIp;
    kept := kept + [Header(FORWARDED_FOR, chain), Header(FORWARDED_PROTO, r.scheme),
      Header(FORWARDED_HOST, r.originalHost)];
  }

  method EncodeRequestHead(requestMethod: bytes, target: bytes, headers: seq<Header>, r: Route,
                           contentLength: int, chunked: bool, expectHandled: bool)
    returns (out: Result<bytes, ProxyError>)
    ensures out == RequestHeadBytes(requestMethod, target, headers, r, contentLength, chunked, expectHandled)
  {
    hide Token, CleanValue, SafeTarget, Skipped, RequestLineBytes, Forwarded, FieldLine, Decimal;
    var token := IsToken(requestMethod);
    if !token || |target| == 0 {
      return Err(BadRequest);
    }
    if !SafeTarget(target) {
      return Err(ProxyError.BadTarget);
    }
    if |r.authority| == 0 {
      return Err(BadUpstream);
    }
    if contentLength < 0 && !chunked {
      return Err(UnknownFraming);
    }
    if contentLength >= 0 && chunked {
      return Err(ProxyError.AmbiguousFraming);
    }
    var forwarded := ForwardHeaders(headers, r);
    var fields := SelectFields(forwarded, r.authority, expectHandled);
    var lines := [RequestLineBytes(requestMethod, target)];
    assert fields[..0] == [];
    for k := 0 to |fields|
      invariant SafeFields(fields[..k])
      invariant lines == HeadLines(requestMethod, target, fields[..k])
    {
      var h := fields[k];
      var named := IsToken(h.name);
      var bad := ContainsBadValueByte(h.value);
      if !named || bad {
        assert !SafeField(fields[k]);
        return Err(BadHeader);
      }
      assert forall i :: 0 <= i < k ==> fields[..k + 1][i] == fields[..k][i];
      assert fields[..k + 1] == fields[..k] + [h];
      lines := lines + [FieldLine(h.name, h.value)];
    }
    assert fields[..|fields|] == fields;
    var framing := FramingField(contentLength, chunked);
    lines := lines + [FieldLine(framing.name, framing.value)];
    assert lines == HeadLines(requestMethod, target, fields + [framing]);
    return Ok(Terminated(lines) + CRLF);
  }

  method SelectFields(forwarded: seq<Header>, authority: bytes, expectHandled: bool) returns (fields: seq<Header>)
    ensures fields == [Header(HOST, authority)] + NotSkipped(forwarded, expectHandled)
  {
    hide Skipped;
    fields := [Header(HOST, authority)];
    assert forwarded[0..] == forwarded;
    for k := 0 to |forwarded|
      invariant [Header(HOST, authority)] + NotSkipped(forwarded, expectHandled)
             == fields + NotSkipped(forwarded[k..], expectHandled)
    {
      var h := forwarded[k];
      assert forwarded[k..][0] == h && forwarded[k..][1..] == forwarded[k + 1..];
      if !Skipped(Lower(h.name), expectHandled) {
        fields := fields + [h];
      }
    }
    assert forwarded[|forwarded|..] == [] && fields + [] == fields;
  }
}
