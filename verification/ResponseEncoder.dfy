/** The encoder of responses towards the client. */
module ResponseEncoder {
  import opened Octets
  import opened Numerals
  import opened ChunkLine
  import opened Headers

  datatype EncodeError = BothFramings | UnsafeHeader | FramingOwned | FramingInTrailer

  // "HTTP/1.1 "
  const VERSION_SP: bytes := [72, 84, 84, 80, 47, 49, 46, 49, 32]
  // "Content-Length", "Transfer-Encoding", "Connection"
  const CONTENT_LENGTH_NAME: bytes := [67, 111, 110, 116, 101, 110, 116, 45, 76, 101, 110, 103, 116, 104]
  const TRANSFER_ENCODING_NAME: bytes :=
    [84, 114, 97, 110, 115, 102, 101, 114, 45, 69, 110, 99, 111, 100, 105, 110, 103]
  const CONNECTION_NAME: bytes := [67, 111, 110, 110, 101, 99, 116, 105, 111, 110]

  function ReasonBelow400(status: nat): (r: bytes)
    ensures CleanValue(r)
  {
    match status
    case 100 => [67, 111, 110, 116, 105, 110, 117, 101]  // Continue
    case 200 => [79, 75]  // OK
    case 201 => [67, 114, 101, 97, 116, 101, 100]  // Created
    case 204 => [78, 111, 32, 67, 111, 110, 116, 101, 110, 116]  // No Content
    case 301 => [77, 111, 118, 101, 100, 32, 80, 101, 114, 109, 97, 110, 101, 110, 116, 108, 121]  // Moved Permanently
    case 302 => [70, 111, 117, 110, 100]  // Found
    case 304 => [78, 111, 116, 32, 77, 111, 100, 105, 102, 105, 101, 100]  // Not Modified
    case _ => []
  }

  function ReasonRequestError(status: nat): (r: bytes)
    ensures CleanValue(r)
  {
    match status
    case 400 => [66, 97, 100, 32, 82, 101, 113, 117, 101, 115, 116]  // Bad Request
    case 404 => [78, 111, 116, 32, 70, 111, 117, 110, 100]  // Not Found
    // Method Not Allowed
    case 405 => [77, 101, 116, 104, 111, 100, 32, 78, 111, 116, 32, 65, 108, 108, 111, 119, 101, 100]
    case _ => []
  }

  function ReasonRequestLimit(status: nat): (r: bytes)
    ensures CleanValue(r)
  {
    match status
    case 413 => [67, 111, 110, 116, 101, 110, 116, 32, 84, 111, 111, 32, 76, 97, 114, 103, 101]  // Content Too Large
    // Expectation Failed
    case 417 => [69, 120, 112, 101, 99, 116, 97, 116, 105, 111, 110, 32, 70, 97, 105, 108, 101, 100]
    // Request Header Fields Too Large
    case 431 => [82, 101, 113, 117, 101, 115, 116, 32, 72, 101, 97, 100, 101, 114, 32, 70, 105, 101, 108, 100, 115, 32,
      84, 111, 111, 32, 76, 97, 114, 103, 101]
    case _ => []
  }

  function ReasonServerError(status: nat): (r: bytes)
    ensures CleanValue(r)
  {
    match status
    // Internal Server Error
    case 500 => [73, 110, 116, 101, 114, 110, 97, 108, 32, 83, 101, 114, 118, 101, 114, 32, 69, 114, 114, 111, 114]
    case 502 => [66, 97, 100, 32, 71, 97, 116, 101, 119, 97, 121]  // Bad Gateway
    // Service Unavailable
    case 503 => [83, 101, 114, 118, 105, 99, 101, 32, 85, 110, 97, 118, 97, 105, 108, 97, 98, 108, 101]
    case 504 => [71, 97, 116, 101, 119, 97, 121, 32, 84, 105, 109, 101, 111, 117, 116]  // Gateway Timeout
    case _ => []
  }

  /** The reason phrase table. */
  function Reason(status: nat): (r: bytes)
    ensures CleanValue(r)
  {
    if status < 400 then ReasonBelow400(status)
    else if status < 413 then ReasonRequestError(status)
    else if status < 500 then ReasonRequestLimit(status)
    else ReasonServerError(status)
  }

  function StartLine(status: nat): bytes {
    VERSION_SP + Decimal(status) + [32] + Reason(status)
  }

  predicate FramingName(name: bytes) {
    name == CONTENT_LENGTH || name == TRANSFER_ENCODING || name == CONNECTION
  }

  /** The first header a response head refuses, as the error it raises. */
  function HeadRefusal(hs: seq<Header>): Option<EncodeError> {
    if hs == [] then None
    else if !SafeField(hs[0]) then Some(UnsafeHeader)
    else if FramingName(Lower(hs[0].name)) then Some(FramingOwned)
    else HeadRefusal(hs[1..])
  }

  function TrailerRefusal(ts: seq<Header>): Option<EncodeError> {
    if ts == [] then None
    else if !SafeField(ts[0]) then Some(UnsafeHeader)
    else if FramingName(Lower(ts[0].name)) || Lower(ts[0].name) == HOST then Some(FramingInTrailer)
    else TrailerRefusal(ts[1..])
  }

  /** The framing fields the encoder adds after the caller's fields. */
  function FramingFields(contentLength: int, chunked: bool, keepAlive: bool): seq<Header> {
    (if contentLength >= 0 then [Header(CONTENT_LENGTH_NAME, Decimal(contentLength))] else []) +
    (if chunked then [Header(TRANSFER_ENCODING_NAME, CHUNKED)] else []) +
    (if keepAlive then [] else [Header(CONNECTION_NAME, CLOSE)])
  }

  function HeadLines(status: nat, hs: seq<Header>, contentLength: int, chunked: bool, keepAlive: bool): seq<bytes> {
    [StartLine(status)] + FieldLines(hs + FramingFields(contentLength, chunked, keepAlive))
  }

  /** `head(...)`. */
  function HeadBytes(status: nat, hs: seq<Header>, contentLength: int, chunked: bool, keepAlive: bool)
    : Result<bytes, EncodeError>
  {
    if contentLength >= 0 && chunked then Err(BothFramings)
    else if HeadRefusal(hs).Some? then Err(HeadRefusal(hs).value)
    else Ok(Terminated(HeadLines(status, hs, contentLength, chunked, keepAlive)) + CRLF)
  }

  /** `chunk(data)`. */
  function ChunkBytes(data: bytes): bytes {
    if data == [] then [] else Hex(|data|) + CRLF + data + CRLF
  }

  /** `end_chunks(trailers)`. */
  function EndBytes(ts: seq<Header>): Result<bytes, EncodeError> {
    if TrailerRefusal(ts).Some? then Err(TrailerRefusal(ts).value)
    else Ok([48] + CRLF + Terminated(FieldLines(ts)) + CRLF)
  }

  lemma FieldLinesAppend(a: seq<Header>, b: seq<Header>)
    ensures FieldLines(a + b) == FieldLines(a) + FieldLines(b)
  {
  }

  lemma TerminatedOne(line: bytes)
    ensures Terminated([line]) == line + CRLF
  {
    assert [line][1..] == [] && line + CRLF + [] == line + CRLF;
  }

  method EncodeHead(status: nat, headers: seq<Header>, contentLength: int, chunked: bool, keepAlive: bool)
    returns (r: Result<bytes, EncodeError>)
    ensures r == HeadBytes(status, headers, contentLength, chunked, keepAlive)
  {
    hide SafeField, FramingName, StartLine, FramingFields, Terminated;
    if contentLength >= 0 && chunked {
      return Err(BothFramings);
    }
    var output := StartLine(status) + CRLF;
    ghost var lines := [StartLine(status)];
    TerminatedOne(StartLine(status));
    assert headers[0..] == headers && headers[..0] == [];
    for k := 0 to |headers|
      invariant HeadRefusal(headers) == HeadRefusal(headers[k..])
      invariant lines == [StartLine(status)] + FieldLines(headers[..k]) && output == Terminated(lines)
    {
      var h := headers[k];
      assert headers[k..][0] == h && headers[k..][1..] == headers[k + 1..];
      var refusal := Refuse(h);
      if refusal.Some? {
        return Err(refusal.value);
      }
      output := AppendField(output, lines, h);
      lines := lines + [FieldLine(h.name, h.value)];
    }
    assert headers[..|headers|] == headers && headers[|headers|..] == [];
    output := AppendFraming(output, lines, contentLength, chunked, keepAlive);
    FieldLinesAppend(headers, FramingFields(contentLength, chunked, keepAlive));
    assert [StartLine(status)] + FieldLines(headers) + FieldLines(FramingFields(contentLength, chunked, keepAlive))
        == HeadLines(status, headers, contentLength, chunked, keepAlive);
    return Ok(output + CRLF);
  }

  method AppendFraming(output: bytes, ghost lines: seq<bytes>, contentLength: int, chunked: bool, keepAlive: bool)
    returns (r: bytes)
    requires output == Terminated(lines) && !(contentLength >= 0 && chunked)
    ensures r == Terminated(lines + FieldLines(FramingFields(contentLength, chunked, keepAlive)))
  {
    hide Terminated, Decimal;
    r := output;
    ghost var more := lines;
    if contentLength >= 0 {
      r := AppendField(r, more, Header(CONTENT_LENGTH_NAME, Decimal(contentLength)));
      more := more + [FieldLine(CONTENT_LENGTH_NAME, Decimal(contentLength))];
    }
    if chunked {
      r := AppendField(r, more, Header(TRANSFER_ENCODING_NAME, CHUNKED));
      more := more + [FieldLine(TRANSFER_ENCODING_NAME, CHUNKED)];
    }
    if !keepAlive {
      r := AppendField(r, more, Header(CONNECTION_NAME, CLOSE));
      more := more + [FieldLine(CONNECTION_NAME, CLOSE)];
    }
    assert more == lines + FieldLines(FramingFields(contentLength, chunked, keepAlive));
  }

  method Refuse(h: Header) returns (r: Option<EncodeError>)
    ensures r == if !SafeField(h) then Some(UnsafeHeader)
                 else if FramingName(Lower(h.name)) then Some(FramingOwned) else None
  {
    var token := IsToken(h.name);
    var bad := ContainsBadValueByte(h.value);
    if !token || bad {
      return Some(UnsafeHeader);
    }
    return if FramingName(Lower(h.name)) then Some(FramingOwned) else None;
  }

  /** One more `name: value` line at the end of what is written so far. */
  method AppendField(output: bytes, ghost lines: seq<bytes>, h: Header) returns (r: bytes)
    requires output == Terminated(lines)
    ensures r == Terminated(lines + [FieldLine(h.name, h.value)])
  {
    r := output + h.name;
    r := r + [58, 32];
    r := r + h.value;
    r := r + CRLF;
    ghost var line := FieldLine(h.name, h.value);
    TerminatedAppend(lines, [line]);
    ghost var one: seq<bytes> := [line];
    assert one[1..] == [];
    assert Terminated([line]) == line + CRLF + [];
    assert r == output + (line + CRLF + []);
  }

  method EncodeChunk(data: bytes) returns (r: bytes)
    ensures r == ChunkBytes(data)
  {
    if |data| == 0 {
      return [];
    }
    return Hex(|data|) + CRLF + data + CRLF;
  }

  method EncodeEnd(trailers: seq<Header>) returns (r: Result<bytes, EncodeError>)
    ensures r == EndBytes(trailers)
  {
    hide SafeField, FramingName;
    var output: bytes := [];
    ghost var lines: seq<bytes> := [];
    assert trailers[0..] == trailers && trailers[..0] == [];
    for k := 0 to |trailers|
      invariant TrailerRefusal(trailers) == TrailerRefusal(trailers[k..])
      invariant lines == FieldLines(trailers[..k]) && output == Terminated(lines)
    {
      var t := trailers[k];
      assert trailers[k..][0] == t && trailers[k..][1..] == trailers[k + 1..];
      var refusal := Refuse(t);
      if refusal == Some(UnsafeHeader) {
        return Err(UnsafeHeader);
      }
      if refusal.Some? || Lower(t.name) == HOST {
        return Err(FramingInTrailer);
      }
      output := AppendField(output, lines, t);
      lines := lines + [FieldLine(t.name, t.value)];
    }
    assert trailers[..|trailers|] == trailers && trailers[|trailers|..] == [];
    return Ok([48] + CRLF + output + CRLF);
  }
}
