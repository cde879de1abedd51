/** The incremental decoder of one upstream response (sections 6 and 7 of RFC 9112). */
module UpstreamCodec {
  import opened Octets
  import opened Numerals
  import opened ChunkLine
  import opened Headers

  datatype UpstreamError =
    | EmptyStatusLine | BadStatusLine | BadVersion | BadStatus | BadReason | BadHeader
    | AmbiguousLength | BadLength | BodyTooLarge | AmbiguousFraming | UnsupportedTransferCoding
    | UpgradeRejected | ResponseComplete | HeadersTooLarge | PipelinedResponse
    | ChunkLineTooLong | BadChunkLine(line: ChunkLineError) | ChunkTooLarge | BadChunkEnding
    | TrailersTooLarge | BadTrailer | IncompleteResponse

  /** Constructor arguments of the codec; `requestMethod` is already upper case. */
  datatype Limits = Limits(requestMethod: bytes, headerBytes: int, headerCount: int, bodyBytes: int, chunkBytes: int)

  /** What the constructor demands. */
  predicate ValidLimits(L: Limits) {
    L.headerBytes > 0 && L.headerCount > 0
  }

  datatype ResponseHead = ResponseHead(
    status: nat, reason: bytes, http11: bool, headers: seq<Header>, contentLength: int,
    chunked: bool, keepAlive: bool, informational: bool, bodyExpected: bool)

  datatype Event = HeadEvent(head: ResponseHead) | BodyEvent(data: bytes) | EndEvent(trailers: seq<Header>)

  // "HTTP/1.0", "HTTP/1.1", "keep-alive", "HEAD"
  const HTTP_10: bytes := [72, 84, 84, 80, 47, 49, 46, 48]
  const HTTP_11: bytes := [72, 84, 84, 80, 47, 49, 46, 49]
  const HEAD_METHOD: bytes := [72, 69, 65, 68]

  // ---------------------------------------------------------------- the head

  datatype StatusLine = StatusLine(http11: bool, status: nat, reason: bytes)

  /** `line.split(b" ", 2)` and the checks on its parts. */
  function ParseStatusLine(line: bytes): Result<StatusLine, UpstreamError> {
    var a := FindByte(line, 32);
    if line == [] then Err(EmptyStatusLine)
    else if a < 0 then Err(BadStatusLine)
    else
      var version, rest := line[..a], line[a + 1..];
      var b := FindByte(rest, 32);
      var status := if b < 0 then rest else rest[..b];
      var reason := if b < 0 then [] else rest[b + 1..];
      if version != HTTP_10 && version != HTTP_11 then Err(BadVersion)
      else if |status| != 3 || !Digits(status) then Err(BadStatus)
      else if !CleanValue(reason) then Err(BadReason)
      else if DecimalValue(status) < 100 then Err(BadStatus)
      else Ok(StatusLine(version == HTTP_11, DecimalValue(status), reason))
  }

  datatype Framing = Framing(contentLength: int, chunked: bool)

  /** Content-Length and Transfer-Encoding of the head; -1 stands for no length. */
  function ParseFraming(hs: seq<Header>, maxBody: int): Result<Framing, UpstreamError> {
    var lengths := Values(hs, CONTENT_LENGTH);
    var encodings := Values(hs, TRANSFER_ENCODING);
    if lengths != [] && (|lengths| != 1 || 44 in lengths[0] || lengths[0] == []) then Err(AmbiguousLength)
    else if lengths != [] && !Digits(lengths[0]) then Err(BadLength)
    else if lengths != [] && DecimalValue(lengths[0]) > maxBody then Err(BodyTooLarge)
    else if encodings != [] && lengths != [] then Err(AmbiguousFraming)
    else if encodings != [] && Codings(encodings) != [CHUNKED] then Err(UnsupportedTransferCoding)
    else Ok(Framing(if lengths == [] then -1 else DecimalValue(lengths[0]), encodings != []))
  }

  predicate BodyExpected(requestMethod: bytes, status: nat) {
    !(requestMethod == HEAD_METHOD || 100 <= status < 200 || status == 204 || status == 304)
  }

  function ParseHead(L: Limits, block: bytes): Result<ResponseHead, UpstreamError> {
    var lines := SplitCrlf(block);
    match ParseStatusLine(lines[0])
    case Err(e) => Err(e)
    case Ok(start) =>
      match ParseFields(lines[1..], L.headerCount, 0)
      case Err(e) => Err(BadHeader)
      case Ok(hs) =>
        match ParseFraming(hs, L.bodyBytes)
        case Err(e) => Err(e)
        case Ok(f) =>
          if start.status == 101 then Err(UpgradeRejected)
          else
            var informational := 100 <= start.status < 200;
            var body := BodyExpected(L.requestMethod, start.status);
            var untilEof := body && f.contentLength < 0 && !f.chunked;
            Ok(ResponseHead(start.status, start.reason, start.http11, hs, f.contentLength, f.chunked,
                            !untilEof && KeepsAlive(start.http11, hs), informational, body))
  }

  // ---------------------------------------------------------------- states and steps

  datatype Phase = InHead | Fixed | ChunkSize | ChunkData | ChunkCrlf | InTrailers | UntilEof | Complete

  datatype Codec = Codec(buffer: bytes, phase: Phase, remaining: nat, received: nat)

  const Fresh := Codec([], InHead, 0, 0)

  /** A body being counted down has bytes left. */
  predicate Wf(c: Codec) {
    (c.phase == Fixed || c.phase == ChunkData) ==> c.remaining > 0
  }

  datatype StepResult =
    | Stop
    | Fail(codec: Codec, error: UpstreamError)
    | Next(codec: Codec, events: seq<Event>)

  function Finish(c: Codec, events: seq<Event>, trailers: seq<Header>): StepResult {
    if c.buffer != [] then Fail(c.(phase := Complete), PipelinedResponse)
    else Next(c.(phase := Complete), events + [EndEvent(trailers)])
  }

  function StepHead(L: Limits, c: Codec): (r: StepResult)
    ensures r.Next? && c.phase == InHead ==> Wf(r.codec) && |r.codec.buffer| < |c.buffer|
  {
    var marker := FindDoubleCrlf(c.buffer);
    if marker < 0 then
      if |c.buffer| > L.headerBytes then Fail(c, HeadersTooLarge) else Stop
    else if marker + 4 > L.headerBytes then Fail(c, HeadersTooLarge)
    else
      var d := c.(buffer := c.buffer[marker + 4..]);
      match ParseHead(L, c.buffer[..marker])
      case Err(e) => Fail(d, e)
      case Ok(h) => EnterBody(d, h)
  }

  /** The state after a head, chosen as `_parse_head` chooses it. */
  function EnterBody(d: Codec, h: ResponseHead): StepResult {
    if h.informational then Next(d, [HeadEvent(h)])
    else if !h.bodyExpected || h.contentLength == 0 then Finish(d, [HeadEvent(h)], [])
    else if h.chunked then Next(d.(phase := ChunkSize), [HeadEvent(h)])
    else if h.contentLength > 0 then Next(d.(phase := Fixed, remaining := h.contentLength), [HeadEvent(h)])
    else Next(d.(phase := UntilEof), [HeadEvent(h)])
  }

  function StepFixed(c: Codec): StepResult {
    var take := Min(c.remaining, |c.buffer|);
    var d := c.(buffer := c.buffer[take..], remaining := c.remaining - take, received := c.received + take);
    if c.buffer == [] then Stop
    else if d.remaining == 0 then Finish(d, [BodyEvent(c.buffer[..take])], [])
    else Next(d, [BodyEvent(c.buffer[..take])])
  }

  function StepChunkSize(L: Limits, c: Codec): StepResult {
    var marker := FindCrlf(c.buffer);
    if marker < 0 then
      if |c.buffer| > 128 then Fail(c, ChunkLineTooLong) else Stop
    else if marker > 128 then Fail(c, ChunkLineTooLong)
    else
      var d := c.(buffer := c.buffer[marker + 2..]);
      match ParseLine(c.buffer[..marker])
      case Err(e) => Fail(d, BadChunkLine(e))
      case Ok(size) =>
        if size > L.chunkBytes then Fail(d, ChunkTooLarge)
        else if c.received + size > L.bodyBytes then Fail(d, BodyTooLarge)
        else if size == 0 then Next(d.(phase := InTrailers), [])
        else Next(d.(phase := ChunkData, remaining := size), [])
  }

  function StepChunkData(c: Codec): StepResult {
    var take := Min(c.remaining, |c.buffer|);
    var d := c.(buffer := c.buffer[take..], remaining := c.remaining - take, received := c.received + take);
    if c.buffer == [] then Stop
    else Next(if d.remaining == 0 then d.(phase := ChunkCrlf) else d, [BodyEvent(c.buffer[..take])])
  }

  function StepChunkCrlf(c: Codec): StepResult {
    if |c.buffer| < 2 then Stop
    else if c.buffer[..2] != CRLF then Fail(c, BadChunkEnding)
    else Next(c.(buffer := c.buffer[2..], phase := ChunkSize), [])
  }

  function ParseTrailers(L: Limits, block: bytes): Result<seq<Header>, UpstreamError> {
    match ParseFields(SplitCrlf(block), L.headerCount, 0)
    case Err(e) => Err(BadTrailer)
    case Ok(ts) =>
      if Values(ts, CONTENT_LENGTH) != [] || Values(ts, TRANSFER_ENCODING) != [] then Err(BadTrailer)
      else Ok(Sanitize(ts))
  }

  function StepTrailers(L: Limits, c: Codec): (r: StepResult)
    ensures r.Next? && c.phase == InTrailers ==> Wf(r.codec) && |r.codec.buffer| < |c.buffer|
  {
    if |c.buffer| >= 2 && c.buffer[..2] == CRLF then Finish(c.(buffer := c.buffer[2..]), [], [])
    else
      var marker := FindDoubleCrlf(c.buffer);
      if marker < 0 then
        if |c.buffer| > L.headerBytes then Fail(c, TrailersTooLarge) else Stop
      else if marker + 4 > L.headerBytes then Fail(c, TrailersTooLarge)
      else
        var d := c.(buffer := c.buffer[marker + 4..]);
        match ParseTrailers(L, c.buffer[..marker])
        case Err(e) => Fail(d, e)
        case Ok(ts) => Finish(d, [], ts)
  }

  function StepUntilEof(L: Limits, c: Codec): StepResult {
    var d := c.(received := c.received + |c.buffer|);
    if c.buffer == [] then Stop
    else if d.received > L.bodyBytes then Fail(d, BodyTooLarge)
    else Next(d.(buffer := []), [BodyEvent(c.buffer)])
  }

  /** One turn of the decoding loop. */
  function Step(L: Limits, c: Codec): (r: StepResult)
    requires Wf(c)
    ensures r.Next? ==> Wf(r.codec) && |r.codec.buffer| < |c.buffer|
  {
    match c.phase
    case InHead => StepHead(L, c)
    case Fixed => StepFixed(c)
    case ChunkSize => StepChunkSize(L, c)
    case ChunkData => StepChunkData(c)
    case ChunkCrlf => StepChunkCrlf(c)
    case InTrailers => StepTrailers(L, c)
    case UntilEof => StepUntilEof(L, c)
    case Complete => Stop
  }

  /** Where the loop ends: the state, what it emitted, and the error it raised if any. */
  datatype Outcome = Outcome(codec: Codec, events: seq<Event>, error: Option<UpstreamError>)

  function After(events: seq<Event>, o: Outcome): (p: Outcome)
    ensures events == [] ==> p == o
  {
    assert events == [] ==> events + o.events == o.events;
    o.(events := events + o.events)
  }

  lemma AfterTwice(a: seq<Event>, b: seq<Event>, o: Outcome)
    ensures After(a, After(b, o)) == After(a + b, o)
  {
    assert a + (b + o.events) == a + b + o.events;
  }

  function Run(L: Limits, c: Codec): (o: Outcome)
    requires Wf(c)
    decreases |c.buffer|
  {
    match Step(L, c)
    case Stop => Outcome(c, [], None)
    case Fail(d, e) => Outcome(d, [], Some(e))
    case Next(d, events) => After(events, Run(L, d))
  }

  /** `feed(data)` of a codec that has not seen `eof()`. */
  function Feed(L: Limits, c: Codec, data: bytes): Outcome
    requires Wf(c)
  {
    if c.phase == Complete then Outcome(c, [], if data == [] then None else Some(ResponseComplete))
    else Run(L, c.(buffer := c.buffer + data))
  }

  // ---------------------------------------------------------------- the codec object

  class Http1UpstreamCodec {
    const limits: Limits
    var buffer: bytes
    var phase: Phase
    var remaining: nat
    var received: nat
    var closed: bool

    function View(): Codec
      reads this
    {
      Codec(buffer, phase, remaining, received)
    }

    constructor (limits: Limits)
      requires ValidLimits(limits)
      ensures this.limits == limits && View() == Fresh && !closed
    {
      this.limits := limits;
      buffer, phase, remaining, received, closed := [], InHead, 0, 0, false;
    }

    /** Head and trailer blocks, found by the scanner and parsed line by line. */
    method DecodeBlock() returns (r: StepResult)
      requires phase == InHead || phase == InTrailers
      modifies this`buffer, this`phase, this`remaining
      ensures r == old(Step(limits, View()))
      ensures !r.Stop? ==> View() == r.codec
      ensures r.Stop? ==> View() == old(View())
    {
      if phase == InTrailers && |buffer| >= 2 && buffer[..2] == CRLF {
        buffer := buffer[2..];
        phase := Complete;
        return if buffer != [] then Fail(View(), PipelinedResponse) else Next(View(), [EndEvent([])]);
      }
      var tooLarge := if phase == InHead then HeadersTooLarge else TrailersTooLarge;
      var marker := ScanDoubleCrlf(buffer);
      if marker < 0 {
        return if |buffer| > limits.headerBytes then Fail(View(), tooLarge) else Stop;
      }
      if marker + 4 > limits.headerBytes {
        return Fail(View(), tooLarge);
      }
      var block := buffer[..marker];
      buffer := buffer[marker + 4..];
      if phase == InHead {
        var head := ParseHead(limits, block);
        if head.Err? {
          return Fail(View(), head.error);
        }
        r := EnterBody(View(), head.value);
      } else {
        var trailers := ParseTrailers(limits, block);
        if trailers.Err? {
          return Fail(View(), trailers.error);
        }
        r := Finish(View(), [], trailers.value);
      }
      buffer, phase, remaining := r.codec.buffer, r.codec.phase, r.codec.remaining;
    }

    /** Body bytes of every framing, taken from the front of the buffer. */
    method DecodeBody() returns (r: StepResult)
      requires Wf(View())
      requires phase == Fixed || phase == ChunkData || phase == UntilEof
      modifies this`buffer, this`phase, this`remaining, this`received
      ensures r == old(Step(limits, View()))
      ensures !r.Stop? ==> View() == r.codec
      ensures r.Stop? ==> View() == old(View())
    {
      if buffer == [] {
        return Stop;
      }
      if phase == UntilEof {
        received := received + |buffer|;
        if received > limits.bodyBytes {
          return Fail(View(), BodyTooLarge);
        }
        r := Next(View().(buffer := []), [BodyEvent(buffer)]);
        buffer := [];
        return;
      }
      var take := Min(remaining, |buffer|);
      var chunk := buffer[..take];
      buffer := buffer[take..];
      remaining := remaining - take;
      received := received + take;
      if remaining == 0 {
        if phase == ChunkData {
          phase := ChunkCrlf;
        } else {
          phase := Complete;
          return if buffer != [] then Fail(View(), PipelinedResponse)
                 else Next(View(), [BodyEvent(chunk)] + [EndEvent([])]);
        }
      }
      return Next(View(), [BodyEvent(chunk)]);
    }

    /** Chunk-size lines and the line end after chunk data. */
    method DecodeChunkLine() returns (r: StepResult)
      requires phase == ChunkSize || phase == ChunkCrlf
      modifies this`buffer, this`phase, this`remaining
      ensures r == old(Step(limits, View()))
      ensures !r.Stop? ==> View() == r.codec
      ensures r.Stop? ==> View() == old(View())
    {
      if phase == ChunkCrlf {
        if |buffer| < 2 {
          return Stop;
        }
        if buffer[..2] != CRLF {
          return Fail(View(), BadChunkEnding);
        }
        buffer := buffer[2..];
        phase := ChunkSize;
        return Next(View(), []);
      }
      var marker := ScanCrlf(buffer);
      if marker < 0 {
        return if |buffer| > 128 then Fail(View(), ChunkLineTooLong) else Stop;
      }
      if marker > 128 {
        return Fail(View(), ChunkLineTooLong);
      }
      var line := buffer[..marker];
      buffer := buffer[marker + 2..];
      var size := ParseChunkSizeLine(line);
      if size.Err? {
        return Fail(View(), BadChunkLine(size.error));
      }
      if size.value > limits.chunkBytes {
        return Fail(View(), ChunkTooLarge);
      }
      if received + size.value > limits.bodyBytes {
        return Fail(View(), BodyTooLarge);
      }
      if size.value == 0 {
        phase := InTrailers;
      } else {
        remaining := size.value;
        phase := ChunkData;
      }
      return Next(View(), []);
    }

    method Advance() returns (r: StepResult)
      requires Wf(View())
      modifies this`buffer, this`phase, this`remaining, this`received
      ensures r == old(Step(limits, View()))
      ensures !r.Stop? ==> View() == r.codec
      ensures r.Stop? ==> View() == old(View())
    {
      hide StepHead, StepFixed, StepChunkSize, StepChunkData, StepChunkCrlf, StepTrailers, StepUntilEof;
      match phase {
        case InHead => r := DecodeBlock();
        case InTrailers => r := DecodeBlock();
        case ChunkSize => r := DecodeChunkLine();
        case ChunkCrlf => r := DecodeChunkLine();
        case Complete => r := Stop;
        case _ => r := DecodeBody();
      }
    }

    /** Decodes what the new bytes complete; on an error the events are dropped. */
    method FeedData(data: bytes) returns (r: Result<seq<Event>, UpstreamError>)
      requires Wf(View())
      modifies this
      ensures closed == old(closed)
      ensures old(closed) ==> View() == old(View()) && r == if data == [] then Ok([]) else Err(ResponseComplete)
      ensures !old(closed) ==>
                var o := Feed(limits, old(View()), data);
                && View() == o.codec
                && r == if o.error.Some? then Err(o.error.value) else Ok(o.events)
      ensures r.Ok? ==> Wf(View())
    {
      hide Step;
      if closed || phase == Complete {
        return if data == [] then Ok([]) else Err(ResponseComplete);
      }
      buffer := buffer + data;
      ghost var start := View();
      var events: seq<Event> := [];
      while true
        invariant Wf(start) && Wf(View()) && closed == old(closed)
        invariant Run(limits, start) == After(events, Run(limits, View()))
        decreases |buffer|
      {
        var step := Advance();
        match step {
          case Stop =>
            assert events + [] == events;
            return Ok(events);
          case Fail(_, e) =>
            return Err(e);
          case Next(d, more) =>
            AfterTwice(events, more, Run(limits, d));
            events := events + more;
        }
      }
    }

    /** The upstream closed its side. */
    method Eof() returns (r: Result<seq<Event>, UpstreamError>)
      modifies this
      ensures closed
      ensures r == if old(phase) == UntilEof then Ok([EndEvent([])])
                   else if old(phase) == Complete then Ok([]) else Err(IncompleteResponse)
      ensures View() == if old(phase) == UntilEof then old(View()).(phase := Complete) else old(View())
    {
      closed := true;
      if phase == UntilEof {
        phase := Complete;
        return Ok([EndEvent([])]);
      }
      return if phase == Complete then Ok([]) else Err(IncompleteResponse);
    }
  }
}
