/** The incremental decoder of client requests (sections 3, 6 and 7 of RFC 9112). */
module ServerCodec {
  import opened Octets
  import opened Numerals
  import opened ChunkLine
  import opened Headers

  datatype RequestError =
    | ConnectionIsClosed | HeadersTooLarge | RequestLineTooLong | EmptyRequestLine | BadRequestLine
    | BadMethod | BadTarget | UnsupportedTargetForm | BadVersion | BadField(field: HeaderError)
    | MissingHost | DuplicateHost | AmbiguousLength | BadContentLength | BodyTooLarge
    | AmbiguousFraming | UnsupportedTransferCoding | UnsupportedExpectation
    | ChunkLineTooLong | BadChunkLine(line: ChunkLineError) | ChunkTooLarge | BadChunkEnding
    | TrailersTooLarge | ForbiddenTrailer | IncompleteRequest

  datatype Limits = Limits(requestLine: int, headerBytes: int, headerCount: int, bodyBytes: int, chunkBytes: int)

  /** What the constructor demands. */
  predicate ValidLimits(L: Limits) {
    L.requestLine > 0 && L.headerBytes > 0
  }

  datatype RequestHead = RequestHead(
    requestMethod: bytes, target: bytes, http11: bool, headers: seq<Header>, keepAlive: bool,
    expectContinue: bool, contentLength: int, chunked: bool)

  datatype Event = HeadEvent(head: RequestHead) | BodyEvent(data: bytes) | EndEvent(trailers: seq<Header>)

  // "HTTP/1.0", "HTTP/1.1"
  const HTTP_10: bytes := [72, 84, 84, 80, 47, 49, 46, 48]
  const HTTP_11: bytes := [72, 84, 84, 80, 47, 49, 46, 49]

  // ---------------------------------------------------------------- the head

  datatype RequestLine = RequestLine(requestMethod: bytes, target: bytes, http11: bool)

  predicate SafeTarget(target: bytes) {
    forall i :: 0 <= i < |target| ==> target[i] > 32 && target[i] != 127
  }

  function ParseRequestLine(L: Limits, line: bytes): Result<RequestLine, RequestError> {
    var parts := SplitByte(line, 32);
    if line == [] then Err(EmptyRequestLine)
    else if |line| > L.requestLine then Err(RequestLineTooLong)
    else if 9 in line || |parts| != 3 then Err(BadRequestLine)
    else if !Token(parts[0]) then Err(BadMethod)
    else if parts[1] == [] then Err(BadTarget)
    else if parts[1][0] != 47 then Err(UnsupportedTargetForm)
    else if !SafeTarget(parts[1]) then Err(BadTarget)
    else if parts[2] != HTTP_11 && parts[2] != HTTP_10 then Err(BadVersion)
    else Ok(RequestLine(parts[0], parts[1], parts[2] == HTTP_11))
  }

  function CheckHost(http11: bool, hs: seq<Header>): Option<RequestError> {
    var hosts := Values(hs, HOST);
    if http11 && hosts == [] then Some(MissingHost)
    else if hosts != [] && |hosts| != 1 then Some(DuplicateHost)
    else None
  }

  datatype Framing = Framing(contentLength: int, chunked: bool)

  /** Content-Length and Transfer-Encoding; -1 stands for no length. */
  function ParseFraming(hs: seq<Header>, maxBody: int): Result<Framing, RequestError> {
    var lengths := Values(hs, CONTENT_LENGTH);
    var encodings := Values(hs, TRANSFER_ENCODING);
    if lengths != [] && (|lengths| != 1 || 44 in lengths[0]) then Err(AmbiguousLength)
    else if lengths != [] && (lengths[0] == [] || !Digits(lengths[0])) then Err(BadContentLength)
    else if lengths != [] && DecimalValue(lengths[0]) > maxBody then Err(BodyTooLarge)
    else if encodings != [] && lengths != [] then Err(AmbiguousFraming)
    else if encodings != [] && Codings(encodings) != [CHUNKED] then Err(UnsupportedTransferCoding)
    else Ok(Framing(if lengths == [] then -1 else DecimalValue(lengths[0]), encodings != []))
  }

  function ParseHead(L: Limits, block: bytes): Result<RequestHead, RequestError> {
    var lines := SplitCrlf(block);
    match ParseRequestLine(L, lines[0])
    case Err(e) => Err(e)
    case Ok(start) =>
      match ParseFields(lines[1..], L.headerCount, 0)
      case Err(e) => Err(BadField(e))
      case Ok(hs) =>
        if CheckHost(start.http11, hs).Some? then Err(CheckHost(start.http11, hs).value)
        else
          match ParseFraming(hs, L.bodyBytes)
          case Err(e) => Err(e)
          case Ok(f) =>
            var expects := Values(hs, EXPECT);
            if expects != [] && Codings(expects) != [CONTINUE_100] then Err(UnsupportedExpectation)
            else
              Ok(RequestHead(start.requestMethod, start.target, start.http11, hs, KeepsAlive(start.http11, hs),
                             expects != [], if f.chunked || f.contentLength >= 0 then f.contentLength
                               else 0, f.chunked))
  }

  predicate HasBody(h: RequestHead) {
    h.chunked || h.contentLength > 0
  }

  // ---------------------------------------------------------------- states and steps

  datatype Phase = InHead | Fixed | ChunkSize | ChunkData | InTrailers

  datatype Codec = Codec(buffer: bytes, phase: Phase, remaining: nat, received: nat)

  const Fresh := Codec([], InHead, 0, 0)

  predicate Wf(c: Codec) {
    && ((c.phase == Fixed || c.phase == ChunkData) ==> c.remaining > 0)
    && (c.phase == InHead ==> c.remaining == 0 && c.received == 0)
  }

  datatype StepResult =
    | Stop
    | Fail(codec: Codec, error: RequestError)
    | Next(codec: Codec, events: seq<Event>, done: bool)

  /** The end of a message: `_reset_message`. */
  function Finish(rest: bytes, events: seq<Event>, trailers: seq<Header>): StepResult {
    Next(Codec(rest, InHead, 0, 0), events + [EndEvent(trailers)], true)
  }

  function StepHead(L: Limits, c: Codec): StepResult {
    var marker := FindDoubleCrlf(c.buffer);
    if marker < 0 then
      if |c.buffer| > L.headerBytes then Fail(c, HeadersTooLarge)
      else if FindCrlf(c.buffer) < 0 && |c.buffer| > L.requestLine then Fail(c, RequestLineTooLong)
      else Stop
    else if marker + 4 > L.headerBytes then Fail(c, HeadersTooLarge)
    else
      var d := c.(buffer := c.buffer[marker + 4..]);
      match ParseHead(L, c.buffer[..marker])
      case Err(e) => Fail(d, e)
      case Ok(h) => EnterBody(d, h)
  }

  function EnterBody(d: Codec, h: RequestHead): StepResult {
    if h.chunked then Next(d.(phase := ChunkSize), [HeadEvent(h)], false)
    else if h.contentLength > 0 then Next(d.(phase := Fixed, remaining := h.contentLength), [HeadEvent(h)], false)
    else Finish(d.buffer, [HeadEvent(h)], [])
  }

  function StepFixed(c: Codec): StepResult {
    var take := Min(c.remaining, |c.buffer|);
    if c.buffer == [] then Stop
    else if take == c.remaining then Finish(c.buffer[take..], [BodyEvent(c.buffer[..take])], [])
    else Next(c.(buffer := c.buffer[take..], remaining := c.remaining - take, received := c.received + take),
              [BodyEvent(c.buffer[..take])], false)
  }

  function StepChunkSize(L: Limits, c: Codec): StepResult {
    var marker := FindCrlf(c.buffer);
    if marker < 0 then
      if |c.buffer| > 128 then Fail(c, ChunkLineTooLong) else Stop
    else if marker > 128 then Fail(c, ChunkLineTooLong)
    else
      var d := c.(buffer := c.buffer[marker + 2..]);
      match ParseLine(c.buffer[..marker])
      case Err(e) => Fail(d, BadChunkLine(e))
      case Ok(size) =>
        if size > L.chunkBytes then Fail(d, ChunkTooLarge)
        else if c.received + size > L.bodyBytes then Fail(d, BodyTooLarge)
        else if size == 0 then Next(d.(phase := InTrailers), [], false)
        else Next(d.(phase := ChunkData, remaining := size), [], false)
  }

  function StepChunkData(c: Codec): StepResult {
    var n := c.remaining;
    if |c.buffer| < n + 2 then Stop
    else if !CrlfAt(c.buffer, n) then Fail(c, BadChunkEnding)
    else Next(Codec(c.buffer[n + 2..], ChunkSize, 0, c.received + n), [BodyEvent(c.buffer[..n])], false)
  }

  function ParseTrailers(L: Limits, block: bytes): Result<seq<Header>, RequestError> {
    match ParseFields(SplitCrlf(block), L.headerCount, 0)
    case Err(e) => Err(BadField(e))
    case Ok(ts) =>
      if Values(ts, CONTENT_LENGTH) != [] || Values(ts, TRANSFER_ENCODING) != [] || Values(ts, HOST) != []
      then Err(ForbiddenTrailer)
      else Ok(ts)
  }

  function StepTrailers(L: Limits, c: Codec): StepResult {
    if CrlfAt(c.buffer, 0) then Finish(c.buffer[2..], [], [])
    else
      var marker := FindDoubleCrlf(c.buffer);
      if marker < 0 then
        if |c.buffer| > L.headerBytes then Fail(c, TrailersTooLarge) else Stop
      else if marker + 4 > L.headerBytes then Fail(c, TrailersTooLarge)
      else
        var rest := c.buffer[marker + 4..];
        match ParseTrailers(L, c.buffer[..marker])
        case Err(e) => Fail(c.(buffer := rest), e)
        case Ok(ts) => Finish(rest, [], ts)
  }

  /** One turn of the decoding loop. */
  function Step(L: Limits, c: Codec): (r: StepResult)
    requires Wf(c)
    ensures r.Next? ==> Wf(r.codec) && |r.codec.buffer| < |c.buffer|
  {
    match c.phase
    case InHead => StepHead(L, c)
    case Fixed => StepFixed(c)
    case ChunkSize => StepChunkSize(L, c)
    case ChunkData => StepChunkData(c)
    case InTrailers => StepTrailers(L, c)
  }

  datatype Outcome = Outcome(codec: Codec, events: seq<Event>, error: Option<RequestError>)

  function After(events: seq<Event>, o: Outcome): (p: Outcome)
    ensures events == [] ==> p == o
  {
    assert events == [] ==> events + o.events == o.events;
    o.(events := events + o.events)
  }

  lemma AfterTwice(a: seq<Event>, b: seq<Event>, o: Outcome)
    ensures After(a, After(b, o)) == After(a + b, o)
  {
    assert a + (b + o.events) == a + b + o.events;
  }

  /** The decoding loop; it stops after `budget` messages when `budget` is positive. */
  function Run(L: Limits, c: Codec, budget: nat): (o: Outcome)
    requires Wf(c)
    decreases |c.buffer|
  {
    match Step(L, c)
    case Stop => Outcome(c, [], None)
    case Fail(d, e) => Outcome(d, [], Some(e))
    case Next(d, events, done) =>
      if done && budget == 1 then Outcome(d, events, None)
      else After(events, Run(L, d, if done && budget > 0 then budget - 1 else budget))
  }

  /** `feed(data, budget)` of a codec that has not seen `eof()`. */
  function Feed(L: Limits, c: Codec, data: bytes, budget: nat): Outcome
    requires Wf(c)
  {
    Run(L, c.(buffer := c.buffer + data), budget)
  }

  // ---------------------------------------------------------------- the codec object

  class Http1ServerCodec {
    const limits: Limits
    var buffer: bytes
    var phase: Phase
    var remaining: nat
    var received: nat
    var closed: bool

    function View(): Codec
      reads this
    {
      Codec(buffer, phase, remaining, received)
    }

    constructor (limits: Limits)
      requires ValidLimits(limits)
      ensures this.limits == limits && View() == Fresh && !closed
    {
      this.limits := limits;
      buffer, phase, remaining, received, closed := [], InHead, 0, 0, false;
    }

    method ResetMessage()
      modifies this`phase, this`remaining, this`received
      ensures View() == Codec(old(buffer), InHead, 0, 0)
    {
      phase, remaining, received := InHead, 0, 0;
    }

    method DecodeHead() returns (r: StepResult)
      requires phase == InHead && Wf(View())
      modifies this`buffer, this`phase, this`remaining, this`received
      ensures r == old(Step(limits, View()))
      ensures !r.Stop? ==> View() == r.codec
      ensures r.Stop? ==> View() == old(View())
    {
      var marker := ScanDoubleCrlf(buffer);
      if marker < 0 {
        if |buffer| > limits.headerBytes {
          return Fail(View(), HeadersTooLarge);
        }
        var lineEnd := ScanCrlf(buffer);
        return if lineEnd < 0 && |buffer| > limits.requestLine then Fail(View(), RequestLineTooLong) else Stop;
      }
      if marker + 4 > limits.headerBytes {
        return Fail(View(), HeadersTooLarge);
      }
      var block := buffer[..marker];
      buffer := buffer[marker + 4..];
      var head := ParseHead(limits, block);
      if head.Err? {
        return Fail(View(), head.error);
      }
      if head.value.chunked {
        phase := ChunkSize;
        return Next(View(), [HeadEvent(head.value)], false);
      }
      if head.value.contentLength > 0 {
        phase, remaining := Fixed, head.value.contentLength;
        return Next(View(), [HeadEvent(head.value)], false);
      }
      ResetMessage();
      return Next(View(), [HeadEvent(head.value)] + [EndEvent([])], true);
    }

    method DecodeBody() returns (r: StepResult)
      requires (phase == Fixed || phase == ChunkData) && Wf(View())
      modifies this`buffer, this`phase, this`remaining, this`received
      ensures r == old(Step(limits, View()))
      ensures !r.Stop? ==> View() == r.codec
      ensures r.Stop? ==> View() == old(View())
    {
      if phase == ChunkData {
        if |buffer| < remaining + 2 {
          return Stop;
        }
        if buffer[remaining] != 13 || buffer[remaining + 1] != 10 {
          return Fail(View(), BadChunkEnding);
        }
        var data := buffer[..remaining];
        buffer := buffer[remaining + 2..];
        received := received + remaining;
        remaining := 0;
        phase := ChunkSize;
        return Next(View(), [BodyEvent(data)], false);
      }
      if |buffer| == 0 {
        return Stop;
      }
      var take := remaining;
      if take > |buffer| {
        take := |buffer|;
      }
      var data := buffer[..take];
      buffer := buffer[take..];
      remaining := remaining - take;
      received := received + take;
      if remaining == 0 {
        ResetMessage();
        return Next(View(), [BodyEvent(data)] + [EndEvent([])], true);
      }
      return Next(View(), [BodyEvent(data)], false);
    }

    method DecodeChunkSize() returns (r: StepResult)
      requires phase == ChunkSize && Wf(View())
      modifies this`buffer, this`phase, this`remaining
      ensures r == old(Step(limits, View()))
      ensures !r.Stop? ==> View() == r.codec
      ensures r.Stop? ==> View() == old(View())
    {
      var marker := ScanCrlf(buffer);
      if marker < 0 {
        return if |buffer| > 128 then Fail(View(), ChunkLineTooLong) else Stop;
      }
      if marker > 128 {
        return Fail(View(), ChunkLineTooLong);
      }
      var line := buffer[..marker];
      buffer := buffer[marker + 2..];
      var size := ParseChunkSizeLine(line);
      if size.Err? {
        return Fail(View(), BadChunkLine(size.error));
      }
      if size.value > limits.chunkBytes {
        return Fail(View(), ChunkTooLarge);
      }
      if received + size.value > limits.bodyBytes {
        return Fail(View(), BodyTooLarge);
      }
      if size.value == 0 {
        phase := InTrailers;
      } else {
        remaining, phase := size.value, ChunkData;
      }
      return Next(View(), [], false);
    }

    method DecodeTrailers() returns (r: StepResult)
      requires phase == InTrailers && Wf(View())
      modifies this`buffer, this`phase, this`remaining, this`received
      ensures r == old(Step(limits, View()))
      ensures !r.Stop? ==> View() == r.codec
      ensures r.Stop? ==> View() == old(View())
    {
      if |buffer| >= 2 && buffer[0] == 13 && buffer[1] == 10 {
        buffer := buffer[2..];
        ResetMessage();
        return Next(View(), [] + [EndEvent([])], true);
      }
      var marker := ScanDoubleCrlf(buffer);
      if marker < 0 {
        return if |buffer| > limits.headerBytes then Fail(View(), TrailersTooLarge) else Stop;
      }
      if marker + 4 > limits.headerBytes {
        return Fail(View(), TrailersTooLarge);
      }
      var block := buffer[..marker];
      buffer := buffer[marker + 4..];
      var trailers := ParseTrailers(limits, block);
      if trailers.Err? {
        return Fail(View(), trailers.error);
      }
      ResetMessage();
      return Next(View(), [] + [EndEvent(trailers.value)], true);
    }

    method Advance() returns (r: StepResult)
      requires Wf(View())
      modifies this`buffer, this`phase, this`remaining, this`received
      ensures r == old(Step(limits, View()))
      ensures !r.Stop? ==> View() == r.codec
      ensures r.Stop? ==> View() == old(View())
    {
      hide StepHead, StepFixed, StepChunkSize, StepChunkData, StepTrailers;
      match phase {
        case InHead => r := DecodeHead();
        case ChunkSize => r := DecodeChunkSize();
        case InTrailers => r := DecodeTrailers();
        case _ => r := DecodeBody();
      }
    }

    /** Decodes what the new bytes complete, at most `maxMessages` messages when that is
        positive; on an error the events are dropped. */
    method FeedData(data: bytes, maxMessages: nat) returns (r: Result<seq<Event>, RequestError>)
      requires Wf(View())
      modifies this
      ensures closed == old(closed)
      ensures old(closed) ==> View() == old(View()) && r == Err(ConnectionIsClosed)
      ensures !old(closed) ==>
                var o := Feed(limits, old(View()), data, maxMessages);
                && View() == o.codec
                && r == if o.error.Some? then Err(o.error.value) else Ok(o.events)
      ensures r.Ok? ==> Wf(View())
    {
      hide Step;
      if closed {
        return Err(ConnectionIsClosed);
      }
      buffer := buffer + data;
      ghost var start := View();
      var events: seq<Event> := [];
      var completed := 0;
      while true
        invariant Wf(start) && Wf(View()) && closed == old(closed)
        invariant 0 <= completed && (maxMessages > 0 ==> completed < maxMessages)
        invariant Run(limits, start, maxMessages)
               == After(events, Run(limits, View(), if maxMessages > 0 then maxMessages - completed else 0))
        decreases |buffer|
      {
        ghost var budget := if maxMessages > 0 then maxMessages - completed else 0;
        var step := Advance();
        match step {
          case Stop =>
            assert events + [] == events;
            return Ok(events);
          case Fail(_, e) =>
            return Err(e);
          case Next(d, more, done) =>
            if done {
              completed := completed + 1;
              if maxMessages > 0 && completed >= maxMessages {
                assert budget == 1;
                return Ok(events + more);
              }
            }
            AfterTwice(events, more, Run(limits, d, if done && budget > 0 then budget - 1 else budget));
            events := events + more;
        }
      }
    }

    /** The client closed its side. */
    method Eof() returns (r: Result<(), RequestError>)
      modifies this`closed
      ensures closed
      ensures r == if phase != InHead || buffer != [] then Err(IncompleteRequest) else Ok(())
    {
      closed := true;
      return if phase != InHead || |buffer| != 0 then Err(IncompleteRequest) else Ok(());
    }
  }
}
