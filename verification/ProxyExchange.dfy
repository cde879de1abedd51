/** One request/response flow: two bounded queues, a response decoder, and the relay between. */
module ProxyExchanges {
  import opened Octets
  import opened Joining
  import opened Headers
  import opened Buffers
  import opened ChannelBuffers
  import opened BufferAccounts
  import opened ResponseRelay
  import opened ResponseTransparency
  import opened ExchangeHistory
  import U = UpstreamCodec
  import UF = UpstreamFragments
  import E = ResponseEncoder
  import RO = ResponseOutcome
  import Q = RequestRelay
  import QF = RequestFields
  import QO = RequestOutcome
  import QT = RequestTransparency
  import S = ServerCodec
  import SF = ServerFragments

  datatype ExchangeError =
    | BadConfiguration
    | NotWritable
    | NotReadable
    | Refused(refusal: Q.ProxyError)
    | Undecodable(decoding: U.UpstreamError)
    | Unencodable(encoding: E.EncodeError)
    | Unbuffered(buffering: QueueError)

  class ProxyExchange {
    const requestMethod: bytes
    const contentLength: int
    const chunkedRequest: bool
    const continueHandled: bool
    const accounts: Accounts
    const codec: U.Http1UpstreamCodec
    const toUpstream: ChannelBuffer
    const toDownstream: ChannelBuffer
    var requestSent: nat
    var requestFinished: bool
    var responseCommitted: bool
    var responseStatus: nat
    var responseFinished: bool
    var upstreamKeepAlive: bool
    var downstreamChunked: bool
    var cancelled: bool
    ghost const head: bytes
    ghost var requested: Requested
    ghost var responded: Responded

    ghost function Facing(): Side
      reads this
    {
      Side(requestMethod, continueHandled, responseCommitted, responseStatus, upstreamKeepAlive,
           downstreamChunked, responseFinished)
    }

    /** The parts are where they should be and the two queues share nothing. */
    ghost predicate Structure()
      reads this`cancelled, codec, accounts, accounts.queues, toUpstream, toUpstream.Repr, toDownstream,
            toDownstream.Repr
    {
      && toUpstream != toDownstream && toUpstream.Repr !! toDownstream.Repr
      && accounts.Balanced() && toUpstream in accounts.queues && toDownstream in accounts.queues
      && toUpstream.Valid() && toDownstream.Valid()
      && (toUpstream.closed <==> cancelled) && (toDownstream.closed <==> cancelled)
      && codec.limits.requestMethod == requestMethod && U.ValidLimits(codec.limits)
      && U.Wf(codec.View())
    }

    /** What was queued is what was handed out and what still waits, until the exchange is cancelled. */
    ghost predicate Flow()
      requires Structure()
      reads this`cancelled, this`requested, this`responded, codec, accounts, accounts.queues, toUpstream,
            toUpstream.Repr, toDownstream, toDownstream.Repr
    {
      if cancelled then toUpstream.Contents() == [] && toDownstream.Contents() == []
      else
        && requested.queued == requested.taken + toUpstream.Contents()
        && responded.queued == responded.taken + toDownstream.Contents()
    }

    ghost predicate History()
      reads this, codec
    {
      && (!chunkedRequest ==> contentLength >= 0)
      && RequestKept(requested, head, contentLength, chunkedRequest, requestSent, requestFinished)
      && ResponseKept(responded, codec.limits, codec.View(), Facing(), continueHandled)
      && (codec.closed && !responded.broken ==> responseFinished)
    }

    ghost predicate Valid()
      reads this, codec, accounts, accounts.queues, toUpstream, toUpstream.Repr, toDownstream, toDownstream.Repr
    {
      Structure() && Flow() && History()
    }

    /** Neither queue is made of anything the exchange changes directly. */
    lemma Apart()
      requires toUpstream.Valid() && toDownstream.Valid()
      ensures forall o <- toUpstream.Repr + toDownstream.Repr ::
                o != this && o != codec && o != accounts && o != toUpstream && o != toDownstream
                  && o !in accounts.queues
    {
      QueueObjects(accounts, toUpstream);
      QueueObjects(accounts, toDownstream);
    }

    /** Two empty queues, charged to the metric from now on. */
    static method OpenQueues(accounts: Accounts, segmentSize: nat, low: nat, high: nat, maxBytes: nat)
      returns (upstream: ChannelBuffer, downstream: ChannelBuffer)
      requires accounts.Balanced() && segmentSize > 0 && low < high <= maxBytes
      modifies accounts`queues
      ensures fresh(upstream) && fresh(downstream) && upstream != downstream && upstream.Repr !! downstream.Repr
      ensures upstream.Valid() && upstream.Contents() == [] && !upstream.closed && upstream.maxBytes == maxBytes
      ensures downstream.Valid() && downstream.Contents() == [] && !downstream.closed
      ensures accounts.Balanced() && accounts.queues == old(accounts.queues) + [upstream, downstream]
    {
      hide ChannelBuffer.Queue, ChannelBuffer.Accounted, Accounts.Balanced, Positioned, Left;
      upstream := new ChannelBuffer(segmentSize, low, high, maxBytes);
      downstream := new ChannelBuffer(segmentSize, low, high, maxBytes);
      upstream.Counted();
      downstream.Counted();
      accounts.Charge(upstream);
      accounts.Charge(downstream);
    }

    /** Two empty queues, charged to the metric, and a fresh decoder. */
    constructor Empty(requestMethod: bytes, contentLength: int, chunkedRequest: bool, continueHandled: bool,
                      accounts: Accounts, limits: U.Limits, segmentSize: nat, low: nat, high: nat, maxBytes: nat,
                      ghost head: bytes)
      requires accounts.Balanced() && segmentSize > 0 && low < high <= maxBytes
      requires U.ValidLimits(limits) && limits.requestMethod == requestMethod
      modifies accounts`queues
      ensures this.requestMethod == requestMethod && this.contentLength == contentLength
              && this.chunkedRequest == chunkedRequest
      ensures this.continueHandled == continueHandled && this.accounts == accounts && codec.limits == limits
              && this.head == head
      ensures Structure() && Flow() && !cancelled && requestSent == 0 && !requestFinished && !codec.closed
      ensures requested == Requested(false, [], [], [], [], []) && toUpstream.maxBytes == maxBytes
      ensures ResponseKept(responded, codec.limits, codec.View(), Facing(), continueHandled)
      ensures fresh(codec) && fresh(toUpstream) && fresh(toDownstream) && accounts.buffered == old(accounts.buffered)
    {
      hide ResponseKept, ChannelBuffer.Queue, ChannelBuffer.Accounted, Accounts.Balanced;
      this.requestMethod, this.contentLength, this.chunkedRequest := requestMethod, contentLength, chunkedRequest;
      this.continueHandled, this.accounts, this.head := continueHandled, accounts, head;
      requestSent, requestFinished, cancelled := 0, false, false;
      responseCommitted, responseStatus, responseFinished := false, 0, false;
      upstreamKeepAlive, downstreamChunked := false, false;
      codec := new U.Http1UpstreamCodec(limits);
      var upstream, downstream := OpenQueues(accounts, segmentSize, low, high, maxBytes);
      toUpstream, toDownstream := upstream, downstream;
      requested := Requested(false, [], [], [], [], []);
      responded := Responded(false, [], false, [], []);
      new;
      NothingRead(limits, continueHandled);
    }

    // ------------------------------------------------------------ towards the upstream

    /** The exchange's own fields are no part of its queues. */
    lemma Outside()
      requires Structure()
      ensures this !in toUpstream.Repr && this !in toDownstream.Repr && U.Wf(codec.View())
    {
      Apart();
    }

    lemma Books()
      requires Structure()
      ensures accounts.Balanced()
    {
    }

    lemma Opened()
      requires Structure() && Flow() && (!chunkedRequest ==> contentLength >= 0) && !codec.closed
      requires RequestKept(requested, head, contentLength, chunkedRequest, requestSent, requestFinished)
      requires ResponseKept(responded, codec.limits, codec.View(), Facing(), continueHandled)
      ensures Valid()
    {
      hide Structure, Flow, RequestKept, ResponseKept;
    }

    /** Records something about the request that queues and hands out nothing. */
    ghost method Note(next: Requested)
      requires Structure() && Flow() && next.queued == requested.queued && next.taken == requested.taken
      modifies this`requested
      ensures Structure() && Flow() && requested == next
    {
      Outside();
      hide ChannelBuffer.Valid, Accounts.Balanced;
      requested := next;
    }

    /** Queues bytes for the upstream; `next` is the history if that succeeds. */
    method AppendUpstream(data: bytes, ghost next: Requested) returns (r: Result<Transition, ExchangeError>)
      requires Structure() && Flow() && next.queued == requested.queued + data && next.taken == requested.taken
      modifies this`requested, accounts`buffered, toUpstream
      ensures Structure() && Flow() && Facing() == old(Facing())
      ensures r.Ok? ==> requested == next
      ensures r.Err? ==> r.error.Unbuffered? && requested == old(requested.(broken := true))
      ensures accounts.buffered == old(accounts.buffered) + if r.Ok? then |data| else 0
    {
      hide ChannelBuffer.Queue, ChannelBuffer.Accounted, Positioned, Left, Accounts.Balanced, OnlyBuffers,
           U.ValidLimits, U.Wf;
      Apart();
      var appended := Enqueue(accounts, toUpstream, data);
      if appended.Err? {
        requested := requested.(broken := true);
        return Err(Unbuffered(appended.error));
      }
      requested := next;
      return Ok(appended.value);
    }

    /** `feed_request_body(data)`. */
    method FeedRequestBody(data: bytes) returns (r: Result<Transition, ExchangeError>)
      requires Valid()
      modifies this`requestSent, this`requested, accounts`buffered, toUpstream
      ensures Valid()
      ensures old(cancelled || requestFinished) ==> r == Err(NotWritable)
      ensures r == Err(Refused(Q.RequestOverflow)) <==>
                !old(cancelled || requestFinished) && !chunkedRequest && old(requestSent) + |data| > contentLength
      ensures r.Ok? ==> requested == old(requested.(pieces := requested.pieces + [data],
                                                   queued := requested.queued + Q.BodyBytesFor(data, chunkedRequest)))
      ensures r.Err? ==> requested == if r.error.Unbuffered? then old(requested.(broken := true)) else old(requested)
    {
      hide RequestKept, ResponseKept, Q.BodyBytesFor, Structure, Flow;
      Outside();
      if cancelled || requestFinished {
        return Err(NotWritable);
      }
      if !chunkedRequest && requestSent + |data| > contentLength {
        return Err(Refused(Q.RequestOverflow));
      }
      MorePieces(requested, head, contentLength, chunkedRequest, requestSent, data);
      requestSent := requestSent + |data|;
      var framed := Q.BodyBytesFor(data, chunkedRequest);
      r := AppendUpstream(framed, requested.(pieces := requested.pieces + [data], queued := requested.queued + framed));
      BrokenKept();
    }

    /** Nothing is claimed of a direction after a call on it has failed. */
    lemma BrokenKept()
      ensures requested.broken ==>
                RequestKept(requested, head, contentLength, chunkedRequest, requestSent, requestFinished)
      ensures responded.broken ==> ResponseKept(responded, codec.limits, codec.View(), Facing(), continueHandled)
    {
    }

    /** The last chunk and the trailer section. */
    static method EncodeEnding(trailers: seq<Header>) returns (r: Result<bytes, ExchangeError>)
      ensures match Q.EndBytesFor(trailers, true)
              case Ok(ending) => r == Ok(ending)
              case Err(e) => r == Err(Refused(e))
    {
      hide Sanitize, Q.FramingTrailer, FieldLine, FieldLines, Terminated;
      EndingNone();
      var ts := SanitizeHopByHop(trailers);
      var ending: bytes := [48] + CRLF;
      ghost var lines := Q.Lowered(ts);
      assert lines[..0] == [];
      for k := 0 to |ts|
        invariant forall i :: 0 <= i < k ==> !Q.FramingTrailer(ts[i])
        invariant ending == [48] + CRLF + Terminated(FieldLines(lines[..k]))
      {
        if Q.FramingTrailer(ts[k]) {
          return Err(Refused(Q.BadTrailer));
        }
        EndingLine(lines, k);
        ending := ending + FieldLine(Lower(ts[k].name), ts[k].value) + CRLF;
      }
      assert lines[..|ts|] == lines;
      return Ok(ending + CRLF);
    }

    static lemma EndingNone()
      ensures Terminated(FieldLines([])) == []
    {
    }

    static lemma EndingLine(hs: seq<Header>, k: nat)
      requires k < |hs|
      ensures Terminated(FieldLines(hs[..k + 1])) == Terminated(FieldLines(hs[..k]))
                + FieldLine(hs[k].name, hs[k].value) + CRLF
    {
      assert hs[..k + 1] == hs[..k] + [hs[k]];
      E.FieldLinesAppend(hs[..k], [hs[k]]);
      var one: seq<Header> := [hs[k]];
      assert one[1..] == [];
      var line := FieldLine(hs[k].name, hs[k].value);
      assert FieldLines(one) == [line];
      assert FieldLines(hs[..k + 1]) == FieldLines(hs[..k]) + [line];
      TerminatedAppend(FieldLines(hs[..k]), [line]);
      var rest: seq<bytes> := [line];
      assert rest[1..] == [];
      assert Terminated([line]) == line + CRLF + [];
    }

    /** `finish_request(trailers)`. */
    method FinishRequest(trailers: seq<Header>) returns (r: Result<Transition, ExchangeError>)
      requires Valid()
      modifies this`requestFinished, this`requested, accounts`buffered, toUpstream
      ensures Valid()
      ensures old(requestFinished) ==> r == Ok(NoChange) && requested == old(requested)
      ensures r == Err(Refused(Q.RequestUnderflow)) <==>
                !old(requestFinished) && !chunkedRequest && requestSent != contentLength
      ensures requestFinished <==> r != Err(Refused(Q.RequestUnderflow))
      ensures !old(requestFinished) && r.Ok? ==>
                var ending := Q.EndBytesFor(trailers, chunkedRequest);
                && ending.Ok?
                && requested == old(requested.(trailers := trailers, ending := ending.value,
                     queued := requested.queued + ending.value))
      ensures r.Err? ==>
                requested == if r == Err(Refused(Q.RequestUnderflow)) then old(requested)
                  else old(requested.(broken := true))
    {
      hide RequestKept, ResponseKept, Q.EndBytesFor, Structure, Flow;
      Outside();
      if requestFinished {
        return Ok(NoChange);
      }
      if !chunkedRequest && requestSent != contentLength {
        return Err(Refused(Q.RequestUnderflow));
      }
      requestFinished := true;
      if !chunkedRequest {
        PlainEnding(trailers);
        Ended(requested, head, contentLength, false, requestSent, trailers, []);
        assert requested.queued + [] == requested.queued;
        Note(requested.(trailers := trailers, ending := []));
        return Ok(NoChange);
      }
      var ending := EncodeEnding(trailers);
      if ending.Err? {
        Note(requested.(broken := true));
        BrokenKept();
        EndingRefusal(trailers);
        return Err(ending.error);
      }
      Ended(requested, head, contentLength, true, requestSent, trailers, ending.value);
      r := AppendUpstream(ending.value,
        requested.(trailers := trailers, ending := ending.value, queued := requested.queued + ending.value));
      BrokenKept();
    }

    static lemma PlainEnding(trailers: seq<Header>)
      ensures Q.EndBytesFor(trailers, false) == Ok([])
    {
    }

    static lemma EndingRefusal(trailers: seq<Header>)
      ensures Q.EndBytesFor(trailers, true).Err? ==> Q.EndBytesFor(trailers, true) == Err(Q.BadTrailer)
    {
    }

    /** Hands out bytes for the upstream socket. */
    method TakeUpstream(limit: int) returns (data: bytes, resumed: bool)
      requires Valid()
      modifies this`requested, accounts`buffered, toUpstream, toUpstream.Repr
      ensures Valid()
      ensures requested == old(requested.(taken := requested.taken + data))
      ensures old(toUpstream.Contents()) == data + toUpstream.Contents()
      ensures |data| == if limit < 0 || limit > |old(toUpstream.Contents())| then |old(toUpstream.Contents())|
                else limit
      ensures resumed == (old(toUpstream.backpressured) && !toUpstream.backpressured)
    {
      hide RequestKept, ResponseKept, ChannelBuffer.Queue, ChannelBuffer.Accounted, Positioned, Left, Accounts.Balanced,
           OnlyBuffers,
           U.ValidLimits, U.Wf;
      Apart();
      var paused := toUpstream.backpressured;
      data := Dequeue(accounts, toUpstream, limit);
      requested := requested.(taken := requested.taken + data);
      resumed := paused && !toUpstream.backpressured;
      TakenKept();
    }

    twostate lemma TakenKept()
      requires requestSent == old(requestSent) && requestFinished == old(requestFinished)
      requires requested == old(requested).(taken := requested.taken)
      requires old(RequestKept(requested, head, contentLength, chunkedRequest, requestSent, requestFinished))
      ensures RequestKept(requested, head, contentLength, chunkedRequest, requestSent, requestFinished)
    {
    }

    // ------------------------------------------------------------ from the upstream

    /** `_append_downstream(data)`; `next` is the history if that succeeds. */
    method AppendDownstream(data: bytes, ghost next: Responded) returns (r: Result<Transition, ExchangeError>)
      requires Structure() && Flow() && next.queued == responded.queued + data && next.taken == responded.taken
      modifies this`responded, accounts`buffered, toDownstream
      ensures Structure() && Flow()
      ensures r.Ok? ==> responded == next
      ensures r.Err? ==> r.error.Unbuffered? && responded == old(responded.(broken := true))
      ensures accounts.buffered == old(accounts.buffered) + if r.Ok? then |data| else 0
    {
      hide ChannelBuffer.Queue, ChannelBuffer.Accounted, Positioned, Left, Accounts.Balanced, OnlyBuffers,
           U.ValidLimits, U.Wf;
      Apart();
      if data == [] {
        responded := next;
        return Ok(NoChange);
      }
      var appended := Enqueue(accounts, toDownstream, data);
      if appended.Err? {
        responded := responded.(broken := true);
        return Err(Unbuffered(appended.error));
      }
      responded := next;
      return Ok(appended.value);
    }

    ghost method NoteResponse(next: Responded)
      requires Structure() && Flow() && next.queued == responded.queued && next.taken == responded.taken
      modifies this`responded
      ensures Structure() && Flow() && responded == next
    {
      Outside();
      hide ChannelBuffer.Valid, Accounts.Balanced;
      responded := next;
    }

    /** The fields a relayed head keeps: no hop-by-hop field and no framing field. */
    static method OutgoingHeaders(headers: seq<Header>) returns (out: seq<Header>)
      ensures out == OutHeaders(headers)
    {
      hide Sanitize, Lower;
      var sanitized := SanitizeHopByHop(headers);
      out := [];
      assert sanitized[0..] == sanitized;
      for k := 0 to |sanitized|
        invariant WithoutFraming(sanitized) == out + WithoutFraming(sanitized[k..])
      {
        assert sanitized[k..][0] == sanitized[k] && sanitized[k..][1..] == sanitized[k + 1..];
        var lower := Lower(sanitized[k].name);
        if lower != CONTENT_LENGTH && lower != TRANSFER_ENCODING {
          out := out + [sanitized[k]];
        }
      }
      assert sanitized[|sanitized|..] == [] && out + [] == out;
    }

    /** The relay's part of a head: fields noted, head encoded and queued. */
    method DeliverHead(h: U.ResponseHead) returns (r: Result<Transition, ExchangeError>, ghost added: bytes)
      requires Structure() && Flow()
      modifies this`responseCommitted, this`responseStatus, this`upstreamKeepAlive, this`downstreamChunked,
               this`responded, accounts`buffered, toDownstream
      ensures Structure() && Flow()
      ensures r.Ok? ==> RelayHead(old(Facing()), h) == Ok(Relayed(Facing(), added))
                        && responded == old(responded.(queued := responded.queued + added))
      ensures r.Err? ==> (r.error.Unbuffered? || r.error.Unencodable?) && responded == old(responded.(broken := true))
    {
      hide E.HeadBytes, OutHeaders, Structure, Flow;
      Outside();
      added := [];
      var headers := OutgoingHeaders(h.headers);
      var length := h.contentLength;
      var chunked := false;
      if h.informational {
        if h.status == 100 && continueHandled {
          assert responded.queued + [] == responded.queued;
          return Ok(NoChange), [];
        }
        length := -1;
      } else {
        responseCommitted := true;
        responseStatus := h.status;
        upstreamKeepAlive := h.keepAlive;
        downstreamChunked := h.bodyExpected && h.contentLength < 0;
        chunked := downstreamChunked;
        if !h.bodyExpected && requestMethod != U.HEAD_METHOD && h.status != 304 {
          length := -1;
        }
        if chunked {
          length := -1;
        }
      }
      var output := E.EncodeHead(h.status, headers, length, chunked, true);
      if output.Err? {
        NoteResponse(responded.(broken := true));
        return Err(Unencodable(output.error)), [];
      }
      added := output.value;
      r := AppendDownstream(output.value, responded.(queued := responded.queued + added));
    }

    /** One event of the decoder, relayed. */
    method Deliver(event: U.Event) returns (r: Result<Transition, ExchangeError>, ghost added: bytes)
      requires Structure() && Flow()
      modifies this`responseCommitted, this`responseStatus, this`upstreamKeepAlive, this`downstreamChunked,
               this`responseFinished, this`responded, accounts`buffered, toDownstream
      ensures Structure() && Flow()
      ensures r.Ok? ==> RelayEvent(old(Facing()), event) == Ok(Relayed(Facing(), added))
                        && responded == old(responded.(queued := responded.queued + added))
      ensures r.Err? ==> (r.error.Unbuffered? || r.error.Unencodable?) && responded == old(responded.(broken := true))
    {
      hide RelayHead, E.EndBytes, E.ChunkBytes, Structure, Flow;
      Outside();
      added := [];
      match event {
        case HeadEvent(h) =>
          r, added := DeliverHead(h);
        case BodyEvent(data) =>
          var payload := data;
          if downstreamChunked {
            payload := E.EncodeChunk(data);
          }
          added := payload;
          r := AppendDownstream(payload, responded.(queued := responded.queued + added));
        case EndEvent(trailers) =>
          r := Ok(NoChange);
          if downstreamChunked {
            var ending := E.EncodeEnd(trailers);
            if ending.Err? {
              NoteResponse(responded.(broken := true));
              return Err(Unencodable(ending.error)), [];
            }
            added := ending.value;
            r := AppendDownstream(ending.value, responded.(queued := responded.queued + added));
            if r.Err? {
              return;
            }
          } else {
            assert responded.queued + [] == responded.queued;
          }
          Outside();
          responseFinished := true;
      }
    }

    /** Relays the decoder's events in order, stopping at the first that fails. */
    method DeliverAll(events: seq<U.Event>)
      returns (r: Result<Transition, ExchangeError>, ghost done: nat, ghost added: bytes)
      requires Structure() && Flow()
      modifies this`responseCommitted, this`responseStatus, this`upstreamKeepAlive, this`downstreamChunked,
               this`responseFinished, this`responded, accounts`buffered, toDownstream
      ensures Structure() && Flow() && done <= |events| && (r.Err? ==> r.error.Unbuffered? || r.error.Unencodable?)
      ensures RelayEvents(old(Facing()), events[..done]).Ok? && Relay(old(Facing()), events[..done]).output == added
      ensures responded == old(responded).(queued := old(responded.queued) + added,
                broken := old(responded.broken) || r.Err?)
      ensures events == [] ==> r == Ok(NoChange)
      ensures r.Ok? ==> done == |events| && RelayEvents(old(Facing()), events) == Ok(Relayed(Facing(), added))
    {
      hide RelayEvent, RelayEvents, Structure, Flow;
      Outside();
      var transition := NoChange;
      done, added := 0, [];
      assert events[..0] == [] && responded.queued + [] == responded.queued;
      RelayNone(Facing());
      for k := 0 to |events|
        invariant Structure() && Flow() && done == k
        invariant RelayEvents(old(Facing()), events[..k]) == Ok(Relayed(Facing(), added))
        invariant responded == old(responded).(queued := old(responded.queued) + added)
        invariant k == 0 ==> transition == NoChange
      {
        ghost var side := Facing();
        ghost var more;
        var one;
        one, more := Deliver(events[k]);
        if one.Err? {
          return one, done, added;
        }
        assert events[..k + 1] == events[..k] + [events[k]];
        RelayOne(side, events[k]);
        RelayAppend(old(Facing()), events[..k], [events[k]]);
        assert old(responded.queued) + added + more == old(responded.queued) + (added + more);
        added := added + more;
        done := k + 1;
        if one.value != NoChange {
          transition := one.value;
        }
      }
      assert events[..|events|] == events;
      r := Ok(transition);
    }

    /** Feeds the decoder. */
    method Decode(data: bytes) returns (r: Result<seq<U.Event>, U.UpstreamError>)
      requires Structure() && Flow()
      modifies codec
      ensures Structure() && Flow() && codec.closed == old(codec.closed)
      ensures !codec.closed ==>
                var o := U.Feed(codec.limits, old(codec.View()), data);
                codec.View() == o.codec && r == if o.error.Some? then Err(o.error.value) else Ok(o.events)
      ensures codec.closed ==> codec.View() == old(codec.View())
    {
      hide ChannelBuffer.Valid, ChannelBuffer.Contents, Accounts.Balanced, U.Feed, U.Wf, U.ValidLimits;
      DecoderApart();
      FeedKeepsWf(codec.limits, codec.View(), data);
      r := codec.FeedData(data);
    }

    lemma DecoderApart()
      requires Structure()
      ensures codec !in toUpstream.Repr && codec !in toDownstream.Repr
    {
      Apart();
    }

    /** `feed_upstream(data)`: a read from the upstream, decoded and relayed. */
    method FeedUpstream(data: bytes) returns (r: Result<Transition, ExchangeError>, ghost done: nat)
      requires Valid()
      modifies this`responseCommitted, this`responseStatus, this`upstreamKeepAlive, this`downstreamChunked,
               this`responseFinished, this`responded, codec, accounts`buffered, toDownstream
      ensures Valid()
      ensures old(cancelled || responseFinished) <==> r == Err(NotReadable)
      ensures r == Err(NotReadable) ==> responded == old(responded) && Facing() == old(Facing())
      ensures r.Err? && r != Err(NotReadable) ==> responded.broken
      ensures r.Ok? ==>
                responded.broken == old(responded.broken) && responded.fragments == old(responded.fragments) + [data]
      ensures !old(responded.broken) && r != Err(NotReadable) ==>
                var o := U.Feed(codec.limits, old(codec.View()), data);
                if o.error.Some? then r == Err(Undecodable(o.error.value)) && responded.queued == old(responded.queued)
                else
                  && done <= |o.events| && RelayEvents(old(Facing()), o.events[..done]).Ok?
                  && responded.queued == old(responded.queued) + Relay(old(Facing()), o.events[..done]).output
                  && (r.Ok? ==> done == |o.events|)
    {
      hide RequestKept, ResponseKept, RelayEvents, Structure, Flow;
      Outside();
      done := 0;
      if cancelled || responseFinished {
        return Err(NotReadable), 0;
      }
      ghost var c, s := codec.View(), Facing();
      var decoded := Decode(data);
      if decoded.Err? {
        NoteResponse(responded.(broken := true));
        BrokenKept();
        return Err(Undecodable(decoded.error)), 0;
      }
      ghost var added;
      r, done, added := DeliverAll(decoded.value);
      if r.Ok? {
        if !responded.broken {
          MoreRead(old(responded), codec.limits, c, s, continueHandled, data, Relayed(Facing(), added));
        }
        NoteResponse(responded.(fragments := responded.fragments + [data]));
      }
      BrokenKept();
    }

    method DecodeClose() returns (r: Result<seq<U.Event>, U.UpstreamError>)
      requires Structure() && Flow()
      modifies codec
      ensures Structure() && Flow()
      ensures r == if old(codec.phase) == U.UntilEof then Ok([U.EndEvent([])])
                   else if old(codec.phase) == U.Complete then Ok([]) else Err(U.IncompleteResponse)
      ensures codec.View() == if r == Ok([U.EndEvent([])]) then old(codec.View()).(phase := U.Complete)
                else old(codec.View())
    {
      hide ChannelBuffer.Valid, ChannelBuffer.Contents, Accounts.Balanced, U.ValidLimits;
      DecoderApart();
      r := codec.Eof();
    }

    /** `upstream_eof()`: the upstream closed its side. */
    method UpstreamEof() returns (r: Result<Transition, ExchangeError>)
      requires Valid()
      modifies this`responseCommitted, this`responseStatus, this`upstreamKeepAlive, this`downstreamChunked,
               this`responseFinished, this`responded, codec, accounts`buffered, toDownstream
      ensures Valid()
      ensures old(codec.phase) != U.UntilEof ==>
                && responded.queued == old(responded.queued)
                && r == if old(codec.phase) == U.Complete then Ok(NoChange) else Err(Undecodable(U.IncompleteResponse))
      ensures old(codec.phase) == U.UntilEof && r.Ok? ==>
                && RelayEvent(old(Facing()), U.EndEvent([])).Ok? && responseFinished
                && responded.queued == old(responded.queued) + RelayEvent(old(Facing()), U.EndEvent([])).value.output
                && responded.closed
      ensures responded.broken == (old(responded.broken) || r.Err?)
    {
      hide RequestKept, ResponseKept, RelayEvents, RelayEvent, Structure, Flow;
      Outside();
      CompleteFinished();
      ghost var c, s := codec.View(), Facing();
      var decoded := DecodeClose();
      if decoded.Err? {
        NoteResponse(responded.(broken := true));
        BrokenKept();
        return Err(Undecodable(decoded.error));
      }
      ghost var done, added;
      r, done, added := DeliverAll(decoded.value);
      if |decoded.value| == 1 {
        RelayOne(s, U.EndEvent([]));
        if r.Ok? {
          HeadKeepsFinished(s, U.EndEvent([]));
          if !responded.broken {
            ClosedRead(old(responded), codec.limits, c, s, continueHandled, Relayed(Facing(), added));
          }
          NoteResponse(responded.(closed := true));
        }
      } else {
        RelayNone(s);
        assert old(responded.queued) + [] == old(responded.queued);
      }
      BrokenKept();
    }

    lemma CompleteFinished()
      requires ResponseKept(responded, codec.limits, codec.View(), Facing(), continueHandled)
      ensures !responded.broken ==> (responseFinished <==> codec.phase == U.Complete)
    {
    }

    /** Hands out bytes for the client socket. */
    method TakeDownstream(limit: int) returns (data: bytes, resumed: bool)
      requires Valid()
      modifies this`responded, accounts`buffered, toDownstream, toDownstream.Repr
      ensures Valid()
      ensures responded == old(responded.(taken := responded.taken + data))
      ensures old(toDownstream.Contents()) == data + toDownstream.Contents()
      ensures |data| == if limit < 0 || limit > |old(toDownstream.Contents())| then |old(toDownstream.Contents())|
                else limit
      ensures resumed == (old(toDownstream.backpressured) && !toDownstream.backpressured)
    {
      hide RequestKept, ResponseKept, ChannelBuffer.Queue, ChannelBuffer.Accounted, Positioned, Left, Accounts.Balanced,
           OnlyBuffers,
           U.ValidLimits, U.Wf;
      Apart();
      ghost var before := responded;
      var paused := toDownstream.backpressured;
      data := Dequeue(accounts, toDownstream, limit);
      responded := responded.(taken := responded.taken + data);
      resumed := paused && !toDownstream.backpressured;
      HandedOut(before, codec.limits, codec.View(), Facing(), continueHandled, responded.taken);
    }

    static lemma HandedOut(h: Responded, L: U.Limits, c: U.Codec, s: Side, handled: bool, taken: bytes)
      requires ResponseKept(h, L, c, s, handled)
      ensures ResponseKept(h.(taken := taken), L, c, s, handled)
    {
    }

    /** `cancel(reason)`: both directions are dropped and their bytes given back. */
    method Cancel()
      requires Valid()
      modifies this`cancelled, accounts`buffered, toUpstream, toUpstream.Repr, toDownstream, toDownstream.Repr
      ensures Valid() && cancelled
      ensures !old(cancelled) ==> toUpstream.queuedBytes == 0 && toDownstream.queuedBytes == 0
    {
      hide RequestKept, ResponseKept, ChannelBuffer.Queue, ChannelBuffer.Accounted, Positioned, Left, Accounts.Balanced,
           OnlyBuffers,
           U.ValidLimits, U.Wf;
      if cancelled {
        return;
      }
      Apart();
      cancelled := true;
      DischargeBoth(accounts, toUpstream, toDownstream);
      toUpstream.Counted();
      toDownstream.Counted();
    }

    // ------------------------------------------------------------ what both peers read

    /** Once the request is finished and handed out, the upstream has been sent exactly the one
        request the client made, with the pieces fed as its body. */
    lemma RequestDelivered(L: S.Limits, big: S.Limits, block: bytes, r: Q.Route, trailerBlock: bytes)
      requires Valid() && !requested.broken && requestFinished && !cancelled && toUpstream.Contents() == []
      requires S.ParseHead(L, block).Ok? && S.ParseTrailers(L, trailerBlock) == Ok(requested.trailers)
      requires var h := S.ParseHead(L, block).value;
               && QO.RelayedHead(h, r, continueHandled) == Ok(head)
               && h.contentLength == contentLength && h.chunked == chunkedRequest
               && QO.Room(L, big, |Q.RequestLineBytes(Q.Upper(h.requestMethod), h.target)|,
                          |head| + |requested.ending|, |Concat(requested.pieces)|)
      ensures var h := S.ParseHead(L, block).value;
              var seen := QT.SeenHead(Q.Upper(h.requestMethod), h.target, Q.OutFields(h.headers, r, continueHandled),
                                      h.contentLength, h.chunked);
              QO.Reaches(big, S.Fresh, requested.taken, S.Fresh,
                         [SF.HeadUnit(seen)] + SF.ByteUnits(Concat(requested.pieces))
                         + [SF.EndUnit(if h.chunked then Sanitize(requested.trailers) else [])])
              && QF.ForwardedHead(h, r, continueHandled, seen)
    {
      hide *;
      HandedOutAll();
      WholeRequest(requested, head, contentLength, chunkedRequest, requestSent, L, big, block, r, continueHandled,
        trailerBlock);
    }

    lemma HandedOutAll()
      requires Valid() && !cancelled
      ensures RequestKept(requested, head, contentLength, chunkedRequest, requestSent, requestFinished)
      ensures ResponseKept(responded, codec.limits, codec.View(), Facing(), continueHandled)
      ensures toUpstream.Contents() == [] ==> requested.taken == requested.queued
      ensures toDownstream.Contents() == [] ==> responded.taken == responded.queued
    {
      hide RequestKept, ResponseKept, ChannelBuffer.Contents;
      assert requested.taken + [] == requested.taken;
      assert responded.taken + [] == responded.taken;
    }

    /** Once the response is finished and handed out, the client has been sent a complete
        response: its decoder ends in the complete state with the upstream's final status,
        body and sanitized trailers, however the reads were cut. */
    lemma ResponseDelivered(big: U.Limits)
      requires Valid() && !responded.broken && responseFinished && !cancelled && toDownstream.Contents() == []
      requires Covers(codec.limits, big, |responded.taken|)
      ensures var o := U.Feed(big, U.Fresh, responded.taken);
              && o.error.None? && o.codec.phase == U.Complete && o.codec.buffer == []
              && RO.SameResponse(codec.limits.requestMethod, continueHandled, UF.Flat(o.events),
                                 UF.Flat(AllEvents(codec.limits, responded.fragments, responded.closed)))
    {
      hide RequestKept, Structure, FeedAll, RelayEvents, Covers, RO.SameResponse, RO.DecodedHeads, UF.Flat, U.Run,
           SeenAll;
      assert responded.taken + [] == responded.taken;
      RelayTransparency(codec.limits, big, responded.fragments, responded.closed, continueHandled);
      CoversValid(codec.limits, big, |responded.taken|);
      RO.AllDecoded(codec.limits, responded.fragments, responded.closed);
      RO.SeenSameResponse(NewSide(codec.limits.requestMethod, continueHandled),
                          AllEvents(codec.limits, responded.fragments, responded.closed));
    }

    /** What the exchange tells its owner of the response is what the upstream's last final head
        said, and nothing before there was one. */
    lemma ResponseReported()
      requires Valid() && !responded.broken
      ensures Reports(Facing(), NewSide(codec.limits.requestMethod, continueHandled),
                      AllEvents(codec.limits, responded.fragments, responded.closed))
    {
      hide RequestKept, Structure, FeedAll, RelayEvents, Reports, HasEnd;
      RelayReports(NewSide(codec.limits.requestMethod, continueHandled),
                   AllEvents(codec.limits, responded.fragments, responded.closed));
    }

    /** At every moment before that, however much of it has been handed out, what the client has
        been sent decodes without error to the beginning of the response, and what is queued
        for it to the rest: nothing is lost, duplicated, reordered or invented. */
    lemma ResponseUnderway(big: U.Limits)
      requires Valid() && !responded.broken && !cancelled
      requires Covers(codec.limits, big, |responded.taken| + |toDownstream.Contents()|)
      ensures var o := U.Feed(big, U.Fresh, responded.taken);
              && o.error.None? && U.Wf(o.codec)
              && var rest := U.Feed(big, o.codec, toDownstream.Contents());
                 && rest.error.None? && rest.codec.buffer == []
                 && UF.Flat(o.events) + UF.Flat(rest.events)
                    == SeenAll(NewSide(codec.limits.requestMethod, continueHandled),
                               AllEvents(codec.limits, responded.fragments, responded.closed))
    {
      hide RequestKept, FeedAll, RelayEvents, Covers, AnyCut, UF.Flat, U.Run, SeenAll;
      var queue := toDownstream.Contents();
      assert |responded.taken + queue| == |responded.taken| + |queue|;
      RelayTransparency(codec.limits, big, responded.fragments, responded.closed, continueHandled);
      CoversValid(codec.limits, big, |responded.taken| + |queue|);
      CutReads(big, responded.taken, queue);
    }
  }

  lemma CoversValid(L: U.Limits, big: U.Limits, n: nat)
    requires Covers(L, big, n)
    ensures U.ValidLimits(big) && U.ValidLimits(L)
  {
  }

  /** What has arrived and what is to come read as one. */
  lemma CutReads(big: U.Limits, a: bytes, b: bytes)
    requires U.ValidLimits(big) && AnyCut(big, U.Fresh, a + b) && U.Feed(big, U.Fresh, a + b).error.None?
    ensures var o := U.Feed(big, U.Fresh, a);
            && o.error.None? && U.Wf(o.codec)
            && UF.SameMeaning(U.Feed(big, U.Fresh, a + b), o.events, U.Feed(big, o.codec, b))
  {
    hide U.Feed, UF.SameMeaning;
    assert (a + b)[..|a|] == a;
    UF.FeedSplit(big, U.Fresh, a, b);
  }

  // ---------------------------------------------------------------- opening an exchange

  /** The watermarks an exchange uses when the caller leaves them at -1. */
  function DefaultHigh(high: int, maxBytes: int): int {
    if high == -1 then (if maxBytes < 65536 then maxBytes else 65536) else high
  }

  function DefaultLow(low: int, high: int): int {
    if low == -1 then (if high / 2 < 32768 then high / 2 else 32768) else low
  }

  /** The defaults suit every positive bound. */
  lemma DefaultsAccepted(maxBytes: int)
    requires maxBytes > 0
    ensures var high := DefaultHigh(-1, maxBytes);
            var low := DefaultLow(-1, high);
            0 <= low < high <= maxBytes
  {
  }

  lemma FramedHead(requestMethod: bytes, target: bytes, headers: seq<Header>, route: Q.Route, contentLength: int,
                   chunked: bool, expectHandled: bool)
    requires Q.RequestHeadBytes(requestMethod, target, headers, route, contentLength, chunked, expectHandled).Ok?
    ensures chunked <==> contentLength < 0
  {
  }

  lemma SameLimits(limits: U.Limits, requestMethod: bytes)
    requires U.ValidLimits(limits)
    ensures U.ValidLimits(limits.(requestMethod := requestMethod))
  {
  }

  /** Encodes the request head and opens an exchange with the head queued for the upstream. */
  method Open(requestMethod: bytes, target: bytes, headers: seq<Header>, route: Q.Route, contentLength: int,
              chunked: bool, expectHandled: bool, segmentSize: int, lowMark: int, highMark: int, maxBytes: int,
              limits: U.Limits, accounts: Accounts)
    returns (r: Result<ProxyExchange, ExchangeError>)
    requires accounts.Balanced() && U.ValidLimits(limits)
    modifies accounts
    ensures accounts.Balanced()
    ensures r.Err? ==> accounts.buffered == old(accounts.buffered)
    ensures r.Ok? ==>
              && fresh(r.value) && r.value.Valid() && !r.value.cancelled && r.value.accounts == accounts
              && r.value.contentLength == contentLength && r.value.chunkedRequest == chunked
              && r.value.continueHandled == expectHandled
              && Q.RequestHeadBytes(Q.Upper(requestMethod), target, headers, route, contentLength, chunked,
                   expectHandled)
                 == Ok(r.value.head)
              && r.value.requested == Requested(false, [], [], [], r.value.head, [])
              && r.value.codec.limits == limits.(requestMethod := Q.Upper(requestMethod))
              && accounts.buffered == old(accounts.buffered) + |r.value.head|
  {
    hide *;
    if maxBytes <= 0 {
      return Err(BadConfiguration);
    }
    var high := DefaultHigh(highMark, maxBytes);
    var low := DefaultLow(lowMark, high);
    if segmentSize <= 0 || low < 0 || high <= low || maxBytes < high {
      return Err(BadConfiguration);
    }
    var relayed := Q.Upper(requestMethod);
    var out := Q.EncodeRequestHead(relayed, target, headers, route, contentLength, chunked, expectHandled);
    if out.Err? {
      return Err(Refused(out.error));
    }
    FramedHead(relayed, target, headers, route, contentLength, chunked, expectHandled);
    SameLimits(limits, relayed);
    var exchange := new ProxyExchange.Empty(relayed, contentLength, chunked, expectHandled, accounts,
                                            limits.(requestMethod := relayed), segmentSize, low, high, maxBytes,
                                              out.value);
    NothingFed(out.value, contentLength, chunked);
    var queued := exchange.AppendUpstream(out.value, exchange.requested.(queued := out.value));
    exchange.Books();
    if queued.Err? {
      return Err(queued.error);
    }
    exchange.Opened();
    return Ok(exchange);
  }
}
