/** What an exchange has done so far, as values, and what that history means to each side. */
module ExchangeHistory {
  import opened Octets
  import opened Joining
  import opened Headers
  import E = ResponseEncoder
  import U = UpstreamCodec
  import UF = UpstreamFragments
  import opened ResponseRelay
  import opened ResponseTransparency
  import RO = ResponseOutcome
  import Q = RequestRelay
  import QT = RequestTransparency
  import QO = RequestOutcome
  import QF = RequestFields
  import S = ServerCodec
  import SF = ServerFragments

  /** Towards the upstream: the pieces fed, the trailers, and the bytes queued and handed out.
      `broken` once a call has failed after the request head. */
  datatype Requested = Requested(broken: bool, pieces: seq<bytes>, trailers: seq<Header>, ending: bytes,
                                 queued: bytes, taken: bytes)

  /** From the upstream: the reads decoded so far, whether a close ended the response, and the
      bytes queued for the client and handed out. */
  datatype Responded = Responded(broken: bool, fragments: seq<bytes>, closed: bool, queued: bytes, taken: bytes)

  // ---------------------------------------------------------------- the request direction

  ghost predicate RequestKept(h: Requested, head: bytes, contentLength: int, chunked: bool, sent: nat, finished: bool) {
    !h.broken ==>
      && h.queued == head + QO.Pieces(h.pieces, chunked) + h.ending
      && sent == |Concat(h.pieces)|
      && (!chunked ==> sent <= contentLength && h.ending == [])
      && (if finished then Q.EndBytesFor(h.trailers, chunked) == Ok(h.ending) && (!chunked ==> sent == contentLength)
          else h.ending == [])
  }

  lemma {:induction false} PiecesAppend(pieces: seq<bytes>, data: bytes, chunked: bool)
    ensures QO.Pieces(pieces + [data], chunked) == QO.Pieces(pieces, chunked) + Q.BodyBytesFor(data, chunked)
  {
    hide Q.BodyBytesFor;
    if pieces == [] {
      var one: seq<bytes> := [data];
      assert pieces + one == one && one[1..] == [];
      assert QO.Pieces(one[1..], chunked) == [];
      assert Q.BodyBytesFor(data, chunked) + [] == Q.BodyBytesFor(data, chunked);
    } else {
      assert (pieces + [data])[1..] == pieces[1..] + [data];
      PiecesAppend(pieces[1..], data, chunked);
    }
  }

  lemma MorePieces(h: Requested, head: bytes, contentLength: int, chunked: bool, sent: nat, data: bytes)
    requires RequestKept(h, head, contentLength, chunked, sent, false)
    requires !chunked ==> sent + |data| <= contentLength
    ensures RequestKept(h.(pieces := h.pieces + [data], queued := h.queued + Q.BodyBytesFor(data, chunked)),
                        head, contentLength, chunked, sent + |data|, false)
  {
    hide QO.Pieces, Q.BodyBytesFor, Q.EndBytesFor;
    PiecesAppend(h.pieces, data, chunked);
    ConcatAppend(h.pieces, [data]);
    ConcatOne(data);
    if !h.broken {
      assert h.queued + Q.BodyBytesFor(data, chunked) == head + QO.Pieces(h.pieces + [data], chunked) + [];
    }
  }

  lemma Ended(h: Requested, head: bytes, contentLength: int, chunked: bool, sent: nat, trailers: seq<Header>,
              ending: bytes)
    requires RequestKept(h, head, contentLength, chunked, sent, false)
    requires Q.EndBytesFor(trailers, chunked) == Ok(ending) && (!chunked ==> sent == contentLength)
    ensures RequestKept(h.(trailers := trailers, ending := ending, queued := h.queued + ending),
                        head, contentLength, chunked, sent, true)
  {
    hide QO.Pieces, Q.Lowered;
    if !h.broken {
      assert h.queued + ending == head + QO.Pieces(h.pieces, chunked) + [] + ending;
    }
  }

  lemma NothingFed(head: bytes, contentLength: int, chunked: bool)
    requires !chunked ==> contentLength >= 0
    ensures RequestKept(Requested(false, [], [], [], head, []), head, contentLength, chunked, 0, false)
  {
    assert head + [] + [] == head;
  }

  /** A finished, unbroken request history is one request for the upstream's decoder. */
  lemma WholeRequest(h: Requested, head: bytes, contentLength: int, chunked: bool, sent: nat,
                     L: S.Limits, big: S.Limits, block: bytes, r: Q.Route, handled: bool, trailerBlock: bytes)
    requires RequestKept(h, head, contentLength, chunked, sent, true) && !h.broken
    requires S.ParseHead(L, block).Ok? && S.ParseTrailers(L, trailerBlock) == Ok(h.trailers)
    requires var p := S.ParseHead(L, block).value;
             && QO.RelayedHead(p, r, handled) == Ok(head)
             && p.contentLength == contentLength && p.chunked == chunked
             && QO.Room(L, big, |Q.RequestLineBytes(Q.Upper(p.requestMethod), p.target)|,
                        |head| + |h.ending|, |Concat(h.pieces)|)
    ensures var p := S.ParseHead(L, block).value;
            var seen := QT.SeenHead(Q.Upper(p.requestMethod), p.target, Q.OutFields(p.headers, r, handled),
                                    p.contentLength, p.chunked);
            QO.Reaches(big, S.Fresh, h.queued, S.Fresh,
                       [SF.HeadUnit(seen)] + SF.ByteUnits(Concat(h.pieces))
                       + [SF.EndUnit(if p.chunked then Sanitize(h.trailers) else [])])
            && QF.ForwardedHead(p, r, handled, seen)
  {
    hide QF.ForwardedHead;
    hide S.ParseHead, S.ParseTrailers, QO.RelayedHead, QO.Room, QO.Reaches, QO.Pieces, Q.EndBytesFor,
         Q.OutFields, QT.SeenHead, Sanitize;
    QO.RequestRelayed(L, big, block, r, handled, h.pieces, trailerBlock, head, h.ending);
  }

  // ---------------------------------------------------------------- the response direction

  predicate HasEnd(events: seq<U.Event>) {
    exists i :: 0 <= i < |events| && events[i].EndEvent?
  }

  lemma HasEndAppend(a: seq<U.Event>, b: seq<U.Event>)
    ensures HasEnd(a + b) <==> HasEnd(a) || HasEnd(b)
  {
    if HasEnd(a) {
      var i :| 0 <= i < |a| && a[i].EndEvent?;
      assert (a + b)[i].EndEvent?;
    }
    if HasEnd(b) {
      var i :| 0 <= i < |b| && b[i].EndEvent?;
      assert (a + b)[|a| + i].EndEvent?;
    }
  }

  lemma StepEnds(L: U.Limits, c: U.Codec)
    requires U.Wf(c) && U.Step(L, c).Next?
    ensures U.Step(L, c).codec.phase == U.Complete <==> HasEnd(U.Step(L, c).events)
  {
    hide U.ParseHead, U.ParseTrailers, FindDoubleCrlf, FindCrlf;
    var r := U.Step(L, c);
    var es := r.events;
    if r.codec.phase == U.Complete {
      assert es[|es| - 1].EndEvent?;
    } else {
      assert |es| <= 1;
    }
  }

  /** The decoder is done exactly when it has emitted the end of the response. */
  lemma {:induction false} RunEnds(L: U.Limits, c: U.Codec)
    requires U.Wf(c) && c.phase != U.Complete
    ensures U.Run(L, c).error.None? ==> (U.Run(L, c).codec.phase == U.Complete <==> HasEnd(U.Run(L, c).events))
    decreases |c.buffer|
  {
    hide U.Step, HasEnd;
    var t := U.Step(L, c);
    if t.Next? {
      StepEnds(L, c);
      HasEndAppend(t.events, U.Run(L, t.codec).events);
      if t.codec.phase == U.Complete {
        CompleteStops(L, t.codec);
      } else {
        RunEnds(L, t.codec);
      }
    } else {
      NoEnd();
    }
  }

  lemma NoEnd()
    ensures !HasEnd([])
  {
  }

  lemma CompleteStops(L: U.Limits, c: U.Codec)
    requires U.Wf(c) && c.phase == U.Complete
    ensures U.Run(L, c) == U.Outcome(c, [], None)
  {
  }

  lemma {:induction false} RelayFinishes(s: Side, events: seq<U.Event>)
    requires RelayEvents(s, events).Ok?
    ensures Relay(s, events).side.finished <==> s.finished || HasEnd(events)
    decreases |events|
  {
    hide HasEnd, RelayHead, E.EndBytes;
    if events == [] {
      NoEnd();
    } else {
      var x := RelayEvent(s, events[0]);
      RelayFinishes(x.value.side, events[1..]);
      OneEnd(events[0]);
      HeadKeepsFinished(s, events[0]);
      assert events == [events[0]] + events[1..];
      HasEndAppend([events[0]], events[1..]);
    }
  }

  lemma OneEnd(e: U.Event)
    ensures HasEnd([e]) <==> e.EndEvent?
  {
    assert [e][0] == e;
  }

  lemma HeadKeepsFinished(s: Side, e: U.Event)
    requires RelayEvent(s, e).Ok?
    ensures RelayEvent(s, e).value.side.finished <==> s.finished || e.EndEvent?
  {
    hide E.HeadBytes, E.EndBytes;
  }

  predicate IsFinal(e: U.Event) {
    e.HeadEvent? && !e.head.informational
  }

  /** What the exchange reports of the response: that of the last final head, or what it was. */
  predicate Reports(side: Side, before: Side, events: seq<U.Event>)
    decreases |events|
  {
    if events == [] then
      && side.committed == before.committed && side.status == before.status
      && side.keepAlive == before.keepAlive && side.chunked == before.chunked
    else
      var e := events[|events| - 1];
      if IsFinal(e) then
        && side.committed && side.status == e.head.status && side.keepAlive == e.head.keepAlive
        && (side.chunked <==> e.head.bodyExpected && e.head.contentLength < 0)
      else Reports(side, before, events[..|events| - 1])
  }

  lemma {:induction false} RelayReports(s: Side, events: seq<U.Event>)
    requires RelayEvents(s, events).Ok?
    ensures Reports(Relay(s, events).side, s, events)
    decreases |events|
  {
    hide RelayEvent, Relay, Reports;
    if events == [] {
      RelayNone(s);
      RelayIs(s, events);
      NothingReported(s);
    } else {
      var most, e := events[..|events| - 1], events[|events| - 1];
      assert events == most + [e];
      RelayAppend(s, most, [e]);
      RelayReports(s, most);
      var side := RelayEvents(s, most).value.side;
      RelayOne(side, e);
      RelayIs(s, events);
      RelayIs(s, most);
      EventReports(s, most, e, side);
    }
  }

  lemma NothingReported(s: Side)
    ensures Reports(s, s, [])
  {
  }

  lemma RelayIs(s: Side, events: seq<U.Event>)
    requires RelayEvents(s, events).Ok?
    ensures Relay(s, events) == RelayEvents(s, events).value
  {
  }

  lemma EventReports(s: Side, most: seq<U.Event>, e: U.Event, side: Side)
    requires Reports(side, s, most) && RelayEvent(side, e).Ok?
    ensures Reports(RelayEvent(side, e).value.side, s, most + [e])
  {
    hide E.HeadBytes, E.EndBytes;
    assert (most + [e])[..|most|] == most;
    if !IsFinal(e) {
      SameReport(s, most, side, RelayEvent(side, e).value.side);
    }
  }

  lemma {:induction false} SameReport(s: Side, most: seq<U.Event>, a: Side, b: Side)
    requires Reports(a, s, most) && Reports(b, a, [])
    ensures Reports(b, s, most)
    decreases |most|
  {
    if most != [] && !IsFinal(most[|most| - 1]) {
      SameReport(s, most[..|most| - 1], a, b);
    }
  }

  /** The client's side is the relay of everything the upstream decoder has emitted. */
  ghost predicate ResponseKept(h: Responded, L: U.Limits, c: U.Codec, s: Side, continueHandled: bool) {
    !h.broken ==>
      && var o := FeedAll(L, U.Fresh, h.fragments);
         && o.error.None?
         && (h.closed ==> o.codec.phase == U.UntilEof)
         && c == (if h.closed then o.codec.(phase := U.Complete) else o.codec)
         && RelayEvents(NewSide(L.requestMethod, continueHandled), AllEvents(L, h.fragments, h.closed))
            == Ok(Relayed(s, h.queued))
         && (s.finished <==> c.phase == U.Complete)
  }

  lemma {:induction false} FeedAllMore(L: U.Limits, c: U.Codec, fragments: seq<bytes>, data: bytes)
    requires U.Wf(c) && FeedAll(L, c, fragments).error.None?
    ensures var o := FeedAll(L, c, fragments);
            FeedAll(L, c, fragments + [data]) == U.After(o.events, U.Feed(L, o.codec, data))
    decreases |fragments|
  {
    hide U.Feed;
    if fragments == [] {
      var one: seq<bytes> := [data];
      assert fragments + one == one && one[1..] == [];
      var o := U.Feed(L, c, data);
      if o.error.None? {
        FeedWf(L, c, data);
        assert FeedAll(L, o.codec, one[1..]) == U.Outcome(o.codec, [], None);
        assert o.events + [] == o.events;
      }
    } else {
      assert (fragments + [data])[1..] == fragments[1..] + [data];
      var o := U.Feed(L, c, fragments[0]);
      FeedWf(L, c, fragments[0]);
      FeedAllMore(L, o.codec, fragments[1..], data);
      var rest := FeedAll(L, o.codec, fragments[1..]);
      U.AfterTwice(o.events, rest.events, U.Feed(L, rest.codec, data));
    }
  }

  /** One more successful read, relayed, extends the history. */
  lemma MoreRead(h: Responded, L: U.Limits, c: U.Codec, s: Side, continueHandled: bool, data: bytes, x: Relayed)
    requires ResponseKept(h, L, c, s, continueHandled) && !s.finished && U.Wf(c)
    requires var o := U.Feed(L, c, data); o.error.None? && RelayEvents(s, o.events) == Ok(x)
    ensures ResponseKept(h.(fragments := h.fragments + [data], queued := h.queued + x.output),
                         L, U.Feed(L, c, data).codec, x.side, continueHandled)
  {
    hide U.Run, FeedAll, RelayEvents, HasEnd;
    if !h.broken {
      var start := NewSide(L.requestMethod, continueHandled);
      var o := FeedAll(L, U.Fresh, h.fragments);
      var more := U.Feed(L, c, data);
      FeedAllMore(L, U.Fresh, h.fragments, data);
      RelayAppend(start, o.events, more.events);
      assert AllEvents(L, h.fragments, false) == o.events;
      assert AllEvents(L, h.fragments + [data], false) == o.events + more.events;
      RunEnds(L, c.(buffer := c.buffer + data));
      RelayFinishes(s, more.events);
    }
  }

  /** So does the close that ends a response of unknown length. */
  lemma ClosedRead(h: Responded, L: U.Limits, c: U.Codec, s: Side, continueHandled: bool, x: Relayed)
    requires ResponseKept(h, L, c, s, continueHandled) && c.phase == U.UntilEof
    requires RelayEvent(s, U.EndEvent([])) == Ok(x)
    ensures ResponseKept(h.(closed := true, queued := h.queued + x.output),
                         L, c.(phase := U.Complete), x.side, continueHandled)
  {
    hide U.Run, FeedAll, RelayEvents, HasEnd, RelayEvent;
    if !h.broken {
      var start := NewSide(L.requestMethod, continueHandled);
      var o := FeedAll(L, U.Fresh, h.fragments);
      RelayAppend(start, o.events, [U.EndEvent([])]);
      RelayOne(s, U.EndEvent([]));
      assert AllEvents(L, h.fragments, false) == o.events;
      HeadKeepsFinished(s, U.EndEvent([]));
    }
  }

  /** A failed read leaves the decoder in a state it can still be called in. */
  lemma {:induction false} RunKeepsWf(L: U.Limits, c: U.Codec)
    requires U.Wf(c)
    ensures U.Wf(U.Run(L, c).codec)
    decreases |c.buffer|
  {
    hide U.StepHead, U.StepChunkSize, U.StepTrailers;
    match U.Step(L, c)
    case Stop =>
    case Fail(d, e) => FailKeepsWf(L, c);
    case Next(d, events) => RunKeepsWf(L, d);
  }

  lemma FailKeepsWf(L: U.Limits, c: U.Codec)
    requires U.Wf(c) && U.Step(L, c).Fail?
    ensures U.Wf(U.Step(L, c).codec)
  {
    hide U.ParseHead, U.ParseTrailers, FindDoubleCrlf, FindCrlf;
  }

  lemma FeedKeepsWf(L: U.Limits, c: U.Codec, data: bytes)
    requires U.Wf(c)
    ensures U.Wf(U.Feed(L, c, data).codec)
  {
    hide U.Run;
    if c.phase != U.Complete {
      RunKeepsWf(L, c.(buffer := c.buffer + data));
    }
  }

  lemma NothingRead(L: U.Limits, continueHandled: bool)
    ensures ResponseKept(Responded(false, [], false, [], []), L, U.Fresh, NewSide(L.requestMethod, continueHandled),
              continueHandled)
  {
    var events := AllEvents(L, [], false);
    assert events == [];
    RelayNone(NewSide(L.requestMethod, continueHandled));
  }
}
