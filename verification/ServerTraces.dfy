/** What the request decoder emits over a whole run, what it may leave in its buffer, and
    decoding message by message. */
module ServerTraces {
  import opened Octets
  import opened ChunkLine
  import opened Headers
  import opened ServerCodec
  import opened ServerFragments

  // ---------------------------------------------------------------- traces

  /** Between messages, or inside the body of one after so many body bytes. */
  datatype Place = Between | Inside(head: RequestHead, count: nat)

  /** A declared body is within the limit, or there is none. */
  predicate Bounded(L: Limits, h: RequestHead) {
    h.chunked || h.contentLength == 0 || 0 < h.contentLength <= L.bodyBytes
  }

  /** The message grammar (Head Body* End)*, with the body length it promises: a declared
      length is within the body limit and met exactly, an undeclared one stays within it. */
  function Move(L: Limits, p: Place, u: Unit): Option<Place> {
    match u
    case HeadUnit(h) => if p.Between? && Bounded(L, h) then Some(Inside(h, 0)) else None
    case ByteUnit(_) =>
      if p.Inside? && p.count < (if p.head.chunked then L.bodyBytes else p.head.contentLength)
      then Some(Inside(p.head, p.count + 1)) else None
    case EndUnit(_) =>
      if p.Inside? && (p.head.chunked || p.count == p.head.contentLength) then Some(Between) else None
  }

  function MoveAll(L: Limits, p: Place, us: seq<Unit>): Option<Place>
    decreases |us|
  {
    if us == [] then Some(p)
    else
      match Move(L, p, us[0])
      case None => None
      case Some(q) => MoveAll(L, q, us[1..])
  }

  lemma {:induction false} MoveAppend(L: Limits, p: Place, a: seq<Unit>, b: seq<Unit>)
    requires MoveAll(L, p, a).Some?
    ensures MoveAll(L, p, a + b) == MoveAll(L, MoveAll(L, p, a).value, b)
    decreases |a|
  {
    if a == [] {
      assert a + b == b;
    } else {
      assert (a + b)[1..] == a[1..] + b;
      MoveAppend(L, Move(L, p, a[0]).value, a[1..], b);
    }
  }

  lemma {:induction false} MoveBytes(L: Limits, p: Place, data: bytes)
    requires p.Inside?
    requires p.count + |data| <= (if p.head.chunked then L.bodyBytes else p.head.contentLength)
    ensures MoveAll(L, p, ByteUnits(data)) == Some(Inside(p.head, p.count + |data|))
    decreases |data|
  {
    if data != [] {
      assert ByteUnits(data)[1..] == ByteUnits(data[1..]);
      MoveBytes(L, Inside(p.head, p.count + 1), data[1..]);
    }
  }

  lemma MoveOne(L: Limits, p: Place, u: Unit)
    ensures MoveAll(L, p, [u]) == Move(L, p, u)
  {
    assert [u][1..] == [];
  }

  /** The decoder's own counters say where in the message it is. */
  predicate Placed(L: Limits, c: Codec, p: Place) {
    match c.phase
    case InHead => p.Between?
    case Fixed => p.Inside? && !p.head.chunked && p.count + c.remaining == p.head.contentLength <= L.bodyBytes
    case _ =>
      && p.Inside? && p.head.chunked && p.count == c.received
      && (c.received > 0 ==> c.received <= L.bodyBytes)
      && (c.phase == ChunkData ==> c.received + c.remaining <= L.bodyBytes)
  }

  lemma HeadLength(L: Limits, block: bytes)
    requires ParseHead(L, block).Ok?
    ensures var h := ParseHead(L, block).value;
            (!h.chunked ==> 0 <= h.contentLength && (h.contentLength > 0 ==> h.contentLength <= L.bodyBytes))
  {
    hide ParseRequestLine, ParseFields, CheckHost, Codings, KeepsAlive;
  }

  lemma HeadStepPlaced(L: Limits, c: Codec, p: Place)
    requires c.phase == InHead && Wf(c) && Placed(L, c, p) && StepHead(L, c).Next?
    ensures var s := StepHead(L, c);
            && MoveAll(L, p, Flat(s.events)).Some?
            && Placed(L, s.codec, MoveAll(L, p, Flat(s.events)).value)
  {
    hide ParseHead, MoveAll, Flat;
    var marker := FindDoubleCrlf(c.buffer);
    var h := ParseHead(L, c.buffer[..marker]).value;
    HeadLength(L, c.buffer[..marker]);
    var s := StepHead(L, c);
    FlatOne(HeadEvent(h));
    MoveOne(L, p, HeadUnit(h));
    if !HasBody(h) {
      assert s.events == [HeadEvent(h)] + [EndEvent([])];
      FlatAppend([HeadEvent(h)], [EndEvent([])]);
      FlatOne(EndEvent([]));
      MoveAppend(L, p, [HeadUnit(h)], [EndUnit([])]);
      MoveOne(L, Inside(h, 0), EndUnit([]));
    }
  }

  lemma BodyStepPlaced(L: Limits, c: Codec, p: Place)
    requires c.phase != InHead && Wf(c) && Placed(L, c, p) && Step(L, c).Next?
    ensures var s := Step(L, c);
            && MoveAll(L, p, Flat(s.events)).Some?
            && Placed(L, s.codec, MoveAll(L, p, Flat(s.events)).value)
  {
    hide ParseTrailers, ParseLine, MoveAll, Flat, ByteUnits;
    var s := Step(L, c);
    FlatNone();
    if s.events == [] {
      NoMove(L, p);
    } else {
      FlatOne(s.events[0]);
      var n := if s.events[0].BodyEvent? then |s.events[0].data| else 0;
      if s.events[0].BodyEvent? {
        MoveBytes(L, p, s.events[0].data);
      } else {
        MoveOne(L, p, EndUnit(s.events[0].trailers));
      }
      if |s.events| == 2 {
        assert s.events == [s.events[0]] + [EndEvent([])];
        FlatAppend([s.events[0]], [EndEvent([])]);
        FlatOne(EndEvent([]));
        MoveAppend(L, p, Flat([s.events[0]]), [EndUnit([])]);
        MoveOne(L, Inside(p.head, p.count + n), EndUnit([]));
      } else {
        assert s.events == [s.events[0]];
      }
    }
  }

  lemma NoMove(L: Limits, p: Place)
    ensures MoveAll(L, p, []) == Some(p)
  {
  }

  lemma {:induction false} RunTrace(L: Limits, c: Codec, p: Place, budget: nat)
    requires Wf(c) && Placed(L, c, p)
    ensures var o := Run(L, c, budget);
            && MoveAll(L, p, Flat(o.events)).Some?
            && (o.error.None? ==> Wf(o.codec) && Placed(L, o.codec, MoveAll(L, p, Flat(o.events)).value))
    decreases |c.buffer|
  {
    hide Step, Placed, MoveAll, Flat, Wf;
    FlatNone();
    NoMove(L, p);
    var s := Step(L, c);
    if s.Next? {
      StepPlaced(L, c, p);
      if !(s.done && budget == 1) {
        var q := MoveAll(L, p, Flat(s.events)).value;
        var left := if s.done && budget > 0 then budget - 1 else budget;
        RunTrace(L, s.codec, q, left);
        FlatAppend(s.events, Run(L, s.codec, left).events);
        MoveAppend(L, p, Flat(s.events), Flat(Run(L, s.codec, left).events));
      }
    }
  }

  lemma StepPlaced(L: Limits, c: Codec, p: Place)
    requires Wf(c) && Placed(L, c, p) && Step(L, c).Next?
    ensures var s := Step(L, c);
            && MoveAll(L, p, Flat(s.events)).Some?
            && Placed(L, s.codec, MoveAll(L, p, Flat(s.events)).value)
  {
    hide StepHead, StepFixed, StepChunkSize, StepChunkData, StepTrailers, Placed, MoveAll, Flat;
    if c.phase == InHead {
      HeadStepPlaced(L, c, p);
    } else {
      BodyStepPlaced(L, c, p);
    }
  }

  /** All the reads of a connection: bytes and message budget of each. */
  datatype Read = Read(data: bytes, budget: nat)

  function Reads(L: Limits, c: Codec, inputs: seq<Read>): Outcome
    requires Wf(c)
    decreases |inputs|
  {
    if inputs == [] then Outcome(c, [], None)
    else
      var o := Feed(L, c, inputs[0].data, inputs[0].budget);
      if o.error.Some? then o
      else
        RunWf(L, c.(buffer := c.buffer + inputs[0].data), inputs[0].budget);
        After(o.events, Reads(L, o.codec, inputs[1..]))
  }

  lemma {:induction false} RunWf(L: Limits, c: Codec, budget: nat)
    requires Wf(c)
    ensures Run(L, c, budget).error.None? ==> Wf(Run(L, c, budget).codec)
    decreases |c.buffer|
  {
    hide Step, Wf;
    var s := Step(L, c);
    if s.Next? && !(s.done && budget == 1) {
      RunWf(L, s.codec, if s.done && budget > 0 then budget - 1 else budget);
    }
  }

  lemma {:induction false} ReadsTrace(L: Limits, c: Codec, p: Place, inputs: seq<Read>)
    requires Wf(c) && Placed(L, c, p)
    ensures var o := Reads(L, c, inputs);
            && MoveAll(L, p, Flat(o.events)).Some?
            && (o.error.None? ==> Wf(o.codec) && Placed(L, o.codec, MoveAll(L, p, Flat(o.events)).value))
    decreases |inputs|
  {
    hide Run, Placed, MoveAll, Flat;
    FlatNone();
    NoMove(L, p);
    if inputs != [] {
      var d := c.(buffer := c.buffer + inputs[0].data);
      WfExtend(c, inputs[0].data);
      assert Placed(L, d, p) by { PlacedBuffer(L, c, d, p); }
      RunTrace(L, d, p, inputs[0].budget);
      var o := Feed(L, c, inputs[0].data, inputs[0].budget);
      if o.error.None? {
        var q := MoveAll(L, p, Flat(o.events)).value;
        ReadsTrace(L, o.codec, q, inputs[1..]);
        FlatAppend(o.events, Reads(L, o.codec, inputs[1..]).events);
        MoveAppend(L, p, Flat(o.events), Flat(Reads(L, o.codec, inputs[1..]).events));
      }
    }
  }

  lemma PlacedBuffer(L: Limits, c: Codec, d: Codec, p: Place)
    requires Placed(L, c, p) && d == c.(buffer := d.buffer)
    ensures Placed(L, d, p)
  {
  }

  /** Over a whole connection the emitted events are a prefix of (Head Body* End)*, every
      finished body has exactly the length its head declares, and no body passes the limit. */
  lemma ConnectionTrace(L: Limits, inputs: seq<Read>)
    ensures MoveAll(L, Between, Flat(Reads(L, Fresh, inputs).events)).Some?
  {
    hide MoveAll, Flat, Reads;
    ReadsTrace(L, Fresh, Between, inputs);
  }

  // ---------------------------------------------------------------- bounds

  function Max(a: int, b: int): int { if a >= b then a else b }

  lemma StopBound(L: Limits, c: Codec, p: Place)
    requires Wf(c) && Placed(L, c, p) && Step(L, c) == Stop
    requires c.phase == ChunkData ==> c.remaining <= L.chunkBytes
    ensures |c.buffer| <= Max(L.headerBytes, Max(128, L.chunkBytes + 1))
  {
    hide ParseHead, ParseTrailers, ParseLine;
  }

  /** A chunk being read fits the chunk limit. */
  predicate ChunkFits(L: Limits, c: Codec) {
    c.phase == ChunkData ==> c.remaining <= L.chunkBytes
  }

  lemma StepChunkFits(L: Limits, c: Codec)
    requires Wf(c) && ChunkFits(L, c) && Step(L, c).Next?
    ensures ChunkFits(L, Step(L, c).codec)
  {
    hide ParseHead, ParseTrailers, ParseLine;
  }

  lemma {:induction false} RunChunkFits(L: Limits, c: Codec, budget: nat)
    requires Wf(c) && ChunkFits(L, c)
    ensures Run(L, c, budget).error.None? ==> ChunkFits(L, Run(L, c, budget).codec)
    decreases |c.buffer|
  {
    hide Step, ChunkFits;
    var s := Step(L, c);
    if s.Next? {
      StepChunkFits(L, c);
      if !(s.done && budget == 1) {
        RunChunkFits(L, s.codec, if s.done && budget > 0 then budget - 1 else budget);
      }
    }
  }

  lemma {:induction false} ReadsChunkFit(L: Limits, c: Codec, inputs: seq<Read>)
    requires Wf(c) && ChunkFits(L, c)
    ensures var o := Reads(L, c, inputs);
            o.error.None? ==> Wf(o.codec) && ChunkFits(L, o.codec)
    decreases |inputs|
  {
    hide Run, Wf;
    if inputs != [] {
      var d := c.(buffer := c.buffer + inputs[0].data);
      WfExtend(c, inputs[0].data);
      RunChunkFits(L, d, inputs[0].budget);
      RunWf(L, d, inputs[0].budget);
      var o := Feed(L, c, inputs[0].data, inputs[0].budget);
      if o.error.None? {
        ReadsChunkFit(L, o.codec, inputs[1..]);
      }
    }
  }

  /** After any successful reads and one unlimited read, at most one incomplete unit stays
      buffered: its size is bounded by the limits, not by what the client sent. */
  lemma LeftoverBound(L: Limits, inputs: seq<Read>, data: bytes)
    requires Reads(L, Fresh, inputs).error.None?
    ensures Wf(Reads(L, Fresh, inputs).codec)
    ensures var o := Feed(L, Reads(L, Fresh, inputs).codec, data, 0);
            o.error.None? ==> |o.codec.buffer| <= Max(L.headerBytes, Max(128, L.chunkBytes + 1))
  {
    hide Run, MoveAll, Flat, Reads, Placed;
    assert Placed(L, Fresh, Between) by { FreshPlaced(L); }
    ReadsTrace(L, Fresh, Between, inputs);
    ReadsChunkFit(L, Fresh, inputs);
    var c := Reads(L, Fresh, inputs).codec;
    var p := MoveAll(L, Between, Flat(Reads(L, Fresh, inputs).events)).value;
    var d := c.(buffer := c.buffer + data);
    WfExtend(c, data);
    PlacedBuffer(L, c, d, p);
    var o := Feed(L, c, data, 0);
    if o.error.None? {
      RunTrace(L, d, p, 0);
      RunChunkFits(L, d, 0);
      RunEnd(L, d);
      StopBound(L, o.codec, MoveAll(L, p, Flat(o.events)).value);
    }
  }

  lemma FreshPlaced(L: Limits)
    ensures Placed(L, Fresh, Between)
  {
  }

  // ---------------------------------------------------------------- one message at a time

  /** Whether a read ended a message: its last event is an end. */
  predicate Ended(o: Outcome) {
    o.events != [] && o.events[|o.events| - 1].EndEvent?
  }

  /** `feed(data, 1)`, then `feed(b"", 1)` again for as long as messages come out. */
  function OneByOne(L: Limits, c: Codec): Outcome
    requires Wf(c)
    decreases |c.buffer|
  {
    var o := Run(L, c, 1);
    RunWf(L, c, 1);
    OneShrinks(L, c);
    if o.error.Some? || !Ended(o) then o
    else After(o.events, OneByOne(L, o.codec))
  }

  lemma {:induction false} OneShrinks(L: Limits, c: Codec)
    requires Wf(c)
    ensures var o := Run(L, c, 1);
            o.error.None? && Ended(o) ==> |o.codec.buffer| < |c.buffer|
    decreases |c.buffer|
  {
    hide Step, Wf;
    var s := Step(L, c);
    if s.Next? && !s.done {
      StepEnds(L, c);
      OneShrinks(L, s.codec);
      var rest := Run(L, s.codec, 1);
      if rest.events == [] {
        assert s.events + rest.events == s.events;
      }
    }
  }

  /** A step ends a message exactly when it is marked as doing so. */
  lemma StepEnds(L: Limits, c: Codec)
    requires Wf(c) && Step(L, c).Next?
    ensures var s := Step(L, c);
            s.done <==> s.events != [] && s.events[|s.events| - 1].EndEvent?
  {
    hide ParseHead, ParseTrailers, ParseLine;
  }

  /** An unlimited run is one message and then an unlimited run. */
  lemma {:induction false} OneThenAll(L: Limits, c: Codec)
    requires Wf(c)
    ensures Run(L, c, 1).error.None? ==> Wf(Run(L, c, 1).codec)
    ensures var o := Run(L, c, 1);
            Run(L, c, 0) == if o.error.None? && Ended(o) then After(o.events, Run(L, o.codec, 0)) else o
    decreases |c.buffer|
  {
    hide Step, Wf;
    RunWf(L, c, 1);
    var s := Step(L, c);
    if s.Next? {
      StepEnds(L, c);
      if !s.done {
        OneThenAll(L, s.codec);
        var rest := Run(L, s.codec, 1);
        if rest.error.None? && Ended(rest) {
          AfterTwice(s.events, rest.events, Run(L, rest.codec, 0));
        } else if rest.events == [] {
          assert s.events + rest.events == s.events;
        }
      }
    }
  }

  /** Decoding message by message equals decoding everything at once: same state, same
      events, same error. */
  lemma {:induction false} OneByOneIsAll(L: Limits, c: Codec)
    requires Wf(c)
    ensures OneByOne(L, c) == Run(L, c, 0)
    decreases |c.buffer|
  {
    hide Step, Wf, Run, Ended;
    RunWf(L, c, 1);
    OneThenAll(L, c);
    OneShrinks(L, c);
    var o := Run(L, c, 1);
    if o.error.None? && Ended(o) {
      OneByOneIsAll(L, o.codec);
    }
  }
}
