/** Fragmentation independence of the request decoder. */
module ServerFragments {
  import opened Octets
  import opened ChunkLine
  import opened Headers
  import opened ServerCodec

  /** Events with every body chunk spelled out byte by byte, so that adjacent chunks merge. */
  datatype Unit = HeadUnit(head: RequestHead) | ByteUnit(b: byte) | EndUnit(trailers: seq<Header>)

  function ByteUnits(data: bytes): (r: seq<Unit>)
    ensures |r| == |data| && forall i :: 0 <= i < |data| ==> r[i] == ByteUnit(data[i])
  {
    seq(|data|, i requires 0 <= i < |data| => ByteUnit(data[i]))
  }

  function Units(e: Event): seq<Unit> {
    match e
    case HeadEvent(h) => [HeadUnit(h)]
    case BodyEvent(data) => ByteUnits(data)
    case EndEvent(ts) => [EndUnit(ts)]
  }

  function Flat(events: seq<Event>): seq<Unit> {
    if events == [] then [] else Units(events[0]) + Flat(events[1..])
  }

  lemma {:induction false} FlatAppend(a: seq<Event>, b: seq<Event>)
    ensures Flat(a + b) == Flat(a) + Flat(b)
  {
    if a == [] {
      assert a + b == b;
    } else {
      assert (a + b)[1..] == a[1..] + b;
      FlatAppend(a[1..], b);
    }
  }

  lemma FlatOne(e: Event)
    ensures Flat([e]) == Units(e)
  {
    assert [e][1..] == [];
  }

  lemma FlatNone()
    ensures Flat([]) == []
  {
  }

  function Extend(c: Codec, x: bytes): Codec {
    c.(buffer := c.buffer + x)
  }

  /** A length-delimited body whose buffered bytes do not complete it. */
  predicate Partial(c: Codec) {
    c.phase == Fixed && |c.buffer| < c.remaining
  }

  /** A chunk-size line of the longest accepted length, cut between its CR and its LF. */
  predicate CutChunkLine(c: Codec) {
    c.phase == ChunkSize && |c.buffer| == 129 && c.buffer[128] == 13 && FindCrlf(c.buffer) < 0
  }

  /** The early guard on a request line whose line end has not arrived. */
  predicate LongRequestLine(L: Limits, c: Codec) {
    && c.phase == InHead && FindCrlf(c.buffer) < 0 && FindDoubleCrlf(c.buffer) < 0
    && |c.buffer| <= L.headerBytes && |c.buffer| > L.requestLine
  }

  /** A request line of the longest accepted length, cut between its CR and its LF. */
  predicate CutRequestLine(L: Limits, c: Codec) {
    LongRequestLine(L, c) && 0 <= L.requestLine == |c.buffer| - 1 && c.buffer[L.requestLine] == 13
  }

  predicate EarlyGuard(L: Limits, c: Codec) {
    CutChunkLine(c) || LongRequestLine(L, c)
  }

  /** The step on a buffer and the step on an extension of it: a complete unit is decoded
      alike; an error stays an error except where an early guard fired. */
  predicate Agree(L: Limits, c: Codec, s: StepResult, t: StepResult, x: bytes) {
    && (s.Next? ==> t == Next(Extend(s.codec, x), s.events, s.done))
    && (s.Fail? ==> t.Fail? || CutChunkLine(c) || (LongRequestLine(L, c) && (CutRequestLine(L, c) || t.Stop?)))
  }

  lemma HeadExtend(L: Limits, c: Codec, x: bytes)
    requires c.phase == InHead
    ensures Agree(L, c, StepHead(L, c), StepHead(L, Extend(c, x)), x)
  {
    hide ParseHead;
    FindDoubleCrlfExtend(c.buffer, x);
    FindCrlfExtend(c.buffer, x);
    var marker := FindDoubleCrlf(c.buffer);
    if marker >= 0 {
      Slices(c.buffer, x, marker);
      Slices(c.buffer, x, marker + 4);
    } else if LongRequestLine(L, c) && StepHead(L, Extend(c, x)).Next? {
      var later := FindDoubleCrlf(c.buffer + x);
      AcceptedLine(L, c.buffer + x, later);
      var p := FindCrlf(c.buffer + x);
      assert CrlfAt(c.buffer + x, p);
    }
  }

  /** A head that parses has its first line end within the request-line limit. */
  lemma AcceptedLine(L: Limits, b: bytes, marker: int)
    requires marker == FindDoubleCrlf(b) >= 0 && ParseHead(L, b[..marker]).Ok?
    ensures 0 <= FindCrlf(b) <= L.requestLine
  {
    hide ParseFields, ParseFraming, CheckHost, Codings;
    var block := b[..marker];
    var line := SplitCrlf(block)[0];
    assert |line| <= L.requestLine;
    var m := FindCrlf(block);
    if m >= 0 {
      assert CrlfAt(b, m);
      assert line == block[..m];
    } else {
      assert CrlfAt(b, marker);
      assert line == block;
    }
  }

  lemma ChunkSizeExtend(L: Limits, c: Codec, x: bytes)
    requires c.phase == ChunkSize
    ensures Agree(L, c, StepChunkSize(L, c), StepChunkSize(L, Extend(c, x)), x)
  {
    hide ParseLine;
    FindCrlfExtend(c.buffer, x);
    var marker := FindCrlf(c.buffer);
    if marker >= 0 {
      Slices(c.buffer, x, marker);
      Slices(c.buffer, x, marker + 2);
    } else if |c.buffer| > 128 {
      var later := FindCrlf(c.buffer + x);
      if 0 <= later <= 128 {
        assert CrlfAt(c.buffer + x, later);
      }
    }
  }

  lemma TrailersExtend(L: Limits, c: Codec, x: bytes)
    requires c.phase == InTrailers && ValidLimits(L)
    ensures Agree(L, c, StepTrailers(L, c), StepTrailers(L, Extend(c, x)), x)
  {
    hide ParseTrailers;
    FindDoubleCrlfExtend(c.buffer, x);
    var marker := FindDoubleCrlf(c.buffer);
    if |c.buffer| >= 2 {
      Slices(c.buffer, x, 2);
      assert CrlfAt(c.buffer, 0) == CrlfAt(c.buffer + x, 0);
    }
    if marker >= 0 {
      Slices(c.buffer, x, marker);
      Slices(c.buffer, x, marker + 4);
    }
  }

  lemma BodyExtend(L: Limits, c: Codec, x: bytes)
    requires Wf(c) && !Partial(c) && (c.phase == Fixed || c.phase == ChunkData)
    ensures Agree(L, c, Step(L, c), Step(L, Extend(c, x)), x)
  {
    var n := if c.phase == ChunkData then c.remaining + 2 else c.remaining;
    if n <= |c.buffer| {
      Slices(c.buffer, x, c.remaining);
      Slices(c.buffer, x, n);
      assert CrlfAt(c.buffer, c.remaining) == CrlfAt(c.buffer + x, c.remaining) || c.phase == Fixed;
    }
  }

  lemma StepExtend(L: Limits, c: Codec, x: bytes)
    requires ValidLimits(L) && Wf(c) && Wf(Extend(c, x)) && !Partial(c)
    ensures Agree(L, c, Step(L, c), Step(L, Extend(c, x)), x)
  {
    hide StepHead, StepFixed, StepChunkSize, StepChunkData, StepTrailers, Agree;
    match c.phase
    case InHead => HeadExtend(L, c, x);
    case ChunkSize => ChunkSizeExtend(L, c, x);
    case InTrailers => TrailersExtend(L, c, x);
    case _ => BodyExtend(L, c, x);
  }

  /** Two ways of decoding end alike: same state, same error, same merged events. */
  predicate SameMeaning(o: Outcome, events: seq<Event>, p: Outcome) {
    o.codec == p.codec && o.error == p.error && Flat(o.events) == Flat(events) + Flat(p.events)
  }

  lemma PartialSplit(L: Limits, c: Codec, x: bytes)
    requires Wf(c) && Partial(c) && c.buffer != [] && x != []
    ensures var s := Step(L, c);
            && s.Next? && !s.done && s.events == [BodyEvent(c.buffer)] && s.codec.buffer == []
            && Wf(Extend(s.codec, x)) && Wf(Extend(c, x))
            && var n := Min(s.codec.remaining, |x|);
               var whole, rest := Step(L, Extend(c, x)), Step(L, Extend(s.codec, x));
               && rest.Next? && |rest.events| > 0 && rest.events[0] == BodyEvent(x[..n])
               && whole == Next(rest.codec, [BodyEvent(c.buffer + x[..n])] + rest.events[1..], rest.done)
  {
    var d := Step(L, c).codec;
    var k := |c.buffer|;
    assert c.buffer[..k] == c.buffer;
    assert Extend(d, x).buffer == x;
    var n := Min(d.remaining, |x|);
    assert (c.buffer + x)[..k + n] == c.buffer + x[..n];
    assert (c.buffer + x)[k + n..] == x[n..];
  }

  lemma FlatSplitChunk(a: bytes, b: bytes, rest: seq<Event>)
    ensures Flat([BodyEvent(a + b)] + rest) == Flat([BodyEvent(a)]) + Flat([BodyEvent(b)] + rest)
  {
    FlatAppend([BodyEvent(a + b)], rest);
    FlatAppend([BodyEvent(b)], rest);
    FlatOne(BodyEvent(a));
    FlatOne(BodyEvent(b));
    FlatOne(BodyEvent(a + b));
    assert ByteUnits(a + b) == ByteUnits(a) + ByteUnits(b);
  }

  lemma WfExtend(c: Codec, x: bytes)
    requires Wf(c)
    ensures Wf(Extend(c, x)) && (x == [] ==> Extend(c, x) == c)
  {
  }

  lemma PartialStep(L: Limits, c: Codec, x: bytes)
    requires Wf(c) && Partial(c) && c.buffer != [] && x != []
    ensures Step(L, c).Next?
    ensures var d := Extend(Step(L, c).codec, x);
            Wf(d) && Wf(Extend(c, x)) && SameMeaning(Run(L, Extend(c, x), 0), Step(L, c).events, Run(L, d, 0))
  {
    hide Step, Partial, Extend, Flat;
    PartialSplit(L, c, x);
    var s := Step(L, c);
    var rest := Step(L, Extend(s.codec, x));
    var n := Min(s.codec.remaining, |x|);
    var tail := rest.events[1..];
    var o := Run(L, rest.codec, 0);
    FlatSplitChunk(c.buffer, x[..n], tail);
    assert rest.events == [BodyEvent(x[..n])] + tail;
    FlatAppend([BodyEvent(c.buffer + x[..n])] + tail, o.events);
    FlatAppend(rest.events, o.events);
  }

  lemma PartialStops(L: Limits, c: Codec)
    requires Wf(c) && Partial(c)
    ensures var s := Step(L, c);
            && (c.buffer == [] ==> s == Stop)
            && (c.buffer != [] ==> s.Next? && !s.done && Wf(s.codec) && Step(L, s.codec) == Stop)
  {
  }

  /** Decoding stops, more bytes arrive, decoding goes on: the same as decoding all of it. */
  lemma {:induction false} RunExtend(L: Limits, c: Codec, x: bytes)
    requires ValidLimits(L) && Wf(c) && Run(L, c, 0).error.None? && x != []
    ensures Wf(Run(L, c, 0).codec)
    ensures Wf(Extend(c, x)) && Wf(Extend(Run(L, c, 0).codec, x))
    ensures SameMeaning(Run(L, Extend(c, x), 0), Run(L, c, 0).events, Run(L, Extend(Run(L, c, 0).codec, x), 0))
    decreases |c.buffer|
  {
    hide Step, Extend, Partial, EarlyGuard, Flat, ValidLimits, Wf, CutChunkLine, LongRequestLine, CutRequestLine;
    var s := Step(L, c);
    WfExtend(c, x);
    FlatNone();
    if s.Stop? {
    } else if Partial(c) {
      PartialStops(L, c);
      PartialStep(L, c, x);
      assert s.events + [] == s.events;
    } else {
      var rest := Run(L, s.codec, 0);
      StepExtend(L, c, x);
      RunExtend(L, s.codec, x);
      var o := Run(L, Extend(s.codec, x), 0);
      assert Step(L, Extend(c, x)) == Next(Extend(s.codec, x), s.events, s.done);
      FlatAppend(s.events, rest.events);
      FlatAppend(s.events, o.events);
    }
  }

  lemma {:induction false} RunEnd(L: Limits, c: Codec)
    requires Wf(c) && Run(L, c, 0).error.None?
    ensures Wf(Run(L, c, 0).codec) && Step(L, Run(L, c, 0).codec) == Stop
    decreases |c.buffer|
  {
    hide Step, Wf;
    if Step(L, c).Next? {
      RunEnd(L, Step(L, c).codec);
    }
  }

  /** Decoding in two reads and in one read end in the same state with the same error, if
      any, after the same merged events. */
  lemma FeedSplit(L: Limits, c: Codec, a: bytes, b: bytes)
    requires ValidLimits(L) && Wf(c)
    requires Feed(L, c, a, 0).error.None?
    ensures var first := Feed(L, c, a, 0);
            && Wf(first.codec)
            && SameMeaning(Feed(L, c, a + b, 0), first.events, Feed(L, first.codec, b, 0))
  {
    hide Step, Flat, ValidLimits, Wf;
    var d := c.(buffer := c.buffer + a);
    WfExtend(c, a);
    RunEnd(L, d);
    var first := Feed(L, c, a, 0);
    if b == [] {
      assert a + b == a;
      assert first.codec.(buffer := first.codec.buffer + []) == first.codec;
      FlatNone();
    } else {
      assert Extend(d, b) == c.(buffer := c.buffer + (a + b)) by {
        assert c.buffer + a + b == c.buffer + (a + b);
      }
      RunExtend(L, d, b);
    }
  }

  // ---------------------------------------------------------------- reading less

  /** What can be said when a prefix fails although the whole does not: the decoder stands
      at an early guard; a request line is then either of the longest accepted length and
      cut inside its line end, or too long and still unfinished in the whole. */
  predicate Stalled(L: Limits, first: Codec, x: bytes, whole: Codec) {
    || CutChunkLine(first)
    || CutRequestLine(L, first)
    || (LongRequestLine(L, first) && whole == Extend(first, x))
  }

  lemma GuardFails(L: Limits, c: Codec)
    requires Wf(c)
    ensures EarlyGuard(L, c) ==> Step(L, c).Fail? && Step(L, c).codec == c
  {
    hide ParseHead, ParseTrailers, ParseLine;
  }

  lemma {:induction false} PrefixRun(L: Limits, c: Codec, x: bytes)
    requires ValidLimits(L) && Wf(c) && Wf(Extend(c, x)) && Run(L, Extend(c, x), 0).error.None?
    ensures Run(L, c, 0).error.Some? <==> EarlyGuard(L, Run(L, c, 0).codec)
    ensures Run(L, c, 0).error.Some? ==> Stalled(L, Run(L, c, 0).codec, x, Run(L, Extend(c, x), 0).codec)
    decreases |c.buffer|
  {
    hide Step, Extend, Partial, ValidLimits, Wf, EarlyGuard, CutChunkLine, LongRequestLine, CutRequestLine;
    var s := Step(L, c);
    GuardFails(L, c);
    if Partial(c) {
      PartialStops(L, c);
      if s.Next? {
        GuardFails(L, s.codec);
      }
    } else {
      StepExtend(L, c, x);
      if s.Next? {
        WfExtend(s.codec, x);
        PrefixRun(L, s.codec, x);
      } else if s.Fail? {
        GuardFailure(L, c);
      }
    }
  }

  lemma GuardFailure(L: Limits, c: Codec)
    requires Wf(c) && (CutChunkLine(c) || LongRequestLine(L, c))
    ensures EarlyGuard(L, c)
    ensures Step(L, c).Fail? && Step(L, c).codec == c
  {
    GuardFails(L, c);
  }
}
