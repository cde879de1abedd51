/** Fragmentation independence of the upstream decoder: how the bytes were cut into reads
    does not change what they mean. */
module UpstreamFragments {
  import opened Octets
  import opened ChunkLine
  import opened Headers
  import opened UpstreamCodec

  /** Events with every body chunk spelled out byte by byte, so that adjacent chunks merge. */
  datatype Unit = HeadUnit(head: ResponseHead) | ByteUnit(b: byte) | EndUnit(trailers: seq<Header>)

  function ByteUnits(data: bytes): (r: seq<Unit>)
    ensures |r| == |data| && forall i :: 0 <= i < |data| ==> r[i] == ByteUnit(data[i])
  {
    seq(|data|, i requires 0 <= i < |data| => ByteUnit(data[i]))
  }

  function Units(e: Event): seq<Unit> {
    match e
    case HeadEvent(h) => [HeadUnit(h)]
    case BodyEvent(data) => ByteUnits(data)
    case EndEvent(ts) => [EndUnit(ts)]
  }

  function Flat(events: seq<Event>): seq<Unit> {
    if events == [] then [] else Units(events[0]) + Flat(events[1..])
  }

  lemma {:induction false} FlatAppend(a: seq<Event>, b: seq<Event>)
    ensures Flat(a + b) == Flat(a) + Flat(b)
  {
    if a == [] {
      assert a + b == b;
    } else {
      assert (a + b)[1..] == a[1..] + b;
      FlatAppend(a[1..], b);
    }
  }

  lemma FlatOne(e: Event)
    ensures Flat([e]) == Units(e)
  {
    assert [e][1..] == [];
  }

  function Extend(c: Codec, x: bytes): Codec {
    c.(buffer := c.buffer + x)
  }

  /** Whether a step takes whatever bytes are there instead of a complete unit. */
  predicate Partial(c: Codec) {
    || c.phase == UntilEof
    || ((c.phase == Fixed || c.phase == ChunkData) && |c.buffer| < c.remaining)
  }

  /** How the step on a buffer and the step on an extension of it go together: a
      complete unit is decoded alike, a completed response rejects more bytes, and an
      error stays an error unless it is the early guard on a cut chunk-size line. */
  predicate Agree(c: Codec, s: StepResult, t: StepResult, x: bytes) {
    && (s.Next? && (s.codec.phase != Complete || x == []) ==> t == Next(Extend(s.codec, x), s.events))
    && (s.Next? && s.codec.phase == Complete && x != [] ==> t.Fail?)
    && (s.Fail? ==> t.Fail? || CutLine(c))
  }

  /** A chunk-size line of the longest accepted length, cut between its CR and its LF. */
  predicate CutLine(c: Codec) {
    c.phase == ChunkSize && |c.buffer| == 129 && c.buffer[128] == 13 && FindCrlf(c.buffer) < 0
  }

  lemma HeadExtend(L: Limits, c: Codec, x: bytes)
    requires c.phase == InHead
    ensures Agree(c, StepHead(L, c), StepHead(L, Extend(c, x)), x)
  {
    hide ParseHead;
    FindDoubleCrlfExtend(c.buffer, x);
    var marker := FindDoubleCrlf(c.buffer);
    if marker >= 0 {
      Slices(c.buffer, x, marker);
      Slices(c.buffer, x, marker + 4);
    }
  }

  lemma ChunkSizeExtend(L: Limits, c: Codec, x: bytes)
    requires c.phase == ChunkSize
    ensures Agree(c, StepChunkSize(L, c), StepChunkSize(L, Extend(c, x)), x)
  {
    hide ParseLine;
    FindCrlfExtend(c.buffer, x);
    var marker := FindCrlf(c.buffer);
    if marker >= 0 {
      Slices(c.buffer, x, marker);
      Slices(c.buffer, x, marker + 2);
    } else if |c.buffer| > 128 {
      var later := FindCrlf(c.buffer + x);
      if 0 <= later <= 128 {
        assert CrlfAt(c.buffer + x, later);
        assert later == 128 && |c.buffer| == 129;
      }
    }
  }

  lemma TrailersExtend(L: Limits, c: Codec, x: bytes)
    requires c.phase == InTrailers && ValidLimits(L)
    ensures Agree(c, StepTrailers(L, c), StepTrailers(L, Extend(c, x)), x)
  {
    hide ParseTrailers;
    FindDoubleCrlfExtend(c.buffer, x);
    var marker := FindDoubleCrlf(c.buffer);
    if |c.buffer| >= 2 {
      Slices(c.buffer, x, 2);
    }
    if marker >= 0 {
      Slices(c.buffer, x, marker);
      Slices(c.buffer, x, marker + 4);
    }
  }

  lemma BodyExtend(L: Limits, c: Codec, x: bytes)
    requires Wf(c) && !Partial(c)
    requires c.phase == Fixed || c.phase == ChunkData || c.phase == ChunkCrlf
    ensures Agree(c, Step(L, c), Step(L, Extend(c, x)), x)
  {
    if c.phase == ChunkCrlf {
      if |c.buffer| >= 2 {
        Slices(c.buffer, x, 2);
      }
    } else {
      Slices(c.buffer, x, c.remaining);
    }
  }

  lemma StepExtend(L: Limits, c: Codec, x: bytes)
    requires ValidLimits(L) && Wf(c) && !Partial(c)
    ensures Agree(c, Step(L, c), Step(L, Extend(c, x)), x)
  {
    hide StepHead, StepChunkSize, StepTrailers, Agree;
    match c.phase
    case InHead => HeadExtend(L, c, x);
    case ChunkSize => ChunkSizeExtend(L, c, x);
    case InTrailers => TrailersExtend(L, c, x);
    case Complete => CompleteAgree(c, x);
    case _ => BodyExtend(L, c, x);
  }

  lemma CompleteAgree(c: Codec, x: bytes)
    ensures Agree(c, Stop, Stop, x)
  {
  }

  predicate SameMeaning(o: Outcome, events: seq<Event>, p: Outcome) {
    && (o.error.None? <==> p.error.None?)
    && (o.error.None? ==> o.codec == p.codec && Flat(o.events) == Flat(events) + Flat(p.events))
  }

  /** The bytes a partial body step hands out. */
  function Taken(c: Codec): nat {
    if c.phase == UntilEof then |c.buffer| else Min(c.remaining, |c.buffer|)
  }

  lemma PartialSplit(L: Limits, c: Codec, x: bytes)
    requires Wf(c) && Partial(c) && Step(L, c).Next? && x != []
    ensures var d := Step(L, c).codec;
            var n := Taken(Extend(d, x));
            var whole, rest := Step(L, Extend(c, x)), Step(L, Extend(d, x));
            && Wf(d) && n <= |x|
            && (whole.Fail? <==> rest.Fail?)
            && (whole.Next? <==> rest.Next?) && !whole.Stop? && !rest.Stop?
            && (rest.Next? ==> |rest.events| > 0 && rest.events[0] == BodyEvent(x[..n])
                               && whole == Next(rest.codec, [BodyEvent(c.buffer + x[..n])] + rest.events[1..]))
  {
    hide StepHead, StepChunkSize, StepTrailers, StepChunkCrlf;
    var d := Step(L, c).codec;
    assert Extend(d, x).buffer == x;
    var n := Taken(Extend(d, x));
    var k := |c.buffer|;
    assert (c.buffer + x)[..k + n] == c.buffer + x[..n];
    assert (c.buffer + x)[k + n..] == x[n..];
    assert x[..|x|] == x && c.buffer[..k] == c.buffer;
    var rest := Step(L, Extend(d, x));
    if rest.Next? {
      assert rest.events[0] == BodyEvent(x[..n]);
    }
  }

  lemma PartialStops(L: Limits, c: Codec)
    requires Wf(c) && Partial(c) && Step(L, c).Next?
    ensures var s := Step(L, c);
            Wf(s.codec) && s.codec.phase == c.phase && s.codec.buffer == [] && s.events == [BodyEvent(c.buffer)]
            && Step(L, s.codec) == Stop
  {
    assert c.buffer[..|c.buffer|] == c.buffer;
  }

  lemma FlatSplitChunk(a: bytes, b: bytes, rest: seq<Event>)
    ensures Flat([BodyEvent(a + b)] + rest) == Flat([BodyEvent(a)]) + Flat([BodyEvent(b)] + rest)
  {
    FlatAppend([BodyEvent(a + b)], rest);
    FlatAppend([BodyEvent(b)], rest);
    FlatOne(BodyEvent(a));
    FlatOne(BodyEvent(b));
    FlatOne(BodyEvent(a + b));
    assert ByteUnits(a + b) == ByteUnits(a) + ByteUnits(b);
  }

  lemma WfExtend(c: Codec, x: bytes)
    requires Wf(c)
    ensures Wf(Extend(c, x)) && (x == [] ==> Extend(c, x) == c)
  {
  }

  /** A partial body step and the step on the bytes that follow make up one step. */
  lemma PartialStep(L: Limits, c: Codec, x: bytes)
    requires Wf(c) && Partial(c) && Step(L, c).Next? && x != []
    ensures var d := Extend(Step(L, c).codec, x);
            Wf(d) && SameMeaning(Run(L, Extend(c, x)), Step(L, c).events, Run(L, d))
  {
    hide Step, Partial, Extend, Taken, Flat;
    var s := Step(L, c);
    PartialStops(L, c);
    WfExtend(c, x);
    WfExtend(s.codec, x);
    PartialSplit(L, c, x);
    var rest := Step(L, Extend(s.codec, x));
    if rest.Next? {
      var n := Taken(Extend(s.codec, x));
      var tail := rest.events[1..];
      var o := Run(L, rest.codec);
      FlatSplitChunk(c.buffer, x[..n], tail);
      assert rest.events == [BodyEvent(x[..n])] + tail;
      FlatAppend([BodyEvent(c.buffer + x[..n])] + tail, o.events);
      FlatAppend(rest.events, o.events);
    }
  }

  /** Decoding stops, more bytes arrive, decoding goes on: the same as decoding all of it. */
  lemma {:induction false} RunExtend(L: Limits, c: Codec, x: bytes)
    requires ValidLimits(L) && Wf(c) && Run(L, c).error.None?
    requires Run(L, c).codec.phase != Complete && x != []
    ensures Wf(Run(L, c).codec)
    ensures Wf(Extend(c, x)) && Wf(Extend(Run(L, c).codec, x))
    ensures SameMeaning(Run(L, Extend(c, x)), Run(L, c).events, Run(L, Extend(Run(L, c).codec, x)))
    decreases |c.buffer|
  {
    hide Step, Extend, Partial, CutLine, Flat, ValidLimits, Wf;
    var s := Step(L, c);
    WfExtend(c, x);
    if s.Stop? {
      assert Flat([]) == [] by { FlatNone(); }
    } else if Partial(c) {
      PartialStep(L, c, x);
      PartialStops(L, c);
      assert s.events + [] == s.events;
    } else {
      var rest := Run(L, s.codec);
      if s.codec.phase == Complete {
        CompleteStops(L, s.codec);
      }
      StepExtend(L, c, x);
      RunExtend(L, s.codec, x);
      var o := Run(L, Extend(s.codec, x));
      var p := Run(L, Extend(rest.codec, x));
      assert Step(L, Extend(c, x)) == Next(Extend(s.codec, x), s.events);
      FlatAppend(s.events, rest.events);
      FlatAppend(s.events, o.events);
    }
  }

  lemma FlatNone()
    ensures Flat([]) == []
  {
  }

  lemma CompleteStops(L: Limits, c: Codec)
    requires Wf(c) && c.phase == Complete
    ensures Step(L, c) == Stop
  {
  }

  /** Once the response is complete, more bytes fail however they are cut. */
  lemma {:induction false} CompletedRunExtend(L: Limits, c: Codec, x: bytes)
    requires ValidLimits(L) && Wf(c) && Run(L, c).error.None?
    requires Run(L, c).codec.phase == Complete && c.phase != Complete && x != []
    ensures Wf(Extend(c, x)) && Run(L, Extend(c, x)).error.Some?
    decreases |c.buffer|
  {
    hide Step, Extend, Partial, CutLine, Flat, ValidLimits, Wf;
    var s := Step(L, c);
    WfExtend(c, x);
    if Partial(c) {
      PartialStops(L, c);
    } else {
      StepExtend(L, c, x);
      if s.codec.phase != Complete {
        CompletedRunExtend(L, s.codec, x);
      }
    }
  }

  /** Decoding in two reads and in one read mean the same: both succeed or both fail,
      and on success the state and the merged events agree. */
  lemma FeedSplit(L: Limits, c: Codec, a: bytes, b: bytes)
    requires ValidLimits(L) && Wf(c)
    requires Feed(L, c, a).error.None?
    ensures var first := Feed(L, c, a);
            && Wf(first.codec)
            && SameMeaning(Feed(L, c, a + b), first.events, Feed(L, first.codec, b))
  {
    hide Step, Flat, ValidLimits, Wf;
    var first := Feed(L, c, a);
    if b == [] {
      assert a + b == a;
      FeedNothing(L, c, a);
    } else if c.phase == Complete {
      assert Flat([]) == [] by { FlatNone(); }
    } else {
      var d := c.(buffer := c.buffer + a);
      WfExtend(c, a);
      assert Extend(d, b) == c.(buffer := c.buffer + (a + b)) by {
        assert c.buffer + a + b == c.buffer + (a + b);
      }
      if first.codec.phase == Complete {
        CompletedRunExtend(L, d, b);
        RunWf(L, d);
      } else {
        RunExtend(L, d, b);
      }
    }
  }

  lemma {:induction false} RunWf(L: Limits, c: Codec)
    requires Wf(c) && Run(L, c).error.None?
    ensures Wf(Run(L, c).codec) && Step(L, Run(L, c).codec) == Stop
    decreases |c.buffer|
  {
    hide Step, Wf;
    if Step(L, c).Next? {
      RunWf(L, Step(L, c).codec);
    }
  }

  lemma FeedNothing(L: Limits, c: Codec, a: bytes)
    requires Wf(c) && Feed(L, c, a).error.None?
    ensures var first := Feed(L, c, a);
            Wf(first.codec) && Feed(L, first.codec, []) == Outcome(first.codec, [], None)
            && Flat(first.events) + Flat([]) == Flat(first.events)
  {
    hide Step;
    if c.phase != Complete {
      RunWf(L, c.(buffer := c.buffer + a));
      var d := Feed(L, c, a).codec;
      assert d.(buffer := d.buffer + []) == d;
    }
  }

  /** One read fails where the whole does not only on the early guard: the bytes so far end
      inside the line end of a chunk-size line of the longest accepted length, 128 bytes. */
  lemma {:induction false} PrefixRun(L: Limits, c: Codec, x: bytes)
    requires ValidLimits(L) && Wf(c) && Wf(Extend(c, x)) && Run(L, Extend(c, x)).error.None?
    ensures Run(L, c).error.Some? <==> CutLine(Run(L, c).codec)
    ensures Run(L, c).error.Some? ==> Run(L, c).error.value == ChunkLineTooLong
    decreases |c.buffer|
  {
    hide Step, Extend, Partial, CutLine, Flat, ValidLimits, Wf;
    var s := Step(L, c);
    if Partial(c) {
      if s.Next? {
        PartialStops(L, c);
        CutLineFails(L, s.codec);
      } else {
        PartialFails(L, c, x);
        CutLineFails(L, c);
      }
    } else {
      StepExtend(L, c, x);
      CutLineFails(L, c);
      if s.Next? {
        if s.codec.phase == Complete {
          CompleteStops(L, s.codec);
          CutLineFails(L, s.codec);
        } else {
          PrefixRun(L, s.codec, x);
        }
      }
    }
  }

  lemma CutLineFails(L: Limits, c: Codec)
    requires Wf(c)
    ensures CutLine(c) ==> Step(L, c) == Fail(c, ChunkLineTooLong)
  {
  }

  /** The only failing partial step is the body limit, and more bytes do not mend it. */
  lemma PartialFails(L: Limits, c: Codec, x: bytes)
    requires Wf(c) && Wf(Extend(c, x)) && Partial(c)
    ensures Step(L, c).Fail? ==> Step(L, Extend(c, x)).Fail?
  {
    hide StepHead, StepChunkSize, StepTrailers;
  }
}
