/** Exactly when a byte string the request decoder reads in one piece can also be read in two. */
module ServerCuts {
  import opened Octets
  import opened ChunkLine
  import opened ServerCodec
  import opened ServerFragments

  // ---------------------------------------------------------------- a decoder that waits

  lemma HeadUsesUp(L: Limits, e: Codec, x: bytes)
    requires StepHead(L, e) == Stop && StepHead(L, Extend(e, x)).Next?
    ensures |StepHead(L, Extend(e, x)).codec.buffer| < |x|
  {
    hide ParseHead;
    FindDoubleCrlfExtend(e.buffer, x);
  }

  /** What a waiting decoder decodes next uses up all it had buffered. */
  lemma WaitingUsesUp(L: Limits, e: Codec, x: bytes)
    requires Wf(e) && Step(L, e) == Stop && Step(L, Extend(e, x)).Next?
    ensures |Step(L, Extend(e, x)).codec.buffer| < |x|
  {
    hide ParseHead, ParseTrailers, ParseLine, StepHead;
    if e.phase == InHead {
      HeadUsesUp(L, e, x);
    }
    FindDoubleCrlfExtend(e.buffer, x);
    FindCrlfExtend(e.buffer, x);
    assert |e.buffer| >= 2 ==> CrlfAt(e.buffer, 0) == CrlfAt(e.buffer + x, 0);
  }

  lemma HeadOneByte(L: Limits, e: Codec, z: byte)
    requires StepHead(L, e) == Stop
    ensures var s := StepHead(L, Extend(e, [z]));
            && (s.Next? ==> s.codec.buffer == [])
            && (s.Fail? ==> s.codec == Extend(e, [z]) || s.codec.buffer == [])
  {
    hide ParseHead;
    FindDoubleCrlfExtend(e.buffer, [z]);
  }

  /** One more byte completes a unit and leaves nothing, or fails where it stands. */
  lemma OneByteMore(L: Limits, e: Codec, z: byte)
    requires Wf(e) && Step(L, e) == Stop
    ensures var s := Step(L, Extend(e, [z]));
            && (s.Next? ==> s.codec.buffer == [])
            && (s.Fail? ==> s.codec == Extend(e, [z]) || s.codec.buffer == [])
  {
    hide ParseHead, ParseTrailers, ParseLine, StepHead;
    if e.phase == InHead {
      HeadOneByte(L, e, z);
    }
    FindDoubleCrlfExtend(e.buffer, [z]);
    FindCrlfExtend(e.buffer, [z]);
    assert |e.buffer| >= 2 ==> CrlfAt(e.buffer, 0) == CrlfAt(e.buffer + [z], 0);
  }

  lemma EmptyWaits(L: Limits, c: Codec)
    requires Wf(c) && ValidLimits(L) && c.buffer == []
    ensures Run(L, c, 0) == Outcome(c, [], None)
  {
  }

  lemma {:induction false} RunShrinks(L: Limits, c: Codec)
    requires Wf(c) && Run(L, c, 0).error.None?
    ensures |Run(L, c, 0).codec.buffer| <= |c.buffer|
    decreases |c.buffer|
  {
    hide Step, Wf;
    if Step(L, c).Next? {
      RunShrinks(L, Step(L, c).codec);
    }
  }

  /** A run that leaves bytes from before the last read has not moved. */
  lemma LeftInPlace(L: Limits, e: Codec, x: bytes)
    requires Wf(e) && Step(L, e) == Stop && Run(L, Extend(e, x), 0).error.None?
    requires |Run(L, Extend(e, x), 0).codec.buffer| >= |x|
    ensures Run(L, Extend(e, x), 0).codec == Extend(e, x)
  {
    hide Step;
    var s := Step(L, Extend(e, x));
    if s.Next? {
      WaitingUsesUp(L, e, x);
      RunShrinks(L, s.codec);
    }
  }

  // ---------------------------------------------------------------- a decoder stopped by a guard

  /** Where a run stops at an early guard, a run with more bytes goes on from there. */
  lemma {:induction false} GuardRun(L: Limits, c: Codec, x: bytes, y: bytes)
    requires ValidLimits(L) && Wf(c) && Run(L, Extend(c, x + y), 0).error.None? && Run(L, c, 0).error.Some?
    ensures var g := Run(L, c, 0).codec;
            && Wf(g) && Run(L, Extend(c, x), 0).error == Run(L, Extend(g, x), 0).error
            && Run(L, Extend(c, x), 0).codec == Run(L, Extend(g, x), 0).codec
    decreases |c.buffer|
  {
    hide Step, Extend, Partial, ValidLimits, Wf, EarlyGuard, CutChunkLine, LongRequestLine, CutRequestLine;
    var s := Step(L, c);
    WfExtend(c, x);
    WfExtend(c, x + y);
    if Partial(c) {
      PartialStops(L, c);
    } else {
      StepExtend(L, c, x + y);
      StepExtend(L, c, x);
      if s.Next? {
        WfExtend(s.codec, x);
        WfExtend(s.codec, x + y);
        GuardRun(L, s.codec, x, y);
      } else if s.Fail? {
        GuardFailure(L, c);
      }
    }
  }

  /** Past a guard, one more byte cannot lead to the cut of a line of the longest length. */
  lemma GuardOneMore(L: Limits, g: Codec, z: byte)
    requires Wf(g) && ValidLimits(L) && EarlyGuard(L, g)
    ensures var o := Run(L, Extend(g, [z]), 0);
            o.error.Some? ==> !CutChunkLine(o.codec) && !CutRequestLine(L, o.codec)
  {
    hide ParseHead, ParseLine;
    var d := Extend(g, [z]);
    FindDoubleCrlfExtend(g.buffer, [z]);
    FindCrlfExtend(g.buffer, [z]);
    var s := Step(L, d);
    if s.Next? {
      assert s.codec.buffer == [];
      EmptyWaits(L, s.codec);
    }
  }

  // ---------------------------------------------------------------- the two ways to fail

  /** All of the longest accepted line is buffered, but nothing of its line end. */
  predicate FullLine(L: Limits, e: Codec) {
    || (e.phase == ChunkSize && |e.buffer| == 128)
    || (e.phase == InHead && |e.buffer| == L.requestLine && FindCrlf(e.buffer) < 0)
  }

  /** The cut is inside the line end of a line of the longest accepted length: before the last
      byte, a CR, the decoder waits with exactly that line. */
  predicate CutsLineEnd(L: Limits, c: Codec, a: bytes)
    requires Wf(c)
  {
    && a != [] && a[|a| - 1] == 13
    && Feed(L, c, a[..|a| - 1], 0).error.None? && FullLine(L, Feed(L, c, a[..|a| - 1], 0).codec)
  }

  /** All the bytes together leave a head unfinished, and the cut is in its request line,
      behind the limit. */
  predicate CutsLongLine(L: Limits, c: Codec, a: bytes, b: bytes)
    requires Wf(c)
  {
    var w := Feed(L, c, a + b, 0).codec;
    w.phase == InHead && L.requestLine < |w.buffer| - |b| <= FindCrlf(w.buffer) + 1
  }

  lemma OneRead(c: Codec, a: bytes, b: bytes)
    ensures Extend(Extend(c, a), b) == Extend(c, a + b)
  {
    assert c.buffer + a + b == c.buffer + (a + b);
  }

  /** A read that fails although the whole does not: the long line is still unfinished, or the
      decoder stands in a line end. */
  lemma FailsLong(L: Limits, c: Codec, a: bytes, b: bytes)
    requires ValidLimits(L) && Wf(c) && Feed(L, c, a + b, 0).error.None? && Feed(L, c, a, 0).error.Some?
    ensures var g := Feed(L, c, a, 0).codec; CutChunkLine(g) || CutRequestLine(L, g) || CutsLongLine(L, c, a, b)
  {
    hide Step, ValidLimits, Wf, EarlyGuard, CutRequestLine, CutChunkLine, LongRequestLine;
    var d := Extend(c, a);
    WfExtend(c, a);
    WfExtend(d, b);
    OneRead(c, a, b);
    assert [] + b == b;
    PrefixRun(L, d, b);
    var g, w := Run(L, d, 0).codec, Feed(L, c, a + b, 0).codec;
    if LongRequestLine(L, g) && w == Extend(g, b) {
      RunEnd(L, Extend(c, a + b));
      GuardRun(L, d, [], b);
      LongWaits(L, g, b);
    }
  }

  lemma LongWaits(L: Limits, g: Codec, b: bytes)
    requires Wf(g) && LongRequestLine(L, g) && Step(L, Extend(g, b)) == Stop
    ensures g.phase == InHead && L.requestLine < |g.buffer| <= FindCrlf(g.buffer + b) + 1
  {
    hide ParseHead;
    FindCrlfExtend(g.buffer, b);
  }

  /** If the decoder stands in a line end, it was waiting with the whole line one byte before. */
  lemma FailsInLineEnd(L: Limits, c: Codec, a: bytes, b: bytes)
    requires ValidLimits(L) && Wf(c) && Step(L, c) == Stop
    requires Feed(L, c, a + b, 0).error.None? && Feed(L, c, a, 0).error.Some?
    requires var g := Feed(L, c, a, 0).codec; CutChunkLine(g) || CutRequestLine(L, g)
    ensures CutsLineEnd(L, c, a)
  {
    hide Step, ValidLimits, Wf, EarlyGuard, CutRequestLine, CutChunkLine, LongRequestLine, FullLine;
    assert Extend(c, []) == c;
    var n := |a| - 1;
    var z := a[n];
    var d := Extend(c, a[..n]);
    assert a == a[..n] + [z] && a + b == a[..n] + ([z] + b);
    OneRead(c, a[..n], [z]);
    OneRead(c, a[..n], [z] + b);
    WfExtend(c, a[..n]);
    WfExtend(d, [z] + b);
    PrefixRun(L, d, [z] + b);
    if Run(L, d, 0).error.Some? {
      GuardRun(L, d, [z], b);
      GuardOneMore(L, Run(L, d, 0).codec, z);
    } else {
      RunEnd(L, d);
      RunExtend(L, d, [z]);
      StoodWithLine(L, Run(L, d, 0).codec, z);
    }
  }

  lemma StoodWithLine(L: Limits, e: Codec, z: byte)
    requires ValidLimits(L) && Wf(e) && Step(L, e) == Stop && Run(L, Extend(e, [z]), 0).error.Some?
    requires var g := Run(L, Extend(e, [z]), 0).codec; CutChunkLine(g) || CutRequestLine(L, g)
    ensures z == 13 && FullLine(L, e)
  {
    hide Step;
    OneByteMore(L, e, z);
    var s := Step(L, Extend(e, [z]));
    if s.Next? {
      EmptyWaits(L, s.codec);
    }
    FindCrlfExtend(e.buffer, [z]);
  }

  // ---------------------------------------------------------------- and nothing else

  lemma LineEndFails(L: Limits, c: Codec, a: bytes)
    requires ValidLimits(L) && Wf(c) && CutsLineEnd(L, c, a)
    ensures Feed(L, c, a, 0).error.Some?
  {
    hide Step, ValidLimits, Wf, FullLine;
    var n := |a| - 1;
    var d := Extend(c, a[..n]);
    assert a == a[..n] + [13];
    OneRead(c, a[..n], [13]);
    WfExtend(c, a[..n]);
    RunEnd(L, d);
    RunExtend(L, d, [13]);
    FullLineFails(L, Run(L, d, 0).codec);
  }

  lemma FullLineFails(L: Limits, e: Codec)
    requires Wf(e) && Step(L, e) == Stop && FullLine(L, e)
    ensures Step(L, Extend(e, [13])).Fail?
  {
    hide ParseHead, ParseLine;
    FindCrlfExtend(e.buffer, [13]);
    FindDoubleCrlfExtend(e.buffer, [13]);
  }

  lemma LongLineFails(L: Limits, c: Codec, a: bytes, b: bytes)
    requires ValidLimits(L) && Wf(c) && Feed(L, c, a + b, 0).error.None? && CutsLongLine(L, c, a, b)
    ensures Feed(L, c, a, 0).error.Some?
  {
    hide Step, Wf, Flat;
    if Feed(L, c, a, 0).error.None? {
      var d := Extend(c, a);
      WfExtend(c, a);
      RunEnd(L, d);
      var e := Run(L, d, 0).codec;
      FeedSplit(L, c, a, b);
      LeftInPlace(L, e, b);
      NoLongWait(L, e, b);
    }
  }

  /** A waiting decoder holds no request line over the limit. */
  lemma NoLongWait(L: Limits, e: Codec, b: bytes)
    requires Wf(e) && Step(L, e) == Stop && e.phase == InHead
    ensures L.requestLine < |e.buffer| ==> |e.buffer| > FindCrlf(e.buffer + b) + 1
  {
    hide ParseHead;
    FindCrlfExtend(e.buffer, b);
  }

  /** Reading in two. For a decoder that waits, as every successful read leaves it, a byte string
      that is readable in one piece fails in two exactly when the cut is inside the line end of a
      line of the longest accepted length, or behind the limit in the request line of a head
      that all the bytes together leave unfinished. Otherwise both reads mean what one does. */
  lemma FeedPrefix(L: Limits, c: Codec, a: bytes, b: bytes)
    requires ValidLimits(L) && Wf(c) && Step(L, c) == Stop && Feed(L, c, a + b, 0).error.None?
    ensures var first := Feed(L, c, a, 0);
            && (first.error.Some? <==> CutsLineEnd(L, c, a) || CutsLongLine(L, c, a, b))
            && (first.error.None? ==>
                  && Wf(first.codec) && Feed(L, first.codec, b, 0).error.None?
                  && SameMeaning(Feed(L, c, a + b, 0), first.events, Feed(L, first.codec, b, 0)))
  {
    hide Step, ValidLimits, Wf, Flat, CutsLineEnd, CutsLongLine, CutRequestLine, CutChunkLine;
    if Feed(L, c, a, 0).error.Some? {
      FailsLong(L, c, a, b);
      if !CutsLongLine(L, c, a, b) {
        FailsInLineEnd(L, c, a, b);
      }
    } else {
      FeedSplit(L, c, a, b);
    }
    if CutsLineEnd(L, c, a) {
      LineEndFails(L, c, a);
    }
    if CutsLongLine(L, c, a, b) {
      LongLineFails(L, c, a, b);
    }
  }

  // ---------------------------------------------------------------- short lines

  /** The line the decoder is at, if its end is there, is shorter than the longest accepted. */
  predicate ShortLine(L: Limits, c: Codec) {
    && (c.phase == InHead ==> FindCrlf(c.buffer) < L.requestLine)
    && (c.phase == ChunkSize ==> FindCrlf(c.buffer) < 128)
  }

  /** Every request line and chunk-size line the decoder comes to is. */
  predicate ShortLines(L: Limits, c: Codec)
    requires Wf(c)
    decreases |c.buffer|
  {
    ShortLine(L, c) && (Step(L, c).Next? ==> ShortLines(L, Step(L, c).codec))
  }

  lemma {:induction false} ShortToTheEnd(L: Limits, c: Codec, x: bytes)
    requires ValidLimits(L) && Wf(c) && Run(L, c, 0).error.None? && Wf(Extend(c, x)) && ShortLines(L, Extend(c, x))
    ensures Wf(Extend(Run(L, c, 0).codec, x)) && ShortLines(L, Extend(Run(L, c, 0).codec, x))
    decreases |c.buffer|
  {
    hide Step, Extend, Partial, ValidLimits, Wf, ShortLine;
    var s := Step(L, c);
    if s.Next? {
      WfExtend(s.codec, x);
      if x == [] {
        WfExtend(c, x);
        ShortToTheEnd(L, s.codec, x);
      } else if Partial(c) {
        PartialStops(L, c);
        PartialSplit(L, c, x);
        PartialShort(L, c, x);
      } else {
        StepExtend(L, c, x);
        ShortToTheEnd(L, s.codec, x);
      }
    }
  }

  lemma PartialShort(L: Limits, c: Codec, x: bytes)
    requires Wf(c) && Partial(c) && Step(L, c).Next?
    ensures ShortLine(L, Extend(Step(L, c).codec, x))
  {
  }

  /** Short lines can be cut anywhere. */
  lemma ShortLinesReadable(L: Limits, c: Codec, a: bytes, b: bytes)
    requires ValidLimits(L) && Wf(c) && Step(L, c) == Stop && Feed(L, c, a + b, 0).error.None?
    requires Wf(Extend(c, a + b)) && ShortLines(L, Extend(c, a + b))
    ensures Feed(L, c, a, 0).error.None?
  {
    hide Step, ValidLimits, Wf, ShortLine, FullLine;
    FeedPrefix(L, c, a, b);
    if CutsLineEnd(L, c, a) {
      var n := |a| - 1;
      var d := Extend(c, a[..n]);
      assert a + b == a[..n] + ([13] + b);
      OneRead(c, a[..n], [13] + b);
      WfExtend(c, a[..n]);
      RunEnd(L, d);
      ShortToTheEnd(L, d, [13] + b);
      RunExtend(L, d, [13] + b);
      FullLineLong(L, Run(L, d, 0).codec, b);
    }
    if CutsLongLine(L, c, a, b) {
      ShortAtEnd(L, Extend(c, a + b));
      LongNotShort(L, Feed(L, c, a + b, 0).codec);
    }
  }

  lemma {:induction false} ShortAtEnd(L: Limits, c: Codec)
    requires Wf(c) && Run(L, c, 0).error.None? && ShortLines(L, c)
    ensures ShortLine(L, Run(L, c, 0).codec)
    decreases |c.buffer|
  {
    hide Step, Wf, ShortLine;
    if Step(L, c).Next? {
      ShortAtEnd(L, Step(L, c).codec);
    }
  }

  lemma LongNotShort(L: Limits, w: Codec)
    requires w.phase == InHead && ShortLine(L, w)
    ensures FindCrlf(w.buffer) < L.requestLine
  {
  }

  lemma FullLineLong(L: Limits, e: Codec, b: bytes)
    requires Wf(e) && Step(L, e) == Stop && FullLine(L, e) && !Step(L, Extend(e, [13] + b)).Fail?
    ensures !ShortLine(L, Extend(e, [13] + b))
  {
    hide ParseHead, ParseLine;
    FindCrlfExtend(e.buffer, [13] + b);
    FindDoubleCrlfExtend(e.buffer, [13] + b);
  }

  // ---------------------------------------------------------------- concrete cuts

  /** A 128-byte chunk-size line, cut between its CR and its LF. */
  lemma LongestChunkLineCut(L: Limits)
    requires ValidLimits(L) && 0 <= L.chunkBytes && 0 <= L.bodyBytes
    ensures var c := Codec([], ChunkSize, 0, 0); var a := LONGEST + [13];
            && Step(L, c) == Stop
            && Feed(L, c, a + [10], 0) == Outcome(Codec([], InTrailers, 0, 0), [], None)
            && Feed(L, c, a, 0).error == Some(ChunkLineTooLong)
  {
    hide ParseLine;
    LongestParses();
    var c := Codec([], ChunkSize, 0, 0);
    var a := LONGEST + [13];
    var whole := a + [10];
    assert [] + a == a && [] + whole == whole;
    assert forall i :: 0 <= i < 128 ==> whole[i] == LONGEST[i] && a[i] == LONGEST[i];
    assert CrlfAt(whole, 128) && FindCrlf(whole) == 128 && FindCrlf(a) == -1;
    assert whole[..128] == LONGEST && whole[130..] == [];
    EmptyWaits(L, Codec([], InTrailers, 0, 0));
  }

  // "GET /aaaa"
  const LONG_LINE: bytes := [71, 69, 84, 32, 47, 97, 97, 97, 97]

  /** A request line over the limit, cut before its line end: in one piece the decoder waits for
      the rest of the head. */
  lemma LongRequestLineCut(L: Limits)
    requires ValidLimits(L) && L.requestLine == 8 && L.headerBytes >= 11
    ensures var whole := LONG_LINE + CRLF;
            && Step(L, Fresh) == Stop
            && Feed(L, Fresh, whole, 0) == Outcome(Codec(whole, InHead, 0, 0), [], None)
            && Feed(L, Fresh, LONG_LINE, 0).error == Some(RequestLineTooLong)
  {
    hide ParseHead, StepFixed, StepChunkSize, StepChunkData, StepTrailers;
    var whole := LONG_LINE + CRLF;
    assert [] + whole == whole && [] + LONG_LINE == LONG_LINE;
    assert CrlfAt(whole, 9);
    assert FindCrlf(whole) >= 0 && FindCrlf(LONG_LINE) == -1;
    assert FindDoubleCrlf(whole) == -1 && FindDoubleCrlf(LONG_LINE) == -1;
  }
}
