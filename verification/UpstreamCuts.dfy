/** Exactly when a response the upstream decoder reads in one piece can also be read in two. */
module UpstreamCuts {
  import opened Octets
  import opened ChunkLine
  import opened UpstreamCodec
  import opened UpstreamFragments

  // ---------------------------------------------------------------- a decoder that waits

  /** A unit is completed and nothing left, or decoding fails where it stands. */
  predicate UsedUp(s: StepResult, d: Codec) {
    && (s.Next? ==> s.codec.buffer == [])
    && (s.Fail? ==> s.codec == d || |s.codec.buffer| <= 1)
  }

  lemma OneByteInHead(L: Limits, e: Codec, z: byte)
    requires Wf(e) && Step(L, e) == Stop && e.phase == InHead
    ensures UsedUp(StepHead(L, Extend(e, [z])), Extend(e, [z]))
  {
    hide ParseHead;
    FindDoubleCrlfExtend(e.buffer, [z]);
  }

  lemma OneByteInLine(L: Limits, e: Codec, z: byte)
    requires Wf(e) && Step(L, e) == Stop && e.phase == ChunkSize
    ensures UsedUp(StepChunkSize(L, Extend(e, [z])), Extend(e, [z]))
  {
    hide ParseLine;
    FindCrlfExtend(e.buffer, [z]);
  }

  lemma OneByteInTrailers(L: Limits, e: Codec, z: byte)
    requires Wf(e) && Step(L, e) == Stop && e.phase == InTrailers
    ensures UsedUp(StepTrailers(L, Extend(e, [z])), Extend(e, [z]))
  {
    hide ParseTrailers;
    FindDoubleCrlfExtend(e.buffer, [z]);
    assert |e.buffer| >= 2 ==> (e.buffer + [z])[..2] == e.buffer[..2];
  }

  lemma OneByteInBody(L: Limits, e: Codec, z: byte)
    requires Wf(e) && Step(L, e) == Stop && e.phase in {Fixed, ChunkData, ChunkCrlf, UntilEof, Complete}
    ensures UsedUp(Step(L, Extend(e, [z])), Extend(e, [z]))
  {
    hide StepHead, StepChunkSize, StepTrailers;
  }

  /** What one more byte does to a decoder that waits. */
  lemma OneByteMore(L: Limits, e: Codec, z: byte)
    requires Wf(e) && Step(L, e) == Stop
    ensures UsedUp(Step(L, Extend(e, [z])), Extend(e, [z]))
  {
    hide StepHead, StepChunkSize, StepTrailers, UsedUp;
    match e.phase
    case InHead => OneByteInHead(L, e, z);
    case ChunkSize => OneByteInLine(L, e, z);
    case InTrailers => OneByteInTrailers(L, e, z);
    case _ => OneByteInBody(L, e, z);
  }

  lemma EmptyWaits(L: Limits, c: Codec)
    requires Wf(c) && ValidLimits(L) && c.buffer == []
    ensures Run(L, c) == Outcome(c, [], None)
  {
  }

  lemma PartialFailPhase(L: Limits, c: Codec)
    requires Wf(c) && (c.phase == UntilEof || c.phase == Fixed || c.phase == ChunkData)
    ensures Step(L, c).Fail? ==> Step(L, c).codec.phase != ChunkSize
  {
  }

  /** A run that stops in a chunk-size line stops there however the bytes before it were cut. */
  lemma {:induction false} RunGoesOn(L: Limits, c: Codec, x: bytes)
    requires ValidLimits(L) && Wf(c) && Run(L, c).error.None? && Run(L, c).codec.phase != Complete && x != []
    ensures Wf(Extend(c, x)) && Wf(Extend(Run(L, c).codec, x))
    ensures Run(L, Extend(c, x)).codec.phase == ChunkSize ==>
              Run(L, Extend(Run(L, c).codec, x)).codec == Run(L, Extend(c, x)).codec
    decreases |c.buffer|
  {
    hide Step, Extend, Partial, CutLine, ValidLimits, Wf;
    var s := Step(L, c);
    WfExtend(c, x);
    if s.Next? && Partial(c) {
      PartialStops(L, c);
      PartialSplit(L, c, x);
      WfExtend(s.codec, x);
      PartialPhase(c, x);
      PartialFailPhase(L, Extend(c, x));
    } else if s.Next? {
      if s.codec.phase == Complete {
        CompleteStops(L, s.codec);
      }
      StepExtend(L, c, x);
      RunGoesOn(L, s.codec, x);
    }
  }

  lemma PartialPhase(c: Codec, x: bytes)
    requires Partial(c)
    ensures Extend(c, x).phase == UntilEof || Extend(c, x).phase == Fixed || Extend(c, x).phase == ChunkData
  {
  }

  // ---------------------------------------------------------------- a decoder stopped by the guard

  /** Where a run stops at the early guard, a run with more bytes goes on from there. */
  lemma {:induction false} GuardRun(L: Limits, c: Codec, x: bytes, y: bytes)
    requires ValidLimits(L) && Wf(c) && Wf(Extend(c, x + y)) && Run(L, Extend(c, x + y)).error.None?
             && Run(L, c).error.Some?
    ensures Wf(Extend(c, x))
    ensures var g := Run(L, c).codec;
            && Wf(g) && CutLine(g) && Run(L, Extend(c, x)).error == Run(L, Extend(g, x)).error
            && Run(L, Extend(c, x)).codec == Run(L, Extend(g, x)).codec
    decreases |c.buffer|
  {
    hide Step, Extend, Partial, CutLine, ValidLimits, Wf;
    var s := Step(L, c);
    WfExtend(c, x);
    if Partial(c) {
      if s.Next? {
        PartialStops(L, c);
      } else {
        PartialFails(L, c, x + y);
      }
    } else {
      StepExtend(L, c, x + y);
      StepExtend(L, c, x);
      CutLineFails(L, c);
      if s.Next? {
        if s.codec.phase == Complete {
          CompleteStops(L, s.codec);
        }
        WfExtend(s.codec, x);
        WfExtend(s.codec, x + y);
        GuardRun(L, s.codec, x, y);
      }
    }
  }

  /** Past the guard, one more byte does not lead to the cut of another longest line. */
  lemma GuardOneMore(L: Limits, g: Codec, z: byte)
    requires Wf(g) && ValidLimits(L) && CutLine(g)
    ensures Run(L, Extend(g, [z])).error.Some? ==> !CutLine(Run(L, Extend(g, [z])).codec)
  {
    hide ParseLine;
    var s := Step(L, Extend(g, [z]));
    FindCrlfExtend(g.buffer, [z]);
    if s.Next? {
      assert s.codec.buffer == [];
      EmptyWaits(L, s.codec);
    }
  }

  // ---------------------------------------------------------------- the one way to fail

  /** The cut is inside the line end of a chunk-size line of the longest accepted length: before
      the last byte, a CR, the decoder waits with exactly that line. */
  predicate CutsLineEnd(L: Limits, c: Codec, a: bytes)
    requires Wf(c)
  {
    && a != [] && a[|a| - 1] == 13
    && var e := Feed(L, c, a[..|a| - 1]); e.error.None? && e.codec.phase == ChunkSize && |e.codec.buffer| == 128
  }

  lemma OneRead(c: Codec, a: bytes, b: bytes)
    ensures Extend(Extend(c, a), b) == Extend(c, a + b)
  {
    assert c.buffer + a + b == c.buffer + (a + b);
  }

  lemma FailsInLineEnd(L: Limits, c: Codec, a: bytes, b: bytes)
    requires ValidLimits(L) && Wf(c) && Step(L, c) == Stop && c.phase != Complete
    requires Feed(L, c, a + b).error.None? && Feed(L, c, a).error.Some?
    ensures CutsLineEnd(L, c, a)
  {
    hide Step, ValidLimits, Wf, CutLine;
    assert Extend(c, []) == c;
    var n := |a| - 1;
    var z := a[n];
    var d := Extend(c, a[..n]);
    assert a == a[..n] + [z] && a + b == a[..n] + ([z] + b);
    OneRead(c, a, b);
    OneRead(c, a[..n], [z]);
    OneRead(c, a[..n], [z] + b);
    WfExtend(c, a);
    WfExtend(Extend(c, a), b);
    PrefixRun(L, Extend(c, a), b);
    WfExtend(c, a[..n]);
    WfExtend(d, [z] + b);
    if Run(L, d).error.Some? {
      GuardRun(L, d, [z], b);
      GuardOneMore(L, Run(L, d).codec, z);
    } else {
      RunWf(L, d);
      NotComplete(L, d, [z] + b);
      RunGoesOn(L, d, [z]);
      RunExtend(L, d, [z]);
      CutIsChunkSize(Run(L, Extend(c, a)).codec);
      StoodWithLine(L, Run(L, d).codec, z);
    }
  }

  lemma CutIsChunkSize(g: Codec)
    requires CutLine(g)
    ensures g.phase == ChunkSize
  {
  }

  lemma NotComplete(L: Limits, c: Codec, x: bytes)
    requires ValidLimits(L) && Wf(c) && c.phase != Complete && x != [] && Wf(Extend(c, x))
    requires Run(L, c).error.None? && Run(L, Extend(c, x)).error.None?
    ensures Run(L, c).codec.phase != Complete
  {
    hide Run, Step, ValidLimits, Wf;
    if Run(L, c).codec.phase == Complete {
      CompletedRunExtend(L, c, x);
    }
  }

  lemma StoodWithLine(L: Limits, e: Codec, z: byte)
    requires ValidLimits(L) && Wf(e) && Step(L, e) == Stop && Run(L, Extend(e, [z])).error.Some?
    requires CutLine(Run(L, Extend(e, [z])).codec)
    ensures z == 13 && e.phase == ChunkSize && |e.buffer| == 128
  {
    hide Step;
    OneByteMore(L, e, z);
    var s := Step(L, Extend(e, [z]));
    if s.Next? {
      EmptyWaits(L, s.codec);
    }
  }

  lemma LineEndFails(L: Limits, c: Codec, a: bytes)
    requires ValidLimits(L) && Wf(c) && c.phase != Complete && CutsLineEnd(L, c, a)
    ensures Feed(L, c, a).error.Some?
  {
    hide Step, ValidLimits, Wf;
    var n := |a| - 1;
    var d := Extend(c, a[..n]);
    assert a == a[..n] + [13];
    OneRead(c, a[..n], [13]);
    WfExtend(c, a[..n]);
    RunWf(L, d);
    RunExtend(L, d, [13]);
    FullLineFails(L, Run(L, d).codec);
  }

  lemma FullLineFails(L: Limits, e: Codec)
    requires Wf(e) && Step(L, e) == Stop && e.phase == ChunkSize && |e.buffer| == 128
    ensures Step(L, Extend(e, [13])).Fail?
  {
    hide ParseLine;
    FindCrlfExtend(e.buffer, [13]);
  }

  /** Reading in two. For a decoder that waits, as every successful read leaves it, bytes that are
      readable in one piece fail in two exactly when the cut is inside the line end of a
      chunk-size line of the longest accepted length. Otherwise both reads mean what one does. */
  lemma FeedPrefix(L: Limits, c: Codec, a: bytes, b: bytes)
    requires ValidLimits(L) && Wf(c) && Step(L, c) == Stop && Feed(L, c, a + b).error.None?
    ensures var first := Feed(L, c, a);
            && (first.error.Some? <==> CutsLineEnd(L, c, a))
            && (first.error.None? ==>
                  && Wf(first.codec) && Feed(L, first.codec, b).error.None?
                  && SameMeaning(Feed(L, c, a + b), first.events, Feed(L, first.codec, b)))
  {
    hide Step, Run, Flat, ValidLimits, Wf, CutLine, CutsLineEnd;
    if c.phase == Complete {
      assert a + b == [] && a == [];
      NoLineEnd(L, c);
      FeedSplit(L, c, a, b);
    } else if Feed(L, c, a).error.Some? {
      FailsInLineEnd(L, c, a, b);
    } else {
      FeedSplit(L, c, a, b);
      if CutsLineEnd(L, c, a) {
        LineEndFails(L, c, a);
      }
    }
  }

  lemma NoLineEnd(L: Limits, c: Codec)
    requires Wf(c)
    ensures !CutsLineEnd(L, c, [])
  {
  }

  // ---------------------------------------------------------------- short lines

  /** Every chunk-size line the decoder comes to is shorter than the longest accepted. */
  predicate ShortLines(L: Limits, c: Codec)
    requires Wf(c)
    decreases |c.buffer|
  {
    (c.phase == ChunkSize ==> FindCrlf(c.buffer) < 128) && (Step(L, c).Next? ==> ShortLines(L, Step(L, c).codec))
  }

  lemma {:induction false} ShortToTheEnd(L: Limits, c: Codec, x: bytes)
    requires ValidLimits(L) && Wf(c) && Run(L, c).error.None? && Run(L, c).codec.phase != Complete
    requires x != [] && Wf(Extend(c, x)) && ShortLines(L, Extend(c, x))
    ensures Wf(Extend(Run(L, c).codec, x)) && ShortLines(L, Extend(Run(L, c).codec, x))
    decreases |c.buffer|
  {
    hide Step, Partial, ValidLimits, Wf, FindCrlf;
    var s := Step(L, c);
    if s.Next? {
      WfExtend(s.codec, x);
      if Partial(c) {
        PartialStops(L, c);
        PartialSplit(L, c, x);
        PartialPhase(c, x);
      } else {
        if s.codec.phase == Complete {
          CompleteStops(L, s.codec);
        }
        StepExtend(L, c, x);
        ShortToTheEnd(L, s.codec, x);
      }
    }
  }

  /** Short lines can be cut anywhere. */
  lemma ShortLinesReadable(L: Limits, c: Codec, a: bytes, b: bytes)
    requires ValidLimits(L) && Wf(c) && Step(L, c) == Stop && Feed(L, c, a + b).error.None?
    requires Wf(Extend(c, a + b)) && ShortLines(L, Extend(c, a + b))
    ensures Feed(L, c, a).error.None?
  {
    hide Step, ValidLimits, Wf;
    FeedPrefix(L, c, a, b);
    if CutsLineEnd(L, c, a) && c.phase != Complete {
      var n := |a| - 1;
      var d := Extend(c, a[..n]);
      assert a + b == a[..n] + ([13] + b);
      OneRead(c, a[..n], [13] + b);
      WfExtend(c, a[..n]);
      RunWf(L, d);
      ShortToTheEnd(L, d, [13] + b);
      RunExtend(L, d, [13] + b);
      FullLineLong(L, Run(L, d).codec, b);
    }
  }

  lemma FullLineLong(L: Limits, e: Codec, b: bytes)
    requires Wf(e) && Step(L, e) == Stop && e.phase == ChunkSize && |e.buffer| == 128
    requires !Step(L, Extend(e, [13] + b)).Fail?
    ensures FindCrlf(Extend(e, [13] + b).buffer) >= 128
  {
    hide ParseLine;
    FindCrlfExtend(e.buffer, [13] + b);
  }

  // ---------------------------------------------------------------- a concrete cut

  /** A 128-byte chunk-size line, cut between its CR and its LF. */
  lemma LongestChunkLineCut(L: Limits)
    requires ValidLimits(L) && 0 <= L.chunkBytes && 0 <= L.bodyBytes
    ensures var c := Codec([], ChunkSize, 0, 0); var a := LONGEST + [13];
            && Step(L, c) == Stop
            && Feed(L, c, a + [10]) == Outcome(Codec([], InTrailers, 0, 0), [], None)
            && Feed(L, c, a).error == Some(ChunkLineTooLong)
  {
    hide ParseLine;
    LongestParses();
    var c := Codec([], ChunkSize, 0, 0);
    var a := LONGEST + [13];
    var whole := a + [10];
    assert [] + a == a && [] + whole == whole;
    assert forall i :: 0 <= i < 128 ==> whole[i] == LONGEST[i] && a[i] == LONGEST[i];
    assert CrlfAt(whole, 128) && FindCrlf(whole) == 128 && FindCrlf(a) == -1;
    assert whole[..128] == LONGEST && whole[130..] == [];
    EmptyWaits(L, Codec([], InTrailers, 0, 0));
  }
}
