/** The request body handed from the connection to its single reader: a bounded FIFO with two
    events that are set outside the lock. Each locked region, each set and each wait is a step. */
module BodyStreams {
  import opened Octets
  import opened Joining

  // ---------------------------------------------------------------- state

  /** A chunk and, if it is a retained view, that view. */
  datatype Chunk = Chunk(data: bytes, view: Option<nat>)

  datatype Limits = Limits(maxBytes: nat, low: nat, high: nat, streaming: bool)

  predicate ValidLimits(l: Limits) {
    l.low < l.high
  }

  /** `owedData` and `owedSpace` count the sets that some call has still to do after leaving
      the lock. `fed` and `given` are what was accepted and what was handed to the reader;
      `alive` are the views retained and not released, of which the reader has `inHand` and a
      close has `dropping` left to release. */
  datatype Stream = Stream(
    chunks: seq<Chunk>, readIndex: nat, received: nat, consumed: nat, queued: int, backpressured: bool,
    ended: bool, cancelled: bool, closed: bool, dataReady: bool, spaceReady: bool,
    owedData: nat, owedSpace: nat, readerParked: bool, producerParked: bool,
    fed: seq<bytes>, given: seq<bytes>, alive: set<nat>, inHand: set<nat>, dropping: set<nat>)

  const FRESH := Stream([], 0, 0, 0, 0, false, false, false, false, false, true, 0, 0, false, false, [], [], {}, {}, {})

  predicate IsOpen(s: Stream) {
    !s.ended && !s.cancelled && !s.closed
  }

  function Unread(s: Stream): seq<Chunk> {
    if s.readIndex <= |s.chunks| then s.chunks[s.readIndex..] else []
  }

  function Payloads(chunks: seq<Chunk>): (r: seq<bytes>)
    ensures |r| == |chunks| && forall i :: 0 <= i < |chunks| ==> r[i] == chunks[i].data
  {
    seq(|chunks|, i requires 0 <= i < |chunks| => chunks[i].data)
  }

  function Views(chunks: seq<Chunk>): set<nat> {
    set c <- chunks | c.view.Some? :: c.view.value
  }

  // ---------------------------------------------------------------- locked regions

  datatype FeedError = NotAccepting | OverLimit

  /** The region of `feed`; the caller then sets the data event if the chunk was kept. */
  function Fed(l: Limits, s: Stream, c: Chunk): (Stream, Result<bool, FeedError>) {
    if !IsOpen(s) then (s, Err(NotAccepting))
    else if s.received + |c.data| > l.maxBytes then (s, Err(OverLimit))
    else if c.data == [] then (s, Ok(false))
    else
      var queued := s.queued + |c.data|;
      var pressed := queued >= l.high;
      (s.(chunks := s.chunks + [c], received := s.received + |c.data|, queued := queued,
          backpressured := s.backpressured || pressed, spaceReady := s.spaceReady && !pressed,
          owedData := s.owedData + 1, fed := s.fed + [c.data],
          alive := if c.view.Some? then s.alive + {c.view.value} else s.alive),
       Ok(true))
  }

  function Finished(s: Stream): Stream {
    s.(ended := true, owedData := s.owedData + 1, owedSpace := s.owedSpace + 1)
  }

  function Emptied(s: Stream): Stream {
    s.(chunks := [], readIndex := 0, queued := 0, backpressured := false,
       owedData := s.owedData + 1, owedSpace := s.owedSpace + 1)
  }

  function Cancelled(s: Stream): Stream {
    Emptied(s).(cancelled := true)
  }

  function Closed(s: Stream): Stream {
    if s.closed then s else Emptied(s).(closed := true, dropping := s.dropping + Views(Unread(s)))
  }

  datatype ReadOutcome = WasCancelled | Took(chunk: Chunk) | AtEnd | Nothing | MustWait

  predicate MayCompact(s: Stream) {
    s.readIndex >= 64 && s.readIndex * 2 >= |s.chunks| && s.readIndex <= |s.chunks|
  }

  function Compacted(s: Stream): Stream {
    s.(chunks := if MayCompact(s) then s.chunks[s.readIndex..] else s.chunks,
       readIndex := if MayCompact(s) then 0 else s.readIndex)
  }

  function Advanced(s: Stream): Stream
    requires s.readIndex < |s.chunks|
  {
    var c := s.chunks[s.readIndex];
    s.(readIndex := s.readIndex + 1, queued := s.queued - |c.data|, consumed := s.consumed + |c.data|,
      given := s.given + [c.data],
       inHand := if c.view.Some? then s.inHand + {c.view.value} else s.inHand)
  }

  function Relieved(l: Limits, s: Stream): Stream {
    if s.backpressured && s.queued <= l.low then s.(backpressured := false, owedSpace := s.owedSpace + 1) else s
  }

  function TookNext(l: Limits, s: Stream): Stream
    requires s.readIndex < |s.chunks|
  {
    Relieved(l, Compacted(Advanced(s)))
  }

  /** The region of `read_chunk`. */
  function ReadOnce(l: Limits, s: Stream): (Stream, ReadOutcome) {
    if s.cancelled then (s, WasCancelled)
    else if s.readIndex < |s.chunks| then (TookNext(l, s), Took(s.chunks[s.readIndex]))
    else if s.ended || s.closed then (s, AtEnd)
    else if !l.streaming then (s, Nothing)
    else (s.(dataReady := false, readerParked := true), MustWait)
  }

  datatype WriteOutcome = Refused | Writable | MustWaitForSpace

  /** The region of `wait_writable`, which a stream that is only polled does not enter. */
  function AskedToWrite(l: Limits, s: Stream): (Stream, WriteOutcome) {
    if !l.streaming then (s, Writable)
    else if !IsOpen(s) then (s, Refused)
    else if !s.backpressured then (s, Writable)
    else (s.(spaceReady := false, producerParked := true), MustWaitForSpace)
  }

  // ---------------------------------------------------------------- steps

  datatype Action =
    | Feed(chunk: Chunk) | Finish | Cancel | Close | Read | AskToWrite
    | SetData | SetSpace | ReaderWakes | ProducerWakes
    | ReaderReleases(view: nat) | CloserReleases(view: nat)

  /** One step, or None when it is not enabled. A parked side does nothing else until it wakes. */
  function Act(l: Limits, s: Stream, a: Action): Option<Stream> {
    match a
    case Feed(c) =>
      if s.producerParked || (c.view.Some? && c.view.value in s.alive) then None else Some(Fed(l, s, c).0)
    case Finish => if s.producerParked then None else Some(Finished(s))
    case Cancel => Some(Cancelled(s))
    case Close => Some(Closed(s))
    case Read => if s.readerParked || s.inHand != {} then None else Some(ReadOnce(l, s).0)
    case AskToWrite => if s.producerParked then None else Some(AskedToWrite(l, s).0)
    case SetData => if s.owedData == 0 then None else Some(s.(dataReady := true, owedData := s.owedData - 1))
    case SetSpace => if s.owedSpace == 0 then None else Some(s.(spaceReady := true, owedSpace := s.owedSpace - 1))
    case ReaderWakes => if s.readerParked && s.dataReady then Some(s.(readerParked := false)) else None
    case ProducerWakes => if s.producerParked && s.spaceReady then Some(s.(producerParked := false)) else None
    case ReaderReleases(v) =>
      if v in s.inHand then Some(s.(inHand := s.inHand - {v}, alive := s.alive - {v})) else None
    case CloserReleases(v) =>
      if v in s.dropping then Some(s.(dropping := s.dropping - {v}, alive := s.alive - {v})) else None
  }

  // ---------------------------------------------------------------- the invariant

  /** No wake-up is lost: an event that is clear has a reason to be, or somebody still owes
      its set. */
  predicate Wakeful(s: Stream) {
    && (!s.dataReady ==> (Unread(s) == [] && IsOpen(s)) || s.owedData > 0)
    && (!s.spaceReady ==> (s.backpressured && IsOpen(s)) || s.owedSpace > 0)
  }

  /** The byte counters agree with the queue. */
  predicate Metered(l: Limits, s: Stream) {
    && s.readIndex <= |s.chunks|
    && s.queued == |Concat(Payloads(Unread(s)))|
    && (forall c <- Unread(s) :: c.data != [])
    && (s.backpressured ==> s.queued > l.low)
    && (!s.backpressured ==> s.queued < l.high)
    && (s.readIndex < 64 || s.readIndex * 2 < |s.chunks|)
    && s.received == |Concat(s.fed)| <= l.maxBytes
    && s.consumed == |Concat(s.given)|
  }

  predicate Gone(s: Stream) {
    s.cancelled || s.closed
  }

  /** What was handed out comes first of what was accepted, and until the stream is dropped
      the rest is queued. */
  predicate FirstInFirstOut(s: Stream) {
    && (!Gone(s) ==> s.fed == s.given + Payloads(Unread(s)))
    && (Gone(s) ==> s.given <= s.fed && s.chunks == [])
  }

  predicate DistinctViews(chunks: seq<Chunk>) {
    forall i, j :: 0 <= i < j < |chunks| && chunks[i].view.Some? && chunks[j].view.Some? ==>
      chunks[i].view != chunks[j].view
  }

  /** Unless the stream was cancelled, every live view is queued, in the reader's hand or about
      to be dropped, and is only one of these. */
  predicate Owned(s: Stream) {
    !s.cancelled ==>
      && s.alive == Views(Unread(s)) + s.inHand + s.dropping
      && Views(Unread(s)) !! s.inHand && Views(Unread(s)) !! s.dropping && s.inHand !! s.dropping
      && DistinctViews(Unread(s))
  }

  predicate Invariant(l: Limits, s: Stream) {
    Wakeful(s) && Metered(l, s) && FirstInFirstOut(s) && Owned(s)
  }

  lemma FreshInvariant(l: Limits)
    requires ValidLimits(l)
    ensures Invariant(l, FRESH)
  {
  }

  // ---------------------------------------------------------------- each region keeps it

  lemma UnreadMore(s: Stream, c: Chunk)
    requires s.readIndex <= |s.chunks|
    ensures var t := s.(chunks := s.chunks + [c]);
            && Unread(t) == Unread(s) + [c]
            && Payloads(Unread(t)) == Payloads(Unread(s)) + [c.data]
            && Views(Unread(t)) == Views(Unread(s)) + (if c.view.Some? then {c.view.value} else {})
            && (c.data != [] && (forall x <- Unread(s) :: x.data != []) ==> forall x <- Unread(t) :: x.data != [])
            && (DistinctViews(Unread(s)) && (c.view.Some? ==> c.view.value !in Views(Unread(s))) ==>
                 DistinctViews(Unread(t)))
  {
    var t := s.(chunks := s.chunks + [c]);
    assert Unread(t) == Unread(s) + [c];
    OneMoreView(Unread(s), c);
  }

  lemma OneMoreView(chunks: seq<Chunk>, c: Chunk)
    ensures Views(chunks + [c]) == Views(chunks) + (if c.view.Some? then {c.view.value} else {})
    ensures DistinctViews(chunks) && (c.view.Some? ==> c.view.value !in Views(chunks)) ==> DistinctViews(chunks + [c])
  {
    var all := chunks + [c];
    assert forall x <- all :: x in chunks || x == c;
    assert forall x <- chunks :: x in all;
    assert c in all;
    if DistinctViews(chunks) && (c.view.Some? ==> c.view.value !in Views(chunks)) {
      forall i, j | 0 <= i < j < |all| && all[i].view.Some? && all[j].view.Some? ensures all[i].view != all[j].view {
        if j == |chunks| {
          assert chunks[i] in chunks;
        }
      }
    }
  }

  lemma FedKept(l: Limits, s: Stream, c: Chunk)
    requires Invariant(l, s) && ValidLimits(l) && (c.view.Some? ==> c.view.value !in s.alive)
    ensures Invariant(l, Fed(l, s, c).0)
  {
    hide Unread, Payloads, Views, Concat, DistinctViews;
    var t := Fed(l, s, c).0;
    if Fed(l, s, c).1 == Ok(true) {
      UnreadMore(s, c);
      UnreadOf(t, s.(chunks := s.chunks + [c]));
      ConcatAppend(Payloads(Unread(s)), [c.data]);
      ConcatAppend(s.fed, [c.data]);
      ConcatOne(c.data);
      assert s.given + (Payloads(Unread(s)) + [c.data]) == s.given + Payloads(Unread(s)) + [c.data];
    }
  }

  lemma UnreadOf(s: Stream, t: Stream)
    requires s.chunks == t.chunks && s.readIndex == t.readIndex
    ensures Unread(s) == Unread(t)
  {
  }

  lemma EmptiedKept(l: Limits, s: Stream)
    requires Invariant(l, s) && ValidLimits(l)
    ensures Invariant(l, Cancelled(s)) && Invariant(l, Closed(s))
  {
    assert Payloads([]) == [];
  }

  lemma CompactedSame(s: Stream)
    requires s.readIndex <= |s.chunks|
    ensures Unread(Compacted(s)) == Unread(s) && Compacted(s).readIndex <= |Compacted(s).chunks|
    ensures Compacted(s).readIndex < 64 || Compacted(s).readIndex * 2 < |Compacted(s).chunks|
  {
    if s.readIndex >= 64 && s.readIndex * 2 >= |s.chunks| {
      var tail := s.chunks[s.readIndex..];
      assert Compacted(s).chunks == tail && tail[0..] == tail;
    }
  }

  lemma CompactedFields(s: Stream)
    ensures Compacted(s) == s.(chunks := Compacted(s).chunks, readIndex := Compacted(s).readIndex)
  {
    hide Unread;
  }

  lemma HeadBytes(c: Chunk, rest: seq<Chunk>)
    ensures Payloads([c] + rest) == [c.data] + Payloads(rest)
    ensures |Concat(Payloads([c] + rest))| == |c.data| + |Concat(Payloads(rest))|
  {
    assert Payloads([c] + rest) == [c.data] + Payloads(rest);
    ConcatAppend([c.data], Payloads(rest));
    ConcatOne(c.data);
  }

  lemma HeadData(c: Chunk, rest: seq<Chunk>)
    requires forall x <- [c] + rest :: x.data != []
    ensures c.data != [] && forall x <- rest :: x.data != []
  {
    assert c in [c] + rest && forall x <- rest :: x in [c] + rest;
  }

  lemma HeadViews(c: Chunk, rest: seq<Chunk>)
    ensures Views([c] + rest) == (if c.view.Some? then {c.view.value} else {}) + Views(rest)
    ensures DistinctViews([c] + rest) ==> DistinctViews(rest) && (c.view.Some? ==> c.view.value !in Views(rest))
  {
    var all := [c] + rest;
    assert forall x <- all :: x == c || x in rest;
    assert c in all && forall x <- rest :: x in all;
    if DistinctViews(all) {
      forall i, j | 0 <= i < j < |rest| && rest[i].view.Some? && rest[j].view.Some?
        ensures rest[i].view != rest[j].view {
        assert all[i + 1] == rest[i] && all[j + 1] == rest[j];
      }
      forall j | 0 <= j < |rest| && c.view.Some? ensures rest[j].view != c.view {
        assert all[0] == c && all[j + 1] == rest[j];
        assert rest[j].view.Some? ==> all[0].view != all[j + 1].view;
      }
    }
  }

  /** What taking the next chunk changes. */
  lemma TookFields(l: Limits, s: Stream)
    requires s.readIndex < |s.chunks|
    ensures var c, t := s.chunks[s.readIndex], TookNext(l, s);
            var woken := s.backpressured && t.queued <= l.low;
            && Unread(s) == [c] + Unread(t) && t.readIndex <= |t.chunks|
            && (t.readIndex < 64 || t.readIndex * 2 < |t.chunks|)
            && t == Advanced(s).(chunks := t.chunks, readIndex := t.readIndex,
                 backpressured := s.backpressured && !woken,
                                 owedSpace := s.owedSpace + if woken then 1 else 0)
  {
    hide Compacted, Unread, Relieved, Advanced;
    AdvancedFields(s);
    var u := Advanced(s);
    CompactedSame(u);
    CompactedFields(u);
    RelievedFields(l, Compacted(u));
    UnreadOf(Compacted(u), Relieved(l, Compacted(u)));
  }

  lemma AdvancedFields(s: Stream)
    requires s.readIndex < |s.chunks|
    ensures Unread(s) == [s.chunks[s.readIndex]] + Unread(Advanced(s)) && Advanced(s).readIndex <= |Advanced(s).chunks|
    ensures Advanced(s).backpressured == s.backpressured && Advanced(s).owedSpace == s.owedSpace
  {
  }

  lemma RelievedFields(l: Limits, s: Stream)
    ensures var woken := s.backpressured && s.queued <= l.low;
            Relieved(l, s) == s.(backpressured := s.backpressured && !woken, owedSpace := s.owedSpace + if woken then 1
              else 0)
  {
    hide Unread;
  }

  lemma TookKept(l: Limits, s: Stream)
    requires Invariant(l, s) && ValidLimits(l) && !s.cancelled && s.readIndex < |s.chunks| && s.inHand == {}
    ensures Invariant(l, TookNext(l, s))
  {
    hide Unread, Payloads, Views, Concat, DistinctViews, TookNext;
    var c, t := s.chunks[s.readIndex], TookNext(l, s);
    TookFields(l, s);
    HeadBytes(c, Unread(t));
    HeadData(c, Unread(t));
    HeadViews(c, Unread(t));
    ConcatAppend(s.given, [c.data]);
    ConcatOne(c.data);
    assert s.given + ([c.data] + Payloads(Unread(t))) == s.given + [c.data] + Payloads(Unread(t));
  }

  /** Every step keeps the invariant. */
  lemma ActKept(l: Limits, s: Stream, a: Action)
    requires Invariant(l, s) && ValidLimits(l) && Act(l, s, a).Some?
    ensures Invariant(l, Act(l, s, a).value)
  {
    hide Fed, Cancelled, Closed, TookNext, Payloads, Concat, Views, Unread;
    var t := Act(l, s, a).value;
    if t.chunks == s.chunks && t.readIndex == s.readIndex {
      UnreadOf(s, t);
    }
    match a
    case Feed(c) => FedKept(l, s, c);
    case Cancel => EmptiedKept(l, s);
    case Close => EmptiedKept(l, s);
    case Read =>
      if !s.cancelled && s.readIndex < |s.chunks| {
        TookKept(l, s);
      } else {
        NothingUnread(s);
      }
    case _ =>
  }

  lemma NothingUnread(s: Stream)
    ensures s.readIndex >= |s.chunks| ==> Unread(s) == []
  {
  }

  // ---------------------------------------------------------------- every run

  function Run(l: Limits, s: Stream, actions: seq<Action>): Stream
    decreases |actions|
  {
    if actions == [] then s
    else Run(l, match Act(l, s, actions[0]) case Some(t) => t case None => s, actions[1..])
  }

  lemma {:induction false} RunKept(l: Limits, s: Stream, actions: seq<Action>)
    requires Invariant(l, s) && ValidLimits(l)
    ensures Invariant(l, Run(l, s, actions))
    decreases |actions|
  {
    hide Invariant, Act;
    if actions != [] {
      if Act(l, s, actions[0]).Some? {
        ActKept(l, s, actions[0]);
        RunKept(l, Act(l, s, actions[0]).value, actions[1..]);
      } else {
        RunKept(l, s, actions[1..]);
      }
    }
  }

  /** Over every interleaving of a producer, a reader and closers: a reader parked on a clear
      event has nothing to read from an open stream, or its wake-up is still owed; likewise a
      producer parked on a clear event; and the two are never parked together with nothing
      owed. Until the stream is dropped, what was received is what was consumed and what is
      queued; always, what was read comes first, in order, of what was fed. */
  lemma NoLostWakeUp(l: Limits, actions: seq<Action>)
    requires ValidLimits(l)
    ensures var s := Run(l, FRESH, actions);
            && (s.readerParked && !s.dataReady ==> (Unread(s) == [] && IsOpen(s)) || s.owedData > 0)
            && (s.producerParked && !s.spaceReady ==> (s.backpressured && IsOpen(s)) || s.owedSpace > 0)
            && (s.readerParked && !s.dataReady && s.producerParked && !s.spaceReady ==> s.owedData + s.owedSpace > 0)
            && (!Gone(s) ==> s.received == s.consumed + s.queued)
            && s.given <= s.fed && Concat(s.given) <= Concat(s.fed)
  {
    hide Run;
    FreshInvariant(l);
    RunKept(l, FRESH, actions);
    var s := Run(l, FRESH, actions);
    NotBothStuck(l, s);
    Balanced(l, s);
  }

  lemma NotBothStuck(l: Limits, s: Stream)
    requires Invariant(l, s)
    ensures !s.dataReady && !s.spaceReady ==> s.owedData + s.owedSpace > 0
  {
    if Unread(s) == [] {
      assert Payloads(Unread(s)) == [];
    }
  }

  lemma Balanced(l: Limits, s: Stream)
    requires Invariant(l, s)
    ensures s.given <= s.fed && Concat(s.given) <= Concat(s.fed)
    ensures !Gone(s) ==> s.received == s.consumed + s.queued
  {
    hide Unread, Payloads, Concat;
    var rest := s.fed[|s.given|..];
    assert s.given <= s.fed;
    assert s.fed == s.given + rest;
    ConcatAppend(s.given, rest);
    if !Gone(s) {
      assert rest == Payloads(Unread(s));
    }
  }

  /** Whatever ends a reader's reason to wait owes it a wake-up, and paying it lets it wake. */
  lemma WakesTheReader(l: Limits, s: Stream, a: Action)
    requires Act(l, s, a).Some? && s.readerParked && !s.dataReady && IsOpen(s)
    requires (a.Feed? && Fed(l, s, a.chunk).1 == Ok(true)) || a == Finish || a == Cancel || a == Close
    ensures var t := Act(l, s, a).value;
            && t.owedData > 0 && Act(l, t, SetData).Some?
            && Act(l, Act(l, t, SetData).value, ReaderWakes).Some?
  {
    hide Unread, Views, Concat;
  }

  /** A side that has no reason to wait any more is never stuck: it can wake, or the set that
      lets it wake is owed and can be done, and brings its wake-up. A view that is to be
      released can be, and nobody else has it then. */
  lemma NothingStuck(l: Limits, s: Stream, v: nat)
    requires Invariant(l, s)
    ensures s.readerParked && !(Unread(s) == [] && IsOpen(s)) ==>
              || Act(l, s, ReaderWakes).Some?
              || (Act(l, s, SetData).Some? && Act(l, Act(l, s, SetData).value, ReaderWakes).Some?)
    ensures s.producerParked && !(s.backpressured && IsOpen(s)) ==>
              || Act(l, s, ProducerWakes).Some?
              || (Act(l, s, SetSpace).Some? && Act(l, Act(l, s, SetSpace).value, ProducerWakes).Some?)
    ensures v in s.inHand ==>
              Act(l, s, ReaderReleases(v)).Some? && v !in Act(l, s, ReaderReleases(v)).value.inHand
    ensures v in s.dropping ==>
              Act(l, s, CloserReleases(v)).Some? && v !in Act(l, s, CloserReleases(v)).value.dropping
  {
    hide Unread, Views, Concat, Payloads, DistinctViews, Fed, ReadOnce, AskedToWrite, Cancelled, Closed;
  }

  /** A view is released only while it is alive, by whoever holds it, and never again. */
  lemma ReleasedOnce(l: Limits, s: Stream, a: Action, v: nat)
    requires Invariant(l, s) && ValidLimits(l) && Act(l, s, a).Some? && v in s.alive && !s.cancelled
    requires a != Cancel
    ensures v !in Act(l, s, a).value.alive <==> a == ReaderReleases(v) || a == CloserReleases(v)
    ensures a == ReaderReleases(v) ==> v !in s.dropping && v !in Views(Unread(s))
    ensures a == CloserReleases(v) ==> v !in s.inHand && v !in Views(Unread(s))
  {
    hide Unread, Payloads, Views, Concat, DistinctViews, Compacted;
    if a == Read && s.readIndex < |s.chunks| {
      TookFields(l, s);
    }
  }

  /** Once closed, with nothing in hand and nothing left to drop, no view is alive. */
  lemma AllReleased(l: Limits, s: Stream)
    requires Invariant(l, s) && s.closed && !s.cancelled && s.inHand == {} && s.dropping == {}
    ensures s.alive == {}
  {
    assert Unread(s) == [];
    assert Views([]) == {};
  }

  // ---------------------------------------------------------------- what a read gives

  /** Over every interleaving, what a read gives: the cancellation of a cancelled stream; the
      first unread chunk while there is one; the end once the stream has ended or been closed
      and everything fed, unless it was closed, has been read; and nothing, or the wait of a
      streaming reader, on an open stream with nothing in it. */
  lemma ReadOutcomes(l: Limits, actions: seq<Action>)
    requires ValidLimits(l)
    ensures var s := Run(l, FRESH, actions);
            var r, unread := ReadOnce(l, s), Unread(s);
            && (r.1.WasCancelled? <==> s.cancelled)
            && (r.1.Took? <==> !s.cancelled && unread != [])
            && (r.1.Took? ==>
                  r.1.chunk == unread[0] && Unread(r.0) == unread[1..] && r.0.given == s.given + [unread[0].data])
            && (r.1.AtEnd? <==> !s.cancelled && (s.ended || s.closed) && unread == [])
            && (r.1.AtEnd? && !s.closed ==> s.given == s.fed)
            && (r.1.Nothing? <==> IsOpen(s) && unread == [] && !l.streaming)
            && (r.1.MustWait? <==> IsOpen(s) && unread == [] && l.streaming)
            && (!r.1.Took? ==> Unread(r.0) == unread && r.0.given == s.given)
  {
    hide Run, TookNext;
    FreshInvariant(l);
    RunKept(l, FRESH, actions);
    var s := Run(l, FRESH, actions);
    NothingUnread(s);
    assert Payloads([]) == [];
    assert s.given + [] == s.given;
    if s.readIndex < |s.chunks| {
      TookUnread(l, s);
    } else {
      assert Unread(s) == [];
    }
  }

  lemma TookUnread(l: Limits, s: Stream)
    requires s.readIndex < |s.chunks|
    ensures Unread(s) != [] && Unread(s)[0] == s.chunks[s.readIndex]
    ensures Unread(TookNext(l, s)) == Unread(s)[1..] && TookNext(l, s).given == s.given + [s.chunks[s.readIndex].data]
  {
    hide Unread;
    TookFields(l, s);
    UnreadTail(s);
  }

  lemma UnreadTail(s: Stream)
    requires s.readIndex < |s.chunks|
    ensures Unread(s) != [] && Unread(s)[0] == s.chunks[s.readIndex] && Unread(s)[1..] == s.chunks[s.readIndex + 1..]
  {
  }

  /** What each step does to what can be observed: a feed is kept or refused as a whole, and only
      the steps named so end, cancel or close the stream. */
  lemma StepEffects(l: Limits, s: Stream, a: Action)
    requires Act(l, s, a).Some?
    ensures var t := Act(l, s, a).value;
            && t.ended == (s.ended || a == Finish) && t.cancelled == (s.cancelled || a == Cancel)
            && t.closed == (s.closed || a == Close)
            && t.fed == (if a.Feed? && Accepts(l, s, a.chunk) then s.fed + [a.chunk.data] else s.fed)
            && (a.Feed? && Accepts(l, s, a.chunk) && s.readIndex <= |s.chunks| ==> Unread(t) == Unread(s) + [a.chunk])
            && (a.Feed? && !Accepts(l, s, a.chunk) ==> t == s)
            && (a == SetData ==> t.dataReady) && (a == SetSpace ==> t.spaceReady)
  {
    hide TookNext, Unread;
    if a == Read && s.readIndex < |s.chunks| {
      TookFlags(l, s);
    }
    if a.Feed? && s.readIndex <= |s.chunks| {
      UnreadMore(s, a.chunk);
      UnreadOf(Act(l, s, a).value, s.(chunks := if Accepts(l, s, a.chunk) then s.chunks + [a.chunk] else s.chunks));
    }
  }

  lemma TookFlags(l: Limits, s: Stream)
    requires s.readIndex < |s.chunks|
    ensures var t := TookNext(l, s);
            t.ended == s.ended && t.cancelled == s.cancelled && t.closed == s.closed && t.fed == s.fed
  {
    hide TookNext;
    TookFields(l, s);
  }

  /** A nonempty chunk is kept by an open stream with room for it. */
  predicate Accepts(l: Limits, s: Stream, c: Chunk) {
    !s.ended && !s.cancelled && !s.closed && c.data != [] && s.received + |c.data| <= l.maxBytes
  }

  /** What the feeder is told, and whether it should pause. */
  lemma FeedOutcomes(l: Limits, s: Stream, c: Chunk)
    ensures var r := Fed(l, s, c);
            && (r.1 == Err(NotAccepting) <==> s.ended || s.cancelled || s.closed)
            && (r.1 == Err(OverLimit) <==> IsOpen(s) && s.received + |c.data| > l.maxBytes)
            && (r.1 == Ok(true) <==> Accepts(l, s, c))
            && (Accepts(l, s, c) && s.queued + |c.data| >= l.high ==> r.0.backpressured && !r.0.spaceReady)
            && (Accepts(l, s, c) && s.queued + |c.data| < l.high ==> r.0.backpressured == s.backpressured)
  {
  }

  /** A producer waits for space exactly while the reader has not brought a pressed stream down. */
  lemma SpaceOutcomes(l: Limits, actions: seq<Action>)
    requires ValidLimits(l)
    ensures var s := Run(l, FRESH, actions);
            var r := AskedToWrite(l, s).1;
            && (r.Writable? <==> !l.streaming || (IsOpen(s) && !s.backpressured))
            && (r.Refused? <==> l.streaming && !IsOpen(s))
            && (r.MustWaitForSpace? ==> |Concat(Payloads(Unread(s)))| > l.low)
            && (r.Writable? && l.streaming ==> |Concat(Payloads(Unread(s)))| < l.high)
  {
    hide Run;
    FreshInvariant(l);
    RunKept(l, FRESH, actions);
  }

  // ---------------------------------------------------------------- the stream object

  /** The object's own fields; `model` is the state they belong to, with what the events and
      the two sides still owe. */
  class BodyStream {
    const limits: Limits
    var chunks: seq<Chunk>
    var readIndex: nat
    var received: nat
    var consumed: nat
    var queued: int
    var backpressured: bool
    var ended: bool
    var cancelled: bool
    var closed: bool
    var dataReady: bool
    var spaceReady: bool
    ghost var model: Stream

    ghost predicate Valid()
      reads this
    {
      && model.chunks == chunks && model.readIndex == readIndex && model.received == received
      && model.consumed == consumed
      && model.queued == queued && model.backpressured == backpressured && model.ended == ended
      && model.cancelled == cancelled
      && model.closed == closed && model.dataReady == dataReady && model.spaceReady == spaceReady
    }

    constructor (limits: Limits)
      requires ValidLimits(limits)
      ensures this.limits == limits && Valid() && model == FRESH && Invariant(limits, model)
    {
      FreshInvariant(limits);
      this.limits := limits;
      chunks, readIndex, received, consumed, queued, backpressured := [], 0, 0, 0, 0, false;
      ended, cancelled, closed, dataReady, spaceReady := false, false, false, false, true;
      model := FRESH;
    }

    method FeedLocked(c: Chunk) returns (r: Result<bool, FeedError>)
      requires Valid()
      modifies this
      ensures Valid() && (model, r) == Fed(limits, old(model), c)
    {
      model := Fed(limits, model, c).0;
      if ended || cancelled || closed {
        return Err(NotAccepting);
      }
      if received + |c.data| > limits.maxBytes {
        return Err(OverLimit);
      }
      if |c.data| == 0 {
        return Ok(false);
      }
      chunks := chunks + [c];
      received := received + |c.data|;
      queued := queued + |c.data|;
      if queued >= limits.high {
        backpressured := true;
        spaceReady := false;
      }
      return Ok(true);
    }

    method SetDataReady()
      requires Valid() && model.owedData > 0
      modifies this`dataReady, this`model
      ensures Valid() && Some(model) == Act(limits, old(model), SetData)
    {
      model := model.(dataReady := true, owedData := model.owedData - 1);
      dataReady := true;
    }

    method SetSpaceReady()
      requires Valid() && model.owedSpace > 0
      modifies this`spaceReady, this`model
      ensures Valid() && Some(model) == Act(limits, old(model), SetSpace)
    {
      model := model.(spaceReady := true, owedSpace := model.owedSpace - 1);
      spaceReady := true;
    }

    method FinishLocked()
      requires Valid()
      modifies this`ended, this`model
      ensures Valid() && model == Finished(old(model))
    {
      model := Finished(model);
      ended := true;
    }

    method CancelLocked() returns (retained: seq<Chunk>)
      requires Valid()
      modifies this
      ensures Valid() && model == Cancelled(old(model)) && retained == old(chunks)
    {
      model := Cancelled(model);
      cancelled := true;
      retained := chunks;
      chunks := [];
      readIndex := 0;
      queued := 0;
      backpressured := false;
    }

    /** The retained chunks and the index of the first unread one, for the caller to release. */
    method CloseLocked() returns (retained: seq<Chunk>, index: nat)
      requires Valid()
      modifies this
      ensures Valid() && model == Closed(old(model))
      ensures old(closed) ==> retained == []
      ensures !old(closed) ==> retained == old(chunks) && index == old(readIndex)
    {
      model := Closed(model);
      if closed {
        return [], 0;
      }
      closed := true;
      retained := chunks;
      index := readIndex;
      chunks := [];
      readIndex := 0;
      queued := 0;
      backpressured := false;
    }

    /** Drops the metadata of chunks already read, once that is half of it. */
    method DropRead()
      requires Valid()
      modifies this`chunks, this`readIndex, this`model
      ensures Valid() && model == Compacted(old(model))
    {
      model := Compacted(model);
      if readIndex >= 64 && readIndex * 2 >= |chunks| && readIndex <= |chunks| {
        chunks := chunks[readIndex..];
        readIndex := 0;
      }
    }

    method Relieve()
      requires Valid()
      modifies this`backpressured, this`model
      ensures Valid() && model == Relieved(limits, old(model))
    {
      model := Relieved(limits, model);
      if backpressured && queued <= limits.low {
        backpressured := false;
      }
    }

    /** Takes the next unread chunk off the queue. */
    method TakeNext() returns (c: Chunk)
      requires Valid() && readIndex < |chunks|
      modifies this
      ensures Valid() && c == old(chunks[readIndex]) && model == TookNext(limits, old(model))
    {
      hide Unread, Payloads, Views, Compacted, Relieved;
      model := Advanced(model);
      c := chunks[readIndex];
      readIndex := readIndex + 1;
      queued := queued - |c.data|;
      consumed := consumed + |c.data|;
      DropRead();
      Relieve();
    }

    /** The region of `read_chunk`; what the reader does outside the lock depends on the outcome. */
    method ReadLocked() returns (r: ReadOutcome)
      requires Valid()
      modifies this
      ensures Valid() && (model, r) == ReadOnce(limits, old(model))
    {
      hide Unread, Payloads, Views, TookNext;
      if cancelled {
        return WasCancelled;
      }
      if readIndex < |chunks| {
        var c := TakeNext();
        return Took(c);
      }
      if ended || closed {
        return AtEnd;
      }
      if !limits.streaming {
        return Nothing;
      }
      model := model.(dataReady := false, readerParked := true);
      dataReady := false;
      return MustWait;
    }

    method AskLocked() returns (r: WriteOutcome)
      requires Valid()
      modifies this`spaceReady, this`model
      ensures Valid() && (model, r) == AskedToWrite(limits, old(model))
    {
      if !limits.streaming {
        return Writable;
      }
      model := AskedToWrite(limits, model).0;
      if cancelled || closed || ended {
        return Refused;
      }
      if !backpressured {
        return Writable;
      }
      spaceReady := false;
      return MustWaitForSpace;
    }
  }
}
