/** The bounded byte queue of owned views, refined to a byte sequence on the heap. */
module ChannelBuffers {
  import opened Octets
  import opened Joining
  import opened Buffers

  datatype Transition = NoChange | HighReached | LowReached

  /** What is left of the bytes of `chunks` after the first `head` chunks and `offset` bytes more. */
  function Left(chunks: seq<bytes>, head: nat, offset: nat): bytes
    requires Positioned(chunks, head, offset)
  {
    Concat(chunks[head..])[offset..]
  }

  /** The head position is inside the head chunk, or at the end of the list. */
  predicate Positioned(chunks: seq<bytes>, head: nat, offset: nat) {
    && head <= |chunks|
    && offset <= |Concat(chunks[head..])|
    && (offset == 0 || (head < |chunks| && offset < |chunks[head]|))
  }

  lemma Grown(before: seq<bytes>, added: seq<bytes>, head: nat, offset: nat)
    requires Positioned(before, head, offset)
    ensures Positioned(before + added, head, offset)
    ensures Left(before + added, head, offset) == Left(before, head, offset) + Concat(added)
  {
    assert (before + added)[head..] == before[head..] + added;
    ConcatAppend(before[head..], added);
  }

  lemma HeadLeft(chunks: seq<bytes>, head: nat, offset: nat)
    requires Positioned(chunks, head, offset) && head < |chunks|
    ensures Left(chunks, head, offset) == chunks[head][offset..] + Left(chunks, head + 1, 0)
    ensures Positioned(chunks, head + 1, 0)
  {
    assert chunks[head..][1..] == chunks[head + 1..];
    assert Concat(chunks[head..]) == chunks[head] + Concat(chunks[head + 1..]);
  }

  lemma DropPart(part: bytes, others: bytes, n: nat, rest: nat)
    requires n == |part| + rest <= |part + others|
    ensures (part + others)[n..] == others[rest..]
  {
  }

  lemma Skipped(chunks: seq<bytes>, head: nat, offset: nat, more: nat)
    requires Positioned(chunks, head, offset) && head < |chunks| && offset + more < |chunks[head]|
    ensures Positioned(chunks, head, offset + more)
    ensures Left(chunks, head, offset + more) == Left(chunks, head, offset)[more..]
  {
    HeadLeft(chunks, head, offset);
    assert Concat(chunks[head..]) == chunks[head] + Concat(chunks[head + 1..]) by {
      assert chunks[head..][1..] == chunks[head + 1..];
    }
  }

  ghost function From(views: seq<BufferView>, head: nat): set<BufferView>
    requires head <= |views|
  {
    set i | head <= i < |views| :: views[i]
  }

  ghost function OwnersFrom(views: seq<BufferView>, head: nat): set<BufferSegment>
    requires head <= |views|
  {
    set i | head <= i < |views| :: views[i].owner
  }

  lemma FromDrop(views: seq<BufferView>, head: nat)
    requires head <= |views|
    ensures From(views[head..], 0) == From(views, head)
    ensures OwnersFrom(views[head..], 0) == OwnersFrom(views, head)
  {
    var tail := views[head..];
    assert forall i :: head <= i < |views| ==> tail[i - head] == views[i];
  }

  lemma FromEmpty()
    ensures From([], 0) == {}
  {
  }

  lemma FromEnd(views: seq<BufferView>)
    ensures From(views, |views|) == {}
  {
  }

  lemma FromMore(views: seq<BufferView>, view: BufferView)
    ensures From(views + [view], 0) == From(views, 0) + {view}
    ensures OwnersFrom(views + [view], 0) == OwnersFrom(views, 0) + {view.owner}
  {
    var more := views + [view];
    assert more[|views|] == view && forall i :: 0 <= i < |views| ==> more[i] == views[i];
  }

  lemma NothingLeft(chunks: seq<bytes>, offset: nat)
    requires Positioned(chunks, |chunks|, offset)
    ensures Left(chunks, |chunks|, offset) == []
  {
  }

  lemma OffsetInside(chunks: seq<bytes>, head: nat, offset: nat)
    requires Positioned(chunks, head, offset) && head < |chunks|
    ensures offset <= |chunks[head]|
  {
  }

  /** One more part on the list, and the total so far. */
  lemma OnePart(parts: seq<bytes>, part: bytes, rest: bytes)
    ensures Concat(parts + [part]) + rest == Concat(parts) + (part + rest)
  {
    ConcatAppend(parts, [part]);
    ConcatOne(part);
  }

  lemma FromNext(views: seq<BufferView>, head: nat)
    requires head < |views| && forall i :: head < i < |views| ==> views[i] != views[head]
    ensures From(views, head + 1) == From(views, head) - {views[head]} && views[head] in From(views, head)
  {
  }

  /** What each of these segments owes: its live views and the references nobody's view holds. */
  type Ledger = map<BufferSegment, (set<BufferView>, nat)>

  ghost function Owed(owners: set<BufferSegment>): Ledger
    reads owners
  {
    map s <- owners :: (s.live, s.direct)
  }

  ghost function Without(ledger: Ledger, gone: set<BufferView>): Ledger {
    map s <- ledger :: (ledger[s].0 - gone, ledger[s].1)
  }

  lemma WithoutBoth(ledger: Ledger, gone: set<BufferView>, more: set<BufferView>)
    ensures Without(Without(ledger, gone), more) == Without(ledger, gone + more)
  {
    forall s <- ledger
      ensures Without(Without(ledger, gone), more)[s] == Without(ledger, gone + more)[s]
    {
      assert ledger[s].0 - gone - more == ledger[s].0 - (gone + more);
    }
  }

  lemma WithoutNothing(ledger: Ledger)
    ensures Without(ledger, {}) == ledger
  {
    forall s <- ledger
      ensures Without(ledger, {})[s] == ledger[s]
    {
      assert ledger[s].0 - {} == ledger[s].0;
    }
  }

  ghost function Of(views: set<BufferView>, segment: BufferSegment): (r: set<BufferView>)
    ensures r <= views
    ensures forall v <- views :: v in r <==> v.owner == segment
  {
    set v <- views | v.owner == segment
  }

  ghost function With(ledger: Ledger, gained: set<BufferView>): Ledger {
    map s <- ledger :: (ledger[s].0 + Of(gained, s), ledger[s].1)
  }

  lemma WithBoth(ledger: Ledger, gained: set<BufferView>, more: set<BufferView>)
    ensures With(With(ledger, gained), more) == With(ledger, gained + more)
  {
    forall s <- ledger
      ensures With(With(ledger, gained), more)[s] == With(ledger, gained + more)[s]
    {
      assert ledger[s].0 + Of(gained, s) + Of(more, s) == ledger[s].0 + Of(gained + more, s);
    }
  }

  lemma WithNothing(ledger: Ledger)
    ensures With(ledger, {}) == ledger
  {
    forall s <- ledger
      ensures With(ledger, {})[s] == ledger[s]
    {
      assert ledger[s].0 + Of({}, s) == ledger[s].0;
    }
  }

  /** Views taken and given back leave the ledger as it was. */
  lemma ThereAndBack(ledger: Ledger, views: set<BufferView>)
    requires forall s <- ledger :: ledger[s].0 !! views
    ensures Without(With(ledger, views), views) == ledger
  {
    forall s <- ledger
      ensures Without(With(ledger, views), views)[s] == ledger[s]
    {
      assert ledger[s].0 + Of(views, s) - views == ledger[s].0;
    }
  }

  /** Releasing a view takes it, and nothing else, off every ledger. */
  lemma OwedLess(owners: set<BufferSegment>, before: Ledger, view: BufferView)
    requires before.Keys == owners
    requires forall s <- owners :: s.direct == before[s].1 && s.live == before[s].0 - {view}
    ensures Owed(owners) == Without(before, {view})
  {
  }

  /** Taking a view of a segment adds it to that segment's ledger alone. */
  lemma OwedMore(owners: set<BufferSegment>, before: Ledger, view: BufferView)
    requires before.Keys == owners
    requires forall s <- owners :: s.direct == before[s].1
                                   && s.live == before[s].0 + (if s == view.owner then {view} else {})
    ensures Owed(owners) == With(before, {view})
  {
    forall s <- owners
      ensures Owed(owners)[s] == With(before, {view})[s]
    {
      assert before[s].0 + Of({view}, s) == Owed(owners)[s].0;
    }
  }

  /** One round of a peek: the next part and what remains of the wanted prefix. */
  lemma PeekStep(chunks: seq<bytes>, index: nat, offset: nat, remaining: nat, take: nat)
    requires Positioned(chunks, index, offset) && index < |chunks|
    requires 0 < remaining <= |Left(chunks, index, offset)|
    requires offset <= |chunks[index]|
    requires take == if |chunks[index]| - offset > remaining then remaining else |chunks[index]| - offset
    ensures Positioned(chunks, index + 1, 0) && remaining - take <= |Left(chunks, index + 1, 0)|
    ensures Left(chunks, index, offset)[..remaining]
            == chunks[index][offset..offset + take] + Left(chunks, index + 1, 0)[..remaining - take]
  {
    HeadLeft(chunks, index, offset);
  }

  /** Nothing but views, segments and their storage. */
  ghost predicate OnlyBuffers(objects: set<object>) {
    forall o <- objects :: o is BufferView || o is BufferSegment || o is array<byte>
  }

  class ChannelBuffer {
    const segmentSize: nat
    const low: nat
    const high: nat
    const maxBytes: nat
    var views: seq<BufferView>
    var head: nat
    var headOffset: nat
    var queuedBytes: nat
    var backpressured: bool
    var closed: bool
    /** The bytes of each view, and every other object the queue is made of. */
    ghost var chunks: seq<bytes>
    ghost var Repr: set<object>

    /** The view at `i` is live and holds the bytes of its chunk. */
    ghost predicate Holds(i: nat)
      requires i < |views| && i < |chunks|
      requires views[i] in Repr && views[i].owner in Repr && views[i].owner.data in Repr
      reads this`views, this`chunks, this`Repr, Repr
    {
      views[i].Live() && views[i].Bytes() == chunks[i]
    }

    /** The queued views are live, pairwise different, and hold the bytes of `chunks`. */
    ghost predicate Queue()
      reads this`views, this`chunks, this`head, this`Repr, Repr
    {
      && OnlyBuffers(Repr)
      && segmentSize > 0
      && head <= |views| == |chunks|
      && (forall i :: head <= i < |views| ==>
            views[i] in Repr && views[i].owner in Repr && views[i].owner.data in Repr && Holds(i))
      && (forall i, j :: head <= i < j < |views| ==> views[i] != views[j])
    }

    /** The byte counter and the watermark flag agree with the queued bytes. */
    ghost predicate Accounted()
      reads this
    {
      && low < high <= maxBytes
      && Positioned(chunks, head, headOffset)
      && queuedBytes == |Left(chunks, head, headOffset)| <= maxBytes
      && (queuedBytes >= high ==> backpressured)
      && (backpressured ==> queuedBytes > low)
      && (closed ==> views == [])
    }

    ghost predicate Valid()
      reads this, Repr
    {
      Queue() && Accounted()
    }

    /** The abstract queue. */
    ghost function Contents(): bytes
      requires Positioned(chunks, head, headOffset)
      reads this
    {
      Left(chunks, head, headOffset)
    }

    lemma Counted()
      requires Valid()
      ensures Positioned(chunks, head, headOffset) && queuedBytes == |Contents()| <= maxBytes
    {
    }

    /** The views the queue holds and their segments. */
    ghost function Held(): set<BufferView>
      requires head <= |views|
      reads this`views, this`head
    {
      From(views, head)
    }

    ghost function Owners(): set<BufferSegment>
      requires head <= |views|
      reads this`views, this`head
    {
      OwnersFrom(views, head)
    }

    constructor (segmentSize: nat, low: nat, high: nat, maxBytes: nat)
      requires segmentSize > 0 && low < high <= maxBytes
      ensures Valid() && fresh(Repr) && Contents() == [] && !closed && !backpressured
      ensures this.maxBytes == maxBytes && this.low == low && this.high == high
    {
      this.segmentSize, this.low, this.high, this.maxBytes := segmentSize, low, high, maxBytes;
      views, head, headOffset, queuedBytes, backpressured, closed := [], 0, 0, 0, false, false;
      chunks := [];
      Repr := {};
    }

    // ------------------------------------------------------------ growing

    /** One more view at the tail. */
    method Push(view: BufferView)
      requires Queue() && view.Live() && view !in Held()
      modifies this`views, this`chunks, this`Repr
      ensures Queue() && views == old(views) + [view] && chunks == old(chunks) + [old(view.Bytes())]
      ensures Repr == old(Repr) + {view, view.owner, view.owner.data}
    {
      hide Queue, Holds, From;
      OwnersValid();
      views := views + [view];
      chunks := chunks + [view.Bytes()];
      Repr := Repr + {view, view.owner, view.owner.data};
      Pushed(view);
    }

    twostate lemma Pushed(view: BufferView)
      requires old(Queue()) && view.Live() && old(view !in Held()) && unchanged(view) && unchanged(view.owner)
      requires unchanged(old(Repr)) && unchanged(view.owner.data) && head == old(head)
      requires views == old(views) + [view] && chunks == old(chunks) + [view.Bytes()]
      requires Repr == old(Repr) + {view, view.owner, view.owner.data}
      ensures Queue()
    {
      forall i | head <= i < |views|
        ensures views[i] in Repr && views[i].owner in Repr && views[i].owner.data in Repr && Holds(i)
      {
        if i < |old(views)| {
          assert old(Holds(i)) && old(views[i]) in old(Held());
        }
      }
      assert forall i :: head <= i < |old(views)| ==> old(views)[i] in old(Held());
    }

    /** Copies the next stretch of the source into a segment of its own. */
    method CopySegment(source: bytes, offset: nat) returns (written: nat)
      requires Queue() && offset < |source|
      modifies this`views, this`chunks, this`Repr
      ensures Queue() && fresh(Repr - old(Repr))
      ensures 0 < written && offset + written <= |source|
      ensures chunks == old(chunks) + [source[offset..offset + written]]
      ensures |views| == |old(views)| + 1 && views[..|old(views)|] == old(views)
      ensures fresh(views[|old(views)|]) && views[|old(views)|].owner.direct == 0
    {
      var remaining := |source| - offset;
      var capacity := segmentSize;
      if remaining < capacity {
        capacity := remaining;
      }
      var segment := new BufferSegment(capacity);
      var w := segment.Write(source, offset, remaining);
      written := w.value;
      var v := segment.View(0, written);
      var view := v.value;
      var dropped := segment.Release();
      assert segment.data[0..written] == source[offset..offset + written];
      assert view.Bytes() == source[offset..offset + written];
      Push(view);
    }

    method TransitionAfterGrowth() returns (t: Transition)
      modifies this`backpressured
      ensures t == if !old(backpressured) && queuedBytes >= high then HighReached else NoChange
      ensures backpressured == (old(backpressured) || queuedBytes >= high)
    {
      if !backpressured && queuedBytes >= high {
        backpressured := true;
        return HighReached;
      }
      return NoChange;
    }

    method TransitionAfterDrain() returns (t: Transition)
      modifies this`backpressured
      ensures t == if old(backpressured) && queuedBytes <= low then LowReached else NoChange
      ensures backpressured == (old(backpressured) && queuedBytes > low)
    {
      if backpressured && queuedBytes <= low {
        backpressured := false;
        return LowReached;
      }
      return NoChange;
    }

    /** The copying loop of an append. */
    method CopyAll(source: bytes) returns (ghost added: seq<bytes>)
      requires Queue()
      modifies this`views, this`chunks, this`Repr
      ensures Queue() && fresh(Repr - old(Repr))
      ensures chunks == old(chunks) + added && Concat(added) == source
      ensures |old(views)| <= |views| && views[..|old(views)|] == old(views)
      ensures forall i :: |old(views)| <= i < |views| ==> fresh(views[i]) && views[i].owner.direct == 0
    {
      hide Queue;
      var offset := 0;
      added := [];
      while offset < |source|
        invariant Queue() && fresh(Repr - old(Repr))
        invariant 0 <= offset <= |source| && Concat(added) == source[..offset]
        invariant chunks == old(chunks) + added
        invariant |old(views)| <= |views| && views[..|old(views)|] == old(views)
        invariant forall i :: |old(views)| <= i < |views| ==> fresh(views[i]) && views[i].owner.direct == 0
        modifies this`views, this`chunks, this`Repr
      {
        var written := CopySegment(source, offset);
        ghost var piece := source[offset..offset + written];
        ConcatAppend(added, [piece]);
        ConcatOne(piece);
        assert source[..offset] + piece == source[..offset + written];
        added := added + [piece];
        offset := offset + written;
      }
      assert source[..|source|] == source;
    }

    /** Appends a copy of the source; the new segments belong to the queue alone. */
    method Append(source: bytes) returns (r: Result<Transition, BufferError>)
      requires Valid()
      modifies this
      ensures Valid() && fresh(Repr - old(Repr)) && closed == old(closed)
      ensures old(closed) ==> r == Err(ClosedError)
      ensures !old(closed) ==> (r.Err? <==> |old(Contents())| + |source| > maxBytes)
      ensures !old(closed) && r.Err? ==> r == Err(LimitError)
      ensures r.Err? ==> Contents() == old(Contents()) && backpressured == old(backpressured)
      ensures r.Ok? ==> Contents() == old(Contents()) + source
      ensures r.Ok? ==> (r.value == HighReached <==> !old(backpressured) && backpressured) && r.value != LowReached
      ensures head == old(head) && |old(views)| <= |views| && views[..|old(views)|] == old(views)
      ensures forall i :: |old(views)| <= i < |views| ==> fresh(views[i]) && views[i].owner.direct == 0
    {
      hide Left, Positioned;
      if closed {
        return Err(ClosedError);
      }
      if queuedBytes + |source| > maxBytes {
        return Err(LimitError);
      }
      ghost var added := CopyAll(source);
      Grown(old(chunks), added, head, headOffset);
      queuedBytes := queuedBytes + |source|;
      var t := TransitionAfterGrowth();
      return Ok(t);
    }

    /** A change to one segment that keeps the queue's views of it counted, and every byte that
        was readable in place, does not disturb the queue. */
    twostate lemma KeptQueue(segment: BufferSegment)
      requires old(Queue()) && old(segment.Valid()) && segment.Valid()
      requires unchanged(this)
      requires forall v <- Held() :: v in old(segment.live) ==> v in segment.live
      requires segment.live != {} ==>
                 && segment.data == old(segment.data) && segment.end >= old(segment.end)
                 && segment.data[..old(segment.end)] == old(segment.data[..segment.end])
      requires forall v <- Held() ::
                 unchanged(v) && (v.owner != segment ==> unchanged(v.owner) && unchanged(v.owner.data))
      ensures Queue()
    {
      forall i | head <= i < |views|
        ensures views[i].owner.data in Repr && Holds(i)
      {
        var v := views[i];
        assert old(Holds(i)) && v in Held();
        if v.owner == segment {
          assert v in segment.live;
          assert v.Live() && v.start + v.length <= old(segment.end);
          assert v.Bytes() == segment.data[..old(segment.end)][v.start..v.start + v.length];
          assert old(v.Bytes()) == old(segment.data[..segment.end])[v.start..v.start + v.length];
        }
      }
    }

    /** Slices the whole of a live view and queues the slice. */
    method PushSlice(view: BufferView)
      requires Queue() && view.Live()
      modifies this`views, this`chunks, this`Repr, view.owner`references, view.owner`live
      ensures Queue() && view.Live() && view.Bytes() == old(view.Bytes())
      ensures |views| == |old(views)| + 1 && views[..|old(views)|] == old(views) && fresh(views[|old(views)|])
      ensures chunks == old(chunks) + [view.Bytes()]
      ensures view.owner.live == old(view.owner.live) + {views[|old(views)|]}
    {
      hide Queue;
      var sliced := view.Slice(0, -1);
      assert view.owner.live != {};
      KeptQueue(view.owner);
      assert sliced.value.Bytes() == view.Bytes();
      Push(sliced.value);
    }

    /** Retains an existing view without copying it; its holder keeps its own reference. */
    method AppendView(view: BufferView) returns (r: Result<Transition, BufferError>)
      requires Valid() && (view.released || view.Live())
      modifies this, view.owner`references, view.owner`live
      ensures Valid() && closed == old(closed)
      ensures !view.released ==> view.Live() && view.Bytes() == old(view.Bytes())
      ensures old(closed) ==> r == Err(ClosedError)
      ensures !old(closed) && view.released ==> r.Err?
      ensures !old(closed) && !view.released ==> (r.Err? <==> |old(Contents())| + view.length > maxBytes)
      ensures r.Err? ==> Contents() == old(Contents()) && backpressured == old(backpressured)
                         && views == old(views) && view.owner.live == old(view.owner.live)
      ensures r.Ok? ==> Contents() == old(Contents()) + view.Bytes()
      ensures r.Ok? ==> |views| == |old(views)| + 1 && fresh(views[|old(views)|])
                        && view.owner.live == old(view.owner.live) + {views[|old(views)|]}
    {
      hide Left, Positioned;
      if closed {
        return Err(ClosedError);
      }
      var length := if view.released then 0 else view.length;
      if queuedBytes + length > maxBytes {
        return Err(LimitError);
      }
      if view.released {
        return Err(ReleasedError);
      }
      PushSlice(view);
      ghost var piece := view.Bytes();
      ConcatOne(piece);
      Grown(old(chunks), [piece], head, headOffset);
      queuedBytes := queuedBytes + length;
      var t := TransitionAfterGrowth();
      return Ok(t);
    }

    // ------------------------------------------------------------ shrinking

    lemma OwnersValid()
      requires Queue()
      ensures forall s <- Owners() :: s.Valid()
      ensures forall v <- Held() :: v.Live() && v.owner in Owners() && v in Repr && v.owner in Repr
      ensures OnlyBuffers(Repr) && head <= |views| == |chunks| && segmentSize > 0
      ensures forall s <- Owners() :: s in Repr
    {
      forall i | head <= i < |views|
        ensures views[i].Live()
      {
        assert Holds(i);
      }
    }

    /** The release of a queued view, as every ledger sees it. */
    static method ReleaseOwed(view: BufferView, ghost owners: set<BufferSegment>)
      requires view.Live() && forall s <- owners :: s.Valid()
      modifies view, view.owner
      ensures view.released && view.owner.Valid() && view.owner.live == old(view.owner.live) - {view}
      ensures view.owner.live != {} ==> view.owner.data == old(view.owner.data) && view.owner.end == old(view.owner.end)
      ensures (forall s <- owners :: s.Valid()) && Owed(owners) == Without(old(Owed(owners)), {view})
    {
      ghost var before := Owed(owners);
      assert view.owner.live != {};
      var freed := view.Release();
      forall s <- owners
        ensures s.Valid() && s.direct == before[s].1 && s.live == before[s].0 - {view}
      {
        if s != view.owner {
          assert view !in before[s].0;
        }
      }
      OwedLess(owners, before, view);
    }

    /** Releases the head view. */
    method PopHead(ghost owners: set<BufferSegment>) returns (view: BufferView)
      requires Queue() && head < |views| && (forall s <- owners :: s.Valid())
      modifies this`head, this`headOffset, views[head], views[head].owner
      ensures Queue() && head == old(head) + 1 && headOffset == 0
      ensures view == old(views[head]) && view.released && Held() == old(Held()) - {view} && view in old(Held())
      ensures (forall s <- owners :: s.Valid()) && Owed(owners) == Without(old(Owed(owners)), {view})
    {
      hide Queue, From, Owed, Without;
      OwnersValid();
      HeadLeaves();
      FromNext(views, head);
      view := views[head];
      assert view in Held();
      ReleaseOwed(view, owners);
      head := head + 1;
      headOffset := 0;
      StillHeld(view);
    }

    /** The views behind the released head keep their bytes. */
    twostate lemma StillHeld(view: BufferView)
      requires old(Queue()) && old(head < |views| && view == views[head])
      requires views == old(views) && chunks == old(chunks) && Repr == old(Repr) && head == old(head) + 1
      requires view.owner.Valid() && view.owner.live == old(view.owner.live) - {view}
      requires view.owner.live != {} ==>
                 view.owner.data == old(view.owner.data) && view.owner.end == old(view.owner.end)
      requires unchanged(old(view.owner.data))
      requires forall v <- Held() :: v != view ==>
                 unchanged(v) && (v.owner != view.owner ==> unchanged(v.owner) && unchanged(v.owner.data))
      ensures Queue()
    {
      forall i | head <= i < |views|
        ensures views[i].owner.data in Repr && Holds(i)
      {
        assert old(Holds(i)) && views[i] in Held();
        assert views[i] != view;
        if views[i].owner == view.owner {
          assert views[i] in view.owner.live;
        }
      }
    }

    lemma HeadLeaves()
      requires Queue() && head < |views|
      ensures forall i :: head < i < |views| ==> views[i] != views[head]
      ensures |Concat(chunks[head..])| >= views[head].length == |chunks[head]|
    {
      assert Holds(head);
      assert chunks[head..][1..] == chunks[head + 1..];
    }

    /** One round of the releasing loop: part of the head view, or all of it. */
    method DiscardHead(remaining: nat, ghost owners: set<BufferSegment>)
      returns (rest: nat, ghost gone: set<BufferView>)
      requires Queue() && Positioned(chunks, head, headOffset) && 0 < remaining <= |Contents()|
      requires head < |views| && (forall s <- owners :: s.Valid())
      modifies this`head, this`headOffset, views[head], views[head].owner
      ensures Queue() && Positioned(chunks, head, headOffset) && rest <= |Contents()|
      ensures Contents()[rest..] == old(Contents())[remaining..]
      ensures if head == old(head) then rest == 0 else head == old(head) + 1 && rest <= remaining
      ensures gone <= old(Held()) && Held() == old(Held()) - gone && (forall v <- gone :: v.released)
      ensures (forall s <- owners :: s.Valid()) && Owed(owners) == Without(old(Owed(owners)), gone)
    {
      hide Queue, Left, Positioned, From, Owed, Without;
      HeadLeaves();
      OwnersValid();
      HeadLeft(chunks, head, headOffset);
      assert headOffset <= |chunks[head]| by { HeadOffset(); }
      var available := views[head].length - headOffset;
      if remaining < available {
        Skipped(chunks, head, headOffset, remaining);
        headOffset := headOffset + remaining;
        WithoutNothing(Owed(owners));
        return 0, {};
      }
      rest := remaining - available;
      var view := PopHead(owners);
      gone := {view};
      DropPart(old(chunks[head][headOffset..]), Contents(), remaining, rest);
    }

    lemma HeadOffset()
      requires Positioned(chunks, head, headOffset) && head < |chunks|
      ensures headOffset <= |chunks[head]|
    {
    }

    /** The next round of the loop has a head view to work on. */
    lemma NextRound()
      requires Queue() && Positioned(chunks, head, headOffset) && Contents() != []
      ensures head < |views| && views[head] in Held() && views[head] in Repr && views[head].owner in Repr
              && OnlyBuffers(Repr)
    {
      OwnersValid();
    }

    /** The releasing loop of a consume. */
    method Discard(length: nat) returns (ghost gone: set<BufferView>)
      requires Queue() && Positioned(chunks, head, headOffset) && length <= |Contents()|
      modifies this`head, this`headOffset, Repr
      ensures Queue() && Positioned(chunks, head, headOffset)
      ensures Contents() == old(Contents())[length..]
      ensures gone <= old(Held()) && Held() == old(Held()) - gone && (forall v <- gone :: v.released)
      ensures (forall s <- old(Owners()) :: s.Valid()) && Owed(old(Owners())) == Without(old(Owed(Owners())), gone)
    {
      hide Queue, Left, Positioned, From, Owed, Without;
      OwnersValid();
      var remaining: nat := length;
      gone := {};
      WithoutNothing(Owed(Owners()));
      while remaining > 0
        invariant Queue() && Positioned(chunks, head, headOffset) && remaining <= |Contents()|
        invariant head <= |views|
        invariant Contents()[remaining..] == old(Contents())[length..]
        invariant gone <= old(Held()) && Held() == old(Held()) - gone && (forall v <- gone :: v.released)
        invariant (forall s <- old(Owners()) :: s.Valid()) && Owed(old(Owners())) == Without(old(Owed(Owners())), gone)
        decreases |views| - head, remaining
      {
        NextRound();
        ghost var more;
        remaining, more := DiscardHead(remaining, old(Owners()));
        WithoutBoth(old(Owed(Owners())), gone, more);
        gone := gone + more;
      }
    }

    /** Drops the spent prefix of the view list once it is long and at least half of it. */
    method Compact()
      requires Queue() && Positioned(chunks, head, headOffset)
      modifies this`views, this`chunks, this`head
      ensures Queue() && Positioned(chunks, head, headOffset)
      ensures Contents() == old(Contents()) && Held() == old(Held()) && Owners() == old(Owners())
      ensures head <= 32 || head * 2 < |views|
      ensures old(views) == [] ==> views == []
    {
      hide Queue, From, OwnersFrom;
      OwnersValid();
      if head > 32 && head * 2 >= |views| {
        assert chunks[head..][0..] == chunks[head..];
        FromDrop(views, head);
        views := views[head..];
        chunks := chunks[head..];
        head := 0;
        Compacted();
      }
    }

    twostate lemma Compacted()
      requires old(Queue()) && unchanged(old(Repr)) && Repr == old(Repr)
      requires views == old(views[head..]) && chunks == old(chunks[head..]) && head == 0
      ensures Queue()
    {
      forall i | 0 <= i < |views|
        ensures views[i] in Repr && views[i].owner in Repr && views[i].owner.data in Repr && Holds(i)
      {
        assert old(Holds(i + head));
      }
    }

    /** Releases the views a reader has finished with; the rest of the bytes stay queued. */
    method Consume(length: int) returns (r: Result<Transition, BufferError>, ghost gone: set<BufferView>)
      requires Valid()
      modifies this, Repr
      ensures Valid() && closed == old(closed) && Repr == old(Repr)
      ensures r.Err? <==> length < 0 || length > |old(Contents())|
      ensures r.Err? ==> Contents() == old(Contents()) && gone == {}
      ensures r.Ok? ==> Contents() == old(Contents())[length..] && (head <= 32 || head * 2 < |views|)
      ensures r.Ok? ==> (r.value == LowReached <==> old(backpressured) && !backpressured) && r.value != HighReached
      ensures gone <= old(Held()) && Held() == old(Held()) - gone && (forall v <- gone :: v.released)
      ensures (forall s <- old(Owners()) :: s.Valid()) && Owed(old(Owners())) == Without(old(Owed(Owners())), gone)
    {
      hide Queue, Left, Positioned, From, Owed, Without;
      OwnersValid();
      gone := {};
      if length < 0 || length > queuedBytes {
        WithoutNothing(Owed(Owners()));
        return Err(RangeError), gone;
      }
      gone := Discard(length);
      queuedBytes := queuedBytes - length;
      OwnersValid();
      Compact();
      OwnersValid();
      var t := TransitionAfterDrain();
      return Ok(t), gone;
    }

    // ------------------------------------------------------------ reading

    /** These views are live, pairwise different, and hold the bytes of `parts`. */
    static ghost predicate Taken(result: seq<BufferView>, parts: seq<bytes>)
      reads result, OwnersFrom(result, 0), set s <- OwnersFrom(result, 0) :: s.data
    {
      && |result| == |parts|
      && (forall i :: 0 <= i < |result| ==>
            result[i].owner in OwnersFrom(result, 0) && result[i].Live() && result[i].Bytes() == parts[i])
      && (forall i, j :: 0 <= i < j < |result| ==> result[i] != result[j])
    }

    static twostate lemma StillTaken(v: BufferView)
      requires old(v.Live()) && unchanged(v) && unchanged(old(v.owner.data))
      requires v.owner.Valid() && v.owner.live >= old(v.owner.live) && v.owner.data == old(v.owner.data)
               && v.owner.end == old(v.owner.end)
      ensures v.Live() && v.Bytes() == old(v.Bytes())
    {
    }

    /** Taking one more view leaves the views taken before as they were. */
    static twostate lemma OneMoreTaken(result: seq<BufferView>, new parts: seq<bytes>, new part: BufferView)
      requires old(Taken(result, parts)) && part.Live() && fresh(part)
      requires forall v <- result :: unchanged(v) && unchanged(old(v.owner.data))
      requires forall v <- result :: v.owner.Valid() && v.owner.live >= old(v.owner.live)
                 && v.owner.data == old(v.owner.data) && v.owner.end == old(v.owner.end)
      ensures Taken(result + [part], parts + [part.Bytes()])
    {
      var more := result + [part];
      forall i | 0 <= i < |more|
        ensures more[i].owner in OwnersFrom(more, 0) && more[i].Live() && more[i].Bytes() == (parts + [part.Bytes()])[i]
      {
        if i < |result| {
          StillTaken(result[i]);
        }
      }
    }

    static lemma TakenOwners(result: seq<BufferView>, parts: seq<bytes>)
      requires Taken(result, parts)
      ensures |result| == |parts| && forall v <- result :: v.owner.Valid() && v.Live()
      ensures result != [] ==> result[0].Bytes() == parts[0]
    {
    }

    /** A slice of a live view, as every ledger sees it. */
    static method SliceOwed(view: BufferView, offset: nat, take: nat, ghost owners: set<BufferSegment>)
      returns (part: BufferView)
      requires view.Live() && offset + take <= view.length && (forall s <- owners :: s.Valid())
      modifies view.owner`references, view.owner`live
      ensures fresh(part) && part.Live() && part.owner == view.owner && view.Live() && view.Bytes() == old(view.Bytes())
      ensures part.Bytes() == view.Bytes()[offset..offset + take]
      ensures view.owner.Valid() && view.owner.live == old(view.owner.live) + {part} && !view.owner.released
      ensures (forall s <- owners :: s.Valid()) && Owed(owners) == With(old(Owed(owners)), {part})
    {
      ghost var before := Owed(owners);
      assert view.owner.live != {};
      var sliced := view.Slice(offset, take);
      part := sliced.value;
      OwedMore(owners, before, part);
    }

    /** The same, for views taken before it. */
    static method SliceTaken(view: BufferView, offset: nat, take: nat, ghost owners: set<BufferSegment>,
                             ghost result: seq<BufferView>, ghost parts: seq<bytes>) returns (part: BufferView)
      requires view.Live() && offset + take <= view.length && (forall s <- owners :: s.Valid()) && Taken(result, parts)
      modifies view.owner`references, view.owner`live
      ensures fresh(part) && part.Live() && part.owner == view.owner && view.Live() && view.Bytes() == old(view.Bytes())
      ensures part.Bytes() == view.Bytes()[offset..offset + take]
      ensures view.owner.Valid() && view.owner.live == old(view.owner.live) + {part} && !view.owner.released
      ensures (forall s <- owners :: s.Valid()) && Owed(owners) == With(old(Owed(owners)), {part})
      ensures Taken(result + [part], parts + [part.Bytes()])
    {
      hide Taken, OwnersFrom, Owed, With;
      TakenOwners(result, parts);
      part := SliceOwed(view, offset, take, owners);
      OneMoreTaken(result, parts, part);
    }

    /** Retains part of a queued view for a reader. */
    method SliceAt(index: nat, offset: nat, take: nat, ghost owners: set<BufferSegment>,
                   ghost result: seq<BufferView>, ghost parts: seq<bytes>) returns (part: BufferView)
      requires Queue() && head <= index < |views| && offset + take <= |chunks[index]|
      requires (forall s <- owners :: s.Valid()) && Taken(result, parts)
      modifies views[index].owner`references, views[index].owner`live
      ensures Queue() && fresh(part) && part.Live() && part.Bytes() == chunks[index][offset..offset + take]
      ensures Taken(result + [part], parts + [part.Bytes()])
      ensures part.owner == views[index].owner && part.owner.live == old(views[index].owner.live) + {part}
      ensures (forall s <- owners :: s.Valid()) && Owed(owners) == With(old(Owed(owners)), {part})
    {
      hide Queue, From, Owed, With, Taken, OwnersFrom;
      OwnersValid();
      AtIndex(index);
      part := SliceTaken(views[index], offset, take, owners, result, parts);
      KeptQueue(part.owner);
    }

    lemma AtIndex(index: nat)
      requires Queue() && head <= index < |views|
      ensures views[index].Live() && views[index].Bytes() == chunks[index] && views[index] in Held()
    {
      assert Holds(index);
    }

    ghost function Wanted(limit: int): nat
      reads this`queuedBytes
    {
      if 0 <= limit < queuedBytes then limit else queuedBytes
    }

    /** One round of a peek. */
    method PeekRound(index: nat, localOffset: nat, remaining: nat, result: seq<BufferView>,
                     ghost parts: seq<bytes>, ghost owners: set<BufferSegment>)
      returns (take: nat, part: BufferView)
      requires Queue() && head <= index < |views| && 0 < remaining
      requires Positioned(chunks, index, localOffset) && remaining <= |Left(chunks, index, localOffset)|
      requires Taken(result, parts) && (forall s <- owners :: s.Valid())
      modifies views[index].owner`references, views[index].owner`live
      ensures Queue() && take <= remaining && fresh(part) && part.owner == views[index].owner
      ensures part.Live() && Taken(result + [part], parts + [part.Bytes()])
      ensures Positioned(chunks, index + 1, 0) && remaining - take <= |Left(chunks, index + 1, 0)|
      ensures Left(chunks, index, localOffset)[..remaining] == part.Bytes()
                + Left(chunks, index + 1, 0)[..remaining - take]
      ensures (forall s <- owners :: s.Valid()) && Owed(owners) == With(old(Owed(owners)), {part})
    {
      hide Queue, Left, Positioned, From, Owed, With, OwnersFrom, Taken;
      OwnersValid();
      AtIndex(index);
      OffsetInside(chunks, index, localOffset);
      var available := views[index].length - localOffset;
      take := available;
      if take > remaining {
        take := remaining;
      }
      PeekStep(chunks, index, localOffset, remaining, take);
      part := SliceAt(index, localOffset, take, owners, result, parts);
    }

    /** Retained views of the first queued bytes; nothing leaves the queue. */
    method PeekViews(limit: int) returns (result: seq<BufferView>, ghost parts: seq<bytes>)
      requires Valid()
      modifies Owners()
      ensures Valid() && Taken(result, parts) && fresh(From(result, 0)) && OwnersFrom(result, 0) <= Owners()
      ensures Concat(parts) == Contents()[..Wanted(limit)]
      ensures (forall s <- Owners() :: s.Valid()) && Owed(Owners()) == With(old(Owed(Owners())), From(result, 0))
    {
      hide Queue, Left, Positioned, From, Owed, With, OwnersFrom, Taken;
      OwnersValid();
      result, parts := [], [];
      var remaining: nat := queuedBytes;
      if limit >= 0 && limit < remaining {
        remaining := limit;
      }
      var index := head;
      var localOffset := headOffset;
      FromEmpty();
      WithNothing(Owed(Owners()));
      NoneTaken();
      while index < |views| && remaining > 0
        invariant Queue() && head <= index <= |views|
        invariant Positioned(chunks, index, localOffset) && remaining <= |Left(chunks, index, localOffset)|
        invariant Concat(parts) + Left(chunks, index, localOffset)[..remaining] == Contents()[..Wanted(limit)]
        invariant Taken(result, parts) && fresh(From(result, 0)) && OwnersFrom(result, 0) <= Owners()
        invariant (forall s <- Owners() :: s.Valid()) && Owed(Owners()) == With(old(Owed(Owners())), From(result, 0))
        decreases |views| - index
      {
        OwnersValid();
        AtIndex(index);
        var take, part := PeekRound(index, localOffset, remaining, result, parts, Owners());
        OnePart(parts, part.Bytes(), Left(chunks, index + 1, 0)[..remaining - take]);
        WithBoth(old(Owed(Owners())), From(result, 0), {part});
        FromMore(result, part);
        result, parts := result + [part], parts + [part.Bytes()];
        remaining := remaining - take;
        index := index + 1;
        localOffset := 0;
      }
      if index == |views| {
        OwnersValid();
        NothingLeft(chunks, localOffset);
      }
    }

    static lemma NoneTaken()
      ensures Taken([], []) && OwnersFrom([], 0) == {}
    {
    }

    /** Releasing a view that the queue does not hold leaves the queue as it was, even when
        the view shares a segment with queued ones. */
    method ReleaseElsewhere(view: BufferView, ghost owners: set<BufferSegment>)
      requires Queue() && view.Live() && view !in Held() && (forall s <- owners :: s.Valid())
      modifies view, view.owner
      ensures Queue() && view.released && view.owner.Valid() && view.owner.live == old(view.owner.live) - {view}
      ensures view.owner.live != {} ==> view.owner.data == old(view.owner.data) && view.owner.end == old(view.owner.end)
      ensures (forall s <- owners :: s.Valid()) && Owed(owners) == Without(old(Owed(owners)), {view})
    {
      hide Queue, From, Owed, Without;
      OwnersValid();
      ReleaseOwed(view, owners);
      KeptQueue(view.owner);
    }

    /** So does writing more bytes behind those already readable in a shared segment. */
    method WriteElsewhere(segment: BufferSegment, source: bytes, offset: int, length: int)
      returns (r: Result<nat, BufferError>)
      requires Queue() && segment.Valid()
      requires forall v <- Held() :: v.owner != segment ==> v.owner.data != segment.data
      modifies segment`end, segment.data
      ensures Queue() && segment.Valid() && segment.live == old(segment.live)
    {
      hide Queue, From;
      OwnersValid();
      r := segment.Write(source, offset, length);
      KeptQueue(segment);
    }

    /** What is left of a list of taken views once its first is released. */
    static twostate lemma RestTaken(result: seq<BufferView>, new parts: seq<bytes>)
      requires old(Taken(result, parts)) && result != []
      requires result[0].owner.Valid() && result[0].owner.live == old(result[0].owner.live) - {result[0]}
      requires result[0].owner.live != {} ==>
                 result[0].owner.data == old(result[0].owner.data) && result[0].owner.end == old(result[0].owner.end)
      requires unchanged(old(result[0].owner.data))
      requires forall v <- result :: v != result[0] ==>
                 unchanged(v) && (v.owner != result[0].owner ==> unchanged(v.owner) && unchanged(old(v.owner.data)))
      ensures Taken(result[1..], parts[1..])
    {
      var rest := result[1..];
      forall i | 0 <= i < |rest|
        ensures rest[i].owner in OwnersFrom(rest, 0) && rest[i].Live() && rest[i].Bytes() == parts[1..][i]
      {
        assert rest[i] == result[i + 1] && rest[i] in result && rest[i] != result[0];
        assert old(rest[i].Live() && rest[i].Bytes() == parts[i + 1]);
        if rest[i].owner == result[0].owner {
          assert rest[i] in result[0].owner.live;
        }
      }
    }

    /** Gives up the first of a list of taken views. */
    method ReleaseFirst(result: seq<BufferView>, ghost parts: seq<bytes>, ghost owners: set<BufferSegment>)
      returns (output: bytes)
      requires Queue() && Taken(result, parts) && result != [] && result[0] !in Held()
               && (forall s <- owners :: s.Valid())
      modifies result[0], result[0].owner
      ensures Queue() && output == parts[0] && Taken(result[1..], parts[1..])
      ensures (forall s <- owners :: s.Valid()) && Owed(owners) == Without(old(Owed(owners)), {result[0]})
    {
      hide Queue, Taken, From, Owed, Without, OwnersFrom;
      TakenOwners(result, parts);
      var read := result[0].ToBytes();
      output := read.value;
      ReleaseElsewhere(result[0], owners);
      RestTaken(result, parts);
    }

    /** Reads out and releases a list of views taken from the queue. */
    method ReleaseAll(result: seq<BufferView>, ghost parts: seq<bytes>, ghost owners: set<BufferSegment>)
      returns (output: bytes)
      requires Queue() && Taken(result, parts) && From(result, 0) !! Held() && (forall s <- owners :: s.Valid())
      modifies From(result, 0), OwnersFrom(result, 0)
      ensures Queue() && output == Concat(parts)
      ensures (forall s <- owners :: s.Valid()) && Owed(owners) == Without(old(Owed(owners)), From(result, 0))
    {
      hide Queue, Taken, Owed, Without, From, OwnersFrom;
      output := [];
      var index := 0;
      WithoutNothing(Owed(owners));
      FromEmpty();
      TakenOwners(result, parts);
      while index < |result|
        invariant Queue() && 0 <= index <= |result| == |parts| && Taken(result[index..], parts[index..])
        invariant output == Concat(parts[..index])
        invariant (forall s <- owners :: s.Valid())
                  && Owed(owners) == Without(old(Owed(owners)), From(result[..index], 0))
      {
        ghost var rest, left := result[index..], parts[index..];
        NextTaken(result, index);
        assert rest[1..] == result[index + 1..] && left[1..] == parts[index + 1..];
        assert result[..index + 1] == result[..index] + [result[index]]
               && parts[..index + 1] == parts[..index] + [parts[index]];
        var part := ReleaseFirst(result[index..], left, owners);
        FromMore(result[..index], result[index]);
        WithoutBoth(old(Owed(owners)), From(result[..index], 0), {result[index]});
        ConcatAppend(parts[..index], [parts[index]]);
        ConcatOne(part);
        output := output + part;
        index := index + 1;
      }
      assert result[..|result|] == result && parts[..|parts|] == parts;
    }

    static lemma NextTaken(result: seq<BufferView>, index: nat)
      requires index < |result|
      ensures result[index] in From(result, 0) && result[index].owner in OwnersFrom(result, 0)
    {
    }

    /** Views made since then were on no ledger then. */
    static twostate lemma FreshOwed(owners: set<BufferSegment>, new gained: set<BufferView>)
      requires fresh(gained)
      ensures forall s <- old(Owed(owners)) :: old(Owed(owners))[s].0 !! gained
    {
    }

    /** Copies out queued bytes through retained views that are given back at once. */
    method Peek(limit: int) returns (output: bytes)
      requires Valid()
      modifies Owners()
      ensures Valid() && output == Contents()[..Wanted(limit)]
      ensures (forall s <- Owners() :: s.Valid()) && Owed(Owners()) == old(Owed(Owners()))
    {
      hide Queue, Left, Positioned, From, Owed, With, Without, OwnersFrom, Taken;
      OwnersValid();
      var taken, parts := PeekViews(limit);
      assert forall s: object :: s in OwnersFrom(taken, 0) ==> s in Owners();
      assert forall v: object :: v in From(taken, 0) ==> fresh(v);
      assert From(taken, 0) !! Held();
      output := ReleaseAll(taken, parts, Owners());
      FreshOwed(Owners(), From(taken, 0));
      ThereAndBack(old(Owed(Owners())), From(taken, 0));
    }

    /** Copies out and consumes up to `limit` queued bytes. */
    method Read(limit: int) returns (output: bytes, ghost gone: set<BufferView>)
      requires Valid()
      modifies this, Repr
      ensures Valid() && closed == old(closed) && Repr == old(Repr)
      ensures var n := if limit < 0 || limit > |old(Contents())| then |old(Contents())| else limit;
              output == old(Contents())[..n] && Contents() == old(Contents())[n..]
      ensures gone <= old(Held()) && Held() == old(Held()) - gone && (forall v <- gone :: v.released)
      ensures (forall s <- old(Owners()) :: s.Valid()) && Owed(old(Owners())) == Without(old(Owed(Owners())), gone)
    {
      hide Queue, Left, Positioned, From, Owed, With, Without, OwnersFrom, Taken;
      OwnersValid();
      var bound := limit;
      if bound < 0 || bound > queuedBytes {
        bound := queuedBytes;
      }
      output := Peek(bound);
      var t;
      t, gone := Consume(bound);
    }

    /** The releasing loop of a close. */
    method ReleaseQueued() returns (count: nat, ghost gone: set<BufferView>)
      requires Queue()
      modifies this`head, this`headOffset, Repr
      ensures Queue() && head == |views| && count == head - old(head)
      ensures gone <= old(Held()) && Held() == old(Held()) - gone && (forall v <- gone :: v.released)
      ensures (forall s <- old(Owners()) :: s.Valid()) && Owed(old(Owners())) == Without(old(Owed(Owners())), gone)
    {
      hide Queue, From, Owed, Without, OwnersFrom;
      OwnersValid();
      gone := {};
      count := 0;
      WithoutNothing(Owed(Owners()));
      while head < |views|
        invariant Queue() && views == old(views) && old(head) <= head <= |views| && count == head - old(head)
        invariant gone <= old(Held()) && Held() == old(Held()) - gone && (forall v <- gone :: v.released)
        invariant (forall s <- old(Owners()) :: s.Valid()) && Owed(old(Owners())) == Without(old(Owed(Owners())), gone)
        decreases |views| - head
      {
        OwnersValid();
        AtIndex(head);
        var view := PopHead(old(Owners()));
        WithoutBoth(old(Owed(Owners())), gone, {view});
        gone := gone + {view};
        count := count + 1;
      }
    }

    /** Closing releases every queued view exactly once and reports how many there were. */
    method Close() returns (count: nat, ghost gone: set<BufferView>)
      requires Valid()
      modifies this, Repr
      ensures Valid() && closed && Contents() == [] && Repr == old(Repr)
      ensures gone == old(Held()) && (forall v <- gone :: v.released)
      ensures count == if old(closed) then 0 else |old(views)| - old(head)
      ensures (forall s <- old(Owners()) :: s.Valid()) && Owed(old(Owners())) == Without(old(Owed(Owners())), gone)
    {
      hide Queue, From, Owed, Without, OwnersFrom;
      OwnersValid();
      gone := {};
      count := 0;
      WithoutNothing(Owed(Owners()));
      if closed {
        FromEnd(views);
        NothingLeft(chunks, headOffset);
        return;
      }
      count, gone := ReleaseQueued();
      FromEnd(views);
      NothingKept(old(Held()), gone);
      OwnersValid();
      views, head, headOffset, queuedBytes, backpressured, closed := [], 0, 0, 0, false, true;
      chunks := [];
      EmptyQueue();
    }

    static lemma NothingKept(held: set<BufferView>, gone: set<BufferView>)
      requires gone <= held && held - gone == {}
      ensures gone == held
    {
      assert forall v <- held :: v in gone || v in held - gone;
    }

    lemma EmptyQueue()
      requires views == [] && chunks == [] && head == headOffset == 0 && OnlyBuffers(Repr) && segmentSize > 0
      ensures Queue() && Positioned(chunks, head, headOffset) && Contents() == []
    {
    }
  }
}
