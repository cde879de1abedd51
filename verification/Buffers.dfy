/** Reference-counted segments, retained views and the segmented byte queue built on them. */
module Buffers {
  import opened Octets

  datatype BufferError = ReleasedError | ClosedError | LimitError | RangeError

  // ---------------------------------------------------------------- segments

  /** One storage owner. `live` are its unreleased views and `direct` the references held
      by anyone else; together they are exactly the reference count. */
  class BufferSegment {
    const capacity: nat
    var data: array<byte>
    var start: nat
    var end: nat
    var references: int
    var released: bool
    ghost var live: set<BufferView>
    ghost var direct: nat
    ghost var frees: nat

    ghost predicate Valid()
      reads this
    {
      && references == direct + |live|
      && (forall v <- live :: v.owner == this)
      && (released <==> references == 0)
      && frees == (if released then 1 else 0)
      && (if released then data.Length == 0 && start == end == 0
          else data.Length == capacity && start <= end <= capacity)
    }

    constructor (capacity: nat)
      requires capacity > 0
      ensures this.capacity == capacity && Valid() && !released
      ensures fresh(data) && start == 0 && end == 0 && live == {} && direct == 1 && frees == 0
    {
      this.capacity := capacity;
      data := new byte[capacity](_ => 0);
      start, end, references, released := 0, 0, 1, false;
      live, direct, frees := {}, 1, 0;
    }

    method Retain() returns (r: Result<(), BufferError>)
      requires Valid()
      modifies this`references, this`direct
      ensures Valid()
      ensures r == if old(released) then Err(ReleasedError) else Ok(())
      ensures direct == if r.Ok? then old(direct) + 1 else old(direct)
    {
      if released {
        return Err(ReleasedError);
      }
      references := references + 1;
      direct := direct + 1;
      return Ok(());
    }

    /** Gives back one reference, of those that no view holds if there is one. A caller that
        holds none takes a view's reference away, and the count no longer matches. */
    method Release() returns (r: Result<nat, BufferError>)
      requires Valid()
      modifies this
      ensures live == old(live) && (released <==> references == 0)
      ensures old(released) ==>
                r == Err(ReleasedError) && references == old(references) && direct == old(direct) && frees == old(frees)
      ensures !old(released) ==> references == old(references) - 1 && r == Ok(if released then 1 else 0)
      ensures Valid() <==> old(released) || old(direct) > 0
      ensures old(direct) > 0 ==> direct == old(direct) - 1 && (released <==> old(direct) == 1 && live == {})
      ensures !released ==> data == old(data) && start == old(start) && end == old(end)
      ensures data == old(data) || fresh(data)
      ensures frees == old(frees) + (if r == Ok(1) then 1 else 0)
    {
      if released {
        return Err(ReleasedError);
      }
      if direct > 0 {
        direct := direct - 1;
      }
      var freed := Drop();
      return Ok(freed);
    }

    /** The counting part of a release; a caller that held a reference has taken it off the ledger. */
    method Drop() returns (freed: nat)
      requires references > 0 && !released && frees == 0
      requires forall v <- live :: v.owner == this
      requires data.Length == capacity && start <= end <= capacity
      modifies this`references, this`released, this`data, this`start, this`end, this`frees
      ensures references == old(references) - 1 && (released <==> references == 0)
      ensures Valid() <==> references == direct + |live|
      ensures freed == (if released then 1 else 0) && frees == freed
      ensures !released ==> data == old(data) && start == old(start) && end == old(end)
      ensures data == old(data) || fresh(data)
    {
      references := references - 1;
      if references == 0 {
        released := true;
        data := new byte[0];
        start := 0;
        end := 0;
        frees := frees + 1;
        return 1;
      }
      return 0;
    }

    function ReadableBytes(): nat
      requires Valid()
      reads this
    {
      if released then 0 else end - start
    }

    function WritableBytes(): nat
      requires Valid()
      reads this
    {
      if released then 0 else capacity - end
    }

    /** Copies as much of the source range as fits; bytes written before stay as they are. */
    method Write(source: bytes, offset: int, length: int) returns (r: Result<nat, BufferError>)
      requires Valid()
      modifies this`end, data
      ensures Valid()
      ensures var want := if length < 0 then |source| - offset else length;
              r == if released then Err(ReleasedError)
                   else if !(0 <= offset <= |source|) || offset + want > |source| then Err(RangeError)
                   else Ok(if want > capacity - old(end) then capacity - old(end) else want)
      ensures end == old(end) + (if r.Ok? then r.value else 0)
      ensures data[..old(end)] == old(data[..end])
      ensures r.Ok? ==>
                0 <= offset && offset + r.value <= |source| && data[old(end)..end] == source[offset..offset + r.value]
    {
      if released {
        return Err(ReleasedError);
      }
      if offset < 0 || offset > |source| {
        return Err(RangeError);
      }
      var want := if length < 0 then |source| - offset else length;
      if offset + want > |source| {
        return Err(RangeError);
      }
      var count: nat := want;
      if count > WritableBytes() {
        count := WritableBytes();
      }
      var index := 0;
      while index < count
        invariant 0 <= index <= count && end == old(end)
        invariant data[..end] == old(data[..end])
        invariant data[end..end + index] == source[offset..offset + index]
        modifies data
      {
        data[end + index] := source[offset + index];
        index := index + 1;
      }
      end := end + count;
      return Ok(count);
    }

    method Consume(length: int) returns (r: Result<nat, BufferError>)
      requires Valid()
      modifies this`start
      ensures Valid()
      ensures r == if released then Err(ReleasedError) else if length < 0 then Err(RangeError)
                   else Ok(if length > old(ReadableBytes()) then old(ReadableBytes()) else length)
      ensures start == old(start) + (if r.Ok? then r.value else 0)
    {
      if released {
        return Err(ReleasedError);
      }
      if length < 0 {
        return Err(RangeError);
      }
      var count: nat := length;
      if count > ReadableBytes() {
        count := ReadableBytes();
      }
      start := start + count;
      return Ok(count);
    }

    /** A view of `length` readable bytes from `offset`; a negative length means the rest. */
    method View(offset: int, length: int) returns (r: Result<BufferView, BufferError>)
      requires Valid()
      modifies this`references, this`live
      ensures Valid()
      ensures var want := if length < 0 then ReadableBytes() - offset else length;
              && (r.Err? <==> released || !(0 <= offset <= end - start) || offset + want > end - start)
              && (r.Ok? ==> fresh(r.value) && r.value.Live() && r.value.owner == this
                            && r.value.start == start + offset && r.value.length == want
                            && live == old(live) + {r.value} && r.value !in old(live))
      ensures r.Err? ==> live == old(live)
    {
      if released {
        return Err(ReleasedError);
      }
      if offset < 0 || offset > ReadableBytes() {
        return Err(RangeError);
      }
      var want := if length < 0 then ReadableBytes() - offset else length;
      if offset + want > ReadableBytes() {
        return Err(RangeError);
      }
      var view := new BufferView(this, start + offset, want);
      return Ok(view);
    }
  }

  // ---------------------------------------------------------------- views

  /** One retained immutable range of a segment. */
  class BufferView {
    const owner: BufferSegment
    const start: nat
    var length: nat
    var released: bool

    /** Unreleased, and counted by its segment. */
    ghost predicate Live()
      reads this, owner
    {
      !released && owner.Valid() && this in owner.live && start + length <= owner.end
    }

    ghost function Bytes(): bytes
      requires Live()
      reads this, owner, owner.data
    {
      assert owner.live != {};
      owner.data[start..start + length]
    }

    constructor (owner: BufferSegment, start: nat, length: nat)
      requires owner.Valid() && !owner.released && start + length <= owner.end
      modifies owner`references, owner`live
      ensures this.owner == owner && this.start == start && this.length == length && Live()
      ensures owner.live == old(owner.live) + {this} && this !in old(owner.live)
    {
      this.owner := owner;
      this.start := start;
      this.length := length;
      released := false;
      new;
      owner.references := owner.references + 1;
      owner.live := owner.live + {this};
    }

    method ToBytes() returns (r: Result<bytes, BufferError>)
      requires released || Live()
      ensures r == if released then Err(ReleasedError) else Ok(Bytes())
    {
      if released {
        return Err(ReleasedError);
      }
      assert owner.live != {};
      return Ok(owner.data[start..start + length]);
    }

    method Slice(offset: int, length: int) returns (r: Result<BufferView, BufferError>)
      requires released || Live()
      modifies owner`references, owner`live
      ensures var want := if length < 0 then this.length - offset else length;
              && (r.Err? <==> released || !(0 <= offset <= this.length) || offset + want > this.length)
              && (r.Ok? ==> fresh(r.value) && r.value.Live() && r.value.owner == owner
                            && r.value.start == start + offset && r.value.length == want
                            && owner.live == old(owner.live) + {r.value})
      ensures r.Err? ==> owner.live == old(owner.live) && owner.references == old(owner.references)
      ensures !released ==> Live()
    {
      if released {
        return Err(ReleasedError);
      }
      if offset < 0 || offset > this.length {
        return Err(RangeError);
      }
      var want := if length < 0 then this.length - offset else length;
      if offset + want > this.length {
        return Err(RangeError);
      }
      assert owner.live != {};
      var view := new BufferView(owner, start + offset, want);
      return Ok(view);
    }

    method Release() returns (r: Result<nat, BufferError>)
      requires released || Live()
      modifies this`released, this`length, owner
      ensures released
      ensures old(released) ==> r == Err(ReleasedError) && unchanged(owner)
      ensures !old(released) ==>
                && owner.Valid() && length == 0
                && owner.live == old(owner.live) - {this} && owner.direct == old(owner.direct)
                && r == Ok(if owner.released then 1 else 0)
                && (owner.released <==> owner.direct == 0 && owner.live == {})
                && (!owner.released ==>
                     owner.data == old(owner.data) && owner.start == old(owner.start) && owner.end == old(owner.end))
                && (owner.data == old(owner.data) || fresh(owner.data))
    {
      if released {
        return Err(ReleasedError);
      }
      assert owner.live != {};
      released := true;
      length := 0;
      owner.live := owner.live - {this};
      var freed := owner.Drop();
      return Ok(freed);
    }
  }
}
