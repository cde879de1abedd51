/** The gateway-wide count of buffered bytes, and the calls that keep it equal to what the
    queues hold: connection outputs and both directions of every exchange. */
module BufferAccounts {
  import opened Octets
  import opened Joining
  import opened Buffers
  import opened ChannelBuffers

  datatype AccountError = NegativeAmount | ReleasedOutOfRange

  function Sum(sizes: seq<nat>): nat {
    if sizes == [] then 0 else sizes[0] + Sum(sizes[1..])
  }

  lemma {:induction false} SumUpdate(sizes: seq<nat>, k: nat, size: nat)
    requires k < |sizes|
    ensures Sum(sizes[k := size]) == Sum(sizes) - sizes[k] + size
    ensures sizes[k] <= Sum(sizes)
  {
    if k == 0 {
      assert sizes[k := size][1..] == sizes[1..];
    } else {
      assert sizes[k := size][1..] == sizes[1..][k - 1 := size];
      SumUpdate(sizes[1..], k - 1, size);
    }
  }

  lemma {:induction false} SumAppend(sizes: seq<nat>, size: nat)
    ensures Sum(sizes + [size]) == Sum(sizes) + size
  {
    if sizes == [] {
      var one: seq<nat> := [size];
      assert sizes + one == one && one[1..] == [];
    } else {
      assert (sizes + [size])[1..] == sizes[1..] + [size];
      SumAppend(sizes[1..], size);
    }
  }

  ghost function Sizes(queues: seq<ChannelBuffer>): (sizes: seq<nat>)
    reads queues
    ensures |sizes| == |queues| && forall i :: 0 <= i < |queues| ==> sizes[i] == queues[i].queuedBytes
  {
    seq(|queues|, i requires 0 <= i < |queues| reads queues => queues[i].queuedBytes)
  }

  /** The lifecycle's buffered-byte metric. `queues` lists every queue charged to it. */
  class Accounts {
    const limit: nat
    var buffered: nat
    ghost var queues: seq<ChannelBuffer>

    /** The metric is the sum of what the queues hold, and within the limit. */
    ghost predicate Balanced()
      reads this, queues
    {
      && (forall i, j :: 0 <= i < j < |queues| ==> queues[i] != queues[j])
      && buffered == Sum(Sizes(queues)) <= limit
    }

    constructor (limit: nat)
      ensures this.limit == limit && Balanced() && buffered == 0 && queues == []
    {
      this.limit := limit;
      buffered := 0;
      queues := [];
    }

    method Reserve(amount: int) returns (r: Result<bool, AccountError>)
      modifies this`buffered
      ensures r == if amount < 0 then Err(NegativeAmount) else Ok(old(buffered) + amount <= limit)
      ensures buffered == old(buffered) + (if r == Ok(true) then amount else 0)
    {
      if amount < 0 {
        return Err(NegativeAmount);
      }
      if buffered + amount > limit {
        return Ok(false);
      }
      buffered := buffered + amount;
      return Ok(true);
    }

    method Release(amount: int) returns (r: Result<(), AccountError>)
      modifies this`buffered
      ensures r == if amount < 0 || amount > old(buffered) then Err(ReleasedOutOfRange) else Ok(())
      ensures buffered == old(buffered) - (if r.Ok? then amount else 0)
    {
      if amount < 0 || amount > buffered {
        return Err(ReleasedOutOfRange);
      }
      buffered := buffered - amount;
      return Ok(());
    }

    /** A queue starts being charged while it is empty. */
    ghost method Charge(queue: ChannelBuffer)
      requires Balanced() && queue.queuedBytes == 0 && queue !in queues
      modifies this`queues
      ensures Balanced() && queues == old(queues) + [queue]
    {
      SumAppend(Sizes(queues), 0);
      queues := queues + [queue];
      assert Sizes(queues) == old(Sizes(queues)) + [0];
    }

    /** One queue changed its size, and the metric with it. */
    twostate lemma Moved(queue: ChannelBuffer)
      requires old(Balanced()) && queue in queues && queues == old(queues)
      requires forall q <- queues :: q != queue ==> q.queuedBytes == old(q.queuedBytes)
      requires buffered - queue.queuedBytes == old(buffered) - old(queue.queuedBytes) && buffered <= limit
      ensures Balanced()
    {
      var k :| 0 <= k < |queues| && queues[k] == queue;
      SumUpdate(old(Sizes(queues)), k, queue.queuedBytes);
      assert Sizes(queues) == old(Sizes(queues))[k := queue.queuedBytes];
    }

    /** Two queues changed their sizes, and the metric with both. */
    twostate lemma MovedTwo(pair: seq<ChannelBuffer>)
      requires |pair| == 2 && pair[0] != pair[1] && pair[0] in queues && pair[1] in queues
      requires old(Balanced()) && queues == old(queues) && buffered <= limit
      requires forall q <- queues :: q != pair[0] && q != pair[1] ==> q.queuedBytes == old(q.queuedBytes)
      requires buffered - pair[0].queuedBytes - pair[1].queuedBytes
            == old(buffered) - old(pair[0].queuedBytes) - old(pair[1].queuedBytes)
      ensures Balanced()
    {
      hide Sum;
      var j :| 0 <= j < |queues| && queues[j] == pair[0];
      var k :| 0 <= k < |queues| && queues[k] == pair[1];
      var before := old(Sizes(queues));
      SumUpdate(before, j, pair[0].queuedBytes);
      var between: seq<nat> := before[j := pair[0].queuedBytes];
      SumUpdate(between, k, pair[1].queuedBytes);
      assert Sizes(queues) == between[k := pair[1].queuedBytes];
    }

    /** Two queues together hold no more than the metric counts. */
    lemma ChargedTogether(a: ChannelBuffer, b: ChannelBuffer)
      requires Balanced() && a in queues && b in queues && a != b
      ensures a.queuedBytes + b.queuedBytes <= buffered <= limit
    {
      var j :| 0 <= j < |queues| && queues[j] == a;
      var k :| 0 <= k < |queues| && queues[k] == b;
      var rest: seq<nat> := Sizes(queues)[j := 0];
      SumUpdate(Sizes(queues), j, 0);
      SumUpdate(rest, k, 0);
    }

    /** No queue holds more than the metric counts, so no release is out of range. */
    lemma ChargedAtLeast(queue: ChannelBuffer)
      requires Balanced() && queue in queues
      ensures queue.queuedBytes <= buffered <= limit
    {
      var k :| 0 <= k < |queues| && queues[k] == queue;
      SumUpdate(Sizes(queues), k, 0);
    }
  }

  datatype QueueError = Overload | Rejected(error: BufferError)

  // ---------------------------------------------------------------- one queue and the metric

  /** Reserves, appends, and gives the reservation back when the append is refused. */
  method Enqueue(accounts: Accounts, queue: ChannelBuffer, data: bytes) returns (r: Result<Transition, QueueError>)
    requires accounts.Balanced() && queue in accounts.queues && queue.Valid()
    modifies accounts`buffered, queue
    ensures accounts.Balanced() && queue.Valid() && queue.closed == old(queue.closed)
    ensures fresh(queue.Repr - old(queue.Repr))
    ensures r.Err? <==> (data != [] && old(accounts.buffered) + |data| > accounts.limit)
                        || old(queue.closed) || |old(queue.Contents())| + |data| > queue.maxBytes
    ensures r == Err(Overload) <==> data != [] && old(accounts.buffered) + |data| > accounts.limit
    ensures queue.Contents() == if r.Ok? then old(queue.Contents()) + data else old(queue.Contents())
    ensures accounts.buffered == old(accounts.buffered) + if r.Ok? then |data| else 0
  {
    hide Left, Concat, Positioned, OnlyBuffers, ChannelBuffer.Queue, Sum;
    QueueObjects(accounts, queue);
    var reserved := Ok(true);
    if |data| > 0 {
      reserved := accounts.Reserve(|data|);
      if reserved == Ok(false) {
        accounts.Moved(queue);
        return Err(Overload);
      }
    }
    var appended := queue.Append(data);
    if appended.Err? {
      if |data| > 0 {
        var undone := accounts.Release(|data|);
        assert undone.Ok?;
      }
      accounts.Moved(queue);
      return Err(Rejected(appended.error));
    }
    accounts.Moved(queue);
    return Ok(appended.value);
  }

  /** Reads and gives back what was read. */
  method Dequeue(accounts: Accounts, queue: ChannelBuffer, limit: int) returns (data: bytes)
    requires accounts.Balanced() && queue in accounts.queues && queue.Valid()
    modifies accounts`buffered, queue, queue.Repr
    ensures accounts.Balanced() && queue.Valid() && queue.closed == old(queue.closed)
    ensures queue.Repr == old(queue.Repr)
    ensures old(queue.Contents()) == data + queue.Contents()
    ensures |data| == if limit < 0 || limit > |old(queue.Contents())| then |old(queue.Contents())| else limit
  {
    hide *;
    QueueObjects(accounts, queue);
    accounts.ChargedAtLeast(queue);
    queue.Counted();
    ghost var gone;
    data, gone := queue.Read(limit);
    if |data| > 0 {
      var released := accounts.Release(|data|);
      assert released.Ok?;
    }
    queue.Counted();
    accounts.Moved(queue);
  }

  /** Consumes and gives back what was consumed. */
  method Spend(accounts: Accounts, queue: ChannelBuffer, count: nat) returns (r: Result<Transition, BufferError>)
    requires accounts.Balanced() && queue in accounts.queues && queue.Valid()
    modifies accounts`buffered, queue, queue.Repr
    ensures accounts.Balanced() && queue.Valid() && queue.closed == old(queue.closed) && queue.Repr == old(queue.Repr)
    ensures r.Err? <==> count > |old(queue.Contents())|
    ensures queue.Contents() == if r.Ok? then old(queue.Contents())[count..] else old(queue.Contents())
  {
    hide *;
    QueueObjects(accounts, queue);
    accounts.ChargedAtLeast(queue);
    queue.Counted();
    ghost var gone;
    r, gone := queue.Consume(count);
    if r.Ok? {
      var released := accounts.Release(count);
      assert released.Ok?;
    }
    queue.Counted();
    accounts.Moved(queue);
  }

  /** Closes a queue and gives back everything it held. */
  method Discharge(accounts: Accounts, queue: ChannelBuffer)
    requires accounts.Balanced() && queue in accounts.queues && queue.Valid()
    modifies accounts`buffered, queue, queue.Repr
    ensures accounts.Balanced() && queue.Valid() && queue.closed && queue.Contents() == []
            && queue.Repr == old(queue.Repr)
  {
    hide *;
    QueueObjects(accounts, queue);
    accounts.ChargedAtLeast(queue);
    var buffered := queue.queuedBytes;
    ghost var gone;
    var count;
    count, gone := queue.Close();
    if buffered > 0 {
      var released := accounts.Release(buffered);
      assert released.Ok?;
    }
    queue.Counted();
    accounts.Moved(queue);
  }

  /** Closes two queues and gives back what both held in one release. */
  method DischargeBoth(accounts: Accounts, a: ChannelBuffer, b: ChannelBuffer)
    requires accounts.Balanced() && a in accounts.queues && b in accounts.queues && a != b
    requires a.Valid() && b.Valid() && a.Repr !! b.Repr
    modifies accounts`buffered, a, a.Repr, b, b.Repr
    ensures accounts.Balanced() && a.Valid() && b.Valid() && a.closed && b.closed
    ensures a.Contents() == [] && b.Contents() == [] && a.Repr == old(a.Repr) && b.Repr == old(b.Repr)
  {
    hide *;
    QueueObjects(accounts, a);
    QueueObjects(accounts, b);
    accounts.ChargedTogether(a, b);
    var remaining := a.queuedBytes + b.queuedBytes;
    ghost var gone;
    var count;
    count, gone := a.Close();
    count, gone := b.Close();
    if remaining > 0 {
      var released := accounts.Release(remaining);
      assert released.Ok?;
    }
    a.Counted();
    b.Counted();
    accounts.MovedTwo([a, b]);
  }

  /** The objects a queue is made of are neither queues nor the metric. */
  lemma QueueObjects(accounts: Accounts, queue: ChannelBuffer)
    requires queue.Valid()
    ensures accounts !in queue.Repr && forall q <- accounts.queues :: q !in queue.Repr
  {
    hide ChannelBuffer.Holds;
  }

  // ---------------------------------------------------------------- a connection's output

  /** The output queue of one connection. */
  class ConnectionOutput {
    const accounts: Accounts
    const output: ChannelBuffer

    ghost predicate Valid()
      reads this, accounts, accounts.queues, output, output.Repr
    {
      accounts.Balanced() && output in accounts.queues && output.Valid()
    }

    constructor (accounts: Accounts, segmentSize: nat, low: nat, high: nat, maxBytes: nat)
      requires accounts.Balanced() && segmentSize > 0 && low < high <= maxBytes
      modifies accounts`queues
      ensures Valid() && this.accounts == accounts && output.Contents() == [] && !output.closed
      ensures fresh(output) && accounts.queues == old(accounts.queues) + [output]
    {
      var queue := new ChannelBuffer(segmentSize, low, high, maxBytes);
      this.accounts := accounts;
      output := queue;
      new;
      accounts.Charge(queue);
    }

    method QueueBytes(data: bytes) returns (r: Result<Transition, QueueError>)
      requires Valid()
      modifies accounts`buffered, output
      ensures Valid() && output.closed == old(output.closed)
      ensures output.Contents() == if r.Ok? then old(output.Contents()) + data else old(output.Contents())
      ensures data == [] ==> r.Ok?
      ensures data != [] ==>
                (r.Err? <==> old(accounts.buffered) + |data| > accounts.limit || old(output.closed)
                             || |old(output.Contents())| + |data| > output.maxBytes)
    {
      if data == [] {
        return Ok(NoChange);
      }
      r := Enqueue(accounts, output, data);
    }

    method ConsumeOutput(count: int) returns (r: Result<Transition, BufferError>)
      requires Valid()
      modifies accounts`buffered, output, output.Repr
      ensures Valid() && output.closed == old(output.closed)
      ensures r.Err? <==> count > |old(output.Contents())|
      ensures output.Contents() == if r.Ok? && count > 0 then old(output.Contents())[count..]
                else old(output.Contents())
    {
      if count <= 0 {
        return Ok(NoChange);
      }
      r := Spend(accounts, output, count);
    }

    /** A copy of the first queued bytes; the retained views are given back at once. */
    method PeekOutput(limit: int) returns (data: bytes)
      requires Valid()
      modifies output.Repr
      ensures Valid() && output.closed == old(output.closed)
      ensures output.Contents() == old(output.Contents()) && output.Repr == old(output.Repr)
      ensures data == output.Contents()[..if 0 <= limit < |output.Contents()| then limit else |output.Contents()|]
    {
      hide Left, Concat, Positioned, OnlyBuffers, ChannelBuffer.Queue, Sum, Owed, Without, With, From, OwnersFrom,
           ChannelBuffer.Taken;
      QueueObjects(accounts, output);
      output.OwnersValid();
      data := output.Peek(limit);
    }

    method TakeOutput(limit: int) returns (data: bytes)
      requires Valid()
      modifies accounts`buffered, output, output.Repr
      ensures Valid() && output.closed == old(output.closed)
      ensures old(output.Contents()) == data + output.Contents()
      ensures |data| == if 0 <= limit < |old(output.Contents())| then limit else |old(output.Contents())|
    {
      hide ChannelBuffer.Queue, Left, Positioned, Sum, Sizes, OnlyBuffers;
      data := PeekOutput(limit);
      var consumed := ConsumeOutput(|data|);
    }

    /** The output's part of closing the connection. */
    method CloseOutput()
      requires Valid()
      modifies accounts`buffered, output, output.Repr
      ensures Valid() && output.closed && output.Contents() == []
    {
      Discharge(accounts, output);
    }
  }
}
