/** Who owns a connection's request admissions: the parser, a pending proxy, a local handler
    child or a pending stream, and who owns its queued admissions. Hooks, handlers, iterators,
    encoders and buffers may fail at any call; the ledger balances all the same. */
module AdmissionLedger {
  import opened Octets

  // ---------------------------------------------------------------- events and outcomes

  datatype Event = Head | BodyChunk | End

  /** How a call ends: normally, or raising a protocol error, a buffer limit or anything else. */
  datatype Outcome = Fine | Protocol | Limit | Broken

  function Heads(events: seq<Event>): nat {
    if events == [] then 0 else (if events[0] == Head then 1 else 0) + Heads(events[1..])
  }

  lemma {:induction false} HeadsAppend(a: seq<Event>, b: seq<Event>)
    ensures Heads(a + b) == Heads(a) + Heads(b)
  {
    if a == [] {
      assert a + b == b;
    } else {
      assert (a + b)[1..] == a[1..] + b;
      HeadsAppend(a[1..], b);
    }
  }

  lemma HeadsNext(events: seq<Event>, k: nat)
    requires k < |events|
    ensures Heads(events[k..]) == (if events[k] == Head then 1 else 0) + Heads(events[k + 1..])
  {
    assert events[k..][1..] == events[k + 1..];
  }

  lemma NoHeads()
    ensures Heads([]) == 0
  {
  }

  lemma HeadsOne(e: Event)
    ensures Heads([e]) == if e == Head then 1 else 0
  {
    var one: seq<Event> := [e];
    assert one[1..] == [];
  }

  /** A message has begun and has not ended. */
  predicate Open(events: seq<Event>) {
    events != [] && events[|events| - 1] != End
  }

  /** Heads open messages, and nothing else comes between them. */
  predicate Legal(events: seq<Event>)
    decreases |events|
  {
    events == [] ||
    var before := events[..|events| - 1];
    Legal(before) && (events[|events| - 1] == Head <==> !Open(before))
  }

  lemma LegalMore(events: seq<Event>, e: Event)
    ensures Legal(events + [e]) <==> Legal(events) && (e == Head <==> !Open(events))
  {
    assert (events + [e])[..|events|] == events;
  }

  lemma {:induction false} LegalStart(a: seq<Event>, b: seq<Event>)
    requires Legal(a + b)
    ensures Legal(a)
    decreases |b|
  {
    if b == [] {
      assert a + b == a;
    } else {
      assert (a + b)[..|a + b| - 1] == a + b[..|b| - 1];
      LegalStart(a, b[..|b| - 1]);
    }
  }

  /** What was decoded: first what has been handled, then what is deferred, what a loop still has
      in its hands, and last what has been given up. */
  function Line(handled: seq<Event>, deferred: seq<Event>, held: seq<Event>, lost: seq<Event>): seq<Event> {
    handled + deferred + held + lost
  }

  lemma LineNext(h: seq<Event>, d: seq<Event>, e: Event, rest: seq<Event>, l: seq<Event>)
    ensures Line(h, d, [e] + rest, l) == Line(h, d + [e], rest, l)
    ensures Line(h, [], [e] + rest, l) == Line(h + [e], [], rest, l)
    ensures Line(h, d, [e] + rest, l) == Line(h, d, [], [e] + (rest + l))
  {
    assert h + d + ([e] + rest) + l == h + (d + [e]) + rest + l;
    assert h + [] + ([e] + rest) + l == (h + [e]) + [] + rest + l;
    assert h + d + ([e] + rest) + l == h + d + [] + ([e] + (rest + l));
  }

  lemma LineHeld(h: seq<Event>, d: seq<Event>, held: seq<Event>, l: seq<Event>)
    ensures Line(h, d, held, l) == Line(h, d, [], held + l) == Line(h, d + held, [], l)
    ensures Line(h, d, [], l) == Line(h, [], [], d + l) == Line(h, [], d, l)
  {
    assert h + d + held + l == h + d + [] + (held + l) == h + (d + held) + [] + l;
    assert h + d + [] + l == h + [] + [] + (d + l) == h + [] + d + l;
  }

  lemma LineEnd(h: seq<Event>, l: seq<Event>)
    ensures Line(h, [], [], l) == h + l
  {
  }

  lemma LineReceived(h: seq<Event>, d: seq<Event>, events: seq<Event>)
    ensures Line(h, d, [], []) + events == Line(h, d, events, [])
  {
  }

  /** No head comes while a message is open. */
  lemma NoHeadInside(h: seq<Event>, e: Event, rest: seq<Event>, l: seq<Event>)
    requires Legal(Line(h, [], [e] + rest, l)) && Open(h)
    ensures e != Head
  {
    assert Line(h, [], [e] + rest, l) == h + [e] + (rest + l);
    LegalStart(h + [e], rest + l);
    LegalMore(h, e);
  }

  lemma MoreDecoded(received: seq<Event>, events: seq<Event>, e: Event)
    requires Legal(received + events) && (e == Head <==> !Open(received + events))
    ensures Legal(received + (events + [e])) && (Open(received + (events + [e])) <==> e != End)
  {
    LegalMore(received + events, e);
    assert received + (events + [e]) == received + events + [e];
  }

  /** The events of the open message, up to its end, and what stays when they are taken out. */
  function OwnEvents(events: seq<Event>): seq<Event> {
    if events == [] then []
    else if events[0] == End then [End]
    else (if events[0] == Head then [] else [events[0]]) + OwnEvents(events[1..])
  }

  function LaterEvents(events: seq<Event>): seq<Event> {
    if events == [] then []
    else if events[0] == End then events[1..]
    else (if events[0] == Head then [Head] else []) + LaterEvents(events[1..])
  }

  /** What has been handled and kept of the events before `index`, and what that leaves to do. */
  predicate Consumed(pending: seq<Event>, index: nat, completed: bool, before: seq<Event>, handled: seq<Event>,
                     kept: seq<Event>)
    requires index <= |pending|
  {
    if completed then kept + pending[index..] == LaterEvents(pending) && handled == before + OwnEvents(pending)
    else
      && kept + LaterEvents(pending[index..]) == LaterEvents(pending)
      && handled + OwnEvents(pending[index..]) == before + OwnEvents(pending)
  }

  lemma NothingConsumed(pending: seq<Event>, handled: seq<Event>)
    ensures Consumed(pending, 0, false, handled, handled, [])
  {
    assert pending[0..] == pending && [] + LaterEvents(pending) == LaterEvents(pending);
  }

  lemma ConsumedNext(pending: seq<Event>, index: nat, completed: bool, before: seq<Event>, handled: seq<Event>,
                     kept: seq<Event>)
    requires index < |pending|
    ensures Consumed(pending, index, completed, before, handled, kept) ==>
              var e := pending[index];
              Consumed(pending, index + 1, completed || e == End, before,
                       if completed || e == Head then handled else handled + [e],
                       if completed || e == Head then kept + [e] else kept)
  {
    var e, rest := pending[index], pending[index + 1..];
    assert pending[index..] == [e] + rest && pending[index..][1..] == rest;
    assert kept + [e] + rest == kept + ([e] + rest);
    assert kept + [e] + LaterEvents(rest) == kept + ([e] + LaterEvents(rest));
    assert handled + [e] + OwnEvents(rest) == handled + ([e] + OwnEvents(rest));
    assert [] + OwnEvents(rest) == OwnEvents(rest) && [] + LaterEvents(rest) == LaterEvents(rest);
  }

  lemma EverythingConsumed(pending: seq<Event>, completed: bool, before: seq<Event>, handled: seq<Event>,
                           kept: seq<Event>)
    ensures Consumed(pending, |pending|, completed, before, handled, kept) ==>
              kept == LaterEvents(pending) && handled == before + OwnEvents(pending)
  {
    assert pending[|pending|..] == [] && kept + [] == kept && handled + [] == handled;
  }

  function One(b: bool): int {
    if b then 1 else 0
  }

  // ---------------------------------------------------------------- local responses

  /** A response's status: a number, or a value that cannot be compared with one. A response
      compares its status when it is made, so only a status set afterwards is `Other`. */
  datatype Status = Number(value: int) | Other

  /** What joining a local handler gives: its response, or anything the connection puts a plain
      500 in the place of. */
  datatype Answer = Answered(status: Status, streaming: bool) | NoResponse

  /** What the loop finds when it looks after a local child: still running, a raise before the
      child is taken, or a child that has been joined, after a cancellation by the protocol or not. */
  datatype Child = Running | Unobserved(raised: Outcome) | Withdrawn | Joined

  /** What beginning a request meets: the end of the calls before the admission, the admission,
      the end of the hook and of the routing, whether a proxy answers early, whether a handler is
      to stream the body, and the end of its spawn. */
  datatype Beginning = Beginning(
    prepared: Outcome, admitted: bool, started: Outcome, early: bool, streaming: bool, spawned: Outcome)

  /** What reading the transport gives. */
  datatype Reading = ReadBytes | ReadEnd | ReadNothing(late: bool) | ReadFailed

  predicate Incomparable(a: Answer) {
    a.Answered? && a.status.Other?
  }

  /** How many of the answers have a status that cannot be compared. */
  function Stranded(answers: seq<Answer>): nat {
    if answers == [] then 0
    else Stranded(answers[..|answers| - 1]) + if Incomparable(answers[|answers| - 1]) then 1 else 0
  }

  lemma StrandedMore(answers: seq<Answer>, a: Answer)
    ensures Stranded(answers + [a]) == Stranded(answers) + if Incomparable(a) then 1 else 0
  {
    assert (answers + [a])[..|answers|] == answers;
  }

  lemma {:induction false} NoneStranded(answers: seq<Answer>)
    ensures Stranded(answers) == 0 <==> forall a <- answers :: !Incomparable(a)
  {
    if answers != [] {
      var init, last := answers[..|answers| - 1], answers[|answers| - 1];
      NoneStranded(init);
      assert answers == init + [last];
    }
  }

  class GatewayConnection {
    var current: Option<nat>
    var currentAdmitted: bool
    var pendingProxy: bool
    var pendingProxyRequest: Option<nat>
    var pendingLocal: Option<nat>
    var pendingStream: Option<nat>
    var pendingStreamAdmitted: bool
    var deferred: seq<Event>
    var closeAfterFlush: bool
    var closed: bool
    var nextRequest: nat
    /** Request admissions granted less releases made, and the same for queued admissions. */
    ghost var unreleased: int
    ghost var queuedHeld: int
    /** What the local handlers joined and answered so far gave. */
    ghost var answered: seq<Answer>
    /** The decoder is inside a message. */
    var midMessage: bool
    /** Every event decoded so far, those given to the handlers, and those given up. */
    ghost var received: seq<Event>
    ghost var handled: seq<Event>
    ghost var lost: seq<Event>

    predicate NonePending()
      reads this
    {
      !pendingProxy && pendingLocal == None && pendingStream == None
    }

    /** The request being parsed has already been handed to a proxy or a local handler. */
    predicate HandedOn()
      reads this
    {
      current.Some? && (current == pendingProxyRequest || current == pendingLocal)
    }

    twostate predicate SamePending()
      reads this
    {
      && pendingProxy == old(pendingProxy) && pendingProxyRequest == old(pendingProxyRequest)
      && pendingLocal == old(pendingLocal) && pendingStream == old(pendingStream)
    }

    /** Each owner's part is in order: requests are known, at most one kind is pending, and the
        parser owns no admission of a request that has been handed on. */
    ghost predicate Shape()
      reads this
    {
      && (pendingProxy <==> pendingProxyRequest.Some?)
      && (pendingStreamAdmitted ==> pendingStream.Some?)
      && (currentAdmitted ==> current.Some? && current != pendingProxyRequest && current != pendingLocal)
      && (current.Some? ==> current.value < nextRequest)
      && (pendingProxyRequest.Some? ==>
           pendingProxyRequest.value < nextRequest && pendingLocal == None && pendingStream == None)
      && (pendingLocal.Some? ==> pendingLocal.value < nextRequest && pendingStream == None)
    }

    ghost function Owned(): int
      reads this
    {
      One(currentAdmitted) + One(pendingProxyRequest.Some?) + One(pendingLocal.Some?) + One(pendingStreamAdmitted)
    }

    /** Every unreleased admission has exactly one owner, but for those of local responses whose
        status cannot be compared. */
    ghost predicate Admissions()
      reads this
    {
      Shape() && unreleased == Owned() + Stranded(answered)
    }

    /** Every queued admission is a request head among the deferred events. */
    ghost predicate Queue()
      reads this
    {
      queuedHeld == Heads(deferred)
    }

    ghost predicate Ledger()
      reads this
    {
      Admissions() && Queue()
    }

    /** The events `held` are in the hands of a loop. Everything decoded has been handled, or is
        deferred, held or lost, in this order. */
    ghost predicate Ordered(held: seq<Event>)
      reads this
    {
      && received == Line(handled, deferred, held, lost) && Legal(received)
      && (current.Some? ==> Open(handled))
    }

    /** And nothing is lost unless the connection is to end. */
    ghost predicate Orderly()
      reads this
    {
      Ordered([]) && (!closeAfterFlush ==> lost == [] && midMessage == Open(received))
    }

    /** What a call does to the order of events: a failure may lose some, but keeps it. */
    twostate predicate InOrder(o: Outcome)
      reads this
    {
      && (old(closeAfterFlush) ==> closeAfterFlush)
      && (old(Orderly()) ==> Ordered([]) && (o == Fine ==> Orderly()))
    }

    constructor ()
      ensures Orderly() && received == []
      ensures Ledger() && unreleased == 0 && queuedHeld == 0 && answered == []
      ensures !closed && NonePending() && current == None && deferred == []
    {
      current, currentAdmitted, pendingProxy, pendingProxyRequest := None, false, false, None;
      pendingLocal, pendingStream, pendingStreamAdmitted := None, None, false;
      deferred, closeAfterFlush, closed, nextRequest := [], false, false, 0;
      unreleased, queuedHeld, answered := 0, 0, [];
      midMessage, received, handled, lost := false, [], [], [];
    }

    // ------------------------------------------------------------ what the connection calls

    /** A hook, a handler, an iterator, an encoder, a spawn or a buffer append. */
    method Call() returns (o: Outcome)
    {
      o := *;
    }

    /** Never called without an admission to release; it may still raise, after a forced drain. */
    method ReleaseRequest() returns (o: Outcome)
      requires unreleased > 0
      modifies this`unreleased
      ensures unreleased == old(unreleased) - 1
    {
      unreleased := unreleased - 1;
      o := *;
    }

    method QueueRequest() returns (queued: bool)
      modifies this`queuedHeld
      ensures queuedHeld == old(queuedHeld) + One(queued)
    {
      queued := *;
      queuedHeld := queuedHeld + One(queued);
    }

    /** Never called without a queued admission to release, and so it never raises. */
    method ReleaseQueuedRequest()
      requires queuedHeld > 0
      modifies this`queuedHeld
      ensures queuedHeld == old(queuedHeld) - 1
    {
      queuedHeld := queuedHeld - 1;
    }

    // ------------------------------------------------------------ parsing one request

    /** A new request: its admission stays with the parser or moves at once to an early proxy
        or a local child. If a call raises, the parser still owns what was admitted. */
    method BeginRequest(b: Beginning) returns (o: Outcome)
      requires Admissions() && NonePending()
      modifies this`current, this`currentAdmitted, this`pendingProxy, this`pendingProxyRequest, this`pendingLocal,
               this`nextRequest, this`unreleased
      ensures Admissions()
      ensures old(current).Some? ==>
                o == Protocol && current == old(current) && NonePending() && unreleased == old(unreleased)
      ensures o == Fine ==> current == Some(old(nextRequest)) && nextRequest == old(nextRequest) + 1
      ensures o != Fine ==> NonePending()
      ensures !NonePending() ==> HandedOn() && !currentAdmitted && unreleased == old(unreleased) + 1
      ensures old(current) == None && b.prepared == Fine ==> unreleased == old(unreleased) + One(b.admitted)
      ensures old(current) == None && b.prepared == b.started == Fine && b.admitted ==>
                && (pendingProxy <==> b.early)
                && (pendingLocal.Some? <==> !b.early && b.streaming && b.spawned == Fine)
    {
      if current.Some? {
        return Protocol;
      }
      if b.prepared != Fine {
        return b.prepared;
      }
      var request := nextRequest;
      nextRequest := nextRequest + 1;
      current := Some(request);
      currentAdmitted := b.admitted;
      unreleased := unreleased + One(b.admitted);
      if !currentAdmitted {
        return Fine;
      }
      if b.started != Fine {
        return b.started;
      }
      if b.early {
        pendingProxy := true;
        pendingProxyRequest := Some(request);
        currentAdmitted := false;
      } else if b.streaming {
        if b.spawned != Fine {
          return b.spawned;
        }
        pendingLocal := Some(request);
        currentAdmitted := false;
      }
      return Fine;
    }

    /** Publishes a stream as the owner of the request's admission, once its head is queued. */
    method BeginStreaming(request: nat, admitted: bool) returns (o: Outcome)
      requires pendingStream == None && !pendingStreamAdmitted
      modifies this`pendingStream, this`pendingStreamAdmitted
      ensures if o == Fine then pendingStream == Some(request) && pendingStreamAdmitted == admitted
              else pendingStream == None && !pendingStreamAdmitted
    {
      o := Call();
      if o != Fine {
        return;
      }
      pendingStream := Some(request);
      pendingStreamAdmitted := admitted;
    }

    /** The guarded part of finishing a request: a response is queued, or the admission moves to
        a pending proxy or stream. */
    method Respond(request: nat, admitted: bool) returns (o: Outcome)
      requires Shape() && NonePending() && current == None && !currentAdmitted && request < nextRequest
      modifies this`pendingProxy, this`pendingProxyRequest, this`pendingStream, this`pendingStreamAdmitted,
               this`closeAfterFlush
      ensures Shape()
      ensures pendingProxy ==> o == Fine && admitted && pendingProxyRequest == Some(request)
      ensures pendingStream.Some? ==> o == Fine && pendingStream == Some(request) && pendingStreamAdmitted == admitted
      ensures !(pendingProxy && pendingStream.Some?)
      ensures !admitted || old(closeAfterFlush) ==> closeAfterFlush
    {
      if !admitted {
        closeAfterFlush := true;
      } else {
        o := Call();
        if o != Fine {
          return;
        }
        var proxied: bool := *;
        if proxied {
          pendingProxy := true;
          pendingProxyRequest := Some(request);
          return Fine;
        }
      }
      var streaming: bool := *;
      if streaming {
        o := BeginStreaming(request, admitted);
        return;
      }
      o := Call();
    }

    /** The end of a request: what the parser owned is released, or moves to the proxy or the
        stream that answers it; a request handed on keeps its owner. */
    method FinishRequest() returns (o: Outcome)
      requires Admissions()
      requires NonePending() || HandedOn()
      modifies this`current, this`currentAdmitted, this`pendingProxy, this`pendingProxyRequest, this`pendingStream,
               this`pendingStreamAdmitted, this`closeAfterFlush, this`unreleased
      ensures Admissions() && current == None && !currentAdmitted
      ensures old(current) == None ==> o == Protocol && NonePending()
      ensures old(HandedOn()) ==> o == Fine && SamePending()
      ensures !old(HandedOn()) && NonePending() ==> unreleased == old(unreleased) - One(old(currentAdmitted))
      ensures !old(HandedOn()) && !NonePending() ==> unreleased == old(unreleased) && pendingLocal == None
      ensures pendingProxyRequest == old(pendingProxyRequest) || pendingProxyRequest == old(current)
      ensures old(closeAfterFlush) ==> closeAfterFlush
      ensures pendingStream == old(pendingStream) || pendingStream == old(current)
    {
      var request := current;
      var admitted := currentAdmitted;
      current := None;
      currentAdmitted := false;
      if request == None {
        return Protocol;
      }
      if pendingProxyRequest == request || pendingLocal == request {
        return Fine;
      }
      o := Respond(request.value, admitted);
      if o == Limit {
        closeAfterFlush := true;
        o := Call();
      }
      if admitted && !pendingProxy && pendingStream == None {
        var released := ReleaseRequest();
        if o == Fine {
          o := released;
        }
      }
    }

    method HandleEvent(e: Event) returns (o: Outcome)
      requires Admissions()
      requires NonePending() || (e != Head && HandedOn())
      modifies this`current, this`currentAdmitted, this`pendingProxy, this`pendingProxyRequest, this`pendingLocal,
               this`pendingStream, this`pendingStreamAdmitted, this`closeAfterFlush, this`nextRequest, this`unreleased,
               this`handled
      ensures Admissions() && handled == old(handled) + [e] && (current.Some? ==> Open(handled))
      ensures old(closeAfterFlush) ==> closeAfterFlush
      ensures old(HandedOn()) && !old(NonePending()) ==>
                SamePending() && unreleased == old(unreleased)
                && current == if e == End then None else old(current)
      ensures e == BodyChunk ==>
                current == old(current) && unreleased == old(unreleased) && (current == None ==> o == Protocol)
      ensures e == End ==> current == None
      ensures o == Fine && e == Head ==> current == Some(old(nextRequest))
    {
      handled := handled + [e];
      match e {
        case Head =>
          var b: Beginning := *;
          o := BeginRequest(b);
          if o == Broken {
            var wasValueError: bool := *;
            o := if wasValueError then Protocol else Broken;
          }
        case BodyChunk =>
          if current == None {
            return Protocol;
          }
          o := Call();
        case End =>
          o := FinishRequest();
      }
    }

    // ------------------------------------------------------------ giving owners up

    /** The parser gives its request up, and releases the admission only if it still owned it. */
    method AbortCurrentRequest() returns (o: Outcome)
      requires Admissions()
      modifies this`current, this`currentAdmitted, this`unreleased
      ensures Admissions() && current == None && !currentAdmitted
      ensures unreleased == old(unreleased) - One(old(currentAdmitted))
    {
      if current == None {
        return Fine;
      }
      var request := current;
      var admitted := currentAdmitted;
      var proxyOwned := pendingProxyRequest == request;
      var localOwned := pendingLocal == request;
      current := None;
      currentAdmitted := false;
      o := Call();
      if !localOwned && !proxyOwned && admitted {
        var released := ReleaseRequest();
      }
    }

    method CancelPendingProxy() returns (o: Outcome)
      requires Admissions()
      modifies this`pendingProxy, this`pendingProxyRequest, this`unreleased
      ensures Admissions() && !pendingProxy && pendingProxyRequest == None
      ensures unreleased == old(unreleased) - One(old(pendingProxyRequest).Some?)
    {
      if pendingProxyRequest == None {
        return Fine;
      }
      pendingProxy := false;
      pendingProxyRequest := None;
      var released := ReleaseRequest();
      o := Call();
    }

    method CancelPendingStream() returns (o: Outcome)
      requires Admissions()
      modifies this`pendingStream, this`pendingStreamAdmitted, this`unreleased
      ensures Admissions() && pendingStream == None
      ensures unreleased == old(unreleased) - One(old(pendingStreamAdmitted))
    {
      if pendingStream == None {
        return Fine;
      }
      var admitted := pendingStreamAdmitted;
      pendingStream := None;
      pendingStreamAdmitted := false;
      o := Call();
      if admitted {
        var released := ReleaseRequest();
      }
    }

    /** Every owner field is taken before the hook runs. */
    method CompleteStreaming() returns (o: Outcome)
      requires Admissions()
      modifies this`pendingStream, this`pendingStreamAdmitted, this`unreleased, this`closeAfterFlush
      ensures old(closeAfterFlush) ==> closeAfterFlush
      ensures Admissions() && pendingStream == None
      ensures unreleased == old(unreleased) - One(old(pendingStreamAdmitted))
    {
      o := CancelPendingStream();
      var close: bool := *;
      closeAfterFlush := closeAfterFlush || close;
    }

    /** `pulled` is how pulling and queueing the next piece ends, `ended` how queueing the last
        chunk does. */
    method DriveStreaming(giveUp: bool, pulled: Outcome, exhausted: bool, ended: Outcome) returns (o: Outcome)
      requires Admissions()
      modifies this`pendingStream, this`pendingStreamAdmitted, this`unreleased, this`closeAfterFlush
      ensures Admissions() && (old(closeAfterFlush) ==> closeAfterFlush)
      ensures pendingStream.Some? ==> pendingStream == old(pendingStream) && unreleased == old(unreleased)
      ensures old(pendingStream).Some? ==>
                (pendingStream == None <==> giveUp || (pulled == ended == Fine && exhausted))
      ensures old(pendingStream).Some? && giveUp ==> closeAfterFlush
    {
      if pendingStream == None {
        return Fine;
      }
      if giveUp {
        o := CancelPendingStream();
        closeAfterFlush := true;
        return;
      }
      o := pulled;
      if o != Fine {
        return;
      }
      if exhausted {
        o := ended;
        if o == Fine {
          o := CompleteStreaming();
        }
      }
    }

    /** The guarded part of publishing a local response: a stream takes the admission over, or
        it is released, whatever raises. */
    method PublishLocal(request: nat, streaming: bool) returns (o: Outcome)
      requires Shape() && NonePending() && unreleased == Owned() + 1 + Stranded(answered)
      modifies this`pendingStream, this`pendingStreamAdmitted, this`unreleased, this`closeAfterFlush
      ensures Admissions() && (old(closeAfterFlush) ==> closeAfterFlush)
      ensures pendingStream.Some? ==> streaming && pendingStream == Some(request)
      ensures unreleased == old(unreleased) - One(pendingStream == None)
    {
      if streaming {
        o := BeginStreaming(request, true);
        if o == Fine {
          return;
        }
      } else {
        o := Call();
      }
      if o == Limit {
        closeAfterFlush := true;
        o := Call();
      }
      var released := ReleaseRequest();
      if o == Fine {
        o := released;
      }
      var close: bool := *;
      closeAfterFlush := closeAfterFlush || close;
    }

    /** The joined child's response. Its status is compared with numbers before anything is
        guarded, so one that cannot be compared strands the admission. */
    method CompleteLocalHandler(request: nat, answer: Answer) returns (o: Outcome)
      requires Shape() && NonePending() && unreleased == Owned() + 1 + Stranded(answered)
      modifies this`pendingStream, this`pendingStreamAdmitted, this`unreleased, this`closeAfterFlush, this`answered
      ensures old(closeAfterFlush) ==> closeAfterFlush
      ensures Admissions() && answered == old(answered) + [answer]
      ensures pendingStream.Some? ==> answer.Answered? && answer.streaming && pendingStream == Some(request)
      ensures Incomparable(answer) ==> o == Broken && unreleased == old(unreleased) && pendingStream == None
      ensures !Incomparable(answer) ==> unreleased == old(unreleased) - One(pendingStream == None)
    {
      StrandedMore(answered, answer);
      answered := answered + [answer];
      var status := if answer.NoResponse? then Number(500) else answer.status;
      if status.Other? {
        return Broken;
      }
      var bare := 100 <= status.value < 200 || status.value == 204 || status.value == 304;
      var headOnly: bool := *;
      o := PublishLocal(request, answer.Answered? && answer.streaming && !bare && !headOnly);
    }

    method TakePendingLocal()
      modifies this`pendingLocal
      ensures pendingLocal == None
    {
      pendingLocal := None;
    }

    /** The parser's alias of a request that another owner has finished with. */
    method ForgetAlias(request: nat)
      modifies this`current, this`currentAdmitted
      ensures current == if old(current) == Some(request) then None else old(current)
      ensures currentAdmitted == (old(currentAdmitted) && old(current) != Some(request))
    {
      if current == Some(request) {
        current := None;
        currentAdmitted := false;
      }
    }

    /** `cancellation.cancel` and `body.cancel` once the child, the body's only reader, has been
        joined. Neither can raise: the first sets two fields under a lock, the second also drops
        the queue and releases views that are still live, which `Buffers.BufferView.Release`
        never refuses. */
    method CancelUnreadBody()
      modifies this`closeAfterFlush
      ensures closeAfterFlush
    {
      closeAfterFlush := true;
    }

    /** Nobody owns the joined child's admission now: the caller has to settle it. */
    method TakeJoinedChild(request: nat)
      requires Admissions() && pendingLocal == Some(request)
      modifies this`pendingLocal, this`current, this`currentAdmitted, this`closeAfterFlush
      ensures old(closeAfterFlush) ==> closeAfterFlush
      ensures current == if old(current) == Some(request) then None else old(current)
      ensures Shape() && NonePending() && unreleased == Owned() + 1 + Stranded(answered)
    {
      var bodyEnded: bool := *;
      TakePendingLocal();
      if current == Some(request) && !bodyEnded {
        CancelUnreadBody();
      }
      ForgetAlias(request);
    }

    /** The child has been joined: its owner and alias are taken, and its answer is published
        unless the protocol has answered already. */
    method SettleLocal(request: nat, answer: Answer, cancelled: bool) returns (o: Outcome, used: bool)
      requires Ledger() && pendingLocal == Some(request)
      modifies this`pendingLocal, this`current, this`currentAdmitted, this`closeAfterFlush, this`pendingStream,
               this`pendingStreamAdmitted, this`unreleased, this`answered
      ensures InOrder(o)
      ensures Ledger() && pendingLocal == None && current != Some(request)
      ensures used == !cancelled && answered == if used then old(answered) + [answer] else old(answered)
      ensures used && Incomparable(answer) ==> o == Broken && NonePending() && unreleased == old(unreleased)
    {
      hide Legal, Open, Line, Heads, Stranded;
      if answer.NoResponse? {
        var close: bool := *;
      closeAfterFlush := closeAfterFlush || close;
      }
      TakeJoinedChild(request);
      used := !cancelled;
      if cancelled {
        o := ReleaseRequest();
        return;
      }
      o := CompleteLocalHandler(request, answer);
    }

    /** `answer` is what the child's handler gives if it is joined in this call. */
    method DrivePendingLocal(answer: Answer, child: Child) returns (o: Outcome, progressed: bool, used: bool)
      requires Ledger()
      modifies this
      ensures InOrder(o)
      ensures Ledger() && closed == old(closed)
      ensures !progressed ==> pendingLocal == old(pendingLocal)
      ensures progressed ==> old(pendingLocal).Some? && pendingLocal == None && current != old(pendingLocal)
      ensures used ==> progressed && child == Joined
      ensures old(pendingLocal).Some? && old(deferred) == [] && child == Joined ==> used
      ensures old(pendingLocal).Some? && old(deferred) == [] && child == Withdrawn ==> progressed
      ensures answered == if used then old(answered) + [answer] else old(answered)
      ensures used && Incomparable(answer) ==> o == Broken && NonePending() && unreleased == old(unreleased)
    {
      progressed, used := false, false;
      if pendingLocal == None {
        return Fine, false, false;
      }
      var request := pendingLocal.value;
      o := ConsumePendingBody(request);
      if o != Fine {
        return;
      }
      match child {
        case Running =>
        case Unobserved(raised) => o := raised;
        case _ =>
          progressed := true;
          o, used := SettleLocal(request, answer, child == Withdrawn);
      }
    }

    method CancelAndJoinPendingLocal() returns (o: Outcome)
      requires Admissions()
      modifies this`pendingLocal, this`current, this`currentAdmitted, this`unreleased
      ensures current == old(current) || current == None
      ensures Admissions() && pendingLocal == None
      ensures unreleased == old(unreleased) - One(old(pendingLocal).Some?)
    {
      if pendingLocal == None {
        return Fine;
      }
      var request := pendingLocal.value;
      o := Call();
      TakePendingLocal();
      ForgetAlias(request);
      var released := ReleaseRequest();
    }

    // ------------------------------------------------------------ event lists

    /** Retires events nobody will handle, with their queued admissions if they have any; a
        body chunk releases its view once, however often it is asked to. */
    method ReleaseEventSuffix(events: seq<Event>, start: nat, queuedHeads: bool)
      requires start <= |events| && (queuedHeads ==> queuedHeld >= Heads(events[start..]))
      modifies this`queuedHeld, this`lost
      ensures lost == events[start..] + old(lost)
      ensures queuedHeld == old(queuedHeld) - if queuedHeads then Heads(events[start..]) else 0
    {
      var index := start;
      while index < |events|
        invariant start <= index <= |events|
        invariant queuedHeads ==> queuedHeld == old(queuedHeld) - Heads(events[start..]) + Heads(events[index..])
        invariant !queuedHeads ==> queuedHeld == old(queuedHeld)
        invariant lost == old(lost)
      {
        HeadsNext(events, index);
        if queuedHeads && events[index] == Head {
          ReleaseQueuedRequest();
        }
        index := index + 1;
      }
      lost := events[start..] + lost;
    }

    method DiscardDeferred()
      requires Queue()
      modifies this`deferred, this`queuedHeld, this`lost
      ensures deferred == [] && queuedHeld == 0 && lost == old(deferred) + old(lost)
      ensures old(Ordered([])) ==> Ordered([])
    {
      LineHeld(handled, deferred, [], lost);
      var pending := deferred;
      deferred := [];
      assert pending[0..] == pending;
      ReleaseEventSuffix(pending, 0, true);
    }

    method Defer(e: Event)
      modifies this`deferred
      ensures deferred == old(deferred) + [e]
      ensures Heads(deferred) == Heads(old(deferred)) + One(e == Head)
    {
      HeadsAppend(deferred, [e]);
      HeadsOne(e);
      deferred := deferred + [e];
    }

    /** A protocol error: the current request and everything deferred are given up. */
    method FailHttp() returns (o: Outcome)
      requires Ledger()
      modifies this`current, this`currentAdmitted, this`unreleased, this`deferred, this`queuedHeld,
               this`closeAfterFlush, this`lost
      ensures lost == old(deferred) + old(lost) && (old(Ordered([])) ==> Ordered([]))
      ensures Ledger() && current == None && deferred == [] && queuedHeld == 0 && closeAfterFlush
      ensures unreleased == old(unreleased) - One(old(currentAdmitted))
    {
      var aborted := AbortCurrentRequest();
      DiscardDeferred();
      closeAfterFlush := true;
      o := Call();
      if o == Fine {
        o := aborted;
      }
    }

    /** One decoded event: handled, deferred behind a pending owner, or refused. A refused head
        is the one event that is neither. */
    method FeedEvent(e: Event) returns (o: Outcome, stop: bool)
      requires Ledger()
      modifies this
      ensures Ledger() && closed == old(closed) && answered == old(answered)
      ensures stop ==> o == Fine && e == Head && !old(NonePending()) && closeAfterFlush && deferred == old(deferred)
      ensures deferred == if old(NonePending()) || stop then old(deferred) else old(deferred) + [e]
      ensures handled == if old(NonePending()) then old(handled) + [e] else old(handled)
      ensures received == old(received) && lost == old(lost) && midMessage == old(midMessage)
      ensures old(closeAfterFlush) ==> closeAfterFlush
      ensures !old(NonePending()) ==> SamePending() && unreleased == old(unreleased) && current == old(current)
      ensures old(NonePending()) ==> (current.Some? ==> Open(handled))
    {
      stop := false;
      if NonePending() {
        o := HandleEvent(e);
        return;
      }
      if e == Head {
        var queued := QueueRequest();
        if !queued {
          closeAfterFlush := true;
          return Fine, true;
        }
      }
      Defer(e);
      return Fine, false;
    }

    /** The next events of a decoder that goes on where it was: any legal ones, or none if it
        raises. */
    method Decode() returns (decoded: Outcome, events: seq<Event>)
      modifies this`midMessage
      ensures decoded != Fine ==> events == []
      ensures decoded == Fine && Legal(received) && old(midMessage) == Open(received) ==>
                Legal(received + events) && midMessage == Open(received + events)
    {
      hide Legal, Open;
      decoded := Call();
      events := [];
      if decoded != Fine {
        return;
      }
      var count: nat := *;
      assert received + [] == received;
      while count > 0
        invariant Legal(received) && old(midMessage) == Open(received) ==>
                    Legal(received + events) && midMessage == Open(received + events)
      {
        var more: bool := *;
        var e := if !midMessage then Head else if more then BodyChunk else End;
        if Legal(received + events) && midMessage == Open(received + events) {
          MoreDecoded(received, events, e);
        }
        events, midMessage, count := events + [e], e != End, count - 1;
      }
    }

    /** `feed_data`: whatever the codec decodes or raises. */
    method FeedData() returns (o: Outcome)
      requires Ledger()
      modifies this
      ensures Ledger() && closed == old(closed) && answered == old(answered)
      ensures old(closed) || old(closeAfterFlush) ==> unreleased == old(unreleased) && queuedHeld == old(queuedHeld)
      ensures !old(NonePending()) ==> SamePending()
      ensures old(!NonePending() || deferred == []) ==> InOrder(o)
    {
      hide Legal, Open, Line, Heads;
      NoHeads();
      if closed || closeAfterFlush {
        return Fine;
      }
      var decoded, events := Decode();
      if decoded == Protocol {
        o := FailHttp();
        return;
      }
      if decoded != Fine {
        DiscardDeferred();
        return decoded;
      }
      LineReceived(handled, deferred, events);
      received := received + events;
      assert events[0..] == events;
      o := FeedEvents(events);
    }

    /** The events in the hands of the loop from `index` on, while none is lost. */
    ghost predicate Feeding(events: seq<Event>, index: nat)
      requires index <= |events|
      reads this
    {
      Ordered(events[index..]) && lost == [] && midMessage == Open(received) && (NonePending() ==> deferred == [])
    }

    /** The decoded events are handled in turn until an owner appears, and deferred from there on. */
    method FeedEvents(events: seq<Event>) returns (o: Outcome)
      requires Ledger()
      modifies this
      ensures Ledger() && closed == old(closed) && answered == old(answered)
      ensures !old(NonePending()) ==> SamePending() && handled == old(handled)
      ensures old(closeAfterFlush) ==> closeAfterFlush
      ensures old(Feeding(events, 0)) ==> Ordered([]) && (o == Fine ==> Orderly())
      ensures received == old(received)
    {
      var index, done := 0, false;
      o := Fine;
      while index < |events| && !done
        invariant Ledger() && index <= |events| && closed == old(closed) && answered == old(answered)
        invariant received == old(received) && (old(closeAfterFlush) ==> closeAfterFlush)
        invariant !old(NonePending()) ==> SamePending() && handled == old(handled)
        invariant old(Feeding(events, 0)) && !done ==> Feeding(events, index)
        invariant old(Feeding(events, 0)) && done ==> Ordered([]) && (o == Fine ==> Orderly())
        invariant !done ==> o == Fine
      {
        o, done := FeedNext(events, index);
        index := index + 1;
      }
      assert !done ==> events[index..] == [];
    }

    /** One decoded event and, when it is the last to be handled, what becomes of the others. */
    method FeedNext(events: seq<Event>, index: nat) returns (o: Outcome, done: bool)
      requires Ledger() && index < |events|
      modifies this
      ensures Ledger() && closed == old(closed) && answered == old(answered) && received == old(received)
      ensures (old(closeAfterFlush) ==> closeAfterFlush) && (done && o == Fine ==> closeAfterFlush)
      ensures !old(NonePending()) ==> SamePending() && handled == old(handled)
      ensures !done ==> o == Fine
      ensures old(Feeding(events, index)) ==> if done then Ordered([]) else Feeding(events, index + 1)
    {
      hide Heads, Line, Legal, Open;
      NoHeads();
      done := true;
      ghost var e, rest := events[index], events[index + 1..];
      assert events[index..] == [e] + rest;
      LineNext(handled, deferred, e, rest, []);
      if closeAfterFlush {
        LineHeld(handled, deferred, [e] + rest, []);
        ReleaseEventSuffix(events, index, false);
        return Fine, true;
      }
      var stop;
      o, stop := FeedEvent(events[index]);
      if !stop && o == Fine {
        return Fine, false;
      }
      o := StopFeeding(o, events, index);
    }

    /** The event at `index` is the last one: after a refusal it is lost with those behind it,
        after a failure they are, and so is everything deferred. */
    method StopFeeding(failed: Outcome, events: seq<Event>, index: nat) returns (o: Outcome)
      requires Ledger() && index < |events| && (failed == Fine ==> closeAfterFlush)
      modifies this`current, this`currentAdmitted, this`unreleased, this`deferred, this`queuedHeld,
               this`closeAfterFlush, this`lost
      ensures Ledger() && (o == Fine ==> closeAfterFlush) && (old(closeAfterFlush) ==> closeAfterFlush)
      ensures failed != Protocol ==> current == old(current) && currentAdmitted == old(currentAdmitted)
      ensures old(lost) == [] && old(Ordered(if failed == Fine then events[index..] else events[index + 1..])) ==>
                Ordered([])
    {
      hide Heads, Line, Legal, Open;
      NoHeads();
      o := failed;
      ghost var e, rest := events[index], events[index + 1..];
      assert events[index..] == [e] + rest && [e] + (rest + []) == [e] + rest + [];
      LineHeld(handled, deferred, rest, []);
      LineHeld(handled, deferred, [e] + rest, []);
      ReleaseEventSuffix(events, index + 1, false);
      if o == Fine {
        lost := [e] + lost;
      } else if o == Protocol {
        o := FailHttp();
      } else {
        DiscardDeferred();
      }
    }

    /** The deferred events are handled in turn until a new owner appears; from there they are
        deferred again, and after a failure or a refusal they are released. */
    method ResumeDeferred() returns (o: Outcome)
      requires Ledger()
      modifies this
      ensures Ledger() && closed == old(closed) && answered == old(answered) && received == old(received)
      ensures |deferred| <= |old(deferred)| && deferred <= old(deferred)[|old(deferred)| - |deferred|..]
      ensures o != Fine ==> deferred == []
      ensures deferred != [] ==> !NonePending()
      ensures old(NonePending()) && old(deferred) != [] && !old(closeAfterFlush) ==> handled != old(handled)
      ensures InOrder(o)
    {
      hide Heads, Line, Legal, Open;
      var pending := deferred;
      NoHeads();
      LineHeld(handled, pending, [], lost);
      deferred := [];
      o := Fine;
      var index, done := 0, false;
      assert pending[0..] == pending;
      ghost var first := 0;
      while index < |pending| && !done
        invariant 0 <= first <= index <= |pending| && closed == old(closed) && answered == old(answered)
        invariant received == old(received) && midMessage == old(midMessage)
        invariant (old(closeAfterFlush) ==> closeAfterFlush) && |handled| >= |old(handled)|
        invariant done ==> Ledger() && deferred == [] && (o == Fine ==> closeAfterFlush) && index > 0
        invariant !done ==> o == Fine && Resumed(pending, index) && deferred == pending[first..index]
        invariant !done ==> lost == old(lost)
        invariant index == 0 ==> SamePending() && closeAfterFlush == old(closeAfterFlush)
        invariant old(Orderly()) ==> Ordered(if done then [] else pending[index..])
        invariant index > 0 && old(NonePending()) && !old(closeAfterFlush) ==> |handled| > |old(handled)|
      {
        o, done := ResumeNext(pending, index);
        index := index + 1;
        if deferred == [] {
          first := index;
        }
      }
      assert !done ==> pending[index..] == [];
    }

    /** The ledger while the events from `index` on are still held by the loop. Once one event
        has been deferred again an owner is pending, and stays so. */
    ghost predicate Resumed(pending: seq<Event>, index: nat)
      requires index <= |pending|
      reads this
    {
      && Admissions() && queuedHeld == Heads(deferred) + Heads(pending[index..])
      && (deferred != [] ==> !closeAfterFlush && !NonePending())
    }

    method ResumeNext(pending: seq<Event>, index: nat) returns (o: Outcome, done: bool)
      requires index < |pending| && Resumed(pending, index)
      modifies this
      ensures closed == old(closed) && answered == old(answered)
      ensures received == old(received) && midMessage == old(midMessage)
      ensures !done ==> o == Fine && Resumed(pending, index + 1) && lost == old(lost)
      ensures !done ==> deferred == old(deferred) + [pending[index]] || deferred == old(deferred) == []
      ensures done ==> Ledger() && deferred == [] && (o == Fine ==> closeAfterFlush)
      ensures handled == if old(NonePending() && !closeAfterFlush) then old(handled) + [pending[index]]
                         else old(handled)
      ensures old(closeAfterFlush) ==> closeAfterFlush
      ensures old(Ordered(pending[index..])) ==> Ordered(if done then [] else pending[index + 1..])
    {
      hide Heads, Line, Legal, Open;
      var e := pending[index];
      HeadsNext(pending, index);
      ghost var rest := pending[index + 1..];
      assert pending[index..] == [e] + rest;
      LineNext(handled, deferred, e, rest, lost);
      LineHeld(handled, deferred, [e] + rest, lost);
      if closeAfterFlush {
        ReleaseEventSuffix(pending, index, true);
        return Fine, true;
      }
      if !NonePending() {
        Defer(e);
        return Fine, false;
      }
      if e == Head {
        ReleaseQueuedRequest();
      }
      o := HandleEvent(e);
      done := o != Fine;
      if done {
        LineHeld(handled, deferred, rest, lost);
        ReleaseEventSuffix(pending, index + 1, true);
      }
    }

    /** Moves the pending request's own body events on; the others stay deferred, in order. When
        one fails, the events after it are put back. */
    method ConsumePendingBody(request: nat) returns (o: Outcome)
      requires Ledger() && (pendingProxyRequest == Some(request) || pendingLocal == Some(request))
      modifies this
      ensures Ledger() && closed == old(closed) && answered == old(answered) && SamePending()
      ensures unreleased == old(unreleased) && queuedHeld == old(queuedHeld) && Heads(deferred) == Heads(old(deferred))
      ensures received == old(received) && lost == old(lost) && midMessage == old(midMessage)
      ensures old(current) != Some(request) ==> o == Fine && deferred == old(deferred) && handled == old(handled)
      ensures old(current) == Some(request) && o == Fine ==>
                deferred == LaterEvents(old(deferred)) && handled == old(handled) + OwnEvents(old(deferred))
      ensures old(deferred) == [] ==> o == Fine
      ensures InOrder(o)
    {
      hide Heads, Line, Legal, Open, LaterEvents, OwnEvents, Consumed, Stranded;
      var pending := deferred;
      deferred := [];
      var completed := current != Some(request);
      ghost var before := completed;
      o := Fine;
      var index := 0;
      assert pending[0..] == pending;
      LineHeld(handled, pending, [], lost);
      NothingConsumed(pending, handled);
      NoHeads();
      while index < |pending|
        invariant 0 <= index <= |pending| && closed == old(closed) && answered == old(answered) && SamePending()
        invariant unreleased == old(unreleased) && queuedHeld == old(queuedHeld) && o == Fine
        invariant received == old(received) && lost == old(lost) && midMessage == old(midMessage)
        invariant old(closeAfterFlush) ==> closeAfterFlush
        invariant completed == (current != Some(request))
        invariant before ==> completed && deferred == pending[..index] && handled == old(handled)
        invariant !before ==> Consumed(pending, index, completed, old(handled), handled, deferred)
        invariant Admissions() && queuedHeld == Heads(deferred) + Heads(pending[index..])
        invariant old(Orderly()) ==> Ordered(pending[index..]) && (completed || deferred == [])
      {
        HeadsNext(pending, index);
        ConsumedNext(pending, index, completed, old(handled), handled, deferred);
        o, completed := ConsumeNext(request, pending, index, completed);
        index := index + 1;
        if o != Fine {
          HeadsAppend(deferred, pending[index..]);
          LineHeld(handled, deferred, pending[index..], lost);
          deferred := deferred + pending[index..];
          return;
        }
      }
      assert pending[..index] == pending && pending[index..] == [];
      EverythingConsumed(pending, completed, old(handled), handled, deferred);
    }

    method ConsumeNext(request: nat, pending: seq<Event>, index: nat, completed: bool) returns (o: Outcome, done: bool)
      requires index < |pending|
      requires Admissions() && (pendingProxyRequest == Some(request) || pendingLocal == Some(request))
      requires completed == (current != Some(request))
      modifies this
      ensures Admissions() && closed == old(closed) && answered == old(answered) && SamePending()
      ensures unreleased == old(unreleased) && queuedHeld == old(queuedHeld)
      ensures received == old(received) && lost == old(lost) && midMessage == old(midMessage)
      ensures old(closeAfterFlush) ==> closeAfterFlush
      ensures done == (current != Some(request))
      ensures done == (completed || pending[index] == End)
      ensures deferred == if completed || pending[index] == Head then old(deferred) + [pending[index]]
                          else old(deferred)
      ensures handled == if completed || pending[index] == Head then old(handled) else old(handled) + [pending[index]]
      ensures Heads(deferred) == Heads(old(deferred)) + One(pending[index] == Head)
      ensures completed || pending[index] == Head ==> o == Fine
      ensures old(Ordered(pending[index..])) && (completed || old(deferred) == []) ==>
                Ordered(pending[index + 1..]) && (done || deferred == [])
    {
      hide Heads, Line, Legal, Open;
      var e := pending[index];
      ghost var rest := pending[index + 1..];
      assert pending[index..] == [e] + rest;
      LineNext(handled, deferred, e, rest, lost);
      if !completed && e != Head {
        o := HandleEvent(e);
        done := current != Some(request);
      } else {
        if !completed && Ordered(pending[index..]) && deferred == [] {
          NoHeadInside(handled, e, rest, lost);
        }
        Defer(e);
        return Fine, completed;
      }
    }

    // ------------------------------------------------------------ the connection's loop

    method DeadlineTimeout() returns (o: Outcome)
      requires Admissions()
      modifies this`current, this`currentAdmitted, this`unreleased, this`closeAfterFlush
      ensures Admissions() && (old(closeAfterFlush) ==> closeAfterFlush)
      ensures current == old(current) || current == None
      ensures o == Fine ==>
                closeAfterFlush && current == None && unreleased == old(unreleased) - One(old(currentAdmitted))
    {
      o := Call();
      if o != Fine {
        return;
      }
      var onRequest: bool := *;
      if onRequest || current.Some? {
        o := AbortCurrentRequest();
        if o != Fine {
          return;
        }
        o := Call();
        if o != Fine {
          return;
        }
      }
      closeAfterFlush := true;
    }

    /** What happens to the connection while a proxy exchange runs. */
    method ProxyStep(request: nat) returns (o: Outcome)
      requires Ledger() && pendingProxyRequest == Some(request)
      modifies this
      ensures InOrder(o)
      ensures Ledger() && closed == old(closed) && answered == old(answered) && pendingProxyRequest == Some(request)
    {
      var parse: bool, late: bool := *, *;
      if parse {
        o := FeedData();
        if o != Fine {
          return;
        }
      }
      o := ConsumePendingBody(request);
      if o != Fine {
        return;
      }
      o := Call();
      if o == Fine && late {
        o := DeadlineTimeout();
      }
    }

    method RunProxy() returns (o: Outcome)
      requires Ledger()
      modifies this
      ensures InOrder(o)
      ensures Ledger() && closed == old(closed) && answered == old(answered) && !pendingProxy
    {
      if !pendingProxy {
        return Fine;
      }
      var request := pendingProxyRequest.value;
      var steps: nat := *;
      o := Fine;
      while steps > 0 && o == Fine
        invariant InOrder(o)
        invariant Ledger() && closed == old(closed) && answered == old(answered) && pendingProxyRequest == Some(request)
      {
        o := ProxyStep(request);
        steps := steps - 1;
      }
      if o == Fine {
        o := Call();
      }
      var released := TakePendingProxy(request);
      if o == Fine {
        o := released;
      }
    }

    /** The proxy's owner fields are taken before its admission is released. */
    method TakePendingProxy(request: nat) returns (o: Outcome)
      requires Admissions() && pendingProxyRequest == Some(request)
      modifies this`pendingProxy, this`pendingProxyRequest, this`current, this`currentAdmitted, this`unreleased,
               this`closeAfterFlush
      ensures (old(closeAfterFlush) ==> closeAfterFlush) && (current == old(current) || current == None)
      ensures Admissions() && !pendingProxy && current != Some(request) && unreleased == old(unreleased) - 1
    {
      pendingProxy := false;
      pendingProxyRequest := None;
      ForgetAlias(request);
      o := ReleaseRequest();
      var close: bool := *;
      closeAfterFlush := closeAfterFlush || close;
    }

    method InputEof() returns (o: Outcome)
      requires Ledger()
      modifies this`current, this`currentAdmitted, this`unreleased, this`deferred, this`queuedHeld,
               this`closeAfterFlush, this`lost
      ensures InOrder(o)
      ensures Ledger() && (!closed ==> closeAfterFlush)
    {
      if closed {
        return Fine;
      }
      var incomplete: bool := *;
      o := Fine;
      if incomplete {
        o := FailHttp();
        if o != Fine {
          return;
        }
      }
      closeAfterFlush := true;
    }

    /** The part of closing that gives owners up, one by one, whatever any of them raises. */
    method GiveUpOwners() returns (o: Outcome)
      requires Admissions()
      modifies this`current, this`currentAdmitted, this`pendingProxy, this`pendingProxyRequest, this`pendingStream,
               this`pendingStreamAdmitted, this`unreleased
      ensures Admissions() && current == None && !pendingProxy && pendingStream == None
      ensures unreleased == One(pendingLocal.Some?) + Stranded(answered)
    {
      o := AbortCurrentRequest();
      var signalled := Call();
      var proxied := CancelPendingProxy();
      var streamed := CancelPendingStream();
    }

    /** Every owner but a local child is given up; only the connection's own loop joins a child. */
    method Close() returns (o: Outcome)
      requires Ledger()
      modifies this
      ensures old(Ordered([])) ==> Ordered([])
      ensures Ledger() && closed && pendingLocal == old(pendingLocal) && answered == old(answered)
      ensures !old(closed) ==> current == None && !pendingProxy && pendingStream == None && deferred == []
      ensures !old(closed) ==> queuedHeld == 0 && unreleased == One(pendingLocal.Some?) + Stranded(answered)
    {
      hide Legal, Open, Line, Heads;
      NoHeads();
      LineHeld(handled, deferred, [], lost);
      if closed {
        return Fine;
      }
      closed := true;
      var pending := deferred;
      deferred := [];
      o := GiveUpOwners();
      assert pending[0..] == pending;
      ReleaseEventSuffix(pending, 0, true);
      o := Call();
    }

    /** One turn of the loop, whichever branch it takes; `over` when it leaves the loop. */
    method Turn(answer: Answer) returns (o: Outcome, used: bool, over: bool)
      requires Ledger()
      modifies this
      ensures InOrder(o)
      ensures Ledger() && closed == old(closed)
      ensures used ==> old(pendingLocal).Some? && pendingLocal == None
      ensures answered == if used then old(answered) + [answer] else old(answered)
    {
      var flushing: bool, child: Child := *, *;
      if flushing {
        o := Call();
        used, over := false, *;
      } else {
        o, used, over := Advance(answer, child);
      }
    }

    /** A turn with no output left to flush. A local child that is not done yet leaves the turn
        to the bytes of its request's body, and to those of the requests behind it. */
    method Advance(answer: Answer, child: Child) returns (o: Outcome, used: bool, over: bool)
      requires Ledger()
      modifies this
      ensures InOrder(o)
      ensures Ledger() && closed == old(closed)
      ensures used ==> old(pendingLocal).Some? && pendingLocal == None && child == Joined
      ensures old(pendingLocal).Some? && !old(pendingProxy) && old(deferred) == [] && child == Joined ==> used
      ensures answered == if used then old(answered) + [answer] else old(answered)
      ensures used && Incomparable(answer) ==> o == Broken && NonePending() && unreleased == old(unreleased)
    {
      used, over := false, false;
      if pendingProxy {
        o := RunProxy();
        return;
      }
      if pendingLocal.Some? {
        var progressed, parked;
        o, progressed, used := DrivePendingLocal(answer, child);
        if o != Fine || progressed {
          return;
        }
        o, parked := AwaitBodySpace();
        if o != Fine || parked {
          return;
        }
      } else if pendingStream.Some? {
        var giveUp: bool, pulled: Outcome, exhausted: bool, ended: Outcome := *, *, *, *;
        o := DriveStreaming(giveUp, pulled, exhausted, ended);
        return;
      } else if deferred != [] {
        o := ResumeDeferred();
        return;
      }
      var draining: bool := *;
      if closeAfterFlush || (draining && current == None) {
        return Fine, false, true;
      }
      o, over := ReadTurn();
    }

    /** Behind a full body the turn ends, by the deadline or to let the handler read. */
    method AwaitBodySpace() returns (o: Outcome, parked: bool)
      requires Ledger() && pendingLocal.Some?
      modifies this`current, this`currentAdmitted, this`unreleased, this`closeAfterFlush
      ensures InOrder(o)
      ensures Ledger() && (!parked && o == Fine ==> current == old(current) && unreleased == old(unreleased))
    {
      var late: bool := *;
      parked := *;
      o := Call();
      if o == Fine && parked && late {
        o := DeadlineTimeout();
      }
    }

    /** Buffered or newly read bytes are parsed, whoever is pending, or the input has ended, or a
        deadline has passed. */
    method ReadTurn() returns (o: Outcome, over: bool)
      requires Ledger()
      modifies this
      ensures old(!NonePending() || deferred == []) ==> InOrder(o)
      ensures Ledger() && closed == old(closed) && answered == old(answered)
      ensures !old(NonePending()) ==> SamePending()
    {
      over := false;
      var buffered: bool := *;
      if buffered {
        var progressed;
        o, progressed := ParseBuffered();
        if o != Fine || progressed || deferred != [] {
          return;
        }
      }
      var read: Reading := *;
      match read {
        case ReadBytes => o := ParseRead();
        case ReadEnd =>
          o := InputEof();
          over := *;
        case ReadNothing(late) =>
          o := Fine;
          if late {
            o := DeadlineTimeout();
          }
        case ReadFailed => o := Broken;
      }
    }

    /** The bytes left in the codec's buffer; they may complete events of a pending request. */
    method ParseBuffered() returns (o: Outcome, progressed: bool)
      requires Ledger()
      modifies this
      ensures old(!NonePending() || deferred == []) ==> InOrder(o)
      ensures Ledger() && closed == old(closed) && answered == old(answered)
      ensures !old(NonePending()) ==> SamePending()
    {
      progressed := *;
      o := FeedData();
      if o == Fine && pendingProxyRequest.Some? {
        o := ConsumePendingBody(pendingProxyRequest.value);
      }
      if o == Fine && pendingLocal.Some? {
        o := ConsumePendingBody(pendingLocal.value);
      }
    }

    /** Newly read bytes; a proxy's own loop moves its body on. */
    method ParseRead() returns (o: Outcome)
      requires Ledger()
      modifies this
      ensures old(!NonePending() || deferred == []) ==> InOrder(o)
      ensures Ledger() && closed == old(closed) && answered == old(answered)
      ensures !old(NonePending()) ==> SamePending()
    {
      o := FeedData();
      if o == Fine && pendingLocal.Some? {
        o := ConsumePendingBody(pendingLocal.value);
      }
    }

    /** The loop: any number of turns, ended by its own choice or by any failure. */
    method RunTurns(answers: nat -> Answer) returns (o: Outcome)
      requires Ledger() && Orderly() && !closed && answered == []
      modifies this
      ensures Ordered([]) && (o == Fine ==> Orderly())
      ensures Ledger() && !closed && forall k :: 0 <= k < |answered| ==> answered[k] == answers(k)
    {
      var turns: nat, joined: nat, over := *, 0, false;
      o := Call();
      while turns > 0 && o == Fine && !over
        invariant Ordered([]) && (o == Fine ==> Orderly())
        invariant Ledger() && !closed && |answered| == joined
        invariant forall k :: 0 <= k < |answered| ==> answered[k] == answers(k)
      {
        var used;
        o, used, over := Turn(answers(joined));
        if used {
          joined := joined + 1;
        }
        turns := turns - 1;
      }
    }

    /** The whole life of a connection: any number of turns, ended by the loop's own choice or
        by any failure, and then the cleanup; `answers(k)` is what the local handler joined as
        number k gives. No queued admission is left, and exactly the request admissions of the
        answers whose status cannot be compared: none if and only if there is no such answer. */
    method RunConnection(answers: nat -> Answer) returns (o: Outcome)
      requires Ledger() && Orderly() && !closed && answered == []
      modifies this
      ensures received == handled + lost && Legal(received)
      ensures Ledger() && closed && queuedHeld == 0
      ensures NonePending() && current == None && deferred == []
      ensures forall k :: 0 <= k < |answered| ==> answered[k] == answers(k)
      ensures unreleased == Stranded(answered)
      ensures unreleased == 0 <==> forall k :: 0 <= k < |answered| ==> !Incomparable(answers(k))
    {
      hide Legal, Open, Line, Heads;
      o := RunTurns(answers);
      if pendingLocal.Some? {
        var child := CancelAndJoinPendingLocal();
        if o == Fine {
          o := child;
        }
      }
      var notified := Call();
      var ended := Close();
      NoneStranded(answered);
      LineEnd(handled, lost);
      if o == Fine {
        o := if notified != Fine then notified else ended;
      }
    }
  }

  /** One request with a streamed body, and a response whose status was set to something that is
      no number: the request is handed to a local child, the next turn joins it, and its
      admission is left without an owner. */
  method StrandedResponse() returns (c: GatewayConnection, begun: Outcome, o: Outcome)
    ensures fresh(c) && c.Ledger() && begun == Fine && o == Broken
    ensures c.unreleased == 1 && c.Owned() == 0 && c.NonePending()
  {
    c := new GatewayConnection();
    begun := c.BeginRequest(Beginning(Fine, true, Fine, false, true, Fine));
    var used, over;
    o, used, over := c.Advance(Answered(Other, false), Joined);
    assert Stranded([]) == 0;
    StrandedMore([], Answered(Other, false));
  }
}
