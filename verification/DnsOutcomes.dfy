/** What the answers of a lookup come from, and what each observation of the transport leads to. */
module DnsOutcomes {
  import opened Octets
  import opened DnsDriving

  // ---------------------------------------------------------------- one attempt

  /** What is read of a framed reply is not yet the whole of it. */
  predicate PartOfFrame(p: Plan, buffered: bytes, expected: int) {
    if |buffered| < 2 then expected == -1
    else expected == Announced(buffered) && 0 < expected <= p.config.maxTcp && |buffered| < expected + 2
  }

  /** The length a framed reply begins with. */
  function Announced(buffered: bytes): int
    requires |buffered| >= 2
  {
    var high: int := buffered[0];
    high * 256 + buffered[1]
  }

  /** Until a lookup is done it has no values, the whole query goes out before a reply is read,
      and what is kept of a reply is the beginning of a frame. */
  predicate Orderly(p: Plan, d: Driver) {
    !d.done ==>
      && d.values == [] && d.error == ""
      && d.sendLength == (if d.tcp then p.queryLength + 2 else p.queryLength)
      && (d.phase == Receiving || (d.buffered == [] && d.expected == -1))
      && (d.phase == Opening || d.phase == Connecting ==> d.sendOffset == 0)
      && (d.phase == Receiving ==> d.sendOffset == d.sendLength)
      && (if d.tcp then PartOfFrame(p, d.buffered, d.expected) else d.buffered == [] && d.expected == -1)
  }

  lemma RetriedOrderly(p: Plan, d: Driver, error: string, now: int)
    requires p.config.attemptsPerServer > 0 && (d.values == [] && d.error == "")
    ensures Orderly(p, Retried(p, d, error, now).0)
  {
  }

  lemma ConcludedOrderly(p: Plan, d: Driver, error: string)
    ensures Orderly(p, Concluded(d, error).0)
  {
  }

  /** A reply that cannot be used leaves an orderly attempt or ends it. */
  lemma InvalidatedOrderly(p: Plan, d: Driver, code: string, now: int, tcp: bool)
    requires p.config.attemptsPerServer > 0 && d.values == [] && d.error == "" && (tcp || Orderly(p, d))
    ensures Orderly(p, Invalidated(p, d, code, now, tcp).0)
  {
    hide Retried;
    RetriedOrderly(p, d.(invalid := d.invalid + 1), code, now);
  }

  lemma DatagramOrderly(p: Plan, d: Driver, now: int, o: Observation)
    requires ValidConfig(p.config) && Orderly(p, d) && !d.done && d.phase == Receiving && !d.tcp
    ensures Orderly(p, StepDatagram(p, d, now, o).0)
  {
    hide Retried, Rotation, Invalidated, Concluded;
    InvalidatedOrderly(p, d, "server-mismatch", now, false);
    match o.judgement
    case Unparsable(code) => InvalidatedOrderly(p, d, code, now, false);
    case Parsed(_, Refused(code)) => InvalidatedOrderly(p, d, code, now, false);
    case Parsed(_, verdict) => ConcludedOrderly(p, Finished(d, verdict), "");
  }

  lemma JudgedOrderly(p: Plan, d: Driver, now: int, o: Observation)
    requires ValidConfig(p.config) && d.values == [] && d.error == ""
    ensures Orderly(p, JudgedFrame(p, d, now, o).0)
  {
    hide Retried, Rotation, Invalidated, Concluded;
    ConcludedOrderly(p, d.(fellBack := true), "");
    match o.judgement
    case Unparsable(code) => InvalidatedOrderly(p, d, code, now, true);
    case Parsed(_, Refused(code)) => InvalidatedOrderly(p, d, code, now, true);
    case Parsed(_, verdict) => ConcludedOrderly(p, Finished(d, verdict), "");
  }

  lemma StreamOrderly(p: Plan, d: Driver, now: int, o: Observation)
    requires ValidConfig(p.config) && Orderly(p, d) && !d.done && d.phase == Receiving && d.tcp
    ensures Orderly(p, StepStream(p, d, now, o).0)
  {
    hide Retried, Rotation, Invalidated, FrameLength, Announced, JudgedFrame;
    InvalidatedOrderly(p, d, "server-mismatch", now, true);
    var buffered := d.buffered + o.data;
    RetriedOrderly(p, d.(buffered := buffered), "response-too-large", now);
    var expected := if d.expected < 0 && |buffered| >= 2 then FrameLength(buffered) else d.expected;
    var grown := d.(buffered := buffered, expected := expected);
    RetriedOrderly(p, grown, "bad-tcp-frame-length", now);
    JudgedOrderly(p, grown, now, o);
    if |buffered| >= 2 {
      FrameBegins(d.buffered, o.data);
    }
  }

  lemma ReceivingOrderly(p: Plan, d: Driver, now: int, o: Observation)
    requires Valid(p, d) && Orderly(p, d) && !d.done && d.phase == Receiving
    ensures Orderly(p, StepReceiving(p, d, now, o).0)
  {
    hide Held, InRotation, Retried, Rotation, StepStream, StepDatagram;
    var used := UsedHandle(d);
    forall error ensures Orderly(p, Retried(p, used, error, now).0) {
      RetriedOrderly(p, used, error, now);
    }
    if d.tcp {
      StreamOrderly(p, used, now, o);
    } else {
      DatagramOrderly(p, used, now, o);
    }
  }

  lemma StepOrderly(p: Plan, d: Driver, now: int, o: Observation)
    requires Valid(p, d) && Orderly(p, d)
    ensures Orderly(p, Step(p, d, now, o).0)
  {
    hide Held, InRotation, Retried, Rotation, StepReceiving;
    forall e: Driver, error | e.values == [] && e.error == "" ensures Orderly(p, Retried(p, e, error, now).0) {
      RetriedOrderly(p, e, error, now);
    }
    if !d.done && d.phase == Receiving {
      ReceivingOrderly(p, d, now, o);
    }
  }

  lemma FrameBegins(a: bytes, b: bytes)
    requires |a + b| >= 2
    ensures Announced(a + b) == FrameLength(a + b)
    ensures |a| >= 2 ==> Announced(a) == Announced(a + b)
  {
  }

  // ---------------------------------------------------------------- answers

  /** The call finds the lookup running, and its operation and its attempt in time. */
  predicate InTime(p: Plan, d: Driver, now: int) {
    !d.done && !d.cancelled && now < p.deadline && now < d.attemptDeadline
  }

  /** A whole reply from the server that was asked: a datagram, or the fragment that completes a
      frame of the announced length. */
  predicate WholeReply(p: Plan, d: Driver, o: Observation) {
    && d.phase == Receiving && o.status.IoOk? && o.data != []
    && if !d.tcp then o.knownPeer && |o.data| <= p.config.maxUdp
       else
         && (o.peerGiven ==> o.knownPeer) && |o.data| <= p.config.maxTcp
         && |d.buffered + o.data| <= p.config.maxTcp + 2 && |d.buffered + o.data| >= 2
         && 0 < Announced(d.buffered + o.data) <= p.config.maxTcp
         && |d.buffered + o.data| >= Announced(d.buffered + o.data) + 2
  }

  /** The first truncated reply of an operation asks for the same over TCP. */
  predicate AsksForTcp(d: Driver, j: Judgement) {
    j.Parsed? && j.truncated && !d.fellBack
  }

  /** The reply settles the lookup with these values and this error. */
  predicate Settles(p: Plan, d: Driver, now: int, o: Observation, values: seq<bytes>, error: string) {
    && InTime(p, d, now) && WholeReply(p, d, o) && !AsksForTcp(d, o.judgement)
    && o.judgement.Parsed? && o.judgement.verdict == Answered(values, error)
  }

  lemma ReceivedFrame(p: Plan, d: Driver, now: int, o: Observation)
    requires Valid(p, d) && Orderly(p, d) && InTime(p, d, now) && d.phase == Receiving && d.tcp
    requires WholeReply(p, d, o)
    ensures var buffered := d.buffered + o.data;
            Step(p, d, now, o) ==
            JudgedFrame(p, UsedHandle(d).(buffered := buffered, expected := Announced(buffered)), now, o)
  {
    hide Held, InRotation, Retried, Rotation, Invalidated, Concluded, FrameLength, JudgedFrame;
    FrameBegins(d.buffered, o.data);
  }

  /** A settling reply ends the lookup with its values, or with its error. */
  lemma AnswerArrives(p: Plan, d: Driver, now: int, o: Observation, values: seq<bytes>, error: string)
    requires Valid(p, d) && Orderly(p, d) && Settles(p, d, now, o, values, error)
    ensures var s := Step(p, d, now, o);
            && s.1 == (if error == "" then Resolved(values) else Failed(error))
            && s.0.done && s.0.values == values && s.0.error == error && s.0.handle == -1
  {
    hide Held, InRotation, Retried, Rotation, Announced;
    if d.tcp {
      ReceivedFrame(p, d, now, o);
    }
  }

  /** A lookup in which a frame asks for TCP when it has come over TCP ends with no values. */
  predicate EndsEmpty(p: Plan, d: Driver, now: int, o: Observation) {
    InTime(p, d, now) && WholeReply(p, d, o) && d.tcp && AsksForTcp(d, o.judgement)
  }

  predicate Unresolved(d: Driver, s: (Driver, Reply)) {
    !s.1.Resolved? && (s.0.done ==> s.0.error != "") && s.0.values == d.values
  }

  lemma RetriedUnresolved(p: Plan, d: Driver, error: string, now: int)
    requires p.config.attemptsPerServer > 0 && !d.done
    ensures Unresolved(d, Retried(p, d, error, now))
  {
    assert |"retry-exhausted:" + error| > 0;
  }

  lemma InvalidatedUnresolved(p: Plan, d: Driver, code: string, now: int, tcp: bool)
    requires p.config.attemptsPerServer > 0 && !d.done
    ensures Unresolved(d, Invalidated(p, d, code, now, tcp))
  {
    RetriedUnresolved(p, d.(invalid := d.invalid + 1), code, now);
  }

  /** Nothing else ends a lookup without an error. */
  lemma OnlyAnswersResolve(p: Plan, d: Driver, now: int, o: Observation)
    requires Valid(p, d) && Orderly(p, d) && !d.done
    ensures var s := Step(p, d, now, o);
            && (s.1.Resolved? <==> s.0.done && s.0.error == "")
            && (s.1.Resolved? ==> s.1 == Resolved(s.0.values))
            && (s.0.done && s.0.error == "" <==> Settles(p, d, now, o, s.0.values, "") || EndsEmpty(p, d, now, o))
            && (EndsEmpty(p, d, now, o) ==> s.0.values == [])
  {
    hide Held, InRotation, Retried, Rotation, Invalidated, Announced;
    forall e: Driver, error | !e.done ensures Unresolved(e, Retried(p, e, error, now)) {
      RetriedUnresolved(p, e, error, now);
    }
    if InTime(p, d, now) && d.phase == Receiving {
      ReceivedResolves(p, d, now, o);
    }
  }

  lemma ReceivedResolves(p: Plan, d: Driver, now: int, o: Observation)
    requires Valid(p, d) && Orderly(p, d) && InTime(p, d, now) && d.phase == Receiving
    ensures var s := Step(p, d, now, o);
            && (s.1.Resolved? <==> s.0.done && s.0.error == "")
            && (s.1.Resolved? ==> s.1 == Resolved(s.0.values))
            && (s.0.done && s.0.error == "" <==> Settles(p, d, now, o, s.0.values, "") || EndsEmpty(p, d, now, o))
            && (EndsEmpty(p, d, now, o) ==> s.0.values == [])
  {
    hide Held, InRotation, Retried, Rotation, Invalidated, Announced, FrameLength;
    forall e: Driver, error | !e.done ensures Unresolved(e, Retried(p, e, error, now)) {
      RetriedUnresolved(p, e, error, now);
    }
    forall e: Driver, code, tcp | !e.done ensures Unresolved(e, Invalidated(p, e, code, now, tcp)) {
      InvalidatedUnresolved(p, e, code, now, tcp);
    }
    if d.tcp && |d.buffered + o.data| >= 2 {
      FrameBegins(d.buffered, o.data);
    }
  }

  // ---------------------------------------------------------------- whole lookups

  lemma StartOrderly(p: Plan, now: int)
    requires ValidConfig(p.config)
    ensures Orderly(p, Start(p, now))
  {
  }

  lemma ApplyOrderly(p: Plan, d: Driver, i: Input)
    requires Valid(p, d) && Orderly(p, d)
    ensures Orderly(p, Apply(p, d, i).0)
  {
    hide Step, Held, InRotation;
    if i.Tick? {
      StepOrderly(p, d, i.now, i.seen);
    }
  }

  lemma {:induction false} RunOrderly(p: Plan, d: Driver, inputs: seq<Input>)
    requires Valid(p, d) && Orderly(p, d)
    ensures Orderly(p, Run(p, d, inputs))
    decreases |inputs|
  {
    hide Apply, Valid, Orderly;
    if inputs != [] {
      ConfigGood(p, d);
      ApplyKept(p, d, inputs[0]);
      ApplyOrderly(p, d, inputs[0]);
      RunOrderly(p, Apply(p, d, inputs[0]).0, inputs[1..]);
    }
  }

  lemma ConfigGood(p: Plan, d: Driver)
    requires Valid(p, d)
    ensures p.config.attemptsPerServer > 0
  {
  }

  /** Input number `k` of a run brought the reply that settled the lookup. */
  predicate SettledBy(p: Plan, d: Driver, inputs: seq<Input>, k: nat, values: seq<bytes>)
    requires p.config.attemptsPerServer > 0
  {
    k < |inputs| && inputs[k].Tick? && Settles(p, Run(p, d, inputs[..k]), inputs[k].now, inputs[k].seen, values, "")
  }

  lemma {:induction false} RunSplit(p: Plan, d: Driver, inputs: seq<Input>, i: Input)
    requires p.config.attemptsPerServer > 0
    ensures Run(p, d, inputs + [i]) == Apply(p, Run(p, d, inputs), i).0
    decreases |inputs|
  {
    hide Apply;
    if inputs == [] {
      assert inputs + [i] == [i] && [i][1..] == [];
    } else {
      assert (inputs + [i])[1..] == inputs[1..] + [i];
      RunSplit(p, Apply(p, d, inputs[0]).0, inputs[1..], i);
    }
  }

  /** Nonempty values of a lookup are those of a whole reply from the server that was asked,
      read in time and judged an answer. */
  lemma {:induction false} ValuesComeFromReplies(p: Plan, now: int, inputs: seq<Input>)
    requires ValidConfig(p.config)
    ensures var d := Run(p, Start(p, now), inputs);
            d.done && d.error == "" && d.values != [] ==>
              exists k: nat :: SettledBy(p, Start(p, now), inputs, k, d.values)
    decreases |inputs|
  {
    hide Step, Apply, Settles, Held, InRotation;
    var start := Start(p, now);
    StartValid(p, now);
    StartOrderly(p, now);
    if inputs == [] {
      assert Run(p, start, inputs) == start;
    } else {
      var n := |inputs| - 1;
      var before := inputs[..n];
      assert inputs == before + [inputs[n]];
      ValuesComeFromReplies(p, now, before);
      RunSplit(p, start, before, inputs[n]);
      RunKept(p, start, before);
      RunOrderly(p, start, before);
      var e := Run(p, start, before);
      var d := Run(p, start, inputs);
      if d.done && d.error == "" && d.values != [] {
        if e.done {
          ApplyKept(p, e, inputs[n]);
          var k: nat :| SettledBy(p, start, before, k, d.values);
          assert before[..k] == inputs[..k];
          assert SettledBy(p, start, inputs, k, d.values);
        } else {
          LastSettles(p, e, inputs[n]);
          assert inputs[..n] == before;
          assert SettledBy(p, start, inputs, n, d.values);
        }
      }
    }
  }

  lemma LastSettles(p: Plan, e: Driver, i: Input)
    requires Valid(p, e) && Orderly(p, e) && !e.done
    requires var d := Apply(p, e, i).0; d.done && d.error == "" && d.values != []
    ensures i.Tick? && Settles(p, e, i.now, i.seen, Apply(p, e, i).0.values, "")
  {
    hide Step, Settles, Held, InRotation;
    match i
    case Tick(now, o) => OnlyAnswersResolve(p, e, now, o);
    case Cancel =>
    case CancelOperation =>
  }

  /** A lookup that is done answers every later call alike. */
  lemma {:induction false} AnswersRepeat(p: Plan, d: Driver, inputs: seq<Input>, now: int, o: Observation)
    requires Valid(p, d) && d.done
    ensures Run(p, d, inputs) == d
    ensures Step(p, Run(p, d, inputs), now, o) == (d, if d.error != "" then Failed(d.error) else Resolved(d.values))
    decreases |inputs|
  {
    hide Held, InRotation;
    if inputs != [] {
      ApplyKept(p, d, inputs[0]);
      AnswersRepeat(p, d, inputs[1..], now, o);
    }
  }

  // ---------------------------------------------------------------- everything else

  function SoonestOf(a: int, b: int): int {
    if a <= b then a else b
  }

  /** The attempt is over: the next one begins afresh on the server whose turn it is, unless
      there is no time or no attempt left. */
  predicate NextAttempt(p: Plan, d: Driver, now: int, s: (Driver, Reply), reason: string) {
    && s.0.attempt == d.attempt + 1 && s.0.fellBack == d.fellBack
    && if now >= p.deadline then s.1 == Failed("timeout") && s.0.done
       else if d.attempt + 1 >= p.config.servers * p.config.attemptsPerServer
       then s.1 == Failed("retry-exhausted:" + reason) && s.0.done
       else
         && s.1 == Retrying(reason) && !s.0.done && s.0.phase == Opening && s.0.handle == -1
         && s.0.tcp == p.config.useTcp && s.0.sendOffset == 0 && s.0.invalid == 0 && s.0.buffered == []
         && s.0.attemptDeadline == SoonestOf(now + p.config.attemptTimeout, p.deadline)
  }

  lemma RetriedNext(p: Plan, d: Driver, error: string, now: int)
    requires ValidConfig(p.config) && p.config.servers > 0 && !d.done
    ensures NextAttempt(p, d, now, Retried(p, d, error, now), error)
  {
  }

  function Named(status: Status, fallback: string): string {
    if status.IoError? && status.reason != "" then status.reason else fallback
  }

  /** Calls that come too late. */
  lemma LateCalls(p: Plan, d: Driver, now: int, o: Observation)
    requires Valid(p, d) && !d.done && !d.cancelled
    ensures now >= p.deadline ==> Step(p, d, now, o).1 == Failed("timeout") && Step(p, d, now, o).0.done
    ensures now < p.deadline && now >= d.attemptDeadline ==>
              NextAttempt(p, d, now, Step(p, d, now, o), "attempt-timeout")
  {
    hide Held, InRotation, Rotation, NextAttempt, Retried;
    RetriedNext(p, d, "attempt-timeout", now);
  }

  /** Opening, connecting and sending: what fails costs the attempt, what would block waits, and
      the query goes out from where it stopped, in one datagram over UDP. */
  lemma SendingOutcomes(p: Plan, d: Driver, now: int, o: Observation)
    requires Valid(p, d) && Orderly(p, d) && InTime(p, d, now)
    ensures var s := Step(p, d, now, o);
            && (d.phase == Opening ==>
                  if o.status.IoOk? && o.handle != -1 then
                    s.1 == Progress && s.0.phase == Connecting && s.0.handle == o.handle
                  else NextAttempt(p, d, now, s, Named(o.status, "transport-open")))
            && (d.phase == Connecting ==>
                  if o.status.WouldBlock? then s.1 == WaitWrite(d.handle, d.attemptDeadline) && s.0.phase == Connecting
                  else if o.status.IoOk? then s.1 == Progress && s.0.phase == Sending
                  else NextAttempt(p, d, now, s, Named(o.status, "transport-connect")))
            && (d.phase == Sending ==>
                  if o.status.WouldBlock? then
                    s.1 == WaitWrite(d.handle, d.attemptDeadline) && s.0.sendOffset == d.sendOffset
                  else if !o.status.IoOk? then NextAttempt(p, d, now, s, Named(o.status, "transport-send"))
                  else if !(0 < o.count <= d.sendLength - d.sendOffset)
                  then NextAttempt(p, d, now, s, "invalid-send-progress")
                  else if !d.tcp && o.count != d.sendLength - d.sendOffset
                  then NextAttempt(p, d, now, s, "short-udp-send")
                  else
                    && s.1 == Progress && s.0.sendOffset == d.sendOffset + o.count
                    && (s.0.phase == Receiving <==> s.0.sendOffset == d.sendLength))
  {
    hide Held, InRotation, Rotation, NextAttempt, Retried;
    RetriedNext(p, d, Named(o.status, "transport-open"), now);
    forall error ensures NextAttempt(p, d, now, Retried(p, UsedHandle(d), error, now), error) {
      RetriedNext(p, UsedHandle(d), error, now);
      SameAttempt(p, d, UsedHandle(d), now, Retried(p, UsedHandle(d), error, now), error);
    }
  }

  lemma SameAttempt(p: Plan, d: Driver, e: Driver, now: int, s: (Driver, Reply), reason: string)
    requires NextAttempt(p, e, now, s, reason) && e.attempt == d.attempt && e.fellBack == d.fellBack
    ensures NextAttempt(p, d, now, s, reason)
  {
  }

  /** A reply the lookup cannot use: ignored over UDP while there are few of them, unless the
      server refused; otherwise it costs the attempt. */
  predicate Unusable(p: Plan, d: Driver, now: int, s: (Driver, Reply), code: string) {
    if d.tcp || (|code| >= 6 && code[..6] == "rcode-") || d.invalid + 1 >= p.config.maxInvalid
    then NextAttempt(p, d, now, s, code)
    else s.1 == Ignored(code) && s.0 == UsedHandle(d).(invalid := d.invalid + 1)
  }

  lemma InvalidatedUnusable(p: Plan, d: Driver, e: Driver, code: string, now: int)
    requires ValidConfig(p.config) && p.config.servers > 0 && !d.done && !e.done
    requires if !d.tcp then e == UsedHandle(d)
             else e.attempt == d.attempt && e.fellBack == d.fellBack && e.invalid == d.invalid
    ensures Unusable(p, d, now, Invalidated(p, e, code, now, d.tcp), code)
  {
    hide Rotation, NextAttempt, Retried;
    var next := e.(invalid := e.invalid + 1);
    RetriedNext(p, next, code, now);
    SameAttempt(p, d, next, now, Retried(p, next, code, now), code);
  }

  /** Datagrams that do not settle the lookup. */
  lemma DatagramOutcomes(p: Plan, d: Driver, now: int, o: Observation)
    requires Valid(p, d) && Orderly(p, d) && InTime(p, d, now) && d.phase == Receiving && !d.tcp
    requires o.status.IoOk? && o.data != [] && |o.data| <= p.config.maxUdp
    ensures var s := Step(p, d, now, o);
            if !o.knownPeer then Unusable(p, d, now, s, "server-mismatch")
            else if o.judgement.Unparsable? then Unusable(p, d, now, s, o.judgement.code)
            else if AsksForTcp(d, o.judgement) then Fallback(p, d, now, s)
            else if o.judgement.verdict.Refused? then Unusable(p, d, now, s, o.judgement.verdict.code)
            else s.0.done
  {
    hide Held, InRotation, Rotation, Unusable, Invalidated;
    forall code ensures Unusable(p, d, now, Invalidated(p, UsedHandle(d), code, now, false), code) {
      InvalidatedUnusable(p, d, UsedHandle(d), code, now);
    }
  }

  /** The same attempt on the same server starts again over TCP, with the whole framed query. */
  predicate Fallback(p: Plan, d: Driver, now: int, s: (Driver, Reply)) {
    && s.1 == Progress && s.0.tcp && s.0.fellBack && s.0.phase == Opening && s.0.handle == -1
    && s.0.attempt == d.attempt && s.0.server == d.server && s.0.sendLength == p.queryLength + 2 && s.0.sendOffset == 0
    && s.0.buffered == [] && !s.0.done
    && s.0.attemptDeadline == SoonestOf(now + p.config.attemptTimeout, p.deadline)
  }

  /** What is read of a framed reply: kept, with one more idle interval, until it is whole. */
  lemma FrameOutcomes(p: Plan, d: Driver, now: int, o: Observation)
    requires Valid(p, d) && Orderly(p, d) && InTime(p, d, now) && d.phase == Receiving && d.tcp
    requires o.status.IoOk? && o.data != [] && |o.data| <= p.config.maxTcp
    ensures var s, buffered := Step(p, d, now, o), d.buffered + o.data;
            if o.peerGiven && !o.knownPeer then Unusable(p, d, now, s, "server-mismatch")
            else if |buffered| > p.config.maxTcp + 2 then NextAttempt(p, d, now, s, "response-too-large")
            else if |buffered| >= 2 && !(0 < Announced(buffered) <= p.config.maxTcp)
            then NextAttempt(p, d, now, s, "bad-tcp-frame-length")
            else if |buffered| < 2 || |buffered| < Announced(buffered) + 2 then
              && s.1 == Progress && s.0.buffered == buffered && s.0.phase == Receiving && s.0.handle == d.handle
              && s.0.attemptDeadline ==
                 (if now + p.config.attemptTimeout <= p.deadline then now + p.config.attemptTimeout else p.deadline)
            else if o.judgement.Unparsable? then Unusable(p, d, now, s, o.judgement.code)
            else if !AsksForTcp(d, o.judgement) && o.judgement.verdict.Refused?
            then Unusable(p, d, now, s, o.judgement.verdict.code)
            else s.0.done
  {
    hide Held, InRotation, Rotation, NextAttempt, Unusable, Retried, Invalidated, FrameLength, Announced;
    var used, buffered := UsedHandle(d), d.buffered + o.data;
    forall e: Driver, error | !e.done && e.attempt == d.attempt && e.fellBack == d.fellBack
      ensures NextAttempt(p, d, now, Retried(p, e, error, now), error)
    {
      RetriedNext(p, e, error, now);
      SameAttempt(p, d, e, now, Retried(p, e, error, now), error);
    }
    forall e: Driver, code | !e.done && e.attempt == d.attempt && e.fellBack == d.fellBack && e.invalid == d.invalid
      ensures Unusable(p, d, now, Invalidated(p, e, code, now, true), code)
    {
      InvalidatedUnusable(p, d, e, code, now);
    }
    if |buffered| >= 2 {
      FrameBegins(d.buffered, o.data);
    }
  }

  /** Other observations while a reply is awaited. */
  lemma AwaitingOutcomes(p: Plan, d: Driver, now: int, o: Observation)
    requires Valid(p, d) && InTime(p, d, now) && d.phase == Receiving
    ensures var s := Step(p, d, now, o);
            match o.status
            case WouldBlock => s.1 == WaitRead(d.handle, d.attemptDeadline) && s.0 == UsedHandle(d)
            case Eof => NextAttempt(p, d, now, s, "unexpected-eof")
            case IoError(_) => NextAttempt(p, d, now, s, Named(o.status, "transport-receive"))
            case IoOk =>
              && (o.data == [] ==> NextAttempt(p, d, now, s, "empty-response"))
              && (|o.data| > (if d.tcp then p.config.maxTcp else p.config.maxUdp) ==>
                    NextAttempt(p, d, now, s, "response-too-large"))
  {
    hide Held, InRotation, Rotation, NextAttempt, Retried, StepStream, StepDatagram;
    forall error ensures NextAttempt(p, d, now, Retried(p, UsedHandle(d), error, now), error) {
      RetriedNext(p, UsedHandle(d), error, now);
      SameAttempt(p, d, UsedHandle(d), now, Retried(p, UsedHandle(d), error, now), error);
    }
  }
}
