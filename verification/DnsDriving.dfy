/** The resolver driver as a state machine: one nonblocking observation of the transport at a
    time, over attempts that rotate through the servers, with one fallback to TCP. */
module DnsDriving {
  import opened Octets

  // ---------------------------------------------------------------- what the driver sees and says

  datatype Config = Config(servers: nat, attemptsPerServer: nat, attemptTimeout: nat, maxInvalid: nat, maxUdp: nat,
    maxTcp: nat, useTcp: bool)

  predicate ValidConfig(c: Config) {
    c.attemptsPerServer > 0 && c.attemptTimeout > 0 && c.maxInvalid > 0 && c.maxUdp >= 512 && 512 <= c.maxTcp <= 65535
  }

  /** What never changes while one name is resolved. */
  datatype Plan = Plan(config: Config, queryLength: nat, deadline: int, startServer: nat)

  datatype Status = IoOk | WouldBlock | Eof | IoError(reason: string)

  /** How the operation judges a payload: an error code, or a parsed response that may be
      marked truncated and is otherwise an answer or a refusal. */
  datatype Judgement =
    | Unparsable(code: string)
    | Parsed(truncated: bool, verdict: Verdict)

  datatype Verdict = Answered(values: seq<bytes>, error: string) | Refused(code: string)

  /** One observation of the transport; which parts matter depends on the phase. */
  datatype Observation = Observation(
    status: Status, handle: int, count: int, data: bytes, knownPeer: bool, peerGiven: bool, judgement: Judgement)

  datatype Reply =
    | Retrying(reason: string)
    | Progress
    | WaitRead(handle: int, until: int)
    | WaitWrite(handle: int, until: int)
    | Ignored(reason: string)
    | Failed(error: string)
    | Resolved(values: seq<bytes>)
    | NotCalled

  predicate Waiting(r: Reply) {
    r.WaitRead? || r.WaitWrite?
  }

  /** Calls made on the transport, in order. */
  datatype Call = Opened(handle: int, attempt: nat, server: nat, tcp: bool) | Used(handle: int) | Closed(handle: int)

  datatype Phase = Opening | Connecting | Sending | Receiving

  datatype Driver = Driver(
    attempt: nat, attemptDeadline: int, server: nat, tcp: bool, handle: int, phase: Phase,
    sendLength: nat, sendOffset: nat, buffered: bytes, expected: int, invalid: nat,
    done: bool, values: seq<bytes>, error: string, cancelled: bool, fellBack: bool, calls: seq<Call>)

  // ---------------------------------------------------------------- the transitions

  function MaxAttempts(p: Plan): nat {
    p.config.servers * p.config.attemptsPerServer
  }

  /** The server of an attempt: each in turn, `attemptsPerServer` times. */
  function Rotation(p: Plan, attempt: nat): nat
    requires p.config.servers > 0 && p.config.attemptsPerServer > 0
  {
    (p.startServer + attempt / p.config.attemptsPerServer) % p.config.servers
  }

  function Least(a: int, b: int): int {
    if a <= b then a else b
  }

  function AttemptUntil(p: Plan, now: int): int {
    Least(now + p.config.attemptTimeout, p.deadline)
  }

  function FramedLength(p: Plan, tcp: bool): nat {
    if tcp then p.queryLength + 2 else p.queryLength
  }

  function Selected(p: Plan, d: Driver, now: int): Driver
    requires p.config.servers > 0 && p.config.attemptsPerServer > 0
  {
    d.(server := Rotation(p, d.attempt), attemptDeadline := AttemptUntil(p, now), tcp := p.config.useTcp,
       phase := Opening, handle := -1, sendLength := FramedLength(p, p.config.useTcp), sendOffset := 0,
       buffered := [], expected := -1, invalid := 0)
  }

  function WithoutHandle(d: Driver): Driver {
    if d.handle == -1 then d else d.(handle := -1, calls := d.calls + [Closed(d.handle)])
  }

  /** `_terminal(error)`. */
  function Concluded(d: Driver, error: string): (Driver, Reply) {
    var e := if error != "" then error else d.error;
    (WithoutHandle(d).(done := true, error := e), if e != "" then Failed(e) else Resolved(d.values))
  }

  /** `_retry(error, now)`. */
  function Retried(p: Plan, d: Driver, error: string, now: int): (Driver, Reply)
    requires p.config.attemptsPerServer > 0
  {
    var next := WithoutHandle(d).(attempt := d.attempt + 1);
    if now >= p.deadline then Concluded(next, "timeout")
    else if next.attempt >= MaxAttempts(p) || p.config.servers == 0 then Concluded(next, "retry-exhausted:" + error)
    else (Selected(p, next, now), Retrying(error))
  }

  function StartsWith(s: string, prefix: string): bool {
    |prefix| <= |s| && s[..|prefix|] == prefix
  }

  /** `_invalid(error, now, tcp)`. */
  function Invalidated(p: Plan, d: Driver, code: string, now: int, tcp: bool): (Driver, Reply)
    requires p.config.attemptsPerServer > 0
  {
    var next := d.(invalid := d.invalid + 1);
    if tcp || StartsWith(code, "rcode-") || next.invalid >= p.config.maxInvalid then Retried(p, next, code, now)
    else (next, Ignored(code))
  }

  function SwitchedToTcp(p: Plan, d: Driver, now: int): (Driver, Reply) {
    (WithoutHandle(d).(tcp := true, phase := Opening, sendLength := p.queryLength + 2, sendOffset := 0, buffered := [],
                       expected := -1, attemptDeadline := AttemptUntil(p, now)),
     Progress)
  }

  function UsedHandle(d: Driver): Driver {
    d.(calls := d.calls + [Used(d.handle)])
  }

  function ReasonOr(status: Status, fallback: string): string {
    if status.IoError? && status.reason != "" then status.reason else fallback
  }

  function StepOpening(p: Plan, d: Driver, now: int, o: Observation): (Driver, Reply)
    requires p.config.attemptsPerServer > 0
  {
    if !o.status.IoOk? || o.handle == -1 then Retried(p, d, ReasonOr(o.status, "transport-open"), now)
    else
      (d.(handle := o.handle, phase := Connecting, calls := d.calls + [Opened(o.handle, d.attempt, d.server, d.tcp)]),
        Progress)
  }

  function StepConnecting(p: Plan, d: Driver, now: int, o: Observation): (Driver, Reply)
    requires p.config.attemptsPerServer > 0
  {
    var used := UsedHandle(d);
    match o.status
    case WouldBlock => (used, WaitWrite(d.handle, d.attemptDeadline))
    case IoOk => (used.(phase := Sending), Progress)
    case _ => Retried(p, used, ReasonOr(o.status, "transport-connect"), now)
  }

  function StepSending(p: Plan, d: Driver, now: int, o: Observation): (Driver, Reply)
    requires p.config.attemptsPerServer > 0
  {
    var used := UsedHandle(d);
    match o.status
    case WouldBlock => (used, WaitWrite(d.handle, d.attemptDeadline))
    case IoOk =>
      var remaining := d.sendLength - d.sendOffset;
      if o.count <= 0 || o.count > remaining then Retried(p, used, "invalid-send-progress", now)
      else if !d.tcp && o.count != remaining then Retried(p, used, "short-udp-send", now)
      else
        var sent := d.sendOffset + o.count;
        (used.(sendOffset := sent, phase := if sent == d.sendLength then Receiving else Sending), Progress)
    case _ => Retried(p, used, ReasonOr(o.status, "transport-send"), now)
  }

  function ReceiveLimit(p: Plan, tcp: bool): nat {
    if tcp then p.config.maxTcp else p.config.maxUdp
  }

  function StepReceiving(p: Plan, d: Driver, now: int, o: Observation): (Driver, Reply)
    requires p.config.attemptsPerServer > 0
  {
    var used := UsedHandle(d);
    match o.status
    case WouldBlock => (used, WaitRead(d.handle, d.attemptDeadline))
    case Eof => Retried(p, used, "unexpected-eof", now)
    case IoError(_) => Retried(p, used, ReasonOr(o.status, "transport-receive"), now)
    case IoOk =>
      if o.data == [] then Retried(p, used, "empty-response", now)
      else if |o.data| > ReceiveLimit(p, d.tcp) then Retried(p, used, "response-too-large", now)
      else if d.tcp then StepStream(p, used, now, o)
      else StepDatagram(p, used, now, o)
  }

  /** `operation.receive(payload)`: the operation's new fallback flag, and its judgement. */
  function Finished(d: Driver, verdict: Verdict): Driver {
    if verdict.Answered? then d.(values := verdict.values, error := verdict.error) else d
  }

  function StepDatagram(p: Plan, d: Driver, now: int, o: Observation): (Driver, Reply)
    requires p.config.attemptsPerServer > 0
  {
    if !o.knownPeer then Invalidated(p, d, "server-mismatch", now, false)
    else
      match o.judgement
      case Unparsable(code) => Invalidated(p, d, code, now, false)
      case Parsed(truncated, verdict) =>
        if truncated && !d.fellBack then SwitchedToTcp(p, d.(fellBack := true), now)
        else
          match verdict
          case Refused(code) => Invalidated(p, d, code, now, false)
          case Answered(_, _) => Concluded(Finished(d, verdict), "")
  }

  function FrameLength(buffered: bytes): nat
    requires |buffered| >= 2
  {
    var high: int := buffered[0];
    high * 256 + buffered[1]
  }

  /** A whole framed reply, as the operation judges it. */
  function JudgedFrame(p: Plan, d: Driver, now: int, o: Observation): (Driver, Reply)
    requires p.config.attemptsPerServer > 0
  {
    match o.judgement
    case Unparsable(code) => Invalidated(p, d, code, now, true)
    case Parsed(truncated, verdict) =>
      if truncated && !d.fellBack then Concluded(d.(fellBack := true), "")
      else
        match verdict
        case Refused(code) => Invalidated(p, d, code, now, true)
        case Answered(_, _) => Concluded(Finished(d, verdict), "")
  }

  function StepStream(p: Plan, d: Driver, now: int, o: Observation): (Driver, Reply)
    requires p.config.attemptsPerServer > 0
  {
    if o.peerGiven && !o.knownPeer then Invalidated(p, d, "server-mismatch", now, true)
    else
      var buffered := d.buffered + o.data;
      var known := d.expected < 0 && |buffered| >= 2;
      var expected := if known then FrameLength(buffered) else d.expected;
      var grown := d.(buffered := buffered, expected := expected);
      if |buffered| > p.config.maxTcp + 2 then Retried(p, d.(buffered := buffered), "response-too-large", now)
      else if known && (expected <= 0 || expected > p.config.maxTcp) then Retried(p, grown, "bad-tcp-frame-length", now)
      else if expected < 0 || |buffered| < expected + 2 then (grown.(attemptDeadline := AttemptUntil(p, now)), Progress)
      else
        JudgedFrame(p, grown, now, o)
  }

  /** `step(now)`. */
  function Step(p: Plan, d: Driver, now: int, o: Observation): (Driver, Reply)
    requires p.config.attemptsPerServer > 0
  {
    if d.done then (d, if d.error != "" then Failed(d.error) else Resolved(d.values))
    else if d.cancelled then Concluded(d, "cancelled")
    else if now >= p.deadline then Concluded(d, "timeout")
    else if now >= d.attemptDeadline then Retried(p, d, "attempt-timeout", now)
    else
      match d.phase
      case Opening => StepOpening(p, d, now, o)
      case Connecting => StepConnecting(p, d, now, o)
      case Sending => StepSending(p, d, now, o)
      case Receiving => StepReceiving(p, d, now, o)
  }

  function Blank(p: Plan, now: int): Driver {
    Driver(0, now, 0, p.config.useTcp, -1, Opening, FramedLength(p, p.config.useTcp), 0, [], -1, 0, false, [], "",
      false, false, [])
  }

  /** The driver of a lookup nothing else answered. */
  function Start(p: Plan, now: int): Driver
    requires p.config.attemptsPerServer > 0
  {
    if MaxAttempts(p) == 0 || p.config.servers == 0 then Blank(p, now).(done := true, error := "no-dns-servers")
    else Selected(p, Blank(p, now), now)
  }

  // ---------------------------------------------------------------- handles

  /** The handle held after some calls: -1 for none, and none at all if a call is on a handle
      not held or an open comes while one is held. */
  function Held(calls: seq<Call>): Option<int> {
    if calls == [] then Some(-1)
    else
      var before := Held(calls[..|calls| - 1]);
      match calls[|calls| - 1]
      case Opened(h, _, _, _) => if before == Some(-1) && h != -1 then Some(h) else None
      case Used(h) => if before == Some(h) && h != -1 then Some(h) else None
      case Closed(h) => if before == Some(h) && h != -1 then Some(-1) else None
  }

  lemma HeldMore(calls: seq<Call>, call: Call)
    ensures Held(calls + [call]) ==
            match call
            case Opened(h, _, _, _) => (if Held(calls) == Some(-1) && h != -1 then Some(h) else None)
            case Used(h) => (if Held(calls) == Some(h) && h != -1 then Some(h) else None)
            case Closed(h) => if Held(calls) == Some(h) && h != -1 then Some(-1) else None
  {
    assert (calls + [call])[..|calls|] == calls;
  }

  /** Every open was on the server the rotation gives for its attempt. */
  predicate InRotation(p: Plan, calls: seq<Call>) {
    p.config.servers > 0 && p.config.attemptsPerServer > 0 ==>
      forall i :: 0 <= i < |calls| && calls[i].Opened? ==>
        calls[i].server == Rotation(p, calls[i].attempt) && calls[i].attempt < MaxAttempts(p)
  }

  // ---------------------------------------------------------------- the measure

  const SLACK := 3

  function Ranks(p: Plan): nat {
    p.config.maxInvalid + p.config.maxTcp + SLACK
  }

  function Stages(p: Plan): nat {
    Ranks(p) + p.queryLength + 2 + SLACK
  }

  /** What is left of one attempt over one protocol. */
  function Stage(p: Plan, d: Driver): int {
    match d.phase
    case Opening => Stages(p) - 1
    case Connecting => Stages(p) - 2
    case Sending => Ranks(p) + d.sendLength - d.sendOffset
    case Receiving => if d.tcp then p.config.maxTcp + SLACK - |d.buffered| else p.config.maxInvalid - d.invalid
  }

  /** A bound on the calls that do not wait before the driver is done. */
  function Measure(p: Plan, d: Driver): int {
    if d.done then 0
    else ((MaxAttempts(p) - d.attempt) * 2 + (if d.fellBack then 0 else 1)) * Stages(p) + Stage(p, d)
  }

  predicate Valid(p: Plan, d: Driver) {
    && ValidConfig(p.config) && InRotation(p, d.calls)
    && Held(d.calls) == Some(if d.done then -1 else d.handle)
    && (!d.done ==>
          && p.config.servers > 0 && d.attempt < MaxAttempts(p) && d.server == Rotation(p, d.attempt)
          && d.attemptDeadline <= p.deadline
          && (d.handle == -1 <==> d.phase == Opening)
          && d.sendOffset <= d.sendLength <= p.queryLength + 2
          && d.invalid < p.config.maxInvalid && |d.buffered| <= p.config.maxTcp + 2 && d.error == "")
  }

  // ---------------------------------------------------------------- every step keeps the invariant

  /** A driver in the middle of an attempt, between two calls on the transport. */
  predicate Busy(p: Plan, d: Driver) {
    && ValidConfig(p.config) && InRotation(p, d.calls) && Held(d.calls) == Some(d.handle) && !d.done
    && p.config.servers > 0 && d.attempt < MaxAttempts(p) && d.error == ""
  }

  /** A whole attempt is worth more than any stage of the next. */
  lemma Product(k: nat, f: nat, g: nat, size: nat, low: int)
    requires g <= f && 0 <= low < size
    ensures (k * 2 + g) * size + low < ((k + 1) * 2 + f) * size
  {
    Monotone(k * 2 + g, k * 2 + f, size);
    assert ((k + 1) * 2 + f) * size == (k * 2 + f) * size + 2 * size;
  }

  lemma Monotone(a: nat, b: nat, size: nat)
    requires a <= b
    ensures a * size <= b * size
  {
    assert (b - a) * size >= 0;
    assert b * size == a * size + (b - a) * size;
  }

  lemma StageRange(p: Plan, d: Driver)
    requires Valid(p, d) && !d.done
    ensures 0 < Stage(p, d) < Stages(p)
  {
  }

  lemma MeasurePositive(p: Plan, d: Driver)
    requires Valid(p, d)
    ensures Measure(p, d) >= 0 && (!d.done ==> Measure(p, d) > 0)
  {
    if !d.done {
      StageRange(p, d);
      Monotone(0, (MaxAttempts(p) - d.attempt) * 2 + (if d.fellBack then 0 else 1), Stages(p));
    }
  }

  lemma Released(p: Plan, d: Driver)
    requires Held(d.calls) == Some(d.handle) && InRotation(p, d.calls)
    ensures Held(WithoutHandle(d).calls) == Some(-1) && InRotation(p, WithoutHandle(d).calls)
  {
    hide Rotation;
    if d.handle != -1 {
      HeldMore(d.calls, Closed(d.handle));
    }
  }

  lemma ConcludedGood(p: Plan, d: Driver, error: string)
    requires ValidConfig(p.config) && Held(d.calls) == Some(d.handle) && InRotation(p, d.calls)
    ensures Valid(p, Concluded(d, error).0) && Concluded(d, error).0.done
  {
    Released(p, d);
  }

  /** Giving up an attempt: the handle is closed and what is left shrinks by an attempt. */
  lemma RetriedGood(p: Plan, d: Driver, error: string, now: int)
    requires Busy(p, d)
    ensures Valid(p, Retried(p, d, error, now).0) && !Waiting(Retried(p, d, error, now).1)
    ensures Measure(p, Retried(p, d, error, now).0)
            < ((MaxAttempts(p) - d.attempt) * 2 + (if d.fellBack then 0 else 1)) * Stages(p)
  {
    hide Held, InRotation, Rotation;
    Released(p, d);
    var next := WithoutHandle(d).(attempt := d.attempt + 1);
    var k := MaxAttempts(p) - d.attempt - 1;
    var f := if d.fellBack then 0 else 1;
    Product(k, f, f, Stages(p), Stages(p) - 1);
    if now >= p.deadline {
      ConcludedGood(p, next, "timeout");
    } else if next.attempt >= MaxAttempts(p) {
      ConcludedGood(p, next, "retry-exhausted:" + error);
    }
    Monotone(1, (k + 1) * 2 + (if d.fellBack then 0 else 1), Stages(p));
  }

  lemma InvalidatedGood(p: Plan, d: Driver, code: string, now: int, tcp: bool)
    requires Busy(p, d) && Valid(p, d) && d.phase == Receiving && d.tcp == tcp
    ensures Valid(p, Invalidated(p, d, code, now, tcp).0) && !Waiting(Invalidated(p, d, code, now, tcp).1)
    ensures Measure(p, Invalidated(p, d, code, now, tcp).0) < Measure(p, d)
  {
    hide Held, InRotation, Rotation, Retried, StartsWith;
    var next := d.(invalid := d.invalid + 1);
    RetriedGood(p, next, code, now);
    StageRange(p, d);
  }

  lemma SwitchedGood(p: Plan, d: Driver, now: int)
    requires Busy(p, d) && Valid(p, d) && !d.fellBack
    ensures var e := SwitchedToTcp(p, d.(fellBack := true), now).0; Valid(p, e) && Measure(p, e) < Measure(p, d)
  {
    hide Held, InRotation, Rotation;
    Released(p, d);
    StageRange(p, d);
    var k := (MaxAttempts(p) - d.attempt) * 2;
    assert (k + 1) * Stages(p) == k * Stages(p) + Stages(p);
  }

  lemma UsedGood(p: Plan, d: Driver)
    requires Valid(p, d) && !d.done && d.phase != Opening
    ensures Busy(p, UsedHandle(d)) && Valid(p, UsedHandle(d)) && Measure(p, UsedHandle(d)) == Measure(p, d)
  {
    hide Rotation;
    HeldMore(d.calls, Used(d.handle));
  }

  /** What a step must establish. */
  predicate Kept(p: Plan, d: Driver, r: (Driver, Reply)) {
    && Valid(p, r.0)
    && (if Waiting(r.1) then Measure(p, r.0) == Measure(p, d) else Measure(p, r.0) < Measure(p, d))
  }

  lemma OpeningKept(p: Plan, d: Driver, now: int, o: Observation)
    requires Valid(p, d) && !d.done && d.phase == Opening
    ensures Kept(p, d, StepOpening(p, d, now, o))
  {
    hide Rotation, Retried, Measure, ReasonOr;
    if !o.status.IoOk? || o.handle == -1 {
      RetriedGood(p, d, ReasonOr(o.status, "transport-open"), now);
      LessThanAttempt(p, d);
    } else {
      HeldMore(d.calls, Opened(o.handle, d.attempt, d.server, d.tcp));
      StageLess(p, d, StepOpening(p, d, now, o).0);
    }
  }

  lemma LessThanAttempt(p: Plan, d: Driver)
    requires Valid(p, d) && !d.done
    ensures ((MaxAttempts(p) - d.attempt) * 2 + (if d.fellBack then 0 else 1)) * Stages(p) <= Measure(p, d)
  {
    StageRange(p, d);
  }

  lemma StageLess(p: Plan, d: Driver, e: Driver)
    requires !d.done && !e.done && e.attempt == d.attempt && e.fellBack == d.fellBack && Stage(p, e) < Stage(p, d)
    ensures Measure(p, e) < Measure(p, d)
  {
  }

  lemma ConnectingKept(p: Plan, d: Driver, now: int, o: Observation)
    requires Valid(p, d) && !d.done && d.phase == Connecting
    ensures Kept(p, d, StepConnecting(p, d, now, o))
  {
    hide Rotation, Retried, Measure, ReasonOr, Held, InRotation;
    UsedGood(p, d);
    var used := UsedHandle(d);
    match o.status
    case WouldBlock =>
    case IoOk => StageLess(p, used, used.(phase := Sending));
    case _ =>
      RetriedGood(p, used, ReasonOr(o.status, "transport-connect"), now);
      LessThanAttempt(p, used);
  }

  lemma SendingKept(p: Plan, d: Driver, now: int, o: Observation)
    requires Valid(p, d) && !d.done && d.phase == Sending
    ensures Kept(p, d, StepSending(p, d, now, o))
  {
    hide Rotation, Retried, Measure, ReasonOr, Held, InRotation;
    UsedGood(p, d);
    var used := UsedHandle(d);
    LessThanAttempt(p, used);
    match o.status
    case WouldBlock =>
    case IoOk =>
      RetriedGood(p, used, "invalid-send-progress", now);
      RetriedGood(p, used, "short-udp-send", now);
      var r := StepSending(p, d, now, o);
      var remaining := d.sendLength - d.sendOffset;
      if 0 < o.count <= remaining && (d.tcp || o.count == remaining) {
        StageLess(p, used, r.0);
      }
    case _ => RetriedGood(p, used, ReasonOr(o.status, "transport-send"), now);
  }

  lemma ConcludedKept(p: Plan, d: Driver, e: Driver, error: string)
    requires Valid(p, d) && !d.done && Held(e.calls) == Some(e.handle) && InRotation(p, e.calls)
    ensures Kept(p, d, Concluded(e, error))
  {
    hide Held, InRotation, Rotation, Measure;
    ConcludedGood(p, e, error);
    MeasurePositive(p, d);
    DoneMeasure(p, Concluded(e, error).0);
  }

  lemma DoneMeasure(p: Plan, d: Driver)
    requires d.done
    ensures Measure(p, d) == 0
  {
  }

  lemma DatagramKept(p: Plan, d: Driver, now: int, o: Observation)
    requires Busy(p, d) && Valid(p, d) && d.phase == Receiving && !d.tcp
    ensures Kept(p, d, StepDatagram(p, d, now, o))
  {
    hide Held, InRotation, Rotation, Measure, Invalidated, Concluded;
    InvalidatedGood(p, d, "server-mismatch", now, false);
    match o.judgement
    case Unparsable(code) => InvalidatedGood(p, d, code, now, false);
    case Parsed(truncated, verdict) =>
      if truncated && !d.fellBack {
        SwitchedGood(p, d, now);
      }
      match verdict
      case Refused(code) => InvalidatedGood(p, d, code, now, false);
      case Answered(_, _) => ConcludedKept(p, d, Finished(d, verdict), "");
  }

  lemma StreamKept(p: Plan, d: Driver, now: int, o: Observation)
    requires Busy(p, d) && Valid(p, d) && d.phase == Receiving && d.tcp && o.data != []
    ensures Kept(p, d, StepStream(p, d, now, o))
  {
    hide Held, InRotation, Rotation, Measure, Invalidated, Concluded, Retried, FrameLength;
    InvalidatedGood(p, d, "server-mismatch", now, true);
    LessThanAttempt(p, d);
    var buffered := d.buffered + o.data;
    var known := d.expected < 0 && |buffered| >= 2;
    var expected := if known then FrameLength(buffered) else d.expected;
    var grown := d.(buffered := buffered, expected := expected);
    RetriedGood(p, d.(buffered := buffered), "response-too-large", now);
    RetriedGood(p, grown, "bad-tcp-frame-length", now);
    if |buffered| <= p.config.maxTcp + 2 {
      StageLess(p, d, grown);
      StageLess(p, d, grown.(attemptDeadline := AttemptUntil(p, now)));
      match o.judgement
      case Unparsable(code) => InvalidatedGood(p, grown, code, now, true);
      case Parsed(truncated, verdict) =>
        ConcludedKept(p, d, grown.(fellBack := true), "");
        match verdict
        case Refused(code) => InvalidatedGood(p, grown, code, now, true);
        case Answered(_, _) => ConcludedKept(p, d, Finished(grown, verdict), "");
    }
  }

  lemma ReceivingKept(p: Plan, d: Driver, now: int, o: Observation)
    requires Valid(p, d) && !d.done && d.phase == Receiving
    ensures Kept(p, d, StepReceiving(p, d, now, o))
  {
    hide Rotation, Retried, Measure, ReasonOr, Held, InRotation, StepStream, StepDatagram;
    UsedGood(p, d);
    var used := UsedHandle(d);
    LessThanAttempt(p, used);
    RetriedGood(p, used, "unexpected-eof", now);
    RetriedGood(p, used, ReasonOr(o.status, "transport-receive"), now);
    RetriedGood(p, used, "empty-response", now);
    RetriedGood(p, used, "response-too-large", now);
    if o.data != [] {
      if d.tcp {
        StreamKept(p, used, now, o);
      } else {
        DatagramKept(p, used, now, o);
      }
    }
  }

  /** Every step of a driver that is not done keeps the invariant and, unless it waits, makes
      the measure smaller. */
  lemma StepKept(p: Plan, d: Driver, now: int, o: Observation)
    requires Valid(p, d)
    ensures Valid(p, Step(p, d, now, o).0)
    ensures d.done ==> Step(p, d, now, o).0 == d && !Waiting(Step(p, d, now, o).1)
    ensures !d.done ==> Kept(p, d, Step(p, d, now, o))
  {
    hide Rotation, Retried, Measure, Held, InRotation, StepOpening, StepConnecting, StepSending, StepReceiving,
         Concluded;
    if !d.done {
      LessThanAttempt(p, d);
      ConcludedKept(p, d, d, "cancelled");
      ConcludedKept(p, d, d, "timeout");
      RetriedGood(p, d, "attempt-timeout", now);
      match d.phase
      case Opening => OpeningKept(p, d, now, o);
      case Connecting => ConnectingKept(p, d, now, o);
      case Sending => SendingKept(p, d, now, o);
      case Receiving => ReceivingKept(p, d, now, o);
    }
  }

  /** A wait is for a held handle, and ends after now but no later than the operation. */
  lemma WaitBounds(p: Plan, d: Driver, now: int, o: Observation)
    requires Valid(p, d) && Waiting(Step(p, d, now, o).1)
    ensures var r := Step(p, d, now, o);
            && now < r.1.until <= p.deadline && r.1.until == r.0.attemptDeadline
            && r.1.handle == r.0.handle != -1 && Held(r.0.calls) == Some(r.1.handle) && !r.0.done
  {
    hide Rotation, InRotation, ReasonOr, Held, Retried, StepReceiving, Concluded;
    StepKept(p, d, now, o);
    RetriedQuiet(p, d, "attempt-timeout", now);
    ConcludedQuiet(d, "cancelled");
    ConcludedQuiet(d, "timeout");
    RetriedQuiet(p, d, ReasonOr(o.status, "transport-open"), now);
    var used := UsedHandle(d);
    RetriedQuiet(p, used, ReasonOr(o.status, "transport-connect"), now);
    RetriedQuiet(p, used, ReasonOr(o.status, "transport-send"), now);
    RetriedQuiet(p, used, "invalid-send-progress", now);
    RetriedQuiet(p, used, "short-udp-send", now);
    ReceivingQuiet(p, d, now, o);
  }

  lemma ConcludedQuiet(d: Driver, error: string)
    ensures !Waiting(Concluded(d, error).1)
  {
  }

  lemma RetriedQuiet(p: Plan, d: Driver, error: string, now: int)
    requires p.config.attemptsPerServer > 0
    ensures !Waiting(Retried(p, d, error, now).1)
  {
  }

  lemma InvalidatedQuiet(p: Plan, d: Driver, code: string, now: int, tcp: bool)
    requires p.config.attemptsPerServer > 0
    ensures !Waiting(Invalidated(p, d, code, now, tcp).1)
  {
  }

  lemma ReceivingQuiet(p: Plan, d: Driver, now: int, o: Observation)
    requires p.config.attemptsPerServer > 0
    ensures Waiting(StepReceiving(p, d, now, o).1) ==>
              StepReceiving(p, d, now, o) == (UsedHandle(d), WaitRead(d.handle, d.attemptDeadline))
  {
    hide Retried, Invalidated, Concluded, ReasonOr, Rotation;
    forall e, error ensures !Waiting(Retried(p, e, error, now).1) {
      RetriedQuiet(p, e, error, now);
    }
    forall e, error, tcp ensures !Waiting(Invalidated(p, e, error, now, tcp).1) {
      InvalidatedQuiet(p, e, error, now, tcp);
    }
    forall e, error ensures !Waiting(Concluded(e, error).1) {
      ConcludedQuiet(e, error);
    }
  }

  // ---------------------------------------------------------------- whole runs

  /** What happens to a driver: a call with a clock reading and an observation, a call that
      cancels it, or a cancellation of its operation that does not go through the driver. */
  datatype Input = Tick(now: int, seen: Observation) | Cancel | CancelOperation

  function Apply(p: Plan, d: Driver, i: Input): (Driver, Reply)
    requires p.config.attemptsPerServer > 0
  {
    match i
    case Tick(now, seen) => Step(p, d, now, seen)
    case Cancel =>
      if d.done then (d, if d.error != "" then Failed(d.error) else Resolved(d.values))
      else Concluded(d.(cancelled := true), "cancelled")
    case CancelOperation => (if d.done then d else d.(cancelled := true), NotCalled)
  }

  lemma SameMeasure(p: Plan, d: Driver)
    ensures Measure(p, d.(cancelled := true)) == Measure(p, d)
  {
  }

  /** A cancelled operation ends the lookup at the next call, which gives the handle back. */
  lemma CancelledEnds(p: Plan, d: Driver, now: int, o: Observation)
    requires Valid(p, d) && !d.done && d.cancelled
    ensures var r := Step(p, d, now, o); r.0.done && r.1 == Failed("cancelled") && Held(r.0.calls) == Some(-1)
  {
    hide InRotation, Rotation;
    ConcludedKept(p, d, d, "cancelled");
  }

  lemma ApplyKept(p: Plan, d: Driver, i: Input)
    requires Valid(p, d)
    ensures Valid(p, Apply(p, d, i).0) && (d.done ==> Apply(p, d, i).0 == d && !Waiting(Apply(p, d, i).1))
    ensures !d.done && i != CancelOperation ==> Kept(p, d, Apply(p, d, i))
    ensures i == CancelOperation ==> Measure(p, Apply(p, d, i).0) == Measure(p, d)
  {
    hide Step, Concluded, Held, InRotation, Measure, Rotation;
    match i
    case Tick(now, seen) => StepKept(p, d, now, seen);
    case Cancel =>
      if !d.done {
        ConcludedKept(p, d, d.(cancelled := true), "cancelled");
        ConcludedQuiet(d.(cancelled := true), "cancelled");
      }
    case CancelOperation => SameMeasure(p, d);
  }

  /** The driver after a run. */
  function Run(p: Plan, d: Driver, inputs: seq<Input>): Driver
    requires p.config.attemptsPerServer > 0
    decreases |inputs|
  {
    if inputs == [] then d else Run(p, Apply(p, d, inputs[0]).0, inputs[1..])
  }

  /** The calls of the driver in a run that neither wait nor come after it is done. */
  function Busywork(p: Plan, d: Driver, inputs: seq<Input>): nat
    requires p.config.attemptsPerServer > 0
    decreases |inputs|
  {
    if inputs == [] then 0
    else
      var r := Apply(p, d, inputs[0]);
      (if d.done || Waiting(r.1) || inputs[0] == CancelOperation then 0 else 1) + Busywork(p, r.0, inputs[1..])
  }

  lemma {:induction false} RunKept(p: Plan, d: Driver, inputs: seq<Input>)
    requires Valid(p, d)
    ensures Valid(p, Run(p, d, inputs))
    ensures Busywork(p, d, inputs) + Measure(p, Run(p, d, inputs)) <= Measure(p, d)
    decreases |inputs|
  {
    hide Apply, Held, InRotation, Measure, Rotation;
    if inputs != [] {
      ApplyKept(p, d, inputs[0]);
      RunKept(p, Apply(p, d, inputs[0]).0, inputs[1..]);
    }
  }

  lemma StartValid(p: Plan, now: int)
    requires ValidConfig(p.config)
    ensures Valid(p, Start(p, now))
    ensures Measure(p, Start(p, now)) <= (MaxAttempts(p) * 2 + 1) * Stages(p) + Stages(p)
  {
    if MaxAttempts(p) > 0 && p.config.servers > 0 {
      assert p.startServer + 0 / p.config.attemptsPerServer == p.startServer;
    }
  }

  /** Resolving one name ends. However the transport behaves and whatever the clock says, a
      run makes at most this many calls that do not wait before the driver is done; every
      handle opened is closed once, at the latest when it is done; and every open goes to the
      server whose turn it is. */
  lemma RunsEnd(p: Plan, now: int, inputs: seq<Input>)
    requires ValidConfig(p.config)
    ensures var d := Run(p, Start(p, now), inputs);
            && Busywork(p, Start(p, now), inputs) <= (MaxAttempts(p) * 2 + 1) * Stages(p) + Stages(p)
            && Held(d.calls).Some? && (d.done ==> Held(d.calls) == Some(-1))
            && InRotation(p, d.calls)
  {
    hide Held, InRotation, Measure, Rotation;
    StartValid(p, now);
    RunKept(p, Start(p, now), inputs);
    MeasurePositive(p, Run(p, Start(p, now), inputs));
  }

  // ---------------------------------------------------------------- handles, once more

  function Opens(calls: seq<Call>): nat {
    if calls == [] then 0 else Opens(calls[..|calls| - 1]) + if calls[|calls| - 1].Opened? then 1 else 0
  }

  function Closes(calls: seq<Call>): nat {
    if calls == [] then 0 else Closes(calls[..|calls| - 1]) + if calls[|calls| - 1].Closed? then 1 else 0
  }

  /** Every handle but the one still held has been closed exactly once. */
  lemma {:induction false} OpenedThenClosed(calls: seq<Call>)
    requires Held(calls).Some?
    ensures Opens(calls) == Closes(calls) + if Held(calls) == Some(-1) then 0 else 1
  {
    if calls != [] {
      OpenedThenClosed(calls[..|calls| - 1]);
    }
  }

  // ---------------------------------------------------------------- rotation

  /** Attempts on the same server are exactly those of the same turn, and turn `k` goes to
      the `k`th server after the first: each server is tried `attemptsPerServer` times in a row. */
  lemma RotationOrder(p: Plan, a: nat, b: nat)
    requires ValidConfig(p.config) && a < MaxAttempts(p) && b < MaxAttempts(p)
    ensures p.config.servers > 0 && a / p.config.attemptsPerServer < p.config.servers
    ensures Rotation(p, a) == Rotation(p, b) <==> a / p.config.attemptsPerServer == b / p.config.attemptsPerServer
  {
    var n, each := p.config.servers, p.config.attemptsPerServer;
    TurnBound(n, each, a);
    TurnBound(n, each, b);
    SameRemainder(p.startServer, a / each, b / each, n);
  }

  lemma TurnBound(n: nat, each: nat, a: nat)
    requires each > 0 && a < n * each
    ensures n > 0 && a / each < n
  {
    if a / each >= n {
      Monotone(n, a / each, each);
    }
  }

  lemma SameRemainder(start: nat, x: nat, y: nat, n: nat)
    requires x < n && y < n
    ensures (start + x) % n == (start + y) % n <==> x == y
  {
    var qx, qy := (start + x) / n, (start + y) / n;
    if (start + x) % n == (start + y) % n {
      assert start + x == qx * n + (start + x) % n && start + y == qy * n + (start + y) % n;
      assert x - y == (qx - qy) * n;
      NoMultipleBetween(qx - qy, n, x - y);
    }
  }

  lemma NoMultipleBetween(q: int, n: nat, gap: int)
    requires gap == q * n && gap < n && -gap < n
    ensures gap == 0
  {
    assert q * n == -((-q) * n);
    if q > 0 {
      Monotone(1, q, n);
    } else if q < 0 {
      Monotone(1, -q, n);
    }
  }
}
