/** The resolver driver as an object over a transport, refined to the state machine. */
module DnsDrivers {
  import opened Octets
  import opened DnsDriving

  class DnsResolveDriver {
    const plan: Plan
    var attempt: nat
    var attemptDeadline: int
    var server: nat
    var tcp: bool
    var handle: int
    var phase: Phase
    var sendLength: nat
    var sendOffset: nat
    var buffered: bytes
    var expected: int
    var invalid: nat
    var done: bool
    var values: seq<bytes>
    var error: string
    var cancelled: bool
    var fellBack: bool
    ghost var calls: seq<Call>

    ghost function View(): Driver
      reads this
    {
      Driver(attempt, attemptDeadline, server, tcp, handle, phase, sendLength, sendOffset, buffered, expected, invalid,
             done, values, error, cancelled, fellBack, calls)
    }

    ghost predicate Running()
      reads this
    {
      Valid(plan, View())
    }

    constructor (plan: Plan, now: int)
      requires ValidConfig(plan.config)
      ensures this.plan == plan && View() == Start(plan, now) && Running()
    {
      StartValid(plan, now);
      this.plan := plan;
      attempt, attemptDeadline, server, tcp, handle := 0, now, 0, plan.config.useTcp, -1;
      phase, sendLength, sendOffset := Opening, FramedLength(plan, plan.config.useTcp), 0;
      buffered, expected, invalid := [], -1, 0;
      done, values, error, cancelled, fellBack, calls := false, [], "", false, false, [];
      new;
      if MaxAttempts(plan) == 0 || plan.config.servers == 0 {
        done := true;
        error := "no-dns-servers";
      } else {
        SelectAttempt(now);
      }
    }

    method SelectAttempt(now: int)
      requires plan.config.servers > 0 && plan.config.attemptsPerServer > 0
      modifies this
      ensures View() == Selected(plan, old(View()), now)
    {
      hide Rotation, AttemptUntil, FramedLength;
      var next, until := Rotation(plan, attempt), AttemptUntil(plan, now);
      var length := FramedLength(plan, plan.config.useTcp);
      server, attemptDeadline, tcp, phase, handle, sendLength, sendOffset, buffered, expected, invalid :=
        next, until, plan.config.useTcp, Opening, -1, length, 0, [], -1, 0;
    }

    method CloseHandle()
      modifies this`handle, this`calls
      ensures View() == WithoutHandle(old(View()))
    {
      if handle != -1 {
        calls := calls + [Closed(handle)];
        handle := -1;
      }
    }

    method Terminate(reason: string) returns (r: Reply)
      modifies this`handle, this`calls, this`done, this`error
      ensures (View(), r) == Concluded(old(View()), reason)
    {
      CloseHandle();
      done := true;
      if reason != "" {
        error := reason;
      }
      if error != "" {
        return Failed(error);
      }
      return Resolved(values);
    }

    method Retry(reason: string, now: int) returns (r: Reply)
      requires plan.config.attemptsPerServer > 0
      modifies this
      ensures (View(), r) == Retried(plan, old(View()), reason, now)
    {
      hide Selected, Concluded, WithoutHandle;
      CloseHandle();
      attempt := attempt + 1;
      HandleOnly(old(View()));
      if now >= plan.deadline {
        r := Terminate("timeout");
        return;
      }
      if attempt >= MaxAttempts(plan) || plan.config.servers == 0 {
        r := Terminate("retry-exhausted:" + reason);
        return;
      }
      SelectAttempt(now);
      return Retrying(reason);
    }

    lemma HandleOnly(d: Driver)
      ensures WithoutHandle(d) == d.(handle := WithoutHandle(d).handle, calls := WithoutHandle(d).calls)
    {
    }

    method Invalidate(code: string, now: int, overTcp: bool) returns (r: Reply)
      requires plan.config.attemptsPerServer > 0
      modifies this
      ensures (View(), r) == Invalidated(plan, old(View()), code, now, overTcp)
    {
      hide Retried;
      invalid := invalid + 1;
      if overTcp || StartsWith(code, "rcode-") || invalid >= plan.config.maxInvalid {
        r := Retry(code, now);
        return;
      }
      return Ignored(code);
    }

    method SwitchToTcp(now: int) returns (r: Reply)
      modifies this
      ensures (View(), r) == SwitchedToTcp(plan, old(View()), now)
    {
      hide AttemptUntil;
      CloseHandle();
      tcp, phase := true, Opening;
      sendLength, sendOffset := plan.queryLength + 2, 0;
      buffered, expected := [], -1;
      attemptDeadline := AttemptUntil(plan, now);
      return Progress;
    }

    method DriveOpen(now: int, o: Observation) returns (r: Reply)
      requires plan.config.attemptsPerServer > 0
      modifies this
      ensures (View(), r) == StepOpening(plan, old(View()), now, o)
    {
      hide Retried;
      if !o.status.IoOk? || o.handle == -1 {
        r := Retry(ReasonOr(o.status, "transport-open"), now);
        return;
      }
      calls := calls + [Opened(o.handle, attempt, server, tcp)];
      handle := o.handle;
      phase := Connecting;
      return Progress;
    }

    method DriveConnect(now: int, o: Observation) returns (r: Reply)
      requires plan.config.attemptsPerServer > 0
      modifies this
      ensures (View(), r) == StepConnecting(plan, old(View()), now, o)
    {
      hide Retried;
      calls := calls + [Used(handle)];
      if o.status.WouldBlock? {
        return WaitWrite(handle, attemptDeadline);
      }
      if !o.status.IoOk? {
        r := Retry(ReasonOr(o.status, "transport-connect"), now);
        return;
      }
      phase := Sending;
      return Progress;
    }

    method DriveSend(now: int, o: Observation) returns (r: Reply)
      requires plan.config.attemptsPerServer > 0 && phase == Sending
      modifies this
      ensures (View(), r) == StepSending(plan, old(View()), now, o)
    {
      hide Retried;
      calls := calls + [Used(handle)];
      if o.status.WouldBlock? {
        return WaitWrite(handle, attemptDeadline);
      }
      if !o.status.IoOk? {
        r := Retry(ReasonOr(o.status, "transport-send"), now);
        return;
      }
      var remaining := sendLength - sendOffset;
      if o.count <= 0 || o.count > remaining {
        r := Retry("invalid-send-progress", now);
        return;
      }
      if !tcp && o.count != remaining {
        r := Retry("short-udp-send", now);
        return;
      }
      sendOffset := sendOffset + o.count;
      if sendOffset == sendLength {
        phase := Receiving;
      }
      return Progress;
    }

    method DriveReceive(now: int, o: Observation) returns (r: Reply)
      requires plan.config.attemptsPerServer > 0 && phase == Receiving
      modifies this
      ensures (View(), r) == StepReceiving(plan, old(View()), now, o)
    {
      hide Retried, StepDatagram, StepStream;
      calls := calls + [Used(handle)];
      match o.status {
        case WouldBlock =>
          return WaitRead(handle, attemptDeadline);
        case Eof =>
          r := Retry("unexpected-eof", now);
        case IoError(_) =>
          r := Retry(ReasonOr(o.status, "transport-receive"), now);
        case IoOk =>
          if o.data == [] {
            r := Retry("empty-response", now);
          } else if |o.data| > ReceiveLimit(plan, tcp) {
            r := Retry("response-too-large", now);
          } else if !tcp {
            r := ReceiveDatagram(now, o);
          } else {
            r := ReceiveStream(now, o);
          }
      }
    }

    method ReceiveDatagram(now: int, o: Observation) returns (r: Reply)
      requires plan.config.attemptsPerServer > 0
      modifies this
      ensures (View(), r) == StepDatagram(plan, old(View()), now, o)
    {
      hide Invalidated, SwitchedToTcp, Concluded;
      if !o.knownPeer {
        r := Invalidate("server-mismatch", now, false);
        return;
      }
      match o.judgement {
        case Unparsable(code) =>
          r := Invalidate(code, now, false);
        case Parsed(truncated, verdict) =>
          if truncated && !fellBack {
            fellBack := true;
            r := SwitchToTcp(now);
          } else {
            match verdict {
              case Refused(code) =>
                r := Invalidate(code, now, false);
              case Answered(answers, problem) =>
                values := answers;
                error := problem;
                r := Terminate("");
            }
          }
      }
    }

    method ReceiveStream(now: int, o: Observation) returns (r: Reply)
      requires plan.config.attemptsPerServer > 0
      modifies this
      ensures (View(), r) == StepStream(plan, old(View()), now, o)
    {
      hide Invalidated, Retried, JudgedFrame, FrameLength, AttemptUntil;
      if o.peerGiven && !o.knownPeer {
        r := Invalidate("server-mismatch", now, true);
        return;
      }
      buffered := buffered + o.data;
      if |buffered| > plan.config.maxTcp + 2 {
        r := Retry("response-too-large", now);
        return;
      }
      if expected < 0 && |buffered| >= 2 {
        expected := FrameLength(buffered);
        if expected <= 0 || expected > plan.config.maxTcp {
          r := Retry("bad-tcp-frame-length", now);
          return;
        }
      }
      if expected < 0 || |buffered| < expected + 2 {
        attemptDeadline := AttemptUntil(plan, now);
        return Progress;
      }
      r := JudgeFrame(now, o);
    }

    /** What the operation makes of a whole framed reply. */
    method JudgeFrame(now: int, o: Observation) returns (r: Reply)
      requires plan.config.attemptsPerServer > 0
      modifies this
      ensures (View(), r) == JudgedFrame(plan, old(View()), now, o)
    {
      hide Invalidated, Concluded;
      match o.judgement {
        case Unparsable(code) =>
          r := Invalidate(code, now, true);
        case Parsed(truncated, verdict) =>
          if truncated && !fellBack {
            fellBack := true;
            r := Terminate("");
          } else {
            match verdict {
              case Refused(code) =>
                r := Invalidate(code, now, true);
              case Answered(answers, problem) =>
                values, error := answers, problem;
                r := Terminate("");
            }
          }
      }
    }

    /** `step(now)`: a call that waits leaves a deadline still ahead, any other brings the end
        nearer, and the handle is given back when the driver is done. */
    method Drive(now: int, o: Observation) returns (r: Reply)
      requires Running()
      modifies this
      ensures (View(), r) == Step(plan, old(View()), now, o)
      ensures Running() && (done ==> Held(calls) == Some(-1))
      ensures Waiting(r) ==> now < r.until <= plan.deadline && r.handle == handle && handle != -1
      ensures !old(done) && !Waiting(r) ==> Measure(plan, View()) < old(Measure(plan, View()))
    {
      hide Valid, Measure, StepOpening, StepConnecting, StepSending, StepReceiving, Retried, Concluded, Held;
      ConfigOf(plan, View());
      StepKept(plan, View(), now, o);
      DoneReleases(plan, Step(plan, View(), now, o).0);
      if Waiting(Step(plan, View(), now, o).1) {
        WaitBounds(plan, View(), now, o);
      }
      if done {
        return if error != "" then Failed(error) else Resolved(values);
      }
      if cancelled {
        r := Terminate("cancelled");
      } else if now >= plan.deadline {
        r := Terminate("timeout");
      } else if now >= attemptDeadline {
        r := Retry("attempt-timeout", now);
      } else {
        match phase {
          case Opening => r := DriveOpen(now, o);
          case Connecting => r := DriveConnect(now, o);
          case Sending => r := DriveSend(now, o);
          case Receiving => r := DriveReceive(now, o);
        }
      }
    }

    /** `operation.cancel()`, by somebody who holds the operation. */
    method CancelOutside()
      requires Running()
      modifies this`cancelled
      ensures Running() && View() == Apply(plan, old(View()), CancelOperation).0
    {
      ApplyKept(plan, View(), CancelOperation);
      if !done {
        cancelled := true;
      }
    }

    method CancelLookup() returns (r: Reply)
      requires Running()
      modifies this
      ensures (View(), r) == Apply(plan, old(View()), Cancel)
      ensures Running() && done && Held(calls) == Some(-1)
    {
      hide Valid, Concluded, Held;
      ConfigOf(plan, View());
      ApplyKept(plan, View(), Cancel);
      DoneReleases(plan, Apply(plan, View(), Cancel).0);
      CancelEnds(plan, View());
      if done {
        return if error != "" then Failed(error) else Resolved(values);
      }
      cancelled := true;
      r := Terminate("cancelled");
    }
  }

  lemma ConfigOf(p: Plan, d: Driver)
    requires Valid(p, d)
    ensures ValidConfig(p.config)
  {
  }

  lemma DoneReleases(p: Plan, d: Driver)
    requires Valid(p, d)
    ensures d.done ==> Held(d.calls) == Some(-1)
  {
  }

  lemma CancelEnds(p: Plan, d: Driver)
    requires p.config.attemptsPerServer > 0
    ensures Apply(p, d, Cancel).0.done
  {
  }
}
