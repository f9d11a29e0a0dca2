/**
  The two oracles. Each `judge` is a method that drives a mutable transport, proved equal to a step
  function over the transport's state; the verdict properties are proved about the step functions.
 */
module Oracles {
  import opened Bits
  import opened Wrappers
  import opened Target
  import opened Transport
  import opened Cases

  datatype Verdict = CleanAccept | CleanReject | SafeDrop | Crash | Hang | UnexpectedAccept | Inconclusive {
    predicate IsUnsafe() {
      Crash? || Hang? || UnexpectedAccept?
    }
  }

  datatype Evidence = Evidence(before: Option<Counters>, after: Option<Counters>, health: Option<bool>)

  const NO_EVIDENCE := Evidence(None, None, None)

  datatype OracleResult = OracleResult(verdict: Verdict, evidence: Evidence, transportError: Option<TransportError>)

  /** A reply too short to parse raises ValueError, which no caller catches. */
  datatype Judgement = Raised | Judged(result: OracleResult)

  /** A health command, if configured: the answer to its n-th run. */
  type Health = Option<nat -> bool>

  /** Either oracle with its settings. */
  datatype Oracle = CiLab(hkRequest: Bytes, timeout: real, health: Health) | Liveness(timeout: real, health: Health)

  datatype Reading = Counts(counters: Counters) | NoReply | Failed(error: TransportError) | Unparsable

  // ---- Specification ------------------------------------------------------------------------------

  /** `_read_counters`: drain, request, receive, parse. */
  function ReadStep(k: Link, hkRequest: Bytes, timeout: real, w: World): (Reading, World) {
    var sent := SendStep(k, DrainStep(w), hkRequest);
    if sent.lastError.Some? then (Failed(sent.lastError.value), sent) else
    var (reply, received) := ReceiveStep(k, sent, timeout);
    (match reply
     case None => if received.lastError.Some? then Failed(received.lastError.value) else NoReply
     case Some(packet) => if ParseHkCounters(packet).None? then Unparsable else Counts(ParseHkCounters(packet).value),
     received)
  }

  /** No reply and no transport error: the health command, if there is one, tells a crash from a hang. */
  function Unanswered(health: Health, calls: nat, evidence: Evidence): OracleResult {
    match health
    case None => OracleResult(Hang, evidence, None)
    case Some(results) =>
      OracleResult(if results(calls) then Hang else Crash, evidence.(health := Some(results(calls))), None)
  }

  function CallsAfter(health: Health, calls: nat): nat {
    if health.Some? then calls + 1 else calls
  }

  /** The verdict for two sets of counters, compared for inequality only. */
  function CompareCounters(c: PacketCase, before: Counters, after: Counters): Verdict {
    var accepted := after.command != before.command;
    if accepted && c.expectSafeReject then UnexpectedAccept
    else if after.commandError != before.commandError then CleanReject
    else if after.ingestErrors != before.ingestErrors then SafeDrop
    else if accepted then CleanAccept
    else Inconclusive
  }

  /** `CiLabOracle.judge` */
  function CiLabStep(k: Link, o: Oracle, c: PacketCase, w: World, calls: nat): (Judgement, World, nat)
    requires o.CiLab?
  {
    var (before, w1) := ReadStep(k, o.hkRequest, o.timeout, w);
    match before
    case Unparsable => (Raised, w1, calls)
    case Failed(e) => (Judged(OracleResult(Inconclusive, NO_EVIDENCE, Some(e))), w1, calls)
    case NoReply => (Judged(Unanswered(o.health, calls, NO_EVIDENCE)), w1, CallsAfter(o.health, calls))
    case Counts(first) =>
      var evidence := Evidence(Some(first), None, None);
      var w2 := SendStep(k, w1, c.packet);
      if w2.lastError.Some? then (Judged(OracleResult(Inconclusive, evidence, w2.lastError)), w2, calls) else
      var (after, w3) := ReadStep(k, o.hkRequest, o.timeout, w2);
      match after
      case Unparsable => (Raised, w3, calls)
      case Failed(e) => (Judged(OracleResult(Inconclusive, evidence, Some(e))), w3, calls)
      case NoReply => (Judged(Unanswered(o.health, calls, evidence)), w3, CallsAfter(o.health, calls))
      case Counts(second) =>
        (Judged(OracleResult(CompareCounters(c, first, second), evidence.(after := Some(second)), None)), w3, calls)
  }

  /** `LivenessOracle.judge` */
  function LivenessStep(k: Link, o: Oracle, c: PacketCase, w: World, calls: nat): (Judgement, World, nat)
    requires o.Liveness?
  {
    var w1 := SendStep(k, w, c.packet);
    if w1.lastError.Some? then (Judged(OracleResult(Inconclusive, NO_EVIDENCE, w1.lastError)), w1, calls) else
    var (answered, w2) := ProbeStep(k, w1, o.timeout);
    if answered then (Judged(OracleResult(Inconclusive, NO_EVIDENCE, None)), w2, calls)
    else if w2.lastError.Some? then (Judged(OracleResult(Inconclusive, NO_EVIDENCE, w2.lastError)), w2, calls)
    else (Judged(Unanswered(o.health, calls, NO_EVIDENCE)), w2, CallsAfter(o.health, calls))
  }

  function JudgeStep(k: Link, o: Oracle, c: PacketCase, w: World, calls: nat): (Judgement, World, nat) {
    if o.CiLab? then CiLabStep(k, o, c, w, calls) else LivenessStep(k, o, c, w, calls)
  }

  // ---- The oracles as objects -----------------------------------------------------------------------

  /** How one run of the external health command can end. */
  datatype CommandRun = Exited(status: int) | TimedOutRun | OsErrorRun

  /** Exit status zero alone means alive; a timeout or an OS error counts as dead. */
  predicate ReportsAlive(run: CommandRun) {
    run == Exited(0)
  }

  /** The external health command: how its runs end is an input. */
  class HealthCheck {
    const runs: nat -> CommandRun
    var calls: nat

    constructor (runs: nat -> CommandRun)
      ensures this.runs == runs && calls == 0
    {
      this.runs, calls := runs, 0;
    }

    method Check() returns (alive: bool)
      modifies this
      ensures alive <==> runs(old(calls)) == Exited(0)
      ensures calls == old(calls) + 1
    {
      var completed := runs(calls);
      calls := calls + 1;
      match completed {
        case TimedOutRun => return false;
        case OsErrorRun => return false;
        case Exited(status) => return status == 0;
      }
    }
  }

  ghost function HealthOf(check: HealthCheck?): Health {
    if check == null then None else Some((n: nat) => ReportsAlive(check.runs(n)))
  }

  ghost function CallsOf(check: HealthCheck?): nat
    reads check
  {
    if check == null then 0 else check.calls
  }

  /** The shared tail of both oracles: run the health command and name the failure. */
  method JudgeUnanswered(check: HealthCheck?, evidence: Evidence) returns (r: OracleResult)
    modifies check
    ensures r == Unanswered(HealthOf(check), old(CallsOf(check)), evidence)
    ensures CallsOf(check) == CallsAfter(HealthOf(check), old(CallsOf(check)))
    ensures check == null ==> r == OracleResult(Hang, evidence, None)
    ensures check != null ==>
      var alive := check.runs(old(check.calls)) == Exited(0);
      && check.calls == old(check.calls) + 1
      && r == OracleResult(if alive then Hang else Crash, evidence.(health := Some(alive)), None)
  {
    if check == null {
      return OracleResult(Hang, evidence, None);
    }
    var alive := check.Check();
    if !alive {
      return OracleResult(Crash, evidence.(health := Some(alive)), None);
    }
    return OracleResult(Hang, evidence.(health := Some(alive)), None);
  }

  class CiLabOracle {
    const hkRequest: Bytes
    const timeout: real
    const healthCheck: HealthCheck?

    constructor (hkRequest: Bytes, timeout: real, healthCheck: HealthCheck?)
      ensures this.hkRequest == hkRequest && this.timeout == timeout && this.healthCheck == healthCheck
    {
      this.hkRequest, this.timeout, this.healthCheck := hkRequest, timeout, healthCheck;
    }

    ghost function Settings(): Oracle {
      CiLab(hkRequest, timeout, HealthOf(healthCheck))
    }

    method ReadCounters(transport: UDPTransport) returns (r: Reading)
      modifies transport, transport.net, transport.net.target
      ensures (r, transport.State()) == ReadStep(transport.Channel(), hkRequest, timeout, old(transport.State()))
    {
      transport.DrainStaleReplies();
      transport.Send(hkRequest);
      if transport.lastError.Some? {
        return Failed(transport.lastError.value);
      }
      var reply := transport.Receive(timeout);
      if reply.None? {
        if transport.lastError.Some? {
          return Failed(transport.lastError.value);
        }
        return NoReply;
      }
      var counters := ParseHkCounters(reply.value);
      if counters.None? {
        return Unparsable;
      }
      return Counts(counters.value);
    }

    method Judge(c: PacketCase, transport: UDPTransport) returns (j: Judgement)
      modifies transport, transport.net, transport.net.target, healthCheck
      ensures (j, transport.State(), CallsOf(healthCheck))
           == CiLabStep(transport.Channel(), Settings(), c, old(transport.State()), old(CallsOf(healthCheck)))
    {
      var evidence := NO_EVIDENCE;
      var before := ReadCounters(transport);
      if before.Unparsable? {
        return Raised;
      } else if before.Failed? {
        return Judged(OracleResult(Inconclusive, evidence, Some(before.error)));
      } else if before.NoReply? {
        var r := JudgeUnanswered(healthCheck, evidence);
        return Judged(r);
      }
      evidence := evidence.(before := Some(before.counters));
      transport.Send(c.packet);
      if transport.lastError.Some? {
        return Judged(OracleResult(Inconclusive, evidence, transport.lastError));
      }
      var after := ReadCounters(transport);
      if after.Unparsable? {
        return Raised;
      } else if after.Failed? {
        return Judged(OracleResult(Inconclusive, evidence, Some(after.error)));
      } else if after.NoReply? {
        var r := JudgeUnanswered(healthCheck, evidence);
        return Judged(r);
      }
      evidence := evidence.(after := Some(after.counters));
      var accepted := after.counters.command != before.counters.command;
      var commandRejected := after.counters.commandError != before.counters.commandError;
      var ingestRejected := after.counters.ingestErrors != before.counters.ingestErrors;
      var verdict := Inconclusive;
      if accepted && c.expectSafeReject {
        verdict := UnexpectedAccept;
      } else if commandRejected {
        verdict := CleanReject;
      } else if ingestRejected {
        verdict := SafeDrop;
      } else if accepted {
        verdict := CleanAccept;
      }
      return Judged(OracleResult(verdict, evidence, None));
    }
  }

  class LivenessOracle {
    const timeout: real
    const healthCheck: HealthCheck?

    constructor (timeout: real, healthCheck: HealthCheck?)
      ensures this.timeout == timeout && this.healthCheck == healthCheck
    {
      this.timeout, this.healthCheck := timeout, healthCheck;
    }

    ghost function Settings(): Oracle {
      Liveness(timeout, HealthOf(healthCheck))
    }

    method Judge(c: PacketCase, transport: UDPTransport) returns (j: Judgement)
      modifies transport, transport.net, transport.net.target, healthCheck
      ensures (j, transport.State(), CallsOf(healthCheck))
           == LivenessStep(transport.Channel(), Settings(), c, old(transport.State()), old(CallsOf(healthCheck)))
    {
      transport.Send(c.packet);
      if transport.lastError.Some? {
        return Judged(OracleResult(Inconclusive, NO_EVIDENCE, transport.lastError));
      }
      var answered := transport.Probe(timeout);
      if answered {
        return Judged(OracleResult(Inconclusive, NO_EVIDENCE, None));
      }
      if transport.lastError.Some? {
        return Judged(OracleResult(Inconclusive, NO_EVIDENCE, transport.lastError));
      }
      var r := JudgeUnanswered(healthCheck, NO_EVIDENCE);
      return Judged(r);
    }
  }
}
