/** What holds of runs over any channel at all: what a finding rests on, and what can abort a run. */
module AnyChannel {
  import opened Bits
  import opened Wrappers
  import opened Target
  import opened Transport
  import opened Cases
  import opened Oracles
  import opened Harness
  import opened Freshness

  // ---- What happened on the channel during one judgement ------------------------------------------------

  /** The error a request and its wait run into: a refused send, or an error as the deciding event. */
  function Failure(k: Link, request: Bytes, timeout: real, w: World): Option<TransportError> {
    match k.fates(w.sends, request).outcome
    case Refused(errno) => Some(SendError(errno, |request|))
    case _ =>
      match Heard(k, request, timeout, w)
      case Some(Fault(_, errno)) => Some(ReceiveError(errno))
      case _ => None
  }

  /** The counters in the reply a request gets, if it gets one that parses. */
  function ReceivedCounters(k: Link, request: Bytes, timeout: real, w: World): Option<Counters> {
    if k.fates(w.sends, request).outcome.Refused? then None else
    match Heard(k, request, timeout, w)
    case Some(Datagram(_, _, data)) => ParseHkCounters(Truncate(data))
    case _ => None
  }

  /** The error of the case's own send, the `i`-th of the run. */
  function CaseFailure(k: Link, c: PacketCase, i: nat): Option<TransportError> {
    match k.fates(i, c.packet).outcome
    case Refused(errno) => Some(SendError(errno, |c.packet|))
    case _ => None
  }

  /** The channel after the first reading, and after the case is sent. */
  function AfterFirst(k: Link, o: Oracle, w: World): World
    requires o.CiLab?
  {
    ReadStep(k, o.hkRequest, o.timeout, w).1
  }

  function AfterCase(k: Link, o: Oracle, c: PacketCase, w: World): World {
    SendStep(k, if o.CiLab? then AfterFirst(k, o, w) else w, c.packet)
  }

  /** Does a counter judgement get as far as its second reading? */
  predicate ReachesSecond(k: Link, o: Oracle, c: PacketCase, w: World)
    requires o.CiLab?
  {
    ReceivedCounters(k, o.hkRequest, o.timeout, w).Some? && CaseFailure(k, c, AfterFirst(k, o, w).sends) == None
  }

  /** The first transport failure the judgement runs into. */
  function FirstFailure(k: Link, o: Oracle, c: PacketCase, w: World): Option<TransportError> {
    if o.CiLab? then
      if Failure(k, o.hkRequest, o.timeout, w).Some? then Failure(k, o.hkRequest, o.timeout, w)
      else if ReceivedCounters(k, o.hkRequest, o.timeout, w) == None then None
      else if CaseFailure(k, c, AfterFirst(k, o, w).sends).Some? then CaseFailure(k, c, AfterFirst(k, o, w).sends)
      else Failure(k, o.hkRequest, o.timeout, AfterCase(k, o, c, w))
    else if CaseFailure(k, c, w.sends).Some? then CaseFailure(k, c, w.sends)
    else Failure(k, k.probePayload, o.timeout, AfterCase(k, o, c, w))
  }

  /** A request went out without failure and nothing at all came back in time. */
  predicate Silence(k: Link, request: Bytes, timeout: real, w: World) {
    !k.fates(w.sends, request).outcome.Refused? && Heard(k, request, timeout, w) == None
  }

  predicate MetSilence(k: Link, o: Oracle, c: PacketCase, w: World) {
    if o.CiLab? then
      || Silence(k, o.hkRequest, o.timeout, w)
      || (ReachesSecond(k, o, c, w) && Silence(k, o.hkRequest, o.timeout, AfterCase(k, o, c, w)))
    else
      CaseFailure(k, c, w.sends) == None && Silence(k, k.probePayload, o.timeout, AfterCase(k, o, c, w))
  }

  /**
    What a finding rests on. Its error is the first failure the channel met with, and makes it inconclusive;
    it is a crash or a hang exactly when a request met silence, and then the health command, if there is
    one, was run this once and tells which; its counters are those of the replies received, and it has a
    verdict on them exactly when there are two. It is unsafe exactly when a request met silence, or when the
    command counters of two replies differ for a case expected to be rejected.
   */
  predicate Justified(k: Link, o: Oracle, c: PacketCase, w: World, n: nat, f: Finding, n': nat) {
    && f.packetCase == c
    && f.transportError == FirstFailure(k, o, c, w)
    && (f.transportError.Some? ==> f.verdict == Inconclusive)
    && (f.verdict == Crash || f.verdict == Hang <==> MetSilence(k, o, c, w))
    && n' == (if MetSilence(k, o, c, w) && o.health.Some? then n + 1 else n)
    && f.evidence.health == (if MetSilence(k, o, c, w) && o.health.Some? then Some(o.health.value(n)) else None)
    && (f.verdict == Crash <==> f.evidence.health == Some(false))
    && f.evidence.before == (if o.CiLab? then ReceivedCounters(k, o.hkRequest, o.timeout, w) else None)
    && f.evidence.after == (if o.CiLab? && ReachesSecond(k, o, c, w)
                            then ReceivedCounters(k, o.hkRequest, o.timeout, AfterCase(k, o, c, w)) else None)
    && (f.evidence.after.Some? ==>
          f.verdict == CompareCounters(c, f.evidence.before.value, f.evidence.after.value))
    && (f.evidence.after == None ==> f.verdict in {Crash, Hang, Inconclusive})
    && (f.verdict.IsUnsafe() <==>
          || MetSilence(k, o, c, w)
          || (f.evidence.after.Some? && c.expectSafeReject
              && f.evidence.before.value.command != f.evidence.after.value.command))
  }

  lemma CaseSendError(k: Link, w: World, c: PacketCase)
    ensures SendStep(k, w, c.packet).lastError == CaseFailure(k, c, w.sends)
  {
    hide Serve, Insert, Truncate;
  }

  lemma ReadingExplained(k: Link, request: Bytes, timeout: real, w: World)
    ensures var reading := ReadStep(k, request, timeout, w).0;
      && (Failure(k, request, timeout, w) == if reading.Failed? then Some(reading.error) else None)
      && (ReceivedCounters(k, request, timeout, w) == if reading.Counts? then Some(reading.counters) else None)
      && (Silence(k, request, timeout, w) <==> reading == NoReply)
      && (ShortReply(k, request, timeout, w) <==> reading == Unparsable)
  {
    hide ReadStep, Heard, ParseHkCounters;
    ReadingIsFirstDecisive(k, request, timeout, w);
  }

  lemma CiLabJustified(k: Link, o: Oracle, c: PacketCase, w: World, n: nat)
    requires o.CiLab?
    ensures var (j, _, n') := JudgeStep(k, o, c, w, n);
      j.Judged? ==> Justified(k, o, c, w, n, FindingOf(c, j.result), n')
  {
    hide SendStep, ReadStep, CompareCounters, Failure, ReceivedCounters, Silence, CaseFailure;
    var w1 := AfterFirst(k, o, w);
    ReadingExplained(k, o.hkRequest, o.timeout, w);
    CaseSendError(k, w1, c);
    ReadingExplained(k, o.hkRequest, o.timeout, AfterCase(k, o, c, w));
    ComparedCounters(c);
  }

  lemma ProbeExplained(k: Link, timeout: real, w: World)
    ensures var (answered, w') := ProbeStep(k, w, timeout);
      && (!answered ==> w'.lastError == Failure(k, k.probePayload, timeout, w))
      && (answered ==> Failure(k, k.probePayload, timeout, w) == None)
      && (!answered && w'.lastError == None <==> Silence(k, k.probePayload, timeout, w))
  {
    hide Drained, Await, Passes, Serve, FirstDecisive, Insert;
    var sent := SendStep(k, DrainStep(w), k.probePayload);
    if timeout > 0.0 {
      AwaitDecisive(k.filter, sent.now, sent.pending, sent.now + timeout);
    } else {
      AwaitNoTime(k.filter, sent.now, sent.pending, sent.now + timeout);
    }
  }

  lemma LivenessJustified(k: Link, o: Oracle, c: PacketCase, w: World, n: nat)
    requires o.Liveness?
    ensures var (j, _, n') := JudgeStep(k, o, c, w, n);
      j.Judged? && Justified(k, o, c, w, n, FindingOf(c, j.result), n')
  {
    hide SendStep, ProbeStep, CompareCounters, Failure, Silence, CaseFailure;
    CaseSendError(k, w, c);
    ProbeExplained(k, o.timeout, AfterCase(k, o, c, w));
  }

  // ---- Whole runs -------------------------------------------------------------------------------------------

  /** The channel and the number of health checks when case `j` comes up. */
  function WorldAt(k: Link, o: Oracle, cases: seq<PacketCase>, w: World, n: nat, j: nat): (World, nat)
    requires j <= |cases|
    decreases j
  {
    if j == 0 then (w, n) else
    var (_, w', n') := JudgeStep(k, o, cases[0], w, n);
    WorldAt(k, o, cases[1..], w', n', j - 1)
  }

  /** The finding of case `j` is justified by the channel as it was when the case came up. */
  predicate JustifiedAt(k: Link, o: Oracle, cases: seq<PacketCase>, w: World, n: nat, f: Finding, j: nat)
    requires j < |cases|
  {
    var (v, m) := WorldAt(k, o, cases, w, n, j);
    Justified(k, o, cases[j], v, m, f, WorldAt(k, o, cases, w, n, j + 1).1)
  }

  /**
    Whatever the channel, the target and the health command do, a finished run has one finding per case, in
    order, and each is justified by what happened on the channel while its case was judged. In particular a
    transport failure is never unsafe, and a crash needs a health command that was run and said so.
   */
  lemma {:induction false} EveryFindingJustified(k: Link, o: Oracle, cases: seq<PacketCase>, w: World, n: nat)
    requires RunSteps(k, o, cases, w, n).findings.Some?
    ensures var fs := RunSteps(k, o, cases, w, n).findings.value;
      |fs| == |cases| && forall j :: 0 <= j < |cases| ==> JustifiedAt(k, o, cases, w, n, fs[j], j)
    decreases |cases|
  {
    if cases != [] {
      hide JudgeStep, JustifiedAt;
      var (j, w', n') := JudgeStep(k, o, cases[0], w, n);
      EveryFindingJustified(k, o, cases[1..], w', n');
      var fs := RunSteps(k, o, cases, w, n).findings.value;
      forall i | 0 <= i < |cases| ensures JustifiedAt(k, o, cases, w, n, fs[i], i) {
        if i == 0 {
          FirstJustified(k, o, cases, w, n);
        } else {
          assert JustifiedAt(k, o, cases[1..], w', n', fs[1..][i - 1], i - 1);
          JustifiedLater(k, o, cases, w, n, fs[i], i);
        }
      }
    }
  }

  lemma JustifiedLater(k: Link, o: Oracle, cases: seq<PacketCase>, w: World, n: nat, f: Finding, i: nat)
    requires 0 < i < |cases|
    requires var (_, w', n') := JudgeStep(k, o, cases[0], w, n); JustifiedAt(k, o, cases[1..], w', n', f, i - 1)
    ensures JustifiedAt(k, o, cases, w, n, f, i)
  {
    hide JudgeStep, Justified;
    assert cases[1..][i - 1] == cases[i];
  }

  lemma FirstJustified(k: Link, o: Oracle, cases: seq<PacketCase>, w: World, n: nat)
    requires cases != [] && JudgeStep(k, o, cases[0], w, n).0.Judged?
    ensures JustifiedAt(k, o, cases, w, n, FindingOf(cases[0], JudgeStep(k, o, cases[0], w, n).0.result), 0)
  {
    hide JudgeStep, Justified;
    var (j, w', n') := JudgeStep(k, o, cases[0], w, n);
    assert WorldAt(k, o, cases, w, n, 1) == WorldAt(k, o, cases[1..], w', n', 0) == (w', n');
    if o.CiLab? {
      CiLabJustified(k, o, cases[0], w, n);
    } else {
      LivenessJustified(k, o, cases[0], w, n);
    }
  }

  // ---- Aborted runs -----------------------------------------------------------------------------------------

  /** A counter judgement raises exactly when the reply deciding one of its readings is too short. */
  predicate Aborts(k: Link, o: Oracle, c: PacketCase, w: World) {
    && o.CiLab?
    && (|| ShortReply(k, o.hkRequest, o.timeout, w)
        || (ReachesSecond(k, o, c, w) && ShortReply(k, o.hkRequest, o.timeout, AfterCase(k, o, c, w))))
  }

  lemma JudgeRaisesIff(k: Link, o: Oracle, c: PacketCase, w: World, n: nat)
    ensures JudgeStep(k, o, c, w, n).0 == Raised <==> Aborts(k, o, c, w)
  {
    hide SendStep, ReadStep, ProbeStep, CompareCounters, Failure, ReceivedCounters, Silence, CaseFailure, ShortReply;
    if o.CiLab? {
      ReadingExplained(k, o.hkRequest, o.timeout, w);
      CaseSendError(k, AfterFirst(k, o, w), c);
      ReadingExplained(k, o.hkRequest, o.timeout, AfterCase(k, o, c, w));
    }
  }

  /** A run loses its findings if and only if some reading it takes is decided by a datagram too short to parse. */
  lemma {:induction false} RunRaisesIff(k: Link, o: Oracle, cases: seq<PacketCase>, w: World, n: nat)
    ensures RunSteps(k, o, cases, w, n).findings == None
       <==> exists j :: 0 <= j < |cases| && Aborts(k, o, cases[j], WorldAt(k, o, cases, w, n, j).0)
    decreases |cases|
  {
    hide JudgeStep, Aborts;
    if cases != [] {
      var (j, w', n') := JudgeStep(k, o, cases[0], w, n);
      JudgeRaisesIff(k, o, cases[0], w, n);
      RunRaisesIff(k, o, cases[1..], w', n');
      assert WorldAt(k, o, cases, w, n, 0).0 == w;
      if i :| 0 <= i < |cases| - 1 && Aborts(k, o, cases[1..][i], WorldAt(k, o, cases[1..], w', n', i).0) {
        assert cases[i + 1] == cases[1..][i];
        assert WorldAt(k, o, cases, w, n, i + 1) == WorldAt(k, o, cases[1..], w', n', i);
      }
      if i :| 0 < i < |cases| && Aborts(k, o, cases[i], WorldAt(k, o, cases, w, n, i).0) {
        assert cases[i] == cases[1..][i - 1];
        assert WorldAt(k, o, cases, w, n, i) == WorldAt(k, o, cases[1..], w', n', i - 1);
      }
    }
  }

  /** Every datagram that could be taken for a reply is long enough to parse. */
  ghost predicate Parsable(k: Link, pending: seq<Event>) {
    forall e :: e in pending && e.Datagram? && Decisive(k.filter, e) ==> |Truncate(e.data)| >= HK_PACKET_SIZE
  }

  lemma {:induction false} InsertParsable(k: Link, pending: seq<Event>, e: Event)
    requires Parsable(k, pending) && Parsable(k, [e])
    ensures Parsable(k, Insert(pending, e))
  {
    if pending != [] && e.at >= pending[0].at {
      InsertParsable(k, pending[1..], e);
    } else {
      assert e in [e];
    }
  }

  lemma {:induction false} AwaitParsable(k: Link, now: real, pending: seq<Event>, deadline: real)
    requires Parsable(k, pending)
    ensures var a := Await(k.filter, now, pending, deadline);
      Parsable(k, a.pending) && (a.reply.Some? ==> |a.reply.value| >= HK_PACKET_SIZE)
    decreases |pending|
  {
    if pending != [] {
      assert pending[0] in pending;
      AwaitParsable(k, Later(now, pending[0].at), pending[1..], deadline);
    }
  }

  lemma {:induction false} DrainedParsable(k: Link, now: real, pending: seq<Event>)
    requires Parsable(k, pending)
    ensures Parsable(k, Drained(now, pending))
  {
    if pending != [] {
      DrainedParsable(k, now, pending[1..]);
    }
  }

  lemma SendParsable(k: Link, w: World, data: Bytes)
    requires Parsable(k, w.pending)
    ensures Parsable(k, SendStep(k, w, data).pending)
  {
    hide Insert, Parsable, Accepts, TargetState.HkReply;
    var reply := Serve(k.expectedApid, k.buggy, w.target, Truncate(data)).1;
    var fate := k.fates(w.sends, data);
    if reply.Some? && fate.outcome.Delivered? && fate.outcome.reply.Some? {
      var r := Datagram(w.now + fate.outcome.reply.value, k.targetHost, reply.value);
      ReplyParsable(k, r, w.target);
      InsertParsable(k, w.pending, r);
    }
  }

  lemma ReplyParsable(k: Link, r: Event, t: TargetState)
    requires r.Datagram? && r.data == t.HkReply()
    ensures Parsable(k, [r])
  {
  }

  lemma ReadParsable(k: Link, hk: Bytes, timeout: real, w: World)
    requires Parsable(k, w.pending)
    ensures var (reading, w') := ReadStep(k, hk, timeout, w);
      !reading.Unparsable? && Parsable(k, w'.pending)
  {
    hide SendStep, Parsable, Await, Drained;
    DrainedParsable(k, w.now, w.pending);
    SendParsable(k, DrainStep(w), hk);
    var sent := SendStep(k, DrainStep(w), hk);
    AwaitParsable(k, sent.now, sent.pending, sent.now + timeout);
  }

  lemma JudgeParsable(k: Link, o: Oracle, c: PacketCase, w: World, n: nat)
    requires Parsable(k, w.pending)
    ensures var (j, w', _) := JudgeStep(k, o, c, w, n);
      j.Judged? && Parsable(k, w'.pending)
  {
    hide SendStep, ReadStep, Parsable, Await, Drained, CompareCounters;
    if o.CiLab? {
      ReadParsable(k, o.hkRequest, o.timeout, w);
      var w1 := ReadStep(k, o.hkRequest, o.timeout, w).1;
      SendParsable(k, w1, c.packet);
      var w2 := SendStep(k, w1, c.packet);
      ReadParsable(k, o.hkRequest, o.timeout, w2);
      assert CiLabStep(k, o, c, w, n).1 in {w1, w2, ReadStep(k, o.hkRequest, o.timeout, w2).1};
    } else {
      SendParsable(k, w, c.packet);
      var w1 := SendStep(k, w, c.packet);
      DrainedParsable(k, w1.now, w1.pending);
      SendParsable(k, DrainStep(w1), k.probePayload);
      var sent := SendStep(k, DrainStep(w1), k.probePayload);
      AwaitParsable(k, sent.now, sent.pending, sent.now + o.timeout);
    }
  }

  /** The liveness oracle parses no reply, so its runs finish over every channel. */
  lemma LivenessNeverRaises(k: Link, o: Oracle, cases: seq<PacketCase>, w: World, n: nat)
    requires o.Liveness?
    ensures RunSteps(k, o, cases, w, n).findings.Some?
  {
    hide RunSteps, WorldAt;
    RunRaisesIff(k, o, cases, w, n);
  }

  /**
    A condition on the schedule alone: a counter run finishes if no datagram too short to parse passes the
    filter, however sends fail, replies vanish or sockets err.
   */
  lemma {:induction false} RunNeverRaises(k: Link, o: Oracle, cases: seq<PacketCase>, w: World, n: nat)
    requires o.CiLab? ==> Parsable(k, w.pending)
    ensures RunSteps(k, o, cases, w, n).findings.Some?
    decreases |cases|
  {
    hide JudgeStep, Parsable;
    if o.Liveness? {
      LivenessNeverRaises(k, o, cases, w, n);
    } else if cases != [] {
      JudgeParsable(k, o, cases[0], w, n);
      var (j, w', n') := JudgeStep(k, o, cases[0], w, n);
      RunNeverRaises(k, o, cases[1..], w', n');
    }
  }
}
