/**
  The closed loop: runner, oracle, transport and target together, compared with a pure specification
  that knows nothing of sockets, schedules, clocks or counters on the wire.
 */
module ClosedLoop {
  import opened Bits
  import opened Wrappers
  import opened Target
  import opened Transport
  import opened Cases
  import opened Oracles
  import opened Harness
  import opened Freshness

  // ---- Housekeeping exchanges ---------------------------------------------------------------------------

  /** The harness and the target speak the same protocol. */
  predicate Speaks(k: Link, o: Oracle) {
    Admits(k) && (if o.CiLab? then o.hkRequest else k.probePayload) == HK_REQUEST
  }

  datatype Exchange = Answered(delay: real) | Unheard | Denied(errno: int)

  /** How the exchange whose request is the `i`-th send ends, left alone. */
  function ExchangeOf(k: Link, timeout: real, alive: bool, i: nat): Exchange {
    var f := k.fates(i, HK_REQUEST);
    if f.outcome.Refused? then Denied(f.outcome.errno)
    else if alive && timeout > 0.0 && Prompt(f, timeout) then Answered(f.outcome.reply.value)
    else Unheard
  }

  /**
    Nothing foreign or stale comes between the drain and the answer; where no answer is due, nothing that
    could be taken for one comes before the deadline.
   */
  predicate UndisturbedReading(k: Link, timeout: real, w: World) {
    var pending := Drained(w.now, w.pending);
    match ExchangeOf(k, timeout, w.target.alive, w.sends)
    case Denied(_) => true
    case Answered(delay) => Straggler(k.filter, pending, w.now + delay) == None
    case Unheard =>
      timeout > 0.0 ==>
        FirstDecisive(k.filter, pending, w.now + k.fates(w.sends, HK_REQUEST).took + timeout) == None
  }

  predicate UndisturbedCase(k: Link, o: Oracle, c: PacketCase, w: World) {
    if o.CiLab? then
      var (before, w1) := ReadStep(k, o.hkRequest, o.timeout, w);
      var w2 := SendStep(k, w1, c.packet);
      && UndisturbedReading(k, o.timeout, w)
      && (before.Counts? && w2.lastError == None ==> UndisturbedReading(k, o.timeout, w2))
    else
      var w1 := SendStep(k, w, c.packet);
      w1.lastError == None ==> UndisturbedReading(k, o.timeout, w1)
  }

  /** Every reading the run actually takes is undisturbed. */
  predicate UndisturbedRun(k: Link, o: Oracle, cases: seq<PacketCase>, w: World, n: nat)
    decreases |cases|
  {
    cases != [] ==>
      var (_, w', n') := JudgeStep(k, o, cases[0], w, n);
      UndisturbedCase(k, o, cases[0], w) && UndisturbedRun(k, o, cases[1..], w', n')
  }

  // ---- The pure specification -----------------------------------------------------------------------

  /** What the target becomes when the case's send is the `i`-th of the run. */
  function TargetAfter(k: Link, t: TargetState, c: PacketCase, i: nat): TargetState {
    if !k.fates(i, c.packet).outcome.Delivered? || !t.alive || c.packet == HK_REQUEST then t
    else if k.buggy && |c.packet| > MAX_COMMAND_SIZE then t.(alive := false)
    else if Accepts(k.expectedApid, c.packet) then t.(accepted := t.accepted + 1)
    else t.(errors := t.errors + 1)
  }

  /** The verdict of a target that stays alive, read off the acceptance predicate alone. */
  function LiveVerdict(k: Link, c: PacketCase, i: nat): Verdict {
    if !k.fates(i, c.packet).outcome.Delivered? || c.packet == HK_REQUEST then Inconclusive
    else if Accepts(k.expectedApid, c.packet) then (if c.expectSafeReject then UnexpectedAccept else CleanAccept)
    else CleanReject
  }

  /** A judgement cut short by a refused send. */
  function Interrupted(errno: int, length: nat, evidence: Evidence): OracleResult {
    OracleResult(Inconclusive, evidence, Some(SendError(errno, length)))
  }

  /** The result for one case judged in target state `t`, with `i` sends and `n` health checks behind it. */
  function ExpectedResult(k: Link, o: Oracle, c: PacketCase, t: TargetState, i: nat, n: nat): OracleResult {
    if o.CiLab? then
      match ExchangeOf(k, o.timeout, t.alive, i)
      case Denied(errno) => Interrupted(errno, |HK_REQUEST|, NO_EVIDENCE)
      case Unheard => Unanswered(o.health, n, NO_EVIDENCE)
      case Answered(_) =>
        var t' := TargetAfter(k, t, c, i + 1);
        var evidence := Evidence(Some(t.Telemetry()), None, None);
        if k.fates(i + 1, c.packet).outcome.Refused?
        then Interrupted(k.fates(i + 1, c.packet).outcome.errno, |c.packet|, evidence)
        else
          match ExchangeOf(k, o.timeout, t'.alive, i + 2)
          case Denied(errno) => Interrupted(errno, |HK_REQUEST|, evidence)
          case Unheard => Unanswered(o.health, n, evidence)
          case Answered(_) =>
            OracleResult(LiveVerdict(k, c, i + 1), evidence.(after := Some(t'.Telemetry())), None)
    else if k.fates(i, c.packet).outcome.Refused?
    then Interrupted(k.fates(i, c.packet).outcome.errno, |c.packet|, NO_EVIDENCE)
    else
      match ExchangeOf(k, o.timeout, TargetAfter(k, t, c, i).alive, i + 1)
      case Denied(errno) => Interrupted(errno, |HK_REQUEST|, NO_EVIDENCE)
      case Unheard => Unanswered(o.health, n, NO_EVIDENCE)
      case Answered(_) => OracleResult(Inconclusive, NO_EVIDENCE, None)
  }

  /** Health checks made so far, after an exchange. */
  function CallsAfterExchange(o: Oracle, x: Exchange, n: nat): nat {
    if x.Unheard? then CallsAfter(o.health, n) else n
  }

  /** The state in which the next case is judged: target, sends, health checks. */
  function NextState(k: Link, o: Oracle, c: PacketCase, t: TargetState, i: nat, n: nat): (TargetState, nat, nat) {
    if o.CiLab? then
      var first := ExchangeOf(k, o.timeout, t.alive, i);
      if !first.Answered? then (t, i + 1, CallsAfterExchange(o, first, n))
      else if k.fates(i + 1, c.packet).outcome.Refused? then (t, i + 2, n)
      else
        var t' := TargetAfter(k, t, c, i + 1);
        (t', i + 3, CallsAfterExchange(o, ExchangeOf(k, o.timeout, t'.alive, i + 2), n))
    else if k.fates(i, c.packet).outcome.Refused? then (t, i + 1, n)
    else
      var t' := TargetAfter(k, t, c, i);
      (t', i + 2, CallsAfterExchange(o, ExchangeOf(k, o.timeout, t'.alive, i + 1), n))
  }

  function ExpectedRun(k: Link, o: Oracle, cases: seq<PacketCase>, t: TargetState, i: nat, n: nat): (r: seq<Finding>)
    ensures |r| == |cases|
  {
    if cases == [] then [] else
    var (t', i', n') := NextState(k, o, cases[0], t, i, n);
    [FindingOf(cases[0], ExpectedResult(k, o, cases[0], t, i, n))] + ExpectedRun(k, o, cases[1..], t', i', n')
  }

  /** The state in which case `j` of the list is judged. */
  function StateAt(k: Link, o: Oracle, cases: seq<PacketCase>, t: TargetState, i: nat, n: nat, j: nat):
    (TargetState, nat, nat)
    requires j <= |cases|
    decreases j
  {
    if j == 0 then (t, i, n) else
    var (t', i', n') := NextState(k, o, cases[0], t, i, n);
    StateAt(k, o, cases[1..], t', i', n', j - 1)
  }

  lemma {:induction false} ExpectedAt(k: Link, o: Oracle, cases: seq<PacketCase>,
                                      t: TargetState, i: nat, n: nat, j: nat)
    requires j < |cases|
    ensures var (u, s, m) := StateAt(k, o, cases, t, i, n, j);
      ExpectedRun(k, o, cases, t, i, n)[j] == FindingOf(cases[j], ExpectedResult(k, o, cases[j], u, s, m))
    decreases j
  {
    hide ExpectedResult, NextState;
    if j > 0 {
      var (t', i', n') := NextState(k, o, cases[0], t, i, n);
      ExpectedAt(k, o, cases[1..], t', i', n', j - 1);
    }
  }

  // ---- Refinement, one case at a time ----------------------------------------------------------------

  /** A drain, a request and a receive. */
  function Asked(k: Link, timeout: real, w: World): (Option<Bytes>, World) {
    ReceiveStep(k, SendStep(k, DrainStep(w), HK_REQUEST), timeout)
  }

  /** An undisturbed exchange ends as the fates of its own request say. */
  lemma AskOutcome(k: Link, timeout: real, w: World)
    requires Admits(k) && UndisturbedReading(k, timeout, w)
    ensures var sent := SendStep(k, DrainStep(w), HK_REQUEST);
      var (reply, w') := Asked(k, timeout, w);
      && sent.target == w'.target == w.target && sent.sends == w'.sends == w.sends + 1
      && match ExchangeOf(k, timeout, w.target.alive, w.sends)
         case Denied(errno) => sent.lastError == Some(SendError(errno, |HK_REQUEST|))
         case Unheard => sent.lastError == None && reply == None && w'.lastError == None
         case Answered(_) => sent.lastError == None && reply == Some(w.target.HkReply()) && w'.lastError == None
  {
    hide Await, Drained, Insert, FirstDecisive, Straggler, Passes, Decisive, TargetState.HkReply;
    var f := k.fates(w.sends, HK_REQUEST);
    var sent := SendStep(k, DrainStep(w), HK_REQUEST);
    var deadline := sent.now + timeout;
    if timeout <= 0.0 {
      AwaitNoTime(k.filter, sent.now, sent.pending, deadline);
    } else if !f.outcome.Refused? {
      AwaitDecisive(k.filter, sent.now, sent.pending, deadline);
      if ExchangeOf(k, timeout, w.target.alive, w.sends).Answered? {
        PromptlyHeard(k, timeout, w);
        HkReplyPasses(k, w.target);
      } else if w.target.alive && f.outcome.Delivered? && f.outcome.reply.Some? {
        InsertedTooLate(k.filter, Drained(w.now, w.pending), Answer(k, w, f.outcome.reply.value), deadline);
      }
    }
  }

  /** The same for a reading of the counters. */
  lemma ReadOutcome(k: Link, o: Oracle, w: World)
    requires o.CiLab? && Speaks(k, o) && UndisturbedReading(k, o.timeout, w)
    ensures var (reading, w') := ReadStep(k, o.hkRequest, o.timeout, w);
      && w'.target == w.target && w'.sends == w.sends + 1
      && reading == match ExchangeOf(k, o.timeout, w.target.alive, w.sends)
                    case Denied(errno) => Failed(SendError(errno, |HK_REQUEST|))
                    case Unheard => NoReply
                    case Answered(_) => Counts(w.target.Telemetry())
  {
    hide SendStep, ReceiveStep, DrainStep, UndisturbedReading, ExchangeOf;
    hide ParseHkCounters, TargetState.HkReply, TargetState.Telemetry;
    AskOutcome(k, o.timeout, w);
    HkReplyParses(w.target);
  }

  /** The receive buffer never changes the target's mind. */
  lemma ServeTruncated(k: Link, t: TargetState, c: PacketCase, i: nat)
    requires k.fates(i, c.packet).outcome.Delivered?
    ensures Serve(k.expectedApid, k.buggy, t, Truncate(c.packet)).0 == TargetAfter(k, t, c, i)
    ensures Serve(k.expectedApid, k.buggy, t, Truncate(c.packet)).1.Some? <==> t.alive && c.packet == HK_REQUEST
  {
  }

  lemma SendOutcome(k: Link, w: World, c: PacketCase)
    ensures var w' := SendStep(k, w, c.packet);
      && w'.target == TargetAfter(k, w.target, c, w.sends) && w'.sends == w.sends + 1
      && w'.lastError == (match k.fates(w.sends, c.packet).outcome
                          case Refused(errno) => Some(SendError(errno, |c.packet|))
                          case _ => None)
  {
    hide Insert, Serve, Truncate, Accepts;
    if k.fates(w.sends, c.packet).outcome.Delivered? {
      ServeTruncated(k, w.target, c, w.sends);
    }
  }

  /** One more accepted or rejected command always shows in an 8-bit counter. */
  lemma CountersTellVerdict(k: Link, c: PacketCase, t: TargetState, i: nat)
    requires TargetAfter(k, t, c, i).alive && t.alive
    ensures CompareCounters(c, t.Telemetry(), TargetAfter(k, t, c, i).Telemetry()) == LiveVerdict(k, c, i)
  {
    hide Accepts;
  }

  lemma CiLabRefines(k: Link, o: Oracle, c: PacketCase, w: World, n: nat)
    requires o.CiLab? && Speaks(k, o) && UndisturbedCase(k, o, c, w)
    ensures var (j, w', n') := JudgeStep(k, o, c, w, n);
      && j == Judged(ExpectedResult(k, o, c, w.target, w.sends, n))
      && (w'.target, w'.sends, n') == NextState(k, o, c, w.target, w.sends, n)
  {
    hide SendStep, ReadStep, UndisturbedReading, Accepts, TargetState.Telemetry, CompareCounters, LiveVerdict, Prompt;
    ReadOutcome(k, o, w);
    if ExchangeOf(k, o.timeout, w.target.alive, w.sends).Answered? {
      var w1 := ReadStep(k, o.hkRequest, o.timeout, w).1;
      SendOutcome(k, w1, c);
      var w2 := SendStep(k, w1, c.packet);
      if w2.lastError == None {
        ReadOutcome(k, o, w2);
        if w2.target.alive {
          CountersTellVerdict(k, c, w.target, w1.sends);
        }
      }
    }
  }

  lemma LivenessRefines(k: Link, o: Oracle, c: PacketCase, w: World, n: nat)
    requires o.Liveness? && Speaks(k, o) && UndisturbedCase(k, o, c, w)
    ensures var (j, w', n') := JudgeStep(k, o, c, w, n);
      && j == Judged(ExpectedResult(k, o, c, w.target, w.sends, n))
      && (w'.target, w'.sends, n') == NextState(k, o, c, w.target, w.sends, n)
  {
    hide SendStep, ReceiveStep, DrainStep, UndisturbedReading, Accepts, TargetState.HkReply, Prompt;
    SendOutcome(k, w, c);
    var w1 := SendStep(k, w, c.packet);
    if w1.lastError == None {
      AskOutcome(k, o.timeout, w1);
    }
  }

  // ---- The whole run -----------------------------------------------------------------------------------

  /**
    Whole-run refinement, for every channel. Requests and cases may be refused, lost or delivered, replies
    may vanish or be late, the target may be sound, buggy or dead, the counters and the clock anything: as
    long as no reading is disturbed, the run never raises, and its findings and the target's final true
    counters are those of the pure specification.
   */
  lemma {:induction false} RunRefines(k: Link, o: Oracle, cases: seq<PacketCase>, w: World, n: nat)
    requires Speaks(k, o) && UndisturbedRun(k, o, cases, w, n)
    ensures var r := RunSteps(k, o, cases, w, n);
      && r.findings == Some(ExpectedRun(k, o, cases, w.target, w.sends, n))
      && (r.world.target, r.world.sends, r.calls) == StateAt(k, o, cases, w.target, w.sends, n, |cases|)
    decreases |cases|
  {
    hide JudgeStep, ExpectedResult, NextState, UndisturbedCase;
    if cases != [] {
      if o.CiLab? {
        CiLabRefines(k, o, cases[0], w, n);
      } else {
        LivenessRefines(k, o, cases[0], w, n);
      }
      var (j, w', n') := JudgeStep(k, o, cases[0], w, n);
      RunRefines(k, o, cases[1..], w', n');
    }
  }

  // ---- A sufficient condition that can be checked beforehand ----------------------------------------------

  ghost predicate AllIgnored(k: Link, pending: seq<Event>) {
    forall e :: e in pending ==> !Decisive(k.filter, e)
  }

  /** Whatever could be taken for a reply is already queued; what the filter rejects may arrive at any time. */
  ghost predicate Quiet(k: Link, w: World) {
    && Sorted(w.pending)
    && forall e :: e in w.pending ==> !Decisive(k.filter, e) || (e.Datagram? && e.at <= w.now)
  }

  /** A reply to the send is queued by the time the send returns. */
  predicate Immediate(f: Fate) {
    f.outcome.Delivered? && f.outcome.reply.Some? ==> f.outcome.reply.value <= f.took
  }

  /** No reply to a housekeeping request comes after its deadline. */
  ghost predicate NeverLate(k: Link, o: Oracle) {
    o.timeout > 0.0 && forall i :: var f := k.fates(i, HK_REQUEST);
      f.outcome.Delivered? && f.outcome.reply.Some? ==> Prompt(f, o.timeout)
  }

  /** A case that is itself a housekeeping request must not leave a reply in flight at its own send. */
  predicate LeavesNoStraggler(k: Link, o: Oracle, c: PacketCase, i: nat) {
    c.packet == HK_REQUEST ==> Immediate(k.fates(if o.CiLab? then i + 1 else i, HK_REQUEST))
  }

  predicate NoStragglers(k: Link, o: Oracle, cases: seq<PacketCase>, t: TargetState, i: nat, n: nat)
    decreases |cases|
  {
    cases != [] ==>
      var (t', i', n') := NextState(k, o, cases[0], t, i, n);
      LeavesNoStraggler(k, o, cases[0], i) && NoStragglers(k, o, cases[1..], t', i', n')
  }

  /** In particular when no case is one. */
  lemma {:induction false} NoneIsHk(k: Link, o: Oracle, cases: seq<PacketCase>, t: TargetState, i: nat, n: nat)
    requires forall c :: c in cases ==> c.packet != HK_REQUEST
    ensures NoStragglers(k, o, cases, t, i, n)
    decreases |cases|
  {
    hide NextState;
    if cases != [] {
      assert cases[0] in cases;
      var (t', i', n') := NextState(k, o, cases[0], t, i, n);
      NoneIsHk(k, o, cases[1..], t', i', n');
    }
  }

  lemma {:induction false} DrainSettles(k: Link, now: real, pending: seq<Event>)
    requires Sorted(pending)
    requires forall e :: e in pending ==> !Decisive(k.filter, e) || (e.Datagram? && e.at <= now)
    ensures Sorted(Drained(now, pending)) && AllIgnored(k, Drained(now, pending))
    decreases |pending|
  {
    if pending == [] || pending[0].at > now {
    } else {
      assert pending[0] in pending;
      DrainSettles(k, now, pending[1..]);
    }
  }

  lemma {:induction false} AwaitIgnores(k: Link, now: real, pending: seq<Event>, deadline: real)
    requires AllIgnored(k, pending) && Sorted(pending)
    ensures var a := Await(k.filter, now, pending, deadline);
      AllIgnored(k, a.pending) && Sorted(a.pending)
    decreases |pending|
  {
    if now < deadline && pending != [] && (pending[0].at <= now || pending[0].at < deadline) {
      assert pending[0] in pending;
      AwaitIgnores(k, Later(now, pending[0].at), pending[1..], deadline);
    }
  }

  /** With only ignored events around it, an inserted reply is read by the wait it comes in time for. */
  lemma {:induction false} AwaitTakes(k: Link, now: real, pending: seq<Event>, r: Event, deadline: real)
    requires AllIgnored(k, pending) && Sorted(pending)
    requires r.Datagram? && Decisive(k.filter, r) && r.at < deadline && now < deadline
    ensures var a := Await(k.filter, now, Insert(pending, r), deadline);
      AllIgnored(k, a.pending) && Sorted(a.pending)
    decreases |pending|
  {
    if pending == [] || r.at < pending[0].at {
      assert ([r] + pending)[1..] == pending;
    } else {
      assert pending[0] in pending;
      AwaitTakes(k, Later(now, pending[0].at), pending[1..], r, deadline);
      assert Insert(pending, r)[1..] == Insert(pending[1..], r);
    }
  }

  /** A quiet reading is undisturbed and leaves the queue quiet. */
  lemma QuietReading(k: Link, o: Oracle, w: World)
    requires Admits(k) && Quiet(k, w) && NeverLate(k, o)
    ensures UndisturbedReading(k, o.timeout, w)
    ensures Quiet(k, SendStep(k, DrainStep(w), HK_REQUEST)) || !k.fates(w.sends, HK_REQUEST).outcome.Refused?
    ensures k.fates(w.sends, HK_REQUEST).outcome.Refused? || Quiet(k, Asked(k, o.timeout, w).1)
  {
    hide Await, Insert, Drained, Decisive, TargetState.HkReply, FirstDecisive, Straggler;
    var f := k.fates(w.sends, HK_REQUEST);
    var drained := Drained(w.now, w.pending);
    var deadline := w.now + f.took + o.timeout;
    DrainSettles(k, w.now, w.pending);
    if w.target.alive && f.outcome.Delivered? && f.outcome.reply.Some? {
      var r := Answer(k, w, f.outcome.reply.value);
      assert Decisive(k.filter, r) by {
        HkReplyPasses(k, w.target);
        PassesDecides(k, r);
      }
      AwaitTakes(k, w.now + f.took, drained, r, deadline);
    } else {
      AwaitIgnores(k, w.now + f.took, drained, deadline);
    }
  }

  lemma PassesDecides(k: Link, r: Event)
    requires r.Datagram? && Passes(k.filter, r.host, Truncate(r.data))
    ensures Decisive(k.filter, r)
  {
  }

  lemma QuietSend(k: Link, w: World, c: PacketCase)
    requires Quiet(k, w)
    requires c.packet == HK_REQUEST ==> Immediate(k.fates(w.sends, c.packet))
    ensures Quiet(k, SendStep(k, w, c.packet))
  {
    hide Insert, Decisive, Serve, Truncate, Accepts;
    var fate := k.fates(w.sends, c.packet);
    if fate.outcome.Delivered? {
      ServeTruncated(k, w.target, c, w.sends);
      var reply := Serve(k.expectedApid, k.buggy, w.target, Truncate(c.packet)).1;
      if reply.Some? && fate.outcome.reply.Some? {
        var r := Datagram(w.now + fate.outcome.reply.value, k.targetHost, reply.value);
        InsertKeepsOrder(w.pending, r);
        forall e | e in Insert(w.pending, r) ensures e == r || e in w.pending {
          InsertMembers(w.pending, r, e);
        }
      }
    }
  }

  lemma QuietCase(k: Link, o: Oracle, c: PacketCase, w: World, n: nat)
    requires Speaks(k, o) && NeverLate(k, o) && Quiet(k, w) && LeavesNoStraggler(k, o, c, w.sends)
    ensures UndisturbedCase(k, o, c, w) && Quiet(k, JudgeStep(k, o, c, w, n).1)
  {
    hide SendStep, DrainStep, Quiet, UndisturbedReading, CompareCounters, ParseHkCounters, Await;
    if o.CiLab? {
      QuietRead(k, o, w);
      ReadOutcome(k, o, w);
      var w1 := ReadStep(k, o.hkRequest, o.timeout, w).1;
      QuietSend(k, w1, c);
      QuietRead(k, o, SendStep(k, w1, c.packet));
    } else {
      QuietSend(k, w, c);
      QuietProbe(k, o, SendStep(k, w, c.packet));
    }
  }

  lemma QuietRead(k: Link, o: Oracle, w: World)
    requires o.CiLab? && Speaks(k, o) && NeverLate(k, o) && Quiet(k, w)
    ensures UndisturbedReading(k, o.timeout, w) && Quiet(k, ReadStep(k, o.hkRequest, o.timeout, w).1)
  {
    hide Quiet, UndisturbedReading, ParseHkCounters, Await, Serve, Insert, Drained;
    QuietReading(k, o, w);
  }

  lemma QuietProbe(k: Link, o: Oracle, w: World)
    requires o.Liveness? && Speaks(k, o) && NeverLate(k, o) && Quiet(k, w)
    ensures UndisturbedReading(k, o.timeout, w) && Quiet(k, ProbeStep(k, w, o.timeout).1)
  {
    hide Quiet, UndisturbedReading, Await, Serve, Insert, Drained;
    QuietReading(k, o, w);
  }

  /**
    A run that starts with a quiet queue, over a channel on which housekeeping requests are answered in
    time or not at all, takes no disturbed reading, if a case that is itself a housekeeping request has its
    reply, if any, by the time its send returns.
   */
  lemma {:induction false} QuietRunUndisturbed(k: Link, o: Oracle, cases: seq<PacketCase>, w: World, n: nat)
    requires Speaks(k, o) && NeverLate(k, o) && Quiet(k, w)
    requires NoStragglers(k, o, cases, w.target, w.sends, n)
    ensures UndisturbedRun(k, o, cases, w, n)
    decreases |cases|
  {
    hide JudgeStep, NextState, Quiet, UndisturbedCase;
    if cases != [] {
      QuietCase(k, o, cases[0], w, n);
      if o.CiLab? {
        CiLabRefines(k, o, cases[0], w, n);
      } else {
        LivenessRefines(k, o, cases[0], w, n);
      }
      var (_, w', n') := JudgeStep(k, o, cases[0], w, n);
      QuietRunUndisturbed(k, o, cases[1..], w', n');
    }
  }
}
