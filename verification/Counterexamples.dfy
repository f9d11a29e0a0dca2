/** Schedules on which a reading misleads the oracle, or loses the run. */
module Counterexamples {
  import opened Wrappers
  import opened Target
  import opened Transport
  import opened Cases
  import opened Oracles
  import opened Harness
  import opened Freshness
  import opened ClosedLoop
  import opened AnyChannel

  /** A reply from state `earlier` that is taken for the answer leaves the answer behind, for the next reading. */
  lemma StragglerIsBelieved(k: Link, timeout: real, w: World, at: real, earlier: TargetState)
    requires Admits(k) && w.target.alive
    requires w.pending == [Datagram(at, k.targetHost, earlier.HkReply())] && w.now < at
    requires var f := k.fates(w.sends, HK_REQUEST);
      Prompt(f, timeout) && at <= w.now + f.outcome.reply.value && timeout > 0.0
    ensures var (reading, w') := ReadStep(k, HK_REQUEST, timeout, w);
      var f := k.fates(w.sends, HK_REQUEST);
      && reading == Counts(earlier.Telemetry())
      && w'.target == w.target && w'.sends == w.sends + 1 && w'.lastError == None
      && w'.now == Later(w.now + f.took, at)
      && w'.pending == [Datagram(w.now + f.outcome.reply.value, k.targetHost, w.target.HkReply())]
  {
    hide TargetState.HkReply, ParseHkCounters, Passes, TargetState.Telemetry;
    StragglerBelievedIff(k, timeout, w, at, earlier);
    var f := k.fates(w.sends, HK_REQUEST);
    var straggler := Datagram(at, k.targetHost, earlier.HkReply());
    var answer := Answer(k, w, f.outcome.reply.value);
    HkReplyPasses(k, earlier);
    assert Drained(w.now, w.pending) == w.pending;
    assert Insert(w.pending[1..], answer) == [answer];
    assert Insert(w.pending, answer) == [straggler, answer];
    assert [straggler, answer][1..] == [answer];
  }

  /**
    One straggler is enough to lose a rejection: with every send delivered at once and every reply two time
    units away, a single earlier reply in flight makes the oracle judge a case the target rejected
    inconclusive, although every housekeeping request is answered in time.
   */
  lemma StragglerHidesRejection(k: Link, o: Oracle, c: PacketCase, t: TargetState, n: nat)
    requires o.CiLab? && Speaks(k, o) && o.timeout > 3.0 && !k.buggy && t.alive
    requires forall i, p :: k.fates(i, p) == Fate(0.0, Delivered(Some(2.0)))
    requires c.packet != HK_REQUEST && !Accepts(k.expectedApid, c.packet)
    ensures var w := World(0.0, [Datagram(1.0, k.targetHost, t.HkReply())], 0, t, None);
      var (j, w', _) := JudgeStep(k, o, c, w, n);
      && LiveVerdict(k, c, 1) == CleanReject
      && j.Judged? && j.result.verdict == Inconclusive && j.result.transportError == None
      && w'.target == t.(errors := t.errors + 1)
  {
    hide TargetState.HkReply, ParseHkCounters, Passes, TargetState.Telemetry, Accepts, ReadStep, Truncate, Serve;
    var w := World(0.0, [Datagram(1.0, k.targetHost, t.HkReply())], 0, t, None);
    StragglerIsBelieved(k, o.timeout, w, 1.0, t);
    var w1 := ReadStep(k, o.hkRequest, o.timeout, w).1;
    ServeTruncated(k, t, c, 1);
    var w2 := SendStep(k, w1, c.packet);
    assert w2.pending == [Datagram(2.0, k.targetHost, t.HkReply())] && w2.now == 1.0 && w2.target.alive;
    assert w2.target == t.(errors := t.errors + 1);
    StragglerIsBelieved(k, o.timeout, w2, 2.0, t);
  }

  /**
    One empty datagram from anybody, arriving while the first answer is under way and not filtered, loses
    every finding of a counter run against a live target.
   */
  lemma ShortDatagramLosesRun(k: Link, o: Oracle, cases: seq<PacketCase>, t: TargetState, n: nat)
    requires o.CiLab? && Speaks(k, o) && o.timeout > 3.0 && t.alive && k.filter == Filter(None, None)
    requires forall i, p :: k.fates(i, p) == Fate(0.0, Delivered(Some(2.0)))
    requires cases != []
    ensures RunSteps(k, o, cases, World(0.0, [Datagram(1.0, "anybody", [])], 0, t, None), n).findings == None
  {
    hide RunSteps, JudgeStep, Heard;
    var w := World(0.0, [Datagram(1.0, "anybody", [])], 0, t, None);
    assert Drained(w.now, w.pending) == w.pending;
    PromptlyHeard(k, o.timeout, w);
    assert Aborts(k, o, cases[0], WorldAt(k, o, cases, w, n, 0).0);
    RunRaisesIff(k, o, cases, w, n);
  }
}
