/** The run loop: select the cases, judge each in turn over one transport, collect the findings. */
module Harness {
  import opened Wrappers
  import opened Transport
  import opened Cases
  import opened Selection
  import opened Oracles

  datatype Finding = Finding(
    packetCase: PacketCase,
    verdict: Verdict,
    evidence: Evidence,
    transportError: Option<TransportError>)

  function FindingOf(c: PacketCase, r: OracleResult): Finding {
    Finding(c, r.verdict, r.evidence, r.transportError)
  }

  /** Everything a run depends on and changes. A run has no findings when a judge raised. */
  datatype RunOutcome = Ended(findings: Option<seq<Finding>>, world: World, calls: nat)

  function Prefixed(done: seq<Finding>, r: RunOutcome): RunOutcome {
    if r.findings.None? then r else r.(findings := Some(done + r.findings.value))
  }

  function RunSteps(k: Link, o: Oracle, cases: seq<PacketCase>, w: World, calls: nat): RunOutcome
    decreases |cases|
  {
    if cases == [] then Ended(Some([]), w, calls) else
    var (j, w', calls') := JudgeStep(k, o, cases[0], w, calls);
    match j
    case Raised => Ended(None, w', calls')
    case Judged(r) => Prefixed([FindingOf(cases[0], r)], RunSteps(k, o, cases[1..], w', calls'))
  }

  /** The oracle a run was configured with. */
  datatype OracleObject = CiLabObject(ciLab: CiLabOracle) | LivenessObject(liveness: LivenessOracle) {
    function Check(): HealthCheck? {
      match this
      case CiLabObject(o) => o.healthCheck
      case LivenessObject(o) => o.healthCheck
    }

    ghost function Settings(): Oracle {
      match this
      case CiLabObject(o) => o.Settings()
      case LivenessObject(o) => o.Settings()
    }

    method Judge(c: PacketCase, transport: UDPTransport) returns (j: Judgement)
      modifies transport, transport.net, transport.net.target, Check()
      ensures (j, transport.State(), CallsOf(Check()))
           == JudgeStep(transport.Channel(), Settings(), c, old(transport.State()), old(CallsOf(Check())))
    {
      match this {
        case CiLabObject(o) => j := o.Judge(c, transport);
        case LivenessObject(o) => j := o.Judge(c, transport);
      }
    }
  }

  class Runner {
    const config: SelectionConfig

    constructor (config: SelectionConfig)
      ensures this.config == config
    {
      this.config := config;
    }

    method Run(generated: seq<PacketCase>, oracle: OracleObject, transport: UDPTransport)
      returns (result: Option<seq<Finding>>)
      modifies transport, transport.net, transport.net.target, oracle.Check()
      ensures Ended(result, transport.State(), CallsOf(oracle.Check()))
           == RunSteps(transport.Channel(), oracle.Settings(), Selected(config, generated),
                       old(transport.State()), old(CallsOf(oracle.Check())))
      ensures result.Some? ==> forall f :: f in result.value ==>
        && (f.verdict == Crash <==> f.evidence.health == Some(false))
        && (f.evidence.health.Some? ==>
              && oracle.Check() != null
              && exists m :: old(oracle.Check().calls) <= m < oracle.Check().calls
                          && f.evidence.health.value == (oracle.Check().runs(m) == Exited(0)))
    {
      hide JudgeStep, Selected;
      var cases := SelectCases(config, generated);
      var findings: seq<Finding> := [];
      ghost var k, o := transport.Channel(), oracle.Settings();
      ghost var whole := RunSteps(k, o, cases, transport.State(), CallsOf(oracle.Check()));
      assert cases[0..] == cases;
      PrefixedEnds(findings, whole);
      for i := 0 to |cases|
        invariant whole == Prefixed(findings, RunSteps(k, o, cases[i..], transport.State(), CallsOf(oracle.Check())))
      {
        assert cases[i..][1..] == cases[i + 1..];
        var j := oracle.Judge(cases[i], transport);
        if j.Raised? {
          return None;
        }
        ghost var rest := RunSteps(k, o, cases[i + 1..], transport.State(), CallsOf(oracle.Check()));
        PrefixedTwice(findings, FindingOf(cases[i], j.result), rest);
        findings := findings + [FindingOf(cases[i], j.result)];
      }
      PrefixedEnds(findings, whole);
      forall f | f in findings
        ensures f.verdict == Crash <==> f.evidence.health == Some(false)
        ensures f.evidence.health.Some? ==>
          && o.health.Some?
          && exists m :: old(CallsOf(oracle.Check())) <= m < CallsOf(oracle.Check())
                      && f.evidence.health.value == o.health.value(m)
      {
        HealthWasReported(k, o, cases, old(transport.State()), old(CallsOf(oracle.Check())), f);
      }
      return Some(findings);
    }
  }

  /** Health evidence is the answer of a health check made in this very run; a crash is a finding it calls dead. */
  lemma {:induction false} HealthWasReported(k: Link, o: Oracle, cases: seq<PacketCase>, w: World, n: nat, f: Finding)
    requires RunSteps(k, o, cases, w, n).findings.Some? && f in RunSteps(k, o, cases, w, n).findings.value
    ensures f.verdict == Crash <==> f.evidence.health == Some(false)
    ensures f.evidence.health.Some? ==>
      && o.health.Some?
      && exists m :: n <= m < RunSteps(k, o, cases, w, n).calls && f.evidence.health.value == o.health.value(m)
    decreases |cases|
  {
    hide JudgeStep;
    var (j, w', n') := JudgeStep(k, o, cases[0], w, n);
    JudgementHealth(k, o, cases[0], w, n);
    CallsGrow(k, o, cases[1..], w', n');
    if f != FindingOf(cases[0], j.result) {
      HealthWasReported(k, o, cases[1..], w', n', f);
    }
  }

  lemma JudgementHealth(k: Link, o: Oracle, c: PacketCase, w: World, n: nat)
    ensures var (j, _, n') := JudgeStep(k, o, c, w, n);
      && n <= n'
      && (j.Judged? ==>
            && (j.result.verdict == Crash <==> j.result.evidence.health == Some(false))
            && (j.result.evidence.health.Some? ==>
                  o.health.Some? && n < n' && j.result.evidence.health.value == o.health.value(n)))
  {
    hide SendStep, ReadStep, ProbeStep, CompareCounters;
    ComparedCounters(c);
  }

  /** Comparing counters never yields a crash or a hang, and is unsafe exactly for an accept not expected. */
  lemma ComparedCounters(c: PacketCase)
    ensures forall before, after :: CompareCounters(c, before, after) !in {Crash, Hang}
    ensures forall before, after :: CompareCounters(c, before, after).IsUnsafe()
                               <==> before.command != after.command && c.expectSafeReject
  {
  }

  lemma {:induction false} CallsGrow(k: Link, o: Oracle, cases: seq<PacketCase>, w: World, n: nat)
    ensures n <= RunSteps(k, o, cases, w, n).calls
    decreases |cases|
  {
    hide JudgeStep;
    if cases != [] {
      JudgementHealth(k, o, cases[0], w, n);
      var (_, w', n') := JudgeStep(k, o, cases[0], w, n);
      CallsGrow(k, o, cases[1..], w', n');
    }
  }

  lemma PrefixedEnds(done: seq<Finding>, r: RunOutcome)
    ensures Prefixed([], r) == r
    ensures forall w, n :: Prefixed(done, Ended(Some([]), w, n)) == Ended(Some(done), w, n)
  {
    if r.findings.Some? {
      assert [] + r.findings.value == r.findings.value;
    }
    assert done + [] == done;
  }

  lemma PrefixedTwice(done: seq<Finding>, f: Finding, r: RunOutcome)
    ensures Prefixed(done, Prefixed([f], r)) == Prefixed(done + [f], r)
  {
    if r.findings.Some? {
      assert done + ([f] + r.findings.value) == done + [f] + r.findings.value;
    }
  }
}
