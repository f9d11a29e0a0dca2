/** Runs of the generated suite against the mock target, and when the harness cries wolf. */
module SuiteRuns {
  import opened Wrappers
  import opened Target
  import opened Transport
  import opened Cases
  import opened Generator
  import opened Selection
  import opened Oracles
  import opened Harness
  import opened ClosedLoop
  import opened RunProperties
  import opened Suite
  import opened SuiteContents
  import Names

  /** Case `j` of a selection of the generated suite, before retargeting. */
  ghost function Unaimed(home: int, cfg: SelectionConfig, j: nat): PacketCase
    requires j < |Kept(cfg, GeneratedCases(home))|
  {
    Kept(cfg, GeneratedCases(home))[j]
  }

  lemma SelectedFromGenerated(home: int, cfg: SelectionConfig, j: nat)
    requires j < |Selected(cfg, GeneratedCases(home))|
    ensures |Kept(cfg, GeneratedCases(home))| == |Selected(cfg, GeneratedCases(home))|
    ensures Unaimed(home, cfg, j) in GeneratedCases(home)
    ensures Selected(cfg, GeneratedCases(home))[j]
         == (var c := Unaimed(home, cfg, j); if cfg.targetApid.Some? then Retarget(cfg.targetApid.value, c) else c)
  {
    hide Retarget, GeneratedCases, SelectionConfig.Keeps;
    RetargetCommutesWithFilter(cfg, GeneratedCases(home));
    KeptInOrder(cfg, GeneratedCases(home));
  }

  lemma SuiteLeavesNoStragglers(home: int, k: Link, o: Oracle, cfg: SelectionConfig, t: TargetState, i: nat, n: nat)
    ensures NoStragglers(k, o, Selected(cfg, GeneratedCases(home)), t, i, n)
  {
    hide Retarget, GeneratedCases, Selected, Kept, NoStragglers;
    var cases := Selected(cfg, GeneratedCases(home));
    forall c | c in cases ensures c.packet != HK_REQUEST {
      var j :| 0 <= j < |cases| && cases[j] == c;
      SelectedFromGenerated(home, cfg, j);
      GeneratedNotHk(home, if cfg.targetApid.Some? then cfg.targetApid.value else 0, Unaimed(home, cfg, j));
    }
    NoneIsHk(k, o, cases, t, i, n);
  }

  /** A dependable channel and a quiet queue make every run of the suite reliable. */
  lemma SuiteIsReliable(home: int, k: Link, o: Oracle, cfg: SelectionConfig, w: World, n: nat)
    requires Dependable(k, o) && Quiet(k, w)
    ensures Reliable(k, o, Selected(cfg, GeneratedCases(home)), w, n)
  {
    hide Dependable, Quiet, Reliable, NoStragglers, GeneratedCases, Selected;
    SuiteLeavesNoStragglers(home, k, o, cfg, w.target, w.sends, n);
    DependableIsReliable(k, o, Selected(cfg, GeneratedCases(home)), w, n);
  }

  /** Was case `j` of the selected suite delivered, in a run that starts with send number `i`? */
  ghost predicate CaseDelivered(k: Link, cases: seq<PacketCase>, i: nat, j: nat)
    requires j < |cases|
  {
    k.fates(CaseSend(k, cases, i, j), cases[j].packet).outcome.Delivered?
  }

  /**
    The harness's promise about a well-behaved target, with its one exception. The suite, retargeted to the
    target's APID and run over any channel with working housekeeping, reports case `j` unsafe if and only if
    `j` is the flag-set secondary-header case, the APID is one of the eight colliding ones, and the packet
    gets through; whenever the acceptance control gets through it is reported accepted.
   */
  lemma SuiteRun(home: int, k: Link, o: Oracle, cfg: SelectionConfig, w: World, n: nat, j: nat)
    requires Reliable(k, o, Selected(cfg, GeneratedCases(home)), w, n)
    requires o.CiLab? && !k.buggy && w.target.alive
    requires cfg.targetApid == Some(k.expectedApid) && 0 <= k.expectedApid < 2048
    requires j < |Selected(cfg, GeneratedCases(home))|
    ensures |Kept(cfg, GeneratedCases(home))| == |Selected(cfg, GeneratedCases(home))|
    ensures var cases := Selected(cfg, GeneratedCases(home));
      var r := RunSteps(k, o, cases, w, n);
      && r.findings.Some? && |r.findings.value| == |cases|
      && (r.findings.value[j].verdict.IsUnsafe() <==>
            && Unaimed(home, cfg, j) == FlagSetCase(home)
            && Collides(k.expectedApid)
            && CaseDelivered(k, cases, w.sends, j))
      && (r.findings.value[j].verdict.IsUnsafe() ==> r.findings.value[j].verdict == UnexpectedAccept)
      && (Unaimed(home, cfg, j).expectAccept && CaseDelivered(k, cases, w.sends, j) ==>
            r.findings.value[j].verdict == CleanAccept)
  {
    hide Retarget, GeneratedCases, Selected, Kept, RunSteps, Accepts, Collides, Tally, CaseSend, Reliable;
    hide LiveVerdict, FlagSetCase, SelectionConfig.Keeps;
    var cases := Selected(cfg, GeneratedCases(home));
    SoundTargetRun(k, o, cases, w, n);
    SelectedFromGenerated(home, cfg, j);
    var c := Unaimed(home, cfg, j);
    SuiteAcceptance(home, k.expectedApid, k.expectedApid, c);
    GeneratedNotHk(home, k.expectedApid, c);
    SameExpectations(k.expectedApid, c);
    ControlExpectsNoReject(home, c);
    VerdictOfCommand(k, cases[j], CaseSend(k, cases, w.sends, j));
  }

  /**
    Every verdict of such a run. A case that gets through is cleanly accepted if it is the control, the
    unsegmented sequence flags or the all-zero payload, is an unexpected accept if it is the flag-set
    secondary-header case and the APID collides, and is cleanly rejected otherwise.
   */
  lemma SuiteVerdicts(home: int, k: Link, o: Oracle, cfg: SelectionConfig, w: World, n: nat, j: nat)
    requires Reliable(k, o, Selected(cfg, GeneratedCases(home)), w, n)
    requires o.CiLab? && !k.buggy && w.target.alive
    requires cfg.targetApid == Some(k.expectedApid) && 0 <= k.expectedApid < 2048
    requires j < |Selected(cfg, GeneratedCases(home))|
    ensures var cases := Selected(cfg, GeneratedCases(home));
      var r := RunSteps(k, o, cases, w, n);
      && r.findings.Some? && |r.findings.value| == |cases| && r.findings.value[j].packetCase == cases[j]
      && r.findings.value[j].verdict
           == (if !k.fates(CaseSend(k, cases, w.sends, j), cases[j].packet).outcome.Delivered? then Inconclusive
               else if cases[j].name in {"ci_lab_noop", "seq_flags_11", "degenerate_all_zero"} then CleanAccept
               else if cases[j].name == "sec_hdr_flag_set_but_absent" && Collides(k.expectedApid)
               then UnexpectedAccept
               else CleanReject)
  {
    hide Retarget, GeneratedCases, Selected, Kept, RunSteps, Accepts, Collides, Tally, CaseSend, Reliable;
    hide FlagSetCase, SelectionConfig.Keeps;
    var cases := Selected(cfg, GeneratedCases(home));
    SoundTargetRun(k, o, cases, w, n);
    SelectedFromGenerated(home, cfg, j);
    var c := Unaimed(home, cfg, j);
    RetargetPreserves(k.expectedApid, c);
    AcceptedCases(home, k.expectedApid, k.expectedApid, c);
    SuiteAcceptance(home, k.expectedApid, k.expectedApid, c);
    GeneratedNotHk(home, k.expectedApid, c);
    SameExpectations(k.expectedApid, c);
    if c.name == "sec_hdr_flag_set_but_absent" {
      FlagSetByName(home, c);
    } else {
      SecondaryHeadersSpelledOut(home);
    }
  }

  /** The name determines the case. */
  lemma FlagSetByName(home: int, c: PacketCase)
    requires c in GeneratedCases(home) && c.name == "sec_hdr_flag_set_but_absent"
    ensures c == FlagSetCase(home)
  {
    hide GeneratedCases, FlagSetCase;
    SecondaryHeadersSpelledOut(home);
    Names.GeneratedNamesDistinct(home);
    var at := FlagSetPosition(home);
    var i :| 0 <= i < |GeneratedCases(home)| && GeneratedCases(home)[i] == c;
    assert i == at;
  }

  lemma SameExpectations(apid: int, c: PacketCase)
    ensures Retarget(apid, c).expectSafeReject == c.expectSafeReject
    ensures Retarget(apid, c).expectAccept == c.expectAccept
  {
    RetargetPreserves(apid, c);
  }

  lemma VerdictOfCommand(k: Link, c: PacketCase, i: nat)
    requires c.packet != HK_REQUEST
    ensures LiveVerdict(k, c, i).IsUnsafe() <==>
      k.fates(i, c.packet).outcome.Delivered? && Accepts(k.expectedApid, c.packet) && c.expectSafeReject
    ensures LiveVerdict(k, c, i).IsUnsafe() ==> LiveVerdict(k, c, i) == UnexpectedAccept
    ensures LiveVerdict(k, c, i) == CleanAccept <==>
      k.fates(i, c.packet).outcome.Delivered? && Accepts(k.expectedApid, c.packet) && !c.expectSafeReject
  {
    hide Accepts;
  }

  /** Run as generated, the suite never reports anything unsafe, and a target at its own APID accepts the control. */
  lemma UntargetedSuiteRun(home: int, k: Link, o: Oracle, cfg: SelectionConfig, w: World, n: nat, j: nat)
    requires Reliable(k, o, Selected(cfg, GeneratedCases(home)), w, n)
    requires o.CiLab? && !k.buggy && w.target.alive
    requires cfg.targetApid == None
    requires j < |Selected(cfg, GeneratedCases(home))|
    ensures |Kept(cfg, GeneratedCases(home))| == |Selected(cfg, GeneratedCases(home))|
    ensures var cases := Selected(cfg, GeneratedCases(home));
      var r := RunSteps(k, o, cases, w, n);
      && r.findings.Some? && |r.findings.value| == |cases|
      && r.findings.value[j].verdict
           == (if !CaseDelivered(k, cases, w.sends, j) then Inconclusive
               else if k.expectedApid == home % 2048 && cases[j].expectAccept then CleanAccept
               else CleanReject)
  {
    hide Retarget, GeneratedCases, Selected, Kept, RunSteps, Accepts, Tally, CaseSend, Reliable;
    var cases := Selected(cfg, GeneratedCases(home));
    SoundTargetRun(k, o, cases, w, n);
    SelectedFromGenerated(home, cfg, j);
    SuiteUntargeted(home, k.expectedApid, cases[j]);
    GeneratedNotHk(home, 0, cases[j]);
    ControlExpectsNoReject(home, cases[j]);
  }

  /** A selection that keeps the flag-set case, retargeted to a colliding APID, ends in a false accusation. */
  lemma CollidingRun(home: int, k: Link, o: Oracle, cfg: SelectionConfig, w: World, n: nat) returns (j: nat)
    requires Reliable(k, o, Selected(cfg, GeneratedCases(home)), w, n)
    requires o.CiLab? && !k.buggy && w.target.alive
    requires cfg.targetApid == Some(k.expectedApid) && Collides(k.expectedApid)
    requires cfg.Keeps(FlagSetCase(home))
    ensures j < |Selected(cfg, GeneratedCases(home))| == |Kept(cfg, GeneratedCases(home))|
    ensures Unaimed(home, cfg, j) == FlagSetCase(home)
    ensures var cases := Selected(cfg, GeneratedCases(home));
      var r := RunSteps(k, o, cases, w, n);
      && r.findings.Some? && j < |r.findings.value|
      && (CaseDelivered(k, cases, w.sends, j) ==> r.findings.value[j].verdict == UnexpectedAccept)
  {
    hide Retarget, GeneratedCases, Selected, Kept, RunSteps, Accepts, Reliable, CaseDelivered, FlagSetCase, Family;
    hide SelectionConfig.Keeps;
    SelectedLength(home, cfg);
    var at := FlagSetPosition(home);
    KeptComplete(cfg, GeneratedCases(home), at);
    KeptInOrder(cfg, GeneratedCases(home));
    j :| 0 <= j < |Origin(cfg, GeneratedCases(home))| && Origin(cfg, GeneratedCases(home))[j] == at;
    SuiteRun(home, k, o, cfg, w, n, j);
  }

  /** The flag-set case is in the suite. */
  lemma FlagSetPosition(home: int) returns (at: nat)
    ensures at < |GeneratedCases(home)| && GeneratedCases(home)[at] == FlagSetCase(home)
  {
    hide Family, FlagSetCase;
    InFirstFamilies(home, 10, 6, FlagSetCase(home));
    assert FlagSetCase(home) in GeneratedCases(home);
    at :| 0 <= at < |GeneratedCases(home)| && GeneratedCases(home)[at] == FlagSetCase(home);
  }

  lemma {:induction false} InFirstFamilies(home: int, n: nat, f: nat, c: PacketCase)
    requires f < n <= 10 && c == FlagSetCase(home) && f == 6
    ensures c in FirstFamilies(home, n)
  {
    hide Family, FlagSetCase;
    if f < n - 1 {
      InFirstFamilies(home, n - 1, f, c);
    } else {
      FlagSetInFamily(home);
    }
  }

  lemma FlagSetInFamily(home: int)
    ensures FlagSetCase(home) in Family(home, 6)
  {
    hide FlagSetCase, FlagClearCase;
    assert Family(home, 6)[0] == FlagSetCase(home);
  }

  // ---- One false accusation, spelled out ---------------------------------------------------------------------

  /** A channel that delivers everything at once to a sound target at this APID. */
  function InstantLink(apid: int): Link {
    Link((i, p) => Fate(0.0, Delivered(Some(0.0))), "target", apid, false, Filter(None, None), HK_REQUEST)
  }

  /** The unfiltered suite, retargeted to APID 0x25 and run over a perfect channel, accuses a fresh target. */
  lemma FalseAccusation(n: nat)
    ensures var cfg := SelectionConfig(Some(0x25), None, None, []);
      var cases := Selected(cfg, GeneratedCases(42));
      var w := World(0.0, [], 0, TargetState(0, 0, true), None);
      var r := RunSteps(InstantLink(0x25), CiLab(HK_REQUEST, 2.0, None), cases, w, n);
      r.findings.Some? && exists j :: 0 <= j < |r.findings.value| && r.findings.value[j].verdict == UnexpectedAccept
  {
    hide Retarget, GeneratedCases, Selected, Kept, RunSteps, Reliable, FlagSetCase, Collides, CaseSend;
    var cfg := SelectionConfig(Some(0x25), None, None, []);
    var k, o := InstantLink(0x25), CiLab(HK_REQUEST, 2.0, None);
    var w := World(0.0, [], 0, TargetState(0, 0, true), None);
    CollidingApids(0x25);
    SuiteIsReliable(42, k, o, cfg, w, n);
    var j := CollidingRun(42, k, o, cfg, w, n);
  }

  // ---- The whole harness at work ------------------------------------------------------------------------------

  /** Generate, select, run: the object-level form of `SoundTargetRun` and `SuiteRun`. */
  method RunGenerated(home: int, config: SelectionConfig, oracle: CiLabOracle, transport: UDPTransport)
    returns (findings: seq<Finding>)
    requires Reliable(transport.Channel(), oracle.Settings(), Selected(config, GeneratedCases(home)),
                      transport.State(), CallsOf(oracle.healthCheck))
    requires !transport.net.target.buggy && transport.net.target.alive
    requires config.targetApid == Some(transport.net.target.expectedApid)
    requires 0 <= transport.net.target.expectedApid < 2048
    modifies transport, transport.net, transport.net.target, oracle.healthCheck
    ensures |findings| == |Selected(config, GeneratedCases(home))|
    ensures forall j :: 0 <= j < |findings| ==>
      var cases := Selected(config, GeneratedCases(home));
      && findings[j].packetCase == cases[j]
      && findings[j].verdict
           == LiveVerdict(transport.Channel(), cases[j],
                          CaseSend(transport.Channel(), cases, old(transport.State()).sends, j))
    ensures !Collides(transport.net.target.expectedApid) ==> forall f :: f in findings ==> !f.verdict.IsUnsafe()
    ensures transport.net.target.alive && CallsOf(oracle.healthCheck) == old(CallsOf(oracle.healthCheck))
  {
    hide GeneratedCases, Selected, Kept, RunSteps, Collides, Tally, CaseSend, Reliable, LiveVerdict;
    hide FlagSetCase, CaseDelivered;
    ghost var k, o, w, n := transport.Channel(), oracle.Settings(), transport.State(), CallsOf(oracle.healthCheck);
    var generated := GenerateAll(home);
    var runner := new Runner(config);
    var result := runner.Run(generated, CiLabObject(oracle), transport);
    ghost var cases := Selected(config, GeneratedCases(home));
    SoundTargetRun(k, o, cases, w, n);
    findings := result.value;
    forall f | f in findings && !Collides(k.expectedApid) ensures !f.verdict.IsUnsafe() {
      var j :| 0 <= j < |findings| && findings[j] == f;
      SuiteRun(home, k, o, config, w, n, j);
    }
  }

  lemma SelectedLength(home: int, cfg: SelectionConfig)
    ensures |Selected(cfg, GeneratedCases(home))| == |Kept(cfg, GeneratedCases(home))|
  {
    hide GeneratedCases, Kept, Retarget;
    RetargetCommutesWithFilter(cfg, GeneratedCases(home));
  }
}
