/** From the generator to the baseline check: what a run's report is worth. */
module Pipeline {
  import opened Cases
  import opened Selection
  import opened Transport
  import opened Oracles
  import opened Harness
  import opened AnyChannel
  import B = Baseline

  // ---- The report -----------------------------------------------------------------------------------------

  function VerdictText(v: Verdict): (s: string)
    ensures s != ""
  {
    match v
    case CleanAccept => "clean_accept"
    case CleanReject => "clean_reject"
    case SafeDrop => "safe_drop"
    case Crash => "crash"
    case Hang => "hang"
    case UnexpectedAccept => "unexpected_accept"
    case Inconclusive => "inconclusive"
  }

  /** The entry of a finding in the JSON report, as far as the comparison reads it. */
  function Entry(f: Finding): B.Json {
    B.Object(map["name" := B.Text(f.packetCase.name), "verdict" := B.Text(VerdictText(f.verdict))])
  }

  function Entries(findings: seq<Finding>): (r: seq<B.Json>)
    ensures |r| == |findings|
  {
    seq(|findings|, i requires 0 <= i < |findings| => Entry(findings[i]))
  }

  function Report(findings: seq<Finding>): map<string, B.Json> {
    map["findings" := B.List(Entries(findings))]
  }

  lemma VerdictTextInjective(v: Verdict, u: Verdict)
    ensures VerdictText(v) == VerdictText(u) <==> v == u
  {
    assert |"clean_accept"| == 12 && |"clean_reject"| == 12 && |"safe_drop"| == 9 && |"crash"| == 5 && |"hang"| == 4
        && |"unexpected_accept"| == 17 && |"inconclusive"| == 12;
    assert "clean_accept"[6] == 'a' && "clean_reject"[6] == 'r' && "inconclusive"[6] == 'l';
  }

  /** The texts a report is read by, the three unsafe ones among them. */
  lemma VerdictTexts(f: Finding)
    ensures Entry(f).Object? && Entry(f).fields.Keys == {"name", "verdict"}
    ensures Entry(f).fields["name"] == B.Text(f.packetCase.name)
    ensures Entry(f).fields["verdict"] == B.Text("crash") <==> f.verdict == Crash
    ensures Entry(f).fields["verdict"] == B.Text("hang") <==> f.verdict == Hang
    ensures Entry(f).fields["verdict"] == B.Text("unexpected_accept") <==> f.verdict == UnexpectedAccept
    ensures Entry(f).fields["verdict"] == B.Text("clean_accept") <==> f.verdict == CleanAccept
    ensures Entry(f).fields["verdict"] == B.Text("clean_reject") <==> f.verdict == CleanReject
    ensures Entry(f).fields["verdict"] == B.Text("safe_drop") <==> f.verdict == SafeDrop
    ensures Entry(f).fields["verdict"] == B.Text("inconclusive") <==> f.verdict == Inconclusive
  {
    hide VerdictText;
    VerdictTextInjective(f.verdict, Crash);
    VerdictTextInjective(f.verdict, Hang);
    VerdictTextInjective(f.verdict, UnexpectedAccept);
    VerdictTextInjective(f.verdict, CleanAccept);
    VerdictTextInjective(f.verdict, CleanReject);
    VerdictTextInjective(f.verdict, SafeDrop);
    VerdictTextInjective(f.verdict, Inconclusive);
    SevenTexts();
  }

  lemma SevenTexts()
    ensures VerdictText(Crash) == "crash" && VerdictText(Hang) == "hang"
    ensures VerdictText(UnexpectedAccept) == "unexpected_accept"
    ensures VerdictText(CleanAccept) == "clean_accept" && VerdictText(CleanReject) == "clean_reject"
    ensures VerdictText(SafeDrop) == "safe_drop" && VerdictText(Inconclusive) == "inconclusive"
  {
  }

  // ---- Reports of runs --------------------------------------------------------------------------------------

  /** A report of distinctly named findings loads, and holds exactly their verdicts. */
  lemma ReportLoads(findings: seq<Finding>)
    requires forall i :: 0 <= i < |findings| ==> findings[i].packetCase.name != ""
    requires forall i, j :: 0 <= i < j < |findings| ==> findings[i].packetCase.name != findings[j].packetCase.name
    ensures B.HasFindings(Report(findings)) && B.Loadable(Entries(findings))
    ensures forall i :: 0 <= i < |findings| ==>
      && B.WellFormed(Entries(findings)[i])
      && B.NameOf(Entries(findings)[i]) == findings[i].packetCase.name
      && B.VerdictOf(Entries(findings)[i]) == VerdictText(findings[i].verdict)
  {
  }

  /** Findings of the same selection in two runs. */
  ghost predicate SameCases(f: seq<Finding>, g: seq<Finding>) {
    |f| == |g| && forall i :: 0 <= i < |f| ==> f[i].packetCase.name == g[i].packetCase.name
  }

  /**
    Comparing two reports over the same distinctly named cases never refuses either, and finds no difference
    exactly when every verdict agrees.
   */
  lemma ReportsCompare(f: seq<Finding>, g: seq<Finding>)
    requires SameCases(f, g)
    requires forall i :: 0 <= i < |f| ==> f[i].packetCase.name != ""
    requires forall i, j :: 0 <= i < j < |f| ==> f[i].packetCase.name != f[j].packetCase.name
    ensures B.Loadable(Entries(f)) && B.Loadable(Entries(g))
    ensures forall r :: B.Compares(Report(f), Report(g), r) ==>
      && r == B.Differences(B.Diff(B.VerdictsOf(Entries(f)), B.VerdictsOf(Entries(g))))
      && (r.differences == [] <==> forall i :: 0 <= i < |f| ==> f[i].verdict == g[i].verdict)
  {
    hide VerdictText, B.Diff, B.VerdictsOf, B.Loadable, Entry, Entries;
    ReportLoads(f);
    ReportLoads(g);
    var v, u := B.VerdictsOf(Entries(f)), B.VerdictsOf(Entries(g));
    B.DiffEmptyIffSame(v, u);
    forall i | 0 <= i < |f|
      ensures f[i].packetCase.name in v && f[i].packetCase.name in u
      ensures v[f[i].packetCase.name] == u[f[i].packetCase.name] <==> f[i].verdict == g[i].verdict
    {
      B.EntryOf(Entries(f), i);
      B.EntryOf(Entries(g), i);
      VerdictTextInjective(f[i].verdict, g[i].verdict);
    }
    if forall i :: 0 <= i < |f| ==> f[i].verdict == g[i].verdict {
      forall name | name in v ensures name in u && v[name] == u[name] {
        var i := B.OriginOf(Entries(f), name);
        assert name == f[i].packetCase.name;
      }
      forall name | name in u ensures name in v {
        var i := B.OriginOf(Entries(g), name);
        assert name == f[i].packetCase.name;
      }
      assert v == u;
    }
  }

  /**
    The whole pipeline: whatever the channels did, the reports of two finished runs of the same selection
    from distinctly named cases, such as the generated suite, are never refused by the comparison, and it
    finds a difference exactly when some case got a different verdict; in particular a report always agrees
    with itself.
   */
  lemma PipelineReports(generated: seq<PacketCase>, cfg: SelectionConfig, k: Link, o: Oracle, w: World, n: nat,
                        k': Link, o': Oracle, w': World, n': nat)
    requires DistinctNames(generated) && forall i :: 0 <= i < |generated| ==> generated[i].name != ""
    ensures var cases := Selected(cfg, generated);
      var r, r' := RunSteps(k, o, cases, w, n), RunSteps(k', o', cases, w', n');
      r.findings.Some? && r'.findings.Some? ==>
        && |r.findings.value| == |r'.findings.value| == |cases|
        && B.Loadable(Entries(r.findings.value)) && B.Loadable(Entries(r'.findings.value))
        && (forall c :: B.Compares(Report(r.findings.value), Report(r'.findings.value), c) ==>
              && c.Differences?
              && (c.differences == [] <==>
                    forall i :: 0 <= i < |cases| ==> r.findings.value[i].verdict == r'.findings.value[i].verdict))
  {
    hide Selected, RunSteps, B.Compares, B.Diff, B.VerdictsOf, B.Loadable, Entries, Report;
    var cases := Selected(cfg, generated);
    SelectedNames(cfg, generated);
    var r, r' := RunSteps(k, o, cases, w, n), RunSteps(k', o', cases, w', n');
    if r.findings.Some? && r'.findings.Some? {
      FindingsCarryCases(k, o, cases, w, n);
      FindingsCarryCases(k', o', cases, w', n');
      forall i | 0 <= i < |cases| ensures cases[i].name != "" {
        assert cases[i] in cases;
      }
      ReportsCompare(r.findings.value, r'.findings.value);
    }
  }

  lemma FindingsCarryCases(k: Link, o: Oracle, cases: seq<PacketCase>, w: World, n: nat)
    requires RunSteps(k, o, cases, w, n).findings.Some?
    ensures var fs := RunSteps(k, o, cases, w, n).findings.value;
      |fs| == |cases| && forall i :: 0 <= i < |cases| ==> fs[i].packetCase == cases[i]
  {
    hide RunSteps, WorldAt, FirstFailure, MetSilence, ReceivedCounters, ReachesSecond, AfterCase;
    EveryFindingJustified(k, o, cases, w, n);
    var fs := RunSteps(k, o, cases, w, n).findings.value;
    forall i | 0 <= i < |cases| ensures fs[i].packetCase == cases[i] {
      assert JustifiedAt(k, o, cases, w, n, fs[i], i);
    }
  }
}
