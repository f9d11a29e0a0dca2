/** What the refinement says about whole runs against sound and buggy targets. */
module RunProperties {
  import opened Wrappers
  import opened Target
  import opened Transport
  import opened Cases
  import opened Oracles
  import opened Harness
  import opened Freshness
  import opened ClosedLoop

  // ---- Channels on which every reading is answered -----------------------------------------------------

  /** A housekeeping request to a live target is prompt; to a dead one, which never replies, just not refused. */
  predicate PromptRequest(k: Link, timeout: real, alive: bool, i: nat) {
    if alive then Prompt(k.fates(i, HK_REQUEST), timeout) else !k.fates(i, HK_REQUEST).outcome.Refused?
  }

  /** The housekeeping requests of one judgement, at their own send numbers, are prompt. */
  predicate PromptCase(k: Link, o: Oracle, c: PacketCase, t: TargetState, i: nat) {
    if o.CiLab? then
      && PromptRequest(k, o.timeout, t.alive, i)
      && (t.alive && !k.fates(i + 1, c.packet).outcome.Refused? ==>
            PromptRequest(k, o.timeout, TargetAfter(k, t, c, i + 1).alive, i + 2))
    else
      !k.fates(i, c.packet).outcome.Refused? ==>
        PromptRequest(k, o.timeout, TargetAfter(k, t, c, i).alive, i + 1)
  }

  /** Every housekeeping request the run makes is; nothing is assumed about the sends of the cases. */
  predicate PromptReadings(k: Link, o: Oracle, cases: seq<PacketCase>, t: TargetState, i: nat, n: nat)
    decreases |cases|
  {
    cases != [] ==>
      var (t', i', n') := NextState(k, o, cases[0], t, i, n);
      PromptCase(k, o, cases[0], t, i) && PromptReadings(k, o, cases[1..], t', i', n')
  }

  /** No reading of the run is disturbed, and a live target's answers are in time. */
  predicate Reliable(k: Link, o: Oracle, cases: seq<PacketCase>, w: World, n: nat) {
    && Speaks(k, o) && o.timeout > 0.0
    && UndisturbedRun(k, o, cases, w, n)
    && PromptReadings(k, o, cases, w.target, w.sends, n)
  }

  /** Every housekeeping request is answered in time, whenever it is made. */
  ghost predicate Dependable(k: Link, o: Oracle) {
    Speaks(k, o) && o.timeout > 0.0 && forall i :: Prompt(k.fates(i, HK_REQUEST), o.timeout)
  }

  lemma {:induction false} DependablePrompts(k: Link, o: Oracle, cases: seq<PacketCase>, t: TargetState, i: nat, n: nat)
    requires Dependable(k, o)
    ensures PromptReadings(k, o, cases, t, i, n)
    decreases |cases|
  {
    hide NextState;
    if cases != [] {
      var (t', i', n') := NextState(k, o, cases[0], t, i, n);
      DependablePrompts(k, o, cases[1..], t', i', n');
    }
  }

  /**
    A dependable channel and a quiet queue, which can be checked before the run, make it reliable, unless a
    case is itself a housekeeping request and leaves a reply in flight.
   */
  lemma DependableIsReliable(k: Link, o: Oracle, cases: seq<PacketCase>, w: World, n: nat)
    requires Dependable(k, o) && Quiet(k, w) && NoStragglers(k, o, cases, w.target, w.sends, n)
    ensures Reliable(k, o, cases, w, n)
  {
    hide Quiet, NoStragglers, UndisturbedRun, PromptReadings;
    DependablePrompts(k, o, cases, w.target, w.sends, n);
    assert NeverLate(k, o);
    QuietRunUndisturbed(k, o, cases, w, n);
  }

  lemma PromptExchange(k: Link, timeout: real, alive: bool, i: nat)
    requires timeout > 0.0 && PromptRequest(k, timeout, alive, i)
    ensures var x := ExchangeOf(k, timeout, alive, i);
      if alive then x.Answered? else x.Unheard?
  {
  }

  /** A prompt counter judgement: only the case's own send and the target's death make a difference. */
  lemma PromptCiLab(k: Link, o: Oracle, c: PacketCase, t: TargetState, i: nat, n: nat)
    requires o.CiLab? && o.timeout > 0.0 && PromptCase(k, o, c, t, i)
    ensures var refused, t' := k.fates(i + 1, c.packet).outcome.Refused?, TargetAfter(k, t, c, i + 1);
      && NextState(k, o, c, t, i, n)
           == (if !t.alive then (t, i + 1, CallsAfter(o.health, n))
               else if refused then (t, i + 2, n)
               else (t', i + 3, if t'.alive then n else CallsAfter(o.health, n)))
      && ExpectedResult(k, o, c, t, i, n).verdict
           == (if !t.alive || (!refused && !t'.alive) then Silent(o.health, n)
               else if refused then Inconclusive
               else LiveVerdict(k, c, i + 1))
  {
    hide TargetState.Telemetry, TargetAfter, ExchangeOf, PromptRequest, LiveVerdict;
    PromptExchange(k, o.timeout, t.alive, i);
    if t.alive && !k.fates(i + 1, c.packet).outcome.Refused? {
      PromptExchange(k, o.timeout, TargetAfter(k, t, c, i + 1).alive, i + 2);
    }
  }

  /** What the health command makes of a silent target on its `n`-th run. */
  function Silent(health: Health, n: nat): Verdict {
    if health.Some? && !health.value(n) then Crash else Hang
  }

  // ---- A target that does not crash --------------------------------------------------------------------

  /** The run's send number for case `j` when `i` sends went before: a refused case skips its second reading. */
  function CaseSend(k: Link, cases: seq<PacketCase>, i: nat, j: nat): nat
    requires j < |cases|
    decreases j
  {
    if j == 0 then i + 1
    else CaseSend(k, cases[1..], i + (if k.fates(i + 1, cases[0].packet).outcome.Refused? then 2 else 3), j - 1)
  }

  /** A case that reached the target as a command. */
  predicate Commanded(k: Link, c: PacketCase, i: nat) {
    k.fates(i, c.packet).outcome.Delivered? && c.packet != HK_REQUEST
  }

  /** How many commands the target accepted, or rejected, in the course of the list. */
  function Tally(k: Link, cases: seq<PacketCase>, i: nat, accepted: bool): nat {
    if cases == [] then 0 else
    var c := cases[0];
    (if Commanded(k, c, i + 1) && Accepts(k.expectedApid, c.packet) == accepted then 1 else 0)
    + Tally(k, cases[1..], i + (if k.fates(i + 1, c.packet).outcome.Refused? then 2 else 3), accepted)
  }

  lemma {:induction false} SoundRunExpected(k: Link, o: Oracle, cases: seq<PacketCase>, t: TargetState, i: nat, n: nat)
    requires o.CiLab? && !k.buggy && t.alive && o.timeout > 0.0 && PromptReadings(k, o, cases, t, i, n)
    ensures var r := ExpectedRun(k, o, cases, t, i, n);
      forall j :: 0 <= j < |cases| ==>
        r[j].packetCase == cases[j] && r[j].verdict == LiveVerdict(k, cases[j], CaseSend(k, cases, i, j))
    ensures var (t', _, n') := StateAt(k, o, cases, t, i, n, |cases|);
      t' == TargetState(t.accepted + Tally(k, cases, i, true), t.errors + Tally(k, cases, i, false), true) && n' == n
    decreases |cases|
  {
    hide Accepts, ExpectedResult, NextState, PromptCase;
    if cases != [] {
      PromptCiLab(k, o, cases[0], t, i, n);
      var (t', i', n') := NextState(k, o, cases[0], t, i, n);
      SoundRunExpected(k, o, cases[1..], t', i', n');
      forall j | 0 <= j < |cases|
        ensures var r := ExpectedRun(k, o, cases, t, i, n);
          r[j].packetCase == cases[j] && r[j].verdict == LiveVerdict(k, cases[j], CaseSend(k, cases, i, j))
      {
        if j > 0 {
          assert cases[1..][j - 1] == cases[j];
        }
      }
    }
  }

  /**
    Against a live target that is not buggy, a counter run reports one finding per case, in order, and each
    verdict is what asking the target's acceptance predicate about the packet would give; the target's true
    counters move by exactly the commands delivered; no health command is run.
   */
  lemma SoundTargetRun(k: Link, o: Oracle, cases: seq<PacketCase>, w: World, n: nat)
    requires Reliable(k, o, cases, w, n)
    requires o.CiLab? && !k.buggy && w.target.alive
    ensures var r := RunSteps(k, o, cases, w, n);
      && r.findings.Some? && |r.findings.value| == |cases|
      && (forall j :: 0 <= j < |cases| ==>
            && r.findings.value[j].packetCase == cases[j]
            && r.findings.value[j].verdict == LiveVerdict(k, cases[j], CaseSend(k, cases, w.sends, j)))
      && r.world.target == TargetState(w.target.accepted + Tally(k, cases, w.sends, true),
                                       w.target.errors + Tally(k, cases, w.sends, false), true)
      && r.calls == n
  {
    hide RunSteps, ExpectedRun, StateAt, LiveVerdict, Tally, CaseSend, UndisturbedRun, PromptReadings;
    RunRefines(k, o, cases, w, n);
    SoundRunExpected(k, o, cases, w.target, w.sends, n);
  }

  lemma {:induction false} SoundStateAt(k: Link, o: Oracle, cases: seq<PacketCase>,
                                        t: TargetState, i: nat, n: nat, j: nat)
    requires o.CiLab? && !k.buggy && t.alive && j <= |cases|
    requires o.timeout > 0.0 && PromptReadings(k, o, cases, t, i, n)
    ensures var (u, s, m) := StateAt(k, o, cases, t, i, n, j);
      && u == TargetState(t.accepted + Tally(k, cases[..j], i, true), t.errors + Tally(k, cases[..j], i, false), true)
      && m == n
      && (j < |cases| ==> s + 1 == CaseSend(k, cases, i, j) && PromptCase(k, o, cases[j], u, s))
    decreases j
  {
    hide Accepts, ExpectedResult, PromptCase, NextState;
    if j > 0 {
      PromptCiLab(k, o, cases[0], t, i, n);
      var (t', i', n') := NextState(k, o, cases[0], t, i, n);
      SoundStateAt(k, o, cases[1..], t', i', n', j - 1);
      assert cases[..j][1..] == cases[1..][..j - 1];
    }
  }

  lemma {:induction false} StateAtNext(k: Link, o: Oracle, cases: seq<PacketCase>,
                                       t: TargetState, i: nat, n: nat, j: nat)
    requires j < |cases|
    ensures var (u, s, m) := StateAt(k, o, cases, t, i, n, j);
      StateAt(k, o, cases, t, i, n, j + 1) == NextState(k, o, cases[j], u, s, m)
    decreases j
  {
    hide NextState;
    if j > 0 {
      var (t', i', n') := NextState(k, o, cases[0], t, i, n);
      StateAtNext(k, o, cases[1..], t', i', n', j - 1);
    }
  }

  /**
    The evidence of a sound run is the truth: before case `j` the counters are the initial counts and what
    the cases up to it added, after it case `j` has been counted too, all modulo 256.
   */
  lemma SoundTargetEvidence(k: Link, o: Oracle, cases: seq<PacketCase>, w: World, n: nat, j: nat)
    requires Reliable(k, o, cases, w, n)
    requires o.CiLab? && !k.buggy && w.target.alive && j < |cases|
    ensures var r := RunSteps(k, o, cases, w, n);
      && r.findings.Some? && j < |r.findings.value|
      && r.findings.value[j].evidence == Evidence(
           Some(Counters((w.target.accepted + Tally(k, cases[..j], w.sends, true)) % 256,
                         (w.target.errors + Tally(k, cases[..j], w.sends, false)) % 256, 0, 1, 0, 0)),
           if k.fates(CaseSend(k, cases, w.sends, j), cases[j].packet).outcome.Refused? then None
           else Some(Counters((w.target.accepted + Tally(k, cases[..j + 1], w.sends, true)) % 256,
                              (w.target.errors + Tally(k, cases[..j + 1], w.sends, false)) % 256, 0, 1, 0, 0)),
           None)
  {
    hide RunSteps, ExpectedRun, StateAt, Tally, CaseSend, UndisturbedRun, PromptReadings, TargetAfter, LiveVerdict;
    RunRefines(k, o, cases, w, n);
    var t, i := w.target, w.sends;
    SoundStateAt(k, o, cases, t, i, n, j);
    SoundStateAt(k, o, cases, t, i, n, j + 1);
    StateAtNext(k, o, cases, t, i, n, j);
    ExpectedAt(k, o, cases, t, i, n, j);
    var (u, s, _) := StateAt(k, o, cases, t, i, n, j);
    PromptExchange(k, o.timeout, true, s);
    if !k.fates(s + 1, cases[j].packet).outcome.Refused? {
      StaysUp(k, u, cases[j], s + 1);
      PromptExchange(k, o.timeout, true, s + 2);
    }
  }

  lemma StaysUp(k: Link, t: TargetState, c: PacketCase, i: nat)
    requires !k.buggy && t.alive
    ensures TargetAfter(k, t, c, i).alive
  {
    hide Accepts;
  }

  // ---- A target that crashes -----------------------------------------------------------------------------

  /** The first case that reaches a buggy target and is over its size limit, or the length of the list. */
  function FirstFatal(k: Link, cases: seq<PacketCase>, i: nat): (m: nat)
    ensures m <= |cases|
  {
    if cases == [] then 0
    else if k.fates(i + 1, cases[0].packet).outcome.Delivered? && |cases[0].packet| > MAX_COMMAND_SIZE then 0
    else 1 + FirstFatal(k, cases[1..], i + (if k.fates(i + 1, cases[0].packet).outcome.Refused? then 2 else 3))
  }

  /** It is fatal, and nothing before it is: an oversized packet whose send fails or is lost kills nobody. */
  lemma {:induction false} FirstFatalIsFirst(k: Link, cases: seq<PacketCase>, i: nat, j: nat)
    requires j < |cases| && j <= FirstFatal(k, cases, i)
    ensures j == FirstFatal(k, cases, i) <==>
      k.fates(CaseSend(k, cases, i, j), cases[j].packet).outcome.Delivered? && |cases[j].packet| > 2048
  {
    if j > 0 {
      FirstFatalIsFirst(k, cases[1..],
                        i + (if k.fates(i + 1, cases[0].packet).outcome.Refused? then 2 else 3), j - 1);
    }
  }

  lemma {:induction false} DeadRunExpected(k: Link, o: Oracle, cases: seq<PacketCase>,
                                           t: TargetState, i: nat, n: nat, j: nat)
    requires o.CiLab? && !t.alive && j < |cases| && o.timeout > 0.0 && PromptReadings(k, o, cases, t, i, n)
    ensures ExpectedRun(k, o, cases, t, i, n)[j].verdict == Silent(o.health, n + j)
    decreases j
  {
    hide ExpectedResult, NextState, PromptCase, TargetAfter;
    PromptCiLab(k, o, cases[0], t, i, n);
    if j > 0 {
      DeadRunExpected(k, o, cases[1..], t, i + 1, CallsAfter(o.health, n), j - 1);
    }
  }

  lemma {:induction false} CrashRunExpected(k: Link, o: Oracle, cases: seq<PacketCase>,
                                            t: TargetState, i: nat, n: nat, j: nat)
    requires o.CiLab? && k.buggy && t.alive && j < |cases|
    requires o.timeout > 0.0 && PromptReadings(k, o, cases, t, i, n)
    ensures var m := FirstFatal(k, cases, i);
      var r, sound := ExpectedRun(k, o, cases, t, i, n), ExpectedRun(k.(buggy := false), o, cases, t, i, n);
      && (j < m ==> r[j] == sound[j])
      && (j >= m ==> r[j].verdict == Silent(o.health, n + (j - m)))
    decreases j
  {
    hide Accepts, ExpectedResult, NextState, PromptCase, LiveVerdict;
    var c := cases[0];
    PromptCiLab(k, o, c, t, i, n);
    var (t', i', n') := NextState(k, o, c, t, i, n);
    if FirstFatal(k, cases, i) == 0 {
      assert c.packet != HK_REQUEST;
      if j > 0 {
        DeadRunExpected(k, o, cases[1..], t', i', n', j - 1);
      }
    } else if j > 0 {
      SameUnlessFatal(k, o, c, t, i, n);
      CrashRunExpected(k, o, cases[1..], t', i', n', j - 1);
      assert FirstFatal(k, cases, i) == 1 + FirstFatal(k, cases[1..], i');
    } else {
      SameUnlessFatal(k, o, c, t, i, n);
    }
  }

  /** A case that is not fatal is judged alike by the sound and the buggy target. */
  lemma SameUnlessFatal(k: Link, o: Oracle, c: PacketCase, t: TargetState, i: nat, n: nat)
    requires o.CiLab? && t.alive
    requires !(k.fates(i + 1, c.packet).outcome.Delivered? && |c.packet| > MAX_COMMAND_SIZE)
    ensures ExpectedResult(k, o, c, t, i, n) == ExpectedResult(k.(buggy := false), o, c, t, i, n)
    ensures NextState(k, o, c, t, i, n) == NextState(k.(buggy := false), o, c, t, i, n)
  {
    hide Accepts, TargetState.Telemetry;
  }

  /**
    Crash absorption and prefix agreement: up to the first oversized packet that is delivered, a run against
    the buggy target reports what a run against the sound one reports; from that case on every finding is
    unsafe, a crash when the health command says so and a hang otherwise.
   */
  lemma BuggyTargetRun(k: Link, o: Oracle, cases: seq<PacketCase>, w: World, n: nat)
    requires o.CiLab? && k.buggy && w.target.alive
    requires Reliable(k, o, cases, w, n) && UndisturbedRun(k.(buggy := false), o, cases, w, n)
    ensures var r, sound := RunSteps(k, o, cases, w, n), RunSteps(k.(buggy := false), o, cases, w, n);
      var m := FirstFatal(k, cases, w.sends);
      && r.findings.Some? && sound.findings.Some?
      && |r.findings.value| == |sound.findings.value| == |cases|
      && r.findings.value[..m] == sound.findings.value[..m]
      && (forall j :: m <= j < |cases| ==>
            && r.findings.value[j].verdict == Silent(o.health, n + (j - m))
            && r.findings.value[j].verdict.IsUnsafe())
  {
    hide RunSteps, ExpectedRun, StateAt, FirstFatal, UndisturbedRun, PromptReadings;
    var q := k.(buggy := false);
    RunRefines(k, o, cases, w, n);
    RunRefines(q, o, cases, w, n);
    forall j | 0 <= j < |cases|
      ensures var m := FirstFatal(k, cases, w.sends);
        var r, sound := ExpectedRun(k, o, cases, w.target, w.sends, n), ExpectedRun(q, o, cases, w.target, w.sends, n);
        && (j < m ==> r[j] == sound[j])
        && (j >= m ==> r[j].verdict == Silent(o.health, n + (j - m)))
    {
      CrashRunExpected(k, o, cases, w.target, w.sends, n, j);
    }
  }

  /** The trace of an actual crash is reliable: after the fatal packet nothing comes back, and it is reported. */
  lemma CrashIsReported(k: Link, o: Oracle, c: PacketCase, w: World, n: nat)
    requires o.CiLab? && Speaks(k, o) && o.timeout > 0.0 && k.buggy && |c.packet| > MAX_COMMAND_SIZE
    requires forall i, p :: k.fates(i, p) == Fate(0.0, Delivered(if i < 2 then Some(0.0) else None))
    requires w.target.alive && w.sends == 0 && w.pending == []
    ensures Reliable(k, o, [c], w, n) && UndisturbedRun(k.(buggy := false), o, [c], w, n)
    ensures var r := RunSteps(k, o, [c], w, n);
      r.findings.Some? && |r.findings.value| == 1 && r.findings.value[0].verdict == Silent(o.health, n)
  {
    hide RunSteps, JudgeStep, UndisturbedCase, Accepts;
    assert c.packet != HK_REQUEST;
    QuietRunUndisturbed(k, o, [c], w, n);
    QuietRunUndisturbed(k.(buggy := false), o, [c], w, n);
    assert PromptCase(k, o, c, w.target, 0);
    assert [c][1..] == [];
    assert PromptReadings(k, o, [c], w.target, 0, n);
    assert FirstFatal(k, [c], 0) == 0;
    BuggyTargetRun(k, o, [c], w, n);
  }

  // ---- A crash over any channel ----------------------------------------------------------------------------

  /** The judgement gets as far as sending its oversized packet to a live target, and the packet arrives. */
  predicate Kills(k: Link, o: Oracle, c: PacketCase, i: nat) {
    && ExchangeOf(k, o.timeout, true, i).Answered?
    && k.fates(i + 1, c.packet).outcome.Delivered? && |c.packet| > MAX_COMMAND_SIZE
  }

  /** The first case that kills a buggy target, or the length of the list. */
  function FirstKill(k: Link, o: Oracle, cases: seq<PacketCase>, t: TargetState, i: nat, n: nat): (m: nat)
    ensures m <= |cases|
  {
    if cases == [] || Kills(k, o, cases[0], i) then 0 else
    var (t', i', n') := NextState(k, o, cases[0], t, i, n);
    1 + FirstKill(k, o, cases[1..], t', i', n')
  }

  /** The target is alive when a case comes up exactly until that case has been judged. */
  lemma {:induction false} AliveUntilKill(k: Link, o: Oracle, cases: seq<PacketCase>,
                                          t: TargetState, i: nat, n: nat, j: nat)
    requires o.CiLab? && k.buggy && t.alive && j <= |cases|
    ensures var m, (u, s, _) := FirstKill(k, o, cases, t, i, n), StateAt(k, o, cases, t, i, n, j);
      && (u.alive <==> j <= m)
      && (j <= m && j < |cases| ==> (j == m <==> Kills(k, o, cases[j], s)))
    decreases j
  {
    hide Accepts, ExchangeOf;
    if j > 0 {
      var (t', i', n') := NextState(k, o, cases[0], t, i, n);
      if Kills(k, o, cases[0], i) {
        StaysDead(k, o, cases[1..], t', i', n', j - 1);
      } else {
        AliveUntilKill(k, o, cases[1..], t', i', n', j - 1);
      }
    }
  }

  lemma {:induction false} StaysDead(k: Link, o: Oracle, cases: seq<PacketCase>,
                                     t: TargetState, i: nat, n: nat, j: nat)
    requires o.CiLab? && !t.alive && j <= |cases|
    ensures !StateAt(k, o, cases, t, i, n, j).0.alive
    decreases j
  {
    if j > 0 {
      var (t', i', n') := NextState(k, o, cases[0], t, i, n);
      StaysDead(k, o, cases[1..], t', i', n', j - 1);
    }
  }

  /** Up to the killing case the buggy and the sound target are judged alike. */
  lemma {:induction false} SameUntilKill(k: Link, o: Oracle, cases: seq<PacketCase>,
                                         t: TargetState, i: nat, n: nat, j: nat)
    requires o.CiLab? && k.buggy && t.alive && j < FirstKill(k, o, cases, t, i, n)
    ensures ExpectedRun(k, o, cases, t, i, n)[j] == ExpectedRun(k.(buggy := false), o, cases, t, i, n)[j]
    decreases j
  {
    hide Accepts, TargetState.Telemetry, LiveVerdict, ExchangeOf;
    SameUnlessKilled(k, o, cases[0], t, i, n);
    if j > 0 {
      var (t', i', n') := NextState(k, o, cases[0], t, i, n);
      SameUntilKill(k, o, cases[1..], t', i', n', j - 1);
    }
  }

  lemma SameUnlessKilled(k: Link, o: Oracle, c: PacketCase, t: TargetState, i: nat, n: nat)
    requires o.CiLab? && k.buggy && t.alive && !Kills(k, o, c, i)
    ensures ExpectedResult(k, o, c, t, i, n) == ExpectedResult(k.(buggy := false), o, c, t, i, n)
    ensures NextState(k, o, c, t, i, n) == NextState(k.(buggy := false), o, c, t, i, n)
    ensures NextState(k, o, c, t, i, n).0.alive
  {
    hide Accepts, TargetState.Telemetry;
  }

  /**
    Crash absorption over any undisturbed channel, housekeeping traffic refused, lost or late as it may be.
    Up to the first case that kills it, a buggy target is reported like a sound one. From that case on a
    finding is inconclusive if the housekeeping request it waits on was refused; every other is unsafe, a
    crash when the health command says so at its next run and a hang otherwise.
   */
  lemma CrashedTargetRun(k: Link, o: Oracle, cases: seq<PacketCase>, w: World, n: nat)
    requires o.CiLab? && k.buggy && w.target.alive && Speaks(k, o)
    requires UndisturbedRun(k, o, cases, w, n) && UndisturbedRun(k.(buggy := false), o, cases, w, n)
    ensures var r, sound := RunSteps(k, o, cases, w, n), RunSteps(k.(buggy := false), o, cases, w, n);
      var m := FirstKill(k, o, cases, w.target, w.sends, n);
      && r.findings.Some? && sound.findings.Some?
      && |r.findings.value| == |sound.findings.value| == |cases|
      && r.findings.value[..m] == sound.findings.value[..m]
      && (forall j :: m <= j < |cases| ==>
            var (_, i, calls) := StateAt(k, o, cases, w.target, w.sends, n, j);
            var refused := k.fates(if j == m then i + 2 else i, HK_REQUEST).outcome.Refused?;
            && r.findings.value[j].verdict == (if refused then Inconclusive else Silent(o.health, calls))
            && (r.findings.value[j].verdict.IsUnsafe() <==> !refused))
  {
    hide RunSteps, ExpectedRun, StateAt, FirstKill, UndisturbedRun, Accepts, TargetState.Telemetry, LiveVerdict;
    var q := k.(buggy := false);
    RunRefines(k, o, cases, w, n);
    RunRefines(q, o, cases, w, n);
    var t, i := w.target, w.sends;
    var m := FirstKill(k, o, cases, t, i, n);
    forall j | 0 <= j < m ensures ExpectedRun(k, o, cases, t, i, n)[j] == ExpectedRun(q, o, cases, t, i, n)[j] {
      SameUntilKill(k, o, cases, t, i, n, j);
    }
    forall j | m <= j < |cases|
      ensures var (_, s, calls) := StateAt(k, o, cases, t, i, n, j);
        ExpectedRun(k, o, cases, t, i, n)[j].verdict
          == if k.fates(if j == m then s + 2 else s, HK_REQUEST).outcome.Refused? then Inconclusive
             else Silent(o.health, calls)
    {
      AliveUntilKill(k, o, cases, t, i, n, j);
      ExpectedAt(k, o, cases, t, i, n, j);
    }
  }

  // ---- Runs with the liveness oracle ------------------------------------------------------------------------

  /** The run's send number for case `j`: a refused case is not followed by a probe. */
  function UnprobedSend(k: Link, cases: seq<PacketCase>, i: nat, j: nat): nat
    requires j < |cases|
    decreases j
  {
    if j == 0 then i
    else UnprobedSend(k, cases[1..], i + (if k.fates(i, cases[0].packet).outcome.Refused? then 1 else 2), j - 1)
  }

  predicate Fatal(k: Link, c: PacketCase, i: nat) {
    k.buggy && k.fates(i, c.packet).outcome.Delivered? && |c.packet| > MAX_COMMAND_SIZE
  }

  /** Some case up to `j` killed the target. */
  ghost predicate Doomed(k: Link, cases: seq<PacketCase>, i: nat, j: nat)
    requires j < |cases|
  {
    exists m :: 0 <= m <= j && Fatal(k, cases[m], UnprobedSend(k, cases, i, m))
  }

  /** How many probes go unanswered before case `j`, the target being alive or not at the start. */
  function SilentProbes(k: Link, o: Oracle, cases: seq<PacketCase>, i: nat, alive: bool, j: nat): nat
    requires j <= |cases|
    decreases j
  {
    if j == 0 then 0 else
    var c := cases[0];
    if k.fates(i, c.packet).outcome.Refused? then SilentProbes(k, o, cases[1..], i + 1, alive, j - 1) else
    var alive' := alive && !Fatal(k, c, i);
    (if ExchangeOf(k, o.timeout, alive', i + 1).Unheard? then 1 else 0)
    + SilentProbes(k, o, cases[1..], i + 2, alive', j - 1)
  }

  lemma {:induction false} LivenessRunExpected(k: Link, o: Oracle, cases: seq<PacketCase>,
                                               t: TargetState, i: nat, n: nat, j: nat)
    requires o.Liveness? && j < |cases|
    ensures var f, s := ExpectedRun(k, o, cases, t, i, n)[j], UnprobedSend(k, cases, i, j);
      && f.packetCase == cases[j]
      && f.verdict == (if k.fates(s, cases[j].packet).outcome.Refused? then Inconclusive
                       else if ExchangeOf(k, o.timeout, t.alive && !Doomed(k, cases, i, j), s + 1).Unheard?
                       then Silent(o.health, n + SilentProbes(k, o, cases, i, t.alive, j))
                       else Inconclusive)
    decreases j
  {
    hide Accepts, ExchangeOf, Doomed;
    var c := cases[0];
    var (t', i', n') := NextState(k, o, c, t, i, n);
    assert t'.alive <==> t.alive && !Fatal(k, c, i);
    if j > 0 {
      LivenessRunExpected(k, o, cases[1..], t', i', n', j - 1);
      assert cases[1..][j - 1] == cases[j];
      DoomedTail(k, cases, i, j, i');
    } else {
      DoomedFirst(k, cases, i);
    }
  }

  lemma {:induction false} PromptProbe(k: Link, o: Oracle, cases: seq<PacketCase>,
                                       t: TargetState, i: nat, n: nat, j: nat)
    requires o.Liveness? && j < |cases| && PromptReadings(k, o, cases, t, i, n)
    ensures var s := UnprobedSend(k, cases, i, j);
      !k.fates(s, cases[j].packet).outcome.Refused? ==>
        PromptRequest(k, o.timeout, t.alive && !Doomed(k, cases, i, j), s + 1)
    decreases j
  {
    hide Accepts, ExchangeOf, PromptRequest, Doomed;
    var (t', i', n') := NextState(k, o, cases[0], t, i, n);
    assert t'.alive <==> t.alive && !Fatal(k, cases[0], i);
    if j > 0 {
      PromptProbe(k, o, cases[1..], t', i', n', j - 1);
      assert cases[1..][j - 1] == cases[j];
      DoomedTail(k, cases, i, j, i');
    } else {
      DoomedFirst(k, cases, i);
    }
  }

  lemma DoomedFirst(k: Link, cases: seq<PacketCase>, i: nat)
    requires cases != []
    ensures Doomed(k, cases, i, 0) <==> Fatal(k, cases[0], i)
  {
    hide Fatal;
    assert UnprobedSend(k, cases, i, 0) == i;
  }

  lemma DoomedTail(k: Link, cases: seq<PacketCase>, i: nat, j: nat, i': nat)
    requires 0 < j < |cases| && i' == i + (if k.fates(i, cases[0].packet).outcome.Refused? then 1 else 2)
    ensures Doomed(k, cases, i, j) <==> Fatal(k, cases[0], i) || Doomed(k, cases[1..], i', j - 1)
  {
    hide Fatal;
    if Doomed(k, cases[1..], i', j - 1) {
      var m :| 0 <= m <= j - 1 && Fatal(k, cases[1..][m], UnprobedSend(k, cases[1..], i', m));
      assert cases[m + 1] == cases[1..][m] && UnprobedSend(k, cases, i, m + 1) == UnprobedSend(k, cases[1..], i', m);
      assert Fatal(k, cases[m + 1], UnprobedSend(k, cases, i, m + 1));
    }
    if Fatal(k, cases[0], i) {
      assert Fatal(k, cases[0], UnprobedSend(k, cases, i, 0));
    }
    if Doomed(k, cases, i, j) {
      var m :| 0 <= m <= j && Fatal(k, cases[m], UnprobedSend(k, cases, i, m));
      if m > 0 {
        assert cases[m] == cases[1..][m - 1] && UnprobedSend(k, cases, i, m) == UnprobedSend(k, cases[1..], i', m - 1);
        assert Fatal(k, cases[1..][m - 1], UnprobedSend(k, cases[1..], i', m - 1));
      }
    }
  }

  /**
    The liveness oracle over any undisturbed channel, whatever the target: a case is a crash or a hang exactly
    when its own send was not refused and its probe went unheard, because the target is dead by then or the
    probe or its answer was lost or late; and then the health command's next run tells which.
   */
  lemma LossyLivenessRun(k: Link, o: Oracle, cases: seq<PacketCase>, w: World, n: nat, j: nat)
    requires Speaks(k, o) && UndisturbedRun(k, o, cases, w, n)
    requires o.Liveness? && j < |cases|
    ensures var r, s := RunSteps(k, o, cases, w, n), UnprobedSend(k, cases, w.sends, j);
      var alive := w.target.alive && !Doomed(k, cases, w.sends, j);
      && r.findings.Some? && |r.findings.value| == |cases| && r.findings.value[j].packetCase == cases[j]
      && r.findings.value[j].verdict ==
           (if k.fates(s, cases[j].packet).outcome.Refused? then Inconclusive
            else if ExchangeOf(k, o.timeout, alive, s + 1).Unheard?
            then Silent(o.health, n + SilentProbes(k, o, cases, w.sends, w.target.alive, j))
            else Inconclusive)
  {
    hide RunSteps, ExpectedRun, StateAt, UnprobedSend, Fatal, Doomed, UndisturbedRun, ExchangeOf;
    RunRefines(k, o, cases, w, n);
    LivenessRunExpected(k, o, cases, w.target, w.sends, n, j);
  }

  /**
    Where a live target's answers are in time, it is inconclusive about a case whose packet the OS refused, and
    as long as no case so far has killed the target; after that it reports what the health command says at
    its next run.
   */
  lemma LivenessRun(k: Link, o: Oracle, cases: seq<PacketCase>, w: World, n: nat, j: nat)
    requires Reliable(k, o, cases, w, n)
    requires o.Liveness? && w.target.alive && j < |cases|
    ensures var r := RunSteps(k, o, cases, w, n);
      && r.findings.Some? && |r.findings.value| == |cases| && r.findings.value[j].packetCase == cases[j]
      && r.findings.value[j].verdict ==
           (if k.fates(UnprobedSend(k, cases, w.sends, j), cases[j].packet).outcome.Refused? then Inconclusive
            else if !Doomed(k, cases, w.sends, j) then Inconclusive
            else Silent(o.health, n + SilentProbes(k, o, cases, w.sends, true, j)))
  {
    hide RunSteps, UnprobedSend, Fatal, Doomed, UndisturbedRun, PromptReadings, ExchangeOf, PromptRequest;
    var s, alive := UnprobedSend(k, cases, w.sends, j), !Doomed(k, cases, w.sends, j);
    LossyLivenessRun(k, o, cases, w, n, j);
    PromptProbe(k, o, cases, w.target, w.sends, n, j);
    if !k.fates(s, cases[j].packet).outcome.Refused? {
      PromptExchange(k, o.timeout, alive, s + 1);
    }
  }

  // ---- Channels that lose housekeeping traffic ------------------------------------------------------------

  lemma {:induction false} StaysAlive(k: Link, o: Oracle, cases: seq<PacketCase>,
                                      t: TargetState, i: nat, n: nat, j: nat)
    requires !k.buggy && t.alive && j <= |cases|
    ensures StateAt(k, o, cases, t, i, n, j).0.alive
    decreases j
  {
    hide Accepts, ExchangeOf;
    if j > 0 {
      var (t', i', n') := NextState(k, o, cases[0], t, i, n);
      StaysAlive(k, o, cases[1..], t', i', n', j - 1);
    }
  }

  /**
    A live, sound target over a channel that may refuse, lose or delay housekeeping traffic at will, no
    reading disturbed. A case is a hang or a crash if and only if one of its own housekeeping exchanges went
    unanswered, it has a counter verdict only if both were answered, and then the verdict of the acceptance
    predicate: losing traffic never produces an unexpected accept.
   */
  lemma LossyChannelRun(k: Link, o: Oracle, cases: seq<PacketCase>, w: World, n: nat, j: nat)
    requires Speaks(k, o) && UndisturbedRun(k, o, cases, w, n)
    requires o.CiLab? && !k.buggy && w.target.alive && j < |cases|
    ensures var r := RunSteps(k, o, cases, w, n);
      var (t, i, m) := StateAt(k, o, cases, w.target, w.sends, n, j);
      var c := cases[j];
      var first, second := ExchangeOf(k, o.timeout, true, i), ExchangeOf(k, o.timeout, true, i + 2);
      var refused := k.fates(i + 1, c.packet).outcome.Refused?;
      && r.findings.Some? && |r.findings.value| == |cases| && r.findings.value[j].packetCase == c
      && var v := r.findings.value[j].verdict;
      && (v == Hang || v == Crash <==> first.Unheard? || (first.Answered? && !refused && second.Unheard?))
      && (v == Hang || v == Crash ==> v == Silent(o.health, m))
      && (first.Answered? && !refused && second.Answered? ==> v == LiveVerdict(k, c, i + 1))
      && (v == UnexpectedAccept || v == CleanAccept || v == CleanReject ==>
            first.Answered? && !refused && second.Answered?)
      && (v == UnexpectedAccept ==>
            c.expectSafeReject && Accepts(k.expectedApid, c.packet) && k.fates(i + 1, c.packet).outcome.Delivered?)
  {
    hide RunSteps, ExpectedRun, StateAt, UndisturbedRun, Accepts, TargetState.Telemetry, Prompt;
    RunRefines(k, o, cases, w, n);
    ExpectedAt(k, o, cases, w.target, w.sends, n, j);
    StaysAlive(k, o, cases, w.target, w.sends, n, j);
  }
}
