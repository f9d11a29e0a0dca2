/** What comparing two counter readings can and cannot tell. */
module CounterVerdicts {
  import opened Target
  import opened Transport
  import opened Cases
  import opened Oracles
  import opened ClosedLoop
  import Bits

  // ---- Wrap-around and restarts -----------------------------------------------------------------------------

  /** True, unbounded counts and what telemetry shows of them: two 8-bit and two 32-bit counters. */
  datatype TrueCounts = TrueCounts(commands: nat, commandErrors: nat, packets: nat, packetErrors: nat) {
    function OnWire(): Counters {
      Counters(commands % 256, commandErrors % 256, 0, 1, packets % 0x1_0000_0000, packetErrors % 0x1_0000_0000)
    }
  }

  /**
    What two readings reveal of the true counts behind them, grown or fallen: a difference shows unless it
    is a multiple of its counter's modulus, so a single command or drop per judgement can never hide, and
    the verdict follows the order unexpected accept, command error, ingest error, accept.
   */
  lemma WraparoundBound(c: PacketCase, t: TrueCounts, u: TrueCounts)
    ensures var accepted := (u.commands - t.commands) % 256 != 0;
      CompareCounters(c, t.OnWire(), u.OnWire())
        == (if accepted && c.expectSafeReject then UnexpectedAccept
            else if (u.commandErrors - t.commandErrors) % 256 != 0 then CleanReject
            else if (u.packetErrors - t.packetErrors) % 0x1_0000_0000 != 0 then SafeDrop
            else if accepted then CleanAccept
            else Inconclusive)
  {
    ShiftedModulo(t.commands, u.commands - t.commands, 256);
    ShiftedModulo(t.commandErrors, u.commandErrors - t.commandErrors, 256);
    ShiftedModulo(t.packetErrors, u.packetErrors - t.packetErrors, 0x1_0000_0000);
  }

  /** Inequality of a counter kept modulo `d` misses exactly the multiples of `d`. */
  lemma ShiftedModulo(a: int, m: int, d: int)
    requires d > 0
    ensures (a + m) % d != a % d <==> m % d != 0
  {
    var q, s := a / d, m / d;
    assert a == d * q + a % d && m == d * s + m % d;
    assert d * (q + s) == d * q + d * s;
    if a % d + m % d < d {
      Bits.DivUnique(a + m, d, q + s, a % d + m % d);
    } else {
      assert d * (q + s + 1) == d * (q + s) + d;
      Bits.DivUnique(a + m, d, q + s + 1, a % d + m % d - d);
    }
  }

  // ---- Commands of other senders -----------------------------------------------------------------------------

  /**
    When the target also accepts and rejects commands of other senders between the two readings, in any
    order, the verdict is still that of the acceptance predicate exactly when they hide nothing and fake
    nothing: the counter that tells must not come full circle, and those that come before it must not move.
   */
  lemma ForeignCommands(k: Link, c: PacketCase, t: TargetState, i: nat, accepted: nat, errors: nat)
    requires t.alive && TargetAfter(k, t, c, i).alive
    ensures var own := TargetAfter(k, t, c, i);
      var after := own.(accepted := own.accepted + accepted, errors := own.errors + errors);
      CompareCounters(c, t.Telemetry(), after.Telemetry()) == LiveVerdict(k, c, i) <==>
        match LiveVerdict(k, c, i)
        case UnexpectedAccept => (accepted + 1) % 256 != 0
        case CleanAccept => (accepted + 1) % 256 != 0 && errors % 256 == 0
        case CleanReject => (errors + 1) % 256 != 0 && (c.expectSafeReject ==> accepted % 256 == 0)
        case _ => accepted % 256 == 0 && errors % 256 == 0
  {
    hide Accepts;
    ShiftedModulo(t.accepted, accepted, 256);
    ShiftedModulo(t.accepted, accepted + 1, 256);
    ShiftedModulo(t.errors, errors, 256);
    ShiftedModulo(t.errors, errors + 1, 256);
  }

  // ---- The documented rule ----------------------------------------------------------------------------------

  /** One counter went up by one, wrapping at its modulus. */
  predicate UpByOne(before: int, after: int, modulus: int)
    requires modulus > 0
  {
    after == (before + 1) % modulus
  }

  /**
    The verdict by the telemetry table: each counter counts only when it has gone up by one. The table names
    neither an order of precedence nor the unexpected accept; both are taken from the code.
   */
  function DocumentedVerdict(c: PacketCase, before: Counters, after: Counters): Verdict {
    var accepted := UpByOne(before.command, after.command, 256);
    if accepted && c.expectSafeReject then UnexpectedAccept
    else if UpByOne(before.commandError, after.commandError, 256) then CleanReject
    else if UpByOne(before.ingestErrors, after.ingestErrors, 0x1_0000_0000) then SafeDrop
    else if accepted then CleanAccept
    else Inconclusive
  }

  /**
    Comparing for inequality agrees with the documented rule exactly when the counter that decides, the
    first in order to have moved, went up by one.
   */
  lemma DocumentedIff(c: PacketCase, before: Counters, after: Counters)
    requires before.Representable() && after.Representable()
    ensures CompareCounters(c, before, after) == DocumentedVerdict(c, before, after) <==>
      if after.command != before.command && c.expectSafeReject then UpByOne(before.command, after.command, 256)
      else if after.commandError != before.commandError then UpByOne(before.commandError, after.commandError, 256)
      else if after.ingestErrors != before.ingestErrors
      then UpByOne(before.ingestErrors, after.ingestErrors, 0x1_0000_0000)
      else after.command != before.command ==> UpByOne(before.command, after.command, 256)
  {
    UpByOneMoves(before.command, after.command, 256);
    UpByOneMoves(before.commandError, after.commandError, 256);
    UpByOneMoves(before.ingestErrors, after.ingestErrors, 0x1_0000_0000);
  }

  lemma UpByOneMoves(before: int, after: int, modulus: int)
    requires modulus > 1 && 0 <= before < modulus
    ensures UpByOne(before, after, modulus) ==> after != before
  {
  }

  /** A target restarted between the readings, its command counter falling from five to zero, is accused. */
  lemma FallingCounterIsAnAccept(c: PacketCase)
    requires c.expectSafeReject
    ensures var before, after := Counters(5, 0, 0, 1, 0, 0), Counters(0, 0, 0, 1, 0, 0);
      CompareCounters(c, before, after) == UnexpectedAccept && DocumentedVerdict(c, before, after) == Inconclusive
  {
  }
}
