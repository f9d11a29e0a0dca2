/** What the mock target accepts of the generated suite, retargeted or not. */
module Suite {
  import opened Bits
  import opened Wrappers
  import opened Ccsds
  import opened Checksum
  import opened Target
  import opened Cases
  import opened Generator
  import opened Selection

  // ---- Built packets -------------------------------------------------------------------------------------

  lemma Built(p: SpacePacket)
    ensures var b := p.ToBytes();
      && |b| == PRIMARY_HEADER_SIZE + |p.Payload()| && b[6..] == p.Payload()
      && Unpack(b).value == p.header.(lengthField := p.WrittenLength()).Reduced()
  {
    HeaderRoundTrip(p.header.(lengthField := p.WrittenLength()), p.Payload());
  }

  /** A built case, retargeted, is accepted exactly when the fields retargeting keeps are in order. */
  lemma BuiltAndRetargeted(expected: int, apid: int, c: PacketCase, p: SpacePacket)
    requires c.packet == p.ToBytes() && c.checksumValid
    requires c.category != ApidField && c.category != SecondaryHeader
    ensures Accepts(expected, Retarget(apid, c).packet) <==>
      && apid % 2048 == expected
      && 2 <= |p.Payload()| <= MAX_COMMAND_SIZE - PRIMARY_HEADER_SIZE
      && p.header.version % 8 == 0 && p.header.seqFlags % 4 == 3
      && p.WrittenLength() % 65536 + 1 == |p.Payload()|
      && p.Payload()[0] == 0
  {
    hide Retarget, Accepts, SpacePacket.ToBytes;
    Built(p);
    RetargetIsolatesDefect(expected, apid, c);
    if |p.Payload()| > 0 {
      assert c.packet[6] == c.packet[6..][0];
    }
  }

  /** Telemetry-type packets are never accepted as they are. */
  lemma BuiltAsTelemetry(expected: int, p: SpacePacket)
    requires p.header.packetType % 2 == 0
    ensures !Accepts(expected, p.ToBytes())
  {
    hide SpacePacket.ToBytes;
    Built(p);
  }

  // ---- The colliding APIDs ---------------------------------------------------------------------------------

  /**
    The APIDs whose two octets differ by exactly 0x25: for them the rewritten addressing octets of the
    flag-set secondary-header case happen to complete a valid checksum.
   */
  predicate Collides(apid: int) {
    0 <= apid < 2048 && Xor(apid / 256, apid % 256) == 0x25
  }

  /** There are eight of them, and they are these. */
  lemma CollidingApids(apid: int)
    ensures Collides(apid) <==> apid in {0x025, 0x124, 0x227, 0x326, 0x421, 0x520, 0x623, 0x722}
  {
    hide Xor;
    if 0 <= apid < 2048 {
      var high, low := apid / 256, apid % 256;
      XorWithFive(high);
      assert Pow2(3) == 8;
      XorDisjoint(4, Xor(high, 5), 3);
      XorDisjoint(4, 5, 3);
      // low == high ^ 0x25, spelled out from 0x20 ^ (5 ^ high)
      XorComm(high, 5);
      XorAssoc(0x20, 5, high);
      XorComm(0x25, high);
      SolveXor(high, 0x25, low);
      SelfInverse(XorByte(high, 0x25), low);
    }
  }

  lemma XorWithFive(high: nat)
    requires high < 8
    ensures Xor(high, 5) == [5, 4, 7, 6, 1, 0, 3, 2][high]
  {
    hide Xor;
    XorLowBit(high, 5);
    XorLowBit(high / 2, 2);
    XorLowBit(high / 2 / 2, 1);
    XorZero(0);
  }

  lemma SelfInverse(a: byte, b: byte)
    ensures XorByte(a, b) == 0 <==> a == b
  {
    XorSelf(b);
    XorCancel(a, b, b);
  }

  const FLAG_SET_BASE: Bytes := [0, 0, 0xC0, 1, 0, 3, 0, 1, 2, 3]

  lemma FlagSetBaseResidue()
    ensures Residue(FLAG_SET_BASE) == 0x3D
  {
    hide XorByte;
    var b := FLAG_SET_BASE;
    var r0: byte := 0xFF;
    assert XorByte(r0, 0) == 0xFF && XorByte(0xFF, 0xC0) == 0x3F && XorByte(0x3F, 1) == 0x3E
        && XorByte(0x3E, 0) == 0x3E && XorByte(0x3E, 3) == 0x3D && XorByte(0x3D, 0) == 0x3D
        && XorByte(0x3D, 1) == 0x3C && XorByte(0x3C, 2) == 0x3E by {
      XorConstants();
    }
    assert b[..0] == [];
    assert b[..1][..0] == b[..0];
    assert b[..2][..1] == b[..1];
    assert b[..3][..2] == b[..2];
    assert b[..4][..3] == b[..3];
    assert b[..5][..4] == b[..4];
    assert b[..6][..5] == b[..5];
    assert b[..7][..6] == b[..6];
    assert b[..8][..7] == b[..7];
    assert b[..9][..8] == b[..8];
    assert Fold(0xFF, b[..1]) == 0xFF;
    assert Fold(0xFF, b[..2]) == 0xFF;
    assert Fold(0xFF, b[..3]) == 0x3F;
    assert Fold(0xFF, b[..4]) == 0x3E;
    assert Fold(0xFF, b[..5]) == 0x3E;
    assert Fold(0xFF, b[..6]) == 0x3D;
    assert Fold(0xFF, b[..7]) == 0x3D;
    assert Fold(0xFF, b[..8]) == 0x3C;
    assert Fold(0xFF, b[..9]) == 0x3E;
  }

  lemma XorConstants()
    ensures XorByte(0xFF, 0) == 0xFF && XorByte(0xFF, 0xC0) == 0x3F && XorByte(0x3F, 1) == 0x3E
    ensures XorByte(0x3E, 0) == 0x3E && XorByte(0x3E, 3) == 0x3D && XorByte(0x3D, 0) == 0x3D
    ensures XorByte(0x3D, 1) == 0x3C && XorByte(0x3C, 2) == 0x3E
  {
    hide Xor;
    XorZero(0xFF);
    XorZero(0x3E);
    XorZero(0x3D);
    // 0xFF is 0xC0 + 0x3F, and 0xC0 cancels.
    assert Pow2(6) == 64;
    XorDisjoint(3, 0x3F, 6);
    XorComm(0xC0, 0x3F);
    XorAssoc(0x3F, 0xC0, 0xC0);
    XorSelf(0xC0);
    XorZero(0x3F);
    XorLowTwoBits(0x3F, 1);
    XorLowTwoBits(0x3E, 3);
    XorLowTwoBits(0x3D, 1);
    XorLowTwoBits(0x3C, 2);
  }

  lemma XorLowTwoBits(a: nat, b: nat)
    requires b < 4
    ensures Xor(a, b) == (a + b) % 2 + 2 * ((a / 2 + b / 2) % 2) + 4 * (a / 4)
  {
    hide Xor;
    XorLowBit(a, b);
    XorLowBit(a / 2, b / 2);
    XorZero(a / 4);
    assert a / 2 / 2 == a / 4 && b / 2 / 2 == 0;
  }

  /** 0x3D with the first octet of a retargeted command header leaves 0x25 with the APID's top bits. */
  lemma FirstOctetConstant(high: byte)
    requires high < 8
    ensures XorByte(0x3D, 24 + high) == XorByte(high, 0x25)
  {
    hide Xor;
    assert Pow2(3) == 8;
    XorDisjoint(3, high, 3);
    XorAssoc(0x3D, 24, high);
    XorComm(high, 0x25);
    // 0x3D is 0x38 + 5 and 0x25 is 0x20 + 5.
    XorDisjoint(7, 5, 3);
    XorDisjoint(4, 5, 3);
    XorComm(0x38, 5);
    XorAssoc(5, 0x38, 0x18);
    XorComm(5, 0x20);
    // 0x38 is 0x20 + 0x18, and 0x18 cancels.
    assert Pow2(5) == 32;
    XorDisjoint(1, 0x18, 5);
    XorAssoc(0x20, 0x18, 0x18);
    XorSelf(0x18);
    XorZero(0x20);
  }

  lemma FlagSetResidue(high: byte, low: byte)
    requires high < 8
    ensures Residue(FLAG_SET_BASE[0 := 24 + high][1 := low]) == 0 <==> XorByte(high, low) == 0x25
  {
    hide XorByte, Fold;
    var first: byte := 24 + high;
    var b := FLAG_SET_BASE;
    FlagSetBaseResidue();
    FoldUpdate(0xFF, b, 0, first);
    FoldUpdate(0xFF, b[0 := first], 1, low);
    ZeroIsNeutral(first);
    ZeroIsNeutral(low);
    FirstOctetConstant(high);
    SolveXor(high, 0x25, low);
  }

  lemma ZeroIsNeutral(a: byte)
    ensures XorByte(0, a) == a
  {
    XorZero(a);
  }

  lemma SolveXor(a: byte, b: byte, c: byte)
    ensures XorByte(XorByte(a, b), c) == 0 <==> XorByte(a, c) == b
  {
    XorAssoc(a, b, c);
    XorComm(b, c);
    XorAssoc(a, c, b);
    XorSelf(b);
    XorCancel(XorByte(a, c), b, b);
  }

  lemma FlagSetOctets(apid: int)
    ensures PrimaryHeader(0, 1, 1, apid, 3, 1, 3).Pack() + PAYLOAD
         == FLAG_SET_BASE[0 := 24 + apid % 2048 / 256][1 := apid % 2048 % 256]
  {
    var h := PrimaryHeader(0, 1, 1, apid, 3, 1, 3);
    assert h.Word0() == 6144 + apid % 2048 && h.Word1() == 49153;
    assert h.Pack() == [24 + apid % 2048 / 256, apid % 2048 % 256, 0xC0, 1, 0, 3];
  }

  lemma FlagSetHeader(home: int)
    ensures var b := FlagSetCase(home).packet;
      |b| == 10 && b[6..] == PAYLOAD && b[6] == 0 && Unpack(b).value == PrimaryHeader(0, 0, 1, home % 2048, 3, 1, 3)
  {
    hide SpacePacket.ToBytes, PrimaryHeader.Pack, Unpack;
    var p := SpacePacket(ValidHeader(home).(secHdrFlag := 1), [], PAYLOAD, None);
    Built(p);
    assert p.Payload() == PAYLOAD;
    assert FlagSetCase(home).packet[6] == FlagSetCase(home).packet[6..][0];
  }

  /** The flag-set case is meant to be rejected, and is, except for the eight colliding APIDs. */
  lemma FlagSetAccepted(home: int, expected: int, apid: int)
    ensures Accepts(expected, Retarget(apid, FlagSetCase(home)).packet)
       <==> apid % 2048 == expected && Collides(expected)
  {
    hide Retarget, Accepts, SpacePacket.ToBytes, Fold, Xor, PrimaryHeader.Pack, Unpack;
    var c := FlagSetCase(home);
    FlagSetHeader(home);
    RetargetSecondaryHeader(expected, apid, c);
    FlagSetOctets(apid);
    FoldAppend(0xFF, PrimaryHeader(0, 1, 1, apid, 3, 1, 3).Pack(), PAYLOAD);
    FlagSetResidue(apid % 2048 / 256, apid % 2048 % 256);
  }

  /** One of them at work: the suite's flag-set case, sent to a target at APID 0x25, is accepted. */
  lemma FlagSetWitness()
    ensures Accepts(0x25, Retarget(0x25, FlagSetCase(42)).packet) && FlagSetCase(42).expectSafeReject
  {
    hide Accepts, Retarget, Collides, SpacePacket.ToBytes;
    FlagSetAccepted(42, 0x25, 0x25);
    CollidingApids(0x25);
  }

  // ---- Acceptance of every generated case ----------------------------------------------------------------

  lemma {:induction false} FamilyOf(home: int, n: nat, c: PacketCase) returns (f: nat)
    requires n <= 10 && c in FirstFamilies(home, n)
    ensures f < n && c in Family(home, f)
  {
    hide Family;
    f := n - 1;
    if c !in Family(home, f) {
      f := FamilyOf(home, f, c);
    }
  }

  /** The sealed NOOP command and its header. */
  lemma NoopFacts(apid: int)
    ensures var b := KnownGoodCases(apid)[0].packet;
      && |b| == 8 && b[6] == 0 && Residue(b) == 0
      && Unpack(b).value == PrimaryHeader(0, 1, 1, apid % 2048, 3, 1, 1)
  {
    hide Residue, SpacePacket.ToBytes;
    var p := NoopPacket(apid);
    Built(p);
    assert p.Payload() == [0, 0];
    var b := p.ToBytes();
    assert b[6] == b[6..][0];
    RepairIsSound(b);
    UnpackReadsSixOctets(Repair(b), b);
  }

  /** What is wrong with each malformed command. */
  lemma MalformedFacts(home: int, i: nat)
    requires i < 3
    ensures var c := MalformedCases(home)[i];
      && |c.packet| == 8 && c.category == CommandMalformed && c.expectSafeReject && !c.expectAccept
      && (i == 0 ==> !c.checksumValid && Residue(c.packet) != 0)
      && (i == 1 ==> c.packet[6] != 0)
      && (i == 2 ==> Unpack(c.packet).value.lengthField == 2)
  {
    hide Residue, XorByte;
    NoopFacts(home);
    var valid := KnownGoodCases(home)[0].packet;
    DamageIsDetected(valid);
  }

  /** The families whose cases are meant to be rejected are, whatever the APID; the NOOP is accepted. */
  lemma FamilyAcceptance(home: int, expected: int, apid: int, c: PacketCase, family: nat)
    requires family < 10 && c in Family(home, family)
    ensures Accepts(expected, Retarget(apid, c).packet) && c.expectSafeReject
       <==> apid % 2048 == expected && Collides(expected) && c == FlagSetCase(home)
    ensures c.expectAccept ==> (Accepts(expected, Retarget(apid, c).packet) <==> apid % 2048 == expected)
  {
    hide Accepts, Retarget, SpacePacket.ToBytes, Collides, Residue, Repair, XorByte;
    if family == 0 {
      NoopFacts(home);
      RetargetIsolatesDefect(expected, apid, c);
    } else if family == 1 {
      var i :| 0 <= i < 3 && c == MalformedCases(home)[i];
      MalformedFacts(home, i);
      RetargetIsolatesDefect(expected, apid, c);
    } else if family == 3 {
      var i :| 0 <= i < 3 && c == ApidCase(home, i);
      ApidCaseRejected(home, expected, apid, i);
    } else if family == 6 {
      FlagSetAccepted(home, expected, apid);
    } else if family == 7 {
      assert Retarget(apid, c) == c by {
        RetargetPreserves(apid, c);
      }
      TooShort(expected, c.packet);
    } else {
      BuiltFamilyAcceptance(home, expected, apid, c, family);
    }
  }

  lemma TooShort(expected: int, packet: Bytes)
    requires |packet| < 8
    ensures !Accepts(expected, packet)
  {
  }

  lemma ApidCaseRejected(home: int, expected: int, apid: int, i: nat)
    requires i < 3
    ensures var c := ApidCase(home, i);
      !Accepts(expected, Retarget(apid, c).packet) && !c.expectAccept && c != FlagSetCase(home)
  {
    hide Accepts, SpacePacket.ToBytes;
    BuiltAsTelemetry(expected, SpacePacket(ValidHeader(home).(apid := EDGE_APIDS[i]), [], PAYLOAD, None));
  }

  lemma BuiltFamilyAcceptance(home: int, expected: int, apid: int, c: PacketCase, family: nat)
    requires family in {2, 4, 5, 8, 9} && c in Family(home, family)
    ensures c.expectSafeReject ==> !Accepts(expected, Retarget(apid, c).packet)
    ensures !c.expectAccept && c != FlagSetCase(home)
  {
    hide Accepts, Retarget, SpacePacket.ToBytes;
    var p := BuiltFrom(home, c, family);
    BuiltAndRetargeted(expected, apid, c, p);
  }

  /** The packet behind a built case, with the one thing that is wrong with it. */
  lemma BuiltFrom(home: int, c: PacketCase, family: nat) returns (p: SpacePacket)
    requires family in {2, 4, 5, 8, 9} && c in Family(home, family)
    ensures c.packet == p.ToBytes() && c.checksumValid && !c.expectAccept
    ensures c.category in {VersionField, SeqFlagsField, PacketLength, Oversized, DegeneratePayload}
    ensures p.header.packetType == 0
    ensures c.expectSafeReject ==>
      || p.header.version % 8 != 0 || p.header.seqFlags % 4 != 3
      || p.WrittenLength() % 65536 + 1 != |p.Payload()| || |p.Payload()| > MAX_COMMAND_SIZE - PRIMARY_HEADER_SIZE
  {
    hide SpacePacket.ToBytes, Digit, XorByte, Repair;
    if family == 2 {
      var i :| 0 <= i < 7 && c == VersionCase(home, i + 1);
      p := SpacePacket(ValidHeader(home).(version := i + 1), [], PAYLOAD, None);
    } else if family == 4 {
      var i :| 0 <= i < 4 && c == SeqFlagsCase(home, i);
      p := SpacePacket(ValidHeader(home).(seqFlags := i), [], PAYLOAD, None);
    } else if family == 5 {
      var i :| 0 <= i < 4 && c == PacketLengthCase(home, i);
      p := SpacePacket(ValidHeader(home), [], PAYLOAD, Some(CLAIMED_LENGTHS[i]));
    } else if family == 8 {
      var i :| 0 <= i < 3 && c == OversizedCases(home)[i];
      p := SpacePacket(ValidHeader(home), [], Zeros([4090, 65536, 65537][i]), Some([4089, 65535, 65535][i]));
    } else {
      var i :| 0 <= i < 3 && c == DegenerateCases(home)[i];
      p := SpacePacket(ValidHeader(home), [], DEGENERATE_PAYLOADS[i].1, if i == 2 then Some(15) else None);
    }
  }

  /**
    Retargeted to any APID, no generated case that is meant to be rejected is accepted, but for one case
    at the eight colliding APIDs; the acceptance control is accepted by exactly the addressed target.
   */
  lemma SuiteAcceptance(home: int, expected: int, apid: int, c: PacketCase)
    requires c in GeneratedCases(home)
    ensures Accepts(expected, Retarget(apid, c).packet) && c.expectSafeReject
       <==> apid % 2048 == expected && Collides(expected) && c == FlagSetCase(home)
    ensures c.expectAccept ==> (Accepts(expected, Retarget(apid, c).packet) <==> apid % 2048 == expected)
  {
    hide Accepts, Retarget, Family;
    var i := FamilyOf(home, 10, c);
    FamilyAcceptance(home, expected, apid, c, i);
  }

  /** Sent as generated, only the acceptance control is accepted, and only at the suite's own APID. */
  lemma SuiteUntargeted(home: int, expected: int, c: PacketCase)
    requires c in GeneratedCases(home)
    ensures Accepts(expected, c.packet) <==> expected == home % 2048 && c.expectAccept
  {
    hide Accepts, Family;
    var i := FamilyOf(home, 10, c);
    FamilyUntargeted(home, expected, c, i);
  }

  lemma FamilyUntargeted(home: int, expected: int, c: PacketCase, family: nat)
    requires family < 10 && c in Family(home, family)
    ensures Accepts(expected, c.packet) <==> expected == home % 2048 && c.expectAccept
  {
    hide SpacePacket.ToBytes, Residue, Repair, XorByte;
    if family == 0 {
      NoopFacts(home);
    } else if family == 1 {
      var i :| 0 <= i < 3 && c == MalformedCases(home)[i];
      MalformedFacts(home, i);
    } else if family == 3 {
      var i :| 0 <= i < 3 && c == ApidCase(home, i);
      BuiltAsTelemetry(expected, SpacePacket(ValidHeader(home).(apid := EDGE_APIDS[i]), [], PAYLOAD, None));
    } else if family == 6 {
      BuiltAsTelemetry(expected, SpacePacket(ValidHeader(home).(secHdrFlag := 1), [], PAYLOAD, None));
      BuiltAsTelemetry(expected, SpacePacket(ValidHeader(home).(secHdrFlag := 0), [0xFF, 0xFF], [0, 1], None));
    } else if family == 7 {
      TooShort(expected, c.packet);
    } else {
      var p := BuiltFrom(home, c, family);
      BuiltAsTelemetry(expected, p);
    }
  }

  /** No case is both an acceptance control and expected to be rejected. */
  lemma ControlExpectsNoReject(home: int, c: PacketCase)
    requires c in GeneratedCases(home)
    ensures c.expectAccept ==> !c.expectSafeReject
  {
    hide Accepts, Retarget, Family;
    var i := FamilyOf(home, 10, c);
    FamilyControl(home, c, i);
  }

  lemma FamilyControl(home: int, c: PacketCase, family: nat)
    requires family < 10 && c in Family(home, family)
    ensures c.expectAccept ==> !c.expectSafeReject
  {
    hide SpacePacket.ToBytes, Repair;
    if family in {2, 4, 5, 8, 9} {
      var p := BuiltFrom(home, c, family);
    }
  }

  /** No generated case is a housekeeping request, retargeted or not. */
  lemma GeneratedNotHk(home: int, apid: int, c: PacketCase)
    requires c in GeneratedCases(home)
    ensures c.packet != HK_REQUEST && Retarget(apid, c).packet != HK_REQUEST
  {
    hide Accepts, Retarget, Family, SpacePacket.ToBytes;
    var i := FamilyOf(home, 10, c);
    FamilyNotHk(home, c, i);
    RetargetPreserves(apid, c);
  }

  lemma FamilyNotHk(home: int, c: PacketCase, family: nat)
    requires family < 10 && c in Family(home, family)
    ensures |c.packet| >= PRIMARY_HEADER_SIZE || |c.packet| == 0 || c.packet[0] < 8
  {
    hide SpacePacket.ToBytes, Residue, XorByte, Repair;
    if family == 0 {
      NoopFacts(home);
    } else if family == 1 {
      var i :| 0 <= i < 3 && c == MalformedCases(home)[i];
      MalformedFacts(home, i);
    } else if family == 3 {
      var i :| 0 <= i < 3 && c == ApidCase(home, i);
      Built(SpacePacket(ValidHeader(home).(apid := EDGE_APIDS[i]), [], PAYLOAD, None));
    } else if family == 6 {
      Built(SpacePacket(ValidHeader(home).(secHdrFlag := 1), [], PAYLOAD, None));
      Built(SpacePacket(ValidHeader(home).(secHdrFlag := 0), [0xFF, 0xFF], [0, 1], None));
    } else if family == 7 {
      var i :| 0 <= i < 6 && c == TruncationCase(home, i);
      assert ValidHeader(home).Word0() == home % 2048;
    } else {
      var p := BuiltFrom(home, c, family);
      Built(p);
    }
  }
}
