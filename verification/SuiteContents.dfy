/** The generated suite spelled out: names, categories, expectations and octets of all its cases. */
module SuiteContents {
  import opened Bits
  import opened Wrappers
  import opened Ccsds
  import opened Checksum
  import opened Target
  import opened Cases
  import opened Generator
  import opened Selection
  import opened Suite

  /** A case expected to be rejected and not about its checksum, or one with no expectation. */
  predicate Labelled(c: PacketCase, name: string, category: Category, expectSafeReject: bool) {
    c.name == name && c.category == category && c.expectSafeReject == expectSafeReject
    && !c.expectAccept && c.checksumValid
  }

  /** What serialising writes, from the header's fields. */
  lemma BuiltOctets(p: SpacePacket)
    ensures p.ToBytes() == [
        p.header.version % 8 * 32 + p.header.packetType % 2 * 16 + p.header.secHdrFlag % 2 * 8
        + p.header.apid % 2048 / 256,
        p.header.apid % 2048 % 256,
        p.header.seqFlags % 4 * 64 + p.header.seqCount % 16384 / 256,
        p.header.seqCount % 16384 % 256,
        p.WrittenLength() % 65536 / 256,
        p.WrittenLength() % 65536 % 256] + p.Payload()
  {
    hide PrimaryHeader.Pack, PrimaryHeader.PackBits;
    HeaderOctets(p.header.(lengthField := p.WrittenLength()));
  }

  /** The acceptance control: a sealed NOOP command. */
  lemma ControlSpelledOut(home: int)
    ensures |KnownGoodCases(home)| == 1
    ensures var c := KnownGoodCases(home)[0];
      && c == PacketCase("ci_lab_noop", KnownGood, c.packet, false, true, true)
      && |c.packet| == 8
      && c.packet[..7] == [24 + home % 2048 / 256, home % 2048 % 256, 0xC0, 1, 0, 1, 0]
      && Fold(0xFF, c.packet) == 0
  {
    hide Fold, SpacePacket.ToBytes;
    var p := NoopPacket(home);
    BuiltOctets(p);
    assert p.Payload() == [0, 0];
    RepairIsSound(p.ToBytes());
  }

  /**
    The malformed commands have one defect each: undo it, and the control is back. The first has a damaged
    checksum; the other two carry a checksum that is right.
   */
  lemma MalformedSpelledOut(home: int)
    ensures |MalformedCases(home)| == 3
    ensures var cases, valid := MalformedCases(home), KnownGoodCases(home)[0].packet;
      && cases[0] == PacketCase("command_bad_checksum", CommandMalformed, cases[0].packet, true, false, false)
      && Labelled(cases[1], "command_invalid_function", CommandMalformed, true)
      && Labelled(cases[2], "command_wrong_length", CommandMalformed, true)
      && |valid| == 8 && |cases[0].packet| == |cases[1].packet| == |cases[2].packet| == 8
      && cases[0].packet[..7] == valid[..7] && Fold(0xFF, cases[0].packet) == 1
      && cases[1].packet[..7] == valid[..7][6 := 0xFF] && Fold(0xFF, cases[1].packet) == 0
      && cases[2].packet[..7] == valid[..7][5 := 2] && Fold(0xFF, cases[2].packet) == 0
      && (forall i :: 0 <= i < 3 ==> Repair(cases[i].packet[5 := 1][6 := 0]) == valid)
  {
    hide Fold, XorByte, KnownGoodCases, Repair;
    ControlSpelledOut(home);
    var valid := KnownGoodCases(home)[0].packet;
    assert valid[4] == valid[..7][4] == 0 && valid[5] == valid[..7][5] == 1 && valid[6] == valid[..7][6] == 0;
    DamageIsDetected(valid);
    var cases := MalformedCases(home);
    OneOctetApart(valid, cases[0].packet);
    Sealed(valid, 6, 0xFF);
    assert valid[4 := 0][5 := 2] == valid[5 := 2];
    Sealed(valid, 5, 2);
    assert cases[0].packet[5 := 1][6 := 0] == cases[0].packet;
    assert cases[1].packet[5 := 1][6 := 0] == cases[1].packet[6 := valid[6]];
    assert cases[2].packet[5 := 1][6 := 0] == cases[2].packet[5 := valid[5]];
  }

  /** A sound packet is what repairing any packet that differs at most in octet 7 gives. */
  lemma OneOctetApart(valid: Bytes, b: Bytes)
    requires |valid| == 8 && |b| == 8 && b[..7] == valid[..7] && Residue(valid) == 0
    ensures Repair(b) == valid
  {
    hide Residue;
    assert forall i :: 0 <= i < 7 ==> b[i] == b[..7][i] && valid[i] == valid[..7][i];
    assert b[7 := valid[7]] == valid;
    RepairCharacterised(b, valid[7]);
  }

  lemma Sealed(valid: Bytes, i: nat, v: byte)
    requires |valid| == 8 && i < 7 && Residue(valid) == 0
    ensures var b := Repair(valid[i := v]);
      && |b| == 8 && b[..7] == valid[..7][i := v] && Residue(b) == 0 && Repair(b[i := valid[i]]) == valid
  {
    hide Residue;
    var b := Repair(valid[i := v]);
    RepairIsSound(valid[i := v]);
    RepairCharacterised(valid[i := v], 0);
    assert b[..7] == valid[i := v][..7];
    assert b[i := valid[i]][..7] == valid[..7];
    OneOctetApart(valid, b[i := valid[i]]);
  }

  lemma VersionsSpelledOut(home: int)
    ensures |VersionCases(home)| == 7
    ensures forall i :: 0 <= i < 7 ==>
      var c := VersionCases(home)[i];
      && Labelled(c, ["version_1", "version_2", "version_3", "version_4", "version_5", "version_6", "version_7"][i],
                  VersionField, true)
      && c.packet == [32 * (i + 1) + home % 2048 / 256, home % 2048 % 256, 0xC0, 1, 0, 3, 0, 1, 2, 3]
  {
    hide SpacePacket.ToBytes;
    forall i | 0 <= i < 7
      ensures var c := VersionCases(home)[i];
        && Labelled(c, ["version_1", "version_2", "version_3", "version_4", "version_5", "version_6", "version_7"][i],
                    VersionField, true)
        && c.packet == [32 * (i + 1) + home % 2048 / 256, home % 2048 % 256, 0xC0, 1, 0, 3, 0, 1, 2, 3]
    {
      BuiltOctets(SpacePacket(ValidHeader(home).(version := i + 1), [], PAYLOAD, None));
    }
  }

  lemma ApidsSpelledOut(home: int)
    ensures |ApidCases(home)| == 3
    ensures Labelled(ApidCases(home)[0], "apid_0", ApidField, true)
    ensures ApidCases(home)[0].packet == [0, 0, 0xC0, 1, 0, 3, 0, 1, 2, 3]
    ensures Labelled(ApidCases(home)[1], "apid_1023", ApidField, true)
    ensures ApidCases(home)[1].packet == [3, 255, 0xC0, 1, 0, 3, 0, 1, 2, 3]
    ensures Labelled(ApidCases(home)[2], "apid_2047", ApidField, true)
    ensures ApidCases(home)[2].packet == [7, 255, 0xC0, 1, 0, 3, 0, 1, 2, 3]
  {
    hide SpacePacket.ToBytes;
    ApidOctets(home, 0);
    ApidOctets(home, 1023);
    ApidOctets(home, 2047);
  }

  lemma ApidOctets(home: int, apid: nat)
    requires apid < 2048
    ensures SpacePacket(ValidHeader(home).(apid := apid), [], PAYLOAD, None).ToBytes()
         == [apid / 256, apid % 256, 0xC0, 1, 0, 3, 0, 1, 2, 3]
  {
    hide SpacePacket.ToBytes;
    BuiltOctets(SpacePacket(ValidHeader(home).(apid := apid), [], PAYLOAD, None));
  }

  /** Only the unsegmented one is not expected to be rejected. */
  lemma SeqFlagsSpelledOut(home: int)
    ensures |SeqFlagsCases(home)| == 4
    ensures forall f :: 0 <= f < 4 ==>
      var c := SeqFlagsCases(home)[f];
      && Labelled(c, ["seq_flags_00", "seq_flags_01", "seq_flags_10", "seq_flags_11"][f], SeqFlagsField, f != 3)
      && c.packet == [home % 2048 / 256, home % 2048 % 256, 64 * f, 1, 0, 3, 0, 1, 2, 3]
  {
    hide SpacePacket.ToBytes;
    forall f | 0 <= f < 4
      ensures var c := SeqFlagsCases(home)[f];
        && Labelled(c, ["seq_flags_00", "seq_flags_01", "seq_flags_10", "seq_flags_11"][f], SeqFlagsField, f != 3)
        && c.packet == [home % 2048 / 256, home % 2048 % 256, 64 * f, 1, 0, 3, 0, 1, 2, 3]
    {
      BuiltOctets(SpacePacket(ValidHeader(home).(seqFlags := f), [], PAYLOAD, None));
    }
  }

  /** Four octets sent, and 1, 65536, 104 and 1 claimed. */
  lemma LengthsSpelledOut(home: int)
    ensures |PacketLengthCases(home)| == 4
    ensures forall i :: 0 <= i < 4 ==>
      var c, claimed := PacketLengthCases(home)[i], [0, 65535, 103, 0][i];
      && Labelled(c, ["length_zero", "length_max", "length_claims_more_than_sent", "length_claims_less_than_sent"][i],
                  PacketLength, true)
      && c.packet == [home % 2048 / 256, home % 2048 % 256, 0xC0, 1, claimed / 256, claimed % 256, 0, 1, 2, 3]
  {
    hide SpacePacket.ToBytes;
    forall i | 0 <= i < 4
      ensures var c, claimed := PacketLengthCases(home)[i], [0, 65535, 103, 0][i];
        && Labelled(c, ["length_zero", "length_max", "length_claims_more_than_sent", "length_claims_less_than_sent"][i],
                    PacketLength, true)
        && c.packet == [home % 2048 / 256, home % 2048 % 256, 0xC0, 1, claimed / 256, claimed % 256, 0, 1, 2, 3]
    {
      BuiltOctets(SpacePacket(ValidHeader(home), [], PAYLOAD, Some(CLAIMED_LENGTHS[i])));
    }
  }

  lemma SecondaryHeadersSpelledOut(home: int)
    ensures |SecondaryHeaderCases(home)| == 2
    ensures SecondaryHeaderCases(home) == [FlagSetCase(home), FlagClearCase(home)]
    ensures Labelled(FlagSetCase(home), "sec_hdr_flag_set_but_absent", SecondaryHeader, true)
    ensures FlagSetCase(home).packet == [8 + home % 2048 / 256, home % 2048 % 256, 0xC0, 1, 0, 3, 0, 1, 2, 3]
    ensures Labelled(FlagClearCase(home), "sec_hdr_flag_clear_but_present", SecondaryHeader, false)
    ensures FlagClearCase(home).packet == [home % 2048 / 256, home % 2048 % 256, 0xC0, 1, 0, 3, 0xFF, 0xFF, 0, 1]
  {
    hide SpacePacket.ToBytes;
    BuiltOctets(SpacePacket(ValidHeader(home).(secHdrFlag := 1), [], PAYLOAD, None));
    BuiltOctets(SpacePacket(ValidHeader(home).(secHdrFlag := 0), [0xFF, 0xFF], [0, 1], None));
  }

  lemma TruncationsSpelledOut(home: int)
    ensures |TruncationCases(home)| == 6
    ensures forall size :: 0 <= size < 6 ==>
      var c := TruncationCases(home)[size];
      && Labelled(c, "truncated_" + ["0123456789"[size]] + "_bytes", Truncation, true)
      && |c.packet| == size
      && c.packet <= [home % 2048 / 256, home % 2048 % 256, 0xC0, 1, 0]
  {
    hide PrimaryHeader.Pack, Labelled;
    forall size | 0 <= size < 6
      ensures var c := TruncationCases(home)[size];
        && Labelled(c, "truncated_" + ["0123456789"[size]] + "_bytes", Truncation, true)
        && |c.packet| == size
        && c.packet <= [home % 2048 / 256, home % 2048 % 256, 0xC0, 1, 0]
    {
      TruncationLabelled(home, size);
      HeaderStart(home, size);
    }
  }

  lemma TruncationLabelled(home: int, size: nat)
    requires size < 6
    ensures Labelled(TruncationCase(home, size), "truncated_" + ["0123456789"[size]] + "_bytes", Truncation, true)
  {
    hide PrimaryHeader.Pack;
  }

  lemma HeaderStart(home: int, size: nat)
    requires size < 6
    ensures ValidHeader(home).Pack()[..size] <= [home % 2048 / 256, home % 2048 % 256, 0xC0, 1, 0]
  {
    hide PrimaryHeader.Pack, PrimaryHeader.PackBits;
    HeaderOctets(ValidHeader(home));
  }

  /** 4096 octets, a whole packet of the largest size, and one octet more than the length field can say. */
  lemma OversizedSpelledOut(home: int)
    ensures |OversizedCases(home)| == 3
    ensures forall i :: 0 <= i < 3 ==>
      var c, size, claimed := OversizedCases(home)[i], [4090, 65536, 65537][i], [4089, 65535, 65535][i];
      && Labelled(c, ["oversized_reachable", "oversized_max_spec_size", "oversized_beyond_field_range"][i],
                  Oversized, true)
      && |c.packet| == 6 + size
      && c.packet[..6] == [home % 2048 / 256, home % 2048 % 256, 0xC0, 1, claimed / 256, claimed % 256]
      && (forall n :: 6 <= n < |c.packet| ==> c.packet[n] == 0)
  {
    hide SpacePacket.ToBytes;
    forall i | 0 <= i < 3
      ensures var c, size, claimed := OversizedCases(home)[i], [4090, 65536, 65537][i], [4089, 65535, 65535][i];
        && Labelled(c, ["oversized_reachable", "oversized_max_spec_size", "oversized_beyond_field_range"][i],
                    Oversized, true)
        && |c.packet| == 6 + size
        && c.packet[..6] == [home % 2048 / 256, home % 2048 % 256, 0xC0, 1, claimed / 256, claimed % 256]
        && (forall n :: 6 <= n < |c.packet| ==> c.packet[n] == 0)
    {
      var size, claimed := [4090, 65536, 65537][i], [4089, 65535, 65535][i];
      BuiltOctets(SpacePacket(ValidHeader(home), [], Zeros(size), Some(claimed)));
    }
  }

  lemma DegeneratesSpelledOut(home: int)
    ensures |DegenerateCases(home)| == 3
    ensures forall i :: 0 <= i < 3 ==>
      var c := DegenerateCases(home)[i];
      && Labelled(c, ["degenerate_all_zero", "degenerate_all_ff", "degenerate_empty_but_length_nonzero"][i],
                  DegeneratePayload, i == 2)
      && |c.packet| == (if i == 2 then 6 else 22)
      && c.packet[..6] == [home % 2048 / 256, home % 2048 % 256, 0xC0, 1, 0, 15]
      && (forall n :: 6 <= n < |c.packet| ==> c.packet[n] == if i == 0 then 0 else 0xFF)
  {
    hide SpacePacket.ToBytes;
    forall i | 0 <= i < 3
      ensures var c := DegenerateCases(home)[i];
        && Labelled(c, ["degenerate_all_zero", "degenerate_all_ff", "degenerate_empty_but_length_nonzero"][i],
                    DegeneratePayload, i == 2)
        && |c.packet| == (if i == 2 then 6 else 22)
        && c.packet[..6] == [home % 2048 / 256, home % 2048 % 256, 0xC0, 1, 0, 15]
        && (forall n :: 6 <= n < |c.packet| ==> c.packet[n] == if i == 0 then 0 else 0xFF)
    {
      DegenerateOctets(home, DEGENERATE_PAYLOADS[i].1, if i == 2 then Some(15) else None);
    }
  }

  lemma DegenerateOctets(home: int, payload: Bytes, declared: Option<int>)
    requires if declared == None then |payload| == 16 else declared == Some(15)
    ensures SpacePacket(ValidHeader(home), [], payload, declared).ToBytes()
         == [home % 2048 / 256, home % 2048 % 256, 0xC0, 1, 0, 15] + payload
  {
    hide SpacePacket.ToBytes;
    var p := SpacePacket(ValidHeader(home), [], payload, declared);
    BuiltOctets(p);
    assert p.Payload() == payload;
  }

  /** These ten families in this order are the suite. */
  lemma SuiteSpelledOut(home: int)
    ensures GeneratedCases(home) ==
      KnownGoodCases(home) + MalformedCases(home) + VersionCases(home) + ApidCases(home) + SeqFlagsCases(home)
      + PacketLengthCases(home) + SecondaryHeaderCases(home) + TruncationCases(home) + OversizedCases(home)
      + DegenerateCases(home)
  {
    hide KnownGoodCases, MalformedCases, VersionCases, ApidCases, SeqFlagsCases, PacketLengthCases;
    hide SecondaryHeaderCases, TruncationCases, OversizedCases, DegenerateCases;
    assert FirstFamilies(home, 0) == [];
    assert FirstFamilies(home, 1) == KnownGoodCases(home);
    assert FirstFamilies(home, 2) == FirstFamilies(home, 1) + MalformedCases(home);
    assert FirstFamilies(home, 3) == FirstFamilies(home, 2) + VersionCases(home);
    assert FirstFamilies(home, 4) == FirstFamilies(home, 3) + ApidCases(home);
    assert FirstFamilies(home, 5) == FirstFamilies(home, 4) + SeqFlagsCases(home);
    assert FirstFamilies(home, 6) == FirstFamilies(home, 5) + PacketLengthCases(home);
    assert FirstFamilies(home, 7) == FirstFamilies(home, 6) + SecondaryHeaderCases(home);
    assert FirstFamilies(home, 8) == FirstFamilies(home, 7) + TruncationCases(home);
    assert FirstFamilies(home, 9) == FirstFamilies(home, 8) + OversizedCases(home);
  }

  // ---- What a target accepts of it --------------------------------------------------------------------------

  /** The cases a target accepts when they are addressed to it: the control and two nothing is expected of. */
  predicate Acceptable(name: string) {
    name in {"ci_lab_noop", "seq_flags_11", "degenerate_all_zero"}
  }

  /**
    Exactly which generated cases a target accepts once they are retargeted: the control, the unsegmented
    sequence flags and the all-zero payload, by the target addressed, and the flag-set case at the eight
    colliding APIDs.
   */
  lemma AcceptedCases(home: int, expected: int, apid: int, c: PacketCase)
    requires c in GeneratedCases(home)
    ensures Accepts(expected, Retarget(apid, c).packet) <==>
      && apid % 2048 == expected
      && (|| c.name in {"ci_lab_noop", "seq_flags_11", "degenerate_all_zero"}
          || (c.name == "sec_hdr_flag_set_but_absent" && Collides(expected)))
  {
    hide Accepts, Retarget, Collides, KnownGoodCases, MalformedCases, VersionCases, ApidCases, SeqFlagsCases;
    hide PacketLengthCases, SecondaryHeaderCases, TruncationCases, OversizedCases, DegenerateCases;
    var family := FamilyOf(home, 10, c);
    FamilyAcceptance(home, expected, apid, c, family);
    if family == 4 {
      SeqFlagsAccepted(home, expected, apid, c);
    } else if family == 6 {
      SecondaryHeaderAccepted(home, expected, apid, c);
    } else if family == 9 {
      DegenerateAccepted(home, expected, apid, c);
    } else {
      OtherNames(home, c, family);
    }
  }

  lemma SeqFlagsAccepted(home: int, expected: int, apid: int, c: PacketCase)
    requires c in SeqFlagsCases(home)
    ensures Accepts(expected, Retarget(apid, c).packet) <==> apid % 2048 == expected && Acceptable(c.name)
    ensures c.name != "sec_hdr_flag_set_but_absent"
  {
    hide Accepts, Retarget, SpacePacket.ToBytes;
    SeqFlagsSpelledOut(home);
    var f :| 0 <= f < 4 && c == SeqFlagsCases(home)[f];
    BuiltAndRetargeted(expected, apid, c, SpacePacket(ValidHeader(home).(seqFlags := f), [], PAYLOAD, None));
  }

  lemma SecondaryHeaderAccepted(home: int, expected: int, apid: int, c: PacketCase)
    requires c in SecondaryHeaderCases(home)
    ensures Accepts(expected, Retarget(apid, c).packet)
       <==> apid % 2048 == expected && c.name == "sec_hdr_flag_set_but_absent" && Collides(expected)
    ensures !Acceptable(c.name)
  {
    hide Accepts, Retarget, SpacePacket.ToBytes, Collides, Fold;
    SecondaryHeadersSpelledOut(home);
    if c == FlagSetCase(home) {
      FlagSetAccepted(home, expected, apid);
    } else {
      RetargetSecondaryHeader(expected, apid, c);
      HeaderOfOctets(c.packet);
    }
  }

  lemma DegenerateAccepted(home: int, expected: int, apid: int, c: PacketCase)
    requires c in DegenerateCases(home)
    ensures Accepts(expected, Retarget(apid, c).packet) <==> apid % 2048 == expected && Acceptable(c.name)
    ensures c.name != "sec_hdr_flag_set_but_absent"
  {
    hide Accepts, Retarget, SpacePacket.ToBytes;
    DegeneratesSpelledOut(home);
    var i :| 0 <= i < 3 && c == DegenerateCases(home)[i];
    BuiltAndRetargeted(expected, apid, c,
                       SpacePacket(ValidHeader(home), [], DEGENERATE_PAYLOADS[i].1, if i == 2 then Some(15) else None));
  }

  /** The other families hold no acceptable name but the control's, and nothing that is not to be rejected. */
  lemma OtherNames(home: int, c: PacketCase, family: nat)
    requires family in {0, 1, 2, 3, 5, 7, 8} && c in Family(home, family)
    ensures Acceptable(c.name) <==> c.expectAccept
    ensures c.expectAccept || c.expectSafeReject
    ensures c.name != "sec_hdr_flag_set_but_absent" && c != FlagSetCase(home)
  {
    hide SpacePacket.ToBytes, Repair, Fold, KnownGoodCases, MalformedCases, VersionCases, ApidCases;
    hide PacketLengthCases, TruncationCases, OversizedCases;
    SecondaryHeadersSpelledOut(home);
    match family {
      case 0 => ControlSpelledOut(home);
      case 1 => MalformedSpelledOut(home);
      case 2 => VersionsSpelledOut(home);
      case 3 => ApidsSpelledOut(home);
      case 5 => LengthsSpelledOut(home);
      case 7 => TruncationsSpelledOut(home);
      case _ => OversizedSpelledOut(home);
    }
  }
}
