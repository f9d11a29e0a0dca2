/** The boundary-value case builders. */
module Generator {
  import opened Bits
  import opened Wrappers
  import opened Ccsds
  import opened Checksum
  import opened Cases

  /** The header the builders start from; `home` is the suite's own APID, 42 in the code. */
  function ValidHeader(home: int): PrimaryHeader {
    PrimaryHeader(0, 0, 0, home, 3, 1, 0)
  }

  const PAYLOAD: Bytes := [0, 1, 2, 3]

  /** A case with the default flags: not an acceptance control, checksum meant to be valid. */
  function Plain(name: string, category: Category, packet: Bytes, expectSafeReject: bool): PacketCase {
    PacketCase(name, category, packet, expectSafeReject, false, true)
  }

  function Digit(d: nat): string
    requires d < 10
  {
    ["0123456789"[d]]
  }

  // ---- The cases, family by family --------------------------------------------------------------------

  function NoopPacket(apid: int): SpacePacket {
    SpacePacket(ValidHeader(apid).(packetType := 1, secHdrFlag := 1), [0, 0], [], None)
  }

  function KnownGoodCases(apid: int): seq<PacketCase> {
    [PacketCase("ci_lab_noop", KnownGood, Repair(NoopPacket(apid).ToBytes()), false, true, true)]
  }

  function MalformedCases(home: int): seq<PacketCase> {
    var valid := KnownGoodCases(home)[0].packet;
    [ PacketCase("command_bad_checksum", CommandMalformed, valid[7 := XorByte(valid[7], 1)], true, false, false),
      Plain("command_invalid_function", CommandMalformed, Repair(valid[6 := 0xFF]), true),
      Plain("command_wrong_length", CommandMalformed, Repair(valid[4 := 0][5 := 2]), true) ]
  }

  function VersionCase(home: int, v: nat): PacketCase
    requires v < 10
  {
    Plain("version_" + Digit(v), VersionField,
          SpacePacket(ValidHeader(home).(version := v), [], PAYLOAD, None).ToBytes(), true)
  }

  function VersionCases(home: int): seq<PacketCase> {
    seq(7, i requires 0 <= i < 7 => VersionCase(home, i + 1))
  }

  const EDGE_APIDS: seq<int> := [0, 1023, 2047]
  const EDGE_APID_NAMES: seq<string> := ["apid_0", "apid_1023", "apid_2047"]

  function ApidCase(home: int, i: nat): PacketCase
    requires i < 3
  {
    Plain(EDGE_APID_NAMES[i], ApidField,
          SpacePacket(ValidHeader(home).(apid := EDGE_APIDS[i]), [], PAYLOAD, None).ToBytes(), true)
  }

  function ApidCases(home: int): seq<PacketCase> {
    seq(3, i requires 0 <= i < 3 => ApidCase(home, i))
  }

  function SeqFlagsCase(home: int, flags: nat): PacketCase
    requires flags < 4
  {
    Plain("seq_flags_" + Digit(flags / 2) + Digit(flags % 2), SeqFlagsField,
          SpacePacket(ValidHeader(home).(seqFlags := flags), [], PAYLOAD, None).ToBytes(), flags != 3)
  }

  function SeqFlagsCases(home: int): seq<PacketCase> {
    seq(4, i requires 0 <= i < 4 => SeqFlagsCase(home, i))
  }

  /** The last scenario, fewer octets claimed than sent, bottoms out at zero. */
  const CLAIMED_LENGTHS: seq<int> := [0, 65535, 103, 0]
  const CLAIM_NAMES: seq<string> :=
    ["length_zero", "length_max", "length_claims_more_than_sent", "length_claims_less_than_sent"]

  function PacketLengthCase(home: int, i: nat): PacketCase
    requires i < 4
  {
    Plain(CLAIM_NAMES[i], PacketLength,
          SpacePacket(ValidHeader(home), [], PAYLOAD, Some(CLAIMED_LENGTHS[i])).ToBytes(), true)
  }

  function PacketLengthCases(home: int): seq<PacketCase> {
    seq(4, i requires 0 <= i < 4 => PacketLengthCase(home, i))
  }

  function FlagSetCase(home: int): PacketCase {
    Plain("sec_hdr_flag_set_but_absent", SecondaryHeader,
          SpacePacket(ValidHeader(home).(secHdrFlag := 1), [], PAYLOAD, None).ToBytes(), true)
  }

  function FlagClearCase(home: int): PacketCase {
    Plain("sec_hdr_flag_clear_but_present", SecondaryHeader,
          SpacePacket(ValidHeader(home).(secHdrFlag := 0), [0xFF, 0xFF], [0, 1], None).ToBytes(), false)
  }

  function SecondaryHeaderCases(home: int): seq<PacketCase> {
    [FlagSetCase(home), FlagClearCase(home)]
  }

  function TruncationCase(home: int, size: nat): PacketCase
    requires size < 6
  {
    Plain("truncated_" + Digit(size) + "_bytes", Truncation, ValidHeader(home).Pack()[..size], true)
  }

  function TruncationCases(home: int): seq<PacketCase> {
    seq(6, i requires 0 <= i < 6 => TruncationCase(home, i))
  }

  function OversizedCase(home: int, name: string, size: nat, claimed: int): PacketCase {
    Plain(name, Oversized, SpacePacket(ValidHeader(home), [], Zeros(size), Some(claimed)).ToBytes(), true)
  }

  function OversizedCases(home: int): seq<PacketCase> {
    [ OversizedCase(home, "oversized_reachable", 4090, 4089),
      OversizedCase(home, "oversized_max_spec_size", 65536, 65535),
      OversizedCase(home, "oversized_beyond_field_range", 65537, 65535) ]
  }

  function AllOnes(): Bytes {
    seq(16, i => 0xFF)
  }

  function DegenerateCase(home: int, name: string, payload: Bytes, expectSafeReject: bool): PacketCase {
    Plain("degenerate_" + name, DegeneratePayload,
          SpacePacket(ValidHeader(home), [], payload, if expectSafeReject then Some(15) else None).ToBytes(),
          expectSafeReject)
  }

  const DEGENERATE_PAYLOADS: seq<(string, Bytes, bool)> :=
    [("all_zero", Zeros(16), false), ("all_ff", AllOnes(), false), ("empty_but_length_nonzero", [], true)]

  function DegenerateCases(home: int): seq<PacketCase> {
    seq(3, i requires 0 <= i < 3 =>
      DegenerateCase(home, DEGENERATE_PAYLOADS[i].0, DEGENERATE_PAYLOADS[i].1, DEGENERATE_PAYLOADS[i].2))
  }

  /** The families in the order the suite lists them. */
  function Family(home: int, f: nat): seq<PacketCase>
    requires f < 10
  {
    if f == 0 then KnownGoodCases(home)
    else if f == 1 then MalformedCases(home)
    else if f == 2 then VersionCases(home)
    else if f == 3 then ApidCases(home)
    else if f == 4 then SeqFlagsCases(home)
    else if f == 5 then PacketLengthCases(home)
    else if f == 6 then SecondaryHeaderCases(home)
    else if f == 7 then TruncationCases(home)
    else if f == 8 then OversizedCases(home)
    else DegenerateCases(home)
  }

  function FirstFamilies(home: int, n: nat): seq<PacketCase>
    requires n <= 10
    decreases n, home
  {
    if n == 0 then [] else FirstFamilies(home, n - 1) + Family(home, n - 1)
  }

  function GeneratedCases(home: int): seq<PacketCase> {
    FirstFamilies(home, 10)
  }

  // ---- The builders ---------------------------------------------------------------------------------------

  method BuildKnownGood(apid: int) returns (cases: seq<PacketCase>)
    ensures cases == KnownGoodCases(apid)
  {
    var header := ValidHeader(apid).(packetType := 1, secHdrFlag := 1);
    var packet := SpacePacket(header, [0, 0], [], None);
    var sealed := WithCommandChecksumUnguarded(packet.ToBytes());
    assert |packet.ToBytes()| == 8;
    cases := [PacketCase("ci_lab_noop", KnownGood, sealed.value, false, true, true)];
  }

  method BuildMalformed(home: int) returns (cases: seq<PacketCase>)
    ensures cases == MalformedCases(home)
  {
    hide XorByte, Repair, Residue;
    var known := BuildKnownGood(home);
    var valid := known[0].packet;
    assert |NoopPacket(home).ToBytes()| == 8;
    cases := [];

    var badChecksum := Bytearray(valid);
    badChecksum[7] := XorByte(badChecksum[7], 1);
    assert badChecksum[..] == valid[7 := XorByte(valid[7], 1)];
    cases := cases + [PacketCase("command_bad_checksum", CommandMalformed, badChecksum[..], true, false, false)];

    var invalidFunction := Bytearray(valid);
    invalidFunction[6] := 0xFF;
    assert invalidFunction[..] == valid[6 := 0xFF];
    var second := WithCommandChecksumUnguarded(invalidFunction[..]);
    cases := cases + [Plain("command_invalid_function", CommandMalformed, second.value, true)];

    var wrongLength := Bytearray(valid);
    wrongLength[4], wrongLength[5] := 0, 2;
    assert wrongLength[..] == valid[4 := 0][5 := 2];
    var third := WithCommandChecksumUnguarded(wrongLength[..]);
    cases := cases + [Plain("command_wrong_length", CommandMalformed, third.value, true)];
  }

  method BuildVersions(home: int) returns (cases: seq<PacketCase>)
    ensures cases == VersionCases(home)
  {
    hide SpacePacket.ToBytes;
    cases := [];
    for v := 1 to 8
      invariant cases == VersionCases(home)[..v - 1]
    {
      var packet := SpacePacket(ValidHeader(home).(version := v), [], PAYLOAD, None);
      cases := cases + [Plain("version_" + Digit(v), VersionField, packet.ToBytes(), true)];
    }
  }

  method BuildApids(home: int) returns (cases: seq<PacketCase>)
    ensures cases == ApidCases(home)
  {
    hide SpacePacket.ToBytes;
    cases := [];
    for i := 0 to 3
      invariant cases == ApidCases(home)[..i]
    {
      var packet := SpacePacket(ValidHeader(home).(apid := EDGE_APIDS[i]), [], PAYLOAD, None);
      cases := cases + [Plain(EDGE_APID_NAMES[i], ApidField, packet.ToBytes(), true)];
    }
  }

  method BuildSeqFlags(home: int) returns (cases: seq<PacketCase>)
    ensures cases == SeqFlagsCases(home)
  {
    hide SpacePacket.ToBytes;
    cases := [];
    for flags := 0 to 4
      invariant cases == SeqFlagsCases(home)[..flags]
    {
      var packet := SpacePacket(ValidHeader(home).(seqFlags := flags), [], PAYLOAD, None);
      cases := cases + [Plain("seq_flags_" + Digit(flags / 2) + Digit(flags % 2), SeqFlagsField,
                              packet.ToBytes(), flags != 3)];
    }
  }

  method BuildPacketLengths(home: int) returns (cases: seq<PacketCase>)
    ensures cases == PacketLengthCases(home)
  {
    hide SpacePacket.ToBytes;
    cases := [];
    for i := 0 to 4
      invariant cases == PacketLengthCases(home)[..i]
    {
      var packet := SpacePacket(ValidHeader(home), [], PAYLOAD, Some(CLAIMED_LENGTHS[i]));
      cases := cases + [Plain(CLAIM_NAMES[i], PacketLength, packet.ToBytes(), true)];
    }
  }

  method BuildTruncations(home: int) returns (cases: seq<PacketCase>)
    ensures cases == TruncationCases(home)
  {
    cases := [];
    for size := 0 to 6
      invariant cases == TruncationCases(home)[..size]
    {
      var full := ValidHeader(home).Pack();
      cases := cases + [Plain("truncated_" + Digit(size) + "_bytes", Truncation, full[..size], true)];
    }
  }

  method BuildDegenerates(home: int) returns (cases: seq<PacketCase>)
    ensures cases == DegenerateCases(home)
  {
    hide SpacePacket.ToBytes;
    cases := [];
    for i := 0 to 3
      invariant cases == DegenerateCases(home)[..i]
    {
      var (name, payload, expectSafeReject) := DEGENERATE_PAYLOADS[i];
      var declared := if expectSafeReject then Some(15) else None;
      var packet := SpacePacket(ValidHeader(home), [], payload, declared);
      cases := cases + [Plain("degenerate_" + name, DegeneratePayload, packet.ToBytes(), expectSafeReject)];
    }
  }

  method GenerateAll(home: int) returns (cases: seq<PacketCase>)
    ensures cases == GeneratedCases(home)
  {
    hide KnownGoodCases, MalformedCases, VersionCases, ApidCases, SeqFlagsCases, PacketLengthCases;
    hide SecondaryHeaderCases, TruncationCases, OversizedCases, DegenerateCases;
    var knownGood := BuildKnownGood(home);
    var malformed := BuildMalformed(home);
    var versions := BuildVersions(home);
    var apids := BuildApids(home);
    var seqFlags := BuildSeqFlags(home);
    var lengths := BuildPacketLengths(home);
    var truncations := BuildTruncations(home);
    var degenerates := BuildDegenerates(home);
    var families := [knownGood, malformed, versions, apids, seqFlags, lengths, SecondaryHeaderCases(home),
                     truncations, OversizedCases(home), degenerates];
    cases := [];
    for i := 0 to |families|
      invariant cases == FirstFamilies(home, i)
    {
      assert families[i] == Family(home, i);
      cases := cases + families[i];
    }
  }
}
