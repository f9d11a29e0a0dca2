/**
  The mock command-ingest target: it accepts well-formed commands, counts everything else as an error,
  answers housekeeping requests with its counters, and, when buggy, dies on an oversized command.
 */
module Target {
  import opened Bits
  import opened Wrappers
  import opened Ccsds
  import opened Checksum

  const HK_REQUEST: Bytes := [0x48, 0x4B, 0x3F]  // "HK?"
  const MAX_COMMAND_SIZE: nat := 2048
  const HK_USER_DATA_OFFSET: nat := 16
  const HK_PACKET_SIZE: nat := 28

  // ---- Acceptance -------------------------------------------------------------------------------

  /** The structural half of the acceptance test: what the header fields and octet 6 must say. */
  predicate ExpectedFields(apid: int, h: PrimaryHeader) {
    && h.version == 0
    && h.packetType == 1
    && h.seqFlags == 3
    && h.apid == apid
    && h.secHdrFlag == 1
  }

  /** What a target expecting `apid` accepts. */
  predicate Accepts(apid: int, data: Bytes) {
    && 8 <= |data| <= MAX_COMMAND_SIZE
    && ExpectedFields(apid, Unpack(data).value)
    && Unpack(data).value.DataLength() == |data| - PRIMARY_HEADER_SIZE
    && data[6] == 0
    && Residue(data) == 0
  }

  /** Acceptance octet by octet: a sealed, unsegmented command of 8 to 2048 octets with function code zero. */
  lemma AcceptsOctets(apid: int, data: Bytes)
    ensures Accepts(apid, data) <==>
      && 8 <= |data| <= 2048
      && var b0: int, b1: int, b2: int, b4: int, b5: int := data[0], data[1], data[2], data[4], data[5];
      && b0 / 8 == 3                    // version 0, command, secondary header present
      && b0 % 8 * 256 + b1 == apid
      && b2 / 64 == 3
      && b4 * 256 + b5 == |data| - 7
      && data[6] == 0
      && Fold(0xFF, data) == 0
  {
    if 8 <= |data| {
      HeaderOfOctets(data);
    }
  }

  /** A command that is right in everything is accepted up to 2048 octets and not beyond. */
  lemma SizeLimit(apid: int, size: nat)
    requires 0 <= apid < 2048 && 8 <= size <= 65542
    ensures var h := PrimaryHeader(0, 1, 1, apid, 3, 0, size - 7);
      Accepts(apid, Repair(h.Pack() + Zeros(size - 6))) <==> size <= 2048
  {
    var h := PrimaryHeader(0, 1, 1, apid, 3, 0, size - 7);
    var b := h.Pack() + Zeros(size - 6);
    HeaderRoundTrip(h, Zeros(size - 6));
    assert b[6] == Zeros(size - 6)[0] == 0;
    RepairIsSound(b);
    var r := Repair(b);
    assert forall i :: 0 <= i < |b| && i != 7 ==> r[i] == b[i];
    assert Word(r, 0) == Word(b, 0) && Word(r, 2) == Word(b, 2) && Word(r, 4) == Word(b, 4);
  }

  // ---- Housekeeping telemetry ---------------------------------------------------------------------

  datatype Counters = Counters(
    command: int,
    commandError: int,
    enableChecksums: int,
    socketConnected: int,
    ingestPackets: int,
    ingestErrors: int)
  {
    predicate Representable() {
      && 0 <= command < 256 && 0 <= commandError < 256
      && 0 <= enableChecksums < 256 && 0 <= socketConnected < 256
      && 0 <= ingestPackets < 0x1_0000_0000 && 0 <= ingestErrors < 0x1_0000_0000
    }
  }

  /** `struct.pack("<I", word)` */
  function LittleEndian32(word: int): Bytes
    requires 0 <= word < 0x1_0000_0000
  {
    [word % 256, word / 256 % 256, word / 65536 % 256, word / 16777216]
  }

  /** `struct.unpack_from("<I", data, i)` */
  function Long(data: Bytes, i: nat): int
    requires i + 3 < |data|
  {
    var b0: int, b1: int, b2: int, b3: int := data[i], data[i + 1], data[i + 2], data[i + 3];
    b0 + 256 * b1 + 65536 * b2 + 16777216 * b3
  }

  /** The housekeeping payload: four octets and two little-endian words. */
  function EncodePayload(c: Counters): (p: Bytes)
    requires c.Representable()
    ensures |p| == 12
  {
    [c.command, c.commandError, c.enableChecksums, c.socketConnected]
    + LittleEndian32(c.ingestPackets) + LittleEndian32(c.ingestErrors)
  }

  /** `parse_hk_counters`; None models the ValueError it raises on a short reply. */
  function ParseHkCounters(packet: Bytes): (c: Option<Counters>)
    ensures c.Some? <==> |packet| >= 28
  {
    var data := if |packet| < HK_USER_DATA_OFFSET then [] else packet[HK_USER_DATA_OFFSET..];
    if |data| < 12 then None
    else Some(Counters(data[0], data[1], data[2], data[3], Long(data, 4), Long(data, 8)))
  }

  lemma LongRoundTrip(word: int)
    requires 0 <= word < 0x1_0000_0000
    ensures Long(LittleEndian32(word), 0) == word
  {
    assert word / 65536 == word / 256 / 256 && word / 16777216 == word / 65536 / 256;
  }

  lemma LongDigits(a: byte, b: byte, c: byte, d: byte)
    ensures LittleEndian32(Long([a, b, c, d], 0)) == [a, b, c, d]
  {
    var w := Long([a, b, c, d], 0);
    assert w / 256 == (b as int) + 256 * (c as int) + 65536 * (d as int);
    assert w / 65536 == (c as int) + 256 * (d as int);
    assert w / 16777216 == d;
  }

  /** The parser inverts the encoder behind any 16-octet header and before any trailing octets. */
  lemma HkRoundTrip(header: Bytes, c: Counters, trailing: Bytes)
    requires |header| == HK_USER_DATA_OFFSET && c.Representable()
    ensures ParseHkCounters(header + EncodePayload(c) + trailing) == Some(c)
  {
    var packet := header + EncodePayload(c) + trailing;
    var data := packet[HK_USER_DATA_OFFSET..];
    assert data == EncodePayload(c) + trailing;
    assert data[4..8] == LittleEndian32(c.ingestPackets) && data[8..12] == LittleEndian32(c.ingestErrors);
    LongRoundTrip(c.ingestPackets);
    LongRoundTrip(c.ingestErrors);
    assert Long(data, 4) == Long(data[4..8], 0) && Long(data, 8) == Long(data[8..12], 0);
  }

  /** Conversely the parsed counters are octets 16 to 27 of the reply, in that order, words least octet first. */
  lemma HkParseIsFaithful(packet: Bytes)
    requires |packet| >= HK_PACKET_SIZE
    ensures ParseHkCounters(packet).value.Representable()
    ensures EncodePayload(ParseHkCounters(packet).value) == packet[16..28]
    ensures ParseHkCounters(packet).value == Counters(
      packet[16], packet[17], packet[18], packet[19],
      packet[20] + 256 * (packet[21] as int) + 65536 * (packet[22] as int) + 16777216 * (packet[23] as int),
      packet[24] + 256 * (packet[25] as int) + 65536 * (packet[26] as int) + 16777216 * (packet[27] as int))
  {
    var data := packet[HK_USER_DATA_OFFSET..];
    LongDigits(data[4], data[5], data[6], data[7]);
    LongDigits(data[8], data[9], data[10], data[11]);
    assert Long(data, 4) == Long([data[4], data[5], data[6], data[7]], 0);
    assert Long(data, 8) == Long([data[8], data[9], data[10], data[11]], 0);
  }

  // ---- The target's step function ------------------------------------------------------------------

  /** The counters are unbounded integers; only the telemetry reduces them modulo 256. */
  datatype TargetState = TargetState(accepted: nat, errors: nat, alive: bool) {
    /** What the housekeeping reply reports. */
    function Telemetry(): (c: Counters)
      ensures c.Representable()
    {
      Counters(accepted % 256, errors % 256, 0, 1, 0, 0)
    }

    function HkReply(): Bytes {
      Zeros(HK_USER_DATA_OFFSET) + EncodePayload(Telemetry())
    }
  }

  /** One datagram's worth of `serve_forever`; once the exception has ended the loop nothing is served. */
  function Serve(apid: int, buggy: bool, s: TargetState, data: Bytes): (TargetState, Option<Bytes>) {
    if !s.alive then (s, None)
    else if data == HK_REQUEST then (s, Some(s.HkReply()))
    else if buggy && |data| > MAX_COMMAND_SIZE then (s.(alive := false), None)
    else if Accepts(apid, data) then (s.(accepted := s.accepted + 1), None)
    else (s.(errors := s.errors + 1), None)
  }

  lemma HkReplyParses(s: TargetState)
    ensures ParseHkCounters(s.HkReply()) == Some(s.Telemetry())
  {
    HkRoundTrip(Zeros(HK_USER_DATA_OFFSET), s.Telemetry(), []);
    assert s.HkReply() + [] == s.HkReply();
  }

  /**
    The three octets of the request get 28 octets back, all zero but the low octets of the two true counts
    and the socket flag, and change nothing; the reply reads as just that.
   */
  lemma HkAnswered(apid: int, buggy: bool, s: TargetState)
    requires s.alive
    ensures var (s', reply) := Serve(apid, buggy, s, [0x48, 0x4B, 0x3F]);
      && s' == s && reply.Some? && |reply.value| == 28
      && (forall i :: 0 <= i < 28 ==>
            reply.value[i] == if i == 16 then s.accepted % 256 else if i == 17 then s.errors % 256
                              else if i == 19 then 1 else 0)
      && ParseHkCounters(reply.value) == Some(Counters(s.accepted % 256, s.errors % 256, 0, 1, 0, 0))
  {
    HkReplyParses(s);
  }

  /** Any other datagram is a command: counted once as accepted or as an error, or the death of a buggy target. */
  lemma CommandServed(apid: int, buggy: bool, s: TargetState, data: Bytes)
    requires s.alive && data != [0x48, 0x4B, 0x3F]
    ensures Serve(apid, buggy, s, data)
         == (if buggy && |data| > 2048 then s.(alive := false)
             else if Accepts(apid, data) then s.(accepted := s.accepted + 1)
             else s.(errors := s.errors + 1), None)
  {
  }

  class MockTarget {
    const expectedApid: int
    const buggy: bool
    var acceptCount: nat
    var errorCount: nat
    var alive: bool

    constructor (expectedApid: int, buggy: bool)
      ensures this.expectedApid == expectedApid && this.buggy == buggy
      ensures State() == TargetState(0, 0, true)
    {
      this.expectedApid, this.buggy := expectedApid, buggy;
      acceptCount, errorCount, alive := 0, 0, true;
    }

    ghost function State(): TargetState
      reads this
    {
      TargetState(acceptCount, errorCount, alive)
    }

    method IsWellFormed(data: Bytes) returns (ok: bool)
      ensures ok <==> Accepts(expectedApid, data)
    {
      if |data| < PRIMARY_HEADER_SIZE || |data| > MAX_COMMAND_SIZE {
        return false;
      }
      var header := UnpackBits(data).value;
      var payloadLength := |data| - PRIMARY_HEADER_SIZE;
      var checksum: byte := 0xFF;
      for i := 0 to |data|
        invariant checksum == Residue(data[..i])
      {
        assert data[..i + 1][..i] == data[..i];
        checksum := XorByte(checksum, data[i]);
      }
      assert data[..|data|] == data;
      return ExpectedFields(expectedApid, header) && header.DataLength() == payloadLength
             && |data| >= 8 && data[6] == 0 && checksum == 0;
    }

    /** False when the command raises, which only buggy mode does. */
    method HandleCommand(data: Bytes) returns (survived: bool)
      modifies `acceptCount, `errorCount
      ensures survived <==> !(buggy && |data| > 2048)
      ensures acceptCount == old(acceptCount) + (if survived && Accepts(expectedApid, data) then 1 else 0)
      ensures errorCount == old(errorCount) + (if survived && !Accepts(expectedApid, data) then 1 else 0)
    {
      if buggy && |data| > MAX_COMMAND_SIZE {
        return false;
      }
      var ok := IsWellFormed(data);
      if ok {
        acceptCount := acceptCount + 1;
      } else {
        errorCount := errorCount + 1;
      }
      return true;
    }

    /** One turn of the serve loop. */
    method ServeOne(data: Bytes) returns (reply: Option<Bytes>)
      modifies this
      ensures (State(), reply) == Serve(expectedApid, buggy, old(State()), data)
    {
      if !alive {
        return None;
      }
      if data == HK_REQUEST {
        return Some(Zeros(HK_USER_DATA_OFFSET)
                    + EncodePayload(Counters(acceptCount % 256, errorCount % 256, 0, 1, 0, 0)));
      }
      alive := HandleCommand(data);
      return None;
    }
  }
}
