/**
  The CCSDS primary header and Space Packet container (CCSDS 133.0-B-2, section 4.1.3).
  Construction is permissive: fields are arbitrary integers, masked to their width on packing.
  A function returning `Option` models one that raises ValueError.
 */
module Ccsds {
  import opened Bits
  import opened Wrappers

  const PRIMARY_HEADER_SIZE: nat := 6
  const APID_IDLE: nat := 0x7FF
  const MAX_PACKET_SIZE: nat := 65542

  datatype PrimaryHeader = PrimaryHeader(
    version: int,
    packetType: int,
    secHdrFlag: int,
    apid: int,
    seqFlags: int,
    seqCount: int,
    lengthField: int)
  {
    /** The first word of the section 4.1.3 layout: version, type, secondary header flag, APID. */
    function Word0(): (w: nat)
      ensures w < 65536
    {
      version % 8 * 8192 + packetType % 2 * 4096 + secHdrFlag % 2 * 2048 + apid % 2048
    }

    /** The second word: sequence flags and sequence count. */
    function Word1(): (w: nat)
      ensures w < 65536
    {
      seqFlags % 4 * 16384 + seqCount % 16384
    }

    /** The octets the section 4.1.3 layout prescribes for the fields reduced to their widths. */
    function Pack(): (b: Bytes)
      ensures |b| == 6
      ensures Word(b, 0) == Word0() && Word(b, 2) == Word1() && Word(b, 4) == lengthField % 65536
    {
      Octets(Word0()) + Octets(Word1()) + Octets(lengthField % 65536)
    }

    /** `pack` as the code has it: three big-endian words assembled with masks, shifts and ors. */
    function PackBits(): (b: Bytes)
      ensures b == Pack()
    {
      hide And, Or, Shl, Shr;
      MaskedFields(this);
      Word0Layout(And(version, 7), And(packetType, 1), And(secHdrFlag, 1), And(apid, 2047));
      Word1Layout(And(seqFlags, 3), And(seqCount, 16383));
      var word0 := Or(Or(Or(Shl(And(version, 7), 13), Shl(And(packetType, 1), 12)),
                         Shl(And(secHdrFlag, 1), 11)), And(apid, 2047));
      var word1 := Or(Shl(And(seqFlags, 3), 14), And(seqCount, 16383));
      var word2 := And(lengthField, 65535);
      BigEndian16(word0) + BigEndian16(word1) + BigEndian16(word2)
    }

    /** Every field reduced modulo two to its width. */
    function Reduced(): PrimaryHeader {
      PrimaryHeader(version % 8, packetType % 2, secHdrFlag % 2, apid % 2048,
                    seqFlags % 4, seqCount % 16384, lengthField % 65536)
    }

    predicate InRange() {
      && 0 <= version < 8 && 0 <= packetType < 2 && 0 <= secHdrFlag < 2 && 0 <= apid < 2048
      && 0 <= seqFlags < 4 && 0 <= seqCount < 16384 && 0 <= lengthField < 65536
    }

    /** The octet count after the header that the length field claims (section 4.1.3.5). */
    function DataLength(): int {
      lengthField + 1
    }

    function Validate(): seq<Issue> {
      (if version != 0 then [BadVersion] else []) + (if apid == APID_IDLE then [IdleApid] else [])
    }
  }

  datatype Issue = BadVersion | IdleApid | LengthMismatch | TooLarge

  /** A word as two octets, most significant first. */
  function Octets(word: nat): (b: Bytes)
    requires word < 65536
    ensures |b| == 2 && Word(b, 0) == word
  {
    [word / 256, word % 256]
  }

  /** `struct.pack(">H", word)` */
  function BigEndian16(word: nat): (b: Bytes)
    requires word < 65536
    ensures b == Octets(word)
  {
    assert Pow2(8) == 256;
    ShrIsDiv(word, 8);
    AndMask(word, 8);
    [Shr(word, 8), And(word, 255)]
  }

  /** The three words of `struct.unpack(">HHH", ...)`. */
  function Word(b: Bytes, i: nat): (w: nat)
    requires i + 1 < |b|
    ensures w < 65536
  {
    (b[i] as int) * 256 + b[i + 1]
  }

  /** The fields the section 4.1.3 layout assigns to three words. */
  function FieldsOfWords(word0: nat, word1: nat, word2: nat): (h: PrimaryHeader)
    ensures h.lengthField == word2
  {
    PrimaryHeader(word0 / 8192, word0 / 4096 % 2, word0 / 2048 % 2, word0 % 2048,
                  word1 / 16384, word1 % 16384, word2)
  }

  /** The header in the first six octets. */
  function Unpack(b: Bytes): (h: Option<PrimaryHeader>)
    ensures h.Some? <==> |b| >= PRIMARY_HEADER_SIZE
  {
    if |b| < PRIMARY_HEADER_SIZE then None else Some(FieldsOfWords(Word(b, 0), Word(b, 2), Word(b, 4)))
  }

  /** `unpack` as the code has it: shifts and masks on the three words. */
  function UnpackBits(b: Bytes): (h: Option<PrimaryHeader>)
    ensures h == Unpack(b)
  {
    if |b| < PRIMARY_HEADER_SIZE then None else
    var word0, word1, word2 := Word(b, 0), Word(b, 2), Word(b, 4);
    ShiftedFields(word0, word1);
    Some(PrimaryHeader(
      And(Shr(word0, 13), 7), And(Shr(word0, 12), 1), And(Shr(word0, 11), 1), And(word0, 2047),
      And(Shr(word1, 14), 3), And(word1, 16383), word2))
  }

  // ---- Bit fields as arithmetic ----------------------------------------------------------------

  lemma SmallPowers()
    ensures Pow2(1) == 2 && Pow2(2) == 4 && Pow2(3) == 8 && Pow2(8) == 256 && Pow2(11) == 2048
    ensures Pow2(12) == 4096 && Pow2(13) == 8192 && Pow2(14) == 16384 && Pow2(16) == 65536
  {
  }

  lemma MaskedFields(h: PrimaryHeader)
    ensures And(h.version, 7) == h.version % 8 && And(h.packetType, 1) == h.packetType % 2
    ensures And(h.secHdrFlag, 1) == h.secHdrFlag % 2 && And(h.apid, 2047) == h.apid % 2048
    ensures And(h.seqFlags, 3) == h.seqFlags % 4 && And(h.seqCount, 16383) == h.seqCount % 16384
    ensures And(h.lengthField, 65535) == h.lengthField % 65536
  {
    SmallPowers();
    AndMask(h.version, 3);
    AndMask(h.packetType, 1);
    AndMask(h.secHdrFlag, 1);
    AndMask(h.apid, 11);
    AndMask(h.seqFlags, 2);
    AndMask(h.seqCount, 14);
    AndMask(h.lengthField, 16);
  }

  /** `(high << k) | low` for a field that fits below bit `k`. */
  lemma OrField(high: nat, low: nat, k: nat)
    requires low < Pow2(k)
    ensures Or(Shl(high, k), low) == high * Pow2(k) + low
  {
    OrDisjoint(high, low, k);
    ShlIsTimes(high, k);
  }

  lemma Word0Layout(v: nat, t: nat, s: nat, a: nat)
    requires v < 8 && t < 2 && s < 2 && a < 2048
    ensures Or(Or(Or(Shl(v, 13), Shl(t, 12)), Shl(s, 11)), a) == v * 8192 + t * 4096 + s * 2048 + a
  {
    hide Or, Shl;
    SmallPowers();
    ShlIsTimes(t, 12);
    OrField(v, Shl(t, 12), 13);
    ShlIsTimes(2 * v + t, 12);
    ShlIsTimes(s, 11);
    OrField(2 * v + t, Shl(s, 11), 12);
    ShlIsTimes(4 * v + 2 * t + s, 11);
    OrField(4 * v + 2 * t + s, a, 11);
  }

  lemma Word1Layout(f: nat, n: nat)
    requires f < 4 && n < 16384
    ensures Or(Shl(f, 14), n) == f * 16384 + n
  {
    SmallPowers();
    OrField(f, n, 14);
  }

  lemma ShiftedFields(word0: nat, word1: nat)
    requires word0 < 65536 && word1 < 65536
    ensures And(Shr(word0, 13), 7) == word0 / 8192 && And(Shr(word0, 12), 1) == word0 / 4096 % 2
    ensures And(Shr(word0, 11), 1) == word0 / 2048 % 2 && And(word0, 2047) == word0 % 2048
    ensures And(Shr(word1, 14), 3) == word1 / 16384 && And(word1, 16383) == word1 % 16384
  {
    hide And, Shr;
    SmallPowers();
    ShrIsDiv(word0, 13);
    ShrIsDiv(word0, 12);
    ShrIsDiv(word0, 11);
    ShrIsDiv(word1, 14);
    AndMask(word0 / 8192, 3);
    AndMask(word0 / 4096, 1);
    AndMask(word0 / 2048, 1);
    AndMask(word0, 11);
    AndMask(word1 / 16384, 2);
    AndMask(word1, 14);
  }

  // ---- Header codec ----------------------------------------------------------------------------

  lemma WordsOfFields(h: PrimaryHeader)
    ensures FieldsOfWords(h.Word0(), h.Word1(), h.lengthField % 65536) == h.Reduced()
  {
    var v, t, s, a := h.version % 8, h.packetType % 2, h.secHdrFlag % 2, h.apid % 2048;
    assert h.Word0() / 2048 == v * 4 + t * 2 + s;
    assert h.Word0() / 4096 == v * 2 + t;
  }

  lemma FieldsOfWordsInverse(word0: nat, word1: nat, word2: nat)
    requires word0 < 65536 && word1 < 65536 && word2 < 65536
    ensures var h := FieldsOfWords(word0, word1, word2);
      h.InRange() && h.Word0() == word0 && h.Word1() == word1
  {
    SplitWord0(word0);
  }

  lemma SplitWord0(word: nat)
    requires word < 65536
    ensures word / 8192 < 8
    ensures word == word / 8192 * 8192 + word / 4096 % 2 * 4096 + word / 2048 % 2 * 2048 + word % 2048
  {
    assert word / 4096 == word / 8192 * 2 + word / 4096 % 2;
    assert word / 2048 == word / 4096 * 2 + word / 2048 % 2;
  }

  /** Unpacking what was packed reduces every field to its width, whatever integers it held. */
  lemma HeaderRoundTrip(h: PrimaryHeader, rest: Bytes)
    ensures Unpack(h.Pack() + rest) == Some(h.Reduced())
  {
    WordsOfFields(h);
    var b := h.Pack() + rest;
    assert Word(b, 0) == h.Word0() && Word(b, 2) == h.Word1() && Word(b, 4) == h.lengthField % 65536;
  }

  /** Packing what was unpacked gives back the six header octets. */
  lemma OctetsRoundTrip(b: Bytes)
    requires |b| >= PRIMARY_HEADER_SIZE
    ensures Unpack(b).value.InRange()
    ensures Unpack(b).value.Pack() == b[..6]
  {
    hide FieldsOfWords, PrimaryHeader.InRange, PrimaryHeader.Word0, PrimaryHeader.Word1, Octets, Word;
    FieldsOfWordsInverse(Word(b, 0), Word(b, 2), Word(b, 4));
    OctetsOfWord(b, 0);
    OctetsOfWord(b, 2);
    OctetsOfWord(b, 4);
    assert b[..6] == b[0..2] + b[2..4] + b[4..6];
  }

  lemma OctetsOfWord(b: Bytes, i: nat)
    requires i + 1 < |b|
    ensures Octets(Word(b, i)) == b[i..i + 2]
  {
  }

  /** Two headers pack alike exactly when they agree field by field modulo the widths. */
  lemma PackInjective(g: PrimaryHeader, h: PrimaryHeader)
    ensures g.Pack() == h.Pack() <==> g.Reduced() == h.Reduced()
    ensures g.InRange() && h.InRange() ==> (g.Pack() == h.Pack() <==> g == h)
  {
    hide PrimaryHeader.InRange, PrimaryHeader.Reduced;
    HeaderRoundTrip(g, []);
    HeaderRoundTrip(h, []);
    assert g.Pack() + [] == g.Pack() && h.Pack() + [] == h.Pack();
    if g.Reduced() == h.Reduced() {
      SamePack(g, h);
    }
    ReducedInRange(g);
    ReducedInRange(h);
  }

  lemma ReducedInRange(h: PrimaryHeader)
    ensures h.InRange() ==> h.Reduced() == h
  {
  }

  lemma SamePack(g: PrimaryHeader, h: PrimaryHeader)
    requires g.Reduced() == h.Reduced()
    ensures g.Pack() == h.Pack()
  {
  }

  /**
    The six octets, octet by octet: version in the top three bits, then type, secondary header flag and the
    APID's top three bits; its low octet; sequence flags in the top two bits before the fourteen-bit count;
    the length, most significant octet first.
   */
  lemma HeaderOctets(h: PrimaryHeader)
    ensures h.PackBits() == h.Pack() == [
      h.version % 8 * 32 + h.packetType % 2 * 16 + h.secHdrFlag % 2 * 8 + h.apid % 2048 / 256,
      h.apid % 2048 % 256,
      h.seqFlags % 4 * 64 + h.seqCount % 16384 / 256,
      h.seqCount % 16384 % 256,
      h.lengthField % 65536 / 256,
      h.lengthField % 65536 % 256]
  {
    hide PrimaryHeader.PackBits, Word;
    OctetsOfSum(h.version % 8 * 32 + h.packetType % 2 * 16 + h.secHdrFlag % 2 * 8, h.apid % 2048);
    OctetsOfSum(h.seqFlags % 4 * 64, h.seqCount % 16384);
  }

  lemma OctetsOfSum(high: nat, low: nat)
    ensures (high * 256 + low) / 256 == high + low / 256 && (high * 256 + low) % 256 == low % 256
  {
  }

  /** Conversely, where each field of a parsed header comes from. */
  lemma HeaderOfOctets(b: Bytes)
    requires |b| >= 6
    ensures var b0: int, b1: int, b2: int, b3: int, b4: int, b5: int := b[0], b[1], b[2], b[3], b[4], b[5];
      UnpackBits(b) == Unpack(b) == Some(PrimaryHeader(
        b0 / 32, b0 / 16 % 2, b0 / 8 % 2, b0 % 8 * 256 + b1, b2 / 64, b2 % 64 * 256 + b3, b4 * 256 + b5))
  {
    hide PrimaryHeader.InRange;
    FirstWordFields(b[0], b[1]);
    SecondWordFields(b[2], b[3]);
  }

  lemma FirstWordFields(high: byte, low: byte)
    ensures var h: int := high; var w := h * 256 + low;
      w / 8192 == h / 32 && w / 4096 % 2 == h / 16 % 2 && w / 2048 % 2 == h / 8 % 2 && w % 2048 == h % 8 * 256 + low
  {
  }

  lemma SecondWordFields(high: byte, low: byte)
    ensures var h: int := high; var w := h * 256 + low;
      w / 16384 == h / 64 && w % 16384 == h % 64 * 256 + low
  {
  }

  // ---- Packets ----------------------------------------------------------------------------------

  datatype SpacePacket = SpacePacket(
    header: PrimaryHeader,
    secondaryHeader: Bytes,
    userData: Bytes,
    declaredLength: Option<int>)
  {
    function Payload(): Bytes {
      secondaryHeader + userData
    }

    /** The length field written out: the declared one, or the payload length less one, never negative. */
    function WrittenLength(): int {
      match declaredLength
      case Some(d) => d
      case None => if |Payload()| - 1 > 0 then |Payload()| - 1 else 0
    }

    function ToBytes(): Bytes {
      header.(lengthField := WrittenLength()).Pack() + Payload()
    }

    /** The header checked is the one held, not the one `ToBytes` would write. */
    function Validate(): seq<Issue> {
      var actual := |secondaryHeader| + |userData|;
      header.Validate()
      + (if header.DataLength() != actual then [LengthMismatch] else [])
      + (if PRIMARY_HEADER_SIZE + actual > MAX_PACKET_SIZE then [TooLarge] else [])
    }
  }

  function FromBytes(b: Bytes): Option<SpacePacket> {
    match Unpack(b)
    case None => None
    case Some(h) => Some(SpacePacket(h, [], b[6..], None))
  }

  /** What survives serialisation: reduced header fields, the written length, and the joined payload. */
  lemma PacketRoundTrip(p: SpacePacket)
    ensures FromBytes(p.ToBytes())
         == Some(SpacePacket(p.header.(lengthField := p.WrittenLength()).Reduced(), [], p.Payload(), None))
  {
    HeaderRoundTrip(p.header.(lengthField := p.WrittenLength()), p.Payload());
  }

  /**
    The octets of a packet: octets 4 and 5 carry the declared length modulo 65536, however false, or else the
    payload's length less one, zero for an empty payload; the secondary header and the user data follow.
   */
  lemma PacketOctets(p: SpacePacket)
    ensures var b := p.ToBytes();
      var length := if p.declaredLength.Some? then p.declaredLength.value
                    else if |p.secondaryHeader| + |p.userData| == 0 then 0
                    else |p.secondaryHeader| + |p.userData| - 1;
      && |b| == 6 + |p.secondaryHeader| + |p.userData|
      && b[4] == length % 65536 / 256 && b[5] == length % 65536 % 256
      && b[6..] == p.secondaryHeader + p.userData
      && (forall other :: b[..4] == p.header.(lengthField := other).Pack()[..4])
  {
    var length := p.WrittenLength();
    HeaderOctets(p.header.(lengthField := length));
    forall other ensures p.ToBytes()[..4] == p.header.(lengthField := other).Pack()[..4] {
      HeaderOctets(p.header.(lengthField := other));
    }
  }

  /** Serialising a parsed packet is the identity exactly when its length field tells the truth. */
  lemma BytesRoundTrip(b: Bytes)
    requires |b| >= PRIMARY_HEADER_SIZE
    ensures FromBytes(b).Some?
    ensures FromBytes(b).value.ToBytes() == b
       <==> Word(b, 4) == (if |b| >= 7 then |b| - 7 else 0) % 65536
  {
    var p := FromBytes(b).value;
    var h := p.header.(lengthField := p.WrittenLength());
    assert b == b[..6] + b[6..];
    assert p.Payload() == b[6..];
    OctetsRoundTrip(b);
    if p.ToBytes() == b {
      assert h.Pack() == p.ToBytes()[..6] == b[..6];
    }
    PackInjective(p.header, h);
  }

  /** Replacing a header by its own unpacking keeps every octet, lying length fields included. */
  lemma HeaderRewriteKeepsBytes(b: Bytes)
    requires |b| >= PRIMARY_HEADER_SIZE
    ensures Unpack(b).value.Pack() + b[6..] == b
  {
    OctetsRoundTrip(b);
  }

  /**
    Length validation on the wire image is sound and complete (section 4.1.3.5): a derived length is
    clean exactly for 1..65536 payload octets, a declared one exactly when it is right modulo 2^16.
   */
  lemma LengthValidation(p: SpacePacket)
    ensures FromBytes(p.ToBytes()).Some?
    ensures var issues := FromBytes(p.ToBytes()).value.Validate();
      && (p.declaredLength == None ==> (LengthMismatch !in issues <==> 1 <= |p.Payload()| <= 65536))
      && (p.declaredLength.Some? ==>
            (LengthMismatch !in issues <==> p.declaredLength.value % 65536 + 1 == |p.Payload()|))
      && (TooLarge in issues <==> |p.Payload()| > 65536)
      && (BadVersion in issues <==> p.header.version % 8 != 0)
      && (IdleApid in issues <==> p.header.apid % 2048 == 2047)
  {
    PacketRoundTrip(p);
  }

  /** What validating a packet reports, each issue at most once and always in the same order. */
  lemma IssuesOf(p: SpacePacket)
    ensures var issues := p.Validate();
      && (BadVersion in issues <==> p.header.version != 0)
      && (IdleApid in issues <==> p.header.apid == 2047)
      && (LengthMismatch in issues <==> p.header.lengthField + 1 != |p.secondaryHeader| + |p.userData|)
      && (TooLarge in issues <==> |p.secondaryHeader| + |p.userData| > 65536)
      && (forall i, j :: 0 <= i < j < |issues| ==>
            && issues[j] != BadVersion && issues[i] != TooLarge
            && (issues[j] == IdleApid ==> issues[i] == BadVersion)
            && (issues[i] == LengthMismatch ==> issues[j] == TooLarge))
  {
    IssueOrder(p.header.version != 0, p.header.apid == 2047,
               p.header.DataLength() != |p.secondaryHeader| + |p.userData|,
               |p.secondaryHeader| + |p.userData| > 65536);
  }

  lemma IssueOrder(version: bool, idle: bool, length: bool, large: bool)
    ensures var issues := (if version then [BadVersion] else []) + (if idle then [IdleApid] else [])
                          + (if length then [LengthMismatch] else []) + (if large then [TooLarge] else []);
      && (BadVersion in issues <==> version) && (IdleApid in issues <==> idle)
      && (LengthMismatch in issues <==> length) && (TooLarge in issues <==> large)
      && (forall i, j :: 0 <= i < j < |issues| ==>
            && issues[j] != BadVersion && issues[i] != TooLarge
            && (issues[j] == IdleApid ==> issues[i] == BadVersion)
            && (issues[i] == LengthMismatch ==> issues[j] == TooLarge))
  {
  }

  /**
    Validating a packet before serialising it inspects the header's own length field and unreduced fields,
    so it agrees with validating the wire image exactly when each of the three header checks does.
   */
  lemma ValidateAgreesIff(p: SpacePacket)
    ensures FromBytes(p.ToBytes()).Some?
    ensures p.Validate() == FromBytes(p.ToBytes()).value.Validate() <==>
      && (p.header.version % 8 == 0 ==> p.header.version == 0)
      && (p.header.apid % 2048 == 2047 ==> p.header.apid == 2047)
      && (p.header.lengthField + 1 == |p.Payload()| <==> p.WrittenLength() % 65536 + 1 == |p.Payload()|)
  {
    PacketRoundTrip(p);
    hide SpacePacket.ToBytes;
    var wire := SpacePacket(p.header.(lengthField := p.WrittenLength()).Reduced(), [], p.Payload(), None);
    SameIssues(p.header.version != 0, p.header.apid == APID_IDLE, p.header.DataLength() != |p.Payload()|,
               wire.header.version != 0, wire.header.apid == APID_IDLE, wire.header.DataLength() != |p.Payload()|,
               PRIMARY_HEADER_SIZE + |p.Payload()| > MAX_PACKET_SIZE);
  }

  lemma SameIssues(version: bool, idle: bool, length: bool, version': bool, idle': bool, length': bool, large: bool)
    ensures (if version then [BadVersion] else []) + (if idle then [IdleApid] else [])
            + (if length then [LengthMismatch] else []) + (if large then [TooLarge] else [])
         == (if version' then [BadVersion] else []) + (if idle' then [IdleApid] else [])
            + (if length' then [LengthMismatch] else []) + (if large then [TooLarge] else [])
       <==> version == version' && idle == idle' && length == length'
  {
    var s := (if version then [BadVersion] else []) + (if idle then [IdleApid] else [])
             + (if length then [LengthMismatch] else []) + (if large then [TooLarge] else []);
    var s' := (if version' then [BadVersion] else []) + (if idle' then [IdleApid] else [])
              + (if length' then [LengthMismatch] else []) + (if large then [TooLarge] else []);
    assert (BadVersion in s <==> version) && (IdleApid in s <==> idle) && (LengthMismatch in s <==> length);
    assert (BadVersion in s' <==> version') && (IdleApid in s' <==> idle') && (LengthMismatch in s' <==> length');
  }

  /** A good packet whose length field is zero until derived is faulted before serialising, not after. */
  lemma ValidateDisagrees(payload: Bytes)
    requires 2 <= |payload| <= 65536
    ensures var p := SpacePacket(PrimaryHeader(0, 0, 0, 7, 3, 0, 0), [], payload, None);
      && p.Validate() == [LengthMismatch]
      && FromBytes(p.ToBytes()).Some? && FromBytes(p.ToBytes()).value.Validate() == []
  {
    hide SpacePacket.ToBytes, FromBytes;
    var p := SpacePacket(PrimaryHeader(0, 0, 0, 7, 3, 0, 0), [], payload, None);
    PacketRoundTrip(p);
    assert p.header.(lengthField := p.WrittenLength()).Reduced() == PrimaryHeader(0, 0, 0, 7, 3, 0, |payload| - 1);
  }
}
