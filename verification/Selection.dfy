/** Case selection: retargeting every packet to the configured APID, then filtering by category. */
module Selection {
  import opened Bits
  import opened Wrappers
  import opened Ccsds
  import opened Checksum
  import opened Target
  import opened Cases

  datatype Profile = StockCfs | HardenedCfs | Smoke | FullRobustness

  datatype SelectionConfig = SelectionConfig(
    targetApid: Option<int>,
    profile: Option<Profile>,
    includeCategories: Option<seq<Category>>,
    excludeCategories: seq<Category>)
  {
    /** A profile, when given, replaces the include list. */
    function Included(): Option<seq<Category>> {
      match profile
      case None => includeCategories
      case Some(p) => if p.Smoke? then Some([KnownGood]) else None
    }

    predicate Keeps(c: PacketCase) {
      && (Included().None? || c.category in Included().value)
      && c.category !in excludeCategories
    }
  }

  // ---- Specification --------------------------------------------------------------------------------

  predicate Untouched(c: PacketCase) {
    c.category == ApidField || |c.packet| < PRIMARY_HEADER_SIZE
  }

  /** The rewritten addressing fields in front of the old octets, checksum not yet repaired. */
  function Readdressed(apid: int, c: PacketCase): (q: Bytes)
    requires |c.packet| >= PRIMARY_HEADER_SIZE
    ensures |q| == |c.packet|
  {
    var h := Unpack(c.packet).value.(apid := apid, packetType := 1);
    (if c.category == SecondaryHeader then h else h.(secHdrFlag := 1)).Pack() + c.packet[6..]
  }

  /** Repairs the checksum, then breaks it again when the case is about a broken checksum. */
  function Resealed(checksumValid: bool, packet: Bytes): (q: Bytes)
    ensures |q| == |packet|
  {
    var sound := Repair(packet);
    if !checksumValid && |sound| >= 8 then sound[7 := XorByte(sound[7], 1)] else sound
  }

  function Retarget(apid: int, c: PacketCase): PacketCase {
    if Untouched(c) then c
    else if c.category == SecondaryHeader then c.(packet := Readdressed(apid, c))
    else c.(packet := Resealed(c.checksumValid, Readdressed(apid, c)))
  }

  function RetargetAll(cfg: SelectionConfig, cases: seq<PacketCase>): (r: seq<PacketCase>)
    ensures |r| == |cases|
  {
    if cfg.targetApid.None? then cases
    else seq(|cases|, i requires 0 <= i < |cases| => Retarget(cfg.targetApid.value, cases[i]))
  }

  function Kept(cfg: SelectionConfig, cases: seq<PacketCase>): seq<PacketCase> {
    if cases == [] then []
    else (if cfg.Keeps(cases[0]) then [cases[0]] else []) + Kept(cfg, cases[1..])
  }

  function Selected(cfg: SelectionConfig, cases: seq<PacketCase>): seq<PacketCase> {
    Kept(cfg, RetargetAll(cfg, cases))
  }

  // ---- The selection loop -----------------------------------------------------------------------------

  method RetargetOne(apid: int, c: PacketCase) returns (r: PacketCase)
    ensures r == Retarget(apid, c)
  {
    if c.category == ApidField || |c.packet| < PRIMARY_HEADER_SIZE {
      return c;
    }
    var header := UnpackBits(c.packet).value;
    header := header.(apid := apid);
    header := header.(packetType := 1);
    if c.category != SecondaryHeader {
      header := header.(secHdrFlag := 1);
    }
    var packet := header.PackBits() + c.packet[6..];
    assert packet == Readdressed(apid, c);
    if c.category != SecondaryHeader {
      packet := WithCommandChecksum(packet);
      if !c.checksumValid && |packet| >= 8 {
        packet := packet[7 := XorByte(packet[7], 0x01)];
      }
    }
    return PacketCase(c.name, c.category, packet, c.expectSafeReject, c.expectAccept, c.checksumValid);
  }

  method RetargetEach(apid: int, cases: seq<PacketCase>) returns (targeted: seq<PacketCase>)
    ensures |targeted| == |cases|
    ensures forall i :: 0 <= i < |cases| ==> targeted[i] == Retarget(apid, cases[i])
  {
    hide Retarget;
    targeted := [];
    for i := 0 to |cases|
      invariant |targeted| == i
      invariant forall j :: 0 <= j < i ==> targeted[j] == Retarget(apid, cases[j])
    {
      var c := RetargetOne(apid, cases[i]);
      targeted := targeted + [c];
    }
  }

  method KeepMatching(cfg: SelectionConfig, cases: seq<PacketCase>) returns (kept: seq<PacketCase>)
    ensures kept == Kept(cfg, cases)
  {
    hide SelectionConfig.Keeps;
    kept := [];
    assert cases[0..] == cases;
    for i := 0 to |cases|
      invariant kept + Kept(cfg, cases[i..]) == Kept(cfg, cases)
    {
      assert cases[i..][1..] == cases[i + 1..];
      if cfg.Keeps(cases[i]) {
        kept := kept + [cases[i]];
      }
    }
    assert cases[|cases|..] == [];
  }

  method SelectCases(cfg: SelectionConfig, generated: seq<PacketCase>) returns (cases: seq<PacketCase>)
    ensures cases == Selected(cfg, generated)
  {
    hide Retarget, Kept;
    cases := generated;
    if cfg.targetApid.Some? {
      cases := RetargetEach(cfg.targetApid.value, cases);
    }
    assert cases == RetargetAll(cfg, generated);
    cases := KeepMatching(cfg, cases);
  }

  // ---- What retargeting changes and what it leaves alone -------------------------------------------------

  lemma UnpackReadsSixOctets(b: Bytes, d: Bytes)
    requires |b| >= PRIMARY_HEADER_SIZE && |d| >= PRIMARY_HEADER_SIZE && b[..6] == d[..6]
    ensures Unpack(b) == Unpack(d)
  {
    assert forall i :: 0 <= i < 6 ==> b[i] == b[..6][i] && d[i] == d[..6][i];
  }

  lemma ReaddressedHeader(apid: int, c: PacketCase)
    requires |c.packet| >= PRIMARY_HEADER_SIZE
    ensures var h := Unpack(c.packet).value;
      Unpack(Readdressed(apid, c)).value
        == h.(apid := apid % 2048, packetType := 1,
              secHdrFlag := if c.category == SecondaryHeader then h.secHdrFlag else 1)
    ensures Readdressed(apid, c)[6..] == c.packet[6..]
  {
    var h := Unpack(c.packet).value.(apid := apid, packetType := 1);
    var h' := if c.category == SecondaryHeader then h else h.(secHdrFlag := 1);
    OctetsRoundTrip(c.packet);
    HeaderRoundTrip(h', c.packet[6..]);
  }

  lemma ResealedOctets(checksumValid: bool, packet: Bytes)
    ensures |packet| >= 6 ==> Resealed(checksumValid, packet)[..6] == packet[..6]
    ensures forall i :: 0 <= i < |packet| && i != 7 ==> Resealed(checksumValid, packet)[i] == packet[i]
    ensures |packet| >= 8 ==> Residue(Resealed(checksumValid, packet)) == (if checksumValid then 0 else 1)
  {
    if |packet| >= 8 {
      RepairIsSound(packet);
      RepairCharacterised(packet, 0);
      DamageIsDetected(Repair(packet));
    }
  }

  /**
    Retargeting rewrites the APID, the packet type, the secondary header flag (except where that flag is
    under test) and octet 7; the claimed length, the sequence fields, the version, every other octet and
    all of the case's metadata survive. Outside the secondary-header cases octet 7 makes the checksum right,
    or wrong by one bit where the case is about a wrong checksum, whatever else is wrong with the packet.
   */
  lemma RetargetPreserves(apid: int, c: PacketCase)
    ensures var r := Retarget(apid, c);
      && r == c.(packet := r.packet) && |r.packet| == |c.packet|
      && (c.category == ApidField || |c.packet| < 6 ==> r == c)
      && (c.category != ApidField && |c.packet| >= 6 ==>
            var h := Unpack(c.packet).value;
            && Unpack(r.packet).value
                 == h.(apid := apid % 2048, packetType := 1,
                       secHdrFlag := if c.category == SecondaryHeader then h.secHdrFlag else 1)
            && (forall i :: 6 <= i < |c.packet| && (i != 7 || c.category == SecondaryHeader)
                  ==> r.packet[i] == c.packet[i])
            && (c.category != SecondaryHeader && |c.packet| >= 8 ==>
                  Fold(0xFF, r.packet) == if c.checksumValid then 0 else 1))
  {
    hide Readdressed, Resealed;
    if !Untouched(c) {
      ReaddressedHeader(apid, c);
      var q := Readdressed(apid, c);
      assert forall i :: 6 <= i < |q| ==> q[i] == q[6..][i - 6] && c.packet[i] == c.packet[6..][i - 6];
      if c.category != SecondaryHeader {
        ResealedOctets(c.checksumValid, q);
        UnpackReadsSixOctets(Resealed(c.checksumValid, q), q);
      }
    }
  }

  /**
    Retargeting isolates the defect: what a target accepts of a retargeted packet depends only on the
    features retargeting leaves alone. A mismatched APID, however large or negative, is never accepted.
   */
  lemma RetargetIsolatesDefect(expected: int, apid: int, c: PacketCase)
    requires c.category != ApidField && c.category != SecondaryHeader && |c.packet| >= 6
    ensures var h := Unpack(c.packet).value;
      Accepts(expected, Retarget(apid, c).packet) <==>
        && apid % 2048 == expected
        && 8 <= |c.packet| <= 2048
        && h.version == 0 && h.seqFlags == 3 && h.lengthField + 7 == |c.packet|
        && c.packet[6] == 0
        && c.checksumValid
  {
    hide Readdressed, Resealed;
    RetargetPreserves(apid, c);
    ResealedOctets(c.checksumValid, Readdressed(apid, c));
  }

  /**
    A secondary-header case keeps its flag and its checksum octet, so the rewritten addressing octets
    themselves decide whether the checksum happens to come out right.
   */
  lemma RetargetSecondaryHeader(expected: int, apid: int, c: PacketCase)
    requires c.category == SecondaryHeader && |c.packet| >= 6
    ensures var h := Unpack(c.packet).value;
      Accepts(expected, Retarget(apid, c).packet) <==>
        && apid % 2048 == expected
        && 8 <= |c.packet| <= 2048
        && h.version == 0 && h.seqFlags == 3 && h.lengthField + 7 == |c.packet|
        && c.packet[6] == 0
        && h.secHdrFlag == 1
        && Fold(Residue(h.(apid := apid, packetType := 1).Pack()), c.packet[6..]) == 0
  {
    RetargetPreserves(apid, c);
    FoldAppend(0xFF, Unpack(c.packet).value.(apid := apid, packetType := 1).Pack(), c.packet[6..]);
  }

  /** The last retargeting wins, damaged checksums and packets too short for one included. */
  lemma RetargetLastWins(a: int, b: int, c: PacketCase)
    ensures Retarget(a, Retarget(b, c)) == Retarget(a, c)
  {
    hide Readdressed, Resealed;
    RetargetPreserves(b, c);
    if !Untouched(c) {
      var r := Retarget(b, c);
      ReaddressedTwice(a, c, r);
      if c.category != SecondaryHeader {
        ResealedForgets(c.checksumValid, Readdressed(a, r), Readdressed(a, c));
      }
    }
  }

  /** Readdressing depends on none of the fields it overwrites. */
  lemma ReaddressedTwice(a: int, c: PacketCase, r: PacketCase)
    requires |c.packet| >= PRIMARY_HEADER_SIZE && |r.packet| == |c.packet| && r.category == c.category
    requires var h, g := Unpack(c.packet).value, Unpack(r.packet).value;
      g == h.(apid := g.apid, packetType := g.packetType,
              secHdrFlag := if c.category == SecondaryHeader then h.secHdrFlag else g.secHdrFlag)
    requires forall i :: 6 <= i < |c.packet| && (i != 7 || c.category == SecondaryHeader) ==> r.packet[i] == c.packet[i]
    ensures var q, p := Readdressed(a, r), Readdressed(a, c);
      && (forall i :: 0 <= i < |p| && i != 7 ==> q[i] == p[i])
      && (c.category == SecondaryHeader ==> q == p)
  {
  }

  /** Resealing ignores the checksum octet it finds. */
  lemma ResealedForgets(checksumValid: bool, q: Bytes, p: Bytes)
    requires |q| == |p| && forall i :: 0 <= i < |p| && i != 7 ==> q[i] == p[i]
    ensures Resealed(checksumValid, q) == Resealed(checksumValid, p)
  {
    if |p| >= 8 {
      assert q[7 := 0] == p[7 := 0];
      assert Repair(q) == Repair(p);
    } else {
      assert q == p;
    }
  }

  // ---- The selected list --------------------------------------------------------------------------------

  /** Filtering looks at categories only, so it can be done before or after retargeting. */
  lemma {:induction false} RetargetCommutesWithFilter(cfg: SelectionConfig, cases: seq<PacketCase>)
    ensures Selected(cfg, cases) == RetargetAll(cfg, Kept(cfg, cases))
  {
    hide Retarget, SelectionConfig.Keeps;
    if cases != [] && cfg.targetApid.Some? {
      var a := cfg.targetApid.value;
      RetargetCommutesWithFilter(cfg, cases[1..]);
      assert RetargetAll(cfg, cases)[1..] == RetargetAll(cfg, cases[1..]);
      KeepsRetargeted(cfg, a, cases[0]);
      if cfg.Keeps(cases[0]) {
        RetargetAllCons(cfg, cases[0], Kept(cfg, cases[1..]));
      }
    }
  }

  lemma KeepsRetargeted(cfg: SelectionConfig, apid: int, c: PacketCase)
    ensures cfg.Keeps(Retarget(apid, c)) <==> cfg.Keeps(c)
  {
    hide Retarget;
    RetargetPreserves(apid, c);
  }

  lemma RetargetAllCons(cfg: SelectionConfig, c: PacketCase, rest: seq<PacketCase>)
    requires cfg.targetApid.Some?
    ensures RetargetAll(cfg, [c] + rest) == [Retarget(cfg.targetApid.value, c)] + RetargetAll(cfg, rest)
  {
    hide Retarget;
  }

  /** Where each kept case comes from. */
  ghost function Origin(cfg: SelectionConfig, cases: seq<PacketCase>): (origin: seq<nat>)
    ensures |origin| == |Kept(cfg, cases)|
  {
    if cases == [] then []
    else (if cfg.Keeps(cases[0]) then [0] else []) + Shifted(Origin(cfg, cases[1..]))
  }

  /** The filter keeps cases in order, each at most once ... */
  lemma {:induction false} KeptInOrder(cfg: SelectionConfig, cases: seq<PacketCase>)
    ensures var origin := Origin(cfg, cases);
      && (forall i :: 0 <= i < |origin| ==> origin[i] < |cases| && Kept(cfg, cases)[i] == cases[origin[i]])
      && (forall i, j :: 0 <= i < j < |origin| ==> origin[i] < origin[j])
  {
    hide SelectionConfig.Keeps;
    if cases != [] {
      KeptInOrder(cfg, cases[1..]);
    }
  }

  /** ... and none but the matching ones. */
  lemma {:induction false} KeptComplete(cfg: SelectionConfig, cases: seq<PacketCase>, n: nat)
    requires n < |cases|
    ensures cfg.Keeps(cases[n]) <==> n in Origin(cfg, cases)
  {
    hide SelectionConfig.Keeps;
    var tail := Origin(cfg, cases[1..]);
    if n > 0 {
      KeptComplete(cfg, cases[1..], n - 1);
      assert n - 1 in tail <==> n in Shifted(tail);
    }
  }

  ghost function Shifted(s: seq<nat>): (r: seq<nat>)
    ensures |r| == |s| && forall i :: 0 <= i < |s| ==> r[i] == s[i] + 1
    ensures forall n: nat :: n in s <==> n + 1 in r
    ensures 0 !in r
  {
    var r := seq(|s|, i requires 0 <= i < |s| => s[i] + 1);
    assert forall n: nat | n in s :: n + 1 in r by {
      forall n: nat | n in s ensures n + 1 in r {
        var i :| 0 <= i < |s| && s[i] == n;
        assert r[i] == n + 1;
      }
    }
    r
  }

  /**
    What a selection is, in terms of the configuration's fields: the generated cases, in order and each once,
    whose category is not excluded and which the profile lets through, smoke the control alone and any other
    profile everything, or, without a profile, the include list; each of them retargeted if there is an APID.
   */
  lemma SelectionSpelledOut(cfg: SelectionConfig, generated: seq<PacketCase>) returns (origin: seq<nat>)
    ensures |Selected(cfg, generated)| == |origin|
    ensures forall i, j :: 0 <= i < j < |origin| ==> origin[i] < origin[j]
    ensures forall i :: 0 <= i < |origin| ==>
      && origin[i] < |generated|
      && Selected(cfg, generated)[i] == (if cfg.targetApid == None then generated[origin[i]]
                                         else Retarget(cfg.targetApid.value, generated[origin[i]]))
    ensures forall n :: 0 <= n < |generated| ==>
      (n in origin <==>
        && generated[n].category !in cfg.excludeCategories
        && (cfg.profile == Some(Smoke) ==> generated[n].category == KnownGood)
        && (cfg.profile == None && cfg.includeCategories.Some? ==>
              generated[n].category in cfg.includeCategories.value))
  {
    hide Retarget, SelectionConfig.Keeps;
    origin := Origin(cfg, generated);
    RetargetCommutesWithFilter(cfg, generated);
    KeptInOrder(cfg, generated);
    forall n | 0 <= n < |generated|
      ensures n in origin <==>
        && generated[n].category !in cfg.excludeCategories
        && (cfg.profile == Some(Smoke) ==> generated[n].category == KnownGood)
        && (cfg.profile == None && cfg.includeCategories.Some? ==>
              generated[n].category in cfg.includeCategories.value)
    {
      KeptComplete(cfg, generated, n);
      CategoryDecides(cfg, generated[n]);
    }
  }

  lemma CategoryDecides(cfg: SelectionConfig, c: PacketCase)
    ensures cfg.Keeps(c) <==>
      && c.category !in cfg.excludeCategories
      && (cfg.profile == Some(Smoke) ==> c.category == KnownGood)
      && (cfg.profile == None && cfg.includeCategories.Some? ==> c.category in cfg.includeCategories.value)
  {
  }

  ghost predicate DistinctNames(cases: seq<PacketCase>) {
    forall i, j :: 0 <= i < j < |cases| ==> cases[i].name != cases[j].name
  }

  /** Selection invents no case and duplicates no name. */
  lemma SelectedNames(cfg: SelectionConfig, cases: seq<PacketCase>)
    requires DistinctNames(cases)
    ensures DistinctNames(Selected(cfg, cases))
    ensures forall c :: c in Selected(cfg, cases) ==> exists n :: 0 <= n < |cases| && c.name == cases[n].name
  {
    hide Retarget, SelectionConfig.Keeps;
    var all := RetargetAll(cfg, cases);
    var origin := Origin(cfg, all);
    KeptInOrder(cfg, all);
    forall n | 0 <= n < |cases| ensures all[n].name == cases[n].name {
      if cfg.targetApid.Some? {
        RetargetPreserves(cfg.targetApid.value, cases[n]);
      }
    }
    forall c | c in Selected(cfg, cases) ensures exists n :: 0 <= n < |cases| && c.name == cases[n].name {
      var i :| 0 <= i < |origin| && Selected(cfg, cases)[i] == c;
      assert c.name == cases[origin[i]].name;
    }
  }
}
