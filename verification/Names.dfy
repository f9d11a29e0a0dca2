/** The names of the generated cases are pairwise distinct. */
module Names {
  import opened Cases
  import opened Generator
  import opened Selection
  import Bits
  import Ccsds
  import Checksum

  /** A number read off a generated name: ten times its family's position plus its own position there. */
  function Rank(name: string): int {
    if |name| < 6 then -1
    else if name[0] == 'c' then
      if name[1] == 'i' then 0 else if |name| < 9 then -1
      else if name[8] == 'b' then 10 else if name[8] == 'i' then 11 else 12
    else if name[0] == 'v' then (if |name| < 9 then -1 else 19 + (name[8] as int - '0' as int))
    else if name[0] == 'a' then (if |name| < 9 then 30 else if name[5] == '1' then 31 else 32)
    else if name[0] == 's' && name[2] == 'q' then
      if |name| < 12 then -1 else 40 + 2 * (name[10] as int - '0' as int) + (name[11] as int - '0' as int)
    else if name[0] == 'l' then
      if |name| == 11 then 50 else if |name| == 10 then 51 else if |name| < 15 then -1
      else if name[14] == 'm' then 52 else 53
    else if name[0] == 's' then (if |name| == 27 then 60 else 61)
    else if name[0] == 't' then (if |name| < 11 then -1 else 70 + (name[10] as int - '0' as int))
    else if name[0] == 'o' then (if |name| == 19 then 80 else if |name| == 23 then 81 else 82)
    else if |name| == 19 then 90 else if |name| == 17 then 91 else 92
  }

  lemma DigitValue(d: nat)
    requires d < 10
    ensures |Digit(d)| == 1 && Digit(d)[0] as int == '0' as int + d
  {
  }

  lemma RankOfPosition(home: int, family: nat, p: nat)
    requires family < 10 && p < |Family(home, family)|
    ensures Rank(Family(home, family)[p].name) == 10 * family + p
  {
    hide Rank, Ccsds.SpacePacket.ToBytes, Checksum.Repair, Bits.XorByte, Digit;
    RankOfLiterals();
    RankOfMoreLiterals();
    if family == 2 {
      RankOfVersion(p + 1);
    } else if family == 4 {
      RankOfSeqFlags(p);
    } else if family == 7 {
      RankOfTruncation(p);
    }
  }

  lemma RankedFamily(home: int, family: nat)
    requires family < 10
    ensures Ranked(Family(home, family), 10 * family)
  {
    hide Rank, Family;
    var cases: seq<PacketCase> := Family(home, family);
    FamilySizes(home, family);
    forall p | 0 <= p < |cases| ensures Rank(cases[p].name) == 10 * family + p {
      RankOfPosition(home, family, p);
    }
  }

  lemma FamilySizes(home: int, family: nat)
    requires family < 10
    ensures |Family(home, family)| <= 10
  {
    hide Ccsds.SpacePacket.ToBytes, Checksum.Repair, Bits.XorByte;
    hide VersionCase, ApidCase, SeqFlagsCase, PacketLengthCase, TruncationCase, OversizedCase, DegenerateCase;
  }

  lemma RankOfLiterals()
    ensures Rank("ci_lab_noop") == 0 && Rank("command_bad_checksum") == 10
    ensures Rank("command_invalid_function") == 11 && Rank("command_wrong_length") == 12
    ensures Rank("apid_0") == 30 && Rank("apid_1023") == 31 && Rank("apid_2047") == 32
    ensures Rank("length_zero") == 50 && Rank("length_max") == 51
    ensures Rank("length_claims_more_than_sent") == 52 && Rank("length_claims_less_than_sent") == 53
  {
  }

  lemma RankOfMoreLiterals()
    ensures Rank("sec_hdr_flag_set_but_absent") == 60 && Rank("sec_hdr_flag_clear_but_present") == 61
    ensures Rank("oversized_reachable") == 80 && Rank("oversized_max_spec_size") == 81
    ensures Rank("oversized_beyond_field_range") == 82
    ensures Rank("degenerate_" + "all_zero") == 90 && Rank("degenerate_" + "all_ff") == 91
    ensures Rank("degenerate_" + "empty_but_length_nonzero") == 92
  {
  }

  lemma RankOfVersion(v: nat)
    requires v < 10
    ensures Rank("version_" + Digit(v)) == 19 + v
  {
    hide Digit;
    DigitValue(v);
  }

  lemma RankOfSeqFlags(flags: nat)
    requires flags < 4
    ensures Rank("seq_flags_" + Digit(flags / 2) + Digit(flags % 2)) == 40 + flags
  {
    hide Digit;
    DigitValue(flags / 2);
    DigitValue(flags % 2);
  }

  lemma RankOfTruncation(size: nat)
    requires size < 6
    ensures Rank("truncated_" + Digit(size) + "_bytes") == 70 + size
  {
    hide Digit;
    DigitValue(size);
  }

  ghost predicate Ranked(family: seq<PacketCase>, base: int) {
    |family| <= 10 && forall p :: 0 <= p < |family| ==> Rank(family[p].name) == base + p
  }

  /** Names rank by position, so no two agree, within a family or across. */
  lemma {:induction false} FamiliesDistinct(home: int, n: nat)
    requires n <= 10
    ensures DistinctNames(FirstFamilies(home, n))
    ensures forall i :: 0 <= i < |FirstFamilies(home, n)| ==> 0 <= Rank(FirstFamilies(home, n)[i].name) < 10 * n
  {
    hide Rank, Family;
    if n > 0 {
      FamiliesDistinct(home, n - 1);
      RankedFamily(home, n - 1);
    }
  }

  /** The generated suite's names are pairwise distinct and not empty. */
  lemma GeneratedNamesDistinct(home: int)
    ensures DistinctNames(GeneratedCases(home))
    ensures forall i :: 0 <= i < |GeneratedCases(home)| ==> GeneratedCases(home)[i].name != ""
  {
    hide Rank, FirstFamilies;
    FamiliesDistinct(home, 10);
    EmptyNameUnranked();
  }

  lemma EmptyNameUnranked()
    ensures Rank("") == -1
  {
  }
}
