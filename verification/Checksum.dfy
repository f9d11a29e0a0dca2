/**
  The command checksum: octet 7 holds the value that makes the exclusive or of 0xFF and every octet
  of the packet zero. Both helpers edit a bytearray in place, so both are methods over an array.
 */
module Checksum {
  import opened Bits
  import opened Wrappers

  /** The exclusive or of a starting value and all octets, taken from the left as the loops do. */
  function Fold(seed: byte, data: Bytes): byte {
    if |data| == 0 then seed else XorByte(Fold(seed, data[..|data| - 1]), data[|data| - 1])
  }

  /** The value every receiver recomputes; a packet is sound when it is zero. */
  function Residue(packet: Bytes): byte {
    Fold(0xFF, packet)
  }

  /** A packet with a checksum octet, set so that the residue vanishes; shorter packets have no such octet. */
  function Repair(packet: Bytes): (r: Bytes)
    ensures |r| == |packet|
  {
    if |packet| < 8 then packet else packet[7 := Residue(packet[7 := 0])]
  }

  /** Octet by octet exclusive or, as line noise would apply it. */
  function Disturb(packet: Bytes, error: Bytes): (r: Bytes)
    requires |packet| == |error|
    ensures |r| == |packet|
  {
    seq(|packet|, i requires 0 <= i < |packet| => XorByte(packet[i], error[i]))
  }

  method ResidueLoop(data: array<byte>) returns (checksum: byte)
    ensures checksum == Residue(data[..])
  {
    checksum := 0xFF;
    for i := 0 to data.Length
      invariant checksum == Residue(data[..i])
    {
      assert data[..i + 1][..i] == data[..i];
      checksum := XorByte(checksum, data[i]);
    }
    assert data[..data.Length] == data[..];
  }

  method Bytearray(packet: Bytes) returns (data: array<byte>)
    ensures fresh(data) && data[..] == packet
  {
    data := new byte[|packet|](i requires 0 <= i < |packet| => packet[i]);
  }

  /** The runner's helper: short packets pass through untouched. */
  method WithCommandChecksum(packet: Bytes) returns (r: Bytes)
    ensures r == Repair(packet)
  {
    if |packet| < 8 {
      return packet;
    }
    var data := Bytearray(packet);
    data[7] := 0;
    assert data[..] == packet[7 := 0];
    var checksum := ResidueLoop(data);
    data[7] := checksum;
    return data[..];
  }

  /** The generator's helper has no length guard: a short packet raises IndexError. */
  method WithCommandChecksumUnguarded(packet: Bytes) returns (r: Option<Bytes>)
    ensures r == if |packet| < 8 then None else Some(Repair(packet))
  {
    if |packet| <= 7 {
      return None;
    }
    var data := Bytearray(packet);
    data[7] := 0;
    assert data[..] == packet[7 := 0];
    var checksum := ResidueLoop(data);
    data[7] := checksum;
    assert data[..] == Repair(packet);
    return Some(data[..]);
  }

  // ---- Checksum algebra ------------------------------------------------------------------------

  lemma {:induction false} FoldSeed(seed: byte, data: Bytes)
    ensures Fold(seed, data) == XorByte(seed, Fold(0, data))
  {
    XorZero(seed);
    if |data| > 0 {
      FoldSeed(seed, data[..|data| - 1]);
      XorAssoc(seed, Fold(0, data[..|data| - 1]), data[|data| - 1]);
    }
  }

  lemma {:induction false} FoldAppend(seed: byte, a: Bytes, b: Bytes)
    ensures Fold(seed, a + b) == Fold(Fold(seed, a), b)
  {
    if |b| == 0 {
      assert a + b == a;
    } else {
      var front := b[..|b| - 1];
      FoldAppend(seed, a, front);
      assert (a + b)[..|a + b| - 1] == a + front;
    }
  }

  /** Changing one octet moves the fold by the exclusive or of its old and new values. */
  lemma {:induction false} FoldUpdate(seed: byte, data: Bytes, i: nat, v: byte)
    requires i < |data|
    ensures Fold(seed, data[i := v]) == XorByte(Fold(seed, data), XorByte(data[i], v))
  {
    var n := |data| - 1;
    var front, last := data[..n], data[n];
    if i == n {
      assert data[i := v][..n] == front;
      XorAssoc(XorByte(Fold(seed, front), last), last, v);
      XorAssoc(Fold(seed, front), last, last);
      XorSelf(last);
      XorZero(Fold(seed, front));
    } else {
      FoldUpdate(seed, front, i, v);
      assert data[i := v][..n] == front[i := v];
      var d := XorByte(data[i], v);
      XorAssoc(Fold(seed, front), d, last);
      XorAssoc(Fold(seed, front), last, d);
      XorComm(d, last);
    }
  }

  /** The residue is linear: an error pattern moves it by the fold of the pattern alone. */
  lemma {:induction false} ResidueOfDisturbed(packet: Bytes, error: Bytes)
    requires |packet| == |error|
    ensures Residue(Disturb(packet, error)) == XorByte(Residue(packet), Fold(0, error))
  {
    var n := |packet|;
    if n == 0 {
      XorZero(0xFF);
    } else {
      var p, e := packet[..n - 1], error[..n - 1];
      ResidueOfDisturbed(p, e);
      assert Disturb(packet, error)[..n - 1] == Disturb(p, e);
      XorInterchange(Residue(p), Fold(0, e), packet[n - 1], error[n - 1]);
    }
  }

  lemma XorInterchange(a: byte, b: byte, c: byte, d: byte)
    ensures XorByte(XorByte(a, b), XorByte(c, d)) == XorByte(XorByte(a, c), XorByte(b, d))
  {
    XorAssoc(a, b, XorByte(c, d));
    XorAssoc(b, c, d);
    XorComm(b, c);
    XorAssoc(c, b, d);
    XorAssoc(a, c, XorByte(b, d));
  }

  /** An error pattern goes unnoticed exactly when it folds to zero; no single damaged octet does. */
  lemma ErrorDetection(packet: Bytes, error: Bytes)
    requires |packet| == |error| && Residue(packet) == 0
    ensures Residue(Disturb(packet, error)) == 0 <==> Fold(0, error) == 0
    ensures (exists i :: 0 <= i < |error| && error[i] != 0 && error == Zeros(|error|)[i := error[i]])
       ==> Residue(Disturb(packet, error)) != 0
  {
    ResidueOfDisturbed(packet, error);
    XorZero(Fold(0, error));
    if i :| 0 <= i < |error| && error[i] != 0 && error == Zeros(|error|)[i := error[i]] {
      FoldUpdate(0, Zeros(|error|), i, error[i]);
      FoldZeros(0, |error|);
      XorZero(error[i]);
    }
  }

  function Zeros(n: nat): (z: Bytes)
    ensures |z| == n
  {
    seq(n, i => 0)
  }

  lemma {:induction false} FoldZeros(seed: byte, n: nat)
    ensures Fold(seed, Zeros(n)) == seed
  {
    if n > 0 {
      assert Zeros(n)[..n - 1] == Zeros(n - 1);
      FoldZeros(seed, n - 1);
      XorZero(seed);
    }
  }

  /** The octet written by `Repair` is the only one that makes the packet sound; nothing else changes. */
  lemma RepairCharacterised(packet: Bytes, v: byte)
    requires |packet| >= 8
    ensures Repair(packet) == packet[7 := Repair(packet)[7]]
    ensures Residue(packet[7 := v]) == 0 <==> v == Repair(packet)[7]
  {
    var blank := packet[7 := 0];
    assert blank[7 := v] == packet[7 := v];
    FoldUpdate(0xFF, blank, 7, v);
    XorZero(v);
    XorSelf(v);
    XorCancel(Residue(blank), v, v);
  }

  lemma RepairIsSound(packet: Bytes)
    requires |packet| >= 8
    ensures Residue(Repair(packet)) == 0
  {
    RepairCharacterised(packet, Repair(packet)[7]);
  }

  /** Repair forgets the old checksum octet, so repeating it changes nothing. */
  lemma RepairIdempotent(packet: Bytes, v: byte)
    ensures Repair(Repair(packet)) == Repair(packet)
    ensures |packet| >= 8 ==> Repair(packet[7 := v]) == Repair(packet)
  {
    if |packet| >= 8 {
      assert packet[7 := v][7 := 0] == packet[7 := 0];
      assert Repair(packet)[7 := 0] == packet[7 := 0];
    }
  }

  /** Flipping the low bit of a sound checksum octet leaves residue one. */
  lemma DamageIsDetected(packet: Bytes)
    requires |packet| >= 8 && Residue(packet) == 0
    ensures Residue(packet[7 := XorByte(packet[7], 1)]) == 1
  {
    var v := packet[7];
    FoldUpdate(0xFF, packet, 7, XorByte(v, 1));
    XorAssoc(v, v, 1);
    XorSelf(v);
    XorZero(1);
  }
}
