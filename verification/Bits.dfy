/** Bitwise operators on Python's unbounded integers, bit by bit, and the arithmetic they amount to. */
module Bits {

  type byte = x: int | 0 <= x < 256
  type Bytes = seq<byte>

  function Pow2(k: nat): (p: nat)
    ensures p > 0
  {
    if k == 0 then 1 else 2 * Pow2(k - 1)
  }

  /** `x & m` for any integer `x` (two's complement, infinitely sign-extended) and a non-negative mask. */
  function And(x: int, m: nat): nat
    decreases m, x
  {
    if m == 0 then 0 else (if x % 2 == 1 && m % 2 == 1 then 1 else 0) + 2 * And(x / 2, m / 2)
  }

  /** `a | b` */
  function Or(a: nat, b: nat): nat
    decreases a + b
  {
    if a == 0 && b == 0 then 0 else (if a % 2 == 1 || b % 2 == 1 then 1 else 0) + 2 * Or(a / 2, b / 2)
  }

  /** `a ^ b` */
  function Xor(a: nat, b: nat): nat
    decreases a + b
  {
    if a == 0 && b == 0 then 0 else (a + b) % 2 + 2 * Xor(a / 2, b / 2)
  }

  /** `a << k` */
  function Shl(a: nat, k: nat): nat
    decreases k, a
  {
    if k == 0 then a else 2 * Shl(a, k - 1)
  }

  /** `a >> k` */
  function Shr(a: nat, k: nat): nat
    decreases k, a
  {
    if k == 0 then a else Shr(a, k - 1) / 2
  }

  // ---- Masks and shifts as arithmetic -------------------------------------------------------

  lemma {:induction false} DivUnique(x: int, d: int, q: int, r: int)
    requires d > 0 && x == d * q + r && 0 <= r < d
    ensures x / d == q && x % d == r
  {
    var q', r' := x / d, x % d;
    assert x == d * q' + r';
    assert d * (q - q') == r' - r;
    TimesAtLeast(d, q - q');
  }

  lemma TimesAtLeast(d: int, t: int)
    requires d > 0
    ensures t >= 1 ==> d * t >= d
    ensures t <= -1 ==> d * t <= -d
  {
    if t >= 1 {
      assert d * t == d + d * (t - 1);
    } else if t <= -1 {
      assert d * t == -d + d * (t + 1);
    }
  }

  /** Masking with k ones is reduction modulo 2^k, for negative and oversized integers too. */
  lemma {:induction false} AndMask(x: int, k: nat)
    ensures And(x, Pow2(k) - 1) == x % Pow2(k)
    decreases k
  {
    if k == 0 {
    } else {
      var p := Pow2(k - 1);
      AndMask(x / 2, k - 1);
      assert (2 * p - 1) / 2 == p - 1;
      var q, r := x / 2 / p, x / 2 % p;
      assert x / 2 == p * q + r;
      assert x == 2 * (p * q) + 2 * r + x % 2;
      assert 2 * (p * q) == (2 * p) * q;
      DivUnique(x, 2 * p, q, 2 * r + x % 2);
    }
  }

  lemma {:induction false} ShlIsTimes(a: nat, k: nat)
    ensures Shl(a, k) == a * Pow2(k)
  {
    if k > 0 {
      ShlIsTimes(a, k - 1);
    }
  }

  lemma {:induction false} ShrIsDiv(a: nat, k: nat)
    ensures Shr(a, k) == a / Pow2(k)
  {
    if k > 0 {
      ShrIsDiv(a, k - 1);
      HalfOfQuotient(a, Pow2(k - 1));
    }
  }

  lemma HalfOfQuotient(a: nat, p: nat)
    requires p > 0
    ensures a / p / 2 == a / (2 * p)
  {
    var q, r := a / p, a % p;
    var h, low := q / 2, q % 2;
    assert a == p * q + r;
    Product(p, 2 * h, low);
    assert p * (2 * h) == 2 * p * h;
    assert 0 <= p * low + r < 2 * p by {
      assert low == 0 || low == 1;
    }
    DivUnique(a, 2 * p, h, p * low + r);
  }

  lemma Product(p: int, x: int, y: int)
    ensures p * (x + y) == p * x + p * y
  {
  }

  /** Or-ing a field into the free low bits is addition. */
  lemma {:induction false} OrDisjoint(a: nat, b: nat, k: nat)
    requires b < Pow2(k)
    ensures Or(Shl(a, k), b) == Shl(a, k) + b
  {
    if k == 0 {
      OrZero(a);
    } else {
      OrDisjoint(a, b / 2, k - 1);
    }
  }

  lemma {:induction false} OrZero(a: nat)
    ensures Or(a, 0) == a
  {
    if a > 0 {
      OrZero(a / 2);
    }
  }

  // ---- Exclusive or is an abelian group of exponent two --------------------------------------

  lemma {:induction false} XorZero(a: nat)
    ensures Xor(a, 0) == a && Xor(0, a) == a
  {
    if a > 0 {
      XorZero(a / 2);
    }
  }

  lemma {:induction false} XorSelf(a: nat)
    ensures Xor(a, a) == 0
  {
    if a > 0 {
      XorSelf(a / 2);
    }
  }

  lemma {:induction false} XorComm(a: nat, b: nat)
    ensures Xor(a, b) == Xor(b, a)
    decreases a + b
  {
    if a + b > 0 {
      XorComm(a / 2, b / 2);
    }
  }

  /** Xor works on the lowest bit and the remaining bits separately. */
  lemma XorParts(lowA: nat, highA: nat, lowB: nat, highB: nat)
    requires lowA < 2 && lowB < 2
    ensures Xor(lowA + 2 * highA, lowB + 2 * highB) == (if lowA == lowB then 0 else 1) + 2 * Xor(highA, highB)
  {
    var a, b := lowA + 2 * highA, lowB + 2 * highB;
    assert a / 2 == highA && b / 2 == highB;
    assert (a + b) % 2 == (lowA + lowB) % 2;
  }

  lemma {:induction false} XorAssoc(a: nat, b: nat, c: nat)
    ensures Xor(Xor(a, b), c) == Xor(a, Xor(b, c))
    decreases a + b + c
  {
    if a + b + c == 0 {
    } else {
      XorAssoc(a / 2, b / 2, c / 2);
      XorAssocParts(a % 2, a / 2, b % 2, b / 2, c % 2, c / 2);
    }
  }

  lemma XorAssocParts(lowA: nat, a: nat, lowB: nat, b: nat, lowC: nat, c: nat)
    requires lowA < 2 && lowB < 2 && lowC < 2
    requires Xor(Xor(a, b), c) == Xor(a, Xor(b, c))
    ensures Xor(Xor(lowA + 2 * a, lowB + 2 * b), lowC + 2 * c) == Xor(lowA + 2 * a, Xor(lowB + 2 * b, lowC + 2 * c))
  {
    var ab, bc := if lowA == lowB then 0 else 1, if lowB == lowC then 0 else 1;
    XorParts(lowA, a, lowB, b);
    XorParts(lowB, b, lowC, c);
    XorParts(ab, Xor(a, b), lowC, c);
    XorParts(lowA, a, bc, Xor(b, c));
  }

  lemma {:induction false} XorBound(a: nat, b: nat, k: nat)
    requires a < Pow2(k) && b < Pow2(k)
    ensures Xor(a, b) < Pow2(k)
    decreases k
  {
    if k > 0 {
      XorBound(a / 2, b / 2, k - 1);
    }
  }

  /** `a ^ b` on octets. */
  function XorByte(a: byte, b: byte): byte
  {
    assert Pow2(8) == 256;
    XorBound(a, b, 8);
    Xor(a, b)
  }

  /** Everything the checksum proofs need, in one place: two operands that agree after a common xor agree. */
  lemma XorCancel(a: byte, b: byte, c: byte)
    ensures XorByte(a, c) == XorByte(b, c) <==> a == b
  {
    XorAssoc(a, c, c);
    XorAssoc(b, c, c);
    XorSelf(c);
    XorZero(a);
    XorZero(b);
  }

  lemma XorLowBit(a: nat, b: nat)
    ensures Xor(a, b) == (a + b) % 2 + 2 * Xor(a / 2, b / 2)
  {
  }

  lemma {:induction false} XorDisjoint(a: nat, b: nat, k: nat)
    requires b < Pow2(k)
    ensures Xor(Shl(a, k), b) == Shl(a, k) + b
  {
    if k == 0 {
      XorZero(a);
    } else {
      hide Xor;
      XorDisjoint(a, b / 2, k - 1);
      XorLowBit(2 * Shl(a, k - 1), b);
    }
  }
}
