/** Powers of two, as integers and as reals with a signed exponent. */
module PowersOfTwo {

  function Pow2(n: nat): (p: nat)
    ensures p >= 1
  {
    if n == 0 then 1 else 2 * Pow2(n - 1)
  }

  /** 2^n for any integer n. */
  ghost function P2(n: int): (p: real)
    ensures p > 0.0
  {
    if n >= 0 then Pow2(n) as real else 1.0 / Pow2(-n) as real
  }

  lemma P2Zero()
    ensures P2(0) == 1.0
  {
  }

  lemma P2Succ(n: int)
    ensures P2(n + 1) == 2.0 * P2(n)
  {
    if n < 0 {
      assert Pow2(-n) as real == 2.0 * Pow2(-n - 1) as real;
    }
  }

  lemma {:induction false} P2AddNat(a: int, n: nat)
    ensures P2(a + n) == P2(a) * P2(n)
  {
    hide P2;
    if n == 0 {
      P2Zero();
    } else {
      P2AddNat(a, n - 1);
      P2Succ(a + n - 1);
      P2Succ(n - 1);
      DoubleProduct(P2(a), P2(n - 1), P2(n), P2(a + n - 1), P2(a + n));
    }
  }

  lemma DoubleProduct(x: real, y: real, y2: real, s: real, s2: real)
    requires s == x * y && y2 == 2.0 * y && s2 == 2.0 * s
    ensures s2 == x * y2
  {
  }

  lemma P2Inverse(n: nat)
    ensures P2(0 - n) * P2(n) == 1.0
  {
  }

  lemma P2SubNat(a: int, n: nat)
    ensures P2(a - n) == P2(a) * P2(0 - n)
  {
    hide P2;
    P2AddNat(a - n, n);
    P2Inverse(n);
    Cancel(P2(a - n), P2(n), P2(0 - n), P2(a));
  }

  lemma P2Add(a: int, b: int)
    ensures P2(a + b) == P2(a) * P2(b)
  {
    hide P2;
    if b >= 0 {
      P2AddNat(a, b);
    } else {
      P2SubNat(a, 0 - b);
    }
  }

  lemma Cancel(s: real, x: real, y: real, r: real)
    requires r == s * x && y * x == 1.0
    ensures s == r * y
  {
    assert r * y == s * (y * x);
  }

  lemma P2OfNat(n: nat)
    ensures P2(n) == Pow2(n) as real
  {
  }

  lemma {:induction false} P2Monotone(a: int, b: int)
    requires a <= b
    ensures P2(a) <= P2(b)
    decreases b - a
  {
    hide P2;
    if a < b {
      P2Monotone(a, b - 1);
      P2Succ(b - 1);
    }
  }

  lemma {:induction false} Pow2Add(a: nat, b: nat)
    ensures Pow2(a + b) == Pow2(a) * Pow2(b)
  {
    if a > 0 {
      Pow2Add(a - 1, b);
    }
  }

  lemma {:induction false} Pow2Monotone(a: nat, b: nat)
    requires a <= b
    ensures Pow2(a) <= Pow2(b)
    decreases b - a
  {
    if a < b {
      Pow2Monotone(a, b - 1);
    }
  }

  lemma Pow2Constants()
    ensures Pow2(23) == 0x80_0000 && Pow2(24) == 0x100_0000 && Pow2(25) == 0x200_0000
    ensures Pow2(28) == 0x1000_0000
    ensures Pow2(31) == 0x8000_0000 && Pow2(32) == 0x1_0000_0000
    ensures Pow2(46) == 0x4000_0000_0000 && Pow2(47) == 0x8000_0000_0000
  {
    assert Pow2(8) == 256;
    Pow2Add(8, 8);
    Pow2Add(16, 16);
    Pow2Add(16, 32);
  }
}
