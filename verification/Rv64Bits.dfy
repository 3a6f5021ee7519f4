/** The RV64 bit-counting sequences, as the emitted instructions run on 64-bit registers. */
module Rv64Bits {

  const W32: nat := 0x1_0000_0000
  const W64: nat := 0x1_0000_0000_0000_0000

  // ---- Bitwise operations ----

  function And(a: nat, b: nat): nat {
    if a == 0 || b == 0 then 0 else 2 * And(a / 2, b / 2) + if a % 2 == 1 && b % 2 == 1 then 1 else 0
  }

  function Or(a: nat, b: nat): nat {
    if a == 0 && b == 0 then 0 else 2 * Or(a / 2, b / 2) + if a % 2 == 1 || b % 2 == 1 then 1 else 0
  }

  lemma AndHalf(a: nat, b: nat)
    ensures And(a, b) == 2 * And(a / 2, b / 2) + if a % 2 == 1 && b % 2 == 1 then 1 else 0
  {
  }

  /** And works digit by digit in base four, sixteen and 256. */
  lemma AndBase4(a: nat, b: nat)
    ensures And(a, b) == 4 * And(a / 4, b / 4) + And(a % 4, b % 4)
  {
    AndHalf(a, b);
    AndHalf(a / 2, b / 2);
    AndHalf(a % 4, b % 4);
    AndHalf(a % 4 / 2, b % 4 / 2);
    assert a / 2 / 2 == a / 4 && b / 2 / 2 == b / 4;
    assert And(a % 4 / 2 / 2, b % 4 / 2 / 2) == 0;
  }

  lemma AndBase16(a: nat, b: nat)
    ensures And(a, b) == 16 * And(a / 16, b / 16) + And(a % 16, b % 16)
  {
    hide And;
    AndBase4(a, b);
    AndBase4(a / 4, b / 4);
    AndBase4(a % 16, b % 16);
    assert a / 4 / 4 == a / 16 && b / 4 / 4 == b / 16;
    assert a % 16 / 4 == a / 4 % 4 && b % 16 / 4 == b / 4 % 4 && a % 16 % 4 == a % 4 && b % 16 % 4 == b % 4;
  }

  lemma AndBase256(a: nat, b: nat)
    ensures And(a, b) == 256 * And(a / 256, b / 256) + And(a % 256, b % 256)
  {
    hide And;
    AndBase16(a, b);
    AndBase16(a / 16, b / 16);
    AndBase16(a % 256, b % 256);
    assert a / 16 / 16 == a / 256 && b / 16 / 16 == b / 256;
    assert a % 256 / 16 == a / 16 % 16 && b % 256 / 16 == b / 16 % 16 && a % 256 % 16 == a % 16
           && b % 256 % 16 == b % 16;
  }

  lemma AndOne(a: nat)
    ensures And(a, 1) == a % 2
  {
    AndHalf(a, 1);
  }

  lemma AndThree(a: nat)
    ensures And(a, 3) == a % 4
  {
    hide And;
    AndHalf(a, 3);
    AndOne(a / 2);
  }

  lemma AndFifteen(a: nat)
    ensures And(a, 15) == a % 16
  {
    hide And;
    AndBase4(a, 15);
    AndThree(a / 4);
    AndThree(a % 4);
  }

  lemma AndByte(a: nat)
    ensures And(a, 255) == a % 256
  {
    hide And;
    AndBase16(a, 255);
    AndFifteen(a / 16);
    AndFifteen(a % 16);
  }

  // ---- What is to be counted ----

  /** Ones among the n lowest bits. */
  function Ones(x: nat, n: nat): nat {
    if n == 0 then 0 else x % 2 + Ones(x / 2, n - 1)
  }

  /** Zeros below the lowest one, n if there is none among n bits. */
  function TrailingZeros(x: nat, n: nat): nat {
    if n == 0 || x % 2 == 1 then 0 else 1 + TrailingZeros(x / 2, n - 1)
  }

  /** Position of the highest one among n bits, counted from one; 0 if there is none. */
  function BitLength(x: nat, n: nat): nat {
    if n == 0 || x == 0 then 0 else 1 + BitLength(x / 2, n - 1)
  }

  // ---- Population count: pairs, fours, eights ----

  /** The mask 01 repeated n times, and so on. */
  function Mask1(n: nat): nat { if n == 0 then 0 else 1 + 4 * Mask1(n - 1) }

  function Mask2(n: nat): nat { if n == 0 then 0 else 3 + 16 * Mask2(n - 1) }

  function Mask4(n: nat): nat { if n == 0 then 0 else 15 + 256 * Mask4(n - 1) }

  /** Fields of two, four and eight bits that hold the number of ones of the same field of x. */
  function Pairs(x: nat, n: nat): nat {
    if n == 0 then 0 else Ones(x, 2) + 4 * Pairs(x / 4, n - 1)
  }

  function Fours(x: nat, n: nat): nat {
    if n == 0 then 0 else Ones(x, 4) + 16 * Fours(x / 16, n - 1)
  }

  function Eights(x: nat, n: nat): nat {
    if n == 0 then 0 else Ones(x, 8) + 256 * Eights(x / 256, n - 1)
  }

  lemma {:induction false} OnesBound(x: nat, n: nat)
    ensures Ones(x, n) <= n
  {
    if n > 0 {
      OnesBound(x / 2, n - 1);
    }
  }

  lemma OnesTwo(x: nat, n: nat)
    ensures Ones(x, n + 2) == x % 2 + x / 2 % 2 + Ones(x / 4, n)
    ensures Ones(x, 2) == x % 2 + x / 2 % 2
  {
    assert Ones(x, n + 2) == x % 2 + Ones(x / 2, n + 1);
    assert x / 2 / 2 == x / 4;
    assert Ones(x / 2, 1) == x / 2 % 2 + Ones(x / 2 / 2, 0);
  }

  lemma OnesFour(x: nat, n: nat)
    ensures Ones(x, n + 4) == Ones(x, 2) + Ones(x / 4, 2) + Ones(x / 16, n)
    ensures Ones(x, 4) == Ones(x, 2) + Ones(x / 4, 2)
  {
    hide Ones;
    OnesTwo(x, n + 2);
    OnesTwo(x / 4, n);
    OnesTwo(x, 2);
    assert x / 4 / 4 == x / 16;
  }

  lemma OnesEight(x: nat, n: nat)
    ensures Ones(x, n + 8) == Ones(x, 4) + Ones(x / 16, 4) + Ones(x / 256, n)
    ensures Ones(x, 8) == Ones(x, 4) + Ones(x / 16, 4)
  {
    hide Ones;
    OnesFour(x, n + 4);
    OnesFour(x / 16, n);
    OnesFour(x, 4);
    OnesFour(x / 16, 0);
    OnesFour(x, 0);
    OnesNone(x / 16);
    OnesNone(x / 16 / 16);
    assert x / 16 / 16 == x / 256;
  }

  lemma OnesNone(x: nat)
    ensures Ones(x, 0) == 0
  {
  }

  function Bound(base: nat, n: nat): nat {
    if n == 0 then 1 else base * Bound(base, n - 1)
  }

  lemma AndNone(a: nat)
    ensures And(a, 0) == 0
  {
  }

  lemma MaskSteps(n: nat)
    ensures Mask1(0) == Mask2(0) == Mask4(0) == 0
    ensures n > 0 ==> Mask1(n) / 4 == Mask1(n - 1) && Mask1(n) % 4 == 1
    ensures n > 0 ==> Mask2(n) / 16 == Mask2(n - 1) && Mask2(n) % 16 == 3
    ensures n > 0 ==> Mask4(n) / 256 == Mask4(n - 1) && Mask4(n) % 256 == 15
  {
  }

  /** x - ((x >> 1) & 0101...) counts in pairs. */
  lemma {:induction false} PairsStep(x: nat, n: nat)
    requires x < Bound(4, n)
    ensures x == And(x / 2, Mask1(n)) + Pairs(x, n)
    decreases n
  {
    hide And, Ones, Mask1;
    AndNone(x / 2);
    MaskSteps(n);
    if n > 0 {
      var q := x / 4;
      PairsStep(q, n - 1);
      AndBase4(x / 2, Mask1(n));
      assert x / 2 / 4 == q / 2;
      AndOne(x / 2 % 4);
      OnesTwo(x, 0);
    }
  }

  /** (t & 0011...) + ((t >> 2) & 0011...) counts in fours. */
  lemma {:induction false} FoursStep(x: nat, n: nat)
    ensures var t := Pairs(x, 2 * n); And(t, Mask2(n)) + And(t / 4, Mask2(n)) == Fours(x, n)
    decreases n
  {
    hide And, Ones, Mask2;
    AndNone(0);
    MaskSteps(n);
    if n > 0 {
      var t, u := Pairs(x, 2 * n), Pairs(x / 16, 2 * n - 2);
      var p, q := Ones(x, 2), Ones(x / 4, 2);
      OnesBound(x, 2);
      OnesBound(x / 4, 2);
      OnesFour(x, 0);
      assert x / 4 / 4 == x / 16;
      assert Pairs(x / 4, 2 * n - 1) == q + 4 * u;
      assert t == p + 4 * (q + 4 * u);
      FoursStep(x / 16, n - 1);
      MaskFour(t, p, q, u, n);
    }
  }

  lemma MaskFour(t: nat, p: nat, q: nat, u: nat, n: nat)
    requires n > 0 && p < 4 && q < 4 && t == p + 4 * (q + 4 * u)
    ensures And(t, Mask2(n)) == p + 16 * And(u, Mask2(n - 1))
    ensures And(t / 4, Mask2(n)) == q + 16 * And(u / 4, Mask2(n - 1))
  {
    hide And, Mask2;
    var m := Mask2(n);
    MaskSteps(n);
    AndBase16(t, m);
    assert t / 16 == u && t % 16 == p + 4 * q;
    AndThree(p + 4 * q);
    AndBase16(t / 4, m);
    assert t / 4 == q + 4 * u;
    assert (q + 4 * u) / 16 == u / 4 && (q + 4 * u) % 16 == q + 4 * (u % 4);
    AndThree(q + 4 * (u % 4));
  }

  /** (t + (t >> 4)) & 00001111... counts in eights. */
  lemma {:induction false} EightsStep(x: nat, n: nat)
    ensures var t := Fours(x, 2 * n); And(t + t / 16, Mask4(n)) == Eights(x, n)
    decreases n
  {
    hide And, Ones, Mask4;
    AndNone(0);
    MaskSteps(n);
    if n > 0 {
      var t, u := Fours(x, 2 * n), Fours(x / 256, 2 * n - 2);
      var p, q := Ones(x, 4), Ones(x / 16, 4);
      OnesBound(x, 4);
      OnesBound(x / 16, 4);
      OnesEight(x, 0);
      assert x / 16 / 16 == x / 256;
      assert Fours(x / 16, 2 * n - 1) == q + 16 * u;
      assert t == p + 16 * (q + 16 * u);
      FoursLow(x / 256, 2 * n - 2);
      EightsStep(x / 256, n - 1);
      MaskEight(t, p, q, u, n);
    }
  }

  lemma {:induction false} FoursLow(x: nat, n: nat)
    ensures Fours(x, n) % 16 <= 4
  {
    hide Ones;
    OnesBound(x, 4);
    if n > 0 {
      LowDigit(Ones(x, 4), Fours(x / 16, n - 1));
    }
  }

  lemma LowDigit(d: nat, u: nat)
    requires d < 16
    ensures (d + 16 * u) % 16 == d
  {
  }

  lemma MaskEight(t: nat, p: nat, q: nat, u: nat, n: nat)
    requires n > 0 && p <= 4 && q <= 4 && u % 16 <= 4 && t == p + 16 * (q + 16 * u)
    ensures And(t + t / 16, Mask4(n)) == p + q + 256 * And(u + u / 16, Mask4(n - 1))
  {
    hide And, Mask4;
    var m := Mask4(n);
    MaskSteps(n);
    var s := t + t / 16;
    var g, h := u % 16, u / 16;
    assert t / 16 == q + 16 * u;
    assert s == (p + q) + 16 * (q + g) + 256 * (u + h);
    AndBase256(s, m);
    assert s / 256 == u + h && s % 256 == (p + q) + 16 * (q + g);
    AndFifteen((p + q) + 16 * (q + g));
  }

  /** Multiplying by 0x01010101 gathers four bytes in the fourth. */
  lemma Gather(a: nat, b: nat, c: nat, d: nat)
    requires a <= 8 && b <= 8 && c <= 8 && d <= 8
    ensures var t := a + 256 * (b + 256 * (c + 256 * d));
            t * 0x0101_0101 < W64 && t * 0x0101_0101 / 0x100_0000 % 256 == a + b + c + d
  {
    var t := a + 256 * (b + 256 * (c + 256 * d));
    var low := a + 256 * (a + b) + 65536 * (a + b + c);
    var high := (b + c + d) + 256 * (c + d) + 65536 * d;
    assert t * 0x0101_0101 == low + 0x100_0000 * ((a + b + c + d) + 256 * high);
    FourthByte(low, a + b + c + d, high);
  }

  lemma FourthByte(low: nat, s: nat, high: nat)
    requires low < 0x100_0000 && s < 256 && high < 0x100_0000
    ensures var p := low + 0x100_0000 * (s + 256 * high); p < W64 && p / 0x100_0000 % 256 == s
  {
    var p := low + 0x100_0000 * (s + 256 * high);
    assert p / 0x100_0000 == s + 256 * high;
  }

  lemma MaskConstants()
    ensures Mask1(16) == 0x5555_5555 && Mask2(8) == 0x3333_3333 && Mask4(4) == 0x0F0F_0F0F && Bound(4, 16) == W32
  {
    assert Mask1(4) == 0x55 && Mask1(8) == 0x5555 && Mask1(12) == 0x55_5555;
    assert Mask2(2) == 0x33 && Mask2(4) == 0x3333 && Mask2(6) == 0x33_3333;
    assert Bound(4, 4) == 256 && Bound(4, 8) == 65536 && Bound(4, 12) == 0x100_0000;
  }

  lemma EightsUnfold(x: nat)
    ensures Eights(x, 4) == Ones(x, 8)
            + 256 * (Ones(x / 256, 8) + 256 * (Ones(x / 65536, 8) + 256 * Ones(x / 0x100_0000, 8)))
    ensures Ones(x, 32) == Ones(x, 8) + Ones(x / 256, 8) + Ones(x / 65536, 8) + Ones(x / 0x100_0000, 8)
  {
    hide Ones;
    var y := x / 256;
    var z := y / 256;
    var w := z / 256;
    assert z == x / 65536 && w == x / 0x100_0000;
    assert Eights(w, 1) == Ones(w, 8) + 256 * Eights(w / 256, 0);
    assert Eights(z, 2) == Ones(z, 8) + 256 * Eights(w, 1);
    assert Eights(y, 3) == Ones(y, 8) + 256 * Eights(z, 2);
    OnesEight(x, 24);
    OnesEight(y, 16);
    OnesEight(z, 8);
    OnesEight(w, 0);
    OnesNone(w / 256);
  }

  lemma PopTail(x: nat)
    ensures var e := Eights(x, 4); e * 0x0101_0101 < W64 && And(e * 0x0101_0101 / 0x100_0000, 255) == Ones(x, 32)
  {
    hide And, Ones, Eights;
    EightsUnfold(x);
    OnesBound(x, 8);
    OnesBound(x / 256, 8);
    OnesBound(x / 65536, 8);
    OnesBound(x / 0x100_0000, 8);
    Gather(Ones(x, 8), Ones(x / 256, 8), Ones(x / 65536, 8), Ones(x / 0x100_0000, 8));
    AndByte(Eights(x, 4) * 0x0101_0101 / 0x100_0000);
  }

  /** The three folding steps with the masks of the source. */
  lemma PopFolds(x: nat)
    requires x < W32
    ensures var p, f, e := Pairs(x, 16), Fours(x, 8), Eights(x, 4);
            && x - And(x / 2, 0x5555_5555) == p
            && And(p, 0x3333_3333) + And(p / 4, 0x3333_3333) == f
            && And(f + f / 16, 0x0F0F_0F0F) == e
  {
    hide And, Pairs, Fours, Eights, Mask1, Mask2, Mask4, Bound;
    MaskConstants();
    PairsStep(x, 16);
    FoursStep(x, 8);
    EightsStep(x, 4);
  }

  /** rv_popc32 on a zero-extended word in t0; t1 and t2 are scratch. */
  method Popc32(x: nat) returns (t0: nat)
    requires x < W32
    ensures t0 == Ones(x, 32)
  {
    hide And, Ones, Pairs, Fours, Eights;
    PopFolds(x);
    PopTail(x);
    t0 := x;
    var t1 := t0 / 2;
    var t2 := 0x5555_5555;
    t1 := And(t1, t2);
    t0 := t0 - t1;
    t1 := t0 / 4;
    t2 := 0x3333_3333;
    t0 := And(t0, t2);
    t1 := And(t1, t2);
    t0 := t0 + t1;
    t1 := t0 / 16;
    t0 := t0 + t1;
    t2 := 0x0F0F_0F0F;
    t0 := And(t0, t2);
    t2 := 0x0101_0101;
    t0 := t0 * t2 % W64;
    t0 := t0 / 0x100_0000;
    t0 := And(t0, 255);
  }

  // ---- Trailing zeros ----

  /** The n-bit word with all bits set. */
  function Full(n: nat): nat {
    if n == 0 then 0 else 1 + 2 * Full(n - 1)
  }

  /** The n-bit complement of x, and x - 1 in n bits. */
  function Not(x: nat, n: nat): nat
    requires x <= Full(n)
  {
    Full(n) - x
  }

  function Less(x: nat, n: nat): nat {
    if x == 0 then Full(n) else x - 1
  }

  lemma {:induction false} AndComplement(x: nat, n: nat)
    requires x <= Full(n)
    ensures And(Not(x, n), x) == 0
    decreases n
  {
    AndHalf(Not(x, n), x);
    if n > 0 {
      assert Not(x, n) / 2 == Not(x / 2, n - 1);
      AndComplement(x / 2, n - 1);
    }
  }

  lemma {:induction false} OnesZero(n: nat)
    ensures Ones(0, n) == 0
  {
    if n > 0 {
      OnesZero(n - 1);
    }
  }

  /** The bits of ~x & (x - 1) are those below the lowest one of x. */
  lemma {:induction false} BelowLowest(x: nat, w: nat, n: nat)
    requires x <= Full(w) && n <= w
    ensures Ones(And(Not(x, w), Less(x, w)), n) == TrailingZeros(x, n)
    decreases n
  {
    hide And;
    if n > 0 {
      var a, b := Not(x, w), Less(x, w);
      AndHalf(a, b);
      if x % 2 == 1 {
        AndComplement(x / 2, w - 1);
        assert a / 2 == Not(x / 2, w - 1) && b / 2 == x / 2 && b % 2 == 0;
        OnesZero(n);
      } else {
        assert a / 2 == Not(x / 2, w - 1) && b / 2 == Less(x / 2, w - 1) && a % 2 == 1 && b % 2 == 1;
        BelowLowest(x / 2, w - 1, n - 1);
      }
    }
  }

  /** The n lowest bits of x. */
  function LowBits(x: nat, n: nat): nat {
    if n == 0 then 0 else x % 2 + 2 * LowBits(x / 2, n - 1)
  }

  /** Counting n bits does not see the bits above them. */
  lemma {:induction false} OnesLow(x: nat, n: nat)
    ensures Ones(LowBits(x, n), n) == Ones(x, n)
  {
    if n > 0 {
      OnesLow(x / 2, n - 1);
      var y := LowBits(x, n);
      assert y % 2 == x % 2 && y / 2 == LowBits(x / 2, n - 1);
    }
  }

  lemma LowTwo(x: nat, n: nat)
    ensures LowBits(x, n + 2) == x % 4 + 4 * LowBits(x / 4, n)
  {
    assert LowBits(x, n + 2) == x % 2 + 2 * LowBits(x / 2, n + 1);
    assert x / 2 / 2 == x / 4;
  }

  lemma LowFour(x: nat, n: nat)
    ensures LowBits(x, n + 4) == x % 16 + 16 * LowBits(x / 16, n)
  {
    hide LowBits;
    LowTwo(x, n + 2);
    LowTwo(x / 4, n);
    assert x / 4 / 4 == x / 16 && x % 16 == x % 4 + 4 * (x / 4 % 4);
  }

  lemma LowByte(x: nat, n: nat)
    ensures LowBits(x, n + 8) == x % 256 + 256 * LowBits(x / 256, n)
  {
    hide LowBits;
    LowFour(x, n + 4);
    LowFour(x / 16, n);
    assert x / 16 / 16 == x / 256 && x % 256 == x % 16 + 16 * (x / 16 % 16);
  }

  lemma LowHalf(x: nat, n: nat)
    ensures LowBits(x, n + 16) == x % 65536 + 65536 * LowBits(x / 65536, n)
  {
    hide LowBits;
    LowByte(x, n + 8);
    LowByte(x / 256, n);
    assert x / 256 / 256 == x / 65536 && x % 65536 == x % 256 + 256 * (x / 256 % 256);
  }

  /** Zero-extension from 32 bits. */
  lemma LowWord(x: nat)
    ensures LowBits(x, 32) == x % W32
  {
    hide LowBits;
    LowHalf(x, 16);
    LowHalf(x / 65536, 0);
    LowNone(x / 65536 / 65536);
    assert x % W32 == x % 65536 + 65536 * (x / 65536 % 65536);
  }

  lemma LowNone(x: nat)
    ensures LowBits(x, 0) == 0
  {
  }

  lemma FullByte(n: nat)
    ensures Full(n + 8) == 256 * Full(n) + 255
  {
    assert Full(n + 2) == 4 * Full(n) + 3 && Full(n + 4) == 4 * Full(n + 2) + 3;
    assert Full(n + 6) == 4 * Full(n + 4) + 3 && Full(n + 8) == 4 * Full(n + 6) + 3;
  }

  lemma FullNone()
    ensures Full(0) == 0
  {
  }

  lemma FullConstants()
    ensures Full(32) == W32 - 1 && Full(64) == W64 - 1
  {
    hide Full;
    FullNone();
    FullByte(0);
    FullByte(8);
    FullByte(16);
    FullByte(24);
    FullByte(32);
    FullByte(40);
    FullByte(48);
    FullByte(56);
  }

  /** The CTZ sequence; zero gives 32. */
  method Ctz32(x: nat) returns (t0: nat)
    requires x < W32
    ensures t0 == TrailingZeros(x, 32)
    ensures x == 0 ==> t0 == 32
  {
    hide And, Ones, Full, TrailingZeros, LowBits;
    FullConstants();
    t0 := x;
    var t1 := (t0 + W64 - 1) % W64;
    t0 := W64 - 1 - t0;
    t0 := And(t0, t1);
    BelowLowest(x, 64, 32);
    t0 := t0 % W32;
    OnesLow(And(Not(x, 64), Less(x, 64)), 32);
    LowWord(And(Not(x, 64), Less(x, 64)));
    t0 := Popc32(t0);
    if x == 0 {
      NoOnes(32);
    }
  }

  lemma {:induction false} NoOnes(n: nat)
    ensures TrailingZeros(0, n) == n
  {
    if n > 0 {
      NoOnes(n - 1);
    }
  }

  // ---- Leading zeros ----

  lemma OrHalf(a: nat, b: nat)
    ensures Or(a, b) == 2 * Or(a / 2, b / 2) + if a % 2 == 1 || b % 2 == 1 then 1 else 0
    ensures Or(a, b) / 2 == Or(a / 2, b / 2) && (Or(a, b) % 2 == 1 <==> a % 2 == 1 || b % 2 == 1)
  {
  }

  function S1(x: nat): nat { Or(x, x / 2) }

  function S2(x: nat): nat { Or(x, x / 4) }

  function S4(x: nat): nat { Or(x, x / 16) }

  function S8(x: nat): nat { Or(x, x / 256) }

  function S16(x: nat): nat { Or(x, x / 65536) }

  function Smear(x: nat): nat {
    S16(S8(S4(S2(S1(x)))))
  }

  /** Smearing and halving commute. */
  lemma SmearHalf(x: nat)
    ensures S1(x) / 2 == S1(x / 2) && S2(x) / 2 == S2(x / 2) && S4(x) / 2 == S4(x / 2) && S8(x) / 2 == S8(x / 2)
    ensures S16(x) / 2 == S16(x / 2)
  {
    hide Or;
    OrHalf(x, x / 2);
    OrHalf(x, x / 4);
    OrHalf(x, x / 16);
    OrHalf(x, x / 256);
    OrHalf(x, x / 65536);
    assert x / 4 / 2 == x / 2 / 4 && x / 16 / 2 == x / 2 / 16 && x / 256 / 2 == x / 2 / 256
           && x / 65536 / 2 == x / 2 / 65536;
  }

  lemma SmearHalves(x: nat)
    ensures Smear(x) / 2 == Smear(x / 2)
  {
    hide S1, S2, S4, S8, S16;
    SmearHalf(x);
    SmearHalf(S1(x));
    SmearHalf(S2(S1(x)));
    SmearHalf(S4(S2(S1(x))));
    SmearHalf(S8(S4(S2(S1(x)))));
  }

  /** The lowest bit after smearing over one, two, four, eight and sixteen places. */
  lemma Low1(x: nat)
    ensures S1(x) % 2 == 1 <==> x % 4 != 0
  {
    hide Or;
    OrHalf(x, x / 2);
  }

  lemma S1Quarter(x: nat)
    ensures S1(x) / 4 == S1(x / 4)
  {
    hide S1;
    SmearHalf(x);
    SmearHalf(x / 2);
    assert x / 2 / 2 == x / 4 && S1(x) / 2 / 2 == S1(x) / 4;
  }

  lemma Low2(x: nat)
    ensures S2(S1(x)) % 2 == 1 <==> x % 16 != 0
  {
    hide S1;
    var t := S1(x);
    OrHalf(t, t / 4);
    S1Quarter(x);
    Low1(x);
    Low1(x / 4);
  }

  function T2(x: nat): nat { S2(S1(x)) }

  lemma T2Half(x: nat)
    ensures T2(x) / 2 == T2(x / 2)
  {
    hide S1, S2;
    SmearHalf(x);
    SmearHalf(S1(x));
  }

  function T4(x: nat): nat { S4(T2(x)) }

  function T8(x: nat): nat { S8(T4(x)) }

  lemma T4Half(x: nat)
    ensures T4(x) / 2 == T4(x / 2)
  {
    hide T2, S4;
    T2Half(x);
    SmearHalf(T2(x));
  }

  lemma T8Half(x: nat)
    ensures T8(x) / 2 == T8(x / 2)
  {
    hide T4, S8;
    T4Half(x);
    SmearHalf(T4(x));
  }

  lemma T2Sixteenth(x: nat)
    ensures T2(x) / 16 == T2(x / 16)
  {
    hide T2;
    T2Half(x);
    T2Half(x / 2);
    T2Half(x / 4);
    T2Half(x / 8);
    assert x / 2 / 2 == x / 4 && x / 4 / 2 == x / 8 && x / 8 / 2 == x / 16;
  }

  lemma Low4(x: nat)
    ensures T4(x) % 2 == 1 <==> x % 256 != 0
  {
    hide Or, S1, S2;
    Low2(x);
    Low2(x / 16);
    T2Sixteenth(x);
    Parts(x, 16);
    OrHalf(T2(x), T2(x) / 16);
  }

  lemma T4Byte(x: nat)
    ensures T4(x) / 256 == T4(x / 256)
  {
    hide T4;
    T4Half(x);
    T4Half(x / 2);
    T4Half(x / 4);
    T4Half(x / 8);
    T4Half(x / 16);
    T4Half(x / 32);
    T4Half(x / 64);
    T4Half(x / 128);
    assert x / 2 / 2 == x / 4 && x / 4 / 2 == x / 8 && x / 8 / 2 == x / 16 && x / 16 / 2 == x / 32;
    assert x / 32 / 2 == x / 64 && x / 64 / 2 == x / 128 && x / 128 / 2 == x / 256;
  }

  lemma Low8(x: nat)
    ensures T8(x) % 2 == 1 <==> x % 65536 != 0
  {
    hide Or, T4;
    Low4(x);
    Low4(x / 256);
    T4Byte(x);
    Parts(x, 256);
    OrHalf(T4(x), T4(x) / 256);
  }

  lemma T8Byte(x: nat)
    ensures T8(x) / 256 == T8(x / 256)
  {
    hide T8;
    T8Half(x);
    T8Half(x / 2);
    T8Half(x / 4);
    T8Half(x / 8);
    T8Half(x / 16);
    T8Half(x / 32);
    T8Half(x / 64);
    T8Half(x / 128);
    assert x / 2 / 2 == x / 4 && x / 4 / 2 == x / 8 && x / 8 / 2 == x / 16 && x / 16 / 2 == x / 32;
    assert x / 32 / 2 == x / 64 && x / 64 / 2 == x / 128 && x / 128 / 2 == x / 256;
  }

  lemma LowSmear(x: nat)
    ensures Smear(x) % 2 == 1 <==> x % W32 != 0
  {
    hide Or, T8;
    SmearIsT8(x);
    Low8(x);
    Low8(x / 65536);
    T8Byte(x);
    T8Byte(x / 256);
    assert x / 256 / 256 == x / 65536;
    assert T8(x) / 256 / 256 == T8(x) / 65536;
    Parts(x, 65536);
    OrHalf(T8(x), T8(x) / 65536);
  }

  lemma SmearIsT8(x: nat)
    ensures Smear(x) == Or(T8(x), T8(x) / 65536)
  {
  }

  /** A number is zero in two digits exactly when both are zero. */
  lemma Parts(x: nat, b: nat)
    requires b == 16 || b == 256 || b == 65536
    ensures x % (b * b) != 0 <==> x % b != 0 || x / b % b != 0
  {
    if b == 16 {
      assert x % 256 == x % 16 + 16 * (x / 16 % 16);
    } else if b == 256 {
      assert x % 65536 == x % 256 + 256 * (x / 256 % 256);
    } else {
      assert x % W32 == x % 65536 + 65536 * (x / 65536 % 65536);
    }
  }

  /** Smeared ones reach from the highest one down. */
  lemma {:induction false} SmearedOnes(x: nat, n: nat)
    requires x < W32
    ensures Ones(Smear(x), n) == BitLength(x, n)
    decreases n
  {
    hide Smear;
    if n > 0 {
      LowSmear(x);
      SmearHalves(x);
      if x == 0 {
        SmearZero();
        OnesZero(n);
      } else {
        SmearedOnes(x / 2, n - 1);
      }
    }
  }

  lemma SmearZero()
    ensures Smear(0) == 0
  {
    assert Or(0, 0) == 0;
  }

  lemma OrBound(a: nat, b: nat, m: nat)
    requires a <= Full(m) && b <= Full(m)
    ensures Or(a, b) <= Full(m)
    decreases m
  {
    if m > 0 {
      OrBound(a / 2, b / 2, m - 1);
    }
  }

  /** One round of the smear. */
  method SmearBy(x: nat, d: nat) returns (t0: nat)
    requires x < W32 && d in {2, 4, 16, 256, 65536}
    ensures t0 == Or(x, x / d) && t0 < W32
  {
    hide Full, Or;
    FullConstants();
    var t1 := x / d;
    t0 := Or(x, t1);
    QuotientSmaller(x, d);
    OrBound(x, t1, 32);
  }

  lemma QuotientSmaller(x: nat, d: nat)
    requires d in {2, 4, 16, 256, 65536}
    ensures x / d <= x
  {
    if d == 2 || d == 4 {
      assert x / 2 <= x && x / 4 <= x;
    } else {
      assert x / 16 <= x && x / 256 <= x && x / 65536 <= x;
    }
  }

  /** The CLZ sequence: 32 less the position of the highest one; zero gives 32. */
  method Clz32(x: nat) returns (t0: nat)
    requires x < W32
    ensures t0 == 32 - BitLength(x, 32)
    ensures x == 0 ==> t0 == 32
  {
    hide Ones, Or, Full;
    t0 := SmearBy(x, 2);
    t0 := SmearBy(t0, 4);
    t0 := SmearBy(t0, 16);
    t0 := SmearBy(t0, 256);
    t0 := SmearBy(t0, 65536);
    SmearedOnes(x, 32);
    OnesBound(t0, 32);
    t0 := Popc32(t0);
    var t1 := 32;
    t0 := t1 - t0;
  }

  // ---- Bit reversal ----

  function Swap(t: bv64, s: bv64, m: bv64): bv64
    requires s < 64
  {
    ((t & m) << s) | ((t >> s) & m)
  }

  /** rv_brev32: five rounds of swapping neighbouring blocks. */
  function Brev32(x: bv64): bv64 {
    Swap(Swap(Swap(Swap(Swap(x, 1, 0x5555_5555), 2, 0x3333_3333), 4, 0x0F0F_0F0F), 8, 0x00FF_00FF), 16, 0x0000_FFFF)
  }

  function ReversedByte(x: bv64): bv64 {
    ((x & 1) << 7) | (((x >> 1) & 1) << 6) | (((x >> 2) & 1) << 5) | (((x >> 3) & 1) << 4)
    | (((x >> 4) & 1) << 3) | (((x >> 5) & 1) << 2) | (((x >> 6) & 1) << 1) | ((x >> 7) & 1)
  }

  /** Bit i of the word becomes bit 31 - i. */
  lemma Brev32Reverses(x: bv64)
    requires x <= 0xFFFF_FFFF
    ensures Brev32(x) == (ReversedByte(x) << 24) | (ReversedByte(x >> 8) << 16)
                         | (ReversedByte(x >> 16) << 8) | ReversedByte(x >> 24)
  {
  }
}
