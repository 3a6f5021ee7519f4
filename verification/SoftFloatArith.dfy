/** Addition, subtraction, multiplication and division of the soft-float runtime, each against exact
    real arithmetic. */
module SoftFloatArith {
  import opened PowersOfTwo
  import opened Rounding
  import opened SoftFloat

  // ---- Aligning the smaller operand ----

  /** mant * 2^24 / 2^d, the exact significand of the operand shifted down by d. */
  ghost function Shifted(mant: int, d: nat): (x: real) {
    Times(mant as real, P2(24 - d))
  }

  /** Nothing is lost while the shift stays inside the 24 lane bits. */
  lemma SmallShiftIsExact(mant: int, d: nat)
    requires d <= 24
    ensures (mant * 0x100_0000) % Pow2(d) == 0
  {
    hide Pow2;
    Pow2Constants();
    Pow2Add(d, 24 - d);
    var p, q := Pow2(d), Pow2(24 - d);
    assert mant * (p * q) == (mant * q) * p;
    QuotientUnique(p, mant * q, 0, mant * 0x100_0000);
  }

  lemma ShiftedScaled(mant: int, d: nat)
    ensures Shifted(mant, d) * Pow2(d) as real == (mant * 0x100_0000) as real
  {
    hide P2, Pow2;
    P2Add(24 - d, d);
    P2OfNat(d);
    P2OfNat(24);
    Pow2Constants();
    Regroup(mant as real, P2(24 - d), P2(d));
    assert mant as real * P2(24) == (mant * 0x100_0000) as real;
  }

  lemma QuotientBounds(x: real, m: int, p: int)
    requires p > 0 && x * p as real == m as real
    ensures (m / p) as real <= x < (m / p + 1) as real
    ensures m % p == 0 <==> x == (m / p) as real
  {
    var q, r := m / p, m % p;
    var f := x - q as real;
    assert m == p * q + r;
    assert f * p as real == x * p as real - q as real * p as real;
    assert q as real * p as real == (p * q) as real;
    FractionOrder(f, p as real, r as real);
    if r == 0 {
      assert f == 0.0 by {
        FractionOrder(-f, p as real, -(r as real));
      }
    }
  }

  lemma FarShiftIsTiny(mant: int, d: nat)
    requires Significand(mant) && d >= 56
    ensures 0.0 < Shifted(mant, d) < 1.0
  {
    hide Pow2;
    ShiftedScaled(mant, d);
    Pow2Monotone(56, d);
    Pow2Add(32, 24);
    Pow2Constants();
    var x, p := Shifted(mant, d), Pow2(d) as real;
    assert (mant * 0x100_0000) as real < p;
    FractionOrder(x, p, (mant * 0x100_0000) as real);
    assert x != 0.0;
  }

  /** What alignment leaves: the exact value or an odd neighbour, and in the second case the
      operand is far below the other one. */
  ghost predicate AlignedBy(mb: int, mant: int, d: nat) {
    && 0 <= mb < 0x1_0000_0000_0000
    && (|| mb as real == Shifted(mant, d)
        || (OddlyNear(mb, Shifted(mant, d), 1) && mb <= 0x100_0000))
  }

  lemma ShiftWithin(mant: int, d: nat, mb: int)
    requires Significand(mant) && 0 < d < 56
    requires mb == OrLow((mant * 0x100_0000) / Pow2(d), if (mant * 0x100_0000) % Pow2(d) != 0 then 1 else 0)
    ensures AlignedBy(mb, mant, d)
  {
    hide Pow2, Shifted;
    var m, p := mant * 0x100_0000, Pow2(d);
    ShiftedScaled(mant, d);
    QuotientBounds(Shifted(mant, d), m, p);
    QuotientRange(mant, d);
  }

  lemma QuotientRange(mant: int, d: nat)
    requires Significand(mant) && 0 < d
    ensures 0 <= (mant * 0x100_0000) / Pow2(d) < 0x8000_0000_0000
    ensures (mant * 0x100_0000) % Pow2(d) != 0 ==> (mant * 0x100_0000) / Pow2(d) < 0x100_0000
  {
    var m, p := mant * 0x100_0000, Pow2(d);
    if m % p != 0 {
      if d <= 24 {
        SmallShiftIsExact(mant, d);
      }
      Pow2Monotone(25, d);
      Pow2Constants();
      QuotientBelow(m, p, 0x100_0000);
    } else {
      assert p == 2 * Pow2(d - 1);
      QuotientBelow(m, p, 0x8000_0000_0000);
    }
  }

  lemma QuotientBelow(m: int, p: int, c: int)
    requires 0 <= m && p > 0 && m < c * p
    ensures 0 <= m / p < c
  {
    var q := m / p;
    assert m == p * q + m % p;
    MultipleOrder(c, q, p);
    MultipleOrder(q + 1, 0, p);
    assert (q + 1) * p == p * q + p;
  }

  /** Shift the smaller significand down by the exponent difference, folding every lost bit
      into the bottom one. */
  method AlignDown(mant: int, d: nat) returns (mb: int)
    requires Significand(mant)
    ensures AlignedBy(mb, mant, d)
  {
    mb := mant * 0x100_0000;
    var sticky := false;
    if d >= 56 {
      FarShiftIsTiny(mant, d);
      sticky := mb != 0;
      mb := 0;
    } else if d > 0 {
      ShiftWithin(mant, d, OrLow(mb / Pow2(d), if mb % Pow2(d) != 0 then 1 else 0));
      sticky := mb % Pow2(d) != 0;
      mb := mb / Pow2(d);
    } else {
      ShiftedScaled(mant, 0);
    }
    if sticky {
      mb := OrLow(mb, 1);
    }
  }

  // ---- Addition and subtraction ----

  /** The two operands on the common scale 2^(e-47) of the larger exponent. */
  lemma CommonScale(a: Unpacked, b: Unpacked)
    requires a.Normal() && b.Normal() && b.exp <= a.exp
    ensures Float(a.mant, a.exp) == Times((a.mant * 0x100_0000) as real, P2(a.exp - 47))
    ensures Float(b.mant, b.exp) == Times(Shifted(b.mant, a.exp - b.exp), P2(a.exp - 47))
  {
    hide P2, Pow2;
    Pow2Constants();
    P2OfNat(24);
    P2Add(24, a.exp - 47);
    Regroup(a.mant as real, P2(24), P2(a.exp - 47));
    var d := a.exp - b.exp;
    P2Add(24 - d, a.exp - 47);
    assert 24 - d + (a.exp - 47) == b.exp - 23;
    Regroup(b.mant as real, P2(24 - d), P2(a.exp - 47));
  }

  lemma TimesDistributes(x: real, y: real, u: real)
    ensures Times(x, u) + Times(y, u) == Times(x + y, u)
    ensures Times(x, u) - Times(y, u) == Times(x - y, u)
    ensures u > 0.0 ==> (Times(x, u) > 0.0 <==> x > 0.0) && (Times(x, u) == 0.0 <==> x == 0.0)
  {
    assert x * u + y * u == (x + y) * u;
    assert x * u - y * u == (x - y) * u;
    if u > 0.0 {
      ScaleMonotone(x, 0.0, u);
      ScaleMonotone(0.0, x, u);
    }
  }

  /** The significand computed for the sum, with its sign. */
  function Combine(ma: int, mb: int, signA: bool, signB: bool): (int, bool) {
    if signA == signB then (ma + mb, signA)
    else if ma >= mb then (ma - mb, signA)
    else (mb - ma, signB)
  }

  /** The exact counterpart of Combine. */
  function CombineExact(ma: int, mb: int, x: real, signA: bool, signB: bool): real {
    if signA == signB then ma as real + x
    else if ma >= mb then ma as real - x
    else x - ma as real
  }

  /** OR-ing the sticky bit into the aligned operand is harmless, under cancellation too: the
      combined significand is exact or an odd neighbour with its leading bit high enough. */
  lemma CombineStands(a: Unpacked, b: Unpacked, mb: int)
    requires a.Normal() && b.Normal() && b.exp <= a.exp
    requires AlignedBy(mb, b.mant, a.exp - b.exp)
    ensures var ma := a.mant * 0x100_0000;
            var x := Shifted(b.mant, a.exp - b.exp);
            var r := Combine(ma, mb, a.sign, b.sign).0;
            && Stands(r, CombineExact(ma, mb, x, a.sign, b.sign), 24)
            && 0 <= r < TWO64
            && CombineExact(ma, mb, x, a.sign, b.sign) >= 0.0
            && (r == 0 <==> CombineExact(ma, mb, x, a.sign, b.sign) == 0.0)
  {
    hide Shifted, Pow2, Stands;
    CombineAbstract(a.mant * 0x100_0000, mb, Shifted(b.mant, a.exp - b.exp), a.sign, b.sign);
  }

  lemma CombineAbstract(ma: int, mb: int, x: real, signA: bool, signB: bool)
    requires 0x8000_0000_0000 <= ma < 0x1_0000_0000_0000 && ma % 2 == 0
    requires 0 <= mb < 0x1_0000_0000_0000
    requires mb as real == x || (OddlyNear(mb, x, 1) && mb <= 0x100_0000)
    ensures var r := Combine(ma, mb, signA, signB).0;
            var y := CombineExact(ma, mb, x, signA, signB);
            Stands(r, y, 24) && 0 <= r < TWO64 && y >= 0.0 && (r == 0 <==> y == 0.0)
  {
    Pow2Constants();
    hide Pow2;
    var r := Combine(ma, mb, signA, signB).0;
    var y := CombineExact(ma, mb, x, signA, signB);
    if mb as real != x {
      assert mb % 2 == 1;
      assert r >= 0x200_0000;
      assert OddMultiple(r, 1);
    }
  }

  lemma CombineValue(a: Unpacked, b: Unpacked, mb: int)
    requires a.Normal() && b.Normal() && b.exp <= a.exp
    ensures var ma := a.mant * 0x100_0000;
            var x := Shifted(b.mant, a.exp - b.exp);
            var t := Times(CombineExact(ma, mb, x, a.sign, b.sign), P2(a.exp - 47));
            a.Value() + b.Value() == if Combine(ma, mb, a.sign, b.sign).1 then -t else t
  {
    hide P2, Times, Shifted, Float;
    var ma := a.mant * 0x100_0000;
    var x := Shifted(b.mant, a.exp - b.exp);
    CommonScale(a, b);
    TimesDistributes(ma as real, x, P2(a.exp - 47));
    TimesDistributes(x, ma as real, P2(a.exp - 47));
  }

  lemma SignedRounding(s: real, sign: bool, x: real, u: real, bits: Bits)
    requires u > 0.0 && x > 0.0
    requires s == if sign then -Times(x, u) else Times(x, u)
    requires RoundsTo(sign, Times(x, u), bits)
    ensures s != 0.0 && CorrectlyRounded(s, bits)
  {
    TimesDistributes(x, 0.0, u);
  }

  /** The sum of two nonzero finite operands is the exact sum correctly rounded, and exact
      cancellation gives positive zero. */
  method AddNormals(ua: Unpacked, ub: Unpacked) returns (bits: Bits)
    requires ua.Normal() && ub.Normal()
    ensures ua.Value() + ub.Value() == 0.0 ==> bits == 0
    ensures ua.Value() + ub.Value() != 0.0 ==> CorrectlyRounded(ua.Value() + ub.Value(), bits)
  {
    var a, b := ua, ub;
    if b.exp > a.exp {
      a, b := b, a;
    }
    assert a.Value() + b.Value() == ua.Value() + ub.Value();
    hide P2, Times, Shifted, Float, Stands, RoundsTo, AlignedBy, Pack;
    var ma := a.mant * 0x100_0000;
    var mb := AlignDown(b.mant, a.exp - b.exp);
    CombineStands(a, b, mb);
    CombineValue(a, b, mb);
    var sign, mant := a.sign, ma + mb;
    if a.sign != b.sign {
      if ma >= mb {
        mant := ma - mb;
      } else {
        mant := mb - ma;
        sign := b.sign;
      }
      if mant == 0 {
        ZeroTimes(P2(a.exp - 47));
        return Pack(Zero(false));
      }
    }
    ghost var x := CombineExact(ma, mb, Shifted(b.mant, a.exp - b.exp), a.sign, b.sign);
    bits := RoundNormal(sign, a.exp, mant, 24, x);
    SignedRounding(a.Value() + b.Value(), sign, x, P2(a.exp - 47), bits);
  }

  lemma ZeroTimes(u: real)
    ensures Times(0.0, u) == 0.0
    ensures Pack(Zero(false)) == 0
  {
  }

  function FlipSign(u: Unpacked, flip: bool): Unpacked {
    if flip then u.(sign := !u.sign) else u
  }

  /** A nonzero finite pattern is the correct rounding of its own value, and with the sign bit
      flipped it is the only correct rounding of the negated value. */
  lemma OwnValueRounds(b: Bits)
    requires Unpack(b).Normal()
    ensures Unpack(b).Value() != 0.0
    ensures CorrectlyRounded(Unpack(b).Value(), b)
    ensures !CorrectlyRounded(-Unpack(b).Value(), b)
  {
    var u := Unpack(b);
    ValueSign(u);
    FloatRoundsToItself(u.mant, u.exp);
    hide NearestEven, Float;
    assert NearestEven(Abs(u.Value()), u.mant, u.exp) && Delivers(b, u.sign, u.mant, u.exp);
    var n := FlipSign(u, true);
    var c := Pack(n);
    assert NearestEven(Abs(-u.Value()), u.mant, u.exp) && Delivers(c, n.sign, u.mant, u.exp);
    if CorrectlyRounded(-u.Value(), b) {
      CorrectlyRoundedUnique(-u.Value(), b, c);
      assert false;
    }
  }

  lemma ValueSign(u: Unpacked)
    requires u.Normal()
    ensures Float(u.mant, u.exp) > 0.0
    ensures u.Value() != 0.0 && (u.sign <==> u.Value() < 0.0) && Abs(u.Value()) == Float(u.mant, u.exp)
  {
    hide P2;
    ScaleMonotone(0.0, u.mant as real, P2(u.exp - 23));
  }

  /** sfp_add_signed.  For finite operands the result is the exact sum or difference correctly
      rounded, except that a subtraction whose left operand is (or flushes to) zero hands back
      the right operand unnegated. */
  method AddSigned(a: Bits, b: Bits, subtract: bool) returns (r: Bits)
    ensures var ua, ub := Unpack(a), FlipSign(Unpack(b), subtract);
            && (ua.isNan || ub.isNan ==> r == CANONICAL_NAN)
            && (!ua.isNan && !ub.isNan && (ua.isInf || ub.isInf) ==>
                  r == if ua.isInf && ub.isInf && ua.sign != ub.sign then CANONICAL_NAN
                       else Infinity(if ua.isInf then ua.sign else ub.sign))
            && (ua.Finite() && ub.Finite() ==>
                  var s := ua.Value() + ub.Value();
                  && (ua.isZero && ub.isZero ==> r == SignedZero(ua.sign && ub.sign))
                  && (s == 0.0 && !ua.isZero ==> r == 0)
                  && (s != 0.0 ==> (CorrectlyRounded(s, r) <==> !(subtract && ua.isZero)))
                  && (s != 0.0 && ua.isZero ==> r == b))
  {
    var ua, ub := Unpack(a), FlipSign(Unpack(b), subtract);
    hide CorrectlyRounded, Float, Unpack, Pack;
    if ua.isNan || ub.isNan {
      return CANONICAL_NAN;
    }
    if ua.isInf && ub.isInf {
      if ua.sign != ub.sign {
        return CANONICAL_NAN;
      }
      return Infinity(ua.sign);
    }
    if ua.isInf {
      return Infinity(ua.sign);
    }
    if ub.isInf {
      return Infinity(ub.sign);
    }
    if ua.isZero && ub.isZero {
      PackZero(ua.sign && ub.sign);
      return Pack(Zero(ua.sign && ub.sign));
    }
    if ua.isZero {
      OwnValueRounds(b);
      return b;
    }
    if ub.isZero {
      OwnValueRounds(a);
      return a;
    }
    r := AddNormals(ua, ub);
  }

  lemma PackZero(sign: bool)
    ensures Pack(Zero(sign)) == SignedZero(sign)
  {
  }

  /** The failing family of subtraction has a member: 0 - 1 comes out as +1. */
  method ZeroMinusOne() returns (r: Bits)
    ensures r == 0x3F80_0000 && Unpack(r).Finite() && Unpack(r).Value() > 0.0
    ensures !CorrectlyRounded(Unpack(0).Value() - Unpack(0x3F80_0000).Value(), r)
  {
    var ub := Unpack(0x3F80_0000);
    assert ub == Unpacked(false, 0, HIDDEN, false, false, false);
    ValueSign(ub);
    OwnValueRounds(0x3F80_0000);
    r := AddSigned(0, 0x3F80_0000, true);
  }

  // ---- Multiplication ----

  lemma ProductScale(a: Unpacked, b: Unpacked)
    requires a.Normal() && b.Normal()
    ensures var t := Times((a.mant * b.mant) as real, P2(a.exp + b.exp - 46));
            a.Value() * b.Value() == if a.sign != b.sign then -t else t
  {
    hide P2;
    P2Add(a.exp - 23, b.exp - 23);
    assert a.exp - 23 + (b.exp - 23) == a.exp + b.exp - 46;
    MagnitudeProduct(a.mant, b.mant, P2(a.exp - 23), P2(b.exp - 23));
    SignedProduct(Float(a.mant, a.exp), Float(b.mant, b.exp));
  }

  lemma MagnitudeProduct(m: int, n: int, u: real, v: real)
    ensures (m as real * u) * (n as real * v) == (m * n) as real * (u * v)
  {
    var x, y := m as real, n as real;
    assert (m * n) as real == x * y;
    assert (x * u) * (y * v) == (x * y) * (u * v);
  }

  lemma SignedProduct(x: real, y: real)
    ensures (-x) * y == -(x * y) && x * (-y) == -(x * y) && (-x) * (-y) == x * y
  {
  }

  lemma SignificandProduct(m: int, n: int)
    requires Significand(m) && Significand(n)
    ensures 0x4000_0000_0000 <= m * n < 0x1_0000_0000_0000
  {
    MultipleOrder(HIDDEN, m, n);
    MultipleOrder(m, 2 * HIDDEN - 1, n);
  }

  /** __mulsf3: the exact product correctly rounded. */
  method Multiply(a: Bits, b: Bits) returns (r: Bits)
    ensures var ua, ub := Unpack(a), Unpack(b);
            var sign := ua.sign != ub.sign;
            && (ua.isNan || ub.isNan || (ua.isInf && ub.isZero) || (ua.isZero && ub.isInf) ==> r == CANONICAL_NAN)
            && (!ua.isNan && !ub.isNan && ((ua.isInf && !ub.isZero) || (ub.isInf && !ua.isZero)) ==>
                  r == Infinity(sign))
            && (ua.Finite() && ub.Finite() && (ua.isZero || ub.isZero) ==> r == SignedZero(sign))
            && (ua.Normal() && ub.Normal() ==>
                  ua.Value() * ub.Value() != 0.0 && CorrectlyRounded(ua.Value() * ub.Value(), r))
  {
    var ua, ub := Unpack(a), Unpack(b);
    hide CorrectlyRounded, RoundsTo, Unpack, Pack, P2, Times, Stands, Float;
    var sign := ua.sign != ub.sign;
    if ua.isNan || ub.isNan {
      return CANONICAL_NAN;
    }
    if (ua.isInf && ub.isZero) || (ua.isZero && ub.isInf) {
      return CANONICAL_NAN;
    }
    if ua.isInf || ub.isInf {
      return Infinity(sign);
    }
    if ua.isZero || ub.isZero {
      PackZero(sign);
      return Pack(Zero(sign));
    }
    r := MultiplyNormals(ua, ub, sign);
  }

  method MultiplyNormals(ua: Unpacked, ub: Unpacked, sign: bool) returns (r: Bits)
    requires ua.Normal() && ub.Normal() && sign == (ua.sign != ub.sign)
    ensures ua.Value() * ub.Value() != 0.0 && CorrectlyRounded(ua.Value() * ub.Value(), r)
  {
    hide CorrectlyRounded, RoundsTo, P2, Times, Float;
    var product := ua.mant * ub.mant;
    SignificandProduct(ua.mant, ub.mant);
    r := RoundNormal(sign, ua.exp + ub.exp, product, 23, product as real);
    ProductScale(ua, ub);
    SignedRounding(ua.Value() * ub.Value(), sign, product as real, P2(ua.exp + ub.exp - 46), r);
  }

  // ---- Division ----

  /** num / den as a real, for the scaled significands. */
  ghost function Ratio(m: int, n: int): (x: real)
    requires n > 0
  {
    (m * 0x1000_0000) as real / n as real
  }

  lemma QuotientStands(m: int, n: int, quot: int)
    requires Significand(m) && Significand(n)
    requires quot == OrLow((m * 0x1000_0000) / n, if (m * 0x1000_0000) % n != 0 then 1 else 0)
    ensures Stands(quot, Ratio(m, n), 5) && 0 < quot < TWO64 && Ratio(m, n) > 0.0
  {
    var num := m * 0x1000_0000;
    QuotientBounds(Ratio(m, n), num, n);
    QuotientLarge(num, n);
    QuotientBelow(num, n, 0x1_0000_0000_0000);
    Pow2Constants();
    hide Pow2, Ratio;
    assert OddMultiple(quot, 1) <==> quot % 2 == 1;
  }

  lemma QuotientLarge(num: int, n: int)
    requires 0x80_0000 * 0x1000_0000 <= num && 0 < n < 0x100_0000
    ensures num / n >= 0x800_0000
  {
    var q := num / n;
    assert num == n * q + num % n;
    MultipleOrder(q + 1, 0x800_0000, n);
    assert (q + 1) * n == n * q + n;
  }

  lemma RatioScale(m: int, n: int, p: int, q: int)
    requires n > 0
    ensures Times(Ratio(m, n), P2(p - q - 28)) * Float(n, q) == Float(m, p)
  {
    hide P2, Pow2;
    P2Add(p - q - 28, q - 23);
    P2OfNat(28);
    Pow2Constants();
    P2Add(28, p - 51);
    assert p - q - 28 + (q - 23) == p - 51;
    RatioRegroup(m, n, P2(p - q - 28), P2(q - 23), P2(p - 51), P2(p - 23));
  }

  lemma RatioRegroup(m: int, n: int, u: real, v: real, w: real, z: real)
    requires n > 0 && u * v == w && z == 0x1000_0000 as real * w
    ensures (Ratio(m, n) * u) * (n as real * v) == m as real * z
  {
    var x := Ratio(m, n);
    assert x * n as real == (m * 0x1000_0000) as real;
    assert (x * u) * (n as real * v) == (x * n as real) * (u * v);
    assert (m * 0x1000_0000) as real * w == m as real * (0x1000_0000 as real * w);
  }

  lemma QuotientValue(a: Unpacked, b: Unpacked)
    requires a.Normal() && b.Normal()
    ensures b.Value() != 0.0
    ensures var t := Times(Ratio(a.mant, b.mant), P2(a.exp - b.exp - 28));
            a.Value() / b.Value() == if a.sign != b.sign then -t else t
  {
    var t := Times(Ratio(a.mant, b.mant), P2(a.exp - b.exp - 28));
    ValueSign(a);
    ValueSign(b);
    RatioScale(a.mant, b.mant, a.exp, b.exp);
    hide P2, Times, Ratio, Float;
    SignedProduct(t, Float(b.mant, b.exp));
    var q := if a.sign != b.sign then -t else t;
    assert q * b.Value() == a.Value();
    DivideIs(q, b.Value(), a.Value());
  }

  lemma DivideIs(q: real, y: real, x: real)
    requires y != 0.0 && q * y == x
    ensures x / y == q
  {
  }

  /** __divsf3: the exact quotient correctly rounded. */
  method Divide(a: Bits, b: Bits) returns (r: Bits)
    ensures var ua, ub := Unpack(a), Unpack(b);
            var sign := ua.sign != ub.sign;
            && (ua.isNan || ub.isNan || (ua.isInf && ub.isInf) || (ua.isZero && ub.isZero) ==> r == CANONICAL_NAN)
            && (!ua.isNan && !ub.isNan && ((ua.isInf && !ub.isInf) || (ub.isZero && !ua.isZero)) ==>
                  r == Infinity(sign))
            && (ua.Finite() && !ub.isNan && ((ua.isZero && !ub.isZero) || ub.isInf) ==> r == SignedZero(sign))
            && (ua.Normal() && ub.Normal() ==>
                  && ub.Value() != 0.0 && ua.Value() / ub.Value() != 0.0
                  && CorrectlyRounded(ua.Value() / ub.Value(), r))
  {
    var ua, ub := Unpack(a), Unpack(b);
    hide CorrectlyRounded, RoundsTo, Unpack, Pack, P2, Times, Stands, Float;
    var sign := ua.sign != ub.sign;
    if ua.isNan || ub.isNan {
      return CANONICAL_NAN;
    }
    if ua.isInf && ub.isInf {
      return CANONICAL_NAN;
    }
    if ua.isZero && ub.isZero {
      return CANONICAL_NAN;
    }
    if ua.isInf {
      return Infinity(sign);
    }
    if ub.isZero {
      return Infinity(sign);
    }
    if ua.isZero || ub.isInf {
      PackZero(sign);
      return Pack(Zero(sign));
    }
    r := DivideNormals(ua, ub, sign);
  }

  method DivideNormals(ua: Unpacked, ub: Unpacked, sign: bool) returns (r: Bits)
    requires ua.Normal() && ub.Normal() && sign == (ua.sign != ub.sign)
    ensures ub.Value() != 0.0 && ua.Value() / ub.Value() != 0.0
    ensures CorrectlyRounded(ua.Value() / ub.Value(), r)
  {
    hide CorrectlyRounded, RoundsTo, P2, Times, Float, Stands, Ratio;
    var num, den := ua.mant * 0x1000_0000, ub.mant;
    var quot := num / den;
    var rem := num % den;
    QuotientStands(ua.mant, ub.mant, OrLow(quot, if rem != 0 then 1 else 0));
    if rem != 0 {
      quot := OrLow(quot, 1);
    }
    r := RoundNormal(sign, ua.exp - ub.exp, quot, 5, Ratio(ua.mant, ub.mant));
    QuotientValue(ua, ub);
    SignedRounding(ua.Value() / ub.Value(), sign, Ratio(ua.mant, ub.mant), P2(ua.exp - ub.exp - 28), r);
  }
}
