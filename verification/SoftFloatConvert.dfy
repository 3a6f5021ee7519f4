/** Comparison and integer conversion of the soft-float runtime. */
module SoftFloatConvert {
  import opened PowersOfTwo
  import opened Rounding
  import opened SoftFloat
  import opened SoftFloatArith

  const INT_MIN: int := -0x8000_0000
  const INT_MAX: int := 0x7FFF_FFFF
  const UINT_MAX: int := 0xFFFF_FFFF

  // ---- Comparison ----

  /** sfp_cmp on the bit patterns: -1, 0 or 1, with 1 for an unordered pair. */
  function Compare(a: Bits, b: Bits): int {
    var ua, ub := Unpack(a), Unpack(b);
    if ua.isNan || ub.isNan then 1
    else if ua.isZero && ub.isZero then 0
    else if ua.sign != ub.sign then if ua.sign then -1 else 1
    else
      var magA, magB := a % SIGN_BIT, b % SIGN_BIT;
      if magA == magB then 0
      else
        var order := if magA < magB then -1 else 1;
        if ua.sign then -order else order
  }

  /** The order of the extended reals: -inf below every finite value below +inf. */
  ghost predicate Below(ua: Unpacked, ub: Unpacked)
    requires !ua.isNan && !ub.isNan
  {
    if ua.isInf then ua.sign && !(ub.isInf && ub.sign)
    else if ub.isInf then !ub.sign
    else ua.Value() < ub.Value()
  }

  lemma FieldsOfMagnitude(a: Bits)
    requires Unpack(a).Normal()
    ensures a % SIGN_BIT == (Unpack(a).exp + EXP_BIAS - 1) * HIDDEN + Unpack(a).mant
  {
  }

  /** Magnitude order is bit-pattern order. */
  lemma MagnitudeOrder(a: Bits, b: Bits)
    requires Unpack(a).Normal() && Unpack(b).Normal()
    requires a % SIGN_BIT < b % SIGN_BIT
    ensures var ua, ub := Unpack(a), Unpack(b);
            Float(ua.mant, ua.exp) < Float(ub.mant, ub.exp)
  {
    var ua, ub := Unpack(a), Unpack(b);
    FieldsOfMagnitude(a);
    FieldsOfMagnitude(b);
    hide Float, Unpack;
    assert ua.exp < ub.exp || (ua.exp == ub.exp && ua.mant < ub.mant);
    if ua.exp < ub.exp {
      BinadeOrder(ua.mant, ua.exp, ub.mant, ub.exp);
    } else {
      FloatOrder(ua.mant, ub.mant, ua.exp);
    }
  }

  lemma SameMagnitude(a: Bits, b: Bits)
    requires a % SIGN_BIT == b % SIGN_BIT && Unpack(a).sign == Unpack(b).sign
    ensures a == b
  {
  }

  lemma CompareNormals(a: Bits, b: Bits)
    requires Unpack(a).Normal() && Unpack(b).Normal()
    ensures Compare(a, b) == -1 <==> Below(Unpack(a), Unpack(b))
    ensures Compare(a, b) == 1 <==> Below(Unpack(b), Unpack(a))
  {
    var ua, ub := Unpack(a), Unpack(b);
    ValueSign(ua);
    ValueSign(ub);
    if ua.sign == ub.sign {
      if a % SIGN_BIT < b % SIGN_BIT {
        MagnitudeOrder(a, b);
      } else if a % SIGN_BIT > b % SIGN_BIT {
        MagnitudeOrder(b, a);
      } else {
        SameMagnitude(a, b);
      }
    }
    hide Unpack, Float, Abs;
  }

  lemma CompareSpecial(a: Bits, b: Bits)
    requires !Unpack(a).isNan && !Unpack(b).isNan
    requires !Unpack(a).Normal() || !Unpack(b).Normal()
    ensures Compare(a, b) == -1 <==> Below(Unpack(a), Unpack(b))
    ensures Compare(a, b) == 1 <==> Below(Unpack(b), Unpack(a))
  {
    var ua, ub := Unpack(a), Unpack(b);
    hide Float, Abs;
    if ua.Normal() {
      ValueSign(ua);
    }
    if ub.Normal() {
      ValueSign(ub);
    }
  }

  lemma CompareOrdered(a: Bits, b: Bits)
    requires !Unpack(a).isNan && !Unpack(b).isNan
    ensures Compare(a, b) == -1 <==> Below(Unpack(a), Unpack(b))
    ensures Compare(a, b) == 1 <==> Below(Unpack(b), Unpack(a))
  {
    hide Below;
    if Unpack(a).Normal() && Unpack(b).Normal() {
      CompareNormals(a, b);
    } else {
      CompareSpecial(a, b);
    }
  }

  /** The order of what two patterns stand for; a NaN is not less than anything, nor anything less
      than a NaN. */
  ghost predicate Less(x: Datum, y: Datum) {
    match (x, y)
    case (Number(v), Number(w)) => v < w
    case (Infinite(negative), Number(_)) => negative
    case (Number(_), Infinite(negative)) => !negative
    case (Infinite(n), Infinite(m)) => n && !m
    case _ => false
  }

  lemma BelowIsLess(a: Bits, b: Bits)
    requires !Unpack(a).isNan && !Unpack(b).isNan
    ensures Below(Unpack(a), Unpack(b)) <==> Less(Denotes(a), Denotes(b))
  {
    UnpackDenotes(a);
    UnpackDenotes(b);
    hide Unpack, Denotes, Float;
  }

  /** The comparison is the order of what the patterns stand for; the two zeros are equal, and an
      unordered pair gives 1. */
  lemma CompareCorrect(a: Bits, b: Bits)
    ensures var x, y := Denotes(a), Denotes(b);
            && Compare(a, b) in {-1, 0, 1}
            && (Compare(a, b) == -1 <==> Less(x, y))
            && (Compare(a, b) == 1 <==> x.NotANumber? || y.NotANumber? || Less(y, x))
  {
    UnpackDenotes(a);
    UnpackDenotes(b);
    hide Below, Unpack, Denotes;
    if !Unpack(a).isNan && !Unpack(b).isNan {
      CompareOrdered(a, b);
      BelowIsLess(a, b);
      BelowIsLess(b, a);
    }
  }

  /** The entry points of libgcc's interface. */
  function Unordered(a: Bits, b: Bits): int {
    if Unpack(a).isNan || Unpack(b).isNan then 1 else 0
  }

  function CompareEqual(a: Bits, b: Bits): int {
    if Unordered(a, b) != 0 then 1 else if Compare(a, b) != 0 then 1 else 0
  }

  /** Shared by less-than and less-or-equal, and by their reverses with -1 for the unordered. */
  function CompareOr(a: Bits, b: Bits, unordered: int): int {
    if Unordered(a, b) != 0 then unordered else Compare(a, b)
  }

  /** Each relation, read off the sign of its entry point's answer, is false of a NaN and otherwise
      the order of what the patterns stand for. */
  lemma RelationsCorrect(a: Bits, b: Bits)
    ensures var x, y := Denotes(a), Denotes(b);
            var ordered := !x.NotANumber? && !y.NotANumber?;
            && (Unordered(a, b) == 1 <==> !ordered) && Unordered(a, b) in {0, 1}
            && (CompareEqual(a, b) == 0 <==> ordered && !Less(x, y) && !Less(y, x)) && CompareEqual(a, b) in {0, 1}
            && (CompareOr(a, b, 1) < 0 <==> Less(x, y)) && (CompareOr(a, b, 1) <= 0 <==> ordered && !Less(y, x))
            && (CompareOr(a, b, -1) > 0 <==> Less(y, x)) && (CompareOr(a, b, -1) >= 0 <==> ordered && !Less(x, y))
  {
    CompareCorrect(a, b);
    UnpackDenotes(a);
    UnpackDenotes(b);
    hide Unpack, Denotes, Compare;
  }

  // ---- Integer to float ----

  lemma LeadingBit(v: int, top: nat)
    requires 0 < v < Pow2(top + 1) && (v / Pow2(top)) % 2 == 0
    ensures v < Pow2(top)
    ensures top > 0
  {
    var p := Pow2(top);
    assert Pow2(top + 1) == 2 * p;
    hide Pow2;
    if v >= p {
      QuotientUnique(p, 1, v - p, v);
    }
    PowZero();
  }

  lemma PowZero()
    ensures Pow2(0) == 1
  {
  }

  lemma WideInRange(v: int, top: nat)
    requires 0 < v < Pow2(top + 1) && top <= 31
    ensures 0 < v * Pow2(47 - top) < TWO64
    ensures Times((v * Pow2(47 - top)) as real, P2(top - 47)) == v as real
  {
    hide Pow2, P2;
    var q := Pow2(47 - top);
    Pow2Add(top + 1, 47 - top);
    Pow2Constants();
    Pow2Add(24, 24);
    MultipleOrder(v + 1, Pow2(top + 1), q);
    MultipleOrder(1, v, q);
    P2OfNat(47 - top);
    P2Inverse(47 - top);
    assert 0 - (47 - top) == top - 47;
    assert (v as real * q as real) * P2(top - 47) == v as real * (P2(top - 47) * q as real);
  }

  /** sfp_uint_to_float: the integer correctly rounded; zero keeps the given sign. */
  method UintToFloat(v: int, sign: bool) returns (r: Bits)
    requires 0 <= v <= UINT_MAX
    ensures v == 0 ==> r == SignedZero(sign)
    ensures v != 0 ==> RoundsTo(sign, v as real, r)
  {
    if v == 0 {
      PackZero(sign);
      return Pack(Zero(sign));
    }
    hide Pow2, P2, Times, RoundsTo;
    var top := 31;
    Pow2Constants();
    while (v / Pow2(top)) % 2 == 0
      invariant 0 <= top <= 31 && v < Pow2(top + 1)
      decreases top
    {
      LeadingBit(v, top);
      top := top - 1;
    }
    var wide := v * Pow2(47 - top);
    WideInRange(v, top);
    r := RoundNormal(sign, top, wide, 24, wide as real);
  }

  /** __floatsisf: every 32-bit signed integer converts to its correctly rounded float. */
  method IntToFloat(i: int) returns (r: Bits)
    requires INT_MIN <= i <= INT_MAX
    ensures i == 0 ==> r == 0
    ensures i != 0 ==> CorrectlyRounded(i as real, r)
  {
    if i >= 0 {
      r := UintToFloat(i, false);
    } else {
      r := UintToFloat(-i, true);
    }
  }

  // ---- Float to integer ----

  function Truncate(x: real): int {
    if x >= 0.0 then x.Floor else -((-x).Floor)
  }

  function Clamp(n: int, lo: int, hi: int): int {
    if n < lo then lo else if n > hi then hi else n
  }

  ghost function Clamped(x: Datum, lo: int, hi: int): int {
    match x
    case NotANumber => 0
    case Infinite(negative) => if negative then lo else hi
    case Number(v) => Clamp(Truncate(v), lo, hi)
  }

  /** The integer part of a normalised significand scaled by 2^exp. */
  function Magnitude(mant: int, exp: nat): int {
    if exp >= 23 then mant * Pow2(exp - 23) else mant / Pow2(23 - exp)
  }

  lemma MagnitudeIsFloor(mant: int, exp: nat)
    requires Significand(mant)
    ensures Magnitude(mant, exp) == Float(mant, exp).Floor
  {
    hide Pow2, P2;
    if exp >= 23 {
      P2OfNat(exp - 23);
      assert (mant * Pow2(exp - 23)) as real == mant as real * Pow2(exp - 23) as real;
    } else {
      var p, x := Pow2(23 - exp), Float(mant, exp);
      P2OfNat(23 - exp);
      P2Inverse(23 - exp);
      assert 0 - (23 - exp) == exp - 23;
      assert (mant as real * P2(exp - 23)) * p as real == mant as real * (P2(exp - 23) * p as real);
      QuotientBounds(x, mant, p);
    }
  }

  lemma FloatRange(mant: int, exp: int)
    requires Significand(mant)
    ensures exp < 0 ==> 0.0 < Float(mant, exp) < 1.0
    ensures forall k: nat :: k <= exp ==> Float(mant, exp) >= Pow2(k) as real
    ensures forall k: nat :: exp < k ==> Float(mant, exp) < Pow2(k) as real
  {
    hide Pow2, P2, Float;
    forall k: nat
      ensures k <= exp ==> Float(mant, exp) >= Pow2(k) as real
      ensures exp < k ==> Float(mant, exp) < Pow2(k) as real
    {
      HiddenFloat(k);
      if k < exp {
        BinadeOrder(HIDDEN, k, mant, exp);
      } else if k == exp {
        if HIDDEN < mant {
          FloatOrder(HIDDEN, mant, exp);
        }
      } else {
        BinadeOrder(mant, exp, HIDDEN, k);
      }
    }
    if exp < 0 {
      HiddenFloat(0);
      PowZero();
      BinadeOrder(mant, exp, HIDDEN, 0);
      ValueSignFloat(mant, exp);
    }
  }

  lemma ValueSignFloat(mant: int, exp: int)
    requires Significand(mant)
    ensures Float(mant, exp) > 0.0
  {
    ScaleMonotone(0.0, mant as real, P2(exp - 23));
  }

  lemma HiddenFloat(k: nat)
    ensures Float(HIDDEN, k) == Pow2(k) as real
  {
    hide P2, Pow2;
    P2OfNat(23);
    P2OfNat(k);
    Pow2Constants();
    P2Add(23, k - 23);
  }

  /** __fixsfsi: truncation toward zero, clamped to the 32-bit signed range. */
  function FloatToInt(a: Bits): int {
    var u := Unpack(a);
    if u.isNan then 0
    else if u.isZero then 0
    else if u.isInf then if u.sign then INT_MIN else INT_MAX
    else if u.exp < 0 then 0
    else if u.exp >= 31 then if u.sign then INT_MIN else INT_MAX
    else if u.sign then -Magnitude(u.mant, u.exp)
    else Magnitude(u.mant, u.exp)
  }

  /** A NaN gives zero, an infinity the end of the range on its side, a number its integer part
      within the range. */
  lemma FloatToIntCorrect(a: Bits)
    ensures FloatToInt(a) == Clamped(Denotes(a), INT_MIN, INT_MAX)
  {
    UnpackDenotes(a);
    hide Unpack, Denotes;
    if Unpack(a).Finite() {
      FiniteToInt(a);
    }
  }

  lemma FiniteToInt(a: Bits)
    requires Unpack(a).Finite()
    ensures FloatToInt(a) == Clamp(Truncate(Unpack(a).Value()), INT_MIN, INT_MAX)
  {
    var u := Unpack(a);
    if !u.isZero {
      FloatRange(u.mant, u.exp);
      Pow2Constants();
      hide Unpack, Float, Pow2, Magnitude;
      var f := Float(u.mant, u.exp);
      if u.exp >= 0 {
        MagnitudeIsFloor(u.mant, u.exp);
        if u.exp >= 31 {
          assert f >= Pow2(31) as real;
        } else {
          assert f < Pow2(31) as real;
        }
      }
    }
  }

  /** __fixunssfsi: truncation toward zero, clamped to the 32-bit unsigned range. */
  function FloatToUint(a: Bits): int {
    var u := Unpack(a);
    if u.isNan then 0
    else if u.isZero then 0
    else if u.sign then 0
    else if u.isInf then UINT_MAX
    else if u.exp < 0 then 0
    else if u.exp >= 32 then UINT_MAX
    else Magnitude(u.mant, u.exp)
  }

  /** A NaN gives zero, an infinity the end of the range on its side, a number its integer part
      within the range. */
  lemma FloatToUintCorrect(a: Bits)
    ensures FloatToUint(a) == Clamped(Denotes(a), 0, UINT_MAX)
  {
    UnpackDenotes(a);
    hide Unpack, Denotes;
    if Unpack(a).Finite() {
      FiniteToUint(a);
    }
  }

  lemma FiniteToUint(a: Bits)
    requires Unpack(a).Finite()
    ensures FloatToUint(a) == Clamp(Truncate(Unpack(a).Value()), 0, UINT_MAX)
  {
    var u := Unpack(a);
    if !u.isZero {
      FloatRange(u.mant, u.exp);
      ValueSign(u);
      Pow2Constants();
      hide Unpack, Float, Pow2, Magnitude, Abs;
      var f := Float(u.mant, u.exp);
      if u.exp >= 0 {
        MagnitudeIsFloor(u.mant, u.exp);
        if u.exp >= 32 {
          assert f >= Pow2(32) as real;
        } else {
          assert f < Pow2(32) as real;
        }
      }
    }
  }
}
