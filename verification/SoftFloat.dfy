/** The binary32 format of the soft-float runtime: decoding, encoding and the shared
    normalise-round-pack routine.  Subnormals are flushed to signed zero on the way in and
    on the way out, the library's default mode. */
module SoftFloat {
  import opened PowersOfTwo
  import opened Rounding

  const SIGN_BIT: int := 0x8000_0000
  const EXP_MAX: int := 255
  const EXP_BIAS: int := 127
  const MANT_BITS: int := 23
  const CANONICAL_NAN: Bits := 0x7FC0_0000
  const POS_INF: Bits := 0x7F80_0000
  const NEG_INF: Bits := 0xFF80_0000
  const TWO64: int := 0x1_0000_0000_0000_0000

  type Bits = x: int | 0 <= x < 0x1_0000_0000

  datatype Unpacked = Unpacked(sign: bool, exp: int, mant: nat, isZero: bool, isInf: bool, isNan: bool) {
    predicate Finite() {
      !isInf && !isNan
    }

    /** A finite value with a normalised significand. */
    predicate Normal() {
      Finite() && !isZero && Significand(mant) && -126 <= exp <= 127
    }

    /** The real number denoted by a finite value. */
    ghost function Value(): (v: real)
      requires Finite()
    {
      if isZero then 0.0 else if sign then -Float(mant, exp) else Float(mant, exp)
    }
  }

  function Zero(sign: bool): Unpacked {
    Unpacked(sign, 0, 0, true, false, false)
  }

  function Infinity(sign: bool): Bits {
    if sign then NEG_INF else POS_INF
  }

  function SignedZero(sign: bool): Bits {
    if sign then SIGN_BIT else 0
  }

  function Unpack(bits: Bits): (u: Unpacked)
    ensures u.Finite() ==> u.isZero || u.Normal()
    ensures u.sign <==> bits >= SIGN_BIT
    ensures u.isInf <==> bits % SIGN_BIT == POS_INF
    ensures u.isNan <==> bits % SIGN_BIT > POS_INF
    ensures u.isZero <==> bits % SIGN_BIT < HIDDEN
  {
    var sign := bits / SIGN_BIT == 1;
    var biased := bits / HIDDEN % 256;
    var mant := bits % HIDDEN;
    if biased == EXP_MAX then
      Unpacked(sign, 0, 0, false, mant == 0, mant != 0)
    else if biased == 0 then
      Zero(sign)
    else
      Unpacked(sign, biased - EXP_BIAS, mant + HIDDEN, false, false, false)
  }

  /** What a pattern stands for. */
  datatype Datum = NotANumber | Infinite(negative: bool) | Number(value: real)

  /** The reading of IEEE 754, section 3.4, with subnormals taken as zero: sign, biased exponent and
      fraction, the largest exponent kept for infinities and NaNs. */
  ghost function Denotes(bits: Bits): Datum {
    var magnitude := bits % SIGN_BIT;
    if magnitude > POS_INF then NotANumber
    else if magnitude == POS_INF then Infinite(bits >= SIGN_BIT)
    else if magnitude < HIDDEN then Number(0.0)
    else
      var x := Float(HIDDEN + magnitude % HIDDEN, magnitude / HIDDEN - 127);
      Number(if bits >= SIGN_BIT then -x else x)
  }

  lemma UnpackDenotes(bits: Bits)
    ensures var u := Unpack(bits);
            Denotes(bits) == if u.isNan then NotANumber else if u.isInf then Infinite(u.sign) else Number(u.Value())
  {
    var u, magnitude := Unpack(bits), bits % SIGN_BIT;
    if u.Normal() {
      assert magnitude == (u.exp + 127) * HIDDEN + (u.mant - HIDDEN);
      assert magnitude / HIDDEN == u.exp + 127 && magnitude % HIDDEN == u.mant - HIDDEN;
    }
  }

  function Pack(u: Unpacked): (bits: Bits)
    ensures u.isNan ==> bits == CANONICAL_NAN
    ensures u.Normal() ==> Unpack(bits) == u
  {
    if u.isNan then CANONICAL_NAN
    else if u.isInf then Infinity(u.sign)
    else if u.isZero then SignedZero(u.sign)
    else
      var biased := u.exp + EXP_BIAS;
      if biased >= EXP_MAX then Infinity(u.sign)
      else if biased <= 0 then SignedZero(u.sign)
      else (if u.sign then SIGN_BIT else 0) + biased * HIDDEN + u.mant % HIDDEN
  }

  /** Packing undoes unpacking, up to the NaN payload and the flush of subnormals. */
  lemma PackUnpack(bits: Bits)
    ensures var u := Unpack(bits);
            Pack(u) == if u.isNan then CANONICAL_NAN else if u.isZero then SignedZero(u.sign) else bits
  {
  }

  /** What the format holds for the float m * 2^(e-23): an infinity above the largest exponent,
      a signed zero below the smallest normal one, otherwise exactly that float. */
  predicate Delivers(bits: Bits, sign: bool, m: int, e: int) {
    if e > 127 then bits == Infinity(sign)
    else if e < -126 then bits == SignedZero(sign)
    else m >= 0 && Unpack(bits) == Unpacked(sign, e, m, false, false, false)
  }

  lemma PackDelivers(sign: bool, m: int, e: int)
    requires Significand(m)
    ensures Delivers(Pack(Unpacked(sign, e, m, false, false, false)), sign, m, e)
  {
  }

  /** bits is the magnitude x > 0 correctly rounded, with the given sign. */
  ghost predicate RoundsTo(sign: bool, x: real, bits: Bits) {
    exists m, e :: NearestEven(x, m, e) && Delivers(bits, sign, m, e)
  }

  /** bits is the nonzero real x correctly rounded. */
  ghost predicate CorrectlyRounded(x: real, bits: Bits) {
    RoundsTo(x < 0.0, Abs(x), bits)
  }

  /** Correct rounding leaves one possible result. */
  lemma CorrectlyRoundedUnique(x: real, r: Bits, r': Bits)
    requires CorrectlyRounded(x, r) && CorrectlyRounded(x, r')
    ensures r == r'
  {
    var m, e :| NearestEven(Abs(x), m, e) && Delivers(r, x < 0.0, m, e);
    var m', e' :| NearestEven(Abs(x), m', e') && Delivers(r', x < 0.0, m', e');
    NearestEvenUnique(Abs(x), m, e, m', e');
    if -126 <= e <= 127 {
      PackUnpack(r);
      PackUnpack(r');
    }
  }

  /** A float is its own nearest float. */
  lemma FloatRoundsToItself(m: int, e: int)
    requires Significand(m)
    ensures NearestEven(Float(m, e), m, e)
  {
    NearestIntegerIsNearestFloat(m as real, m, e);
  }

  // ---- The wide significand and the exact value it stands for ----

  /** The wide significand w either equals the exact x or is an odd multiple of g less than g
      away from it: the lost bits are in the sticky position. */
  ghost predicate Tracks(w: int, x: real, g: int) {
    || w as real == x
    || OddlyNear(w, x, g)
  }

  ghost predicate OddlyNear(w: int, x: real, g: int) {
    && OddMultiple(w, g)
    && (w - g) as real < x < (w + g) as real
  }

  predicate OddMultiple(w: int, g: int) {
    g > 0 && w % (2 * g) == g
  }

  predicate EvenMultiple(w: int, g: int) {
    g > 0 && w % (2 * g) == 0
  }

  /** Where an exact x sits relative to the halfway mark of its unit, in terms of the round
      and sticky bits of its representative. */
  ghost predicate Placed(d: real, half: int, round: bool, sticky: bool) {
    && (!round ==> 0.0 <= d < half as real)
    && (round && !sticky ==> d == half as real)
    && (round && sticky ==> half as real < d < 2.0 * half as real)
  }

  lemma MultipleOrder(a: int, b: int, g: int)
    requires g > 0
    ensures a <= b <==> a * g <= b * g
  {
    if a < b {
      assert (b - a) * g > 0;
    } else if b < a {
      assert (a - b) * g > 0;
    }
  }

  /** Division with remainder is unique. */
  lemma QuotientUnique(n: int, q: int, r: int, w: int)
    requires n > 0 && 0 <= r < n && w == q * n + r
    ensures w / n == q && w % n == r
  {
    var q', r' := w / n, w % n;
    assert w == q' * n + r' by {
      assert w == n * q' + r';
    }
    assert (q - q') * n == r' - r;
    MultipleOrder(1, q - q', n);
    MultipleOrder(q - q', -1, n);
  }

  /** An odd multiple of g is at least g away from every multiple of 2g. */
  lemma OddMultipleGap(r: int, c: int, g: int)
    requires OddMultiple(r, g) && EvenMultiple(c, g)
    ensures r != c
    ensures r < c ==> r + g <= c
    ensures r > c ==> c + g <= r
  {
    var n := 2 * g;
    var a, b := r / n, c / n;
    assert r == a * n + g by {
      assert r == n * a + g;
    }
    assert c == b * n by {
      assert c == n * b + 0;
    }
    MultipleOrder(a + 1, b, n);
    MultipleOrder(b, a, n);
    assert (a + 1) * n == a * n + n;
  }

  lemma SameOddness(w: int, k: int, half: int, r: int, g: int)
    requires EvenMultiple(half, g) && w == k * (2 * half) + r
    ensures OddMultiple(r, g) == OddMultiple(w, g) && EvenMultiple(r, g) == EvenMultiple(w, g)
  {
    var n := 2 * g;
    var b, q := half / n, r / n;
    assert half == b * n by {
      assert half == n * b + 0;
    }
    assert r == q * n + r % n by {
      assert r == n * q + r % n;
    }
    assert k * (2 * half) == (2 * k * b) * n;
    assert w == (2 * k * b + q) * n + r % n;
    QuotientUnique(n, 2 * k * b + q, r % n, w);
  }

  lemma RemainderOfHalf(r: int, half: int)
    requires half > 0 && 0 <= r < 2 * half
    ensures r % half != 0 <==> r != 0 && r != half
  {
    QuotientUnique(half, if r < half then 0 else 1, if r < half then r else r - half, r);
  }

  lemma EvenMultiples(half: int, g: int)
    requires EvenMultiple(half, g)
    ensures EvenMultiple(0, g) && EvenMultiple(2 * half, g)
  {
    SameOddness(2 * half, 1, half, 0, g);
    QuotientUnique(2 * g, 0, 0, 0);
  }

  /** The whole open interval of radius g around an odd multiple of g lies on one side of the
      halfway mark, so the bits of w decide correctly even when w is only a representative. */
  lemma StickyIsHarmless(w: int, x: real, g: int, half: int, k: int, r: int)
    requires OddlyNear(w, x, g) && half > 0 && EvenMultiple(half, g)
    requires w == k * (2 * half) + r && 0 <= r < 2 * half
    ensures Placed(x - (k * (2 * half)) as real, half, r >= half, r % half != 0)
    ensures 0.0 <= x - (k * (2 * half)) as real < 2.0 * half as real
  {
    hide OddMultiple, EvenMultiple;
    SameOddness(w, k, half, r, g);
    EvenMultiples(half, g);
    OddMultipleGap(r, half, g);
    OddMultipleGap(r, 0, g);
    OddMultipleGap(r, 2 * half, g);
    RemainderOfHalf(r, half);
  }

  /** An exactly represented value is placed by its own bits. */
  lemma ExactIsPlaced(w: int, half: int, k: int, r: int)
    requires half > 0 && w == k * (2 * half) + r && 0 <= r < 2 * half
    ensures Placed(w as real - (k * (2 * half)) as real, half, r >= half, r % half != 0)
  {
    RemainderOfHalf(r, half);
  }

  /** The round-to-even decision: add one when the round bit is set and either the sticky bit
      is set or the significand is odd. */
  function RoundUp(k: int, round: bool, sticky: bool): int {
    if round && (sticky || k % 2 == 1) then k + 1 else k
  }

  lemma PlacedDecides(k: int, f: real, d: real, half: int, round: bool, sticky: bool)
    requires half > 0 && Placed(d, half, round, sticky)
    requires f * (2.0 * half as real) == d
    ensures NearestInteger(k as real + f, RoundUp(k, round, sticky))
  {
    var n := 2.0 * half as real;
    assert 0.5 * n == half as real;
    FractionOrder(f, n, d);
    var q := k as real + f;
    if round && (sticky || k % 2 == 1) {
      assert q - (k + 1) as real == f - 1.0;
    } else {
      assert q - k as real == f;
    }
  }

  lemma FractionOrder(f: real, n: real, d: real)
    requires n > 0.0 && f * n == d
    ensures 0.0 <= d <==> 0.0 <= f
    ensures d < 0.5 * n <==> f < 0.5
    ensures d == 0.5 * n <==> f == 0.5
    ensures d < n <==> f < 1.0
  {
    hide Times;
    ScaleMonotone(0.0, f, n);
    ScaleMonotone(f, 0.0, n);
    ScaleMonotone(f, 0.5, n);
    ScaleMonotone(0.5, f, n);
    ScaleMonotone(f, 1.0, n);
    ScaleMonotone(1.0, f, n);
    TimesIs(f, n);
    TimesIs(0.0, n);
    TimesIs(0.5, n);
    TimesIs(1.0, n);
  }

  lemma TimesIs(x: real, y: real)
    ensures Times(x, y) == x * y
  {
  }

  // ---- sfp_round_normal ----

  /** x * 2^e and y * 2^f are the same number. */
  ghost predicate SameValue(x: real, e: int, y: real, f: int) {
    Times(x, P2(e)) == Times(y, P2(f))
  }

  lemma SameValueScaled(x: real, e: int, y: real, f: int, c: int)
    requires SameValue(x, e, y, f)
    ensures SameValue(x, e + c, y, f + c)
  {
    hide P2;
    P2Add(e, c);
    P2Add(f, c);
    assert x * (P2(e) * P2(c)) == (x * P2(e)) * P2(c);
    assert y * (P2(f) * P2(c)) == (y * P2(f)) * P2(c);
  }

  lemma SameValueDouble(x: real, e: int)
    ensures SameValue(2.0 * x, e - 1, x, e)
  {
    hide P2;
    P2Succ(e - 1);
    assert (2.0 * x) * P2(e - 1) == x * (2.0 * P2(e - 1));
  }

  /** w and e after i left shifts of the input significand. */
  ghost predicate Aligned(wide: int, exact: real, exp: int, w: int, x: real, e: int, i: nat) {
    && w == wide * Pow2(i)
    && e == exp - i
    && SameValue(x, e, exact, exp)
    && Tracks(w, x, Pow2(i))
  }

  lemma TracksDouble(w: int, x: real, g: int)
    requires Tracks(w, x, g)
    ensures Tracks(2 * w, 2.0 * x, 2 * g)
  {
    if w as real != x {
      var n := 2 * g;
      var a := w / n;
      assert w == a * n + g by {
        assert w == n * a + g;
      }
      assert 2 * w == a * (2 * n) + n;
      QuotientUnique(2 * n, a, n, 2 * w);
    }
  }

  lemma AlignStep(wide: int, exact: real, exp: int, w: int, x: real, e: int, i: nat)
    requires Aligned(wide, exact, exp, w, x, e, i)
    ensures Aligned(wide, exact, exp, 2 * w, 2.0 * x, e - 1, i + 1)
  {
    hide P2, Times;
    TracksDouble(w, x, Pow2(i));
    SameValueDouble(x, e);
    assert wide * (2 * Pow2(i)) == 2 * (wide * Pow2(i));
  }

  /** Setting the lowest bit of w. */
  function OrLow(w: int, low: int): int {
    if low == 1 && w % 2 == 0 then w + 1 else w
  }

  lemma DrainStep(w: int, x: real)
    requires Tracks(w, x, 1)
    ensures Tracks(OrLow(w / 2, w % 2), x / 2.0, 1)
  {
  }

  /** The state of a right-shifting run: sticky at the bottom bit, value unchanged. */
  ghost predicate Drained(exact: real, exp: int, w: int, x: real, e: int) {
    Tracks(w, x, 1) && SameValue(x, e, exact, exp)
  }

  lemma DrainKeeps(exact: real, exp: int, w: int, x: real, e: int)
    requires Drained(exact, exp, w, x, e)
    ensures Drained(exact, exp, OrLow(w / 2, w % 2), x / 2.0, e + 1)
  {
    hide P2, Times;
    DrainStep(w, x);
    SameValueDouble(x / 2.0, e + 1);
  }

  /** wide stands for exact: equal, or odd and within one of it, with enough bits above the
      sticky position for the left shifts normalisation may need. */
  ghost predicate Stands(wide: int, exact: real, shift: int) {
    wide as real == exact || (wide >= Pow2(25) && shift >= 2 && OddlyNear(wide, exact, 1))
  }

  lemma FewShifts(wide: int, w: int, i: nat, shift: nat)
    requires wide >= Pow2(25) && w == wide * Pow2(i) && w < Pow2(24 + shift)
    ensures i + 2 <= shift
  {
    hide Pow2;
    if i + 2 > shift {
      Pow2Add(25, i);
      Pow2Monotone(24 + shift, 25 + i);
      MultipleOrder(Pow2(25), wide, Pow2(i));
      assert false;
    }
  }

  lemma HalfIsEven(i: nat, shift: nat)
    requires i + 2 <= shift
    ensures EvenMultiple(Pow2(shift - 1), Pow2(i))
  {
    var g, h := Pow2(i), Pow2(shift - 2 - i);
    Pow2Add(i + 1, shift - 2 - i);
    assert Pow2(shift - 1) == h * (2 * g);
    QuotientUnique(2 * g, h, 0, Pow2(shift - 1));
  }

  /** Everything the rounding step needs to know about the normalised significand. */
  ghost predicate Ready(w: int, x: real, shift: nat) {
    && shift >= 1
    && Pow2(23 + shift) <= w < Pow2(24 + shift)
    && (w as real == x || exists g :: OddlyNear(w, x, g) && EvenMultiple(Pow2(shift - 1), g))
  }

  lemma AlignedIsReady(wide: int, exact: real, exp: int, w: int, x: real, e: int, i: nat, shift: nat)
    requires Aligned(wide, exact, exp, w, x, e, i) && Stands(wide, exact, shift) && shift >= 1
    requires Pow2(23 + shift) <= w < Pow2(24 + shift)
    requires wide as real == exact ==> w as real == x
    ensures Ready(w, x, shift)
  {
    if w as real != x {
      FewShifts(wide, w, i, shift);
      HalfIsEven(i, shift);
    }
  }

  lemma BitsOfRemainder(w: int, half: int)
    requires half > 0
    ensures var k, r := w / (2 * half), w % (2 * half);
            && w == k * (2 * half) + r && 0 <= r < 2 * half
            && ((w / half) % 2 == 1 <==> r >= half)
            && w % half == r % half
  {
    var k, r := w / (2 * half), w % (2 * half);
    assert w == k * (2 * half) + r by {
      assert w == (2 * half) * k + r;
    }
    assert k * (2 * half) == (2 * k) * half;
    if r < half {
      QuotientUnique(half, 2 * k, r, w);
      QuotientUnique(half, 0, r, r);
    } else {
      assert (2 * k + 1) * half == (2 * k) * half + half;
      QuotientUnique(half, 2 * k + 1, r - half, w);
      QuotientUnique(half, 1, r - half, r);
    }
  }

  lemma TopBits(w: int, k: int, r: int, n: int)
    requires n > 0 && w == k * n + r && 0 <= r < n
    requires HIDDEN * n <= w < (2 * HIDDEN) * n
    ensures HIDDEN <= k < 2 * HIDDEN
  {
    MultipleOrder(k + 1, HIDDEN, n);
    MultipleOrder(2 * HIDDEN, k, n);
    assert (k + 1) * n == k * n + n;
  }

  lemma ReadyPlaced(w: int, x: real, shift: nat)
    requires Ready(w, x, shift)
    ensures var half := Pow2(shift - 1);
            var k := w / (2 * half);
            && HIDDEN <= k < 2 * HIDDEN
            && Placed(x - (k * (2 * half)) as real, half, (w / half) % 2 == 1, w % half != 0)
            && 0.0 <= x - (k * (2 * half)) as real < 2.0 * half as real
  {
    hide OddMultiple, EvenMultiple, Pow2;
    var half := Pow2(shift - 1);
    BitsOfRemainder(w, half);
    var k, r := w / (2 * half), w % (2 * half);
    PowerSplit(shift);
    TopBits(w, k, r, 2 * half);
    if w as real == x {
      ExactIsPlaced(w, half, k, r);
    } else {
      var g :| OddlyNear(w, x, g) && EvenMultiple(half, g);
      StickyIsHarmless(w, x, g, half, k, r);
    }
  }

  lemma PowerSplit(shift: nat)
    requires shift >= 1
    ensures Pow2(shift) == 2 * Pow2(shift - 1)
    ensures Pow2(23 + shift) == HIDDEN * (2 * Pow2(shift - 1))
    ensures Pow2(24 + shift) == (2 * HIDDEN) * (2 * Pow2(shift - 1))
  {
    Pow2Constants();
    Pow2Add(23, shift);
    Pow2Add(24, shift);
  }

  /** The significand and exponent the code packs are the nearest-even ones. */
  lemma RoundOff(w: int, x: real, e: int, shift: nat)
    requires Ready(w, x, shift)
    ensures var half := Pow2(shift - 1);
            var k := RoundUp(w / (2 * half), (w / half) % 2 == 1, w % half != 0);
            && HIDDEN <= k <= 2 * HIDDEN
            && NearestEven(Times(x, P2(e - 23 - shift)), Renormalised(k, e).0, Renormalised(k, e).1)
  {
    hide Pow2, Placed;
    assert shift >= 1;
    hide Ready;
    var half := Pow2(shift - 1);
    ReadyPlaced(w, x, shift);
    PlacedRounds(x, e, shift, half, w / (2 * half), (w / half) % 2 == 1, w % half != 0);
  }

  lemma PlacedRounds(x: real, e: int, shift: nat, half: int, k: int, round: bool, sticky: bool)
    requires shift >= 1 && half == Pow2(shift - 1)
    requires HIDDEN <= k < 2 * HIDDEN
    requires Placed(x - (k * (2 * half)) as real, half, round, sticky)
    requires 0.0 <= x - (k * (2 * half)) as real < 2.0 * half as real
    ensures var k' := RoundUp(k, round, sticky);
            && HIDDEN <= k' <= 2 * HIDDEN
            && NearestEven(Times(x, P2(e - 23 - shift)), Renormalised(k', e).0, Renormalised(k', e).1)
  {
    hide Pow2, P2, NearestEven, NearestInteger, Placed, RoundUp, Renormalised, Times;
    var d := x - (k * (2 * half)) as real;
    var f := Fraction(x, k, half, d);
    PlacedDecides(k, f, d, half, round, sticky);
    NearestIntegerIsNearestFloat(k as real + f, RoundUp(k, round, sticky), e);
    ScaleBack(x, k as real + f, e, shift);
  }

  lemma Fraction(x: real, k: int, half: int, d: real) returns (f: real)
    requires half > 0 && d == x - (k * (2 * half)) as real
    requires 0.0 <= d < 2.0 * half as real
    ensures 0.0 <= f < 1.0
    ensures f * (2.0 * half as real) == d
    ensures Times(k as real + f, 2.0 * half as real) == x
  {
    var n := 2.0 * half as real;
    f := DivideReal(d, n);
    FractionOrder(f, n, d);
    FractionSum(k as real, f, n, d);
    assert (k * (2 * half)) as real == k as real * n;
  }

  lemma DivideReal(d: real, n: real) returns (f: real)
    requires n > 0.0
    ensures f * n == d
  {
    f := d / n;
  }

  lemma FractionSum(k: real, f: real, n: real, d: real)
    requires f * n == d
    ensures (k + f) * n == k * n + d
  {
  }

  lemma ScaleBack(x: real, q: real, e: int, shift: nat)
    requires shift >= 1 && Times(q, 2.0 * Pow2(shift - 1) as real) == x
    ensures Times(x, P2(e - 23 - shift)) == Times(q, P2(e - 23))
  {
    hide P2;
    PowerSplit(shift);
    P2OfNat(shift);
    P2Add(e - 23 - shift, shift);
    Regroup(q, P2(shift), P2(e - 23 - shift));
  }

  lemma Regroup(q: real, n: real, u: real)
    ensures (q * n) * u == q * (u * n)
  {
  }

  lemma BelowTop(w: int, n: int)
    requires w >= 0 && n > 0
    ensures w / n == 0 <==> w < n
  {
    if w < n {
      QuotientUnique(n, 0, w, w);
    } else {
      assert w == n * (w / n) + w % n;
    }
  }

  lemma ShiftsFitGuard(wide: int, w: int, i: nat, top: nat)
    requires wide >= 1 && w == wide * Pow2(i) && w < Pow2(top)
    ensures i < top
  {
    hide Pow2;
    if i >= top {
      Pow2Monotone(top, i);
      MultipleOrder(1, wide, Pow2(i));
      assert false;
    }
  }

  lemma ShiftRange(shift: nat)
    requires 1 <= shift <= 39
    ensures Pow2(23 + shift) <= Pow2(62) && Pow2(24 + shift) == 2 * Pow2(23 + shift) && 2 * Pow2(62) < TWO64
  {
    Pow2Monotone(23 + shift, 62);
    Pow2Constants();
    Pow2Add(31, 31);
  }

  lemma AlignStart(wide: int, exact: real, exp: int, shift: int)
    requires Stands(wide, exact, shift)
    ensures Aligned(wide, exact, exp, wide, exact, exp, 0)
    ensures Drained(exact, exp, wide, exact, exp)
  {
    assert Pow2(0) == 1;
  }

  lemma DrainedIsReady(exact: real, exp: int, w: int, x: real, e: int, shift: nat)
    requires Drained(exact, exp, w, x, e) && shift >= 1
    requires Pow2(23 + shift) <= w < Pow2(24 + shift)
    requires w as real == x || shift >= 2
    ensures Ready(w, x, shift)
  {
    if w as real != x {
      HalfIsEven(0, shift);
      assert Pow2(0) == 1;
    }
  }

  /** The left-shifting loop: bring the leading one up to bit 23 + shift.  The 64-step guard
      never cuts it short. */
  method ShiftUp(exp: int, wide: int, shift: int, ghost exact: real)
    returns (w: int, e: int, ghost x: real, ghost i: nat)
    requires 1 <= shift <= 39 && 0 < wide < TWO64
    requires Stands(wide, exact, shift)
    ensures Pow2(23 + shift) <= w < TWO64
    ensures Aligned(wide, exact, exp, w, x, e, i)
    ensures w < Pow2(24 + shift) || (w == wide && x == exact && e == exp && i == 0)
    ensures wide as real == exact ==> w as real == x
  {
    hide Pow2, P2, Times, Stands, Aligned, Tracks, SameValue;
    var top := MANT_BITS + shift;
    var guard := 64;
    w, e, x, i := wide, exp, exact, 0;
    ShiftRange(shift);
    AlignStart(wide, exact, exp, shift);
    BelowTop(w, Pow2(top));
    while w / Pow2(top) == 0 && guard > 0
      invariant i <= top && guard == 64 - i
      invariant 0 < w < TWO64
      invariant Aligned(wide, exact, exp, w, x, e, i)
      invariant w < Pow2(top + 1) || (w == wide && x == exact && e == exp && i == 0)
      invariant wide as real == exact ==> w as real == x
      invariant w / Pow2(top) == 0 <==> w < Pow2(top)
    {
      AlignedProduct(wide, exact, exp, w, x, e, i);
      ShiftsFitGuard(wide, w, i, top);
      AlignStep(wide, exact, exp, w, x, e, i);
      guard := guard - 1;
      w, x, e, i := (2 * w) % TWO64, 2.0 * x, e - 1, i + 1;
      BelowTop(w, Pow2(top));
    }
  }

  lemma AlignedProduct(wide: int, exact: real, exp: int, w: int, x: real, e: int, i: nat)
    requires Aligned(wide, exact, exp, w, x, e, i)
    ensures w == wide * Pow2(i)
  {
  }

  /** The right-shifting loop: bring an oversized significand down, keeping every bit shifted
      out as a sticky bottom bit. */
  method DrainDown(exp: int, wide: int, shift: int, ghost exact: real)
    returns (w: int, e: int, ghost x: real)
    requires 1 <= shift <= 39 && Pow2(23 + shift) <= wide < TWO64
    requires Pow2(24 + shift) <= wide ==> Tracks(wide, exact, 1)
    ensures Pow2(23 + shift) <= w < Pow2(24 + shift)
    ensures Pow2(24 + shift) <= wide ==> Drained(exact, exp, w, x, e)
    ensures wide < Pow2(24 + shift) ==> w == wide && x == exact && e == exp
  {
    hide Pow2, P2, Times, Tracks;
    var top := MANT_BITS + shift;
    w, e, x := wide, exp, exact;
    ShiftRange(shift);
    BelowTop(w, Pow2(top + 1));
    while w / Pow2(top + 1) != 0
      invariant Pow2(top) <= w < TWO64
      invariant Pow2(top + 1) <= wide ==> Drained(exact, exp, w, x, e)
      invariant wide < Pow2(top + 1) ==> w == wide && x == exact && e == exp
      invariant w / Pow2(top + 1) == 0 <==> w < Pow2(top + 1)
      decreases w
    {
      DrainKeeps(exact, exp, w, x, e);
      var low := w % 2;
      w := w / 2;
      w := OrLow(w, low);
      x, e := x / 2.0, e + 1;
      BelowTop(w, Pow2(top + 1));
    }
  }

  lemma NormalisedIsReady(wide: int, exact: real, exp: int, i: nat, w1: int, x1: real, e1: int,
                          w: int, x: real, e: int, shift: nat)
    requires 2 <= shift && Stands(wide, exact, shift)
    requires Aligned(wide, exact, exp, w1, x1, e1, i)
    requires wide as real == exact ==> w1 as real == x1
    requires w1 < Pow2(24 + shift) || (w1 == wide && x1 == exact && e1 == exp && i == 0)
    requires Pow2(24 + shift) <= w1 ==> Drained(x1, e1, w, x, e)
    requires w1 < Pow2(24 + shift) ==> w == w1 && x == x1 && e == e1
    requires Pow2(23 + shift) <= w < Pow2(24 + shift)
    ensures Ready(w, x, shift) && SameValue(x, e, exact, exp)
  {
    hide Pow2, P2, Times, Ready, Stands;
    if w1 < Pow2(24 + shift) {
      AlignedIsReady(wide, exact, exp, w1, x1, e1, i, shift);
    } else {
      DrainedIsReady(x1, e1, w, x, e, shift);
    }
  }

  lemma StandsTracks(wide: int, exact: real, shift: int)
    requires Stands(wide, exact, shift)
    ensures Tracks(wide, exact, 1)
  {
  }

  lemma RoundedPacks(sign: bool, w: int, x: real, e: int, shift: nat, exact: real, exp: int)
    requires Ready(w, x, shift) && SameValue(x, e, exact, exp)
    ensures var half := Pow2(shift - 1);
            var k := RoundUp(w / (2 * half), (w / half) % 2 == 1, w % half != 0);
            && HIDDEN <= k <= 2 * HIDDEN
            && var (m, f) := Renormalised(k, e);
            && RoundsTo(sign, Times(exact, P2(exp - 23 - shift)), Pack(Unpacked(sign, f, m, false, false, false)))
  {
    assert shift >= 1;
    hide Pow2, P2, Times, Ready, NearestEven, Pack;
    var half := Pow2(shift - 1);
    var k := RoundUp(w / (2 * half), (w / half) % 2 == 1, w % half != 0);
    RoundOff(w, x, e, shift);
    SameValueScaled(x, e, exact, exp, -23 - shift);
    assert e + (-23 - shift) == e - 23 - shift && exp + (-23 - shift) == exp - 23 - shift;
    var (m, f) := Renormalised(k, e);
    PackDelivers(sign, m, f);
  }

  /** Add one when rounding up; a carry out of bit 23 halves the significand and bumps the
      exponent. */
  method ApplyRounding(mant24: int, e: int, round: bool, sticky: bool) returns (mant: int, exp: int)
    requires mant24 < 2 * HIDDEN
    ensures (mant, exp) == Renormalised(RoundUp(mant24, round, sticky), e)
  {
    mant, exp := mant24, e;
    if round && (sticky || mant % 2 == 1) {
      mant := mant + 1;
      if mant == 2 * HIDDEN {
        mant := mant / 2;
        exp := exp + 1;
      }
    }
  }

  lemma TopBitsOf(w: int, x: real, shift: nat)
    requires Ready(w, x, shift)
    ensures w / (2 * Pow2(shift - 1)) < 2 * HIDDEN
  {
    ReadyPlaced(w, x, shift);
  }

  /** Round a wide significand to 24 bits, nearest even, and pack.  `exact` is the real number
      that `wide` stands for, with bit 23 + shift worth 2^exp. */
  method RoundNormal(sign: bool, exp: int, wide: int, shift: int, ghost exact: real) returns (bits: Bits)
    requires 2 <= shift <= 39 && 0 <= wide < TWO64
    requires wide != 0 ==> Stands(wide, exact, shift)
    ensures wide == 0 ==> bits == SignedZero(sign)
    ensures wide != 0 ==> RoundsTo(sign, Times(exact, P2(exp - 23 - shift)), bits)
  {
    if wide == 0 {
      return Pack(Zero(sign).(exp := exp));
    }
    hide *;
    StandsTracks(wide, exact, shift);
    var w1, e1, x1, i := ShiftUp(exp, wide, shift, exact);
    var w, e, x := DrainDown(e1, w1, shift, x1);
    NormalisedIsReady(wide, exact, exp, i, w1, x1, e1, w, x, e, shift);
    RoundedPacks(sign, w, x, e, shift, exact, exp);
    TopBitsOf(w, x, shift);
    var half := Pow2(shift - 1);
    var mant24 := w / (2 * half);
    var mant, exp' := ApplyRounding(mant24, e, (w / half) % 2 == 1, w % half != 0);
    RenormalisedRange(RoundUp(mant24, (w / half) % 2 == 1, w % half != 0), e);
    bits := Pack(Unpacked(sign, exp', mant, false, false, false));
  }

  lemma RenormalisedRange(k: int, e: int)
    ensures HIDDEN <= k <= 2 * HIDDEN ==> Significand(Renormalised(k, e).0) && Renormalised(k, e).0 >= 0
  {
  }
}
