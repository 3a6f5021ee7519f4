/** Rounding a positive real to 24 significant bits, nearest with ties to even:
    an order-theoretic definition that mentions no shift, guard or sticky bit. */
module Rounding {
  import opened PowersOfTwo

  const HIDDEN: int := 0x80_0000  // 2^23

  function Abs(x: real): (r: real)
    ensures r >= 0.0 && (r == x || r == -x)
  {
    if x < 0.0 then -x else x
  }

  predicate Significand(m: int) {
    HIDDEN <= m < 2 * HIDDEN
  }

  /** A product kept as one term, so that a proof can hide how it is computed. */
  function Times(x: real, y: real): (p: real) {
    x * y
  }

  /** The value m * 2^(e-23). */
  ghost function Float(m: int, e: int): (v: real) {
    Times(m as real, P2(e - 23))
  }

  /** No 24-bit float of any exponent is closer to x than Float(m, e), and on a tie with a
      different float the significand chosen is the even one. */
  ghost predicate NearestEven(x: real, m: int, e: int) {
    && Significand(m)
    && forall m', e' :: Significand(m') ==> NoCloser(x, m, e, m', e')
  }

  /** k is the nearest integer to q, ties to even. */
  ghost predicate NearestInteger(q: real, k: int) {
    && Abs(q - k as real) <= 0.5
    && (Abs(q - k as real) == 0.5 ==> k % 2 == 0)
  }

  lemma NearestIntegerBeats(q: real, k: int, j: int)
    requires NearestInteger(q, k)
    ensures Abs(q - k as real) <= Abs(q - j as real)
    ensures Abs(q - k as real) == Abs(q - j as real) ==> j == k || k % 2 == 0
  {
    if j > k {
      assert j as real >= k as real + 1.0;
    } else if j < k {
      assert j as real <= k as real - 1.0;
    }
  }

  /** Scaling distances by the unit in the last place. */
  lemma ScaledDistance(q: real, r: real, u: real)
    requires u > 0.0
    ensures Abs(Times(q, u) - Times(r, u)) == Times(Abs(q - r), u)
  {
    assert q * u - r * u == (q - r) * u;
    MulSign(q - r, u);
  }

  lemma MulSign(x: real, u: real)
    requires u > 0.0
    ensures x < 0.0 <==> x * u < 0.0
  {
  }

  lemma ScaleMonotone(x: real, y: real, u: real)
    requires u > 0.0
    ensures x <= y ==> Times(x, u) <= Times(y, u)
    ensures x < y ==> Times(x, u) < Times(y, u)
    ensures Times(x, u) == Times(y, u) ==> x == y
  {
  }

  lemma MulRegroup(m: int, u: real, p: nat)
    ensures m as real * (u * p as real) == (m * p) as real * u
  {
    assert (m * p) as real == m as real * p as real;
  }

  /** A float whose exponent is at least e is an integer multiple of 2^(e-23). */
  lemma CoarseFloatIsInteger(m: int, e: int, e': int)
    requires e <= e'
    ensures Float(m, e') == Times((m * Pow2(e' - e)) as real, P2(e - 23))
  {
    hide P2, Pow2;
    var n: nat := e' - e;
    P2Add(e - 23, n);
    P2OfNat(n);
    assert e - 23 + n == e' - 23;
    MulRegroup(m, P2(e - 23), Pow2(n));
  }

  lemma BelowHidden(m: int, u: real, w: real)
    requires Significand(m) && u > 0.0 && 2.0 * u <= w
    ensures m as real * u < HIDDEN as real * w
  {
    ScaleMonotone(m as real, 2.0 * HIDDEN as real, u);
    assert (2.0 * HIDDEN as real) * u == HIDDEN as real * (2.0 * u);
    assert HIDDEN as real * (2.0 * u) <= HIDDEN as real * w;
  }

  /** A float whose exponent is below e lies strictly below 2^e. */
  lemma FineFloatIsSmall(m: int, e: int, e': int)
    requires Significand(m) && e' < e
    ensures Float(m, e') < Times(HIDDEN as real, P2(e - 23))
  {
    hide P2;
    P2Monotone(e' - 23 + 1, e - 23);
    P2Succ(e' - 23);
    BelowHidden(m, P2(e' - 23), P2(e - 23));
  }

  /** The pair (significand, exponent) that stands for k * 2^(e-23). */
  function Renormalised(k: int, e: int): (int, int) {
    if k == 2 * HIDDEN then (HIDDEN, e + 1) else (k, e)
  }

  lemma RenormalisedValue(k: int, e: int)
    ensures Float(Renormalised(k, e).0, Renormalised(k, e).1) == Times(k as real, P2(e - 23))
  {
    P2Succ(e - 23);
  }

  /** Some rival float v is no closer to x than Float(m, e), and a tie means even or equal. */
  ghost predicate NoCloser(x: real, m: int, e: int, m': int, e': int) {
    && Abs(x - Float(m, e)) <= Abs(x - Float(m', e'))
    && (Abs(x - Float(m, e)) == Abs(x - Float(m', e')) ==> (m' == m && e' == e) || m % 2 == 0)
  }

  ghost predicate Scaled(q: real, k: int) {
    HIDDEN as real <= q < 2.0 * HIDDEN as real && NearestInteger(q, k) && HIDDEN <= k <= 2 * HIDDEN
  }

  /** Multiplying by u > 0 keeps the order of two distances from q. */
  lemma ScaledOrder(q: real, k: real, j: real, u: real)
    requires u > 0.0 && Abs(q - k) <= Abs(q - j)
    ensures Abs(Times(q, u) - Times(k, u)) <= Abs(Times(q, u) - Times(j, u))
    ensures Abs(Times(q, u) - Times(k, u)) == Abs(Times(q, u) - Times(j, u)) ==> Abs(q - k) == Abs(q - j)
  {
    hide Abs, Times;
    ScaledDistance(q, k, u);
    ScaledDistance(q, j, u);
    ScaleMonotone(Abs(q - k), Abs(q - j), u);
  }

  lemma CoarseRival(q: real, k: int, e: int, m': int, e': int)
    requires Scaled(q, k) && Significand(m') && e <= e'
    ensures NoCloser(Times(q, P2(e - 23)), Renormalised(k, e).0, Renormalised(k, e).1, m', e')
  {
    hide P2, Pow2, Float, Abs, Times;
    var j := m' * Pow2(e' - e);
    RenormalisedValue(k, e);
    CoarseFloatIsInteger(m', e, e');
    NearestIntegerBeats(q, k, j);
    ScaledOrder(q, k as real, j as real, P2(e - 23));
    if j == k {
      SameFloat(m', e' - e, k);
    }
  }

  lemma SameFloat(m: int, n: nat, k: int)
    requires Significand(m) && HIDDEN <= k <= 2 * HIDDEN
    requires m * Pow2(n) == k
    ensures (n == 0 && m == k) || (n == 1 && m == HIDDEN && k == 2 * HIDDEN)
  {
    if n > 0 {
      SameInteger(m, Pow2(n - 1), k);
    }
  }

  lemma CloserEnd(x: real, v: real, w: real)
    requires v < w <= x
    ensures Abs(x - w) < Abs(x - v)
  {
  }

  lemma FineRival(q: real, k: int, e: int, m': int, e': int)
    requires Scaled(q, k) && Significand(m') && e' < e
    ensures NoCloser(Times(q, P2(e - 23)), Renormalised(k, e).0, Renormalised(k, e).1, m', e')
  {
    hide P2, Float, Abs, Times;
    var u := P2(e - 23);
    RenormalisedValue(k, e);
    FineFloatIsSmall(m', e, e');
    NearestIntegerBeats(q, k, HIDDEN);
    ScaledOrder(q, k as real, HIDDEN as real, u);
    ScaleMonotone(HIDDEN as real, q, u);
    CloserEnd(Times(q, u), Float(m', e'), Times(HIDDEN as real, u));
  }

  lemma SameInteger(m: int, h: nat, k: int)
    requires Significand(m) && h >= 1
    requires m * (2 * h) == k <= 2 * HIDDEN
    ensures h == 1 && m == HIDDEN && k == 2 * HIDDEN
  {
    assert m * (2 * h) == 2 * (m * h);
    assert m * h == m + m * (h - 1);
    assert m * (h - 1) >= h - 1;
  }

  /** Rounding the scaled value to the nearest integer is rounding the value to 24 bits. */
  lemma NearestIntegerIsNearestFloat(q: real, k: int, e: int)
    requires HIDDEN as real <= q < 2.0 * HIDDEN as real
    requires NearestInteger(q, k)
    ensures HIDDEN <= k <= 2 * HIDDEN
    ensures NearestEven(Times(q, P2(e - 23)), Renormalised(k, e).0, Renormalised(k, e).1)
  {
    NearestIntegerBeats(q, k, HIDDEN);
    NearestIntegerBeats(q, k, 2 * HIDDEN);
    assert HIDDEN <= k <= 2 * HIDDEN;
    var (m, f) := Renormalised(k, e);
    var x := Times(q, P2(e - 23));
    forall m', e' | Significand(m')
      ensures NoCloser(x, m, f, m', e')
    {
      hide NoCloser;
      if e <= e' {
        CoarseRival(q, k, e, m', e');
      } else {
        FineRival(q, k, e, m', e');
      }
    }
  }

  /** At most one float is the nearest-even one, so NearestEven specifies a function of x. */
  lemma NearestEvenUnique(x: real, m: int, e: int, m': int, e': int)
    requires NearestEven(x, m, e) && NearestEven(x, m', e')
    ensures m == m' && e == e'
  {
    HigherExponentLoses(x, m, e, m', e');
    HigherExponentLoses(x, m', e', m, e);
    HigherSignificandLoses(x, m, m', e);
    HigherSignificandLoses(x, m', m, e);
  }

  lemma Between(x: real, v: real, w: real, z: real)
    requires v < w < z
    requires Abs(x - v) == Abs(x - z)
    ensures Abs(x - w) < Abs(x - v)
  {
  }

  lemma FloatOrder(m: int, m': int, e: int)
    requires m < m'
    ensures Float(m, e) < Float(m', e)
  {
    ScaleMonotone(m as real, m' as real, P2(e - 23));
  }

  lemma BinadeOrder(m: int, e: int, m': int, e': int)
    requires Significand(m) && Significand(m') && e < e'
    ensures Float(m, e) < Float(m', e')
  {
    FineFloatIsSmall(m, e', e);
    ScaleMonotone(HIDDEN as real, m' as real, P2(e' - 23));
  }

  /** Two equally near floats of one exponent would leave an odd one, closer, between them. */
  lemma HigherSignificandLoses(x: real, m: int, m': int, e: int)
    requires NearestEven(x, m, e)
    ensures NearestEven(x, m', e) ==> m' <= m
  {
    hide P2, Float, Abs, Times;
    if m < m' && NearestEven(x, m', e) {
      assert NoCloser(x, m, e, m', e) && NoCloser(x, m', e, m, e);
      assert NoCloser(x, m, e, m + 1, e);
      FloatOrder(m, m + 1, e);
      FloatOrder(m + 1, m', e);
      Between(x, Float(m, e), Float(m + 1, e), Float(m', e));
      assert false;
    }
  }

  /** Across exponents the largest significand of the lower binade is odd and lies between. */
  lemma HigherExponentLoses(x: real, m: int, e: int, m': int, e': int)
    requires NearestEven(x, m, e)
    ensures NearestEven(x, m', e') ==> e' <= e
  {
    hide P2, Float, Abs, Times;
    var top := 2 * HIDDEN - 1;
    if e < e' && NearestEven(x, m', e') {
      assert NoCloser(x, m, e, m', e') && NoCloser(x, m', e', m, e);
      assert NoCloser(x, m, e, top, e);
      FloatOrder(m, top, e);
      BinadeOrder(top, e, m', e');
      Between(x, Float(m, e), Float(top, e), Float(m', e'));
      assert false;
    }
  }
}
