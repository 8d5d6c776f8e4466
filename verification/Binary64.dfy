/** Finite binary64 numbers as their sign, exponent field and fraction field, with their exact values. */
module Binary64 {
  import opened Orders
  import opened Powers

  const FRACTIONS: nat := 0x10_0000_0000_0000
  const MAX_EXPONENT: nat := 2046

  datatype Fields = Fields(negative: bool, exponent: nat, fraction: nat)

  type Float = x: Fields | x.exponent <= MAX_EXPONENT && x.fraction < FRACTIONS witness Fields(false, 0, 0)

  const I64_LIMIT: int := 0x8000_0000_0000_0000

  type I64 = i: int | -0x8000_0000_0000_0000 <= i < 0x8000_0000_0000_0000

  /** The significand, with its hidden bit unless the number is subnormal. */
  function Significand(x: Float): (m: nat)
    ensures m < 2 * FRACTIONS
  {
    if x.exponent == 0 then x.fraction else FRACTIONS + x.fraction
  }

  function Scale(x: Float): int {
    (if x.exponent == 0 then 1 else x.exponent) - 1075
  }

  function Magnitude(x: Float): real {
    Significand(x) as real * Power(Scale(x))
  }

  function Value(x: Float): real {
    if x.negative then -Magnitude(x) else Magnitude(x)
  }

  /** The magnitude bits read as one integer. */
  function MagnitudeBits(x: Float): int { x.exponent * FRACTIONS + x.fraction }

  /** The total order on bit patterns: negative patterns reversed, below the positive ones. */
  function TotalKey(x: Float): int {
    if x.negative then -MagnitudeBits(x) - 1 else MagnitudeBits(x)
  }

  function TotalCmp(a: Float, b: Float): Ordering { Cmp(TotalKey(a), TotalKey(b)) }

  /** The language order on finite floats: by value, so the two zeros are equal. */
  function PartialCmp(a: Float, b: Float): Ordering { CmpReal(Value(a), Value(b)) }

  // ------------------------------------------------- bit patterns and values

  lemma HalvedProduct(m: real, p: real)
    ensures (m / 2.0) * (2.0 * p) == m * p
  {}

  lemma ExponentRaises(x: Float, y: Float)
    requires x.exponent < y.exponent
    ensures Magnitude(x) < Magnitude(y)
  {
    var p, q, half := Power(Scale(x)), Power(Scale(y)), FRACTIONS as real;
    if x.exponent == 0 {
      PowerGrows(Scale(x), Scale(y));
      ProductBelow(Significand(x) as real, p, half, Significand(y) as real, q);
    } else {
      PowerGrows(Scale(x) + 1, Scale(y));
      PowerDoubles(Scale(x));
      HalvedProduct(Significand(x) as real, p);
      ProductBelow(Significand(x) as real / 2.0, 2.0 * p, half, Significand(y) as real, q);
    }
  }

  lemma ProductBelow(m: real, p: real, half: real, n: real, q: real)
    requires 0.0 <= m < half <= n && 0.0 < p <= q
    ensures m * p < n * q
  {
    assert m * p < half * p by { RealMulGrowsStrictly(m, half, p); }
    assert half * p <= half * q by { RealMulGrows(p, q, half); }
    assert half * q <= n * q by { RealMulGrows(half, n, q); }
  }

  /** Magnitudes are ordered as their bit patterns. */
  lemma MagnitudeFollowsBits(x: Float, y: Float)
    ensures CmpReal(Magnitude(x), Magnitude(y)) == Cmp(MagnitudeBits(x), MagnitudeBits(y))
  {
    if x.exponent < y.exponent {
      ExponentRaises(x, y);
    } else if y.exponent < x.exponent {
      ExponentRaises(y, x);
    } else {
      ProductFollows(Significand(x) as real, Significand(y) as real, Power(Scale(x)));
      assert Power(Scale(x)) == Power(Scale(y));
    }
  }

  lemma ProductFollows(m: real, n: real, p: real)
    requires 0.0 < p
    ensures CmpReal(m * p, n * p) == CmpReal(m, n)
  {
    if m < n { RealMulGrowsStrictly(m, n, p); }
    if n < m { RealMulGrowsStrictly(n, m, p); }
  }

  function Sign(x: Float): int { if x.negative then 0 else 1 }

  lemma MagnitudeSign(x: Float)
    ensures Magnitude(x) >= 0.0 && MagnitudeBits(x) >= 0
    ensures Magnitude(x) == 0.0 <==> MagnitudeBits(x) == 0
  {
    if Significand(x) > 0 { RealMulGrowsStrictly(0.0, Significand(x) as real, Power(Scale(x))); }
  }

  /** The total order is value first, then negative zero before positive zero; equal means the same bits. */
  lemma TotalCmpIsValueThenSign(x: Float, y: Float)
    ensures TotalCmp(x, y) == Then(CmpReal(Value(x), Value(y)), Cmp(Sign(x), Sign(y)))
    ensures TotalCmp(x, y) == Equal <==> x == y
  {
    MagnitudeFollowsBits(x, y);
    MagnitudeSign(x);
    MagnitudeSign(y);
  }

  // -------------------------------------------------------- mixed comparison

  function Abs(i: int): nat { if i < 0 then -i else i }

  /** Conversion of a float to an integer truncates toward zero. */
  function Truncated(v: real): int {
    if v < 0.0 then -(-v).Floor else v.Floor
  }

  /** How many low bits a 53-bit significand cannot keep. */
  function LostBits(n: nat): nat
    decreases n
  {
    if n < 2 * FRACTIONS then 0 else 1 + LostBits(n / 2)
  }

  /** Round to a multiple of `step`, ties to the even multiple. */
  function RoundedTo(n: nat, step: nat): int
    requires step > 0
  {
    var q, r := n / step, n % step;
    if 2 * r < step || (2 * r == step && q % 2 == 0) then q * step else (q + 1) * step
  }

  /** An integer converted to binary64: round to nearest, ties to even. */
  function Converted(i: int): int {
    var m := RoundedTo(Abs(i), Pow2(LostBits(Abs(i))));
    if i < 0 then -m else m
  }

  /** The runtime's comparison of an integer with a finite float. */
  function CompareIntFloat(i: I64, x: Float): Ordering {
    if Value(x) >= I64_LIMIT as real then Less
    else if Value(x) < -(I64_LIMIT as real) then Greater
    else Then(Cmp(i, Truncated(Value(x))), CmpReal(Converted(i) as real, Value(x)))
  }

  lemma {:induction false} LostBitsBound(n: nat)
    ensures LostBits(n) > 0 ==> n >= FRACTIONS * Pow2(LostBits(n))
    decreases n
  {
    if n >= 2 * FRACTIONS {
      LostBitsBound(n / 2);
      var k := LostBits(n / 2);
      if k > 0 {
        assert n >= 2 * (n / 2) >= 2 * (FRACTIONS * Pow2(k));
      } else {
        assert Pow2(1) == 2;
      }
      assert FRACTIONS * Pow2(k + 1) == 2 * (FRACTIONS * Pow2(k));
    }
  }

  lemma MultipleKept(n: nat, q: nat, step: nat)
    requires step > 0 && n == q * step
    ensures RoundedTo(n, step) == n
  {
    var d := n / step;
    assert n == d * step + n % step;
    if d < q { MulGrows(d + 1, q, step); }
    if q < d { MulGrows(q + 1, d, step); }
  }

  /** Integers whose significand fits in 53 bits convert exactly. */
  lemma ConvertedExactly(i: int, m: nat, t: nat)
    requires Abs(i) == m * Pow2(t) && m < 2 * FRACTIONS
    ensures Converted(i) == i
  {
    var n := Abs(i);
    var k := LostBits(n);
    if k == 0 {
      MultipleKept(n, n, Pow2(0));
    } else {
      KeptBits(n, m, t, k);
      FactorOut(m, t, k);
      MultipleKept(n, m * Pow2(t - k), Pow2(k));
    }
  }

  lemma FactorOut(m: nat, t: nat, k: nat)
    requires k <= t
    ensures m * Pow2(t) == (m * Pow2(t - k)) * Pow2(k)
  {
    Pow2Sum(t - k, k);
    assert m * (Pow2(t - k) * Pow2(k)) == (m * Pow2(t - k)) * Pow2(k);
  }

  lemma KeptBits(n: nat, m: nat, t: nat, k: nat)
    requires n == m * Pow2(t) && m < 2 * FRACTIONS && k == LostBits(n) && k > 0
    ensures k <= t
  {
    LostBitsBound(n);
    if t < k {
      MulGrows(m + 1, 2 * FRACTIONS, Pow2(t));
      assert (m + 1) * Pow2(t) == m * Pow2(t) + Pow2(t);
      assert 2 * FRACTIONS * Pow2(t) == FRACTIONS * Pow2(t + 1);
      Pow2Grows(t + 1, k);
      MulGrows(Pow2(t + 1), Pow2(k), FRACTIONS);
    }
  }

  /** A float with no fractional bits: its magnitude is a whole number with a 53-bit significand. */
  lemma WholeScale(x: Float)
    requires Scale(x) >= 0
    ensures Magnitude(x) == (Significand(x) * Pow2(Scale(x))) as real
  {
    PowerIsPow2(Scale(x));
  }

  /** A float with fractional bits has a magnitude under 2^53. */
  lemma SmallScale(x: Float)
    requires Scale(x) < 0
    ensures Magnitude(x) < (2 * FRACTIONS) as real
  {
    var p, m := Power(Scale(x)), Significand(x) as real;
    PowerGrows(Scale(x), 0);
    assert p <= 1.0;
    RealMulGrows(p, 1.0, m);
    assert m * p <= m;
  }

  /** The tie-break converts the integer exactly, whether the float is whole or fractional. */
  lemma TieConvertsExactly(x: Float, i: int)
    requires Truncated(Value(x)) == i
    ensures Converted(i) == i
  {
    assert Abs(i) == Magnitude(x).Floor;
    if Scale(x) >= 0 {
      WholeScale(x);
      ConvertedExactly(i, Significand(x), Scale(x));
    } else {
      SmallScale(x);
      ConvertedExactly(i, Abs(i), 0);
    }
  }

  /**
   Mixed comparison is exact: for every 64-bit integer and finite float it is the
   comparison of the two mathematical values, although it rounds the integer.
   */
  lemma MixedComparisonIsExact(i: I64, x: Float)
    ensures CompareIntFloat(i, x) == CmpReal(i as real, Value(x))
  {
    if i == Truncated(Value(x)) { TieConvertsExactly(x, i); }
  }

  // -------------------------------------------------------------- known values

  lemma {:induction false} PowerInverse(n: int)
    requires n >= 0
    ensures Power(n) * Power(-n) == 1.0
    decreases n
  {
    if n > 0 {
      PowerInverse(n - 1);
      assert Power(n) == 2.0 * Power(n - 1) && Power(-n) == Power(1 - n) / 2.0;
    }
  }

  lemma HiddenBit()
    ensures Power(52) == FRACTIONS as real
  {
    assert Pow2(13) == 0x2000;
    Pow2Sum(13, 13);
    Pow2Sum(26, 26);
    PowerIsPow2(52);
  }

  /** One, minus two, and the least positive number, from their fields. */
  lemma KnownValues()
    ensures Value(Fields(false, 1023, 0)) == 1.0
    ensures Value(Fields(true, 1024, 0)) == -2.0
    ensures Value(Fields(false, 0, 1)) == Power(-1074)
  {
    HiddenBit();
    PowerInverse(52);
    PowerDoubles(-52);
    assert Power(-51) == 2.0 * Power(-52);
  }
}
