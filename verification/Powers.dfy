/** Powers of two, whole and fractional. */
module Powers {

  function Pow2(n: nat): (p: nat)
    ensures p > 0
  {
    if n == 0 then 1 else 2 * Pow2(n - 1)
  }

  lemma {:induction false} Pow2Sum(a: nat, b: nat)
    ensures Pow2(a + b) == Pow2(a) * Pow2(b)
    decreases a
  {
    if a > 0 {
      Pow2Sum(a - 1, b);
      assert Pow2(a + b) == 2 * Pow2(a - 1 + b);
      assert 2 * (Pow2(a - 1) * Pow2(b)) == (2 * Pow2(a - 1)) * Pow2(b);
    }
  }

  lemma {:induction false} Pow2Grows(a: nat, b: nat)
    requires a <= b
    ensures Pow2(a) <= Pow2(b)
    decreases b
  {
    if a < b { Pow2Grows(a, b - 1); }
  }

  function Power(e: int): (p: real)
    ensures p > 0.0
    decreases if e < 0 then -e else e
  {
    if e == 0 then 1.0 else if e > 0 then 2.0 * Power(e - 1) else Power(e + 1) / 2.0
  }

  lemma PowerDoubles(e: int)
    ensures Power(e + 1) == 2.0 * Power(e)
  {}

  lemma {:induction false} PowerGrows(a: int, b: int)
    requires a <= b
    ensures Power(a) <= Power(b)
    decreases b - a
  {
    if a < b {
      PowerGrows(a, b - 1);
      PowerDoubles(b - 1);
    }
  }

  lemma {:induction false} PowerIsPow2(n: nat)
    ensures Power(n) == Pow2(n) as real
  {
    if n > 0 { PowerIsPow2(n - 1); }
  }

  lemma MulGrows(x: int, y: int, k: int)
    requires x <= y && 0 <= k
    ensures x * k <= y * k
  {}

  lemma RealMulGrows(x: real, y: real, k: real)
    requires x <= y && 0.0 <= k
    ensures x * k <= y * k
  {}

  lemma RealMulGrowsStrictly(x: real, y: real, k: real)
    requires x < y && 0.0 < k
    ensures x * k < y * k
  {}
}
