/** Numbers as bit sequences, and the byte swap that turns one byte order into the other. */
module BitNumbers {
  import opened Powers
  import opened Bitstrings

  /** The low `n` bits of a number, most significant first. */
  function BigBits(v: nat, n: nat): (bits: seq<int>)
    ensures |bits| == n
  {
    seq(n, i requires 0 <= i < n => v / Pow2(n - 1 - i) % 2)
  }

  /** The number a bit sequence spells, most significant bit first. */
  function Num(bits: seq<int>): int {
    if bits == [] then 0 else 2 * Num(bits[..|bits| - 1]) + bits[|bits| - 1]
  }

  lemma {:induction false} DivDiv(v: nat, k: nat)
    ensures v / 2 / Pow2(k) == v / Pow2(k + 1)
    decreases k
  {
    if k == 0 {
      assert Pow2(0) == 1 && Pow2(1) == 2;
    } else {
      DivDiv(v, k - 1);
      DivByDouble(v / 2, Pow2(k - 1));
      DivByDouble(v, Pow2(k));
    }
  }

  lemma BigBitsEnd(v: nat, n: nat)
    requires n > 0
    ensures BigBits(v, n) == BigBits(v / 2, n - 1) + [v % 2]
  {
    forall i | 0 <= i < n - 1 ensures BigBits(v, n)[i] == BigBits(v / 2, n - 1)[i] {
      DivDiv(v, n - 2 - i);
    }
    assert Pow2(0) == 1;
  }

  /** Reading back the low bits of a number that fits gives the number. */
  lemma {:induction false} NumOfBits(v: nat, n: nat)
    requires v < Pow2(n)
    ensures Num(BigBits(v, n)) == v
    decreases n
  {
    if n > 0 {
      BigBitsEnd(v, n);
      NumOfBits(v / 2, n - 1);
      assert BigBits(v, n)[..n - 1] == BigBits(v / 2, n - 1);
    }
  }

  lemma {:induction false} NumAppended(bits: seq<int>, b: int)
    ensures Num(bits + [b]) == 2 * Num(bits) + b
  {
    assert (bits + [b])[..|bits|] == bits;
  }

  /** A byte's bits are its eight low bits. */
  lemma ByteBits(x: Byte)
    ensures TopBits(x, 8) == BigBits(x, 8)
  {
    TopBitsAre(x, 8);
  }

  lemma {:induction false} TopBitsAre(x: Byte, k: nat)
    requires k <= 8
    ensures forall i :: 0 <= i < k ==> TopBits(x, k)[i] == x / Pow2(7 - i) % 2
  {
    if k > 0 { TopBitsAre(x, k - 1); }
  }

  // ------------------------------------------------------------------ byte swap

  function Pow256(k: nat): (p: nat)
    ensures p > 0
  {
    if k == 0 then 1 else 256 * Pow256(k - 1)
  }

  /** The lowest `k` bytes of a number in reverse order. */
  function Swapped(v: nat, k: nat): nat
    decreases k
  {
    if k == 0 then 0 else v % 256 * Pow256(k - 1) + Swapped(v / 256, k - 1)
  }

  lemma {:induction false} SwappedFits(v: nat, k: nat)
    ensures Swapped(v, k) < Pow256(k)
    decreases k
  {
    if k > 0 {
      SwappedFits(v / 256, k - 1);
      SwapBound(v % 256, Swapped(v / 256, k - 1), Pow256(k - 1));
    }
  }

  lemma SwapBound(d: nat, u: nat, p: nat)
    requires d < 256 && u < p
    ensures d * p + u < 256 * p
  {
    MulGrows(d + 1, 256, p);
    assert (d + 1) * p == d * p + p;
  }

  /** A top byte in front of the rest swaps to the bottom. */
  lemma {:induction false} SwapTop(t: nat, u: nat, k: nat)
    requires k > 0 && t < 256 && u < Pow256(k - 1)
    ensures Swapped(t * Pow256(k - 1) + u, k) == Swapped(u, k - 1) * 256 + t
    decreases k
  {
    var v := t * Pow256(k - 1) + u;
    if k == 1 {
      assert v == t;
    } else {
      var p := Pow256(k - 2);
      SwapTop(t, u / 256, k - 1);
      TopSplit(t, u, p);
      assert v == t * (256 * p) + u;
      SwapShuffle(u % 256, p, Swapped(u / 256, k - 2), t);
    }
  }

  lemma TopSplit(t: nat, u: nat, p: nat)
    ensures
      var v := t * (256 * p) + u;
      v % 256 == u % 256 && v / 256 == t * p + u / 256
  {
    var v := t * (256 * p) + u;
    assert v == 256 * (t * p + u / 256) + u % 256 by { assert t * (256 * p) == 256 * (t * p); }
  }

  lemma SwapShuffle(d: nat, p: nat, s: nat, t: nat)
    ensures d * (256 * p) + (s * 256 + t) == (d * p + s) * 256 + t
  {
    assert d * (256 * p) == (d * p) * 256;
  }

  /** Swapping twice gives the number back. */
  lemma {:induction false} SwapTwice(v: nat, k: nat)
    requires v < Pow256(k)
    ensures Swapped(Swapped(v, k), k) == v
    decreases k
  {
    if k > 0 {
      var u := Swapped(v / 256, k - 1);
      SwappedFits(v / 256, k - 1);
      assert v / 256 < Pow256(k - 1);
      SwapTop(v % 256, u, k);
      SwapTwice(v / 256, k - 1);
    }
  }

  lemma {:induction false} PowersOf256(k: nat)
    ensures Pow256(k) == Pow2(8 * k)
  {
    if k > 0 {
      PowersOf256(k - 1);
      Pow2Sum(8, 8 * (k - 1));
      assert Pow2(8) == 256;
    }
  }
}
