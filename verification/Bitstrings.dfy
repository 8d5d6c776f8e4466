/** Bitstrings stored as bytes with a bit length, compared bytewise with a masked last byte. */
module Bitstrings {
  import opened Orders
  import opened Powers

  type Byte = b: int | 0 <= b < 256

  /** The first `k` bits of a byte, most significant first. */
  function TopBits(x: Byte, k: nat): (bits: seq<int>)
    requires k <= 8
    ensures |bits| == k
  {
    if k == 0 then [] else TopBits(x, k - 1) + [(x / Pow2(8 - k)) % 2]
  }

  predicate Stores(bytes: seq<Byte>, n: nat) { |bytes| == (n + 7) / 8 }

  /** The bit sequence that bytes and a bit length denote; bits past the length do not count. */
  function Bits(bytes: seq<Byte>, n: nat): (bits: seq<int>)
    requires Stores(bytes, n)
    ensures |bits| == n
    decreases n
  {
    if n == 0 then [] else if n < 8 then TopBits(bytes[0], n) else TopBits(bytes[0], 8) + Bits(bytes[1..], n - 8)
  }

  /** A byte with all but its first `k` bits cleared. */
  function Masked(x: Byte, k: nat): int
    requires k <= 8
  {
    x - x % Pow2(8 - k)
  }

  function Min(a: nat, b: nat): nat { if a < b then a else b }

  /** The runtime's comparison: common whole bytes, then the common part of the next byte, then the lengths. */
  function BitstringCmp(a: seq<Byte>, n: nat, b: seq<Byte>, m: nat): Ordering
    requires Stores(a, n) && Stores(b, m)
  {
    var common := Min(n, m);
    var whole := common / 8;
    var bytes := Lex(a[..whole], b[..whole]);
    if bytes != Equal then bytes
    else if common % 8 != 0 then
      Then(Cmp(Masked(a[whole], common % 8), Masked(b[whole], common % 8)), Cmp(n, m))
    else Cmp(n, m)
  }

  lemma DivByDouble(x: int, p: int)
    requires 0 <= x && 0 < p
    ensures x / (2 * p) == (x / p) / 2
  {
    var q, r := x / p, x % p;
    var h, s := q / 2, q % 2;
    assert x == q * p + r && q == 2 * h + s;
    assert x == h * (2 * p) + (s * p + r) by { assert (2 * h + s) * p == h * (2 * p) + s * p; }
    assert 0 <= s * p + r < 2 * p;
    DivIs(x, 2 * p, h, s * p + r);
  }

  lemma DivIs(x: int, d: int, q: int, r: int)
    requires 0 < d && x == q * d + r && 0 <= r < d
    ensures x / d == q && x % d == r
  {
    var e := x / d;
    assert x == e * d + x % d;
    if e < q { MulGrows(e + 1, q, d); }
    if q < e { MulGrows(q + 1, e, d); }
  }

  /** The first bits of two bytes compare as the numbers they spell. */
  lemma {:induction false} TopBitsCompare(x: Byte, y: Byte, k: nat)
    requires k <= 8
    ensures Lex(TopBits(x, k), TopBits(y, k)) == Cmp(x / Pow2(8 - k), y / Pow2(8 - k))
  {
    if k == 0 {
      assert Pow2(8) == 256;
    } else {
      var p := Pow2(8 - k);
      TopBitsCompare(x, y, k - 1);
      assert Pow2(8 - (k - 1)) == 2 * p;
      DivByDouble(x, p);
      DivByDouble(y, p);
      LexSplits(TopBits(x, k - 1), [(x / p) % 2], TopBits(y, k - 1), [(y / p) % 2]);
      LexOne((x / p) % 2, (y / p) % 2);
    }
  }

  lemma LexOne(a: int, b: int)
    ensures Lex([a], [b]) == Cmp(a, b)
  {
    assert Lex([a][1..], [b][1..]) == Equal;
  }

  lemma MaskedCompare(x: Byte, y: Byte, k: nat)
    requires k <= 8
    ensures Cmp(Masked(x, k), Masked(y, k)) == Cmp(x / Pow2(8 - k), y / Pow2(8 - k))
  {
    var p := Pow2(8 - k);
    MaskedIs(x, p);
    MaskedIs(y, p);
    MultiplesCompare(x / p, y / p, p);
  }

  lemma MaskedIs(x: int, p: int)
    requires 0 <= x && 0 < p
    ensures x - x % p == (x / p) * p
  {}

  lemma MultiplesCompare(u: int, v: int, p: int)
    requires 0 < p
    ensures Cmp(u * p, v * p) == Cmp(u, v)
  {
    if u < v { MulGrows(u + 1, v, p); }
    if v < u { MulGrows(v + 1, u, p); }
  }

  lemma {:induction false} TopBitsPrefix(x: Byte, k: nat, n: nat)
    requires k <= n <= 8
    ensures TopBits(x, n)[..k] == TopBits(x, k)
    decreases n
  {
    if k < n { TopBitsPrefix(x, k, n - 1); }
  }

  lemma BitsPrefix(bytes: seq<Byte>, n: nat, k: nat)
    requires Stores(bytes, n) && 0 < k <= n && k < 8
    ensures Bits(bytes, n)[..k] == TopBits(bytes[0], k)
  {
    TopBitsPrefix(bytes[0], k, if n < 8 then n else 8);
  }

  /** Under eight common bits: only the first byte's top bits and the lengths matter. */
  lemma ShortCommon(a: seq<Byte>, n: nat, b: seq<Byte>, m: nat)
    requires Stores(a, n) && Stores(b, m) && Min(n, m) < 8
    ensures BitstringCmp(a, n, b, m) == Lex(Bits(a, n), Bits(b, m))
  {
    var k := Min(n, m);
    if k > 0 {
      BitsPrefix(a, n, k);
      BitsPrefix(b, m, k);
      var s, t := Bits(a, n), Bits(b, m);
      assert s == s[..k] + s[k..] && t == t[..k] + t[k..];
      LexSplits(s[..k], s[k..], t[..k], t[k..]);
      TopBitsCompare(a[0], b[0], k);
      MaskedCompare(a[0], b[0], k);
      assert a[..0] == [] && b[..0] == [];
    }
  }

  /** A first whole byte on both sides decides, or is skipped. */
  lemma FirstByte(a: seq<Byte>, n: nat, b: seq<Byte>, m: nat)
    requires Stores(a, n) && Stores(b, m) && Min(n, m) >= 8
    ensures BitstringCmp(a, n, b, m) == Then(Cmp(a[0], b[0]), BitstringCmp(a[1..], n - 8, b[1..], m - 8))
  {
    var whole := Min(n, m) / 8;
    assert a[..whole][1..] == a[1..][..whole - 1] && b[..whole][1..] == b[1..][..whole - 1];
    assert a[1..][whole - 1..] == a[whole..] && b[1..][whole - 1..] == b[whole..];
  }

  /** Bitstring comparison is lexicographic order on bit sequences, partial last bytes included. */
  lemma {:induction false} BitstringCmpIsLexicographic(a: seq<Byte>, n: nat, b: seq<Byte>, m: nat)
    requires Stores(a, n) && Stores(b, m)
    ensures BitstringCmp(a, n, b, m) == Lex(Bits(a, n), Bits(b, m))
    decreases n
  {
    if Min(n, m) < 8 {
      ShortCommon(a, n, b, m);
    } else {
      FirstByte(a, n, b, m);
      BitstringCmpIsLexicographic(a[1..], n - 8, b[1..], m - 8);
      TopBitsCompare(a[0], b[0], 8);
      assert Pow2(8 - 8) == 1;
      LexSplits(TopBits(a[0], 8), Bits(a[1..], n - 8), TopBits(b[0], 8), Bits(b[1..], m - 8));
    }
  }
}
