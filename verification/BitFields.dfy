/** Integer fields of a bitstring: any width up to 64, either byte order, signed or not, from any bit offset. */
module BitFields {
  import opened Options
  import opened Powers
  import opened Bitstrings
  import opened BitNumbers
  import opened Binary64

  datatype Endian = Big | Little | Native

  /** A field's width in bits, byte order and signedness. */
  datatype Spec = Spec(total: nat, endian: Endian, signed: bool)

  predicate IsLittle(endian: Endian, host: bool) {
    endian.Little? || (endian.Native? && host)
  }

  /** Only whole bytes are reordered. */
  function EndianSwap(v: nat, total: nat, endian: Endian, host: bool): nat {
    if total == 0 || total > 64 || !IsLittle(endian, host) || total % 8 != 0 then v else Swapped(v, total / 8)
  }

  /** A 64-bit word read as two's complement. */
  function AsSigned(v: int): int {
    if v >= 0x8000_0000_0000_0000 then v - 0x1_0000_0000_0000_0000 else v
  }

  /** Copy the top bit of a field upward. */
  function SignExtend(v: nat, total: nat): int {
    if total == 0 || total >= 64 then AsSigned(v)
    else if v / Pow2(total - 1) % 2 != 0 then v - Pow2(total)
    else v
  }

  /** The bits written for a value: two's complement truncation, then byte order. */
  function FieldBits(n: I64, spec: Spec, host: bool): (bits: seq<int>)
    ensures |bits| == spec.total
  {
    BigBits(EndianSwap(n % Pow2(spec.total), spec.total, spec.endian, host), spec.total)
  }

  /** The value read from a field's bits. */
  function FieldValue(bits: seq<int>, spec: Spec, host: bool): int
    requires Num(bits) >= 0
  {
    var raw := EndianSwap(Num(bits), spec.total, spec.endian, host);
    if spec.signed then SignExtend(raw, spec.total) else AsSigned(raw)
  }

  /** What a field of this width and signedness can hold. */
  predicate InRange(n: I64, spec: Spec) {
    if spec.total == 0 then n == 0
    else if spec.total == 64 then true
    else if spec.signed then -Half(spec.total) <= n < Half(spec.total)
    else 0 <= n < Pow2(spec.total)
  }

  function Half(total: nat): int
    requires total > 0
  {
    Pow2(total - 1)
  }

  // --------------------------------------------------------------- one field

  lemma SwapKeepsRange(v: nat, total: nat, endian: Endian, host: bool)
    requires v < Pow2(total)
    ensures EndianSwap(v, total, endian, host) < Pow2(total)
    ensures EndianSwap(EndianSwap(v, total, endian, host), total, endian, host) == v
  {
    if total % 8 == 0 {
      PowersOf256(total / 8);
      assert 8 * (total / 8) == total;
      SwapTwice(v, total / 8);
      SwappedFits(v, total / 8);
    }
  }

  lemma Pow2Of64()
    ensures Pow2(64) == 0x1_0000_0000_0000_0000 && Pow2(63) == 0x8000_0000_0000_0000
  {
    assert Pow2(8) == 256;
    Pow2Sum(8, 8);
    Pow2Sum(16, 16);
    Pow2Sum(32, 32);
  }

  /** What a written field reads back as: the truncated value, extended as the specification says. */
  lemma FieldReadsBack(n: I64, spec: Spec, host: bool)
    ensures
      var raw := n % Pow2(spec.total);
      && Num(FieldBits(n, spec, host)) >= 0
      && FieldValue(FieldBits(n, spec, host), spec, host)
           == if spec.signed then SignExtend(raw, spec.total) else AsSigned(raw)
  {
    var raw := n % Pow2(spec.total);
    SwapKeepsRange(raw, spec.total, spec.endian, host);
    NumOfBits(EndianSwap(raw, spec.total, spec.endian, host), spec.total);
  }

  lemma TopBit(raw: nat, total: nat)
    requires total > 0 && raw < Pow2(total)
    ensures raw / Pow2(total - 1) % 2 != 0 <==> raw >= Half(total)
  {
    var p := Pow2(total - 1);
    if raw >= p {
      DivIs(raw, p, 1, raw - p);
    } else {
      DivIs(raw, p, 0, raw);
    }
  }

  lemma SmallPowers(total: nat)
    requires 0 < total < 64
    ensures Pow2(total) <= 0x8000_0000_0000_0000 && Pow2(total) == 2 * Half(total)
  {
    Pow2Of64();
    Pow2Grows(total, 63);
  }

  /** A field returns a value exactly when the value is in its range. */
  lemma FieldRoundTrip(n: I64, spec: Spec, host: bool)
    requires spec.total <= 64
    ensures Num(FieldBits(n, spec, host)) >= 0
    ensures FieldValue(FieldBits(n, spec, host), spec, host) == n <==> InRange(n, spec)
  {
    FieldReadsBack(n, spec, host);
    if spec.total == 64 {
      Pow2Of64();
      WholeWord(n);
    } else if spec.total == 0 {
      assert Pow2(0) == 1;
    } else if spec.signed {
      SignedRange(n, spec.total);
    } else {
      SmallPowers(spec.total);
      UnsignedField(n, Pow2(spec.total));
    }
  }

  lemma SignedRange(n: I64, total: nat)
    requires 0 < total < 64
    ensures SignExtend(n % Pow2(total), total) == n <==> -Half(total) <= n < Half(total)
  {
    var m := Pow2(total);
    SmallPowers(total);
    TopBit(n % m, total);
    SignedField(n, m);
  }

  lemma WholeWord(n: I64)
    ensures AsSigned(n % 0x1_0000_0000_0000_0000) == n
  {
    var m := 0x1_0000_0000_0000_0000;
    if n >= 0 { DivIs(n, m, 0, n); } else { DivIs(n, m, -1, n + m); }
  }

  lemma UnsignedField(n: I64, m: nat)
    requires 0 < m
    ensures n % m == n <==> 0 <= n < m
  {
    if 0 <= n < m { DivIs(n, m, 0, n); }
  }

  lemma SignedField(n: I64, m: nat)
    requires 0 < m && m % 2 == 0
    ensures (if n % m >= m / 2 then n % m - m else n % m) == n <==> -(m / 2) <= n < m / 2
  {
    if 0 <= n < m / 2 { DivIs(n, m, 0, n); }
    if -(m / 2) <= n < 0 { DivIs(n, m, -1, n + m); }
  }

  // --------------------------------------------------------------- byte order

  /** The bytes of a number one after another, most significant first. */
  function MostFirst(v: nat, count: nat): seq<int>
    decreases count
  {
    if count == 0 then [] else MostFirst(v / 256, count - 1) + BigBits(v % 256, 8)
  }

  /** And least significant first. */
  function LeastFirst(v: nat, count: nat): seq<int>
    decreases count
  {
    if count == 0 then [] else BigBits(v % 256, 8) + LeastFirst(v / 256, count - 1)
  }

  /** The bits of a number with a low part split off. */
  lemma {:induction false} BitsJoin(a: nat, b: nat, m: nat, n: nat)
    requires b < Pow2(n)
    ensures BigBits(a * Pow2(n) + b, m + n) == BigBits(a, m) + BigBits(b, n)
    decreases n
  {
    if n == 0 {
      assert Pow2(0) == 1;
      assert BigBits(a, m) + BigBits(b, 0) == BigBits(a, m);
    } else {
      var v := a * Pow2(n) + b;
      HalfOf(a, b, Pow2(n - 1));
      BitsJoin(a, b / 2, m, n - 1);
      BigBitsEnd(v, m + n);
      BigBitsEnd(b, n);
      assert BigBits(a, m) + (BigBits(b / 2, n - 1) + [b % 2]) == (BigBits(a, m) + BigBits(b / 2, n - 1)) + [b % 2];
    }
  }

  lemma HalfOf(a: nat, b: nat, p: nat)
    ensures
      var v := a * (2 * p) + b;
      v / 2 == a * p + b / 2 && v % 2 == b % 2
  {
    assert a * (2 * p) + b == 2 * (a * p) + b;
  }

  lemma {:induction false} BigIsMostFirst(v: nat, count: nat)
    ensures BigBits(v, 8 * count) == MostFirst(v, count)
    decreases count
  {
    if count > 0 {
      assert Pow2(8) == 256;
      BitsJoin(v / 256, v % 256, 8 * (count - 1), 8);
      BigIsMostFirst(v / 256, count - 1);
    }
  }

  lemma {:induction false} SwappedIsLeastFirst(v: nat, count: nat)
    ensures BigBits(Swapped(v, count), 8 * count) == LeastFirst(v, count)
    decreases count
  {
    if count > 0 {
      PowersOf256(count - 1);
      SwappedFits(v / 256, count - 1);
      BitsJoin(v % 256, Swapped(v / 256, count - 1), 8, 8 * (count - 1));
      SwappedIsLeastFirst(v / 256, count - 1);
    }
  }

  /**
   The byte order of a written field of whole bytes: least significant byte first
   if it is little, or native on a little host, and most significant first
   otherwise. A field that is not whole bytes is written most significant bit first.
   */
  lemma FieldByteOrder(n: I64, spec: Spec, host: bool)
    requires spec.total <= 64
    ensures
      var raw, count := n % Pow2(spec.total), spec.total / 8;
      && (spec.total % 8 == 0 && (spec.endian == Little || (spec.endian == Native && host)) ==>
            FieldBits(n, spec, host) == LeastFirst(raw, count))
      && (spec.total % 8 == 0 && (spec.endian == Big || (spec.endian == Native && !host)) ==>
            FieldBits(n, spec, host) == MostFirst(raw, count))
      && (spec.total % 8 != 0 ==> FieldBits(n, spec, host) == BigBits(raw, spec.total))
  {
    var raw, count := n % Pow2(spec.total), spec.total / 8;
    if spec.total % 8 == 0 {
      assert 8 * count == spec.total;
      BigIsMostFirst(raw, count);
      SwappedIsLeastFirst(raw, count);
    }
  }

  // ------------------------------------------------------------ many fields

  datatype Field = Field(value: I64, spec: Spec)

  /** The fields written one after another. */
  function AllBits(fields: seq<Field>, host: bool): seq<int> {
    if fields == [] then [] else FieldBits(fields[0].value, fields[0].spec, host) + AllBits(fields[1..], host)
  }

  ghost predicate Binary(bits: seq<int>) {
    forall i :: 0 <= i < |bits| ==> 0 <= bits[i] <= 1
  }

  lemma {:induction false} BinaryIsNatural(bits: seq<int>)
    requires Binary(bits)
    ensures Num(bits) >= 0
  {
    if bits != [] { BinaryIsNatural(bits[..|bits| - 1]); }
  }

  /** Fields read one after another from a position; a short bitstring or a too wide field fails. */
  ghost function ReadAll(bits: seq<int>, pos: nat, specs: seq<Spec>, host: bool): Option<seq<int>>
    requires Binary(bits) && pos <= |bits|
    decreases |specs|
  {
    if specs == [] then Some([])
    else if specs[0].total > 64 || |bits| - pos < specs[0].total then None
    else
      var field := bits[pos..pos + specs[0].total];
      BinaryIsNatural(field);
      match ReadAll(bits, pos + specs[0].total, specs[1..], host)
      case None => None
      case Some(more) => Some([FieldValue(field, specs[0], host)] + more)
  }

  function Specs(fields: seq<Field>): (r: seq<Spec>)
    ensures |r| == |fields| && forall i :: 0 <= i < |r| ==> r[i] == fields[i].spec
  {
    seq(|fields|, i requires 0 <= i < |fields| => fields[i].spec)
  }

  function Values(fields: seq<Field>): (r: seq<int>)
    ensures |r| == |fields| && forall i :: 0 <= i < |r| ==> r[i] == fields[i].value
  {
    seq(|fields|, i requires 0 <= i < |fields| => fields[i].value)
  }

  /**
   Writing any sequence of in-range fields, after any bits and before any others,
   and reading it back with the same specifications returns every value.
   */
  lemma {:induction false} FieldsRoundTrip(front: seq<int>, fields: seq<Field>, back: seq<int>, host: bool)
    requires forall i :: 0 <= i < |fields| ==> fields[i].spec.total <= 64 && InRange(fields[i].value, fields[i].spec)
    requires Binary(front) && Binary(back)
    ensures Binary(front + AllBits(fields, host) + back)
    ensures ReadAll(front + AllBits(fields, host) + back, |front|, Specs(fields), host) == Some(Values(fields))
    decreases |fields|
  {
    AllBitsBinary(fields, host);
    BinaryParts(front, AllBits(fields, host), back);
    if fields != [] {
      var f, rest := fields[0], fields[1..];
      var bits := FieldBits(f.value, f.spec, host);
      FieldBitsBinary(f, host);
      BinaryParts(front, bits, []);
      assert front + bits + [] == front + bits;
      FieldsRoundTrip(front + bits, rest, back, host);
      FieldRoundTrip(f.value, f.spec, host);
      assert Specs(fields)[1..] == Specs(rest) && Values(fields) == [f.value] + Values(rest);
      ReadFirst(front, bits, AllBits(rest, host), back, Specs(fields), f.value, Values(rest), host);
    }
  }

  lemma FieldBitsBinary(f: Field, host: bool)
    ensures Binary(FieldBits(f.value, f.spec, host))
  {}

  /** The first field read, then the others from where it ends. */
  lemma ReadFirst(
    front: seq<int>, bits: seq<int>, more: seq<int>, back: seq<int>, specs: seq<Spec>,
    value: int, values: seq<int>, host: bool)
    requires Binary(front + (bits + more) + back) && Binary((front + bits) + more + back)
    requires specs != [] && |bits| == specs[0].total <= 64
    requires Num(bits) >= 0 && FieldValue(bits, specs[0], host) == value
    requires ReadAll((front + bits) + more + back, |front + bits|, specs[1..], host) == Some(values)
    ensures ReadAll(front + (bits + more) + back, |front|, specs, host) == Some([value] + values)
  {
    FirstFieldSplits(front, bits, more, back);
  }

  lemma {:induction false} AllBitsBinary(fields: seq<Field>, host: bool)
    ensures Binary(AllBits(fields, host))
    decreases |fields|
  {
    if fields != [] {
      FieldBitsBinary(fields[0], host);
      AllBitsBinary(fields[1..], host);
    }
  }

  lemma BinaryParts(a: seq<int>, b: seq<int>, c: seq<int>)
    requires Binary(a) && Binary(b) && Binary(c)
    ensures Binary(a + b + c)
  {}

  lemma FirstFieldSplits(front: seq<int>, bits: seq<int>, more: seq<int>, back: seq<int>)
    ensures front + (bits + more) + back == (front + bits) + more + back
    ensures (front + (bits + more) + back)[|front|..|front| + |bits|] == bits
  {}
}
