/** The bit writer and the bit reader over bytes. */
module BitBuffers {
  import opened Options
  import opened Powers
  import opened Bitstrings
  import opened BitNumbers
  import opened Binary64
  import opened BitFields

  /** The unused low bits of the last byte are zero. */
  ghost predicate Padded(bytes: seq<Byte>, n: nat)
    requires Stores(bytes, n)
  {
    n % 8 != 0 ==> bytes[|bytes| - 1] % Pow2(8 - n % 8) == 0
  }

  /** A last byte contributes its top bits after those of the bytes before it. */
  lemma {:induction false} LastByte(front: seq<Byte>, x: Byte, k: nat)
    requires 1 <= k <= 8
    ensures Bits(front + [x], 8 * |front| + k) == Bits(front, 8 * |front|) + TopBits(x, k)
    decreases |front|
  {
    if front == [] {
      OneByte(x, k);
      assert front + [x] == [x];
    } else {
      LastByte(front[1..], x, k);
      FirstWhole(front, 8 * |front|);
      assert (front + [x])[1..] == front[1..] + [x];
      FirstWhole(front + [x], 8 * |front| + k);
      assert TopBits(front[0], 8) + (Bits(front[1..], 8 * |front| - 8) + TopBits(x, k))
          == (TopBits(front[0], 8) + Bits(front[1..], 8 * |front| - 8)) + TopBits(x, k);
    }
  }

  lemma OneByte(x: Byte, k: nat)
    requires 1 <= k <= 8
    ensures Bits([x], k) == Bits([], 0) + TopBits(x, k)
  {
    if k == 8 { assert Bits([x][1..], 0) == []; }
  }

  lemma FirstWhole(bytes: seq<Byte>, n: nat)
    requires Stores(bytes, n) && n >= 8
    ensures Bits(bytes, n) == TopBits(bytes[0], 8) + Bits(bytes[1..], n - 8)
  {}

  /** A whole number of bytes followed by more bytes. */
  lemma {:induction false} MoreBytes(front: seq<Byte>, more: seq<Byte>)
    ensures Bits(front + more, 8 * (|front| + |more|)) == Bits(front, 8 * |front|) + Bits(more, 8 * |more|)
    decreases |front|
  {
    if front == [] {
      assert front + more == more && Bits(front, 0) == [];
    } else {
      MoreBytes(front[1..], more);
      FirstWhole(front, 8 * |front|);
      assert (front + more)[1..] == front[1..] + more;
      FirstWhole(front + more, 8 * (|front| + |more|));
      assert TopBits(front[0], 8) + (Bits(front[1..], 8 * |front| - 8) + Bits(more, 8 * |more|))
          == (TopBits(front[0], 8) + Bits(front[1..], 8 * |front| - 8)) + Bits(more, 8 * |more|);
    }
  }

  /** The first bits of a byte depend on its high part alone. */
  lemma {:induction false} SameTopBits(x: Byte, y: Byte, k: nat)
    requires k <= 8 && x / Pow2(8 - k) == y / Pow2(8 - k)
    ensures TopBits(x, k) == TopBits(y, k)
  {
    if k > 0 {
      DivByDouble(x, Pow2(8 - k));
      DivByDouble(y, Pow2(8 - k));
      assert Pow2(8 - (k - 1)) == 2 * Pow2(8 - k);
      SameTopBits(x, y, k - 1);
    }
  }

  /** What a bit adds to a byte that has `k` bits. */
  function Bump(b: int, k: nat): nat
    requires k < 8
  {
    if b == 0 then 0 else Pow2(7 - k)
  }

  /** Setting the first padding bit of a byte: one more bit, and the rest still zero. */
  lemma SetBit(x: Byte, k: nat, b: int)
    requires k < 8 && x % Pow2(8 - k) == 0 && 0 <= b <= 1
    ensures x + Bump(b, k) < 256 && (x + Bump(b, k)) % Pow2(7 - k) == 0
    ensures TopBits(x + Bump(b, k), k + 1) == TopBits(x, k) + [b]
  {
    var p := Pow2(7 - k);
    assert Pow2(8 - k) == 2 * p;
    var q := x / (2 * p);
    BitDivides(x, p, q, b);
    ByteRoom(x, q, k);
    SameTopBits(x, x + Bump(b, k), k);
  }

  lemma BitDivides(x: nat, p: nat, q: nat, b: int)
    requires 0 < p && x % (2 * p) == 0 && q == x / (2 * p) && 0 <= b <= 1
    ensures x == q * (2 * p)
    ensures
      var y := x + if b == 0 then 0 else p;
      y / p % 2 == b && y % p == 0 && y / (2 * p) == q
  {
    var bump := if b == 0 then 0 else p;
    var y := x + bump;
    assert y == (2 * q + b) * p by {
      if b == 0 { assert (2 * q) * p == q * (2 * p); } else { assert (2 * q + 1) * p == q * (2 * p) + p; }
    }
    DivIs(y, p, 2 * q + b, 0);
    DivIs(y, 2 * p, q, bump);
  }

  lemma ByteRoom(x: Byte, q: nat, k: nat)
    requires k < 8 && x == q * Pow2(8 - k)
    ensures x + Pow2(8 - k) <= 256
  {
    Pow2Sum(k, 8 - k);
    assert Pow2(8) == 256;
    if q >= Pow2(k) { MulGrows(Pow2(k), q, Pow2(8 - k)); }
    MulGrows(q + 1, Pow2(k), Pow2(8 - k));
    assert (q + 1) * Pow2(8 - k) == q * Pow2(8 - k) + Pow2(8 - k);
  }

  /** The bytes with one more bit set or clear at the end; a new byte starts at each multiple of eight. */
  function Appended(bytes: seq<Byte>, n: nat, b: int): seq<int>
    requires Stores(bytes, n)
  {
    var grown := if n / 8 >= |bytes| then bytes + [0] else bytes;
    grown[n / 8 := grown[n / 8] + Bump(b, n % 8)]
  }

  /** Only the last byte changes. */
  lemma AppendedShape(bytes: seq<Byte>, n: nat, b: int, x: Byte)
    requires Stores(bytes, n) && x == (if n % 8 == 0 then 0 else bytes[n / 8])
    ensures Appended(bytes, n, b) == bytes[..n / 8] + [x + Bump(b, n % 8)]
    ensures if n % 8 == 0 then bytes == bytes[..n / 8] else bytes == bytes[..n / 8] + [x]
  {}

  lemma FrontThenByte(front: seq<Byte>, x: Byte, y: Byte, k: nat, b: int)
    requires k < 8 && TopBits(y, k + 1) == TopBits(x, k) + [b]
    ensures
      Bits(front + [y], 8 * |front| + k + 1)
        == (if k == 0 then Bits(front, 8 * |front|) else Bits(front + [x], 8 * |front| + k)) + [b]
  {
    LastByte(front, y, k + 1);
    if k > 0 {
      LastByte(front, x, k);
      assert Bits(front, 8 * |front|) + (TopBits(x, k) + [b]) == (Bits(front, 8 * |front|) + TopBits(x, k)) + [b];
    }
  }

  lemma AppendedStores(bytes: seq<Byte>, n: nat, b: int)
    requires Stores(bytes, n) && Padded(bytes, n) && 0 <= b <= 1
    ensures forall i :: 0 <= i < |Appended(bytes, n, b)| ==> 0 <= Appended(bytes, n, b)[i] < 256
    ensures Stores(Appended(bytes, n, b), n + 1) && Padded(Appended(bytes, n, b), n + 1)
  {
    var k := n % 8;
    var x: Byte := if k == 0 then 0 else bytes[n / 8];
    SetBit(x, k, b);
    AppendedShape(bytes, n, b, x);
    StillPadded(bytes[..n / 8], x + Bump(b, k), n, k);
  }

  lemma StillPadded(front: seq<Byte>, y: Byte, n: nat, k: nat)
    requires k < 8 && n == 8 * |front| + k && y % Pow2(7 - k) == 0
    ensures Stores(front + [y], n + 1) && Padded(front + [y], n + 1)
  {
    if k < 7 { assert (n + 1) % 8 == k + 1; }
  }

  /** One more bit at the end, and nothing else. */
  lemma AppendedBits(bytes: seq<Byte>, n: nat, b: int)
    requires Stores(bytes, n) && Padded(bytes, n) && 0 <= b <= 1
    requires forall i :: 0 <= i < |Appended(bytes, n, b)| ==> 0 <= Appended(bytes, n, b)[i] < 256
    requires Stores(Appended(bytes, n, b), n + 1)
    ensures Bits(Appended(bytes, n, b), n + 1) == Bits(bytes, n) + [b]
  {
    var x: Byte := if n % 8 == 0 then 0 else bytes[n / 8];
    SetBit(x, n % 8, b);
    AppendedShape(bytes, n, b, x);
    AppendedTo(bytes, Appended(bytes, n, b), bytes[..n / 8], x, x + Bump(b, n % 8), n, n % 8, b);
  }

  lemma AppendedTo(
    bytes: seq<Byte>, after: seq<Byte>, front: seq<Byte>, x: Byte, y: Byte, n: nat, k: nat, b: int)
    requires k < 8 && n == 8 * |front| + k && TopBits(y, k + 1) == TopBits(x, k) + [b]
    requires bytes == (if k == 0 then front else front + [x]) && after == front + [y]
    ensures Bits(after, n + 1) == Bits(bytes, n) + [b]
  {
    FrontThenByte(front, x, y, k, b);
  }

  lemma WholeBytes(n: nat, count: nat, more: nat)
    requires n % 8 == 0 && count == (n + 7) / 8
    ensures n == 8 * count && n + 8 * more == 8 * (count + more)
  {}

  lemma AlignedBytes(bytes: seq<Byte>, n: nat, more: seq<Byte>)
    requires Stores(bytes, n) && n % 8 == 0
    ensures Stores(bytes + more, n + 8 * |more|) && Padded(bytes + more, n + 8 * |more|)
    ensures Bits(bytes + more, n + 8 * |more|) == Bits(bytes, n) + Bits(more, 8 * |more|)
  {
    WholeBytes(n, |bytes|, |more|);
    MoreBytes(bytes, more);
  }

  class BitWriter {
    var bytes: seq<Byte>
    var bitLen: nat

    ghost predicate Valid()
      reads this
    {
      Stores(bytes, bitLen) && Padded(bytes, bitLen)
    }

    /** The bits written so far. */
    ghost function View(): seq<int>
      reads this
      requires Valid()
    {
      Bits(bytes, bitLen)
    }

    constructor ()
      ensures Valid() && View() == []
    {
      bytes, bitLen := [], 0;
    }

    method AppendBit(b: int)
      requires Valid() && 0 <= b <= 1
      modifies this
      ensures Valid() && View() == old(View()) + [b] && bitLen == old(bitLen) + 1
    {
      AppendedStores(bytes, bitLen, b);
      AppendedBits(bytes, bitLen, b);
      ghost var after := Appended(bytes, bitLen, b);
      var index := bitLen / 8;
      if index >= |bytes| {
        bytes := bytes + [0];
      }
      if b != 0 {
        assert after[index] == bytes[index] + Pow2(7 - bitLen % 8);
        bytes := bytes[index := bytes[index] + Pow2(7 - bitLen % 8)];
      }
      assert bytes == after;
      bitLen := bitLen + 1;
    }

    method WriteBits(value: nat, n: nat)
      requires Valid()
      modifies this
      ensures Valid() && View() == old(View()) + BigBits(value, n)
    {
      for i := 0 to n
        invariant Valid() && View() == old(View()) + BigBits(value, n)[..i]
      {
        AppendBit(value / Pow2(n - 1 - i) % 2);
        assert BigBits(value, n)[..i + 1] == BigBits(value, n)[..i] + [BigBits(value, n)[i]];
      }
      assert BigBits(value, n)[..n] == BigBits(value, n);
    }

    /** Whole bytes: copied when aligned, bit by bit otherwise, with one and the same result. */
    method WriteBytes(b: seq<Byte>)
      requires Valid()
      modifies this
      ensures Valid() && View() == old(View()) + Bits(b, 8 * |b|)
    {
      if bitLen % 8 == 0 {
        AlignedBytes(bytes, bitLen, b);
        bytes := bytes + b;
        bitLen := bitLen + 8 * |b|;
      } else {
        WriteBytewise(b);
      }
    }

    method WriteBytewise(b: seq<Byte>)
      requires Valid()
      modifies this
      ensures Valid() && View() == old(View()) + Bits(b, 8 * |b|)
    {
      ghost var start := View();
      for i := 0 to |b|
        invariant Valid() && View() == start + Bits(b[..i], 8 * i)
      {
        NextByte(b, i, start);
        WriteBits(b[i], 8);
      }
      assert b[..|b|] == b;
    }

    /** One integer field: truncate to its width, order its bytes, write its bits. */
    method WriteField(n: I64, spec: Spec, host: bool)
      requires Valid() && spec.total <= 64
      modifies this
      ensures Valid() && View() == old(View()) + FieldBits(n, spec, host)
    {
      var masked := n % Pow2(spec.total);
      var swapped := ApplyEndian(masked, spec.total, spec.endian, host);
      WriteBits(swapped, spec.total);
    }

    /** A whole construction: its fields one after another. */
    method WriteFields(fields: seq<Field>, host: bool)
      requires Valid() && forall i :: 0 <= i < |fields| ==> fields[i].spec.total <= 64
      modifies this
      ensures Valid() && View() == old(View()) + AllBits(fields, host)
    {
      ghost var goal := View() + AllBits(fields, host);
      for i := 0 to |fields|
        invariant Valid() && View() + AllBits(fields[i..], host) == goal
      {
        FirstOfRest(View(), fields, i, host);
        WriteField(fields[i].value, fields[i].spec, host);
      }
    }
  }

  lemma FirstOfRest(written: seq<int>, fields: seq<Field>, i: nat, host: bool)
    requires i < |fields|
    ensures written + AllBits(fields[i..], host)
         == written + FieldBits(fields[i].value, fields[i].spec, host) + AllBits(fields[i + 1..], host)
  {
    assert fields[i..][0] == fields[i] && fields[i..][1..] == fields[i + 1..];
  }

  lemma NextByte(b: seq<Byte>, i: nat, start: seq<int>)
    requires i < |b|
    ensures start + Bits(b[..i + 1], 8 * (i + 1)) == (start + Bits(b[..i], 8 * i)) + BigBits(b[i], 8)
  {
    ByteBits(b[i]);
    LastByte(b[..i], b[i], 8);
    assert b[..i + 1] == b[..i] + [b[i]];
  }

  /** The byte swap as a loop over bytes. */
  method ApplyEndian(value: nat, total: nat, endian: Endian, host: bool) returns (r: nat)
    ensures r == EndianSwap(value, total, endian, host)
  {
    if total == 0 || total > 64 || !IsLittle(endian, host) || total % 8 != 0 {
      return value;
    }
    var count := total / 8;
    var rest: nat := value;
    r := 0;
    for i := 0 to count
      invariant r + Swapped(rest, count - i) == Swapped(value, count)
    {
      r := r + rest % 256 * Pow256(count - 1 - i);
      rest := rest / 256;
    }
  }

  class BitReader {
    const bytes: seq<Byte>
    const bitLen: nat
    var pos: nat

    ghost predicate Valid()
      reads this
    {
      Stores(bytes, bitLen) && pos <= bitLen
    }

    constructor (bytes: seq<Byte>, bitLen: nat, pos: nat)
      requires Stores(bytes, bitLen) && pos <= bitLen
      ensures Valid() && this.bytes == bytes && this.bitLen == bitLen && this.pos == pos
    {
      this.bytes, this.bitLen, this.pos := bytes, bitLen, pos;
    }

    method ReadBit() returns (r: Option<int>)
      requires Valid()
      modifies this
      ensures Valid()
      ensures old(pos) == bitLen ==> r == None && pos == old(pos)
      ensures old(pos) < bitLen ==> r == Some(Bits(bytes, bitLen)[old(pos)]) && pos == old(pos) + 1
    {
      if pos >= bitLen {
        return None;
      }
      BitAt(bytes, bitLen, pos);
      r := Some(bytes[pos / 8] / Pow2(7 - pos % 8) % 2);
      pos := pos + 1;
    }

    method ReadBits(n: nat) returns (r: Option<int>)
      requires Valid()
      modifies this
      ensures Valid()
      ensures bitLen - old(pos) < n ==> r == None && pos == old(pos)
      ensures bitLen - old(pos) >= n ==>
        r == Some(Num(Bits(bytes, bitLen)[old(pos)..old(pos) + n])) && pos == old(pos) + n
    {
      if bitLen - pos < n {
        return None;
      }
      ghost var bits := Bits(bytes, bitLen);
      var out := 0;
      for i := 0 to n
        invariant Valid() && pos == old(pos) + i && out == Num(bits[old(pos)..pos])
      {
        var bit := ReadBit();
        NumNext(bits, old(pos), pos - 1);
        out := out * 2 + bit.value;
      }
      return Some(out);
    }

    /** One integer field; a field that is too wide or runs past the end fails. */
    method ReadField(spec: Spec, host: bool) returns (r: Option<int>)
      requires Valid()
      modifies this
      ensures Valid()
      ensures spec.total > 64 || bitLen - old(pos) < spec.total <==> r == None
      ensures r.Some? ==>
        var bits := Bits(bytes, bitLen)[old(pos)..old(pos) + spec.total];
        Num(bits) >= 0 && r.value == FieldValue(bits, spec, host) && pos == old(pos) + spec.total
    {
      if spec.total > 64 {
        return None;
      }
      var raw := ReadBits(spec.total);
      if raw.None? {
        return None;
      }
      BitsBinary(bytes, bitLen);
      BinaryIsNatural(Bits(bytes, bitLen)[old(pos)..pos]);
      var swapped := ApplyEndian(raw.value, spec.total, spec.endian, host);
      r := Some(if spec.signed then SignExtend(swapped, spec.total) else AsSigned(swapped));
    }

    /** A whole pattern: fields read one after another, failing with the first that fails. */
    method ReadFields(specs: seq<Spec>, host: bool) returns (r: Option<seq<int>>)
      requires Valid()
      modifies this
      ensures Valid() && Binary(Bits(bytes, bitLen))
      ensures r == ReadAll(Bits(bytes, bitLen), old(pos), specs, host)
    {
      BitsBinary(bytes, bitLen);
      ghost var bits := Bits(bytes, bitLen);
      ghost var goal := ReadAll(bits, pos, specs, host);
      var values: seq<int> := [];
      NothingRead(goal);
      assert specs[0..] == specs;
      for i := 0 to |specs|
        invariant Valid() && goal == Prefixed(values, ReadAll(bits, pos, specs[i..], host))
      {
        ReadStep(bits, pos, specs, i, values, host);
        var value := ReadField(specs[i], host);
        if value.None? {
          return None;
        }
        values := values + [value.value];
      }
      AllRead(bits, pos, specs, values, host);
      r := Some(values);
    }
  }

  function Prefixed(values: seq<int>, more: Option<seq<int>>): Option<seq<int>> {
    if more.None? then None else Some(values + more.value)
  }

  lemma NothingRead(more: Option<seq<int>>)
    ensures Prefixed([], more) == more
  {
    if more.Some? { assert [] + more.value == more.value; }
  }

  lemma AllRead(bits: seq<int>, pos: nat, specs: seq<Spec>, values: seq<int>, host: bool)
    requires Binary(bits) && pos <= |bits|
    ensures Prefixed(values, ReadAll(bits, pos, specs[|specs|..], host)) == Some(values)
  {
    assert specs[|specs|..] == [] && values + [] == values;
  }

  /** Reading the rest of a pattern reads its first field, then what is left. */
  lemma ReadStep(bits: seq<int>, pos: nat, specs: seq<Spec>, i: nat, values: seq<int>, host: bool)
    requires Binary(bits) && pos <= |bits| && i < |specs|
    ensures specs[i].total > 64 || |bits| - pos < specs[i].total ==> ReadAll(bits, pos, specs[i..], host) == None
    ensures specs[i].total <= 64 && specs[i].total <= |bits| - pos ==>
      var field := bits[pos..pos + specs[i].total];
      && Num(field) >= 0
      && Prefixed(values, ReadAll(bits, pos, specs[i..], host))
           == Prefixed(values + [FieldValue(field, specs[i], host)],
                       ReadAll(bits, pos + specs[i].total, specs[i + 1..], host))
  {
    assert specs[i..][0] == specs[i] && specs[i..][1..] == specs[i + 1..];
    if specs[i].total <= 64 && specs[i].total <= |bits| - pos {
      BinaryIsNatural(bits[pos..pos + specs[i].total]);
      var more := ReadAll(bits, pos + specs[i].total, specs[i + 1..], host);
      if more.Some? {
        var v := FieldValue(bits[pos..pos + specs[i].total], specs[i], host);
        assert values + ([v] + more.value) == (values + [v]) + more.value;
      }
    }
  }

  /**
   Through the bytes and back: what the writer's bytes hold after a construction
   of in-range fields, appended to anything, the reader returns value by value.
   */
  method WriteThenRead(writer: BitWriter, fields: seq<Field>, host: bool) returns (values: Option<seq<int>>)
    requires writer.Valid()
    requires forall i :: 0 <= i < |fields| ==> fields[i].spec.total <= 64 && InRange(fields[i].value, fields[i].spec)
    modifies writer
    ensures values == Some(Values(fields))
  {
    var start := writer.bitLen;
    ghost var front := writer.View();
    BitsBinary(writer.bytes, writer.bitLen);
    writer.WriteFields(fields, host);
    var reader := new BitReader(writer.bytes, writer.bitLen, start);
    FieldsRoundTrip(front, fields, [], host);
    assert front + AllBits(fields, host) + [] == writer.View();
    values := reader.ReadFields(Specs(fields), host);
  }

  lemma NumNext(bits: seq<int>, from: nat, to: nat)
    requires from <= to < |bits|
    ensures Num(bits[from..to + 1]) == Num(bits[from..to]) * 2 + bits[to]
  {
    assert bits[from..to + 1] == bits[from..to] + [bits[to]];
    NumAppended(bits[from..to], bits[to]);
  }

  /** Each bit of a bitstring is a bit of the byte that holds it. */
  lemma {:induction false} BitAt(bytes: seq<Byte>, n: nat, i: nat)
    requires Stores(bytes, n) && i < n
    ensures Bits(bytes, n)[i] == bytes[i / 8] / Pow2(7 - i % 8) % 2
    decreases n
  {
    if i < 8 {
      FirstByteBit(bytes, n, i);
    } else {
      BitAt(bytes[1..], n - 8, i - 8);
      assert bytes[1..][(i - 8) / 8] == bytes[i / 8];
    }
  }

  lemma FirstByteBit(bytes: seq<Byte>, n: nat, i: nat)
    requires Stores(bytes, n) && i < n && i < 8
    ensures Bits(bytes, n)[i] == bytes[0] / Pow2(7 - i) % 2
  {
    var k := if n < 8 then n else 8;
    TopBitsAre(bytes[0], k);
    assert Bits(bytes, n)[i] == TopBits(bytes[0], k)[i];
  }

  lemma {:induction false} BitsBinary(bytes: seq<Byte>, n: nat)
    requires Stores(bytes, n)
    ensures Binary(Bits(bytes, n))
  {
    forall i | 0 <= i < n ensures 0 <= Bits(bytes, n)[i] <= 1 { BitAt(bytes, n, i); }
  }
}
