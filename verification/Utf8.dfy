/** UTF-8 (section 4 of RFC 3629): the encoder, the prefix recogniser and the validation loop. */
module Utf8 {
  import opened Options
  import opened Orders
  import opened Bitstrings

  /** The bytes of a code point; surrogates and values past the last plane have none. */
  function EncodeUtf8(cp: nat): Option<seq<Byte>> {
    if cp > 0x10ffff || 0xd800 <= cp <= 0xdfff then None
    else if cp < 0x80 then Some([cp])
    else if cp < 0x800 then Some([0xc0 + cp / 64, 0x80 + cp % 64])
    else if cp < 0x10000 then Some([0xe0 + cp / 4096, 0x80 + cp / 64 % 64, 0x80 + cp % 64])
    else Some([0xf0 + cp / 262144, 0x80 + cp / 4096 % 64, 0x80 + cp / 64 % 64, 0x80 + cp % 64])
  }

  datatype Prefix = Width(n: nat) | Invalid(offset: nat)

  predicate ByteIn(bytes: seq<Byte>, i: nat, min: int, max: int) {
    i < |bytes| && min <= bytes[i] <= max
  }

  /** Where a byte that is not in range is reported: at itself, or at the end if it is missing. */
  function Fault(bytes: seq<Byte>, i: nat): nat {
    if i < |bytes| then i else |bytes|
  }

  /** Two, three or four bytes: a ranged second byte, then continuation bytes. */
  function Sequence(bytes: seq<Byte>, min: int, max: int, width: nat): Prefix {
    if !ByteIn(bytes, 1, min, max) then Invalid(Fault(bytes, 1))
    else if width > 2 && !ByteIn(bytes, 2, 0x80, 0xbf) then Invalid(Fault(bytes, 2))
    else if width > 3 && !ByteIn(bytes, 3, 0x80, 0xbf) then Invalid(Fault(bytes, 3))
    else Width(width)
  }

  /** The width of the first code point, or the offset at which its prefix becomes invalid. */
  function Utf8Prefix(bytes: seq<Byte>): Prefix {
    if bytes == [] then Width(0)
    else
      var first := bytes[0];
      if first <= 0x7f then Width(1)
      else if 0xc2 <= first <= 0xdf then Sequence(bytes, 0x80, 0xbf, 2)
      else if first == 0xe0 then Sequence(bytes, 0xa0, 0xbf, 3)
      else if 0xe1 <= first <= 0xec || 0xee <= first <= 0xef then Sequence(bytes, 0x80, 0xbf, 3)
      else if first == 0xed then Sequence(bytes, 0x80, 0x9f, 3)
      else if first == 0xf0 then Sequence(bytes, 0x90, 0xbf, 4)
      else if 0xf1 <= first <= 0xf3 then Sequence(bytes, 0x80, 0xbf, 4)
      else if first == 0xf4 then Sequence(bytes, 0x80, 0x8f, 4)
      else Invalid(0)
  }

  // ---------------------------------------------------------- exact recognition

  ghost predicate Encodes(cp: nat, bytes: seq<Byte>) { EncodeUtf8(cp) == Some(bytes) }

  ghost predicate IsEncoding(bytes: seq<Byte>) { exists cp: nat :: Encodes(cp, bytes) }

  /** The code point that a recognised sequence spells. */
  function CodePoint(s: seq<Byte>): int
    requires 1 <= |s| <= 4
  {
    var b0: int := s[0];
    if |s| == 1 then b0
    else
      var b1: int := s[1];
      if |s| == 2 then (b0 - 0xc0) * 64 + (b1 - 0x80)
      else
        var b2: int := s[2];
        if |s| == 3 then (b0 - 0xe0) * 4096 + (b1 - 0x80) * 64 + (b2 - 0x80)
        else
          var b3: int := s[3];
          (b0 - 0xf0) * 262144 + (b1 - 0x80) * 4096 + (b2 - 0x80) * 64 + (b3 - 0x80)
  }

  lemma TwoGroups(a: int, b: int)
    requires 0 <= a && 0 <= b < 64
    ensures (a * 64 + b) / 64 == a && (a * 64 + b) % 64 == b
  {}

  lemma ThreeGroups(a: int, b: int, c: int)
    requires 0 <= a && 0 <= b < 64 && 0 <= c < 64
    ensures
      var cp := a * 4096 + b * 64 + c;
      cp / 4096 == a && cp / 64 == a * 64 + b && cp / 64 % 64 == b && cp % 64 == c
  {
    TwoGroups(a * 64 + b, c);
    TwoGroups(a, b);
  }

  lemma FourGroups(a: int, b: int, c: int, d: int)
    requires 0 <= a && 0 <= b < 64 && 0 <= c < 64 && 0 <= d < 64
    ensures
      var cp := a * 262144 + b * 4096 + c * 64 + d;
      cp / 262144 == a && cp / 4096 % 64 == b && cp / 64 % 64 == c && cp % 64 == d
  {
    ThreeGroups(a * 64 + b, c, d);
    TwoGroups(a, b);
  }

  /** What is recognised is an encoding. */
  lemma RecognisedIsEncoding(bytes: seq<Byte>, n: nat)
    requires bytes != [] && Utf8Prefix(bytes) == Width(n)
    ensures 1 <= n <= 4 && n <= |bytes| && CodePoint(bytes[..n]) >= 0 && Encodes(CodePoint(bytes[..n]), bytes[..n])
  {
    var s := bytes[..n];
    if n == 1 { assert EncodeUtf8(CodePoint(s)).value == s; }
    if n == 2 { RecognisedTwo(s); }
    if n == 3 { RecognisedThree(s); }
    if n == 4 { RecognisedFour(s); }
  }

  lemma RecognisedTwo(s: seq<Byte>)
    requires |s| == 2 && 0xc2 <= s[0] <= 0xdf && 0x80 <= s[1] <= 0xbf
    ensures CodePoint(s) >= 0 && Encodes(CodePoint(s), s)
  {
    TwoGroups(s[0] as int - 0xc0, s[1] as int - 0x80);
    assert EncodeUtf8(CodePoint(s)).value == s;
  }

  lemma RecognisedThree(s: seq<Byte>)
    requires |s| == 3 && 0xe0 <= s[0] <= 0xef && 0x80 <= s[1] <= 0xbf && 0x80 <= s[2] <= 0xbf
    requires (s[0] == 0xe0 ==> s[1] >= 0xa0) && (s[0] == 0xed ==> s[1] <= 0x9f)
    ensures CodePoint(s) >= 0 && Encodes(CodePoint(s), s)
  {
    ThreeGroups(s[0] as int - 0xe0, s[1] as int - 0x80, s[2] as int - 0x80);
    assert EncodeUtf8(CodePoint(s)).value == s;
  }

  lemma RecognisedFour(s: seq<Byte>)
    requires |s| == 4 && 0xf0 <= s[0] <= 0xf4 && 0x80 <= s[1] <= 0xbf && 0x80 <= s[2] <= 0xbf && 0x80 <= s[3] <= 0xbf
    requires (s[0] == 0xf0 ==> s[1] >= 0x90) && (s[0] == 0xf4 ==> s[1] <= 0x8f)
    ensures CodePoint(s) >= 0 && Encodes(CodePoint(s), s)
  {
    FourGroups(s[0] as int - 0xf0, s[1] as int - 0x80, s[2] as int - 0x80, s[3] as int - 0x80);
    assert EncodeUtf8(CodePoint(s)).value == s;
  }

  /** An encoding is recognised, whatever follows it. */
  lemma EncodingIsRecognised(cp: nat, e: seq<Byte>, rest: seq<Byte>)
    requires Encodes(cp, e)
    ensures e != [] && Utf8Prefix(e + rest) == Width(|e|)
  {
    var s := e + rest;
    assert forall i :: 0 <= i < |e| ==> s[i] == e[i];
    if 0x800 <= cp < 0x10000 { ThreeByteRanges(cp); }
    if 0x10000 <= cp { FourByteRanges(cp); }
  }

  lemma ThreeByteRanges(cp: nat)
    requires 0x800 <= cp < 0x10000 && !(0xd800 <= cp <= 0xdfff)
    ensures cp / 4096 < 16
    ensures cp / 4096 == 0 ==> cp / 64 % 64 >= 0x20
    ensures cp / 4096 == 0xd ==> cp / 64 % 64 < 0x20
  {
    assert cp / 64 == (cp / 4096) * 64 + cp / 64 % 64;
  }

  lemma FourByteRanges(cp: nat)
    requires 0x10000 <= cp <= 0x10ffff
    ensures cp / 262144 <= 4
    ensures cp / 262144 == 0 ==> cp / 4096 % 64 >= 0x10
    ensures cp / 262144 == 4 ==> cp / 4096 % 64 < 0x10
  {
    assert cp / 4096 == (cp / 262144) * 64 + cp / 4096 % 64;
  }

  /** The recogniser accepts a width exactly when that many bytes are an encoding. */
  lemma PrefixAcceptsExactlyEncodings(bytes: seq<Byte>, n: nat)
    requires bytes != []
    ensures Utf8Prefix(bytes) == Width(n) <==> n <= |bytes| && IsEncoding(bytes[..n])
  {
    if Utf8Prefix(bytes) == Width(n) {
      RecognisedIsEncoding(bytes, n);
    }
    if n <= |bytes| && IsEncoding(bytes[..n]) {
      var cp: nat :| Encodes(cp, bytes[..n]);
      EncodingIsRecognised(cp, bytes[..n], bytes[n..]);
      assert bytes[..n] + bytes[n..] == bytes;
    }
  }

  // -------------------------------------------------------------- error offsets

  /** Some encoding starts with these bytes. */
  ghost predicate Extendable(p: seq<Byte>) {
    exists cp: nat, e :: Encodes(cp, e) && p <= e
  }

  lemma ExtendableShrinks(p: seq<Byte>, j: nat)
    requires j <= |p|
    ensures Extendable(p) ==> Extendable(p[..j])
  {
    if Extendable(p) {
      var cp: nat, e :| Encodes(cp, e) && p <= e;
      assert p[..j] <= e;
    }
  }

  /** Continue a cut-off sequence with the least byte its second position admits, then the least continuation. */
  function Completed(p: seq<Byte>): seq<Byte>
    requires p != []
  {
    var first := p[0];
    var second := if first == 0xe0 then 0xa0 else if first == 0xf0 then 0x90 else 0x80;
    var width := if first < 0x80 then 1 else if first < 0xe0 then 2 else if first < 0xf0 then 3 else 4;
    if |p| >= width then p
    else if |p| == 1 then p + [second] + [0x80, 0x80][..width - 2]
    else if |p| == 2 then p + [0x80, 0x80][..width - 2]
    else p + [0x80]
  }

  /** Up to the reported offset the bytes are the start of some encoding. */
  lemma BeforeTheFault(bytes: seq<Byte>, k: nat)
    requires bytes != [] && Utf8Prefix(bytes) == Invalid(k)
    ensures k <= |bytes| && k < 4 && Extendable(bytes[..k])
  {
    if k == 0 {
      assert Encodes(0, [0]) && bytes[..0] <= [0];
    } else {
      var s := Completed(bytes[..k]);
      assert s[0] == bytes[0] && (k > 1 ==> s[1] == bytes[1]) && (k > 2 ==> s[2] == bytes[2]);
      var w := |s|;
      assert Utf8Prefix(s) == Width(w);
      RecognisedIsEncoding(s, w);
      assert s[..w] == s;
      assert Encodes(CodePoint(s), s) && bytes[..k] <= s;
    }
  }

  lemma SharedPrefix(bytes: seq<Byte>, e: seq<Byte>, n: nat)
    requires n <= |bytes| && bytes[..n] <= e
    ensures forall i :: 0 <= i < n ==> e[i] == bytes[i]
  {
    assert forall i :: 0 <= i < n ==> e[i] == bytes[..n][i];
  }

  /** One byte further no encoding fits. */
  lemma AtTheFault(bytes: seq<Byte>, k: nat)
    requires bytes != [] && Utf8Prefix(bytes) == Invalid(k) && k < |bytes|
    ensures !Extendable(bytes[..k + 1])
  {
    if Extendable(bytes[..k + 1]) {
      var cp: nat, e :| Encodes(cp, e) && bytes[..k + 1] <= e;
      EncodingIsRecognised(cp, e, []);
      assert e + [] == e;
      SharedPrefix(bytes, e, k + 1);
    }
  }

  /**
   The error offset is the end of the longest prefix some encoding extends: every
   prefix up to it is extendable and no longer one is.
   */
  lemma ErrorOffsetIsExact(bytes: seq<Byte>, k: nat, j: nat)
    requires bytes != [] && Utf8Prefix(bytes) == Invalid(k) && j <= |bytes|
    ensures Extendable(bytes[..j]) <==> j <= k
  {
    BeforeTheFault(bytes, k);
    if j <= k {
      ExtendableShrinks(bytes[..k], j);
      assert bytes[..j] == bytes[..k][..j];
    } else {
      AtTheFault(bytes, k);
      ExtendableShrinks(bytes[..j], k + 1);
      assert bytes[..k + 1] == bytes[..j][..k + 1];
    }
  }

  // ------------------------------------------------------------------ validation

  /** Validation as a walk over recognised prefixes. */
  predicate ValidFrom(bytes: seq<Byte>)
    decreases |bytes|
  {
    bytes == [] ||
    match Utf8Prefix(bytes)
    case Invalid(_) => false
    case Width(n) => if 0 < n <= |bytes| then ValidFrom(bytes[n..]) else false
  }

  predicate Scalar(cp: nat) { EncodeUtf8(cp).Some? }

  /** The concatenated encodings of a text. */
  function EncodeAll(cps: seq<nat>): seq<Byte>
    requires forall i :: 0 <= i < |cps| ==> Scalar(cps[i])
  {
    if cps == [] then [] else
      assert Scalar(cps[0]);
      EncodeUtf8(cps[0]).value + EncodeAll(cps[1..])
  }

  ghost predicate Spells(cps: seq<nat>, bytes: seq<Byte>) {
    (forall i :: 0 <= i < |cps| ==> Scalar(cps[i])) && EncodeAll(cps) == bytes
  }

  lemma {:induction false} TextIsValid(cps: seq<nat>)
    requires forall i :: 0 <= i < |cps| ==> Scalar(cps[i])
    ensures ValidFrom(EncodeAll(cps))
    decreases |cps|
  {
    if cps != [] {
      assert Scalar(cps[0]);
      var e, rest := EncodeUtf8(cps[0]).value, EncodeAll(cps[1..]);
      EncodingIsRecognised(cps[0], e, rest);
      TextIsValid(cps[1..]);
      assert (e + rest)[|e|..] == rest;
    }
  }

  lemma {:induction false} ValidIsText(bytes: seq<Byte>) returns (cps: seq<nat>)
    requires ValidFrom(bytes)
    ensures Spells(cps, bytes)
    decreases |bytes|
  {
    cps := [];
    if bytes != [] {
      var n := Utf8Prefix(bytes).n;
      RecognisedIsEncoding(bytes, n);
      var cp := CodePoint(bytes[..n]);
      var rest := ValidIsText(bytes[n..]);
      cps := [cp] + rest;
      assert cps[1..] == rest && bytes == bytes[..n] + bytes[n..];
    }
  }

  lemma ValidExactlyText(bytes: seq<Byte>)
    ensures ValidFrom(bytes) <==> exists cps :: Spells(cps, bytes)
  {
    if ValidFrom(bytes) {
      var cps := ValidIsText(bytes);
      assert Spells(cps, bytes);
    }
    forall cps ensures Spells(cps, bytes) ==> ValidFrom(bytes) {
      if Spells(cps, bytes) { TextIsValid(cps); }
    }
  }

  lemma NextPrefix(bytes: seq<Byte>, offset: nat, width: nat)
    requires offset < |bytes| && Utf8Prefix(bytes[offset..]) == Width(width)
    ensures 0 < width <= |bytes| - offset && (ValidFrom(bytes[offset..]) <==> ValidFrom(bytes[offset + width..]))
  {
    RecognisedIsEncoding(bytes[offset..], width);
    assert bytes[offset..][width..] == bytes[offset + width..];
  }

  /** The validation loop accepts exactly whole bytes that are concatenations of encodings. */
  method ValidUtf8(storage: seq<Byte>, bitLen: nat) returns (ok: bool)
    requires bitLen <= 8 * |storage|
    ensures ok <==> bitLen % 8 == 0 && exists cps :: Spells(cps, storage[..bitLen / 8])
  {
    if bitLen % 8 != 0 {
      return false;
    }
    var bytes := storage[..bitLen / 8];
    var offset := 0;
    ok := true;
    while offset < |bytes|
      invariant 0 <= offset <= |bytes| && (ValidFrom(bytes) <==> ValidFrom(bytes[offset..]))
    {
      match Utf8Prefix(bytes[offset..]) {
        case Invalid(_) =>
          ok := false;
          break;
        case Width(width) =>
          NextPrefix(bytes, offset, width);
          offset := offset + width;
      }
    }
    assert ok <==> ValidFrom(bytes);
    ValidExactlyText(bytes);
  }

  // ------------------------------------------------------------- order of text

  /** How many bytes a code point takes. */
  lemma WidthsAre(cp: nat, e: seq<Byte>)
    requires Encodes(cp, e)
    ensures |e| == if cp < 0x80 then 1 else if cp < 0x800 then 2 else if cp < 0x10000 then 3 else 4
  {}

  /** A number's last six bits, and what stands before them, compare as the number does. */
  lemma GroupsCompare(x: nat, y: nat)
    requires x < y
    ensures x / 64 < y / 64 || (x / 64 == y / 64 && x % 64 < y % 64)
  {}

  lemma FirstByteDecides(e: seq<int>, f: seq<int>, i: nat)
    requires i < |e| && i < |f| && e[..i] == f[..i] && e[i] < f[i]
    ensures Lex(e, f) == Less
  {
    FirstDifference(e[..i], e[i], f[i], e[i + 1..], f[i + 1..]);
    assert e == e[..i] + ([e[i]] + e[i + 1..]) && f == f[..i] + ([f[i]] + f[i + 1..]);
  }

  lemma TwoOrdered(x: nat, y: nat, e: seq<int>, f: seq<int>)
    requires x < y && e == [0xc0 + x / 64, 0x80 + x % 64] && f == [0xc0 + y / 64, 0x80 + y % 64]
    ensures Lex(e, f) == Less
  {
    GroupsCompare(x, y);
    FirstByteDecides(e, f, if x / 64 < y / 64 then 0 else 1);
  }

  lemma ThreeOrdered(x: nat, y: nat, e: seq<int>, f: seq<int>)
    requires x < y && e == [0xe0 + x / 64 / 64, 0x80 + x / 64 % 64, 0x80 + x % 64]
    requires f == [0xe0 + y / 64 / 64, 0x80 + y / 64 % 64, 0x80 + y % 64]
    ensures Lex(e, f) == Less
  {
    GroupsCompare(x, y);
    if x / 64 < y / 64 {
      GroupsCompare(x / 64, y / 64);
      FirstByteDecides(e, f, if x / 64 / 64 < y / 64 / 64 then 0 else 1);
    } else {
      FirstByteDecides(e, f, 2);
    }
  }

  lemma FourOrdered(x: nat, y: nat, e: seq<int>, f: seq<int>)
    requires x < y && e == [0xf0 + x / 64 / 64 / 64, 0x80 + x / 64 / 64 % 64, 0x80 + x / 64 % 64, 0x80 + x % 64]
    requires f == [0xf0 + y / 64 / 64 / 64, 0x80 + y / 64 / 64 % 64, 0x80 + y / 64 % 64, 0x80 + y % 64]
    ensures Lex(e, f) == Less
  {
    GroupsCompare(x, y);
    if x / 64 == y / 64 {
      FirstByteDecides(e, f, 3);
    } else {
      GroupsCompare(x / 64, y / 64);
      if x / 64 / 64 == y / 64 / 64 {
        FirstByteDecides(e, f, 2);
      } else {
        GroupsCompare(x / 64 / 64, y / 64 / 64);
        FirstByteDecides(e, f, if x / 64 / 64 / 64 < y / 64 / 64 / 64 then 0 else 1);
      }
    }
  }

  lemma Groups(x: nat)
    ensures x / 4096 == x / 64 / 64 && x / 262144 == x / 64 / 64 / 64
  {}

  /** Bytes order as the code points they encode: comparing texts needs no decoding. */
  lemma EncodingKeepsOrder(x: nat, y: nat, e: seq<Byte>, f: seq<Byte>)
    requires x < y && Encodes(x, e) && Encodes(y, f)
    ensures Lex(e, f) == Less
  {
    Groups(x);
    Groups(y);
    if |e| != |f| {
      LeadsOrdered(x, y, e, f);
      FirstByteDecides(e, f, 0);
    } else if |e| == 1 {
      FirstByteDecides(e, f, 0);
    } else if |e| == 2 {
      TwoOrdered(x, y, e, f);
    } else if |e| == 3 {
      ThreeOrdered(x, y, e, f);
    } else {
      FourOrdered(x, y, e, f);
    }
  }

  /** A longer encoding has a greater first byte. */
  lemma LeadsOrdered(x: nat, y: nat, e: seq<Byte>, f: seq<Byte>)
    requires x < y && Encodes(x, e) && Encodes(y, f) && |e| != |f|
    ensures e[0] < f[0]
  {}
}
