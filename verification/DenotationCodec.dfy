/**
 The denotation carrier decodes exactly what it encodes: round trips both ways,
 and no accepted string extends another.
 */
module DenotationCodec {
  import opened Options
  import opened Bitstrings
  import opened Denotations

  // ----------------------------------------------------------------- one word

  lemma FourDigits(a: int, b: int, c: int, d: int)
    requires 0 <= a < 256 && 0 <= b < 256 && 0 <= c < 256 && 0 <= d < 256
    ensures
      var v := a * 0x100_0000 + b * 0x1_0000 + c * 256 + d;
      v / 0x100_0000 == a && v / 0x1_0000 % 256 == b && v / 256 % 256 == c && v % 256 == d
  {
    var v := a * 0x100_0000 + b * 0x1_0000 + c * 256 + d;
    assert v / 0x1_0000 == a * 256 + b;
    assert v / 256 == a * 0x1_0000 + b * 256 + c;
  }

  lemma U32ValueOfBytes(v: U32, little: bool)
    ensures U32Value(U32Bytes(v, little), little) == v
  {
    assert v == (v / 0x100_0000) * 0x100_0000 + (v / 0x1_0000 % 256) * 0x1_0000 + (v / 256 % 256) * 256 + v % 256;
  }

  lemma U32BytesOfValue(b: seq<Byte>, little: bool)
    requires |b| == 4
    ensures U32Bytes(U32Value(b, little), little) == b
  {
    var w: seq<int> := if little then [b[3], b[2], b[1], b[0]] else b;
    FourDigits(w[0], w[1], w[2], w[3]);
  }

  lemma U32Complete(v: U32, little: bool, rest: seq<Byte>)
    ensures ReadU32(U32Bytes(v, little) + rest, little) == Good(v, rest)
  {
    U32ValueOfBytes(v, little);
    assert (U32Bytes(v, little) + rest)[..4] == U32Bytes(v, little);
  }

  lemma U32Sound(bytes: seq<Byte>, little: bool)
    requires ReadU32(bytes, little).Good?
    ensures
      var r := ReadU32(bytes, little);
      bytes == U32Bytes(r.value, little) + r.rest && |r.rest| < |bytes|
  {
    U32BytesOfValue(bytes[..4], little);
  }

  lemma Regroup(a: seq<Byte>, b: seq<Byte>, c: seq<Byte>)
    ensures (a + b) + c == a + (b + c)
  {}

  /** The four bytes of a word, most significant first on a big host and last on a little one. */
  lemma WordLayout(v: U32, little: bool)
    ensures
      var b: seq<int> := U32Bytes(v, little);
      v == if little then b[3] * 0x100_0000 + b[2] * 0x1_0000 + b[1] * 256 + b[0]
           else b[0] * 0x100_0000 + b[1] * 0x1_0000 + b[2] * 256 + b[3]
  {
    U32ValueOfBytes(v, little);
  }

  /**
   The tags of the carrier: named 0 and generated 1 after the arity; no module 0,
   a named one 1, an implementation 2.
   */
  lemma TagsAre(d: Denotation, m: Option<Module>, little: bool)
    ensures DenotationFits(d) ==> DenotationBytes(d, little)[..4] == U32Bytes(d.arity, little)
    ensures DenotationFits(d) ==> DenotationBytes(d, little)[4] == if d.Named? then 0 else 1
    ensures ModuleFits(m) ==> ModuleBytes(m, little)[0] == if m.None? then 0 else if m.value.NamedModule? then 1 else 2
  {}

  // ------------------------------------------------- what is written is read

  lemma TextComplete(s: Text, little: bool, rest: seq<Byte>)
    requires Fits(|s|)
    ensures ReadText(TextBytes(s, little) + rest, little) == Good(s, rest)
  {
    U32Complete(|s|, little, s + rest);
    Regroup(U32Bytes(|s|, little), s, rest);
    assert (s + rest)[..|s|] == s && (s + rest)[|s|..] == rest;
  }

  function Joined(parts: seq<seq<Byte>>): seq<Byte> {
    if parts == [] then [] else parts[0] + Joined(parts[1..])
  }

  /** Each part reads as its item, whatever follows it. */
  ghost predicate ReadAs<T>(read: seq<Byte> -> Parsed<T>, parts: seq<seq<Byte>>, items: seq<T>) {
    && |parts| == |items|
    && forall i, rest {:trigger parts[i] + rest} :: 0 <= i < |items| ==> read(parts[i] + rest) == Good(items[i], rest)
  }

  lemma RestReadAs<T>(read: seq<Byte> -> Parsed<T>, parts: seq<seq<Byte>>, items: seq<T>)
    requires ReadAs(read, parts, items) && items != []
    ensures ReadAs(read, parts[1..], items[1..])
  {
    var p, q := parts[1..], items[1..];
    forall i, rest: seq<Byte> | 0 <= i < |q| ensures read(p[i] + rest) == Good(q[i], rest) {
      assert p[i] == parts[i + 1] && q[i] == items[i + 1];
      assert read(parts[i + 1] + rest) == Good(items[i + 1], rest);
    }
  }

  /** Parts that each read as an item read, joined, as the items. */
  lemma {:induction false} ManyComplete<T>(
    read: seq<Byte> -> Parsed<T>, parts: seq<seq<Byte>>, items: seq<T>, rest: seq<Byte>)
    requires ReadAs(read, parts, items)
    ensures ReadMany(read, Joined(parts) + rest, |items|) == Good(items, rest)
    decreases |items|
  {
    if items == [] {
      assert Joined(parts) + rest == rest;
    } else {
      RestReadAs(read, parts, items);
      ManyComplete(read, parts[1..], items[1..], rest);
      Regroup(parts[0], Joined(parts[1..]), rest);
      assert read(parts[0] + (Joined(parts[1..]) + rest)) == Good(items[0], Joined(parts[1..]) + rest);
      assert items == [items[0]] + items[1..];
    }
  }

  /** The reader of segments, said so that a proof about many of them need not look inside one. */
  ghost predicate ReadsSegments(read: seq<Byte> -> Parsed<Segment>, little: bool) {
    forall bytes {:trigger ReadSegment(bytes, little)} :: read(bytes) == ReadSegment(bytes, little)
  }

  lemma SegmentComplete(s: Segment, little: bool, rest: seq<Byte>)
    requires Fits(|s|)
    ensures ReadSegment(TextBytes(s, little) + rest, little) == Good(s, rest)
  {
    TextComplete(s, little, rest);
  }

  function SegmentParts(name: seq<Segment>, little: bool): (parts: seq<seq<Byte>>)
    requires forall i :: 0 <= i < |name| ==> Fits(|name[i]|)
    ensures |parts| == |name| && forall i :: 0 <= i < |name| ==> parts[i] == TextBytes(name[i], little)
  {
    seq(|name|, i requires 0 <= i < |name| => TextBytes(name[i], little))
  }

  lemma {:induction false} SegmentsJoined(name: seq<Segment>, little: bool)
    requires forall i :: 0 <= i < |name| ==> Fits(|name[i]|)
    ensures Joined(SegmentParts(name, little)) == SegmentsBytes(name, little)
    decreases |name|
  {
    if name != [] {
      SegmentsJoined(name[1..], little);
      assert SegmentParts(name, little)[1..] == SegmentParts(name[1..], little);
    }
  }

  lemma SegmentsComplete(name: seq<Segment>, little: bool, rest: seq<Byte>)
    requires forall i :: 0 <= i < |name| ==> Fits(|name[i]|)
    ensures ReadSegments(SegmentsBytes(name, little) + rest, |name|, little) == Good(name, rest)
  {
    var read, parts := SegmentReader(little), SegmentParts(name, little);
    forall i, more: seq<Byte> | 0 <= i < |name| ensures read(parts[i] + more) == Good(name[i], more) {
      SegmentComplete(name[i], little, more);
    }
    SegmentsJoined(name, little);
    ManyComplete(read, parts, name, rest);
  }

  lemma NameComplete(name: ModuleName, little: bool, rest: seq<Byte>)
    requires NameFits(name)
    ensures ReadName(NameBytes(name, little) + rest, little) == Good(name, rest)
  {
    Regroup(U32Bytes(|name|, little), SegmentsBytes(name, little), rest);
    U32Complete(|name|, little, SegmentsBytes(name, little) + rest);
    SegmentsComplete(name, little, rest);
  }

  lemma TagComplete(tag: Byte, rest: seq<Byte>)
    ensures ReadTag([tag] + rest) == Good(tag, rest)
  {
    assert ([tag] + rest)[1..] == rest;
  }

  lemma ModuleComplete(m: Option<Module>, little: bool, rest: seq<Byte>)
    requires ModuleFits(m)
    ensures ReadModule(ModuleBytes(m, little) + rest, little) == Good(m, rest)
  {
    match m
    case None => TagComplete(0, rest);
    case Some(NamedModule(name)) =>
      Regroup([1], NameBytes(name, little), rest);
      TagComplete(1, NameBytes(name, little) + rest);
      NameComplete(name, little, rest);
    case Some(ProtocolImpl(protocol, target)) =>
      var p, t := NameBytes(protocol, little), NameBytes(target, little);
      Regroup([2], p + t, rest);
      Regroup(p, t, rest);
      TagComplete(2, p + (t + rest));
      NameComplete(protocol, little, t + rest);
      NameComplete(target, little, rest);
  }

  lemma NamedComplete(owner: Option<Module>, name: Text, little: bool, rest: seq<Byte>)
    requires ModuleFits(owner) && Fits(|name|)
    ensures
      var bytes := (ModuleBytes(owner, little) + TextBytes(name, little)) + rest;
      && ReadModule(bytes, little) == Good(owner, TextBytes(name, little) + rest)
      && ReadText(TextBytes(name, little) + rest, little) == Good(name, rest)
  {
    Regroup(ModuleBytes(owner, little), TextBytes(name, little), rest);
    ModuleComplete(owner, little, TextBytes(name, little) + rest);
    TextComplete(name, little, rest);
  }

  /** An arity and a tag in front of a body are read as such. */
  lemma HeaderComplete(arity: U32, tag: Byte, body: seq<Byte>, little: bool, rest: seq<Byte>)
    ensures ReadU32((U32Bytes(arity, little) + ([tag] + body)) + rest, little) == Good(arity, [tag] + (body + rest))
    ensures ReadTag([tag] + (body + rest)) == Good(tag, body + rest)
  {
    Regroup(U32Bytes(arity, little), [tag] + body, rest);
    Regroup([tag], body, rest);
    U32Complete(arity, little, [tag] + (body + rest));
    TagComplete(tag, body + rest);
  }

  lemma {:induction false} DenotationComplete(d: Denotation, little: bool, rest: seq<Byte>)
    requires DenotationFits(d)
    ensures ReadDenotation(DenotationBytes(d, little) + rest, little) == Good(d, rest)
    decreases d
  {
    match d
    case Named(owner, name, arity) =>
      HeaderComplete(arity, 0, ModuleBytes(owner, little) + TextBytes(name, little), little, rest);
      NamedComplete(owner, name, little, rest);
    case Generated(parent, occurrence, arity) =>
      var o, p := U32Bytes(occurrence, little), DenotationBytes(parent, little);
      HeaderComplete(arity, 1, o + p, little, rest);
      Regroup(o, p, rest);
      U32Complete(occurrence, little, p + rest);
      DenotationComplete(parent, little, rest);
  }

  lemma EntryComplete(e: Entry, little: bool, rest: seq<Byte>)
    requires EntryFits(e)
    ensures ReadEntry(EntryBytes(e, little) + rest, little) == Good(e, rest)
  {
    var id, d := U32Bytes(e.0, little), DenotationBytes(e.1, little);
    Regroup(id, d, rest);
    U32Complete(e.0, little, d + rest);
    DenotationComplete(e.1, little, rest);
  }

  ghost predicate ReadsEntries(read: seq<Byte> -> Parsed<Entry>, little: bool) {
    forall bytes {:trigger ReadEntry(bytes, little)} :: read(bytes) == ReadEntry(bytes, little)
  }

  function EntryParts(table: seq<Entry>, little: bool): (parts: seq<seq<Byte>>)
    requires forall i :: 0 <= i < |table| ==> EntryFits(table[i])
    ensures |parts| == |table| && forall i :: 0 <= i < |table| ==> parts[i] == EntryBytes(table[i], little)
  {
    seq(|table|, i requires 0 <= i < |table| => EntryBytes(table[i], little))
  }

  lemma {:induction false} EntriesJoined(table: seq<Entry>, little: bool)
    requires forall i :: 0 <= i < |table| ==> EntryFits(table[i])
    ensures Joined(EntryParts(table, little)) == EntriesBytes(table, little)
    decreases |table|
  {
    if table != [] {
      EntriesJoined(table[1..], little);
      assert EntryParts(table, little)[1..] == EntryParts(table[1..], little);
    }
  }

  lemma EntriesComplete(table: seq<Entry>, little: bool, rest: seq<Byte>)
    requires forall i :: 0 <= i < |table| ==> EntryFits(table[i])
    ensures ReadEntries(EntriesBytes(table, little) + rest, |table|, little) == Good(table, rest)
  {
    var read, parts := EntryReader(little), EntryParts(table, little);
    forall i, more: seq<Byte> | 0 <= i < |table| ensures read(parts[i] + more) == Good(table[i], more) {
      EntryComplete(table[i], little, more);
    }
    EntriesJoined(table, little);
    ManyComplete(read, parts, table, rest);
  }

  lemma TableComplete(table: seq<Entry>, little: bool, rest: seq<Byte>)
    requires Encodable(table)
    ensures ReadTable(TableBytes(table, little) + rest, little) == Good(table, rest)
  {
    Regroup(U32Bytes(|table|, little), EntriesBytes(table, little), rest);
    U32Complete(|table|, little, EntriesBytes(table, little) + rest);
    EntriesComplete(table, little, rest);
  }

  // ------------------------------------------- what is read was written so

  lemma TextSound(bytes: seq<Byte>, little: bool)
    requires ReadText(bytes, little).Good?
    ensures
      var r := ReadText(bytes, little);
      Fits(|r.value|) && bytes == TextBytes(r.value, little) + r.rest && |r.rest| < |bytes|
  {
    U32Sound(bytes, little);
    var u := ReadU32(bytes, little);
    var s := u.rest[..u.value];
    assert u.rest == s + u.rest[u.value..];
    Regroup(U32Bytes(u.value, little), s, u.rest[u.value..]);
  }

  /** A read of several items is a read of the first and a read of the others. */
  lemma ManySplits<T>(read: seq<Byte> -> Parsed<T>, bytes: seq<Byte>, count: nat)
    requires count > 0 && ReadMany(read, bytes, count).Good?
    ensures read(bytes).Good? && ReadMany(read, read(bytes).rest, count - 1).Good?
    ensures
      var more := ReadMany(read, read(bytes).rest, count - 1);
      ReadMany(read, bytes, count) == Good([read(bytes).value] + more.value, more.rest)
  {}

  lemma SegmentSound(read: seq<Byte> -> Parsed<Segment>, bytes: seq<Byte>, little: bool)
    requires ReadsSegments(read, little) && read(bytes).Good?
    ensures
      var r := read(bytes);
      Fits(|r.value|) && bytes == TextBytes(r.value, little) + r.rest && |r.rest| < |bytes|
  {
    assert read(bytes) == ReadSegment(bytes, little);
    TextSound(bytes, little);
  }

  /** The segments before a rest are exactly what these bytes hold. */
  ghost predicate HoldsSegments(bytes: seq<Byte>, name: seq<Segment>, rest: seq<Byte>, little: bool) {
    && (forall i :: 0 <= i < |name| ==> Fits(|name[i]|))
    && bytes == SegmentsBytes(name, little) + rest && |rest| <= |bytes|
  }

  lemma SegmentInFront(
    bytes: seq<Byte>, segment: Segment, rest: seq<Byte>, more: seq<Segment>, left: seq<Byte>, little: bool)
    requires Fits(|segment|) && bytes == TextBytes(segment, little) + rest && HoldsSegments(rest, more, left, little)
    ensures HoldsSegments(bytes, [segment] + more, left, little)
  {
    var name := [segment] + more;
    assert name[0] == segment && name[1..] == more;
    forall i | 0 <= i < |name| ensures Fits(|name[i]|) {
      if i > 0 { assert name[i] == more[i - 1]; }
    }
    Regroup(TextBytes(segment, little), SegmentsBytes(more, little), left);
  }

  lemma {:induction false} ManySegmentsSound(
    read: seq<Byte> -> Parsed<Segment>, bytes: seq<Byte>, count: nat, little: bool)
    requires ReadsSegments(read, little) && ReadMany(read, bytes, count).Good?
    ensures
      var r := ReadMany(read, bytes, count);
      |r.value| == count && HoldsSegments(bytes, r.value, r.rest, little)
    decreases count
  {
    if count == 0 {
      assert SegmentsBytes([], little) + bytes == bytes;
    } else {
      ManySplits(read, bytes, count);
      var first := read(bytes);
      SegmentSound(read, bytes, little);
      ManySegmentsSound(read, first.rest, count - 1, little);
      var more := ReadMany(read, first.rest, count - 1);
      SegmentInFront(bytes, first.value, first.rest, more.value, more.rest, little);
    }
  }

  lemma SegmentsSound(bytes: seq<Byte>, count: nat, little: bool)
    requires ReadSegments(bytes, count, little).Good?
    ensures
      var r := ReadSegments(bytes, count, little);
      |r.value| == count && HoldsSegments(bytes, r.value, r.rest, little)
  {
    ManySegmentsSound(SegmentReader(little), bytes, count, little);
  }

  lemma NameSound(bytes: seq<Byte>, little: bool)
    requires ReadName(bytes, little).Good?
    ensures
      var r := ReadName(bytes, little);
      NameFits(r.value) && bytes == NameBytes(r.value, little) + r.rest && |r.rest| < |bytes|
  {
    U32Sound(bytes, little);
    var u := ReadU32(bytes, little);
    SegmentsSound(u.rest, u.value, little);
    var r := ReadName(bytes, little);
    Regroup(U32Bytes(u.value, little), SegmentsBytes(r.value, little), r.rest);
  }

  lemma TagSound(bytes: seq<Byte>)
    requires ReadTag(bytes).Good?
    ensures bytes == [ReadTag(bytes).value] + ReadTag(bytes).rest
  {}

  lemma ModuleSound(bytes: seq<Byte>, little: bool)
    requires ReadModule(bytes, little).Good?
    ensures
      var r := ReadModule(bytes, little);
      ModuleFits(r.value) && bytes == ModuleBytes(r.value, little) + r.rest && |r.rest| < |bytes|
  {
    TagSound(bytes);
    var t, r := ReadTag(bytes), ReadModule(bytes, little);
    if t.value == 1 {
      NameSound(t.rest, little);
      Regroup([1], NameBytes(r.value.value.name, little), r.rest);
    } else if t.value == 2 {
      NameSound(t.rest, little);
      var p := ReadName(t.rest, little);
      NameSound(p.rest, little);
      var a, b := NameBytes(p.value, little), NameBytes(r.value.value.target, little);
      Regroup(a, b, r.rest);
      Regroup([2], a + b, r.rest);
    }
  }

  lemma HeaderSound(bytes: seq<Byte>, little: bool)
    requires ReadU32(bytes, little).Good? && ReadTag(ReadU32(bytes, little).rest).Good?
    ensures
      var u := ReadU32(bytes, little);
      var t := ReadTag(u.rest);
      bytes == U32Bytes(u.value, little) + ([t.value] + t.rest) && |t.rest| < |bytes|
  {
    U32Sound(bytes, little);
    TagSound(ReadU32(bytes, little).rest);
  }

  lemma NamedSound(bytes: seq<Byte>, little: bool)
    requires ReadModule(bytes, little).Good? && ReadText(ReadModule(bytes, little).rest, little).Good?
    ensures
      var m := ReadModule(bytes, little);
      var n := ReadText(m.rest, little);
      && ModuleFits(m.value) && Fits(|n.value|)
      && bytes == (ModuleBytes(m.value, little) + TextBytes(n.value, little)) + n.rest && |n.rest| < |bytes|
  {
    ModuleSound(bytes, little);
    var m := ReadModule(bytes, little);
    TextSound(m.rest, little);
    var n := ReadText(m.rest, little);
    Regroup(ModuleBytes(m.value, little), TextBytes(n.value, little), n.rest);
  }

  /** An arity, a tag and a body in front of a rest, regrouped. */
  lemma HeaderRegroup(u: seq<Byte>, tag: Byte, body: seq<Byte>, rest: seq<Byte>)
    ensures u + ([tag] + (body + rest)) == (u + ([tag] + body)) + rest
  {
    Regroup([tag], body, rest);
    Regroup(u, [tag] + body, rest);
  }

  lemma {:induction false} DenotationSound(bytes: seq<Byte>, little: bool)
    requires ReadDenotation(bytes, little).Good?
    ensures
      var r := ReadDenotation(bytes, little);
      DenotationFits(r.value) && bytes == DenotationBytes(r.value, little) + r.rest && |r.rest| < |bytes|
    decreases |bytes|
  {
    HeaderSound(bytes, little);
    var u, r := ReadU32(bytes, little), ReadDenotation(bytes, little);
    var t := ReadTag(u.rest);
    if t.value == 0 {
      NamedSound(t.rest, little);
      HeaderRegroup(U32Bytes(u.value, little), 0,
        ModuleBytes(r.value.owner, little) + TextBytes(r.value.name, little), r.rest);
    } else {
      U32Sound(t.rest, little);
      var o := ReadU32(t.rest, little);
      DenotationSound(o.rest, little);
      var p := DenotationBytes(r.value.parent, little);
      Regroup(U32Bytes(o.value, little), p, r.rest);
      HeaderRegroup(U32Bytes(u.value, little), 1, U32Bytes(o.value, little) + p, r.rest);
    }
  }

  /** The entries before a rest are exactly what these bytes hold. */
  ghost predicate HoldsEntries(bytes: seq<Byte>, table: seq<Entry>, rest: seq<Byte>, little: bool) {
    (forall i :: 0 <= i < |table| ==> EntryFits(table[i])) && bytes == EntriesBytes(table, little) + rest
  }

  lemma OneEntrySound(read: seq<Byte> -> Parsed<Entry>, bytes: seq<Byte>, little: bool)
    requires ReadsEntries(read, little) && read(bytes).Good?
    ensures
      var r := read(bytes);
      EntryFits(r.value) && bytes == EntryBytes(r.value, little) + r.rest
  {
    assert read(bytes) == ReadEntry(bytes, little);
    EntrySound(bytes, little);
  }

  lemma {:induction false} ManyEntriesSound(
    read: seq<Byte> -> Parsed<Entry>, bytes: seq<Byte>, count: nat, little: bool)
    requires ReadsEntries(read, little) && ReadMany(read, bytes, count).Good?
    ensures
      var r := ReadMany(read, bytes, count);
      |r.value| == count && HoldsEntries(bytes, r.value, r.rest, little)
    decreases count
  {
    if count == 0 {
      assert EntriesBytes([], little) + bytes == bytes;
    } else {
      ManySplits(read, bytes, count);
      var first := read(bytes);
      OneEntrySound(read, bytes, little);
      ManyEntriesSound(read, first.rest, count - 1, little);
      var more := ReadMany(read, first.rest, count - 1);
      EntryInFront(bytes, first.value, first.rest, more.value, more.rest, little);
    }
  }

  lemma EntriesSound(bytes: seq<Byte>, count: nat, little: bool)
    requires ReadEntries(bytes, count, little).Good?
    ensures
      var r := ReadEntries(bytes, count, little);
      |r.value| == count && HoldsEntries(bytes, r.value, r.rest, little)
  {
    ManyEntriesSound(EntryReader(little), bytes, count, little);
  }

  lemma EntryInFront(bytes: seq<Byte>, entry: Entry, rest: seq<Byte>, more: seq<Entry>, left: seq<Byte>, little: bool)
    requires EntryFits(entry) && bytes == EntryBytes(entry, little) + rest && HoldsEntries(rest, more, left, little)
    ensures HoldsEntries(bytes, [entry] + more, left, little)
  {
    var table := [entry] + more;
    assert table[0] == entry && table[1..] == more;
    forall i | 0 <= i < |table| ensures EntryFits(table[i]) {
      if i > 0 { assert table[i] == more[i - 1]; }
    }
    Regroup(EntryBytes(entry, little), EntriesBytes(more, little), left);
  }

  lemma EntrySound(bytes: seq<Byte>, little: bool)
    requires ReadEntry(bytes, little).Good?
    ensures
      var r := ReadEntry(bytes, little);
      EntryFits(r.value) && bytes == EntryBytes(r.value, little) + r.rest
  {
    U32Sound(bytes, little);
    var u := ReadU32(bytes, little);
    DenotationSound(u.rest, little);
    var d := ReadDenotation(u.rest, little);
    Regroup(U32Bytes(u.value, little), DenotationBytes(d.value, little), d.rest);
  }

  lemma TableSound(bytes: seq<Byte>, little: bool)
    requires ReadTable(bytes, little).Good?
    ensures
      var r := ReadTable(bytes, little);
      Encodable(r.value) && bytes == TableBytes(r.value, little) + r.rest
  {
    U32Sound(bytes, little);
    var u, r := ReadU32(bytes, little), ReadTable(bytes, little);
    EntriesSound(u.rest, u.value, little);
    Regroup(U32Bytes(u.value, little), EntriesBytes(r.value, little), r.rest);
  }

  // -------------------------------------------------------------- main results

  /** Decoding an encoded table gives the table back. */
  lemma DecodeAfterEncode(table: seq<Entry>, little: bool)
    requires Encodable(table)
    ensures Decode(TableBytes(table, little), little) == Good(table, [])
  {
    TableComplete(table, little, []);
    assert TableBytes(table, little) + [] == TableBytes(table, little);
  }

  /** Every accepted byte string is the encoding of the table it decodes to. */
  lemma EncodeAfterDecode(bytes: seq<Byte>, little: bool)
    requires Decode(bytes, little).Good?
    ensures
      var table := Decode(bytes, little).value;
      Encodable(table) && TableBytes(table, little) == bytes
  {
    TableSound(bytes, little);
    var table := Decode(bytes, little).value;
    assert TableBytes(table, little) + [] == TableBytes(table, little);
  }

  /** No strict extension of an accepted string is accepted, and no strict prefix. */
  lemma AcceptedStringsAreIsolated(bytes: seq<Byte>, more: seq<Byte>, little: bool)
    requires more != []
    ensures !(Decode(bytes, little).Good? && Decode(bytes + more, little).Good?)
    ensures Decode(bytes, little).Good? ==> Decode(bytes + more, little) == Bad(Trailing)
  {
    if Decode(bytes, little).Good? {
      EncodeAfterDecode(bytes, little);
      TableComplete(Decode(bytes, little).value, little, more);
    }
  }
}
