/** The carrier as the runtime writes and reads it: bytes appended in loops, a reader that advances over its slice. */
module DenotationCarrier {
  import opened Options
  import opened Bitstrings
  import opened Utf8
  import opened Denotations
  import opened DenotationCodec

  // ------------------------------------------------------------------ writing

  lemma {:induction false} SegmentAtTheEnd(name: seq<Segment>, segment: Segment, little: bool)
    requires (forall i :: 0 <= i < |name| ==> Fits(|name[i]|)) && Fits(|segment|)
    ensures forall i :: 0 <= i < |name + [segment]| ==> Fits(|(name + [segment])[i]|)
    ensures SegmentsBytes(name + [segment], little) == SegmentsBytes(name, little) + TextBytes(segment, little)
    decreases |name|
  {
    if name == [] {
      assert (name + [segment])[1..] == [];
    } else {
      SegmentAtTheEnd(name[1..], segment, little);
      assert (name + [segment])[1..] == name[1..] + [segment];
      Regroup(TextBytes(name[0], little), SegmentsBytes(name[1..], little), TextBytes(segment, little));
    }
  }

  method EncodeName(name: ModuleName, little: bool) returns (r: Option<seq<Byte>>)
    ensures r == if NameFits(name) then Some(NameBytes(name, little)) else None
  {
    if !Fits(|name|) {
      return None;
    }
    var bytes := U32Bytes(|name|, little);
    for i := 0 to |name|
      invariant forall k :: 0 <= k < i ==> Fits(|name[k]|)
      invariant bytes == U32Bytes(|name|, little) + SegmentsBytes(name[..i], little)
    {
      if !Fits(|name[i]|) {
        return None;
      }
      SegmentAtTheEnd(name[..i], name[i], little);
      assert name[..i] + [name[i]] == name[..i + 1];
      Regroup(U32Bytes(|name|, little), SegmentsBytes(name[..i], little), TextBytes(name[i], little));
      bytes := bytes + TextBytes(name[i], little);
    }
    assert name[..|name|] == name;
    return Some(bytes);
  }

  method EncodeModule(m: Option<Module>, little: bool) returns (r: Option<seq<Byte>>)
    ensures r == if ModuleFits(m) then Some(ModuleBytes(m, little)) else None
  {
    match m {
      case None => r := Some([0]);
      case Some(NamedModule(name)) =>
        var n := EncodeName(name, little);
        r := if n.Some? then Some([1] + n.value) else None;
      case Some(ProtocolImpl(protocol, target)) =>
        var p := EncodeName(protocol, little);
        var t := EncodeName(target, little);
        r := if p.Some? && t.Some? then Some([2] + (p.value + t.value)) else None;
    }
  }

  /** From the denotation outwards in: each generated owner in turn, then the named function. */
  method EncodeDenotation(d: Denotation, little: bool) returns (r: Option<seq<Byte>>)
    ensures r == if DenotationFits(d) then Some(DenotationBytes(d, little)) else None
  {
    var bytes: seq<Byte> := [];
    var current := d;
    while current.Generated?
      invariant DenotationFits(d) <==> DenotationFits(current)
      invariant DenotationFits(d) ==> bytes + DenotationBytes(current, little) == DenotationBytes(d, little)
      decreases current
    {
      if !Fits(current.arity) {
        return None;
      }
      var head := U32Bytes(current.arity, little) + ([1] + U32Bytes(current.occurrence, little));
      if DenotationFits(current.parent) {
        var body := DenotationBytes(current.parent, little);
        HeaderRegroup(U32Bytes(current.arity, little), 1, U32Bytes(current.occurrence, little), body);
        Regroup(bytes, head, body);
      }
      bytes := bytes + head;
      current := current.parent;
    }
    var m := EncodeModule(current.owner, little);
    if !Fits(current.arity) || m.None? || !Fits(|current.name|) {
      return None;
    }
    return Some(bytes + (U32Bytes(current.arity, little) + ([0] + (m.value + TextBytes(current.name, little)))));
  }

  lemma {:induction false} EntryAtTheEnd(table: seq<Entry>, entry: Entry, little: bool)
    requires (forall i :: 0 <= i < |table| ==> EntryFits(table[i])) && EntryFits(entry)
    ensures forall i :: 0 <= i < |table + [entry]| ==> EntryFits((table + [entry])[i])
    ensures EntriesBytes(table + [entry], little)
         == EntriesBytes(table, little) + EntryBytes(entry, little)
    decreases |table|
  {
    var last := EntryBytes(entry, little);
    if table == [] {
      assert (table + [entry])[1..] == [] && last + [] == last;
    } else {
      assert EntryFits(table[0]);
      EntryAtTheEnd(table[1..], entry, little);
      assert (table + [entry])[1..] == table[1..] + [entry];
      Regroup(EntryBytes(table[0], little), EntriesBytes(table[1..], little), last);
    }
  }

  method EncodeEntry(e: Entry, little: bool) returns (r: Option<seq<Byte>>)
    ensures r == if EntryFits(e) then Some(EntryBytes(e, little)) else None
  {
    if e.0 == INTERNAL {
      return None;
    }
    var d := EncodeDenotation(e.1, little);
    r := if d.Some? then Some(U32Bytes(e.0, little) + d.value) else None;
  }

  /** The count and the first `n` entries are written. */
  ghost predicate Written(table: seq<Entry>, n: nat, bytes: seq<Byte>, little: bool) {
    && Fits(|table|) && n <= |table| && (forall k :: 0 <= k < n ==> EntryFits(table[k]))
    && bytes == U32Bytes(|table|, little) + EntriesBytes(table[..n], little)
  }

  lemma WrittenStep(table: seq<Entry>, n: nat, bytes: seq<Byte>, little: bool)
    requires Written(table, n, bytes, little) && n < |table| && EntryFits(table[n])
    ensures Written(table, n + 1, bytes + EntryBytes(table[n], little), little)
  {
    EntryAtTheEnd(table[..n], table[n], little);
    assert table[..n] + [table[n]] == table[..n + 1];
    Regroup(U32Bytes(|table|, little), EntriesBytes(table[..n], little), EntryBytes(table[n], little));
  }

  lemma WrittenAll(table: seq<Entry>, bytes: seq<Byte>, little: bool)
    requires Written(table, |table|, bytes, little)
    ensures Encodable(table) && bytes == TableBytes(table, little)
  {
    assert table[..|table|] == table;
  }

  /** Encoding succeeds exactly on encodable tables. */
  method EncodeTable(table: seq<Entry>, little: bool) returns (r: Option<seq<Byte>>)
    ensures r == if Encodable(table) then Some(TableBytes(table, little)) else None
  {
    if !Fits(|table|) {
      return None;
    }
    var bytes := U32Bytes(|table|, little);
    for i := 0 to |table|
      invariant Written(table, i, bytes, little)
    {
      var entry := EncodeEntry(table[i], little);
      if entry.None? {
        return None;
      }
      WrittenStep(table, i, bytes, little);
      bytes := bytes + entry.value;
    }
    WrittenAll(table, bytes, little);
    return Some(bytes);
  }

  // ------------------------------------------------------------------ reading

  datatype Got<+T> = Fail(fault: Fault) | Got(value: T)

  /** A read that did what the specification says, leaving the reader at what follows. */
  ghost predicate Agrees<T>(r: Got<T>, rest: seq<Byte>, spec: Parsed<T>) {
    match spec
    case Bad(fault) => r == Fail(fault)
    case Good(value, left) => r == Got(value) && rest == left
  }

  /** Generated layers, outermost first, around a denotation. */
  function Wrapped(layers: seq<(U32, U32)>, d: Denotation): Denotation
    decreases |layers|
  {
    if layers == [] then d
    else
      var last := layers[|layers| - 1];
      Wrapped(layers[..|layers| - 1], Generated(d, last.1, last.0))
  }

  ghost function WrappedResult(layers: seq<(U32, U32)>, p: Parsed<Denotation>): Parsed<Denotation> {
    match p
    case Bad(fault) => Bad(fault)
    case Good(d, rest) => Good(Wrapped(layers, d), rest)
  }

  class DenotationReader {
    var rest: seq<Byte>
    const little: bool

    constructor (bytes: seq<Byte>, little: bool)
      ensures rest == bytes && this.little == little
    {
      rest := bytes;
      this.little := little;
    }

    method Take(length: nat) returns (r: Got<seq<Byte>>)
      modifies this
      ensures r.Fail? <==> |old(rest)| < length
      ensures r.Fail? ==> r == Fail(Truncated)
      ensures r.Got? ==> r.value == old(rest)[..length] && rest == old(rest)[length..]
    {
      if |rest| < length {
        return Fail(Truncated);
      }
      r := Got(rest[..length]);
      rest := rest[length..];
    }

    method TakeU32() returns (r: Got<U32>)
      modifies this
      ensures Agrees(r, rest, ReadU32(old(rest), little))
    {
      var word := Take(4);
      r := if word.Fail? then Fail(word.fault) else Got(U32Value(word.value, little));
    }

    method TakeTag() returns (r: Got<Byte>)
      modifies this
      ensures Agrees(r, rest, ReadTag(old(rest)))
    {
      var tag := Take(1);
      r := if tag.Fail? then Fail(tag.fault) else Got(tag.value[0]);
    }

    method TakeText() returns (r: Got<Text>)
      modifies this
      ensures Agrees(r, rest, ReadText(old(rest), little))
    {
      var length := TakeU32();
      if length.Fail? {
        return Fail(length.fault);
      }
      var bytes := Take(length.value);
      if bytes.Fail? {
        return Fail(bytes.fault);
      }
      r := if ValidFrom(bytes.value) then Got(bytes.value) else Fail(InvalidText);
    }

    /** One segment, as the reader of segments gives it. */
    method TakeSegment(ghost read: seq<Byte> -> Parsed<Segment>) returns (r: Got<Segment>)
      requires ReadsSegments(read, little)
      modifies this
      ensures Agrees(r, rest, read(old(rest)))
    {
      assert read(rest) == ReadSegment(rest, little);
      var text := TakeText();
      r := if text.Fail? then Fail(text.fault) else if text.value == [] then Fail(EmptySegment) else Got(text.value);
    }

    method TakeSegments(count: nat, ghost read: seq<Byte> -> Parsed<Segment>) returns (r: Got<seq<Segment>>)
      requires ReadsSegments(read, little)
      modifies this
      ensures Agrees(r, rest, ReadMany(read, old(rest), count))
    {
      var segments: seq<Segment> := [];
      ghost var goal := ReadMany(read, rest, count);
      ReadStarts(read, rest, count);
      for i := 0 to count
        invariant goal == Prefixed(segments, ReadMany(read, rest, count - i))
      {
        ReadNext(read, segments, rest, count - i);
        var segment := TakeSegment(read);
        if segment.Fail? {
          return Fail(segment.fault);
        }
        segments := segments + [segment.value];
      }
      ReadDone(read, segments, rest);
      r := Got(segments);
    }

    method TakeName() returns (r: Got<ModuleName>)
      modifies this
      ensures Agrees(r, rest, ReadName(old(rest), little))
    {
      var count := TakeU32();
      if count.Fail? {
        return Fail(count.fault);
      }
      if count.value == 0 {
        return Fail(EmptyModule);
      }
      var segments := TakeSegments(count.value, SegmentReader(little));
      if segments.Fail? {
        return Fail(segments.fault);
      }
      r := if segments.value == [] then Fail(EmptyModule) else Got(segments.value);
    }

    method TakeModule() returns (r: Got<Option<Module>>)
      modifies this
      ensures Agrees(r, rest, ReadModule(old(rest), little))
    {
      var tag := TakeTag();
      if tag.Fail? {
        return Fail(tag.fault);
      }
      if tag.value == 0 {
        return Got(None);
      }
      if tag.value > 2 {
        return Fail(BadModuleTag);
      }
      var first := TakeName();
      if first.Fail? {
        return Fail(first.fault);
      }
      if tag.value == 1 {
        return Got(Some(NamedModule(first.value)));
      }
      var second := TakeName();
      r := if second.Fail? then Fail(second.fault) else Got(Some(ProtocolImpl(first.value, second.value)));
    }

    method TakeNamed(arity: U32) returns (r: Got<Denotation>)
      modifies this
      ensures Agrees(r, rest, ReadNamed(old(rest), arity, little))
    {
      var owner := TakeModule();
      if owner.Fail? {
        return Fail(owner.fault);
      }
      var name := TakeText();
      r := if name.Fail? then Fail(name.fault) else Got(Named(owner.value, name.value, arity));
    }

    /** Collect generated layers until a named function, then wrap it from the innermost layer out. */
    method TakeDenotation() returns (r: Got<Denotation>)
      modifies this
      ensures Agrees(r, rest, ReadDenotation(old(rest), little))
    {
      var layers: seq<(U32, U32)> := [];
      while true
        invariant ReadDenotation(old(rest), little) == WrappedResult(layers, ReadDenotation(rest, little))
        decreases |rest|
      {
        ghost var start := rest;
        var arity := TakeU32();
        if arity.Fail? {
          return Fail(arity.fault);
        }
        var tag := TakeTag();
        if tag.Fail? {
          return Fail(tag.fault);
        }
        if tag.value == 0 {
          var named := TakeNamed(arity.value);
          if named.Fail? {
            return Fail(named.fault);
          }
          var d := WrapLayers(layers, named.value);
          return Got(d);
        }
        if tag.value != 1 {
          return Fail(BadTag);
        }
        var occurrence := TakeU32();
        if occurrence.Fail? {
          return Fail(occurrence.fault);
        }
        WrappedStep(layers, arity.value, occurrence.value, ReadDenotation(rest, little));
        layers := layers + [(arity.value, occurrence.value)];
      }
    }
  }

  method WrapLayers(layers: seq<(U32, U32)>, d: Denotation) returns (r: Denotation)
    ensures r == Wrapped(layers, d)
  {
    r := d;
    var left := layers;
    while left != []
      invariant Wrapped(left, r) == Wrapped(layers, d)
      decreases |left|
    {
      var last := left[|left| - 1];
      r := Generated(r, last.1, last.0);
      left := left[..|left| - 1];
    }
  }

  lemma WrappedStep(layers: seq<(U32, U32)>, arity: U32, occurrence: U32, p: Parsed<Denotation>)
    ensures WrappedResult(layers + [(arity, occurrence)], p) ==
      match p
      case Bad(fault) => Bad(fault)
      case Good(d, rest) => WrappedResult(layers, Good(Generated(d, occurrence, arity), rest))
  {
    assert (layers + [(arity, occurrence)])[..|layers|] == layers;
  }

  // ------------------------------------------------------------ whole carriers

  ghost function Prefixed<T>(front: seq<T>, p: Parsed<seq<T>>): Parsed<seq<T>> {
    match p
    case Bad(fault) => Bad(fault)
    case Good(more, rest) => Good(front + more, rest)
  }

  lemma ReadStarts<T>(read: seq<Byte> -> Parsed<T>, bytes: seq<Byte>, count: nat)
    ensures Prefixed([], ReadMany(read, bytes, count)) == ReadMany(read, bytes, count)
  {
    var p := ReadMany(read, bytes, count);
    if p.Good? { assert [] + p.value == p.value; }
  }

  /** What reading on comes to, once the next item is read. */
  lemma ReadNext<T>(read: seq<Byte> -> Parsed<T>, front: seq<T>, bytes: seq<Byte>, count: nat)
    requires count > 0
    ensures Prefixed(front, ReadMany(read, bytes, count)) ==
      match read(bytes)
      case Bad(fault) => Bad(fault)
      case Good(item, rest) => Prefixed(front + [item], ReadMany(read, rest, count - 1))
  {
    if read(bytes).Good? {
      var item, p := read(bytes).value, ReadMany(read, read(bytes).rest, count - 1);
      if p.Good? { assert front + [item] + p.value == front + ([item] + p.value); }
    }
  }

  lemma ReadDone<T>(read: seq<Byte> -> Parsed<T>, front: seq<T>, bytes: seq<Byte>)
    ensures Prefixed(front, ReadMany(read, bytes, 0)) == Good(front, bytes)
  {
    assert front + [] == front;
  }

  /** One entry off the reader: its id, then its denotation. */
  method TakeEntry(reader: DenotationReader, ghost read: seq<Byte> -> Parsed<Entry>) returns (r: Got<Entry>)
    requires ReadsEntries(read, reader.little)
    modifies reader
    ensures Agrees(r, reader.rest, read(old(reader.rest)))
  {
    assert read(reader.rest) == ReadEntry(reader.rest, reader.little);
    var id := reader.TakeU32();
    if id.Fail? {
      return Fail(id.fault);
    }
    if id.value == INTERNAL {
      return Fail(InternalId);
    }
    var d := reader.TakeDenotation();
    r := if d.Fail? then Fail(d.fault) else Got((id.value, d.value));
  }

  /** As many entries off the reader as were announced. */
  method TakeEntries(reader: DenotationReader, count: nat, ghost read: seq<Byte> -> Parsed<Entry>)
    returns (r: Got<seq<Entry>>)
    requires ReadsEntries(read, reader.little)
    modifies reader
    ensures Agrees(r, reader.rest, ReadMany(read, old(reader.rest), count))
  {
    var table: seq<Entry> := [];
    ghost var goal := ReadMany(read, reader.rest, count);
    ReadStarts(read, reader.rest, count);
    for i := 0 to count
      invariant goal == Prefixed(table, ReadMany(read, reader.rest, count - i))
    {
      ReadNext(read, table, reader.rest, count - i);
      var entry := TakeEntry(reader, read);
      if entry.Fail? {
        return Fail(entry.fault);
      }
      table := table + [entry.value];
    }
    ReadDone(read, table, reader.rest);
    r := Got(table);
  }

  /** The whole table, with nothing left over. */
  method DecodeTable(bytes: seq<Byte>, little: bool) returns (r: Got<seq<Entry>>)
    ensures Agrees(r, [], Decode(bytes, little))
  {
    var reader := new DenotationReader(bytes, little);
    var count := reader.TakeU32();
    if count.Fail? {
      return Fail(count.fault);
    }
    var table := TakeEntries(reader, count.value, EntryReader(little));
    if table.Fail? {
      return Fail(table.fault);
    }
    r := if reader.rest == [] then table else Fail(Trailing);
  }
}
