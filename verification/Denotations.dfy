/** Function denotations: their byte carrier, written in order and read back exactly, and their semantic order. */
module Denotations {
  import opened Options
  import opened Bitstrings
  import opened Utf8

  /** Source text is valid UTF-8; a module name is one or more non-empty segments. */
  type Text = s: seq<Byte> | ValidFrom(s) witness []
  type Segment = s: seq<Byte> | s != [] && ValidFrom(s) witness [0x61]
  const ANY_SEGMENT: Segment := [0x61]
  type ModuleName = m: seq<Segment> | m != [] witness [ANY_SEGMENT]
  type U32 = n: nat | n < 0x1_0000_0000

  const INTERNAL: U32 := 0xffff_ffff

  datatype Module = NamedModule(name: ModuleName) | ProtocolImpl(protocol: ModuleName, target: ModuleName)

  datatype Denotation =
    | Named(owner: Option<Module>, name: Text, arity: nat)
    | Generated(parent: Denotation, occurrence: U32, arity: nat)

  type Entry = (U32, Denotation)

  /** What fits the carrier's 32-bit fields. */
  predicate Fits(n: nat) { n < 0x1_0000_0000 }

  predicate NameFits(name: ModuleName) {
    Fits(|name|) && forall i :: 0 <= i < |name| ==> Fits(|name[i]|)
  }

  predicate ModuleFits(m: Option<Module>) {
    match m
    case None => true
    case Some(NamedModule(name)) => NameFits(name)
    case Some(ProtocolImpl(protocol, target)) => NameFits(protocol) && NameFits(target)
  }

  predicate DenotationFits(d: Denotation) {
    match d
    case Named(owner, name, arity) => Fits(arity) && ModuleFits(owner) && Fits(|name|)
    case Generated(parent, _, arity) => Fits(arity) && DenotationFits(parent)
  }

  predicate EntryFits(e: Entry) { e.0 != INTERNAL && DenotationFits(e.1) }

  predicate Encodable(table: seq<Entry>) {
    Fits(|table|) && forall i :: 0 <= i < |table| ==> EntryFits(table[i])
  }

  // ------------------------------------------------------------------ encoding

  /** Four bytes in the host's order. */
  function U32Bytes(v: U32, little: bool): seq<Byte> {
    var a, b, c, d := v / 0x100_0000, v / 0x1_0000 % 256, v / 256 % 256, v % 256;
    if little then [d, c, b, a] else [a, b, c, d]
  }

  function TextBytes(s: seq<Byte>, little: bool): seq<Byte>
    requires Fits(|s|)
  {
    U32Bytes(|s|, little) + s
  }

  function SegmentsBytes(name: seq<Segment>, little: bool): seq<Byte>
    requires forall i :: 0 <= i < |name| ==> Fits(|name[i]|)
  {
    if name == [] then [] else TextBytes(name[0], little) + SegmentsBytes(name[1..], little)
  }

  function NameBytes(name: ModuleName, little: bool): seq<Byte>
    requires NameFits(name)
  {
    U32Bytes(|name|, little) + SegmentsBytes(name, little)
  }

  function ModuleBytes(m: Option<Module>, little: bool): seq<Byte>
    requires ModuleFits(m)
  {
    match m
    case None => [0]
    case Some(NamedModule(name)) => [1] + NameBytes(name, little)
    case Some(ProtocolImpl(protocol, target)) => [2] + (NameBytes(protocol, little) + NameBytes(target, little))
  }

  function DenotationBytes(d: Denotation, little: bool): seq<Byte>
    requires DenotationFits(d)
  {
    match d
    case Named(owner, name, arity) =>
      U32Bytes(arity, little) + ([0] + (ModuleBytes(owner, little) + TextBytes(name, little)))
    case Generated(parent, occurrence, arity) =>
      U32Bytes(arity, little) + ([1] + (U32Bytes(occurrence, little) + DenotationBytes(parent, little)))
  }

  function EntryBytes(e: Entry, little: bool): seq<Byte>
    requires EntryFits(e)
  {
    U32Bytes(e.0, little) + DenotationBytes(e.1, little)
  }

  function EntriesBytes(table: seq<Entry>, little: bool): seq<Byte>
    requires forall i :: 0 <= i < |table| ==> EntryFits(table[i])
  {
    if table == [] then []
    else
      assert EntryFits(table[0]);
      EntryBytes(table[0], little) + EntriesBytes(table[1..], little)
  }

  function TableBytes(table: seq<Entry>, little: bool): seq<Byte>
    requires Encodable(table)
  {
    U32Bytes(|table|, little) + EntriesBytes(table, little)
  }

  // ------------------------------------------------------------------ decoding

  datatype Fault =
    | Truncated | InvalidText | EmptyModule | EmptySegment | BadModuleTag | BadTag | InternalId | Trailing

  datatype Parsed<+T> = Bad(fault: Fault) | Good(value: T, rest: seq<Byte>)

  function U32Value(b: seq<Byte>, little: bool): U32
    requires |b| == 4
  {
    var w: seq<int> := if little then [b[3], b[2], b[1], b[0]] else b;
    w[0] * 0x100_0000 + w[1] * 0x1_0000 + w[2] * 256 + w[3]
  }

  function ReadU32(bytes: seq<Byte>, little: bool): Parsed<U32> {
    if |bytes| < 4 then Bad(Truncated) else Good(U32Value(bytes[..4], little), bytes[4..])
  }

  function ReadTag(bytes: seq<Byte>): Parsed<Byte> {
    if bytes == [] then Bad(Truncated) else Good(bytes[0], bytes[1..])
  }

  function ReadText(bytes: seq<Byte>, little: bool): Parsed<Text> {
    match ReadU32(bytes, little)
    case Bad(fault) => Bad(fault)
    case Good(length, rest) =>
      if |rest| < length then Bad(Truncated)
      else if !ValidFrom(rest[..length]) then Bad(InvalidText)
      else Good(rest[..length], rest[length..])
  }

  /** Items read one after another. */
  function ReadMany<T>(read: seq<Byte> -> Parsed<T>, bytes: seq<Byte>, count: nat): Parsed<seq<T>>
    decreases count
  {
    if count == 0 then Good([], bytes)
    else
      match read(bytes)
      case Bad(fault) => Bad(fault)
      case Good(item, rest) =>
        match ReadMany(read, rest, count - 1)
        case Bad(fault) => Bad(fault)
        case Good(more, rest) => Good([item] + more, rest)
  }

  /** A text that is not empty. */
  function ReadSegment(bytes: seq<Byte>, little: bool): Parsed<Segment> {
    match ReadText(bytes, little)
    case Bad(fault) => Bad(fault)
    case Good(segment, rest) => if segment == [] then Bad(EmptySegment) else Good(segment, rest)
  }

  function SegmentReader(little: bool): seq<Byte> -> Parsed<Segment> { bytes => ReadSegment(bytes, little) }

  function ReadSegments(bytes: seq<Byte>, count: nat, little: bool): Parsed<seq<Segment>> {
    ReadMany(SegmentReader(little), bytes, count)
  }

  function ReadName(bytes: seq<Byte>, little: bool): (r: Parsed<ModuleName>)
  {
    match ReadU32(bytes, little)
    case Bad(fault) => Bad(fault)
    case Good(count, rest) =>
      if count == 0 then Bad(EmptyModule)
      else
        match ReadSegments(rest, count, little)
        case Bad(fault) => Bad(fault)
        case Good(segments, rest) => if segments == [] then Bad(EmptyModule) else Good(segments, rest)
  }

  function ReadModule(bytes: seq<Byte>, little: bool): Parsed<Option<Module>> {
    match ReadTag(bytes)
    case Bad(fault) => Bad(fault)
    case Good(tag, rest) =>
      if tag == 0 then Good(None, rest)
      else if tag == 1 then
        match ReadName(rest, little)
        case Bad(fault) => Bad(fault)
        case Good(name, rest) => Good(Some(NamedModule(name)), rest)
      else if tag == 2 then
        match ReadName(rest, little)
        case Bad(fault) => Bad(fault)
        case Good(protocol, rest) =>
          match ReadName(rest, little)
          case Bad(fault) => Bad(fault)
          case Good(target, rest) => Good(Some(ProtocolImpl(protocol, target)), rest)
      else Bad(BadModuleTag)
  }

  function ReadNamed(bytes: seq<Byte>, arity: U32, little: bool): Parsed<Denotation> {
    match ReadModule(bytes, little)
    case Bad(fault) => Bad(fault)
    case Good(owner, rest) =>
      match ReadText(rest, little)
      case Bad(fault) => Bad(fault)
      case Good(name, rest) => Good(Named(owner, name, arity), rest)
  }

  function ReadDenotation(bytes: seq<Byte>, little: bool): Parsed<Denotation>
    decreases |bytes|
  {
    match ReadU32(bytes, little)
    case Bad(fault) => Bad(fault)
    case Good(arity, rest) =>
      match ReadTag(rest)
      case Bad(fault) => Bad(fault)
      case Good(tag, rest) =>
        if tag == 0 then ReadNamed(rest, arity, little)
        else if tag == 1 then
          match ReadU32(rest, little)
          case Bad(fault) => Bad(fault)
          case Good(occurrence, rest) =>
            match ReadDenotation(rest, little)
            case Bad(fault) => Bad(fault)
            case Good(parent, rest) => Good(Generated(parent, occurrence, arity), rest)
        else Bad(BadTag)
  }

  /** An id that is not the reserved one, then its denotation. */
  function ReadEntry(bytes: seq<Byte>, little: bool): Parsed<Entry> {
    match ReadU32(bytes, little)
    case Bad(fault) => Bad(fault)
    case Good(id, rest) =>
      if id == INTERNAL then Bad(InternalId)
      else
        match ReadDenotation(rest, little)
        case Bad(fault) => Bad(fault)
        case Good(d, rest) => Good((id, d), rest)
  }

  function EntryReader(little: bool): seq<Byte> -> Parsed<Entry> { bytes => ReadEntry(bytes, little) }

  function ReadEntries(bytes: seq<Byte>, count: nat, little: bool): Parsed<seq<Entry>> {
    ReadMany(EntryReader(little), bytes, count)
  }

  function ReadTable(bytes: seq<Byte>, little: bool): Parsed<seq<Entry>> {
    match ReadU32(bytes, little)
    case Bad(fault) => Bad(fault)
    case Good(count, rest) => ReadEntries(rest, count, little)
  }

  /** The whole carrier and nothing after it. */
  function Decode(bytes: seq<Byte>, little: bool): Parsed<seq<Entry>> {
    match ReadTable(bytes, little)
    case Bad(fault) => Bad(fault)
    case Good(table, rest) => if rest == [] then Good(table, []) else Bad(Trailing)
  }
}
