/**
 Runtime type tests: a union over eleven axes, the two-test relations a
 dispatch seat reads, and the two readings of one test on a value.
 */
module TypeTests {
  import opened Options
  import opened FiniteSets
  import opened Naturals

  datatype ListShape = Empty | NonEmpty

  datatype Axis =
    | Ints | Floats | Atoms | Lists | Tuples | NamedStructs
    | OtherStructs | Maps | Binaries | Callables | Resources

  datatype Precision = Separating | Erasing | PerPosition

  function AxisPrecision(axis: Axis): Precision {
    match axis
    case Ints | Floats | Atoms => Separating
    case Lists | Tuples | Callables => PerPosition
    case NamedStructs | OtherStructs | Maps | Binaries | Resources => Erasing
  }

  // ---------------------------------------------------------------- tests

  datatype TypeTest = TypeTest(
    ints: FiniteSet<int>,
    floats: FiniteSet<int>,
    atoms: FiniteSet<string>,
    lists: ListShapes,
    tuples: TupleShapes,
    namedStructs: FiniteSet<string>,
    allowOtherStructs: bool,
    maps: bool,
    binaries: bool,
    callables: CallableShapes,
    resources: bool)

  /** Which list shapes, and one head question per cons-admitting clause. */
  datatype ListShapes = ListShapes(shapes: FiniteSet<ListShape>, heads: seq<TypeTest>, exact: bool) {
    predicate AsksTheHead() {
      exact && heads != [] && shapes.Contains(NonEmpty)
    }
  }

  /** Which arities, and one question per position of each shape. */
  datatype TupleShapes = TupleShapes(arities: FiniteSet<nat>, shapes: seq<TupleShape>, exact: bool)

  datatype TupleShape = TupleShape(positions: seq<TypeTest>)

  /** One construction: its code and one question per capture. */
  datatype CallableShape = CallableShape(target: nat, captures: seq<TypeTest>)

  datatype CallableShapes = CallableShapes(targets: FiniteSet<nat>, shapes: seq<CallableShape>, exact: bool)

  function ListsNone(): ListShapes { ListShapes(FiniteSets.None(), [], true) }

  function TuplesExact(shapes: seq<TupleShape>): TupleShapes {
    TupleShapes(FiniteSet(set i | 0 <= i < |shapes| :: |shapes[i].positions|, false), shapes, true)
  }
  function TuplesArityOnly(arities: FiniteSet<nat>): TupleShapes { TupleShapes(arities, [], false) }

  function CallablesExact(shapes: seq<CallableShape>): CallableShapes {
    CallableShapes(FiniteSet(set i | 0 <= i < |shapes| :: shapes[i].target, false), shapes, true)
  }

  function NoneTest(): TypeTest {
    TypeTest(FiniteSets.None(), FiniteSets.None(), FiniteSets.None(), ListsNone(), TuplesExact([]),
             FiniteSets.None(), false, false, false, CallablesExact([]), false)
  }

  function TupleArityTest(arity: nat): TypeTest {
    NoneTest().(tuples := TuplesArityOnly(Lit(arity)))
  }

  // ------------------------------------------------- relations of two tests

  predicate ContainedIn(p: TypeTest, q: TypeTest)
    decreases p, 1
  {
    forall axis: Axis :: AxisContainedIn(p, q, axis)
  }

  predicate AxisContainedIn(p: TypeTest, q: TypeTest, axis: Axis)
    decreases p, 0
  {
    match axis
    case Ints => q.ints.ContainsAll(p.ints)
    case Floats => q.floats.ContainsAll(p.floats)
    case Atoms => q.atoms.ContainsAll(p.atoms)
    case Lists => ListsContainAll(q.lists, p.lists)
    case Tuples => TuplesContainAll(q.tuples, p.tuples)
    case NamedStructs => q.namedStructs.ContainsAll(p.namedStructs)
    case OtherStructs => q.allowOtherStructs || !p.allowOtherStructs
    case Maps => q.maps || !p.maps
    case Binaries => q.binaries || !p.binaries
    case Callables => CallablesContainAll(q.callables, p.callables)
    case Resources => q.resources || !p.resources
  }

  predicate ListsContainAll(ours: ListShapes, theirs: ListShapes)
    decreases theirs
  {
    && ours.shapes.ContainsAll(theirs.shapes)
    && (ours.exact ==>
          && theirs.exact
          && forall i :: 0 <= i < |theirs.heads| ==> WithinSome(theirs.heads[i], ours.heads))
  }

  predicate WithinSome(theirs: TypeTest, ours: seq<TypeTest>)
    decreases theirs, 2
  {
    exists j :: 0 <= j < |ours| && ContainedIn(theirs, ours[j])
  }

  predicate TuplesContainAll(ours: TupleShapes, theirs: TupleShapes)
    decreases theirs
  {
    && ours.arities.ContainsAll(theirs.arities)
    && (ours.exact ==>
          && theirs.exact
          && forall i :: 0 <= i < |theirs.shapes| ==> ShapeWithinSome(theirs.shapes[i], ours.shapes))
  }

  predicate ShapeWithinSome(theirs: TupleShape, ours: seq<TupleShape>)
    decreases theirs
  {
    exists j :: 0 <= j < |ours| && AllContainedIn(theirs.positions, ours[j].positions)
  }

  /** Position by position, over two rows of questions of one length. */
  predicate AllContainedIn(theirs: seq<TypeTest>, ours: seq<TypeTest>)
    decreases theirs
  {
    |theirs| == |ours| && forall k :: 0 <= k < |theirs| ==> ContainedIn(theirs[k], ours[k])
  }

  predicate Inside(theirs: CallableShape, ours: CallableShape)
    decreases theirs, 0
  {
    theirs.target == ours.target && AllContainedIn(theirs.captures, ours.captures)
  }

  predicate CallablesContainAll(ours: CallableShapes, theirs: CallableShapes)
    decreases theirs
  {
    && ours.targets.ContainsAll(theirs.targets)
    && (ours.exact ==>
          && theirs.exact
          && forall i :: 0 <= i < |theirs.shapes| ==> InsideSome(theirs.shapes[i], ours.shapes))
  }

  predicate InsideSome(theirs: CallableShape, ours: seq<CallableShape>)
    decreases theirs, 1
  {
    exists j :: 0 <= j < |ours| && Inside(theirs, ours[j])
  }

  predicate Overlaps(p: TypeTest, q: TypeTest)
    decreases p, 1
  {
    exists axis: Axis :: AxisOverlaps(p, q, axis)
  }

  predicate AxisOverlaps(p: TypeTest, q: TypeTest, axis: Axis)
    decreases p, 0
  {
    match axis
    case Ints => p.ints.Overlaps(q.ints)
    case Floats => p.floats.Overlaps(q.floats)
    case Atoms => p.atoms.Overlaps(q.atoms)
    case Lists => ListsOverlap(p.lists, q.lists)
    case Tuples => TuplesOverlap(p.tuples, q.tuples)
    case NamedStructs => p.namedStructs.Overlaps(q.namedStructs)
    case OtherStructs => p.allowOtherStructs && q.allowOtherStructs
    case Maps => p.maps && q.maps
    case Binaries => p.binaries && q.binaries
    case Callables => CallablesOverlap(p.callables, q.callables)
    case Resources => p.resources && q.resources
  }

  /** Whether one cons cell could pass both head questions. */
  predicate HeadsOverlap(left: ListShapes, right: ListShapes)
    decreases left, 0
  {
    left.AsksTheHead() && right.AsksTheHead() ==>
      exists i, j :: 0 <= i < |left.heads| && 0 <= j < |right.heads| && Overlaps(left.heads[i], right.heads[j])
  }

  predicate ListsOverlap(left: ListShapes, right: ListShapes)
    decreases left, 1
  {
    && left.shapes.Overlaps(right.shapes)
    && ((left.shapes.Contains(Empty) && right.shapes.Contains(Empty)) || HeadsOverlap(left, right))
  }

  predicate AllOverlap(left: seq<TypeTest>, right: seq<TypeTest>)
    decreases left
  {
    |left| == |right| && forall k :: 0 <= k < |left| ==> Overlaps(left[k], right[k])
  }

  predicate TuplesOverlap(left: TupleShapes, right: TupleShapes)
    decreases left
  {
    && left.arities.Overlaps(right.arities)
    && (left.exact && right.exact ==>
          exists i, j :: 0 <= i < |left.shapes| && 0 <= j < |right.shapes| &&
                         AllOverlap(left.shapes[i].positions, right.shapes[j].positions))
  }

  predicate ConstructionsOverlap(left: CallableShape, right: CallableShape)
    decreases left
  {
    left.target == right.target && AllOverlap(left.captures, right.captures)
  }

  predicate CallablesOverlap(left: CallableShapes, right: CallableShapes)
    decreases left
  {
    && left.targets.Overlaps(right.targets)
    && (left.exact && right.exact ==>
          exists i, j :: 0 <= i < |left.shapes| && 0 <= j < |right.shapes| &&
                         ConstructionsOverlap(left.shapes[i], right.shapes[j]))
  }

  /** Whether the tests overlap on an axis whose projection erases something a body reads. */
  predicate OverlapsOnAnErasingAxis(p: TypeTest, q: TypeTest)
    decreases p, 1
  {
    exists axis: Axis :: AxisErases(p, q, axis)
  }

  predicate AxisErases(p: TypeTest, q: TypeTest, axis: Axis)
    decreases p, 0
  {
    match axis
    case Tuples => TuplesErase(p.tuples, q.tuples)
    case Lists => ListsErase(p.lists, q.lists)
    case Callables => CallablesErase(p.callables, q.callables)
    case _ => AxisPrecision(axis) == Erasing && AxisOverlaps(p, q, axis)
  }

  predicate ListsErase(left: ListShapes, right: ListShapes) {
    left.shapes.Contains(NonEmpty) && right.shapes.Contains(NonEmpty) && HeadsOverlap(left, right)
  }

  predicate SomeErase(left: seq<TypeTest>, right: seq<TypeTest>)
    decreases left
  {
    exists k :: 0 <= k < |left| && k < |right| && OverlapsOnAnErasingAxis(left[k], right[k])
  }

  predicate TuplesErase(left: TupleShapes, right: TupleShapes)
    decreases left
  {
    && left.arities.Overlaps(right.arities)
    && (left.exact && right.exact ==>
          exists i, j :: 0 <= i < |left.shapes| && 0 <= j < |right.shapes| &&
                         AllOverlap(left.shapes[i].positions, right.shapes[j].positions) &&
                         SomeErase(left.shapes[i].positions, right.shapes[j].positions))
  }

  predicate CallablesErase(left: CallableShapes, right: CallableShapes)
    decreases left
  {
    && left.targets.Overlaps(right.targets)
    && (left.exact && right.exact ==>
          exists i, j :: 0 <= i < |left.shapes| && 0 <= j < |right.shapes| &&
                         ConstructionsOverlap(left.shapes[i], right.shapes[j]) &&
                         SomeErase(left.shapes[i].captures, right.shapes[j].captures))
  }

  // ------------------------------------------------------ tests and values

  datatype Kind = LIST | MAP | BITSTRING | PROCBIN | CLOSURE | RESOURCE | STRUCT | UNTESTED

  /** A runtime value: a scalar, or a tagged reference into a heap. */
  datatype Value =
    | Null
    | EmptyList
    | Int(num: int)
    | Float(bits: int)
    | Atom(id: nat)
    | Ref(kind: Kind, addr: nat)

  /**
   Everything the matcher needs to read a value back: the module's tables, the
   runtime's schema numbering, and the representation owners' answers. A `None`
   is a field, head or tail the owner could not produce.
   */
  datatype Reader = Reader(
    atomNames: seq<string>,
    structSchemas: set<string>,
    tupleSchemaIds: map<nat, nat>,
    namedSchemaIds: map<string, nat>,
    schemaOf: nat -> nat,
    codeOf: nat -> nat,
    callables: nat -> Option<CallableShape>,
    fields: (Value, nat) -> Option<Value>,
    listHead: Value -> Option<Value>,
    listTail: Value -> Option<Value>)

  datatype Scope = Lowered | Full

  /** The axes a value can be admitted by. */
  function AxesOf(v: Value): set<Axis> {
    match v
    case Null => {}
    case EmptyList => {Lists}
    case Int(_) => {Ints}
    case Float(_) => {Floats}
    case Atom(_) => {Atoms}
    case Ref(kind, _) =>
      match kind {
        case LIST => {Lists}
        case MAP => {Maps}
        case BITSTRING | PROCBIN => {Binaries}
        case CLOSURE => {Callables}
        case RESOURCE => {Resources}
        case STRUCT => {Tuples, NamedStructs, OtherStructs}
        case UNTESTED => {}
      }
  }

  function ListShapeOf(v: Value): Option<ListShape> {
    match v
    case EmptyList => Some(Empty)
    case Ref(LIST, addr) => Some(if addr == 0 then Empty else NonEmpty)
    case _ => None
  }

  /** The index of the first occurrence of `name`. */
  function Position(names: seq<string>, name: string): (r: Option<nat>)
    ensures r.Some? ==> r.value < |names| && names[r.value] == name
    ensures r.None? ==> name !in names
  {
    if names == [] then None
    else if names[0] == name then Some(0)
    else match Position(names[1..], name)
      case Some(i) => Some(i + 1)
      case None => None
  }

  predicate AtomMember(atoms: FiniteSet<string>, names: seq<string>, id: nat) {
    (exists name :: name in atoms.values && Position(names, name) == Some(id)) != atoms.cofinite
  }

  /** Which arities of unnamed struct the other-structs axis admits. */
  function OtherStructArities(p: TypeTest): FiniteSet<nat> {
    if p.allowOtherStructs then FiniteSet(p.tuples.arities.values, true) else FiniteSets.None()
  }

  datatype TuplePositions = Never | Always | AnyOf(shapes: seq<TupleShape>)

  function OfArity(shapes: seq<TupleShape>, arity: nat): (r: seq<TupleShape>)
    ensures forall shape :: shape in r <==> shape in shapes && |shape.positions| == arity
  {
    if shapes == [] then []
    else (if |shapes[0].positions| == arity then [shapes[0]] else []) + OfArity(shapes[1..], arity)
  }

  /** What a test asks of a value already known to be an unnamed tuple of `arity`. */
  function PositionsOf(p: TypeTest, arity: nat): TuplePositions {
    if OtherStructArities(p).Contains(arity) then Always
    else if !p.tuples.arities.Contains(arity) then Never
    else if !p.tuples.exact then Always
    else AnyOf(OfArity(p.tuples.shapes, arity))
  }

  predicate KnownNamed(reader: Reader, schema: nat) {
    exists name ::
      name in reader.structSchemas && name in reader.namedSchemaIds && reader.namedSchemaIds[name] == schema
  }

  predicate SchemaOfListedArity(reader: Reader, schema: nat, arities: set<nat>) {
    exists arity :: arity in arities && arity in reader.tupleSchemaIds && reader.tupleSchemaIds[arity] == schema
  }

  /** Whether `schema` is an unnamed struct whose arity `arities` admits. */
  predicate UnnamedOfArity(reader: Reader, schema: nat, arities: FiniteSet<nat>) {
    if !arities.cofinite then SchemaOfListedArity(reader, schema, arities.values)
    else !KnownNamed(reader, schema) && !SchemaOfListedArity(reader, schema, arities.values)
  }

  /** The arity a schema id was registered for. */
  function TupleArityOf(reader: Reader, schema: nat): (r: Option<nat>)
    ensures r.Some? ==> r.value in reader.tupleSchemaIds && reader.tupleSchemaIds[r.value] == schema
    ensures r.None? ==> forall arity :: arity in reader.tupleSchemaIds ==> reader.tupleSchemaIds[arity] != schema
  {
    var hits := set arity | arity in reader.tupleSchemaIds && reader.tupleSchemaIds[arity] == schema;
    assert forall arity :: arity in reader.tupleSchemaIds && reader.tupleSchemaIds[arity] == schema ==> arity in hits;
    if hits == {} then None else Some(Least(hits))
  }

  predicate NamedStructAdmits(p: TypeTest, reader: Reader, schema: nat) {
    var relevant := exists name ::
      name in p.namedStructs.values && name in reader.namedSchemaIds && reader.namedSchemaIds[name] == schema;
    if p.namedStructs.IsNone() then false
    else if p.namedStructs.IsAny() then KnownNamed(reader, schema)
    else if p.namedStructs.cofinite then KnownNamed(reader, schema) && !relevant
    else relevant
  }

  predicate Enumerates(callables: CallableShapes, shape: CallableShape) {
    if callables.exact then InsideSome(shape, callables.shapes)
    else shape.target in callables.targets.values
  }

  /** Admission is containment of the construction's shape, never overlap. */
  predicate CallableAdmits(p: TypeTest, reader: Reader, addr: nat) {
    if p.callables.targets.IsNone() then false
    else if p.callables.targets.IsAny() then true
    else match reader.callables(reader.codeOf(addr))
      case Some(shape) => Enumerates(p.callables, shape) != p.callables.targets.cofinite
      case None => p.callables.targets.cofinite
  }

  const ELEMENT_WALK_LIMIT: nat := 65536

  /** Whether the test admits the value under a reading: some axis its kind names does. */
  predicate Admits(p: TypeTest, reader: Reader, v: Value, scope: Scope)
    decreases p, 3, 0
  {
    exists axis :: axis in AxesOf(v) && AxisAdmits(p, reader, v, axis, scope)
  }

  predicate AxisAdmits(p: TypeTest, reader: Reader, v: Value, axis: Axis, scope: Scope)
    decreases p, 2, 0
  {
    match axis
    case Ints => v.Int? && p.ints.Contains(v.num)
    case Floats => v.Float? && p.floats.Contains(v.bits)
    case Atoms => v.Atom? && AtomMember(p.atoms, reader.atomNames, v.id)
    case Lists =>
      (match ListShapeOf(v)
       case Some(Empty) => p.lists.shapes.Contains(Empty)
       case Some(NonEmpty) => p.lists.shapes.Contains(NonEmpty) && ElementsAdmitted(p.lists, reader, v, scope)
       case None => false)
    case Maps => p.maps && v.Ref? && v.kind == MAP
    case Binaries => p.binaries && v.Ref? && (v.kind == BITSTRING || v.kind == PROCBIN)
    case Resources => p.resources && v.Ref? && v.kind == RESOURCE
    case Callables => v.Ref? && v.kind == CLOSURE && CallableAdmits(p, reader, v.addr)
    case Tuples =>
      && v.Ref? && v.kind == STRUCT
      && UnnamedOfArity(reader, reader.schemaOf(v.addr), p.tuples.arities)
      && TupleShapeAdmitted(p, reader, v, reader.schemaOf(v.addr), scope)
    case NamedStructs => v.Ref? && v.kind == STRUCT && NamedStructAdmits(p, reader, reader.schemaOf(v.addr))
    case OtherStructs =>
      v.Ref? && v.kind == STRUCT && UnnamedOfArity(reader, reader.schemaOf(v.addr), OtherStructArities(p))
  }

  predicate TupleShapeAdmitted(p: TypeTest, reader: Reader, v: Value, schema: nat, scope: Scope)
    decreases p, 1, 0
  {
    match TupleArityOf(reader, schema)
    case None => true
    case Some(arity) =>
      match PositionsOf(p, arity)
      case Never => false
      case Always => true
      case AnyOf(shapes) =>
        exists i :: 0 <= i < |shapes| && shapes[i] in p.tuples.shapes && PositionsAdmitted(shapes[i], reader, v, scope)
  }

  /** Every position's question admits the field it is put to. */
  predicate PositionsAdmitted(shape: TupleShape, reader: Reader, v: Value, scope: Scope)
    decreases shape, 0, 0
  {
    forall k :: 0 <= k < |shape.positions| ==>
      reader.fields(v, k).Some? && Admits(shape.positions[k], reader, reader.fields(v, k).value, scope)
  }

  /**
   `Lowered` puts one head to the disjunction of the head questions; `Full` asks
   that some one question admit every element of the spine.
   */
  predicate ElementsAdmitted(lists: ListShapes, reader: Reader, v: Value, scope: Scope)
    decreases lists, 0, 0
  {
    lists.AsksTheHead() ==>
      match scope
      case Lowered =>
        reader.listHead(v).Some? ==>
          exists i :: 0 <= i < |lists.heads| && Admits(lists.heads[i], reader, reader.listHead(v).value, Lowered)
      case Full =>
        exists i :: 0 <= i < |lists.heads| && FirstRefused(lists.heads[i], reader, v, 0).None?
  }

  /** The first element, from `index` on, that `question` refuses. */
  function FirstRefused(question: TypeTest, reader: Reader, cursor: Value, index: nat): Option<(nat, Value)>
    requires index <= ELEMENT_WALK_LIMIT
    decreases question, 4, ELEMENT_WALK_LIMIT - index
  {
    if ListShapeOf(cursor) != Some(NonEmpty) || index == ELEMENT_WALK_LIMIT then None
    else match reader.listHead(cursor)
      case None => None
      case Some(head) =>
        if !Admits(question, reader, head, Full) then Some((index, head))
        else match reader.listTail(cursor)
          case None => None
          case Some(tail) => FirstRefused(question, reader, tail, index + 1)
  }
}
