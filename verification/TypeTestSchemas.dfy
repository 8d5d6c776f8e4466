/**
 Registering a schema for every tuple arity a test can ask about, at any depth,
 makes the schema-id matcher answer by arity and by name.
 */
module TypeTestSchemas {
  import opened Options
  import opened TypeTests
  import opened TypeTestContainment

  /** What a struct is, independently of how the runtime numbered it. */
  datatype Identity = NamedAs(name: string) | TupleOf(arity: nat)

  // ------------------------------------------------ what a test asks about

  function TupleAritiesAtEveryDepth(p: TypeTest): set<nat>
    decreases p
  {
    p.tuples.arities.values
    + (set i, arity | 0 <= i < |p.lists.heads| && arity in TupleAritiesAtEveryDepth(p.lists.heads[i]) :: arity)
    + (set i, arity | 0 <= i < |p.tuples.shapes| && arity in ShapeArities(p.tuples.shapes[i]) :: arity)
  }

  function ShapeArities(shape: TupleShape): set<nat>
    decreases shape
  {
    set k, arity | 0 <= k < |shape.positions| && arity in TupleAritiesAtEveryDepth(shape.positions[k]) :: arity
  }

  /** Whether answering the test needs the module's table of named schemas. */
  predicate ReadsNamedSchemas(p: TypeTest)
    decreases p
  {
    || !p.namedStructs.IsNone() || p.tuples.arities.cofinite || p.allowOtherStructs
    || (exists i :: 0 <= i < |p.lists.heads| && ReadsNamedSchemas(p.lists.heads[i]))
    || (exists i :: 0 <= i < |p.tuples.shapes| && ShapeReadsNamed(p.tuples.shapes[i]))
  }

  predicate ShapeReadsNamed(shape: TupleShape)
    decreases shape
  {
    exists k :: 0 <= k < |shape.positions| && ReadsNamedSchemas(shape.positions[k])
  }

  /** The recursive walk that fills one set with every arity the test can ask about. */
  method CollectTupleArities(p: TypeTest, out: set<nat>) returns (all: set<nat>)
    ensures all == out + TupleAritiesAtEveryDepth(p)
    decreases p
  {
    all := out + p.tuples.arities.values;
    ghost var own := all;
    for i := 0 to |p.lists.heads|
      invariant all == own + HeadsBefore(p.lists.heads, i)
    {
      HeadsStep(own, p.lists.heads, i);
      all := CollectTupleArities(p.lists.heads[i], all);
    }
    ghost var headed := all;
    for i := 0 to |p.tuples.shapes|
      invariant all == headed + ShapesBefore(p.tuples.shapes, i)
    {
      ShapesStep(headed, p.tuples.shapes, i);
      all := CollectShapeArities(p.tuples.shapes[i], all);
    }
    EveryDepth(p, out);
  }

  ghost function HeadsBefore(heads: seq<TypeTest>, n: nat): set<nat>
    requires n <= |heads|
  {
    set i, arity | 0 <= i < n && arity in TupleAritiesAtEveryDepth(heads[i]) :: arity
  }

  lemma HeadsStep(own: set<nat>, heads: seq<TypeTest>, n: nat)
    requires n < |heads|
    ensures own + HeadsBefore(heads, n + 1) == own + HeadsBefore(heads, n) + TupleAritiesAtEveryDepth(heads[n])
  {}

  ghost function ShapesBefore(shapes: seq<TupleShape>, n: nat): set<nat>
    requires n <= |shapes|
  {
    set i, arity | 0 <= i < n && arity in ShapeArities(shapes[i]) :: arity
  }

  lemma ShapesStep(headed: set<nat>, shapes: seq<TupleShape>, n: nat)
    requires n < |shapes|
    ensures headed + ShapesBefore(shapes, n + 1) == headed + ShapesBefore(shapes, n) + ShapeArities(shapes[n])
  {}

  lemma AllHeads(p: TypeTest, a: nat)
    ensures a in HeadsBefore(p.lists.heads, |p.lists.heads|) <==>
      exists i :: 0 <= i < |p.lists.heads| && a in TupleAritiesAtEveryDepth(p.lists.heads[i])
  {}

  lemma AllShapes(p: TypeTest, a: nat)
    ensures a in ShapesBefore(p.tuples.shapes, |p.tuples.shapes|) <==>
      exists i :: 0 <= i < |p.tuples.shapes| && a in ShapeArities(p.tuples.shapes[i])
  {}

  lemma {:induction false} EveryDepth(p: TypeTest, out: set<nat>)
    ensures out + p.tuples.arities.values + HeadsBefore(p.lists.heads, |p.lists.heads|)
            + ShapesBefore(p.tuples.shapes, |p.tuples.shapes|) == out + TupleAritiesAtEveryDepth(p)
  {
    forall a: nat
      ensures a in TupleAritiesAtEveryDepth(p) <==>
        || a in p.tuples.arities.values || a in HeadsBefore(p.lists.heads, |p.lists.heads|)
        || a in ShapesBefore(p.tuples.shapes, |p.tuples.shapes|)
    {
      AllHeads(p, a);
      AllShapes(p, a);
    }
  }

  method CollectShapeArities(shape: TupleShape, out: set<nat>) returns (all: set<nat>)
    ensures all == out + ShapeArities(shape)
    decreases shape
  {
    all := out;
    for k := 0 to |shape.positions|
      invariant all == out + AritiesBefore(shape, k)
    {
      AritiesStep(shape, k);
      all := CollectTupleArities(shape.positions[k], all);
    }
    assert AritiesBefore(shape, |shape.positions|) == ShapeArities(shape);
  }

  ghost function AritiesBefore(shape: TupleShape, n: nat): set<nat>
    requires n <= |shape.positions|
  {
    set k, arity | 0 <= k < n && arity in TupleAritiesAtEveryDepth(shape.positions[k]) :: arity
  }

  lemma AritiesStep(shape: TupleShape, n: nat)
    requires n < |shape.positions|
    ensures AritiesBefore(shape, n + 1) == AritiesBefore(shape, n) + TupleAritiesAtEveryDepth(shape.positions[n])
  {}

  // ------------------------------------------------------ the arity-level answer

  /** A schema numbering that covers the arities, and the names where `named`, and numbers each identity once. */
  ghost predicate Covers(reader: Reader, identity: nat -> Identity, arities: set<nat>, named: bool) {
    && (forall arity :: arity in reader.tupleSchemaIds ==> identity(reader.tupleSchemaIds[arity]) == TupleOf(arity))
    && (forall name :: name in reader.namedSchemaIds ==> identity(reader.namedSchemaIds[name]) == NamedAs(name))
    && (forall s :: identity(s).TupleOf? && identity(s).arity in reader.tupleSchemaIds ==>
          reader.tupleSchemaIds[identity(s).arity] == s)
    && reader.namedSchemaIds.Keys <= reader.structSchemas
    && arities <= reader.tupleSchemaIds.Keys
    && (named ==> forall s :: identity(s).NamedAs? ==>
          identity(s).name in reader.namedSchemaIds && reader.namedSchemaIds[identity(s).name] == s)
  }

  /** The test's answer read off arities and names alone, with no schema id in sight. */
  ghost predicate AnswersByArity(p: TypeTest, reader: Reader, identity: nat -> Identity, v: Value, scope: Scope)
    decreases p, 3, 0
  {
    match v
    case Null => false
    case EmptyList => p.lists.shapes.Contains(Empty)
    case Int(num) => p.ints.Contains(num)
    case Float(bits) => p.floats.Contains(bits)
    case Atom(id) => AtomMember(p.atoms, reader.atomNames, id)
    case Ref(kind, addr) =>
      match kind {
        case LIST =>
          if addr == 0 then p.lists.shapes.Contains(Empty)
          else p.lists.shapes.Contains(NonEmpty) && ElementsByArity(p.lists, reader, identity, v, scope)
        case MAP => p.maps
        case BITSTRING | PROCBIN => p.binaries
        case CLOSURE => CallableAdmits(p, reader, addr)
        case RESOURCE => p.resources
        case STRUCT => StructByArity(p, reader, identity, v, identity(reader.schemaOf(addr)), scope)
        case UNTESTED => false
      }
  }

  ghost predicate StructByArity(
    p: TypeTest, reader: Reader, identity: nat -> Identity, v: Value, who: Identity, scope: Scope)
    decreases p, 2, 0
  {
    match who
    case NamedAs(name) => p.namedStructs.Contains(name)
    case TupleOf(arity) =>
      || (p.allowOtherStructs && arity !in p.tuples.arities.values)
      || (p.tuples.arities.Contains(arity) && (p.tuples.exact ==>
            exists i :: 0 <= i < |p.tuples.shapes| && |p.tuples.shapes[i].positions| == arity &&
                        PositionsByArity(p.tuples.shapes[i], reader, identity, v, scope)))
  }

  ghost predicate PositionsByArity(shape: TupleShape, reader: Reader, identity: nat -> Identity, v: Value, scope: Scope)
    decreases shape, 0, 0
  {
    forall k :: 0 <= k < |shape.positions| ==>
      && reader.fields(v, k).Some?
      && AnswersByArity(shape.positions[k], reader, identity, reader.fields(v, k).value, scope)
  }

  ghost predicate ElementsByArity(lists: ListShapes, reader: Reader, identity: nat -> Identity, v: Value, scope: Scope)
    decreases lists, 0, 0
  {
    lists.AsksTheHead() ==>
      match scope
      case Lowered =>
        reader.listHead(v).Some? ==>
          exists i :: 0 <= i < |lists.heads| &&
            AnswersByArity(lists.heads[i], reader, identity, reader.listHead(v).value, Lowered)
      case Full =>
        exists i :: 0 <= i < |lists.heads| &&
          AllByArity(lists.heads[i], reader, identity, ReadableElements(reader, v, ELEMENT_WALK_LIMIT))
  }

  ghost predicate AllByArity(question: TypeTest, reader: Reader, identity: nat -> Identity, elements: seq<Value>)
    decreases question, 4, 0
  {
    forall e :: e in elements ==> AnswersByArity(question, reader, identity, e, Full)
  }

  /** The elements a spine walk of at most `limit` cells can read. */
  function ReadableElements(reader: Reader, cursor: Value, limit: nat): seq<Value>
    decreases limit
  {
    if ListShapeOf(cursor) != Some(NonEmpty) || limit == 0 then []
    else match reader.listHead(cursor)
      case None => []
      case Some(head) =>
        match reader.listTail(cursor)
        case None => [head]
        case Some(tail) => [head] + ReadableElements(reader, tail, limit - 1)
  }

  /** The walk refuses at the first readable element outside the question, and nowhere else. */
  lemma {:induction false} FirstRefusedIsFirst(question: TypeTest, reader: Reader, cursor: Value, index: nat)
    requires index <= ELEMENT_WALK_LIMIT
    ensures
      var elements := ReadableElements(reader, cursor, ELEMENT_WALK_LIMIT - index);
      match FirstRefused(question, reader, cursor, index)
      case None => forall e :: e in elements ==> Admits(question, reader, e, Full)
      case Some((at, refused)) =>
        && index <= at < index + |elements| && elements[at - index] == refused
        && !Admits(question, reader, refused, Full)
        && forall k :: 0 <= k < at - index ==> Admits(question, reader, elements[k], Full)
    decreases ELEMENT_WALK_LIMIT - index
  {
    if ListShapeOf(cursor) == Some(NonEmpty) && index < ELEMENT_WALK_LIMIT && reader.listHead(cursor).Some? {
      if reader.listTail(cursor).Some? {
        FirstRefusedIsFirst(question, reader, reader.listTail(cursor).value, index + 1);
      }
    }
  }

  /** The walk as the matcher runs it: one loop moving a cursor and an index. */
  method FirstRefusedElement(question: TypeTest, reader: Reader, list: Value) returns (refusal: Option<(nat, Value)>)
    ensures refusal == FirstRefused(question, reader, list, 0)
  {
    var cursor := list;
    var index: nat := 0;
    while ListShapeOf(cursor) == Some(NonEmpty)
      invariant index <= ELEMENT_WALK_LIMIT
      invariant FirstRefused(question, reader, list, 0) == FirstRefused(question, reader, cursor, index)
      decreases ELEMENT_WALK_LIMIT - index
    {
      if index == ELEMENT_WALK_LIMIT {
        return None;
      }
      var head := reader.listHead(cursor);
      if head.None? {
        return None;
      }
      if !Admits(question, reader, head.value, Full) {
        return Some((index, head.value));
      }
      var tail := reader.listTail(cursor);
      if tail.None? {
        return None;
      }
      cursor, index := tail.value, index + 1;
    }
    refusal := None;
  }

  // ------------------------------------------------------------- the theorem

  ghost predicate CoversTest(reader: Reader, identity: nat -> Identity, p: TypeTest) {
    Covers(reader, identity, TupleAritiesAtEveryDepth(p), ReadsNamedSchemas(p))
  }

  lemma CoveredNumbering(reader: Reader, identity: nat -> Identity, arities: set<nat>, named: bool)
    requires Covers(reader, identity, arities, named)
    ensures Numbered(reader)
  {}

  /**
   Registration suffices: a numbering that covers the test makes the schema-id
   matcher give the arity-level answer on every value, at every depth.
   */
  lemma {:induction false} RegistrationSuffices(
      p: TypeTest, reader: Reader, identity: nat -> Identity, v: Value, scope: Scope)
    requires Built(p) && CoversTest(reader, identity, p)
    ensures Admits(p, reader, v, scope) <==> AnswersByArity(p, reader, identity, v, scope)
    decreases p, 2, 0
  {
    if v.Ref? && v.kind == STRUCT {
      StructAnswers(p, reader, identity, v, scope);
    } else {
      if ListShapeOf(v) == Some(NonEmpty) {
        ElementAnswers(p, reader, identity, v, scope);
      }
      PlainAnswers(p, reader, identity, v, scope);
    }
  }

  lemma PlainAnswers(p: TypeTest, reader: Reader, identity: nat -> Identity, v: Value, scope: Scope)
    requires !(v.Ref? && v.kind == STRUCT)
    requires ListShapeOf(v) == Some(NonEmpty) ==>
      (ElementsAdmitted(p.lists, reader, v, scope) <==> ElementsByArity(p.lists, reader, identity, v, scope))
    ensures Admits(p, reader, v, scope) <==> AnswersByArity(p, reader, identity, v, scope)
  {
    OneAxisDecides(p, reader, v, scope);
    if AxesOf(v) != {} {
      var axis :| axis in AxesOf(v);
      assert Admits(p, reader, v, scope) <==> AxisAdmits(p, reader, v, axis, scope);
    }
  }

  /** A value that is no struct is admitted by its one axis or not at all. */
  lemma OneAxisDecides(p: TypeTest, reader: Reader, v: Value, scope: Scope)
    requires !(v.Ref? && v.kind == STRUCT)
    ensures AxesOf(v) == {} ==> !Admits(p, reader, v, scope)
    ensures forall axis :: axis in AxesOf(v) ==>
      (Admits(p, reader, v, scope) <==> AxisAdmits(p, reader, v, axis, scope))
  {
    assert forall axis :: axis in AxesOf(v) ==> AxesOf(v) == {axis};
  }

  lemma {:induction false} ElementAnswers(
      p: TypeTest, reader: Reader, identity: nat -> Identity, v: Value, scope: Scope)
    requires Built(p) && CoversTest(reader, identity, p)
    ensures ElementsAdmitted(p.lists, reader, v, scope) <==> ElementsByArity(p.lists, reader, identity, v, scope)
    decreases p, 1, 0
  {
    forall i, e | 0 <= i < |p.lists.heads|
      ensures Admits(p.lists.heads[i], reader, e, scope) <==>
        AnswersByArity(p.lists.heads[i], reader, identity, e, scope)
    {
      assert TupleAritiesAtEveryDepth(p.lists.heads[i]) <= TupleAritiesAtEveryDepth(p);
      RegistrationSuffices(p.lists.heads[i], reader, identity, e, scope);
    }
    var elements := ReadableElements(reader, v, ELEMENT_WALK_LIMIT);
    if scope == Full {
      forall i | 0 <= i < |p.lists.heads|
        ensures FirstRefused(p.lists.heads[i], reader, v, 0).None?
           <==> AllByArity(p.lists.heads[i], reader, identity, elements)
      {
        FirstRefusedIsFirst(p.lists.heads[i], reader, v, 0);
      }
    }
  }

  lemma {:induction false} PositionAnswers(
    p: TypeTest, m: nat, reader: Reader, identity: nat -> Identity, v: Value, scope: Scope)
    requires Built(p) && CoversTest(reader, identity, p) && m < |p.tuples.shapes|
    ensures PositionsAdmitted(p.tuples.shapes[m], reader, v, scope)
       <==> PositionsByArity(p.tuples.shapes[m], reader, identity, v, scope)
    decreases p, 0, 0
  {
    var shape := p.tuples.shapes[m];
    forall k | 0 <= k < |shape.positions| && reader.fields(v, k).Some?
      ensures Admits(shape.positions[k], reader, reader.fields(v, k).value, scope)
         <==> AnswersByArity(shape.positions[k], reader, identity, reader.fields(v, k).value, scope)
    {
      assert TupleAritiesAtEveryDepth(shape.positions[k]) <= ShapeArities(shape);
      assert ShapeArities(shape) <= TupleAritiesAtEveryDepth(p);
      assert ReadsNamedSchemas(shape.positions[k]) ==> ShapeReadsNamed(shape);
      RegistrationSuffices(shape.positions[k], reader, identity, reader.fields(v, k).value, scope);
    }
  }

  lemma {:induction false} StructAnswers(p: TypeTest, reader: Reader, identity: nat -> Identity, v: Value, scope: Scope)
    requires Built(p) && CoversTest(reader, identity, p) && v.Ref? && v.kind == STRUCT
    ensures Admits(p, reader, v, scope)
       <==> StructByArity(p, reader, identity, v, identity(reader.schemaOf(v.addr)), scope)
    decreases p, 1, 0
  {
    var schema := reader.schemaOf(v.addr);
    CoveredNumbering(reader, identity, TupleAritiesAtEveryDepth(p), ReadsNamedSchemas(p));
    AdmitsStruct(p, reader, v, scope);
    match identity(schema)
    case NamedAs(name) => NamedAnswers(p, reader, identity, schema, name);
    case TupleOf(arity) =>
      UnnamedAnswers(p, reader, identity, schema, arity);
      if arity in reader.tupleSchemaIds && PositionsOf(p, arity).AnyOf? {
        ShapeAnswers(p, reader, identity, v, schema, arity, scope);
      }
  }

  lemma {:induction false} ShapeAnswers(
    p: TypeTest, reader: Reader, identity: nat -> Identity, v: Value, schema: nat, arity: nat, scope: Scope)
    requires Built(p) && CoversTest(reader, identity, p)
    requires TupleArityOf(reader, schema) == Some(arity) && PositionsOf(p, arity).AnyOf?
    ensures TupleShapeAdmitted(p, reader, v, schema, scope)
       <==> SomeByArity(p.tuples.shapes, arity, reader, identity, v, scope)
    decreases p, 0, 1
  {
    ShapesOfArity(p, reader, v, schema, arity, scope);
    forall m | 0 <= m < |p.tuples.shapes| {
      PositionAnswers(p, m, reader, identity, v, scope);
    }
  }

  lemma AdmitsStruct(p: TypeTest, reader: Reader, v: Value, scope: Scope)
    requires v.Ref? && v.kind == STRUCT
    ensures Admits(p, reader, v, scope) <==>
      var schema := reader.schemaOf(v.addr);
      || NamedStructAdmits(p, reader, schema)
      || UnnamedOfArity(reader, schema, OtherStructArities(p))
      || (UnnamedOfArity(reader, schema, p.tuples.arities) && TupleShapeAdmitted(p, reader, v, schema, scope))
  {
    assert Admits(p, reader, v, scope) <==>
      || AxisAdmits(p, reader, v, NamedStructs, scope) || AxisAdmits(p, reader, v, OtherStructs, scope)
      || AxisAdmits(p, reader, v, Tuples, scope);
  }

  lemma NamedAnswers(p: TypeTest, reader: Reader, identity: nat -> Identity, schema: nat, name: string)
    requires CoversTest(reader, identity, p) && identity(schema) == NamedAs(name)
    ensures NamedStructAdmits(p, reader, schema) <==> p.namedStructs.Contains(name)
    ensures !UnnamedOfArity(reader, schema, OtherStructArities(p)) && !UnnamedOfArity(reader, schema, p.tuples.arities)
  {
    if ReadsNamedSchemas(p) {
      assert KnownNamed(reader, schema);
    }
  }

  lemma UnnamedAnswers(p: TypeTest, reader: Reader, identity: nat -> Identity, schema: nat, arity: nat)
    requires CoversTest(reader, identity, p) && identity(schema) == TupleOf(arity)
    ensures !NamedStructAdmits(p, reader, schema) && !KnownNamed(reader, schema)
    ensures TupleArityOf(reader, schema) == if arity in reader.tupleSchemaIds then Some(arity) else None
    ensures UnnamedOfArity(reader, schema, p.tuples.arities) <==> p.tuples.arities.Contains(arity)
    ensures UnnamedOfArity(reader, schema, OtherStructArities(p)) <==> OtherStructArities(p).Contains(arity)
  {
    assert p.tuples.arities.values <= TupleAritiesAtEveryDepth(p);
    if arity in p.tuples.arities.values {
      assert SchemaOfListedArity(reader, schema, p.tuples.arities.values);
    }
  }

  ghost predicate SomeByArity(
    shapes: seq<TupleShape>, arity: nat, reader: Reader, identity: nat -> Identity, v: Value, scope: Scope)
  {
    exists i :: 0 <= i < |shapes| && |shapes[i].positions| == arity &&
                PositionsByArity(shapes[i], reader, identity, v, scope)
  }

  lemma {:induction false} SomeOfArity(
    shapes: seq<TupleShape>, arity: nat, reader: Reader, identity: nat -> Identity, v: Value, scope: Scope)
    ensures SomeByArity(OfArity(shapes, arity), arity, reader, identity, v, scope)
       <==> SomeByArity(shapes, arity, reader, identity, v, scope)
  {
    var picked := OfArity(shapes, arity);
    if SomeByArity(picked, arity, reader, identity, v, scope) {
      var i :| 0 <= i < |picked| && |picked[i].positions| == arity &&
        PositionsByArity(picked[i], reader, identity, v, scope);
      assert picked[i] in picked;
    }
    if SomeByArity(shapes, arity, reader, identity, v, scope) {
      var i :| 0 <= i < |shapes| && |shapes[i].positions| == arity &&
        PositionsByArity(shapes[i], reader, identity, v, scope);
      assert shapes[i] in picked;
    }
  }

  /** On an unnamed tuple the decomposition every door asks through is exactly the whole-value answer. */
  lemma PositionsDecompose(
    p: TypeTest, reader: Reader, identity: nat -> Identity, v: Value, arity: nat, scope: Scope)
    requires Built(p) && CoversTest(reader, identity, p)
    requires v.Ref? && v.kind == STRUCT && identity(reader.schemaOf(v.addr)) == TupleOf(arity)
    ensures Admits(p, reader, v, scope) <==>
      match PositionsOf(p, arity)
      case Never => false
      case Always => true
      case AnyOf(shapes) => SomeByArity(shapes, arity, reader, identity, v, scope)
  {
    StructAnswers(p, reader, identity, v, scope);
    SomeOfArity(p.tuples.shapes, arity, reader, identity, v, scope);
  }
}
