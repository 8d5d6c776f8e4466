/** Containment of tests is a preorder, and it is sound under both readings. */
module TypeTestContainment {
  import opened Options
  import opened FiniteSets
  import opened TypeTests

  /** What the shape constructors establish, at every depth, captures included. */
  ghost predicate Built(p: TypeTest)
    decreases p
  {
    && (p.lists.exact ==> p.lists.shapes.Contains(NonEmpty) ==> p.lists.heads != [])
    && (!p.lists.exact ==> p.lists.heads == [])
    && (p.tuples.exact ==> p.tuples == TuplesExact(p.tuples.shapes))
    && (!p.tuples.exact ==> p.tuples.shapes == [])
    && (p.callables.exact ==> p.callables == CallablesExact(p.callables.shapes))
    && (!p.callables.exact ==> p.callables.shapes == [])
    && (forall i :: 0 <= i < |p.lists.heads| ==> Built(p.lists.heads[i]))
    && (forall i :: 0 <= i < |p.tuples.shapes| ==> BuiltShape(p.tuples.shapes[i]))
    && (forall i :: 0 <= i < |p.callables.shapes| ==> BuiltConstruction(p.callables.shapes[i]))
  }

  ghost predicate BuiltShape(shape: TupleShape)
    decreases shape
  {
    forall k :: 0 <= k < |shape.positions| ==> Built(shape.positions[k])
  }

  ghost predicate BuiltConstruction(shape: CallableShape)
    decreases shape
  {
    forall k :: 0 <= k < |shape.captures| ==> Built(shape.captures[k])
  }

  /** Distinct arities and names carry distinct schema ids, and only declared structs are named. */
  ghost predicate Numbered(reader: Reader) {
    && (forall a, b | a in reader.tupleSchemaIds && b in reader.tupleSchemaIds ::
          reader.tupleSchemaIds[a] == reader.tupleSchemaIds[b] ==> a == b)
    && (forall m, n | m in reader.namedSchemaIds && n in reader.namedSchemaIds ::
          reader.namedSchemaIds[m] == reader.namedSchemaIds[n] ==> m == n)
    && (forall a, n | a in reader.tupleSchemaIds && n in reader.namedSchemaIds ::
          reader.tupleSchemaIds[a] != reader.namedSchemaIds[n])
    && reader.namedSchemaIds.Keys <= reader.structSchemas
  }

  /**
   The other-structs axis is the remainder the tuple axis leaves, so a test that
   carries it must admit in full every arity its tuple axis lists.
   */
  ghost predicate RemainderCovered(q: TypeTest) {
    q.allowOtherStructs ==>
      forall arity :: arity in q.tuples.arities.values ==>
        q.tuples.arities.Contains(arity) && (q.tuples.exact ==> arity == 0)
  }

  /** `RemainderCovered` at every depth a value is read at: heads and positions, not captures. */
  ghost predicate UpperBound(q: TypeTest)
    decreases q, 1
  {
    RemainderCovered(q) && UpperBoundInside(q)
  }

  ghost predicate UpperBoundInside(q: TypeTest)
    decreases q, 0
  {
    && (forall i :: 0 <= i < |q.lists.heads| ==> UpperBound(q.lists.heads[i]))
    && (forall i :: 0 <= i < |q.tuples.shapes| ==> UpperBoundShape(q.tuples.shapes[i]))
  }

  ghost predicate UpperBoundShape(shape: TupleShape)
    decreases shape
  {
    forall k :: 0 <= k < |shape.positions| ==> UpperBound(shape.positions[k])
  }

  // ------------------------------------------------------------- a preorder

  lemma {:induction false} ContainedReflexive(p: TypeTest)
    ensures ContainedIn(p, p)
    decreases p
  {
    forall i | 0 <= i < |p.lists.heads|
      ensures WithinSome(p.lists.heads[i], p.lists.heads)
    {
      ContainedReflexive(p.lists.heads[i]);
    }
    forall i | 0 <= i < |p.tuples.shapes|
      ensures ShapeWithinSome(p.tuples.shapes[i], p.tuples.shapes)
    {
      forall k | 0 <= k < |p.tuples.shapes[i].positions| {
        ContainedReflexive(p.tuples.shapes[i].positions[k]);
      }
      assert AllContainedIn(p.tuples.shapes[i].positions, p.tuples.shapes[i].positions);
    }
    forall i | 0 <= i < |p.callables.shapes|
      ensures InsideSome(p.callables.shapes[i], p.callables.shapes)
    {
      forall k | 0 <= k < |p.callables.shapes[i].captures| {
        ContainedReflexive(p.callables.shapes[i].captures[k]);
      }
      assert Inside(p.callables.shapes[i], p.callables.shapes[i]);
    }
    forall axis: Axis
      ensures AxisContainedIn(p, p, axis)
    {
      match axis {
        case Lists => assert ListsContainAll(p.lists, p.lists);
        case Tuples => assert TuplesContainAll(p.tuples, p.tuples);
        case Callables => assert CallablesContainAll(p.callables, p.callables);
        case _ =>
      }
    }
  }

  lemma {:induction false} ContainedTransitive(p: TypeTest, q: TypeTest, r: TypeTest)
    requires ContainedIn(p, q) && ContainedIn(q, r)
    ensures ContainedIn(p, r)
    decreases p, 1
  {
    forall axis: Axis
      ensures AxisContainedIn(p, r, axis)
    {
      assert AxisContainedIn(p, q, axis) && AxisContainedIn(q, r, axis);
      match axis {
        case Lists => ListsTransitive(p.lists, q.lists, r.lists);
        case Tuples => TuplesTransitive(p.tuples, q.tuples, r.tuples);
        case Callables => CallablesTransitive(p.callables, q.callables, r.callables);
        case _ =>
      }
    }
  }

  lemma {:induction false} ListsTransitive(a: ListShapes, b: ListShapes, c: ListShapes)
    requires ListsContainAll(b, a) && ListsContainAll(c, b)
    ensures ListsContainAll(c, a)
    decreases a, 0
  {
    if c.exact {
      forall i | 0 <= i < |a.heads|
        ensures WithinSome(a.heads[i], c.heads)
      {
        assert WithinSome(a.heads[i], b.heads);
        var m :| 0 <= m < |b.heads| && ContainedIn(a.heads[i], b.heads[m]);
        assert WithinSome(b.heads[m], c.heads);
        var j :| 0 <= j < |c.heads| && ContainedIn(b.heads[m], c.heads[j]);
        ContainedTransitive(a.heads[i], b.heads[m], c.heads[j]);
      }
    }
  }

  lemma {:induction false} AllTransitive(a: seq<TypeTest>, b: seq<TypeTest>, c: seq<TypeTest>)
    requires AllContainedIn(a, b) && AllContainedIn(b, c)
    ensures AllContainedIn(a, c)
    decreases a, 0
  {
    forall k | 0 <= k < |a|
      ensures ContainedIn(a[k], c[k])
    {
      ContainedTransitive(a[k], b[k], c[k]);
    }
  }

  lemma {:induction false} TuplesTransitive(a: TupleShapes, b: TupleShapes, c: TupleShapes)
    requires TuplesContainAll(b, a) && TuplesContainAll(c, b)
    ensures TuplesContainAll(c, a)
    decreases a, 0
  {
    if c.exact {
      forall i | 0 <= i < |a.shapes|
        ensures ShapeWithinSome(a.shapes[i], c.shapes)
      {
        assert ShapeWithinSome(a.shapes[i], b.shapes);
        var m :| 0 <= m < |b.shapes| && AllContainedIn(a.shapes[i].positions, b.shapes[m].positions);
        assert ShapeWithinSome(b.shapes[m], c.shapes);
        var j :| 0 <= j < |c.shapes| && AllContainedIn(b.shapes[m].positions, c.shapes[j].positions);
        AllTransitive(a.shapes[i].positions, b.shapes[m].positions, c.shapes[j].positions);
      }
    }
  }

  lemma {:induction false} InsideTransitive(a: CallableShape, b: CallableShape, c: CallableShape)
    requires Inside(a, b) && Inside(b, c)
    ensures Inside(a, c)
    decreases a, 0
  {
    AllTransitive(a.captures, b.captures, c.captures);
  }

  lemma {:induction false} CallablesTransitive(a: CallableShapes, b: CallableShapes, c: CallableShapes)
    requires CallablesContainAll(b, a) && CallablesContainAll(c, b)
    ensures CallablesContainAll(c, a)
    decreases a, 0
  {
    if c.exact {
      forall i | 0 <= i < |a.shapes|
        ensures InsideSome(a.shapes[i], c.shapes)
      {
        assert InsideSome(a.shapes[i], b.shapes);
        var m :| 0 <= m < |b.shapes| && Inside(a.shapes[i], b.shapes[m]);
        assert InsideSome(b.shapes[m], c.shapes);
        var j :| 0 <= j < |c.shapes| && Inside(b.shapes[m], c.shapes[j]);
        InsideTransitive(a.shapes[i], b.shapes[m], c.shapes[j]);
      }
    }
  }

  // -------------------------------------------------------------- soundness

  lemma UnnamedMonotone(reader: Reader, schema: nat, ours: FiniteSet<nat>, theirs: FiniteSet<nat>)
    requires Numbered(reader) && ours.ContainsAll(theirs) && UnnamedOfArity(reader, schema, theirs)
    ensures UnnamedOfArity(reader, schema, ours)
  {}

  lemma AtomsMonotone(names: seq<string>, id: nat, ours: FiniteSet<string>, theirs: FiniteSet<string>)
    requires ours.ContainsAll(theirs) && AtomMember(theirs, names, id)
    ensures AtomMember(ours, names, id)
  {}

  lemma NamedMonotone(p: TypeTest, q: TypeTest, reader: Reader, schema: nat)
    requires Numbered(reader) && q.namedStructs.ContainsAll(p.namedStructs) && NamedStructAdmits(p, reader, schema)
    ensures NamedStructAdmits(q, reader, schema)
  {}

  /** A registered arity's schema is admitted exactly when the arity is. */
  lemma RegisteredArity(reader: Reader, schema: nat, arity: nat, arities: FiniteSet<nat>)
    requires Numbered(reader) && arity in reader.tupleSchemaIds && reader.tupleSchemaIds[arity] == schema
    ensures UnnamedOfArity(reader, schema, arities) <==> arities.Contains(arity)
  {
    if arity in arities.values {
      assert SchemaOfListedArity(reader, schema, arities.values);
    }
  }

  lemma CallablesMonotone(p: TypeTest, q: TypeTest, reader: Reader, addr: nat)
    requires Built(p) && Built(q)
    requires CallablesContainAll(q.callables, p.callables) && CallableAdmits(p, reader, addr)
    ensures CallableAdmits(q, reader, addr)
  {
    match reader.callables(reader.codeOf(addr))
    case None =>
    case Some(shape) =>
      if q.callables.exact {
        assert !q.callables.targets.cofinite && !p.callables.targets.cofinite && p.callables.exact;
        var i :| 0 <= i < |p.callables.shapes| && Inside(shape, p.callables.shapes[i]);
        assert InsideSome(p.callables.shapes[i], q.callables.shapes);
        var j :| 0 <= j < |q.callables.shapes| && Inside(p.callables.shapes[i], q.callables.shapes[j]);
        InsideTransitive(shape, p.callables.shapes[i], q.callables.shapes[j]);
        assert q.callables.shapes[j].target in q.callables.targets.values;
      } else if p.callables.exact {
        var i :| 0 <= i < |p.callables.shapes| && Inside(shape, p.callables.shapes[i]);
        assert p.callables.shapes[i].target in p.callables.targets.values;
      }
  }

  lemma ScalarsMonotone(p: TypeTest, q: TypeTest, reader: Reader, v: Value, axis: Axis, scope: Scope)
    requires axis.Ints? || axis.Floats? || axis.Maps? || axis.Binaries? || axis.Resources?
    requires AxisContainedIn(p, q, axis) && AxisAdmits(p, reader, v, axis, scope)
    ensures AxisAdmits(q, reader, v, axis, scope)
  {}

  /**
   Containment of tests is sound: whatever `p` admits under either reading, every
   test that contains it admits too, through heads, positions and captures.
   */
  lemma {:induction false} ContainmentSound(p: TypeTest, q: TypeTest, reader: Reader, v: Value, scope: Scope)
    requires Built(p) && Built(q) && UpperBound(q) && Numbered(reader)
    requires ContainedIn(p, q) && Admits(p, reader, v, scope)
    ensures Admits(q, reader, v, scope)
    decreases p, 2, 0
  {
    var axis :| axis in AxesOf(v) && AxisAdmits(p, reader, v, axis, scope);
    assert AxisContainedIn(p, q, axis);
    match axis {
      case Atoms => AtomsMonotone(reader.atomNames, v.id, q.atoms, p.atoms);
      case Lists => ListsMonotone(p, q, reader, v, scope);
      case Tuples => TuplesMonotone(p, q, reader, v, scope);
      case NamedStructs => NamedMonotone(p, q, reader, reader.schemaOf(v.addr));
      case OtherStructs => RemainderMonotone(p, q, reader, v, scope); return;
      case Callables => CallablesMonotone(p, q, reader, v.addr);
      case _ => ScalarsMonotone(p, q, reader, v, axis, scope);
    }
    assert AxisAdmits(q, reader, v, axis, scope);
  }

  lemma {:induction false} ListsMonotone(p: TypeTest, q: TypeTest, reader: Reader, v: Value, scope: Scope)
    requires Built(p) && Built(q) && UpperBound(q) && Numbered(reader)
    requires Lists in AxesOf(v) && AxisContainedIn(p, q, Lists) && AxisAdmits(p, reader, v, Lists, scope)
    ensures AxisAdmits(q, reader, v, Lists, scope)
    decreases p, 1, 0
  {
    assert ListsContainAll(q.lists, p.lists);
    ContainsAllSound(q.lists.shapes, p.lists.shapes, ListShapeOf(v).value);
    if ListShapeOf(v) == Some(NonEmpty) {
      ElementsMonotone(p.lists, q.lists, reader, v, scope);
    }
  }

  /** The candidate shapes, read off the test itself. */
  ghost predicate SomeShapeOfArity(p: TypeTest, arity: nat, reader: Reader, v: Value, scope: Scope) {
    exists m :: 0 <= m < |p.tuples.shapes| && |p.tuples.shapes[m].positions| == arity &&
                PositionsAdmitted(p.tuples.shapes[m], reader, v, scope)
  }

  lemma ShapesOfArity(p: TypeTest, reader: Reader, v: Value, schema: nat, arity: nat, scope: Scope)
    requires TupleArityOf(reader, schema) == Some(arity) && PositionsOf(p, arity).AnyOf?
    ensures TupleShapeAdmitted(p, reader, v, schema, scope) <==> SomeShapeOfArity(p, arity, reader, v, scope)
  {
    var shapes := OfArity(p.tuples.shapes, arity);
    assert PositionsOf(p, arity) == AnyOf(shapes);
    PickedShapes(p, shapes, arity, reader, v, scope);
  }

  ghost predicate SomePicked(p: TypeTest, shapes: seq<TupleShape>, reader: Reader, v: Value, scope: Scope) {
    exists i :: 0 <= i < |shapes| && shapes[i] in p.tuples.shapes && PositionsAdmitted(shapes[i], reader, v, scope)
  }

  lemma PickedShapes(p: TypeTest, shapes: seq<TupleShape>, arity: nat, reader: Reader, v: Value, scope: Scope)
    requires shapes == OfArity(p.tuples.shapes, arity)
    ensures SomePicked(p, shapes, reader, v, scope) <==> SomeShapeOfArity(p, arity, reader, v, scope)
  {
    if SomePicked(p, shapes, reader, v, scope) {
      var i :| 0 <= i < |shapes| && shapes[i] in p.tuples.shapes && PositionsAdmitted(shapes[i], reader, v, scope);
      PickedShape(p, shapes, i, arity, reader, v, scope);
    }
    if SomeShapeOfArity(p, arity, reader, v, scope) {
      var m :| 0 <= m < |p.tuples.shapes| && |p.tuples.shapes[m].positions| == arity &&
        PositionsAdmitted(p.tuples.shapes[m], reader, v, scope);
      assert p.tuples.shapes[m] in shapes;
    }
  }

  lemma PickedShape(
    p: TypeTest, shapes: seq<TupleShape>, i: nat, arity: nat, reader: Reader, v: Value, scope: Scope)
    requires shapes == OfArity(p.tuples.shapes, arity) && i < |shapes| && PositionsAdmitted(shapes[i], reader, v, scope)
    ensures SomeShapeOfArity(p, arity, reader, v, scope)
  {
    assert shapes[i] in shapes;
    var m :| 0 <= m < |p.tuples.shapes| && p.tuples.shapes[m] == shapes[i];
  }

  lemma {:induction false} TuplesMonotone(p: TypeTest, q: TypeTest, reader: Reader, v: Value, scope: Scope)
    requires Built(p) && Built(q) && UpperBound(q) && Numbered(reader)
    requires TuplesContainAll(q.tuples, p.tuples) && AxisAdmits(p, reader, v, Tuples, scope)
    ensures AxisAdmits(q, reader, v, Tuples, scope)
    decreases p, 1, 0
  {
    var schema := reader.schemaOf(v.addr);
    UnnamedMonotone(reader, schema, q.tuples.arities, p.tuples.arities);
    match TupleArityOf(reader, schema)
    case None =>
    case Some(arity) =>
      RegisteredArity(reader, schema, arity, p.tuples.arities);
      RegisteredArity(reader, schema, arity, q.tuples.arities);
      if PositionsOf(q, arity).AnyOf? {
        ShapesOfArity(p, reader, v, schema, arity, scope);
        ShapesOfArity(q, reader, v, schema, arity, scope);
        ShapesMonotone(p, q, reader, v, arity, scope);
      }
  }

  lemma {:induction false} ShapesMonotone(p: TypeTest, q: TypeTest, reader: Reader, v: Value, arity: nat, scope: Scope)
    requires Built(p) && Built(q) && UpperBound(q) && Numbered(reader)
    requires TuplesContainAll(q.tuples, p.tuples) && q.tuples.exact && SomeShapeOfArity(p, arity, reader, v, scope)
    ensures SomeShapeOfArity(q, arity, reader, v, scope)
    decreases p, 0, 0
  {
    var m :| 0 <= m < |p.tuples.shapes| && |p.tuples.shapes[m].positions| == arity &&
      PositionsAdmitted(p.tuples.shapes[m], reader, v, scope);
    assert ShapeWithinSome(p.tuples.shapes[m], q.tuples.shapes);
    var j :| 0 <= j < |q.tuples.shapes| && AllContainedIn(p.tuples.shapes[m].positions, q.tuples.shapes[j].positions);
    PositionsMonotone(p.tuples.shapes[m], q.tuples.shapes[j], reader, v, scope);
  }

  lemma {:induction false} PositionsMonotone(a: TupleShape, b: TupleShape, reader: Reader, v: Value, scope: Scope)
    requires BuiltShape(a) && BuiltShape(b) && UpperBoundShape(b) && Numbered(reader)
    requires AllContainedIn(a.positions, b.positions) && PositionsAdmitted(a, reader, v, scope)
    ensures PositionsAdmitted(b, reader, v, scope)
    decreases a, 0, 0
  {
    forall k | 0 <= k < |b.positions|
      ensures reader.fields(v, k).Some? && Admits(b.positions[k], reader, reader.fields(v, k).value, scope)
    {
      ContainmentSound(a.positions[k], b.positions[k], reader, reader.fields(v, k).value, scope);
    }
  }

  /** What `p` admits as remainder, `q` admits as remainder or as a listed arity it admits in full. */
  lemma RemainderMonotone(p: TypeTest, q: TypeTest, reader: Reader, v: Value, scope: Scope)
    requires Built(q) && RemainderCovered(q) && Numbered(reader)
    requires q.allowOtherStructs && AxisAdmits(p, reader, v, OtherStructs, scope)
    ensures Admits(q, reader, v, scope)
  {
    var schema := reader.schemaOf(v.addr);
    if SchemaOfListedArity(reader, schema, q.tuples.arities.values) {
      var arity :| arity in q.tuples.arities.values && arity in reader.tupleSchemaIds &&
        reader.tupleSchemaIds[arity] == schema;
      assert TupleArityOf(reader, schema) == Some(arity);
      RegisteredArity(reader, schema, arity, q.tuples.arities);
      if q.tuples.exact {
        var i :| 0 <= i < |q.tuples.shapes| && |q.tuples.shapes[i].positions| == arity;
        assert q.tuples.shapes[i] in OfArity(q.tuples.shapes, arity);
        assert PositionsAdmitted(q.tuples.shapes[i], reader, v, scope);
      }
      assert AxisAdmits(q, reader, v, Tuples, scope);
    } else {
      assert AxisAdmits(q, reader, v, OtherStructs, scope);
    }
  }

  lemma {:induction false} ElementsMonotone(a: ListShapes, b: ListShapes, reader: Reader, v: Value, scope: Scope)
    requires a.exact ==> a.shapes.Contains(NonEmpty) ==> a.heads != []
    requires forall i :: 0 <= i < |a.heads| ==> Built(a.heads[i])
    requires forall i :: 0 <= i < |b.heads| ==> Built(b.heads[i]) && UpperBound(b.heads[i])
    requires Numbered(reader) && ListsContainAll(b, a) && a.shapes.Contains(NonEmpty)
    requires ElementsAdmitted(a, reader, v, scope)
    ensures ElementsAdmitted(b, reader, v, scope)
    decreases a, 0, 0
  {
    if b.AsksTheHead() && (scope == Full || reader.listHead(v).Some?) {
      assert a.AsksTheHead();
      match scope
      case Lowered =>
        var head := reader.listHead(v).value;
        var i :| 0 <= i < |a.heads| && Admits(a.heads[i], reader, head, Lowered);
        assert WithinSome(a.heads[i], b.heads);
        var j :| 0 <= j < |b.heads| && ContainedIn(a.heads[i], b.heads[j]);
        ContainmentSound(a.heads[i], b.heads[j], reader, head, Lowered);
      case Full =>
        var i :| 0 <= i < |a.heads| && FirstRefused(a.heads[i], reader, v, 0).None?;
        assert WithinSome(a.heads[i], b.heads);
        var j :| 0 <= j < |b.heads| && ContainedIn(a.heads[i], b.heads[j]);
        WalkMonotone(a.heads[i], b.heads[j], reader, v, 0);
    }
  }

  lemma {:induction false} WalkMonotone(a: TypeTest, b: TypeTest, reader: Reader, cursor: Value, index: nat)
    requires Built(a) && Built(b) && UpperBound(b) && Numbered(reader) && ContainedIn(a, b)
    requires index <= ELEMENT_WALK_LIMIT && FirstRefused(a, reader, cursor, index).None?
    ensures FirstRefused(b, reader, cursor, index).None?
    decreases a, 3, ELEMENT_WALK_LIMIT - index
  {
    if ListShapeOf(cursor) == Some(NonEmpty) && index < ELEMENT_WALK_LIMIT && reader.listHead(cursor).Some? {
      ContainmentSound(a, b, reader, reader.listHead(cursor).value, Full);
      if reader.listTail(cursor).Some? {
        WalkMonotone(a, b, reader, reader.listTail(cursor).value, index + 1);
      }
    }
  }
}
