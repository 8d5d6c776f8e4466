/**
 What a dispatch seat may conclude from two tests: overlap never misses a shared
 value, and two tests that meet on no erasing axis never route a value blind.
 */
module TypeTestSeparation {
  import opened Options
  import opened FiniteSets
  import opened TypeTests
  import opened TypeTestContainment

  /**
   Overlap reads the axes as independent, so a test carrying the remainder axis
   must also offer the remainder on its tuple axis.
   */
  ghost predicate RemainderShared(p: TypeTest) {
    p.allowOtherStructs ==> p.tuples.arities.cofinite
  }

  /** `RemainderShared` at every depth; a capture must be an upper bound as well. */
  ghost predicate Separable(p: TypeTest)
    decreases p, 1
  {
    RemainderShared(p) && SeparableInside(p)
  }

  ghost predicate SeparableInside(p: TypeTest)
    decreases p, 0
  {
    && (forall i :: 0 <= i < |p.lists.heads| ==> Separable(p.lists.heads[i]))
    && (forall i :: 0 <= i < |p.tuples.shapes| ==> SeparableShape(p.tuples.shapes[i]))
    && (forall i :: 0 <= i < |p.callables.shapes| ==> SeparableConstruction(p.callables.shapes[i]))
  }

  ghost predicate SeparableShape(shape: TupleShape)
    decreases shape
  {
    forall k :: 0 <= k < |shape.positions| ==> Separable(shape.positions[k])
  }

  ghost predicate SeparableConstruction(shape: CallableShape)
    decreases shape
  {
    forall k :: 0 <= k < |shape.captures| ==> Separable(shape.captures[k]) && UpperBound(shape.captures[k])
  }

  /** Every captured value passes the capture test its own construction stamped. */
  ghost predicate HonestClosure(reader: Reader, captured: (nat, nat) -> Value, addr: nat) {
    match reader.callables(reader.codeOf(addr))
    case None => true
    case Some(shape) =>
      && BuiltConstruction(shape)
      && forall k :: 0 <= k < |shape.captures| ==> Admits(shape.captures[k], reader, captured(addr, k), Lowered)
  }

  /** A heap the two-test relations speak for: numbered, readable and honest. */
  ghost predicate HonestHeap(reader: Reader, captured: (nat, nat) -> Value) {
    && Numbered(reader)
    && (forall v :: ListShapeOf(v) == Some(NonEmpty) ==> reader.listHead(v).Some?)
    && (forall addr :: HonestClosure(reader, captured, addr))
  }

  // --------------------------------------------------- Full refines Lowered

  /** What the surface names, the emitted test admits. */
  lemma {:induction false} FullRefinesLowered(p: TypeTest, reader: Reader, v: Value)
    requires Admits(p, reader, v, Full)
    ensures Admits(p, reader, v, Lowered)
    decreases p, 1
  {
    var axis :| axis in AxesOf(v) && AxisAdmits(p, reader, v, axis, Full);
    if axis == Lists && ListShapeOf(v) == Some(NonEmpty) {
      HeadRefines(p, reader, v);
    } else if axis == Tuples {
      ShapeRefines(p, reader, v, reader.schemaOf(v.addr));
    }
    assert AxisAdmits(p, reader, v, axis, Lowered);
  }

  lemma {:induction false} HeadRefines(p: TypeTest, reader: Reader, v: Value)
    requires ListShapeOf(v) == Some(NonEmpty) && ElementsAdmitted(p.lists, reader, v, Full)
    ensures ElementsAdmitted(p.lists, reader, v, Lowered)
    decreases p, 0
  {
    if p.lists.AsksTheHead() && reader.listHead(v).Some? {
      var i :| 0 <= i < |p.lists.heads| && FirstRefused(p.lists.heads[i], reader, v, 0).None?;
      FullRefinesLowered(p.lists.heads[i], reader, reader.listHead(v).value);
    }
  }

  lemma {:induction false} ShapeRefines(p: TypeTest, reader: Reader, v: Value, schema: nat)
    requires TupleShapeAdmitted(p, reader, v, schema, Full)
    ensures TupleShapeAdmitted(p, reader, v, schema, Lowered)
    decreases p, 0
  {
    var arity := TupleArityOf(reader, schema);
    if arity.Some? && PositionsOf(p, arity.value).AnyOf? {
      ShapesOfArity(p, reader, v, schema, arity.value, Full);
      ShapesOfArity(p, reader, v, schema, arity.value, Lowered);
      var m :| 0 <= m < |p.tuples.shapes| && |p.tuples.shapes[m].positions| == arity.value &&
        PositionsAdmitted(p.tuples.shapes[m], reader, v, Full);
      forall k | 0 <= k < |p.tuples.shapes[m].positions| {
        FullRefinesLowered(p.tuples.shapes[m].positions[k], reader, reader.fields(v, k).value);
      }
      assert PositionsAdmitted(p.tuples.shapes[m], reader, v, Lowered);
    }
  }

  // ------------------------------------------------- overlap is never missed

  lemma AritiesMeet(reader: Reader, schema: nat, a: FiniteSet<nat>, b: FiniteSet<nat>)
    requires Numbered(reader) && UnnamedOfArity(reader, schema, a) && UnnamedOfArity(reader, schema, b)
    ensures a.Overlaps(b)
  {}

  lemma AtomsMeet(names: seq<string>, id: nat, a: FiniteSet<string>, b: FiniteSet<string>)
    requires AtomMember(a, names, id) && AtomMember(b, names, id)
    ensures a.Overlaps(b)
  {}

  lemma NamesMeet(p: TypeTest, q: TypeTest, reader: Reader, schema: nat)
    requires Numbered(reader) && NamedStructAdmits(p, reader, schema) && NamedStructAdmits(q, reader, schema)
    ensures p.namedStructs.Overlaps(q.namedStructs)
  {}

  /** Two tests that name a struct in common meet on an erasing axis. */
  lemma NamesErase(p: TypeTest, q: TypeTest)
    requires p.namedStructs.Overlaps(q.namedStructs)
    ensures OverlapsOnAnErasingAxis(p, q)
  {
    assert AxisErases(p, q, NamedStructs);
  }

  /** A struct is named or unnamed, never both. */
  lemma NamedIsNotUnnamed(p: TypeTest, reader: Reader, schema: nat, arities: FiniteSet<nat>)
    requires Numbered(reader) && NamedStructAdmits(p, reader, schema)
    ensures !UnnamedOfArity(reader, schema, arities)
  {}

  /** With a shared remainder, admission as remainder is admission on the arity half of the tuple axis. */
  lemma RemainderIsUnnamed(p: TypeTest, reader: Reader, schema: nat)
    requires RemainderShared(p) && UnnamedOfArity(reader, schema, OtherStructArities(p))
    ensures p.allowOtherStructs && p.tuples.arities.cofinite && UnnamedOfArity(reader, schema, p.tuples.arities)
  {}

  /** Which axis pair admits a shared struct: both unnamed, or both named. */
  lemma StructAxes(p: TypeTest, q: TypeTest, reader: Reader, v: Value)
    requires Numbered(reader) && RemainderShared(p) && RemainderShared(q)
    requires v.Ref? && v.kind == STRUCT && Admits(p, reader, v, Lowered) && Admits(q, reader, v, Lowered)
    ensures
      var schema := reader.schemaOf(v.addr);
      || (NamedStructAdmits(p, reader, schema) && NamedStructAdmits(q, reader, schema))
      || (&& UnnamedOfArity(reader, schema, p.tuples.arities) && UnnamedOfArity(reader, schema, q.tuples.arities)
          && (TupleShapeAdmitted(p, reader, v, schema, Lowered) || (p.allowOtherStructs && p.tuples.arities.cofinite))
          && (TupleShapeAdmitted(q, reader, v, schema, Lowered) || (q.allowOtherStructs && q.tuples.arities.cofinite)))
  {
    var schema := reader.schemaOf(v.addr);
    var a :| a in AxesOf(v) && AxisAdmits(p, reader, v, a, Lowered);
    var b :| b in AxesOf(v) && AxisAdmits(q, reader, v, b, Lowered);
    if a == NamedStructs {
      NamedIsNotUnnamed(p, reader, schema, q.tuples.arities);
      NamedIsNotUnnamed(p, reader, schema, OtherStructArities(q));
    } else if b == NamedStructs {
      NamedIsNotUnnamed(q, reader, schema, p.tuples.arities);
      NamedIsNotUnnamed(q, reader, schema, OtherStructArities(p));
    } else {
      if a == OtherStructs { RemainderIsUnnamed(p, reader, schema); }
      if b == OtherStructs { RemainderIsUnnamed(q, reader, schema); }
    }
  }

  /** Exact tuple axes that admit one tuple name two shapes of its arity that it matches. */
  lemma MatchedShapes(p: TypeTest, reader: Reader, v: Value, schema: nat) returns (arity: nat, m: nat)
    requires Built(p) && RemainderShared(p) && Numbered(reader) && p.tuples.exact
    requires UnnamedOfArity(reader, schema, p.tuples.arities) && TupleShapeAdmitted(p, reader, v, schema, Lowered)
    ensures TupleArityOf(reader, schema) == Some(arity)
    ensures m < |p.tuples.shapes| && |p.tuples.shapes[m].positions| == arity
    ensures PositionsAdmitted(p.tuples.shapes[m], reader, v, Lowered)
  {
    arity := TupleArityOf(reader, schema).value;
    RegisteredArity(reader, schema, arity, p.tuples.arities);
    ShapesOfArity(p, reader, v, schema, arity, Lowered);
    m :| 0 <= m < |p.tuples.shapes| && |p.tuples.shapes[m].positions| == arity &&
      PositionsAdmitted(p.tuples.shapes[m], reader, v, Lowered);
  }

  /** A value that is no struct has one axis, on which both tests admit it. */
  lemma OnlyAxis(p: TypeTest, q: TypeTest, reader: Reader, v: Value, scope: Scope) returns (axis: Axis)
    requires !(v.Ref? && v.kind == STRUCT) && Admits(p, reader, v, scope) && Admits(q, reader, v, scope)
    ensures axis in AxesOf(v) && !axis.Tuples? && !axis.NamedStructs? && !axis.OtherStructs?
    ensures AxisAdmits(p, reader, v, axis, scope) && AxisAdmits(q, reader, v, axis, scope)
  {
    axis :| axis in AxesOf(v) && AxisAdmits(p, reader, v, axis, scope);
  }

  lemma ScalarsMeet(p: TypeTest, q: TypeTest, reader: Reader, v: Value, axis: Axis)
    requires axis.Ints? || axis.Floats? || axis.Atoms? || axis.Maps? || axis.Binaries? || axis.Resources?
    requires AxisAdmits(p, reader, v, axis, Lowered) && AxisAdmits(q, reader, v, axis, Lowered)
    ensures AxisOverlaps(p, q, axis)
  {
    match axis
    case Ints => OverlapsComplete(p.ints, q.ints, v.num);
    case Floats => OverlapsComplete(p.floats, q.floats, v.bits);
    case Atoms => AtomsMeet(reader.atomNames, v.id, p.atoms, q.atoms);
    case _ =>
  }

  /**
   Overlap never under-reports: one value that passes both tests makes them
   overlap, at every nesting of lists, tuples and closure captures.
   */
  lemma {:induction false} OverlapNeverMissed(
    p: TypeTest, q: TypeTest, reader: Reader, captured: (nat, nat) -> Value, v: Value)
    requires Built(p) && Built(q) && Separable(p) && Separable(q) && HonestHeap(reader, captured)
    requires Admits(p, reader, v, Lowered) && Admits(q, reader, v, Lowered)
    ensures Overlaps(p, q)
    decreases p, 1
  {
    if v.Ref? && v.kind == STRUCT {
      StructsOverlap(p, q, reader, captured, v);
    } else {
      var axis := OnlyAxis(p, q, reader, v, Lowered);
      match axis {
        case Lists => ListsMeet(p.lists, q.lists, reader, captured, v);
        case Callables => CallablesMeet(p.callables, q.callables, p, q, reader, captured, v.addr);
        case _ => ScalarsMeet(p, q, reader, v, axis);
      }
      assert AxisOverlaps(p, q, axis);
    }
  }

  lemma {:induction false} StructsOverlap(
    p: TypeTest, q: TypeTest, reader: Reader, captured: (nat, nat) -> Value, v: Value)
    requires Built(p) && Built(q) && Separable(p) && Separable(q) && HonestHeap(reader, captured)
    requires v.Ref? && v.kind == STRUCT && Admits(p, reader, v, Lowered) && Admits(q, reader, v, Lowered)
    ensures Overlaps(p, q)
    decreases p, 0
  {
    StructAxes(p, q, reader, v);
    var schema := reader.schemaOf(v.addr);
    if NamedStructAdmits(p, reader, schema) && NamedStructAdmits(q, reader, schema) {
      NamesMeet(p, q, reader, schema);
      assert AxisOverlaps(p, q, NamedStructs);
    } else {
      AritiesMeet(reader, schema, p.tuples.arities, q.tuples.arities);
      if p.tuples.exact && q.tuples.exact {
        var arity, i := MatchedShapes(p, reader, v, schema);
        var _, j := MatchedShapes(q, reader, v, schema);
        PositionsOverlap(p.tuples.shapes[i], q.tuples.shapes[j], reader, captured, v);
      }
      assert TuplesOverlap(p.tuples, q.tuples);
      assert AxisOverlaps(p, q, Tuples);
    }
  }

  lemma {:induction false} PositionsOverlap(
    a: TupleShape, b: TupleShape, reader: Reader, captured: (nat, nat) -> Value, v: Value)
    requires |a.positions| == |b.positions|
    requires BuiltShape(a) && BuiltShape(b) && SeparableShape(a) && SeparableShape(b) && HonestHeap(reader, captured)
    requires PositionsAdmitted(a, reader, v, Lowered) && PositionsAdmitted(b, reader, v, Lowered)
    ensures AllOverlap(a.positions, b.positions)
    decreases a, 0
  {
    forall k | 0 <= k < |a.positions|
      ensures Overlaps(a.positions[k], b.positions[k])
    {
      OverlapNeverMissed(a.positions[k], b.positions[k], reader, captured, reader.fields(v, k).value);
    }
  }

  ghost predicate BuiltLists(a: ListShapes) {
    forall i :: 0 <= i < |a.heads| ==> Built(a.heads[i]) && Separable(a.heads[i])
  }

  lemma {:induction false} HeadsMeet(
    a: ListShapes, b: ListShapes, reader: Reader, captured: (nat, nat) -> Value, v: Value)
    requires BuiltLists(a) && BuiltLists(b) && HonestHeap(reader, captured)
    requires ListShapeOf(v) == Some(NonEmpty)
    requires ElementsAdmitted(a, reader, v, Lowered) && ElementsAdmitted(b, reader, v, Lowered)
    ensures HeadsOverlap(a, b)
    decreases a, 0
  {
    if a.AsksTheHead() && b.AsksTheHead() {
      var head := reader.listHead(v).value;
      var i :| 0 <= i < |a.heads| && Admits(a.heads[i], reader, head, Lowered);
      var j :| 0 <= j < |b.heads| && Admits(b.heads[j], reader, head, Lowered);
      OverlapNeverMissed(a.heads[i], b.heads[j], reader, captured, head);
    }
  }

  lemma {:induction false} ListsMeet(
    a: ListShapes, b: ListShapes, reader: Reader, captured: (nat, nat) -> Value, v: Value)
    requires BuiltLists(a) && BuiltLists(b) && HonestHeap(reader, captured)
    requires ListShapeOf(v).Some? && a.shapes.Contains(ListShapeOf(v).value) && b.shapes.Contains(ListShapeOf(v).value)
    requires ListShapeOf(v) == Some(NonEmpty) ==>
               ElementsAdmitted(a, reader, v, Lowered) && ElementsAdmitted(b, reader, v, Lowered)
    ensures ListsOverlap(a, b)
    decreases a, 1
  {
    OverlapsComplete(a.shapes, b.shapes, ListShapeOf(v).value);
    if ListShapeOf(v) == Some(NonEmpty) {
      HeadsMeet(a, b, reader, captured, v);
    }
  }

  lemma {:induction false} CallablesMeet(
    a: CallableShapes, b: CallableShapes, p: TypeTest, q: TypeTest,
    reader: Reader, captured: (nat, nat) -> Value, addr: nat)
    requires a == p.callables && b == q.callables
    requires Built(p) && Built(q) && SeparableInside(p) && SeparableInside(q) && HonestHeap(reader, captured)
    requires CallableAdmits(p, reader, addr) && CallableAdmits(q, reader, addr)
    ensures CallablesOverlap(a, b)
    decreases a, 0
  {
    var stamped := reader.callables(reader.codeOf(addr));
    if a.exact && b.exact {
      var shape := stamped.value;
      var i :| 0 <= i < |a.shapes| && Inside(shape, a.shapes[i]);
      var j :| 0 <= j < |b.shapes| && Inside(shape, b.shapes[j]);
      assert a.shapes[i].target in a.targets.values && b.shapes[j].target in b.targets.values;
      assert HonestClosure(reader, captured, addr);
      assert AllContainedIn(shape.captures, a.shapes[i].captures) &&
        AllContainedIn(shape.captures, b.shapes[j].captures);
      forall k | 0 <= k < |a.shapes[i].captures|
        ensures Overlaps(a.shapes[i].captures[k], b.shapes[j].captures[k])
      {
        var content := captured(addr, k);
        ContainmentSound(shape.captures[k], a.shapes[i].captures[k], reader, content, Lowered);
        ContainmentSound(shape.captures[k], b.shapes[j].captures[k], reader, content, Lowered);
        OverlapNeverMissed(a.shapes[i].captures[k], b.shapes[j].captures[k], reader, captured, content);
      }
      assert ConstructionsOverlap(a.shapes[i], b.shapes[j]);
    } else {
      TargetsMeet(p, q, reader, addr);
    }
  }

  lemma TargetsMeet(p: TypeTest, q: TypeTest, reader: Reader, addr: nat)
    requires Built(p) && Built(q) && CallableAdmits(p, reader, addr) && CallableAdmits(q, reader, addr)
    ensures p.callables.targets.Overlaps(q.callables.targets)
  {
    TargetAdmitted(p, reader, addr);
    TargetAdmitted(q, reader, addr);
    if !(p.callables.targets.cofinite && q.callables.targets.cofinite) && reader.callables(reader.codeOf(addr)).Some? {
      var target := reader.callables(reader.codeOf(addr)).value.target;
      if p.callables.targets.Contains(target) && q.callables.targets.Contains(target) {
        OverlapsComplete(p.callables.targets, q.callables.targets, target);
      }
    }
  }

  /** A finite callable axis admits only constructions it names; an unrestricted one overlaps whatever is non-empty. */
  lemma TargetAdmitted(p: TypeTest, reader: Reader, addr: nat)
    requires Built(p) && CallableAdmits(p, reader, addr)
    ensures !p.callables.targets.IsNone()
    ensures p.callables.targets.IsAny() || p.callables.targets.cofinite ||
            (reader.callables(reader.codeOf(addr)).Some? &&
             p.callables.targets.Contains(reader.callables(reader.codeOf(addr)).value.target))
    ensures reader.callables(reader.codeOf(addr)).Some? ==>
              p.callables.targets.Contains(reader.callables(reader.codeOf(addr)).value.target)
  {
    if p.callables.exact && reader.callables(reader.codeOf(addr)).Some? {
      var shape := reader.callables(reader.codeOf(addr)).value;
      if !p.callables.targets.IsAny() {
        var i :| 0 <= i < |p.callables.shapes| && Inside(shape, p.callables.shapes[i]);
        assert p.callables.shapes[i].target in p.callables.targets.values;
      }
    }
  }

  // ------------------------------------------------------- no blind routing

  /**
   No blind routing: where two tests meet on no erasing axis, a value both
   emitted tests admit lies inside both surfaces, so a seat may skip the
   surface check.
   */
  lemma {:induction false} NoBlindRouting(
    p: TypeTest, q: TypeTest, reader: Reader, captured: (nat, nat) -> Value, v: Value)
    requires Built(p) && Built(q) && Separable(p) && Separable(q) && HonestHeap(reader, captured)
    requires !OverlapsOnAnErasingAxis(p, q)
    requires Admits(p, reader, v, Lowered) && Admits(q, reader, v, Lowered)
    ensures Admits(p, reader, v, Full) && Admits(q, reader, v, Full)
    decreases p, 1
  {
    if v.Ref? && v.kind == STRUCT {
      StructAxes(p, q, reader, v);
      var schema := reader.schemaOf(v.addr);
      if NamedStructAdmits(p, reader, schema) && NamedStructAdmits(q, reader, schema) {
        NamesMeet(p, q, reader, schema);
        NamesErase(p, q);
        assert false;
      } else {
        AritiesMeet(reader, schema, p.tuples.arities, q.tuples.arities);
        assert !AxisErases(p, q, Tuples);
        assert !TuplesErase(p.tuples, q.tuples);
        TuplesInSurface(p, q, reader, captured, v, schema);
      }
    } else {
      var axis := OnlyAxis(p, q, reader, v, Lowered);
      assert !AxisErases(p, q, axis);
      if axis == Lists && ListShapeOf(v) == Some(NonEmpty) {
        HeadsMeet(p.lists, q.lists, reader, captured, v);
        assert false;
      }
      assert AxisAdmits(p, reader, v, axis, Full) && AxisAdmits(q, reader, v, axis, Full);
    }
  }

  lemma {:induction false} TuplesInSurface(
    p: TypeTest, q: TypeTest, reader: Reader, captured: (nat, nat) -> Value, v: Value, schema: nat)
    requires Built(p) && Built(q) && Separable(p) && Separable(q) && HonestHeap(reader, captured)
    requires v.Ref? && v.kind == STRUCT && schema == reader.schemaOf(v.addr)
    requires p.tuples.exact && q.tuples.exact && p.tuples.arities.Overlaps(q.tuples.arities)
    requires !TuplesErase(p.tuples, q.tuples)
    requires UnnamedOfArity(reader, schema, p.tuples.arities) && TupleShapeAdmitted(p, reader, v, schema, Lowered)
    requires UnnamedOfArity(reader, schema, q.tuples.arities) && TupleShapeAdmitted(q, reader, v, schema, Lowered)
    ensures Admits(p, reader, v, Full) && Admits(q, reader, v, Full)
    decreases p, 0
  {
    var arity, i := MatchedShapes(p, reader, v, schema);
    var _, j := MatchedShapes(q, reader, v, schema);
    PositionsOverlap(p.tuples.shapes[i], q.tuples.shapes[j], reader, captured, v);
    PositionsInSurface(p.tuples.shapes[i], q.tuples.shapes[j], reader, captured, v);
    InSurface(p, reader, v, schema, arity, i);
    InSurface(q, reader, v, schema, arity, j);
  }

  lemma InSurface(p: TypeTest, reader: Reader, v: Value, schema: nat, arity: nat, m: nat)
    requires v.Ref? && v.kind == STRUCT && schema == reader.schemaOf(v.addr)
    requires UnnamedOfArity(reader, schema, p.tuples.arities) && TupleShapeAdmitted(p, reader, v, schema, Lowered)
    requires TupleArityOf(reader, schema) == Some(arity)
    requires m < |p.tuples.shapes| && |p.tuples.shapes[m].positions| == arity
    requires PositionsAdmitted(p.tuples.shapes[m], reader, v, Full)
    ensures Admits(p, reader, v, Full)
  {
    if PositionsOf(p, arity).AnyOf? {
      ShapesOfArity(p, reader, v, schema, arity, Full);
    }
    assert TupleShapeAdmitted(p, reader, v, schema, Full);
    assert AxisAdmits(p, reader, v, Tuples, Full);
  }

  lemma {:induction false} PositionsInSurface(
    a: TupleShape, b: TupleShape, reader: Reader, captured: (nat, nat) -> Value, v: Value)
    requires |a.positions| == |b.positions| && !SomeErase(a.positions, b.positions)
    requires BuiltShape(a) && BuiltShape(b) && SeparableShape(a) && SeparableShape(b) && HonestHeap(reader, captured)
    requires PositionsAdmitted(a, reader, v, Lowered) && PositionsAdmitted(b, reader, v, Lowered)
    ensures PositionsAdmitted(a, reader, v, Full) && PositionsAdmitted(b, reader, v, Full)
    decreases a, 0
  {
    forall k | 0 <= k < |a.positions|
      ensures Admits(a.positions[k], reader, reader.fields(v, k).value, Full)
      ensures Admits(b.positions[k], reader, reader.fields(v, k).value, Full)
    {
      NoBlindRouting(a.positions[k], b.positions[k], reader, captured, reader.fields(v, k).value);
    }
  }

  // ---------------------------------------------- the side conditions are exact

  /** A heap of one kind of value: unnamed structs of one arity, every field absent. */
  function OneArityReader(arity: nat): Reader {
    Reader([], {}, map[arity := 0], map[], _ => 0, _ => 0, _ => None, (_, _) => Some(Null), _ => Some(Null), _ => None)
  }

  /** The test that carries the other-structs axis and nothing else. */
  function RemainderTest(): TypeTest {
    NoneTest().(allowOtherStructs := true)
  }

  ghost predicate ContainsSoundly(q: TypeTest) {
    forall p, reader, v, scope ::
      Built(p) && Numbered(reader) && ContainedIn(p, q) && Admits(p, reader, v, scope) ==> Admits(q, reader, v, scope)
  }

  /**
   Given sound questions inside, a test is a sound upper bound of everything the
   relation puts below it if and only if it admits in full every arity it lists
   beside the remainder.
   */
  lemma {:induction false} ContainmentExact(q: TypeTest)
    requires Built(q) && UpperBoundInside(q)
    ensures ContainsSoundly(q) <==> RemainderCovered(q)
  {
    if RemainderCovered(q) {
      forall p, reader, v, scope | Built(p) && Numbered(reader) && ContainedIn(p, q) && Admits(p, reader, v, scope)
        ensures Admits(q, reader, v, scope)
      {
        ContainmentSound(p, q, reader, v, scope);
      }
    } else {
      var arity :| q.allowOtherStructs && arity in q.tuples.arities.values &&
        !(q.tuples.arities.Contains(arity) && (q.tuples.exact ==> arity == 0));
      RestrictedArityEscapes(q, arity);
    }
  }

  /** A listed arity that is not admitted in full: the bare remainder holds a tuple the test refuses. */
  lemma RestrictedArityEscapes(q: TypeTest, arity: nat)
    requires q.allowOtherStructs && arity in q.tuples.arities.values
    requires !(q.tuples.arities.Contains(arity) && (q.tuples.exact ==> arity == 0))
    ensures ContainedIn(RemainderTest(), q)
    ensures Built(RemainderTest()) && Numbered(OneArityReader(arity))
    ensures Admits(RemainderTest(), OneArityReader(arity), Ref(STRUCT, 16), Lowered)
    ensures !Admits(q, OneArityReader(arity), Ref(STRUCT, 16), Lowered)
  {
    var p, reader, v := RemainderTest(), OneArityReader(arity), Ref(STRUCT, 16);
    RemainderIsLeast(q);
    assert AxisAdmits(p, reader, v, OtherStructs, Lowered);
    assert SchemaOfListedArity(reader, 0, q.tuples.arities.values);
    AbsentFieldsRefused(q, arity);
    assert !AxisAdmits(q, reader, v, NamedStructs, Lowered) && !AxisAdmits(q, reader, v, OtherStructs, Lowered);
  }

  /** The tuple whose fields are all absent passes no tuple axis that restricts its arity. */
  lemma AbsentFieldsRefused(q: TypeTest, arity: nat)
    requires arity in q.tuples.arities.values
    requires !(q.tuples.arities.Contains(arity) && (q.tuples.exact ==> arity == 0))
    ensures !AxisAdmits(q, OneArityReader(arity), Ref(STRUCT, 16), Tuples, Lowered)
  {
    var reader, v := OneArityReader(arity), Ref(STRUCT, 16);
    assert arity in reader.tupleSchemaIds && reader.tupleSchemaIds[arity] == 0;
    assert TupleArityOf(reader, 0) == Some(arity);
    RegisteredArity(reader, 0, arity, q.tuples.arities);
    if q.tuples.arities.Contains(arity) {
      ShapesOfArity(q, reader, v, 0, arity, Lowered);
      forall m | 0 <= m < |q.tuples.shapes| && |q.tuples.shapes[m].positions| == arity
        ensures !PositionsAdmitted(q.tuples.shapes[m], reader, v, Lowered)
      {
        assert reader.fields(v, 0) == Some(Null) && AxesOf(Null) == {};
        assert !Admits(q.tuples.shapes[m].positions[0], reader, Null, Lowered);
      }
    }
  }

  lemma RemainderIsLeast(q: TypeTest)
    requires q.allowOtherStructs
    ensures ContainedIn(RemainderTest(), q)
  {
    var p := RemainderTest();
    forall axis: Axis
      ensures AxisContainedIn(p, q, axis)
    {
      match axis {
        case Lists => assert ListsContainAll(q.lists, p.lists);
        case Tuples => assert TuplesContainAll(q.tuples, p.tuples);
        case Callables => assert CallablesContainAll(q.callables, p.callables);
        case _ =>
      }
    }
  }

  ghost predicate OverlapsSoundly(q: TypeTest) {
    forall p, reader, captured, v ::
      (&& Built(p) && Separable(p) && HonestHeap(reader, captured)
       && Admits(p, reader, v, Lowered) && Admits(q, reader, v, Lowered)) ==> Overlaps(p, q)
  }

  /** Given separable questions inside, overlap speaks for a test if and only if its remainder is shared. */
  lemma {:induction false} OverlapExact(q: TypeTest)
    requires Built(q) && SeparableInside(q)
    ensures OverlapsSoundly(q) <==> RemainderShared(q)
  {
    if RemainderShared(q) {
      forall p, reader, captured, v |
        Built(p) && Separable(p) && HonestHeap(reader, captured) &&
        Admits(p, reader, v, Lowered) && Admits(q, reader, v, Lowered)
        ensures Overlaps(p, q)
      {
        OverlapNeverMissed(p, q, reader, captured, v);
      }
    } else {
      UnsharedRemainderUnsound(q, Beyond(q.tuples.arities.values), (_, _) => Null);
    }
  }

  lemma UnsharedRemainderUnsound(q: TypeTest, arity: nat, captured: (nat, nat) -> Value)
    requires q.allowOtherStructs && !q.tuples.arities.cofinite && arity !in q.tuples.arities.values
    ensures !OverlapsSoundly(q)
  {
    UnsharedRemainderMissed(q, arity);
    assert HonestHeap(OneArityReader(arity), captured);
    assert Built(TupleArityTest(arity)) && Separable(TupleArityTest(arity));
  }

  /** A natural number outside a finite set. */
  ghost function Beyond(s: set<nat>): (n: nat)
    ensures n !in s && forall m :: m in s ==> m < n
  {
    if s == {} then 0 else
      var k :| k in s;
      var rest := Beyond(s - {k});
      assert forall m :: m in s ==> m == k || m in s - {k};
      if rest <= k then k + 1 else rest
  }

  /** A finite tuple axis beside the remainder: an arity it does not list passes both tests, and overlap misses it. */
  lemma UnsharedRemainderMissed(q: TypeTest, arity: nat)
    requires q.allowOtherStructs && !q.tuples.arities.cofinite && arity !in q.tuples.arities.values
    ensures Admits(TupleArityTest(arity), OneArityReader(arity), Ref(STRUCT, 16), Lowered)
    ensures Admits(q, OneArityReader(arity), Ref(STRUCT, 16), Lowered)
    ensures !Overlaps(TupleArityTest(arity), q)
  {
    var p, reader, v := TupleArityTest(arity), OneArityReader(arity), Ref(STRUCT, 16);
    assert SchemaOfListedArity(reader, 0, {arity});
    assert TupleArityOf(reader, 0) == Some(arity);
    assert AxisAdmits(p, reader, v, Tuples, Lowered);
    assert AxisAdmits(q, reader, v, OtherStructs, Lowered);
    forall axis: Axis
      ensures !AxisOverlaps(p, q, axis)
    {
      match axis {
        case Lists => assert !ListsOverlap(p.lists, q.lists);
        case Tuples => assert !TuplesOverlap(p.tuples, q.tuples);
        case Callables => assert !CallablesOverlap(p.callables, q.callables);
        case _ =>
      }
    }
  }
}
