/**
 The tests that overlap without sharing a value, what an erasing meeting means, and
 containment that is reported whenever it is true.
 */
module TypeTestGaps {
  import opened Options
  import opened FiniteSets
  import opened TypeTests
  import opened TypeTestContainment
  import opened TypeTestSeparation
  import opened TypeTestOverlap
  import opened TypeTestRealised

  // ----------------------------------------------------- tests nothing realises

  /** A pair whose second member nothing passes. */
  function EmptyPair(): TypeTest { NoneTest().(tuples := TuplesExact([TupleShape([NoneTest(), NoneTest()])])) }

  lemma EmptyPairIs(p: TypeTest)
    requires p == EmptyPair()
    ensures p.tuples == TupleShapes(Lit(2), [TupleShape([NoneTest(), NoneTest()])], true)
    ensures p == NoneTest().(tuples := p.tuples)
  {
    OneShapeExact([NoneTest(), NoneTest()]);
  }

  lemma NothingPassesNone(reader: Reader, v: Value)
    ensures !Admits(NoneTest(), reader, v, Lowered)
  {
    forall axis | axis in AxesOf(v) ensures !AxisAdmits(NoneTest(), reader, v, axis, Lowered) {}
  }

  lemma NothingPassesPair(p: TypeTest, reader: Reader, v: Value)
    requires p == EmptyPair() && Numbered(reader)
    ensures !Admits(p, reader, v, Lowered)
  {
    EmptyPairIs(p);
    forall axis | axis in AxesOf(v) ensures !AxisAdmits(p, reader, v, axis, Lowered) {
      if axis == Tuples && UnnamedOfArity(reader, reader.schemaOf(v.addr), p.tuples.arities) {
        PairRefused(p, reader, v, reader.schemaOf(v.addr));
      }
    }
  }

  lemma PairRefused(p: TypeTest, reader: Reader, v: Value, schema: nat)
    requires p.tuples == TupleShapes(Lit(2), [TupleShape([NoneTest(), NoneTest()])], true) && !p.allowOtherStructs
    requires Numbered(reader) && UnnamedOfArity(reader, schema, p.tuples.arities)
    ensures !TupleShapeAdmitted(p, reader, v, schema, Lowered)
  {
    assert TupleArityOf(reader, schema) == Some(2);
    ShapesOfArity(p, reader, v, schema, 2, Lowered);
    var shape := p.tuples.shapes[0];
    assert shape.positions[0] == NoneTest();
    if reader.fields(v, 0).Some? { NothingPassesNone(reader, reader.fields(v, 0).value); }
    assert !PositionsAdmitted(shape, reader, v, Lowered);
  }

  /** Every pair overlaps a pair that nothing passes: an empty question inside breaks exactness. */
  lemma EmptyPositionOverlaps(p: TypeTest, q: TypeTest)
    requires p == TupleArityTest(2) && q == EmptyPair()
    ensures Built(p) && Built(q) && Realisable(p) && !Realisable(q)
    ensures Overlaps(p, q) && !ShareAValue(p, q)
  {
    EmptyPairIs(q);
    assert 2 in p.tuples.arities.values && 2 in q.tuples.arities.values;
    assert AxisOverlaps(p, q, Tuples);
    assert BuiltShape(q.tuples.shapes[0]);
    assert q.tuples.shapes[0].positions[0] == NoneTest() && !Inhabited(NoneTest());
    forall reader, captured, v | HonestHeap(reader, captured) ensures !Admits(q, reader, v, Lowered) {
      NothingPassesPair(q, reader, v);
    }
  }

  /** A complement on the list axis alone. */
  function ListsBut(shape: ListShape): TypeTest {
    NoneTest().(lists := ListShapes(FiniteSet({shape}, true), [], false))
  }

  lemma OnlyTheOther(shape: ListShape, reader: Reader, v: Value)
    requires Admits(ListsBut(shape), reader, v, Lowered)
    ensures ListShapeOf(v).Some? && ListShapeOf(v).value != shape
  {
    var p := ListsBut(shape);
    var axis :| axis in AxesOf(v) && AxisAdmits(p, reader, v, axis, Lowered);
    assert axis == Lists;
  }

  /** Two complements overlap though together they leave no list shape at all. */
  lemma ComplementsOverlap(p: TypeTest, q: TypeTest)
    requires p == ListsBut(Empty) && q == ListsBut(NonEmpty)
    ensures Built(p) && Built(q) && RealisableInside(p) && RealisableInside(q)
    ensures Overlaps(p, q) && !ShareAValue(p, q)
  {
    assert AxisOverlaps(p, q, Lists);
    forall reader, v | Admits(p, reader, v, Lowered) ensures !Admits(q, reader, v, Lowered) {
      OnlyTheOther(Empty, reader, v);
      if Admits(q, reader, v, Lowered) { OnlyTheOther(NonEmpty, reader, v); }
    }
  }

  /** The test with nothing asked of lists, and none admitted. */
  function Listless(p: TypeTest): TypeTest { p.(lists := ListsNone()) }

  lemma ListlessPasses(p: TypeTest, reader: Reader, v: Value, axis: Axis)
    requires axis != Lists
    ensures AxisAdmits(Listless(p), reader, v, axis, Lowered) <==> AxisAdmits(p, reader, v, axis, Lowered)
  {
    if axis == Tuples && v.Ref? {
      var schema := reader.schemaOf(v.addr);
      if TupleArityOf(reader, schema).Some? {
        assert PositionsOf(Listless(p), TupleArityOf(reader, schema).value) ==
          PositionsOf(p, TupleArityOf(reader, schema).value);
      }
      assert TupleShapeAdmitted(Listless(p), reader, v, schema, Lowered) <==>
        TupleShapeAdmitted(p, reader, v, schema, Lowered);
    }
  }

  ghost predicate OtherAxis(p: TypeTest, q: TypeTest, axis: Axis) { axis != Lists && AxisOverlaps(p, q, axis) }

  /** Some axis but that of lists overlaps. */
  ghost predicate OverlapsElsewhere(p: TypeTest, q: TypeTest) { exists axis: Axis :: OtherAxis(p, q, axis) }

  lemma ListlessOverlaps(p: TypeTest, q: TypeTest, p': TypeTest)
    requires p' == Listless(p)
    ensures Overlaps(p', q) <==> OverlapsElsewhere(p, q)
  {
    assert !ListsOverlap(p'.lists, q.lists);
    if Overlaps(p', q) {
      var axis := OverlappingAxis(p', q);
      assert OtherAxis(p, q, axis);
    }
    if OverlapsElsewhere(p, q) {
      var axis :| OtherAxis(p, q, axis);
      AxisIsEnough(p', q, axis);
    }
  }

  lemma OverlappingAxis(p: TypeTest, q: TypeTest) returns (axis: Axis)
    requires Overlaps(p, q)
    ensures AxisOverlaps(p, q, axis)
  {
    axis :| AxisOverlaps(p, q, axis);
  }

  lemma AxisIsEnough(p: TypeTest, q: TypeTest, axis: Axis)
    requires AxisOverlaps(p, q, axis)
    ensures Overlaps(p, q)
  {}

  lemma ListlessTests(p: TypeTest, q: TypeTest)
    requires Built(p) && Separable(p)
    ensures Built(Listless(p)) && Separable(Listless(p)) && MeetableLists(Listless(p), q)
    ensures RealisableInside(p) ==> RealisableInside(Listless(p))
  {
    forall i | 0 <= i < |p.tuples.shapes| ensures SeparableShape(p.tuples.shapes[i]) {}
    forall i | 0 <= i < |p.callables.shapes| ensures SeparableConstruction(p.callables.shapes[i]) {}
    assert SeparableInside(Listless(p));
  }

  lemma ListlessShares(p: TypeTest, q: TypeTest)
    requires ShareAValue(Listless(p), q)
    ensures ShareAValue(p, q)
  {
    var reader, captured, v :|
      HonestHeap(reader, captured) && Admits(Listless(p), reader, v, Lowered) && Admits(q, reader, v, Lowered);
    var axis :| axis in AxesOf(v) && AxisAdmits(Listless(p), reader, v, axis, Lowered);
    ListlessPasses(p, reader, v, axis);
    assert Admits(p, reader, v, Lowered);
  }

  /** Complements with no common shape admit no common list. */
  lemma NoCommonList(p: TypeTest, q: TypeTest, reader: Reader, v: Value)
    requires !MeetableLists(p, q) && Admits(p, reader, v, Lowered) && Admits(q, reader, v, Lowered)
    ensures Admits(Listless(p), reader, v, Lowered)
  {
    var axis :| axis in AxesOf(v) && AxisAdmits(p, reader, v, axis, Lowered);
    if axis == Lists { assert false; }
    ListlessPasses(p, reader, v, axis);
  }

  lemma ComplementsMeet(p: TypeTest, q: TypeTest)
    requires !MeetableLists(p, q)
    ensures Overlaps(p, q)
  {
    assert NonEmpty in {Empty, NonEmpty} && NonEmpty in p.lists.shapes.values + q.lists.shapes.values;
    assert AxisOverlaps(p, q, Lists);
  }

  /**
   Where no question inside is empty, overlap is wrong in exactly one case: the
   two list axes are complements that leave no shape in common, and no other axis
   overlaps.
   */
  lemma ComplementsAreTheGap(p: TypeTest, q: TypeTest)
    requires Built(p) && Built(q) && RealisableInside(p) && RealisableInside(q) && Separable(p) && Separable(q)
    ensures (Overlaps(p, q) && !ShareAValue(p, q)) <==>
      !MeetableLists(p, q) && !OverlapsElsewhere(p, q)
  {
    ListlessTests(p, q);
    ListlessOverlaps(p, q, Listless(p));
    if Overlaps(Listless(p), q) {
      BuiltRealised(Listless(p), q);
      ListlessShares(p, q);
    } else if MeetableLists(p, q) {
      if Overlaps(p, q) { BuiltRealised(p, q); }
    } else {
      ComplementsMeet(p, q);
      NothingInTheGap(p, q);
    }
  }

  lemma NothingInTheGap(p: TypeTest, q: TypeTest)
    requires Built(p) && Built(q) && Separable(p) && Separable(q) && !MeetableLists(p, q) && !Overlaps(Listless(p), q)
    ensures !ShareAValue(p, q)
  {
    ListlessTests(p, q);
    forall reader, captured, v | HonestHeap(reader, captured) && Admits(p, reader, v, Lowered)
      ensures !Admits(q, reader, v, Lowered)
    {
      if Admits(q, reader, v, Lowered) {
        NoCommonList(p, q, reader, v);
        OverlapNeverMissed(Listless(p), q, reader, captured, v);
      }
    }
  }

  // ----------------------------------------------------------- erasing meetings

  /** A meeting on an erasing axis is an overlap, so between realisable tests some value is there to be erased. */
  lemma ErasingIsReal(p: TypeTest, q: TypeTest)
    requires Built(p) && Built(q) && Realisable(p) && Realisable(q) && OverlapsOnAnErasingAxis(p, q)
    ensures ShareAValue(p, q)
  {
    var axis: Axis :| AxisErases(p, q, axis);
    ErasingOverlaps(p, q, axis);
    OverlapIsReal(p, q);
  }

  lemma ErasingOverlaps(p: TypeTest, q: TypeTest, axis: Axis)
    requires AxisErases(p, q, axis)
    ensures AxisOverlaps(p, q, axis)
  {
    match axis
    case Lists => OverlapsComplete(p.lists.shapes, q.lists.shapes, NonEmpty);
    case Tuples =>
      if p.tuples.exact && q.tuples.exact {
        var i, j :| 0 <= i < |p.tuples.shapes| && 0 <= j < |q.tuples.shapes| &&
          AllOverlap(p.tuples.shapes[i].positions, q.tuples.shapes[j].positions) &&
          SomeErase(p.tuples.shapes[i].positions, q.tuples.shapes[j].positions);
        assert TuplesOverlap(p.tuples, q.tuples);
      }
    case Callables =>
      if p.callables.exact && q.callables.exact {
        var i, j :| 0 <= i < |p.callables.shapes| && 0 <= j < |q.callables.shapes| &&
          ConstructionsOverlap(p.callables.shapes[i], q.callables.shapes[j]) &&
          SomeErase(p.callables.shapes[i].captures, q.callables.shapes[j].captures);
        assert CallablesOverlap(p.callables, q.callables);
      }
    case _ =>
  }

  /**
   Meeting on any axis that keeps no question of its contents is erasing, and so
   is meeting on a head neither asks apart.
   */
  lemma ErasingAxes(p: TypeTest, q: TypeTest)
    ensures (p.maps && q.maps) || (p.binaries && q.binaries) || (p.resources && q.resources) ==>
      OverlapsOnAnErasingAxis(p, q)
    ensures p.allowOtherStructs && q.allowOtherStructs ==> OverlapsOnAnErasingAxis(p, q)
    ensures p.namedStructs.Overlaps(q.namedStructs) ==> OverlapsOnAnErasingAxis(p, q)
    ensures p.lists.shapes.Contains(NonEmpty) && q.lists.shapes.Contains(NonEmpty) && HeadsOverlap(p.lists, q.lists) ==>
      OverlapsOnAnErasingAxis(p, q)
  {
    if p.maps && q.maps { assert AxisErases(p, q, Maps); }
    if p.binaries && q.binaries { assert AxisErases(p, q, Binaries); }
    if p.resources && q.resources { assert AxisErases(p, q, Resources); }
    if p.allowOtherStructs && q.allowOtherStructs { assert AxisErases(p, q, OtherStructs); }
    if p.namedStructs.Overlaps(q.namedStructs) { assert AxisErases(p, q, NamedStructs); }
    if p.lists.shapes.Contains(NonEmpty) && q.lists.shapes.Contains(NonEmpty) && HeadsOverlap(p.lists, q.lists) {
      assert AxisErases(p, q, Lists);
    }
  }

  /** Numbers, atoms and exact tuples of such: tests that erase nothing. */
  ghost predicate SeparatesOnly(p: TypeTest)
    decreases p
  {
    && p.lists == ListsNone() && p.namedStructs.IsNone() && !p.allowOtherStructs && !p.maps && !p.binaries
    && p.callables.targets.IsNone() && !p.resources && p.tuples.exact
    && forall i :: 0 <= i < |p.tuples.shapes| ==> SeparatesAll(p.tuples.shapes[i].positions)
  }

  ghost predicate SeparatesAll(tests: seq<TypeTest>)
    decreases tests
  {
    forall k :: 0 <= k < |tests| ==> SeparatesOnly(tests[k])
  }

  /** Such tests never meet on an erasing axis, at any depth, so a seat may route between them. */
  lemma {:induction false} SeparatingNeverErases(p: TypeTest, q: TypeTest)
    requires SeparatesOnly(p) && SeparatesOnly(q)
    ensures !OverlapsOnAnErasingAxis(p, q)
    decreases p
  {
    forall i, j | 0 <= i < |p.tuples.shapes| && 0 <= j < |q.tuples.shapes|
      ensures !SomeErase(p.tuples.shapes[i].positions, q.tuples.shapes[j].positions)
    {
      var ps, qs := p.tuples.shapes[i].positions, q.tuples.shapes[j].positions;
      assert SeparatesAll(ps) && SeparatesAll(qs);
      forall k | 0 <= k < |ps| && k < |qs| ensures !OverlapsOnAnErasingAxis(ps[k], qs[k]) {
        SeparatingNeverErases(ps[k], qs[k]);
      }
    }
    forall axis: Axis ensures !AxisErases(p, q, axis) {
      match axis {
        case Tuples => assert !TuplesErase(p.tuples, q.tuples);
        case Lists => assert !ListsErase(p.lists, q.lists);
        case Callables => assert !CallablesErase(p.callables, q.callables);
        case _ =>
      }
    }
  }

  // -------------------------------------------------- containment that is seen

  /** Non-empty lists whose head is an integer of the set. */
  function HeadsIn(ints: FiniteSet<int>): TypeTest {
    NoneTest().(lists := ListShapes(Lit(NonEmpty), [NoneTest().(ints := ints)], true))
  }

  /** A heap whose every list has the one head. */
  function OneHead(x: int): Reader {
    Reader([], {}, map[], map[], _ => 0, _ => 0, _ => None, (_, _) => Some(Null), _ => Some(Value.Int(x)), _ => None)
  }

  lemma HeadAdmitted(ints: FiniteSet<int>, x: int)
    ensures Admits(HeadsIn(ints), OneHead(x), Ref(LIST, 16), Lowered) <==> ints.Contains(x)
  {
    var p, reader, v, question := HeadsIn(ints), OneHead(x), Ref(LIST, 16), NoneTest().(ints := ints);
    assert p.lists.heads[0] == question;
    assert Admits(question, reader, Value.Int(x), Lowered) <==>
      AxisAdmits(question, reader, Value.Int(x), Ints, Lowered);
    assert p.lists.AsksTheHead() && reader.listHead(v) == Some(Value.Int(x));
    assert ElementsAdmitted(p.lists, reader, v, Lowered) <==> Admits(p.lists.heads[0], reader, Value.Int(x), Lowered);
    assert Admits(p, reader, v, Lowered) <==> AxisAdmits(p, reader, v, Lists, Lowered);
  }

  lemma MissedElement<T>(a: FiniteSet<T>, b: FiniteSet<T>, out: T) returns (x: T)
    requires !b.ContainsAll(a) && out !in a.values && out !in b.values
    ensures a.Contains(x) && !b.Contains(x)
  {
    if a.cofinite && !b.cofinite { x := out; }
    else if !a.cofinite && !b.cofinite { x :| x in a.values && x !in b.values; }
    else if !a.cofinite { x :| x in a.values && x in b.values; }
    else { x :| x in b.values && x !in a.values; }
  }

  /** On every honest heap, what the one emitted test admits the other does. */
  ghost predicate Implies(p: TypeTest, q: TypeTest) {
    forall reader, captured, v ::
      HonestHeap(reader, captured) && Admits(p, reader, v, Lowered) ==> Admits(q, reader, v, Lowered)
  }

  /** Between lists of integers a containment is reported if and only if it is true of every list. */
  lemma ListContainmentExact(a: FiniteSet<int>, b: FiniteSet<int>)
    ensures ContainedIn(HeadsIn(a), HeadsIn(b)) <==> Implies(HeadsIn(a), HeadsIn(b))
  {
    var p, q := HeadsIn(a), HeadsIn(b);
    var inner, outer := NoneTest().(ints := a), NoneTest().(ints := b);
    assert p.lists.heads[0] == inner && q.lists.heads[0] == outer;
    assert UpperBound(q.lists.heads[0]);
    if b.ContainsAll(a) {
      OnlyWithin(inner, outer, Ints);
      assert WithinSome(p.lists.heads[0], q.lists.heads);
      assert ListsContainAll(q.lists, p.lists);
      OnlyWithin(p, q, Lists);
      forall reader, captured, v | HonestHeap(reader, captured) && Admits(p, reader, v, Lowered)
        ensures Admits(q, reader, v, Lowered)
      {
        ContainmentSound(p, q, reader, v, Lowered);
      }
    } else {
      var x := MissedElement(a, b, BeyondInts(a.values + b.values));
      HeadAdmitted(a, x);
      HeadAdmitted(b, x);
      assert HonestHeap(OneHead(x), (_, _) => Null);
      if ContainedIn(p, q) {
        ContainmentSound(p, q, OneHead(x), Ref(LIST, 16), Lowered);
      }
    }
  }

  /** Inline and shared binaries are admitted alike: by the binary axis, and by nothing else. */
  lemma BinariesAlike(p: TypeTest, reader: Reader, a: nat, b: nat, scope: Scope)
    ensures Admits(p, reader, Ref(BITSTRING, a), scope) <==> p.binaries
    ensures Admits(p, reader, Ref(PROCBIN, b), scope) <==> p.binaries
  {
    assert AxisAdmits(p, reader, Ref(BITSTRING, a), Binaries, scope) <==> p.binaries;
    assert AxisAdmits(p, reader, Ref(PROCBIN, b), Binaries, scope) <==> p.binaries;
  }
}
