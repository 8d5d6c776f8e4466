/**
 The side conditions of the two-test relations are exact: what a reader must
 answer for overlap to be complete, and which tests a seat may route without a
 surface check.
 */
module TypeTestExactness {
  import opened Options
  import opened FiniteSets
  import opened TypeTests
  import opened TypeTestContainment
  import opened TypeTestSeparation

  /** Non-empty lists whose head is an integer; their surface is lists of integers. */
  function IntLists(): TypeTest { ListsOf(NoneTest().(ints := Any())) }

  function AtomLists(): TypeTest { ListsOf(NoneTest().(atoms := Any())) }

  function ListsOf(question: TypeTest): TypeTest {
    NoneTest().(lists := ListShapes(Lit(NonEmpty), [question], true))
  }

  lemma PlainTests(question: TypeTest)
    requires Built(question) && Separable(question)
    ensures Built(ListsOf(question)) && Separable(ListsOf(question))
  {
    var p := ListsOf(question);
    assert p.lists.heads[0] == question;
  }

  lemma ListTests()
    ensures Built(IntLists()) && Separable(IntLists()) && Built(AtomLists()) && Separable(AtomLists())
  {
    PlainTests(NoneTest().(ints := Any()));
    PlainTests(NoneTest().(atoms := Any()));
  }

  // ------------------------------------------------------------ readable heads

  ghost predicate HeadsReadable(reader: Reader) {
    forall v :: ListShapeOf(v) == Some(NonEmpty) ==> reader.listHead(v).Some?
  }

  /** On this heap, overlap misses no value that two tests share. */
  ghost predicate OverlapComplete(reader: Reader) {
    forall p, q, v ::
      (&& Built(p) && Built(q) && Separable(p) && Separable(q)
       && Admits(p, reader, v, Lowered) && Admits(q, reader, v, Lowered)) ==> Overlaps(p, q)
  }

  /** A list whose head the reader cannot produce passes two tests that share no head. */
  lemma UnreadableHeadMissed(reader: Reader, v: Value)
    requires ListShapeOf(v) == Some(NonEmpty) && reader.listHead(v).None?
    ensures Admits(IntLists(), reader, v, Lowered) && Admits(AtomLists(), reader, v, Lowered)
    ensures !Overlaps(IntLists(), AtomLists())
  {
    var p, q := IntLists(), AtomLists();
    assert AxisAdmits(p, reader, v, Lists, Lowered) && AxisAdmits(q, reader, v, Lists, Lowered);
    assert !Overlaps(p.lists.heads[0], q.lists.heads[0]);
    assert !HeadsOverlap(p.lists, q.lists);
  }

  /**
   On a numbered heap with honest closures, overlap is complete for every pair of
   separable tests if and only if the reader produces the head of every non-empty
   list.
   */
  lemma ReadersExact(reader: Reader, captured: (nat, nat) -> Value)
    requires Numbered(reader) && forall addr :: HonestClosure(reader, captured, addr)
    ensures OverlapComplete(reader) <==> HeadsReadable(reader)
  {
    if HeadsReadable(reader) {
      forall p, q, v |
        Built(p) && Built(q) && Separable(p) && Separable(q) &&
        Admits(p, reader, v, Lowered) && Admits(q, reader, v, Lowered)
        ensures Overlaps(p, q)
      {
        OverlapNeverMissed(p, q, reader, captured, v);
      }
    } else {
      var v :| ListShapeOf(v) == Some(NonEmpty) && reader.listHead(v).None?;
      ListTests();
      UnreadableHeadMissed(reader, v);
    }
  }

  // ------------------------------------------------------------ routing is exact

  /** A seat may route between this test and any other it meets on no erasing axis. */
  ghost predicate RoutesSoundly(q: TypeTest) {
    forall p, reader, captured, v ::
      (&& Built(p) && Separable(p) && HonestHeap(reader, captured) && !OverlapsOnAnErasingAxis(p, q)
       && Admits(p, reader, v, Lowered) && Admits(q, reader, v, Lowered))
      ==> Admits(p, reader, v, Full) && Admits(q, reader, v, Full)
  }

  /** Tuples of one arity, every position a list of integers. */
  function RowTest(arity: nat): TypeTest {
    NoneTest().(tuples := TuplesExact([RowShape(arity)]))
  }

  function RowShape(arity: nat): (shape: TupleShape)
    ensures |shape.positions| == arity && forall k :: 0 <= k < arity ==> shape.positions[k] == IntLists()
  {
    TupleShape(seq(arity, k => IntLists()))
  }

  /** A heap of tuples of one arity, whose every field is the list of an integer and an atom. */
  function MixedReader(arity: nat): Reader {
    Reader([], {}, map[arity := 0], map[], _ => 0, _ => 0, _ => None, (_, _) => Some(Ref(LIST, 16)),
           (v: Value) => Some(if v == Ref(LIST, 16) then Value.Int(1) else Value.Atom(0)),
           (v: Value) => Some(if v == Ref(LIST, 16) then Ref(LIST, 32) else EmptyList))
  }

  /** The list passes the emitted test, and its second element is outside the surface. */
  lemma MixedList(reader: Reader, arity: nat)
    requires reader == MixedReader(arity)
    ensures Admits(IntLists(), reader, Ref(LIST, 16), Lowered) && !Admits(IntLists(), reader, Ref(LIST, 16), Full)
  {
    var p, ints, v := IntLists(), NoneTest().(ints := Any()), Ref(LIST, 16);
    assert AxisAdmits(ints, reader, Value.Int(1), Ints, Lowered) && AxisAdmits(ints, reader, Value.Int(1), Ints, Full);
    assert p.lists.heads[0] == ints;
    assert AxisAdmits(p, reader, v, Lists, Lowered);
    assert !Admits(ints, reader, Value.Atom(0), Full);
    assert FirstRefused(ints, reader, Ref(LIST, 32), 1) == Some((1, Value.Atom(0)));
    assert FirstRefused(ints, reader, v, 0).Some?;
  }

  lemma MixedHeapIsHonest(arity: nat, captured: (nat, nat) -> Value)
    ensures HonestHeap(MixedReader(arity), captured)
  {}

  lemma RowIsPlain(arity: nat)
    ensures Built(RowTest(arity)) && Separable(RowTest(arity))
  {
    RowArities(arity);
    ListTests();
  }

  lemma RowArities(arity: nat)
    ensures RowTest(arity).tuples == TupleShapes(Lit(arity), [RowShape(arity)], true)
  {
    var shapes := [RowShape(arity)];
    var arities := set i | 0 <= i < |shapes| :: |shapes[i].positions|;
    assert |shapes[0].positions| in arities;
    assert arities == {arity};
  }

  lemma RowArity(reader: Reader, arity: nat)
    requires reader == MixedReader(arity)
    ensures TupleArityOf(reader, 0) == Some(arity) && SchemaOfListedArity(reader, 0, {arity})
  {
    assert arity in reader.tupleSchemaIds && reader.tupleSchemaIds[arity] == 0;
  }

  /** A test with one exact shape admits a tuple of its arity as the shape's positions do. */
  lemma OneShape(p: TypeTest, reader: Reader, addr: nat, shape: TupleShape, scope: Scope)
    requires p == NoneTest().(tuples := TupleShapes(Lit(|shape.positions|), [shape], true)) && Numbered(reader)
    requires TupleArityOf(reader, reader.schemaOf(addr)) == Some(|shape.positions|)
    ensures Admits(p, reader, Ref(STRUCT, addr), scope) <==> PositionsAdmitted(shape, reader, Ref(STRUCT, addr), scope)
  {
    var v, schema, arity := Ref(STRUCT, addr), reader.schemaOf(addr), |shape.positions|;
    assert SchemaOfListedArity(reader, schema, {arity});
    assert p.tuples.shapes[0] == shape;
    ShapesOfArity(p, reader, v, schema, arity, scope);
    assert AxisAdmits(p, reader, v, Tuples, scope) <==> PositionsAdmitted(shape, reader, v, scope);
  }

  /** The tuple passes the row's emitted test and not its surface. */
  lemma RowErases(reader: Reader, arity: nat)
    requires reader == MixedReader(arity) && arity > 0
    ensures Admits(RowTest(arity), reader, Ref(STRUCT, 16), Lowered)
    ensures !Admits(RowTest(arity), reader, Ref(STRUCT, 16), Full)
  {
    var shape := RowShape(arity);
    RowArities(arity);
    RowArity(reader, arity);
    MixedList(reader, arity);
    assert PositionsAdmitted(shape, reader, Ref(STRUCT, 16), Lowered);
    assert !PositionsAdmitted(shape, reader, Ref(STRUCT, 16), Full) by {
      assert shape.positions[0] == IntLists();
    }
    OneShape(RowTest(arity), reader, 16, shape, Lowered);
    OneShape(RowTest(arity), reader, 16, shape, Full);
  }

  /** A row of an arity the other test does not list meets it on no axis at all. */
  lemma RowMeetsNothing(q: TypeTest, arity: nat)
    requires !q.tuples.arities.cofinite && arity !in q.tuples.arities.values
    ensures !OverlapsOnAnErasingAxis(RowTest(arity), q)
  {
    var p := RowTest(arity);
    RowArities(arity);
    forall axis: Axis ensures !AxisErases(p, q, axis) {
      match axis {
        case Lists => assert !ListsErase(p.lists, q.lists);
        case Tuples => assert !TuplesErase(p.tuples, q.tuples);
        case Callables => assert !CallablesErase(p.callables, q.callables);
        case _ =>
      }
    }
  }

  /** An unshared remainder routes a tuple blind: both emitted tests take it, and the row's surface does not. */
  lemma UnsharedRemainderRoutesBlind(q: TypeTest, arity: nat, captured: (nat, nat) -> Value)
    requires q.allowOtherStructs && !q.tuples.arities.cofinite && arity !in q.tuples.arities.values && arity > 0
    ensures !RoutesSoundly(q)
  {
    var p, reader, v := RowTest(arity), MixedReader(arity), Ref(STRUCT, 16);
    RowIsPlain(arity);
    MixedHeapIsHonest(arity, captured);
    RowErases(reader, arity);
    RowMeetsNothing(q, arity);
    assert AxisAdmits(q, reader, v, OtherStructs, Lowered);
  }

  /**
   Given separable questions inside, a seat may route between a test and every
   separable test it meets on no erasing axis if and only if the remainder the
   test carries is shared.
   */
  lemma {:induction false} RoutingExact(q: TypeTest)
    requires Built(q) && SeparableInside(q)
    ensures RoutesSoundly(q) <==> RemainderShared(q)
  {
    if RemainderShared(q) {
      forall p, reader, captured, v |
        Built(p) && Separable(p) && HonestHeap(reader, captured) && !OverlapsOnAnErasingAxis(p, q) &&
        Admits(p, reader, v, Lowered) && Admits(q, reader, v, Lowered)
        ensures Admits(p, reader, v, Full) && Admits(q, reader, v, Full)
      {
        NoBlindRouting(p, q, reader, captured, v);
      }
    } else {
      UnsharedRemainderRoutesBlind(q, Beyond(q.tuples.arities.values) + 1, (_, _) => Null);
    }
  }
}
