/**
 Overlap is exact. Two realisable tests that overlap share a value on some honest
 heap, which is built here along with a test that lies inside both.
 */
module TypeTestOverlap {
  import opened Options
  import opened FiniteSets
  import opened TypeTests
  import opened TypeTestContainment
  import opened TypeTestSeparation
  import opened TypeTestWorlds

  // --------------------------------------------------------- realisable tests

  /** Some axis of the test admits something. */
  ghost predicate Inhabited(p: TypeTest) {
    || !p.ints.IsNone() || !p.floats.IsNone() || !p.atoms.IsNone()
    || p.lists.shapes.Contains(Empty) || p.lists.shapes.Contains(NonEmpty)
    || !p.tuples.arities.IsNone() || !p.namedStructs.IsNone() || p.allowOtherStructs
    || p.maps || p.binaries || !p.callables.targets.IsNone() || p.resources
  }

  /** List shapes are listed, or unrestricted: with two of them, a complement says nothing a list does not. */
  ghost predicate PlainLists(p: TypeTest) {
    p.lists.shapes.cofinite ==> p.lists.shapes.values == {}
  }

  /** No question inside the test is empty, at any depth. */
  ghost predicate Realisable(p: TypeTest)
    decreases p, 1
  {
    PlainLists(p) && RealisableInside(p)
  }

  ghost predicate RealisableInside(p: TypeTest)
    decreases p, 0
  {
    && RealisableAll(p.lists.heads)
    && (forall i :: 0 <= i < |p.tuples.shapes| ==> RealisableAll(p.tuples.shapes[i].positions))
    && (forall i :: 0 <= i < |p.callables.shapes| ==> RealisableAll(p.callables.shapes[i].captures))
  }

  ghost predicate RealisableAll(tests: seq<TypeTest>)
    decreases tests
  {
    forall k :: 0 <= k < |tests| ==> Inhabited(tests[k]) && Realisable(tests[k])
  }

  // ---------------------------------------------------- how far a test reaches

  /** How deep a test nests, and what it mentions at every depth. */
  datatype Extent = Extent(depth: nat, arities: set<nat>, structs: set<string>, atoms: set<string>)

  function Join(a: Extent, b: Extent): Extent {
    Extent(if a.depth < b.depth then b.depth else a.depth,
           a.arities + b.arities, a.structs + b.structs, a.atoms + b.atoms)
  }

  function ExtentOf(p: TypeTest): Extent
    decreases p
  {
    var inner := Join(ExtentOfAll(p.lists.heads),
                      Join(ExtentOfRows(p.tuples.shapes), ExtentOfMade(p.callables.shapes)));
    Extent(1 + inner.depth, p.tuples.arities.values + inner.arities, p.namedStructs.values + inner.structs,
           p.atoms.values + inner.atoms)
  }

  function ExtentOfAll(tests: seq<TypeTest>): Extent
    decreases tests
  {
    if tests == [] then Extent(0, {}, {}, {})
    else Join(ExtentOfAll(tests[..|tests| - 1]), ExtentOf(tests[|tests| - 1]))
  }

  function ExtentOfRows(shapes: seq<TupleShape>): Extent
    decreases shapes
  {
    if shapes == [] then Extent(0, {}, {}, {})
    else Join(ExtentOfRows(shapes[..|shapes| - 1]), ExtentOfAll(shapes[|shapes| - 1].positions))
  }

  function ExtentOfMade(shapes: seq<CallableShape>): Extent
    decreases shapes
  {
    if shapes == [] then Extent(0, {}, {}, {})
    else Join(ExtentOfMade(shapes[..|shapes| - 1]), ExtentOfAll(shapes[|shapes| - 1].captures))
  }

  /** The tables number all that is mentioned, and the spare name is not. */
  ghost predicate Fits(e: Extent, t: Tables, n: nat) {
    && e.depth <= n && e.arities <= t.arities.Keys && e.structs <= t.structs.Keys && t.spare !in e.structs
    && forall a :: a in e.atoms ==> a in t.atoms
  }

  lemma {:induction false} FitsElement(tests: seq<TypeTest>, k: nat, t: Tables, n: nat)
    requires k < |tests| && Fits(ExtentOfAll(tests), t, n)
    ensures Fits(ExtentOf(tests[k]), t, n)
  {
    if k < |tests| - 1 { FitsElement(tests[..|tests| - 1], k, t, n); }
  }

  lemma {:induction false} FitsRow(shapes: seq<TupleShape>, k: nat, t: Tables, n: nat)
    requires k < |shapes| && Fits(ExtentOfRows(shapes), t, n)
    ensures Fits(ExtentOfAll(shapes[k].positions), t, n)
  {
    if k < |shapes| - 1 { FitsRow(shapes[..|shapes| - 1], k, t, n); }
  }

  lemma {:induction false} FitsMade(shapes: seq<CallableShape>, k: nat, t: Tables, n: nat)
    requires k < |shapes| && Fits(ExtentOfMade(shapes), t, n)
    ensures Fits(ExtentOfAll(shapes[k].captures), t, n)
  {
    if k < |shapes| - 1 { FitsMade(shapes[..|shapes| - 1], k, t, n); }
  }

  /** A test whose witnesses the world can hold: built, realisable inside and mentioned in the tables. */
  ghost predicate Ready(t: Tables, p: TypeTest, n: nat) {
    Built(p) && RealisableInside(p) && Fits(ExtentOf(p), t, n)
  }

  ghost predicate ReadyAll(t: Tables, tests: seq<TypeTest>, n: nat) {
    forall k :: 0 <= k < |tests| ==> Inhabited(tests[k]) && PlainLists(tests[k]) && Ready(t, tests[k], n)
  }

  lemma ReadyTests(t: Tables, tests: seq<TypeTest>, n: nat)
    requires RealisableAll(tests) && Fits(ExtentOfAll(tests), t, n) && forall k :: 0 <= k < |tests| ==> Built(tests[k])
    ensures ReadyAll(t, tests, n)
  {
    forall k | 0 <= k < |tests| ensures Inhabited(tests[k]) && PlainLists(tests[k]) && Ready(t, tests[k], n) {
      FitsElement(tests, k, t, n);
    }
  }

  lemma FitsInside(p: TypeTest, t: Tables, n: nat)
    requires Fits(ExtentOf(p), t, n)
    ensures n > 0 && Fits(ExtentOfAll(p.lists.heads), t, n - 1)
    ensures Fits(ExtentOfRows(p.tuples.shapes), t, n - 1) && Fits(ExtentOfMade(p.callables.shapes), t, n - 1)
    ensures p.tuples.arities.values <= t.arities.Keys && p.namedStructs.values <= t.structs.Keys
    ensures t.spare !in p.namedStructs.values && forall a :: a in p.atoms.values ==> a in t.atoms
  {}

  lemma ReadyHeads(t: Tables, p: TypeTest, n: nat)
    requires Ready(t, p, n)
    ensures n > 0 && ReadyAll(t, p.lists.heads, n - 1)
  {
    FitsInside(p, t, n);
    ReadyTests(t, p.lists.heads, n - 1);
  }

  lemma ReadyRow(t: Tables, p: TypeTest, n: nat, i: nat)
    requires Ready(t, p, n) && i < |p.tuples.shapes|
    ensures n > 0 && ReadyAll(t, p.tuples.shapes[i].positions, n - 1)
  {
    FitsInside(p, t, n);
    FitsRow(p.tuples.shapes, i, t, n - 1);
    assert BuiltShape(p.tuples.shapes[i]);
    ReadyTests(t, p.tuples.shapes[i].positions, n - 1);
  }

  lemma ReadyMade(t: Tables, p: TypeTest, n: nat, i: nat)
    requires Ready(t, p, n) && i < |p.callables.shapes|
    ensures n > 0 && ReadyAll(t, p.callables.shapes[i].captures, n - 1)
  {
    FitsInside(p, t, n);
    FitsMade(p.callables.shapes, i, t, n - 1);
    assert BuiltConstruction(p.callables.shapes[i]);
    ReadyTests(t, p.callables.shapes[i].captures, n - 1);
  }

  // ------------------------------------------- an inhabited test overlaps itself

  lemma Shares<T>(a: FiniteSet<T>)
    requires !a.IsNone()
    ensures a.Overlaps(a)
  {
    if !a.cofinite { var x :| x in a.values; }
  }

  lemma {:induction false} OverlapsItself(p: TypeTest)
    requires Built(p) && RealisableInside(p) && Inhabited(p)
    ensures Overlaps(p, p)
    decreases p, 1
  {
    if !p.ints.IsNone() { Shares(p.ints); assert AxisOverlaps(p, p, Ints); }
    else if !p.floats.IsNone() { Shares(p.floats); assert AxisOverlaps(p, p, Floats); }
    else if !p.atoms.IsNone() { Shares(p.atoms); assert AxisOverlaps(p, p, Atoms); }
    else if !p.namedStructs.IsNone() { Shares(p.namedStructs); assert AxisOverlaps(p, p, NamedStructs); }
    else if p.lists.shapes.Contains(Empty) || p.lists.shapes.Contains(NonEmpty) { ListsShareThemselves(p); }
    else if !p.tuples.arities.IsNone() { TuplesShareThemselves(p); }
    else if !p.callables.targets.IsNone() { CallablesShareThemselves(p); }
    else if p.allowOtherStructs { assert AxisOverlaps(p, p, OtherStructs); }
    else if p.maps { assert AxisOverlaps(p, p, Maps); }
    else if p.binaries { assert AxisOverlaps(p, p, Binaries); }
    else { assert AxisOverlaps(p, p, Resources); }
  }

  lemma {:induction false} ListsShareThemselves(p: TypeTest)
    requires Built(p) && RealisableInside(p) && (p.lists.shapes.Contains(Empty) || p.lists.shapes.Contains(NonEmpty))
    ensures Overlaps(p, p)
    decreases p, 0
  {
    Shares(p.lists.shapes);
    if p.lists.AsksTheHead() {
      assert Inhabited(p.lists.heads[0]) && Realisable(p.lists.heads[0]);
      OverlapsItself(p.lists.heads[0]);
    }
    assert AxisOverlaps(p, p, Lists);
  }

  lemma {:induction false} RowSharesItself(tests: seq<TypeTest>)
    requires RealisableAll(tests) && forall k :: 0 <= k < |tests| ==> Built(tests[k])
    ensures AllOverlap(tests, tests)
    decreases tests, 0
  {
    forall k | 0 <= k < |tests| ensures Overlaps(tests[k], tests[k]) { OverlapsItself(tests[k]); }
  }

  lemma {:induction false} TuplesShareThemselves(p: TypeTest)
    requires Built(p) && RealisableInside(p) && !p.tuples.arities.IsNone()
    ensures Overlaps(p, p)
    decreases p, 0
  {
    Shares(p.tuples.arities);
    if p.tuples.exact {
      assert |p.tuples.shapes| > 0 && BuiltShape(p.tuples.shapes[0]);
      RowSharesItself(p.tuples.shapes[0].positions);
    }
    assert TuplesOverlap(p.tuples, p.tuples);
    assert AxisOverlaps(p, p, Tuples);
  }

  lemma {:induction false} CallablesShareThemselves(p: TypeTest)
    requires Built(p) && RealisableInside(p) && !p.callables.targets.IsNone()
    ensures Overlaps(p, p)
    decreases p, 0
  {
    Shares(p.callables.targets);
    if p.callables.exact {
      assert |p.callables.shapes| > 0 && BuiltConstruction(p.callables.shapes[0]);
      RowSharesItself(p.callables.shapes[0].captures);
      assert ConstructionsOverlap(p.callables.shapes[0], p.callables.shapes[0]);
    }
    assert CallablesOverlap(p.callables, p.callables);
    assert AxisOverlaps(p, p, Callables);
  }

  // ------------------------------------------------- a test inside both of them

  /** A test that asks on one axis alone. */
  ghost predicate Only(m: TypeTest, axis: Axis) {
    var none := NoneTest();
    && (axis != Ints ==> m.ints == none.ints) && (axis != Floats ==> m.floats == none.floats)
    && (axis != Atoms ==> m.atoms == none.atoms) && (axis != Lists ==> m.lists == none.lists)
    && (axis != Tuples ==> m.tuples == none.tuples) && (axis != NamedStructs ==> m.namedStructs == none.namedStructs)
    && (axis != OtherStructs ==> !m.allowOtherStructs) && (axis != Maps ==> !m.maps)
    && (axis != Binaries ==> !m.binaries) && (axis != Callables ==> m.callables == none.callables)
    && (axis != Resources ==> !m.resources)
  }

  lemma NothingWithin(p: TypeTest, axis: Axis)
    ensures AxisContainedIn(NoneTest(), p, axis)
  {
    var none := NoneTest();
    match axis
    case Lists => assert ListsContainAll(p.lists, none.lists);
    case Tuples => assert TuplesContainAll(p.tuples, none.tuples);
    case Callables => assert CallablesContainAll(p.callables, none.callables);
    case _ =>
  }

  lemma OnlyWithin(m: TypeTest, p: TypeTest, axis: Axis)
    requires Only(m, axis) && AxisContainedIn(m, p, axis)
    ensures ContainedIn(m, p)
  {
    forall other: Axis ensures AxisContainedIn(m, p, other) {
      if other != axis { NothingWithin(p, other); }
    }
  }

  /** A value that both tests and a test inside both admit. */
  ghost predicate Shared(w: World, p: TypeTest, q: TypeTest, m: TypeTest, v: Value) {
    && Built(m) && ContainedIn(m, p) && ContainedIn(m, q) && Placed(|w.cells|, v)
    && Passes(w, p, v) && Passes(w, q, v) && Passes(w, m, v)
  }

  lemma SharedGrown(w: World, after: World, p: TypeTest, q: TypeTest, m: TypeTest, v: Value)
    requires Ordered(w) && Grown(w, after) && Shared(w, p, q, m, v)
    ensures Shared(after, p, q, m, v)
  {
    PassesGrown(w, after, p, v);
    PassesGrown(w, after, q, v);
    PassesGrown(w, after, m, v);
  }

  lemma SharedOn(w: World, p: TypeTest, q: TypeTest, m: TypeTest, v: Value, axis: Axis)
    requires Built(m) && Only(m, axis) && AxisContainedIn(m, p, axis) && AxisContainedIn(m, q, axis)
    requires Placed(|w.cells|, v) && axis in AxesOf(v)
    requires AxisAdmits(p, ReaderOf(w), v, axis, Lowered) && AxisAdmits(q, ReaderOf(w), v, axis, Lowered)
    requires AxisAdmits(m, ReaderOf(w), v, axis, Lowered)
    ensures Shared(w, p, q, m, v)
  {
    OnlyWithin(m, p, axis);
    OnlyWithin(m, q, axis);
  }

  // ------------------------------------------------------------------- scalars

  ghost function BeyondInts(s: set<int>): (n: int)
    ensures n !in s && forall m :: m in s ==> m < n
  {
    if k :| k in s then
      var rest := BeyondInts(s - {k});
      assert forall m :: m in s ==> m == k || m in s - {k};
      if rest <= k then k + 1 else rest
    else 0
  }

  lemma CommonInt(a: FiniteSet<int>, b: FiniteSet<int>) returns (x: int)
    requires a.Overlaps(b)
    ensures a.Contains(x) && b.Contains(x)
  {
    if a.cofinite && b.cofinite { x := BeyondInts(a.values + b.values); }
    else { x :| (x in a.values || x in b.values) && a.Contains(x) && b.Contains(x); }
  }

  lemma NumbersShared(w: World, p: TypeTest, q: TypeTest, axis: Axis) returns (m: TypeTest, v: Value)
    requires (axis == Ints || axis == Floats) && AxisOverlaps(p, q, axis)
    ensures Shared(w, p, q, m, v)
  {
    if axis == Ints {
      var x := CommonInt(p.ints, q.ints);
      m, v := NoneTest().(ints := Lit(x)), Value.Int(x);
    } else {
      var x := CommonInt(p.floats, q.floats);
      m, v := NoneTest().(floats := Lit(x)), Float(x);
    }
    SharedOn(w, p, q, m, v, axis);
  }

  lemma NamedAtom(atoms: FiniteSet<string>, names: seq<string>, x: string)
    requires x in names
    ensures AtomMember(atoms, names, Position(names, x).value) <==> atoms.Contains(x)
  {
    var id := Position(names, x).value;
    assert x in atoms.values ==> Position(names, x) == Some(id);
  }

  lemma UnnamedAtom(atoms: FiniteSet<string>, names: seq<string>)
    ensures AtomMember(atoms, names, |names|) <==> atoms.cofinite
  {}

  /** An atom of both sets, and a set inside both that holds it. */
  lemma CommonAtom(
      a: FiniteSet<string>, b: FiniteSet<string>, names: seq<string>) returns (c: FiniteSet<string>, id: nat)
    requires a.Overlaps(b) && forall x :: x in a.values || x in b.values ==> x in names
    ensures a.ContainsAll(c) && b.ContainsAll(c)
    ensures AtomMember(a, names, id) && AtomMember(b, names, id) && AtomMember(c, names, id)
  {
    if a.cofinite && b.cofinite {
      c, id := FiniteSet(a.values + b.values, true), |names|;
      UnnamedAtom(a, names);
      UnnamedAtom(b, names);
      UnnamedAtom(c, names);
    } else {
      var x :| (x in a.values || x in b.values) && a.Contains(x) && b.Contains(x);
      c, id := Lit(x), Position(names, x).value;
      NamedAtom(a, names, x);
      NamedAtom(b, names, x);
      NamedAtom(c, names, x);
    }
  }

  lemma AtomsShared(w: World, p: TypeTest, q: TypeTest) returns (m: TypeTest, v: Value)
    requires p.atoms.Overlaps(q.atoms)
    requires forall x :: x in p.atoms.values || x in q.atoms.values ==> x in w.tables.atoms
    ensures Shared(w, p, q, m, v)
  {
    var c, id := CommonAtom(p.atoms, q.atoms, w.tables.atoms);
    m, v := NoneTest().(atoms := c), Value.Atom(id);
    SharedOn(w, p, q, m, v, Atoms);
  }

  /** Maps, binaries and resources: one cell no question looks into. */
  lemma OpaqueShared(w: World, p: TypeTest, q: TypeTest, axis: Axis) returns (m: TypeTest, v: Value)
    requires Sound(w) && (axis == Maps || axis == Binaries || axis == Resources) && AxisOverlaps(p, q, axis)
    ensures Shared(w, p, q, m, v)
  {
    match axis {
      case Maps => m, v := NoneTest().(maps := true), Ref(MAP, 0);
      case Binaries => m, v := NoneTest().(binaries := true), Ref(PROCBIN, 0);
      case Resources => m, v := NoneTest().(resources := true), Ref(RESOURCE, 0);
    }
    SharedOn(w, p, q, m, v, axis);
  }

  // ------------------------------------------------------------------- structs

  lemma NamedStruct(w: World, p: TypeTest, addr: nat, name: string)
    requires Sound(w) && addr < |w.cells| && w.cells[addr].Struct? && name in w.tables.structs
    requires w.cells[addr].schema == w.tables.structs[name] && p.namedStructs.Contains(name)
    ensures AxisAdmits(p, ReaderOf(w), Ref(STRUCT, addr), NamedStructs, Lowered)
  {
    var reader, schema := ReaderOf(w), w.tables.structs[name];
    assert name in reader.structSchemas && reader.namedSchemaIds[name] == schema;
    assert KnownNamed(reader, schema);
    assert NamedStructAdmits(p, reader, schema);
  }

  lemma CommonName(a: FiniteSet<string>, b: FiniteSet<string>, spare: string) returns (name: string)
    requires a.Overlaps(b) && spare !in a.values && spare !in b.values
    ensures a.Contains(name) && b.Contains(name) && (name == spare || name in a.values || name in b.values)
  {
    name := spare;
    if !(a.cofinite && b.cofinite) {
      name :| (name in a.values || name in b.values) && a.Contains(name) && b.Contains(name);
    }
  }

  lemma NamedShared(w: World, p: TypeTest, q: TypeTest) returns (after: World, m: TypeTest, v: Value)
    requires Sound(w) && p.namedStructs.Overlaps(q.namedStructs)
    requires p.namedStructs.values <= w.tables.structs.Keys && q.namedStructs.values <= w.tables.structs.Keys
    requires w.tables.spare !in p.namedStructs.values && w.tables.spare !in q.namedStructs.values
    ensures Sound(after) && Grown(w, after) && Shared(after, p, q, m, v)
  {
    var name := CommonName(p.namedStructs, q.namedStructs, w.tables.spare);
    var addr: nat;
    after, addr := OneMore(w, Struct(w.tables.structs[name], []));
    m, v := NoneTest().(namedStructs := Lit(name)), Ref(STRUCT, addr);
    NamedStruct(after, p, addr, name);
    NamedStruct(after, q, addr, name);
    NamedStruct(after, m, addr, name);
    SharedOn(after, p, q, m, v, NamedStructs);
  }

  /** A struct of an unregistered schema is a tuple of an arity no test lists. */
  lemma FreeStruct(w: World, p: TypeTest, addr: nat, arities: FiniteSet<nat>)
    requires Sound(w) && SchemaAt(w, addr) == w.tables.free && arities.cofinite
    ensures UnnamedOfArity(ReaderOf(w), w.tables.free, arities) && TupleArityOf(ReaderOf(w), w.tables.free).None?
  {}

  lemma RemainderStruct(w: World, p: TypeTest, q: TypeTest) returns (after: World, m: TypeTest, v: Value)
    requires Sound(w) && p.allowOtherStructs && q.allowOtherStructs
    ensures Sound(after) && Grown(w, after) && Shared(after, p, q, m, v)
  {
    var addr: nat;
    after, addr := OneMore(w, Struct(w.tables.free, []));
    m, v := RemainderTest(), Ref(STRUCT, addr);
    FreeStruct(after, p, addr, OtherStructArities(p));
    FreeStruct(after, q, addr, OtherStructArities(q));
    FreeStruct(after, m, addr, OtherStructArities(m));
    SharedOn(after, p, q, m, v, OtherStructs);
  }

  // -------------------------------------------------------------------- tuples

  lemma FreeTupleShared(w: World, p: TypeTest, q: TypeTest) returns (after: World, m: TypeTest, v: Value)
    requires Sound(w) && Built(p) && Built(q) && p.tuples.arities.cofinite && q.tuples.arities.cofinite
    ensures Sound(after) && Grown(w, after) && Shared(after, p, q, m, v)
  {
    var addr: nat;
    after, addr := OneMore(w, Struct(w.tables.free, []));
    m := NoneTest().(tuples := TuplesArityOnly(FiniteSet(p.tuples.arities.values + q.tuples.arities.values, true)));
    v := Ref(STRUCT, addr);
    FreeStruct(after, p, addr, p.tuples.arities);
    FreeStruct(after, q, addr, q.tuples.arities);
    FreeStruct(after, m, addr, m.tuples.arities);
    assert TuplesContainAll(p.tuples, m.tuples) && TuplesContainAll(q.tuples, m.tuples);
    SharedOn(after, p, q, m, v, Tuples);
  }

  /** The row holds a value for each position, and a test inside its question. */
  ghost predicate RowFor(w: World, tests: seq<TypeTest>, ms: seq<TypeTest>, row: seq<Value>) {
    && |tests| == |ms| == |row| && AllContainedIn(ms, tests)
    && forall k :: 0 <= k < |row| ==> Passes(w, tests[k], row[k])
  }

  /** An exact tuple axis has a shape for the row. */
  ghost predicate SomeRow(w: World, p: TypeTest, ms: seq<TypeTest>, row: seq<Value>) {
    p.tuples.exact ==> exists i :: 0 <= i < |p.tuples.shapes| && RowFor(w, p.tuples.shapes[i].positions, ms, row)
  }

  lemma RowAdmitted(w: World, p: TypeTest, addr: nat, ms: seq<TypeTest>, row: seq<Value>)
    requires Sound(w) && Built(p) && SomeRow(w, p, ms, row) && |row| in w.tables.arities
    requires p.tuples.arities.Contains(|row|)
    requires addr < |w.cells| && w.cells[addr] == Struct(w.tables.arities[|row|], row)
    ensures AxisAdmits(p, ReaderOf(w), Ref(STRUCT, addr), Tuples, Lowered)
  {
    var reader, v, arity := ReaderOf(w), Ref(STRUCT, addr), |row|;
    var schema := w.tables.arities[arity];
    RegisteredArity(reader, schema, arity, p.tuples.arities);
    assert TupleArityOf(reader, schema) == Some(arity);
    if p.tuples.exact {
      var i :| 0 <= i < |p.tuples.shapes| && RowFor(w, p.tuples.shapes[i].positions, ms, row);
      RowPositions(w, p.tuples.shapes[i], addr, ms, row);
      ShapesOfArity(p, reader, v, schema, arity, Lowered);
    }
    assert TupleShapeAdmitted(p, reader, v, schema, Lowered);
  }

  lemma RowPositions(w: World, shape: TupleShape, addr: nat, ms: seq<TypeTest>, row: seq<Value>)
    requires RowFor(w, shape.positions, ms, row) && addr < |w.cells| && w.cells[addr].Struct?
    requires w.cells[addr].fields == row
    ensures PositionsAdmitted(shape, ReaderOf(w), Ref(STRUCT, addr), Lowered)
  {}

  lemma RowWithin(w: World, p: TypeTest, m: TypeTest, ms: seq<TypeTest>, row: seq<Value>)
    requires |ms| == |row| && SomeRow(w, p, ms, row) && p.tuples.arities.Contains(|row|)
    requires m.tuples == TupleShapes(Lit(|row|), [TupleShape(ms)], true)
    ensures AxisContainedIn(m, p, Tuples)
  {
    if p.tuples.exact {
      var i :| 0 <= i < |p.tuples.shapes| && RowFor(w, p.tuples.shapes[i].positions, ms, row);
      assert ShapeWithinSome(m.tuples.shapes[0], p.tuples.shapes);
    }
    assert TuplesContainAll(p.tuples, m.tuples);
  }

  lemma OneShapeExact(ms: seq<TypeTest>)
    ensures TuplesExact([TupleShape(ms)]) == TupleShapes(Lit(|ms|), [TupleShape(ms)], true)
  {
    var shapes := [TupleShape(ms)];
    var arities := set i | 0 <= i < |shapes| :: |shapes[i].positions|;
    assert |shapes[0].positions| in arities;
    assert arities == {|ms|};
  }

  /** A tuple for a row both axes have a shape for. */
  lemma RowTuple(w: World, p: TypeTest, q: TypeTest, ms: seq<TypeTest>, row: seq<Value>)
    returns (after: World, m: TypeTest, v: Value)
    requires Sound(w) && Built(p) && Built(q) && SomeRow(w, p, ms, row) && SomeRow(w, q, ms, row)
    requires RowFor(w, ms, ms, row)
    requires |row| in w.tables.arities && p.tuples.arities.Contains(|row|) && q.tuples.arities.Contains(|row|)
    requires (forall k :: 0 <= k < |ms| ==> Built(ms[k])) && forall k :: 0 <= k < |row| ==> Placed(|w.cells|, row[k])
    ensures Sound(after) && Grown(w, after) && Shared(after, p, q, m, v)
  {
    var addr: nat;
    after, addr := OneMore(w, Struct(w.tables.arities[|row|], row));
    OneShapeExact(ms);
    m, v := NoneTest().(tuples := TuplesExact([TupleShape(ms)])), Ref(STRUCT, addr);
    SomeRowGrown(w, after, p, ms, row);
    SomeRowGrown(w, after, q, ms, row);
    RowForGrown(w, after, ms, ms, row);
    assert RowFor(after, m.tuples.shapes[0].positions, ms, row);
    assert BuiltShape(m.tuples.shapes[0]);
    RowAdmitted(after, p, addr, ms, row);
    RowAdmitted(after, q, addr, ms, row);
    RowAdmitted(after, m, addr, ms, row);
    RowWithin(after, p, m, ms, row);
    RowWithin(after, q, m, ms, row);
    SharedOn(after, p, q, m, v, Tuples);
  }

  lemma RowForGrown(w: World, after: World, tests: seq<TypeTest>, ms: seq<TypeTest>, row: seq<Value>)
    requires Ordered(w) && Grown(w, after) && RowFor(w, tests, ms, row)
    requires forall k :: 0 <= k < |row| ==> Placed(|w.cells|, row[k])
    ensures RowFor(after, tests, ms, row)
  {
    forall k | 0 <= k < |row| ensures Passes(after, tests[k], row[k]) { PassesGrown(w, after, tests[k], row[k]); }
  }

  lemma SomeRowGrown(w: World, after: World, p: TypeTest, ms: seq<TypeTest>, row: seq<Value>)
    requires Ordered(w) && Grown(w, after) && SomeRow(w, p, ms, row)
    requires forall k :: 0 <= k < |row| ==> Placed(|w.cells|, row[k])
    ensures SomeRow(after, p, ms, row)
  {
    if p.tuples.exact {
      var i :| 0 <= i < |p.tuples.shapes| && RowFor(w, p.tuples.shapes[i].positions, ms, row);
      RowForGrown(w, after, p.tuples.shapes[i].positions, ms, row);
    }
  }

  // --------------------------------------------------------------------- lists

  ghost predicate SomeHead(w: World, p: TypeTest, m: TypeTest, head: Value) {
    p.lists.AsksTheHead() ==>
      exists i :: 0 <= i < |p.lists.heads| && ContainedIn(m, p.lists.heads[i]) && Passes(w, p.lists.heads[i], head)
  }

  lemma ListAdmitted(w: World, p: TypeTest, addr: nat, m: TypeTest)
    requires 0 < addr < |w.cells| && w.cells[addr].Cons? && SomeHead(w, p, m, w.cells[addr].head)
    requires p.lists.shapes.Contains(NonEmpty)
    ensures AxisAdmits(p, ReaderOf(w), Ref(LIST, addr), Lists, Lowered)
  {
    assert ElementsAdmitted(p.lists, ReaderOf(w), Ref(LIST, addr), Lowered);
  }

  lemma ListWithin(w: World, p: TypeTest, m: TypeTest, inner: TypeTest, head: Value)
    requires Built(p) && SomeHead(w, p, inner, head) && p.lists.shapes.Contains(NonEmpty)
    requires m.lists == ListShapes(Lit(NonEmpty), [inner], true)
    ensures AxisContainedIn(m, p, Lists)
  {
    if p.lists.exact { assert WithinSome(m.lists.heads[0], p.lists.heads); }
    assert ListsContainAll(p.lists, m.lists);
  }

  lemma SomeHeadGrown(w: World, after: World, p: TypeTest, m: TypeTest, head: Value)
    requires Ordered(w) && Grown(w, after) && Placed(|w.cells|, head) && SomeHead(w, p, m, head)
    ensures SomeHead(after, p, m, head)
  {
    if p.lists.AsksTheHead() {
      var i :| 0 <= i < |p.lists.heads| && ContainedIn(m, p.lists.heads[i]) && Passes(w, p.lists.heads[i], head);
      PassesGrown(w, after, p.lists.heads[i], head);
    }
  }

  /** A cons cell for a head both axes have a question for. */
  lemma ConsShared(w: World, p: TypeTest, q: TypeTest, inner: TypeTest, head: Value)
    returns (after: World, m: TypeTest, v: Value)
    requires Sound(w) && Built(p) && Built(q) && Built(inner) && Placed(|w.cells|, head) && Passes(w, inner, head)
    requires SomeHead(w, p, inner, head) && SomeHead(w, q, inner, head)
    requires p.lists.shapes.Contains(NonEmpty) && q.lists.shapes.Contains(NonEmpty)
    ensures Sound(after) && Grown(w, after) && Shared(after, p, q, m, v)
  {
    var addr: nat;
    after, addr := OneMore(w, Cons(head));
    m, v := NoneTest().(lists := ListShapes(Lit(NonEmpty), [inner], true)), Ref(LIST, addr);
    SomeHeadGrown(w, after, p, inner, head);
    SomeHeadGrown(w, after, q, inner, head);
    PassesGrown(w, after, inner, head);
    ContainedReflexive(inner);
    assert m.lists.heads[0] == inner;
    assert SomeHead(after, m, inner, head);
    ListAdmitted(after, p, addr, inner);
    ListAdmitted(after, q, addr, inner);
    ListAdmitted(after, m, addr, inner);
    ListWithin(after, p, m, inner, head);
    ListWithin(after, q, m, inner, head);
    SharedOn(after, p, q, m, v, Lists);
  }

  lemma NilShared(w: World, p: TypeTest, q: TypeTest) returns (m: TypeTest, v: Value)
    requires p.lists.shapes.Contains(Empty) && q.lists.shapes.Contains(Empty)
    ensures Shared(w, p, q, m, v)
  {
    m, v := NoneTest().(lists := ListShapes(Lit(Empty), [], true)), EmptyList;
    assert ListsContainAll(p.lists, m.lists) && ListsContainAll(q.lists, m.lists);
    SharedOn(w, p, q, m, v, Lists);
  }

  // ----------------------------------------------------------------- callables

  /** The axis admits every value of this construction. */
  ghost predicate Takes(p: TypeTest, shape: CallableShape) {
    p.callables.targets.Contains(shape.target) && (p.callables.exact ==> InsideSome(shape, p.callables.shapes))
  }

  lemma MadeAdmitted(w: World, p: TypeTest, addr: nat, shape: CallableShape)
    requires Built(p) && addr < |w.cells| && w.cells[addr].Made? && w.cells[addr].shape == shape && Takes(p, shape)
    ensures AxisAdmits(p, ReaderOf(w), Ref(CLOSURE, addr), Callables, Lowered)
  {
    assert CallableAdmits(p, ReaderOf(w), addr);
  }

  lemma MadeWithin(p: TypeTest, m: TypeTest, shape: CallableShape)
    requires Takes(p, shape) && m.callables == CallableShapes(Lit(shape.target), [shape], true)
    ensures AxisContainedIn(m, p, Callables)
  {
    assert CallablesContainAll(p.callables, m.callables);
  }

  lemma OneConstructionExact(shape: CallableShape)
    ensures CallablesExact([shape]) == CallableShapes(Lit(shape.target), [shape], true)
  {
    var shapes := [shape];
    var targets := set i | 0 <= i < |shapes| :: shapes[i].target;
    assert shapes[0].target in targets;
    assert targets == {shape.target};
  }

  lemma {:induction false} AllWithinThemselves(tests: seq<TypeTest>)
    ensures AllContainedIn(tests, tests)
  {
    forall k | 0 <= k < |tests| ensures ContainedIn(tests[k], tests[k]) { ContainedReflexive(tests[k]); }
  }

  /** A closure of a construction both axes take. */
  lemma MadeShared(w: World, p: TypeTest, q: TypeTest, shape: CallableShape, captures: seq<Value>)
    returns (after: World, m: TypeTest, v: Value)
    requires Sound(w) && Built(p) && Built(q) && BuiltConstruction(shape) && Takes(p, shape) && Takes(q, shape)
    requires RowFor(w, shape.captures, shape.captures, captures)
    requires forall k :: 0 <= k < |captures| ==> Placed(|w.cells|, captures[k])
    ensures Sound(after) && Grown(w, after) && Shared(after, p, q, m, v)
  {
    var addr: nat;
    after, addr := OneMore(w, Made(shape, captures));
    OneConstructionExact(shape);
    m, v := NoneTest().(callables := CallablesExact([shape])), Ref(CLOSURE, addr);
    AllWithinThemselves(shape.captures);
    assert Inside(shape, m.callables.shapes[0]);
    MadeAdmitted(after, p, addr, shape);
    MadeAdmitted(after, q, addr, shape);
    MadeAdmitted(after, m, addr, shape);
    MadeWithin(p, m, shape);
    MadeWithin(q, m, shape);
    SharedOn(after, p, q, m, v, Callables);
  }

  /** A closure of no construction any test enumerates. */
  lemma UnstampedShared(w: World, p: TypeTest, q: TypeTest) returns (after: World, m: TypeTest, v: Value)
    requires Sound(w) && Built(p) && Built(q) && p.callables.targets.cofinite && q.callables.targets.cofinite
    ensures Sound(after) && Grown(w, after) && Shared(after, p, q, m, v)
  {
    var addr: nat;
    after, addr := OneMore(w, Cons(Null));
    var targets := FiniteSet(p.callables.targets.values + q.callables.targets.values, true);
    m, v := NoneTest().(callables := CallableShapes(targets, [], false)), Ref(CLOSURE, addr);
    assert CallablesContainAll(p.callables, m.callables) && CallablesContainAll(q.callables, m.callables);
    SharedOn(after, p, q, m, v, Callables);
  }
}
