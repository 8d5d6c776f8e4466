/** Every overlap of realisable tests is realised by a value on some honest heap. */
module TypeTestRealised {
  import opened FiniteSets
  import opened TypeTests
  import opened TypeTestContainment
  import opened TypeTestSeparation
  import opened TypeTestWorlds
  import opened TypeTestOverlap

  /** Some list shape both axes admit, unless both are complements that leave none in common. */
  ghost predicate MeetableLists(p: TypeTest, q: TypeTest) {
    p.lists.shapes.cofinite && q.lists.shapes.cofinite ==>
      p.lists.shapes.values + q.lists.shapes.values != {Empty, NonEmpty}
  }

  lemma PlainIsMeetable(p: TypeTest, q: TypeTest)
    requires PlainLists(p) && PlainLists(q)
    ensures MeetableLists(p, q)
  {
    assert {} + {} != {Empty, NonEmpty};
  }

  /** A grown world with a value for a pair of tests. */
  ghost predicate Found(w: World, after: World, p: TypeTest, q: TypeTest, m: TypeTest, v: Value) {
    Sound(after) && Grown(w, after) && Shared(after, p, q, m, v)
  }

  /** A grown world with a value for each pair of two rows. */
  ghost predicate FoundRow(
    w: World, after: World, ps: seq<TypeTest>, qs: seq<TypeTest>, ms: seq<TypeTest>, row: seq<Value>)
  {
    && Sound(after) && Grown(w, after) && |ps| == |qs| && |ms| == |row| <= |ps|
    && forall k :: 0 <= k < |row| ==> Shared(after, ps[k], qs[k], ms[k], row[k])
  }

  lemma RowExtended(
    w: World, now: World, after: World, ps: seq<TypeTest>, qs: seq<TypeTest>, ms: seq<TypeTest>, row: seq<Value>,
    m: TypeTest, v: Value)
    requires FoundRow(w, now, ps, qs, ms, row) && |row| < |ps| && Found(now, after, ps[|row|], qs[|row|], m, v)
    ensures FoundRow(w, after, ps, qs, ms + [m], row + [v])
  {
    forall k | 0 <= k < |row| ensures Shared(after, ps[k], qs[k], ms[k], row[k]) {
      SharedGrown(now, after, ps[k], qs[k], ms[k], row[k]);
    }
  }

  lemma RowIsFor(w: World, after: World, ps: seq<TypeTest>, qs: seq<TypeTest>, ms: seq<TypeTest>, row: seq<Value>)
    requires FoundRow(w, after, ps, qs, ms, row) && |row| == |ps|
    ensures RowFor(after, ps, ms, row) && RowFor(after, qs, ms, row) && RowFor(after, ms, ms, row)
    ensures forall k :: 0 <= k < |row| ==> Built(ms[k]) && Placed(|after.cells|, row[k])
  {
    AllWithinThemselves(ms);
  }

  lemma {:induction false} RowFound(n: nat, w: World, ps: seq<TypeTest>, qs: seq<TypeTest>)
    returns (after: World, ms: seq<TypeTest>, row: seq<Value>)
    requires Sound(w) && ReadyAll(w.tables, ps, n) && ReadyAll(w.tables, qs, n) && AllOverlap(ps, qs)
    ensures FoundRow(w, after, ps, qs, ms, row) && |row| == |ps|
    decreases n, 3
  {
    after, ms, row := w, [], [];
    while |row| < |ps|
      invariant FoundRow(w, after, ps, qs, ms, row)
      decreases |ps| - |row|
    {
      var k := |row|;
      PlainIsMeetable(ps[k], qs[k]);
      var next, m, v := OverlapFound(n, after, ps[k], qs[k]);
      RowExtended(w, after, next, ps, qs, ms, row, m, v);
      after, ms, row := next, ms + [m], row + [v];
    }
  }

  lemma SelfRow(t: Tables, tests: seq<TypeTest>, n: nat)
    requires ReadyAll(t, tests, n)
    ensures AllOverlap(tests, tests)
  {
    forall k | 0 <= k < |tests| ensures Overlaps(tests[k], tests[k]) { OverlapsItself(tests[k]); }
  }

  /** The test and the value used where nothing is asked. */
  function Zero(): TypeTest { NoneTest().(ints := Lit(0)) }

  lemma ZeroPasses(w: World)
    ensures Built(Zero()) && Passes(w, Zero(), Value.Int(0))
  {
    assert AxisAdmits(Zero(), ReaderOf(w), Value.Int(0), Ints, Lowered);
  }

  lemma ReadyIsDeep(t: Tables, p: TypeTest, n: nat)
    requires Ready(t, p, n)
    ensures n > 0
  {}

  lemma {:induction false} OverlapFound(n: nat, w: World, p: TypeTest, q: TypeTest)
    returns (after: World, m: TypeTest, v: Value)
    requires Sound(w) && Ready(w.tables, p, n) && Ready(w.tables, q, n) && MeetableLists(p, q) && Overlaps(p, q)
    ensures Found(w, after, p, q, m, v)
    decreases n, 2
  {
    ReadyIsDeep(w.tables, p, n);
    var axis :| AxisOverlaps(p, q, axis);
    match axis {
      case Lists => after, m, v := ListsFound(n, w, p, q);
      case Tuples => after, m, v := TuplesFound(n, w, p, q);
      case Callables => after, m, v := CallablesFound(n, w, p, q);
      case _ =>
        FitsInside(p, w.tables, n);
        FitsInside(q, w.tables, n);
        after, m, v := FlatFound(w, p, q, axis);
    }
  }

  /** What the tables must number for the axes that look into nothing. */
  ghost predicate Listed(t: Tables, p: TypeTest) {
    && p.namedStructs.values <= t.structs.Keys && t.spare !in p.namedStructs.values
    && forall a :: a in p.atoms.values ==> a in t.atoms
  }

  lemma FlatFound(w: World, p: TypeTest, q: TypeTest, axis: Axis) returns (after: World, m: TypeTest, v: Value)
    requires Sound(w) && Listed(w.tables, p) && Listed(w.tables, q) && AxisOverlaps(p, q, axis)
    requires !axis.Lists? && !axis.Tuples? && !axis.Callables?
    ensures Found(w, after, p, q, m, v)
  {
    after := w;
    match axis {
      case Ints => m, v := NumbersShared(w, p, q, axis);
      case Floats => m, v := NumbersShared(w, p, q, axis);
      case Atoms => m, v := AtomsShared(w, p, q);
      case NamedStructs => after, m, v := NamedShared(w, p, q);
      case OtherStructs => after, m, v := RemainderStruct(w, p, q);
      case _ => m, v := OpaqueShared(w, p, q, axis);
    }
  }

  // --------------------------------------------------------------------- lists

  lemma HeadIsSome(w: World, p: TypeTest, q: TypeTest, i: nat, j: nat, m: TypeTest, head: Value)
    requires i < |p.lists.heads| && j < |q.lists.heads| && Shared(w, p.lists.heads[i], q.lists.heads[j], m, head)
    ensures SomeHead(w, p, m, head) && SomeHead(w, q, m, head)
  {}

  /** A head for two list axes that meet. */
  lemma {:induction false} HeadFound(n: nat, w: World, p: TypeTest, q: TypeTest)
    returns (after: World, m: TypeTest, head: Value)
    requires Sound(w) && Ready(w.tables, p, n) && Ready(w.tables, q, n) && HeadsOverlap(p.lists, q.lists)
    ensures Sound(after) && Grown(w, after) && Built(m) && Placed(|after.cells|, head) && Passes(after, m, head)
    ensures SomeHead(after, p, m, head) && SomeHead(after, q, m, head)
    decreases n, 0
  {
    ReadyHeads(w.tables, p, n);
    ReadyHeads(w.tables, q, n);
    if p.lists.AsksTheHead() && q.lists.AsksTheHead() {
      var i, j :| 0 <= i < |p.lists.heads| && 0 <= j < |q.lists.heads| && Overlaps(p.lists.heads[i], q.lists.heads[j]);
      PlainIsMeetable(p.lists.heads[i], q.lists.heads[j]);
      after, m, head := OverlapFound(n - 1, w, p.lists.heads[i], q.lists.heads[j]);
      HeadIsSome(after, p, q, i, j, m, head);
    } else if p.lists.AsksTheHead() {
      OverlapsItself(p.lists.heads[0]);
      PlainIsMeetable(p.lists.heads[0], p.lists.heads[0]);
      after, m, head := OverlapFound(n - 1, w, p.lists.heads[0], p.lists.heads[0]);
      HeadIsSome(after, p, p, 0, 0, m, head);
    } else if q.lists.AsksTheHead() {
      OverlapsItself(q.lists.heads[0]);
      PlainIsMeetable(q.lists.heads[0], q.lists.heads[0]);
      after, m, head := OverlapFound(n - 1, w, q.lists.heads[0], q.lists.heads[0]);
      HeadIsSome(after, q, q, 0, 0, m, head);
    } else {
      after, m, head := w, Zero(), Value.Int(0);
      ZeroPasses(w);
    }
  }

  lemma BothShapes(s: set<ListShape>)
    requires Empty in s && NonEmpty in s
    ensures s == {Empty, NonEmpty}
  {
    forall x | x in s ensures x in {Empty, NonEmpty} { assert x == Empty || x == NonEmpty; }
  }

  /** Where two list axes overlap and do not both admit the empty list, both admit a non-empty one. */
  lemma ShapesMeet(p: TypeTest, q: TypeTest)
    requires MeetableLists(p, q) && p.lists.shapes.Overlaps(q.lists.shapes)
    requires !(p.lists.shapes.Contains(Empty) && q.lists.shapes.Contains(Empty))
    ensures p.lists.shapes.Contains(NonEmpty) && q.lists.shapes.Contains(NonEmpty)
  {
    var a, b := p.lists.shapes, q.lists.shapes;
    if a.cofinite && b.cofinite {
      assert Empty in a.values + b.values;
      if NonEmpty in a.values + b.values { BothShapes(a.values + b.values); }
    } else {
      var x :| (x in a.values || x in b.values) && a.Contains(x) && b.Contains(x);
      assert x == Empty || x == NonEmpty;
    }
  }

  lemma {:induction false} ListsFound(n: nat, w: World, p: TypeTest, q: TypeTest)
    returns (after: World, m: TypeTest, v: Value)
    requires Sound(w) && Ready(w.tables, p, n) && Ready(w.tables, q, n) && MeetableLists(p, q)
    requires ListsOverlap(p.lists, q.lists)
    ensures Found(w, after, p, q, m, v)
    decreases n, 1
  {
    if p.lists.shapes.Contains(Empty) && q.lists.shapes.Contains(Empty) {
      after := w;
      m, v := NilShared(w, p, q);
    } else {
      ShapesMeet(p, q);
      var now, inner, head := HeadFound(n, w, p, q);
      after, m, v := ConsShared(now, p, q, inner, head);
    }
  }

  // -------------------------------------------------------------------- tuples

  lemma CommonArity(a: FiniteSet<nat>, b: FiniteSet<nat>, known: set<nat>) returns (arity: nat)
    requires a.Overlaps(b) && !(a.cofinite && b.cofinite) && a.values <= known && b.values <= known
    ensures a.Contains(arity) && b.Contains(arity) && arity in known
  {
    arity :| (arity in a.values || arity in b.values) && a.Contains(arity) && b.Contains(arity);
  }

  lemma ShapeOfArity(p: TypeTest, arity: nat) returns (i: nat)
    requires Built(p) && p.tuples.exact && p.tuples.arities.Contains(arity)
    ensures i < |p.tuples.shapes| && |p.tuples.shapes[i].positions| == arity
  {
    var shapes := p.tuples.shapes;
    assert arity in (set i | 0 <= i < |shapes| :: |shapes[i].positions|);
    i :| 0 <= i < |shapes| && |shapes[i].positions| == arity;
  }

  lemma RowIsSome(w: World, p: TypeTest, i: nat, ms: seq<TypeTest>, row: seq<Value>)
    requires i < |p.tuples.shapes| && RowFor(w, p.tuples.shapes[i].positions, ms, row)
    ensures SomeRow(w, p, ms, row)
  {}

  /** A row of zeros, for an arity no position is asked of. */
  lemma ZeroRow(w: World, arity: nat) returns (ms: seq<TypeTest>, row: seq<Value>)
    ensures |ms| == |row| == arity && RowFor(w, ms, ms, row)
    ensures forall k :: 0 <= k < arity ==> Built(ms[k]) && Placed(|w.cells|, row[k])
  {
    ms, row := seq(arity, k => Zero()), seq(arity, k => Value.Int(0));
    ZeroPasses(w);
    AllWithinThemselves(ms);
  }

  /** A row of some common arity for two tuple axes that meet. */
  lemma {:induction false} RowForBoth(n: nat, w: World, p: TypeTest, q: TypeTest)
    returns (after: World, ms: seq<TypeTest>, row: seq<Value>)
    requires Sound(w) && Ready(w.tables, p, n) && Ready(w.tables, q, n) && TuplesOverlap(p.tuples, q.tuples)
    requires !(p.tuples.arities.cofinite && q.tuples.arities.cofinite)
    ensures Sound(after) && Grown(w, after) && SomeRow(after, p, ms, row) && SomeRow(after, q, ms, row)
    ensures RowFor(after, ms, ms, row) && |row| in w.tables.arities
    ensures p.tuples.arities.Contains(|row|) && q.tuples.arities.Contains(|row|)
    ensures forall k :: 0 <= k < |row| ==> Built(ms[k]) && Placed(|after.cells|, row[k])
    decreases n, 0
  {
    FitsInside(p, w.tables, n);
    FitsInside(q, w.tables, n);
    if p.tuples.exact && q.tuples.exact {
      after, ms, row := RowOfShapes(n, w, p, q);
    } else {
      var arity := CommonArity(p.tuples.arities, q.tuples.arities, w.tables.arities.Keys);
      if p.tuples.exact {
        after, ms, row := RowOfOne(n, w, p, arity);
      } else if q.tuples.exact {
        after, ms, row := RowOfOne(n, w, q, arity);
      } else {
        after := w;
        ms, row := ZeroRow(w, arity);
      }
    }
  }

  lemma ListedArity(p: TypeTest, i: nat)
    requires Built(p) && p.tuples.exact && i < |p.tuples.shapes|
    ensures |p.tuples.shapes[i].positions| in p.tuples.arities.values && !p.tuples.arities.cofinite
  {}

  lemma {:induction false} RowOfShapes(n: nat, w: World, p: TypeTest, q: TypeTest)
    returns (after: World, ms: seq<TypeTest>, row: seq<Value>)
    requires Sound(w) && Ready(w.tables, p, n) && Ready(w.tables, q, n) && TuplesOverlap(p.tuples, q.tuples)
    requires n > 0 && p.tuples.exact && q.tuples.exact
    ensures Sound(after) && Grown(w, after) && SomeRow(after, p, ms, row) && SomeRow(after, q, ms, row)
    ensures RowFor(after, ms, ms, row) && |row| in p.tuples.arities.values
    ensures p.tuples.arities.Contains(|row|) && q.tuples.arities.Contains(|row|)
    ensures forall k :: 0 <= k < |row| ==> Built(ms[k]) && Placed(|after.cells|, row[k])
    decreases n - 1, 4
  {
    var i, j :| 0 <= i < |p.tuples.shapes| && 0 <= j < |q.tuples.shapes| &&
      AllOverlap(p.tuples.shapes[i].positions, q.tuples.shapes[j].positions);
    ReadyRow(w.tables, p, n, i);
    ReadyRow(w.tables, q, n, j);
    var ps, qs := p.tuples.shapes[i].positions, q.tuples.shapes[j].positions;
    after, ms, row := RowFound(n - 1, w, ps, qs);
    RowIsFor(w, after, ps, qs, ms, row);
    RowIsSome(after, p, i, ms, row);
    RowIsSome(after, q, j, ms, row);
    ListedArity(p, i);
    ListedArity(q, j);
  }

  lemma {:induction false} RowOfOne(n: nat, w: World, p: TypeTest, arity: nat)
    returns (after: World, ms: seq<TypeTest>, row: seq<Value>)
    requires Sound(w) && Ready(w.tables, p, n) && n > 0 && p.tuples.exact && p.tuples.arities.Contains(arity)
    ensures Sound(after) && Grown(w, after) && SomeRow(after, p, ms, row) && |row| == arity
    ensures RowFor(after, ms, ms, row)
    ensures forall k :: 0 <= k < |row| ==> Built(ms[k]) && Placed(|after.cells|, row[k])
    decreases n - 1, 4
  {
    var i := ShapeOfArity(p, arity);
    var ps := p.tuples.shapes[i].positions;
    ReadyRow(w.tables, p, n, i);
    SelfRow(w.tables, ps, n - 1);
    after, ms, row := RowFound(n - 1, w, ps, ps);
    RowIsFor(w, after, ps, ps, ms, row);
    RowIsSome(after, p, i, ms, row);
  }

  lemma {:induction false} TuplesFound(n: nat, w: World, p: TypeTest, q: TypeTest)
    returns (after: World, m: TypeTest, v: Value)
    requires Sound(w) && Ready(w.tables, p, n) && Ready(w.tables, q, n) && TuplesOverlap(p.tuples, q.tuples)
    ensures Found(w, after, p, q, m, v)
    decreases n, 1
  {
    if p.tuples.arities.cofinite && q.tuples.arities.cofinite {
      after, m, v := FreeTupleShared(w, p, q);
    } else {
      var now, ms, row := RowForBoth(n, w, p, q);
      after, m, v := RowTuple(now, p, q, ms, row);
    }
  }

  // ----------------------------------------------------------------- callables

  lemma CommonTarget(a: FiniteSet<nat>, b: FiniteSet<nat>) returns (target: nat)
    requires a.Overlaps(b) && !(a.cofinite && b.cofinite)
    ensures a.Contains(target) && b.Contains(target)
  {
    target :| (target in a.values || target in b.values) && a.Contains(target) && b.Contains(target);
  }

  /** A construction both axes take, with values for its captures. */
  ghost predicate MadeFor(w: World, p: TypeTest, q: TypeTest, shape: CallableShape, captures: seq<Value>) {
    && BuiltConstruction(shape) && Takes(p, shape) && Takes(q, shape)
    && RowFor(w, shape.captures, shape.captures, captures)
    && forall k :: 0 <= k < |captures| ==> Placed(|w.cells|, captures[k])
  }

  lemma TakesInside(p: TypeTest, i: nat, shape: CallableShape)
    requires Built(p) && p.callables.exact && i < |p.callables.shapes| && Inside(shape, p.callables.shapes[i])
    ensures Takes(p, shape)
  {}

  lemma ConstructionOf(p: TypeTest, target: nat) returns (i: nat)
    requires Built(p) && p.callables.exact && p.callables.targets.Contains(target)
    ensures i < |p.callables.shapes| && p.callables.shapes[i].target == target
  {
    var shapes := p.callables.shapes;
    assert target in (set i | 0 <= i < |shapes| :: shapes[i].target);
    i :| 0 <= i < |shapes| && shapes[i].target == target;
  }

  lemma {:induction false} MadeOfOne(n: nat, w: World, p: TypeTest, target: nat)
    returns (after: World, shape: CallableShape, captures: seq<Value>)
    requires Sound(w) && Ready(w.tables, p, n) && n > 0 && p.callables.exact && p.callables.targets.Contains(target)
    ensures Sound(after) && Grown(w, after) && shape.target == target && MadeFor(after, p, p, shape, captures)
    decreases n - 1, 4
  {
    var i := ConstructionOf(p, target);
    var ps := p.callables.shapes[i].captures;
    ReadyMade(w.tables, p, n, i);
    SelfRow(w.tables, ps, n - 1);
    var ms: seq<TypeTest>;
    after, ms, captures := RowFound(n - 1, w, ps, ps);
    RowIsFor(w, after, ps, ps, ms, captures);
    shape := CallableShape(target, ms);
    TakesInside(p, i, shape);
  }

  lemma {:induction false} MadeOfBoth(n: nat, w: World, p: TypeTest, q: TypeTest)
    returns (after: World, shape: CallableShape, captures: seq<Value>)
    requires Sound(w) && Ready(w.tables, p, n) && Ready(w.tables, q, n) && n > 0
    requires p.callables.exact && q.callables.exact && CallablesOverlap(p.callables, q.callables)
    ensures Sound(after) && Grown(w, after) && MadeFor(after, p, q, shape, captures)
    decreases n - 1, 4
  {
    var i, j :| 0 <= i < |p.callables.shapes| && 0 <= j < |q.callables.shapes| &&
      ConstructionsOverlap(p.callables.shapes[i], q.callables.shapes[j]);
    ReadyMade(w.tables, p, n, i);
    ReadyMade(w.tables, q, n, j);
    var ps, qs := p.callables.shapes[i].captures, q.callables.shapes[j].captures;
    var ms: seq<TypeTest>;
    after, ms, captures := RowFound(n - 1, w, ps, qs);
    RowIsFor(w, after, ps, qs, ms, captures);
    shape := CallableShape(p.callables.shapes[i].target, ms);
    TakesInside(p, i, shape);
    TakesInside(q, j, shape);
  }

  lemma {:induction false} CallablesFound(n: nat, w: World, p: TypeTest, q: TypeTest)
    returns (after: World, m: TypeTest, v: Value)
    requires Sound(w) && Ready(w.tables, p, n) && Ready(w.tables, q, n) && n > 0
    requires CallablesOverlap(p.callables, q.callables)
    ensures Found(w, after, p, q, m, v)
    decreases n, 1
  {
    if p.callables.targets.cofinite && q.callables.targets.cofinite {
      after, m, v := UnstampedShared(w, p, q);
    } else {
      var now, shape, captures := MadeForBoth(n, w, p, q);
      after, m, v := MadeShared(now, p, q, shape, captures);
    }
  }

  lemma {:induction false} MadeForBoth(n: nat, w: World, p: TypeTest, q: TypeTest)
    returns (after: World, shape: CallableShape, captures: seq<Value>)
    requires Sound(w) && Ready(w.tables, p, n) && Ready(w.tables, q, n) && n > 0
    requires CallablesOverlap(p.callables, q.callables)
    requires !(p.callables.targets.cofinite && q.callables.targets.cofinite)
    ensures Sound(after) && Grown(w, after) && MadeFor(after, p, q, shape, captures)
    decreases n, 0
  {
    if p.callables.exact && q.callables.exact {
      after, shape, captures := MadeOfBoth(n, w, p, q);
    } else {
      var target := CommonTarget(p.callables.targets, q.callables.targets);
      if p.callables.exact {
        after, shape, captures := MadeOfOne(n, w, p, target);
      } else if q.callables.exact {
        after, shape, captures := MadeOfOne(n, w, q, target);
      } else {
        after, shape, captures := w, CallableShape(target, []), [];
      }
    }
  }

  // ------------------------------------------------------------- enough tables

  lemma {:induction false} AtomTable(atoms: set<string>) returns (names: seq<string>)
    ensures forall a :: a in atoms ==> a in names
    decreases atoms
  {
    names := [];
    if atoms != {} {
      var a :| a in atoms;
      var rest := AtomTable(atoms - {a});
      names := [a] + rest;
      forall b | b in atoms ensures b in names { assert b == a || b in atoms - {a}; }
    }
  }

  /** Names numbered apart, from one on. */
  ghost predicate NumberedNames(t: map<string, nat>) {
    && (forall m, n | m in t && n in t :: t[m] == t[n] ==> m == n)
    && forall n :: n in t ==> 0 < t[n] <= |t|
  }

  lemma OneMoreName(t: map<string, nat>, n: string) returns (after: map<string, nat>)
    requires NumberedNames(t) && n !in t
    ensures after.Keys == t.Keys + {n} && NumberedNames(after)
  {
    after := t[n := |t| + 1];
    assert after.Keys == t.Keys + {n};
    assert |after| == |t| + 1;
  }

  lemma {:induction false} NameTable(names: set<string>) returns (t: map<string, nat>)
    ensures t.Keys == names && NumberedNames(t)
    decreases names
  {
    t := map[];
    if names != {} {
      var n :| n in names;
      var rest := NameTable(names - {n});
      t := OneMoreName(rest, n);
      assert names == (names - {n}) + {n};
    }
  }

  lemma ArityTable(arities: set<nat>, first: nat) returns (t: map<nat, nat>)
    ensures t.Keys == arities && forall a :: a in t ==> t[a] == first + a
  {
    t := map a | a in arities :: first + a;
  }

  /** A name longer than each of a set. */
  lemma {:induction false} LongerThan(names: set<string>) returns (spare: string)
    ensures forall n :: n in names ==> |n| < |spare|
    decreases names
  {
    spare := "";
    if names != {} {
      var n :| n in names;
      spare := LongerThan(names - {n});
      if |spare| <= |n| { spare := n + "x"; }
      forall k | k in names ensures |k| < |spare| { assert k == n || k in names - {n}; }
    }
  }

  lemma TablesFor(e: Extent) returns (t: Tables)
    ensures NumberedTables(t) && Fits(e, t, e.depth)
  {
    var spare := LongerThan(e.structs);
    var atoms := AtomTable(e.atoms);
    var structs := NameTable(e.structs + {spare});
    var arities := ArityTable(e.arities, |structs| + 1);
    NumbersApart(atoms, arities, structs, spare);
    t := Tables(atoms, arities, structs, spare, 0);
  }

  lemma NumbersApart(atoms: seq<string>, arities: map<nat, nat>, structs: map<string, nat>, spare: string)
    requires NumberedNames(structs) && spare in structs && forall a :: a in arities ==> arities[a] == |structs| + 1 + a
    ensures NumberedTables(Tables(atoms, arities, structs, spare, 0))
  {}

  lemma FitsParts(a: Extent, b: Extent, t: Tables, n: nat)
    requires Fits(Join(a, b), t, n)
    ensures Fits(a, t, n) && Fits(b, t, n)
  {}

  // -------------------------------------------------------------- main results

  /** Some honest heap holds a value that passes both emitted tests. */
  ghost predicate ShareAValue(p: TypeTest, q: TypeTest) {
    exists reader, captured, v ::
      HonestHeap(reader, captured) && Admits(p, reader, v, Lowered) && Admits(q, reader, v, Lowered)
  }

  lemma FirstWorld(t: Tables) returns (w: World)
    requires NumberedTables(t)
    ensures Sound(w) && w.tables == t
  {
    w := World(t, [Cons(Null)]);
  }

  lemma BuiltRealised(p: TypeTest, q: TypeTest)
    requires Built(p) && Built(q) && RealisableInside(p) && RealisableInside(q) && MeetableLists(p, q) && Overlaps(p, q)
    ensures ShareAValue(p, q)
  {
    var e := Join(ExtentOf(p), ExtentOf(q));
    var t := TablesFor(e);
    FitsParts(ExtentOf(p), ExtentOf(q), t, e.depth);
    var w := FirstWorld(t);
    var after, m, v := OverlapFound(e.depth, w, p, q);
    SoundIsHonest(after);
  }

  /** An overlap between realisable tests is real: one value passes both. */
  lemma OverlapIsReal(p: TypeTest, q: TypeTest)
    requires Built(p) && Built(q) && Realisable(p) && Realisable(q) && Overlaps(p, q)
    ensures ShareAValue(p, q)
  {
    PlainIsMeetable(p, q);
    BuiltRealised(p, q);
  }

  /**
   Overlap answers exactly its question: two realisable tests overlap if and only
   if some honest heap holds a value that passes both.
   */
  lemma OverlapAnswersExactly(p: TypeTest, q: TypeTest)
    requires Built(p) && Built(q) && Realisable(p) && Realisable(q) && Separable(p) && Separable(q)
    ensures Overlaps(p, q) <==> ShareAValue(p, q)
  {
    if Overlaps(p, q) {
      OverlapIsReal(p, q);
    } else if ShareAValue(p, q) {
      var reader, captured, v :|
        HonestHeap(reader, captured) && Admits(p, reader, v, Lowered) && Admits(q, reader, v, Lowered);
      OverlapNeverMissed(p, q, reader, captured, v);
    }
  }
}
