/**
 Overlap is exact: two realisable tests that overlap share a value on some honest
 heap. The heap is built cell by cell, along with a test that lies inside both.
 */
module TypeTestWorlds {
  import opened Options
  import opened TypeTests
  import opened TypeTestContainment
  import opened TypeTestSeparation

  // ------------------------------------------------------------------- worlds

  /**
   What a module numbers: its atoms, tuple arities and struct names, one name no
   test mentions, and one schema id that stands for neither.
   */
  datatype Tables = Tables(
    atoms: seq<string>, arities: map<nat, nat>, structs: map<string, nat>, spare: string, free: nat)

  datatype Cell =
    | Cons(head: Value)
    | Struct(schema: nat, fields: seq<Value>)
    | Made(shape: CallableShape, captures: seq<Value>)

  /** A heap: the cell at each address. */
  datatype World = World(tables: Tables, cells: seq<Cell>)

  function SchemaAt(w: World, addr: nat): nat {
    if addr < |w.cells| && w.cells[addr].Struct? then w.cells[addr].schema else w.tables.free
  }

  function ShapeAt(w: World, code: nat): Option<CallableShape> {
    if code < |w.cells| && w.cells[code].Made? then Some(w.cells[code].shape) else None
  }

  function FieldAt(w: World, v: Value, k: nat): Option<Value> {
    if v.Ref? && v.addr < |w.cells| && w.cells[v.addr].Struct? && k < |w.cells[v.addr].fields|
    then Some(w.cells[v.addr].fields[k]) else None
  }

  function HeadAt(w: World, v: Value): Option<Value> {
    if v.Ref? && v.addr < |w.cells| && w.cells[v.addr].Cons? then Some(w.cells[v.addr].head) else Some(Null)
  }

  function CaptureAt(w: World, addr: nat, k: nat): Value {
    if addr < |w.cells| && w.cells[addr].Made? && k < |w.cells[addr].captures| then w.cells[addr].captures[k] else Null
  }

  /** The world as a matcher reads it; every closure has code of its own. */
  function ReaderOf(w: World): Reader {
    Reader(w.tables.atoms, w.tables.structs.Keys, w.tables.arities, w.tables.structs,
           (a: nat) => SchemaAt(w, a), (a: nat) => a, (c: nat) => ShapeAt(w, c),
           (v: Value, k: nat) => FieldAt(w, v, k), (v: Value) => HeadAt(w, v), _ => None)
  }

  function CapturesOf(w: World): (nat, nat) -> Value { (a: nat, k: nat) => CaptureAt(w, a, k) }

  ghost predicate Passes(w: World, p: TypeTest, v: Value) {
    Admits(p, ReaderOf(w), v, Lowered)
  }

  predicate Placed(n: nat, v: Value) { v.Ref? ==> v.addr < n }

  /** The cells refer only to earlier cells. */
  predicate PlacedCell(n: nat, cell: Cell) {
    match cell
    case Cons(head) => Placed(n, head)
    case Struct(_, fields) => forall k :: 0 <= k < |fields| ==> Placed(n, fields[k])
    case Made(_, captures) => forall k :: 0 <= k < |captures| ==> Placed(n, captures[k])
  }

  ghost predicate Ordered(w: World) {
    forall i :: 0 <= i < |w.cells| ==> PlacedCell(i, w.cells[i])
  }

  /** Every captured value passes the test its construction stamped. */
  ghost predicate HonestCell(w: World, cell: Cell) {
    cell.Made? ==>
      && BuiltConstruction(cell.shape) && |cell.captures| == |cell.shape.captures|
      && forall k :: 0 <= k < |cell.captures| ==> Passes(w, cell.shape.captures[k], cell.captures[k])
  }

  ghost predicate Honest(w: World) {
    forall i :: 0 <= i < |w.cells| ==> HonestCell(w, w.cells[i])
  }

  ghost predicate NumberedTables(t: Tables) {
    && (forall a, b | a in t.arities && b in t.arities :: t.arities[a] == t.arities[b] ==> a == b)
    && (forall m, n | m in t.structs && n in t.structs :: t.structs[m] == t.structs[n] ==> m == n)
    && (forall a, n | a in t.arities && n in t.structs :: t.arities[a] != t.structs[n])
    && (forall a :: a in t.arities ==> t.arities[a] != t.free)
    && (forall n :: n in t.structs ==> t.structs[n] != t.free)
    && t.spare in t.structs
  }

  ghost predicate Sound(w: World) {
    |w.cells| > 0 && NumberedTables(w.tables) && Ordered(w) && Honest(w)
  }

  /** The same tables, and cells added at the end. */
  ghost predicate Grown(w: World, after: World) {
    w.tables == after.tables && w.cells <= after.cells
  }

  lemma SameCell(w: World, after: World, i: nat)
    requires Grown(w, after) && i < |w.cells|
    ensures i < |after.cells| && after.cells[i] == w.cells[i]
  {}

  // ------------------------------------------------- admission in a grown world

  /** What a placed value passes, it passes after more cells are made. */
  lemma {:induction false} PassesGrown(w: World, after: World, p: TypeTest, v: Value)
    requires Ordered(w) && Grown(w, after) && Placed(|w.cells|, v) && Passes(w, p, v)
    ensures Passes(after, p, v)
    decreases p, 1
  {
    var r, s := ReaderOf(w), ReaderOf(after);
    var axis :| axis in AxesOf(v) && AxisAdmits(p, r, v, axis, Lowered);
    if v.Ref? { SameCell(w, after, v.addr); }
    match axis {
      case Lists => if ListShapeOf(v) == Some(NonEmpty) { HeadGrown(w, after, p, v); }
      case Tuples => RowGrown(w, after, p, v);
      case Callables => assert CallableAdmits(p, s, v.addr);
      case NamedStructs => assert NamedStructAdmits(p, s, s.schemaOf(v.addr));
      case OtherStructs => assert UnnamedOfArity(s, s.schemaOf(v.addr), OtherStructArities(p));
      case _ =>
    }
    assert AxisAdmits(p, s, v, axis, Lowered);
  }

  lemma {:induction false} HeadGrown(w: World, after: World, p: TypeTest, v: Value)
    requires Ordered(w) && Grown(w, after) && Placed(|w.cells|, v) && ListShapeOf(v) == Some(NonEmpty)
    requires ElementsAdmitted(p.lists, ReaderOf(w), v, Lowered)
    ensures ElementsAdmitted(p.lists, ReaderOf(after), v, Lowered)
    decreases p, 0
  {
    SameCell(w, after, v.addr);
    if p.lists.AsksTheHead() {
      var head := HeadAt(w, v).value;
      var i :| 0 <= i < |p.lists.heads| && Admits(p.lists.heads[i], ReaderOf(w), head, Lowered);
      PassesGrown(w, after, p.lists.heads[i], head);
    }
  }

  lemma {:induction false} RowGrown(w: World, after: World, p: TypeTest, v: Value)
    requires Ordered(w) && Grown(w, after) && Placed(|w.cells|, v) && v.Ref? && v.kind == STRUCT
    requires AxisAdmits(p, ReaderOf(w), v, Tuples, Lowered)
    ensures AxisAdmits(p, ReaderOf(after), v, Tuples, Lowered)
    decreases p, 0
  {
    var r, s, schema := ReaderOf(w), ReaderOf(after), SchemaAt(w, v.addr);
    SameCell(w, after, v.addr);
    var arity := TupleArityOf(r, schema);
    assert TupleArityOf(s, schema) == arity;
    if arity.Some? && PositionsOf(p, arity.value).AnyOf? {
      ShapesOfArity(p, r, v, schema, arity.value, Lowered);
      ShapesOfArity(p, s, v, schema, arity.value, Lowered);
      var m :| 0 <= m < |p.tuples.shapes| && |p.tuples.shapes[m].positions| == arity.value &&
        PositionsAdmitted(p.tuples.shapes[m], r, v, Lowered);
      FieldsGrown(w, after, p.tuples.shapes[m], v);
    }
    assert TupleShapeAdmitted(p, s, v, schema, Lowered);
  }

  lemma {:induction false} FieldsGrown(w: World, after: World, shape: TupleShape, v: Value)
    requires Ordered(w) && Grown(w, after) && Placed(|w.cells|, v) && v.Ref?
    requires PositionsAdmitted(shape, ReaderOf(w), v, Lowered)
    ensures PositionsAdmitted(shape, ReaderOf(after), v, Lowered)
    decreases shape, 0
  {
    var r, s := ReaderOf(w), ReaderOf(after);
    SameCell(w, after, v.addr);
    forall k | 0 <= k < |shape.positions|
      ensures s.fields(v, k).Some? && Admits(shape.positions[k], s, s.fields(v, k).value, Lowered)
    {
      assert r.fields(v, k).Some?;
      PassesGrown(w, after, shape.positions[k], FieldAt(w, v, k).value);
    }
  }

  /** One more cell, at the next address. */
  lemma OneMore(w: World, cell: Cell) returns (after: World, addr: nat)
    requires Sound(w) && PlacedCell(|w.cells|, cell) && HonestCell(w, cell)
    ensures Sound(after) && Grown(w, after) && addr == |w.cells| > 0 && |after.cells| == addr + 1
    ensures after.cells[addr] == cell
  {
    after, addr := World(w.tables, w.cells + [cell]), |w.cells|;
    forall i | 0 <= i < |after.cells| ensures HonestCell(after, after.cells[i]) {
      var c := after.cells[i];
      assert HonestCell(w, c);
      assert PlacedCell(i, c);
      if c.Made? {
        forall k | 0 <= k < |c.captures| ensures Passes(after, c.shape.captures[k], c.captures[k]) {
          PassesGrown(w, after, c.shape.captures[k], c.captures[k]);
        }
      }
    }
  }

  lemma SoundIsHonest(w: World)
    requires Sound(w)
    ensures HonestHeap(ReaderOf(w), CapturesOf(w))
  {
    var reader, captured := ReaderOf(w), CapturesOf(w);
    forall addr: nat ensures HonestClosure(reader, captured, addr) {
      if ShapeAt(w, addr).Some? {
        assert HonestCell(w, w.cells[addr]);
      }
    }
  }
}
