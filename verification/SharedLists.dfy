/**
 List cells that are rewritten in place until their spine is shared. The alias
 flag is closed under tails, so protecting a spine may stop at the first cell
 already protected, and a shared list never changes again.
 */
module SharedLists {

  /** One cons cell; the tail is an address, 0 for the empty list. */
  datatype Cell = Cell(head: int, kind: nat, tail: nat, aliased: bool)

  type Cells = map<nat, Cell>

  /** Every tail is the empty list or a cell. */
  ghost predicate Linked(cells: Cells) {
    0 !in cells && forall a :: a in cells ==> cells[a].tail == 0 || cells[a].tail in cells
  }

  /** A protected cell has a protected tail. */
  ghost predicate Closed(cells: Cells) {
    forall a :: a in cells && cells[a].aliased && cells[a].tail != 0 ==>
      cells[a].tail in cells && cells[cells[a].tail].aliased
  }

  ghost predicate Valid(cells: Cells) { Linked(cells) && Closed(cells) }

  predicate IsList(cells: Cells, a: nat) { a == 0 || a in cells }

  ghost function Unprotected(cells: Cells): set<nat> {
    set a | a in cells && !cells[a].aliased
  }

  function Mark(cells: Cells, a: nat): Cells
    requires a in cells
  {
    cells[a := cells[a].(aliased := true)]
  }

  /** Protect cells along the spine until the end or a protected cell; count the cells marked. */
  ghost function Shared(cells: Cells, a: nat): (Cells, nat)
    requires Linked(cells) && IsList(cells, a)
    decreases Unprotected(cells)
  {
    if a == 0 || cells[a].aliased then (cells, 0)
    else
      assert a in Unprotected(cells) && a !in Unprotected(Mark(cells, a));
      var (rest, n) := Shared(Mark(cells, a), cells[a].tail);
      (rest, n + 1)
  }

  /** The first `n` cells' contents of a list: head words with their kinds, in order. */
  ghost function Contents(cells: Cells, a: nat, n: nat): seq<(int, nat)>
    requires Linked(cells) && IsList(cells, a)
    decreases n
  {
    if n == 0 || a == 0 then [] else [(cells[a].head, cells[a].kind)] + Contents(cells, cells[a].tail, n - 1)
  }

  /** The first `n` cells of a list are all protected. */
  ghost predicate Protected(cells: Cells, a: nat, n: nat)
    requires Linked(cells) && IsList(cells, a)
    decreases n
  {
    n > 0 && a != 0 ==> cells[a].aliased && Protected(cells, cells[a].tail, n - 1)
  }

  /** Same cells, same heads and tails; protection only grows. */
  ghost predicate OnlyProtects(before: Cells, after: Cells) {
    && after.Keys == before.Keys
    && forall a :: a in before ==>
         && after[a].head == before[a].head && after[a].kind == before[a].kind && after[a].tail == before[a].tail
         && (before[a].aliased ==> after[a].aliased)
  }

  /** Until the walk ends, only the cell it stands at may lack a protected predecessor's guarantee. */
  ghost predicate ClosedBut(cells: Cells, pending: nat) {
    forall a :: a in cells && cells[a].aliased && cells[a].tail != 0 && cells[a].tail != pending ==>
      cells[a].tail in cells && cells[cells[a].tail].aliased
  }

  lemma MarkShrinks(cells: Cells, a: nat)
    requires Linked(cells) && a in cells && !cells[a].aliased
    ensures Linked(Mark(cells, a)) && OnlyProtects(cells, Mark(cells, a))
    ensures a in Unprotected(cells) && Unprotected(Mark(cells, a)) == Unprotected(cells) - {a}
    ensures ClosedBut(cells, a) ==> ClosedBut(Mark(cells, a), cells[a].tail)
  {
    var next, tail := Mark(cells, a), cells[a].tail;
    if ClosedBut(cells, a) {
      forall b | b in next && next[b].aliased && next[b].tail != 0 && next[b].tail != tail
        ensures next[b].tail in next && next[next[b].tail].aliased
      {
        if b != a && cells[b].tail != a { assert cells[b].aliased; }
      }
    }
  }

  lemma {:induction false} SharingCloses(cells: Cells, a: nat)
    requires Linked(cells) && IsList(cells, a) && ClosedBut(cells, a)
    ensures Valid(Shared(cells, a).0) && OnlyProtects(cells, Shared(cells, a).0)
    ensures a != 0 ==> Shared(cells, a).0[a].aliased
    decreases Unprotected(cells)
  {
    if a != 0 && !cells[a].aliased {
      MarkShrinks(cells, a);
      SharingCloses(Mark(cells, a), cells[a].tail);
    }
  }

  lemma {:induction false} SharingCounts(cells: Cells, a: nat)
    requires Linked(cells) && IsList(cells, a) && ClosedBut(cells, a)
    ensures Unprotected(Shared(cells, a).0) <= Unprotected(cells)
    ensures Shared(cells, a).1 == |Unprotected(cells) - Unprotected(Shared(cells, a).0)|
    decreases Unprotected(cells)
  {
    if a != 0 && !cells[a].aliased {
      var next := Mark(cells, a);
      MarkShrinks(cells, a);
      SharingCounts(next, cells[a].tail);
      var left := Unprotected(Shared(next, cells[a].tail).0);
      assert Unprotected(cells) - left == (Unprotected(next) - left) + {a};
    } else {
      assert Unprotected(cells) - Unprotected(cells) == {};
    }
  }

  lemma {:induction false} ProtectedFromClosed(cells: Cells, a: nat, n: nat)
    requires Valid(cells) && IsList(cells, a) && (a != 0 ==> cells[a].aliased)
    ensures Protected(cells, a, n)
    decreases n
  {
    if n > 0 && a != 0 { ProtectedFromClosed(cells, cells[a].tail, n - 1); }
  }

  /** Stopping at the first protected cell suffices: the whole spine ends up protected, and nothing else changes. */
  lemma SharingProtectsTheSpine(cells: Cells, a: nat, n: nat)
    requires Valid(cells) && IsList(cells, a)
    ensures
      var after := Shared(cells, a).0;
      Valid(after) && OnlyProtects(cells, after) && IsList(after, a) && Protected(after, a, n)
    ensures Shared(cells, a).1 == |Unprotected(cells) - Unprotected(Shared(cells, a).0)|
  {
    SharingCloses(cells, a);
    SharingCounts(cells, a);
    ProtectedFromClosed(Shared(cells, a).0, a, n);
  }

  // --------------------------------------------------------------------- steps

  datatype Step =
    | Cons(addr: nat, head: int, kind: nat, tail: nat)
    | Share(list: nat)
    | Rewrite(cell: nat, head: int, kind: nat, tail: nat)

  /** A fresh address from the allocator, and lists that exist. */
  ghost predicate Allowed(cells: Cells, step: Step) {
    match step
    case Cons(addr, _, _, tail) => addr != 0 && addr !in cells && IsList(cells, tail)
    case Share(list) => IsList(cells, list)
    case Rewrite(cell, _, _, tail) => cell in cells && IsList(cells, tail)
  }

  ghost function Take(cells: Cells, step: Step): Cells
    requires Valid(cells) && Allowed(cells, step)
  {
    match step
    case Cons(addr, head, kind, tail) => cells[addr := Cell(head, kind, tail, false)]
    case Share(list) => Shared(cells, list).0
    case Rewrite(cell, head, kind, tail) =>
      if cells[cell].aliased then cells else cells[cell := Cell(head, kind, tail, false)]
  }

  lemma TakeKeeps(cells: Cells, step: Step)
    requires Valid(cells) && Allowed(cells, step)
    ensures Valid(Take(cells, step)) && cells.Keys <= Take(cells, step).Keys
    ensures forall a :: a in cells && cells[a].aliased ==> Take(cells, step)[a] == cells[a]
  {
    match step
    case Cons(_, _, _, _) =>
    case Share(list) => SharingCloses(cells, list); SharedKeepsCells(cells, list);
    case Rewrite(cell, _, _, _) =>
  }

  lemma SharedKeepsCells(cells: Cells, list: nat)
    requires Valid(cells) && IsList(cells, list)
    ensures forall a :: a in cells && cells[a].aliased ==>
      a in Shared(cells, list).0 && Shared(cells, list).0[a] == cells[a]
  {
    SharingCloses(cells, list);
    var after := Shared(cells, list).0;
    forall a | a in cells && cells[a].aliased ensures a in after && after[a] == cells[a] {
      assert after[a].aliased;
    }
  }

  /** A run whose every step is allowed where it is taken. */
  ghost predicate Runs(cells: Cells, steps: seq<Step>)
    decreases |steps|
  {
    Valid(cells) && (steps != [] ==> Allowed(cells, steps[0]) && Runs(Take(cells, steps[0]), steps[1..]))
  }

  ghost function After(cells: Cells, steps: seq<Step>): Cells
    requires Runs(cells, steps)
    decreases |steps|
  {
    if steps == [] then cells else After(Take(cells, steps[0]), steps[1..])
  }

  lemma {:induction false} SameContents(before: Cells, after: Cells, a: nat, n: nat)
    requires Valid(before) && Valid(after) && IsList(before, a) && Protected(before, a, n) && before.Keys <= after.Keys
    requires forall b :: b in before && before[b].aliased ==> after[b] == before[b]
    ensures IsList(after, a) && Protected(after, a, n) && Contents(after, a, n) == Contents(before, a, n)
    decreases n
  {
    if n > 0 && a != 0 { SameContents(before, after, before[a].tail, n - 1); }
  }

  /**
   Shared lists are immutable: once a list is protected, no run of allocations,
   shares and rewrites changes what it holds, to any depth.
   */
  lemma {:induction false} SharedListsAreImmutable(cells: Cells, steps: seq<Step>, a: nat, n: nat)
    requires Runs(cells, steps) && IsList(cells, a) && Protected(cells, a, n)
    ensures Valid(After(cells, steps)) && IsList(After(cells, steps), a)
    ensures Protected(After(cells, steps), a, n) && Contents(After(cells, steps), a, n) == Contents(cells, a, n)
    decreases |steps|
  {
    if steps != [] {
      var next := Take(cells, steps[0]);
      TakeKeeps(cells, steps[0]);
      SameContents(cells, next, a, n);
      SharedListsAreImmutable(next, steps[1..], a, n);
    }
  }

  /** Sharing a list and then running anything leaves the list as it was before it was shared. */
  lemma ShareThenRun(cells: Cells, a: nat, steps: seq<Step>, n: nat)
    requires Valid(cells) && IsList(cells, a) && Valid(Shared(cells, a).0) && Runs(Shared(cells, a).0, steps)
    ensures
      var after := After(Shared(cells, a).0, steps);
      Valid(after) && IsList(after, a) && Contents(after, a, n) == Contents(cells, a, n)
  {
    SharingProtectsTheSpine(cells, a, n);
    SharedListsAreImmutable(Shared(cells, a).0, steps, a, n);
    ProtectingKeepsContents(cells, Shared(cells, a).0, a, n);
  }

  lemma {:induction false} ProtectingKeepsContents(before: Cells, after: Cells, a: nat, n: nat)
    requires Linked(before) && Linked(after) && IsList(before, a) && OnlyProtects(before, after)
    ensures IsList(after, a) && Contents(after, a, n) == Contents(before, a, n)
    decreases n
  {
    if n > 0 && a != 0 { ProtectingKeepsContents(before, after, before[a].tail, n - 1); }
  }

  // --------------------------------------------------------------- in place

  class ListHeap {
    var cells: Cells

    constructor ()
      ensures Valid(cells) && cells == map[]
    {
      cells := map[];
    }

    method AllocCons(addr: nat, head: int, kind: nat, tail: nat)
      requires Valid(cells) && Allowed(cells, Cons(addr, head, kind, tail))
      modifies this
      ensures Valid(cells) && cells == Take(old(cells), Cons(addr, head, kind, tail))
    {
      TakeKeeps(cells, Cons(addr, head, kind, tail));
      cells := cells[addr := Cell(head, kind, tail, false)];
    }

    /** Walk the spine, protecting each cell, up to the first protected one. */
    method ShareSpine(list: nat) returns (marked: nat)
      requires Valid(cells) && IsList(cells, list)
      modifies this
      ensures Valid(cells) && (cells, marked) == Shared(old(cells), list)
      ensures marked == |Unprotected(old(cells)) - Unprotected(cells)|
    {
      SharingCloses(cells, list);
      SharingCounts(cells, list);
      var addr := list;
      marked := 0;
      while addr != 0
        invariant Linked(cells) && IsList(cells, addr)
        invariant Shared(old(cells), list) == (Shared(cells, addr).0, marked + Shared(cells, addr).1)
        decreases Unprotected(cells)
      {
        if cells[addr].aliased {
          break;
        }
        MarkShrinks(cells, addr);
        cells := cells[addr := cells[addr].(aliased := true)];
        marked := marked + 1;
        addr := cells[addr].tail;
      }
    }

    method RewriteIfUnaliased(cell: nat, head: int, kind: nat, tail: nat) returns (done: bool)
      requires Valid(cells) && Allowed(cells, Rewrite(cell, head, kind, tail))
      modifies this
      ensures Valid(cells) && cells == Take(old(cells), Rewrite(cell, head, kind, tail))
      ensures done <==> !old(cells)[cell].aliased
    {
      TakeKeeps(cells, Rewrite(cell, head, kind, tail));
      if cells[cell].aliased {
        return false;
      }
      cells := cells[cell := cells[cell].(head := head, kind := kind, tail := tail)];
      done := true;
    }
  }
}
