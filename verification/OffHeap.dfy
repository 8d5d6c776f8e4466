/**
 Off-heap objects held by stubs on process heaps: shared binaries and
 resources, their reference counts, one-way claims and finalisation, over every
 run of allocation, cross-heap retain, claim, sweep and drop.
 */
module OffHeap {

  datatype Kind = Bin | Resource

  datatype Shared = Shared(kind: Kind, refcount: nat, claimed: bool, payload: int)

  /** Live objects by address, and the record of finalisers run and of claims granted. */
  datatype Table = Table(objects: map<nat, Shared>, finalised: seq<nat>, claims: seq<nat>)

  function Allocate(t: Table, p: nat, kind: Kind, payload: int): Table {
    t.(objects := t.objects[p := Shared(kind, 1, false, payload)])
  }

  function Retain(t: Table, p: nat): Table
    requires p in t.objects
  {
    t.(objects := t.objects[p := t.objects[p].(refcount := t.objects[p].refcount + 1)])
  }

  /** Whether releasing runs the finaliser: last reference to an unclaimed resource. */
  predicate Finalises(t: Table, p: nat)
    requires p in t.objects
  {
    t.objects[p].refcount == 1 && t.objects[p].kind.Resource? && !t.objects[p].claimed
  }

  /** Drop one reference; the last one frees the object and finalises an unclaimed resource. */
  function Release(t: Table, p: nat): Table
    requires p in t.objects && t.objects[p].refcount > 0
  {
    var held := t.objects[p];
    if held.refcount == 1 then
      t.(objects := t.objects - {p}, finalised := if Finalises(t, p) then t.finalised + [p] else t.finalised)
    else
      t.(objects := t.objects[p := held.(refcount := held.refcount - 1)])
  }

  /** The first claim of a resource succeeds; every later one fails. */
  function Claim(t: Table, p: nat): (Table, bool)
    requires p in t.objects
  {
    if t.objects[p].claimed then (t, false)
    else (t.(objects := t.objects[p := t.objects[p].(claimed := true)], claims := t.claims + [p]), true)
  }

  // ------------------------------------------------------------------ balance

  /**
   Everything that ties the table to the references outstanding and to the
   resources ever born, counted by address: an address is used again once the
   object at it is gone.
   */
  ghost predicate Balanced(t: Table, edges: multiset<nat>, born: multiset<nat>) {
    forall p :: ObjectOk(t, edges, born, p)
  }

  ghost predicate ObjectOk(t: Table, edges: multiset<nat>, born: multiset<nat>, p: nat) {
    && edges[p] == (if p in t.objects then t.objects[p].refcount else 0)
    && (p in t.objects ==> edges[p] > 0 && (t.objects[p].claimed ==> t.objects[p].kind.Resource?))
    && multiset(t.finalised)[p] + multiset(t.claims)[p] + Unclaimed(t, p) == born[p]
  }

  /** The live resource at an address nobody has claimed yet. */
  function Unclaimed(t: Table, p: nat): nat {
    if p in t.objects && t.objects[p].kind.Resource? && !t.objects[p].claimed then 1 else 0
  }

  function Births(born: multiset<nat>, p: nat, kind: Kind): multiset<nat> {
    if kind.Resource? then born + multiset{p} else born
  }

  lemma AllocateBalances(t: Table, edges: multiset<nat>, born: multiset<nat>, p: nat, kind: Kind, payload: int)
    requires Balanced(t, edges, born) && p !in t.objects
    ensures Balanced(Allocate(t, p, kind, payload), edges + multiset{p}, Births(born, p, kind))
  {
    var after, more, known := Allocate(t, p, kind, payload), edges + multiset{p}, Births(born, p, kind);
    forall q ensures ObjectOk(after, more, known, q) {
      assert ObjectOk(t, edges, born, q);
    }
  }

  lemma RetainBalances(t: Table, edges: multiset<nat>, born: multiset<nat>, p: nat)
    requires Balanced(t, edges, born) && p in t.objects
    ensures Balanced(Retain(t, p), edges + multiset{p}, born)
  {
    forall q ensures ObjectOk(Retain(t, p), edges + multiset{p}, born, q) {
      assert ObjectOk(t, edges, born, q);
    }
  }

  /** A claim is granted exactly while the life at the address has met no fate, and never twice. */
  lemma ClaimBalances(t: Table, edges: multiset<nat>, born: multiset<nat>, p: nat)
    requires Balanced(t, edges, born) && p in t.objects && t.objects[p].kind.Resource?
    ensures Balanced(Claim(t, p).0, edges, born)
    ensures Claim(t, p).1 <==> multiset(t.finalised)[p] + multiset(t.claims)[p] < born[p]
    ensures p in Claim(t, p).0.objects && !Claim(Claim(t, p).0, p).1
  {
    forall q ensures ObjectOk(Claim(t, p).0, edges, born, q) {
      assert ObjectOk(t, edges, born, q);
    }
    assert ObjectOk(t, edges, born, p);
  }

  /** A reference outstanding means its object is live. */
  lemma HeldIsLive(t: Table, edges: multiset<nat>, born: multiset<nat>, p: nat)
    requires Balanced(t, edges, born) && edges[p] > 0
    ensures p in t.objects && t.objects[p].refcount == edges[p]
  {
    assert ObjectOk(t, edges, born, p);
  }

  lemma ReleaseBalances(t: Table, edges: multiset<nat>, born: multiset<nat>, p: nat)
    requires Balanced(t, edges, born) && edges[p] > 0
    ensures p in t.objects && t.objects[p].refcount > 0
    ensures Balanced(Release(t, p), edges - multiset{p}, born)
  {
    HeldIsLive(t, edges, born, p);
    forall q ensures ObjectOk(Release(t, p), edges - multiset{p}, born, q) {
      assert ObjectOk(t, edges, born, q);
    }
  }

  /** Releasing a batch of references one by one; nothing freed is touched. */
  ghost function ReleaseAll(t: Table, ps: seq<nat>, edges: multiset<nat>, born: multiset<nat>): (r: Table)
    requires Balanced(t, edges + multiset(ps), born)
    ensures Balanced(r, edges, born)
    decreases |ps|
  {
    if ps == [] then
      assert edges + multiset(ps) == edges; t
    else
      assert ps == [ps[0]] + ps[1..];
      ReleaseBalances(t, edges + multiset(ps), born, ps[0]);
      assert edges + multiset(ps) - multiset{ps[0]} == edges + multiset(ps[1..]);
      ReleaseAll(Release(t, ps[0]), ps[1..], edges, born)
  }

  // ------------------------------------------------------------------- heaps

  /**
   A stub: where it lies on its heap, what it is, the object it holds, and the
   closure to run when it is finalised.
   */
  datatype Stub = Stub(addr: nat, kind: Kind, shared: nat, closure: int)

  function Held(chain: seq<Stub>): (r: seq<nat>)
    ensures |r| == |chain| && forall i :: 0 <= i < |r| ==> r[i] == chain[i].shared
  {
    seq(|chain|, i requires 0 <= i < |chain| => chain[i].shared)
  }

  /** Every reference held by a stub chained in some heap. */
  ghost function Edges(heaps: seq<seq<Stub>>): multiset<nat> {
    if heaps == [] then multiset{} else Edges(heaps[..|heaps| - 1]) + multiset(Held(heaps[|heaps| - 1]))
  }

  lemma HeldBy(chain: seq<Stub>, i: nat)
    requires i < |chain|
    ensures multiset(Held(chain))[chain[i].shared] > 0
  {
    assert Held(chain)[i] == chain[i].shared;
  }

  /** What a chained stub holds has a reference outstanding. */
  lemma {:induction false} StubIsEdge(heaps: seq<seq<Stub>>, h: nat, i: nat)
    requires h < |heaps| && i < |heaps[h]|
    ensures Edges(heaps)[heaps[h][i].shared] > 0
  {
    if h == |heaps| - 1 { HeldBy(heaps[h], i); } else { StubIsEdge(heaps[..|heaps| - 1], h, i); }
  }

  lemma CarriedIsHeld(heaps: seq<seq<Stub>>, stub: Stub)
    requires Carried(heaps, stub)
    ensures Edges(heaps)[stub.shared] > 0
  {
    var h, i :| 0 <= h < |heaps| && 0 <= i < |heaps[h]| && heaps[h][i] == stub.(addr := heaps[h][i].addr);
    StubIsEdge(heaps, h, i);
  }

  lemma {:induction false} EdgesReplaced(heaps: seq<seq<Stub>>, h: nat, chain: seq<Stub>, p: nat)
    requires h < |heaps|
    ensures Edges(heaps[h := chain])[p] + multiset(Held(heaps[h]))[p] == Edges(heaps)[p] + multiset(Held(chain))[p]
  {
    var last := |heaps| - 1;
    if h < last {
      EdgesReplaced(heaps[..last], h, chain, p);
      assert heaps[h := chain][..last] == heaps[..last][h := chain];
    } else {
      assert heaps[h := chain][..last] == heaps[..last];
    }
  }

  /** The survivors of a collection at their new addresses, in the order the sweep relinks them. */
  function Swept(chain: seq<Stub>, to: map<nat, nat>): seq<Stub> {
    if chain == [] then []
    else
      var last := chain[|chain| - 1];
      var rest := Swept(chain[..|chain| - 1], to);
      if last.addr in to then [last.(addr := to[last.addr])] + rest else rest
  }

  /** The references the sweep gives up: those of the stubs that did not survive, in chain order. */
  function Dead(chain: seq<Stub>, to: map<nat, nat>): seq<nat> {
    if chain == [] then []
    else (if chain[0].addr in to then [] else [chain[0].shared]) + Dead(chain[1..], to)
  }

  lemma {:induction false} DeadAtTheEnd(chain: seq<Stub>, to: map<nat, nat>)
    requires chain != []
    ensures
      var last := chain[|chain| - 1];
      Dead(chain, to) == Dead(chain[..|chain| - 1], to) + (if last.addr in to then [] else [last.shared])
  {
    if |chain| > 1 {
      DeadAtTheEnd(chain[1..], to);
      assert chain[1..][..|chain| - 2] == chain[..|chain| - 1][1..];
    }
  }

  lemma HeldAtTheEnd(chain: seq<Stub>)
    requires chain != []
    ensures Held(chain) == Held(chain[..|chain| - 1]) + [chain[|chain| - 1].shared]
  {}

  lemma HeldInFront(stub: Stub, chain: seq<Stub>)
    ensures Held([stub] + chain) == [stub.shared] + Held(chain)
  {}

  /** Survivors and dead together hold exactly what the chain held. */
  lemma {:induction false} SweepPartitions(chain: seq<Stub>, to: map<nat, nat>, p: nat)
    ensures multiset(Held(Swept(chain, to)))[p] + multiset(Dead(chain, to))[p] == multiset(Held(chain))[p]
  {
    if chain != [] {
      var last, front := chain[|chain| - 1], chain[..|chain| - 1];
      SweepPartitions(front, to, p);
      HeldAtTheEnd(chain);
      DeadAtTheEnd(chain, to);
      if last.addr in to {
        HeldInFront(last.(addr := to[last.addr]), Swept(front, to));
        assert Swept(chain, to) == [last.(addr := to[last.addr])] + Swept(front, to);
      }
    }
  }

  // --------------------------------------------------------------------- runs

  datatype State = State(heaps: seq<seq<Stub>>, table: Table, born: multiset<nat>)

  datatype Step =
    | NewHeap
    | Make(heap: nat, stub: Stub, payload: int)
    | Copy(heap: nat, stub: Stub)
    | ClaimIt(shared: nat)
    | Sweep(heap: nat, to: map<nat, nat>)
    | DropHeap(heap: nat)

  ghost predicate Inv(s: State) {
    Balanced(s.table, Edges(s.heaps), s.born)
  }

  /** Some chained stub holds what this one does, and with the same closure. */
  ghost predicate Carried(heaps: seq<seq<Stub>>, stub: Stub) {
    exists h, i :: 0 <= h < |heaps| && 0 <= i < |heaps[h]| && heaps[h][i] == stub.(addr := heaps[h][i].addr)
  }

  /**
   New objects get the address of no live one; copies are of chained stubs, and
   claims name an object some stub holds.
   */
  ghost predicate Allowed(s: State, step: Step) {
    match step
    case NewHeap => true
    case Make(heap, stub, _) => heap < |s.heaps| && stub.shared !in s.table.objects
    case Copy(heap, stub) => heap < |s.heaps| && Carried(s.heaps, stub)
    case ClaimIt(p) => Edges(s.heaps)[p] > 0 && p in s.table.objects && s.table.objects[p].kind.Resource?
    case Sweep(heap, _) => heap < |s.heaps|
    case DropHeap(heap) => heap < |s.heaps|
  }

  ghost function Take(s: State, step: Step): (r: State)
    requires Inv(s) && Allowed(s, step)
    ensures Inv(r)
  {
    match step
    case NewHeap =>
      AddedHeap(s.heaps);
      s.(heaps := s.heaps + [[]])
    case Make(heap, stub, payload) =>
      PushedEdges(s.heaps, heap, stub);
      AllocateBalances(s.table, Edges(s.heaps), s.born, stub.shared, stub.kind, payload);
      State(s.heaps[heap := [stub] + s.heaps[heap]],
            Allocate(s.table, stub.shared, stub.kind, payload), Births(s.born, stub.shared, stub.kind))
    case Copy(heap, stub) =>
      PushedEdges(s.heaps, heap, stub);
      CarriedIsHeld(s.heaps, stub);
      HeldIsLive(s.table, Edges(s.heaps), s.born, stub.shared);
      RetainBalances(s.table, Edges(s.heaps), s.born, stub.shared);
      s.(heaps := s.heaps[heap := [stub] + s.heaps[heap]], table := Retain(s.table, stub.shared))
    case ClaimIt(p) =>
      ClaimBalances(s.table, Edges(s.heaps), s.born, p);
      s.(table := Claim(s.table, p).0)
    case Sweep(heap, to) =>
      SweptEdges(s.heaps, heap, to);
      var heaps := s.heaps[heap := Swept(s.heaps[heap], to)];
      State(heaps, ReleaseAll(s.table, Dead(s.heaps[heap], to), Edges(heaps), s.born), s.born)
    case DropHeap(heap) =>
      SweptEdges(s.heaps, heap, map[]);
      NothingSurvives(s.heaps[heap]);
      var heaps := s.heaps[heap := []];
      State(heaps, ReleaseAll(s.table, Held(s.heaps[heap]), Edges(heaps), s.born), s.born)
  }

  lemma AddedHeap(heaps: seq<seq<Stub>>)
    ensures Edges(heaps + [[]]) == Edges(heaps)
  {
    assert (heaps + [[]])[..|heaps|] == heaps && Held([]) == [];
  }

  lemma PushedEdges(heaps: seq<seq<Stub>>, h: nat, stub: Stub)
    requires h < |heaps|
    ensures Edges(heaps[h := [stub] + heaps[h]]) == Edges(heaps) + multiset{stub.shared}
  {
    var chain := [stub] + heaps[h];
    assert Held(chain) == [stub.shared] + Held(heaps[h]);
    forall p ensures Edges(heaps[h := chain])[p] == (Edges(heaps) + multiset{stub.shared})[p] {
      EdgesReplaced(heaps, h, chain, p);
    }
  }

  lemma SweptEdges(heaps: seq<seq<Stub>>, h: nat, to: map<nat, nat>)
    requires h < |heaps|
    ensures Edges(heaps[h := Swept(heaps[h], to)]) + multiset(Dead(heaps[h], to)) == Edges(heaps)
  {
    var chain := Swept(heaps[h], to);
    forall p ensures Edges(heaps[h := chain])[p] + multiset(Dead(heaps[h], to))[p] == Edges(heaps)[p] {
      EdgesReplaced(heaps, h, chain, p);
      SweepPartitions(heaps[h], to, p);
    }
  }

  lemma {:induction false} NothingSurvives(chain: seq<Stub>)
    ensures Swept(chain, map[]) == [] && Dead(chain, map[]) == Held(chain)
  {
    if chain != [] {
      NothingSurvives(chain[..|chain| - 1]);
      DeadAtTheEnd(chain, map[]);
    }
  }

  ghost predicate Runs(s: State, steps: seq<Step>)
    decreases |steps|
  {
    Inv(s) && (steps != [] ==> Allowed(s, steps[0]) && Runs(Take(s, steps[0]), steps[1..]))
  }

  ghost function After(s: State, steps: seq<Step>): (r: State)
    requires Runs(s, steps)
    ensures Inv(r)
    decreases |steps|
  {
    if steps == [] then s else After(Take(s, steps[0]), steps[1..])
  }

  function Fresh(): State { State([], Table(map[], [], []), multiset{}) }

  /**
   After every run: a reference count is the number of stubs chained in live
   heaps, and an object is live exactly while some stub holds it.
   */
  lemma CountsAreStubs(steps: seq<Step>, p: nat)
    requires Runs(Fresh(), steps)
    ensures
      var s := After(Fresh(), steps);
      && (p in s.table.objects <==> Edges(s.heaps)[p] > 0)
      && (p in s.table.objects ==> s.table.objects[p].refcount == Edges(s.heaps)[p])
  {
    var s := After(Fresh(), steps);
    assert ObjectOk(s.table, Edges(s.heaps), s.born, p);
  }

  /**
   After every run: the resources ever born at an address are those finalised
   there, those claimed there, and the unclaimed one that still lives there.
   */
  lemma FinalisedExactlyOnce(steps: seq<Step>, p: nat)
    requires Runs(Fresh(), steps)
    ensures
      var s := After(Fresh(), steps);
      multiset(s.table.finalised)[p] + multiset(s.table.claims)[p] + Unclaimed(s.table, p) == s.born[p]
  {
    var s := After(Fresh(), steps);
    assert ObjectOk(s.table, Edges(s.heaps), s.born, p);
  }

  /** Once every heap is dropped nothing is left, and every resource ever born was claimed or finalised. */
  lemma NothingLeaks(steps: seq<Step>, p: nat)
    requires Runs(Fresh(), steps)
    requires forall h :: 0 <= h < |After(Fresh(), steps).heaps| ==> After(Fresh(), steps).heaps[h] == []
    ensures
      var s := After(Fresh(), steps);
      && s.table.objects == map[]
      && multiset(s.table.finalised)[p] + multiset(s.table.claims)[p] == s.born[p]
  {
    var s := After(Fresh(), steps);
    EmptyHeapsHoldNothing(s.heaps);
    forall q ensures q !in s.table.objects { assert ObjectOk(s.table, Edges(s.heaps), s.born, q); }
    FinalisedExactlyOnce(steps, p);
  }

  // ---------------------------------------------------------------- lifetimes

  /** The finalisers run and the claims granted so far stay on record. */
  ghost predicate Recorded(t: Table, after: Table) {
    t.finalised <= after.finalised && t.claims <= after.claims
  }

  lemma {:induction false} ReleasesRecorded(t: Table, ps: seq<nat>, edges: multiset<nat>, born: multiset<nat>)
    requires Balanced(t, edges + multiset(ps), born)
    ensures Recorded(t, ReleaseAll(t, ps, edges, born))
    decreases |ps|
  {
    if ps != [] {
      assert ps == [ps[0]] + ps[1..];
      ReleaseBalances(t, edges + multiset(ps), born, ps[0]);
      assert edges + multiset(ps) - multiset{ps[0]} == edges + multiset(ps[1..]);
      ReleasesRecorded(Release(t, ps[0]), ps[1..], edges, born);
    }
  }

  lemma StepRecorded(s: State, step: Step)
    requires Inv(s) && Allowed(s, step)
    ensures Recorded(s.table, Take(s, step).table)
  {
    match step
    case Sweep(heap, to) =>
      SweptEdges(s.heaps, heap, to);
      ReleasesRecorded(s.table, Dead(s.heaps[heap], to), Edges(s.heaps[heap := Swept(s.heaps[heap], to)]), s.born);
    case DropHeap(heap) =>
      SweptEdges(s.heaps, heap, map[]);
      NothingSurvives(s.heaps[heap]);
      ReleasesRecorded(s.table, Held(s.heaps[heap]), Edges(s.heaps[heap := []]), s.born);
    case _ =>
  }

  lemma {:induction false} RunRecorded(s: State, steps: seq<Step>)
    requires Runs(s, steps)
    ensures Recorded(s.table, After(s, steps).table)
    decreases |steps|
  {
    if steps != [] {
      StepRecorded(s, steps[0]);
      RunRecorded(Take(s, steps[0]), steps[1..]);
    }
  }

  function Count(log: seq<nat>, p: nat): nat { multiset(log)[p] }

  lemma CountGrows(log: seq<nat>, longer: seq<nat>, p: nat)
    requires log <= longer
    ensures Count(longer, p) == Count(log, p) + Count(longer[|log|..], p)
  {
    assert longer == log + longer[|log|..];
  }

  /**
   One life, one fate. Take any state with no object at `p`, and any run from it
   in which exactly one resource is born at `p`: by its end that resource has
   been finalised once, or claimed once, or still lives unclaimed, and only one
   of the three, however often the address was used before.
   */
  lemma OneFatePerLife(s: State, steps: seq<Step>, p: nat)
    requires Runs(s, steps) && p !in s.table.objects && After(s, steps).born[p] == s.born[p] + 1
    ensures
      var t := After(s, steps).table;
      && Recorded(s.table, t)
      && Count(t.finalised[|s.table.finalised|..], p) + Count(t.claims[|s.table.claims|..], p) + Unclaimed(t, p) == 1
  {
    var z := After(s, steps);
    RunRecorded(s, steps);
    CountGrows(s.table.finalised, z.table.finalised, p);
    CountGrows(s.table.claims, z.table.claims, p);
    assert ObjectOk(s.table, Edges(s.heaps), s.born, p);
    assert ObjectOk(z.table, Edges(z.heaps), z.born, p);
  }

  lemma {:induction false} EmptyHeapsHoldNothing(heaps: seq<seq<Stub>>)
    requires forall h :: 0 <= h < |heaps| ==> heaps[h] == []
    ensures Edges(heaps) == multiset{}
  {
    if heaps != [] {
      EmptyHeapsHoldNothing(heaps[..|heaps| - 1]);
      assert Held(heaps[|heaps| - 1]) == [];
    }
  }
}
