/**
 Where queued finalisers come from: over every run, each one is the closure and
 the payload its resource was made with.
 */
module FinaliserOrigins {
  import opened OffHeap
  import opened HeapChains

  /** What an object was made as. */
  datatype Birth = Birth(kind: Kind, closure: int, payload: int)

  function MadeAfter(made: map<nat, Birth>, step: Step): map<nat, Birth> {
    match step
    case Make(_, stub, payload) => made[stub.shared := Birth(stub.kind, stub.closure, payload)]
    case _ => made
  }

  /** The latest birth at each address. */
  function MadeBy(made: map<nat, Birth>, steps: seq<Step>): map<nat, Birth>
    decreases |steps|
  {
    if steps == [] then made else MadeBy(MadeAfter(made, steps[0]), steps[1..])
  }

  ghost predicate LabelledStub(stub: Stub, made: map<nat, Birth>) {
    stub.shared in made && made[stub.shared].kind == stub.kind && made[stub.shared].closure == stub.closure
  }

  ghost predicate LabelledChain(chain: seq<Stub>, made: map<nat, Birth>) {
    forall i :: 0 <= i < |chain| ==> LabelledStub(chain[i], made)
  }

  ghost predicate LabelledTable(t: Table, made: map<nat, Birth>) {
    forall p :: p in t.objects ==>
      p in made && made[p].kind == t.objects[p].kind && made[p].payload == t.objects[p].payload
  }

  /** Every stub is of the kind and closure its object was made with, and every live object has its payload. */
  ghost predicate Labelled(s: State, made: map<nat, Birth>) {
    (forall h :: 0 <= h < |s.heaps| ==> LabelledChain(s.heaps[h], made)) && LabelledTable(s.table, made)
  }

  lemma {:induction false} SweptLabelled(chain: seq<Stub>, to: map<nat, nat>, made: map<nat, Birth>)
    requires LabelledChain(chain, made)
    ensures LabelledChain(Swept(chain, to), made)
  {
    forall i | 0 <= i < |Swept(chain, to)| ensures LabelledStub(Swept(chain, to)[i], made) {
      SweptAreCopies(chain, to, i);
      var k :| 0 <= k < |chain| && chain[k].addr in to && Swept(chain, to)[i] == chain[k].(addr := to[chain[k].addr]);
      assert LabelledStub(chain[k], made);
    }
  }

  lemma {:induction false} ReleasedLabelled(
    t: Table, ps: seq<nat>, edges: multiset<nat>, born: multiset<nat>, made: map<nat, Birth>)
    requires Balanced(t, edges + multiset(ps), born) && LabelledTable(t, made)
    ensures LabelledTable(ReleaseAll(t, ps, edges, born), made)
    decreases |ps|
  {
    if ps != [] {
      assert ps == [ps[0]] + ps[1..];
      ReleaseBalances(t, edges + multiset(ps), born, ps[0]);
      assert edges + multiset(ps) - multiset{ps[0]} == edges + multiset(ps[1..]);
      ReleasedLabelled(Release(t, ps[0]), ps[1..], edges, born, made);
    }
  }

  lemma HeapReplaced(s: State, h: nat, chain: seq<Stub>, t: Table, born: multiset<nat>, made: map<nat, Birth>)
    requires Labelled(s, made) && h < |s.heaps| && LabelledChain(chain, made) && LabelledTable(t, made)
    ensures Labelled(State(s.heaps[h := chain], t, born), made)
  {}

  /** Making an object at a free address disturbs no stub: none holds that address. */
  lemma MakeLabelled(s: State, made: map<nat, Birth>, h: nat, stub: Stub, payload: int)
    requires Inv(s) && Labelled(s, made) && Allowed(s, Make(h, stub, payload))
    ensures Labelled(Take(s, Make(h, stub, payload)), MadeAfter(made, Make(h, stub, payload)))
  {
    var now := MadeAfter(made, Make(h, stub, payload));
    assert ObjectOk(s.table, Edges(s.heaps), s.born, stub.shared);
    forall k, i | 0 <= k < |s.heaps| && 0 <= i < |s.heaps[k]| ensures LabelledStub(s.heaps[k][i], now) {
      StubIsEdge(s.heaps, k, i);
      assert LabelledStub(s.heaps[k][i], made);
    }
    assert Labelled(s, now) by {
      forall k | 0 <= k < |s.heaps| ensures LabelledChain(s.heaps[k], now) {}
    }
    var chain := [stub] + s.heaps[h];
    forall i | 0 <= i < |chain| ensures LabelledStub(chain[i], now) {
      if i > 0 { assert chain[i] == s.heaps[h][i - 1]; }
    }
    HeapReplaced(s, h, chain, Allocate(s.table, stub.shared, stub.kind, payload),
                 Births(s.born, stub.shared, stub.kind), now);
  }

  lemma CopyLabelled(s: State, made: map<nat, Birth>, h: nat, stub: Stub)
    requires Inv(s) && Labelled(s, made) && Allowed(s, Copy(h, stub))
    ensures Labelled(Take(s, Copy(h, stub)), made)
  {
    var k, i :| 0 <= k < |s.heaps| && 0 <= i < |s.heaps[k]| && s.heaps[k][i] == stub.(addr := s.heaps[k][i].addr);
    assert LabelledChain(s.heaps[k], made) && LabelledStub(s.heaps[k][i], made);
    CarriedIsHeld(s.heaps, stub);
    HeldIsLive(s.table, Edges(s.heaps), s.born, stub.shared);
    var chain := [stub] + s.heaps[h];
    forall j | 0 <= j < |chain| ensures LabelledStub(chain[j], made) {
      if j > 0 { assert LabelledStub(s.heaps[h][j - 1], made); }
    }
    HeapReplaced(s, h, chain, Retain(s.table, stub.shared), s.born, made);
  }

  lemma SweepLabelled(s: State, made: map<nat, Birth>, h: nat, to: map<nat, nat>)
    requires Inv(s) && Labelled(s, made) && h < |s.heaps|
    ensures Labelled(Take(s, Sweep(h, to)), made)
  {
    var heaps := s.heaps[h := Swept(s.heaps[h], to)];
    SweptEdges(s.heaps, h, to);
    SweptLabelled(s.heaps[h], to, made);
    ReleasedLabelled(s.table, Dead(s.heaps[h], to), Edges(heaps), s.born, made);
    HeapReplaced(s, h, Swept(s.heaps[h], to), ReleaseAll(s.table, Dead(s.heaps[h], to), Edges(heaps), s.born),
                 s.born, made);
  }

  lemma DropLabelled(s: State, made: map<nat, Birth>, h: nat)
    requires Inv(s) && Labelled(s, made) && h < |s.heaps|
    ensures Labelled(Take(s, DropHeap(h)), made)
  {
    DroppedEdges(s, h);
    var edges := Edges(s.heaps[h := []]);
    ReleasedLabelled(s.table, Held(s.heaps[h]), edges, s.born, made);
    HeapReplaced(s, h, [], ReleaseAll(s.table, Held(s.heaps[h]), edges, s.born), s.born, made);
  }

  /** The references outstanding are those of the other heaps and those of the one dropped. */
  lemma DroppedEdges(s: State, h: nat)
    requires Inv(s) && h < |s.heaps|
    ensures Balanced(s.table, Edges(s.heaps[h := []]) + multiset(Held(s.heaps[h])), s.born)
  {
    SweptEdges(s.heaps, h, map[]);
    NothingSurvives(s.heaps[h]);
  }

  lemma StepLabelled(s: State, made: map<nat, Birth>, step: Step)
    requires Inv(s) && Labelled(s, made) && Allowed(s, step)
    ensures Labelled(Take(s, step), MadeAfter(made, step))
  {
    match step
    case NewHeap =>
    case Make(h, stub, payload) => MakeLabelled(s, made, h, stub, payload);
    case Copy(h, stub) => CopyLabelled(s, made, h, stub);
    case ClaimIt(p) =>
      HeldIsLive(s.table, Edges(s.heaps), s.born, p);
      assert LabelledTable(Claim(s.table, p).0, made);
    case Sweep(h, to) => SweepLabelled(s, made, h, to);
    case DropHeap(h) => DropLabelled(s, made, h);
  }

  lemma {:induction false} RunLabelled(s: State, made: map<nat, Birth>, steps: seq<Step>)
    requires Runs(s, steps) && Labelled(s, made)
    ensures Labelled(After(s, steps), MadeBy(made, steps))
    decreases |steps|
  {
    if steps != [] {
      StepLabelled(s, made, steps[0]);
      RunLabelled(Take(s, steps[0]), MadeAfter(made, steps[0]), steps[1..]);
    }
  }

  lemma {:induction false} DueLabelled(chain: seq<Stub>, t: Table, edges: multiset<nat>, made: map<nat, Birth>)
    requires LabelledChain(chain, made)
    ensures LabelledChain(Due(chain, t, edges), made)
    ensures forall i :: 0 <= i < |Due(chain, t, edges)| ==> Unclaimed(t, Due(chain, t, edges)[i].shared) == 1
  {
    if chain != [] {
      assert LabelledStub(chain[0], made);
      forall i | 0 <= i < |chain[1..]| ensures LabelledStub(chain[1..][i], made) {
        assert chain[1..][i] == chain[i + 1];
      }
      DueLabelled(chain[1..], t, edges, made);
    }
  }

  /**
   After every run, a deferred drop of a heap queues, for each last holder in
   chain order, the closure and the payload its resource was made with.
   */
  lemma FinalisersAreTheirMakers(steps: seq<Step>, h: nat, memory: Memory)
    requires Runs(Fresh(), steps) && h < |After(Fresh(), steps).heaps|
    requires Holding(memory, After(Fresh(), steps).heaps[h])
    ensures
      var s, made := After(Fresh(), steps), MadeBy(map[], steps);
      var chain, edges := s.heaps[h], Edges(s.heaps[h := []]);
      var due := Due(chain, s.table, edges);
      && Balanced(s.table, edges + multiset(Held(chain)), s.born)
      && var queue := Queued(memory, chain, s.table, edges, s.born);
      && |queue| == |due|
      && forall i :: 0 <= i < |due| ==>
        && due[i].shared in made && made[due[i].shared].kind == Resource
        && queue[i] == (made[due[i].shared].closure, made[due[i].shared].payload)
  {
    var s, made := After(Fresh(), steps), MadeBy(map[], steps);
    RunLabelled(Fresh(), map[], steps);
    DroppedEdges(s, h);
    QueueOfLabelled(memory, s.heaps[h], s.table, Edges(s.heaps[h := []]), s.born, made);
  }

  lemma QueueOfLabelled(
    memory: Memory, chain: seq<Stub>, t: Table, edges: multiset<nat>, born: multiset<nat>, made: map<nat, Birth>)
    requires Holding(memory, chain) && Balanced(t, edges + multiset(Held(chain)), born)
    requires LabelledChain(chain, made) && LabelledTable(t, made)
    ensures
      var due, queue := Due(chain, t, edges), Queued(memory, chain, t, edges, born);
      && |queue| == |due|
      && forall i :: 0 <= i < |due| ==>
        && due[i].shared in made && made[due[i].shared].kind == Resource
        && queue[i] == (made[due[i].shared].closure, made[due[i].shared].payload)
  {
    QueuedMatchesFinalised(memory, chain, t, edges, born);
    DueLabelled(chain, t, edges, made);
    var due, queue := Due(chain, t, edges), Queued(memory, chain, t, edges, born);
    forall i | 0 <= i < |due|
      ensures due[i].shared in made && made[due[i].shared].kind == Resource
      ensures queue[i] == (made[due[i].shared].closure, made[due[i].shared].payload)
    {
      assert LabelledStub(due[i], made);
    }
  }
}
