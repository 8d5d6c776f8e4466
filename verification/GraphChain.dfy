/** A run that starts from four separately published siblings and loses one of them in its second pass. */
module GraphChain {
  import opened Options
  import opened GraphSharing
  import opened GraphPass
  import opened GraphRun

  /** No clauses and no continuations: every entry owns its root alone. */
  ghost predicate Flat(p: Program) {
    Recorded(p) && Published(p) && forall b :: b in p.bodies ==> b.origin.Executable?
  }

  lemma {:induction false} VisitNothing(role: Role, targets: seq<nat>, i: nat, owned: set<nat>, w: Walk)
    requires i <= |targets| && owned <= w.reached
    ensures Visit(role, targets, i, owned, w) == w
    decreases |targets| - i
  {
    if i < |targets| {
      VisitNothing(role, targets, i + 1, owned, w);
    }
  }

  lemma FlatOwned(p: Program, e: Entry)
    requires Flat(p)
    ensures ClauseBodies(p, e.key) == map[] && Owned(p, e) == {e.fnId}
  {
    assert ClauseBodies(p, e.key) == map[];
    assert Roots(p, e) == {e.fnId};
    assert ContinuationsOf(p, e.fnId) == {};
    CloseIsLeast(p, {e.fnId}, {e.fnId});
  }

  lemma FlatWalk(p: Program, e: Entry)
    requires Recorded(p) && ClauseBodies(p, e.key) == map[]
    ensures InitialWalk(p, e) == Walk([(RootRole(), e.fnId)], map[RootRole() := e.fnId], {e.fnId})
  {
    assert ClauseItems(map[]) == [];
    assert ClauseRoles(map[]) == map[];
  }

  lemma FlatBreadthFirst(p: Program, f: nat)
    ensures BreadthFirst(p, {f}, Walk([(RootRole(), f)], map[RootRole() := f], {f})) ==
      Walk([], map[RootRole() := f], {f})
  {
    var w := Walk([(RootRole(), f)], map[RootRole() := f], {f});
    var rest := w.(frontier := w.frontier[1..]);
    assert rest.frontier == [];
    VisitNothing(RootRole(), TargetsOf(p, f), 0, {f}, rest);
    assert BreadthFirst(p, {f}, rest) == rest;
  }

  lemma FlatGraph(p: Program, e: Entry)
    requires Flat(p)
    ensures OwnedGraph(p, e) == Graph(map[RootRole() := e.fnId], true)
  {
    FlatOwned(p, e);
    FlatWalk(p, e);
    FlatBreadthFirst(p, e.fnId);
  }

  lemma FlatMapping(p: Program, a: nat, b: nat)
    ensures Mapping(p, Graph(map[RootRole() := a], true), Graph(map[RootRole() := b], true)) ==
      if BodiesAgree(p, map[b := a], a, b) then Some(map[b := a]) else None
  {
    var left, right := Graph(map[RootRole() := a], true), Graph(map[RootRole() := b], true);
    assert right.bodies[RootRole()] == b && left.bodies[RootRole()] == a;
    assert Pairs(left, right, map[b := a]);
    PairingIsUnique(left, right, RightToLeft(left, right), map[b := a]);
    assert AllAgree(p, left, right, map[b := a]) <==> BodiesAgree(p, map[b := a], a, b);
  }

  ghost function FlatStep(p: Program, a: nat, b: nat, s: Merges): Merges {
    if b == a || b in s.replacements || !BodiesAgree(p, map[b := a], a, b) then s
    else Merges(s.replacements + map[b := a], s.log + [(a, b)])
  }

  /** In a flat program one merge renames one root. */
  lemma FlatMerge(p: Program, e: Entry, d: Entry, s: Merges)
    requires Flat(p)
    ensures MergeOne(p, e, d, s) == FlatStep(p, e.fnId, d.fnId, s)
  {
    FlatGraph(p, e);
    FlatGraph(p, d);
    FlatMapping(p, e.fnId, d.fnId);
  }

  ghost function FlatRights(p: Program, roots: seq<nat>, left: nat, j: nat, s: Merges): Merges
    requires j <= |roots|
    decreases |roots| - j
  {
    if j == |roots| then s else FlatRights(p, roots, left, j + 1, FlatStep(p, left, roots[j], s))
  }

  ghost function FlatLefts(p: Program, roots: seq<nat>, o: nat, compared: set<nat>, s: Merges): Merges
    requires o <= |roots|
    decreases |roots| - o
  {
    if o == |roots| then s
    else if roots[o] in s.replacements || roots[o] in compared then FlatLefts(p, roots, o + 1, compared, s)
    else FlatLefts(p, roots, o + 1, compared + {roots[o]}, FlatRights(p, roots, roots[o], o + 1, s))
  }

  ghost predicate Lists(p: Program, group: seq<nat>, roots: seq<nat>) {
    && ValidGroup(p, group) && |roots| == |group|
    && forall i :: 0 <= i < |group| ==> roots[i] == p.entries[group[i]].fnId
  }

  lemma {:induction false} FlatRightsMerge(p: Program, group: seq<nat>, roots: seq<nat>, left: nat, j: nat, s: Merges)
    requires Flat(p) && Lists(p, group, roots) && left < |p.entries| && j <= |group|
    ensures MergeRights(p, group, left, j, s) == FlatRights(p, roots, p.entries[left].fnId, j, s)
    decreases |group| - j
  {
    if j < |group| {
      FlatMerge(p, p.entries[left], p.entries[group[j]], s);
      FlatRightsMerge(p, group, roots, left, j + 1, FlatStep(p, p.entries[left].fnId, roots[j], s));
    }
  }

  lemma {:induction false} FlatLeftsMerge(
      p: Program, group: seq<nat>, roots: seq<nat>, o: nat, compared: set<nat>, s: Merges)
    requires Flat(p) && Lists(p, group, roots) && o <= |group|
    ensures MergeLefts(p, group, o, compared, s) == FlatLefts(p, roots, o, compared, s)
    decreases |group| - o
  {
    if o < |group| {
      if roots[o] in s.replacements || roots[o] in compared {
        FlatLeftsMerge(p, group, roots, o + 1, compared, s);
      } else {
        FlatRightsMerge(p, group, roots, group[o], o + 1, s);
        FlatLeftsMerge(p, group, roots, o + 1, compared + {roots[o]}, FlatRights(p, roots, roots[o], o + 1, s));
      }
    }
  }

  lemma FlatPass(p: Program, group: seq<nat>, roots: seq<nat>)
    requires Flat(p) && Lists(p, group, roots) && ValidGroups(p, [group])
    ensures PassOf(p, [group]) == FlatLefts(p, roots, 0, {}, Merges(map[], []))
  {
    var s := Merges(map[], []);
    FlatLeftsMerge(p, group, roots, 0, {}, s);
    assert MergeGroups(p, [group], 1, MergeLefts(p, group, 0, {}, s)) == MergeLefts(p, group, 0, {}, s);
  }

  function At(f: nat, targets: seq<nat>): Body {
    Body(f, Executable(f), 0, targets)
  }

  /** Entry `i` published at the body `roots[i]`, and body `i` targeting `targets[i]`. */
  function Siblings(roots: seq<nat>, targets: seq<seq<nat>>): (p: Program)
    ensures |p.entries| == |roots| && forall i :: 0 <= i < |roots| ==> p.entries[i] == Entry(i, roots[i])
    ensures |p.bodies| == |targets| && forall i :: 0 <= i < |targets| ==> p.bodies[i] == At(i, targets[i])
  {
    Program(0, seq(|roots|, i requires 0 <= i < |roots| => Entry(i, roots[i])), [],
            seq(|targets|, i requires 0 <= i < |targets| => At(i, targets[i])))
  }

  /** Four siblings of one function, alike but for whom they call. */
  function Start(): Program { Siblings([0, 1, 2, 3], [[2, 0], [2, 3], [2, 2], [2, 3]]) }

  /** The first pass makes 3 into 0, so 1 now calls 0 as well. */
  function Middle(): Program { Siblings([0, 1, 2, 0], [[2, 0], [2, 0], [2, 2]]) }

  function Group(): seq<nat> {
    [0, 1, 2, 3]
  }

  lemma SiblingsAreFlat(p: Program, roots: seq<nat>, targets: seq<seq<nat>>, group: seq<nat>)
    requires p == Siblings(roots, targets) && |group| == |roots|
    requires forall i :: 0 <= i < |roots| ==> roots[i] < |targets| && group[i] == i
    ensures Flat(p) && Lists(p, group, roots)
  {
    forall e | e in p.entries ensures BodyOf(p.bodies, e.fnId).Some? {
      assert p.bodies[e.fnId] in p.bodies;
    }
  }

  /** Whether two bodies agree under the renaming of one root, by their targets alone. */
  lemma AgreeAt(p: Program, l: Body, r: Body)
    requires Recorded(p) && l in p.bodies && r in p.bodies && l == At(l.fnId, l.targets) && r == At(r.fnId, r.targets)
    requires |l.targets| == 2 && |r.targets| == 2
    ensures BodiesAgree(p, map[r.fnId := l.fnId], l.fnId, r.fnId) <==>
      && l.targets[0] == (if r.targets[0] == r.fnId then l.fnId else r.targets[0])
      && l.targets[1] == (if r.targets[1] == r.fnId then l.fnId else r.targets[1])
  {
    BodyIsUnique(p, l);
    BodyIsUnique(p, r);
  }

  lemma StartSteps(p: Program)
    requires p == Start() && Recorded(p)
    ensures !BodiesAgree(p, map[1 := 0], 0, 1) && !BodiesAgree(p, map[2 := 0], 0, 2)
    ensures BodiesAgree(p, map[3 := 0], 0, 3)
    ensures !BodiesAgree(p, map[2 := 1], 1, 2)
  {
    var bodies := p.bodies;
    AgreeAt(p, bodies[0], bodies[1]);
    AgreeAt(p, bodies[0], bodies[2]);
    AgreeAt(p, bodies[0], bodies[3]);
    AgreeAt(p, bodies[1], bodies[2]);
  }

  lemma MiddleSteps(p: Program)
    requires p == Middle() && Recorded(p)
    ensures BodiesAgree(p, map[1 := 0], 0, 1) && !BodiesAgree(p, map[2 := 0], 0, 2) && BodiesAgree(p, map[0 := 2], 2, 0)
  {
    var bodies := p.bodies;
    AgreeAt(p, bodies[0], bodies[1]);
    AgreeAt(p, bodies[0], bodies[2]);
    AgreeAt(p, bodies[2], bodies[0]);
  }

  lemma FirstLeft(p: Program, roots: seq<nat>, s: Merges, t: Merges)
    requires roots == [0, 1, 2, 3] && s == Merges(map[], []) && t == Merges(map[3 := 0], [(0, 3)])
    requires !BodiesAgree(p, map[1 := 0], 0, 1) && !BodiesAgree(p, map[2 := 0], 0, 2)
    requires BodiesAgree(p, map[3 := 0], 0, 3)
    ensures FlatRights(p, roots, 0, 1, s) == t
  {
    assert FlatStep(p, 0, 3, s) == t;
    assert FlatRights(p, roots, 0, 3, s) == t;
    assert FlatRights(p, roots, 0, 2, s) == t;
  }

  lemma OtherLefts(p: Program, roots: seq<nat>, t: Merges)
    requires roots == [0, 1, 2, 3] && t == Merges(map[3 := 0], [(0, 3)]) && !BodiesAgree(p, map[2 := 1], 1, 2)
    ensures FlatRights(p, roots, 1, 2, t) == t && FlatRights(p, roots, 2, 3, t) == t
  {
    assert FlatRights(p, roots, 1, 3, t) == t;
  }

  lemma FirstPass(p: Program, roots: seq<nat>, s: Merges, t: Merges)
    requires roots == [0, 1, 2, 3] && t == Merges(map[3 := 0], [(0, 3)]) && s.replacements == map[]
    requires FlatRights(p, roots, 0, 1, s) == t && FlatRights(p, roots, 1, 2, t) == t
    requires FlatRights(p, roots, 2, 3, t) == t
    ensures FlatLefts(p, roots, 0, {}, s) == t
  {
    var one: set<nat> := {} + {0};
    assert FlatLefts(p, roots, 3, one + {1} + {2}, t) == t;
    assert FlatLefts(p, roots, 2, one + {1}, t) == t;
    assert FlatLefts(p, roots, 1, one, t) == t;
  }

  lemma SecondLeft(p: Program, roots: seq<nat>, s: Merges, t: Merges)
    requires roots == [0, 1, 2, 0] && s == Merges(map[], []) && t == Merges(map[1 := 0], [(0, 1)])
    requires BodiesAgree(p, map[1 := 0], 0, 1) && !BodiesAgree(p, map[2 := 0], 0, 2)
    ensures FlatRights(p, roots, 0, 1, s) == t
  {
    assert FlatRights(p, roots, 0, 3, t) == t;
    assert FlatRights(p, roots, 0, 2, t) == t;
    assert FlatStep(p, 0, 1, s) == t;
  }

  lemma LastLeft(p: Program, roots: seq<nat>, t: Merges, u: Merges)
    requires roots == [0, 1, 2, 0] && t == Merges(map[1 := 0], [(0, 1)]) && BodiesAgree(p, map[0 := 2], 2, 0)
    requires u == Merges(map[1 := 0, 0 := 2], [(0, 1), (2, 0)])
    ensures FlatRights(p, roots, 2, 3, t) == u
  {
    assert map[1 := 0] + map[0 := 2] == map[1 := 0, 0 := 2];
    assert FlatStep(p, 2, 0, t) == u;
  }

  lemma SecondPass(p: Program, roots: seq<nat>, s: Merges, t: Merges, u: Merges)
    requires roots == [0, 1, 2, 0] && s.replacements == map[] && t.replacements == map[1 := 0]
    requires u.replacements == map[1 := 0, 0 := 2]
    requires FlatRights(p, roots, 0, 1, s) == t && FlatRights(p, roots, 2, 3, t) == u
    ensures FlatLefts(p, roots, 0, {}, s) == u
  {
    var one: set<nat> := {} + {0};
    assert FlatLefts(p, roots, 3, one + {2}, u) == u;
    assert FlatLefts(p, roots, 2, one, t) == u;
    assert FlatLefts(p, roots, 1, one, t) == u;
  }

  lemma RetainedStep(r: map<nat, nat>, bodies: seq<Body>, i: nat, b: Body)
    requires i < |bodies| && bodies[i].fnId !in r && b == RemapBody(r, bodies[i])
    ensures Retained(r, bodies[i..]) == [b] + Retained(r, bodies[i + 1..])
  {
    assert bodies[i..][1..] == bodies[i + 1..];
  }

  lemma AppliedBodies(r: map<nat, nat>, bodies: seq<Body>)
    requires r == map[3 := 0] && bodies == Start().bodies
    ensures Retained(r, bodies[0..]) == [At(0, [2, 0]), At(1, [2, 0]), At(2, [2, 2])]
  {
    assert RemapAll(r, [2, 0]) == [2, 0] && RemapAll(r, [2, 3]) == [2, 0] && RemapAll(r, [2, 2]) == [2, 2];
    assert Retained(r, bodies[3..]) == [] by { assert bodies[3..][1..] == []; }
    RetainedStep(r, bodies, 2, At(2, [2, 2]));
    RetainedStep(r, bodies, 1, At(1, [2, 0]));
    RetainedStep(r, bodies, 0, At(0, [2, 0]));
  }

  lemma AppliedFirstPass(p: Program, r: map<nat, nat>)
    requires p == Start() && r == map[3 := 0]
    ensures Applied(p, r) == Middle()
  {
    var bodies := p.bodies;
    AppliedBodies(r, bodies);
    assert bodies == bodies[0..];
    assert Retained(r, bodies) == Middle().bodies;
    assert RemapEntries(r, p.entries) == Middle().entries;
  }

  lemma RunContinues(p: Program, groups: seq<seq<nat>>, r: map<nat, nat>, q: Program)
    requires Recorded(p) && Published(p) && ValidGroups(p, groups)
    requires r == PassOf(p, groups).replacements && r != map[] && ChainFree(r) && q == Applied(p, r)
    ensures Recorded(q) && Published(q) && ValidGroups(q, groups) && RunOf(p, groups) == RunOf(q, groups)
  {
    IndexedPublished(p);
    PassKeepsPublished(p, groups);
  }

  lemma RunBreaks(p: Program, groups: seq<seq<nat>>, r: map<nat, nat>)
    requires Recorded(p) && Published(p) && ValidGroups(p, groups)
    requires r == PassOf(p, groups).replacements && !ChainFree(r)
    ensures !RunOf(p, groups).intact
  {}

  /** Two passes, the second of which chains: the run is not intact and some entry has lost its meaning. */
  lemma TwoPassesLose(p: Program, q: Program, groups: seq<seq<nat>>, r: map<nat, nat>, s: map<nat, nat>)
    requires Recorded(p) && Published(p) && Recorded(q) && Published(q) && ValidGroups(p, groups)
    requires ValidGroups(q, groups)
    requires r == PassOf(p, groups).replacements && r != map[] && ChainFree(r) && q == Applied(p, r)
    requires s == PassOf(q, groups).replacements && !ChainFree(s)
    ensures !RunOf(p, groups).intact && !PublishedKept(p, RunOf(p, groups).program)
  {
    RunContinues(p, groups, r, q);
    RunBreaks(q, groups, s);
    SharingKeepsMeaningExactly(p, groups);
  }

  lemma PassIs(p: Program, group: seq<nat>, roots: seq<nat>, s: Merges)
    requires Flat(p) && Lists(p, group, roots) && FlatLefts(p, roots, 0, {}, Merges(map[], [])) == s
    ensures ValidGroups(p, [group]) && PassOf(p, [group]) == s
  {
    FlatPass(p, group, roots);
  }

  lemma StartMerges(p: Program, roots: seq<nat>, none: Merges, s: Merges)
    requires p == Start() && Recorded(p) && roots == [0, 1, 2, 3]
    requires none == Merges(map[], []) && s == Merges(map[3 := 0], [(0, 3)])
    ensures FlatLefts(p, roots, 0, {}, none) == s
  {
    StartSteps(p);
    FirstLeft(p, roots, none, s);
    OtherLefts(p, roots, s);
    FirstPass(p, roots, none, s);
  }

  lemma StartIsFlat(p: Program, group: seq<nat>, roots: seq<nat>)
    requires p == Start() && group == Group() && roots == [0, 1, 2, 3]
    ensures Flat(p) && Lists(p, group, roots)
  {
    SiblingsAreFlat(p, roots, [[2, 0], [2, 3], [2, 2], [2, 3]], group);
  }

  lemma StartPass(p: Program, group: seq<nat>, s: Merges)
    requires p == Start() && group == Group() && s == Merges(map[3 := 0], [(0, 3)])
    ensures Flat(p) && ValidGroups(p, [group]) && PassOf(p, [group]) == s
  {
    var roots := [0, 1, 2, 3];
    StartIsFlat(p, group, roots);
    StartMerges(p, roots, Merges(map[], []), s);
    PassIs(p, group, roots, s);
  }

  lemma MiddleMerges(p: Program, roots: seq<nat>, none: Merges, s: Merges)
    requires p == Middle() && Recorded(p) && roots == [0, 1, 2, 0]
    requires none == Merges(map[], []) && s == Merges(map[1 := 0, 0 := 2], [(0, 1), (2, 0)])
    ensures FlatLefts(p, roots, 0, {}, none) == s
  {
    var once := Merges(map[1 := 0], [(0, 1)]);
    MiddleSteps(p);
    SecondLeft(p, roots, none, once);
    LastLeft(p, roots, once, s);
    SecondPass(p, roots, none, once, s);
  }

  lemma MiddleIsFlat(p: Program, group: seq<nat>, roots: seq<nat>)
    requires p == Middle() && group == Group() && roots == [0, 1, 2, 0]
    ensures Flat(p) && Lists(p, group, roots)
  {
    SiblingsAreFlat(p, roots, [[2, 0], [2, 0], [2, 2]], group);
  }

  lemma MiddlePass(p: Program, group: seq<nat>, s: Merges)
    requires p == Middle() && group == Group() && s == Merges(map[1 := 0, 0 := 2], [(0, 1), (2, 0)])
    ensures Flat(p) && ValidGroups(p, [group]) && PassOf(p, [group]) == s
  {
    var roots := [0, 1, 2, 0];
    MiddleIsFlat(p, group, roots);
    MiddleMerges(p, roots, Merges(map[], []), s);
    PassIs(p, group, roots, s);
  }

  lemma StartIsDistinct(p: Program)
    requires p == Start()
    ensures forall i, j :: 0 <= i < j < |p.entries| ==> p.entries[i].fnId != p.entries[j].fnId
  {}

  lemma ChainsHere(r: map<nat, nat>, s: map<nat, nat>)
    requires r == map[3 := 0] && s == map[1 := 0, 0 := 2]
    ensures r != map[] && ChainFree(r) && !ChainFree(s)
  {
    assert 3 in r;
    assert 1 in s && s[1] in s;
  }

  /**
   Sharing can lose an entry. Four siblings start with four bodies of their own;
   the second pass merges 1 into 0 and then 0 into 2, and drops the body that the
   entry of 1 was just pointed at.
   */
  lemma SharingCanLoseAnEntry(p: Program, q: Program, group: seq<nat>)
    requires p == Start() && q == Middle() && group == Group()
    ensures Recorded(p) && Published(p) && ValidGroups(p, [group])
    ensures forall i, j :: 0 <= i < j < |p.entries| ==> p.entries[i].fnId != p.entries[j].fnId
    ensures !RunOf(p, [group]).intact && !PublishedKept(p, RunOf(p, [group]).program)
  {
    var s, t := Merges(map[3 := 0], [(0, 3)]), Merges(map[1 := 0, 0 := 2], [(0, 1), (2, 0)]);
    StartIsDistinct(p);
    StartPass(p, group, s);
    MiddlePass(q, group, t);
    AppliedFirstPass(p, s.replacements);
    ChainsHere(s.replacements, t.replacements);
    TwoPassesLose(p, q, [group], s.replacements, t.replacements);
  }
}
