/**
 Siblings that target nothing at all, and still lose an entry in one pass: the
 clauses published with one of them are not reached from its root.
 */
module GraphClauses {
  import opened Options
  import opened Collecting
  import opened GraphSharing
  import opened GraphPass
  import opened GraphRun
  import opened GraphSafety
  import opened GraphIsolation

  /** No continuations, no control targets, and the same facts everywhere. */
  ghost predicate Still(p: Program) {
    && Recorded(p) && Published(p)
    && forall b :: b in p.bodies ==> !b.origin.Continuation? && b.targets == [] && b.facts == 0
  }

  lemma {:induction false} WalkStandsStill(p: Program, owned: set<nat>, w: Walk)
    requires forall f :: TargetsOf(p, f) == []
    ensures BreadthFirst(p, owned, w) == w.(frontier := [])
    decreases |w.frontier|
  {
    if w.frontier != [] {
      WalkStandsStill(p, owned, w.(frontier := w.frontier[1..]));
    }
  }

  /** A still entry's graph is its root and its clauses. */
  lemma StillGraph(p: Program, e: Entry)
    requires Still(p)
    ensures OwnedGraph(p, e) == Graph(ClauseRoles(ClauseBodies(p, e.key))[RootRole() := e.fnId], true)
  {
    CloseIsLeast(p, Roots(p, e), Roots(p, e));
    WalkStandsStill(p, Owned(p, e), InitialWalk(p, e));
  }

  lemma BodyIsThere(p: Program, e: Entry, role: Role)
    requires Still(p) && e in p.entries && role in ClauseRoles(ClauseBodies(p, e.key))[RootRole() := e.fnId]
    ensures
      var b := BodyOf(p.bodies, ClauseRoles(ClauseBodies(p, e.key))[RootRole() := e.fnId][role]);
      b.Some? && b.value.targets == [] && b.value.facts == 0
  {
    if role != RootRole() {
      var b := ClauseOf(p, e.key, role.clause.value);
      BodyIsUnique(p, b);
    }
  }

  lemma SameRoles(clauses: map<nat, nat>, others: map<nat, nat>, a: nat, b: nat)
    ensures ClauseRoles(clauses)[RootRole() := a].Keys == ClauseRoles(others)[RootRole() := b].Keys <==>
      clauses.Keys == others.Keys
  {
    var left, right := ClauseRoles(clauses)[RootRole() := a], ClauseRoles(others)[RootRole() := b];
    forall i: nat ensures i in clauses <==> Role(Some(i), []) in left {}
    forall i: nat ensures i in others <==> Role(Some(i), []) in right {}
    forall role ensures role in left <==>
      role == RootRole() || (role.path == [] && role.clause.Some? && role.clause.value in clauses) {}
    forall role ensures role in right <==>
      role == RootRole() || (role.path == [] && role.clause.Some? && role.clause.value in others) {}
  }

  /** Still entries compare equal exactly when they have the same clause indices. */
  lemma StillComparison(p: Program, e: Entry, d: Entry)
    requires Still(p) && e in p.entries && d in p.entries
    ensures EqualGraphs(p, e, d) <==> ClauseBodies(p, e.key).Keys == ClauseBodies(p, d.key).Keys
  {
    StillGraph(p, e);
    StillGraph(p, d);
    SameRoles(ClauseBodies(p, e.key), ClauseBodies(p, d.key), e.fnId, d.fnId);
    var left, right := OwnedGraph(p, e), OwnedGraph(p, d);
    if left.bodies.Keys == right.bodies.Keys {
      forall role | role in right.bodies
        ensures BodiesAgree(p, RightToLeft(left, right), left.bodies[role], right.bodies[role])
      {
        BodyIsThere(p, e, role);
        BodyIsThere(p, d, role);
      }
    }
  }

  function SiblingBody(i: nat): Body {
    Body(i, if i < 3 then Executable(i) else Clause(2 * i - 6, 0), 0, [])
  }

  /** Four entries, the first and last at one body; the first and third publish a clause each. */
  function Siblings(): (p: Program)
    ensures |p.entries| == 4 && forall i :: 0 <= i < 4 ==> p.entries[i] == Entry(i, i % 3)
    ensures |p.bodies| == 5 && forall i :: 0 <= i < 5 ==> p.bodies[i] == SiblingBody(i)
  {
    Program(0, seq(4, i requires 0 <= i => Entry(i, i % 3)), [], seq(5, i requires 0 <= i => SiblingBody(i)))
  }

  lemma SiblingsAreStill(p: Program)
    requires p == Siblings()
    ensures Still(p)
  {
    assert Recorded(p);
    forall e | e in p.entries
      ensures BodyOf(p.bodies, e.fnId).Some? && BodyOf(p.bodies, e.fnId).value.origin.Executable?
    {
      BodyIsUnique(p, p.bodies[e.fnId]);
    }
  }

  lemma SiblingClauses(p: Program, key: nat)
    requires p == Siblings() && Recorded(p)
    ensures ClauseBodies(p, key).Keys == if key == 0 || key == 2 then {0} else {}
  {
    assert p.bodies[3] in p.bodies && p.bodies[4] in p.bodies;
  }

  lemma PairIs(p: Program, m: Market, a: nat, b: nat)
    requires Recorded(p) && Describes(m, p) && a < |p.entries| && b < |p.entries|
    ensures (a, b) in m.pairs <==> EqualGraphs(p, p.entries[a], p.entries[b])
  {
    assert PairRight(p, m, a, b);
  }

  lemma SiblingsCompare(p: Program, e: Entry, d: Entry)
    requires p == Siblings() && Still(p) && e in p.entries && d in p.entries && e.key < 4 && d.key < 4
    ensures EqualGraphs(p, e, d) <==> e.key % 2 == d.key % 2
  {
    StillComparison(p, e, d);
    SiblingClauses(p, e.key);
    SiblingClauses(p, d.key);
    SameClauses(ClauseBodies(p, e.key).Keys, ClauseBodies(p, d.key).Keys, e.key, d.key);
  }

  lemma SameClauses(s: set<nat>, t: set<nat>, a: nat, b: nat)
    requires a < 4 && b < 4
    requires s == (if a == 0 || a == 2 then {0} else {}) && t == (if b == 0 || b == 2 then {0} else {})
    ensures s == t <==> a % 2 == b % 2
  {
    assert (0 in s <==> a % 2 == 0) && (0 in t <==> b % 2 == 0);
  }

  lemma SiblingPairs(p: Program, m: Market, a: nat, b: nat)
    requires p == Siblings() && Still(p) && Describes(m, p) && a < 4 && b < 4
    ensures RootOf(m, a) == a % 3
    ensures (a, b) in m.pairs <==> a % 2 == b % 2
  {
    EntryRoots(p, m, a);
    PairIs(p, m, a, b);
    SiblingsCompare(p, p.entries[a], p.entries[b]);
  }

  lemma SiblingsGiveAway(p: Program, m: Market, group: seq<nat>)
    requires p == Siblings() && Still(p) && Describes(m, p) && group == [0, 1, 2, 3]
    ensures GivesAwayALeader(m, [group])
  {
    SiblingPairs(p, m, 0, 1);
    SiblingPairs(p, m, 0, 2);
    SiblingPairs(p, m, 1, 3);
    SiblingPairs(p, m, 2, 3);
    SiblingPairs(p, m, 3, 3);
    LeaderGivenAway(m, group);
  }

  lemma LeaderGivenAway(m: Market, group: seq<nat>)
    requires group == [0, 1, 2, 3]
    requires RootOf(m, 0) == 0 && RootOf(m, 1) == 1 && RootOf(m, 2) == 2 && RootOf(m, 3) == 0
    requires (0, 2) in m.pairs && (1, 3) in m.pairs && (0, 1) !in m.pairs
    ensures GivesAwayALeader(m, [group])
  {
    var groups := [group];
    assert OfferedAt(m, group, 0, 2, 2) && OffersRoot(m, group, 0, 2);
    assert !Taken(m, groups, 0, 0, 2);
    assert Gains(m, groups, 0, 0) && GainsAs(m, groups, 0, 0, 0);
    assert Earlier(groups, 0, 0, 1, 0) && Earlier(groups, 0, 1, 1, 0);
    assert !OffersRoot(m, group, 0, 1);
    assert Leads(m, groups, 0, 1);
    assert OfferedAt(m, group, 1, 3, 0) && OffersRoot(m, group, 1, 0);
    assert Takes(m, groups, 0, 1, 0);
    assert GainedBefore(m, groups, 1, 0, 0) && Taken(m, groups, 1, 0, 0);
  }

  lemma StillIsCrossFree(p: Program, roots: set<nat>)
    requires Still(p)
    ensures CrossFree(p, roots)
  {}

  lemma GivenAwayLoses(p: Program, groups: seq<seq<nat>>)
    requires Recorded(p) && Published(p) && ValidGroups(p, groups) && GivesAwayALeader(MarketOf(p), groups)
    ensures !KeepsMeaning(p, PassOf(p, groups).replacements)
  {
    PassIsSafeExactly(p, groups);
  }

  lemma OneGroup(p: Program, group: seq<nat>)
    requires ValidGroup(p, group)
    ensures ValidGroups(p, [group]) && Disjoint(Families(p, [group]))
  {}

  lemma SiblingsLose(p: Program, group: seq<nat>)
    requires p == Siblings() && Still(p) && group == [0, 1, 2, 3] && ValidGroups(p, [group])
    ensures !KeepsMeaning(p, PassOf(p, [group]).replacements)
  {
    MarketDescribes(p);
    SiblingsGiveAway(p, MarketOf(p), group);
    GivenAwayLoses(p, [group]);
  }

  /** Freedom from cross targets alone does not keep a pass safe. */
  lemma CrossFreeIsNotEnough(p: Program, group: seq<nat>)
    requires p == Siblings() && group == [0, 1, 2, 3]
    ensures Recorded(p) && Published(p) && ValidGroups(p, [group]) && Disjoint(Families(p, [group]))
    ensures CrossFree(p, RootsOfGroup(p, group))
    ensures !KeepsMeaning(p, PassOf(p, [group]).replacements)
  {
    SiblingsAreStill(p);
    OneGroup(p, group);
    StillIsCrossFree(p, RootsOfGroup(p, group));
    SiblingsLose(p, group);
  }
}
