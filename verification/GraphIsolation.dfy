/**
 A condition on the starting program under which sharing to the fixpoint keeps
 every entry, for any number of siblings: no sibling's graph targets another's,
 and an entry with clauses reaches all it owns from its root.
 */
module GraphIsolation {
  import opened Collecting
  import opened GraphSharing
  import opened GraphPass
  import opened GraphRun
  import opened GraphSafety

  // ---------------------------------------------------------------- isolation

  ghost predicate CrossAt(p: Program, a: nat, b: nat, x: nat, y: nat)
    requires Recorded(p)
  {
    OwnedBy(p, a, x) && OwnedBy(p, b, y) && y in TargetsOf(p, x)
  }

  /** No body of one root targets a body of another. */
  ghost predicate CrossFree(p: Program, roots: set<nat>)
    requires Recorded(p)
  {
    forall a, b, x, y {:trigger CrossAt(p, a, b, x, y)} ::
      a in roots && b in roots && a != b ==> !CrossAt(p, a, b, x, y)
  }

  /** What `owned` bodies in `s` target inside `owned` is in `s` again. */
  ghost predicate TargetsWithin(p: Program, s: set<nat>, owned: set<nat>) {
    forall f, y :: f in s && f in owned && y in TargetsOf(p, f) && y in owned ==> y in s
  }

  /** Control reaches every owned body from the entry's root. */
  ghost predicate Rooted(p: Program, e: Entry)
    requires Recorded(p)
  {
    forall s {:trigger TargetsWithin(p, s, Owned(p, e))} ::
      e.fnId in s && TargetsWithin(p, s, Owned(p, e)) ==> Owned(p, e) <= s
  }

  ghost predicate ClausesReached(p: Program, e: Entry)
    requires Recorded(p)
  {
    ClauseBodies(p, e.key) != map[] ==> Rooted(p, e)
  }

  ghost predicate Isolated(p: Program, roots: set<nat>)
    requires Recorded(p)
  {
    CrossFree(p, roots) && forall e :: e in p.entries && e.fnId in roots ==> ClausesReached(p, e)
  }

  /** A sibling group that sharing cannot break: at most two roots, or isolated ones. */
  ghost predicate Calm(p: Program, roots: set<nat>)
    requires Recorded(p)
  {
    |roots| <= 2 || Isolated(p, roots)
  }

  // ------------------------------------------------ symmetry of the comparison

  ghost predicate NoneTargets(p: Program, from: Graph, to: Graph) {
    forall role, y :: role in from.bodies && y in TargetsOf(p, from.bodies[role]) ==> y !in to.bodies.Values
  }

  /** Reading a pairing the other way round. */
  lemma BackAndForth(left: Graph, right: Graph, m: map<nat, nat>, back: map<nat, nat>, x: nat)
    requires left.bodies.Keys == right.bodies.Keys && Pairs(left, right, m) && Pairs(right, left, back)
    ensures x in m ==> m[x] in back && back[m[x]] == x
    ensures x in back ==> x in left.bodies.Values
  {
    if x in m {
      var role :| role in right.bodies && right.bodies[role] == x;
    }
    if x in back {
      var role :| role in left.bodies && left.bodies[role] == x;
    }
  }

  lemma AgreesBack(p: Program, left: Graph, right: Graph, m: map<nat, nat>, back: map<nat, nat>, role: Role)
    requires left.bodies.Keys == right.bodies.Keys && Pairs(left, right, m) && Pairs(right, left, back)
    requires role in right.bodies && BodiesAgree(p, m, left.bodies[role], right.bodies[role])
    requires NoneTargets(p, right, left)
    ensures BodiesAgree(p, back, right.bodies[role], left.bodies[role])
  {
    var l, r := BodyOf(p.bodies, left.bodies[role]).value, BodyOf(p.bodies, right.bodies[role]).value;
    assert |l.targets| == |r.targets|;
    forall t | 0 <= t < |r.targets| ensures r.targets[t] == Remap(back, l.targets[t]) {
      var x := r.targets[t];
      assert l.targets[t] == Remap(m, x);
      BackAndForth(left, right, m, back, x);
      assert x in TargetsOf(p, right.bodies[role]);
    }
    assert r.targets == RemapAll(back, l.targets);
  }

  /** Where the right graph targets nothing of the left one, comparing the other way round succeeds too. */
  lemma MappingIsSymmetric(p: Program, left: Graph, right: Graph)
    requires OneRoleEach(left) && OneRoleEach(right) && Mapping(p, left, right).Some? && NoneTargets(p, right, left)
    ensures Mapping(p, right, left).Some?
  {
    var m, back := RightToLeft(left, right), RightToLeft(right, left);
    forall role | role in left.bodies ensures BodiesAgree(p, back, right.bodies[role], left.bodies[role]) {
      AgreesBack(p, left, right, m, back, role);
    }
  }

  // ------------------------------------------------------------ owned and closed

  /** The bodies of a root that these target are among them. */
  ghost predicate ClosedOwn(p: Program, owner: map<nat, nat>, owned: set<nat>, root: nat) {
    forall f, y :: f in owned && y in TargetsOf(p, f) && y in owner && owner[y] == root ==> y in owned
  }

  /** No body of the right graph targets a body of the left root. */
  ghost predicate NoneTargetsRoot(p: Program, owner: map<nat, nat>, from: Graph, root: nat) {
    forall role, y :: role in from.bodies && y in TargetsOf(p, from.bodies[role]) ==> !(y in owner && owner[y] == root)
  }

  lemma AgreedTarget(p: Program, left: Graph, right: Graph, m: map<nat, nat>, role: Role, y: nat)
    requires left.bodies.Keys == right.bodies.Keys && Pairs(left, right, m) && role in right.bodies
    requires BodiesAgree(p, m, left.bodies[role], right.bodies[role]) && y in TargetsOf(p, left.bodies[role])
    ensures y in left.bodies.Values || y in TargetsOf(p, right.bodies[role])
  {
    var l, r := BodyOf(p.bodies, left.bodies[role]).value, BodyOf(p.bodies, right.bodies[role]).value;
    var t :| 0 <= t < |l.targets| && l.targets[t] == y;
    var x := r.targets[t];
    assert y == Remap(m, x);
    if x in m {
      var other :| other in right.bodies && right.bodies[other] == x;
      assert m[x] == left.bodies[other];
    } else {
      assert x in r.targets;
    }
  }

  /** A complete graph that compares equal to one that targets none of its root's bodies is closed. */
  lemma ComparedIsClosed(p: Program, owner: map<nat, nat>, left: Graph, right: Graph, owned: set<nat>, root: nat)
    requires OneRoleEach(right) && Mapping(p, left, right).Some? && left.bodies.Values == owned
    requires NoneTargetsRoot(p, owner, right, root)
    ensures ClosedOwn(p, owner, owned, root)
  {
    var m := RightToLeft(left, right);
    forall f, y | f in owned && y in TargetsOf(p, f) && y in owner && owner[y] == root ensures y in owned {
      var role :| role in left.bodies && left.bodies[role] == f;
      AgreedTarget(p, left, right, m, role, y);
    }
  }

  // --------------------------------------------------- entries of isolated roots

  lemma {:induction false} VisitStaysIn(role: Role, targets: seq<nat>, i: nat, owned: set<nat>, w: Walk, s: set<nat>)
    requires i <= |targets| && w.reached <= s && (forall item :: item in w.frontier ==> item.1 in s)
    requires forall y :: y in targets && y in owned ==> y in s
    ensures
      var next := Visit(role, targets, i, owned, w);
      next.reached <= s && forall item :: item in next.frontier ==> item.1 in s
    decreases |targets| - i
  {
    if i < |targets| {
      if targets[i] !in owned || targets[i] in w.reached {
        VisitStaysIn(role, targets, i + 1, owned, w, s);
      } else {
        var child := role.(path := role.path + [i]);
        assert targets[i] in s;
        VisitStaysIn(role, targets, i + 1, owned,
                     Walk(w.frontier + [(child, targets[i])], w.bodies[child := targets[i]],
                          w.reached + {targets[i]}),
                     s);
      }
    }
  }

  /** The walk reaches nothing outside a set closed under targets. */
  lemma {:induction false} WalkStaysIn(p: Program, owned: set<nat>, w: Walk, s: set<nat>)
    requires w.reached <= s && s <= owned && (forall item :: item in w.frontier ==> item.1 in s)
    requires TargetsWithin(p, s, owned)
    ensures BreadthFirst(p, owned, w).reached <= s
    decreases owned - w.reached, |w.frontier|
  {
    if w.frontier != [] {
      var (role, f) := w.frontier[0];
      var rest := w.(frontier := w.frontier[1..]);
      assert w.frontier[0] in w.frontier;
      VisitStaysIn(role, TargetsOf(p, f), 0, owned, rest, s);
      var next := Visit(role, TargetsOf(p, f), 0, owned, rest);
      if next.reached != w.reached {
        var x :| x in next.reached && x !in w.reached;
        assert x in owned - w.reached;
      }
      WalkStaysIn(p, owned, next, s);
    }
  }

  lemma StartsAtTheRoot(p: Program, e: Entry, s: set<nat>)
    requires Recorded(p) && ClauseBodies(p, e.key) == map[] && e.fnId in s
    ensures
      var w := InitialWalk(p, e);
      w.reached <= s && forall item :: item in w.frontier ==> item.1 in s
  {
    var w := InitialWalk(p, e);
    assert ClauseItems(map[]) == [];
    assert w.frontier == [(RootRole(), e.fnId)];
    assert w.reached == {e.fnId};
  }

  /** An entry without clauses whose graph is complete reaches all it owns from its root. */
  lemma CompleteIsRooted(p: Program, e: Entry)
    requires Recorded(p) && Published(p) && e in p.entries && ClauseBodies(p, e.key) == map[]
    requires OwnedGraph(p, e).complete
    ensures Rooted(p, e)
  {
    var owned := Owned(p, e);
    var w := BreadthFirst(p, owned, InitialWalk(p, e));
    InitialWalkSound(p, e);
    assert e.fnId in Roots(p, e);
    BreadthFirstSound(p, e, owned, InitialWalk(p, e));
    SubsetOfSameSize(w.reached, owned);
    forall s | e.fnId in s && TargetsWithin(p, s, owned) ensures owned <= s {
      StartsAtTheRoot(p, e, s * owned);
      WalkStaysIn(p, owned, InitialWalk(p, e), s * owned);
    }
  }

  /** An entry whose graph is complete is rooted, if its clauses are reached. */
  lemma ComparedIsRooted(p: Program, e: Entry)
    requires Recorded(p) && Published(p) && e in p.entries && ClausesReached(p, e) && OwnedGraph(p, e).complete
    ensures Rooted(p, e)
  {
    if ClauseBodies(p, e.key) == map[] { CompleteIsRooted(p, e); }
  }

  /** A rooted entry owns only what a closed entry of its root owns. */
  lemma RootedInClosed(p: Program, owner: map<nat, nat>, e: Entry, d: Entry)
    requires Recorded(p) && OwnersOf(p, owner) && e in p.entries && d in p.entries && e.fnId == d.fnId
    requires Rooted(p, e) && ClosedOwn(p, owner, Owned(p, d), d.fnId)
    ensures Owned(p, e) <= Owned(p, d)
  {
    assert AllOwnedBy(owner, Owned(p, e), e.fnId);
    assert d.fnId in Roots(p, d);
    assert TargetsWithin(p, Owned(p, d), Owned(p, e));
  }

  /** A clause body belongs to the entry of its own key only. */
  lemma ClauseOwnedOnce(p: Program, e: Entry, d: Entry, i: nat)
    requires Recorded(p) && Published(p) && e in p.entries && d in p.entries && e.key != d.key
    requires i in ClauseBodies(p, e.key)
    ensures ClauseBodies(p, e.key)[i] in Owned(p, e) && ClauseBodies(p, e.key)[i] !in Owned(p, d)
  {
    var b := ClauseOf(p, e.key, i);
    assert b.fnId in Roots(p, e);
    OriginDecides(p, d, b);
    NotOwned(p, d, b.fnId);
  }

  /** Entries of one root that own the same bodies under different keys have the same graph. */
  lemma SameOwnedSameGraph(p: Program, e: Entry, d: Entry)
    requires Recorded(p) && Published(p) && e in p.entries && d in p.entries && e.fnId == d.fnId && e.key != d.key
    requires Owned(p, e) == Owned(p, d)
    ensures OwnedGraph(p, e) == OwnedGraph(p, d)
  {
    forall i | i in ClauseBodies(p, e.key) ensures false { ClauseOwnedOnce(p, e, d, i); }
    forall i | i in ClauseBodies(p, d.key) ensures false { ClauseOwnedOnce(p, d, e, i); }
    assert ClauseBodies(p, e.key) == map[] && ClauseBodies(p, d.key) == map[];
  }

  // ------------------------------------------------------------ one pass is safe

  lemma GraphsKeepApart(
      p: Program, owner: map<nat, nat>, roots: set<nat>, e: Entry, d: Entry, left: Graph, right: Graph)
    requires Recorded(p) && OwnersOf(p, owner) && CrossFree(p, roots) && e in p.entries && d in p.entries
    requires e.fnId in roots && d.fnId in roots && e.fnId != d.fnId
    requires GraphSound(p, e, left) && GraphSound(p, d, right)
    ensures NoneTargetsRoot(p, owner, right, e.fnId) && NoneTargets(p, right, left)
  {
    GraphsAreOwned(p, owner, e, left);
    forall role, y | role in right.bodies && y in TargetsOf(p, right.bodies[role])
      ensures !(y in owner && owner[y] == e.fnId)
    {
      TargetApart(p, owner, roots, e.fnId, d, right.bodies[role], y);
    }
    RootsApart(p, owner, left, right, e.fnId);
  }

  /** A body of one isolated root targets no body of another. */
  lemma TargetApart(p: Program, owner: map<nat, nat>, roots: set<nat>, root: nat, d: Entry, f: nat, y: nat)
    requires Recorded(p) && OwnersOf(p, owner) && CrossFree(p, roots) && d in p.entries && f in Owned(p, d)
    requires root in roots && d.fnId in roots && root != d.fnId && y in TargetsOf(p, f)
    ensures !(y in owner && owner[y] == root)
  {
    assert OwnedBy(p, d.fnId, f);
    if y in owner && owner[y] == root {
      assert CrossAt(p, d.fnId, root, f, y);
    }
  }

  lemma RootsApart(p: Program, owner: map<nat, nat>, left: Graph, right: Graph, root: nat)
    requires NoneTargetsRoot(p, owner, right, root) && GraphOwned(owner, left, root)
    ensures NoneTargets(p, right, left)
  {}

  ghost predicate EqualGraphs(p: Program, e: Entry, d: Entry)
    requires Recorded(p)
  {
    Mapping(p, OwnedGraph(p, e), OwnedGraph(p, d)).Some?
  }

  lemma CompleteHoldsOwned(p: Program, e: Entry, g: Graph)
    requires Recorded(p) && GraphSound(p, e, g) && g.complete
    ensures g.bodies.Values == Owned(p, e)
  {
    forall f | f in Owned(p, e) ensures f in g.bodies.Values {
      var role :| role in g.bodies && g.bodies[role] == f;
    }
  }

  /** Between isolated roots, comparing equal is symmetric and leaves the left entry closed and complete. */
  lemma IsolatedComparison(p: Program, owner: map<nat, nat>, roots: set<nat>, e: Entry, d: Entry)
    requires Indexed(p) && OwnersOf(p, owner) && CrossFree(p, roots) && e in p.entries && d in p.entries
    requires e.fnId in roots && d.fnId in roots && e.fnId != d.fnId && EqualGraphs(p, e, d)
    ensures EqualGraphs(p, d, e) && OwnedGraph(p, e).complete && ClosedOwn(p, owner, Owned(p, e), e.fnId)
  {
    var left, right := OwnedGraph(p, e), OwnedGraph(p, d);
    assert GraphSound(p, e, left) && GraphSound(p, d, right);
    GraphsKeepApart(p, owner, roots, e, d, left, right);
    IsolatedGraphs(p, owner, e, left, right);
  }

  lemma IsolatedGraphs(p: Program, owner: map<nat, nat>, e: Entry, left: Graph, right: Graph)
    requires Recorded(p) && GraphSound(p, e, left) && OneRoleEach(right) && Mapping(p, left, right).Some?
    requires NoneTargetsRoot(p, owner, right, e.fnId) && NoneTargets(p, right, left)
    ensures Mapping(p, right, left).Some? && left.complete && ClosedOwn(p, owner, Owned(p, e), e.fnId)
  {
    MappingIsSymmetric(p, left, right);
    CompleteHoldsOwned(p, e, left);
    ComparedIsClosed(p, owner, left, right, Owned(p, e), e.fnId);
  }

  /** Two entries of one isolated root that each compare equal to some other root's entry have one graph. */
  lemma TwinsHaveOneGraph(p: Program, owner: map<nat, nat>, roots: set<nat>, e: Entry, d: Entry, x: Entry, y: Entry)
    requires Indexed(p) && OwnersOf(p, owner) && Isolated(p, roots)
    requires e in p.entries && d in p.entries && x in p.entries && y in p.entries
    requires e.fnId == d.fnId && e.fnId in roots && x.fnId in roots && y.fnId in roots && x.fnId != e.fnId
    requires y.fnId != e.fnId
    requires EqualGraphs(p, e, x) && EqualGraphs(p, d, y)
    ensures OwnedGraph(p, e) == OwnedGraph(p, d)
  {
    IsolatedComparison(p, owner, roots, e, x);
    IsolatedComparison(p, owner, roots, d, y);
    ClosedTwins(p, owner, e, d);
    if e != d { SameOwnedSameGraph(p, e, d); }
  }

  lemma TwinsOwnAlike(p: Program, owner: map<nat, nat>, e: Entry, d: Entry)
    requires Recorded(p) && OwnersOf(p, owner) && e in p.entries && d in p.entries && e.fnId == d.fnId
    requires Rooted(p, e) && ClosedOwn(p, owner, Owned(p, e), e.fnId)
    requires Rooted(p, d) && ClosedOwn(p, owner, Owned(p, d), d.fnId)
    ensures Owned(p, e) == Owned(p, d)
  {
    RootedInClosed(p, owner, e, d);
    RootedInClosed(p, owner, d, e);
  }

  lemma ClosedTwins(p: Program, owner: map<nat, nat>, e: Entry, d: Entry)
    requires Recorded(p) && Published(p) && OwnersOf(p, owner) && e in p.entries && d in p.entries && e.fnId == d.fnId
    requires ClausesReached(p, e) && ClausesReached(p, d) && OwnedGraph(p, e).complete && OwnedGraph(p, d).complete
    requires ClosedOwn(p, owner, Owned(p, e), e.fnId) && ClosedOwn(p, owner, Owned(p, d), d.fnId)
    ensures e == d || (e.key != d.key && Owned(p, e) == Owned(p, d))
  {
    if e.key == d.key { SameKeySameEntry(p, e, d); }
    ComparedIsRooted(p, e);
    ComparedIsRooted(p, d);
    TwinsOwnAlike(p, owner, e, d);
  }

  lemma SameKeySameEntry(p: Program, e: Entry, d: Entry)
    requires Recorded(p) && e in p.entries && d in p.entries && e.key == d.key
    ensures e == d
  {
    var i :| 0 <= i < |p.entries| && p.entries[i] == e;
    var j :| 0 <= j < |p.entries| && p.entries[j] == d;
  }

  lemma OfferedEntries(p: Program, m: Market, a: nat, b: nat)
    requires Recorded(p) && Describes(m, p) && a < |p.entries| && b < |p.entries|
    ensures p.entries[a] in p.entries && p.entries[b] in p.entries
    ensures Offers(m, a, b) <==> p.entries[a].fnId != p.entries[b].fnId && EqualGraphs(p, p.entries[a], p.entries[b])
  {
    EntryRoots(p, m, a);
    EntryRoots(p, m, b);
    assert PairRight(p, m, a, b);
  }

  /** Isolated roots do not return: what could take one back, it could have taken itself. */
  lemma IsolatedDoNotReturn(
    p: Program, owner: map<nat, nat>, roots: set<nat>, m: Market, group: seq<nat>, i: nat, j: nat, k: nat, l: nat)
    requires Indexed(p) && OwnersOf(p, owner) && Describes(m, p) && ValidGroup(p, group) && Isolated(p, roots)
    requires RootsOfGroup(p, group) <= roots && i < j < k < |group| && l < |group|
    requires Offers(m, group[i], group[l])
    ensures !ReturnsAt(m, group, i, j, k)
  {
    var a, b, c, d := group[i], group[j], group[k], group[l];
    OfferedEntries(p, m, a, d);
    OfferedEntries(p, m, a, b);
    OfferedEntries(p, m, b, c);
    EntryRoots(p, m, a);
    EntryRoots(p, m, c);
    assert p.entries[a].fnId in roots && p.entries[b].fnId in roots;
    assert p.entries[c].fnId in roots && p.entries[d].fnId in roots;
    if ReturnsAt(m, group, i, j, k) {
      IsolatedComparison(p, owner, roots, p.entries[b], p.entries[c]);
      TwinsHaveOneGraph(p, owner, roots, p.entries[a], p.entries[c], p.entries[d], p.entries[b]);
      IsolatedComparison(p, owner, roots, p.entries[b], p.entries[a]);
    }
  }

  lemma ThreeOfTwo(s: set<nat>, a: nat, b: nat, c: nat)
    requires |s| <= 2 && a in s && b in s && c in s
    ensures a == b || b == c || a == c
  {
    var rest := s - {a};
    assert |rest| == |s| - 1;
    if b != a {
      assert |rest - {b}| == |rest| - 1;
      assert c !in rest - {b};
    }
  }

  /** With two roots, the one that could take the other back would have been taken. */
  lemma TwoDoNotReturn(p: Program, m: Market, groups: seq<seq<nat>>, g: nat, i: nat, j: nat, l: nat)
    requires Recorded(p) && Describes(m, p) && ValidGroups(p, groups) && g < |groups|
    requires |RootsOfGroup(p, groups[g])| <= 2 && i < j < |groups[g]| && i < l < |groups[g]|
    requires Leads(m, groups, g, i) && Offers(m, groups[g][i], groups[g][l])
    ensures !Leads(m, groups, g, j)
  {
    var group := groups[g];
    EntryRoots(p, m, group[i]);
    EntryRoots(p, m, group[j]);
    EntryRoots(p, m, group[l]);
    ThreeOfTwo(RootsOfGroup(p, group), RootOf(m, group[i]), RootOf(m, group[j]), RootOf(m, group[l]));
    if Leads(m, groups, g, j) {
      LeaderIsOwn(m, groups, g, i, j);
      assert OfferedAt(m, group, group[i], l, RootOf(m, group[l]));
    }
  }

  ghost predicate CalmGroups(p: Program, groups: seq<seq<nat>>)
    requires Recorded(p) && ValidGroups(p, groups)
  {
    Disjoint(Families(p, groups)) && forall g :: 0 <= g < |groups| ==> Calm(p, RootsOfGroup(p, groups[g]))
  }

  /** A pass over calm groups gives no leader away. */
  lemma CalmPassIsSafe(p: Program, groups: seq<seq<nat>>, m: Market)
    requires Recorded(p) && Published(p) && ValidGroups(p, groups) && CalmGroups(p, groups) && Describes(m, p)
    ensures !GivesAwayALeader(m, groups)
  {
    FamiliesApart(p, m, groups);
    if GivesAwayALeader(m, groups) {
      var g, i, j, k := GivenAwayReturns(m, groups);
      var l := GainedFrom(m, groups, g, i);
      if |RootsOfGroup(p, groups[g])| <= 2 {
        TwoDoNotReturn(p, m, groups, g, i, j, l);
      } else {
        IndexedPublished(p);
        var owner := OwnersExist(p);
        IsolatedDoNotReturn(p, owner, RootsOfGroup(p, groups[g]), m, groups[g], i, j, k, l);
      }
    }
  }

  lemma GainedFrom(m: Market, groups: seq<seq<nat>>, g: nat, i: nat) returns (l: nat)
    requires g < |groups| && i < |groups[g]| && Gains(m, groups, g, i)
    ensures i < l < |groups[g]| && Offers(m, groups[g][i], groups[g][l])
  {
    var root: nat :| OffersRoot(m, groups[g], i, root) && !Taken(m, groups, g, i, root);
    l :| i + 1 <= l < |groups[g]| && OfferedAt(m, groups[g], groups[g][i], l, root);
  }
}
