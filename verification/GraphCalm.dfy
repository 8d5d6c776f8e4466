/** Calm sibling groups stay calm from pass to pass, so sharing them to the fixpoint keeps every entry. */
module GraphCalm {
  import opened Options
  import opened Collecting
  import opened GraphSharing
  import opened GraphPass
  import opened GraphRun
  import opened GraphSafety
  import opened GraphIsolation

  // -------------------------------------------------- what a pass replaces is whole

  ghost predicate WholeBy(p: Program, owner: map<nat, nat>, roots: set<nat>, r: map<nat, nat>, x: nat, d: Entry)
    requires Recorded(p)
  {
    && x in Owned(p, d) && Owned(p, d) <= r.Keys
    && (d.fnId in roots ==> ClosedOwn(p, owner, Owned(p, d), d.fnId))
  }

  ghost predicate WholeAt(p: Program, owner: map<nat, nat>, roots: set<nat>, r: map<nat, nat>, x: nat)
    requires Recorded(p)
  {
    exists d :: d in p.entries && WholeBy(p, owner, roots, r, x, d)
  }

  /** Each replaced body goes with all that some entry owns; for isolated roots that is closed. */
  ghost predicate Whole(p: Program, owner: map<nat, nat>, roots: set<nat>, r: map<nat, nat>)
    requires Recorded(p)
  {
    forall x {:trigger WholeAt(p, owner, roots, r, x)} :: x in r ==> WholeAt(p, owner, roots, r, x)
  }

  lemma PairedKeys(left: Graph, right: Graph, m: map<nat, nat>)
    requires left.bodies.Keys == right.bodies.Keys && Pairs(left, right, m)
    ensures m.Keys == right.bodies.Values
  {
    forall f | f in m ensures f in right.bodies.Values {
      var role :| role in right.bodies && right.bodies[role] == f;
    }
  }

  lemma MappedKeys(p: Program, d: Entry, left: Graph, right: Graph, m: map<nat, nat>)
    requires Recorded(p) && GraphSound(p, d, right) && right.complete
    requires left.bodies.Keys == right.bodies.Keys && Pairs(left, right, m)
    ensures m.Keys == Owned(p, d)
  {
    CompleteHoldsOwned(p, d, right);
    PairedKeys(left, right, m);
  }

  lemma WholeGrows(
    p: Program, owner: map<nat, nat>, roots: set<nat>, r: map<nat, nat>, m: map<nat, nat>, d: Entry)
    requires Recorded(p) && Whole(p, owner, roots, r) && d in p.entries && m.Keys == Owned(p, d)
    requires d.fnId in roots ==> ClosedOwn(p, owner, Owned(p, d), d.fnId)
    ensures Whole(p, owner, roots, r + m)
  {
    forall x | x in r + m ensures WholeAt(p, owner, roots, r + m, x) {
      if x in m {
        assert WholeBy(p, owner, roots, r + m, x, d);
      } else {
        assert WholeAt(p, owner, roots, r, x);
        var c :| c in p.entries && WholeBy(p, owner, roots, r, x, c);
        assert WholeBy(p, owner, roots, r + m, x, c);
      }
    }
  }

  /** A program whose `roots` target no body of one another. */
  ghost predicate Scene(p: Program, owner: map<nat, nat>, roots: set<nat>) {
    Indexed(p) && OwnersOf(p, owner) && CrossFree(p, roots)
  }

  /** What a comparison maps is all that its right entry owns, and closed between isolated roots. */
  lemma ComparedWhole(p: Program, owner: map<nat, nat>, roots: set<nat>, e: Entry, d: Entry)
    returns (mapping: Option<map<nat, nat>>)
    requires Scene(p, owner, roots) && e in p.entries && d in p.entries
    requires d.fnId in roots ==> e.fnId in roots
    ensures mapping == Mapping(p, OwnedGraph(p, e), OwnedGraph(p, d))
    ensures mapping.Some? ==> mapping.value.Keys == Owned(p, d)
    ensures mapping.Some? && e.fnId != d.fnId && d.fnId in roots ==> ClosedOwn(p, owner, Owned(p, d), d.fnId)
  {
    mapping := Mapping(p, OwnedGraph(p, e), OwnedGraph(p, d));
    if mapping.Some? {
      assert GraphSound(p, d, OwnedGraph(p, d));
      MappedKeys(p, d, OwnedGraph(p, e), OwnedGraph(p, d), mapping.value);
      if e.fnId != d.fnId && d.fnId in roots {
        IsolatedComparison(p, owner, roots, e, d);
        IsolatedComparison(p, owner, roots, d, e);
      }
    }
  }

  lemma WholeStep(
    p: Program, owner: map<nat, nat>, roots: set<nat>, left: nat, d: Entry, mapping: Option<map<nat, nat>>, s: Merges)
    requires Recorded(p) && d in p.entries && Whole(p, owner, roots, s.replacements)
    requires mapping.Some? ==> mapping.value.Keys == Owned(p, d)
    requires mapping.Some? && left != d.fnId && d.fnId in roots ==> ClosedOwn(p, owner, Owned(p, d), d.fnId)
    ensures Whole(p, owner, roots, MergeWith(left, d.fnId, mapping, s).replacements)
  {
    if left != d.fnId && mapping.Some? {
      WholeGrows(p, owner, roots, s.replacements, mapping.value, d);
    }
  }

  lemma OneWhole(p: Program, owner: map<nat, nat>, roots: set<nat>, e: Entry, d: Entry, s: Merges)
    requires Scene(p, owner, roots) && e in p.entries && d in p.entries
    requires Whole(p, owner, roots, s.replacements) && (d.fnId in roots ==> e.fnId in roots)
    ensures Whole(p, owner, roots, MergeOne(p, e, d, s).replacements)
  {
    var mapping := ComparedWhole(p, owner, roots, e, d);
    WholeStep(p, owner, roots, e.fnId, d, mapping, s);
  }

  ghost predicate RootInside(p: Program, a: nat, roots: set<nat>, inside: bool) {
    a < |p.entries| ==> (p.entries[a].fnId in roots <==> inside)
  }

  /** All roots of a group are among `roots`, or none is. */
  ghost predicate AllInside(p: Program, group: seq<nat>, roots: set<nat>, inside: bool) {
    forall i {:trigger RootInside(p, group[i], roots, inside)} ::
      0 <= i < |group| ==> RootInside(p, group[i], roots, inside)
  }

  ghost predicate WholeMerges(p: Program, owner: map<nat, nat>, roots: set<nat>, s: Merges)
    requires Recorded(p)
  {
    Whole(p, owner, roots, s.replacements)
  }

  /** One left entry and its group, all of whose roots are among `roots` or none. */
  ghost predicate OneSide(
    p: Program, owner: map<nat, nat>, roots: set<nat>, group: seq<nat>, inside: bool, a: nat)
  {
    && Scene(p, owner, roots) && ValidGroup(p, group) && AllInside(p, group, roots, inside)
    && a < |p.entries| && RootInside(p, a, roots, inside)
  }

  ghost predicate Siding(
    p: Program, owner: map<nat, nat>, roots: set<nat>, group: seq<nat>, inside: bool, a: nat)
  {
    OneSide(p, owner, roots, group, inside, a)
  }

  lemma RightWhole(
    p: Program, owner: map<nat, nat>, roots: set<nat>, group: seq<nat>, inside: bool, a: nat, k: nat, s: Merges)
    requires Siding(p, owner, roots, group, inside, a) && k < |group| && WholeMerges(p, owner, roots, s)
    ensures WholeMerges(p, owner, roots, MergeOne(p, p.entries[a], p.entries[group[k]], s))
  {
    assert RootInside(p, group[k], roots, inside);
    OneWhole(p, owner, roots, p.entries[a], p.entries[group[k]], s);
  }

  lemma {:induction false} RightsWhole(
    p: Program, owner: map<nat, nat>, roots: set<nat>, group: seq<nat>, inside: bool, a: nat, j: nat, s: Merges)
    requires Siding(p, owner, roots, group, inside, a) && j <= |group| && WholeMerges(p, owner, roots, s)
    ensures WholeMerges(p, owner, roots, MergeRights(p, group, a, j, s))
    decreases |group| - j
  {
    if j < |group| {
      var next := MergeOne(p, p.entries[a], p.entries[group[j]], s);
      RightWhole(p, owner, roots, group, inside, a, j, s);
      RightsWhole(p, owner, roots, group, inside, a, j + 1, next);
    }
  }

  lemma {:induction false} LeftsWhole(
    p: Program, owner: map<nat, nat>, roots: set<nat>, group: seq<nat>, inside: bool,
    o: nat, compared: set<nat>, s: Merges)
    requires Scene(p, owner, roots) && ValidGroup(p, group)
    requires AllInside(p, group, roots, inside) && o <= |group| && WholeMerges(p, owner, roots, s)
    ensures WholeMerges(p, owner, roots, MergeLefts(p, group, o, compared, s))
    decreases |group| - o
  {
    if o < |group| {
      var root := p.entries[group[o]].fnId;
      if root in s.replacements || root in compared {
        LeftsWhole(p, owner, roots, group, inside, o + 1, compared, s);
      } else {
        assert RootInside(p, group[o], roots, inside);
        RightsWhole(p, owner, roots, group, inside, group[o], o + 1, s);
        LeftsWhole(p, owner, roots, group, inside, o + 1, compared + {root}, MergeRights(p, group, group[o], o + 1, s));
      }
    }
  }

  /** The roots of each group are all among `roots`, or none is. */
  ghost predicate Split(p: Program, groups: seq<seq<nat>>, roots: set<nat>) {
    forall h :: 0 <= h < |groups| ==> AllInside(p, groups[h], roots, true) || AllInside(p, groups[h], roots, false)
  }

  lemma {:induction false} GroupsWhole(
    p: Program, owner: map<nat, nat>, roots: set<nat>, groups: seq<seq<nat>>, g: nat, s: Merges)
    requires Scene(p, owner, roots) && ValidGroups(p, groups) && g <= |groups|
    requires Split(p, groups, roots) && WholeMerges(p, owner, roots, s)
    ensures WholeMerges(p, owner, roots, MergeGroups(p, groups, g, s))
    decreases |groups| - g
  {
    if g < |groups| {
      if AllInside(p, groups[g], roots, true) {
        LeftsWhole(p, owner, roots, groups[g], true, 0, {}, s);
      } else {
        LeftsWhole(p, owner, roots, groups[g], false, 0, {}, s);
      }
      GroupsWhole(p, owner, roots, groups, g + 1, MergeLefts(p, groups[g], 0, {}, s));
    }
  }

  // --------------------------------------------------------- bodies after a pass

  /** A body is replaced only along with its root. */
  lemma ReplacedWithRoot(owner: map<nat, nat>, s: Merges, x: nat)
    requires Merging(owner, s) && x in s.replacements
    ensures x in owner && owner[x] in s.replacements
  {
    assert RootsFollow(owner, s.replacements, x);
  }

  /** The bodies after a pass are the unreplaced ones, remapped. */
  lemma KeptBody(p: Program, r: map<nat, nat>, b: Body)
    requires Recorded(p) && b in p.bodies && b.fnId !in r
    ensures RemapBody(r, b) in Applied(p, r).bodies
  {
    RetainedBody(r, p.bodies, b.fnId);
    BodyIsUnique(p, b);
  }

  lemma BodyKept(p: Program, r: map<nat, nat>, c: Body) returns (b: Body)
    requires c in Applied(p, r).bodies
    ensures b in p.bodies && b.fnId !in r && c == RemapBody(r, b)
  {
    RetainedSource(r, p.bodies, c);
    b :| b in p.bodies && c == RemapBody(r, b);
    RetainedBody(r, p.bodies, c.fnId);
  }

  /** Continuations are replaced with their parents. */
  lemma ChildReplaced(p: Program, owner: map<nat, nat>, roots: set<nat>, r: map<nat, nat>, f: nat)
    requires Recorded(p) && Whole(p, owner, roots, r) && f in r
    ensures ContinuationsOf(p, f) <= r.Keys
  {
    assert WholeAt(p, owner, roots, r, f);
    var d :| d in p.entries && WholeBy(p, owner, roots, r, f, d);
  }

  /** And parents with their continuations. */
  lemma ParentReplaced(p: Program, owner: map<nat, nat>, roots: set<nat>, r: map<nat, nat>, f: nat, c: nat)
    requires Recorded(p) && Published(p) && Whole(p, owner, roots, r) && c in r && c in ContinuationsOf(p, f)
    ensures f in r
  {
    assert WholeAt(p, owner, roots, r, c);
    var d :| d in p.entries && WholeBy(p, owner, roots, r, c, d);
    var b :| b in p.bodies && b.origin == Continuation(f) && b.fnId == c;
    OriginDecides(p, d, b);
    if f !in Owned(p, d) { NotOwned(p, d, c); }
  }

  lemma ParentKept(p: Program, owner: map<nat, nat>, roots: set<nat>, r: map<nat, nat>, b: Body)
    requires Recorded(p) && Whole(p, owner, roots, r) && b in p.bodies && b.fnId !in r && b.origin.Continuation?
    ensures RemapBody(r, b).origin == b.origin
  {
    assert b.fnId in ContinuationsOf(p, b.origin.parent);
    if b.origin.parent in r { ChildReplaced(p, owner, roots, r, b.origin.parent); }
  }

  /** An unreplaced body keeps its continuations. */
  lemma ContinuationsSame(p: Program, owner: map<nat, nat>, roots: set<nat>, r: map<nat, nat>, f: nat)
    requires Recorded(p) && Published(p) && Whole(p, owner, roots, r) && f !in r
    ensures ContinuationsOf(Applied(p, r), f) == ContinuationsOf(p, f)
  {
    var q := Applied(p, r);
    forall c | c in ContinuationsOf(p, f) ensures c in ContinuationsOf(q, f) {
      var b :| b in p.bodies && b.origin == Continuation(f) && b.fnId == c;
      if c in r { ParentReplaced(p, owner, roots, r, f, c); }
      ParentKept(p, owner, roots, r, b);
      KeptBody(p, r, b);
    }
    forall c | c in ContinuationsOf(q, f) ensures c in ContinuationsOf(p, f) {
      var a :| a in q.bodies && a.origin == Continuation(f) && a.fnId == c;
      var b := BodyKept(p, r, a);
      ParentKept(p, owner, roots, r, b);
    }
  }

  /** The clauses of a key after a pass are its unreplaced ones. */
  lemma ClausesKept(p: Program, r: map<nat, nat>, key: nat, i: nat)
    requires Recorded(p) && Recorded(Applied(p, r))
    ensures i in ClauseBodies(Applied(p, r), key) <==> i in ClauseBodies(p, key) && ClauseBodies(p, key)[i] !in r
    ensures i in ClauseBodies(Applied(p, r), key) ==> ClauseBodies(Applied(p, r), key)[i] == ClauseBodies(p, key)[i]
  {
    var q := Applied(p, r);
    if i in ClauseBodies(q, key) {
      var c := ClauseOf(q, key, i);
      var b := BodyKept(p, r, c);
      ClauseIs(p, b);
    }
    if i in ClauseBodies(p, key) && ClauseBodies(p, key)[i] !in r {
      var b := ClauseOf(p, key, i);
      KeptBody(p, r, b);
      ClauseIs(q, RemapBody(r, b));
    }
  }

  lemma ClauseIs(p: Program, b: Body)
    requires Recorded(p) && b in p.bodies && b.origin.Clause?
    ensures b.origin.index in ClauseBodies(p, b.origin.owner)
    ensures ClauseBodies(p, b.origin.owner)[b.origin.index] == b.fnId
  {
    var c := ClauseOf(p, b.origin.owner, b.origin.index);
    var i :| 0 <= i < |p.bodies| && p.bodies[i] == b;
    var j :| 0 <= j < |p.bodies| && p.bodies[j] == c;
  }

  // -------------------------------------------------------- ownership after a pass

  /** Merges never cross the border of `roots`. */
  ghost predicate LogWithin(log: seq<(nat, nat)>, roots: set<nat>) {
    forall t :: 0 <= t < |log| ==> (log[t].0 in roots <==> log[t].1 in roots)
  }

  /** A chain-free pass over a program whose `roots` are isolated. */
  ghost predicate Passed(p: Program, owner: map<nat, nat>, roots: set<nat>, s: Merges)
    requires Recorded(p)
  {
    && Published(p) && OwnersOf(p, owner) && Isolated(p, roots) && Recorded(Applied(p, s.replacements))
    && Merging(owner, s) && ChainFree(s.replacements) && Whole(p, owner, roots, s.replacements)
    && LogWithin(s.log, roots)
  }

  lemma OwnedUnreplaced(p: Program, owner: map<nat, nat>, s: Merges, e: Entry, x: nat)
    requires Recorded(p) && OwnersOf(p, owner) && Merging(owner, s) && e in p.entries && e.fnId !in s.replacements
    requires x in Owned(p, e)
    ensures x in owner && owner[x] == e.fnId && x !in s.replacements
  {
    assert AllOwnedBy(owner, Owned(p, e), e.fnId);
    if x in s.replacements { ReplacedWithRoot(owner, s, x); }
  }

  /** What a walk of continuations from unreplaced bodies finds is what it found before. */
  lemma ClosedAfter(p: Program, owner: map<nat, nat>, roots: set<nat>, s: Merges, from: set<nat>, e: Entry)
    requires Recorded(p) && Published(p) && OwnersOf(p, owner) && Merging(owner, s)
    requires Whole(p, owner, roots, s.replacements)
    requires e in p.entries && e.fnId !in s.replacements && from <= Owned(p, e)
    ensures Close(Applied(p, s.replacements), from) <= Owned(p, e)
  {
    var q := Applied(p, s.replacements);
    forall f | f in Owned(p, e) ensures ContinuationsOf(q, f) <= Owned(p, e) {
      OwnedUnreplaced(p, owner, s, e, f);
      ContinuationsSame(p, owner, roots, s.replacements, f);
    }
    CloseIsLeast(q, from, Owned(p, e));
  }

  lemma ClosedBefore(p: Program, owner: map<nat, nat>, roots: set<nat>, s: Merges, from: set<nat>, e: Entry)
    requires Recorded(p) && Published(p) && OwnersOf(p, owner) && Merging(owner, s)
    requires Whole(p, owner, roots, s.replacements)
    requires e in p.entries && e.fnId !in s.replacements && from <= Owned(p, e)
    ensures Close(p, from) <= Close(Applied(p, s.replacements), from)
  {
    var q := Applied(p, s.replacements);
    var closed := Close(q, from);
    ClosedAfter(p, owner, roots, s, from, e);
    forall f | f in closed ensures ContinuationsOf(p, f) <= closed {
      OwnedUnreplaced(p, owner, s, e, f);
      ContinuationsSame(p, owner, roots, s.replacements, f);
    }
    CloseIsLeast(p, from, closed);
  }

  /** A key keeps all its clauses when none of them is replaced. */
  lemma ClausesAllKept(p: Program, r: map<nat, nat>, key: nat, clauses: map<nat, nat>)
    requires Recorded(p) && Recorded(Applied(p, r)) && clauses == ClauseBodies(p, key)
    requires forall i :: i in clauses ==> clauses[i] !in r
    ensures ClauseBodies(Applied(p, r), key) == clauses
  {
    var now := ClauseBodies(Applied(p, r), key);
    forall i: nat ensures (i in now <==> i in clauses) && (i in now ==> now[i] == clauses[i]) {
      ClausesKept(p, r, key, i);
    }
    assert now.Keys == clauses.Keys;
  }

  /** And keeps none when all of them are replaced. */
  lemma ClausesAllGone(p: Program, r: map<nat, nat>, key: nat, clauses: map<nat, nat>)
    requires Recorded(p) && Recorded(Applied(p, r)) && clauses == ClauseBodies(p, key)
    requires forall i :: i in clauses ==> clauses[i] in r
    ensures ClauseBodies(Applied(p, r), key) == map[]
  {
    var now := ClauseBodies(Applied(p, r), key);
    forall i: nat ensures i !in now { ClausesKept(p, r, key, i); }
    assert now.Keys == {};
  }

  lemma ClausesOwned(p: Program, e: Entry, clauses: map<nat, nat>, i: nat)
    requires Recorded(p) && clauses == ClauseBodies(p, e.key) && i in clauses
    ensures clauses[i] in Owned(p, e)
  {
    assert clauses[i] in Roots(p, e);
  }

  lemma KeptEntryClauses(p: Program, owner: map<nat, nat>, s: Merges, e: Entry)
    requires Recorded(p) && Recorded(Applied(p, s.replacements)) && OwnersOf(p, owner) && Merging(owner, s)
    requires e in p.entries && e.fnId !in s.replacements
    ensures ClauseBodies(Applied(p, s.replacements), e.key) == ClauseBodies(p, e.key)
  {
    var clauses := ClauseBodies(p, e.key);
    forall i | i in clauses ensures clauses[i] !in s.replacements {
      ClausesOwned(p, e, clauses, i);
      OwnedUnreplaced(p, owner, s, e, clauses[i]);
    }
    ClausesAllKept(p, s.replacements, e.key, clauses);
  }

  lemma KeptClosure(p: Program, owner: map<nat, nat>, roots: set<nat>, s: Merges, from: set<nat>, e: Entry)
    requires Recorded(p) && Published(p) && OwnersOf(p, owner) && Merging(owner, s)
    requires Whole(p, owner, roots, s.replacements)
    requires e in p.entries && e.fnId !in s.replacements && from == Roots(p, e)
    ensures Close(Applied(p, s.replacements), from) == Owned(p, e)
  {
    ClosedAfter(p, owner, roots, s, from, e);
    ClosedBefore(p, owner, roots, s, from, e);
  }

  /** An entry whose root is not replaced keeps its clauses and all it owns. */
  lemma KeptEntryOwns(p: Program, owner: map<nat, nat>, roots: set<nat>, s: Merges, e: Entry)
    requires Recorded(p) && Published(p) && Recorded(Applied(p, s.replacements)) && OwnersOf(p, owner)
    requires Merging(owner, s) && Whole(p, owner, roots, s.replacements) && e in p.entries && e.fnId !in s.replacements
    ensures ClauseBodies(Applied(p, s.replacements), e.key) == ClauseBodies(p, e.key)
    ensures Owned(Applied(p, s.replacements), e) == Owned(p, e)
  {
    KeptEntryClauses(p, owner, s, e);
    KeptClosure(p, owner, roots, s, Roots(p, e), e);
  }

  /** An entry of a replaced isolated root has no clauses left. */
  lemma ReplacedEntryClauses(p: Program, owner: map<nat, nat>, roots: set<nat>, s: Merges, e: Entry)
    requires Recorded(p) && Recorded(Applied(p, s.replacements)) && OwnersOf(p, owner)
    requires Whole(p, owner, roots, s.replacements)
    requires e in p.entries && e.fnId in s.replacements && e.fnId in roots && ClausesReached(p, e)
    ensures ClauseBodies(Applied(p, s.replacements), e.key) == map[]
  {
    var clauses := ClauseBodies(p, e.key);
    forall i | i in clauses ensures clauses[i] in s.replacements {
      ReplacedEntryWhole(p, owner, roots, s, e);
      ClausesOwned(p, e, clauses, i);
    }
    ClausesAllGone(p, s.replacements, e.key, clauses);
  }

  lemma ReplacedEntryWhole(p: Program, owner: map<nat, nat>, roots: set<nat>, s: Merges, e: Entry)
    requires Recorded(p) && OwnersOf(p, owner) && Whole(p, owner, roots, s.replacements) && Rooted(p, e)
    requires e in p.entries && e.fnId in s.replacements && e.fnId in roots
    ensures Owned(p, e) <= s.replacements.Keys
  {
    assert WholeAt(p, owner, roots, s.replacements, e.fnId);
    var d :| d in p.entries && WholeBy(p, owner, roots, s.replacements, e.fnId, d);
    assert AllOwnedBy(owner, Owned(p, d), d.fnId);
    RootOwner(p, owner, e);
    RootedInClosed(p, owner, e, d);
  }

  /** An entry after a pass, and the entry it was. */
  ghost predicate Became(p: Program, r: map<nat, nat>, e: Entry, after: Entry) {
    e in p.entries && after == e.(fnId := Remap(r, e.fnId))
  }

  lemma EntryBefore(p: Program, r: map<nat, nat>, after: Entry) returns (e: Entry)
    requires after in Applied(p, r).entries
    ensures Became(p, r, e, after)
  {
    var i :| 0 <= i < |p.entries| && Applied(p, r).entries[i] == after;
    e := p.entries[i];
  }

  /** A root is replaced by a root on the same side of the border, itself not replaced. */
  lemma RootMoves(owner: map<nat, nat>, roots: set<nat>, s: Merges, root: nat)
    requires Merging(owner, s) && LogWithin(s.log, roots) && root in owner && owner[root] == root
    ensures
      var rep := Remap(s.replacements, root);
      (rep in roots <==> root in roots) && rep in owner && owner[rep] == rep
  {
    if root in s.replacements {
      RootReplacedByRoot(owner, s, root);
      var t :| 0 <= t < |s.log| && s.log[t] == (s.replacements[root], root);
    }
  }

  /** Where an entry of an isolated root ends up: its representative is an unreplaced isolated root. */
  lemma BecameRoot(p: Program, owner: map<nat, nat>, roots: set<nat>, s: Merges, e: Entry, after: Entry)
    requires Recorded(p) && OwnersOf(p, owner) && Merging(owner, s) && ChainFree(s.replacements)
    requires LogWithin(s.log, roots)
    requires Became(p, s.replacements, e, after)
    ensures after.fnId in roots <==> e.fnId in roots
    ensures after.fnId !in s.replacements && IsRoot(p, after.fnId)
  {
    RootOwner(p, owner, e);
    RootMoves(owner, roots, s, e.fnId);
    RootEntry(p, owner, after.fnId);
  }

  lemma OwnsRoot(p: Program, e: Entry)
    requires Recorded(p)
    ensures e.fnId in Owned(p, e)
  {
    assert e.fnId in Roots(p, e);
  }

  lemma BareOwned(p: Program, e: Entry)
    requires Recorded(p) && ClauseBodies(p, e.key) == map[]
    ensures Owned(p, e) == Close(p, {e.fnId})
  {
    assert Roots(p, e) == {e.fnId};
  }

  /** What an entry with no clauses owns after the pass, some entry of its root owned before it. */
  lemma BareEntryOwned(p: Program, owner: map<nat, nat>, roots: set<nat>, s: Merges, after: Entry) returns (c: Entry)
    requires Recorded(p) && Published(p) && Recorded(Applied(p, s.replacements)) && OwnersOf(p, owner)
    requires Merging(owner, s) && Whole(p, owner, roots, s.replacements)
    requires ClauseBodies(Applied(p, s.replacements), after.key) == map[]
    requires IsRoot(p, after.fnId) && after.fnId !in s.replacements
    ensures c in p.entries && c.fnId == after.fnId && Owned(Applied(p, s.replacements), after) <= Owned(p, c)
  {
    c :| c in p.entries && c.fnId == after.fnId;
    BareOwned(Applied(p, s.replacements), after);
    OwnsRoot(p, c);
    ClosedAfter(p, owner, roots, s, {after.fnId}, c);
  }

  /** What an entry owns after the pass, an entry of its root owned before it. */
  lemma EntryOwned(p: Program, owner: map<nat, nat>, roots: set<nat>, s: Merges, after: Entry) returns (c: Entry)
    requires Recorded(p) && Passed(p, owner, roots, s) && after in Applied(p, s.replacements).entries
    requires after.fnId in roots
    ensures c in p.entries && c.fnId == after.fnId && c.fnId !in s.replacements
    ensures Owned(Applied(p, s.replacements), after) <= Owned(p, c)
  {
    var e := EntryBefore(p, s.replacements, after);
    BecameRoot(p, owner, roots, s, e, after);
    if e.fnId in s.replacements {
      ReplacedEntryClauses(p, owner, roots, s, e);
      c := BareEntryOwned(p, owner, roots, s, after);
    } else {
      KeptEntryOwns(p, owner, roots, s, e);
      c := e;
    }
  }

  lemma OwnedByBefore(p: Program, owner: map<nat, nat>, roots: set<nat>, s: Merges, root: nat, x: nat)
    requires Recorded(p) && Passed(p, owner, roots, s) && root in roots && OwnedBy(Applied(p, s.replacements), root, x)
    ensures OwnedBy(p, root, x) && x in owner && owner[x] == root && x !in s.replacements && root !in s.replacements
  {
    var after := OwningEntry(Applied(p, s.replacements), root, x);
    var c := EntryOwned(p, owner, roots, s, after);
    OwnedUnreplaced(p, owner, s, c, x);
  }

  lemma OwningEntry(p: Program, root: nat, x: nat) returns (e: Entry)
    requires Recorded(p) && OwnedBy(p, root, x)
    ensures e in p.entries && e.fnId == root && x in Owned(p, e)
  {
    e :| e in p.entries && e.fnId == root && x in Owned(p, e);
  }

  lemma TargetBefore(p: Program, r: map<nat, nat>, x: nat, y: nat) returns (was: nat)
    requires y in TargetsOf(Applied(p, r), x)
    ensures was in TargetsOf(p, x) && Remap(r, was) == y && x !in r
  {
    RetainedBody(r, p.bodies, x);
    var targets := TargetsOf(p, x);
    assert TargetsOf(Applied(p, r), x) == RemapAll(r, targets);
    var t :| 0 <= t < |targets| && RemapAll(r, targets)[t] == y;
    was := targets[t];
  }

  /** The body that was renamed to `y` belonged to a root on the same side of the border. */
  lemma RenamedFrom(p: Program, owner: map<nat, nat>, roots: set<nat>, s: Merges, was: nat, b: nat)
    requires Recorded(p) && OwnersOf(p, owner) && Merging(owner, s) && LogWithin(s.log, roots) && was in s.replacements
    requires b in roots && s.replacements[was] in owner && owner[s.replacements[was]] == b
    ensures was in owner && owner[was] in roots && owner[was] in s.replacements && OwnedBy(p, owner[was], was)
  {
    assert RootsFollow(owner, s.replacements, was);
    var root := owner[was];
    var e := OwningEntry(p, root, was);
    RootOwner(p, owner, e);
    RootMoves(owner, roots, s, root);
  }

  /** A cross target after the pass was one before it. */
  lemma CrossBefore(p: Program, owner: map<nat, nat>, roots: set<nat>, s: Merges, a: nat, b: nat, x: nat, y: nat)
    returns (c: nat, z: nat)
    requires Recorded(p) && OwnersOf(p, owner) && Merging(owner, s) && LogWithin(s.log, roots)
    requires a in roots && b in roots && a != b && a !in s.replacements
    requires OwnedBy(p, a, x) && OwnedBy(p, b, y) && y in owner && owner[y] == b
    requires y in TargetsOf(Applied(p, s.replacements), x)
    ensures c in roots && c != a && CrossAt(p, a, c, x, z)
  {
    z := TargetBefore(p, s.replacements, x, y);
    if z in s.replacements {
      RenamedFrom(p, owner, roots, s, z, b);
      c := owner[z];
    } else {
      c := b;
    }
  }

  /** A pass over isolated roots makes no new cross target. */
  lemma CrossFreeKept(p: Program, owner: map<nat, nat>, roots: set<nat>, s: Merges, a: nat, b: nat, x: nat, y: nat)
    requires Recorded(p) && Passed(p, owner, roots, s) && a in roots && b in roots && a != b
    ensures !CrossAt(Applied(p, s.replacements), a, b, x, y)
  {
    if CrossAt(Applied(p, s.replacements), a, b, x, y) {
      OwnedByBefore(p, owner, roots, s, a, x);
      OwnedByBefore(p, owner, roots, s, b, y);
      var c, z := CrossBefore(p, owner, roots, s, a, b, x, y);
    }
  }

  /** A rooted entry whose root is not replaced is rooted after the pass. */
  lemma RootedKept(p: Program, owner: map<nat, nat>, roots: set<nat>, s: Merges, e: Entry)
    requires Recorded(p) && Published(p) && Recorded(Applied(p, s.replacements)) && OwnersOf(p, owner)
    requires Merging(owner, s) && Whole(p, owner, roots, s.replacements)
    requires e in p.entries && e.fnId !in s.replacements && Rooted(p, e)
    ensures Rooted(Applied(p, s.replacements), e)
  {
    var q, owned := Applied(p, s.replacements), Owned(p, e);
    KeptEntryOwns(p, owner, roots, s, e);
    forall part | e.fnId in part && TargetsWithin(q, part, owned) ensures owned <= part {
      forall f, y | f in part && f in owned && y in TargetsOf(p, f) && y in owned ensures y in part {
        OwnedUnreplaced(p, owner, s, e, f);
        OwnedUnreplaced(p, owner, s, e, y);
        TargetAfter(p, s.replacements, f, y);
      }
      assert TargetsWithin(p, part, owned);
    }
  }

  lemma TargetAfter(p: Program, r: map<nat, nat>, f: nat, y: nat)
    requires y in TargetsOf(p, f) && f !in r && y !in r
    ensures y in TargetsOf(Applied(p, r), f)
  {
    RetainedBody(r, p.bodies, f);
    var targets := TargetsOf(p, f);
    var t :| 0 <= t < |targets| && targets[t] == y;
    assert TargetsOf(Applied(p, r), f) == RemapAll(r, targets);
    assert RemapAll(r, targets)[t] == y;
  }

  lemma ClausesReachedKept(p: Program, owner: map<nat, nat>, roots: set<nat>, s: Merges, after: Entry)
    requires Recorded(p) && Passed(p, owner, roots, s) && after in Applied(p, s.replacements).entries
    requires after.fnId in roots
    ensures ClausesReached(Applied(p, s.replacements), after)
  {
    var e := EntryBefore(p, s.replacements, after);
    BecameRoot(p, owner, roots, s, e, after);
    if e.fnId in s.replacements {
      ReplacedEntryClauses(p, owner, roots, s, e);
    } else {
      KeptEntryOwns(p, owner, roots, s, e);
      assert after == e && ClausesReached(p, e);
      if Rooted(p, e) { RootedKept(p, owner, roots, s, e); }
    }
  }

  /** Isolated roots are isolated after a chain-free pass. */
  lemma IsolationKept(p: Program, owner: map<nat, nat>, roots: set<nat>, s: Merges)
    requires Recorded(p) && Passed(p, owner, roots, s)
    ensures Isolated(Applied(p, s.replacements), roots)
  {
    var q := Applied(p, s.replacements);
    forall a, b, x, y | a in roots && b in roots && a != b ensures !CrossAt(q, a, b, x, y) {
      CrossFreeKept(p, owner, roots, s, a, b, x, y);
    }
    forall e | e in q.entries && e.fnId in roots ensures ClausesReached(q, e) {
      ClausesReachedKept(p, owner, roots, s, e);
    }
  }

  // ------------------------------------------------------------ the whole run

  lemma FamilySplits(p: Program, groups: seq<seq<nat>>, g: nat)
    requires ValidGroups(p, groups) && Disjoint(Families(p, groups)) && g < |groups|
    ensures Split(p, groups, RootsOfGroup(p, groups[g]))
  {
    var families := Families(p, groups);
    forall h | 0 <= h < |groups| ensures AllInside(p, groups[h], families[g], h == g) {
      forall i | 0 <= i < |groups[h]| ensures RootInside(p, groups[h][i], families[g], h == g) {
        assert p.entries[groups[h][i]].fnId in families[h];
      }
    }
  }

  lemma FamilyLogs(families: seq<set<nat>>, g: nat, log: seq<(nat, nat)>)
    requires Disjoint(families) && g < |families| && LoggedInside(families, log)
    ensures LogWithin(log, families[g])
  {
    forall t | 0 <= t < |log| ensures log[t].0 in families[g] <==> log[t].1 in families[g] {
      var h :| 0 <= h < |families| && log[t].0 in families[h] && log[t].1 in families[h];
    }
  }

  lemma FewerIsolated(p: Program, roots: set<nat>, fewer: set<nat>)
    requires Recorded(p) && Isolated(p, roots) && fewer <= roots
    ensures Isolated(p, fewer)
  {}

  lemma FewerAreNoMore(s: set<nat>, t: set<nat>)
    requires s <= t
    ensures |s| <= |t|
  {
    assert t == s + (t - s);
  }

  lemma NothingIsWhole(p: Program, owner: map<nat, nat>, roots: set<nat>)
    requires Recorded(p)
    ensures Whole(p, owner, roots, map[])
  {}

  /** An isolated family is isolated after the pass. */
  lemma FamilyStaysIsolated(p: Program, groups: seq<seq<nat>>, owner: map<nat, nat>, g: nat, s: Merges)
    requires Indexed(p) && ValidGroups(p, groups) && OwnersOf(p, owner) && Disjoint(Families(p, groups)) && g < |groups|
    requires Isolated(p, RootsOfGroup(p, groups[g])) && s == PassOf(p, groups) && Merging(owner, s)
    requires ChainFree(s.replacements) && LoggedInside(Families(p, groups), s.log)
    requires Recorded(Applied(p, s.replacements))
    ensures Isolated(Applied(p, s.replacements), RootsOfGroup(p, groups[g]))
  {
    var roots := RootsOfGroup(p, groups[g]);
    FamilySplits(p, groups, g);
    FamilyLogs(Families(p, groups), g, s.log);
    NothingIsWhole(p, owner, roots);
    GroupsWhole(p, owner, roots, groups, 0, Merges(map[], []));
    IsolationKept(p, owner, roots, s);
  }

  lemma FamilyStaysCalm(p: Program, groups: seq<seq<nat>>, owner: map<nat, nat>, g: nat, s: Merges)
    requires Indexed(p) && ValidGroups(p, groups) && OwnersOf(p, owner) && Disjoint(Families(p, groups)) && g < |groups|
    requires Calm(p, RootsOfGroup(p, groups[g])) && s == PassOf(p, groups) && Merging(owner, s)
    requires ChainFree(s.replacements) && LoggedInside(Families(p, groups), s.log)
    requires Recorded(Applied(p, s.replacements))
    ensures ValidGroups(Applied(p, s.replacements), groups)
    ensures Calm(Applied(p, s.replacements), RootsOfGroup(Applied(p, s.replacements), groups[g]))
  {
    var q, was := Applied(p, s.replacements), RootsOfGroup(p, groups[g]);
    FamilyShrinks(p, groups, owner, s, g);
    var now := RootsOfGroup(q, groups[g]);
    if Isolated(p, was) {
      FamilyStaysIsolated(p, groups, owner, g, s);
      FewerIsolated(q, was, now);
    } else {
      FewerAreNoMore(now, was);
    }
  }

  lemma FamiliesStayApart(p: Program, groups: seq<seq<nat>>, owner: map<nat, nat>, s: Merges)
    requires Recorded(p) && ValidGroups(p, groups) && OwnersOf(p, owner) && Merging(owner, s)
    requires Disjoint(Families(p, groups)) && LoggedInside(Families(p, groups), s.log)
    ensures ValidGroups(Applied(p, s.replacements), groups) && Disjoint(Families(Applied(p, s.replacements), groups))
  {
    var before, after := Families(p, groups), Applied(p, s.replacements);
    forall g | 0 <= g < |groups| ensures ValidGroups(after, groups) && Families(after, groups)[g] <= before[g] {
      FamilyShrinks(p, groups, owner, s, g);
    }
  }

  /** Calm groups are calm after a pass. */
  lemma CalmKept(p: Program, groups: seq<seq<nat>>)
    requires Indexed(p) && ValidGroups(p, groups) && CalmGroups(p, groups) && ChainFree(PassOf(p, groups).replacements)
    ensures
      var q := Applied(p, PassOf(p, groups).replacements);
      Recorded(q) && Published(q) && ValidGroups(q, groups) && CalmGroups(q, groups)
  {
    var s := PassOf(p, groups);
    PassKeepsPublished(p, groups);
    var owner := OwnersExist(p);
    MergeGroupsKeeps(p, owner, groups, 0, Merges(map[], []));
    GroupsLogInside(p, groups, 0, Merges(map[], []));
    FamiliesStayApart(p, groups, owner, s);
    forall g | 0 <= g < |groups|
      ensures Calm(Applied(p, s.replacements), RootsOfGroup(Applied(p, s.replacements), groups[g]))
    {
      FamilyStaysCalm(p, groups, owner, g, s);
    }
  }

  lemma CalmIsChainFree(p: Program, groups: seq<seq<nat>>)
    requires Recorded(p) && Published(p) && ValidGroups(p, groups) && CalmGroups(p, groups)
    ensures ChainFree(PassOf(p, groups).replacements)
  {
    MarketDescribes(p);
    CalmPassIsSafe(p, groups, MarketOf(p));
    PassIsSafeExactly(p, groups);
  }

  lemma {:induction false} CalmRunsIntact(p: Program, groups: seq<seq<nat>>)
    requires Recorded(p) && Published(p) && ValidGroups(p, groups) && CalmGroups(p, groups)
    ensures RunOf(p, groups).intact
    decreases |p.bodies|
  {
    IndexedPublished(p);
    CalmIsChainFree(p, groups);
    if PassOf(p, groups).replacements != map[] {
      PassShrinks(p, groups);
      CalmKept(p, groups);
      CalmRunsIntact(Applied(p, PassOf(p, groups).replacements), groups);
    }
  }

  /**
   Sharing calm groups to the fixpoint keeps what every entry unfolds to, for any
   number of siblings: each group has at most two roots, or its roots do not
   target one another and reach the clauses published with them.
   */
  lemma CalmSharingKeepsMeaning(p: Program, groups: seq<seq<nat>>)
    requires Recorded(p) && Published(p) && ValidGroups(p, groups) && CalmGroups(p, groups)
    ensures RunOf(p, groups).intact && PublishedKept(p, RunOf(p, groups).program)
  {
    CalmRunsIntact(p, groups);
    SharingKeepsMeaningExactly(p, groups);
  }

  /** No program the passes go through gives a leader away. */
  ghost predicate SafeThroughout(p: Program, groups: seq<seq<nat>>)
    requires Recorded(p) && Published(p) && ValidGroups(p, groups)
    decreases |p.bodies|
  {
    IndexedPublished(p);
    PassIsSafeExactly(p, groups);
    var r := PassOf(p, groups).replacements;
    if GivesAwayALeader(MarketOf(p), groups) then false
    else if r == map[] then true
    else
      PassShrinks(p, groups);
      PassKeepsPublished(p, groups);
      SafeThroughout(Applied(p, r), groups)
  }

  lemma {:induction false} RunIsSafeExactly(p: Program, groups: seq<seq<nat>>)
    requires Recorded(p) && Published(p) && ValidGroups(p, groups)
    ensures RunOf(p, groups).intact <==> SafeThroughout(p, groups)
    decreases |p.bodies|
  {
    IndexedPublished(p);
    PassIsSafeExactly(p, groups);
    var r := PassOf(p, groups).replacements;
    if r != map[] && ChainFree(r) {
      PassShrinks(p, groups);
      PassKeepsPublished(p, groups);
      RunIsSafeExactly(Applied(p, r), groups);
    }
  }

  /**
   Sharing keeps every entry if and only if no program on the way gives a leader
   away; a start that gives one away loses an entry for good.
   */
  lemma SharingIsSafeExactly(p: Program, groups: seq<seq<nat>>)
    requires Recorded(p) && Published(p) && ValidGroups(p, groups)
    ensures PublishedKept(p, RunOf(p, groups).program) <==> SafeThroughout(p, groups)
    ensures GivesAwayALeader(MarketOf(p), groups) ==> !PublishedKept(p, RunOf(p, groups).program)
  {
    SharingKeepsMeaningExactly(p, groups);
    RunIsSafeExactly(p, groups);
  }
}
