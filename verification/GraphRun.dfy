/** Native graph sharing run to its fixpoint: it stops, and when every entry keeps its meaning. */
module GraphRun {
  import opened GraphSharing
  import opened GraphPass

  // ------------------------------------------------- what a pass leaves behind

  ghost predicate DistinctBodies(bodies: seq<Body>) {
    && (forall i, j :: 0 <= i < j < |bodies| ==> bodies[i].fnId != bodies[j].fnId)
    && (forall i, j :: 0 <= i < j < |bodies| && bodies[i].origin.Clause? ==> bodies[i].origin != bodies[j].origin)
  }

  lemma {:induction false} RetainedSource(r: map<nat, nat>, bodies: seq<Body>, b: Body)
    requires b in Retained(r, bodies)
    ensures exists a :: a in bodies && b == RemapBody(r, a)
  {
    if bodies[0].fnId !in r && b == RemapBody(r, bodies[0]) {
      assert bodies[0] in bodies;
    } else {
      RetainedSource(r, bodies[1..], b);
      var a :| a in bodies[1..] && b == RemapBody(r, a);
      assert a in bodies;
    }
  }

  lemma {:induction false} RetainedDistinct(r: map<nat, nat>, bodies: seq<Body>)
    requires DistinctBodies(bodies)
    ensures DistinctBodies(Retained(r, bodies))
  {
    if bodies != [] {
      RetainedDistinct(r, bodies[1..]);
      if bodies[0].fnId !in r {
        var rest := Retained(r, bodies[1..]);
        var head := RemapBody(r, bodies[0]);
        forall j | 0 <= j < |rest|
          ensures head.fnId != rest[j].fnId && (head.origin.Clause? ==> head.origin != rest[j].origin)
        {
          RetainedSource(r, bodies[1..], rest[j]);
          var a :| a in bodies[1..] && rest[j] == RemapBody(r, a);
          var k :| 0 <= k < |bodies[1..]| && bodies[1..][k] == a;
          assert bodies[k + 1] == a;
        }
        assert Retained(r, bodies) == [head] + rest;
      }
    }
  }

  lemma RootOwner(p: Program, owner: map<nat, nat>, e: Entry)
    requires Recorded(p) && OwnersOf(p, owner) && e in p.entries
    ensures e.fnId in owner && owner[e.fnId] == e.fnId
  {
    assert e.fnId in Roots(p, e);
    assert AllOwnedBy(owner, Owned(p, e), e.fnId);
  }

  lemma RootEntry(p: Program, owner: map<nat, nat>, x: nat)
    requires Recorded(p) && OwnersOf(p, owner) && x in owner && owner[x] == x
    ensures exists d :: d in p.entries && d.fnId == x
  {
    assert OwnedBy(p, x, x);
  }

  /** A replaced root is replaced by a root, in one logged merge. */
  lemma RootReplacedByRoot(owner: map<nat, nat>, s: Merges, root: nat)
    requires Merging(owner, s) && root in s.replacements && root in owner && owner[root] == root
    ensures (s.replacements[root], root) in s.log
    ensures s.replacements[root] in owner && owner[s.replacements[root]] == s.replacements[root]
  {
    assert RootLogged(owner, s, root);
    var t :| 0 <= t < |s.log| && s.log[t] == (s.replacements[root], root);
    assert LogSound(owner, s, t);
  }

  ghost predicate PublishedAt(p: Program, f: nat) {
    BodyOf(p.bodies, f).Some? && BodyOf(p.bodies, f).value.origin.Executable?
  }

  lemma RetainedPublished(p: Program, r: map<nat, nat>, f: nat)
    requires PublishedAt(p, f) && f !in r
    ensures PublishedAt(Applied(p, r), f)
  {
    RetainedBody(r, p.bodies, f);
  }

  lemma EntryStaysPublished(p: Program, owner: map<nat, nat>, s: Merges, e: Entry)
    requires Recorded(p) && Published(p) && OwnersOf(p, owner) && e in p.entries
    requires Merging(owner, s) && ChainFree(s.replacements)
    ensures PublishedAt(Applied(p, s.replacements), Remap(s.replacements, e.fnId))
  {
    var f := Remap(s.replacements, e.fnId);
    assert PublishedAt(p, f) by {
      if e.fnId in s.replacements {
        RootOwner(p, owner, e);
        RootReplacedByRoot(owner, s, e.fnId);
        RootEntry(p, owner, f);
      }
    }
    RetainedPublished(p, s.replacements, f);
  }

  /** After a pass that does not chain, ownership is still recorded once and every entry published. */
  lemma PassKeepsPublished(p: Program, groups: seq<seq<nat>>)
    requires Indexed(p) && ValidGroups(p, groups) && ChainFree(PassOf(p, groups).replacements)
    ensures
      var q := Applied(p, PassOf(p, groups).replacements);
      Recorded(q) && Published(q) && ValidGroups(q, groups)
  {
    var s := PassOf(p, groups);
    var owner := OwnersExist(p);
    MergeGroupsKeeps(p, owner, groups, 0, Merges(map[], []));
    AppliedPublished(p, owner, s);
  }

  lemma AppliedPublished(p: Program, owner: map<nat, nat>, s: Merges)
    requires Recorded(p) && Published(p) && OwnersOf(p, owner) && Merging(owner, s) && ChainFree(s.replacements)
    ensures Recorded(Applied(p, s.replacements)) && Published(Applied(p, s.replacements))
  {
    var q := Applied(p, s.replacements);
    RetainedDistinct(s.replacements, p.bodies);
    forall d | d in q.entries
      ensures PublishedAt(q, d.fnId)
    {
      var i :| 0 <= i < |q.entries| && q.entries[i] == d;
      EntryStaysPublished(p, owner, s, p.entries[i]);
    }
  }

  /** A pass that replaces anything strictly shrinks the inventory. */
  lemma PassShrinks(p: Program, groups: seq<seq<nat>>)
    requires Indexed(p) && ValidGroups(p, groups) && PassOf(p, groups).replacements != map[]
    ensures |Applied(p, PassOf(p, groups).replacements).bodies| < |p.bodies|
  {
    var r := PassOf(p, groups).replacements;
    var owner := OwnersExist(p);
    MergeGroupsKeeps(p, owner, groups, 0, Merges(map[], []));
    var x :| x in r;
    assert AlikeAt(p, r, x);
    RetainedShrinks(r, p.bodies);
  }

  // ------------------------------------------------------------ the whole run

  datatype Run = Run(program: Program, intact: bool)

  /**
   Passes until nothing is replaced. A pass whose replacements chain leaves an
   entry without a body; the run is reported as not intact and ends there.
   */
  ghost function RunOf(p: Program, groups: seq<seq<nat>>): Run
    requires Recorded(p) && Published(p) && ValidGroups(p, groups)
    decreases |p.bodies|
  {
    IndexedPublished(p);
    var r := PassOf(p, groups).replacements;
    if r == map[] then Run(p, true)
    else if !ChainFree(r) then Run(Applied(p, r), false)
    else
      PassShrinks(p, groups);
      PassKeepsPublished(p, groups);
      RunOf(Applied(p, r), groups)
  }

  /**
   Sharing preserves meaning and stops: the run ends at a program with nothing
   left to replace, and every entry unfolds as it did, at every depth, exactly
   when no pass of the run retired one of its own representatives.
   */
  lemma {:induction false} SharingKeepsMeaningExactly(p: Program, groups: seq<seq<nat>>)
    requires Recorded(p) && Published(p) && ValidGroups(p, groups)
    ensures PublishedKept(p, RunOf(p, groups).program) <==> RunOf(p, groups).intact
    ensures RunOf(p, groups).intact ==>
      var q := RunOf(p, groups).program;
      Indexed(q) && ValidGroups(q, groups) && PassOf(q, groups).replacements == map[]
    ensures |RunOf(p, groups).program.bodies| <= |p.bodies|
    decreases |p.bodies|
  {
    IndexedPublished(p);
    PassKeepsMeaningExactly(p, groups);
    var s := PassOf(p, groups);
    var q := Applied(p, s.replacements);
    var owner := OwnersExist(p);
    MergeGroupsKeeps(p, owner, groups, 0, Merges(map[], []));
    ChainsExactlyWhenRetiring(owner, s);
    if s.replacements != map[] {
      PassShrinks(p, groups);
      if ChainFree(s.replacements) {
        PassKeepsPublished(p, groups);
        SharingKeepsMeaningExactly(q, groups);
        KeptComposes(p, q, RunOf(q, groups).program);
      }
    }
  }

  lemma AcrossComposes(p: Program, f: nat, q: Program, g: nat, z: Program, h: nat)
    requires SameAcross(p, f, q, g)
    ensures SameAcross(p, f, z, h) <==> SameAcross(q, g, z, h)
  {
    if SameAcross(p, f, z, h) {
      forall n: nat ensures Unfold(z, h, n) == Unfold(q, g, n) { assert Unfold(q, g, n) == Unfold(p, f, n); }
    }
    if SameAcross(q, g, z, h) {
      forall n: nat ensures Unfold(z, h, n) == Unfold(p, f, n) { assert Unfold(q, g, n) == Unfold(p, f, n); }
    }
  }

  lemma KeptComposes(p: Program, q: Program, z: Program)
    requires PublishedKept(p, q)
    ensures PublishedKept(p, z) <==> PublishedKept(q, z)
  {
    AcrossComposes(p, p.entry, q, q.entry, z, z.entry);
    if |p.entries| == |z.entries| && |p.members| == |z.members| {
      forall i | 0 <= i < |p.entries|
        ensures SameAcross(p, p.entries[i].fnId, z, z.entries[i].fnId) <==>
          SameAcross(q, q.entries[i].fnId, z, z.entries[i].fnId)
      {
        AcrossComposes(p, p.entries[i].fnId, q, q.entries[i].fnId, z, z.entries[i].fnId);
      }
      forall i | 0 <= i < |p.members|
        ensures SameAcross(p, p.members[i], z, z.members[i]) <==> SameAcross(q, q.members[i], z, z.members[i])
      {
        AcrossComposes(p, p.members[i], q, q.members[i], z, z.members[i]);
      }
    }
  }

  // ----------------------------------------------------- nothing is left dangling

  ghost predicate ClosedBody(b: Body, ids: set<nat>) {
    && (forall t :: 0 <= t < |b.targets| ==> b.targets[t] in ids)
    && (b.origin.Continuation? ==> b.origin.parent in ids)
  }

  /** Everything the program refers to is one of its bodies. */
  ghost predicate Closed(p: Program) {
    && p.entry in Ids(p) && (forall e :: e in p.entries ==> e.fnId in Ids(p))
    && (forall i :: 0 <= i < |p.members| ==> p.members[i] in Ids(p))
    && forall b :: b in p.bodies ==> ClosedBody(b, Ids(p))
  }

  /** An id of a body names, after a chain-free application, a body that is kept. */
  lemma RemappedStays(p: Program, r: map<nat, nat>, f: nat)
    requires ChainFree(r) && f in Ids(p) && forall x :: x in r ==> r[x] in Ids(p)
    ensures Remap(r, f) in Ids(Applied(p, r))
  {
    var g := Remap(r, f);
    RetainedBody(r, p.bodies, g);
    assert BodyOf(p.bodies, g).Some?;
    assert BodyOf(Applied(p, r).bodies, g).Some?;
  }

  lemma BodyStaysClosed(p: Program, r: map<nat, nat>, b: Body)
    requires ChainFree(r) && Closed(p) && (forall x :: x in r ==> r[x] in Ids(p)) && b in Applied(p, r).bodies
    ensures ClosedBody(b, Ids(Applied(p, r)))
  {
    RetainedSource(r, p.bodies, b);
    var a :| a in p.bodies && b == RemapBody(r, a);
    assert ClosedBody(a, Ids(p));
    forall t | 0 <= t < |b.targets| ensures b.targets[t] in Ids(Applied(p, r)) { RemappedStays(p, r, a.targets[t]); }
    if a.origin.Continuation? { RemappedStays(p, r, a.origin.parent); }
  }

  /** Applying replacements that do not chain leaves no reference dangling. */
  lemma ApplicationStaysClosed(p: Program, r: map<nat, nat>)
    requires ChainFree(r) && Closed(p) && forall x :: x in r ==> r[x] in Ids(p)
    ensures Closed(Applied(p, r))
  {
    var q := Applied(p, r);
    RemappedStays(p, r, p.entry);
    forall e | e in q.entries ensures e.fnId in Ids(q) {
      var i :| 0 <= i < |q.entries| && q.entries[i] == e;
      assert p.entries[i] in p.entries;
      RemappedStays(p, r, p.entries[i].fnId);
    }
    forall i | 0 <= i < |q.members| ensures q.members[i] in Ids(q) { RemappedStays(p, r, p.members[i]); }
    forall b | b in q.bodies ensures ClosedBody(b, Ids(q)) { BodyStaysClosed(p, r, b); }
  }

  /** Replacements lead to bodies of the program. */
  lemma ReplacementsAreBodies(p: Program, owner: map<nat, nat>, s: Merges, x: nat)
    requires Recorded(p) && Published(p) && OwnersOf(p, owner) && Merging(owner, s) && x in s.replacements
    ensures s.replacements[x] in Ids(p)
  {
    assert RootsFollow(owner, s.replacements, x);
    var y := s.replacements[x];
    assert OwnedBy(p, owner[y], y);
    var e :| e in p.entries && e.fnId == owner[y] && y in Owned(p, e);
    OwnedAreBodies(p, e);
  }

  lemma OwnedAreBodies(p: Program, e: Entry)
    requires Recorded(p) && Published(p) && e in p.entries
    ensures Owned(p, e) <= Ids(p)
  {
    assert e.fnId in Ids(p);
    forall f | f in Roots(p, e) ensures f in Ids(p) {}
  }

  lemma {:induction false} RunStaysClosed(p: Program, groups: seq<seq<nat>>)
    requires Recorded(p) && Published(p) && ValidGroups(p, groups) && Closed(p) && RunOf(p, groups).intact
    ensures Closed(RunOf(p, groups).program)
    decreases |p.bodies|
  {
    IndexedPublished(p);
    var s := PassOf(p, groups);
    if s.replacements != map[] {
      var owner := OwnersExist(p);
      MergeGroupsKeeps(p, owner, groups, 0, Merges(map[], []));
      forall x | x in s.replacements ensures s.replacements[x] in Ids(p) { ReplacementsAreBodies(p, owner, s, x); }
      ApplicationStaysClosed(p, s.replacements);
      PassShrinks(p, groups);
      PassKeepsPublished(p, groups);
      RunStaysClosed(Applied(p, s.replacements), groups);
    }
  }

  // ------------------------------------------------- the roots of sibling groups

  /** The roots each sibling group publishes. */
  ghost function Families(p: Program, groups: seq<seq<nat>>): (r: seq<set<nat>>)
    requires ValidGroups(p, groups)
    ensures |r| == |groups|
    ensures forall g :: 0 <= g < |groups| ==> r[g] == RootsOfGroup(p, groups[g])
  {
    seq(|groups|, g requires 0 <= g < |groups| => RootsOfGroup(p, groups[g]))
  }

  ghost function RootsOfGroup(p: Program, group: seq<nat>): set<nat>
    requires ValidGroup(p, group)
  {
    set i | 0 <= i < |group| :: p.entries[group[i]].fnId
  }

  /** No two sibling groups share a root. */
  ghost predicate Disjoint(families: seq<set<nat>>) {
    forall g, h :: 0 <= g < h < |families| ==> families[g] !! families[h]
  }

  ghost predicate InFamily(families: seq<set<nat>>, a: nat, b: nat) {
    exists g :: 0 <= g < |families| && a in families[g] && b in families[g]
  }

  ghost predicate LoggedInside(families: seq<set<nat>>, log: seq<(nat, nat)>) {
    forall t {:trigger log[t]} :: 0 <= t < |log| ==> InFamily(families, log[t].0, log[t].1)
  }

  lemma MergeLogsAtMostOne(p: Program, e: Entry, d: Entry, s: Merges)
    requires Indexed(p) && e in p.entries && d in p.entries
    ensures MergeOne(p, e, d, s).log == s.log || MergeOne(p, e, d, s).log == s.log + [(e.fnId, d.fnId)]
  {}

  lemma LogGrowsInside(families: seq<set<nat>>, g: nat, log: seq<(nat, nat)>, next: seq<(nat, nat)>, a: nat, b: nat)
    requires LoggedInside(families, log) && g < |families| && a in families[g] && b in families[g]
    requires next == log || next == log + [(a, b)]
    ensures LoggedInside(families, next)
  {
    assert InFamily(families, a, b);
  }

  ghost predicate RootAmong(p: Program, roots: set<nat>, a: nat) {
    a < |p.entries| ==> p.entries[a].fnId in roots
  }

  ghost predicate RootsAmong(p: Program, roots: set<nat>, group: seq<nat>) {
    forall i {:trigger RootAmong(p, roots, group[i])} :: 0 <= i < |group| ==> RootAmong(p, roots, group[i])
  }

  lemma {:induction false} RightsLogInside(
    p: Program, families: seq<set<nat>>, g: nat, group: seq<nat>, left: nat, j: nat, s: Merges)
    requires Indexed(p) && ValidGroup(p, group) && j <= |group| && left < |p.entries|
    requires g < |families| && RootsAmong(p, families[g], group) && RootAmong(p, families[g], left)
    requires LoggedInside(families, s.log)
    ensures LoggedInside(families, MergeRights(p, group, left, j, s).log)
    decreases |group| - j
  {
    if j < |group| {
      var e, d := p.entries[left], p.entries[group[j]];
      assert RootAmong(p, families[g], group[j]);
      MergeLogsAtMostOne(p, e, d, s);
      LogGrowsInside(families, g, s.log, MergeOne(p, e, d, s).log, e.fnId, d.fnId);
      RightsLogInside(p, families, g, group, left, j + 1, MergeOne(p, e, d, s));
    }
  }

  lemma {:induction false} LeftsLogInside(
    p: Program, families: seq<set<nat>>, g: nat, group: seq<nat>, o: nat, compared: set<nat>, s: Merges)
    requires Indexed(p) && ValidGroup(p, group) && o <= |group|
    requires g < |families| && RootsAmong(p, families[g], group) && LoggedInside(families, s.log)
    ensures LoggedInside(families, MergeLefts(p, group, o, compared, s).log)
    decreases |group| - o
  {
    if o < |group| {
      var root := p.entries[group[o]].fnId;
      if root in s.replacements || root in compared {
        LeftsLogInside(p, families, g, group, o + 1, compared, s);
      } else {
        assert RootAmong(p, families[g], group[o]);
        RightsLogInside(p, families, g, group, group[o], o + 1, s);
        LeftsLogInside(p, families, g, group, o + 1, compared + {root}, MergeRights(p, group, group[o], o + 1, s));
      }
    }
  }

  lemma GroupIsAmong(p: Program, groups: seq<seq<nat>>, g: nat)
    requires ValidGroups(p, groups) && g < |groups|
    ensures RootsAmong(p, Families(p, groups)[g], groups[g])
  {}

  lemma {:induction false} GroupsLogInside(p: Program, groups: seq<seq<nat>>, g: nat, s: Merges)
    requires Indexed(p) && ValidGroups(p, groups) && g <= |groups| && LoggedInside(Families(p, groups), s.log)
    ensures LoggedInside(Families(p, groups), MergeGroups(p, groups, g, s).log)
    decreases |groups| - g
  {
    if g < |groups| {
      GroupIsAmong(p, groups, g);
      LeftsLogInside(p, Families(p, groups), g, groups[g], 0, {}, s);
      GroupsLogInside(p, groups, g + 1, MergeLefts(p, groups[g], 0, {}, s));
    }
  }

  lemma FamilyShrinks(p: Program, groups: seq<seq<nat>>, owner: map<nat, nat>, s: Merges, g: nat)
    requires Recorded(p) && ValidGroups(p, groups) && OwnersOf(p, owner) && Merging(owner, s)
    requires Disjoint(Families(p, groups)) && LoggedInside(Families(p, groups), s.log) && g < |groups|
    ensures ValidGroups(Applied(p, s.replacements), groups)
    ensures RootsOfGroup(Applied(p, s.replacements), groups[g]) <= Families(p, groups)[g]
  {
    var families, q := Families(p, groups), Applied(p, s.replacements);
    forall i | 0 <= i < |groups[g]|
      ensures q.entries[groups[g][i]].fnId in families[g]
    {
      assert p.entries[groups[g][i]].fnId in families[g];
      RootOwner(p, owner, p.entries[groups[g][i]]);
      RootStaysInFamily(families, owner, s, g, p.entries[groups[g][i]].fnId);
    }
  }

  lemma RootStaysInFamily(families: seq<set<nat>>, owner: map<nat, nat>, s: Merges, g: nat, root: nat)
    requires Disjoint(families) && LoggedInside(families, s.log) && Merging(owner, s)
    requires g < |families| && root in families[g] && root in owner && owner[root] == root
    ensures Remap(s.replacements, root) in families[g]
  {
    if root in s.replacements {
      RootReplacedByRoot(owner, s, root);
      var t :| 0 <= t < |s.log| && s.log[t] == (s.replacements[root], root);
      var h :| 0 <= h < |families| && s.log[t].0 in families[h] && s.log[t].1 in families[h];
    }
  }
}
