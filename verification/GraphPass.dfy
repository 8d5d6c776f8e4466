/** One pass of native graph sharing: when it preserves what every entry unfolds to, and when it does not. */
module GraphPass {
  import opened Options
  import opened GraphSharing

  // ---------------------------------------------------------------- meaning

  datatype Tree = Cut | Absent(fnId: nat) | Node(facts: int, children: seq<Tree>)

  /** What executing from `f` can observe: the facts along control targets, to depth `n`. */
  ghost function Unfold(p: Program, f: nat, n: nat): Tree
    decreases n, 0
  {
    if n == 0 then Cut
    else match BodyOf(p.bodies, f)
      case None => Absent(f)
      case Some(body) => Node(body.facts, UnfoldAll(p, body.targets, n - 1))
  }

  ghost function UnfoldAll(p: Program, fs: seq<nat>, n: nat): (r: seq<Tree>)
    ensures |r| == |fs| && forall i :: 0 <= i < |fs| ==> r[i] == Unfold(p, fs[i], n)
    decreases n, 1
  {
    seq(|fs|, i requires 0 <= i < |fs| => Unfold(p, fs[i], n))
  }

  ghost predicate SameMeaning(p: Program, x: nat, y: nat) {
    forall n: nat :: Unfold(p, x, n) == Unfold(p, y, n)
  }

  // ------------------------------------------------------------- comparison

  function Remap(m: map<nat, nat>, f: nat): nat {
    if f in m then m[f] else f
  }

  function RemapAll(m: map<nat, nat>, fs: seq<nat>): (r: seq<nat>)
    ensures |r| == |fs| && forall i :: 0 <= i < |fs| ==> r[i] == Remap(m, fs[i])
  {
    seq(|fs|, i requires 0 <= i < |fs| => Remap(m, fs[i]))
  }

  ghost predicate OneRoleEach(g: Graph) {
    forall r, s | r in g.bodies && s in g.bodies :: g.bodies[r] == g.bodies[s] ==> r == s
  }

  ghost predicate Pairs(left: Graph, right: Graph, m: map<nat, nat>)
    requires left.bodies.Keys == right.bodies.Keys
  {
    && (forall role :: role in right.bodies ==> right.bodies[role] in m && m[right.bodies[role]] == left.bodies[role])
    && (forall f :: f in m ==> exists role :: role in right.bodies && right.bodies[role] == f)
  }

  /** Bodies of one role correspond: right to left. */
  ghost function RightToLeft(left: Graph, right: Graph): (m: map<nat, nat>)
    requires left.bodies.Keys == right.bodies.Keys
    ensures OneRoleEach(right) ==> Pairs(left, right, m)
  {
    map f | f in right.bodies.Values :: var role :| role in right.bodies && right.bodies[role] == f; left.bodies[role]
  }

  /** Equal facts, and the left's control targets are the right's with the graph's own ids renamed. */
  predicate BodiesAgree(p: Program, m: map<nat, nat>, left: nat, right: nat) {
    match (BodyOf(p.bodies, left), BodyOf(p.bodies, right))
    case (Some(l), Some(r)) => l.facts == r.facts && l.targets == RemapAll(m, r.targets)
    case _ => false
  }

  ghost predicate AllAgree(p: Program, left: Graph, right: Graph, m: map<nat, nat>)
    requires left.bodies.Keys == right.bodies.Keys
  {
    forall role :: role in right.bodies ==> BodiesAgree(p, m, left.bodies[role], right.bodies[role])
  }

  ghost function Mapping(p: Program, left: Graph, right: Graph): Option<map<nat, nat>>
  {
    if !left.complete || !right.complete || left.bodies.Keys != right.bodies.Keys then None
    else
      var m := RightToLeft(left, right);
      if AllAgree(p, left, right, m) then Some(m) else None
  }

  lemma PairingIsUnique(left: Graph, right: Graph, m: map<nat, nat>, m': map<nat, nat>)
    requires left.bodies.Keys == right.bodies.Keys && Pairs(left, right, m) && Pairs(left, right, m')
    ensures m == m'
  {
    forall f | f in m
      ensures f in m' && m[f] == m'[f]
    {
      var role :| role in right.bodies && right.bodies[role] == f;
    }
    forall f | f in m'
      ensures f in m
    {
      var role :| role in right.bodies && right.bodies[role] == f;
    }
    assert m.Keys == m'.Keys;
  }

  /** The comparison as the index runs it: pair the bodies by role, then compare each pair. */
  method CompareGraphs(p: Program, left: Graph, right: Graph) returns (r: Option<map<nat, nat>>)
    requires OneRoleEach(right)
    ensures r == Mapping(p, left, right)
  {
    if !left.complete || !right.complete || left.bodies.Keys != right.bodies.Keys {
      return None;
    }
    var m: map<nat, nat> := map[];
    var todo := right.bodies.Keys;
    while todo != {}
      invariant todo <= right.bodies.Keys
      invariant forall role :: role in right.bodies && role !in todo ==>
        right.bodies[role] in m && m[right.bodies[role]] == left.bodies[role]
      invariant forall f :: f in m ==> exists role :: role in right.bodies && role !in todo && right.bodies[role] == f
    {
      var role :| role in todo;
      todo := todo - {role};
      m := m[right.bodies[role] := left.bodies[role]];
    }
    PairingIsUnique(left, right, m, RightToLeft(left, right));
    todo := right.bodies.Keys;
    while todo != {}
      invariant todo <= right.bodies.Keys
      invariant forall role :: role in right.bodies && role !in todo ==>
        BodiesAgree(p, m, left.bodies[role], right.bodies[role])
    {
      var role :| role in todo;
      todo := todo - {role};
      if !BodiesAgree(p, m, left.bodies[role], right.bodies[role]) {
        return None;
      }
    }
    r := Some(m);
  }

  /** A renaming under which every pair agrees is a bisimulation: paired bodies unfold alike at every depth. */
  lemma {:induction false} AgreementIsMeaning(p: Program, m: map<nat, nat>, f: nat, n: nat)
    requires forall x :: x in m ==> BodiesAgree(p, m, m[x], x)
    ensures Unfold(p, f, n) == Unfold(p, Remap(m, f), n)
    decreases n
  {
    if f in m && n > 0 {
      assert BodiesAgree(p, m, m[f], f);
      var l, r := BodyOf(p.bodies, m[f]).value, BodyOf(p.bodies, f).value;
      forall i | 0 <= i < |r.targets|
        ensures Unfold(p, r.targets[i], n - 1) == Unfold(p, l.targets[i], n - 1)
      {
        AgreementIsMeaning(p, m, r.targets[i], n - 1);
      }
      assert UnfoldAll(p, r.targets, n - 1) == UnfoldAll(p, l.targets, n - 1);
    }
  }

  lemma MappingIsMeaning(p: Program, left: Graph, right: Graph, m: map<nat, nat>, f: nat)
    requires OneRoleEach(right) && Mapping(p, left, right) == Some(m) && f in m
    ensures SameMeaning(p, f, m[f])
  {
    forall x | x in m
      ensures BodiesAgree(p, m, m[x], x)
    {
      var role :| role in right.bodies && right.bodies[role] == x;
    }
    forall n: nat
      ensures Unfold(p, f, n) == Unfold(p, m[f], n)
    {
      AgreementIsMeaning(p, m, f, n);
    }
  }

  // ------------------------------------------------------------ replacements

  /** The replacements of a pass, and the root pairs it merged, in order. */
  datatype Merges = Merges(replacements: map<nat, nat>, log: seq<(nat, nat)>)

  ghost predicate ValidGroup(p: Program, group: seq<nat>) {
    forall i :: 0 <= i < |group| ==> group[i] < |p.entries|
  }

  ghost predicate Indexed(p: Program) {
    Recorded(p) && Published(p) && forall e :: e in p.entries ==> GraphSound(p, e, OwnedGraph(p, e))
  }

  lemma IndexedPublished(p: Program)
    requires Recorded(p) && Published(p)
    ensures Indexed(p)
  {
    forall e | e in p.entries {
      OwnedGraphSound(p, e);
    }
  }

  /** What one comparison adds: nothing for one root or a replaced one, and otherwise the mapping it found. */
  ghost function MergeWith(leftRoot: nat, rightRoot: nat, mapping: Option<map<nat, nat>>, s: Merges): Merges {
    if rightRoot == leftRoot || rightRoot in s.replacements || mapping.None? then s
    else Merges(s.replacements + mapping.value, s.log + [(leftRoot, rightRoot)])
  }

  ghost function MergeOne(p: Program, e: Entry, d: Entry, s: Merges): Merges
    requires Recorded(p)
  {
    MergeWith(e.fnId, d.fnId, Mapping(p, OwnedGraph(p, e), OwnedGraph(p, d)), s)
  }

  /** Compare one left entry with the group's entries from `j` on. */
  ghost function MergeRights(p: Program, group: seq<nat>, left: nat, j: nat, s: Merges): Merges
    requires Recorded(p) && ValidGroup(p, group) && left < |p.entries| && j <= |group|
    decreases |group| - j
  {
    if j == |group| then s
    else MergeRights(p, group, left, j + 1, MergeOne(p, p.entries[left], p.entries[group[j]], s))
  }

  ghost function MergeLefts(p: Program, group: seq<nat>, o: nat, compared: set<nat>, s: Merges): Merges
    requires Recorded(p) && ValidGroup(p, group) && o <= |group|
    decreases |group| - o
  {
    if o == |group| then s
    else
      var root := p.entries[group[o]].fnId;
      if root in s.replacements || root in compared then MergeLefts(p, group, o + 1, compared, s)
      else MergeLefts(p, group, o + 1, compared + {root}, MergeRights(p, group, group[o], o + 1, s))
  }

  ghost function MergeGroups(p: Program, groups: seq<seq<nat>>, g: nat, s: Merges): Merges
    requires Recorded(p) && ValidGroups(p, groups) && g <= |groups|
    decreases |groups| - g
  {
    if g == |groups| then s else MergeGroups(p, groups, g + 1, MergeLefts(p, groups[g], 0, {}, s))
  }

  ghost predicate ValidGroups(p: Program, groups: seq<seq<nat>>) {
    forall i :: 0 <= i < |groups| ==> ValidGroup(p, groups[i])
  }

  ghost function PassOf(p: Program, groups: seq<seq<nat>>): Merges
    requires Recorded(p) && ValidGroups(p, groups)
  {
    MergeGroups(p, groups, 0, Merges(map[], []))
  }

  /** Some merge retires a root that an earlier merge chose as its representative. */
  ghost predicate RetiresRepresentative(log: seq<(nat, nat)>) {
    exists t, u :: 0 <= t < u < |log| && log[u].1 == log[t].0
  }

  ghost predicate ChainFree(r: map<nat, nat>) {
    forall x :: x in r ==> r[x] !in r
  }

  ghost predicate OwnedBy(p: Program, root: nat, x: nat)
    requires Recorded(p)
  {
    exists e :: e in p.entries && e.fnId == root && x in Owned(p, e)
  }

  /** The root each owned body belongs to. */
  ghost predicate OwnersOf(p: Program, owner: map<nat, nat>)
    requires Recorded(p)
  {
    && (forall x :: x in owner ==> OwnedBy(p, owner[x], x))
    && (forall e :: e in p.entries ==> AllOwnedBy(owner, Owned(p, e), e.fnId))
  }

  ghost predicate AllOwnedBy(owner: map<nat, nat>, bodies: set<nat>, root: nat) {
    forall x :: x in bodies ==> x in owner && owner[x] == root
  }

  ghost function OwnerRoot(p: Program, x: nat): (root: nat)
    requires Recorded(p)
    ensures (exists r :: OwnedBy(p, r, x)) ==> OwnedBy(p, root, x)
  {
    if r: nat :| OwnedBy(p, r, x) then r else 0
  }

  lemma OwnerRootIs(p: Program, e: Entry, x: nat)
    requires Recorded(p) && Published(p) && e in p.entries && x in Owned(p, e)
    ensures OwnerRoot(p, x) == e.fnId && OwnedBy(p, e.fnId, x)
  {
    assert OwnedBy(p, e.fnId, x);
    OnlyOwner(p, e, OwnerRoot(p, x), x);
  }

  lemma OnlyOwner(p: Program, e: Entry, root: nat, x: nat)
    requires Recorded(p) && Published(p) && e in p.entries && x in Owned(p, e) && OwnedBy(p, root, x)
    ensures root == e.fnId
  {
    var d :| d in p.entries && d.fnId == root && x in Owned(p, d);
    OwnersAgree(p, e, d, x);
  }

  ghost function OwnedBodies(p: Program): set<nat>
    requires Recorded(p)
  {
    set e, x | e in p.entries && x in Owned(p, e) :: x
  }

  lemma OwnersExist(p: Program) returns (owner: map<nat, nat>)
    requires Recorded(p) && Published(p)
    ensures OwnersOf(p, owner)
  {
    owner := map x | x in OwnedBodies(p) :: OwnerRoot(p, x);
    forall x | x in owner
      ensures OwnedBy(p, owner[x], x)
    {
      var e :| e in p.entries && x in Owned(p, e);
      OwnerRootIs(p, e, x);
    }
    forall e | e in p.entries
      ensures AllOwnedBy(owner, Owned(p, e), e.fnId)
    {
      forall x | x in Owned(p, e)
        ensures x in owner && owner[x] == e.fnId
      {
        OwnerRootIs(p, e, x);
      }
    }
  }

  /** What every prefix of a pass keeps: a body is replaced along with its root, inside the root's replacement. */
  ghost predicate Merging(owner: map<nat, nat>, s: Merges) {
    && (forall x {:trigger RootsFollow(owner, s.replacements, x)} ::
          x in s.replacements ==> RootsFollow(owner, s.replacements, x))
    && (forall x {:trigger RootLogged(owner, s, x)} :: x in s.replacements ==> RootLogged(owner, s, x))
    && (forall t {:trigger LogSound(owner, s, t)} :: 0 <= t < |s.log| ==> LogSound(owner, s, t))
    && (forall u, t :: 0 <= u < t < |s.log| ==> s.log[u].1 != s.log[t].0)
  }

  ghost predicate RootsFollow(owner: map<nat, nat>, r: map<nat, nat>, x: nat)
    requires x in r
  {
    && x in owner && r[x] in owner && owner[x] in owner && owner[owner[x]] == owner[x]
    && owner[x] in r && r[owner[x]] == owner[r[x]]
  }

  ghost predicate RootLogged(owner: map<nat, nat>, s: Merges, x: nat)
    requires x in s.replacements
  {
    x in owner && owner[x] == x ==> (s.replacements[x], x) in s.log
  }

  ghost predicate LogSound(owner: map<nat, nat>, s: Merges, t: nat)
    requires t < |s.log|
  {
    var (left, right) := s.log[t];
    && left in owner && owner[left] == left && right in owner && owner[right] == right && left != right
    && right in s.replacements && s.replacements[right] == left
  }

  lemma MergeStep(owner: map<nat, nat>, s: Merges, m: map<nat, nat>, left: nat, right: nat)
    requires Merging(owner, s)
    requires forall x :: x in m ==> x in owner && owner[x] == right && m[x] in owner && owner[m[x]] == left
    requires left in owner && owner[left] == left && right in owner && owner[right] == right && left != right
    requires right in m && m[right] == left && left !in s.replacements && right !in s.replacements
    ensures
      var next := Merges(s.replacements + m, s.log + [(left, right)]);
      Merging(owner, next) && left !in next.replacements
  {
    var next := Merges(s.replacements + m, s.log + [(left, right)]);
    forall x | x in next.replacements
      ensures RootsFollow(owner, next.replacements, x)
    {
      if x !in m {
        assert RootsFollow(owner, s.replacements, x);
      }
    }
    forall x | x in next.replacements
      ensures RootLogged(owner, next, x)
    {
      if x in m {
        assert next.log[|s.log|] == (left, right);
      } else {
        assert RootLogged(owner, s, x);
      }
    }
    forall t | 0 <= t < |next.log|
      ensures LogSound(owner, next, t)
    {
      if t < |s.log| {
        assert LogSound(owner, s, t);
      }
    }
    forall u | 0 <= u < |s.log|
      ensures next.log[u].1 != left
    {
      assert LogSound(owner, s, u);
    }
  }

  ghost predicate AllAlike(p: Program, r: map<nat, nat>) {
    forall x {:trigger AlikeAt(p, r, x)} :: x in r ==> AlikeAt(p, r, x)
  }

  ghost predicate AlikeAt(p: Program, r: map<nat, nat>, x: nat)
    requires x in r
  {
    x in Ids(p) && SameMeaning(p, x, r[x])
  }

  lemma MappedOwners(
    owner: map<nat, nat>, left: Graph, right: Graph, m: map<nat, nat>, leftRoot: nat, rightRoot: nat)
    requires GraphOwned(owner, left, leftRoot) && GraphOwned(owner, right, rightRoot)
    requires left.bodies.Keys == right.bodies.Keys && Pairs(left, right, m)
    ensures forall x :: x in m ==> x in owner && owner[x] == rightRoot && m[x] in owner && owner[m[x]] == leftRoot
    ensures rightRoot in m && m[rightRoot] == leftRoot
  {
    forall x | x in m
      ensures x in owner && owner[x] == rightRoot && m[x] in owner && owner[m[x]] == leftRoot
    {
      var role :| role in right.bodies && right.bodies[role] == x;
    }
    assert right.bodies[RootRole()] == rightRoot;
  }

  ghost predicate GraphOwned(owner: map<nat, nat>, g: Graph, root: nat) {
    && RootRole() in g.bodies && g.bodies[RootRole()] == root
    && forall role :: role in g.bodies ==> g.bodies[role] in owner && owner[g.bodies[role]] == root
  }

  lemma GraphsAreOwned(p: Program, owner: map<nat, nat>, e: Entry, g: Graph)
    requires Recorded(p) && OwnersOf(p, owner) && e in p.entries && GraphSound(p, e, g)
    ensures GraphOwned(owner, g, e.fnId)
  {
    BodiesOwned(owner, g, Owned(p, e), e.fnId);
  }

  lemma BodiesOwned(owner: map<nat, nat>, g: Graph, owned: set<nat>, root: nat)
    requires Within(g, owned) && AllOwnedBy(owner, owned, root)
    requires RootRole() in g.bodies && g.bodies[RootRole()] == root
    ensures GraphOwned(owner, g, root)
  {}

  lemma MappedAlike(p: Program, left: Graph, right: Graph, m: map<nat, nat>)
    requires OneRoleEach(right) && Mapping(p, left, right) == Some(m)
    ensures AllAlike(p, m)
  {
    forall x | x in m
      ensures AlikeAt(p, m, x)
    {
      var role :| role in right.bodies && right.bodies[role] == x;
      assert BodiesAgree(p, m, left.bodies[role], right.bodies[role]);
      MappingIsMeaning(p, left, right, m, x);
    }
  }

  lemma AlikeUnion(p: Program, r: map<nat, nat>, m: map<nat, nat>)
    requires AllAlike(p, r) && AllAlike(p, m)
    ensures AllAlike(p, r + m)
  {
    forall x | x in r + m
      ensures AlikeAt(p, r + m, x)
    {
      assert if x in m then AlikeAt(p, m, x) else AlikeAt(p, r, x);
    }
  }

  lemma MergeKeeps(p: Program, owner: map<nat, nat>, e: Entry, d: Entry, s: Merges)
    requires Indexed(p) && OwnersOf(p, owner) && e in p.entries && d in p.entries
    requires Merging(owner, s) && AllAlike(p, s.replacements) && e.fnId !in s.replacements
    ensures Merging(owner, MergeOne(p, e, d, s)) && AllAlike(p, MergeOne(p, e, d, s).replacements)
    ensures e.fnId !in MergeOne(p, e, d, s).replacements
  {
    var left, right := OwnedGraph(p, e), OwnedGraph(p, d);
    assert GraphSound(p, e, left) && GraphSound(p, d, right);
    var mapping := Mapping(p, left, right);
    if d.fnId != e.fnId && d.fnId !in s.replacements && mapping.Some? {
      assert MergeOne(p, e, d, s) == Merges(s.replacements + mapping.value, s.log + [(e.fnId, d.fnId)]);
      MappedMerge(p, owner, e, d, left, right, mapping.value, s);
    }
  }

  lemma MappedMerge(
    p: Program, owner: map<nat, nat>, e: Entry, d: Entry, left: Graph, right: Graph, m: map<nat, nat>, s: Merges)
    requires Recorded(p) && OwnersOf(p, owner) && e in p.entries && d in p.entries
    requires GraphSound(p, e, left) && GraphSound(p, d, right) && Mapping(p, left, right) == Some(m)
    requires Merging(owner, s) && AllAlike(p, s.replacements)
    requires e.fnId !in s.replacements && d.fnId !in s.replacements && d.fnId != e.fnId
    ensures
      var next := Merges(s.replacements + m, s.log + [(e.fnId, d.fnId)]);
      Merging(owner, next) && AllAlike(p, next.replacements) && e.fnId !in next.replacements
  {
    assert AllAlike(p, s.replacements + m) by {
      MappedAlike(p, left, right, m);
      AlikeUnion(p, s.replacements, m);
    }
    assert GraphOwned(owner, left, e.fnId) && GraphOwned(owner, right, d.fnId) by {
      GraphsAreOwned(p, owner, e, left);
      GraphsAreOwned(p, owner, d, right);
    }
    OwnedMerge(owner, left, right, m, e.fnId, d.fnId, s);
  }

  lemma OwnedMerge(
    owner: map<nat, nat>, left: Graph, right: Graph, m: map<nat, nat>, leftRoot: nat, rightRoot: nat, s: Merges)
    requires GraphOwned(owner, left, leftRoot) && GraphOwned(owner, right, rightRoot) && Merging(owner, s)
    requires left.bodies.Keys == right.bodies.Keys && Pairs(left, right, m)
    requires leftRoot !in s.replacements && rightRoot !in s.replacements && leftRoot != rightRoot
    ensures
      var next := Merges(s.replacements + m, s.log + [(leftRoot, rightRoot)]);
      Merging(owner, next) && leftRoot !in next.replacements
  {
    MappedOwners(owner, left, right, m, leftRoot, rightRoot);
    assert left.bodies[RootRole()] == leftRoot && right.bodies[RootRole()] == rightRoot;
    MergeStep(owner, s, m, leftRoot, rightRoot);
  }

  lemma {:induction false} MergeRightsKeeps(
      p: Program, owner: map<nat, nat>, group: seq<nat>, left: nat, j: nat, s: Merges)
    requires Indexed(p) && ValidGroup(p, group) && left < |p.entries| && j <= |group|
    requires OwnersOf(p, owner) && Merging(owner, s) && AllAlike(p, s.replacements)
    requires p.entries[left].fnId !in s.replacements
    ensures Merging(owner, MergeRights(p, group, left, j, s))
    ensures AllAlike(p, MergeRights(p, group, left, j, s).replacements)
    decreases |group| - j
  {
    if j < |group| {
      MergeKeeps(p, owner, p.entries[left], p.entries[group[j]], s);
      MergeRightsKeeps(p, owner, group, left, j + 1, MergeOne(p, p.entries[left], p.entries[group[j]], s));
    }
  }

  lemma {:induction false} MergeLeftsKeeps(
      p: Program, owner: map<nat, nat>, group: seq<nat>, o: nat, compared: set<nat>, s: Merges)
    requires Indexed(p) && ValidGroup(p, group) && o <= |group| && OwnersOf(p, owner)
    requires Merging(owner, s) && AllAlike(p, s.replacements)
    ensures Merging(owner, MergeLefts(p, group, o, compared, s))
    ensures AllAlike(p, MergeLefts(p, group, o, compared, s).replacements)
    decreases |group| - o
  {
    if o < |group| {
      var root := p.entries[group[o]].fnId;
      if root in s.replacements || root in compared {
        MergeLeftsKeeps(p, owner, group, o + 1, compared, s);
      } else {
        MergeRightsKeeps(p, owner, group, group[o], o + 1, s);
        MergeLeftsKeeps(p, owner, group, o + 1, compared + {root}, MergeRights(p, group, group[o], o + 1, s));
      }
    }
  }

  lemma {:induction false} MergeGroupsKeeps(p: Program, owner: map<nat, nat>, groups: seq<seq<nat>>, g: nat, s: Merges)
    requires Indexed(p) && ValidGroups(p, groups) && g <= |groups| && OwnersOf(p, owner)
    requires Merging(owner, s) && AllAlike(p, s.replacements)
    ensures Merging(owner, MergeGroups(p, groups, g, s)) && AllAlike(p, MergeGroups(p, groups, g, s).replacements)
    decreases |groups| - g
  {
    if g < |groups| {
      MergeLeftsKeeps(p, owner, groups[g], 0, {}, s);
      MergeGroupsKeeps(p, owner, groups, g + 1, MergeLefts(p, groups[g], 0, {}, s));
    }
  }

  /** Replacements chain exactly when the pass retires one of its own representatives. */
  lemma ChainsExactlyWhenRetiring(owner: map<nat, nat>, s: Merges)
    requires Merging(owner, s)
    ensures ChainFree(s.replacements) <==> !RetiresRepresentative(s.log)
  {
    var r := s.replacements;
    if !ChainFree(r) {
      var x :| x in r && r[x] in r;
      assert RootsFollow(owner, r, x) && RootsFollow(owner, r, r[x]);
      var retired, root := owner[r[x]], owner[x];
      assert RootLogged(owner, s, root) && RootLogged(owner, s, retired);
      assert RootsFollow(owner, r, root) && RootsFollow(owner, r, retired);
      var t :| 0 <= t < |s.log| && s.log[t] == (retired, root);
      var u :| 0 <= u < |s.log| && s.log[u] == (r[retired], retired);
      assert LogSound(owner, s, t);
    }
    if RetiresRepresentative(s.log) {
      var t, u :| 0 <= t < u < |s.log| && s.log[u].1 == s.log[t].0;
      assert LogSound(owner, s, t) && LogSound(owner, s, u);
    }
  }

  // ------------------------------------------------------------- application

  function RemapBody(r: map<nat, nat>, b: Body): Body {
    b.(origin := if b.origin.Continuation? then Continuation(Remap(r, b.origin.parent)) else b.origin,
       targets := RemapAll(r, b.targets))
  }

  /** The bodies a pass keeps, in order, with their control targets and owners remapped. */
  function Retained(r: map<nat, nat>, bodies: seq<Body>): seq<Body> {
    if bodies == [] then []
    else (if bodies[0].fnId in r then [] else [RemapBody(r, bodies[0])]) + Retained(r, bodies[1..])
  }

  function RemapEntries(r: map<nat, nat>, entries: seq<Entry>): (es: seq<Entry>)
    ensures |es| == |entries|
    ensures forall i :: 0 <= i < |entries| ==> es[i] == entries[i].(fnId := Remap(r, entries[i].fnId))
  {
    seq(|entries|, i requires 0 <= i < |entries| => entries[i].(fnId := Remap(r, entries[i].fnId)))
  }

  function Applied(p: Program, r: map<nat, nat>): Program {
    Program(Remap(r, p.entry), RemapEntries(r, p.entries), RemapAll(r, p.members), Retained(r, p.bodies))
  }

  lemma {:induction false} RetainedBody(r: map<nat, nat>, bodies: seq<Body>, f: nat)
    ensures BodyOf(Retained(r, bodies), f) ==
      if f in r || BodyOf(bodies, f).None? then None else Some(RemapBody(r, BodyOf(bodies, f).value))
  {
    if bodies != [] {
      RetainedBody(r, bodies[1..], f);
      var rest := Retained(r, bodies[1..]);
      if bodies[0].fnId in r {
        assert Retained(r, bodies) == rest;
      } else {
        assert Retained(r, bodies) == [RemapBody(r, bodies[0])] + rest;
        assert Retained(r, bodies)[1..] == rest;
      }
    }
  }

  lemma {:induction false} RetainedShrinks(r: map<nat, nat>, bodies: seq<Body>)
    ensures |Retained(r, bodies)| <= |bodies|
    ensures (exists b :: b in bodies && b.fnId in r) ==> |Retained(r, bodies)| < |bodies|
  {
    if bodies != [] {
      RetainedShrinks(r, bodies[1..]);
    }
  }

  ghost predicate SameAcross(p: Program, f: nat, q: Program, g: nat) {
    forall n: nat :: Unfold(q, g, n) == Unfold(p, f, n)
  }

  /**
   Everything published unfolds to what it did, at every depth: the program's
   entry, each entry by its key, each member.
   */
  ghost predicate PublishedKept(p: Program, q: Program) {
    && SameAcross(p, p.entry, q, q.entry)
    && |p.entries| == |q.entries| && |p.members| == |q.members|
    && (forall i :: 0 <= i < |p.entries| ==>
          p.entries[i].key == q.entries[i].key && SameAcross(p, p.entries[i].fnId, q, q.entries[i].fnId))
    && (forall i :: 0 <= i < |p.members| ==> SameAcross(p, p.members[i], q, q.members[i]))
  }

  /** What a pass must keep. */
  ghost predicate KeepsMeaning(p: Program, r: map<nat, nat>) {
    PublishedKept(p, Applied(p, r))
  }

  /** With no chains, every function id, entry or not, unfolds after the pass as before it. */
  lemma {:induction false} ApplicationKeeps(p: Program, r: map<nat, nat>, f: nat, n: nat)
    requires ChainFree(r) && AllAlike(p, r)
    ensures Unfold(Applied(p, r), Remap(r, f), n) == Unfold(p, f, n)
    decreases n, 0
  {
    var q, g := Applied(p, r), Remap(r, f);
    assert Unfold(p, f, n) == Unfold(p, g, n) by {
      if f in r { assert AlikeAt(p, r, f); }
    }
    assert Unfold(q, g, n) == Unfold(p, g, n) by {
      assert g !in r;
      RetainedBody(r, p.bodies, g);
      if n > 0 && BodyOf(p.bodies, g).Some? {
        TargetsKeep(p, r, BodyOf(p.bodies, g).value.targets, n - 1);
      }
    }
  }

  lemma {:induction false} TargetsKeep(p: Program, r: map<nat, nat>, targets: seq<nat>, n: nat)
    requires ChainFree(r) && AllAlike(p, r)
    ensures UnfoldAll(Applied(p, r), RemapAll(r, targets), n) == UnfoldAll(p, targets, n)
    decreases n, 1
  {
    forall i | 0 <= i < |targets|
      ensures Unfold(Applied(p, r), Remap(r, targets[i]), n) == Unfold(p, targets[i], n)
    {
      ApplicationKeeps(p, r, targets[i], n);
    }
  }

  lemma KeptAcross(p: Program, r: map<nat, nat>, f: nat)
    requires ChainFree(r) && AllAlike(p, r)
    ensures SameAcross(p, f, Applied(p, r), Remap(r, f))
  {
    forall n: nat ensures Unfold(Applied(p, r), Remap(r, f), n) == Unfold(p, f, n) { ApplicationKeeps(p, r, f, n); }
  }

  /** With no chains everything published is kept: the entry, the entries and the members. */
  lemma ApplicationKeepsAll(p: Program, r: map<nat, nat>)
    requires ChainFree(r) && AllAlike(p, r)
    ensures KeepsMeaning(p, r)
  {
    KeptAcross(p, r, p.entry);
    forall i | 0 <= i < |p.entries|
      ensures SameAcross(p, p.entries[i].fnId, Applied(p, r), Applied(p, r).entries[i].fnId)
    {
      KeptAcross(p, r, p.entries[i].fnId);
    }
    forall i | 0 <= i < |p.members| ensures SameAcross(p, p.members[i], Applied(p, r), Applied(p, r).members[i]) {
      KeptAcross(p, r, p.members[i]);
    }
  }

  /**
   A pass keeps the meaning of every entry if and only if it never retires a
   root it has already chosen as a representative.
   */
  lemma PassKeepsMeaningExactly(p: Program, groups: seq<seq<nat>>)
    requires Indexed(p) && ValidGroups(p, groups)
    ensures KeepsMeaning(p, PassOf(p, groups).replacements) <==> !RetiresRepresentative(PassOf(p, groups).log)
  {
    var s := PassOf(p, groups);
    var owner := OwnersExist(p);
    MergeGroupsKeeps(p, owner, groups, 0, Merges(map[], []));
    ChainsExactlyWhenRetiring(owner, s);
    if ChainFree(s.replacements) {
      ApplicationKeepsAll(p, s.replacements);
    } else {
      var t, u :| 0 <= t < u < |s.log| && s.log[u].1 == s.log[t].0;
      EntryDangles(p, owner, s, t, u);
    }
  }

  /** The entry whose root was merged into a retired representative is left without a body. */
  lemma EntryDangles(p: Program, owner: map<nat, nat>, s: Merges, t: nat, u: nat)
    requires Recorded(p) && Published(p) && OwnersOf(p, owner) && Merging(owner, s)
    requires t < u < |s.log| && s.log[u].1 == s.log[t].0
    ensures !KeepsMeaning(p, s.replacements)
  {
    var root, r := s.log[t].1, s.replacements;
    assert LogSound(owner, s, t) && LogSound(owner, s, u);
    assert OwnedBy(p, owner[root], root);
    var e :| e in p.entries && e.fnId == root;
    assert r[root] == s.log[t].0 && r[root] in r;
    LostBody(p, r, e);
  }

  /** An entry sent to a body that is dropped is not kept. */
  lemma LostBody(p: Program, r: map<nat, nat>, e: Entry)
    requires Published(p) && e in p.entries && e.fnId in r && r[e.fnId] in r
    ensures !KeepsMeaning(p, r)
  {
    var q := Applied(p, r);
    var i :| 0 <= i < |p.entries| && p.entries[i] == e;
    RetainedBody(r, p.bodies, r[e.fnId]);
    assert q.entries[i].fnId == r[e.fnId];
    assert Unfold(q, r[e.fnId], 1).Absent? && Unfold(p, e.fnId, 1).Node?;
    assert !SameAcross(p, e.fnId, q, q.entries[i].fnId);
  }
}
