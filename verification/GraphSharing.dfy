/**
 Sharing equivalent native CPS graphs between sibling executables: the owned
 graph of an entry, the structural comparison, and one pass of replacements.
 */
module GraphSharing {
  import opened Options
  import opened Naturals

  datatype Origin =
    | Executable(key: nat)
    | CallableWrapper
    | Clause(owner: nat, index: nat)
    | Continuation(parent: nat)

  /** A native body: everything code generation reads, and its ordered control targets. */
  datatype Body = Body(fnId: nat, origin: Origin, facts: int, targets: seq<nat>)

  datatype Entry = Entry(key: nat, fnId: nat)

  datatype Program = Program(entry: nat, entries: seq<Entry>, members: seq<nat>, bodies: seq<Body>)

  function BodyOf(bodies: seq<Body>, f: nat): (r: Option<Body>)
    ensures r.Some? ==> r.value in bodies && r.value.fnId == f
    ensures r.None? ==> forall b :: b in bodies ==> b.fnId != f
  {
    if bodies == [] then None
    else if bodies[0].fnId == f then Some(bodies[0])
    else BodyOf(bodies[1..], f)
  }

  function Ids(p: Program): set<nat> {
    set b | b in p.bodies :: b.fnId
  }

  function TargetsOf(p: Program, f: nat): seq<nat> {
    match BodyOf(p.bodies, f)
    case None => []
    case Some(body) => body.targets
  }

  // --------------------------------------------------------------- ownership

  /** One ownership record per body and per clause index, and one entry per key. */
  ghost predicate Recorded(p: Program) {
    && (forall i, j :: 0 <= i < j < |p.bodies| ==> p.bodies[i].fnId != p.bodies[j].fnId)
    && (forall i, j :: 0 <= i < j < |p.bodies| && p.bodies[i].origin.Clause? ==>
          p.bodies[i].origin != p.bodies[j].origin)
    && (forall i, j :: 0 <= i < j < |p.entries| ==> p.entries[i].key != p.entries[j].key)
  }

  /** Every entry is published at an executable body. */
  ghost predicate Published(p: Program) {
    forall e :: e in p.entries ==>
      BodyOf(p.bodies, e.fnId).Some? && BodyOf(p.bodies, e.fnId).value.origin.Executable?
  }

  lemma BodyIsUnique(p: Program, b: Body)
    requires Recorded(p) && b in p.bodies
    ensures BodyOf(p.bodies, b.fnId) == Some(b)
  {
    var found := BodyOf(p.bodies, b.fnId).value;
    var i :| 0 <= i < |p.bodies| && p.bodies[i] == b;
    var j :| 0 <= j < |p.bodies| && p.bodies[j] == found;
  }

  function ClauseBodies(p: Program, key: nat): map<nat, nat>
    requires Recorded(p)
  {
    map b | b in p.bodies && b.origin.Clause? && b.origin.owner == key :: b.origin.index := b.fnId
  }

  function ContinuationsOf(p: Program, f: nat): set<nat> {
    set b | b in p.bodies && b.origin == Continuation(f) :: b.fnId
  }

  function Roots(p: Program, e: Entry): set<nat>
    requires Recorded(p)
  {
    var clauses := ClauseBodies(p, e.key);
    {e.fnId} + (set i | i in clauses :: clauses[i])
  }

  /** Everything reached from `s` by continuation ownership. */
  ghost function Close(p: Program, s: set<nat>): (r: set<nat>)
    ensures s <= r <= s + Ids(p)
    ensures forall f :: f in r ==> ContinuationsOf(p, f) <= r
    decreases Ids(p) - s
  {
    var more := set f, c | f in s && c in ContinuationsOf(p, f) :: c;
    if more <= s then s
    else
      var c :| c in more && c !in s;
      assert c in Ids(p) - s;
      Close(p, s + more)
  }

  lemma {:induction false} CloseIsLeast(p: Program, s: set<nat>, closed: set<nat>)
    requires s <= closed && forall f :: f in closed ==> ContinuationsOf(p, f) <= closed
    ensures Close(p, s) <= closed
    decreases Ids(p) - s
  {
    var more := set f, c | f in s && c in ContinuationsOf(p, f) :: c;
    if !(more <= s) {
      var c :| c in more && c !in s;
      assert c in Ids(p) - s;
      CloseIsLeast(p, s + more, closed);
    }
  }

  ghost function Owned(p: Program, e: Entry): set<nat>
    requires Recorded(p)
  {
    Close(p, Roots(p, e))
  }

  ghost predicate ContinuedWithin(p: Program, owned: set<nat>, all: set<nat>) {
    forall f :: f in owned ==> ContinuationsOf(p, f) <= all
  }

  lemma ContinuedStep(p: Program, owned: set<nat>, frontier: set<nat>, f: nat)
    requires f in frontier && ContinuedWithin(p, owned, owned + frontier)
    ensures f in owned ==> ContinuedWithin(p, owned, owned + (frontier - {f}))
    ensures ContinuedWithin(p, owned + {f}, owned + {f} + (frontier - {f} + ContinuationsOf(p, f)))
  {
    assert owned + frontier <= owned + {f} + (frontier - {f});
  }

  /** The ownership walk: a worklist emptied one body at a time. */
  method CollectOwned(p: Program, e: Entry) returns (owned: set<nat>)
    requires Recorded(p)
    ensures owned == Owned(p, e)
  {
    ghost var goal := Owned(p, e);
    owned := {};
    var frontier := Roots(p, e);
    while frontier != {}
      invariant owned <= goal && frontier <= goal
      invariant Roots(p, e) <= owned + frontier
      invariant ContinuedWithin(p, owned, owned + frontier)
      decreases goal - owned, |frontier|
    {
      var f :| f in frontier;
      ContinuedStep(p, owned, frontier, f);
      if f in owned {
        frontier := frontier - {f};
      } else {
        assert f in goal - owned && ContinuationsOf(p, f) <= goal;
        owned, frontier := owned + {f}, frontier - {f} + ContinuationsOf(p, f);
      }
    }
    CloseIsLeast(p, Roots(p, e), owned);
  }

  /** What is no root of an entry and no continuation of anything it owns, it does not own. */
  lemma NotOwned(p: Program, d: Entry, x: nat)
    requires Recorded(p) && x !in Roots(p, d)
    requires forall g :: g in Owned(p, d) ==> x !in ContinuationsOf(p, g)
    ensures x !in Owned(p, d)
  {
    CloseIsLeast(p, Roots(p, d), Owned(p, d) - {x});
  }

  /** What a body's origin says about the roots and continuations it can be. */
  lemma OriginDecides(p: Program, d: Entry, b: Body)
    requires Recorded(p) && Published(p) && d in p.entries && b in p.bodies
    ensures b.fnId in Roots(p, d) ==> b.fnId == d.fnId || (b.origin.Clause? && b.origin.owner == d.key)
    ensures b.fnId == d.fnId ==> b.origin.Executable?
    ensures forall g :: b.fnId in ContinuationsOf(p, g) ==> b.origin == Continuation(g)
  {
    BodyIsUnique(p, b);
    if b.fnId in Roots(p, d) && b.fnId != d.fnId {
      var c :| c in p.bodies && c.origin.Clause? && c.origin.owner == d.key && c.fnId == b.fnId;
      BodyIsUnique(p, c);
    }
    forall g | b.fnId in ContinuationsOf(p, g)
      ensures b.origin == Continuation(g)
    {
      var c :| c in p.bodies && c.origin == Continuation(g) && c.fnId == b.fnId;
      BodyIsUnique(p, c);
    }
  }

  /** A body belongs to the graph of one root only. */
  lemma OwnersAgree(p: Program, e: Entry, d: Entry, x: nat)
    requires Recorded(p) && Published(p) && e in p.entries && d in p.entries
    requires x in Owned(p, e) && x in Owned(p, d)
    ensures e.fnId == d.fnId
  {
    if e.fnId != d.fnId {
      var apart := Owned(p, e) - Owned(p, d);
      forall f, c | f in apart && c in ContinuationsOf(p, f)
        ensures c !in Owned(p, d)
      {
        var b :| b in p.bodies && b.origin == Continuation(f) && b.fnId == c;
        OriginDecides(p, d, b);
        NotOwned(p, d, c);
      }
      forall f | f in Roots(p, e)
        ensures f !in Owned(p, d)
      {
        RootOwnedOnce(p, e, d, f);
      }
      CloseIsLeast(p, Roots(p, e), apart);
    }
  }

  lemma RootOwnedOnce(p: Program, e: Entry, d: Entry, f: nat)
    requires Recorded(p) && Published(p) && e in p.entries && d in p.entries && e.fnId != d.fnId && f in Roots(p, e)
    ensures f !in Owned(p, d)
  {
    var b := RootBody(p, e, f);
    OriginDecides(p, d, b);
    OriginDecides(p, e, b);
    NotOwned(p, d, f);
  }

  lemma RootBody(p: Program, e: Entry, f: nat) returns (b: Body)
    requires Recorded(p) && Published(p) && e in p.entries && f in Roots(p, e)
    ensures b in p.bodies && b.fnId == f && (f == e.fnId || (b.origin.Clause? && b.origin.owner == e.key))
  {
    b :| b in p.bodies && b.fnId == f && (f == e.fnId || (b.origin.Clause? && b.origin.owner == e.key));
  }

  // ------------------------------------------------------------ owned graphs

  /** Which entry root a body descends from, and the control-edge indices that lead to it. */
  datatype Role = Role(clause: Option<nat>, path: seq<nat>)

  datatype Graph = Graph(bodies: map<Role, nat>, complete: bool)

  /** The body a role names: start at the root or clause, then follow control edges by index. */
  function Follow(p: Program, e: Entry, role: Role): Option<nat>
    requires Recorded(p)
    decreases |role.path|
  {
    if role.path == [] then
      match role.clause
      case None => Some(e.fnId)
      case Some(i) => if i in ClauseBodies(p, e.key) then Some(ClauseBodies(p, e.key)[i]) else None
    else
      var last := |role.path| - 1;
      match Follow(p, e, role.(path := role.path[..last]))
      case None => None
      case Some(f) =>
        if role.path[last] < |TargetsOf(p, f)| then Some(TargetsOf(p, f)[role.path[last]]) else None
  }

  datatype Walk = Walk(frontier: seq<(Role, nat)>, bodies: map<Role, nat>, reached: set<nat>)

  /** Publish the owned, unreached targets of one body, from index `i` on. */
  function Visit(role: Role, targets: seq<nat>, i: nat, owned: set<nat>, w: Walk): (r: Walk)
    requires i <= |targets|
    ensures w.reached <= r.reached <= w.reached + owned
    ensures r.reached == w.reached ==> r.frontier == w.frontier
    decreases |targets| - i
  {
    if i == |targets| then w
    else if targets[i] !in owned || targets[i] in w.reached then Visit(role, targets, i + 1, owned, w)
    else
      var child := role.(path := role.path + [i]);
      Visit(role, targets, i + 1, owned,
            Walk(w.frontier + [(child, targets[i])], w.bodies[child := targets[i]], w.reached + {targets[i]}))
  }

  function BreadthFirst(p: Program, owned: set<nat>, w: Walk): Walk
    decreases owned - w.reached, |w.frontier|
  {
    if w.frontier == [] then w
    else
      var (role, f) := w.frontier[0];
      var next := Visit(role, TargetsOf(p, f), 0, owned, w.(frontier := w.frontier[1..]));
      assert next.reached != w.reached ==> owned - next.reached < owned - w.reached by {
        if next.reached != w.reached {
          var x :| x in next.reached && x !in w.reached;
          assert x in owned - w.reached;
        }
      }
      BreadthFirst(p, owned, next)
  }

  function RootRole(): Role { Role(None, []) }

  /** Clause roots in ascending index order. */
  function ClauseItems(clauses: map<nat, nat>): (items: seq<(Role, nat)>)
    ensures forall item :: item in items <==>
      && item.0.clause.Some? && item.0.path == []
      && item.0.clause.value in clauses && item.1 == clauses[item.0.clause.value]
    decreases clauses.Keys
  {
    if clauses.Keys == {} then []
    else
      var k := Least(clauses.Keys);
      var rest := clauses - {k};
      assert rest.Keys < clauses.Keys by { assert k in clauses.Keys && k !in rest.Keys; }
      [(Role(Some(k), []), clauses[k])] + ClauseItems(rest)
  }

  function ClauseRoles(clauses: map<nat, nat>): (r: map<Role, nat>)
    ensures forall role :: role in r <==> role.path == [] && role.clause.Some? && role.clause.value in clauses
    ensures forall role :: role in r ==> r[role] == clauses[role.clause.value]
  {
    var roles := set i | i in clauses :: Role(Some(i), []);
    assert forall role: Role :: role.path == [] && role.clause.Some? ==> role == Role(Some(role.clause.value), []);
    map role | role in roles :: clauses[role.clause.value]
  }

  /** The walk before its first step: the entry root, then its clauses. */
  function InitialWalk(p: Program, e: Entry): Walk
    requires Recorded(p)
  {
    var clauses := ClauseBodies(p, e.key);
    Walk([(RootRole(), e.fnId)] + ClauseItems(clauses),
         ClauseRoles(clauses)[RootRole() := e.fnId],
         Roots(p, e))
  }

  ghost predicate Publishes(bodies: map<Role, nat>, reached: set<nat>) {
    forall f :: f in reached <==> exists role :: role in bodies && bodies[role] == f
  }

  /** Every published role leads to its body, and every reached body has one role. */
  ghost predicate WalkSound(p: Program, e: Entry, w: Walk)
    requires Recorded(p)
  {
    && Publishes(w.bodies, w.reached)
    && (forall role :: role in w.bodies ==> Follow(p, e, role) == Some(w.bodies[role]))
    && (forall r, s | r in w.bodies && s in w.bodies :: w.bodies[r] == w.bodies[s] ==> r == s)
    && (forall item :: item in w.frontier ==> item.0 in w.bodies && w.bodies[item.0] == item.1)
    && RootRole() in w.bodies
  }

  lemma ClauseOf(p: Program, key: nat, i: nat) returns (b: Body)
    requires Recorded(p) && i in ClauseBodies(p, key)
    ensures b in p.bodies && b.origin == Clause(key, i) && b.fnId == ClauseBodies(p, key)[i]
  {
    b :| b in p.bodies && b.origin == Clause(key, i) && b.fnId == ClauseBodies(p, key)[i];
  }

  lemma ClausesApart(p: Program, e: Entry, clauses: map<nat, nat>)
    requires Recorded(p) && Published(p) && e in p.entries && clauses == ClauseBodies(p, e.key)
    ensures forall i :: i in clauses ==> clauses[i] != e.fnId
    ensures forall i, j | i in clauses && j in clauses :: clauses[i] == clauses[j] ==> i == j
  {
    forall i | i in clauses
      ensures clauses[i] != e.fnId
    {
      var b := ClauseOf(p, e.key, i);
      OriginDecides(p, e, b);
    }
    forall i, j | i in clauses && j in clauses && clauses[i] == clauses[j]
      ensures i == j
    {
      var b := ClauseOf(p, e.key, i);
      var c := ClauseOf(p, e.key, j);
      BodyIsUnique(p, b);
      BodyIsUnique(p, c);
    }
  }

  lemma InitialWalkSound(p: Program, e: Entry)
    requires Recorded(p) && Published(p) && e in p.entries
    ensures WalkSound(p, e, InitialWalk(p, e))
  {
    var clauses := ClauseBodies(p, e.key);
    ClausesApart(p, e, clauses);
    InitialRoles(p, e, clauses);
  }

  lemma InitialRoles(p: Program, e: Entry, clauses: map<nat, nat>)
    requires Recorded(p) && clauses == ClauseBodies(p, e.key)
    requires forall i :: i in clauses ==> clauses[i] != e.fnId
    requires forall i, j | i in clauses && j in clauses :: clauses[i] == clauses[j] ==> i == j
    ensures WalkSound(p, e, InitialWalk(p, e))
  {
    var w := InitialWalk(p, e);
    InitialFrontier(clauses, e.fnId);
    InitialReached(clauses, e.fnId, w.reached);
    InitialFollow(p, e, clauses);
  }

  lemma InitialFollow(p: Program, e: Entry, clauses: map<nat, nat>)
    requires Recorded(p) && clauses == ClauseBodies(p, e.key)
    ensures
      var bodies := ClauseRoles(clauses)[RootRole() := e.fnId];
      forall role :: role in bodies ==> Follow(p, e, role) == Some(bodies[role])
  {}

  lemma InitialFrontier(clauses: map<nat, nat>, root: nat)
    requires forall i :: i in clauses ==> clauses[i] != root
    requires forall i, j | i in clauses && j in clauses :: clauses[i] == clauses[j] ==> i == j
    ensures
      var bodies := ClauseRoles(clauses)[RootRole() := root];
      var frontier := [(RootRole(), root)] + ClauseItems(clauses);
      && (forall r, s | r in bodies && s in bodies :: bodies[r] == bodies[s] ==> r == s)
      && (forall item :: item in frontier ==> item.0 in bodies && bodies[item.0] == item.1)
  {}

  lemma InitialReached(clauses: map<nat, nat>, root: nat, reached: set<nat>)
    requires reached == {root} + set i | i in clauses :: clauses[i]
    ensures Publishes(ClauseRoles(clauses)[RootRole() := root], reached)
  {
    var bodies := ClauseRoles(clauses)[RootRole() := root];
    assert bodies[RootRole()] == root;
    forall i | i in clauses
      ensures bodies[Role(Some(i), [])] == clauses[i]
    {}
  }

  /** The child role of an unreached target is new: a published one would lead to a reached body. */
  lemma ChildIsNew(p: Program, e: Entry, role: Role, f: nat, i: nat, w: Walk)
    requires Recorded(p) && WalkSound(p, e, w) && role in w.bodies && w.bodies[role] == f
    requires i < |TargetsOf(p, f)| && TargetsOf(p, f)[i] !in w.reached
    ensures
      var child := role.(path := role.path + [i]);
      Follow(p, e, child) == Some(TargetsOf(p, f)[i]) && child !in w.bodies
  {
    var child := role.(path := role.path + [i]);
    assert child.(path := child.path[..|child.path| - 1]) == role;
    assert Follow(p, e, child) == Some(TargetsOf(p, f)[i]);
  }

  lemma {:induction false} VisitSound(p: Program, e: Entry, role: Role, f: nat, i: nat, owned: set<nat>, w: Walk)
    requires Recorded(p) && WalkSound(p, e, w) && i <= |TargetsOf(p, f)|
    requires role in w.bodies && w.bodies[role] == f
    ensures WalkSound(p, e, Visit(role, TargetsOf(p, f), i, owned, w))
    decreases |TargetsOf(p, f)| - i
  {
    var targets := TargetsOf(p, f);
    if i < |targets| {
      if targets[i] !in owned || targets[i] in w.reached {
        VisitSound(p, e, role, f, i + 1, owned, w);
      } else {
        var child := role.(path := role.path + [i]);
        ChildIsNew(p, e, role, f, i, w);
        var next := Walk(w.frontier + [(child, targets[i])], w.bodies[child := targets[i]], w.reached + {targets[i]});
        StepSound(p, e, w, child, targets[i]);
        VisitSound(p, e, role, f, i + 1, owned, next);
      }
    }
  }

  lemma StepSound(p: Program, e: Entry, w: Walk, child: Role, x: nat)
    requires Recorded(p) && WalkSound(p, e, w)
    requires child !in w.bodies && x !in w.reached && Follow(p, e, child) == Some(x)
    ensures WalkSound(p, e, Walk(w.frontier + [(child, x)], w.bodies[child := x], w.reached + {x}))
  {
    var next := Walk(w.frontier + [(child, x)], w.bodies[child := x], w.reached + {x});
    forall f | f in next.reached
      ensures exists role :: role in next.bodies && next.bodies[role] == f
    {
      if f == x {
        assert next.bodies[child] == x;
      } else {
        var role :| role in w.bodies && w.bodies[role] == f;
        assert next.bodies[role] == f;
      }
    }
  }

  lemma {:induction false} BreadthFirstSound(p: Program, e: Entry, owned: set<nat>, w: Walk)
    requires Recorded(p) && WalkSound(p, e, w) && w.reached <= owned
    ensures WalkSound(p, e, BreadthFirst(p, owned, w)) && BreadthFirst(p, owned, w).reached <= owned
    decreases owned - w.reached, |w.frontier|
  {
    if w.frontier != [] {
      var (role, f) := w.frontier[0];
      var rest := w.(frontier := w.frontier[1..]);
      assert w.frontier[0] in w.frontier;
      VisitSound(p, e, role, f, 0, owned, rest);
      var next := Visit(role, TargetsOf(p, f), 0, owned, rest);
      if next.reached != w.reached {
        var x :| x in next.reached && x !in w.reached;
        assert x in owned - w.reached;
      }
      BreadthFirstSound(p, e, owned, next);
    }
  }

  ghost function OwnedGraph(p: Program, e: Entry): Graph
    requires Recorded(p)
  {
    var w := BreadthFirst(p, Owned(p, e), InitialWalk(p, e));
    Graph(w.bodies, |w.reached| == |Owned(p, e)|)
  }

  /** What a graph's roles mean: each is a control path to its body, and no body has two. */
  ghost predicate GraphSound(p: Program, e: Entry, g: Graph)
    requires Recorded(p)
  {
    && RootRole() in g.bodies && g.bodies[RootRole()] == e.fnId
    && (forall role :: role in g.bodies ==> Follow(p, e, role) == Some(g.bodies[role]))
    && Within(g, Owned(p, e))
    && (forall r, s | r in g.bodies && s in g.bodies :: g.bodies[r] == g.bodies[s] ==> r == s)
    && (g.complete <==> forall f :: f in Owned(p, e) ==> exists role :: role in g.bodies && g.bodies[role] == f)
  }

  ghost predicate Within(g: Graph, owned: set<nat>) {
    forall role :: role in g.bodies ==> g.bodies[role] in owned
  }

  lemma OwnedGraphSound(p: Program, e: Entry)
    requires Recorded(p) && Published(p) && e in p.entries
    ensures GraphSound(p, e, OwnedGraph(p, e))
  {
    InitialWalkSound(p, e);
    BreadthFirstSound(p, e, Owned(p, e), InitialWalk(p, e));
    WalkIsGraph(p, e, BreadthFirst(p, Owned(p, e), InitialWalk(p, e)));
  }

  lemma WalkIsGraph(p: Program, e: Entry, w: Walk)
    requires Recorded(p) && WalkSound(p, e, w) && w.reached <= Owned(p, e)
    ensures GraphSound(p, e, Graph(w.bodies, |w.reached| == |Owned(p, e)|))
  {
    SubsetOfSameSize(w.reached, Owned(p, e));
    assert Follow(p, e, RootRole()) == Some(e.fnId);
  }

  lemma SubsetOfSameSize(a: set<nat>, b: set<nat>)
    requires a <= b
    ensures |a| == |b| <==> a == b
  {
    assert b == a + (b - a);
    assert |b| == |a| + |b - a|;
  }

  /** Publish one body's owned, unreached targets in control-edge order. */
  method VisitTargets(role: Role, targets: seq<nat>, owned: set<nat>, w: Walk) returns (r: Walk)
    ensures r == Visit(role, targets, 0, owned, w)
  {
    var frontier, bodies: map<Role, nat>, reached := w.frontier, w.bodies, w.reached;
    for i := 0 to |targets|
      invariant Visit(role, targets, 0, owned, w) == Visit(role, targets, i, owned, Walk(frontier, bodies, reached))
    {
      if targets[i] in owned && targets[i] !in reached {
        var child := role.(path := role.path + [i]);
        bodies := bodies[child := targets[i]];
        reached := reached + {targets[i]};
        frontier := frontier + [(child, targets[i])];
      }
    }
    r := Walk(frontier, bodies, reached);
  }

  /** The graph builder: pop a body, publish its targets, repeat. */
  method BuildGraph(p: Program, e: Entry) returns (g: Graph)
    requires Recorded(p) && Published(p) && e in p.entries
    ensures g == OwnedGraph(p, e)
  {
    var owned := CollectOwned(p, e);
    var w := InitialWalk(p, e);
    while w.frontier != []
      invariant BreadthFirst(p, owned, InitialWalk(p, e)) == BreadthFirst(p, owned, w)
      decreases owned - w.reached, |w.frontier|
    {
      var (role, f) := w.frontier[0];
      var next := VisitTargets(role, TargetsOf(p, f), owned, w.(frontier := w.frontier[1..]));
      if next.reached != w.reached {
        ghost var x :| x in next.reached && x !in w.reached;
        assert x in owned - w.reached;
      }
      w := next;
    }
    g := Graph(w.bodies, |w.reached| == |owned|);
  }
}
