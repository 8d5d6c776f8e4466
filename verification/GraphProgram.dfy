/** The native program as the compiler holds it: shared in place, pass by pass. */
module GraphProgram {
  import opened GraphSharing
  import opened GraphPass
  import opened GraphRun

  ghost function AllGraphs(p: Program): (graphs: seq<Graph>)
    requires Recorded(p)
    ensures |graphs| == |p.entries| && forall i :: 0 <= i < |graphs| ==> graphs[i] == OwnedGraph(p, p.entries[i])
  {
    seq(|p.entries|, i requires 0 <= i < |p.entries| => OwnedGraph(p, p.entries[i]))
  }

  lemma GraphAt(p: Program, graphs: seq<Graph>, i: nat)
    requires Recorded(p) && graphs == AllGraphs(p) && i < |p.entries|
    ensures graphs[i] == OwnedGraph(p, p.entries[i])
  {}

  lemma OneMoreGraph(wanted: seq<Graph>, i: nat)
    requires i < |wanted|
    ensures wanted[..i] + [wanted[i]] == wanted[..i + 1]
  {}

  method BuildNext(p: Program, i: nat, ghost wanted: seq<Graph>) returns (g: Graph)
    requires Recorded(p) && Published(p) && wanted == AllGraphs(p) && i < |p.entries|
    ensures g == wanted[i]
  {
    GraphAt(p, wanted, i);
    g := BuildGraph(p, p.entries[i]);
  }

  method BuildGraphs(p: Program) returns (graphs: seq<Graph>)
    requires Recorded(p) && Published(p)
    ensures graphs == AllGraphs(p)
  {
    graphs := [];
    ghost var wanted := AllGraphs(p);
    for i := 0 to |p.entries|
      invariant graphs == wanted[..i]
    {
      var g := BuildNext(p, i, wanted);
      OneMoreGraph(wanted, i);
      graphs := graphs + [g];
    }
  }

  method MergePair(
    p: Program, graphs: seq<Graph>, left: nat, right: nat, r: map<nat, nat>, ghost log: seq<(nat, nat)>)
    returns (r': map<nat, nat>, ghost log': seq<(nat, nat)>)
    requires Recorded(p) && Published(p) && graphs == AllGraphs(p) && left < |p.entries| && right < |p.entries|
    ensures Merges(r', log') == MergeOne(p, p.entries[left], p.entries[right], Merges(r, log))
  {
    r', log' := r, log;
    var leftRoot, rightRoot := p.entries[left].fnId, p.entries[right].fnId;
    if rightRoot != leftRoot && rightRoot !in r {
      GraphAt(p, graphs, left);
      GraphAt(p, graphs, right);
      OwnedGraphSound(p, p.entries[right]);
      var mapping := CompareGraphs(p, graphs[left], graphs[right]);
      if mapping.Some? {
        r', log' := r + mapping.value, log + [(leftRoot, rightRoot)];
      }
    }
  }

  method MergeRightsInto(
      p: Program, graphs: seq<Graph>, group: seq<nat>, o: nat, r: map<nat, nat>, ghost log: seq<(nat, nat)>)
    returns (r': map<nat, nat>, ghost log': seq<(nat, nat)>)
    requires Recorded(p) && Published(p) && graphs == AllGraphs(p) && ValidGroup(p, group) && o < |group|
    ensures Merges(r', log') == MergeRights(p, group, group[o], o + 1, Merges(r, log))
  {
    r', log' := r, log;
    var left := group[o];
    for j := o + 1 to |group|
      invariant MergeRights(p, group, left, o + 1, Merges(r, log)) == MergeRights(p, group, left, j, Merges(r', log'))
    {
      r', log' := MergePair(p, graphs, left, group[j], r', log');
    }
  }

  method MergeLeftInto(
    p: Program, graphs: seq<Graph>, group: seq<nat>, o: nat, compared: set<nat>,
    r: map<nat, nat>, ghost log: seq<(nat, nat)>)
    returns (compared': set<nat>, r': map<nat, nat>, ghost log': seq<(nat, nat)>)
    requires Recorded(p) && Published(p) && graphs == AllGraphs(p) && ValidGroup(p, group) && o < |group|
    ensures MergeLefts(p, group, o, compared, Merges(r, log)) ==
      MergeLefts(p, group, o + 1, compared', Merges(r', log'))
  {
    compared', r', log' := compared, r, log;
    var root := p.entries[group[o]].fnId;
    if root !in r && root !in compared {
      compared' := compared + {root};
      r', log' := MergeRightsInto(p, graphs, group, o, r, log);
    }
  }

  method MergeGroupInto(p: Program, graphs: seq<Graph>, group: seq<nat>, r: map<nat, nat>, ghost log: seq<(nat, nat)>)
    returns (r': map<nat, nat>, ghost log': seq<(nat, nat)>)
    requires Recorded(p) && Published(p) && graphs == AllGraphs(p) && ValidGroup(p, group)
    ensures Merges(r', log') == MergeLefts(p, group, 0, {}, Merges(r, log))
  {
    r', log' := r, log;
    var compared: set<nat> := {};
    for o := 0 to |group|
      invariant MergeLefts(p, group, 0, {}, Merges(r, log)) == MergeLefts(p, group, o, compared, Merges(r', log'))
    {
      compared, r', log' := MergeLeftInto(p, graphs, group, o, compared, r', log');
    }
  }

  /** Every mergeable pair of sibling graphs, first representative first. */
  method FindReplacements(p: Program, groups: seq<seq<nat>>) returns (r: map<nat, nat>)
    requires Recorded(p) && Published(p) && ValidGroups(p, groups)
    ensures r == PassOf(p, groups).replacements
  {
    var graphs := BuildGraphs(p);
    r := map[];
    ghost var log := [];
    for g := 0 to |groups|
      invariant PassOf(p, groups) == MergeGroups(p, groups, g, Merges(r, log))
    {
      r, log := MergeGroupInto(p, graphs, groups[g], r, log);
    }
  }

  class NativeProgram {
    var entry: nat
    var entries: seq<Entry>
    var members: seq<nat>
    var bodies: seq<Body>

    ghost function View(): Program
      reads this
    {
      Program(entry, entries, members, bodies)
    }

    constructor (p: Program)
      ensures View() == p
    {
      entry, entries, members, bodies := p.entry, p.entries, p.members, p.bodies;
    }

    /** Remap everything published, drop the replaced bodies, and remap what the rest refers to. */
    method ApplyReplacements(r: map<nat, nat>)
      modifies this
      ensures View() == Applied(old(View()), r)
    {
      entry := Remap(r, entry);
      members := RemapAll(r, members);
      var es := [];
      for i := 0 to |entries|
        invariant entries == old(entries) && bodies == old(bodies) && entry == Remap(r, old(entry))
        invariant members == RemapAll(r, old(members))
        invariant es == RemapEntries(r, entries)[..i]
      {
        es := es + [entries[i].(fnId := Remap(r, entries[i].fnId))];
      }
      entries := es;
      var kept := [];
      for i := 0 to |bodies|
        invariant entries == RemapEntries(r, old(entries)) && bodies == old(bodies) && entry == Remap(r, old(entry))
        invariant members == RemapAll(r, old(members))
        invariant kept + Retained(r, bodies[i..]) == Retained(r, bodies)
      {
        assert bodies[i..][1..] == bodies[i + 1..];
        if bodies[i].fnId !in r {
          kept := kept + [RemapBody(r, bodies[i])];
        }
      }
      bodies := kept;
    }

    /**
     Passes until one replaces nothing. `intact` is whether every pass left each
     entry a body; a pass that did not ends the run.
     */
    method Deduplicate(groups: seq<seq<nat>>) returns (intact: bool)
      requires Recorded(View()) && Published(View()) && ValidGroups(View(), groups)
      modifies this
      ensures Run(View(), intact) == RunOf(old(View()), groups)
      ensures intact <==> PublishedKept(old(View()), View())
      ensures |bodies| <= old(|bodies|)
    {
      SharingKeepsMeaningExactly(View(), groups);
      while true
        invariant Recorded(View()) && Published(View()) && ValidGroups(View(), groups)
        invariant RunOf(View(), groups) == RunOf(old(View()), groups)
        decreases |bodies|
      {
        ghost var p := View();
        var r := FindReplacements(Program(entry, entries, members, bodies), groups);
        if r == map[] {
          return true;
        }
        IndexedPublished(p);
        PassShrinks(p, groups);
        ApplyReplacements(r);
        if exists x :: x in r && r[x] in r {
          return false;
        }
        PassKeepsPublished(p, groups);
      }
    }
  }
}
