/**
 When a pass of graph sharing is safe, read off the program it starts from: the
 roots of its entries, and which pairs of sibling graphs compare equal.
 */
module GraphSafety {
  import opened Options
  import opened Collecting
  import opened GraphSharing
  import opened GraphPass
  import opened GraphRun

  /** Two entries whose graphs the comparison maps, right to left. */
  ghost predicate Alike(p: Program, left: nat, right: nat)
    requires Recorded(p)
  {
    && left < |p.entries| && right < |p.entries|
    && Mapping(p, OwnedGraph(p, p.entries[left]), OwnedGraph(p, p.entries[right])).Some?
  }

  /** The roots of the entries, and every pair of them that compares equal. */
  ghost function MarketOf(p: Program): (m: Market)
    requires Recorded(p)
    ensures |m.roots| == |p.entries| && forall i :: 0 <= i < |p.entries| ==> m.roots[i] == p.entries[i].fnId
    ensures forall a: nat, b: nat :: (a, b) in m.pairs <==> Alike(p, a, b)
  {
    Market(seq(|p.entries|, i requires 0 <= i < |p.entries| => p.entries[i].fnId),
           set a: nat, b: nat | a < |p.entries| && b < |p.entries| && Alike(p, a, b) :: (a, b))
  }

  ghost predicate PairRight(p: Program, m: Market, a: nat, b: nat)
    requires Recorded(p)
  {
    (a, b) in m.pairs <==> Alike(p, a, b)
  }

  /** The market is the program's, said pair by pair. */
  ghost predicate Describes(m: Market, p: Program)
    requires Recorded(p)
  {
    && |m.roots| == |p.entries| && (forall i :: 0 <= i < |p.entries| ==> m.roots[i] == p.entries[i].fnId)
    && (forall a: nat, b: nat {:trigger PairRight(p, m, a, b)} :: PairRight(p, m, a, b))
  }

  lemma MarketDescribes(p: Program)
    requires Recorded(p)
    ensures Describes(MarketOf(p), p)
  {}

  // ------------------------------------------------- the pass, root by root

  ghost predicate IsRoot(p: Program, x: nat) { exists e :: e in p.entries && e.fnId == x }

  ghost predicate Led(log: seq<(nat, nat)>, root: nat) {
    exists t :: 0 <= t < |log| && log[t].0 == root
  }

  lemma LedAppended(log: seq<(nat, nat)>, a: nat, b: nat, root: nat)
    ensures Led(log + [(a, b)], root) <==> Led(log, root) || root == a
  {
    var longer := log + [(a, b)];
    if Led(log, root) {
      var t :| 0 <= t < |log| && log[t].0 == root;
      assert longer[t].0 == root;
    }
    assert longer[|log|].0 == a;
  }

  /** A mapping replaces one root: that of its right graph. */
  lemma MappedRoots(p: Program, owner: map<nat, nat>, left: nat, right: nat, m: map<nat, nat>, root: nat)
    requires Indexed(p) && OwnersOf(p, owner) && left < |p.entries| && right < |p.entries| && IsRoot(p, root)
    requires Mapping(p, OwnedGraph(p, p.entries[left]), OwnedGraph(p, p.entries[right])) == Some(m)
    ensures root in m <==> root == p.entries[right].fnId
  {
    var e, d := p.entries[left], p.entries[right];
    var a, b := OwnedGraph(p, e), OwnedGraph(p, d);
    assert GraphSound(p, e, a) && GraphSound(p, d, b);
    GraphsAreOwned(p, owner, e, a);
    GraphsAreOwned(p, owner, d, b);
    MappedOwners(owner, a, b, m, e.fnId, d.fnId);
    var r :| r in p.entries && r.fnId == root;
    RootOwner(p, owner, r);
  }

  /** The roots replaced and the roots that collected one are those of the scan. */
  ghost predicate Matches(p: Program, s: Merges, r: Round) {
    forall root {:trigger MatchesAt(s, r, root)} :: IsRoot(p, root) ==> MatchesAt(s, r, root)
  }

  ghost predicate MatchesAt(s: Merges, r: Round, root: nat) {
    (root in s.replacements <==> root in r.taken) && (Led(s.log, root) <==> root in r.gained)
  }

  lemma EntryRoots(p: Program, m: Market, a: nat)
    requires Recorded(p) && Describes(m, p) && a < |p.entries|
    ensures RootOf(m, a) == p.entries[a].fnId && IsRoot(p, p.entries[a].fnId)
  {
    assert p.entries[a] in p.entries;
  }

  /** A comparison replaces its right root and logs its left one, or does nothing, as the scan does. */
  lemma MergeWithMatches(p: Program, left: nat, right: nat, mapping: Option<map<nat, nat>>, s: Merges, r: Round)
    requires Matches(p, s, r) && IsRoot(p, right)
    requires mapping.Some? ==> RootsOf(p, mapping.value, right)
    ensures
      var after := if left == right || right in r.taken || mapping.None? then r
                   else Round(r.taken + {right}, r.gained + {left});
      Matches(p, MergeWith(left, right, mapping, s), after)
  {
    var next := MergeWith(left, right, mapping, s);
    assert MatchesAt(s, r, right);
    if left != right && right !in r.taken && mapping.Some? {
      var after := Round(r.taken + {right}, r.gained + {left});
      forall root | IsRoot(p, root) ensures MatchesAt(next, after, root) {
        assert MatchesAt(s, r, root);
        LedAppended(s.log, left, right, root);
      }
    }
  }

  ghost predicate RootsOf(p: Program, mapping: map<nat, nat>, right: nat) {
    forall root | IsRoot(p, root) :: root in mapping <==> root == right
  }

  lemma MappingRoots(p: Program, owner: map<nat, nat>, a: nat, b: nat, mapping: map<nat, nat>)
    requires Indexed(p) && OwnersOf(p, owner) && a < |p.entries| && b < |p.entries|
    requires Mapping(p, OwnedGraph(p, p.entries[a]), OwnedGraph(p, p.entries[b])) == Some(mapping)
    ensures RootsOf(p, mapping, p.entries[b].fnId)
  {
    forall root | IsRoot(p, root) ensures root in mapping <==> root == p.entries[b].fnId {
      MappedRoots(p, owner, a, b, mapping, root);
    }
  }

  /** The comparison of two entries, and what it maps. */
  lemma Compared(p: Program, owner: map<nat, nat>, m: Market, a: nat, b: nat) returns (mapping: Option<map<nat, nat>>)
    requires Indexed(p) && OwnersOf(p, owner) && Describes(m, p) && a < |p.entries| && b < |p.entries|
    ensures mapping == Mapping(p, OwnedGraph(p, p.entries[a]), OwnedGraph(p, p.entries[b]))
    ensures (a, b) in m.pairs <==> mapping.Some?
    ensures mapping.Some? ==> RootsOf(p, mapping.value, p.entries[b].fnId)
  {
    mapping := Mapping(p, OwnedGraph(p, p.entries[a]), OwnedGraph(p, p.entries[b]));
    assert PairRight(p, m, a, b);
    if mapping.Some? { MappingRoots(p, owner, a, b, mapping.value); }
  }

  lemma MergeOneMatches(p: Program, m: Market, a: nat, b: nat, s: Merges, r: Round, mapping: Option<map<nat, nat>>)
    requires a < |p.entries| && b < |p.entries| && Matches(p, s, r) && ((a, b) in m.pairs <==> mapping.Some?)
    requires RootOf(m, a) == p.entries[a].fnId && RootOf(m, b) == p.entries[b].fnId
    requires mapping.Some? ==> RootsOf(p, mapping.value, p.entries[b].fnId)
    ensures Matches(p, MergeWith(p.entries[a].fnId, p.entries[b].fnId, mapping, s), CollectOne(m, a, b, r))
  {
    assert p.entries[b] in p.entries;
    MergeWithMatches(p, p.entries[a].fnId, p.entries[b].fnId, mapping, s, r);
  }

  lemma {:induction false} RightsMatch(
    p: Program, owner: map<nat, nat>, m: Market, group: seq<nat>, a: nat, j: nat, s: Merges, r: Round)
    requires Indexed(p) && OwnersOf(p, owner) && Describes(m, p) && ValidGroup(p, group) && a < |p.entries|
    requires j <= |group|
    requires Matches(p, s, r)
    ensures Matches(p, MergeRights(p, group, a, j, s), CollectRights(m, group, a, j, r))
    decreases |group| - j
  {
    if j < |group| {
      EntryRoots(p, m, a);
      EntryRoots(p, m, group[j]);
      var mapping := Compared(p, owner, m, a, group[j]);
      MergeOneMatches(p, m, a, group[j], s, r, mapping);
      RightsMatch(p, owner, m, group, a, j + 1,
                  MergeOne(p, p.entries[a], p.entries[group[j]], s), CollectOne(m, a, group[j], r));
    }
  }

  lemma {:induction false} LeftsMatch(
    p: Program, owner: map<nat, nat>, m: Market, group: seq<nat>, o: nat, compared: set<nat>, s: Merges, r: Round)
    requires Indexed(p) && OwnersOf(p, owner) && Describes(m, p) && ValidGroup(p, group) && o <= |group|
    requires Matches(p, s, r)
    ensures Matches(p, MergeLefts(p, group, o, compared, s), CollectLefts(m, group, o, compared, r))
    decreases |group| - o
  {
    if o < |group| {
      var root := p.entries[group[o]].fnId;
      EntryRoots(p, m, group[o]);
      assert MatchesAt(s, r, root);
      if root in s.replacements || root in compared {
        LeftsMatch(p, owner, m, group, o + 1, compared, s, r);
      } else {
        RightsMatch(p, owner, m, group, group[o], o + 1, s, r);
        LeftsMatch(p, owner, m, group, o + 1, compared + {root},
                   MergeRights(p, group, group[o], o + 1, s), CollectRights(m, group, group[o], o + 1, r));
      }
    }
  }

  lemma {:induction false} GroupsMatch(
    p: Program, owner: map<nat, nat>, m: Market, groups: seq<seq<nat>>, g: nat, s: Merges, r: Round)
    requires Indexed(p) && OwnersOf(p, owner) && Describes(m, p) && ValidGroups(p, groups) && g <= |groups|
    requires Matches(p, s, r)
    ensures Matches(p, MergeGroups(p, groups, g, s), CollectGroups(m, groups, g, r))
    decreases |groups| - g
  {
    if g < |groups| {
      LeftsMatch(p, owner, m, groups[g], 0, {}, s, r);
      GroupsMatch(p, owner, m, groups, g + 1, MergeLefts(p, groups[g], 0, {}, s), CollectLefts(m, groups[g], 0, {}, r));
    }
  }

  /** A root that both was replaced and collected another. */
  ghost predicate Retired(s: Merges, root: nat) { root in s.replacements && Led(s.log, root) }

  lemma RetiredFromLog(owner: map<nat, nat>, s: Merges) returns (root: nat)
    requires Merging(owner, s) && RetiresRepresentative(s.log)
    ensures Retired(s, root) && root in owner && owner[root] == root
  {
    var t, u :| 0 <= t < u < |s.log| && s.log[u].1 == s.log[t].0;
    root := s.log[t].0;
    assert LogSound(owner, s, t) && LogSound(owner, s, u);
  }

  lemma LogFromRetired(owner: map<nat, nat>, s: Merges, root: nat)
    requires Merging(owner, s) && Retired(s, root)
    ensures RetiresRepresentative(s.log)
  {
    var t :| 0 <= t < |s.log| && s.log[t].0 == root;
    assert LogSound(owner, s, t) && RootLogged(owner, s, root);
    var u :| 0 <= u < |s.log| && s.log[u] == (s.replacements[root], root);
    assert LogSound(owner, s, u);
  }

  /** The scan's gainers are roots of entries. */
  lemma GainerIsRoot(p: Program, m: Market, groups: seq<seq<nat>>, root: nat)
    requires Recorded(p) && Describes(m, p) && ValidGroups(p, groups) && GainedBefore(m, groups, |groups|, 0, root)
    ensures IsRoot(p, root)
  {
    var h: nat, l: nat :| Earlier(groups, h, l, |groups|, 0) && GainsAs(m, groups, h, l, root);
    EntryRoots(p, m, groups[h][l]);
  }

  lemma NothingMatches(p: Program)
    ensures Matches(p, Merges(map[], []), Round({}, {}))
  {}

  lemma PassMatches(p: Program, owner: map<nat, nat>, groups: seq<seq<nat>>, m: Market, s: Merges, r: Round)
    requires Indexed(p) && OwnersOf(p, owner) && ValidGroups(p, groups) && Describes(m, p)
    requires s == PassOf(p, groups) && r == CollectGroups(m, groups, 0, Round({}, {}))
    ensures Matches(p, s, r)
  {
    NothingMatches(p);
    GroupsMatch(p, owner, m, groups, 0, Merges(map[], []), Round({}, {}));
  }

  lemma RetiredIsGiven(p: Program, owner: map<nat, nat>, groups: seq<seq<nat>>, m: Market, s: Merges, r: Round)
    requires Recorded(p) && OwnersOf(p, owner) && Merging(owner, s) && Matches(p, s, r)
    requires Follows(m, groups, |groups|, 0, r) && RetiresRepresentative(s.log)
    ensures GivesAwayALeader(m, groups)
  {
    var root := RetiredFromLog(owner, s);
    RootEntry(p, owner, root);
    assert MatchesAt(s, r, root);
    assert Taken(m, groups, |groups|, 0, root) && GainedBefore(m, groups, |groups|, 0, root);
  }

  lemma GivenIsRetired(p: Program, owner: map<nat, nat>, groups: seq<seq<nat>>, m: Market, s: Merges, r: Round)
    requires Recorded(p) && ValidGroups(p, groups) && Describes(m, p) && Merging(owner, s) && Matches(p, s, r)
    requires Follows(m, groups, |groups|, 0, r) && GivesAwayALeader(m, groups)
    ensures RetiresRepresentative(s.log)
  {
    var root: nat :| GainedBefore(m, groups, |groups|, 0, root) && Taken(m, groups, |groups|, 0, root);
    GainerIsRoot(p, m, groups, root);
    assert MatchesAt(s, r, root);
    LogFromRetired(owner, s, root);
  }

  /** The pass retires a representative exactly when the program gives away a leader. */
  lemma RetiresExactlyWhenGiven(p: Program, owner: map<nat, nat>, groups: seq<seq<nat>>, m: Market, s: Merges)
    requires Indexed(p) && OwnersOf(p, owner) && ValidGroups(p, groups) && Describes(m, p)
    requires s == PassOf(p, groups) && Merging(owner, s)
    ensures RetiresRepresentative(s.log) <==> GivesAwayALeader(m, groups)
  {
    var r := CollectGroups(m, groups, 0, Round({}, {}));
    PassMatches(p, owner, groups, m, s, r);
    ScanFollows(m, groups, r);
    if RetiresRepresentative(s.log) {
      RetiredIsGiven(p, owner, groups, m, s, r);
    } else if GivesAwayALeader(m, groups) {
      GivenIsRetired(p, owner, groups, m, s, r);
    }
  }

  /**
   A pass keeps the meaning of every entry if and only if no entry of the program
   both gains a root and is itself offered to a leader. The condition reads only
   comparisons of the program the pass starts from.
   */
  lemma PassIsSafeExactly(p: Program, groups: seq<seq<nat>>)
    requires Recorded(p) && Published(p) && ValidGroups(p, groups)
    ensures KeepsMeaning(p, PassOf(p, groups).replacements) <==> !GivesAwayALeader(MarketOf(p), groups)
    ensures ChainFree(PassOf(p, groups).replacements) <==> !GivesAwayALeader(MarketOf(p), groups)
  {
    IndexedPublished(p);
    var owner := OwnersExist(p);
    MergeGroupsKeeps(p, owner, groups, 0, Merges(map[], []));
    MarketDescribes(p);
    RetiresExactlyWhenGiven(p, owner, groups, MarketOf(p), PassOf(p, groups));
    ChainsExactlyWhenRetiring(owner, PassOf(p, groups));
    PassKeepsMeaningExactly(p, groups);
  }

  // ------------------------------------------------------- conditions on offsets

  ghost predicate SomeRootReturns(m: Market, group: seq<nat>) {
    exists i: nat, j: nat, k: nat :: i < j < k < |group| && ReturnsAt(m, group, i, j, k)
  }

  lemma FamiliesApart(p: Program, m: Market, groups: seq<seq<nat>>)
    requires Recorded(p) && Describes(m, p) && ValidGroups(p, groups) && Disjoint(Families(p, groups))
    ensures Apart(m, groups)
  {
    var families := Families(p, groups);
    forall g: nat, h: nat, i: nat, j: nat | g < |groups| && h < |groups| && i < |groups[g]| && j < |groups[h]|
      ensures RootOf(m, groups[g][i]) == RootOf(m, groups[h][j]) ==> g == h
    {
      EntryRoots(p, m, groups[g][i]);
      EntryRoots(p, m, groups[h][j]);
      assert RootOf(m, groups[g][i]) in families[g] && RootOf(m, groups[h][j]) in families[h];
    }
  }

  /** A pass over groups in which no root returns keeps every entry. */
  lemma NoReturnIsSafe(p: Program, groups: seq<seq<nat>>)
    requires Recorded(p) && Published(p) && ValidGroups(p, groups) && Disjoint(Families(p, groups))
    requires forall g :: 0 <= g < |groups| ==> !SomeRootReturns(MarketOf(p), groups[g])
    ensures KeepsMeaning(p, PassOf(p, groups).replacements)
  {
    PassIsSafeExactly(p, groups);
    MarketDescribes(p);
    FamiliesApart(p, MarketOf(p), groups);
    if GivesAwayALeader(MarketOf(p), groups) {
      var g, i, j, k := GivenAwayReturns(MarketOf(p), groups);
      assert SomeRootReturns(MarketOf(p), groups[g]);
      assert false;
    }
  }

  /** Entries listed together are published at different bodies. */
  ghost predicate DistinctRoots(p: Program, group: seq<nat>)
    requires ValidGroup(p, group)
  {
    forall i, k :: 0 <= i < k < |group| ==> p.entries[group[i]].fnId != p.entries[group[k]].fnId
  }

  /** The first pass over separately published siblings keeps every entry, however many there are. */
  lemma FirstPassIsSafe(p: Program, groups: seq<seq<nat>>)
    requires Recorded(p) && Published(p) && ValidGroups(p, groups) && Disjoint(Families(p, groups))
    requires forall g :: 0 <= g < |groups| ==> DistinctRoots(p, groups[g])
    ensures KeepsMeaning(p, PassOf(p, groups).replacements)
  {
    var m := MarketOf(p);
    MarketDescribes(p);
    forall g | 0 <= g < |groups| ensures !SomeRootReturns(m, groups[g]) {
      NoRepeatNoReturn(p, m, groups[g]);
    }
    NoReturnIsSafe(p, groups);
  }

  lemma NoRepeatNoReturn(p: Program, m: Market, group: seq<nat>)
    requires Recorded(p) && ValidGroup(p, group) && Describes(m, p) && DistinctRoots(p, group)
    ensures !SomeRootReturns(m, group)
  {
    forall i: nat, j: nat, k: nat | i < j < k < |group| ensures !ReturnsAt(m, group, i, j, k) {
      EntryRoots(p, m, group[i]);
      EntryRoots(p, m, group[k]);
    }
  }
}
