/**
 One round of collecting on paper: entries have roots, some ordered pairs of
 entries are on offer, and each group is scanned once, left to right. What the
 scan collects is said here without running it.
 */
module Collecting {

  /** The root of each entry, and the pairs (collector, collected) that compare equal. */
  datatype Market = Market(roots: seq<nat>, pairs: set<(nat, nat)>)

  /** The roots collected so far, and the roots that collected one. */
  datatype Round = Round(taken: set<nat>, gained: set<nat>)

  function RootOf(m: Market, a: nat): nat { if a < |m.roots| then m.roots[a] else 0 }

  predicate Offers(m: Market, a: nat, b: nat) { RootOf(m, a) != RootOf(m, b) && (a, b) in m.pairs }

  // ----------------------------------------------------------------- the scan

  function CollectOne(m: Market, a: nat, b: nat, r: Round): Round {
    if RootOf(m, b) in r.taken || !Offers(m, a, b) then r
    else Round(r.taken + {RootOf(m, b)}, r.gained + {RootOf(m, a)})
  }

  function CollectRights(m: Market, group: seq<nat>, a: nat, j: nat, r: Round): Round
    requires j <= |group|
    decreases |group| - j
  {
    if j == |group| then r else CollectRights(m, group, a, j + 1, CollectOne(m, a, group[j], r))
  }

  function CollectLefts(m: Market, group: seq<nat>, o: nat, compared: set<nat>, r: Round): Round
    requires o <= |group|
    decreases |group| - o
  {
    if o == |group| then r
    else
      var root := RootOf(m, group[o]);
      if root in r.taken || root in compared then CollectLefts(m, group, o + 1, compared, r)
      else CollectLefts(m, group, o + 1, compared + {root}, CollectRights(m, group, group[o], o + 1, r))
  }

  function CollectGroups(m: Market, groups: seq<seq<nat>>, g: nat, r: Round): Round
    requires g <= |groups|
    decreases |groups| - g
  {
    if g == |groups| then r else CollectGroups(m, groups, g + 1, CollectLefts(m, groups[g], 0, {}, r))
  }

  // ---------------------------------------------------------- what it collects

  predicate OfferedAt(m: Market, group: seq<nat>, a: nat, k: nat, root: nat)
    requires k < |group|
  {
    RootOf(m, group[k]) == root && Offers(m, a, group[k])
  }

  /** From offset `j` on, the group offers `root` to the entry `a`. */
  predicate OffersFrom(m: Market, group: seq<nat>, a: nat, j: nat, root: nat) {
    exists k: nat :: j <= k < |group| && OfferedAt(m, group, a, k, root)
  }

  /** The entry at offset `i` is offered `root` by the rest of its group. */
  predicate OffersRoot(m: Market, group: seq<nat>, i: nat, root: nat)
    requires i < |group|
  {
    OffersFrom(m, group, group[i], i + 1, root)
  }

  predicate Earlier(groups: seq<seq<nat>>, h: nat, l: nat, g: nat, o: nat) {
    h < |groups| && l < |groups[h]| && (h < g || (h == g && l < o))
  }

  /**
   Whether the entry at offset `o` of group `g` gets to collect: no earlier
   leader is offered its root, and no earlier leader of its group has that root.
   */
  ghost predicate Leads(m: Market, groups: seq<seq<nat>>, g: nat, o: nat)
    requires g < |groups| && o < |groups[g]|
    decreases g, o
  {
    forall h: nat, l: nat | Earlier(groups, h, l, g, o) && Leads(m, groups, h, l) ::
      && !OffersRoot(m, groups[h], l, RootOf(m, groups[g][o]))
      && (h == g ==> RootOf(m, groups[h][l]) != RootOf(m, groups[g][o]))
  }

  ghost predicate Takes(m: Market, groups: seq<seq<nat>>, h: nat, l: nat, root: nat)
    requires h < |groups| && l < |groups[h]|
  {
    Leads(m, groups, h, l) && OffersRoot(m, groups[h], l, root)
  }

  /** A leader before offset `o` of group `g` is offered `root`. */
  ghost predicate Taken(m: Market, groups: seq<seq<nat>>, g: nat, o: nat, root: nat) {
    exists h: nat, l: nat :: Earlier(groups, h, l, g, o) && Takes(m, groups, h, l, root)
  }

  /** The entry leads and is offered a root that no leader before it is offered. */
  ghost predicate Gains(m: Market, groups: seq<seq<nat>>, g: nat, o: nat)
    requires g < |groups| && o < |groups[g]|
  {
    Leads(m, groups, g, o) && exists root: nat :: OffersRoot(m, groups[g], o, root) && !Taken(m, groups, g, o, root)
  }

  ghost predicate GainsAs(m: Market, groups: seq<seq<nat>>, h: nat, l: nat, root: nat)
    requires h < |groups| && l < |groups[h]|
  {
    Gains(m, groups, h, l) && RootOf(m, groups[h][l]) == root
  }

  ghost predicate GainedBefore(m: Market, groups: seq<seq<nat>>, g: nat, o: nat, root: nat) {
    exists h: nat, l: nat :: Earlier(groups, h, l, g, o) && GainsAs(m, groups, h, l, root)
  }

  /** The scan has come to offset `o` of group `g`. */
  ghost predicate Follows(m: Market, groups: seq<seq<nat>>, g: nat, o: nat, r: Round) {
    && (forall root: nat {:trigger Taken(m, groups, g, o, root)} :: root in r.taken <==> Taken(m, groups, g, o, root))
    && (forall root: nat {:trigger GainedBefore(m, groups, g, o, root)} ::
          root in r.gained <==> GainedBefore(m, groups, g, o, root))
  }

  ghost predicate LedInGroup(m: Market, groups: seq<seq<nat>>, g: nat, o: nat, root: nat)
    requires g < |groups| && o <= |groups[g]|
  {
    exists l: nat :: l < o && Leads(m, groups, g, l) && RootOf(m, groups[g][l]) == root
  }

  /** The roots of the leaders a group has had so far. */
  ghost predicate ComparedAre(m: Market, groups: seq<seq<nat>>, g: nat, o: nat, compared: set<nat>)
    requires g < |groups| && o <= |groups[g]|
  {
    forall root: nat {:trigger LedInGroup(m, groups, g, o, root)} ::
      root in compared <==> LedInGroup(m, groups, g, o, root)
  }

  // ---------------------------------------------------------- one entry collects

  predicate FreshAt(m: Market, group: seq<nat>, a: nat, k: nat, r: Round)
    requires k < |group|
  {
    RootOf(m, group[k]) !in r.taken && Offers(m, a, group[k])
  }

  /** Some root offered from offset `j` on is not taken yet. */
  predicate FreshOffer(m: Market, group: seq<nat>, a: nat, j: nat, r: Round) {
    exists k: nat :: j <= k < |group| && FreshAt(m, group, a, k, r)
  }

  lemma OffersSplit(m: Market, group: seq<nat>, a: nat, j: nat, root: nat)
    requires j < |group|
    ensures OffersFrom(m, group, a, j, root) <==>
      OfferedAt(m, group, a, j, root) || OffersFrom(m, group, a, j + 1, root)
  {}

  lemma FreshSplit(m: Market, group: seq<nat>, a: nat, j: nat, r: Round)
    requires j < |group|
    ensures FreshOffer(m, group, a, j, r) <==>
      FreshAt(m, group, a, j, r) || FreshOffer(m, group, a, j + 1, CollectOne(m, a, group[j], r))
  {
    var next := CollectOne(m, a, group[j], r);
    if FreshOffer(m, group, a, j, r) && !FreshAt(m, group, a, j, r) {
      var k: nat :| j <= k < |group| && FreshAt(m, group, a, k, r);
      assert FreshAt(m, group, a, k, next);
    }
    if FreshOffer(m, group, a, j + 1, next) {
      var k: nat :| j + 1 <= k < |group| && FreshAt(m, group, a, k, next);
      assert FreshAt(m, group, a, k, r);
    }
  }

  lemma {:induction false} RightsCollect(m: Market, group: seq<nat>, a: nat, j: nat, r: Round, root: nat)
    requires j <= |group|
    ensures
      var next := CollectRights(m, group, a, j, r);
      && (root in next.taken <==> root in r.taken || OffersFrom(m, group, a, j, root))
      && (root in next.gained <==> root in r.gained || (root == RootOf(m, a) && FreshOffer(m, group, a, j, r)))
    decreases |group| - j
  {
    if j < |group| {
      RightsCollect(m, group, a, j + 1, CollectOne(m, a, group[j], r), root);
      OffersSplit(m, group, a, j, root);
      FreshSplit(m, group, a, j, r);
    }
  }

  // ---------------------------------------------------------------- whole scans

  /** An offset leads if and only if its root is neither taken nor led in its group yet. */
  lemma LeadsExactly(m: Market, groups: seq<seq<nat>>, g: nat, o: nat)
    requires g < |groups| && o < |groups[g]|
    ensures
      var root := RootOf(m, groups[g][o]);
      Leads(m, groups, g, o) <==> !Taken(m, groups, g, o, root) && !LedInGroup(m, groups, g, o, root)
  {
    var root := RootOf(m, groups[g][o]);
    if !Leads(m, groups, g, o) {
      var h: nat, l: nat :| Earlier(groups, h, l, g, o) && Leads(m, groups, h, l) &&
        (OffersRoot(m, groups[h], l, root) || (h == g && RootOf(m, groups[h][l]) == root));
      assert OffersRoot(m, groups[h], l, root) ==> Takes(m, groups, h, l, root);
    }
  }

  /** Passing one offset adds what it takes and what it gains. */
  lemma TakenStep(m: Market, groups: seq<seq<nat>>, g: nat, o: nat, root: nat)
    requires g < |groups| && o < |groups[g]|
    ensures Taken(m, groups, g, o + 1, root) <==> Taken(m, groups, g, o, root) || Takes(m, groups, g, o, root)
  {
    if Taken(m, groups, g, o + 1, root) {
      var h: nat, l: nat :| Earlier(groups, h, l, g, o + 1) && Takes(m, groups, h, l, root);
      assert Earlier(groups, h, l, g, o) || (h == g && l == o);
    }
    if Taken(m, groups, g, o, root) {
      var h: nat, l: nat :| Earlier(groups, h, l, g, o) && Takes(m, groups, h, l, root);
      assert Earlier(groups, h, l, g, o + 1);
    }
    assert Earlier(groups, g, o, g, o + 1);
  }

  lemma GainedStep(m: Market, groups: seq<seq<nat>>, g: nat, o: nat, root: nat)
    requires g < |groups| && o < |groups[g]|
    ensures GainedBefore(m, groups, g, o + 1, root) <==>
      GainedBefore(m, groups, g, o, root) || GainsAs(m, groups, g, o, root)
  {
    if GainedBefore(m, groups, g, o + 1, root) {
      var h: nat, l: nat :| Earlier(groups, h, l, g, o + 1) && GainsAs(m, groups, h, l, root);
      assert Earlier(groups, h, l, g, o) || (h == g && l == o);
    }
    if GainedBefore(m, groups, g, o, root) {
      var h: nat, l: nat :| Earlier(groups, h, l, g, o) && GainsAs(m, groups, h, l, root);
      assert Earlier(groups, h, l, g, o + 1);
    }
    assert Earlier(groups, g, o, g, o + 1);
  }

  lemma TakenAcross(m: Market, groups: seq<seq<nat>>, g: nat, root: nat)
    requires g < |groups|
    ensures Taken(m, groups, g + 1, 0, root) <==> Taken(m, groups, g, |groups[g]|, root)
    ensures GainedBefore(m, groups, g + 1, 0, root) <==> GainedBefore(m, groups, g, |groups[g]|, root)
  {
    var n := |groups[g]|;
    assert forall h: nat, l: nat :: Earlier(groups, h, l, g + 1, 0) <==> Earlier(groups, h, l, g, n);
    if Taken(m, groups, g + 1, 0, root) {
      var h: nat, l: nat :| Earlier(groups, h, l, g + 1, 0) && Takes(m, groups, h, l, root);
      assert Earlier(groups, h, l, g, n);
    }
    if Taken(m, groups, g, n, root) {
      var h: nat, l: nat :| Earlier(groups, h, l, g, n) && Takes(m, groups, h, l, root);
      assert Earlier(groups, h, l, g + 1, 0);
    }
    if GainedBefore(m, groups, g + 1, 0, root) {
      var h: nat, l: nat :| Earlier(groups, h, l, g + 1, 0) && GainsAs(m, groups, h, l, root);
      assert Earlier(groups, h, l, g, n);
    }
    if GainedBefore(m, groups, g, n, root) {
      var h: nat, l: nat :| Earlier(groups, h, l, g, n) && GainsAs(m, groups, h, l, root);
      assert Earlier(groups, h, l, g + 1, 0);
    }
  }

  /** Passing the end of a group changes nothing. */
  lemma NextGroup(m: Market, groups: seq<seq<nat>>, g: nat, r: Round)
    requires g < |groups| && Follows(m, groups, g, |groups[g]|, r)
    ensures Follows(m, groups, g + 1, 0, r)
  {
    forall root: nat
      ensures root in r.taken <==> Taken(m, groups, g + 1, 0, root)
      ensures root in r.gained <==> GainedBefore(m, groups, g + 1, 0, root)
    {
      TakenAcross(m, groups, g, root);
    }
  }

  /** A leader has a fresh offer exactly when it gains. */
  lemma FreshIsGain(m: Market, groups: seq<seq<nat>>, g: nat, o: nat, r: Round)
    requires g < |groups| && o < |groups[g]| && Follows(m, groups, g, o, r) && Leads(m, groups, g, o)
    ensures FreshOffer(m, groups[g], groups[g][o], o + 1, r) <==> Gains(m, groups, g, o)
  {
    var group := groups[g];
    if FreshOffer(m, group, group[o], o + 1, r) {
      var k: nat :| o + 1 <= k < |group| && FreshAt(m, group, group[o], k, r);
      assert OfferedAt(m, group, group[o], k, RootOf(m, group[k]));
      assert OffersRoot(m, group, o, RootOf(m, group[k]));
      assert !Taken(m, groups, g, o, RootOf(m, group[k]));
    }
    if Gains(m, groups, g, o) {
      var root: nat :| OffersRoot(m, group, o, root) && !Taken(m, groups, g, o, root);
      var k: nat :| o + 1 <= k < |group| && OfferedAt(m, group, group[o], k, root);
      assert FreshAt(m, group, group[o], k, r);
    }
  }

  lemma LeaderStep(m: Market, groups: seq<seq<nat>>, g: nat, o: nat, r: Round)
    requires g < |groups| && o < |groups[g]| && Follows(m, groups, g, o, r) && Leads(m, groups, g, o)
    ensures Follows(m, groups, g, o + 1, CollectRights(m, groups[g], groups[g][o], o + 1, r))
  {
    var next := CollectRights(m, groups[g], groups[g][o], o + 1, r);
    FreshIsGain(m, groups, g, o, r);
    forall root: nat
      ensures root in next.taken <==> Taken(m, groups, g, o + 1, root)
      ensures root in next.gained <==> GainedBefore(m, groups, g, o + 1, root)
    {
      RightsCollect(m, groups[g], groups[g][o], o + 1, r, root);
      TakenStep(m, groups, g, o, root);
      GainedStep(m, groups, g, o, root);
    }
  }

  lemma SkippedStep(m: Market, groups: seq<seq<nat>>, g: nat, o: nat, r: Round)
    requires g < |groups| && o < |groups[g]| && Follows(m, groups, g, o, r) && !Leads(m, groups, g, o)
    ensures Follows(m, groups, g, o + 1, r)
  {
    forall root: nat
      ensures root in r.taken <==> Taken(m, groups, g, o + 1, root)
      ensures root in r.gained <==> GainedBefore(m, groups, g, o + 1, root)
    {
      TakenStep(m, groups, g, o, root);
      GainedStep(m, groups, g, o, root);
    }
  }

  lemma ComparedStep(m: Market, groups: seq<seq<nat>>, g: nat, o: nat, compared: set<nat>)
    requires g < |groups| && o < |groups[g]| && ComparedAre(m, groups, g, o, compared)
    ensures ComparedAre(m, groups, g, o + 1,
                        if Leads(m, groups, g, o) then compared + {RootOf(m, groups[g][o])} else compared)
  {
    var next := if Leads(m, groups, g, o) then compared + {RootOf(m, groups[g][o])} else compared;
    forall root: nat ensures root in next <==> LedInGroup(m, groups, g, o + 1, root) {
      if LedInGroup(m, groups, g, o, root) {
        var l: nat :| l < o && Leads(m, groups, g, l) && RootOf(m, groups[g][l]) == root;
        assert LedInGroup(m, groups, g, o + 1, root);
      }
      if LedInGroup(m, groups, g, o + 1, root) {
        var l: nat :| l < o + 1 && Leads(m, groups, g, l) && RootOf(m, groups[g][l]) == root;
        assert l < o ==> LedInGroup(m, groups, g, o, root);
      }
    }
  }

  lemma {:induction false} LeftsFollow(m: Market, groups: seq<seq<nat>>, g: nat, o: nat, compared: set<nat>, r: Round)
    requires g < |groups| && o <= |groups[g]| && Follows(m, groups, g, o, r) && ComparedAre(m, groups, g, o, compared)
    ensures Follows(m, groups, g, |groups[g]|, CollectLefts(m, groups[g], o, compared, r))
    decreases |groups[g]| - o
  {
    if o < |groups[g]| {
      var root := RootOf(m, groups[g][o]);
      LeadsExactly(m, groups, g, o);
      ComparedStep(m, groups, g, o, compared);
      assert root in r.taken <==> Taken(m, groups, g, o, root);
      assert root in compared <==> LedInGroup(m, groups, g, o, root);
      if Leads(m, groups, g, o) {
        LeaderStep(m, groups, g, o, r);
        LeftsFollow(m, groups, g, o + 1, compared + {root}, CollectRights(m, groups[g], groups[g][o], o + 1, r));
      } else {
        SkippedStep(m, groups, g, o, r);
        LeftsFollow(m, groups, g, o + 1, compared, r);
      }
    }
  }

  lemma {:induction false} GroupsFollow(m: Market, groups: seq<seq<nat>>, g: nat, r: Round)
    requires g <= |groups| && Follows(m, groups, g, 0, r)
    ensures Follows(m, groups, |groups|, 0, CollectGroups(m, groups, g, r))
    decreases |groups| - g
  {
    if g < |groups| {
      LeftsFollow(m, groups, g, 0, {}, r);
      NextGroup(m, groups, g, CollectLefts(m, groups[g], 0, {}, r));
      GroupsFollow(m, groups, g + 1, CollectLefts(m, groups[g], 0, {}, r));
    }
  }

  /** Some entry gains a root while a leader is offered the entry's own root. */
  ghost predicate GivesAwayALeader(m: Market, groups: seq<seq<nat>>) {
    exists root: nat :: GainedBefore(m, groups, |groups|, 0, root) && Taken(m, groups, |groups|, 0, root)
  }

  lemma ScanFollows(m: Market, groups: seq<seq<nat>>, r: Round)
    requires r == CollectGroups(m, groups, 0, Round({}, {}))
    ensures Follows(m, groups, |groups|, 0, r)
  {
    assert Follows(m, groups, 0, 0, Round({}, {}));
    GroupsFollow(m, groups, 0, Round({}, {}));
  }

  // ------------------------------------------------------- conditions on offsets

  /** No root occurs in two groups. */
  ghost predicate Apart(m: Market, groups: seq<seq<nat>>) {
    forall g: nat, h: nat, i: nat, j: nat | g < |groups| && h < |groups| && i < |groups[g]| && j < |groups[h]| ::
      RootOf(m, groups[g][i]) == RootOf(m, groups[h][j]) ==> g == h
  }

  /**
   A root comes back after a different one that it could not collect and that
   could collect it: one root at `i` and `k`, no offer from `j` to `i`, an offer
   from `k` to `j`.
   */
  predicate ReturnsAt(m: Market, group: seq<nat>, i: nat, j: nat, k: nat)
    requires i < j < k < |group|
  {
    RootOf(m, group[i]) == RootOf(m, group[k]) && !Offers(m, group[i], group[j]) && Offers(m, group[j], group[k])
  }

  /** A leader is not offered to an earlier leader, nor does it repeat one of its group. */
  lemma LeaderIsOwn(m: Market, groups: seq<seq<nat>>, g: nat, l: nat, o: nat)
    requires g < |groups| && l < o < |groups[g]| && Leads(m, groups, g, l) && Leads(m, groups, g, o)
    ensures !OffersRoot(m, groups[g], l, RootOf(m, groups[g][o]))
    ensures RootOf(m, groups[g][l]) != RootOf(m, groups[g][o])
  {
    assert Earlier(groups, g, l, g, o);
  }

  /** The gainer stands before the leader that takes it, and could not collect that leader. */
  lemma GainerComesFirst(m: Market, groups: seq<seq<nat>>, g: nat, i: nat, j: nat, k: nat)
    requires g < |groups| && i < |groups[g]| && j < k < |groups[g]| && Leads(m, groups, g, i) && Leads(m, groups, g, j)
    requires OfferedAt(m, groups[g], groups[g][j], k, RootOf(m, groups[g][i]))
    ensures i < j && ReturnsAt(m, groups[g], i, j, k)
  {
    var group := groups[g];
    assert OffersRoot(m, group, j, RootOf(m, group[i]));
    if j < i { LeaderIsOwn(m, groups, g, j, i); }
    assert i != j;
    if i < j {
      LeaderIsOwn(m, groups, g, i, j);
      assert Offers(m, group[i], group[j]) ==> OfferedAt(m, group, group[i], j, RootOf(m, group[j]));
    }
  }

  /** An entry given away after gaining is a root that returns. */
  lemma GivenAwayReturns(m: Market, groups: seq<seq<nat>>) returns (g: nat, i: nat, j: nat, k: nat)
    requires Apart(m, groups) && GivesAwayALeader(m, groups)
    ensures g < |groups| && i < j < k < |groups[g]| && ReturnsAt(m, groups[g], i, j, k)
    ensures Gains(m, groups, g, i) && Leads(m, groups, g, j)
  {
    var root: nat :| GainedBefore(m, groups, |groups|, 0, root) && Taken(m, groups, |groups|, 0, root);
    g, i :| Earlier(groups, g, i, |groups|, 0) && GainsAs(m, groups, g, i, root);
    var h: nat;
    h, j :| Earlier(groups, h, j, |groups|, 0) && Takes(m, groups, h, j, root);
    k :| j + 1 <= k < |groups[h]| && OfferedAt(m, groups[h], groups[h][j], k, root);
    assert RootOf(m, groups[g][i]) == RootOf(m, groups[h][k]);
    GainerComesFirst(m, groups, g, i, j, k);
  }
}
