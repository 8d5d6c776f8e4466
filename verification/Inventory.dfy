/** The incremental backend inventory: owner indexes patched per transaction. */
module Inventory {
  import opened Options
  import opened Contributions

  /** What one executable contributes: its atoms in order, and its wrappers by ascending position. */
  datatype Backend = Backend(atoms: seq<string>, wrappers: seq<Wrapper>)

  ghost predicate Sorted(ws: seq<Wrapper>) {
    forall i, j :: 0 <= i < j < |ws| ==> ws[i].identity < ws[j].identity
  }

  // ------------------------------------------------------------------ tables

  function AtomTable(atoms: seq<string>): (t: map<nat, string>)
    ensures forall i: nat :: i in t <==> i < |atoms|
    ensures forall i: nat :: i in t ==> t[i] == atoms[i]
  {
    map i: nat | i < |atoms| :: atoms[i]
  }

  function WrapperTable(ws: seq<Wrapper>): (t: map<nat, Wrapper>)
    ensures forall p :: p in t ==> t[p] in ws && t[p].identity == p
    ensures forall w :: w in ws ==> w.identity in t
  {
    if ws == [] then map[] else
      assert ws == [ws[0]] + ws[1..];
      WrapperTable(ws[1..])[ws[0].identity := ws[0]]
  }

  lemma TableLookup(ws: seq<Wrapper>, w: Wrapper)
    requires Sorted(ws) && w in ws
    ensures w.identity in WrapperTable(ws) && WrapperTable(ws)[w.identity] == w
  {
    var found := WrapperTable(ws)[w.identity];
    var i :| 0 <= i < |ws| && ws[i] == w;
    var j :| 0 <= j < |ws| && ws[j] == found;
  }

  ghost function Owners(execs: map<nat, Backend>): (r: set<Owner>)
    ensures forall owner :: owner in r <==> owner.Executable? && owner.key in execs
  {
    var r := set k | k in execs :: Executable(k);
    assert forall owner: Owner :: owner.Executable? && owner.key in execs ==> owner == Executable(owner.key);
    r
  }

  ghost function AtomTables(builtins: seq<string>, execs: map<nat, Backend>): map<Owner, map<nat, string>> {
    (map owner | owner in Owners(execs) :: AtomTable(execs[owner.key].atoms))[Builtins := AtomTable(builtins)]
  }

  ghost function WrapperTables(execs: map<nat, Backend>): map<Owner, map<nat, Wrapper>> {
    map owner | owner in Owners(execs) :: WrapperTable(execs[owner.key].wrappers)
  }

  /** Every atom occurrence the builtins and the executables contribute. */
  ghost function AllAtoms(builtins: seq<string>, execs: map<nat, Backend>): map<Slot, string> {
    AllRows(AtomTables(builtins, execs))
  }

  ghost function AllWrappers(execs: map<nat, Backend>): map<Slot, Wrapper> {
    AllRows(WrapperTables(execs))
  }

  // ----------------------------------------------------------- two-cursor merge

  datatype WrapperChange = WrapperChange(retired: Option<Wrapper>, installed: Option<Wrapper>)

  ghost function Elements(ws: seq<Wrapper>): set<Wrapper> {
    set w | w in ws
  }

  ghost function Retired(changes: seq<WrapperChange>): set<Wrapper> {
    set c | c in changes && c.retired.Some? :: c.retired.value
  }

  ghost function Installed(changes: seq<WrapperChange>): set<Wrapper> {
    set c | c in changes && c.installed.Some? :: c.installed.value
  }

  ghost predicate ChangeAt(change: WrapperChange, position: nat) {
    && (change.retired.Some? || change.installed.Some?)
    && (change.retired.Some? ==> change.retired.value.identity == position)
    && (change.installed.Some? ==> change.installed.value.identity == position)
  }

  /** Ascending positions, one change each. */
  ghost predicate Ascending(changes: seq<WrapperChange>, at: seq<nat>) {
    && |at| == |changes|
    && (forall i :: 0 <= i < |changes| ==> ChangeAt(changes[i], at[i]))
    && (forall i, j :: 0 <= i < j < |at| ==> at[i] < at[j])
  }

  /** Both cursors stand between what is merged and what is not. */
  ghost predicate Merged(previous: seq<Wrapper>, next: seq<Wrapper>, i: nat, j: nat) {
    && i <= |previous| && j <= |next|
    && (forall a, b :: 0 <= a < i && j <= b < |next| ==> previous[a].identity < next[b].identity)
    && (forall a, b :: i <= a < |previous| && 0 <= b < j ==> next[b].identity < previous[a].identity)
  }

  ghost predicate Below(at: seq<nat>, ws: seq<Wrapper>, i: nat) {
    i < |ws| ==> forall k :: 0 <= k < |at| ==> at[k] < ws[i].identity
  }

  /**
   The merge of two sorted wrapper lists: it retires exactly what only the
   previous list holds and installs exactly what only the next one holds.
   */
  method ChangedWrappers(
      previous: seq<Wrapper>, next: seq<Wrapper>) returns (changes: seq<WrapperChange>, ghost at: seq<nat>)
    requires Sorted(previous) && Sorted(next)
    ensures Retired(changes) == Elements(previous) - Elements(next)
    ensures Installed(changes) == Elements(next) - Elements(previous)
    ensures Ascending(changes, at)
  {
    var i, j := 0, 0;
    changes, at := [], [];
    MergeStarts(previous, next);
    while i < |previous| || j < |next|
      invariant MergeState(previous, next, i, j, changes, at)
      decreases |previous| - i + |next| - j
    {
      if i < |previous| && j < |next| && previous[i].identity == next[j].identity {
        StepBoth(previous, next, i, j, changes, at);
        if previous[i] != next[j] {
          changes, at := changes + [WrapperChange(Some(previous[i]), Some(next[j]))], at + [previous[i].identity];
        }
        i, j := i + 1, j + 1;
      } else if j == |next| || (i < |previous| && previous[i].identity < next[j].identity) {
        StepPrevious(previous, next, i, j, changes, at);
        changes, at := changes + [WrapperChange(Some(previous[i]), None)], at + [previous[i].identity];
        i := i + 1;
      } else {
        StepNext(previous, next, i, j, changes, at);
        changes, at := changes + [WrapperChange(None, Some(next[j]))], at + [next[j].identity];
        j := j + 1;
      }
    }
    MergeEnds(previous, next, changes, at);
  }

  ghost predicate MergeState(
    previous: seq<Wrapper>, next: seq<Wrapper>, i: nat, j: nat, changes: seq<WrapperChange>, at: seq<nat>)
  {
    && i <= |previous| && j <= |next|
    && MergeOrder(previous, next, i, j, changes, at) && MergeSets(previous, next, i, j, changes)
  }

  ghost predicate MergeOrder(
    previous: seq<Wrapper>, next: seq<Wrapper>, i: nat, j: nat, changes: seq<WrapperChange>, at: seq<nat>)
  {
    Merged(previous, next, i, j) && Ascending(changes, at) && Below(at, previous, i) && Below(at, next, j)
  }

  ghost predicate MergeSets(previous: seq<Wrapper>, next: seq<Wrapper>, i: nat, j: nat, changes: seq<WrapperChange>)
    requires i <= |previous| && j <= |next|
  {
    && Retired(changes) == Elements(previous[..i]) - Elements(next[..j])
    && Installed(changes) == Elements(next[..j]) - Elements(previous[..i])
  }

  lemma MergeStarts(previous: seq<Wrapper>, next: seq<Wrapper>)
    ensures MergeState(previous, next, 0, 0, [], [])
  {}

  lemma MergeEnds(previous: seq<Wrapper>, next: seq<Wrapper>, changes: seq<WrapperChange>, at: seq<nat>)
    requires MergeState(previous, next, |previous|, |next|, changes, at)
    ensures Retired(changes) == Elements(previous) - Elements(next)
    ensures Installed(changes) == Elements(next) - Elements(previous)
    ensures Ascending(changes, at)
  {
    assert previous[..|previous|] == previous && next[..|next|] == next;
  }

  lemma AppendedAscending(changes: seq<WrapperChange>, at: seq<nat>, c: WrapperChange, position: nat)
    requires Ascending(changes, at) && ChangeAt(c, position) && forall k :: 0 <= k < |at| ==> at[k] < position
    ensures Ascending(changes + [c], at + [position])
  {}

  lemma StepPrevious(
      previous: seq<Wrapper>, next: seq<Wrapper>, i: nat, j: nat, changes: seq<WrapperChange>, at: seq<nat>)
    requires Sorted(previous) && Sorted(next) && MergeState(previous, next, i, j, changes, at)
    requires i < |previous| && (j < |next| ==> previous[i].identity < next[j].identity)
    ensures MergeState(previous, next, i + 1, j,
                       changes + [WrapperChange(Some(previous[i]), None)], at + [previous[i].identity])
  {
    AppendedAscending(changes, at, WrapperChange(Some(previous[i]), None), previous[i].identity);
    Appended(changes, WrapperChange(Some(previous[i]), None));
    Advance(previous, i);
    Fresh(previous, next, i, j);
  }

  lemma StepNext(previous: seq<Wrapper>, next: seq<Wrapper>, i: nat, j: nat, changes: seq<WrapperChange>, at: seq<nat>)
    requires Sorted(previous) && Sorted(next) && MergeState(previous, next, i, j, changes, at)
    requires j < |next| && (i < |previous| ==> next[j].identity < previous[i].identity)
    ensures MergeState(previous, next, i, j + 1, changes + [WrapperChange(None, Some(next[j]))],
                       at + [next[j].identity])
  {
    AppendedAscending(changes, at, WrapperChange(None, Some(next[j])), next[j].identity);
    Appended(changes, WrapperChange(None, Some(next[j])));
    Advance(next, j);
    Fresh(previous, next, i, j);
  }

  lemma StepBoth(previous: seq<Wrapper>, next: seq<Wrapper>, i: nat, j: nat, changes: seq<WrapperChange>, at: seq<nat>)
    requires Sorted(previous) && Sorted(next) && MergeState(previous, next, i, j, changes, at)
    requires i < |previous| && j < |next| && previous[i].identity == next[j].identity
    ensures if previous[i] == next[j] then MergeState(previous, next, i + 1, j + 1, changes, at)
      else MergeState(previous, next, i + 1, j + 1,
                      changes + [WrapperChange(Some(previous[i]), Some(next[j]))], at + [previous[i].identity])
  {
    var c := WrapperChange(Some(previous[i]), Some(next[j]));
    AppendedAscending(changes, at, c, previous[i].identity);
    Appended(changes, c);
    Advance(previous, i);
    Advance(next, j);
    Fresh(previous, next, i, j);
  }

  lemma Appended(changes: seq<WrapperChange>, c: WrapperChange)
    ensures Retired(changes + [c]) == Retired(changes) + (if c.retired.Some? then {c.retired.value} else {})
    ensures Installed(changes + [c]) == Installed(changes) + (if c.installed.Some? then {c.installed.value} else {})
  {
    assert forall d :: d in changes + [c] <==> d in changes || d == c;
  }

  lemma Advance(ws: seq<Wrapper>, i: nat)
    requires i < |ws|
    ensures Elements(ws[..i + 1]) == Elements(ws[..i]) + {ws[i]}
  {
    assert ws[..i + 1] == ws[..i] + [ws[i]];
  }

  /** What stands at a cursor is not among anything already merged. */
  lemma Fresh(previous: seq<Wrapper>, next: seq<Wrapper>, i: nat, j: nat)
    requires Sorted(previous) && Sorted(next) && Merged(previous, next, i, j)
    ensures i < |previous| ==> previous[i] !in Elements(previous[..i]) && previous[i] !in Elements(next[..j])
    ensures j < |next| ==> next[j] !in Elements(next[..j]) && next[j] !in Elements(previous[..i])
  {}
}
