/** A transaction on executables, seen as a transaction on their atom rows and on their wrapper rows. */
module InventoryTransaction {
  import opened Options
  import opened Contributions
  import opened InventoryIndexes
  import opened Inventory

  function Lookup(execs: map<nat, Backend>, key: nat): Option<Backend> {
    if key in execs then Some(execs[key]) else None
  }

  function AtomsOf(b: Option<Backend>): seq<string> {
    if b.Some? then b.value.atoms else []
  }

  function WrappersOf(b: Option<Backend>): seq<Wrapper> {
    if b.Some? then b.value.wrappers else []
  }

  ghost predicate AtomRowRight(builtins: seq<string>, execs: map<nat, Backend>, rows: map<Slot, string>, slot: Slot) {
    Get(rows, slot) == Get(AllAtoms(builtins, execs), slot)
  }

  /** The rows are exactly the atom occurrences contributed, said slot by slot. */
  ghost predicate AtomRowsOf(builtins: seq<string>, execs: map<nat, Backend>, rows: map<Slot, string>) {
    forall slot {:trigger AtomRowRight(builtins, execs, rows, slot)} :: AtomRowRight(builtins, execs, rows, slot)
  }

  lemma AtomRowsAre(builtins: seq<string>, execs: map<nat, Backend>, rows: map<Slot, string>)
    ensures AtomRowsOf(builtins, execs, rows) <==> rows == AllAtoms(builtins, execs)
  {
    if AtomRowsOf(builtins, execs, rows) {
      forall slot ensures Get(rows, slot) == Get(AllAtoms(builtins, execs), slot) {
        assert AtomRowRight(builtins, execs, rows, slot);
      }
      SameRows(rows, AllAtoms(builtins, execs));
    }
  }

  ghost predicate WrapperRowRight(execs: map<nat, Backend>, rows: map<Slot, Wrapper>, slot: Slot) {
    Get(rows, slot) == Get(AllWrappers(execs), slot)
  }

  /** The rows are exactly the wrappers contributed, said slot by slot. */
  ghost predicate WrapperRowsOf(execs: map<nat, Backend>, rows: map<Slot, Wrapper>) {
    forall slot {:trigger WrapperRowRight(execs, rows, slot)} :: WrapperRowRight(execs, rows, slot)
  }

  lemma WrapperRowsAre(execs: map<nat, Backend>, rows: map<Slot, Wrapper>)
    ensures WrapperRowsOf(execs, rows) <==> rows == AllWrappers(execs)
  {
    if WrapperRowsOf(execs, rows) {
      forall slot ensures Get(rows, slot) == Get(AllWrappers(execs), slot) {
        assert WrapperRowRight(execs, rows, slot);
      }
      SameRows(rows, AllWrappers(execs));
    }
  }

  ghost predicate PairAgrees(execs: map<nat, Backend>, j: nat, k: nat, v: Wrapper, w: Wrapper) {
    j in execs && k in execs && v in execs[j].wrappers && w in execs[k].wrappers && v.identity == w.identity ==> v == w
  }

  /** Wrappers at one position agree, whichever executables hold them. */
  ghost predicate WrappersAgree(execs: map<nat, Backend>) {
    forall j, k, v, w {:trigger PairAgrees(execs, j, k, v, w)} :: PairAgrees(execs, j, k, v, w)
  }

  lemma AgreeingRows(execs: map<nat, Backend>, rows: map<Slot, Wrapper>, s: Slot, t: Slot)
    requires WrappersAgree(execs) && rows == AllWrappers(execs)
    ensures SlotsAgree(rows, s, t)
  {
    if s in rows && t in rows {
      RowIsAWrapper(execs, rows, s);
      RowIsAWrapper(execs, rows, t);
      AgreeingPair(execs, s.owner.key, t.owner.key, rows[s], rows[t]);
    }
  }

  lemma AgreeingPair(execs: map<nat, Backend>, j: nat, k: nat, v: Wrapper, w: Wrapper)
    requires WrappersAgree(execs) && j in execs && k in execs && v in execs[j].wrappers && w in execs[k].wrappers
    ensures v.identity == w.identity ==> v == w
  {
    assert PairAgrees(execs, j, k, v, w);
  }

  lemma AgreeingOwners(execs: map<nat, Backend>, rows: map<Slot, Wrapper>)
    requires WrappersAgree(execs) && rows == AllWrappers(execs)
    ensures Agreed(rows)
  {
    forall s, t ensures SlotsAgree(rows, s, t) { AgreeingRows(execs, rows, s, t); }
  }

  lemma RowIsAWrapper(execs: map<nat, Backend>, rows: map<Slot, Wrapper>, s: Slot)
    requires rows == AllWrappers(execs) && s in rows
    ensures s.owner.Executable? && s.owner.key in execs
    ensures rows[s] in execs[s.owner.key].wrappers && rows[s].identity == s.index
  {}

  ghost predicate AllSorted(execs: map<nat, Backend>) {
    forall k :: k in execs ==> Sorted(execs[k].wrappers)
  }

  type ExecutableChange = (nat, Option<Backend>)

  ghost predicate DistinctKeys(changes: seq<ExecutableChange>) {
    forall i, j :: 0 <= i < j < |changes| ==> changes[i].0 != changes[j].0
  }

  function Recorded(execs: map<nat, Backend>, key: nat, next: Option<Backend>): map<nat, Backend> {
    match next
    case None => execs - {key}
    case Some(backend) => execs[key := backend]
  }

  /** The executables once the first `n` changes are made. */
  function UpdatedExecutables(execs: map<nat, Backend>, changes: seq<ExecutableChange>, n: nat): map<nat, Backend>
    requires n <= |changes|
  {
    if n == 0 then execs
    else
      Recorded(UpdatedExecutables(execs, changes, n - 1), changes[n - 1].0, changes[n - 1].1)
  }

  ghost function AtomChanges(execs: map<nat, Backend>, changes: seq<ExecutableChange>): (r: seq<Change<string>>)
    ensures |r| == |changes|
    ensures forall i :: 0 <= i < |r| ==> r[i] == AtomChange(execs, changes[i])
  {
    seq(|changes|, i requires 0 <= i < |changes| => AtomChange(execs, changes[i]))
  }

  ghost function AtomChange(execs: map<nat, Backend>, change: ExecutableChange): Change<string> {
    Change(Executable(change.0), AtomTable(AtomsOf(Lookup(execs, change.0))), AtomTable(AtomsOf(change.1)))
  }

  ghost function WrapperChanges(execs: map<nat, Backend>, changes: seq<ExecutableChange>): (r: seq<Change<Wrapper>>)
    ensures |r| == |changes|
    ensures forall i :: 0 <= i < |r| ==> r[i] == WrapperChangeOf(execs, changes[i])
  {
    seq(|changes|, i requires 0 <= i < |changes| => WrapperChangeOf(execs, changes[i]))
  }

  ghost function WrapperChangeOf(execs: map<nat, Backend>, change: ExecutableChange): Change<Wrapper> {
    Change(Executable(change.0), WrapperTable(WrappersOf(Lookup(execs, change.0))), WrapperTable(WrappersOf(change.1)))
  }

  ghost predicate ChangeTold(
    execs: map<nat, Backend>, changes: seq<ExecutableChange>, ca: seq<Change<string>>, cw: seq<Change<Wrapper>>, i: nat)
  {
    i < |changes| && i < |ca| && i < |cw| ==>
      ca[i] == AtomChange(execs, changes[i]) && cw[i] == WrapperChangeOf(execs, changes[i])
  }

  /** The rows each change of a transaction drops and adds. */
  ghost predicate ChangesTold(
    execs: map<nat, Backend>, changes: seq<ExecutableChange>, ca: seq<Change<string>>, cw: seq<Change<Wrapper>>)
  {
    && |ca| == |changes| == |cw|
    && forall i {:trigger ChangeTold(execs, changes, ca, cw, i)} :: ChangeTold(execs, changes, ca, cw, i)
  }

  lemma TellChanges(execs: map<nat, Backend>, changes: seq<ExecutableChange>)
    returns (ca: seq<Change<string>>, cw: seq<Change<Wrapper>>)
    ensures ChangesTold(execs, changes, ca, cw)
  {
    ca, cw := AtomChanges(execs, changes), WrapperChanges(execs, changes);
  }

  lemma ToldAre(
      execs: map<nat, Backend>, changes: seq<ExecutableChange>, ca: seq<Change<string>>, cw: seq<Change<Wrapper>>)
    requires ChangesTold(execs, changes, ca, cw)
    ensures ca == AtomChanges(execs, changes) && cw == WrapperChanges(execs, changes)
  {
    forall i | 0 <= i < |changes|
      ensures ca[i] == AtomChange(execs, changes[i]) && cw[i] == WrapperChangeOf(execs, changes[i])
    {
      assert ChangeTold(execs, changes, ca, cw, i);
    }
  }

  lemma AtomTransaction(builtins: seq<string>, execs: map<nat, Backend>, changes: seq<ExecutableChange>)
    requires DistinctKeys(changes)
    ensures Transaction(AtomTables(builtins, execs), AtomChanges(execs, changes))
  {
    assert AtomTable([]) == map[];
  }

  lemma WrapperTransaction(execs: map<nat, Backend>, changes: seq<ExecutableChange>)
    requires DistinctKeys(changes)
    ensures Transaction(WrapperTables(execs), WrapperChanges(execs, changes))
  {}

  ghost function TableOf<V>(tables: map<Owner, map<nat, V>>, owner: Owner): map<nat, V> {
    if owner in tables then tables[owner] else map[]
  }

  lemma SameTablesSameRows<V>(a: map<Owner, map<nat, V>>, b: map<Owner, map<nat, V>>)
    requires forall owner :: TableOf(a, owner) == TableOf(b, owner)
    ensures AllRows(a) == AllRows(b)
  {
    forall slot
      ensures Get(AllRows(a), slot) == Get(AllRows(b), slot)
    {
      assert TableOf(a, slot.owner) == TableOf(b, slot.owner);
    }
    SameRows(AllRows(a), AllRows(b));
  }

  lemma AtomTableOf(builtins: seq<string>, execs: map<nat, Backend>, owner: Owner)
    ensures TableOf(AtomTables(builtins, execs), owner) ==
      match owner
      case Builtins => AtomTable(builtins)
      case Executable(key) => AtomTable(AtomsOf(Lookup(execs, key)))
  {
    assert AtomTable([]) == map[];
  }

  lemma WrapperTableOf(execs: map<nat, Backend>, owner: Owner)
    ensures TableOf(WrapperTables(execs), owner) ==
      match owner
      case Builtins => map[]
      case Executable(key) => WrapperTable(WrappersOf(Lookup(execs, key)))
  {}

  lemma UpdatedLookup(execs: map<nat, Backend>, changes: seq<ExecutableChange>, n: nat, key: nat)
    requires 0 < n <= |changes|
    ensures Lookup(UpdatedExecutables(execs, changes, n), key) ==
      if key == changes[n - 1].0 then changes[n - 1].1 else Lookup(UpdatedExecutables(execs, changes, n - 1), key)
  {}

  lemma UpdatedAt<V>(tables: map<Owner, map<nat, V>>, changes: seq<Change<V>>, n: nat, owner: Owner)
    requires 0 < n <= |changes|
    ensures TableOf(Updated(tables, changes, n), owner) ==
      if owner == changes[n - 1].owner then changes[n - 1].after else TableOf(Updated(tables, changes, n - 1), owner)
  {}

  ghost function WantedAtoms(builtins: seq<string>, execs: map<nat, Backend>, owner: Owner): map<nat, string> {
    match owner
    case Builtins => AtomTable(builtins)
    case Executable(key) => AtomTable(AtomsOf(Lookup(execs, key)))
  }

  ghost function WantedWrappers(execs: map<nat, Backend>, owner: Owner): map<nat, Wrapper> {
    match owner
    case Builtins => map[]
    case Executable(key) => WrapperTable(WrappersOf(Lookup(execs, key)))
  }

  lemma WantedAtomsAfter(
    builtins: seq<string>, execs: map<nat, Backend>, changes: seq<ExecutableChange>, n: nat, owner: Owner)
    requires 0 < n <= |changes|
    ensures WantedAtoms(builtins, UpdatedExecutables(execs, changes, n), owner) ==
      if owner == Executable(changes[n - 1].0) then AtomTable(AtomsOf(changes[n - 1].1))
      else WantedAtoms(builtins, UpdatedExecutables(execs, changes, n - 1), owner)
  {
    if owner.Executable? { UpdatedLookup(execs, changes, n, owner.key); }
  }

  lemma WantedWrappersAfter(execs: map<nat, Backend>, changes: seq<ExecutableChange>, n: nat, owner: Owner)
    requires 0 < n <= |changes|
    ensures WantedWrappers(UpdatedExecutables(execs, changes, n), owner) ==
      if owner == Executable(changes[n - 1].0) then WrapperTable(WrappersOf(changes[n - 1].1))
      else WantedWrappers(UpdatedExecutables(execs, changes, n - 1), owner)
  {
    if owner.Executable? { UpdatedLookup(execs, changes, n, owner.key); }
  }

  lemma {:induction false} UpdatedAtomTable(
    builtins: seq<string>, execs: map<nat, Backend>, tables: map<Owner, map<nat, string>>,
    cs: seq<Change<string>>, changes: seq<ExecutableChange>, n: nat, owner: Owner)
    requires |cs| == |changes| && n <= |changes| && TableOf(tables, owner) == WantedAtoms(builtins, execs, owner)
    requires forall i :: 0 <= i < |cs| ==>
      cs[i].owner == Executable(changes[i].0) && cs[i].after == AtomTable(AtomsOf(changes[i].1))
    ensures TableOf(Updated(tables, cs, n), owner) ==
      WantedAtoms(builtins, UpdatedExecutables(execs, changes, n), owner)
    decreases n
  {
    if n > 0 {
      UpdatedAtomTable(builtins, execs, tables, cs, changes, n - 1, owner);
      UpdatedAt(tables, cs, n, owner);
      WantedAtomsAfter(builtins, execs, changes, n, owner);
    }
  }

  lemma {:induction false} UpdatedWrapperTable(
    execs: map<nat, Backend>, tables: map<Owner, map<nat, Wrapper>>,
    cs: seq<Change<Wrapper>>, changes: seq<ExecutableChange>, n: nat, owner: Owner)
    requires |cs| == |changes| && n <= |changes| && TableOf(tables, owner) == WantedWrappers(execs, owner)
    requires forall i :: 0 <= i < |cs| ==>
      cs[i].owner == Executable(changes[i].0) && cs[i].after == WrapperTable(WrappersOf(changes[i].1))
    ensures TableOf(Updated(tables, cs, n), owner) == WantedWrappers(UpdatedExecutables(execs, changes, n), owner)
    decreases n
  {
    if n > 0 {
      UpdatedWrapperTable(execs, tables, cs, changes, n - 1, owner);
      UpdatedAt(tables, cs, n, owner);
      WantedWrappersAfter(execs, changes, n, owner);
    }
  }

  /** Patching the atom rows of a transaction gives the atom rows of the executables it leaves. */
  lemma AtomsPatched(builtins: seq<string>, execs: map<nat, Backend>, changes: seq<ExecutableChange>)
    requires DistinctKeys(changes)
    ensures
      var cs := AtomChanges(execs, changes);
      Installing(Retiring(AllAtoms(builtins, execs), cs, |cs|), cs, |cs|)
        == AllAtoms(builtins, UpdatedExecutables(execs, changes, |changes|))
  {
    AtomTransaction(builtins, execs, changes);
    PatchEqualsRebuild(AtomTables(builtins, execs), AtomChanges(execs, changes));
    forall owner
      ensures TableOf(Updated(AtomTables(builtins, execs), AtomChanges(execs, changes), |changes|), owner)
           == TableOf(AtomTables(builtins, UpdatedExecutables(execs, changes, |changes|)), owner)
    {
      AtomTableOf(builtins, execs, owner);
      AtomTableOf(builtins, UpdatedExecutables(execs, changes, |changes|), owner);
      UpdatedAtomTable(builtins, execs, AtomTables(builtins, execs), AtomChanges(execs, changes),
                       changes, |changes|, owner);
    }
    SameTablesSameRows(Updated(AtomTables(builtins, execs), AtomChanges(execs, changes), |changes|),
                       AtomTables(builtins, UpdatedExecutables(execs, changes, |changes|)));
  }

  lemma WrappersPatched(execs: map<nat, Backend>, changes: seq<ExecutableChange>)
    requires DistinctKeys(changes)
    ensures
      var cs := WrapperChanges(execs, changes);
      Installing(Retiring(AllWrappers(execs), cs, |cs|), cs, |cs|)
        == AllWrappers(UpdatedExecutables(execs, changes, |changes|))
  {
    WrapperTransaction(execs, changes);
    PatchEqualsRebuild(WrapperTables(execs), WrapperChanges(execs, changes));
    forall owner
      ensures TableOf(Updated(WrapperTables(execs), WrapperChanges(execs, changes), |changes|), owner)
           == TableOf(WrapperTables(UpdatedExecutables(execs, changes, |changes|)), owner)
    {
      WrapperTableOf(execs, owner);
      WrapperTableOf(UpdatedExecutables(execs, changes, |changes|), owner);
      UpdatedWrapperTable(execs, WrapperTables(execs), WrapperChanges(execs, changes), changes, |changes|, owner);
    }
    SameTablesSameRows(Updated(WrapperTables(execs), WrapperChanges(execs, changes), |changes|),
                       WrapperTables(UpdatedExecutables(execs, changes, |changes|)));
  }

  lemma {:induction false} UpdatedSorted(execs: map<nat, Backend>, changes: seq<ExecutableChange>, n: nat)
    requires n <= |changes|
    requires AllSorted(execs)
    requires forall i :: 0 <= i < |changes| ==> Sorted(WrappersOf(changes[i].1))
    ensures AllSorted(UpdatedExecutables(execs, changes, n))
    decreases n
  {
    if n > 0 {
      UpdatedSorted(execs, changes, n - 1);
      assert Sorted(WrappersOf(changes[n - 1].1));
    }
  }
}
