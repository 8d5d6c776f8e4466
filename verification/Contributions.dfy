/**
 What a backend inventory publishes, as a function of who contributes what.
 A row is one owner's contribution at one index: an atom occurrence, or a
 construction wrapper at its position.
 */
module Contributions {
  import opened Options

  datatype Owner = Builtins | Executable(key: nat)

  datatype Slot = Slot(owner: Owner, index: nat)

  /** Builtins come first; executables by key; one owner's rows by index. */
  predicate Before(a: Slot, b: Slot) {
    match (a.owner, b.owner)
    case (Builtins, Builtins) => a.index < b.index
    case (Builtins, Executable(_)) => true
    case (Executable(_), Builtins) => false
    case (Executable(j), Executable(k)) => j < k || (j == k && a.index < b.index)
  }

  lemma {:induction false} FirstExists(slots: set<Slot>)
    requires slots != {}
    ensures exists s :: s in slots && forall t :: t in slots ==> t == s || Before(s, t)
  {
    var k :| k in slots;
    if slots != {k} {
      assert slots - {k} != {} by { assert slots == (slots - {k}) + {k}; }
      FirstExists(slots - {k});
      var m :| m in slots - {k} && forall t :: t in slots - {k} ==> t == m || Before(m, t);
      var s := if Before(m, k) then m else k;
      forall t | t in slots
        ensures t == s || Before(s, t)
      {
        if t != k { assert t in slots - {k}; }
      }
    }
  }

  /** The least slot of an owner set. */
  function First(slots: set<Slot>): (s: Slot)
    requires slots != {}
    ensures s in slots && forall t :: t in slots ==> t == s || Before(s, t)
  {
    FirstExists(slots);
    var s :| s in slots && forall t :: t in slots ==> t == s || Before(s, t);
    s
  }

  lemma FirstIsUnique(slots: set<Slot>, s: Slot)
    requires s in slots && forall t :: t in slots ==> t == s || Before(s, t)
    ensures First(slots) == s
  {}

  // ------------------------------------------------------------------- atoms

  function OccurrencesOf(rows: map<Slot, string>, atom: string): set<Slot> {
    set slot | slot in rows && rows[slot] == atom
  }

  /** Each contributed atom, with exactly the slots that contribute it. */
  function AtomOwners(rows: map<Slot, string>): (r: map<string, set<Slot>>)
    ensures forall atom :: atom in r <==> atom in rows.Values
    ensures forall atom :: atom in r ==> r[atom] == OccurrencesOf(rows, atom)
  {
    map atom | atom in rows.Values :: OccurrencesOf(rows, atom)
  }

  predicate IsFirstOccurrence(rows: map<Slot, string>, slot: Slot)
    requires slot in rows
  {
    forall other :: other in rows && rows[other] == rows[slot] ==> other == slot || Before(slot, other)
  }

  /** Each contributed atom once, at its least occurrence. */
  function AtomNames(rows: map<Slot, string>): map<Slot, string> {
    map slot | slot in rows && IsFirstOccurrence(rows, slot) :: rows[slot]
  }

  // ---------------------------------------------------------------- wrappers

  datatype Wrapper = Wrapper(identity: nat, content: int)

  ghost predicate WrapperRows(rows: map<Slot, Wrapper>) {
    forall slot :: slot in rows ==> slot.owner.Executable? && rows[slot].identity == slot.index
  }

  /** The owners of one position hold one and the same wrapper. */
  ghost predicate OwnersAgree(rows: map<Slot, Wrapper>) {
    forall s, t | s in rows && t in rows :: s.index == t.index ==> rows[s] == rows[t]
  }

  function OwnersAt(rows: map<Slot, Wrapper>, position: nat): set<nat> {
    set slot | slot in rows && slot.index == position && slot.owner.Executable? :: slot.owner.key
  }

  function Positions(rows: map<Slot, Wrapper>): set<nat> {
    set slot | slot in rows :: slot.index
  }

  /** Each contributed position, with exactly the executables that contribute it. */
  function WrapperOwners(rows: map<Slot, Wrapper>): map<nat, set<nat>> {
    map position | position in Positions(rows) :: OwnersAt(rows, position)
  }

  /** Each contributed position's wrapper. */
  ghost function PublishedWrappers(rows: map<Slot, Wrapper>): map<nat, Wrapper> {
    map position | position in Positions(rows) :: WrapperAt(rows, position)
  }

  ghost function WrapperAt(rows: map<Slot, Wrapper>, position: nat): Wrapper
    requires position in Positions(rows)
  {
    var slot :| slot in rows && slot.index == position; rows[slot]
  }

  lemma WrapperIsAgreed(rows: map<Slot, Wrapper>, slot: Slot)
    requires OwnersAgree(rows) && slot in rows
    ensures slot.index in Positions(rows) && WrapperAt(rows, slot.index) == rows[slot]
  {}

  // ------------------------------------------------------- rows of a program

  /** All rows of every owner's table. */
  function AllRows<V>(tables: map<Owner, map<nat, V>>): (rows: map<Slot, V>)
    ensures forall slot :: slot in rows <==> slot.owner in tables && slot.index in tables[slot.owner]
    ensures forall slot :: slot in rows ==> rows[slot] == tables[slot.owner][slot.index]
  {
    var slots := set owner, index | owner in tables && index in tables[owner] :: Slot(owner, index);
    assert forall slot :: slot in slots <==> slot.owner in tables && slot.index in tables[slot.owner] by {
      forall slot: Slot | slot.owner in tables && slot.index in tables[slot.owner]
        ensures slot in slots
      {
        assert slot == Slot(slot.owner, slot.index);
      }
    }
    map slot | slot in slots :: tables[slot.owner][slot.index]
  }

  /** The rows of `from` that `to` does not repeat. */
  function Dropped<V(==)>(from: map<nat, V>, to: map<nat, V>): map<nat, V> {
    map i | i in from && !(i in to && to[i] == from[i]) :: from[i]
  }

  function SlotsOf<V>(owner: Owner, table: map<nat, V>): (slots: set<Slot>)
    ensures forall slot :: slot in slots <==> slot.owner == owner && slot.index in table
  {
    var slots := set i | i in table :: Slot(owner, i);
    assert forall slot: Slot :: slot.owner == owner && slot.index in table ==> slot == Slot(owner, slot.index);
    slots
  }

  function RowsOf<V>(owner: Owner, table: map<nat, V>): (rows: map<Slot, V>)
    ensures forall slot :: slot in rows <==> slot.owner == owner && slot.index in table
    ensures forall slot :: slot in rows ==> rows[slot] == table[slot.index]
  {
    map slot | slot in SlotsOf(owner, table) :: table[slot.index]
  }

  function Get<V>(rows: map<Slot, V>, slot: Slot): Option<V> {
    if slot in rows then Some(rows[slot]) else None
  }

  /** One executable's change in a transaction: its table before and after. */
  datatype Change<V> = Change(owner: Owner, before: map<nat, V>, after: map<nat, V>)

  function RetireStep<V(==)>(rows: map<Slot, V>, change: Change<V>): map<Slot, V> {
    rows - SlotsOf(change.owner, Dropped(change.before, change.after))
  }

  function InstallStep<V(==)>(rows: map<Slot, V>, change: Change<V>): map<Slot, V> {
    rows + RowsOf(change.owner, Dropped(change.after, change.before))
  }

  /** Rows left once the first `n` changes have retired what they drop. */
  function Retiring<V(==)>(rows: map<Slot, V>, changes: seq<Change<V>>, n: nat): map<Slot, V>
    requires n <= |changes|
  {
    if n == 0 then rows else RetireStep(Retiring(rows, changes, n - 1), changes[n - 1])
  }

  /** Rows once the first `n` changes have also installed what they add. */
  function Installing<V(==)>(rows: map<Slot, V>, changes: seq<Change<V>>, n: nat): map<Slot, V>
    requires n <= |changes|
  {
    if n == 0 then rows else InstallStep(Installing(rows, changes, n - 1), changes[n - 1])
  }

  function Updated<V>(tables: map<Owner, map<nat, V>>, changes: seq<Change<V>>, n: nat): map<Owner, map<nat, V>>
    requires n <= |changes|
  {
    if n == 0 then tables else Updated(tables, changes, n - 1)[changes[n - 1].owner := changes[n - 1].after]
  }

  ghost predicate Transaction<V>(tables: map<Owner, map<nat, V>>, changes: seq<Change<V>>) {
    && (forall i, j :: 0 <= i < j < |changes| ==> changes[i].owner != changes[j].owner)
    && (forall i :: 0 <= i < |changes| ==>
          changes[i].before == if changes[i].owner in tables then tables[changes[i].owner] else map[])
  }

  ghost predicate Touches<V>(changes: seq<Change<V>>, n: nat, owner: Owner)
    requires n <= |changes|
  {
    exists i :: 0 <= i < n && changes[i].owner == owner
  }

  /** An owner no change touches keeps its rows through both phases. */
  lemma {:induction false} UntouchedRows<V>(rows: map<Slot, V>, changes: seq<Change<V>>, n: nat, slot: Slot)
    requires n <= |changes| && !Touches(changes, n, slot.owner)
    ensures Get(Retiring(rows, changes, n), slot) == Get(rows, slot)
    ensures Get(Installing(rows, changes, n), slot) == Get(rows, slot)
    decreases n
  {
    if n > 0 {
      assert changes[n - 1].owner != slot.owner;
      assert !Touches(changes, n - 1, slot.owner);
      UntouchedRows(rows, changes, n - 1, slot);
    }
  }

  /** A changed owner's rows: retirement leaves the kept ones, installation restores the new table. */
  lemma {:induction false} RetiredRows<V>(rows: map<Slot, V>, changes: seq<Change<V>>, n: nat, c: nat, slot: Slot)
    requires c < n <= |changes| && changes[c].owner == slot.owner
    requires forall i, j :: 0 <= i < j < |changes| ==> changes[i].owner != changes[j].owner
    requires Get(rows, slot) == Get(RowsOf(slot.owner, changes[c].before), slot)
    ensures Get(Retiring(rows, changes, n), slot) ==
      if slot.index in Dropped(changes[c].before, changes[c].after) then None else Get(rows, slot)
    decreases n
  {
    if c == n - 1 {
      assert !Touches(changes, c, slot.owner);
      UntouchedRows(rows, changes, c, slot);
    } else {
      RetiredRows(rows, changes, n - 1, c, slot);
      assert changes[n - 1].owner != slot.owner;
    }
  }

  lemma {:induction false} InstalledRows<V>(rows: map<Slot, V>, changes: seq<Change<V>>, n: nat, c: nat, slot: Slot)
    requires c < n <= |changes| && changes[c].owner == slot.owner
    requires forall i, j :: 0 <= i < j < |changes| ==> changes[i].owner != changes[j].owner
    ensures Get(Installing(rows, changes, n), slot) ==
      var added := Dropped(changes[c].after, changes[c].before);
      if slot.index in added then Some(added[slot.index]) else Get(rows, slot)
    decreases n
  {
    if c == n - 1 {
      assert !Touches(changes, c, slot.owner);
      UntouchedRows(rows, changes, c, slot);
    } else {
      InstalledRows(rows, changes, n - 1, c, slot);
      assert changes[n - 1].owner != slot.owner;
    }
  }

  lemma {:induction false} UntouchedTable<V>(
      tables: map<Owner, map<nat, V>>, changes: seq<Change<V>>, n: nat, owner: Owner)
    requires n <= |changes| && !Touches(changes, n, owner)
    ensures owner in Updated(tables, changes, n) <==> owner in tables
    ensures owner in tables ==> Updated(tables, changes, n)[owner] == tables[owner]
    decreases n
  {
    if n > 0 {
      assert changes[n - 1].owner != owner;
      assert !Touches(changes, n - 1, owner);
      UntouchedTable(tables, changes, n - 1, owner);
    }
  }

  lemma {:induction false} UpdatedTable<V>(tables: map<Owner, map<nat, V>>, changes: seq<Change<V>>, n: nat, c: nat)
    requires c < n <= |changes|
    requires forall i, j :: 0 <= i < j < |changes| ==> changes[i].owner != changes[j].owner
    ensures changes[c].owner in Updated(tables, changes, n)
    ensures Updated(tables, changes, n)[changes[c].owner] == changes[c].after
    decreases n
  {
    if c < n - 1 {
      UpdatedTable(tables, changes, n - 1, c);
      assert changes[n - 1].owner != changes[c].owner;
    }
  }

  lemma PatchedRow<V>(tables: map<Owner, map<nat, V>>, changes: seq<Change<V>>, slot: Slot)
    requires Transaction(tables, changes)
    ensures Get(Installing(Retiring(AllRows(tables), changes, |changes|), changes, |changes|), slot)
         == Get(AllRows(Updated(tables, changes, |changes|)), slot)
  {
    var n, rows := |changes|, AllRows(tables);
    var left := Retiring(rows, changes, n);
    if Touches(changes, n, slot.owner) {
      var c :| 0 <= c < n && changes[c].owner == slot.owner;
      RetiredRows(rows, changes, n, c, slot);
      InstalledRows(left, changes, n, c, slot);
      UpdatedTable(tables, changes, n, c);
    } else {
      UntouchedRows(rows, changes, n, slot);
      UntouchedRows(left, changes, n, slot);
      UntouchedTable(tables, changes, n, slot.owner);
    }
  }

  /** By the time a change installs its rows, their slots are free. */
  lemma AddedSlotIsFree<V>(tables: map<Owner, map<nat, V>>, changes: seq<Change<V>>, c: nat, slot: Slot)
    requires Transaction(tables, changes) && c < |changes| && slot.owner == changes[c].owner
    requires slot.index in Dropped(changes[c].after, changes[c].before)
    ensures slot !in Installing(Retiring(AllRows(tables), changes, |changes|), changes, c)
  {
    var rows := AllRows(tables);
    var left := Retiring(rows, changes, |changes|);
    RetiredRows(rows, changes, |changes|, c, slot);
    assert !Touches(changes, c, slot.owner);
    UntouchedRows(left, changes, c, slot);
    assert Get(Installing(left, changes, c), slot) == None;
  }

  /** Every row present while a transaction installs is a row of the program it ends with. */
  lemma InstallingStaysInside<V>(tables: map<Owner, map<nat, V>>, changes: seq<Change<V>>, n: nat, slot: Slot)
    requires Transaction(tables, changes) && n <= |changes|
    requires slot in Installing(Retiring(AllRows(tables), changes, |changes|), changes, n)
    ensures Get(Installing(Retiring(AllRows(tables), changes, |changes|), changes, n), slot)
         == Get(Installing(Retiring(AllRows(tables), changes, |changes|), changes, |changes|), slot)
  {
    var rows := AllRows(tables);
    var left := Retiring(rows, changes, |changes|);
    if Touches(changes, |changes|, slot.owner) {
      var c :| 0 <= c < |changes| && changes[c].owner == slot.owner;
      RetiredRows(rows, changes, |changes|, c, slot);
      InstalledRows(left, changes, |changes|, c, slot);
      if c < n {
        InstalledRows(left, changes, n, c, slot);
      } else {
        assert !Touches(changes, n, slot.owner);
        UntouchedRows(left, changes, n, slot);
      }
    } else {
      assert !Touches(changes, n, slot.owner);
      UntouchedRows(left, changes, n, slot);
      UntouchedRows(left, changes, |changes|, slot);
    }
  }

  /** Retire-then-install patches the rows to exactly those of the updated tables. */
  lemma PatchEqualsRebuild<V>(tables: map<Owner, map<nat, V>>, changes: seq<Change<V>>)
    requires Transaction(tables, changes)
    ensures Installing(Retiring(AllRows(tables), changes, |changes|), changes, |changes|)
         == AllRows(Updated(tables, changes, |changes|))
  {
    var n := |changes|;
    var patched, rebuilt :=
      Installing(Retiring(AllRows(tables), changes, n), changes, n), AllRows(Updated(tables, changes, n));
    forall slot
      ensures Get(patched, slot) == Get(rebuilt, slot)
    {
      PatchedRow(tables, changes, slot);
    }
    SameRows(patched, rebuilt);
  }

  lemma SameRows<V>(a: map<Slot, V>, b: map<Slot, V>)
    requires forall slot :: Get(a, slot) == Get(b, slot)
    ensures a == b
  {
    forall slot
      ensures slot in a <==> slot in b
      ensures slot in a ==> a[slot] == b[slot]
    {
      assert Get(a, slot) == Get(b, slot);
    }
    assert a.Keys == b.Keys;
  }

  // ------------------------------------------------- what each step may rely on

  ghost predicate Holds<V>(rows: map<Slot, V>, owner: Owner, table: map<nat, V>) {
    forall i :: i in table ==> Slot(owner, i) in rows && rows[Slot(owner, i)] == table[i]
  }

  ghost predicate Free<V>(rows: map<Slot, V>, owner: Owner, table: map<nat, V>) {
    forall i :: i in table ==> Slot(owner, i) !in rows
  }

  ghost predicate Sub<V>(small: map<Slot, V>, big: map<Slot, V>) {
    forall slot :: slot in small ==> slot in big && big[slot] == small[slot]
  }

  /** Before its turn, a changed executable still contributes everything it did. */
  lemma StillContributes<V>(tables: map<Owner, map<nat, V>>, changes: seq<Change<V>>, c: nat)
    requires Transaction(tables, changes) && c < |changes|
    ensures Holds(Retiring(AllRows(tables), changes, c), changes[c].owner, changes[c].before)
  {
    forall i | i in changes[c].before
      ensures Get(Retiring(AllRows(tables), changes, c), Slot(changes[c].owner, i)) == Some(changes[c].before[i])
    {
      var slot := Slot(changes[c].owner, i);
      assert !Touches(changes, c, slot.owner);
      UntouchedRows(AllRows(tables), changes, c, slot);
    }
  }

  lemma RoomForAdded<V>(tables: map<Owner, map<nat, V>>, changes: seq<Change<V>>, c: nat)
    requires Transaction(tables, changes) && c < |changes|
    ensures Free(Installing(Retiring(AllRows(tables), changes, |changes|), changes, c),
                 changes[c].owner, Dropped(changes[c].after, changes[c].before))
  {
    forall i | i in Dropped(changes[c].after, changes[c].before)
      ensures Slot(changes[c].owner, i) !in Installing(Retiring(AllRows(tables), changes, |changes|), changes, c)
    {
      AddedSlotIsFree(tables, changes, c, Slot(changes[c].owner, i));
    }
  }

  lemma InsideFinal<V>(tables: map<Owner, map<nat, V>>, changes: seq<Change<V>>, n: nat)
    requires Transaction(tables, changes) && n <= |changes|
    ensures
      var left := Retiring(AllRows(tables), changes, |changes|);
      Sub(Installing(left, changes, n), Installing(left, changes, |changes|))
  {
    var left := Retiring(AllRows(tables), changes, |changes|);
    var now, final := Installing(left, changes, n), Installing(left, changes, |changes|);
    forall slot | slot in now
      ensures slot in final && final[slot] == now[slot]
    {
      InstallingStaysInside(tables, changes, n, slot);
      assert Get(now, slot) == Get(final, slot);
    }
  }

  lemma AddedInsideFinal<V>(tables: map<Owner, map<nat, V>>, changes: seq<Change<V>>, c: nat)
    requires Transaction(tables, changes) && c < |changes|
    ensures
      var left := Retiring(AllRows(tables), changes, |changes|);
      Sub(RowsOf(changes[c].owner, Dropped(changes[c].after, changes[c].before)), Installing(left, changes, |changes|))
  {
    var left := Retiring(AllRows(tables), changes, |changes|);
    InsideFinal(tables, changes, c + 1);
    StepHoldsAdded(Installing(left, changes, c), changes[c]);
  }

  lemma StepHoldsAdded<V>(rows: map<Slot, V>, change: Change<V>)
    ensures Sub(RowsOf(change.owner, Dropped(change.after, change.before)), InstallStep(rows, change))
  {}

  /** The change at `c` finds its own rows in place. */
  ghost predicate FindsItsRows<V>(rows: map<Slot, V>, changes: seq<Change<V>>, c: nat) {
    c < |changes| ==> Holds(Retiring(rows, changes, c), changes[c].owner, changes[c].before)
  }

  /** Through the whole retiring phase, each change finds its own rows in place. */
  ghost predicate CanRetire<V>(rows: map<Slot, V>, changes: seq<Change<V>>) {
    forall c {:trigger FindsItsRows(rows, changes, c)} :: FindsItsRows(rows, changes, c)
  }

  /** The change at `c` finds the slots it fills free. */
  ghost predicate FindsRoom<V>(rows: map<Slot, V>, changes: seq<Change<V>>, c: nat) {
    c < |changes| ==> Free(Installing(rows, changes, c), changes[c].owner, Dropped(changes[c].after, changes[c].before))
  }

  /** Through the whole installing phase, each change finds the slots it fills free. */
  ghost predicate HasRoom<V>(rows: map<Slot, V>, changes: seq<Change<V>>) {
    forall c {:trigger FindsRoom(rows, changes, c)} :: FindsRoom(rows, changes, c)
  }

  /** At the change at `c`, rows present or about to be are rows of `final`. */
  ghost predicate WithinAt<V>(rows: map<Slot, V>, changes: seq<Change<V>>, final: map<Slot, V>, c: nat) {
    c < |changes| ==>
      && Sub(Installing(rows, changes, c), final)
      && Sub(RowsOf(changes[c].owner, Dropped(changes[c].after, changes[c].before)), final)
  }

  /** Through the whole installing phase, rows present or about to be are rows of `final`. */
  ghost predicate StaysWithin<V>(rows: map<Slot, V>, changes: seq<Change<V>>, final: map<Slot, V>) {
    forall c {:trigger WithinAt(rows, changes, final, c)} :: WithinAt(rows, changes, final, c)
  }

  lemma TransactionCanRetire<V>(tables: map<Owner, map<nat, V>>, changes: seq<Change<V>>)
    requires Transaction(tables, changes)
    ensures CanRetire(AllRows(tables), changes)
  {
    forall c: nat ensures FindsItsRows(AllRows(tables), changes, c) {
      if c < |changes| { StillContributes(tables, changes, c); }
    }
  }

  lemma TransactionHasRoom<V>(tables: map<Owner, map<nat, V>>, changes: seq<Change<V>>)
    requires Transaction(tables, changes)
    ensures HasRoom(Retiring(AllRows(tables), changes, |changes|), changes)
  {
    var left := Retiring(AllRows(tables), changes, |changes|);
    forall c: nat ensures FindsRoom(left, changes, c) {
      if c < |changes| { RoomForAdded(tables, changes, c); }
    }
  }

  lemma TransactionStaysWithin<V>(tables: map<Owner, map<nat, V>>, changes: seq<Change<V>>, final: map<Slot, V>)
    requires Transaction(tables, changes)
    requires final == Installing(Retiring(AllRows(tables), changes, |changes|), changes, |changes|)
    ensures StaysWithin(Retiring(AllRows(tables), changes, |changes|), changes, final)
  {
    var left := Retiring(AllRows(tables), changes, |changes|);
    forall c: nat ensures WithinAt(left, changes, final, c) {
      if c < |changes| {
        InsideFinal(tables, changes, c);
        AddedInsideFinal(tables, changes, c);
      }
    }
  }
}
