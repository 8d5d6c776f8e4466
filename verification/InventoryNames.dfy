/** Where a consistent program publishes each atom, told from its builtins and executables alone. */
module InventoryNames {
  import opened Naturals
  import opened Contributions
  import opened Inventory
  import opened InventoryProgram

  ghost predicate LeastIndex(atoms: seq<string>, i: nat, atom: string) {
    i < |atoms| && atoms[i] == atom && forall j :: 0 <= j < i ==> atoms[j] != atom
  }

  /** A builtin at its least index there; any other atom at its least index in the least executable that has it. */
  ghost predicate PublishesAt(builtins: seq<string>, execs: map<nat, Backend>, slot: Slot, atom: string) {
    match slot.owner
    case Builtins => LeastIndex(builtins, slot.index, atom)
    case Executable(k) =>
      && atom !in builtins && k in execs && LeastIndex(execs[k].atoms, slot.index, atom)
      && forall j :: j in execs && atom in execs[j].atoms ==> k <= j
  }

  /** The atom stands at the slot. */
  ghost predicate StandsAt(builtins: seq<string>, execs: map<nat, Backend>, slot: Slot, atom: string) {
    match slot.owner
    case Builtins => slot.index < |builtins| && builtins[slot.index] == atom
    case Executable(k) => k in execs && slot.index < |execs[k].atoms| && execs[k].atoms[slot.index] == atom
  }

  lemma RowStands(builtins: seq<string>, execs: map<nat, Backend>, rows: map<Slot, string>, slot: Slot, atom: string)
    requires rows == AllAtoms(builtins, execs)
    ensures slot in rows && rows[slot] == atom <==> StandsAt(builtins, execs, slot, atom)
  {
    var tables := AtomTables(builtins, execs);
    if slot.owner.Executable? && slot.owner.key in execs {
      assert slot.owner in Owners(execs);
    }
  }

  /** The rows, said by where each atom stands. */
  ghost predicate RowsStand(builtins: seq<string>, execs: map<nat, Backend>, rows: map<Slot, string>) {
    forall slot, atom {:trigger StandsAt(builtins, execs, slot, atom)} ::
      slot in rows && rows[slot] == atom <==> StandsAt(builtins, execs, slot, atom)
  }

  /** Of two places an atom stands, the published one comes first. */
  lemma PublishedComesFirst(builtins: seq<string>, execs: map<nat, Backend>, slot: Slot, other: Slot, atom: string)
    requires PublishesAt(builtins, execs, slot, atom) && StandsAt(builtins, execs, other, atom)
    ensures other == slot || Before(slot, other)
  {}

  /** A place an atom stands before all others is where it is published. */
  lemma FirstIsPublished(builtins: seq<string>, execs: map<nat, Backend>, slot: Slot, atom: string)
    requires StandsAt(builtins, execs, slot, atom)
    requires forall other {:trigger StandsAt(builtins, execs, other, atom)} ::
      StandsAt(builtins, execs, other, atom) ==> other == slot || Before(slot, other)
    ensures PublishesAt(builtins, execs, slot, atom)
  {
    match slot.owner {
      case Builtins =>
        forall j | 0 <= j < slot.index ensures builtins[j] != atom {
          assert !StandsAt(builtins, execs, Slot(Builtins, j), atom);
        }
      case Executable(k) =>
        forall j | 0 <= j < slot.index ensures execs[k].atoms[j] != atom {
          assert !StandsAt(builtins, execs, Slot(Executable(k), j), atom);
        }
        if i :| 0 <= i < |builtins| && builtins[i] == atom {
          assert StandsAt(builtins, execs, Slot(Builtins, i), atom);
        }
        forall j | j in execs && atom in execs[j].atoms ensures k <= j {
          var i :| 0 <= i < |execs[j].atoms| && execs[j].atoms[i] == atom;
          assert StandsAt(builtins, execs, Slot(Executable(j), i), atom);
        }
    }
  }

  lemma NamesPublish(builtins: seq<string>, execs: map<nat, Backend>, rows: map<Slot, string>, slot: Slot, atom: string)
    requires RowsStand(builtins, execs, rows)
    ensures slot in AtomNames(rows) && AtomNames(rows)[slot] == atom <==> PublishesAt(builtins, execs, slot, atom)
  {
    if slot in AtomNames(rows) && AtomNames(rows)[slot] == atom {
      assert StandsAt(builtins, execs, slot, atom);
      FirstIsPublished(builtins, execs, slot, atom);
    }
    if PublishesAt(builtins, execs, slot, atom) {
      assert StandsAt(builtins, execs, slot, atom);
      forall other | other in rows && rows[other] == atom ensures other == slot || Before(slot, other) {
        assert StandsAt(builtins, execs, other, atom);
        PublishedComesFirst(builtins, execs, slot, other, atom);
      }
    }
  }

  /** A program in a consistent state publishes each atom at exactly the place told here, and nothing else. */
  lemma AtomsPublishedAt(p: BackendProgram, slot: Slot, atom: string)
    requires p.Consistent()
    ensures slot in p.atomNames && p.atomNames[slot] == atom <==> PublishesAt(p.builtins, p.executables, slot, atom)
  {
    PublishedFromScratch(p);
    var rows := AllAtoms(p.builtins, p.executables);
    forall other, a ensures other in rows && rows[other] == a <==> StandsAt(p.builtins, p.executables, other, a) {
      RowStands(p.builtins, p.executables, rows, other, a);
    }
    NamesPublish(p.builtins, p.executables, rows, slot, atom);
  }

  lemma {:induction false} LeastIndexOf(atoms: seq<string>, atom: string) returns (i: nat)
    requires atom in atoms
    ensures LeastIndex(atoms, i, atom)
  {
    if atoms[0] == atom {
      i := 0;
    } else {
      i := LeastIndexOf(atoms[1..], atom);
      i := i + 1;
      assert forall j :: 1 <= j < i ==> atoms[j] == atoms[1..][j - 1];
    }
  }

  lemma OneLeastIndex(atoms: seq<string>, i: nat, j: nat, atom: string)
    requires LeastIndex(atoms, i, atom) && LeastIndex(atoms, j, atom)
    ensures i == j
  {}

  /** The least executable that has the atom. */
  lemma LeastHolder(execs: map<nat, Backend>, atom: string) returns (k: nat)
    requires exists h :: h in execs && atom in execs[h].atoms
    ensures k in execs && atom in execs[k].atoms && forall j :: j in execs && atom in execs[j].atoms ==> k <= j
  {
    var holders := set h | h in execs && atom in execs[h].atoms;
    var h :| h in execs && atom in execs[h].atoms;
    assert h in holders;
    k := Least(holders);
    forall j | j in execs && atom in execs[j].atoms ensures k <= j { assert j in holders; }
  }

  /** Every atom anyone contributes has one place, and only one. */
  lemma PublishedExactlyOnce(builtins: seq<string>, execs: map<nat, Backend>, atom: string) returns (slot: Slot)
    requires atom in builtins || exists k :: k in execs && atom in execs[k].atoms
    ensures PublishesAt(builtins, execs, slot, atom)
    ensures forall other :: PublishesAt(builtins, execs, other, atom) ==> other == slot
  {
    if atom in builtins {
      var i := LeastIndexOf(builtins, atom);
      slot := Slot(Builtins, i);
    } else {
      var k := LeastHolder(execs, atom);
      var i := LeastIndexOf(execs[k].atoms, atom);
      slot := Slot(Executable(k), i);
    }
    forall other | PublishesAt(builtins, execs, other, atom) ensures other == slot {
      match other.owner {
        case Builtins => OneLeastIndex(builtins, other.index, slot.index, atom);
        case Executable(k) =>
          assert atom in execs[k].atoms && slot.owner == other.owner;
          OneLeastIndex(execs[k].atoms, other.index, slot.index, atom);
      }
    }
  }
}
