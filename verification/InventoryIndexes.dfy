/** One patch of an owner index equals rebuilding the index from the patched rows. */
module InventoryIndexes {
  import opened Contributions

  // ------------------------------------------------------------------- atoms

  ghost predicate SameAt<K, V>(a: map<K, V>, b: map<K, V>, k: K) {
    (k in a <==> k in b) && (k in a ==> a[k] == b[k])
  }

  lemma SameEverywhere<K, V>(a: map<K, V>, b: map<K, V>)
    requires forall k :: SameAt(a, b, k)
    ensures a == b
  {
    forall k ensures (k in a <==> k in b) && (k in a ==> a[k] == b[k]) { assert SameAt(a, b, k); }
    assert a.Keys == b.Keys;
  }

  ghost predicate OwnersRight(rows: map<Slot, string>, owners: map<string, set<Slot>>, atom: string) {
    SameAt(owners, AtomOwners(rows), atom)
  }

  ghost predicate NameRight(rows: map<Slot, string>, names: map<Slot, string>, slot: Slot) {
    SameAt(names, AtomNames(rows), slot)
  }

  /** Both atom indexes are the rebuilt ones, said key by key. */
  ghost predicate AtomsIndexedBy(rows: map<Slot, string>, owners: map<string, set<Slot>>, names: map<Slot, string>) {
    && (forall atom {:trigger OwnersRight(rows, owners, atom)} :: OwnersRight(rows, owners, atom))
    && (forall slot {:trigger NameRight(rows, names, slot)} :: NameRight(rows, names, slot))
  }

  lemma AtomIndexesAreRebuilt(rows: map<Slot, string>, owners: map<string, set<Slot>>, names: map<Slot, string>)
    ensures AtomsIndexedBy(rows, owners, names) <==> owners == AtomOwners(rows) && names == AtomNames(rows)
  {
    if AtomsIndexedBy(rows, owners, names) {
      forall atom ensures SameAt(owners, AtomOwners(rows), atom) { assert OwnersRight(rows, owners, atom); }
      SameEverywhere(owners, AtomOwners(rows));
      forall slot ensures SameAt(names, AtomNames(rows), slot) { assert NameRight(rows, names, slot); }
      SameEverywhere(names, AtomNames(rows));
    }
  }

  lemma NotFirstExists(rows: map<Slot, string>, slot: Slot)
    requires slot in rows
    ensures slot in OccurrencesOf(rows, rows[slot])
    ensures slot == First(OccurrencesOf(rows, rows[slot])) <==> IsFirstOccurrence(rows, slot)
  {
    var slots := OccurrencesOf(rows, rows[slot]);
    if IsFirstOccurrence(rows, slot) {
      FirstIsUnique(slots, slot);
    }
  }

  /** The published name of a contributed atom is the atom itself, at its first occurrence. */
  lemma NameOf(rows: map<Slot, string>, atom: string)
    requires OccurrencesOf(rows, atom) != {}
    ensures First(OccurrencesOf(rows, atom)) in AtomNames(rows)
    ensures AtomNames(rows)[First(OccurrencesOf(rows, atom))] == atom
    ensures atom in AtomOwners(rows)
  {
    var slot := First(OccurrencesOf(rows, atom));
    NotFirstExists(rows, slot);
    assert rows[slot] in rows.Values;
  }

  /** `atom_names` after one more occurrence: the first occurrence moves only if the new one precedes it. */
  function NamesWith(names: map<Slot, string>, owners: set<Slot>, slot: Slot, atom: string): map<Slot, string> {
    var first := First(owners + {slot});
    if owners != {} && First(owners) == first then names
    else (if owners == {} then names else names - {First(owners)})[first := atom]
  }

  lemma OwnersAfterAdding(rows: map<Slot, string>, slot: Slot, atom: string)
    requires slot !in rows
    ensures AtomOwners(rows[slot := atom]) == AtomOwners(rows)[atom := OccurrencesOf(rows, atom) + {slot}]
  {
    var next := rows[slot := atom];
    var left, right := AtomOwners(next), AtomOwners(rows)[atom := OccurrencesOf(rows, atom) + {slot}];
    assert next[slot] == atom;
    forall other | other in rows ensures next[other] == rows[other] {}
    forall a | a in left
      ensures a in right && left[a] == right[a]
    {
      if a == atom {
        assert OccurrencesOf(next, atom) == OccurrencesOf(rows, atom) + {slot};
      } else {
        assert OccurrencesOf(next, a) == OccurrencesOf(rows, a);
        var other :| other in next && next[other] == a;
        assert rows[other] == a;
      }
    }
    forall a | a in right
      ensures a in left
    {
      if a != atom {
        var other :| other in rows && rows[other] == a;
        assert next[other] == a;
      }
    }
    assert left.Keys == right.Keys;
  }

  lemma NamesAfterAdding(rows: map<Slot, string>, slot: Slot, atom: string)
    requires slot !in rows
    ensures AtomNames(rows[slot := atom]) == NamesWith(AtomNames(rows), OccurrencesOf(rows, atom), slot, atom)
  {
    var next, owners := rows[slot := atom], OccurrencesOf(rows, atom);
    assert OccurrencesOf(next, atom) == owners + {slot};
    forall other | other in next
      ensures other in AtomNames(next) <==> other in NamesWith(AtomNames(rows), owners, slot, atom)
    {
      NotFirstExists(next, other);
      if other != slot {
        NotFirstExists(rows, other);
        if rows[other] != atom {
          assert OccurrencesOf(next, rows[other]) == OccurrencesOf(rows, rows[other]);
        }
      }
    }
  }

  /** `atom_names` after one occurrence goes: the name moves to the next occurrence, or disappears. */
  function NamesWithout(names: map<Slot, string>, owners: set<Slot>, slot: Slot, atom: string): map<Slot, string>
    requires owners != {}
  {
    var left := owners - {slot};
    if left == {} then names - {First(owners)}
    else if First(left) == First(owners) then names
    else (names - {First(owners)})[First(left) := atom]
  }

  function OwnersWithout(index: map<string, set<Slot>>, atom: string, left: set<Slot>): map<string, set<Slot>> {
    if left == {} then index - {atom} else index[atom := left]
  }

  lemma OwnersAfterRemoving(rows: map<Slot, string>, slot: Slot)
    requires slot in rows
    ensures AtomOwners(rows - {slot})
         == OwnersWithout(AtomOwners(rows), rows[slot], OccurrencesOf(rows, rows[slot]) - {slot})
  {
    var next, atom := rows - {slot}, rows[slot];
    var left, right := AtomOwners(next), OwnersWithout(AtomOwners(rows), atom, OccurrencesOf(rows, atom) - {slot});
    assert OccurrencesOf(next, atom) == OccurrencesOf(rows, atom) - {slot};
    forall a | a in left
      ensures a in right && left[a] == right[a]
    {
      var other :| other in next && next[other] == a;
      assert rows[other] == a && other in OccurrencesOf(next, a);
      if a != atom {
        assert OccurrencesOf(next, a) == OccurrencesOf(rows, a);
      }
    }
    forall a | a in right
      ensures a in left
    {
      if a == atom {
        var other :| other in OccurrencesOf(rows, atom) - {slot};
        assert next[other] == a;
      } else {
        var other :| other in rows && rows[other] == a;
        assert next[other] == a;
      }
    }
    assert left.Keys == right.Keys;
  }

  lemma NamesAfterRemoving(rows: map<Slot, string>, slot: Slot)
    requires slot in rows
    ensures OccurrencesOf(rows, rows[slot]) != {}
    ensures AtomNames(rows - {slot}) == NamesWithout(AtomNames(rows), OccurrencesOf(rows, rows[slot]), slot, rows[slot])
  {
    var next, atom := rows - {slot}, rows[slot];
    var owners := OccurrencesOf(rows, atom);
    assert slot in owners;
    var without := NamesWithout(AtomNames(rows), owners, slot, atom);
    forall other | other in rows
      ensures other in AtomNames(next) <==> other in without
      ensures other in AtomNames(next) ==> AtomNames(next)[other] == without[other]
    {
      NameAfterRemoving(rows, slot, other);
    }
    assert AtomNames(next).Keys == without.Keys;
  }

  lemma NameAfterRemoving(rows: map<Slot, string>, slot: Slot, other: Slot)
    requires slot in rows && other in rows && OccurrencesOf(rows, rows[slot]) != {}
    ensures
      var next := rows - {slot};
      var without := NamesWithout(AtomNames(rows), OccurrencesOf(rows, rows[slot]), slot, rows[slot]);
      && (other in AtomNames(next) <==> other in without)
      && (other in AtomNames(next) ==> AtomNames(next)[other] == without[other])
  {
    var next, atom := rows - {slot}, rows[slot];
    assert OccurrencesOf(next, atom) == OccurrencesOf(rows, atom) - {slot};
    NotFirstExists(rows, other);
    if other in next {
      NotFirstExists(next, other);
      if rows[other] != atom {
        assert OccurrencesOf(next, rows[other]) == OccurrencesOf(rows, rows[other]);
      }
    }
  }

  // ---------------------------------------------------------------- wrappers

  ghost predicate Indexed(
    rows: map<Slot, Wrapper>, owners: map<nat, set<nat>>, published: map<nat, Wrapper>)
  {
    && WrapperRows(rows) && OwnersAgree(rows)
    && owners == WrapperOwners(rows)
    && published == PublishedWrappers(rows)
  }

  ghost predicate PositionRight(
    rows: map<Slot, Wrapper>, owners: map<nat, set<nat>>, published: map<nat, Wrapper>, position: nat)
  {
    SameAt(owners, WrapperOwners(rows), position) && SameAt(published, PublishedWrappers(rows), position)
  }

  ghost predicate RowsSettled(rows: map<Slot, Wrapper>, s: Slot, t: Slot) {
    && (s in rows ==> s.owner.Executable? && rows[s].identity == s.index)
    && (s in rows && t in rows && s.index == t.index ==> rows[s] == rows[t])
  }

  ghost predicate SlotsAgree(rows: map<Slot, Wrapper>, s: Slot, t: Slot) {
    s in rows && t in rows && s.index == t.index ==> rows[s] == rows[t]
  }

  /** Owners agree, said pair by pair. */
  ghost predicate Agreed(rows: map<Slot, Wrapper>) {
    forall s, t {:trigger SlotsAgree(rows, s, t)} :: SlotsAgree(rows, s, t)
  }

  /** Both wrapper indexes are the rebuilt ones for rows whose owners agree, said key by key. */
  ghost predicate WrappersIndexedBy(
    rows: map<Slot, Wrapper>, owners: map<nat, set<nat>>, published: map<nat, Wrapper>)
  {
    && (forall p {:trigger PositionRight(rows, owners, published, p)} :: PositionRight(rows, owners, published, p))
    && (forall s, t {:trigger RowsSettled(rows, s, t)} :: RowsSettled(rows, s, t))
  }

  lemma WrapperIndexesAreRebuilt(
    rows: map<Slot, Wrapper>, owners: map<nat, set<nat>>, published: map<nat, Wrapper>)
    ensures WrappersIndexedBy(rows, owners, published) <==> Indexed(rows, owners, published)
  {
    if WrappersIndexedBy(rows, owners, published) {
      forall p ensures SameAt(owners, WrapperOwners(rows), p) && SameAt(published, PublishedWrappers(rows), p) {
        assert PositionRight(rows, owners, published, p);
      }
      SameEverywhere(owners, WrapperOwners(rows));
      SameEverywhere(published, PublishedWrappers(rows));
      forall s, t | s in rows && t in rows
        ensures s.owner.Executable? && rows[s].identity == s.index && (s.index == t.index ==> rows[s] == rows[t])
      {
        assert RowsSettled(rows, s, t);
      }
    }
  }

  lemma WrapperAdded(
    rows: map<Slot, Wrapper>, owners: map<nat, set<nat>>, published: map<nat, Wrapper>, key: nat, w: Wrapper)
    requires Indexed(rows, owners, published)
    requires forall s :: s in rows && s.index == w.identity ==> rows[s] == w
    ensures
      var at := if w.identity in owners then owners[w.identity] else {};
      Indexed(rows[Slot(Executable(key), w.identity) := w], owners[w.identity := at + {key}],
              published[w.identity := w])
  {
    OwnersAdded(rows, key, w);
    PublishedAdded(rows, key, w);
  }

  lemma PositionsAdded(rows: map<Slot, Wrapper>, key: nat, w: Wrapper)
    ensures Positions(rows[Slot(Executable(key), w.identity) := w]) == Positions(rows) + {w.identity}
  {
    var slot := Slot(Executable(key), w.identity);
    var next := rows[slot := w];
    forall s | s in rows ensures s.index in Positions(next) { assert s in next; }
    assert slot in next;
  }

  lemma OwnersAdded(rows: map<Slot, Wrapper>, key: nat, w: Wrapper)
    ensures
      var owners := WrapperOwners(rows);
      var at := if w.identity in owners then owners[w.identity] else {};
      WrapperOwners(rows[Slot(Executable(key), w.identity) := w]) == owners[w.identity := at + {key}]
  {
    var next := rows[Slot(Executable(key), w.identity) := w];
    PositionsAdded(rows, key, w);
    forall p | p in Positions(next)
      ensures OwnersAt(next, p) == if p == w.identity then OwnersAt(rows, p) + {key} else OwnersAt(rows, p)
    {
      OwnersAtAdded(rows, key, w, p);
    }
    if w.identity !in Positions(rows) {
      assert OwnersAt(rows, w.identity) == {};
    }
    assert WrapperOwners(next) == WrapperOwners(rows)[w.identity := OwnersAt(rows, w.identity) + {key}];
  }

  lemma PublishedAdded(rows: map<Slot, Wrapper>, key: nat, w: Wrapper)
    requires OwnersAgree(rows) && forall s :: s in rows && s.index == w.identity ==> rows[s] == w
    ensures OwnersAgree(rows[Slot(Executable(key), w.identity) := w])
    ensures PublishedWrappers(rows[Slot(Executable(key), w.identity) := w]) == PublishedWrappers(rows)[w.identity := w]
  {
    var next := rows[Slot(Executable(key), w.identity) := w];
    PositionsAdded(rows, key, w);
    forall p | p in Positions(next)
      ensures WrapperAt(next, p) == if p == w.identity then w else WrapperAt(rows, p)
    {
      var s :| s in next && s.index == p;
      WrapperIsAgreed(next, s);
      if p != w.identity {
        WrapperIsAgreed(rows, s);
      }
    }
  }

  lemma OwnersAtAdded(rows: map<Slot, Wrapper>, key: nat, w: Wrapper, p: nat)
    ensures OwnersAt(rows[Slot(Executable(key), w.identity) := w], p)
         == OwnersAt(rows, p) + (if p == w.identity then {key} else {})
  {
    var slot := Slot(Executable(key), w.identity);
    var next := rows[slot := w];
    forall k
      ensures k in OwnersAt(next, p) <==> k in OwnersAt(rows, p) || (p == w.identity && k == key)
    {
      if k in OwnersAt(next, p) {
        var s :| s in next && s.index == p && s.owner == Executable(k);
      }
      if k in OwnersAt(rows, p) {
        var s :| s in rows && s.index == p && s.owner == Executable(k);
        assert s in next;
      }
      if p == w.identity && k == key {
        assert slot in next && slot.owner.key == k;
      }
    }
  }

  lemma OwnersAtRemoved(rows: map<Slot, Wrapper>, key: nat, position: nat, p: nat)
    ensures OwnersAt(rows - {Slot(Executable(key), position)}, p)
         == OwnersAt(rows, p) - (if p == position then {key} else {})
  {
    var slot := Slot(Executable(key), position);
    var next := rows - {slot};
    forall k
      ensures k in OwnersAt(next, p) <==> k in OwnersAt(rows, p) && !(p == position && k == key)
    {
      if k in OwnersAt(next, p) {
        var s :| s in next && s.index == p && s.owner == Executable(k);
        assert s in rows;
      }
      if k in OwnersAt(rows, p) && !(p == position && k == key) {
        var s :| s in rows && s.index == p && s.owner == Executable(k);
        assert s in next;
      }
    }
  }

  lemma PositionsRemoved(rows: map<Slot, Wrapper>, key: nat, position: nat)
    requires WrapperRows(rows) && Slot(Executable(key), position) in rows
    ensures
      var next := rows - {Slot(Executable(key), position)};
      Positions(next) ==
        if OwnersAt(rows, position) - {key} == {} then Positions(rows) - {position} else Positions(rows)
  {
    var next := rows - {Slot(Executable(key), position)};
    OwnersAtRemoved(rows, key, position, position);
    forall p | p in Positions(next)
      ensures p in Positions(rows) && (p == position ==> OwnersAt(next, p) != {})
    {
      var s :| s in next && s.index == p;
      assert s in rows && s.owner.key in OwnersAt(next, p);
    }
    forall p | p in Positions(rows) && (p == position ==> OwnersAt(next, p) != {})
      ensures p in Positions(next)
    {
      if p == position {
        var k :| k in OwnersAt(next, p);
        var s :| s in next && s.index == p && s.owner == Executable(k);
      } else {
        var s :| s in rows && s.index == p;
        assert s in next;
      }
    }
  }

  lemma WrapperRemoved(
    rows: map<Slot, Wrapper>, owners: map<nat, set<nat>>, published: map<nat, Wrapper>, key: nat, position: nat)
    requires Indexed(rows, owners, published) && Slot(Executable(key), position) in rows
    ensures position in owners && position in published
    ensures
      var left := owners[position] - {key};
      Indexed(rows - {Slot(Executable(key), position)},
              if left == {} then owners - {position} else owners[position := left],
              if left == {} then published - {position} else published)
  {
    assert Slot(Executable(key), position).index in Positions(rows);
    OwnersRemoved(rows, key, position);
    PublishedRemoved(rows, key, position);
  }

  lemma OwnersRemoved(rows: map<Slot, Wrapper>, key: nat, position: nat)
    requires WrapperRows(rows) && Slot(Executable(key), position) in rows && position in Positions(rows)
    ensures
      var owners := WrapperOwners(rows);
      var left := owners[position] - {key};
      WrapperOwners(rows - {Slot(Executable(key), position)})
        == if left == {} then owners - {position} else owners[position := left]
  {
    PositionsRemoved(rows, key, position);
    forall p | p in Positions(rows)
      ensures OwnersAt(rows - {Slot(Executable(key), position)}, p)
           == if p == position then OwnersAt(rows, p) - {key} else OwnersAt(rows, p)
    {
      OwnersAtRemoved(rows, key, position, p);
    }
    OwnersShrunk(rows, rows - {Slot(Executable(key), position)}, position, OwnersAt(rows, position) - {key});
  }

  lemma OwnersShrunk(rows: map<Slot, Wrapper>, next: map<Slot, Wrapper>, position: nat, left: set<nat>)
    requires position in Positions(rows)
    requires Positions(next) == if left == {} then Positions(rows) - {position} else Positions(rows)
    requires forall p | p in Positions(rows) :: OwnersAt(next, p) == if p == position then left else OwnersAt(rows, p)
    ensures WrapperOwners(next) ==
      if left == {} then WrapperOwners(rows) - {position} else WrapperOwners(rows)[position := left]
  {
    if left == {} {
      assert WrapperOwners(next) == WrapperOwners(rows) - {position};
    } else {
      assert WrapperOwners(next) == WrapperOwners(rows)[position := left];
    }
  }

  lemma PublishedRemoved(rows: map<Slot, Wrapper>, key: nat, position: nat)
    requires WrapperRows(rows) && OwnersAgree(rows) && Slot(Executable(key), position) in rows
    requires position in Positions(rows)
    ensures OwnersAgree(rows - {Slot(Executable(key), position)})
    ensures PublishedWrappers(rows - {Slot(Executable(key), position)})
         == if OwnersAt(rows, position) - {key} == {}
            then PublishedWrappers(rows) - {position}
            else PublishedWrappers(rows)
  {
    var next := rows - {Slot(Executable(key), position)};
    PositionsRemoved(rows, key, position);
    forall p | p in Positions(next)
      ensures WrapperAt(next, p) == WrapperAt(rows, p)
    {
      var s :| s in next && s.index == p;
      WrapperIsAgreed(next, s);
      WrapperIsAgreed(rows, s);
    }
  }
}
