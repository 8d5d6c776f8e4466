/** The backend program: its indexes always equal a from-scratch build of its contributors. */
module InventoryProgram {
  import opened Options
  import opened Contributions
  import opened InventoryIndexes
  import opened Inventory
  import opened InventoryTransaction

  /** One executable's part of a transaction, worked out before anything is patched. */
  datatype Plan = Plan(
    key: nat, previous: Option<Backend>, next: Option<Backend>, wrappers: seq<WrapperChange>,
    atoms: seq<Option<string>>)

  /** The atoms a plan installs: every index whose atom changes. */
  predicate PlansAtoms(atoms: seq<Option<string>>, previous: seq<string>, next: seq<string>) {
    && |atoms| == |next|
    && forall i :: 0 <= i < |next| ==>
         atoms[i] == if i < |previous| && previous[i] == next[i] then None else Some(next[i])
  }

  /** Every change stands at one position, and positions ascend. */
  ghost predicate Positioned(changes: seq<WrapperChange>) {
    exists at :: Ascending(changes, at)
  }

  ghost predicate PlansWrappers(changes: seq<WrapperChange>, previous: seq<Wrapper>, next: seq<Wrapper>) {
    && Retired(changes) == Elements(previous) - Elements(next)
    && Installed(changes) == Elements(next) - Elements(previous)
    && Positioned(changes)
  }

  /** A set of wrappers, tabled by position. */
  ghost predicate Tables(ws: set<Wrapper>, table: map<nat, Wrapper>) {
    forall w :: w in ws <==> w.identity in table && table[w.identity] == w
  }

  /** What only one sorted list holds is what its table drops against the other's. */
  lemma DroppedWrappers(from: seq<Wrapper>, to: seq<Wrapper>)
    requires Sorted(from) && Sorted(to)
    ensures Tables(Elements(from) - Elements(to), Dropped(WrapperTable(from), WrapperTable(to)))
  {
    var dropped := Dropped(WrapperTable(from), WrapperTable(to));
    forall w
      ensures w in Elements(from) - Elements(to) <==> w.identity in dropped && dropped[w.identity] == w
    {
      if w in from { TableLookup(from, w); }
      if w in to { TableLookup(to, w); }
    }
  }

  class BackendProgram {
    var atomNames: map<Slot, string>
    var atomOwners: map<string, set<Slot>>
    var constructionWrappers: map<nat, Wrapper>
    var wrapperOwners: map<nat, set<nat>>
    var executables: map<nat, Backend>
    /** Who contributes what at this moment, also in the middle of a transaction. */
    ghost var atomRows: map<Slot, string>
    ghost var wrapperRows: map<Slot, Wrapper>
    ghost var builtins: seq<string>

    ghost predicate AtomsIndexed()
      reads `atomNames, `atomOwners, `atomRows
    {
      AtomsIndexedBy(atomRows, atomOwners, atomNames)
    }

    ghost predicate WrappersIndexed()
      reads `constructionWrappers, `wrapperOwners, `wrapperRows
    {
      WrappersIndexedBy(wrapperRows, wrapperOwners, constructionWrappers)
    }

    /** Every published index is the from-scratch one for the builtins and the current executables. */
    ghost predicate Consistent()
      reads this
    {
      && AtomsIndexed() && WrappersIndexed()
      && AtomRowsOf(builtins, executables, atomRows) && WrapperRowsOf(executables, wrapperRows)
      && AllSorted(executables)
    }

    constructor ()
      ensures Consistent() && executables == map[] && builtins == []
    {
      atomNames, atomOwners, constructionWrappers, wrapperOwners, executables := map[], map[], map[], map[], map[];
      atomRows, wrapperRows, builtins := map[], map[], [];
      new;
      NoAtomRows();
      NoWrapperRows();
      NoAtomIndexes();
      NoWrapperIndexes();
    }

    method AddAtom(atom: string, slot: Slot)
      requires AtomsIndexed() && slot !in atomRows
      modifies `atomNames, `atomOwners, `atomRows
      ensures AtomsIndexed() && atomRows == old(atomRows)[slot := atom]
    {
      AtomIndexesAreRebuilt(atomRows, atomOwners, atomNames);
      ghost var rows := atomRows;
      var owners := if atom in atomOwners then atomOwners[atom] else {};
      assert owners == OccurrencesOf(rows, atom);
      var name := atom;
      if owners != {} {
        NameOf(rows, atom);
        if First(owners) in atomNames {
          name := atomNames[First(owners)];
        }
      }
      OwnersAfterAdding(rows, slot, atom);
      NamesAfterAdding(rows, slot, atom);
      var first := First(owners + {slot});
      if owners == {} || First(owners) != first {
        if owners != {} {
          atomNames := atomNames - {First(owners)};
        }
        atomNames := atomNames[first := name];
      }
      atomOwners := atomOwners[name := owners + {slot}];
      atomRows := atomRows[slot := atom];
      AtomIndexesAreRebuilt(atomRows, atomOwners, atomNames);
    }

    method RemoveAtom(atom: string, slot: Slot)
      requires AtomsIndexed() && slot in atomRows && atomRows[slot] == atom
      modifies `atomNames, `atomOwners, `atomRows
      ensures AtomsIndexed() && atomRows == old(atomRows) - {slot}
    {
      AtomIndexesAreRebuilt(atomRows, atomOwners, atomNames);
      ghost var rows := atomRows;
      assert slot in OccurrencesOf(rows, atom);
      NameOf(rows, atom);
      OwnersAfterRemoving(rows, slot);
      NamesAfterRemoving(rows, slot);
      var owners := atomOwners[atom];
      var previous := First(owners);
      var retained := atomNames[previous];
      var left := owners - {slot};
      if left == {} {
        atomOwners := atomOwners - {atom};
        atomNames := atomNames - {previous};
      } else {
        var first := First(left);
        if first != previous {
          atomNames := (atomNames - {previous})[first := retained];
        }
        atomOwners := atomOwners[atom := left];
      }
      atomRows := atomRows - {slot};
      AtomIndexesAreRebuilt(atomRows, atomOwners, atomNames);
    }

    method AddWrapper(key: nat, w: Wrapper)
      requires WrappersIndexed() && forall s :: s in wrapperRows && s.index == w.identity ==> wrapperRows[s] == w
      modifies `constructionWrappers, `wrapperOwners, `wrapperRows
      ensures WrappersIndexed() && wrapperRows == old(wrapperRows)[Slot(Executable(key), w.identity) := w]
    {
      WrapperIndexesAreRebuilt(wrapperRows, wrapperOwners, constructionWrappers);
      WrapperAdded(wrapperRows, wrapperOwners, constructionWrappers, key, w);
      var owners := if w.identity in wrapperOwners then wrapperOwners[w.identity] else {};
      // One construction position has one complete wrapper.
      assert w.identity in constructionWrappers ==> constructionWrappers[w.identity] == w;
      wrapperOwners := wrapperOwners[w.identity := owners + {key}];
      constructionWrappers := constructionWrappers[w.identity := w];
      wrapperRows := wrapperRows[Slot(Executable(key), w.identity) := w];
      WrapperIndexesAreRebuilt(wrapperRows, wrapperOwners, constructionWrappers);
    }

    method RemoveWrapper(key: nat, position: nat)
      requires WrappersIndexed() && Slot(Executable(key), position) in wrapperRows
      modifies `constructionWrappers, `wrapperOwners, `wrapperRows
      ensures WrappersIndexed() && wrapperRows == old(wrapperRows) - {Slot(Executable(key), position)}
    {
      WrapperIndexesAreRebuilt(wrapperRows, wrapperOwners, constructionWrappers);
      WrapperRemoved(wrapperRows, wrapperOwners, constructionWrappers, key, position);
      var owners := wrapperOwners[position] - {key};
      if owners == {} {
        wrapperOwners := wrapperOwners - {position};
        constructionWrappers := constructionWrappers - {position};
      } else {
        wrapperOwners := wrapperOwners[position := owners];
      }
      wrapperRows := wrapperRows - {Slot(Executable(key), position)};
      WrapperIndexesAreRebuilt(wrapperRows, wrapperOwners, constructionWrappers);
    }

    // ------------------------------------------------------- one executable

    method RetireAtoms(key: nat, previous: seq<string>, next: seq<string>)
      requires AtomsIndexed()
      requires forall i :: 0 <= i < |previous| ==>
        Slot(Executable(key), i) in atomRows && atomRows[Slot(Executable(key), i)] == previous[i]
      modifies `atomNames, `atomOwners, `atomRows
      ensures AtomsIndexed()
      ensures atomRows == old(atomRows) - SlotsOf(Executable(key), Dropped(AtomTable(previous), AtomTable(next)))
    {
      ghost var dropped := Dropped(AtomTable(previous), AtomTable(next));
      ghost var gone: set<Slot> := {};
      for i := 0 to |previous|
        invariant AtomsIndexed()
        invariant forall slot :: slot in gone <==>
          slot.owner == Executable(key) && slot.index < i && slot.index in dropped
        invariant atomRows == old(atomRows) - gone
      {
        if !(i < |next| && next[i] == previous[i]) {
          assert Slot(Executable(key), i) in atomRows;
          RemoveAtom(previous[i], Slot(Executable(key), i));
          gone := gone + {Slot(Executable(key), i)};
        }
      }
      assert gone == SlotsOf(Executable(key), dropped);
    }

    method InstallAtoms(key: nat, atoms: seq<Option<string>>, ghost added: map<nat, string>)
      requires AtomsIndexed() && Enumerates(atoms, added)
      requires Free(atomRows, Executable(key), added)
      modifies `atomNames, `atomOwners, `atomRows
      ensures AtomsIndexed() && atomRows == old(atomRows) + RowsOf(Executable(key), added)
    {
      UptoEnds(old(atomRows), Executable(key), added, |atoms|);
      for i := 0 to |atoms|
        invariant AtomsIndexed()
        invariant atomRows == old(atomRows) + RowsOf(Executable(key), Upto(added, i))
      {
        if atoms[i].Some? {
          UptoStep(old(atomRows), Executable(key), added, i);
          AddAtom(atoms[i].value, Slot(Executable(key), i));
        } else {
          UptoSkip(added, i);
        }
      }
    }

    method RetireWrappers(key: nat, changes: seq<WrapperChange>)
      requires WrappersIndexed() && Positioned(changes)
      requires forall p :: p in RetiredTable(changes) ==> Slot(Executable(key), p) in wrapperRows
      modifies `constructionWrappers, `wrapperOwners, `wrapperRows
      ensures WrappersIndexed() && wrapperRows == old(wrapperRows) - SlotsOf(Executable(key), RetiredTable(changes))
    {
      for i := 0 to |changes|
        invariant WrappersIndexed()
        invariant wrapperRows == old(wrapperRows) - SlotsOf(Executable(key), RetiredTable(changes[..i]))
      {
        RetiredStep(changes, i);
        if changes[i].retired.Some? {
          var w := changes[i].retired.value;
          RowsShrink(old(wrapperRows), Executable(key), RetiredTable(changes[..i]), w.identity, w);
          RemoveWrapper(key, w.identity);
        }
      }
      assert changes[..|changes|] == changes;
    }

    method InstallWrappers(key: nat, changes: seq<WrapperChange>, ghost final: map<Slot, Wrapper>)
      requires WrappersIndexed() && Positioned(changes)
      requires Agreed(final) && Sub(wrapperRows, final) && Sub(RowsOf(Executable(key), InstalledTable(changes)), final)
      modifies `constructionWrappers, `wrapperOwners, `wrapperRows
      ensures WrappersIndexed() && wrapperRows == old(wrapperRows) + RowsOf(Executable(key), InstalledTable(changes))
    {
      NothingInstalled(old(wrapperRows), Executable(key));
      for i := 0 to |changes|
        invariant WrappersIndexed() && Sub(wrapperRows, final)
        invariant wrapperRows == old(wrapperRows) + RowsOf(Executable(key), InstalledTable(changes[..i]))
      {
        NextInstalled(old(wrapperRows), wrapperRows, key, changes, i, final);
        if changes[i].installed.Some? {
          AddWrapper(key, changes[i].installed.value);
        }
      }
      assert changes[..|changes|] == changes;
    }

    // ---------------------------------------------------------- transactions

    /** Reuse the published name of every atom that changes; leave the others alone. */
    method PlanAtoms(before: seq<string>, after: seq<string>) returns (atoms: seq<Option<string>>)
      requires AtomsIndexed()
      ensures PlansAtoms(atoms, before, after)
    {
      atoms := [];
      for i := 0 to |after|
        invariant |atoms| == i
        invariant forall k :: 0 <= k < i ==>
          atoms[k] == if k < |before| && before[k] == after[k] then None else Some(after[k])
      {
        if i < |before| && before[i] == after[i] {
          atoms := atoms + [None];
        } else {
          var name := PublishedName(after[i]);
          atoms := atoms + [Some(name)];
        }
      }
    }

    method PublishedName(atom: string) returns (name: string)
      requires AtomsIndexed()
      ensures name == atom
    {
      AtomIndexesAreRebuilt(atomRows, atomOwners, atomNames);
      name := atom;
      if atom in atomOwners && atomOwners[atom] != {} {
        NameOf(atomRows, atom);
        name := atomNames[First(atomOwners[atom])];
      }
    }

    /** Work out one executable's changes against the state before the transaction. */
    method PlanChange(key: nat, next: Option<Backend>) returns (plan: Plan)
      requires AtomsIndexed() && Sorted(WrappersOf(Lookup(executables, key))) && Sorted(WrappersOf(next))
      ensures Planned(executables, (key, next), plan)
    {
      var previous := Lookup(executables, key);
      var wrappers, at := ChangedWrappers(WrappersOf(previous), WrappersOf(next));
      assert Positioned(wrappers);
      var atoms := PlanAtoms(AtomsOf(previous), AtomsOf(next));
      plan := Plan(key, previous, next, wrappers, atoms);
    }

    method PlanChanges(changes: seq<ExecutableChange>) returns (plans: seq<Plan>)
      requires AtomsIndexed() && AllSorted(executables)
      requires forall i :: 0 <= i < |changes| ==> Sorted(WrappersOf(changes[i].1))
      ensures AllPlanned(executables, changes, plans)
    {
      plans := [];
      for i := 0 to |changes|
        invariant |plans| == i && forall k :: 0 <= k < i ==> Planned(executables, changes[k], plans[k])
      {
        var plan := PlanChange(changes[i].0, changes[i].1);
        plans := plans + [plan];
      }
    }

    /** Retire the rows one change drops. */
    method RetirePlan(plan: Plan, ghost a: Change<string>, ghost w: Change<Wrapper>)
      requires AtomsIndexed() && WrappersIndexed() && PlanMatches(plan, a, w)
      requires Holds(atomRows, a.owner, a.before) && Holds(wrapperRows, w.owner, w.before)
      modifies `atomNames, `atomOwners, `atomRows, `constructionWrappers, `wrapperOwners, `wrapperRows
      ensures AtomsIndexed() && WrappersIndexed()
      ensures atomRows == RetireStep(old(atomRows), a) && wrapperRows == RetireStep(old(wrapperRows), w)
    {
      RetireAtoms(plan.key, AtomsOf(plan.previous), AtomsOf(plan.next));
      PlanTables(plan);
      RetireWrappers(plan.key, plan.wrappers);
    }

    method RetireNext(plans: seq<Plan>, c: nat, ghost ca: seq<Change<string>>, ghost cw: seq<Change<Wrapper>>,
                      ghost atoms: map<Slot, string>, ghost wrappers: map<Slot, Wrapper>)
      requires AtomsIndexed() && WrappersIndexed() && PlansMatch(plans, ca, cw) && c < |plans|
      requires CanRetire(atoms, ca) && CanRetire(wrappers, cw)
      requires atomRows == Retiring(atoms, ca, c) && wrapperRows == Retiring(wrappers, cw, c)
      modifies `atomNames, `atomOwners, `atomRows, `constructionWrappers, `wrapperOwners, `wrapperRows
      ensures AtomsIndexed() && WrappersIndexed()
      ensures atomRows == Retiring(atoms, ca, c + 1) && wrapperRows == Retiring(wrappers, cw, c + 1)
    {
      assert PlanMatchesAt(plans, ca, cw, c);
      assert FindsItsRows(atoms, ca, c) && FindsItsRows(wrappers, cw, c);
      RetirePlan(plans[c], ca[c], cw[c]);
    }

    /** First half of a transaction: every change retires what it drops before any installs. */
    method RetireAll(plans: seq<Plan>, ghost ca: seq<Change<string>>, ghost cw: seq<Change<Wrapper>>)
      requires AtomsIndexed() && WrappersIndexed() && PlansMatch(plans, ca, cw)
      requires CanRetire(atomRows, ca) && CanRetire(wrapperRows, cw)
      modifies `atomNames, `atomOwners, `atomRows, `constructionWrappers, `wrapperOwners, `wrapperRows
      ensures AtomsIndexed() && WrappersIndexed()
      ensures atomRows == Retiring(old(atomRows), ca, |ca|) && wrapperRows == Retiring(old(wrapperRows), cw, |cw|)
    {
      for c := 0 to |plans|
        invariant AtomsIndexed() && WrappersIndexed()
        invariant atomRows == Retiring(old(atomRows), ca, c) && wrapperRows == Retiring(old(wrapperRows), cw, c)
      {
        RetireNext(plans, c, ca, cw, old(atomRows), old(wrapperRows));
      }
    }

    /** Second half: install what each change adds, and record the executable. */
    method InstallOne(
        plan: Plan, ghost atoms: map<nat, string>, ghost wrappers: map<nat, Wrapper>, ghost final: map<Slot, Wrapper>)
      requires AtomsIndexed() && WrappersIndexed() && Agreed(final)
      requires Enumerates(plan.atoms, atoms) && Positioned(plan.wrappers) && InstalledTable(plan.wrappers) == wrappers
      requires plan.next.None? ==> atoms == map[] && wrappers == map[]
      requires Free(atomRows, Executable(plan.key), atoms)
      requires Sub(wrapperRows, final) && Sub(RowsOf(Executable(plan.key), wrappers), final)
      modifies this
      ensures AtomsIndexed() && WrappersIndexed() && builtins == old(builtins)
      ensures atomRows == old(atomRows) + RowsOf(Executable(plan.key), atoms)
      ensures wrapperRows == old(wrapperRows) + RowsOf(Executable(plan.key), wrappers)
      ensures executables == Recorded(old(executables), plan.key, plan.next)
    {
      if plan.next.None? {
        executables := executables - {plan.key};
        NothingInstalled(atomRows, Executable(plan.key));
        NothingInstalled(wrapperRows, Executable(plan.key));
        return;
      }
      InstallAtoms(plan.key, plan.atoms, atoms);
      InstallWrappers(plan.key, plan.wrappers, final);
      executables := executables[plan.key := plan.next.value];
    }

    method InstallChange(plan: Plan, ghost a: Change<string>, ghost w: Change<Wrapper>, ghost final: map<Slot, Wrapper>)
      requires AtomsIndexed() && WrappersIndexed() && PlanMatches(plan, a, w) && Agreed(final)
      requires Free(atomRows, a.owner, Dropped(a.after, a.before))
      requires Sub(wrapperRows, final) && Sub(RowsOf(w.owner, Dropped(w.after, w.before)), final)
      modifies this
      ensures AtomsIndexed() && WrappersIndexed() && builtins == old(builtins)
      ensures atomRows == InstallStep(old(atomRows), a) && wrapperRows == InstallStep(old(wrapperRows), w)
      ensures executables == Recorded(old(executables), plan.key, plan.next)
    {
      ghost var atoms, wrappers := Dropped(a.after, a.before), Dropped(w.after, w.before);
      MatchedTables(plan, a, w, atoms, wrappers);
      InstallOne(plan, atoms, wrappers, final);
    }

    method InstallNext(plans: seq<Plan>, c: nat, ghost ca: seq<Change<string>>, ghost cw: seq<Change<Wrapper>>,
                       ghost final: map<Slot, Wrapper>,
                       ghost atoms: map<Slot, string>, ghost wrappers: map<Slot, Wrapper>)
      requires AtomsIndexed() && WrappersIndexed() && PlansMatch(plans, ca, cw) && Agreed(final) && c < |plans|
      requires HasRoom(atoms, ca) && StaysWithin(wrappers, cw, final)
      requires atomRows == Installing(atoms, ca, c) && wrapperRows == Installing(wrappers, cw, c)
      modifies this
      ensures AtomsIndexed() && WrappersIndexed() && builtins == old(builtins)
      ensures atomRows == Installing(atoms, ca, c + 1) && wrapperRows == Installing(wrappers, cw, c + 1)
      ensures executables == Recorded(old(executables), plans[c].key, plans[c].next)
    {
      assert PlanMatchesAt(plans, ca, cw, c);
      assert FindsRoom(atoms, ca, c) && WithinAt(wrappers, cw, final, c);
      InstallChange(plans[c], ca[c], cw[c], final);
    }

    method InstallAll(plans: seq<Plan>, ghost ca: seq<Change<string>>, ghost cw: seq<Change<Wrapper>>,
                      ghost changes: seq<ExecutableChange>, ghost final: map<Slot, Wrapper>)
      requires AtomsIndexed() && WrappersIndexed() && PlansMatch(plans, ca, cw) && Agreed(final)
      requires PlansFor(plans, changes)
      requires HasRoom(atomRows, ca) && StaysWithin(wrapperRows, cw, final)
      modifies this
      ensures AtomsIndexed() && WrappersIndexed() && builtins == old(builtins)
      ensures atomRows == Installing(old(atomRows), ca, |ca|) && wrapperRows == Installing(old(wrapperRows), cw, |cw|)
      ensures executables == UpdatedExecutables(old(executables), changes, |changes|)
    {
      for c := 0 to |plans|
        invariant AtomsIndexed() && WrappersIndexed() && builtins == old(builtins)
        invariant atomRows == Installing(old(atomRows), ca, c) && wrapperRows == Installing(old(wrapperRows), cw, c)
        invariant executables == UpdatedExecutables(old(executables), changes, c)
      {
        InstallNext(plans, c, ca, cw, final, old(atomRows), old(wrapperRows));
      }
    }

    /** The atoms every program has, before any executable. */
    method AddBuiltins()
      requires Consistent() && builtins == []
      modifies this
      ensures Consistent() && builtins == ["nil", "true", "false"] && executables == old(executables)
    {
      var atoms := ["nil", "true", "false"];
      for i := 0 to |atoms|
        invariant Consistent() && builtins == atoms[..i] && executables == old(executables)
      {
        BuiltinRow(builtins, executables, atomRows, atoms[i]);
        AddAtom(atoms[i], Slot(Builtins, i));
        builtins := builtins + [atoms[i]];
      }
    }

    /** Both phases: nothing is installed before everything dropped is retired. */
    method Patch(plans: seq<Plan>, ghost ca: seq<Change<string>>, ghost cw: seq<Change<Wrapper>>,
                 ghost changes: seq<ExecutableChange>, ghost final: map<Slot, Wrapper>)
      requires AtomsIndexed() && WrappersIndexed() && PlansMatch(plans, ca, cw) && Agreed(final)
      requires PlansFor(plans, changes)
      requires CanRetire(atomRows, ca) && CanRetire(wrapperRows, cw)
      requires HasRoom(Retiring(atomRows, ca, |ca|), ca) && StaysWithin(Retiring(wrapperRows, cw, |cw|), cw, final)
      modifies this
      ensures AtomsIndexed() && WrappersIndexed() && builtins == old(builtins)
      ensures atomRows == Installing(Retiring(old(atomRows), ca, |ca|), ca, |ca|)
      ensures wrapperRows == Installing(Retiring(old(wrapperRows), cw, |cw|), cw, |cw|)
      ensures executables == UpdatedExecutables(old(executables), changes, |changes|)
    {
      RetireAll(plans, ca, cw);
      InstallAll(plans, ca, cw, changes, final);
    }

    /** Patch to rows that are those of the executables left, and the program is consistent again. */
    method Transact(plans: seq<Plan>, ghost ca: seq<Change<string>>, ghost cw: seq<Change<Wrapper>>,
                    ghost changes: seq<ExecutableChange>,
                    ghost final: map<Slot, Wrapper>, ghost execs: map<nat, Backend>)
      requires AtomsIndexed() && WrappersIndexed() && PlansMatch(plans, ca, cw) && Agreed(final)
      requires PlansFor(plans, changes) && execs == UpdatedExecutables(executables, changes, |changes|)
      requires AllSorted(execs)
      requires CanRetire(atomRows, ca) && CanRetire(wrapperRows, cw)
      requires HasRoom(Retiring(atomRows, ca, |ca|), ca) && StaysWithin(Retiring(wrapperRows, cw, |cw|), cw, final)
      requires AtomRowsOf(builtins, execs, Installing(Retiring(atomRows, ca, |ca|), ca, |ca|))
      requires WrapperRowsOf(execs, Installing(Retiring(wrapperRows, cw, |cw|), cw, |cw|))
      modifies this
      ensures Consistent() && builtins == old(builtins) && executables == execs
    {
      Patch(plans, ca, cw, changes, final);
    }

    /**
     One transaction: distinct executables replaced, added or removed together.
     Afterwards every index is again the from-scratch one.
     */
    method Reconcile(changes: seq<ExecutableChange>)
      requires Consistent() && DistinctKeys(changes)
      requires forall i :: 0 <= i < |changes| ==> Sorted(WrappersOf(changes[i].1))
      requires WrappersAgree(UpdatedExecutables(executables, changes, |changes|))
      modifies this
      ensures Consistent() && builtins == old(builtins)
      ensures executables == UpdatedExecutables(old(executables), changes, |changes|)
    {
      var plans := PlanChanges(changes);
      ApplyPlans(plans, changes);
    }

    method ApplyPlans(plans: seq<Plan>, ghost changes: seq<ExecutableChange>)
      requires Consistent() && DistinctKeys(changes) && AllPlanned(executables, changes, plans)
      requires forall i :: 0 <= i < |changes| ==> Sorted(WrappersOf(changes[i].1))
      requires WrappersAgree(UpdatedExecutables(executables, changes, |changes|))
      modifies this
      ensures Consistent() && builtins == old(builtins)
      ensures executables == UpdatedExecutables(old(executables), changes, |changes|)
    {
      ghost var ca, cw := TellChanges(executables, changes);
      ReadyToPlan(executables, changes, plans, ca, cw);
      ApplyMatched(plans, changes, ca, cw);
    }

    method ApplyMatched(
      plans: seq<Plan>, ghost changes: seq<ExecutableChange>, ghost ca: seq<Change<string>>,
      ghost cw: seq<Change<Wrapper>>)
      requires Consistent() && DistinctKeys(changes) && ChangesTold(executables, changes, ca, cw)
      requires PlansMatch(plans, ca, cw) && PlansFor(plans, changes)
      requires AllSorted(UpdatedExecutables(executables, changes, |changes|))
      requires WrappersAgree(UpdatedExecutables(executables, changes, |changes|))
      modifies this
      ensures Consistent() && builtins == old(builtins)
      ensures executables == UpdatedExecutables(old(executables), changes, |changes|)
    {
      ghost var final := Installing(Retiring(wrapperRows, cw, |cw|), cw, |cw|);
      AtomsReady(builtins, executables, changes, atomRows, ca, cw);
      WrappersReady(executables, changes, wrapperRows, ca, cw, final);
      Transact(plans, ca, cw, changes, final, UpdatedExecutables(executables, changes, |changes|));
    }
  }

  /** The plans describe the changes, and the executables they leave are sorted. */
  lemma ReadyToPlan(
    execs: map<nat, Backend>, changes: seq<ExecutableChange>, plans: seq<Plan>,
    ca: seq<Change<string>>, cw: seq<Change<Wrapper>>)
    requires AllPlanned(execs, changes, plans) && AllSorted(execs)
    requires forall i :: 0 <= i < |changes| ==> Sorted(WrappersOf(changes[i].1))
    requires ChangesTold(execs, changes, ca, cw)
    ensures PlansMatch(plans, ca, cw) && PlansFor(plans, changes)
    ensures AllSorted(UpdatedExecutables(execs, changes, |changes|))
  {
    ToldAre(execs, changes, ca, cw);
    forall i | 0 <= i < |plans| ensures Planned(execs, changes[i], plans[i]) {
      assert PlannedAt(execs, changes, plans, i);
    }
    AllPlansMatch(execs, changes, plans, ca, cw);
    UpdatedSorted(execs, changes, |changes|);
  }

  /** One more installed wrapper: the rows it makes, and that nobody holds another wrapper at its position. */
  lemma NextInstalled(
    rows: map<Slot, Wrapper>, now: map<Slot, Wrapper>, key: nat, changes: seq<WrapperChange>,
    i: nat, final: map<Slot, Wrapper>)
    requires Positioned(changes) && i < |changes| && Agreed(final) && Sub(now, final)
    requires now == rows + RowsOf(Executable(key), InstalledTable(changes[..i]))
    requires Sub(RowsOf(Executable(key), InstalledTable(changes)), final)
    ensures
      var next := rows + RowsOf(Executable(key), InstalledTable(changes[..i + 1]));
      match changes[i].installed
      case None => next == now
      case Some(w) =>
        && next == now[Slot(Executable(key), w.identity) := w] && Sub(next, final)
        && forall s :: s in now && s.index == w.identity ==> now[s] == w
  {
    InstalledStep(changes, i);
    if changes[i].installed.Some? {
      var part, full := InstalledTable(changes[..i]), InstalledTable(changes);
      OneMoreRow(rows, now, Executable(key), part, full, changes[i].installed.value, final);
    }
  }

  lemma OneMoreRow(
    rows: map<Slot, Wrapper>, now: map<Slot, Wrapper>, owner: Owner, part: map<nat, Wrapper>, full: map<nat, Wrapper>,
    w: Wrapper, final: map<Slot, Wrapper>)
    requires now == rows + RowsOf(owner, part) && Agreed(final) && Sub(now, final) && Sub(RowsOf(owner, full), final)
    requires w.identity in full && full[w.identity] == w
    ensures rows + RowsOf(owner, part[w.identity := w]) == now[Slot(owner, w.identity) := w]
    ensures Sub(now[Slot(owner, w.identity) := w], final)
    ensures forall s :: s in now && s.index == w.identity ==> now[s] == w
  {
    RowInstalled(rows, owner, part, w.identity, w);
    var slot := Slot(owner, w.identity);
    assert slot in RowsOf(owner, full);
    WithinAgreed(now, final, slot, w);
  }

  /** Rows inside agreeing ones agree with each of them. */
  lemma WithinAgreed(rows: map<Slot, Wrapper>, final: map<Slot, Wrapper>, slot: Slot, w: Wrapper)
    requires Agreed(final) && Sub(rows, final) && slot in final && final[slot] == w && slot.index == w.identity
    ensures forall s :: s in rows && s.index == w.identity ==> rows[s] == w
  {
    forall s | s in rows && s.index == w.identity ensures rows[s] == w {
      assert SlotsAgree(final, s, slot);
    }
  }

  lemma NoAtomRows()
    ensures AtomRowsOf([], map[], map[])
  {}

  lemma NoWrapperRows()
    ensures WrapperRowsOf(map[], map[])
  {}

  lemma NoAtomIndexes()
    ensures AtomsIndexedBy(map[], map[], map[])
  {}

  lemma NoWrapperIndexes()
    ensures WrappersIndexedBy(map[], map[], map[])
  {}

  lemma BuiltinRow(builtins: seq<string>, execs: map<nat, Backend>, rows: map<Slot, string>, atom: string)
    requires AtomRowsOf(builtins, execs, rows)
    ensures Slot(Builtins, |builtins|) !in rows
    ensures AtomRowsOf(builtins + [atom], execs, rows[Slot(Builtins, |builtins|) := atom])
  {
    var grown := rows[Slot(Builtins, |builtins|) := atom];
    forall slot
      ensures AtomRowRight(builtins + [atom], execs, grown, slot)
      ensures slot == Slot(Builtins, |builtins|) ==> slot !in rows
    {
      assert AtomRowRight(builtins, execs, rows, slot);
      BuiltinTables(builtins, execs, atom, slot, AtomTables(builtins, execs), AtomTables(builtins + [atom], execs));
    }
  }

  lemma BuiltinTables(
    builtins: seq<string>, execs: map<nat, Backend>, atom: string, slot: Slot,
    before: map<Owner, map<nat, string>>, after: map<Owner, map<nat, string>>)
    requires before == AtomTables(builtins, execs) && after == AtomTables(builtins + [atom], execs)
    ensures Get(AllRows(after), slot)
         == if slot == Slot(Builtins, |builtins|) then Some(atom) else Get(AllRows(before), slot)
    ensures Slot(Builtins, |builtins|) !in AllRows(before)
  {
    if slot.owner == Builtins {
      assert before[Builtins] == AtomTable(builtins) && after[Builtins] == AtomTable(builtins + [atom]);
    } else {
      assert slot.owner in before ==> before[slot.owner] == after[slot.owner];
    }
  }

  /**
   A consistent program publishes what a from-scratch build of its builtins
   and executables would: each atom once, at its least occurrence, and exactly
   the current contributors of each atom and position.
   */
  lemma PublishedFromScratch(p: BackendProgram)
    requires p.Consistent()
    ensures
      var atoms := AllAtoms(p.builtins, p.executables);
      p.atomNames == AtomNames(atoms) && p.atomOwners == AtomOwners(atoms)
    ensures
      var wrappers := AllWrappers(p.executables);
      p.constructionWrappers == PublishedWrappers(wrappers) && p.wrapperOwners == WrapperOwners(wrappers)
  {
    AtomRowsAre(p.builtins, p.executables, p.atomRows);
    AtomIndexesAreRebuilt(p.atomRows, p.atomOwners, p.atomNames);
    WrapperRowsAre(p.executables, p.wrapperRows);
    WrapperIndexesAreRebuilt(p.wrapperRows, p.wrapperOwners, p.constructionWrappers);
  }

  /** Whatever transactions led there, the same contributors publish the same inventory. */
  lemma HistoryDoesNotMatter(p: BackendProgram, q: BackendProgram)
    requires p.Consistent() && q.Consistent() && p.builtins == q.builtins && p.executables == q.executables
    ensures p.atomNames == q.atomNames && p.atomOwners == q.atomOwners
    ensures p.constructionWrappers == q.constructionWrappers && p.wrapperOwners == q.wrapperOwners
  {
    PublishedFromScratch(p);
    PublishedFromScratch(q);
  }

  ghost predicate PlanMatches(plan: Plan, a: Change<string>, w: Change<Wrapper>) {
    && PlanSound(plan) && a.owner == Executable(plan.key) && w.owner == Executable(plan.key)
    && a.before == AtomTable(AtomsOf(plan.previous)) && a.after == AtomTable(AtomsOf(plan.next))
    && w.before == WrapperTable(WrappersOf(plan.previous)) && w.after == WrapperTable(WrappersOf(plan.next))
  }

  ghost predicate PlannedAt(execs: map<nat, Backend>, changes: seq<ExecutableChange>, plans: seq<Plan>, i: nat) {
    i < |changes| && i < |plans| ==> Planned(execs, changes[i], plans[i])
  }

  /** One plan for each change. */
  ghost predicate AllPlanned(execs: map<nat, Backend>, changes: seq<ExecutableChange>, plans: seq<Plan>) {
    && |plans| == |changes|
    && forall i {:trigger PlannedAt(execs, changes, plans, i)} :: PlannedAt(execs, changes, plans, i)
  }

  ghost predicate PlansFor(plans: seq<Plan>, changes: seq<ExecutableChange>) {
    && |plans| == |changes|
    && forall i :: 0 <= i < |plans| ==> plans[i].key == changes[i].0 && plans[i].next == changes[i].1
  }

  ghost predicate PlanMatchesAt(plans: seq<Plan>, ca: seq<Change<string>>, cw: seq<Change<Wrapper>>, i: nat) {
    i < |plans| && i < |ca| && i < |cw| ==> PlanMatches(plans[i], ca[i], cw[i])
  }

  ghost predicate PlansMatch(plans: seq<Plan>, ca: seq<Change<string>>, cw: seq<Change<Wrapper>>) {
    && |plans| == |ca| == |cw|
    && forall i {:trigger PlanMatchesAt(plans, ca, cw, i)} :: PlanMatchesAt(plans, ca, cw, i)
  }

  lemma AllPlansMatch(
    execs: map<nat, Backend>, changes: seq<ExecutableChange>, plans: seq<Plan>,
    ca: seq<Change<string>>, cw: seq<Change<Wrapper>>)
    requires |plans| == |changes| == |ca| == |cw|
    requires AllSorted(execs)
    requires forall i :: 0 <= i < |changes| ==> Sorted(WrappersOf(changes[i].1))
    requires forall i :: 0 <= i < |plans| ==> Planned(execs, changes[i], plans[i])
    requires forall i :: 0 <= i < |ca| ==> ca[i] == AtomChange(execs, changes[i])
    requires forall i :: 0 <= i < |cw| ==> cw[i] == WrapperChangeOf(execs, changes[i])
    ensures PlansMatch(plans, ca, cw) && PlansFor(plans, changes)
  {
    forall i | 0 <= i < |plans|
      ensures PlanMatches(plans[i], ca[i], cw[i])
      ensures plans[i].key == changes[i].0 && plans[i].next == changes[i].1
    {
      assert Planned(execs, changes[i], plans[i]) && Sorted(WrappersOf(changes[i].1));
    }
  }

  /** What a plan adds, and that removing an executable adds nothing. */
  lemma MatchedTables(
    plan: Plan, a: Change<string>, w: Change<Wrapper>, atoms: map<nat, string>, wrappers: map<nat, Wrapper>)
    requires PlanMatches(plan, a, w)
    requires atoms == Dropped(a.after, a.before) && wrappers == Dropped(w.after, w.before)
    ensures Enumerates(plan.atoms, atoms) && Positioned(plan.wrappers) && InstalledTable(plan.wrappers) == wrappers
    ensures plan.next.None? ==> atoms == map[] && wrappers == map[]
  {
    PlanTables(plan);
    if plan.next.None? {
      assert a.after == map[] && w.after == map[];
    }
  }

  lemma AtomsReady(
    builtins: seq<string>, execs: map<nat, Backend>, changes: seq<ExecutableChange>, rows: map<Slot, string>,
    ca: seq<Change<string>>, cw: seq<Change<Wrapper>>)
    requires DistinctKeys(changes) && ChangesTold(execs, changes, ca, cw) && AtomRowsOf(builtins, execs, rows)
    ensures CanRetire(rows, ca) && HasRoom(Retiring(rows, ca, |ca|), ca)
    ensures AtomRowsOf(builtins, UpdatedExecutables(execs, changes, |changes|),
                       Installing(Retiring(rows, ca, |ca|), ca, |ca|))
  {
    ToldAre(execs, changes, ca, cw);
    AtomRowsAre(builtins, execs, rows);
    AtomTransaction(builtins, execs, changes);
    TransactionCanRetire(AtomTables(builtins, execs), ca);
    TransactionHasRoom(AtomTables(builtins, execs), ca);
    AtomsPatched(builtins, execs, changes);
    AtomRowsAre(builtins, UpdatedExecutables(execs, changes, |changes|),
                Installing(Retiring(rows, ca, |ca|), ca, |ca|));
  }

  lemma WrappersReady(
    execs: map<nat, Backend>, changes: seq<ExecutableChange>, rows: map<Slot, Wrapper>, ca: seq<Change<string>>,
    cw: seq<Change<Wrapper>>, final: map<Slot, Wrapper>)
    requires DistinctKeys(changes) && ChangesTold(execs, changes, ca, cw) && WrapperRowsOf(execs, rows)
    requires final == Installing(Retiring(rows, cw, |cw|), cw, |cw|)
    requires WrappersAgree(UpdatedExecutables(execs, changes, |changes|))
    ensures CanRetire(rows, cw) && StaysWithin(Retiring(rows, cw, |cw|), cw, final) && Agreed(final)
    ensures WrapperRowsOf(UpdatedExecutables(execs, changes, |changes|), final)
  {
    ToldAre(execs, changes, ca, cw);
    WrapperRowsAre(execs, rows);
    WrapperTransaction(execs, changes);
    TransactionCanRetire(WrapperTables(execs), cw);
    WrappersPatched(execs, changes);
    TransactionStaysWithin(WrapperTables(execs), cw, final);
    WrapperRowsAre(UpdatedExecutables(execs, changes, |changes|), final);
    AgreeingOwners(UpdatedExecutables(execs, changes, |changes|), final);
  }

  ghost predicate PlanSound(plan: Plan) {
    && Sorted(WrappersOf(plan.previous)) && Sorted(WrappersOf(plan.next))
    && PlansWrappers(plan.wrappers, WrappersOf(plan.previous), WrappersOf(plan.next))
    && PlansAtoms(plan.atoms, AtomsOf(plan.previous), AtomsOf(plan.next))
  }

  /** A plan lists exactly the rows its tables drop and add. */
  lemma PlanTables(plan: Plan)
    requires PlanSound(plan)
    ensures Enumerates(plan.atoms, Dropped(AtomTable(AtomsOf(plan.next)), AtomTable(AtomsOf(plan.previous))))
    ensures
      var before, after := WrapperTable(WrappersOf(plan.previous)), WrapperTable(WrappersOf(plan.next));
      RetiredTable(plan.wrappers) == Dropped(before, after) && InstalledTable(plan.wrappers) == Dropped(after, before)
  {
    var before, after := WrapperTable(WrappersOf(plan.previous)), WrapperTable(WrappersOf(plan.next));
    DroppedWrappers(WrappersOf(plan.previous), WrappersOf(plan.next));
    DroppedWrappers(WrappersOf(plan.next), WrappersOf(plan.previous));
    TablesOfChanges(plan.wrappers, Dropped(before, after), Dropped(after, before));
  }

  ghost predicate Planned(execs: map<nat, Backend>, change: ExecutableChange, plan: Plan) {
    && plan.key == change.0 && plan.next == change.1 && plan.previous == Lookup(execs, change.0)
    && PlansWrappers(plan.wrappers, WrappersOf(plan.previous), WrappersOf(plan.next))
    && PlansAtoms(plan.atoms, AtomsOf(plan.previous), AtomsOf(plan.next))
  }

  lemma NothingInstalled<V>(rows: map<Slot, V>, owner: Owner)
    ensures rows + RowsOf(owner, map[]) == rows
  {}

  ghost function RetiredTable(changes: seq<WrapperChange>): (t: map<nat, Wrapper>)
    ensures forall p :: p in t ==> t[p].identity == p && t[p] in Retired(changes)
  {
    if changes == [] then map[]
    else
      var last := |changes| - 1;
      assert changes == changes[..last] + [changes[last]];
      Appended(changes[..last], changes[last]);
      var t := RetiredTable(changes[..last]);
      if changes[last].retired.Some? then t[changes[last].retired.value.identity := changes[last].retired.value] else t
  }

  ghost function InstalledTable(changes: seq<WrapperChange>): (t: map<nat, Wrapper>)
    ensures forall p :: p in t ==> t[p].identity == p && t[p] in Installed(changes)
  {
    if changes == [] then map[]
    else
      var last := |changes| - 1;
      assert changes == changes[..last] + [changes[last]];
      Appended(changes[..last], changes[last]);
      var t := InstalledTable(changes[..last]);
      if changes[last].installed.Some?
      then t[changes[last].installed.value.identity := changes[last].installed.value]
      else t
  }

  /** Positions ascend, so a change's position is none that precedes it. */
  lemma PositionIsFresh(changes: seq<WrapperChange>, i: nat, c: WrapperChange)
    requires Positioned(changes) && i < |changes| && c in changes[..i]
    ensures c.retired.Some? && changes[i].retired.Some? ==>
      c.retired.value.identity != changes[i].retired.value.identity
    ensures c.installed.Some? && changes[i].installed.Some? ==>
      c.installed.value.identity != changes[i].installed.value.identity
  {
    var at :| Ascending(changes, at);
    var k :| 0 <= k < i && changes[k] == c;
    assert ChangeAt(changes[k], at[k]) && ChangeAt(changes[i], at[i]);
  }

  lemma RetiredStep(changes: seq<WrapperChange>, i: nat)
    requires Positioned(changes) && i < |changes|
    ensures changes[i].retired.None? ==> RetiredTable(changes[..i + 1]) == RetiredTable(changes[..i])
    ensures changes[i].retired.Some? ==>
      var w := changes[i].retired.value;
      && RetiredTable(changes[..i + 1]) == RetiredTable(changes[..i])[w.identity := w]
      && w.identity !in RetiredTable(changes[..i]) && w.identity in RetiredTable(changes)
  {
    assert changes[..i + 1][..i] == changes[..i];
    if changes[i].retired.Some? {
      var w, t := changes[i].retired.value, RetiredTable(changes[..i]);
      forall c | c in changes[..i] && c.retired.Some?
        ensures c.retired.value.identity != w.identity
      {
        PositionIsFresh(changes, i, c);
      }
      RetiredKept(changes, i + 1, w.identity);
    }
  }

  lemma RetiredGrows(changes: seq<WrapperChange>, c: WrapperChange, p: nat)
    requires p in RetiredTable(changes)
    ensures p in RetiredTable(changes + [c])
  {
    assert (changes + [c])[..|changes|] == changes;
  }

  lemma {:induction false} RetiredKept(changes: seq<WrapperChange>, i: nat, p: nat)
    requires i <= |changes| && p in RetiredTable(changes[..i])
    ensures p in RetiredTable(changes)
    decreases |changes| - i
  {
    if i < |changes| {
      RetiredGrows(changes[..i], changes[i], p);
      assert changes[..i + 1] == changes[..i] + [changes[i]];
      RetiredKept(changes, i + 1, p);
    } else {
      assert changes[..i] == changes;
    }
  }

  lemma InstalledStep(changes: seq<WrapperChange>, i: nat)
    requires Positioned(changes) && i < |changes|
    ensures changes[i].installed.None? ==> InstalledTable(changes[..i + 1]) == InstalledTable(changes[..i])
    ensures changes[i].installed.Some? ==>
      var w := changes[i].installed.value;
      && InstalledTable(changes[..i + 1]) == InstalledTable(changes[..i])[w.identity := w]
      && w.identity in InstalledTable(changes) && InstalledTable(changes)[w.identity] == w
  {
    assert changes[..i + 1][..i] == changes[..i];
    if changes[i].installed.Some? {
      InstalledKept(changes, i + 1, i);
    }
  }

  lemma {:induction false} InstalledKept(changes: seq<WrapperChange>, n: nat, i: nat)
    requires Positioned(changes) && i < n <= |changes| && changes[i].installed.Some?
    requires
      var w := changes[i].installed.value;
      w.identity in InstalledTable(changes[..n]) && InstalledTable(changes[..n])[w.identity] == w
    ensures
      var w := changes[i].installed.value;
      w.identity in InstalledTable(changes) && InstalledTable(changes)[w.identity] == w
    decreases |changes| - n
  {
    if n < |changes| {
      assert changes[..n + 1][..n] == changes[..n];
      assert changes[..n][i] == changes[i];
      PositionIsFresh(changes, n, changes[i]);
      InstalledKept(changes, n + 1, i);
    } else {
      assert changes[..n] == changes;
    }
  }

  /** The wrappers a change list retires and installs, tabled. */
  lemma TablesOfChanges(changes: seq<WrapperChange>, dropped: map<nat, Wrapper>, added: map<nat, Wrapper>)
    requires Positioned(changes)
    requires Tables(Retired(changes), dropped) && Tables(Installed(changes), added)
    requires forall p :: p in dropped ==> dropped[p].identity == p
    requires forall p :: p in added ==> added[p].identity == p
    ensures RetiredTable(changes) == dropped && InstalledTable(changes) == added
  {
    forall w | w in Retired(changes)
      ensures w.identity in RetiredTable(changes) && RetiredTable(changes)[w.identity] == w
    {
      var i :| 0 <= i < |changes| && changes[i].retired == Some(w);
      RetiredStep(changes, i);
      var v := RetiredTable(changes)[w.identity];
      assert v in Retired(changes);
      assert dropped[w.identity] == w && dropped[v.identity] == v;
    }
    forall w | w in Installed(changes)
      ensures w.identity in InstalledTable(changes) && InstalledTable(changes)[w.identity] == w
    {
      var i :| 0 <= i < |changes| && changes[i].installed == Some(w);
      InstalledStep(changes, i);
    }
    TablesUnique(Retired(changes), RetiredTable(changes), dropped);
    TablesUnique(Installed(changes), InstalledTable(changes), added);
  }

  lemma RowsShrink<V>(rows: map<Slot, V>, owner: Owner, table: map<nat, V>, i: nat, v: V)
    requires Slot(owner, i) in rows && i !in table
    ensures rows - SlotsOf(owner, table[i := v]) == (rows - SlotsOf(owner, table)) - {Slot(owner, i)}
    ensures Slot(owner, i) in rows - SlotsOf(owner, table)
  {}

  lemma TablesUnique(ws: set<Wrapper>, a: map<nat, Wrapper>, b: map<nat, Wrapper>)
    requires Tables(ws, a) && Tables(ws, b)
    requires forall p :: p in a ==> a[p].identity == p
    requires forall p :: p in b ==> b[p].identity == p
    ensures a == b
  {
    forall p | p in a ensures p in b && a[p] == b[p] { assert a[p] in ws; }
    forall p | p in b ensures p in a { assert b[p] in ws; }
    assert a.Keys == b.Keys;
  }

  ghost predicate Enumerates<V>(rows: seq<Option<V>>, table: map<nat, V>) {
    && (forall i :: i in table ==> i < |rows|)
    && (forall i :: 0 <= i < |rows| ==> rows[i] == if i in table then Some(table[i]) else None)
  }

  ghost function Upto<V>(table: map<nat, V>, n: nat): map<nat, V> {
    map i | i in table && i < n :: table[i]
  }

  lemma UptoEnds<V>(rows: map<Slot, V>, owner: Owner, table: map<nat, V>, n: nat)
    requires forall i :: i in table ==> i < n
    ensures rows + RowsOf(owner, Upto(table, 0)) == rows
    ensures Upto(table, n) == table
  {
    assert RowsOf(owner, Upto(table, 0)) == map[];
  }

  /** One more index of a table: its row is new, and it is the only change. */
  lemma UptoStep<V>(rows: map<Slot, V>, owner: Owner, table: map<nat, V>, i: nat)
    requires i in table
    ensures rows + RowsOf(owner, Upto(table, i + 1)) ==
      (rows + RowsOf(owner, Upto(table, i)))[Slot(owner, i) := table[i]]
    ensures Slot(owner, i) !in rows ==> Slot(owner, i) !in rows + RowsOf(owner, Upto(table, i))
  {
    assert Upto(table, i + 1) == Upto(table, i)[i := table[i]];
    RowInstalled(rows, owner, Upto(table, i), i, table[i]);
  }

  lemma RowInstalled<V>(rows: map<Slot, V>, owner: Owner, part: map<nat, V>, i: nat, v: V)
    ensures rows + RowsOf(owner, part[i := v]) == (rows + RowsOf(owner, part))[Slot(owner, i) := v]
  {}

  lemma UptoSkip<V>(table: map<nat, V>, i: nat)
    requires i !in table
    ensures Upto(table, i + 1) == Upto(table, i)
  {}
}
