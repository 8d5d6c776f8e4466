# Verified model of the fz compiler and runtime core

A Dafny model of seven parts of the fz system, each proved against what its
source promises:

1. **Runtime type tests** (`FiniteSets`, `TypeTests`, `TypeTestContainment`,
   `TypeTestSeparation`, `TypeTestExactness`, `TypeTestWorlds`, `TypeTestOverlap`,
   `TypeTestRealised`, `TypeTestGaps`, `TypeTestSchemas`): a test is a union over
   eleven axes, nested through list heads, tuple positions and closure captures.
   Containment is a sound preorder; two realisable tests overlap if and only if
   some honest heap holds a value that passes both, and that heap is built; two
   tests that meet on no erasing axis may be routed without a surface check; the
   side conditions are exact; and registering the collected arities makes the
   schema-id matcher exact.
2. **Native graph sharing** (`GraphSharing`, `GraphPass`, `GraphRun`,
   `Collecting`, `GraphSafety`, `GraphIsolation`, `GraphCalm`, `GraphClauses`,
   `GraphProgram`, `GraphChain`): equivalent sibling CPS graphs are merged to a
   fixpoint. Whether a pass keeps everything published (the program's entry, the
   entries, the callable-boundary members) is told exactly from the comparisons of
   the program it starts from; a pass over separately published siblings always
   does, and so does the whole run over siblings that do not target one another,
   however many they are. No reference is left dangling.
3. **Backend inventory** (`Contributions`, `InventoryIndexes`, `Inventory`,
   `InventoryTransaction`, `InventoryProgram`, `InventoryNames`): owner indexes
   patched per transaction always equal a from-scratch build, which publishes each
   atom at one place told from the builtins and executables alone.
4. **Selective-receive scheduler** (`Receive`, `Timers`, `Scheduler`,
   `SchedulerRuns`, `SchedulerDelivery`, `SchedulerObjects`, `SchedulerLoop`): no
   lost wake-up, message delivery and conservation, one timer per timed wait that
   fires at its deadline, sender-side matching equal to a mailbox and a scan, and a
   resumed closure whose every slot is told.
5. **Ownership on the heap** (`SharedLists`, `OffHeap`, `HeapChains`,
   `FinaliserOrigins`): shared
   lists are immutable; off-heap reference counts are the chained stubs, and each
   resource ever born at an address is finalised once, claimed once, or still
   alive, however often the address is used again; a queued finaliser is the closure
   and payload its resource was made with.
6. **Term order** (`Orders`, `Powers`, `Binary64`, `Bitstrings`, `Terms`): strict
   and widening comparison, exact mixed integer and float comparison,
   lexicographic bitstrings.
7. **Codecs** (`Utf8`, `Denotations`, `DenotationCodec`, `DenotationOrder`,
   `DenotationCarrier`, `BitNumbers`, `BitFields`, `BitBuffers`): exact UTF-8,
   denotation carrier round trips, bit-field round trips.

`Options` and `Naturals` hold two small shared helpers. Verify everything with
`dafny verify dfyconfig.toml`.

Code that updates fields or buffers step by step is a class or a method with
loops, and its `ensures` ties the new state to a function of the old one; the
properties are proved about that function. `BackendProgram`, `NativeProgram`,
`Task`, `TimerWheel`, `AotScheduler`, `ListHeap`, `Registry`, `ProcessHeap`,
`DenotationReader`, `BitWriter` and `BitReader` are such classes.

## What the proofs found

- **Graph sharing can lose an entry.** A pass compares a later left entry with an
  entry whose root already is a representative. With four siblings, where the
  first pass merges the fourth into the first, the second pass maps 1 to 0 and
  then 0 to 2, so the body that entry 1 was sent to is removed
  (`GraphChain.SharingCanLoseAnEntry`). `GraphSafety.PassIsSafeExactly` says when
  a pass loses one, from the roots of the program it starts from and the pairs of
  sibling graphs that compare equal: some entry gains a root while its own root is
  offered to a leader. With root-disjoint groups that takes a root that returns
  after one it could not collect and that can collect it
  (`GraphSafety.NoReturnIsSafe`), so separately published siblings lose nothing in
  their first pass (`GraphSafety.FirstPassIsSafe`).
- **Siblings that do not target one another share safely.** For the whole run the
  condition on the starting program is `CalmGroups`: groups have no root in
  common, and each has at most two roots, or no body of one root targets a body of
  another and an entry with clauses reaches all it owns from its root
  (`GraphCalm.CalmSharingKeepsMeaning`). The clause half is needed: four siblings
  that target nothing at all lose an entry in one pass when a clause is not reached
  from its root (`GraphClauses.CrossFreeIsNotEnough`). A start that gives a leader
  away loses an entry for good, and `GraphCalm.SharingIsSafeExactly` states the
  exact form over the programs a run goes through.
- **The other-structs axis needs a side condition.** It is defined relative to the
  arities the tuple axis lists, and the two-test relations read the axes
  separately. `TypeTestSeparation.ContainmentExact`, `TypeTestSeparation.OverlapExact`
  and `TypeTestExactness.RoutingExact` state, as if-and-only-ifs, when the relations
  are sound anyway.
- **An unreadable head hides an overlap.** A list whose head the reader cannot
  produce passes every head question, so it passes two tests that share no head;
  overlap is complete on a heap if and only if every non-empty list has a readable
  head (`TypeTestExactness.ReadersExact`).
- **Overlap can be unreal.** A pair of any kind overlaps a pair whose positions
  nothing passes (`TypeTestGaps.EmptyPositionOverlaps`), and two complements on the
  two-valued list-shape axis overlap without a common shape
  (`TypeTestGaps.ComplementsOverlap`). Where no question inside is empty, the second
  is the only way to be wrong (`TypeTestGaps.ComplementsAreTheGap`).
- **Finite domains.** `FiniteSet` containment is exact on infinite domains only
  (`FiniteSets.ContainmentMissedOnAFiniteDomain`); it stays sound on finite ones.
- **A process may wait while its status says Running.** A stale duplicate in the
  run queue, dispatched on a process that has parked on an empty mailbox, leaves
  the status at Running. The invariants speak of the wait and the queue, not of
  the status.
- **Strict order does not refine widening order** on lists
  (`Terms.StrictDoesNotRefineWidening`); strict equality does imply widening
  equality.

## Assumptions carried from the source

- Type tests: `Built` is what the constructors of the shapes guarantee;
  `Numbered` says that schema ids identify one tuple arity or one name each;
  closures are honest (each captured value passes its construction's own test).
  Overlap and routing also take every non-empty list to have a readable head
  (`HonestHeap`), which `TypeTestExactness.ReadersExact` shows to be necessary.
  Integers and float bit patterns are unbounded, so a complement of finitely many
  is never empty.
- Graph sharing: each clause or continuation body belongs to one entry's graph
  (`Recorded`, `Published`), which the source asserts while indexing.
- Inventory: keys of a transaction are distinct, wrapper lists are strictly
  sorted, and owners of one position agree after the transaction.
- Scheduler: the matcher is any pure function; a park with a deadline has an
  after-continuation; a clause number indexes the clause table.
- Heap: allocators return 16-byte aligned addresses at which no object lives, and
  may return the address of one that is gone; a collection forwards
  some stubs to fresh copies and leaves the links of the old ones intact; atomics
  are sequentially consistent steps.

## Model

| member | source | states |
|---|---|---|
| `FiniteSets.ContainsAllSound` | src/finite_set.rs:121-128 | a value in a contained set is in the containing one, in every mix of finite and cofinite |
| `FiniteSets.OverlapsComplete` | src/finite_set.rs:130-135 | one common value is enough for the overlap answer to be yes |
| `FiniteSets.ExactOnInfiniteDomains` | src/finite_set.rs:121-135 | on an infinite domain containment and overlap answer exactly the questions about members |
| `FiniteSets.ContainmentMissedOnAFiniteDomain` | src/finite_set.rs:121-128 | on a two-valued domain a true containment between a finite and a cofinite set is denied |
| `FiniteSets.ContainsAllTransitive` | src/finite_set.rs:121-128 | containment chains compose |
| `FiniteSets.AlgebraIsBoolean` | src/finite_set.rs:67-107 | union, intersection and complement act on membership as or, and, not |
| `TypeTestContainment.ContainedReflexive` | src/runtime_type_predicate.rs:492-496 | every test is contained in itself, through every nesting |
| `TypeTestContainment.ContainedTransitive` | src/runtime_type_predicate.rs:423-437 | containment chains compose through heads, positions and captures |
| `TypeTestContainment.ContainmentSound` | src/runtime_type_predicate.rs:423-496 | whatever a test admits under either reading, every test that contains it admits too |
| `TypeTestContainment.ListsMonotone` | src/runtime_type_predicate.rs:669-683 | list-axis containment carries admission over, head and whole-spine questions included |
| `TypeTestContainment.TuplesMonotone` | src/runtime_type_predicate.rs:858-873 | tuple-axis containment carries admission over, position by position |
| `TypeTestContainment.CallablesMonotone` | src/runtime_type_predicate.rs:1051-1065 | a construction admitted by a contained callable axis is admitted by the containing one |
| `TypeTestContainment.RemainderMonotone` | src/runtime_type_predicate.rs:1534-1543 | a struct admitted as remainder is admitted by a covered containing test on some axis |
| `TypeTestContainment.WalkMonotone` | src/runtime_type_predicate.rs:1471-1494 | a wider element question refuses no list the narrower one passes |
| `TypeTestSeparation.FullRefinesLowered` | src/runtime_type_predicate.rs:1337-1363 | a value inside the surface passes the emitted test |
| `TypeTestSeparation.OverlapNeverMissed` | src/runtime_type_predicate.rs:558-562 | one honest value that passes both tests makes them overlap, at every nesting |
| `TypeTestSeparation.StructsOverlap` | src/runtime_type_predicate.rs:440-454 | a struct both tests admit makes the named or the tuple axis overlap |
| `TypeTestSeparation.ListsMeet` | src/runtime_type_predicate.rs:689-697 | a list both axes admit makes them overlap, heads included |
| `TypeTestSeparation.CallablesMeet` | src/runtime_type_predicate.rs:1068-1078 | a closure both axes admit makes their constructions overlap, through containment of captures |
| `TypeTestSeparation.NoBlindRouting` | src/runtime_type_predicate.rs:458-526 | two tests that meet on no erasing axis: a value both emitted tests admit lies inside both surfaces |
| `TypeTestSeparation.ContainmentExact` | src/runtime_type_predicate.rs:271-277 | a test is a sound upper bound of all it contains if and only if it admits in full every arity it lists beside the remainder |
| `TypeTestSeparation.RestrictedArityEscapes` | src/runtime_type_predicate.rs:423-437 | a concrete tuple escapes through containment when a listed arity is restricted beside the remainder |
| `TypeTestSeparation.OverlapExact` | src/runtime_type_predicate.rs:440-454 | overlap is complete for a test if and only if its remainder comes with an unrestricted tuple axis |
| `TypeTestSeparation.UnsharedRemainderMissed` | src/runtime_type_predicate.rs:440-454 | a concrete common tuple that overlap misses when the remainder is not shared |
| `TypeTestExactness.RoutingExact` | src/runtime_type_predicate.rs:458-526 | a seat may route between a test and every separable test it meets on no erasing axis if and only if the remainder the test carries is shared |
| `TypeTestExactness.UnsharedRemainderRoutesBlind` | src/runtime_type_predicate.rs:458-526 | a concrete tuple both emitted tests take and one surface refuses, when the remainder is not shared |
| `TypeTestExactness.ReadersExact` | src/runtime_type_predicate.rs:1417-1445 | on a numbered heap with honest closures overlap is complete for all separable tests if and only if every non-empty list has a readable head |
| `TypeTestExactness.UnreadableHeadMissed` | src/runtime_type_predicate.rs:1426-1433 | a list without a readable head passes two tests that do not overlap |
| `TypeTestWorlds.PassesGrown` | src/runtime_type_predicate.rs:1337-1445 | a value passes the same tests after more cells are made |
| `TypeTestWorlds.SoundIsHonest` | src/runtime_type_predicate.rs:1140-1160 | a world built cell by cell, each closure over captures that pass its stamp, is an honest heap |
| `TypeTestOverlap.OverlapsItself` | src/runtime_type_predicate.rs:546-557 | a test that admits something, with no empty question inside, overlaps itself |
| `TypeTestRealised.OverlapIsReal` | src/runtime_type_predicate.rs:440-454 | an overlap between realisable tests is a value on some honest heap that passes both, through heads, positions and captures |
| `TypeTestRealised.OverlapAnswersExactly` | src/runtime_type_predicate.rs:528-562 | two realisable, separable tests overlap if and only if some honest heap holds a value that passes both |
| `TypeTestGaps.EmptyPositionOverlaps` | src/runtime_type_predicate.rs:803-805 | every pair overlaps a pair that nothing passes: an empty question inside breaks exactness |
| `TypeTestGaps.ComplementsOverlap` | src/runtime_type_predicate.rs:689-697 | two complements overlap though together they leave no list shape |
| `TypeTestGaps.ComplementsAreTheGap` | src/runtime_type_predicate.rs:689-697 | where no question inside is empty, overlap is wrong if and only if the list axes are complements with no common shape and no other axis overlaps |
| `TypeTestGaps.ErasingIsReal` | src/runtime_type_predicate.rs:458-477 | between realisable tests a meeting on an erasing axis is a shared value |
| `TypeTestGaps.ErasingAxes` | src/runtime_type_predicate.rs:458-477 | meeting on maps, binaries, resources, structs or an unasked head is erasing |
| `TypeTestGaps.SeparatingNeverErases` | src/runtime_type_predicate.rs:498-526 | tests of numbers, atoms and exact tuples of such never meet on an erasing axis |
| `TypeTestGaps.ListContainmentExact` | src/runtime_type_predicate.rs:669-683 | between lists of integers containment is reported if and only if it is true on every honest heap |
| `TypeTestGaps.BinariesAlike` | src/runtime_type_predicate.rs:157-174 | inline and shared binaries are admitted alike, by the binary axis alone |
| `TypeTestSchemas.CollectTupleArities` | src/runtime_type_predicate.rs:318-363 | the walk adds exactly the arities reachable at every depth |
| `TypeTestSchemas.CollectShapeArities` | src/runtime_type_predicate.rs:346-363 | one tuple shape contributes the arities of all its positions |
| `TypeTestSchemas.FirstRefusedIsFirst` | src/runtime_type_predicate.rs:1417-1445 | a list passes if and only if every readable element answers; a refusal names the earliest one |
| `TypeTestSchemas.FirstRefusedElement` | src/runtime_type_predicate.rs:1471-1494 | the cursor loop returns the first refused element and its index, within the walk limit |
| `TypeTestSchemas.RegistrationSuffices` | src/runtime_type_predicate.rs:1178-1253 | with the collected arities registered, the schema-id matcher gives the arity-level answer on every nested value |
| `TypeTestSchemas.PositionsDecompose` | src/runtime_type_predicate.rs:294-310 | on an unnamed tuple the per-arity positions give exactly the answer of the whole test |
| `GraphSharing.CollectOwned` | src/compiler2/artifact.rs:657-663 | the frontier loop collects the least set of bodies closed under continuations of the entry |
| `GraphSharing.OwnersAgree` | src/compiler2/artifact.rs:633-697 | two entries own a common body only if they have one root |
| `GraphSharing.VisitTargets` | src/compiler2/artifact.rs:679-690 | one body's control targets get roles in edge order, first reach only |
| `GraphSharing.BuildGraph` | src/compiler2/artifact.rs:633-697 | the breadth-first loop builds the owned graph of an entry |
| `GraphSharing.OwnedGraphSound` | src/compiler2/artifact.rs:633-697 | each role leads by its control path to its body, roles and bodies are one to one, and complete means all owned bodies are reached |
| `GraphPass.CompareGraphs` | src/compiler2/artifact.rs:596-630 | the comparison finds the role pairing if and only if every paired body agrees after remapping |
| `GraphPass.PairingIsUnique` | src/compiler2/artifact.rs:596-608 | the right-to-left pairing is fixed by the two graphs |
| `GraphPass.AgreementIsMeaning` | src/compiler2/artifact.rs:609-630 | bodies that agree under a pairing unfold to the same tree at every depth |
| `GraphPass.MappingIsMeaning` | src/compiler2/artifact.rs:596-630 | a found mapping sends each body to one of the same meaning |
| `GraphPass.MergeGroupsKeeps` | src/compiler2/artifact.rs:573-594 | all replacements of a pass relate bodies of one meaning, whole graphs at a time |
| `GraphPass.ChainsExactlyWhenRetiring` | src/compiler2/artifact.rs:573-594 | replacements chain if and only if some merge retires an earlier representative |
| `GraphPass.RetainedShrinks` | src/compiler2/artifact.rs:470-482 | applying a non-empty replacement of recorded bodies strictly shrinks the body inventory |
| `GraphPass.ApplicationKeeps` | src/compiler2/artifact.rs:455-490 | without chains, every surviving body unfolds as before and every published id keeps its meaning |
| `GraphPass.ApplicationKeepsAll` | src/compiler2/artifact.rs:455-469 | without chains the entry, every entry under its key and every boundary member unfold as before |
| `Collecting.ScanFollows` | src/compiler2/artifact.rs:573-594 | the scan collects exactly the roots offered to leaders, and a root gains exactly if its entry leads and is offered one not yet taken |
| `Collecting.GivenAwayReturns` | src/compiler2/artifact.rs:573-594 | where groups share no root, a leader given away is a root that returns after one it could not collect and that collects it |
| `GraphSafety.PassIsSafeExactly` | src/compiler2/artifact.rs:432-490 | one pass keeps the meaning of everything published if and only if, by the comparisons of its starting program, no entry both gains a root and is offered to a leader |
| `GraphSafety.NoReturnIsSafe` | src/compiler2/artifact.rs:573-594 | a pass over root-disjoint groups in which no root returns keeps every entry |
| `GraphSafety.FirstPassIsSafe` | src/compiler2/artifact.rs:573-594 | a pass over separately published siblings keeps every entry, for any number of siblings |
| `GraphIsolation.MappingIsSymmetric` | src/compiler2/artifact.rs:596-630 | where the right graph targets nothing of the left one, comparing the other way round succeeds too |
| `GraphIsolation.IsolatedComparison` | src/compiler2/artifact.rs:596-630 | between roots that do not target one another comparing equal is symmetric and leaves the left entry complete and closed |
| `GraphIsolation.TwinsHaveOneGraph` | src/compiler2/artifact.rs:633-697 | two entries of one isolated root that each compare equal to some other root have the same graph |
| `GraphIsolation.IsolatedDoNotReturn` | src/compiler2/artifact.rs:573-594 | an isolated root that gains does not return: what could collect it, it could have collected |
| `GraphIsolation.TwoDoNotReturn` | src/compiler2/artifact.rs:573-594 | of two roots, one that gains leaves no other leader |
| `GraphIsolation.CalmPassIsSafe` | src/compiler2/artifact.rs:573-594 | a pass over calm groups gives no leader away |
| `GraphCalm.IsolationKept` | src/compiler2/artifact.rs:455-490 | isolated roots are isolated after a chain-free pass: no new cross target, and clauses stay reached |
| `GraphCalm.CalmKept` | src/compiler2/artifact.rs:432-490 | calm groups are calm after a pass |
| `GraphCalm.CalmSharingKeepsMeaning` | src/compiler2/artifact.rs:414-422 | sharing calm groups to the fixpoint keeps every entry at every depth, for any number of siblings |
| `GraphCalm.SharingIsSafeExactly` | src/compiler2/artifact.rs:414-422 | the run keeps every entry if and only if no program it goes through gives a leader away; a start that does loses an entry for good |
| `GraphClauses.StillComparison` | src/compiler2/artifact.rs:596-630 | entries without control targets compare equal if and only if they have the same clause indices |
| `GraphClauses.CrossFreeIsNotEnough` | src/compiler2/artifact.rs:573-594 | four siblings that target nothing at all lose an entry in one pass |
| `GraphRun.PassShrinks` | src/compiler2/artifact.rs:432-453 | each pass that replaces something strictly shrinks the body inventory |
| `GraphRun.PassKeepsPublished` | src/compiler2/artifact.rs:455-490 | a pass without chains leaves a program whose entries are all published |
| `GraphRun.SharingKeepsMeaningExactly` | src/compiler2/artifact.rs:414-422 | the whole loop stops, with nothing left to replace if it is intact, and an intact run is exactly one that keeps everything published at every depth |
| `GraphRun.ApplicationStaysClosed` | src/compiler2/artifact.rs:455-490 | replacements that do not chain leave no target, owner, entry or member without a body |
| `GraphRun.RunStaysClosed` | src/compiler2/artifact.rs:414-422 | an intact run of a program without dangling references ends in one |
| `GraphProgram.BuildGraphs` | src/compiler2/artifact.rs:563-571 | one owned graph per entry |
| `GraphProgram.FindReplacements` | src/compiler2/artifact.rs:573-594 | the nested loops find exactly the replacements of the pass |
| `GraphProgram.NativeProgram.ApplyReplacements` | src/compiler2/artifact.rs:455-490 | entry, entries, members and bodies become those of the applied program |
| `GraphProgram.NativeProgram.Deduplicate` | src/compiler2/artifact.rs:414-453 | the loop computes the run, never grows the inventory, and reports intact if and only if everything published kept its meaning |
| `GraphChain.SharingCanLoseAnEntry` | src/compiler2/artifact.rs:573-594 | four recorded siblings whose second pass sends an entry to a body it removes |
| `Contributions.PatchEqualsRebuild` | src/compiler2/backend_program.rs:259-307 | retiring then installing every change gives exactly the rows of the updated owners |
| `Contributions.AddedSlotIsFree` | src/compiler2/backend_program.rs:287-297 | when a change installs a row, no row stands in its slot |
| `Contributions.InstallingStaysInside` | src/compiler2/backend_program.rs:287-306 | every row present while a transaction installs is a row of the final program |
| `Contributions.TransactionCanRetire` | src/compiler2/backend_program.rs:261-286 | each change still finds all rows it is about to retire |
| `Contributions.TransactionHasRoom` | src/compiler2/backend_program.rs:287-297 | each change finds free every slot it is about to fill |
| `Contributions.TransactionStaysWithin` | src/compiler2/backend_program.rs:298-303 | wrappers installed never disagree with those already installed |
| `InventoryIndexes.NameOf` | src/compiler2/backend_program.rs:165-175 | a contributed atom is published under itself at its least occurrence |
| `InventoryIndexes.OwnersAfterAdding` | src/compiler2/backend_program.rs:165-190 | adding to the owner index is rebuilding it with the occurrence |
| `InventoryIndexes.NamesAfterAdding` | src/compiler2/backend_program.rs:176-188 | the published name moves if and only if the new occurrence comes first, as a rebuild would place it |
| `InventoryIndexes.OwnersAfterRemoving` | src/compiler2/backend_program.rs:192-220 | removing from the owner index is rebuilding it without the occurrence |
| `InventoryIndexes.NamesAfterRemoving` | src/compiler2/backend_program.rs:198-217 | the name moves to the next occurrence or disappears, as a rebuild would place it |
| `InventoryIndexes.WrapperAdded` | src/compiler2/backend_program.rs:334-358 | adding a wrapper owner is rebuilding both wrapper indexes |
| `InventoryIndexes.WrapperRemoved` | src/compiler2/backend_program.rs:309-332 | removing a wrapper owner is rebuilding both wrapper indexes |
| `InventoryIndexes.AtomIndexesAreRebuilt` | src/compiler2/backend_program.rs:165-220 | key-by-key agreement is equality with the rebuilt atom indexes |
| `InventoryIndexes.WrapperIndexesAreRebuilt` | src/compiler2/backend_program.rs:309-358 | key-by-key agreement is equality with the rebuilt wrapper indexes |
| `Inventory.ChangedWrappers` | src/compiler2/backend_program.rs:54-86 | the merge retires exactly the wrappers only the old list has and installs exactly those only the new list has, in ascending positions |
| `InventoryTransaction.AtomsPatched` | src/compiler2/backend_program.rs:227-307 | patching the atom rows gives the atom rows of the executables left |
| `InventoryTransaction.WrappersPatched` | src/compiler2/backend_program.rs:227-307 | patching the wrapper rows gives the wrapper rows of the executables left |
| `InventoryProgram.BackendProgram.constructor` | src/compiler2/backend_program.rs:133-145 | an empty program is consistent |
| `InventoryProgram.BackendProgram.AddBuiltins` | src/compiler2/backend_program.rs:159-163 | the three builtin atoms become contributors and the program stays consistent |
| `InventoryProgram.BackendProgram.AddAtom` | src/compiler2/backend_program.rs:165-190 | both atom indexes become the rebuilt ones for one more occurrence |
| `InventoryProgram.BackendProgram.RemoveAtom` | src/compiler2/backend_program.rs:192-220 | both atom indexes become the rebuilt ones for one occurrence less; every lookup succeeds |
| `InventoryProgram.BackendProgram.AddWrapper` | src/compiler2/backend_program.rs:334-358 | both wrapper indexes become the rebuilt ones; the one-wrapper-per-position check holds |
| `InventoryProgram.BackendProgram.RemoveWrapper` | src/compiler2/backend_program.rs:309-332 | both wrapper indexes become the rebuilt ones; every lookup succeeds |
| `InventoryProgram.BackendProgram.PublishedName` | src/compiler2/backend_program.rs:245-253 | the reused published name is the atom itself |
| `InventoryProgram.BackendProgram.PlanChanges` | src/compiler2/backend_program.rs:232-258 | plans are worked out against the state before the transaction |
| `InventoryProgram.BackendProgram.RetireAll` | src/compiler2/backend_program.rs:261-286 | the first phase leaves the rows every change keeps, indexed |
| `InventoryProgram.BackendProgram.InstallAll` | src/compiler2/backend_program.rs:287-306 | the second phase leaves the final rows, indexed, and the recorded executables |
| `InventoryProgram.BackendProgram.Reconcile` | src/compiler2/backend_program.rs:227-307 | after any transaction every index is the from-scratch one for the updated executables; no internal check fails |
| `InventoryProgram.PublishedFromScratch` | src/compiler2/backend_program.rs:101-145 | a consistent program publishes each atom once at its least occurrence and exactly the current contributors |
| `InventoryProgram.HistoryDoesNotMatter` | src/compiler2/backend_program.rs:227-307 | two programs with the same contributors publish the same indexes, whatever transactions led there |
| `InventoryNames.AtomsPublishedAt` | src/compiler2/backend_program.rs:34-45 | an atom is published at its least index among the builtins, or at its least index in the least executable that has it, and nowhere else |
| `InventoryNames.PublishedExactlyOnce` | src/compiler2/backend_program.rs:34-45 | every contributed atom has exactly one such place |
| `Receive.MaterializeOutcome` | runtime/src/park.rs:105-142 | filling the slots puts bound words between the outer continuation and the other captures |
| `Receive.ProbeResumes` | runtime/src/park.rs:99-138 | a hit at the sender resumes the code of the clause the matcher names, with the outer continuation, the bound words and the site captures in that order |
| `Receive.ScanResumes` | runtime/src/park.rs:99-138 | a hit of a scan resumes that closure for the earliest message the matcher accepts |
| `Receive.FirstHit` | runtime/src/sched.rs:150-161 | the index found is accepted and everything before it is rejected |
| `Receive.ProbeRefinesAppendThenScan` | runtime/src/sched.rs:95-122 | on a wholly rejected mailbox, probing leaves the mailbox, wait, outcome and history that appending and scanning would, and hits exactly when the scan does |
| `Receive.ProbeDiffersOtherwise` | runtime/src/sched.rs:95-122 | with an accepted message already waiting, probing and scanning differ on any other message |
| `Receive.ProbeConserves` | runtime/src/sched.rs:95-122 | a probe keeps arrivals equal to mailbox plus consumed, in order |
| `Receive.AppendConserves` | runtime/src/aot_shim.rs:543-545 | a plain arrival keeps arrivals equal to mailbox plus consumed, in order |
| `Receive.ScanConserves` | runtime/src/sched.rs:144-185 | a hit removes exactly the earliest accepted message, a miss nothing; arrivals are conserved |
| `Timers.DueIsExact` | runtime/src/timer.rs:80-87 | on an ascending vector the drained prefix is every due entry |
| `Timers.InsertedKeeps` | runtime/src/timer.rs:51-65 | scheduling keeps the order and distinct ids and adds exactly one entry |
| `Timers.CancelledKeeps` | runtime/src/timer.rs:71-75 | cancelling keeps the order and removes exactly the entry of that id |
| `Timers.TimerWheel.constructor` | runtime/src/timer.rs:42-47 | a new wheel is empty and valid |
| `Timers.TimerWheel.Schedule` | runtime/src/timer.rs:51-65 | binary search inserts a fresh id at its place in deadline order |
| `Timers.TimerWheel.Cancel` | runtime/src/timer.rs:71-75 | the entry of the id goes, or nothing changes |
| `Timers.TimerWheel.DrainExpired` | runtime/src/timer.rs:80-87 | exactly the due entries are taken, in order |
| `Scheduler.TimersDropped` | runtime/src/aot_shim.rs:515-518 | ending a wait and cancelling its timer keeps entries and after-timers one to one |
| `Scheduler.TimersAdded` | runtime/src/ir_runtime.rs:537-541 | parking with a deadline keeps entries and after-timers one to one |
| `Scheduler.SendKeeps` | runtime/src/aot_shim.rs:523-556 | a send keeps the invariant, whoever is running and whoever receives |
| `Scheduler.SpawnKeeps` | runtime/src/aot_shim.rs:430-490 | a spawn keeps the invariant |
| `Scheduler.ActsKeep` | runtime/src/aot_shim.rs:722-731 | whatever a closure sends and spawns, the invariant holds |
| `SchedulerRuns.FinishKeeps` | runtime/src/aot_shim.rs:732-765 | however a quantum ends, its process is exited, queued with a closure, or waiting; the invariant holds |
| `SchedulerRuns.HaltExits` | runtime/src/aot_shim.rs:719-765 | a halted process is exited and nothing else changes |
| `SchedulerRuns.YieldRequeues` | runtime/src/aot_shim.rs:719-765 | a yielding process keeps the closure yielded and goes to the back of the queue |
| `SchedulerRuns.ParkWaits` | runtime/src/ir_runtime.rs:537-570 | a parking process waits with the record given, queued only if mail is there |
| `SchedulerRuns.SpawnedRuns` | runtime/src/aot_shim.rs:430-490 | a spawned process is new, holds its closure and is queued at the back |
| `SchedulerRuns.ParkedWithDeadline` | runtime/src/ir_runtime.rs:537-570 | parking with a deadline leaves a timer of that process and that deadline |
| `SchedulerRuns.BeginActive` | runtime/src/aot_shim.rs:689-731 | a popped process with a closure to resume becomes the only active one |
| `SchedulerRuns.BeginMiss` | runtime/src/aot_shim.rs:716-718 | a scan that misses leaves a waiter that rejects its whole mailbox |
| `SchedulerRuns.BeginStale` | runtime/src/aot_shim.rs:719-765 | a stale duplicate of a pid changes nothing that matters |
| `SchedulerRuns.DispatchKeeps` | runtime/src/aot_shim.rs:689-765 | one quantum keeps the invariant |
| `SchedulerRuns.FireOneKeeps` | runtime/src/aot_shim.rs:669-683 | no expired entry is stale: it wakes the process that waits on it |
| `SchedulerRuns.DrainKeeps` | runtime/src/aot_shim.rs:669-683 | a timer drain keeps the invariant |
| `SchedulerRuns.DrainWakesOnTime` | runtime/src/aot_shim.rs:669-683 | a drain resumes a waiter with its after-continuation if and only if the deadline of its timer has come |
| `SchedulerRuns.TurnOf` | runtime/src/aot_shim.rs:784-804 | one turn of the loop keeps the invariant |
| `SchedulerRuns.Run` | runtime/src/aot_shim.rs:777-805 | every run keeps the invariant |
| `SchedulerRuns.BootHolds` | runtime/src/aot_shim.rs:592-598 | the scheduler starts in the invariant |
| `SchedulerRuns.NoLostWakeUp` | runtime/src/aot_shim.rs:777-805 | in every reachable state a runnable process is queued and an unqueued waiter rejects its whole mailbox |
| `SchedulerRuns.QuiescentIsDone` | runtime/src/aot_shim.rs:787-801 | when the loop can stop, every process is exited or waits with nothing matching and no timer |
| `SchedulerRuns.MessagesConserved` | runtime/src/sched.rs:144-207 | in every reachable state arrivals are exactly mailbox plus consumed, and the mailbox keeps arrival order |
| `SchedulerRuns.TimersOneToOne` | runtime/src/timer.rs:51-87 | in every reachable state wheel entries and after-timers correspond one to one, one per process |
| `SchedulerRuns.SenderMatchingIsTransparent` | runtime/src/aot_shim.rs:541-543 | every reachable unqueued waiter is served at the sender exactly as by a mailbox and a scan |
| `SchedulerRuns.SendIsMailThenDispatch` | runtime/src/aot_shim.rs:541-543 | from every reachable state, a send to an unqueued waiter and its dispatch leave exactly the state, timer entries included, of a plain mailbox and a scan |
| `SchedulerRuns.QueuedIsServed` | runtime/src/aot_shim.rs:787-803 | the queue is served in order: i turns bring the pid i places back to the front |
| `SchedulerDelivery.ActsArrive` | runtime/src/aot_shim.rs:523-556 | whatever a closure sends and spawns, each live process receives exactly the messages addressed to it, in order; an exited one receives nothing |
| `SchedulerDelivery.DispatchArrives` | runtime/src/aot_shim.rs:689-765 | a dispatch delivers exactly what the resumed closure addresses, and nothing if it resumes none |
| `SchedulerDelivery.TurnDelivers` | runtime/src/aot_shim.rs:784-804 | over a turn of the loop no message is lost, duplicated or reordered on its way to a live process |
| `SchedulerObjects.Task.ProbeSender` | runtime/src/sched.rs:95-122 | the in-place probe is the specified one, timer cancellation included |
| `SchedulerObjects.Task.SpliceFirstHit` | runtime/src/sched.rs:150-164 | popping and restoring splices out exactly the first hit |
| `SchedulerObjects.Task.InitialScan` | runtime/src/sched.rs:144-185 | the in-place scan is the specified one, timer cancellation included |
| `SchedulerObjects.Task.FireAfterTimer` | runtime/src/sched.rs:195-207 | only the timer of the current wait resumes the after-continuation |
| `SchedulerObjects.Task.ParkMatched` | runtime/src/ir_runtime.rs:537-570 | a park records the wait with its scheduled timer and asks for a scan if mail waits |
| `SchedulerLoop.AotScheduler.constructor` | runtime/src/aot_shim.rs:592-598 | the constructed scheduler is the initial state of the step machine |
| `SchedulerLoop.AotScheduler.SendHook` | runtime/src/aot_shim.rs:523-556 | the send hook is the send step |
| `SchedulerLoop.AotScheduler.SpawnHook` | runtime/src/aot_shim.rs:430-490 | the spawn hook is the spawn step, with a fresh pid |
| `SchedulerLoop.AotScheduler.DrainAfterTimers` | runtime/src/aot_shim.rs:669-683 | the drain loop is the drain step |
| `SchedulerLoop.AotScheduler.DispatchQuantum` | runtime/src/aot_shim.rs:689-765 | the dispatch is the quantum step |
| `SchedulerLoop.AotScheduler.RunQueueLoop` | runtime/src/aot_shim.rs:777-805 | the loop computes the run of its turns, and when it goes idle every process is finished |
| `SharedLists.SharingCloses` | runtime/src/any_value.rs:1182-1194 | marking up to the first protected cell leaves protection closed under tails and changes nothing else |
| `SharedLists.SharingCounts` | runtime/src/any_value.rs:1182-1194 | the count returned is the number of newly protected cells |
| `SharedLists.SharingProtectsTheSpine` | runtime/src/any_value.rs:1182-1194 | stopping at the first protected cell protects the whole spine |
| `SharedLists.TakeKeeps` | runtime/src/any_value.rs:1182-1212 | allocation, sharing and rewriting keep protection closed and never change a protected cell |
| `SharedLists.SharedListsAreImmutable` | runtime/src/any_value.rs:1206-1212 | over every run, a protected list keeps its contents to every depth |
| `SharedLists.ShareThenRun` | runtime/src/any_value.rs:1182-1212 | after sharing, no run changes what the list held before |
| `SharedLists.ListHeap.AllocCons` | runtime/src/any_value.rs:1140-1145 | a new cell is unprotected and keeps protection closed |
| `SharedLists.ListHeap.ShareSpine` | runtime/src/any_value.rs:1182-1194 | the loop is the specified sharing and returns the number of newly protected cells |
| `SharedLists.ListHeap.RewriteIfUnaliased` | runtime/src/any_value.rs:1206-1212 | a cell is rewritten if and only if it is unprotected |
| `OffHeap.AllocateBalances` | runtime/src/resource.rs:154-163 | a new object with one stub, at any address where none lives, keeps counts, fates and births balanced |
| `OffHeap.RetainBalances` | runtime/src/procbin.rs:127-132 | a retain for a new stub keeps counts equal to stubs |
| `OffHeap.ClaimBalances` | runtime/src/resource.rs:168-172 | a claim is granted if and only if the resource now at the address has met no fate, and a second claim is refused |
| `OffHeap.ReleaseBalances` | runtime/src/resource.rs:199-216 | a release of a held reference finds a live object, and finalises exactly an unclaimed resource at its last reference |
| `OffHeap.SweepPartitions` | runtime/src/procbin.rs:337-380 | survivors and dead stubs together hold exactly what the chain held |
| `OffHeap.Take` | runtime/src/procbin.rs:318-453 | every step keeps counts, claims and finalisations balanced |
| `OffHeap.After` | runtime/src/procbin.rs:318-453 | every run keeps counts, claims and finalisations balanced |
| `OffHeap.CountsAreStubs` | runtime/src/procbin.rs:127-150 | after every run a reference count is the number of chained stubs, and an object lives exactly while one holds it |
| `OffHeap.FinalisedExactlyOnce` | runtime/src/resource.rs:165-216 | after every run the resources ever born at an address are those finalised there, those claimed there and the unclaimed one living there |
| `OffHeap.NothingLeaks` | runtime/src/procbin.rs:430-453 | once every heap is dropped no object is left and every resource ever born was claimed or finalised, once each |
| `OffHeap.OneFatePerLife` | runtime/src/resource.rs:165-216 | from any state without an object at an address, over any run with one birth there, that resource is finalised once, claimed once or alive unclaimed, and only one of these |
| `HeapChains.RelinkOne` | runtime/src/procbin.rs:345-361 | relinking a survivor's copy keeps the unwalked chain and puts the copy at the head of the rebuilt one |
| `HeapChains.SweptAreCopies` | runtime/src/procbin.rs:337-380 | every relinked stub is the copy of a survivor |
| `HeapChains.Registry.Drop` | runtime/src/resource.rs:199-244 | the object is freed and its finaliser due exactly at an unclaimed last release |
| `HeapChains.Registry.ClaimShared` | runtime/src/resource.rs:168-172 | the swap grants exactly the first claim |
| `HeapChains.ProcessHeap.AllocStub` | runtime/src/procbin.rs:318-330 | the new stub heads the chain with its object and its closure, and no other word changes |
| `HeapChains.Registry.RetainShared` | runtime/src/resource.rs:184-189 | one more reference to a live object and nothing else |
| `HeapChains.ProcessHeap.CopyStub` | runtime/src/heap/deep_copy.rs:165-192 | a stub copied to another heap retains its object, heads the chain there and keeps counts balanced |
| `HeapChains.ProcessHeap.MsoSweep` | runtime/src/procbin.rs:337-380 | the chain is rebuilt from exactly the survivors' copies, with their objects and closures, and exactly the others' references are released |
| `HeapChains.ProcessHeap.MsoDropAll` | runtime/src/procbin.rs:430-453 | every reference of the chain is released and the chain is empty |
| `HeapChains.ProcessHeap.MsoDropAllDeferred` | runtime/src/procbin.rs:394-422 | as the inline drop, with each finaliser that falls due queued in chain order |
| `HeapChains.QueuedMatchesFinalised` | runtime/src/procbin.rs:394-422 | the resources finalised and the finalisers queued are those of the last holders, told from the table before the drop, in chain order, each with its stub's closure and its payload |
| `FinaliserOrigins.RunLabelled` | runtime/src/resource.rs:412-423 | over every run each stub has the kind and closure its object was made with, and each live object its payload |
| `FinaliserOrigins.FinalisersAreTheirMakers` | runtime/src/procbin.rs:394-422 | after every run a deferred drop queues, for each last holder, the closure and the payload its resource was made with |
| `Binary64.MagnitudeFollowsBits` | runtime/src/term.rs:201-210 | magnitudes are ordered as their bit patterns |
| `Binary64.TotalCmpIsValueThenSign` | runtime/src/term.rs:206-209 | the strict float order is value first, then negative before positive zero, and equal means the same bits |
| `Binary64.ConvertedExactly` | runtime/src/term.rs:222-224 | an integer with a 53-bit significand converts to binary64 exactly |
| `Binary64.TieConvertsExactly` | runtime/src/term.rs:222-224 | where the tie-break runs, the integer converts exactly |
| `Binary64.MixedComparisonIsExact` | runtime/src/term.rs:214-225 | for every 64-bit integer and finite float the comparison is that of the two mathematical values |
| `Binary64.KnownValues` | runtime/src/term.rs:201-225 | the fields of one, minus two and the least positive number have those values |
| `Bitstrings.TopBitsCompare` | runtime/src/term.rs:234-243 | leading bits compare as the numbers they spell |
| `Bitstrings.BitstringCmpIsLexicographic` | runtime/src/term.rs:227-246 | bitstring comparison is lexicographic order on bit sequences, partial last bytes included |
| `Terms.NumbersByValue` | runtime/src/term.rs:57-69 | both numeric modes order exact values; strict mode breaks ties integer, negative zero, float, and is equal only on identical numbers |
| `Terms.CompareReverses` | runtime/src/term.rs:34-210 | swapping operands reverses the result in both modes |
| `Terms.CompareTransits` | runtime/src/term.rs:34-210 | comparison is transitive in both modes, with equality a congruence |
| `Terms.StrictEqualIsSame` | runtime/src/term.rs:34-210 | strict comparison is equal if and only if the two are the same language value, wherever binaries are stored |
| `Terms.WideningEqualIsAlike` | runtime/src/term.rs:34-210 | widening comparison is equal if and only if numbers agree by value through structs, lists and map values, and map keys and captures are the same |
| `Terms.KindsInOrder` | runtime/src/term.rs:187-199 | numbers, atoms, resources, closures, structs, maps, lists, binaries, in that order |
| `Terms.FirstItemDecides` | runtime/src/term.rs:147-159 | lists compare at their first difference, and a proper prefix comes first |
| `Terms.MapsInOrder` | runtime/src/term.rs:122-145 | size decides before keys, and keys before values |
| `Terms.ClosuresInOrder` | runtime/src/term.rs:161-185 | denotation decides before the number of captures, and that before the captures, strictly |
| `Terms.StructsInOrder` | runtime/src/term.rs:89-120 | schema identity decides before the fields, in the mode asked |
| `Terms.StrictEqualWidens` | runtime/src/term.rs:34-210 | strictly equal terms are equal under widening |
| `Terms.StrictDoesNotRefineWidening` | runtime/src/term.rs:147-159 | two lists ordered one way strictly and the other way under widening |
| `Terms.CompareTerms` | runtime/src/term.rs:34-87 | the comparator with its loops is the specified comparison |
| `Terms.WalkTerms` | runtime/src/term.rs:147-159 | the cell walk compares lexicographically, a proper prefix first |
| `Terms.WalkMap` | runtime/src/term.rs:122-145 | maps compare by size, then strictly by keys, then by values |
| `Utf8.RecognisedIsEncoding` | runtime/src/ir_runtime.rs:2539-2581 | what the recogniser accepts is the encoding of a code point |
| `Utf8.EncodingIsRecognised` | runtime/src/bitstr.rs:171-193 | every encoding is recognised at its width, whatever follows |
| `Utf8.WidthsAre` | runtime/src/bitstr.rs:171-193 | how many bytes each range of code points takes |
| `Utf8.EncodingKeepsOrder` | runtime/src/bitstr.rs:171-193 | encodings order as the code points they encode |
| `Utf8.PrefixAcceptsExactlyEncodings` | runtime/src/ir_runtime.rs:2539-2581 | a width is accepted if and only if that many bytes are an encoding |
| `Utf8.ErrorOffsetIsExact` | runtime/src/ir_runtime.rs:2536-2538 | a prefix is extendable to an encoding if and only if it ends at or before the error offset |
| `Utf8.ValidUtf8` | runtime/src/ir_runtime.rs:2598-2621 | the loop accepts exactly whole bytes that are concatenations of encodings |
| `DenotationCodec.DecodeAfterEncode` | runtime/src/function_denotation.rs:113-196 | decoding an encoded table gives the table back, on every encodable table and either host byte order |
| `DenotationCodec.EncodeAfterDecode` | runtime/src/function_denotation.rs:178-279 | every accepted byte string is the encoding of its table, which is encodable |
| `DenotationCodec.AcceptedStringsAreIsolated` | runtime/src/function_denotation.rs:192-194 | no strict extension and no strict prefix of an accepted string is accepted |
| `DenotationCodec.TableComplete` | runtime/src/function_denotation.rs:113-153 | an encoded table followed by anything is read as the table and what follows |
| `DenotationCodec.TableSound` | runtime/src/function_denotation.rs:179-191 | whatever is read as a table is its encoding followed by the rest |
| `DenotationCodec.DenotationComplete` | runtime/src/function_denotation.rs:123-150 | an encoded denotation followed by anything is read back |
| `DenotationCodec.DenotationSound` | runtime/src/function_denotation.rs:250-278 | whatever is read as a denotation is its encoding followed by the rest |
| `DenotationCodec.WordLayout` | runtime/src/function_denotation.rs:155-161 | a word is four bytes, most significant first on a big host and last on a little one |
| `DenotationCodec.TagsAre` | runtime/src/function_denotation.rs:123-150 | the arity comes first, then the tags 0 and 1; modules are tagged 0, 1 and 2 |
| `DenotationOrder.SemanticCmpIsTotal` | runtime/src/function_denotation.rs:77-96 | swapping operands reverses the result, and equal is structural equality |
| `DenotationOrder.SemanticCmpTransits` | runtime/src/function_denotation.rs:77-96 | the semantic order is transitive |
| `DenotationOrder.OwnerThenNameThenArity` | runtime/src/function_denotation.rs:77-96 | owner decides before name and name before arity; parent before occurrence before arity; named before generated |
| `DenotationOrder.OwnersInOrder` | runtime/src/module_name.rs:12-16 | no owner, then named modules, then implementations by protocol before target |
| `DenotationOrder.SegmentDecides` | runtime/src/module_name.rs:12-16 | names compare at their first different segment, and a proper prefix comes first |
| `DenotationCarrier.EncodeTable` | runtime/src/function_denotation.rs:113-153 | encoding succeeds exactly on encodable tables, with the specified bytes |
| `DenotationCarrier.EncodeDenotation` | runtime/src/function_denotation.rs:123-150 | the owner loop writes the specified bytes or fails exactly when a field does not fit |
| `DenotationCarrier.EncodeName` | runtime/src/function_denotation.rs:170-176 | the segment loop writes the specified bytes or fails exactly when a length does not fit |
| `DenotationCarrier.DecodeTable` | runtime/src/function_denotation.rs:179-196 | the loop over the reader gives the specified table or fault |
| `DenotationCarrier.DenotationReader.TakeText` | runtime/src/function_denotation.rs:215-220 | a text is read as specified, invalid UTF-8 and truncation reported |
| `DenotationCarrier.DenotationReader.TakeName` | runtime/src/function_denotation.rs:222-236 | a module name is read as specified, empty names and segments reported |
| `DenotationCarrier.DenotationReader.TakeModule` | runtime/src/function_denotation.rs:238-248 | the three module tags are read as specified and others reported |
| `DenotationCarrier.DenotationReader.TakeDenotation` | runtime/src/function_denotation.rs:250-278 | collecting layers and wrapping them inside out reads the specified denotation |
| `BitNumbers.SwapTwice` | runtime/src/bitstr.rs:129-152 | swapping the bytes of a number that fits twice gives it back |
| `BitNumbers.NumOfBits` | runtime/src/bitstr.rs:45-50 | the bits written for a number that fits spell it |
| `BitFields.FieldRoundTrip` | runtime/src/ir_runtime.rs:797-811 | a field reads back the value written if and only if the value is in its range |
| `BitFields.FieldByteOrder` | runtime/src/bitstr.rs:129-148 | a field of whole bytes is written least significant byte first if little, or native on a little host, and most significant first otherwise |
| `BitFields.FieldsRoundTrip` | runtime/src/ir_runtime.rs:1399-1411 | any sequence of in-range fields, at any bit offset and with anything after it, reads back every value |
| `BitBuffers.AppendedBits` | runtime/src/bitstr.rs:52-62 | one more bit at the end of the bit sequence and nothing else |
| `BitBuffers.BitWriter.AppendBit` | runtime/src/bitstr.rs:52-62 | the bit joins the sequence and padding stays zero |
| `BitBuffers.BitWriter.WriteBits` | runtime/src/bitstr.rs:45-50 | the number's bits join the sequence, most significant first |
| `BitBuffers.BitWriter.WriteBytes` | runtime/src/bitstr.rs:64-73 | the aligned copy and the bitwise path append the same bits |
| `BitBuffers.BitWriter.WriteField` | runtime/src/ir_runtime.rs:797-811 | the field's bits join the sequence |
| `BitBuffers.ApplyEndian` | runtime/src/bitstr.rs:129-148 | the loop reverses the bytes of whole-byte little-endian fields and nothing else |
| `BitBuffers.BitReader.ReadBits` | runtime/src/bitstr.rs:98-108 | the number the next bits spell, or nothing read when too few remain |
| `BitBuffers.BitReader.ReadField` | runtime/src/ir_runtime.rs:1399-1411 | the field's value, failing exactly when it is too wide or runs past the end |
| `BitBuffers.BitWriter.WriteFields` | runtime/src/ir_runtime.rs:797-811 | the bits of all fields join the sequence in order |
| `BitBuffers.BitReader.ReadFields` | runtime/src/ir_runtime.rs:1399-1411 | the values of all fields in order, or a failure with the first field that fails |
| `BitBuffers.WriteThenRead` | runtime/src/ir_runtime.rs:1399-1411 | in-range fields written after anything come back from the bytes value by value |

## Left out

- The type-to-predicate projection and dispatch seating: tests are inputs of the model.
- `sibling_entry_groups`: the groups are a parameter of the sharing run.
- Equality of native body facts, callsite alignment and IR text: a body is opaque facts plus ordered control targets.
- The boxed-apply contract, struct schemas and `Rc` pointer sharing of the backend program.
- GraphRun.SharingKeepsMeaningExactly: speaks of the run's own outcome; the conditions on programs are PassIsSafeExactly, SharingIsSafeExactly and CalmSharingKeepsMeaning.
- GraphCalm.CalmSharingKeepsMeaning: one direction only, since which graphs become equal in later passes depends on the merges of earlier ones; programs that are not calm may share safely.
- GraphProgram.NativeProgram.Deduplicate: stops and reports at the first pass that leaves a dangling entry, where the source goes on and indexes a missing body.
- Reduction budgets, boundary collection, pinned registers and the JIT scheduler: a quantum is its sends, spawns and ending.
- SchedulerLoop.AotScheduler.RunQueueLoop: clock readings and what resumed closures do are inputs, and pid and timer-id wrap-around is not modelled.
- Deep copying of messages and closures between heaps: a message word stands for the value it denotes.
- Cheney copying and heap layout: a collection is a forwarding map with the stated effect on stub words; list relocation is not modelled.
- The bit layout of the list link word, and the layout of map, struct and closure objects.
- Byte windows of suffix stubs, and the trailing NUL of shared buffers.
- Refcount overflow checks and hardware memory orderings.
- Terms.CompareTerms: schema identities and closure denotations are elements of a total order, and raw struct fields are the terms they hold; pointer-equality shortcuts are not modelled.
- Conversion of floats to and from text, and arithmetic on floats.
- UTF-16, UTF-32 and the lenient `decode_utf8`; binary and float bit fields.
- CLI, AOT linking, diagnostics and telemetry.
