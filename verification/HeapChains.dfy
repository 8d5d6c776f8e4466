/** The intrusive chain of off-heap stubs on one process heap, walked and relinked in place. */
module HeapChains {
  import opened Options
  import opened OffHeap

  const TAG_SIZE: nat := 16
  const TAG_FWD: nat := 8

  function Tag(kind: Kind): nat {
    match kind
    case Bin => 6
    case Resource => 7
  }

  /** A stub's words: the object it holds or a forwarding marker, the next link, the finaliser closure. */
  datatype Words = Words(first: nat, next: nat, closure: int)

  type Memory = map<nat, Words>

  ghost predicate Aligned(a: nat) { a > 0 && a % TAG_SIZE == 0 }

  /** The links from `link` spell the chain, stub by stub. */
  ghost predicate Chained(memory: Memory, link: nat, chain: seq<Stub>)
    decreases |chain|
  {
    if chain == [] then link == 0
    else
      var stub := chain[0];
      && Aligned(stub.addr) && link == stub.addr + Tag(stub.kind) && stub.addr in memory
      && Chained(memory, memory[stub.addr].next, chain[1..])
  }

  ghost predicate DistinctAddrs(chain: seq<Stub>) {
    forall i, j :: 0 <= i < j < |chain| ==> chain[i].addr != chain[j].addr
  }

  /**
   A stub's first word names its object, whose 16-byte alignment keeps it apart
   from a forwarding marker; its closure word is its finaliser.
   */
  ghost predicate Holds(memory: Memory, stub: Stub) {
    && stub.addr in memory && memory[stub.addr].first == stub.shared && Aligned(stub.shared)
    && memory[stub.addr].closure == stub.closure
  }

  ghost predicate Holding(memory: Memory, chain: seq<Stub>) {
    forall i :: 0 <= i < |chain| ==> Holds(memory, chain[i])
  }

  lemma {:induction false} ChainedFrame(memory: Memory, after: Memory, link: nat, chain: seq<Stub>)
    requires Chained(memory, link, chain)
    requires forall i :: 0 <= i < |chain| && chain[i].addr in memory ==>
      chain[i].addr in after && after[chain[i].addr].next == memory[chain[i].addr].next
    ensures Chained(after, link, chain)
    decreases |chain|
  {
    if chain != [] {
      var tail := chain[1..];
      forall i | 0 <= i < |tail| && tail[i].addr in memory
        ensures tail[i].addr in after && after[tail[i].addr].next == memory[tail[i].addr].next
      {
        assert tail[i] == chain[i + 1];
      }
      ChainedFrame(memory, after, memory[chain[0].addr].next, tail);
    }
  }

  /**
   What a collection leaves behind: a survivor's first word is a marker for its
   aligned copy in to-space, whose own first word names the object and whose
   closure word is the survivor's; the links of the old stubs are intact.
   */
  ghost predicate Moved(memory: Memory, stub: Stub, to: map<nat, nat>) {
    if stub.addr in to then
      && stub.addr in memory && memory[stub.addr].first == to[stub.addr] + TAG_FWD
      && Aligned(to[stub.addr]) && Holds(memory, stub.(addr := to[stub.addr]))
    else Holds(memory, stub)
  }

  ghost predicate Collected(memory: Memory, chain: seq<Stub>, to: map<nat, nat>) {
    && DistinctAddrs(chain)
    && (forall i :: 0 <= i < |chain| ==> Moved(memory, chain[i], to))
    && (forall i, j :: 0 <= i < |chain| && 0 <= j < |chain| && chain[i].addr in to ==>
          to[chain[i].addr] != chain[j].addr)
    && (forall i, j :: 0 <= i < j < |chain| && chain[i].addr in to && chain[j].addr in to ==>
          to[chain[i].addr] != to[chain[j].addr])
  }

  /** Every relinked stub is the copy of a survivor. */
  lemma {:induction false} SweptAreCopies(chain: seq<Stub>, to: map<nat, nat>, i: nat)
    requires i < |Swept(chain, to)|
    ensures exists k ::
      0 <= k < |chain| && chain[k].addr in to && Swept(chain, to)[i] == chain[k].(addr := to[chain[k].addr])
  {
    if chain != [] {
      var last, front := |chain| - 1, chain[..|chain| - 1];
      if chain[last].addr in to && i == 0 {
        assert Swept(chain, to)[0] == chain[last].(addr := to[chain[last].addr]);
      } else {
        var j := if chain[last].addr in to then i - 1 else i;
        SweptAreCopies(front, to, j);
        var k :| 0 <= k < |front| && front[k].addr in to && Swept(front, to)[j] == front[k].(addr := to[front[k].addr]);
        assert chain[k] == front[k] && Swept(chain, to)[i] == Swept(front, to)[j];
      }
    }
  }

  /** Relinking one survivor: its copy now heads the chain of the survivors before it. */
  lemma RelinkOne(memory: Memory, chain: seq<Stub>, to: map<nat, nat>, i: nat, cur: nat, head: nat)
    requires Collected(memory, chain, to) && i < |chain| && chain[i].addr in to
    requires Chained(memory, cur, chain[i..]) && Chained(memory, head, Swept(chain[..i], to))
    ensures
      var stub := chain[i];
      var copy := to[stub.addr];
      && stub.addr in memory && copy in memory
      && var after := memory[copy := memory[copy].(next := head)];
      && Collected(after, chain, to)
      && Chained(after, memory[stub.addr].next, chain[i + 1..])
      && Chained(after, copy + Tag(stub.kind), Swept(chain[..i + 1], to))
  {
    var stub := chain[i];
    assert Moved(memory, stub, to);
    var copy := to[stub.addr];
    var after := memory[copy := memory[copy].(next := head)];
    forall k | 0 <= k < |chain| ensures Moved(after, chain[k], to) { assert Moved(memory, chain[k], to); }
    assert chain[i..][0] == stub && chain[i..][1..] == chain[i + 1..];
    RestUntouched(memory, after, chain, to, i);
    DoneUntouched(memory, after, chain, to, i, head);
    assert chain[..i + 1][..i] == chain[..i];
    var swept := Swept(chain[..i + 1], to);
    assert swept[1..] == Swept(chain[..i], to) && swept[0] == stub.(addr := copy);
  }

  lemma RestUntouched(memory: Memory, after: Memory, chain: seq<Stub>, to: map<nat, nat>, i: nat)
    requires Collected(memory, chain, to) && i < |chain| && chain[i].addr in to && to[chain[i].addr] in memory
    requires exists next :: after == memory[to[chain[i].addr] := memory[to[chain[i].addr]].(next := next)]
    requires chain[i].addr in memory && Chained(memory, memory[chain[i].addr].next, chain[i + 1..])
    ensures Chained(after, memory[chain[i].addr].next, chain[i + 1..])
  {
    var rest := chain[i + 1..];
    forall k | 0 <= k < |rest| && rest[k].addr in memory
      ensures rest[k].addr in after && after[rest[k].addr].next == memory[rest[k].addr].next
    {
      assert rest[k] == chain[i + 1 + k];
    }
    ChainedFrame(memory, after, memory[chain[i].addr].next, rest);
  }

  lemma DoneUntouched(memory: Memory, after: Memory, chain: seq<Stub>, to: map<nat, nat>, i: nat, head: nat)
    requires Collected(memory, chain, to) && i < |chain| && chain[i].addr in to && to[chain[i].addr] in memory
    requires exists next :: after == memory[to[chain[i].addr] := memory[to[chain[i].addr]].(next := next)]
    requires Chained(memory, head, Swept(chain[..i], to))
    ensures Chained(after, head, Swept(chain[..i], to))
  {
    var done := Swept(chain[..i], to);
    forall k | 0 <= k < |done| && done[k].addr in memory
      ensures done[k].addr in after && after[done[k].addr].next == memory[done[k].addr].next
    {
      SweptAreCopies(chain[..i], to, k);
      var m :| 0 <= m < i && chain[m].addr in to && done[k] == chain[m].(addr := to[chain[m].addr]);
    }
    ChainedFrame(memory, after, head, done);
  }

  lemma SweptHold(memory: Memory, chain: seq<Stub>, to: map<nat, nat>)
    requires Collected(memory, chain, to)
    ensures Holding(memory, Swept(chain, to))
  {
    var done := Swept(chain, to);
    forall i | 0 <= i < |done| ensures Holds(memory, done[i]) {
      SweptAreCopies(chain, to, i);
      var k :| 0 <= k < |chain| && chain[k].addr in to && done[i] == chain[k].(addr := to[chain[k].addr]);
      assert Moved(memory, chain[k], to);
    }
  }

  lemma LinkDecodes(memory: Memory, link: nat, chain: seq<Stub>)
    requires Chained(memory, link, chain) && chain != []
    ensures link != 0 && link % TAG_SIZE == Tag(chain[0].kind) && link - link % TAG_SIZE == chain[0].addr
  {}

  // ----------------------------------------------------------------- in place

  class Registry {
    var table: Table

    constructor ()
      ensures table == Fresh().table
    {
      table := Fresh().table;
    }

    method RetainShared(p: nat)
      requires p in table.objects
      modifies this
      ensures table == Retain(old(table), p)
    {
      var held := table.objects[p];
      table := table.(objects := table.objects[p := held.(refcount := held.refcount + 1)]);
    }

    /** Give up one reference; tells the payload of a resource whose finaliser is now due. */
    method Drop(p: nat) returns (due: Option<int>)
      requires p in table.objects && table.objects[p].refcount > 0
      modifies this
      ensures table == Release(old(table), p)
      ensures due == if Finalises(old(table), p) then Some(old(table).objects[p].payload) else None
    {
      var held := table.objects[p];
      due := None;
      if held.refcount == 1 {
        table := table.(objects := table.objects - {p});
        if held.kind == Resource && !held.claimed {
          table := table.(finalised := table.finalised + [p]);
          due := Some(held.payload);
        }
      } else {
        table := table.(objects := table.objects[p := held.(refcount := held.refcount - 1)]);
      }
    }

    /** Compare and swap from live to claimed. */
    method ClaimShared(p: nat) returns (granted: bool)
      requires p in table.objects
      modifies this
      ensures (table, granted) == Claim(old(table), p)
    {
      granted := !table.objects[p].claimed;
      if granted {
        table := table.(objects := table.objects[p := table.objects[p].(claimed := true)],
                        claims := table.claims + [p]);
      }
    }
  }

  class ProcessHeap {
    var memory: Memory
    var msoHead: nat
    var pendingDtors: seq<(int, int)>

    constructor ()
      ensures memory == map[] && Chained(memory, msoHead, []) && pendingDtors == []
    {
      memory, msoHead, pendingDtors := map[], 0, [];
    }

    /** Put a new stub at the head of the chain, taking over one reference. */
    method AllocStub(stub: Stub, ghost chain: seq<Stub>)
      requires Chained(memory, msoHead, chain) && Holding(memory, chain) && DistinctAddrs(chain)
      requires Aligned(stub.addr) && stub.addr !in memory && Aligned(stub.shared)
      modifies this`memory, this`msoHead
      ensures memory == old(memory)[stub.addr := Words(stub.shared, old(msoHead), stub.closure)]
      ensures Chained(memory, msoHead, [stub] + chain) && Holding(memory, [stub] + chain)
      ensures DistinctAddrs([stub] + chain)
    {
      ghost var before := memory;
      memory := memory[stub.addr := Words(stub.shared, msoHead, stub.closure)];
      assert forall i :: 0 <= i < |chain| ==> Holds(before, chain[i]);
      ChainedFrame(before, memory, msoHead, chain);
      msoHead := stub.addr + Tag(stub.kind);
      ghost var longer := [stub] + chain;
      assert longer[1..] == chain;
      forall i | 0 <= i < |longer| ensures Holds(memory, longer[i]) {
        if i > 0 { assert longer[i] == chain[i - 1]; }
      }
    }

    /** Copy a stub from another heap: retain what it holds, then chain the copy here. */
    method CopyStub(registry: Registry, stub: Stub, ghost chain: seq<Stub>,
                    ghost edges: multiset<nat>, ghost born: multiset<nat>)
      requires Chained(memory, msoHead, chain) && Holding(memory, chain) && DistinctAddrs(chain)
      requires Aligned(stub.addr) && stub.addr !in memory && Aligned(stub.shared)
      requires Balanced(registry.table, edges, born) && stub.shared in registry.table.objects
      modifies this`memory, this`msoHead, registry
      ensures Chained(memory, msoHead, [stub] + chain) && Holding(memory, [stub] + chain)
      ensures DistinctAddrs([stub] + chain)
      ensures memory == old(memory)[stub.addr := Words(stub.shared, old(msoHead), stub.closure)]
      ensures registry.table == Retain(old(registry.table), stub.shared)
      ensures Balanced(registry.table, edges + multiset{stub.shared}, born)
    {
      RetainBalances(registry.table, edges, born, stub.shared);
      registry.RetainShared(stub.shared);
      AllocStub(stub, chain);
    }

    /** One stub of a sweep: relink a survivor's copy, or release what a dead stub held. */
    method SweepOne(
        cur: nat, head: nat, registry: Registry, ghost chain: seq<Stub>, ghost to: map<nat, nat>, ghost i: nat,
                    ghost edges: multiset<nat>, ghost born: multiset<nat>, ghost goal: Table)
      returns (next: nat, newHead: nat)
      requires Sweeping(memory, cur, head, registry.table, chain, to, i, edges, born, goal) && cur != 0
      modifies this`memory, registry
      ensures i < |chain| && Sweeping(memory, next, newHead, registry.table, chain, to, i + 1, edges, born, goal)
    {
      SweepDecodes(memory, cur, head, registry.table, chain, to, i, edges, born, goal);
      var kind := cur % TAG_SIZE;
      var addr := cur - kind;
      next := memory[addr].next;
      if memory[addr].first % TAG_SIZE == TAG_FWD {
        newHead := Relink(memory[addr].first - TAG_FWD, kind, cur, head, registry.table,
                          chain, to, i, edges, born, goal);
      } else {
        SweepReleases(memory, cur, head, registry.table, chain, to, i, edges, born, goal);
        var _ := registry.Drop(memory[addr].first);
        newHead := head;
      }
    }

    /** Put a survivor's copy at the head of the rebuilt chain. */
    method Relink(copy: nat, kind: nat, ghost cur: nat, head: nat, ghost t: Table, ghost chain: seq<Stub>,
                  ghost to: map<nat, nat>, ghost i: nat, ghost edges: multiset<nat>, ghost born: multiset<nat>,
                  ghost goal: Table)
      returns (newHead: nat)
      requires Sweeping(memory, cur, head, t, chain, to, i, edges, born, goal) && i < |chain| && chain[i].addr in to
      requires copy == to[chain[i].addr] && kind == Tag(chain[i].kind) && chain[i].addr in memory
      modifies this`memory
      ensures Sweeping(memory, old(memory[chain[i].addr].next), newHead, t, chain, to, i + 1, edges, born, goal)
    {
      SweepRelinks(memory, cur, head, t, chain, to, i, edges, born, goal);
      memory := memory[copy := memory[copy].(next := head)];
      newHead := copy + kind;
    }

    /** After a collection: relink the survivors' copies, release what the others held. */
    method MsoSweep(registry: Registry, ghost chain: seq<Stub>, ghost to: map<nat, nat>,
                    ghost edges: multiset<nat>, ghost born: multiset<nat>)
      requires Chained(memory, msoHead, chain) && Collected(memory, chain, to)
      requires Balanced(registry.table, edges + multiset(Dead(chain, to)), born)
      modifies this`memory, this`msoHead, registry
      ensures Chained(memory, msoHead, Swept(chain, to)) && Holding(memory, Swept(chain, to))
      ensures registry.table == ReleaseAll(old(registry.table), Dead(chain, to), edges, born)
    {
      var newHead: nat := 0;
      var cur: nat := msoHead;
      ghost var i: nat := 0;
      ghost var goal := SweepStarts(memory, msoHead, registry.table, chain, to, edges, born);
      while cur != 0
        invariant Sweeping(memory, cur, newHead, registry.table, chain, to, i, edges, born, goal)
        decreases |chain| - i
      {
        cur, newHead := SweepOne(cur, newHead, registry, chain, to, i, edges, born, goal);
        i := i + 1;
      }
      SweepEnds(memory, newHead, registry.table, chain, to, i, edges, born, goal);
      msoHead := newHead;
    }

    /** At shutdown: release what every stub holds. */
    method MsoDropAll(registry: Registry, ghost chain: seq<Stub>, ghost edges: multiset<nat>, ghost born: multiset<nat>)
      requires Chained(memory, msoHead, chain) && Holding(memory, chain)
      requires Balanced(registry.table, edges + multiset(Held(chain)), born)
      modifies this`msoHead, registry
      ensures Chained(memory, msoHead, [])
      ensures registry.table == ReleaseAll(old(registry.table), Held(chain), edges, born)
    {
      var cur: nat := msoHead;
      ghost var i: nat := 0;
      assert chain[0..] == chain;
      while cur != 0
        invariant i <= |chain| && Chained(memory, cur, chain[i..])
        invariant Balanced(registry.table, edges + multiset(Held(chain[i..])), born)
        invariant ReleaseAll(registry.table, Held(chain[i..]), edges, born)
               == ReleaseAll(old(registry.table), Held(chain), edges, born)
        decreases |chain| - i
      {
        LinkDecodes(memory, cur, chain[i..]);
        ReleaseNext(registry.table, chain, i, edges, born);
        assert Holds(memory, chain[i]);
        var addr := cur - cur % TAG_SIZE;
        var next := memory[addr].next;
        var _ := registry.Drop(memory[addr].first);
        cur := next;
        i := i + 1;
      }
      msoHead := 0;
    }

    /** One stub of a deferred shutdown: release it, and queue its finaliser if it falls due. */
    method DeferOne(cur: nat, registry: Registry, ghost chain: seq<Stub>, ghost i: nat,
                    ghost edges: multiset<nat>, ghost born: multiset<nat>, ghost goal: Table)
      returns (next: nat)
      requires Deferring(memory, cur, registry.table, chain, i, edges, born, goal) && cur != 0
      modifies this`pendingDtors, registry
      ensures i < |chain| && Deferring(memory, next, registry.table, chain, i + 1, edges, born, goal)
      ensures pendingDtors + Queued(memory, chain[i + 1..], registry.table, edges, born)
           == old(pendingDtors) + Queued(memory, chain[i..], old(registry.table), edges, born)
    {
      DeferNext(memory, cur, registry.table, chain, i, edges, born, goal);
      var addr := cur - cur % TAG_SIZE;
      next := memory[addr].next;
      var due := registry.Drop(memory[addr].first);
      if due.Some? {
        pendingDtors := pendingDtors + [(memory[addr].closure, due.value)];
      }
    }

    /** At shutdown, with finalisers left to the scheduler: queue each one that falls due. */
    method MsoDropAllDeferred(
        registry: Registry, ghost chain: seq<Stub>, ghost edges: multiset<nat>, ghost born: multiset<nat>)
      requires Chained(memory, msoHead, chain) && Holding(memory, chain)
      requires Balanced(registry.table, edges + multiset(Held(chain)), born)
      modifies this`msoHead, this`pendingDtors, registry
      ensures Chained(memory, msoHead, [])
      ensures registry.table == ReleaseAll(old(registry.table), Held(chain), edges, born)
      ensures pendingDtors == old(pendingDtors) + Queued(memory, chain, old(registry.table), edges, born)
    {
      var cur: nat := msoHead;
      ghost var i: nat := 0;
      ghost var goal := ReleaseAll(registry.table, Held(chain), edges, born);
      assert chain[0..] == chain;
      while cur != 0
        invariant Deferring(memory, cur, registry.table, chain, i, edges, born, goal)
        invariant pendingDtors + Queued(memory, chain[i..], registry.table, edges, born)
               == old(pendingDtors) + Queued(memory, chain, old(registry.table), edges, born)
        decreases |chain| - i
      {
        cur := DeferOne(cur, registry, chain, i, edges, born, goal);
        i := i + 1;
      }
      assert chain[i..] == [];
      msoHead := 0;
    }
  }

  // -------------------------------------------------------- one turn of a sweep

  /** A sweep before its `i`-th stub: what is left to walk, what is relinked, and what the table will come to. */
  ghost predicate Sweeping(
    memory: Memory, cur: nat, head: nat, t: Table, chain: seq<Stub>, to: map<nat, nat>, i: nat,
    edges: multiset<nat>, born: multiset<nat>, goal: Table)
  {
    i <= |chain| && Relinking(memory, cur, head, chain, to, i) && Releasing(t, Dead(chain[i..], to), edges, born, goal)
  }

  ghost predicate Relinking(memory: Memory, cur: nat, head: nat, chain: seq<Stub>, to: map<nat, nat>, i: nat)
    requires i <= |chain|
  {
    && Collected(memory, chain, to)
    && Chained(memory, cur, chain[i..]) && Chained(memory, head, Swept(chain[..i], to))
  }

  /** Releasing the references `owed` takes the table to `goal`. */
  ghost predicate Releasing(t: Table, owed: seq<nat>, edges: multiset<nat>, born: multiset<nat>, goal: Table) {
    Balanced(t, edges + multiset(owed), born) && ReleaseAll(t, owed, edges, born) == goal
  }

  lemma SweepStarts(
    memory: Memory, link: nat, t: Table, chain: seq<Stub>, to: map<nat, nat>, edges: multiset<nat>, born: multiset<nat>)
    returns (goal: Table)
    requires Chained(memory, link, chain) && Collected(memory, chain, to)
    requires Balanced(t, edges + multiset(Dead(chain, to)), born)
    ensures goal == ReleaseAll(t, Dead(chain, to), edges, born)
    ensures Sweeping(memory, link, 0, t, chain, to, 0, edges, born, goal)
  {
    goal := ReleaseAll(t, Dead(chain, to), edges, born);
    assert chain[0..] == chain && chain[..0] == [];
  }

  lemma SweepDecodes(
    memory: Memory, cur: nat, head: nat, t: Table, chain: seq<Stub>, to: map<nat, nat>, i: nat,
    edges: multiset<nat>, born: multiset<nat>, goal: Table)
    requires Sweeping(memory, cur, head, t, chain, to, i, edges, born, goal) && cur != 0
    ensures i < |chain| && cur % TAG_SIZE == Tag(chain[i].kind) && cur - cur % TAG_SIZE == chain[i].addr
    ensures chain[i].addr in memory
    ensures memory[chain[i].addr].first % TAG_SIZE == TAG_FWD <==> chain[i].addr in to
  {
    assert i < |chain|;
    assert chain[i..][0] == chain[i];
    LinkDecodes(memory, cur, chain[i..]);
    assert Moved(memory, chain[i], to);
  }

  lemma SweepRelinks(
    memory: Memory, cur: nat, head: nat, t: Table, chain: seq<Stub>, to: map<nat, nat>, i: nat,
    edges: multiset<nat>, born: multiset<nat>, goal: Table)
    requires Sweeping(memory, cur, head, t, chain, to, i, edges, born, goal) && i < |chain| && chain[i].addr in to
    ensures
      var stub := chain[i];
      var copy := to[stub.addr];
      && stub.addr in memory && copy in memory && memory[stub.addr].first == copy + TAG_FWD
      && Sweeping(memory[copy := memory[copy].(next := head)], memory[stub.addr].next, copy + Tag(stub.kind),
                  t, chain, to, i + 1, edges, born, goal)
  {
    assert Moved(memory, chain[i], to);
    RelinkOne(memory, chain, to, i, cur, head);
    assert chain[i..][0] == chain[i] && chain[i..][1..] == chain[i + 1..];
    assert Dead(chain[i..], to) == Dead(chain[i + 1..], to);
  }

  lemma SweepReleases(
    memory: Memory, cur: nat, head: nat, t: Table, chain: seq<Stub>, to: map<nat, nat>, i: nat,
    edges: multiset<nat>, born: multiset<nat>, goal: Table)
    requires Sweeping(memory, cur, head, t, chain, to, i, edges, born, goal) && i < |chain| && chain[i].addr !in to
    ensures
      var stub := chain[i];
      && Holds(memory, stub) && stub.shared in t.objects && t.objects[stub.shared].refcount > 0
      && Sweeping(memory, memory[stub.addr].next, head, Release(t, stub.shared), chain, to, i + 1, edges, born, goal)
  {
    var p, rest := chain[i].shared, Dead(chain[i + 1..], to);
    assert Moved(memory, chain[i], to);
    assert chain[i..][0] == chain[i] && chain[i..][1..] == chain[i + 1..];
    assert Dead(chain[i..], to) == [p] + rest;
    ReleaseFirst(t, p, rest, edges, born);
    assert chain[..i + 1][..i] == chain[..i];
  }

  lemma ReleaseFirst(t: Table, p: nat, rest: seq<nat>, edges: multiset<nat>, born: multiset<nat>)
    requires Balanced(t, edges + multiset([p] + rest), born)
    ensures p in t.objects && t.objects[p].refcount > 0
    ensures Balanced(Release(t, p), edges + multiset(rest), born)
    ensures ReleaseAll(t, [p] + rest, edges, born) == ReleaseAll(Release(t, p), rest, edges, born)
  {
    ReleaseBalances(t, edges + multiset([p] + rest), born, p);
    assert edges + multiset([p] + rest) - multiset{p} == edges + multiset(rest);
    assert ([p] + rest)[1..] == rest;
  }

  lemma SweepEnds(
    memory: Memory, head: nat, t: Table, chain: seq<Stub>, to: map<nat, nat>, i: nat,
    edges: multiset<nat>, born: multiset<nat>, goal: Table)
    requires Sweeping(memory, 0, head, t, chain, to, i, edges, born, goal)
    ensures t == goal && Chained(memory, head, Swept(chain, to)) && Holding(memory, Swept(chain, to))
  {
    assert i == |chain| && chain[..i] == chain && chain[i..] == [];
    SweptHold(memory, chain, to);
  }

  lemma HeldSplits(chain: seq<Stub>, i: nat)
    requires i < |chain|
    ensures chain[i..][0] == chain[i] && chain[i..][1..] == chain[i + 1..]
    ensures Held(chain[i..]) == [chain[i].shared] + Held(chain[i + 1..])
  {}

  /** Releasing the first reference of a batch leaves the rest owed. */
  lemma ReleaseNext(t: Table, chain: seq<Stub>, i: nat, edges: multiset<nat>, born: multiset<nat>)
    requires i < |chain| && Balanced(t, edges + multiset(Held(chain[i..])), born)
    ensures chain[i..][0] == chain[i] && chain[i..][1..] == chain[i + 1..]
    ensures chain[i].shared in t.objects && t.objects[chain[i].shared].refcount > 0
    ensures Balanced(Release(t, chain[i].shared), edges + multiset(Held(chain[i + 1..])), born)
    ensures ReleaseAll(t, Held(chain[i..]), edges, born)
         == ReleaseAll(Release(t, chain[i].shared), Held(chain[i + 1..]), edges, born)
  {
    HeldSplits(chain, i);
    ReleaseFirst(t, chain[i].shared, Held(chain[i + 1..]), edges, born);
  }

  lemma TailHolds(memory: Memory, chain: seq<Stub>, i: nat)
    requires i < |chain| && Holding(memory, chain[i..])
    ensures Holds(memory, chain[i]) && Holding(memory, chain[i + 1..])
  {
    assert chain[i..][0] == chain[i];
    var rest := chain[i + 1..];
    forall k | 0 <= k < |rest| ensures Holds(memory, rest[k]) {
      assert rest[k] == chain[i..][k + 1];
    }
  }

  /**
   The finalisers a shutdown leaves to the scheduler: closure and payload of each
   resource that falls due, in chain order.
   */
  ghost function Queued(
      memory: Memory, chain: seq<Stub>, t: Table, edges: multiset<nat>, born: multiset<nat>): seq<(int, int)>
    requires Holding(memory, chain) && Balanced(t, edges + multiset(Held(chain)), born)
    decreases |chain|
  {
    if chain == [] then []
    else
      var stub := chain[0];
      assert chain[0..] == chain;
      ReleaseNext(t, chain, 0, edges, born);
      TailHolds(memory, chain, 0);
      (if Finalises(t, stub.shared) then [(memory[stub.addr].closure, t.objects[stub.shared].payload)] else [])
      + Queued(memory, chain[1..], Release(t, stub.shared), edges, born)
  }

  /**
   The stub whose release is the last: it holds an unclaimed resource that
   nothing outside the chain holds, and no later stub of the chain does.
   */
  ghost predicate LastHold(chain: seq<Stub>, t: Table, edges: multiset<nat>)
    requires chain != []
  {
    var p := chain[0].shared;
    edges[p] == 0 && p !in Held(chain[1..]) && Unclaimed(t, p) == 1
  }

  /** The last holders, in chain order, told from the table before anything is released. */
  ghost function Due(chain: seq<Stub>, t: Table, edges: multiset<nat>): seq<Stub> {
    if chain == [] then []
    else (if LastHold(chain, t, edges) then [chain[0]] else []) + Due(chain[1..], t, edges)
  }

  /** Tables that agree about what a chain holds, but for the counts. */
  ghost predicate AgreeOn(t: Table, after: Table, chain: seq<Stub>) {
    forall p :: p in Held(chain) ==>
      && p in t.objects && p in after.objects
      && after.objects[p] == t.objects[p].(refcount := after.objects[p].refcount)
  }

  lemma {:induction false} DueAgrees(chain: seq<Stub>, t: Table, after: Table, edges: multiset<nat>)
    requires AgreeOn(t, after, chain)
    ensures Due(chain, t, edges) == Due(chain, after, edges)
    ensures forall i :: 0 <= i < |Due(chain, t, edges)| ==> Due(chain, t, edges)[i].shared in Held(chain)
  {
    if chain != [] {
      var rest := chain[1..];
      assert forall p :: p in Held(rest) ==> p in Held(chain) by {
        forall i | 0 <= i < |rest| ensures Held(rest)[i] in Held(chain) { assert Held(chain)[i + 1] == Held(rest)[i]; }
      }
      DueAgrees(rest, t, after, edges);
      assert Held(chain)[0] == chain[0].shared;
    }
  }

  /** A reference still owed keeps its object, and a release changes nothing of it but the count. */
  lemma ReleaseAgrees(t: Table, p: nat, chain: seq<Stub>, edges: multiset<nat>, born: multiset<nat>)
    requires p in t.objects && t.objects[p].refcount > 0
    requires Balanced(Release(t, p), edges + multiset(Held(chain)), born)
    ensures AgreeOn(t, Release(t, p), chain)
  {
    forall q | q in Held(chain)
      ensures q in t.objects && q in Release(t, p).objects
      ensures Release(t, p).objects[q] == t.objects[q].(refcount := Release(t, p).objects[q].refcount)
    {
      HeldIsLive(Release(t, p), edges + multiset(Held(chain)), born, q);
    }
  }

  /** Releasing the first stub finalises exactly when it is the last hold. */
  lemma FinalisesAtLastHold(chain: seq<Stub>, t: Table, edges: multiset<nat>, born: multiset<nat>)
    requires chain != [] && Balanced(t, edges + multiset(Held(chain)), born) && chain[0].shared in t.objects
    ensures Finalises(t, chain[0].shared) <==> LastHold(chain, t, edges)
  {
    var p := chain[0].shared;
    assert Held(chain) == [p] + Held(chain[1..]);
    HeldIsLive(t, edges + multiset(Held(chain)), born, p);
    assert t.objects[p].refcount == edges[p] + 1 + multiset(Held(chain[1..]))[p];
  }

  /**
   The finalisers queued are those of the last holders: the table records their
   resources, in chain order, and each is queued with its stub's closure and its
   resource's payload.
   */
  lemma {:induction false} QueuedMatchesFinalised(
    memory: Memory, chain: seq<Stub>, t: Table, edges: multiset<nat>, born: multiset<nat>)
    requires Holding(memory, chain) && Balanced(t, edges + multiset(Held(chain)), born)
    ensures
      var due := Due(chain, t, edges);
      && ReleaseAll(t, Held(chain), edges, born).finalised == t.finalised + Held(due)
      && QueuedFor(t, due, Queued(memory, chain, t, edges, born))
    decreases |chain|
  {
    if chain == [] {
      assert Held(chain) == [] && Held(Due(chain, t, edges)) == [];
    } else {
      var rest := chain[1..];
      assert chain[0..] == chain;
      ReleaseNext(t, chain, 0, edges, born);
      TailHolds(memory, chain, 0);
      var after := Release(t, chain[0].shared);
      QueuedMatchesFinalised(memory, rest, after, edges, born);
      DueWithout(chain, t, edges, born);
      FinalisesAtLastHold(chain, t, edges, born);
      QueueStep(memory, chain, t, after, edges, Due(rest, t, edges), Queued(memory, rest, after, edges, born));
    }
  }

  /** Who is due in the rest of the chain does not depend on the first release. */
  lemma DueWithout(chain: seq<Stub>, t: Table, edges: multiset<nat>, born: multiset<nat>)
    requires chain != [] && chain[0].shared in t.objects && t.objects[chain[0].shared].refcount > 0
    requires Balanced(Release(t, chain[0].shared), edges + multiset(Held(chain[1..])), born)
    ensures AgreeOn(t, Release(t, chain[0].shared), chain[1..])
    ensures Due(chain[1..], t, edges) == Due(chain[1..], Release(t, chain[0].shared), edges)
    ensures forall i :: 0 <= i < |Due(chain[1..], t, edges)| ==> Due(chain[1..], t, edges)[i].shared in Held(chain[1..])
  {
    ReleaseAgrees(t, chain[0].shared, chain[1..], edges, born);
    DueAgrees(chain[1..], t, Release(t, chain[0].shared), edges);
  }

  /** What the first stub adds to the record and to the queue. */
  lemma QueueStep(
    memory: Memory, chain: seq<Stub>, t: Table, after: Table, edges: multiset<nat>,
    due: seq<Stub>, queue: seq<(int, int)>)
    requires chain != [] && Holds(memory, chain[0]) && chain[0].shared in t.objects
    requires t.objects[chain[0].shared].refcount > 0
    requires after == Release(t, chain[0].shared) && AgreeOn(t, after, chain[1..]) && due == Due(chain[1..], t, edges)
    requires Finalises(t, chain[0].shared) <==> LastHold(chain, t, edges)
    requires QueuedFor(after, due, queue)
    requires forall i :: 0 <= i < |due| ==> due[i].shared in Held(chain[1..])
    ensures after.finalised + Held(due) == t.finalised + Held(Due(chain, t, edges))
    ensures
      var stub := chain[0];
      QueuedFor(t, Due(chain, t, edges),
                (if Finalises(t, stub.shared)
                 then [(memory[stub.addr].closure, t.objects[stub.shared].payload)]
                 else [])
                + queue)
  {
    QueueKept(t, after, chain[1..], due, queue);
    if Finalises(t, chain[0].shared) {
      HeldInFront(chain[0], due);
    } else {
      assert Due(chain, t, edges) == due && [] + queue == queue;
    }
  }

  /** Closure and payload of each stub's resource, stub by stub. */
  ghost predicate QueuedFor(t: Table, due: seq<Stub>, queue: seq<(int, int)>) {
    && |queue| == |due|
    && forall i :: 0 <= i < |due| ==>
      due[i].shared in t.objects && queue[i] == (due[i].closure, t.objects[due[i].shared].payload)
  }

  lemma QueueKept(t: Table, after: Table, chain: seq<Stub>, due: seq<Stub>, queue: seq<(int, int)>)
    requires AgreeOn(t, after, chain) && QueuedFor(after, due, queue)
    requires forall i :: 0 <= i < |due| ==> due[i].shared in Held(chain)
    ensures QueuedFor(t, due, queue)
  {}

  ghost predicate Deferring(
    memory: Memory, cur: nat, t: Table, chain: seq<Stub>, i: nat, edges: multiset<nat>,
    born: multiset<nat>, goal: Table)
  {
    && i <= |chain| && Chained(memory, cur, chain[i..]) && Holding(memory, chain[i..])
    && Balanced(t, edges + multiset(Held(chain[i..])), born)
    && ReleaseAll(t, Held(chain[i..]), edges, born) == goal
  }

  lemma DeferNext(
    memory: Memory, cur: nat, t: Table, chain: seq<Stub>, i: nat, edges: multiset<nat>,
    born: multiset<nat>, goal: Table)
    requires Deferring(memory, cur, t, chain, i, edges, born, goal) && cur != 0
    ensures i < |chain| && cur - cur % TAG_SIZE == chain[i].addr && Holds(memory, chain[i])
    ensures chain[i].shared in t.objects && t.objects[chain[i].shared].refcount > 0
    ensures
      var stub := chain[i];
      var after := Release(t, stub.shared);
      && Deferring(memory, memory[stub.addr].next, after, chain, i + 1, edges, born, goal)
      && Queued(memory, chain[i..], t, edges, born) ==
           (if Finalises(t, stub.shared) then [(memory[stub.addr].closure, t.objects[stub.shared].payload)] else [])
           + Queued(memory, chain[i + 1..], after, edges, born)
  {
    assert i < |chain|;
    LinkDecodes(memory, cur, chain[i..]);
    ReleaseNext(t, chain, i, edges, born);
    TailHolds(memory, chain, i);
  }
}
