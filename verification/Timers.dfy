/** The timer wheel: one vector of pending entries, ascending by deadline and then by id. */
module Timers {

  datatype Entry = Entry(id: nat, deadline: nat, pid: nat)

  predicate Earlier(a: Entry, b: Entry) {
    a.deadline < b.deadline || (a.deadline == b.deadline && a.id < b.id)
  }

  ghost predicate Ascending(es: seq<Entry>) {
    forall i, j :: 0 <= i < j < |es| ==> Earlier(es[i], es[j])
  }

  ghost predicate DistinctIds(es: seq<Entry>) {
    forall i, j :: 0 <= i < j < |es| ==> es[i].id != es[j].id
  }

  ghost predicate IdsBelow(es: seq<Entry>, n: nat) {
    forall i :: 0 <= i < |es| ==> es[i].id < n
  }

  /** The vector with one more entry, in its place. */
  function Inserted(es: seq<Entry>, e: Entry): seq<Entry> {
    if es == [] || Earlier(e, es[0]) then [e] + es else [es[0]] + Inserted(es[1..], e)
  }

  /** The vector without the first entry of an id. */
  function Cancelled(es: seq<Entry>, id: nat): seq<Entry> {
    if es == [] then [] else if es[0].id == id then es[1..] else [es[0]] + Cancelled(es[1..], id)
  }

  /** How many leading entries are due. */
  function DueCount(es: seq<Entry>, now: nat): (n: nat)
    ensures n <= |es|
    ensures forall i :: 0 <= i < n ==> es[i].deadline <= now
    ensures n < |es| ==> es[n].deadline > now
  {
    if es == [] || es[0].deadline > now then 0
    else
      var n := DueCount(es[1..], now);
      assert forall i :: 1 <= i < n + 1 ==> es[i] == es[1..][i - 1];
      n + 1
  }

  /** On an ascending vector the due prefix is every due entry. */
  lemma DueIsExact(es: seq<Entry>, now: nat, e: Entry)
    requires Ascending(es) && e in es
    ensures e in es[..DueCount(es, now)] <==> e.deadline <= now
    ensures e in es[DueCount(es, now)..] <==> e.deadline > now
  {
    var n := DueCount(es, now);
    LateAfter(es, n, now);
    var i :| 0 <= i < |es| && es[i] == e;
    if i < n {
      assert es[..n][i] == e;
    } else {
      assert es[n..][i - n] == e;
    }
  }

  /** Past the first entry that is not due, none is. */
  lemma LateAfter(es: seq<Entry>, n: nat, now: nat)
    requires Ascending(es) && n <= |es| && (n < |es| ==> es[n].deadline > now)
    ensures forall i :: n <= i < |es| ==> es[i].deadline > now
  {
    forall i | n <= i < |es| ensures es[i].deadline > now { assert n < i ==> Earlier(es[n], es[i]); }
  }

  /** An entry is in the due prefix exactly when it is due. */
  lemma DueAt(es: seq<Entry>, now: nat, i: nat)
    requires Ascending(es) && i < |es|
    ensures i < DueCount(es, now) <==> es[i].deadline <= now
  {
    LateAfter(es, DueCount(es, now), now);
  }

  lemma InsertedLater(es: seq<Entry>, e: Entry, pos: nat)
    requires 0 < pos <= |es|
    ensures [es[0]] + (es[1..][..pos - 1] + [e] + es[1..][pos - 1..]) == es[..pos] + [e] + es[pos..]
  {
    assert es[1..][pos - 1..] == es[pos..];
    assert es[..pos] == [es[0]] + es[1..][..pos - 1];
  }

  lemma {:induction false} InsertedAt(es: seq<Entry>, e: Entry, pos: nat)
    requires pos <= |es|
    requires forall i :: 0 <= i < pos ==> !Earlier(e, es[i])
    requires pos < |es| ==> Earlier(e, es[pos])
    ensures Inserted(es, e) == es[..pos] + [e] + es[pos..]
  {
    if pos > 0 {
      assert !Earlier(e, es[0]);
      InsertedAt(es[1..], e, pos - 1);
      InsertedLater(es, e, pos);
    } else {
      assert es[..0] + [e] + es[0..] == [e] + es;
    }
  }

  /** The vector without the entry at a position; nothing is removed past the end. */
  function Without(es: seq<Entry>, pos: nat): seq<Entry> {
    if pos < |es| then es[..pos] + es[pos + 1..] else es
  }

  lemma WithoutTail(es: seq<Entry>, pos: nat)
    requires 0 < pos <= |es|
    ensures Without(es, pos) == [es[0]] + Without(es[1..], pos - 1)
  {
    if pos < |es| {
      assert es[1..][..pos - 1] == es[1..pos];
      assert es[..pos] == [es[0]] + es[1..pos];
      assert es[pos + 1..] == es[1..][pos..];
    }
  }

  lemma {:induction false} CancelledAt(es: seq<Entry>, id: nat, pos: nat)
    requires pos <= |es| && forall i :: 0 <= i < pos ==> es[i].id != id
    requires pos < |es| ==> es[pos].id == id
    ensures Cancelled(es, id) == Without(es, pos)
  {
    if pos > 0 {
      WithoutTail(es, pos);
      CancelledAt(es[1..], id, pos - 1);
    }
  }

  /** Where an entry goes: after everything not later than it. */
  ghost function PlaceOf(es: seq<Entry>, e: Entry): (pos: nat)
    requires Ascending(es)
    ensures pos <= |es| && Inserted(es, e) == es[..pos] + [e] + es[pos..]
    ensures forall i :: 0 <= i < pos ==> !Earlier(e, es[i])
    ensures forall i :: pos <= i < |es| ==> Earlier(e, es[i])
  {
    if es == [] then 0
    else if Earlier(e, es[0]) then
      assert es[..0] + [e] + es[0..] == [e] + es; 0
    else
      var pos := PlaceOf(es[1..], e);
      InsertedLater(es, e, pos + 1);
      pos + 1
  }

  /** Scheduling keeps the order and adds exactly the new entry. */
  lemma InsertedKeeps(es: seq<Entry>, e: Entry)
    requires Ascending(es) && DistinctIds(es) && IdsBelow(es, e.id)
    ensures Ascending(Inserted(es, e)) && DistinctIds(Inserted(es, e)) && IdsBelow(Inserted(es, e), e.id + 1)
    ensures forall x :: x in Inserted(es, e) <==> x in es || x == e
  {
    var pos := PlaceOf(es, e);
    var all := es[..pos] + [e] + es[pos..];
    forall i, j | 0 <= i < j < |all|
      ensures Earlier(all[i], all[j]) && all[i].id != all[j].id
    {
      SplicedPair(es, e, pos, i, j);
    }
    InsertedHas(es, e, pos);
  }

  lemma SplicedPair(es: seq<Entry>, e: Entry, pos: nat, i: nat, j: nat)
    requires Ascending(es) && DistinctIds(es) && IdsBelow(es, e.id) && pos <= |es| && i < j <= |es|
    requires forall i :: 0 <= i < pos ==> !Earlier(e, es[i])
    requires forall i :: pos <= i < |es| ==> Earlier(e, es[i])
    ensures
      var all := es[..pos] + [e] + es[pos..];
      Earlier(all[i], all[j]) && all[i].id != all[j].id
  {
    var all := es[..pos] + [e] + es[pos..];
    assert all[i] == if i < pos then es[i] else if i == pos then e else es[i - 1];
    assert all[j] == if j < pos then es[j] else if j == pos then e else es[j - 1];
  }

  lemma InsertedHas(es: seq<Entry>, e: Entry, pos: nat)
    requires pos <= |es| && IdsBelow(es, e.id)
    ensures forall x :: x in es[..pos] + [e] + es[pos..] <==> x in es || x == e
    ensures IdsBelow(es[..pos] + [e] + es[pos..], e.id + 1)
  {
    var all := es[..pos] + [e] + es[pos..];
    forall x
      ensures x in all <==> x in es || x == e
    {
      assert es == es[..pos] + es[pos..];
    }
    forall i | 0 <= i < |all| ensures all[i].id < e.id + 1 {
      assert all[i] in all;
    }
  }

  /** Cancelling removes the id's entry and nothing else. */
  lemma CancelledKeeps(es: seq<Entry>, id: nat)
    requires Ascending(es) && DistinctIds(es)
    ensures Ascending(Cancelled(es, id)) && DistinctIds(Cancelled(es, id))
    ensures forall n :: IdsBelow(es, n) ==> IdsBelow(Cancelled(es, id), n)
    ensures forall x :: x in Cancelled(es, id) <==> x in es && x.id != id
  {
    var pos := PlaceOfId(es, id);
    CancelledAt(es, id, pos);
    if pos < |es| {
      var left := Without(es, pos);
      forall i, j | 0 <= i < j < |left|
        ensures Earlier(left[i], left[j]) && left[i].id != left[j].id
      {
        WithoutPair(es, pos, i, j);
      }
      forall x ensures x in left <==> x in es && x.id != id { WithoutHas(es, pos, x); }
    }
  }

  lemma WithoutPair(es: seq<Entry>, pos: nat, i: nat, j: nat)
    requires Ascending(es) && DistinctIds(es) && pos < |es| && i < j < |es| - 1
    ensures Earlier(Without(es, pos)[i], Without(es, pos)[j]) && Without(es, pos)[i].id != Without(es, pos)[j].id
  {
    var left := Without(es, pos);
    assert left[i] == if i < pos then es[i] else es[i + 1];
    assert left[j] == if j < pos then es[j] else es[j + 1];
  }

  lemma WithoutHas(es: seq<Entry>, pos: nat, x: Entry)
    requires DistinctIds(es) && pos < |es|
    ensures x in Without(es, pos) <==> x in es && x.id != es[pos].id
  {
    var left := Without(es, pos);
    if x in left {
      var i :| 0 <= i < |left| && left[i] == x;
      assert x == if i < pos then es[i] else es[i + 1];
    }
    if x in es && x.id != es[pos].id {
      var i :| 0 <= i < |es| && es[i] == x;
      assert x == if i < pos then left[i] else left[i - 1];
    }
  }

  ghost function PlaceOfId(es: seq<Entry>, id: nat): (pos: nat)
    ensures pos <= |es| && forall i :: 0 <= i < pos ==> es[i].id != id
    ensures pos < |es| ==> es[pos].id == id
  {
    if es == [] || es[0].id == id then 0
    else
      var pos := PlaceOfId(es[1..], id);
      assert forall i :: 1 <= i < pos + 1 ==> es[i] == es[1..][i - 1];
      pos + 1
  }

  class TimerWheel {
    var entries: seq<Entry>
    var nextId: nat

    ghost predicate Valid()
      reads this
    {
      Ascending(entries) && DistinctIds(entries) && IdsBelow(entries, nextId)
    }

    constructor ()
      ensures Valid() && entries == [] && nextId == 1
    {
      entries, nextId := [], 1;
    }

    /** A fresh id, and its entry in deadline order. */
    method Schedule(pid: nat, deadline: nat) returns (id: nat)
      requires Valid()
      modifies this
      ensures Valid() && id == old(nextId) && nextId == id + 1
      ensures entries == Inserted(old(entries), Entry(id, deadline, pid))
    {
      id := nextId;
      nextId := nextId + 1;
      var entry := Entry(id, deadline, pid);
      var lo, hi := 0, |entries|;
      while lo < hi
        invariant 0 <= lo <= hi <= |entries|
        invariant forall i :: 0 <= i < lo ==> Earlier(entries[i], entry)
        invariant forall i :: hi <= i < |entries| ==> Earlier(entry, entries[i])
      {
        var mid := (lo + hi) / 2;
        assert entries[mid].id != entry.id;
        if Earlier(entries[mid], entry) {
          lo := mid + 1;
        } else {
          hi := mid;
        }
      }
      InsertedAt(entries, entry, lo);
      InsertedKeeps(entries, entry);
      entries := entries[..lo] + [entry] + entries[lo..];
    }

    method Cancel(id: nat)
      requires Valid()
      modifies `entries
      ensures Valid() && entries == Cancelled(old(entries), id)
    {
      var pos := 0;
      while pos < |entries| && entries[pos].id != id
        invariant pos <= |entries| && forall i :: 0 <= i < pos ==> entries[i].id != id
      {
        pos := pos + 1;
      }
      CancelledAt(entries, id, pos);
      CancelledKeeps(entries, id);
      if pos < |entries| {
        entries := entries[..pos] + entries[pos + 1..];
      }
    }

    /** Take every due entry, in deadline order. */
    method DrainExpired(now: nat) returns (due: seq<Entry>)
      requires Valid()
      modifies `entries
      ensures Valid()
      ensures due == old(entries)[..DueCount(old(entries), now)]
      ensures entries == old(entries)[DueCount(old(entries), now)..]
      ensures forall e :: e in old(entries) ==>
        (e in due <==> e.deadline <= now) && (e in entries <==> e.deadline > now)
    {
      var cut := 0;
      while cut < |entries| && entries[cut].deadline <= now
        invariant cut <= |entries| && forall i :: 0 <= i < cut ==> entries[i].deadline <= now
      {
        cut := cut + 1;
      }
      assert cut == DueCount(entries, now);
      forall e | e in entries
        ensures e in entries[..cut] <==> e.deadline <= now
        ensures e in entries[cut..] <==> e.deadline > now
      {
        DueIsExact(entries, now, e);
      }
      due := entries[..cut];
      entries := entries[cut..];
    }
  }
}
