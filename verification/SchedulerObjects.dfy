/** The scheduler's objects, changed in place: each method is one step of the step machine. */
module SchedulerObjects {
  import opened Options
  import opened Receive
  import opened Timers
  import opened Scheduler

  lemma Regrouped(scanned: seq<Word>, rest: seq<Word>)
    requires rest != []
    ensures scanned + [rest[0]] + rest[1..] == scanned + rest
  {}

  /** The first accepted message is where the scan stopped. */
  lemma FoundHere(park: Park, all: seq<Word>, scanned: seq<Word>, msg: Word, rest: seq<Word>)
    requires scanned + [msg] + rest == all && RejectsAll(park, scanned) && !Rejects(park, msg)
    ensures |scanned| < |all| && all[|scanned|] == msg && FirstHit(park, all) == |scanned|
    ensures scanned + rest == all[..|scanned|] + all[|scanned| + 1..]
  {
    assert all[..|scanned|] == scanned && all[|scanned| + 1..] == rest;
    forall k | 0 <= k < |scanned| ensures Rejects(park, all[k]) { assert all[k] == scanned[k]; }
    FirstHitIs(park, all, |scanned|);
  }

  class Task {
    const pid: nat
    var mailbox: seq<Word>
    var wait: Option<Park>
    var runnable: Option<Closure>
    var status: Status
    ghost var arrived: seq<Word>
    ghost var consumed: seq<Word>

    ghost function View(): Process
      reads this
    {
      Process(mailbox, wait, runnable, status, arrived, consumed)
    }

    /** A spawned process: its entry thunk is runnable. */
    constructor (pid: nat, thunk: Closure)
      ensures this.pid == pid && View() == Newborn(thunk)
    {
      this.pid := pid;
      mailbox, wait, runnable, status, arrived, consumed := [], None, Some(thunk), Ready, [], [];
    }

    /** End the wait with a matched clause: cancel its timer and make the outcome runnable. */
    method Satisfy(clause: nat, bound: seq<Word>, wheel: TimerWheel, ghost msg: Word)
      requires wait.Some? && WellFormed(wait.value) && TryMatch(wait.value, msg) == Some((clause, bound))
      requires wheel.Valid()
      modifies this, wheel`entries
      ensures View() == Satisfied(old(View()), msg)
      ensures wheel.Valid() && wheel.entries == CancelTimer(old(wheel.entries), TimerOf(old(View())))
    {
      var template, timer := wait.value.clauseBodies[clause], wait.value.afterTimer;
      var cont := MaterializeOutcome(template, bound);
      wait := None;
      if timer.Some? {
        wheel.Cancel(timer.value);
      }
      runnable := Some(cont);
      consumed := consumed + [msg];
    }

    /** Sender-side probe: hit the waiting matcher, or join the mailbox. */
    method ProbeSender(msg: Word, wheel: TimerWheel) returns (hit: bool)
      requires Sound(View()) && wheel.Valid()
      modifies this, wheel`entries
      ensures (View(), hit) == Probe(old(View()), msg)
      ensures wheel.Valid()
      ensures wheel.entries == if hit then CancelTimer(old(wheel.entries), TimerOf(old(View()))) else old(wheel.entries)
    {
      arrived := arrived + [msg];
      hit := false;
      if wait.Some? {
        var found := TryMatch(wait.value, msg);
        if found.Some? {
          var (clause, bound) := found.value;
          Satisfy(clause, bound, wheel, msg);
          status := Ready;
          return true;
        }
      }
      mailbox := mailbox + [msg];
    }

    /** An arrival at this process; tells whether to queue it. */
    method Deliver(msg: Word, wheel: TimerWheel) returns (wake: bool)
      requires Sound(View()) && wheel.Valid()
      modifies this, wheel`entries
      ensures (View(), wake) == Delivered(old(View()), msg)
      ensures wheel.Valid()
      ensures wheel.entries ==
        if wake then CancelTimer(old(wheel.entries), TimerOf(old(View()))) else old(wheel.entries)
    {
      wake := false;
      if wait.Some? {
        wake := ProbeSender(msg, wheel);
      } else {
        mailbox := mailbox + [msg];
        arrived := arrived + [msg];
        if status == Blocked {
          status := Ready;
          wake := true;
        }
      }
    }

    /** Pop messages until one matches, then put the rejected ones back in front, last first. */
    method SpliceFirstHit() returns (found: Option<(nat, seq<Word>)>, ghost i: nat)
      requires wait.Some?
      modifies `mailbox
      ensures i == FirstHit(wait.value, old(mailbox))
      ensures i == |old(mailbox)| ==> found.None? && mailbox == old(mailbox)
      ensures i < |old(mailbox)| ==> found == TryMatch(wait.value, old(mailbox)[i])
      ensures i < |old(mailbox)| ==> found.Some? && mailbox == old(mailbox)[..i] + old(mailbox)[i + 1..]
    {
      found := None;
      var scanned: seq<Word> := [];
      ghost var all := mailbox;
      ghost var msg := 0;
      while mailbox != [] && found.None?
        invariant found.None? ==> scanned + mailbox == all
        invariant found.Some? ==> scanned + [msg] + mailbox == all && TryMatch(wait.value, msg) == found
        invariant RejectsAll(wait.value, scanned)
        decreases |mailbox|
      {
        Regrouped(scanned, mailbox);
        var head := mailbox[0];
        mailbox := mailbox[1..];
        var tried := TryMatch(wait.value, head);
        if tried.Some? {
          found := tried;
          msg := head;
        } else {
          scanned := scanned + [head];
        }
      }
      i := |scanned|;
      if found.Some? {
        FoundHere(wait.value, all, scanned, msg, mailbox);
      } else {
        assert scanned == all;
        FirstHitIs(wait.value, all, i);
      }
      PutBack(scanned);
    }

    /** Restore messages in front of the mailbox, last first. */
    method PutBack(rejected: seq<Word>)
      modifies `mailbox
      ensures mailbox == rejected + old(mailbox)
    {
      var scanned := rejected;
      while scanned != []
        invariant scanned + mailbox == rejected + old(mailbox)
        decreases |scanned|
      {
        mailbox := [scanned[|scanned| - 1]] + mailbox;
        scanned := scanned[..|scanned| - 1];
      }
    }

    /** Scan the mailbox in arrival order; the earliest accepted message ends the wait. */
    method InitialScan(wheel: TimerWheel) returns (outcome: ScanOutcome)
      requires Sound(View()) && wheel.Valid()
      modifies this, wheel`entries
      ensures (View(), outcome) == Scan(old(View()))
      ensures wheel.Valid()
      ensures wheel.entries ==
        if outcome.Hit? then CancelTimer(old(wheel.entries), TimerOf(old(View()))) else old(wheel.entries)
    {
      if wait.None? || mailbox == [] {
        return NotApplicable;
      }
      var found, i := SpliceFirstHit();
      if found.Some? {
        var (clause, bound) := found.value;
        Satisfy(clause, bound, wheel, old(mailbox)[i]);
        outcome := Hit;
      } else {
        status := Blocked;
        outcome := Miss;
      }
    }

    /** Resume the after-continuation if the wait still holds this timer. */
    method FireAfterTimer(id: nat) returns (woke: bool)
      modifies this
      ensures (View(), woke) == Fire(old(View()), id)
    {
      if wait.None? || wait.value.afterTimer != Some(id) {
        return false;
      }
      var after := wait.value.afterCont;
      wait := None;
      runnable := after;
      status := Ready;
      woke := true;
    }

    /** Park on a receive: schedule its timer, record the wait, ask for a scan if mail is waiting. */
    method ParkMatched(park: Park, deadline: Option<nat>, wheel: TimerWheel)
      requires Promised(ParkOn(park, deadline)) && wheel.Valid()
      modifies this, wheel
      ensures wheel.Valid()
      ensures View() == old(View()).(
        wait := Some(park.(afterTimer := if deadline.Some? then Some(old(wheel.nextId)) else None)),
        status := if old(mailbox) == [] then Blocked else Ready)
      ensures deadline.None? ==> wheel.entries == old(wheel.entries) && wheel.nextId == old(wheel.nextId)
      ensures deadline.Some? ==>
        && wheel.nextId == old(wheel.nextId) + 1
        && wheel.entries == Inserted(old(wheel.entries), Entry(old(wheel.nextId), deadline.value, pid))
    {
      var timer: Option<nat> := None;
      if deadline.Some? {
        var id := wheel.Schedule(pid, deadline.value);
        timer := Some(id);
      }
      wait := Some(park.(afterTimer := timer));
      status := if mailbox == [] then Blocked else Ready;
    }
  }
}
