/** Every run of the scheduler keeps its invariant: no wake-up is lost, no message and no timer leaks. */
module SchedulerRuns {
  import opened Options
  import opened Receive
  import opened Timers
  import opened Scheduler

  // -------------------------------------------------- one process in a quantum

  /** A popped process that has a closure to resume becomes active; its wait, if any, is over. */
  lemma ScannedIsActive(p: Process, q: Process)
    requires Sound(p) && Conserves(p) && Settled(p, true) && q == Scan(p.(status := Running)).0
    requires !Scan(p.(status := Running)).1.Miss? && q.runnable.Some?
    ensures Active(q.(runnable := None)) && Conserves(q.(runnable := None)) && TimerOf(q) == None
    ensures Scan(p.(status := Running)).1.NotApplicable? ==> TimerOf(p) == None
  {
    assert Conserves(p.(status := Running));
    ScanConserves(p.(status := Running));
  }

  /** A popped process with nothing to resume is settled without the queue. */
  lemma ScannedIsIdle(p: Process, q: Process, outcome: ScanOutcome)
    requires Sound(p) && Conserves(p) && Settled(p, true) && (q, outcome) == Scan(p.(status := Running))
    requires outcome.Miss? || q.runnable.None?
    ensures !outcome.Hit? && TimerOf(q) == TimerOf(p) && Sound(q) && Conserves(q)
    ensures outcome.Miss? ==> Settled(q, false)
    ensures !outcome.Miss? ==>
      if q.wait.None? then Settled(q.(status := Exited), false) else Settled(q, false)
    ensures !outcome.Miss? ==> q.status.Running?
  {
    assert Conserves(p.(status := Running));
    ScanConserves(p.(status := Running));
  }

  /** Settled without the queue is settled with it. */
  lemma QueueOnlyHelps(p: Process, queued: bool)
    requires Settled(p, false)
    ensures Settled(p, queued)
  {}

  // ------------------------------------------------------------ whole quanta

  lemma FinishByHalt(s: State, pid: nat)
    requires Inv(s, Some(pid)) && AllSound(s)
    ensures Inv(Settle(Leave(s, pid, Halt), pid), None)
  {
    assert TaskOk(s, Some(pid), pid);
    var q := s.tasks[pid].(status := Exited);
    TimersKept(s.tasks, s.entries, s.nextId, pid, q);
    PutKeeps(s, Some(pid), pid, q, s.queue, s.entries, s.nextId, None);
  }

  lemma FinishByYield(s: State, pid: nat, closure: Closure)
    requires Inv(s, Some(pid)) && AllSound(s)
    ensures Inv(Settle(Leave(s, pid, Yield(closure)), pid), None)
  {
    assert TaskOk(s, Some(pid), pid);
    var q := s.tasks[pid].(runnable := Some(closure), status := Ready);
    TimersKept(s.tasks, s.entries, s.nextId, pid, q);
    PutKeeps(s, Some(pid), pid, q, s.queue + [pid], s.entries, s.nextId, None);
    assert Settle(Leave(s, pid, Yield(closure)), pid).tasks == s.tasks[pid := q];
  }

  lemma FinishByPark(s: State, pid: nat, park: Park, deadline: Option<nat>)
    requires Inv(s, Some(pid)) && AllSound(s) && Promised(ParkOn(park, deadline))
    ensures Inv(Settle(Leave(s, pid, ParkOn(park, deadline)), pid), None)
  {
    assert TaskOk(s, Some(pid), pid);
    var p := s.tasks[pid];
    var r := Settle(Leave(s, pid, ParkOn(park, deadline)), pid);
    var held := if deadline.None? then park else park.(afterTimer := Some(s.nextId));
    var q := p.(wait := Some(held), status := if p.mailbox == [] then Blocked else Ready);
    if deadline.None? {
      TimersKept(s.tasks, s.entries, s.nextId, pid, q);
    } else {
      TimersAdded(s.tasks, s.entries, s.nextId, pid, q, deadline.value);
    }
    PutKeeps(s, Some(pid), pid, q, r.queue, r.entries, r.nextId, None);
    assert r == State(s.tasks[pid := q], r.queue, r.entries, r.nextId, s.nextPid);
  }

  /** A quantum's end leaves its process exited, queued with a closure, or waiting. */
  lemma FinishKeeps(s: State, pid: nat, ending: Ending)
    requires Inv(s, Some(pid)) && AllSound(s) && Promised(ending)
    ensures Inv(Settle(Leave(s, pid, ending), pid), None)
  {
    match ending
    case Halt => FinishByHalt(s, pid);
    case Yield(closure) => FinishByYield(s, pid, closure);
    case ParkOn(park, deadline) => FinishByPark(s, pid, park, deadline);
  }

  lemma PopKeepsOthers(queue: seq<nat>, pid: nat)
    requires queue != [] && pid in queue && pid != queue[0]
    ensures pid in queue[1..]
  {
    var i :| 0 <= i < |queue| && queue[i] == pid;
    assert queue[1..][i - 1] == pid;
  }

  /** Popping a pid with a closure to resume makes it the active process. */
  lemma BeginActive(s: State)
    requires Inv(s, None) && AllSound(s) && s.queue != []
    requires !Begin(s).1.Miss? && Begin(s).0.tasks[s.queue[0]].runnable.Some?
    ensures
      var begun := Begin(s).0;
      Inv(Put(begun, s.queue[0], begun.tasks[s.queue[0]].(runnable := None)), Some(s.queue[0]))
  {
    var pid := s.queue[0];
    var (begun, outcome) := Begin(s);
    var q := begun.tasks[pid].(runnable := None);
    assert TaskOk(s, None, pid);
    ScannedIsActive(s.tasks[pid], begun.tasks[pid]);
    if outcome.Hit? {
      TimersDropped(s.tasks, s.entries, s.nextId, pid, q);
    } else {
      TimersKept(s.tasks, s.entries, s.nextId, pid, q);
    }
    PoppedActive(s, q, begun.entries);
    assert Put(begun, pid, q).tasks == s.tasks[pid := q];
  }

  /** The popped process, active, goes back into the table. */
  lemma PoppedActive(s: State, q: Process, es: seq<Entry>)
    requires Inv(s, None) && s.queue != [] && Sound(q) && Conserves(q) && Active(q)
    requires TimersMatch(s.tasks[s.queue[0] := q], es, s.nextId)
    ensures Inv(State(s.tasks[s.queue[0] := q], s.queue[1..], es, s.nextId, s.nextPid), Some(s.queue[0]))
  {
    var pid := s.queue[0];
    forall p | p in s.tasks && p != pid && p in s.queue ensures p in s.queue[1..] { PopKeepsOthers(s.queue, p); }
    PutKeeps(s, None, pid, q, s.queue[1..], es, s.nextId, Some(pid));
  }

  /** The popped process, settled without the queue, goes back into the table. */
  lemma PoppedKeeps(s: State, q: Process)
    requires Inv(s, None) && s.queue != []
    requires Sound(q) && Conserves(q) && Settled(q, false) && TimerOf(q) == TimerOf(s.tasks[s.queue[0]])
    ensures Inv(Put(s, s.queue[0], q).(queue := s.queue[1..]), None)
  {
    var pid := s.queue[0];
    forall p | p in s.tasks && p != pid && p in s.queue ensures p in s.queue[1..] { PopKeepsOthers(s.queue, p); }
    QueueOnlyHelps(q, pid in s.queue[1..]);
    TimersKept(s.tasks, s.entries, s.nextId, pid, q);
    PutKeeps(s, None, pid, q, s.queue[1..], s.entries, s.nextId, None);
  }

  /** A pop that ends no wait only pops the pid and marks its process. */
  lemma BegunWithoutHit(s: State)
    requires AllSound(s) && s.queue != [] && s.queue[0] in s.tasks && !Begin(s).1.Hit?
    ensures
      var q := Scan(s.tasks[s.queue[0]].(status := Running)).0;
      Begin(s) == (Put(s, s.queue[0], q).(queue := s.queue[1..]), Scan(s.tasks[s.queue[0]].(status := Running)).1)
  {}

  /** A scan that misses leaves its process blocked, and settled without the queue. */
  lemma BeginMiss(s: State)
    requires Inv(s, None) && AllSound(s) && s.queue != [] && Begin(s).1.Miss?
    ensures Inv(Begin(s).0, None)
  {
    BegunWithoutHit(s);
    assert TaskOk(s, None, s.queue[0]);
    var (q, outcome) := Scan(s.tasks[s.queue[0]].(status := Running));
    ScannedIsIdle(s.tasks[s.queue[0]], q, outcome);
    PoppedKeeps(s, q);
  }

  /** A stale duplicate finds nothing to resume, and its process is as settled as before. */
  lemma BeginStale(s: State)
    requires Inv(s, None) && AllSound(s) && s.queue != []
    requires !Begin(s).1.Miss? && Begin(s).0.tasks[s.queue[0]].runnable.None?
    ensures Inv(Settle(Begin(s).0, s.queue[0]), None)
  {
    var pid := s.queue[0];
    assert TaskOk(s, None, pid);
    var (q, outcome) := Scan(s.tasks[pid].(status := Running));
    ScannedIsIdle(s.tasks[pid], q, outcome);
    BegunWithoutHit(s);
    StaleKeeps(s, Begin(s).0, q);
  }

  lemma StaleKeeps(s: State, begun: State, q: Process)
    requires Inv(s, None) && s.queue != [] && begun == Put(s, s.queue[0], q).(queue := s.queue[1..]) && AllSound(begun)
    requires Sound(q) && Conserves(q) && TimerOf(q) == TimerOf(s.tasks[s.queue[0]]) && q.status.Running?
    requires q.runnable.None?
    requires if q.wait.None? then Settled(q.(status := Exited), false) else Settled(q, false)
    ensures Inv(Settle(begun, s.queue[0]), None)
  {
    var pid := s.queue[0];
    SettledStale(begun, pid);
    if q.wait.None? {
      PoppedKeeps(s, q.(status := Exited));
      assert begun.tasks[pid := q.(status := Exited)] == s.tasks[pid := q.(status := Exited)];
    } else {
      PoppedKeeps(s, q);
    }
  }

  lemma SettledStale(s: State, pid: nat)
    requires AllSound(s) && pid in s.tasks && s.tasks[pid].status.Running? && s.tasks[pid].runnable.None?
    ensures Settle(s, pid) == if s.tasks[pid].wait.None? then Put(s, pid, s.tasks[pid].(status := Exited)) else s
  {}

  lemma DispatchKeeps(s: State, quantum: Quantum)
    requires Inv(s, None) && AllSound(s) && s.queue != [] && Promised(quantum.ending)
    ensures Inv(Dispatch(s, quantum), None)
  {
    var pid := s.queue[0];
    var (begun, outcome) := Begin(s);
    if outcome.Miss? {
      BeginMiss(s);
    } else if begun.tasks[pid].runnable.None? {
      BeginStale(s);
    } else {
      BeginActive(s);
      var taken := Put(begun, pid, begun.tasks[pid].(runnable := None));
      ActsKeep(taken, Some(pid), quantum.actions);
      FinishKeeps(Acts(taken, quantum.actions), pid, quantum.ending);
    }
  }

  /** Only the process of the quantum is touched by its ending. */
  ghost predicate OthersKept(s: State, r: State, pid: nat) {
    && pid in r.tasks && r.tasks.Keys == s.tasks.Keys
    && forall other :: other in s.tasks && other != pid ==> r.tasks[other] == s.tasks[other]
  }

  /** A quantum that halts leaves its process exited. */
  lemma HaltExits(s: State, pid: nat)
    requires AllSound(s) && pid in s.tasks && Active(s.tasks[pid])
    ensures
      var r := Settle(Leave(s, pid, Halt), pid);
      OthersKept(s, r, pid) && r.tasks[pid] == s.tasks[pid].(status := Exited) && r.queue == s.queue
  {}

  /** One that yields leaves its process with the closure yielded, at the back of the queue. */
  lemma YieldRequeues(s: State, pid: nat, closure: Closure)
    requires AllSound(s) && pid in s.tasks && Active(s.tasks[pid])
    ensures
      var r := Settle(Leave(s, pid, Yield(closure)), pid);
      && OthersKept(s, r, pid) && r.queue == s.queue + [pid]
      && r.tasks[pid] == s.tasks[pid].(runnable := Some(closure), status := Ready)
  {}

  /** One that parks leaves its process waiting with that record, queued only if mail is there to scan. */
  lemma ParkWaits(s: State, pid: nat, park: Park, deadline: Option<nat>)
    requires AllSound(s) && pid in s.tasks && Active(s.tasks[pid]) && Promised(ParkOn(park, deadline))
    ensures
      var p, r := s.tasks[pid], Settle(Leave(s, pid, ParkOn(park, deadline)), pid);
      && OthersKept(s, r, pid) && r.tasks[pid].runnable.None? && r.tasks[pid].mailbox == p.mailbox
      && r.tasks[pid].wait == Some(if deadline.None? then park else park.(afterTimer := Some(s.nextId)))
      && r.queue == if p.mailbox == [] then s.queue else s.queue + [pid]
  {}

  /** A spawned process is new, runs its closure, and waits its turn at the back of the queue. */
  lemma SpawnedRuns(s: State, closure: Closure)
    requires AllSound(s)
    ensures
      var pid, r := s.nextPid, Spawn(s, closure);
      && pid in r.tasks && r.tasks[pid].runnable == Some(closure) && r.tasks[pid].wait.None?
      && r.tasks[pid].mailbox == [] && r.tasks[pid].arrived == [] && !r.tasks[pid].status.Exited?
      && r.queue == s.queue + [pid] && r.nextPid == pid + 1
      && forall other :: other in s.tasks && other != pid ==> other in r.tasks && r.tasks[other] == s.tasks[other]
  {}

  // ------------------------------------------------------------------- timers

  /** The invariant while a batch of expired entries is being routed. */
  ghost predicate Draining(s: State, due: seq<Entry>) {
    && (forall pid :: pid in s.tasks ==> TaskOk(s, None, pid) && pid < s.nextPid)
    && (forall i :: 0 <= i < |s.queue| ==> s.queue[i] in s.tasks)
    && TimersMatch(s.tasks, due + s.entries, s.nextId)
  }

  /** No expired entry is stale: each one wakes the process that waits on it. */
  lemma FireOneKeeps(s: State, due: seq<Entry>)
    requires Draining(s, due) && AllSound(s) && due != []
    ensures due[0].pid in s.tasks && Fire(s.tasks[due[0].pid], due[0].id).1
    ensures Draining(FireOne(s, due[0]), due[1..])
  {
    var e, all := due[0], due + s.entries;
    assert all[0] == e && e in all;
    assert EntryHeld(s.tasks, e);
    assert TaskOk(s, None, e.pid);
    var r := FireOne(s, e);
    TimersDropped(s.tasks, all, s.nextId, e.pid, r.tasks[e.pid]);
    assert all[1..] == due[1..] + s.entries;
    forall pid | pid in r.tasks ensures TaskOk(r, None, pid) && pid < r.nextPid {
      assert TaskOk(s, None, pid);
    }
  }

  lemma {:induction false} FireAllKeeps(s: State, due: seq<Entry>)
    requires Draining(s, due) && AllSound(s)
    ensures Inv(FireAll(s, due), None)
    decreases |due|
  {
    if due == [] {
      assert due + s.entries == s.entries;
    } else {
      FireOneKeeps(s, due);
      FireAllKeeps(FireOne(s, due[0]), due[1..]);
    }
  }

  lemma DrainKeeps(s: State, now: nat)
    requires Inv(s, None) && AllSound(s)
    ensures Inv(Drain(s, now), None)
  {
    var n := DueCount(s.entries, now);
    var cut := s.(entries := s.entries[n..]);
    assert s.entries[..n] + s.entries[n..] == s.entries;
    forall pid | pid in cut.tasks ensures TaskOk(cut, None, pid) && pid < cut.nextPid {
      assert TaskOk(s, None, pid);
    }
    FireAllKeeps(cut, s.entries[..n]);
  }

  lemma {:induction false} FireAllOthers(s: State, due: seq<Entry>, pid: nat)
    requires AllSound(s) && pid in s.tasks && forall i :: 0 <= i < |due| ==> due[i].pid != pid
    ensures pid in FireAll(s, due).tasks && FireAll(s, due).tasks[pid] == s.tasks[pid]
    decreases |due|
  {
    if due != [] { FireAllOthers(FireOne(s, due[0]), due[1..], pid); }
  }

  lemma {:induction false} FireAllAt(s: State, due: seq<Entry>, i: nat, pid: nat)
    requires AllSound(s) && i < |due| && due[i].pid == pid && pid in s.tasks
    requires forall j :: 0 <= j < |due| && j != i ==> due[j].pid != pid
    ensures pid in FireAll(s, due).tasks && FireAll(s, due).tasks[pid] == Fire(s.tasks[pid], due[i].id).0
    decreases |due|
  {
    if i == 0 {
      FireAllOthers(FireOne(s, due[0]), due[1..], pid);
    } else {
      FireAllAt(FireOne(s, due[0]), due[1..], i - 1, pid);
    }
  }

  /** No process has two pending timers. */
  lemma OneEntryEach(s: State, i: nat, j: nat)
    requires Inv(s, None) && i < |s.entries| && j < |s.entries| && s.entries[i].pid == s.entries[j].pid
    ensures i == j
  {
    assert s.entries[i] in s.entries && s.entries[j] in s.entries;
    assert EntryHeld(s.tasks, s.entries[i]) && EntryHeld(s.tasks, s.entries[j]);
  }

  /** A drain resumes a waiting process with its after-continuation exactly when the deadline of its timer has come. */
  lemma DrainWakesOnTime(s: State, now: nat, e: Entry)
    requires Inv(s, None) && AllSound(s) && e in s.entries
    ensures e.pid in s.tasks && s.tasks[e.pid].wait.Some? && e.pid in Drain(s, now).tasks
    ensures
      var p, q := s.tasks[e.pid], Drain(s, now).tasks[e.pid];
      if e.deadline <= now then q == p.(wait := None, runnable := p.wait.value.afterCont, status := Ready) else q == p
  {
    assert EntryHeld(s.tasks, e);
    var n := DueCount(s.entries, now);
    var i :| 0 <= i < |s.entries| && s.entries[i] == e;
    DueAt(s.entries, now, i);
    var cut, due := s.(entries := s.entries[n..]), s.entries[..n];
    forall j | 0 <= j < |due| && due[j].pid == e.pid ensures j == i { OneEntryEach(s, i, j); }
    if i < n {
      FireAllAt(cut, due, i, e.pid);
    } else {
      FireAllOthers(cut, due, e.pid);
    }
  }

  /** A quantum that parks with a deadline leaves one timer, of that process and that deadline. */
  lemma ParkedWithDeadline(s: State, pid: nat, park: Park, deadline: nat)
    requires Inv(s, Some(pid)) && AllSound(s) && Promised(ParkOn(park, Some(deadline)))
    ensures
      var r := Settle(Leave(s, pid, ParkOn(park, Some(deadline))), pid);
      && pid in r.tasks && r.tasks[pid].wait == Some(park.(afterTimer := Some(s.nextId)))
      && Entry(s.nextId, deadline, pid) in r.entries
  {
    InsertedKeeps(s.entries, Entry(s.nextId, deadline, pid));
  }

  // --------------------------------------------------------------------- runs

  /** One turn of the run loop: drain the timers due now, then dispatch one pid if any is queued. */
  datatype Turn = Turn(now: nat, quantum: Quantum)

  ghost predicate Promises(turns: seq<Turn>) {
    forall i :: 0 <= i < |turns| ==> Promised(turns[i].quantum.ending)
  }

  ghost function TurnOf(s: State, turn: Turn): (r: State)
    requires Inv(s, None) && Promised(turn.quantum.ending)
    ensures Inv(r, None)
  {
    InvIsSound(s, None);
    DrainKeeps(s, turn.now);
    var d := Drain(s, turn.now);
    if d.queue == [] then d
    else
      assert d.queue[0] in d.tasks;
      DispatchKeeps(d, turn.quantum);
      Dispatch(d, turn.quantum)
  }

  lemma InvIsSound(s: State, active: Option<nat>)
    requires Inv(s, active)
    ensures AllSound(s)
  {
    forall pid | pid in s.tasks ensures Sound(s.tasks[pid]) { assert TaskOk(s, active, pid); }
  }

  ghost function Run(s: State, turns: seq<Turn>): (r: State)
    requires Inv(s, None) && Promises(turns)
    ensures Inv(r, None)
    decreases |turns|
  {
    if turns == [] then s
    else
      var last := |turns| - 1;
      TurnOf(Run(s, turns[..last]), turns[last])
  }

  /** The scheduler as set up: main is pid 1, runnable and queued. */
  function Boot(main: Closure): State {
    State(map[1 := Newborn(main).(status := New)], [1], [], 1, 2)
  }

  lemma BootHolds(main: Closure)
    ensures Inv(Boot(main), None)
  {
    assert Picks([], [], []);
  }

  ghost predicate Reachable(s: State) {
    exists main, turns :: Promises(turns) && Reaches(main, turns, s)
  }

  ghost predicate Reaches(main: Closure, turns: seq<Turn>, s: State)
    requires Promises(turns)
  {
    BootHolds(main);
    Run(Boot(main), turns) == s
  }

  lemma ReachableHolds(s: State)
    requires Reachable(s)
    ensures Inv(s, None)
  {
    var main, turns :| Promises(turns) && Reaches(main, turns, s);
    BootHolds(main);
    assert Inv(Run(Boot(main), turns), None);
  }

  /**
   No lost wake-up, in every reachable state: a process with a closure to
   resume is queued, one that waits unqueued rejects its whole mailbox, and
   every process is exited, runnable or waiting.
   */
  lemma NoLostWakeUp(s: State, pid: nat)
    requires Reachable(s) && pid in s.tasks
    ensures
      var p := s.tasks[pid];
      && (p.runnable.Some? ==> pid in s.queue)
      && (p.wait.Some? && pid !in s.queue ==> RejectsAll(p.wait.value, p.mailbox))
      && (p.status.Exited? || p.runnable.Some? || p.wait.Some?)
  {
    ReachableHolds(s);
    assert TaskOk(s, None, pid);
  }

  /** Nothing left to do: exited, or waiting without a timer on a mailbox it wholly rejects. */
  ghost predicate Finished(p: Process) {
    || p.status.Exited?
    || (p.wait.Some? && p.wait.value.afterTimer.None? && RejectsAll(p.wait.value, p.mailbox))
  }

  lemma IdleIsFinished(s: State, pid: nat)
    requires Inv(s, None) && s.queue == [] && s.entries == [] && pid in s.tasks
    ensures Finished(s.tasks[pid])
  {
    assert TaskOk(s, None, pid);
    assert TimerOf(s.tasks[pid]).Some? ==> HasEntry(s.entries, pid, TimerOf(s.tasks[pid]).value);
  }

  /**
   When the loop has nothing queued and no timer pending, every process is exited
   or waits in vain, without a timer.
   */
  lemma QuiescentIsDone(s: State, pid: nat)
    requires Reachable(s) && s.queue == [] && s.entries == [] && pid in s.tasks
    ensures Finished(s.tasks[pid])
  {
    ReachableHolds(s);
    IdleIsFinished(s, pid);
  }

  /** In every reachable state arrivals are the mailbox plus the consumed, and the mailbox keeps their order. */
  lemma MessagesConserved(s: State, pid: nat)
    requires Reachable(s) && pid in s.tasks
    ensures Conserves(s.tasks[pid])
  {
    ReachableHolds(s);
    assert TaskOk(s, None, pid);
  }

  /** In every reachable state wheel entries and after-timers are in one-to-one correspondence. */
  lemma TimersOneToOne(s: State)
    requires Reachable(s)
    ensures forall i :: 0 <= i < |s.entries| ==>
      s.entries[i].pid in s.tasks && TimerOf(s.tasks[s.entries[i].pid]) == Some(s.entries[i].id)
    ensures forall pid :: pid in s.tasks && TimerOf(s.tasks[pid]).Some? ==>
      exists i :: 0 <= i < |s.entries| && s.entries[i].pid == pid && s.entries[i].id == TimerOf(s.tasks[pid]).value
    ensures forall i, j :: 0 <= i < j < |s.entries| ==> s.entries[i].pid != s.entries[j].pid
  {
    ReachableHolds(s);
    forall i | 0 <= i < |s.entries| ensures EntryHeld(s.tasks, s.entries[i]) {
      assert s.entries[i] in s.entries;
    }
    forall pid | pid in s.tasks && TimerOf(s.tasks[pid]).Some?
      ensures exists i ::
        0 <= i < |s.entries| && s.entries[i].pid == pid && s.entries[i].id == TimerOf(s.tasks[pid]).value
    {
      assert HasEntry(s.entries, pid, TimerOf(s.tasks[pid]).value);
    }
  }

  /** A reachable waiter outside the queue is served at the sender exactly as by a mailbox and a scan. */
  lemma SenderMatchingIsTransparent(s: State, pid: nat, msg: Word)
    requires Reachable(s) && pid in s.tasks && s.tasks[pid].wait.Some? && pid !in s.queue
    ensures Sound(s.tasks[pid])
    ensures SameReceive(Probe(s.tasks[pid], msg).0, Scan(Append(s.tasks[pid], msg)).0)
    ensures Probe(s.tasks[pid], msg).1 <==> Scan(Append(s.tasks[pid], msg)).1.Hit?
  {
    ReachableHolds(s);
    assert TaskOk(s, None, pid);
    ProbeRefinesAppendThenScan(s.tasks[pid], msg);
  }

  /** The state a scheduler without sender-side matching reaches: the message joins the mailbox, the process is next. */
  function Mailed(s: State, pid: nat, msg: Word): State
    requires pid in s.tasks
  {
    Put(s, pid, Append(s.tasks[pid], msg)).(queue := [pid] + s.queue)
  }

  /** What the probe and the scan leave of the process, once it runs. */
  lemma ProbedThenRun(p: Process, msg: Word)
    requires Sound(p) && p.wait.Some? && p.runnable.None? && RejectsAll(p.wait.value, p.mailbox)
    ensures
      var (q, wake) := Probe(p, msg);
      Scan(q.(status := Running)).0 == Scan(Append(p, msg).(status := Running)).0
    ensures
      var (q, wake) := Probe(p, msg);
      && (wake <==> Scan(Append(p, msg).(status := Running)).1.Hit?)
      && (wake ==> q.wait.None? && Scan(q.(status := Running)).1.NotApplicable?)
      && (!wake ==> q == Append(p, msg))
  {
    ProbeRefinesAppendThenScan(p.(status := Running), msg);
  }

  lemma BegunAlike(s: State, pid: nat, msg: Word)
    requires AllSound(s) && pid in s.tasks && !s.tasks[pid].status.Exited?
    requires s.tasks[pid].wait.Some? && s.tasks[pid].runnable.None?
    requires RejectsAll(s.tasks[pid].wait.value, s.tasks[pid].mailbox)
    ensures AllSound(Mailed(s, pid, msg))
    ensures
      var sent, mailed := Begin(Send(s, pid, msg).(queue := [pid] + s.queue)), Begin(Mailed(s, pid, msg));
      && sent.0 == mailed.0 && (sent.1.Miss? <==> mailed.1.Miss?)
      && Send(s, pid, msg).entries == mailed.0.entries
  {
    var p := s.tasks[pid];
    ProbedThenRun(p, msg);
    var sent, mailed := Send(s, pid, msg).(queue := [pid] + s.queue), Mailed(s, pid, msg);
    assert sent.queue[1..] == s.queue == mailed.queue[1..];
    var q := Scan(Append(p, msg).(status := Running)).0;
    assert sent.tasks[pid := q] == mailed.tasks[pid := q];
  }

  /** A dispatch depends on what its pop and scan leave. */
  lemma DispatchAlike(a: State, b: State, quantum: Quantum)
    requires AllSound(a) && AllSound(b) && Promised(quantum.ending)
    requires a.queue != [] && b.queue != [] && a.queue[0] == b.queue[0] && a.queue[0] in a.tasks
    requires b.queue[0] in b.tasks
    requires Begin(a).0 == Begin(b).0 && (Begin(a).1.Miss? <==> Begin(b).1.Miss?)
    ensures Dispatch(a, quantum) == Dispatch(b, quantum)
  {}

  /**
   Sender-side matching is invisible. From every reachable state, sending to a
   waiter outside the queue and dispatching it leaves exactly the state, timers
   included, that a plain mailbox and a scan at dispatch would; the timer of a
   satisfied wait is cancelled by the send where the scan would cancel it.
   */
  lemma SendIsMailThenDispatch(s: State, pid: nat, msg: Word, quantum: Quantum)
    requires Reachable(s) && pid in s.tasks && s.tasks[pid].wait.Some? && pid !in s.queue && Promised(quantum.ending)
    ensures AllSound(s) && AllSound(Mailed(s, pid, msg))
    ensures Dispatch(Send(s, pid, msg).(queue := [pid] + s.queue), quantum) == Dispatch(Mailed(s, pid, msg), quantum)
    ensures Send(s, pid, msg).entries == Begin(Mailed(s, pid, msg)).0.entries
  {
    ReachableHolds(s);
    InvIsSound(s, None);
    assert TaskOk(s, None, pid);
    BegunAlike(s, pid, msg);
    DispatchAlike(Send(s, pid, msg).(queue := [pid] + s.queue), Mailed(s, pid, msg), quantum);
  }

  // ----------------------------------------------------------------- fairness

  /** `longer` is `queue` with pids added at the back. */
  ghost predicate Extends(queue: seq<nat>, longer: seq<nat>) {
    |queue| <= |longer| && longer[..|queue|] == queue
  }

  lemma {:induction false} ActsExtend(s: State, actions: seq<Action>)
    requires AllSound(s)
    ensures Extends(s.queue, Acts(s, actions).queue)
    decreases |actions|
  {
    if actions != [] {
      var next := Act(s, actions[0]);
      ActsExtend(next, actions[1..]);
      var last := Acts(s, actions);
      assert last.queue[..|s.queue|] == last.queue[..|next.queue|][..|s.queue|];
    }
  }

  lemma {:induction false} FireAllExtends(s: State, due: seq<Entry>)
    requires AllSound(s)
    ensures Extends(s.queue, FireAll(s, due).queue)
    decreases |due|
  {
    if due != [] {
      var next := FireOne(s, due[0]);
      FireAllExtends(next, due[1..]);
      var last := FireAll(s, due);
      assert last.queue[..|s.queue|] == last.queue[..|next.queue|][..|s.queue|];
    }
  }

  lemma SettleExtends(s: State, pid: nat)
    requires AllSound(s) && pid in s.tasks
    ensures Extends(s.queue, Settle(s, pid).queue)
  {}

  lemma ResumeExtends(s: State, pid: nat, quantum: Quantum)
    requires AllSound(s) && Promised(quantum.ending) && pid in s.tasks
    ensures Extends(s.queue, Resume(s, pid, quantum).queue)
  {
    var taken := Put(s, pid, s.tasks[pid].(runnable := None));
    ActsKeepKeys(taken, quantum.actions);
    ActsExtend(taken, quantum.actions);
  }

  lemma ExtendsFurther(a: seq<nat>, b: seq<nat>, c: seq<nat>)
    requires Extends(a, b) && Extends(b, c)
    ensures Extends(a, c)
  {
    assert c[..|a|] == c[..|b|][..|a|];
  }

  lemma DispatchExtends(s: State, quantum: Quantum)
    requires AllSound(s) && Promised(quantum.ending) && s.queue != [] && s.queue[0] in s.tasks
    ensures Extends(s.queue[1..], Dispatch(s, quantum).queue)
  {
    var pid := s.queue[0];
    var (begun, outcome) := Begin(s);
    if outcome.Miss? {
    } else if begun.tasks[pid].runnable.None? {
      SettleExtends(begun, pid);
    } else {
      var resumed := Resume(begun, pid, quantum);
      ResumeExtends(begun, pid, quantum);
      SettleExtends(resumed, pid);
      ExtendsFurther(begun.queue, resumed.queue, Settle(resumed, pid).queue);
    }
  }

  lemma TurnExtends(s: State, turn: Turn)
    requires Inv(s, None) && Promised(turn.quantum.ending) && s.queue != []
    ensures Extends(s.queue[1..], TurnOf(s, turn).queue)
  {
    InvIsSound(s, None);
    DrainKeeps(s, turn.now);
    var d, n := Drain(s, turn.now), DueCount(s.entries, turn.now);
    FireAllExtends(s.(entries := s.entries[n..]), s.entries[..n]);
    DispatchExtends(d, turn.quantum);
    TailExtends(s.queue, d.queue, Dispatch(d, turn.quantum).queue);
  }

  lemma TailExtends(queue: seq<nat>, longer: seq<nat>, last: seq<nat>)
    requires queue != [] && Extends(queue, longer) && Extends(longer[1..], last)
    ensures Extends(queue[1..], last)
  {
    assert longer[1..][..|queue| - 1] == queue[1..];
    ExtendsFurther(queue[1..], longer[1..], last);
  }

  lemma OneServed(queue: seq<nat>, k: nat, before: seq<nat>, after: seq<nat>)
    requires k < |queue| && Extends(queue[k..], before) && Extends(before[1..], after)
    ensures Extends(queue[k + 1..], after)
  {
    assert before[1..][..|queue| - k - 1] == queue[k..][1..] == queue[k + 1..];
    ExtendsFurther(queue[k + 1..], before[1..], after);
  }

  /** The run queue is served in order: a pid `i` places back is at the front `i` turns later. */
  lemma {:induction false} QueuedIsServed(s: State, turns: seq<Turn>)
    requires Inv(s, None) && Promises(turns) && |turns| <= |s.queue|
    ensures Extends(s.queue[|turns|..], Run(s, turns).queue)
    decreases |turns|
  {
    if turns != [] {
      var last := |turns| - 1;
      var before := Run(s, turns[..last]);
      QueuedIsServed(s, turns[..last]);
      TurnExtends(before, turns[last]);
      OneServed(s.queue, last, before.queue, TurnOf(before, turns[last]).queue);
    }
  }
}
