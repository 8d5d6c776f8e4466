/**
 The cooperative scheduler as a step machine: sends, spawns, timer drains and
 quanta, over a task table, a run queue that may hold a pid more than once, and
 the pending timer entries. What a resumed closure does is an input: any
 sequence of sends and spawns, ended by a halt, a yield or a park.
 */
module Scheduler {
  import opened Options
  import opened Receive
  import opened Timers

  datatype State = State(tasks: map<nat, Process>, queue: seq<nat>, entries: seq<Entry>, nextId: nat, nextPid: nat)

  datatype Action = SendTo(pid: nat, msg: Word) | SpawnOf(closure: Closure)

  /** How a quantum ends; a park names the deadline of its `after` clause, if any. */
  datatype Ending = Halt | Yield(closure: Closure) | ParkOn(park: Park, deadline: Option<nat>)

  datatype Quantum = Quantum(actions: seq<Action>, ending: Ending)

  /** What generated code promises of a park: a deadline comes with an after-continuation. */
  ghost predicate Promised(ending: Ending) {
    ending.ParkOn? ==>
      WellFormed(ending.park) && ending.park.afterTimer.None? && (ending.deadline.Some? ==> ending.park.afterCont.Some?)
  }

  ghost predicate AllSound(s: State) {
    forall pid :: pid in s.tasks ==> Sound(s.tasks[pid])
  }

  function TimerOf(p: Process): Option<nat> {
    if p.wait.Some? then p.wait.value.afterTimer else None
  }

  function CancelTimer(es: seq<Entry>, timer: Option<nat>): seq<Entry> {
    if timer.Some? then Cancelled(es, timer.value) else es
  }

  function Put(s: State, pid: nat, p: Process): State {
    s.(tasks := s.tasks[pid := p])
  }

  function Push(s: State, pid: nat): State {
    s.(queue := s.queue + [pid])
  }

  // ------------------------------------------------------------------- steps

  /** An arrival, and whether it wakes the receiver: a waiting one through its matcher, a blocked one by itself. */
  function Delivered(p: Process, msg: Word): (r: (Process, bool))
    requires Sound(p)
    ensures Sound(r.0)
  {
    if p.wait.Some? then Probe(p, msg)
    else if p.status.Blocked? then (Append(p, msg).(status := Ready), true)
    else (Append(p, msg), false)
  }

  /** A message to a missing or exited process is dropped. */
  ghost function Send(s: State, to: nat, msg: Word): (r: State)
    requires AllSound(s)
    ensures AllSound(r)
  {
    if to !in s.tasks || s.tasks[to].status.Exited? then s
    else
      var (q, wake) := Delivered(s.tasks[to], msg);
      if wake then Push(Put(s, to, q), to).(entries := CancelTimer(s.entries, TimerOf(s.tasks[to])))
      else Put(s, to, q)
  }

  function Newborn(closure: Closure): Process {
    Process([], None, Some(closure), Ready, [], [])
  }

  ghost function Spawn(s: State, closure: Closure): (r: State)
    requires AllSound(s)
    ensures AllSound(r)
  {
    Push(Put(s, s.nextPid, Newborn(closure)), s.nextPid).(nextPid := s.nextPid + 1)
  }

  ghost function Act(s: State, action: Action): (r: State)
    requires AllSound(s)
    ensures AllSound(r)
  {
    match action
    case SendTo(pid, msg) => Send(s, pid, msg)
    case SpawnOf(closure) => Spawn(s, closure)
  }

  ghost function Acts(s: State, actions: seq<Action>): (r: State)
    requires AllSound(s)
    ensures AllSound(r)
    decreases |actions|
  {
    if actions == [] then s else Acts(Act(s, actions[0]), actions[1..])
  }

  /** How the running process leaves its own record behind. */
  ghost function Leave(s: State, pid: nat, ending: Ending): (r: State)
    requires AllSound(s) && Promised(ending) && pid in s.tasks
    ensures AllSound(r) && r.tasks.Keys == s.tasks.Keys
  {
    var p := s.tasks[pid];
    match ending
    case Halt => s
    case Yield(closure) => Put(s, pid, p.(runnable := Some(closure)))
    case ParkOn(park, deadline) =>
      var status := if p.mailbox == [] then Blocked else Ready;
      if deadline.None? then Put(s, pid, p.(wait := Some(park), status := status))
      else
        Put(s, pid, p.(wait := Some(park.(afterTimer := Some(s.nextId))), status := status))
        .(entries := Inserted(s.entries, Entry(s.nextId, deadline.value, pid)), nextId := s.nextId + 1)
  }

  /** The scheduler's look at a process after its quantum. */
  ghost function Settle(s: State, pid: nat): (r: State)
    requires AllSound(s) && pid in s.tasks
    ensures AllSound(r) && r.tasks.Keys == s.tasks.Keys
  {
    var p := s.tasks[pid];
    if p.status.Running? && p.runnable.Some? then Push(Put(s, pid, p.(status := Ready)), pid)
    else if p.status.Ready? then Push(s, pid)
    else if p.status.Running? && p.wait.None? then Put(s, pid, p.(status := Exited))
    else s
  }

  /** Pop a pid and scan its mailbox if it waits. */
  ghost function Begin(s: State): (r: (State, ScanOutcome))
    requires AllSound(s) && s.queue != [] && s.queue[0] in s.tasks
    ensures AllSound(r.0) && r.0.tasks.Keys == s.tasks.Keys
  {
    var pid := s.queue[0];
    var p := s.tasks[pid].(status := Running);
    var (q, outcome) := Scan(p);
    var timer := if outcome.Hit? then TimerOf(p) else None;
    (Put(s, pid, q).(queue := s.queue[1..], entries := CancelTimer(s.entries, timer)), outcome)
  }

  /** Take the runnable closure and run it: its sends and spawns, then how it ends. */
  ghost function Resume(s: State, pid: nat, quantum: Quantum): (r: State)
    requires AllSound(s) && Promised(quantum.ending) && pid in s.tasks
    ensures AllSound(r) && s.tasks.Keys <= r.tasks.Keys
  {
    var taken := Put(s, pid, s.tasks[pid].(runnable := None));
    var acted := Acts(taken, quantum.actions);
    ActsKeepKeys(taken, quantum.actions);
    Leave(acted, pid, quantum.ending)
  }

  lemma {:induction false} ActsKeepKeys(s: State, actions: seq<Action>)
    requires AllSound(s)
    ensures s.tasks.Keys <= Acts(s, actions).tasks.Keys
    decreases |actions|
  {
    if actions != [] { ActsKeepKeys(Act(s, actions[0]), actions[1..]); }
  }

  /** One dispatch. A stale duplicate of a pid finds nothing to resume. */
  ghost function Dispatch(s: State, quantum: Quantum): (r: State)
    requires AllSound(s) && Promised(quantum.ending) && s.queue != [] && s.queue[0] in s.tasks
    ensures AllSound(r)
  {
    var pid := s.queue[0];
    var (begun, outcome) := Begin(s);
    if outcome.Miss? then begun
    else if begun.tasks[pid].runnable.None? then Settle(begun, pid)
    else Settle(Resume(begun, pid, quantum), pid)
  }

  /** One expired entry, routed to the process it names. */
  ghost function FireOne(s: State, e: Entry): (r: State)
    requires AllSound(s)
    ensures AllSound(r)
  {
    if e.pid !in s.tasks then s
    else
      var (q, woke) := Fire(s.tasks[e.pid], e.id);
      if woke then Push(Put(s, e.pid, q), e.pid) else s
  }

  ghost function FireAll(s: State, due: seq<Entry>): (r: State)
    requires AllSound(s)
    ensures AllSound(r)
    decreases |due|
  {
    if due == [] then s else FireAll(FireOne(s, due[0]), due[1..])
  }

  ghost function Drain(s: State, now: nat): (r: State)
    requires AllSound(s)
    ensures AllSound(r)
  {
    var n := DueCount(s.entries, now);
    FireAll(s.(entries := s.entries[n..]), s.entries[..n])
  }

  // --------------------------------------------------------------- invariants

  ghost predicate HasEntry(es: seq<Entry>, pid: nat, id: nat) {
    exists e :: e in es && e.pid == pid && e.id == id
  }

  ghost predicate EntryHeld(tasks: map<nat, Process>, e: Entry) {
    e.pid in tasks && TimerOf(tasks[e.pid]) == Some(e.id)
  }

  /** Wheel entries and the after-timers of waiting processes are in one-to-one correspondence. */
  ghost predicate TimersMatch(tasks: map<nat, Process>, es: seq<Entry>, nextId: nat) {
    && Ascending(es) && DistinctIds(es) && IdsBelow(es, nextId)
    && (forall e :: e in es ==> EntryHeld(tasks, e))
    && (forall pid :: pid in tasks && TimerOf(tasks[pid]).Some? ==> HasEntry(es, pid, TimerOf(tasks[pid]).value))
  }

  /** A settled process: exited, or runnable and queued, or waiting and, unless queued, rejecting its whole mailbox. */
  ghost predicate Settled(p: Process, queued: bool) {
    && (p.status.Exited? ==> p.wait.None? && p.runnable.None?)
    && (!p.status.Exited? ==> (p.wait.Some? <==> p.runnable.None?))
    && (p.runnable.Some? ==> queued)
    && (p.wait.Some? && !queued ==> RejectsAll(p.wait.value, p.mailbox))
    && (p.status.Blocked? ==> p.wait.Some?)
  }

  /** The process a quantum is running: its closure is taken and it waits for nothing. */
  ghost predicate Active(p: Process) {
    p.wait.None? && p.runnable.None? && p.status.Running?
  }

  ghost predicate TaskOk(s: State, active: Option<nat>, pid: nat)
    requires pid in s.tasks
  {
    && Sound(s.tasks[pid]) && Conserves(s.tasks[pid])
    && (if active == Some(pid) then Active(s.tasks[pid]) else Settled(s.tasks[pid], pid in s.queue))
  }

  /** What holds between any two steps; `active` is the process in the middle of its quantum. */
  ghost predicate Inv(s: State, active: Option<nat>) {
    && (forall pid :: pid in s.tasks ==> TaskOk(s, active, pid) && pid < s.nextPid)
    && (forall i :: 0 <= i < |s.queue| ==> s.queue[i] in s.tasks)
    && (active.Some? ==> active.value in s.tasks)
    && TimersMatch(s.tasks, s.entries, s.nextId)
  }

  lemma TimersKept(tasks: map<nat, Process>, es: seq<Entry>, nextId: nat, pid: nat, q: Process)
    requires TimersMatch(tasks, es, nextId)
    requires TimerOf(q) == if pid in tasks then TimerOf(tasks[pid]) else None
    ensures TimersMatch(tasks[pid := q], es, nextId)
  {
    forall e | e in es ensures EntryHeld(tasks[pid := q], e) { assert EntryHeld(tasks, e); }
  }

  lemma TimersDropped(tasks: map<nat, Process>, es: seq<Entry>, nextId: nat, pid: nat, q: Process)
    requires TimersMatch(tasks, es, nextId) && pid in tasks && TimerOf(q) == None
    ensures TimersMatch(tasks[pid := q], CancelTimer(es, TimerOf(tasks[pid])), nextId)
  {
    if TimerOf(tasks[pid]).None? {
      TimersKept(tasks, es, nextId, pid, q);
    } else {
      var id := TimerOf(tasks[pid]).value;
      var left, after := Cancelled(es, id), tasks[pid := q];
      CancelledKeeps(es, id);
      forall e | e in left ensures EntryHeld(after, e) { assert EntryHeld(tasks, e); }
      forall other | other in after && TimerOf(after[other]).Some?
        ensures HasEntry(left, other, TimerOf(after[other]).value)
      {
        assert HasEntry(es, other, TimerOf(tasks[other]).value);
        var e :| e in es && e.pid == other && e.id == TimerOf(tasks[other]).value;
        assert HasEntry(es, pid, id);
        var mine :| mine in es && mine.pid == pid && mine.id == id;
        assert EntryHeld(tasks, e);
        assert e in left;
      }
    }
  }

  lemma TimersAdded(tasks: map<nat, Process>, es: seq<Entry>, nextId: nat, pid: nat, q: Process, deadline: nat)
    requires TimersMatch(tasks, es, nextId) && pid in tasks && TimerOf(tasks[pid]) == None && TimerOf(q) == Some(nextId)
    ensures TimersMatch(tasks[pid := q], Inserted(es, Entry(nextId, deadline, pid)), nextId + 1)
  {
    var e := Entry(nextId, deadline, pid);
    var grown, after := Inserted(es, e), tasks[pid := q];
    InsertedKeeps(es, e);
    forall x | x in grown ensures EntryHeld(after, x) {
      if x != e { assert EntryHeld(tasks, x); }
    }
    forall other | other in after && TimerOf(after[other]).Some?
      ensures HasEntry(grown, other, TimerOf(after[other]).value)
    {
      if other == pid {
        assert e in grown;
      } else {
        assert HasEntry(es, other, TimerOf(tasks[other]).value);
        var x :| x in es && x.pid == other && x.id == TimerOf(tasks[other]).value;
        assert x in grown;
      }
    }
  }

  /** One process changes, with its timer; the rest of the state is as it was. */
  lemma PutKeeps(
    s: State, active: Option<nat>, pid: nat, q: Process, queue: seq<nat>, es: seq<Entry>,
    nextId: nat, next: Option<nat>)
    requires Inv(s, active) && pid in s.tasks
    requires forall p :: p in s.tasks && p != pid && p in s.queue ==> p in queue
    requires forall i :: 0 <= i < |queue| ==> queue[i] in s.tasks
    requires Sound(q) && Conserves(q)
    requires if next == Some(pid) then Active(q) else Settled(q, pid in queue)
    requires active.None? || active == next || active == Some(pid)
    requires next.None? || next == active || next == Some(pid)
    requires TimersMatch(s.tasks[pid := q], es, nextId)
    ensures Inv(State(s.tasks[pid := q], queue, es, nextId, s.nextPid), next)
  {
    var r := State(s.tasks[pid := q], queue, es, nextId, s.nextPid);
    forall p | p in r.tasks ensures TaskOk(r, next, p) {
      if p != pid {
        assert TaskOk(s, active, p);
      }
    }
  }

  lemma SendKeeps(s: State, active: Option<nat>, to: nat, msg: Word)
    requires Inv(s, active) && AllSound(s)
    ensures Inv(Send(s, to, msg), active)
  {
    if to in s.tasks && !s.tasks[to].status.Exited? {
      var p := s.tasks[to];
      assert TaskOk(s, active, to);
      var r := Send(s, to, msg);
      var q := r.tasks[to];
      if p.wait.Some? {
        ProbeConserves(p, msg);
        if Probe(p, msg).1 {
          TimersDropped(s.tasks, s.entries, s.nextId, to, q);
        } else {
          TimersKept(s.tasks, s.entries, s.nextId, to, q);
        }
      } else {
        AppendConserves(p, msg);
        assert Conserves(q);
        TimersKept(s.tasks, s.entries, s.nextId, to, q);
      }
      PutKeeps(s, active, to, q, r.queue, r.entries, r.nextId, active);
      assert r == State(s.tasks[to := q], r.queue, r.entries, r.nextId, s.nextPid);
    }
  }

  lemma SpawnKeeps(s: State, active: Option<nat>, closure: Closure)
    requires Inv(s, active) && AllSound(s)
    ensures Inv(Spawn(s, closure), active)
  {
    var r := Spawn(s, closure);
    TimersKept(s.tasks, s.entries, s.nextId, s.nextPid, Newborn(closure));
    assert Picks([], [], []);
    forall p | p in r.tasks ensures TaskOk(r, active, p) && p < r.nextPid {
      if p != s.nextPid { assert TaskOk(s, active, p); }
    }
  }

  lemma {:induction false} ActsKeep(s: State, active: Option<nat>, actions: seq<Action>)
    requires Inv(s, active) && AllSound(s)
    ensures Inv(Acts(s, actions), active)
    decreases |actions|
  {
    if actions != [] {
      match actions[0]
      case SendTo(pid, msg) =>
        SendKeeps(s, active, pid, msg);
        ActsKeep(Act(s, actions[0]), active, actions[1..]);
      case SpawnOf(closure) =>
        SpawnKeeps(s, active, closure);
        ActsKeep(Act(s, actions[0]), active, actions[1..]);
    }
  }
}
