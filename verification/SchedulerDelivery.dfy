/** Every message sent to a live process arrives there, once, in order; nothing else does. */
module SchedulerDelivery {
  import opened Options
  import opened Receive
  import opened Timers
  import opened Scheduler
  import opened SchedulerRuns

  /** The messages some actions address to a process, in order. */
  function Addressed(actions: seq<Action>, pid: nat): seq<Word> {
    if actions == [] then []
    else
      var rest := Addressed(actions[1..], pid);
      if actions[0].SendTo? && actions[0].pid == pid then [actions[0].msg] + rest else rest
  }

  /** What has arrived at a process; nothing at one that does not exist. */
  function ArrivedAt(s: State, pid: nat): seq<Word> {
    if pid in s.tasks then s.tasks[pid].arrived else []
  }

  ghost predicate Live(s: State, pid: nat) {
    pid in s.tasks && !s.tasks[pid].status.Exited?
  }

  lemma SendArrives(s: State, to: nat, msg: Word, pid: nat)
    requires AllSound(s)
    ensures ArrivedAt(Send(s, to, msg), pid)
         == ArrivedAt(s, pid) + if pid == to && Live(s, to) then [msg] else []
    ensures Live(Send(s, to, msg), pid) <==> Live(s, pid)
    ensures Send(s, to, msg).tasks.Keys == s.tasks.Keys
  {}

  /** Whatever a closure sends and spawns, each live process receives exactly the messages addressed to it. */
  lemma {:induction false} ActsArrive(s: State, actions: seq<Action>, pid: nat)
    requires AllSound(s) && pid in s.tasks && pid != s.nextPid && (forall p :: p in s.tasks ==> p < s.nextPid)
    ensures pid in Acts(s, actions).tasks
    ensures ArrivedAt(Acts(s, actions), pid) == ArrivedAt(s, pid) + if Live(s, pid) then Addressed(actions, pid) else []
    ensures Live(Acts(s, actions), pid) <==> Live(s, pid)
    decreases |actions|
  {
    if actions != [] {
      var next := Act(s, actions[0]);
      match actions[0] {
        case SendTo(to, msg) => SendArrives(s, to, msg, pid);
        case SpawnOf(_) =>
      }
      ActsArrive(next, actions[1..], pid);
    }
  }

  lemma {:induction false} FireAllArrives(s: State, due: seq<Entry>, pid: nat)
    requires AllSound(s) && pid in s.tasks
    ensures pid in FireAll(s, due).tasks && ArrivedAt(FireAll(s, due), pid) == ArrivedAt(s, pid)
    decreases |due|
  {
    if due != [] { FireAllArrives(FireOne(s, due[0]), due[1..], pid); }
  }

  /** A drained timer delivers nothing. */
  lemma DrainArrives(s: State, now: nat, pid: nat)
    requires AllSound(s) && pid in s.tasks
    ensures pid in Drain(s, now).tasks && ArrivedAt(Drain(s, now), pid) == ArrivedAt(s, pid)
  {
    var n := DueCount(s.entries, now);
    FireAllArrives(s.(entries := s.entries[n..]), s.entries[..n], pid);
  }

  /** Whether a dispatch finds a closure to resume. */
  ghost predicate Resumes(s: State)
    requires AllSound(s) && s.queue != [] && s.queue[0] in s.tasks
  {
    !Begin(s).1.Miss? && Begin(s).0.tasks[s.queue[0]].runnable.Some?
  }

  lemma BeginArrives(s: State, pid: nat)
    requires AllSound(s) && s.queue != [] && s.queue[0] in s.tasks && pid in s.tasks
    ensures ArrivedAt(Begin(s).0, pid) == ArrivedAt(s, pid)
    ensures pid != s.queue[0] ==> Begin(s).0.tasks[pid] == s.tasks[pid]
  {}

  lemma LeaveAndSettleArrive(s: State, running: nat, ending: Ending, pid: nat)
    requires AllSound(s) && Promised(ending) && running in s.tasks && pid in s.tasks
    ensures ArrivedAt(Settle(Leave(s, running, ending), running), pid) == ArrivedAt(s, pid)
  {}

  lemma SettleArrives(s: State, running: nat, pid: nat)
    requires AllSound(s) && running in s.tasks && pid in s.tasks
    ensures ArrivedAt(Settle(s, running), pid) == ArrivedAt(s, pid)
  {}

  /** A resumed process, from its taken closure to its settling. */
  lemma ResumedArrives(begun: State, running: nat, quantum: Quantum, pid: nat)
    requires AllSound(begun) && Promised(quantum.ending) && running in begun.tasks && pid in begun.tasks
    requires Inv(Put(begun, running, begun.tasks[running].(runnable := None)), Some(running))
    ensures
      var taken := Put(begun, running, begun.tasks[running].(runnable := None));
      ArrivedAt(Settle(Resume(begun, running, quantum), running), pid)
        == ArrivedAt(taken, pid) + if Live(taken, pid) then Addressed(quantum.actions, pid) else []
  {
    var taken := Put(begun, running, begun.tasks[running].(runnable := None));
    ActsArrive(taken, quantum.actions, pid);
    ActsKeepKeys(taken, quantum.actions);
    LeaveAndSettleArrive(Acts(taken, quantum.actions), running, quantum.ending, pid);
  }

  /** One dispatch delivers to each live process exactly what the resumed closure addresses to it. */
  lemma DispatchArrives(s: State, quantum: Quantum, pid: nat)
    requires Inv(s, None) && AllSound(s) && Promised(quantum.ending) && s.queue != [] && s.queue[0] in s.tasks
    requires pid in s.tasks
    ensures ArrivedAt(Dispatch(s, quantum), pid)
         == ArrivedAt(s, pid) + if Resumes(s) && Live(s, pid) then Addressed(quantum.actions, pid) else []
  {
    if Resumes(s) {
      DispatchResumes(s, quantum, pid);
    } else {
      BeginArrives(s, pid);
      if !Begin(s).1.Miss? { SettleArrives(Begin(s).0, s.queue[0], pid); }
    }
  }

  lemma DispatchResumes(s: State, quantum: Quantum, pid: nat)
    requires Inv(s, None) && AllSound(s) && Promised(quantum.ending) && s.queue != [] && s.queue[0] in s.tasks
    requires pid in s.tasks && Resumes(s)
    ensures ArrivedAt(Dispatch(s, quantum), pid)
         == ArrivedAt(s, pid) + if Live(s, pid) then Addressed(quantum.actions, pid) else []
  {
    BeginActive(s);
    TakenIsLive(s, pid);
    ResumedArrives(Begin(s).0, s.queue[0], quantum, pid);
  }

  /** Taking the closure of a resumed process changes nobody's liveness. */
  lemma TakenIsLive(s: State, pid: nat)
    requires Inv(s, None) && AllSound(s) && s.queue != [] && s.queue[0] in s.tasks && pid in s.tasks && Resumes(s)
    ensures
      var begun := Begin(s).0;
      var taken := Put(begun, s.queue[0], begun.tasks[s.queue[0]].(runnable := None));
      && (Live(taken, pid) <==> Live(s, pid)) && ArrivedAt(taken, pid) == ArrivedAt(s, pid)
      && taken.nextPid == s.nextPid && taken.tasks.Keys == s.tasks.Keys
  {
    var running := s.queue[0];
    assert TaskOk(s, None, running);
    BegunTasks(s);
    var q := Begin(s).0.tasks[running];
    ResumedWasLive(s.tasks[running], q);
    TakenTasks(s, Begin(s).0, running, q, pid);
  }

  lemma BegunTasks(s: State)
    requires AllSound(s) && s.queue != [] && s.queue[0] in s.tasks
    ensures
      var begun := Begin(s).0;
      && begun.tasks == s.tasks[s.queue[0] := Scan(s.tasks[s.queue[0]].(status := Running)).0]
      && begun.nextPid == s.nextPid
  {}

  lemma TakenTasks(s: State, begun: State, running: nat, q: Process, pid: nat)
    requires running in s.tasks && pid in s.tasks && begun.tasks == s.tasks[running := q] && begun.nextPid == s.nextPid
    requires !s.tasks[running].status.Exited? && !q.status.Exited? && q.arrived == s.tasks[running].arrived
    ensures
      var taken := Put(begun, running, q.(runnable := None));
      && (Live(taken, pid) <==> Live(s, pid)) && ArrivedAt(taken, pid) == ArrivedAt(s, pid)
      && taken.nextPid == s.nextPid && taken.tasks.Keys == s.tasks.Keys
  {}

  lemma ResumedWasLive(p: Process, q: Process)
    requires Sound(p) && Settled(p, true) && q == Scan(p.(status := Running)).0
    requires !Scan(p.(status := Running)).1.Miss? && q.runnable.Some?
    ensures !p.status.Exited? && !q.status.Exited? && q.arrived == p.arrived
  {}

  /**
   Over one turn of the loop, what arrives at a process is exactly what the
   resumed closure addresses to it, if it is live: nothing is lost, duplicated or
   reordered.
   */
  lemma TurnDelivers(s: State, turn: Turn, pid: nat)
    requires Inv(s, None) && Promised(turn.quantum.ending) && pid in s.tasks && AllSound(s)
    ensures AllSound(Drain(s, turn.now)) && Inv(Drain(s, turn.now), None)
    ensures
      var d := Drain(s, turn.now);
      && pid in d.tasks
      && (d.queue != [] ==> d.queue[0] in d.tasks)
      && ArrivedAt(TurnOf(s, turn), pid)
         == ArrivedAt(s, pid)
            + if d.queue != [] && Resumes(d) && Live(d, pid) then Addressed(turn.quantum.actions, pid) else []
  {
    DrainKeeps(s, turn.now);
    DrainArrives(s, turn.now, pid);
    var d := Drain(s, turn.now);
    if d.queue != [] {
      assert d.queue[0] in d.tasks;
      DispatchArrives(d, turn.quantum, pid);
    }
  }
}
