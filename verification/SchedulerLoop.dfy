/** The scheduler object: its hooks, its timer drain, its quantum dispatch and its run loop refine the step machine. */
module SchedulerLoop {
  import opened Options
  import opened Receive
  import opened Timers
  import opened Scheduler
  import opened SchedulerRuns
  import opened SchedulerObjects

  class AotScheduler {
    var tasks: map<nat, Task>
    var runQueue: seq<nat>
    const timers: TimerWheel
    var nextPid: nat

    /** Each pid names its own task object. */
    ghost predicate Wired()
      reads this, tasks.Values
    {
      && (forall pid :: pid in tasks ==> tasks[pid].pid == pid && pid < nextPid)
      && (forall a, b :: a in tasks && b in tasks && a != b ==> tasks[a] != tasks[b])
    }

    ghost function Views(): map<nat, Process>
      reads this, tasks.Values
    {
      map pid | pid in tasks :: tasks[pid].View()
    }

    ghost function View(): State
      reads this, tasks.Values, timers
    {
      State(Views(), runQueue, timers.entries, timers.nextId, nextPid)
    }

    ghost predicate Valid()
      reads this, tasks.Values, timers
    {
      Wired() && timers.Valid() && AllSound(View())
    }

    /** Main is pid 1, with its entry thunk queued. */
    constructor (main: Closure)
      ensures Valid() && fresh(timers) && fresh(tasks.Values) && View() == Boot(main)
    {
      var task := new Task(1, main);
      task.status := New;
      tasks := map[1 := task];
      runQueue := [1];
      timers := new TimerWheel();
      nextPid := 2;
      new;
      assert Views() == map[1 := task.View()];
    }

    /** Only one task changed, so only its view did. */
    twostate lemma OneTaskChanged(pid: nat)
      requires old(Wired()) && tasks == old(tasks) && nextPid == old(nextPid) && pid in tasks
      requires forall other :: other in tasks && other != pid ==> tasks[other].View() == old(tasks[other].View())
      ensures Views() == old(Views())[pid := tasks[pid].View()] && Wired()
    {}

    /** Hand a message to a live process, without queueing it yet. */
    method DeliverTo(receiver: nat, msg: Word) returns (wake: bool)
      requires Wired() && timers.Valid() && receiver in tasks && Sound(tasks[receiver].View())
      modifies timers`entries, tasks.Values
      ensures Wired() && timers.Valid()
      ensures wake == Delivered(old(tasks[receiver].View()), msg).1
      ensures Views() == old(Views())[receiver := Delivered(old(tasks[receiver].View()), msg).0]
      ensures timers.entries ==
        if wake then CancelTimer(old(timers.entries), TimerOf(old(tasks[receiver].View()))) else old(timers.entries)
    {
      wake := tasks[receiver].Deliver(msg, timers);
      OneTaskChanged(receiver);
    }

    method SendToLive(receiver: nat, msg: Word, ghost q: Process, ghost woken: bool)
      requires Wired() && timers.Valid() && receiver in tasks && Sound(tasks[receiver].View())
      requires (q, woken) == Delivered(tasks[receiver].View(), msg)
      modifies this`runQueue, timers`entries, tasks.Values
      ensures Wired() && timers.Valid()
      ensures Views() == old(Views())[receiver := q]
      ensures runQueue == if woken then old(runQueue) + [receiver] else old(runQueue)
      ensures timers.entries ==
        if woken then CancelTimer(old(timers.entries), TimerOf(old(tasks[receiver].View()))) else old(timers.entries)
    {
      var wake := DeliverTo(receiver, msg);
      if wake {
        runQueue := runQueue + [receiver];
      }
    }

    method SendHook(receiver: nat, msg: Word)
      requires Valid()
      modifies this`runQueue, timers`entries, tasks.Values
      ensures Wired() && timers.Valid() && tasks == old(tasks) && View() == Send(old(View()), receiver, msg)
    {
      if receiver !in tasks || tasks[receiver].status == Exited {
        return;
      }
      ghost var s := View();
      assert s.tasks[receiver] == tasks[receiver].View();
      ghost var q, woken := SendLive(s, receiver, msg);
      SendToLive(receiver, msg, q, woken);
    }

    method SpawnHook(thunk: Closure) returns (pid: nat)
      requires Valid()
      modifies this`runQueue, this`tasks, this`nextPid
      ensures Valid() && pid == old(nextPid) && View() == Spawn(old(View()), thunk)
      ensures tasks.Keys == old(tasks.Keys) + {pid} && fresh(tasks[pid])
      ensures forall p :: p in old(tasks) ==> tasks[p] == old(tasks[p])
    {
      pid := nextPid;
      nextPid := pid + 1;
      var child := new Task(pid, thunk);
      tasks := tasks[pid := child];
      runQueue := runQueue + [pid];
      assert Views() == old(Views())[pid := Newborn(thunk)];
    }

    /** Route one expired entry to the process it names. */
    method FireEntry(entry: Entry)
      requires Valid()
      modifies this`runQueue, tasks.Values
      ensures Wired() && tasks == old(tasks) && View() == FireOne(old(View()), entry)
    {
      if entry.pid in tasks {
        ghost var s := View();
        assert s.tasks[entry.pid] == tasks[entry.pid].View();
        FireLive(s, entry);
        var woke := tasks[entry.pid].FireAfterTimer(entry.id);
        OneTaskChanged(entry.pid);
        if woke {
          runQueue := runQueue + [entry.pid];
        }
      }
    }

    method DrainAfterTimers(now: nat)
      requires Valid()
      modifies this`runQueue, timers`entries, tasks.Values
      ensures Wired() && timers.Valid() && tasks == old(tasks) && View() == Drain(old(View()), now)
    {
      var due := timers.DrainExpired(now);
      ghost var start := View();
      for i := 0 to |due|
        invariant Valid() && tasks == old(tasks) && timers.entries == start.entries
        invariant FireAll(View(), due[i..]) == FireAll(start, due)
      {
        assert due[i..][0] == due[i] && due[i..][1..] == due[i + 1..];
        FireEntry(due[i]);
      }
      assert due[|due|..] == [];
    }

    // ------------------------------------------------------------------ quanta

    /** Pop a pid, mark it running and scan its mailbox if it waits. */
    method BeginQuantum() returns (pid: nat, outcome: ScanOutcome)
      requires Valid() && runQueue != [] && runQueue[0] in tasks
      modifies this`runQueue, timers`entries, tasks.Values
      ensures Wired() && timers.Valid() && tasks == old(tasks) && pid == old(runQueue[0])
      ensures (View(), outcome) == Begin(old(View()))
    {
      pid := runQueue[0];
      ghost var s := View();
      assert s.tasks[pid] == tasks[pid].View();
      runQueue := runQueue[1..];
      tasks[pid].status := Running;
      outcome := tasks[pid].InitialScan(timers);
      OneTaskChanged(pid);
    }

    /** What the resumed closure does before it ends. */
    method RunActions(actions: seq<Action>)
      requires Valid()
      modifies this`runQueue, this`tasks, this`nextPid, timers`entries, tasks.Values
      ensures Valid() && View() == Acts(old(View()), actions)
      ensures old(tasks.Keys) <= tasks.Keys && fresh(tasks.Values - old(tasks.Values))
    {
      for i := 0 to |actions|
        invariant Valid() && Acts(View(), actions[i..]) == Acts(old(View()), actions)
        invariant old(tasks.Keys) <= tasks.Keys && fresh(tasks.Values - old(tasks.Values))
      {
        assert actions[i..][0] == actions[i] && actions[i..][1..] == actions[i + 1..];
        match actions[i] {
          case SendTo(pid, msg) => SendHook(pid, msg);
          case SpawnOf(thunk) => var _ := SpawnHook(thunk);
        }
      }
      assert actions[|actions|..] == [];
    }

    /** How the running process ends its quantum. */
    method EndQuantum(pid: nat, ending: Ending)
      requires Valid() && pid in tasks && Promised(ending)
      modifies timers, tasks.Values
      ensures Valid() && View() == Leave(old(View()), pid, ending)
    {
      ghost var s := View();
      assert s.tasks[pid] == tasks[pid].View();
      match ending {
        case Halt =>
        case Yield(closure) =>
          tasks[pid].runnable := Some(closure);
          OneTaskChanged(pid);
        case ParkOn(park, deadline) =>
          tasks[pid].ParkMatched(park, deadline, timers);
          OneTaskChanged(pid);
      }
    }

    /** Queue a yielded or ready process again, and retire a halted one. */
    method SettleTask(pid: nat)
      requires Valid() && pid in tasks
      modifies this`runQueue, tasks.Values
      ensures Valid() && tasks == old(tasks) && View() == Settle(old(View()), pid)
    {
      ghost var s := View();
      assert s.tasks[pid] == tasks[pid].View();
      var task := tasks[pid];
      if task.status == Running && task.runnable.Some? {
        task.status := Ready;
        runQueue := runQueue + [pid];
        OneTaskChanged(pid);
      } else if task.status == Ready {
        runQueue := runQueue + [pid];
      } else if task.status == Running && task.wait.None? {
        task.status := Exited;
        OneTaskChanged(pid);
      }
    }

    method TakeRunnable(pid: nat)
      requires Valid() && pid in tasks
      modifies tasks.Values
      ensures Valid() && View() == Put(old(View()), pid, old(View()).tasks[pid].(runnable := None))
    {
      tasks[pid].runnable := None;
      OneTaskChanged(pid);
    }

    /** Take the runnable closure and let it run to the end of its quantum. */
    method ResumeTask(pid: nat, quantum: Quantum)
      requires Valid() && pid in tasks && Promised(quantum.ending)
      modifies this`runQueue, this`tasks, this`nextPid, timers, tasks.Values
      ensures Valid() && View() == Resume(old(View()), pid, quantum)
      ensures old(tasks.Keys) <= tasks.Keys && fresh(tasks.Values - old(tasks.Values))
    {
      ghost var s := View();
      TakeRunnable(pid);
      RunActions(quantum.actions);
      EndQuantum(pid, quantum.ending);
    }

    /** Resume the popped process if it has a closure, then look at how it was left. */
    method ServeTask(pid: nat, quantum: Quantum)
      requires Valid() && pid in tasks && Promised(quantum.ending)
      modifies this`runQueue, this`tasks, this`nextPid, timers, tasks.Values
      ensures Valid() && View() == Served(old(View()), pid, quantum)
      ensures fresh(tasks.Values - old(tasks.Values))
    {
      ghost var begun := View();
      assert begun.tasks[pid] == tasks[pid].View();
      if tasks[pid].runnable.Some? {
        ResumeTask(pid, quantum);
      }
      SettleTask(pid);
    }

    method DispatchQuantum(quantum: Quantum)
      requires Valid() && runQueue != [] && runQueue[0] in tasks && Promised(quantum.ending)
      modifies this`runQueue, this`tasks, this`nextPid, timers, tasks.Values
      ensures Valid() && View() == Dispatch(old(View()), quantum)
      ensures fresh(tasks.Values - old(tasks.Values))
    {
      ghost var start := View();
      var pid, outcome := BeginQuantum();
      ghost var begun := View();
      DispatchIs(start, quantum, begun, outcome, pid);
      if outcome.Miss? {
        return;
      }
      ServeTask(pid, quantum);
    }

    /** One turn: drain what is due, then dispatch one quantum or find the queue empty. */
    method RunTurn(turn: Turn) returns (idle: bool)
      requires Valid() && Inv(View(), None) && Promised(turn.quantum.ending)
      modifies this`runQueue, this`tasks, this`nextPid, timers, tasks.Values
      ensures Valid() && View() == TurnOf(old(View()), turn)
      ensures idle <==> Drain(old(View()), turn.now).queue == [] && Drain(old(View()), turn.now).entries == []
      ensures idle ==> runQueue == [] && timers.entries == []
      ensures fresh(tasks.Values - old(tasks.Values))
    {
      DrainKeeps(View(), turn.now);
      DrainAfterTimers(turn.now);
      if runQueue == [] {
        return timers.entries == [];
      }
      assert runQueue[0] in View().tasks;
      DispatchQuantum(turn.quantum);
      idle := false;
    }

    /**
     The run loop, fed with the clock reading and the quantum of each turn. It
     stops when nothing is queued and no timer is pending: then every process
     is exited or waits in vain.
     */
    method RunQueueLoop(turns: seq<Turn>) returns (used: nat, idle: bool)
      requires Valid() && Inv(View(), None) && Promises(turns)
      modifies this`runQueue, this`tasks, this`nextPid, timers, tasks.Values
      ensures used <= |turns| && Promises(turns[..used]) && View() == Run(old(View()), turns[..used])
      ensures idle ==> forall pid :: pid in tasks ==> Finished(tasks[pid].View())
      ensures !idle ==> used == |turns|
    {
      used, idle := 0, false;
      ghost var start := View();
      while used < |turns| && !idle
        invariant used <= |turns| && Valid() && Inv(View(), None)
        invariant Promises(turns[..used]) && View() == Run(start, turns[..used])
        invariant idle ==> runQueue == [] && timers.entries == []
        invariant fresh(tasks.Values - old(tasks.Values))
        decreases |turns| - used
      {
        RunStep(start, turns, used);
        idle := RunTurn(turns[used]);
        used := used + 1;
      }
      if idle {
        ghost var final := View();
        LoopEnds(final);
        forall pid | pid in tasks ensures Finished(tasks[pid].View()) {
          assert final.tasks[pid] == tasks[pid].View();
        }
      }
    }
  }

  lemma SendLive(s: State, to: nat, msg: Word) returns (q: Process, wake: bool)
    requires AllSound(s) && to in s.tasks && !s.tasks[to].status.Exited?
    ensures Sound(s.tasks[to]) && (q, wake) == Delivered(s.tasks[to], msg)
    ensures Send(s, to, msg) ==
      State(s.tasks[to := q], if wake then s.queue + [to] else s.queue,
            if wake then CancelTimer(s.entries, TimerOf(s.tasks[to])) else s.entries, s.nextId, s.nextPid)
  {
    q, wake := Delivered(s.tasks[to], msg).0, Delivered(s.tasks[to], msg).1;
  }

  lemma FireLive(s: State, e: Entry)
    requires AllSound(s) && e.pid in s.tasks
    ensures
      var (q, woke) := Fire(s.tasks[e.pid], e.id);
      FireOne(s, e) ==
        State(s.tasks[e.pid := q], if woke then s.queue + [e.pid] else s.queue, s.entries, s.nextId, s.nextPid)
  {
    var (q, woke) := Fire(s.tasks[e.pid], e.id);
    if !woke { assert s.tasks[e.pid := q] == s.tasks; }
  }

  /** What a dispatch comes to, by what its pop and scan leave. */
  lemma DispatchIs(s: State, quantum: Quantum, begun: State, outcome: ScanOutcome, pid: nat)
    requires AllSound(s) && Promised(quantum.ending) && s.queue != [] && s.queue[0] in s.tasks && pid == s.queue[0]
    requires (begun, outcome) == Begin(s)
    ensures AllSound(begun) && pid in begun.tasks
    ensures Dispatch(s, quantum) ==
      if outcome.Miss? then begun else Served(begun, pid, quantum)
  {}

  /** A popped process resumed, if it has a closure, and settled. */
  ghost function Served(s: State, pid: nat, quantum: Quantum): State
    requires AllSound(s) && Promised(quantum.ending) && pid in s.tasks
  {
    if s.tasks[pid].runnable.None? then Settle(s, pid) else Settle(Resume(s, pid, quantum), pid)
  }

  lemma LoopEnds(s: State)
    requires Inv(s, None) && s.queue == [] && s.entries == []
    ensures forall pid :: pid in s.tasks ==> Finished(s.tasks[pid])
  {
    forall pid | pid in s.tasks ensures Finished(s.tasks[pid]) { IdleIsFinished(s, pid); }
  }

  /** A run one turn longer ends with that turn. */
  lemma RunStep(s: State, turns: seq<Turn>, n: nat)
    requires Inv(s, None) && Promises(turns) && n < |turns|
    ensures Promises(turns[..n]) && Promises(turns[..n + 1])
    ensures Run(s, turns[..n + 1]) == TurnOf(Run(s, turns[..n]), turns[n])
  {
    assert turns[..n + 1][..n] == turns[..n];
  }
}
