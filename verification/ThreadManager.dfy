/** ThreadManager::Impl as an object: the fields the source updates in place and its critical
    sections as methods. Each section is proved to be one step of the transition system, so
    everything proved there holds of any interleaving of these methods. */
module ThreadManager {
  import opened ThreadPool
  import opened Wrappers
  import PoolSafety
  import PoolSubmit

  datatype NextOutcome = Refused | NothingPending | Next(task: Task)

  /** The task a worker has in hand. */
  function InHand(p: Phase): Option<Task> {
    if p.Running? then Some(p.task) else None
  }

  datatype AddOutcome = Pushed | Waits | IllegalState | TooManyPendingTasks

  class Impl {
    var workerCount: nat
    var workerMaxCount: nat
    var idleCount: nat
    var pendingTaskCountMax: nat
    var expiredCount: nat
    var hasExpireCallback: bool
    var state: Lifecycle
    var tasks: seq<Task>
    var taskState: seq<Status>
    var workers: set<nat>
    var deadWorkers: set<nat>
    var idMap: set<nat>
    // Where each thread stands, and the histories.
    ghost var phases: seq<Phase>
    ghost var blocked: set<AddCall>
    ghost var signalled: set<AddCall>
    ghost var ctl: Control
    ghost var pushed: seq<Task>
    ghost var left: seq<Departure>
    ghost var finished: seq<nat>
    ghost var taken: nat
    ghost var mark: nat

    ghost function View(): Pool
      reads this
    {
      Pool(workerCount, workerMaxCount, idleCount, pendingTaskCountMax, expiredCount, state, tasks,
           taskState, workers, deadWorkers, idMap, phases, blocked, signalled, ctl, pushed, left,
           finished, taken, mark)
    }

    constructor (limit: nat)
      ensures View() == Init(limit)
    {
      workerCount, workerMaxCount, idleCount := 0, 0, 0;
      pendingTaskCountMax, expiredCount, hasExpireCallback := limit, 0, false;
      state, tasks, taskState := Uninitialized, [], [];
      workers, deadWorkers, idMap := {}, {}, {};
      phases, blocked, signalled, ctl := [], {}, {}, Idle;
      pushed, left, finished, taken, mark := [], [], [], 0, 0;
    }

    // -------------------------------------------------------------- condition variables

    /** pthread_cond_signal on monitor_: some sleeping workers wake, at least one if any sleeps. */
    ghost method NotifyMonitor() returns (woken: set<nat>)
      modifies this`phases
      ensures Signals(Sleepers(old(phases)), 1, woken)
      ensures phases == Wake(old(phases), woken)
    {
      woken :| woken <= Sleepers(phases) && (Sleepers(phases) != {} ==> woken != {});
      phases := Wake(phases, woken);
    }

    /** pthread_cond_signal on max_monitor_. */
    ghost method NotifyMaxMonitor() returns (woken: set<AddCall>)
      modifies this`blocked, this`signalled
      ensures Signals(old(blocked), 1, woken)
      ensures blocked == old(blocked) - woken && signalled == old(signalled) + woken
    {
      woken :| woken <= blocked && (blocked != {} ==> woken != {});
      blocked, signalled := blocked - woken, signalled + woken;
    }

    // -------------------------------------------------------------- the queue

    /** Removes exactly the longest prefix of expired tasks, calling the callback once for each
        in order. `clock` is the value CurrentTime returns during the call. */
    method RemoveExpiredTasks(clock: int) returns (called: seq<Task>)
      modifies this`tasks, this`expiredCount, this`left
      ensures View() == Purge(old(View()), clock)
      ensures called == if hasExpireCallback then old(tasks)[..ExpiredPrefix(old(tasks), clock)] else []
    {
      var now := 0;
      called := [];
      ghost var n: nat := 0;
      ExpiredPrefixIsLongest(tasks, clock);
      assert left == old(left) + [];
      while tasks != []
        invariant n <= ExpiredPrefix(old(tasks), clock)
        invariant tasks == old(tasks)[n..] && expiredCount == old(expiredCount) + n
        invariant left == old(left) + AsExpired(old(tasks)[..n])
        invariant called == if hasExpireCallback then old(tasks)[..n] else []
        invariant now == 0 || now == clock
        invariant tasks == [] ==> n == ExpiredPrefix(old(tasks), clock)
        decreases |tasks|
      {
        var task := tasks[0];
        if task.expireTime == 0 {
          break;
        }
        if now == 0 {
          now := clock;
        }
        if task.expireTime > now {
          break;
        }
        if hasExpireCallback {
          called := called + [task];
        }
        PrefixGrows(old(tasks), n);
        tasks := tasks[1..];
        expiredCount := expiredCount + 1;
        left := left + [Expired(task)];
        n := n + 1;
      }
    }

    /** Throws exactly when the manager is STARTED. */
    method RemoveNextPending() returns (outcome: NextOutcome)
      modifies this`tasks, this`left
      ensures IsStep(old(View()), RemoveNext, View())
      ensures outcome == Refused <==> old(state) == Started
      ensures outcome == NothingPending <==> old(state) != Started && old(tasks) == []
      ensures outcome.Next? ==> [outcome.task] + tasks == old(tasks)
    {
      if state == Started {
        return Refused;
      }
      if tasks == [] {
        return NothingPending;
      }
      outcome := Next(tasks[0]);
      left := left + [Removed(tasks[0])];
      tasks := tasks[1..];
    }

    method ExpiredTaskCount() returns (result: nat)
      modifies this`expiredCount, this`taken
      ensures IsStep(old(View()), TakeExpired, View())
      ensures result == old(expiredCount)
    {
      result := expiredCount;
      taken := taken + expiredCount;
      expiredCount := 0;
    }

    /** The load as size_t arithmetic computes it. */
    method TotalTaskCount() returns (result: nat)
      ensures result == PoolSafety.TotalTaskCount(View())
    {
      var unwrapped := |tasks| + workerCount + (WORD - idleCount % WORD);
      result := unwrapped % WORD;
    }

    // -------------------------------------------------------------- workers

    function IsActiveNow(): bool
      reads this
    {
      workerCount <= workerMaxCount || (state == Joining && tasks != [])
    }

    /** Worker::Run, lines 173-180. */
    method AdmitWorker(w: nat) returns (active: bool, notifyManager: bool)
      requires w < |phases| && phases[w] == Launched
      modifies this`workerCount, this`phases
      ensures IsStep(old(View()), Admit(w), View())
      ensures active <==> phases[w] != Leaving
      ensures notifyManager <==> phases[w] == Greeting
    {
      notifyManager := false;
      active := workerCount < workerMaxCount;
      if active {
        workerCount := Inc(workerCount);
        notifyManager := workerCount == workerMaxCount;
      }
      phases := phases[w := if !active then Leaving else if notifyManager then Greeting else Ready];
    }

    /** worker_monitor_.Notify. */
    ghost method NotifyController()
      modifies this`ctl
      ensures View() == NotifyControl(old(View()))
    {
      if ctl.WaitAsleep? { ctl := WaitCheck(ctl.op); }
    }

    /** Worker::Run, lines 181-184. */
    method GreetManager(w: nat)
      requires w < |phases| && phases[w] == Greeting && !ctl.WaitCommit?
      modifies this`phases, this`ctl
      ensures IsStep(old(View()), Greet(w), View())
    {
      phases := phases[w := Ready];
      NotifyController();
    }

    /** Worker::Run, lines 193-217: `active` has just been computed. Either the worker goes to
        sleep, or it leaves, or it takes the front task that has not expired. */
    method LoopSection(w: nat, active: bool, clock: int) returns (task: Option<Task>, ghost calls: set<AddCall>)
      requires w < |phases| && active == IsActiveNow()
      modifies this
      ensures View() == Section(old(View()), w, clock, calls)
      ensures task == InHand(phases[w])
      ensures Signals(old(blocked), if Announces(old(View()), w, clock) then 1 else 0, calls)
      ensures hasExpireCallback == old(hasExpireCallback)
    {
      task, calls := None, {};
      if active && tasks == [] {
        idleCount := Inc(idleCount);
        phases := phases[w := Asleep];
      } else if active {
        task, calls := TakeAndAnnounce(w, clock);
      } else {
        phases := phases[w := Leaving];
      }
    }

    /** Worker::Run, lines 202-215, for an active worker. */
    method TakeAndAnnounce(w: nat, clock: int) returns (task: Option<Task>, ghost calls: set<AddCall>)
      requires w < |phases|
      modifies this
      ensures |phases| == |old(phases)| && task == InHand(phases[w])
      ensures View() == Take(Purge(old(View()), clock), w).(blocked := old(blocked) - calls, signalled := old(signalled) + calls)
      ensures Signals(old(blocked), if pendingTaskCountMax != 0 && |tasks| <= pendingTaskCountMax - 1 then 1 else 0, calls)
      ensures hasExpireCallback == old(hasExpireCallback)
    {
      calls := {};
      var called := RemoveExpiredTasks(clock);
      task := PopFront(w);
      assert View() == Take(Purge(old(View()), clock), w);
      if pendingTaskCountMax != 0 && |tasks| <= pendingTaskCountMax - 1 {
        calls := NotifyMaxMonitor();
      }
    }

    /** Worker::Run, lines 204-210 and the test of line 220. */
    method PopFront(w: nat) returns (task: Option<Task>)
      requires w < |phases|
      modifies this`tasks, this`taskState, this`left, this`phases
      ensures View() == Take(old(View()), w)
      ensures task == InHand(phases[w])
    {
      ghost var after := Take(View(), w);
      task := None;
      if tasks != [] {
        var front := tasks[0];
        tasks := tasks[1..];
        left := left + [Dispatched(front, w)];
        if front.id < |taskState| && taskState[front.id] == Waiting {
          taskState := taskState[front.id := Executing];
        }
        if front.id < |taskState| && taskState[front.id] == Executing {
          task := Some(front);
        }
      }
      phases := phases[w := if task.Some? then Running(task.value) else Ready];
      assert taskState == after.status && phases == after.workers && tasks == after.tasks && left == after.left;
    }

    /** The top of the loop, line 191 on. */
    method EnterLoop(w: nat, clock: int) returns (task: Option<Task>, ghost calls: set<AddCall>)
      requires w < |phases| && phases[w] == Ready
      modifies this
      ensures IsStep(old(View()), Enter(w, clock, calls), View())
      ensures task == InHand(phases[w])
    {
      var active := IsActiveNow();
      task, calls := LoopSection(w, active, clock);
    }

    /** The return of monitor_.Wait, line 197 on. */
    method ResumeLoop(w: nat, clock: int) returns (task: Option<Task>, ghost calls: set<AddCall>)
      requires w < |phases| && phases[w] == Woken
      modifies this
      ensures IsStep(old(View()), Resume(w, clock, calls), View())
      ensures task == InHand(phases[w])
    {
      var active := IsActiveNow();
      idleCount := Dec(idleCount);
      task, calls := LoopSection(w, active, clock);
    }

    /** The end of task->Run(), returning or throwing. */
    method EndTask(w: nat, task: Task, threw: bool)
      requires w < |phases| && phases[w] == Running(task) && !InAdd(View(), PoolThread(w))
      modifies this`taskState, this`phases, this`finished
      ensures IsStep(old(View()), TaskEnd(w, threw), View())
    {
      if !threw && task.id < |taskState| {
        taskState := taskState[task.id := Complete];
      }
      finished := finished + [task.id];
      phases := phases[w := Ready];
    }

    /** Worker::Run, lines 230-239. */
    method ExitWorker(w: nat)
      requires w < |phases| && phases[w] == Leaving && !ctl.WaitCommit?
      modifies this`deadWorkers, this`workerCount, this`phases, this`ctl
      ensures IsStep(old(View()), Exit(w), View())
    {
      LeavePool(w);
    }

    method LeavePool(w: nat)
      requires w < |phases|
      modifies this`deadWorkers, this`workerCount, this`phases, this`ctl
      ensures View() == DoExit(old(View()), w)
    {
      deadWorkers := deadWorkers + {w};
      workerCount := Dec(workerCount);
      phases := phases[w := Gone];
      if workerCount == workerMaxCount {
        NotifyController();
      }
    }

    // -------------------------------------------------------------- submitters

    /** Pushes the new Task object `id` and signals monitor_ if a worker is idle, lines 401-405. */
    method PushTask(call: AddCall, id: nat, stamp: int) returns (ghost wakes: set<nat>)
      requires id == |pushed|
      modifies this`tasks, this`taskState, this`pushed, this`phases
      ensures Signals(Sleepers(old(phases)), PushSignals(old(View())), wakes)
      ensures View() == Push(old(View()), call, stamp, wakes)
    {
      ghost var before := View();
      var task := Task(id, Expiry(stamp, call.expiration));
      wakes := {};
      tasks := tasks + [task];
      taskState := taskState + [Waiting];
      pushed := pushed + [task];
      if idleCount > 0 {
        wakes := NotifyMonitor();
      } else {
        assert Wake(phases, {}) == phases;
      }
      assert phases == Push(before, call, stamp, wakes).workers;
    }

    /** Add up to its first wait or its return, with mutex_ already taken. */
    method AddTask(call: AddCall, id: nat, clock: int, stamp: int) returns (outcome: AddOutcome, ghost wakes: set<nat>)
      requires id == |pushed| && !InAdd(View(), call.caller)
      requires call.caller.PoolThread? ==> call.caller.w < |phases| && phases[call.caller.w].Running?
      modifies this
      ensures IsStep(old(View()), Add(call, clock, stamp, wakes), View())
      ensures outcome == IllegalState <==> old(state) != Started
      ensures outcome == Pushed <==> |pushed| == |old(pushed)| + 1
      ensures outcome == Pushed ==> tasks != [] && PoolSubmit.ExpiresFrom(tasks[|tasks| - 1], stamp, call.expiration)
      ensures outcome == Waits ==> blocked == old(blocked) + {call} && CanSleep(View(), call.caller)
                                    && call.timeout >= 0 && Full(View())
      ensures outcome == TooManyPendingTasks ==> Full(View()) && (call.timeout < 0 || !CanSleep(View(), call.caller))
    {
      wakes := {};
      if state != Started {
        return IllegalState, {};
      }
      var called := RemoveExpiredTasks(clock);
      if pendingTaskCountMax > 0 && |tasks| >= pendingTaskCountMax {
        if (call.caller.Outside? || call.caller.w !in idMap) && call.timeout >= 0 {
          blocked := blocked + {call};
          return Waits, {};
        }
        return TooManyPendingTasks, {};
      }
      ghost var purged := View();
      wakes := PushTask(call, id, stamp);
      PoolSubmit.PushMeans(purged, call, stamp, wakes);
      outcome := Pushed;
    }

    /** Add from the return of max_monitor_.Wait on. */
    method ResumeAdd(call: AddCall, id: nat, stamp: int) returns (outcome: AddOutcome, ghost wakes: set<nat>)
      requires call in signalled && id == |pushed|
      modifies this
      ensures IsStep(old(View()), AddResume(call, stamp, wakes), View())
      ensures outcome == if Full(old(View())) then Waits else Pushed
      ensures outcome == Pushed ==> PoolSubmit.PushesOne(old(View()), View(), 0, stamp, call.expiration)
      ensures outcome == Waits ==> tasks == old(tasks) && pushed == old(pushed) && call in blocked
    {
      wakes := {};
      signalled := signalled - {call};
      if pendingTaskCountMax > 0 && |tasks| >= pendingTaskCountMax {
        blocked := blocked + {call};
        return Waits, {};
      }
      ghost var purged := View();
      wakes := PushTask(call, id, stamp);
      PoolSubmit.PushMeans(purged, call, stamp, wakes);
      outcome := Pushed;
    }

    // -------------------------------------------------------------- the controller

    /** Start, lines 289-300, with a thread factory set. */
    method StartManager()
      requires ctl == Idle
      modifies this`state, this`phases
      ensures IsStep(old(View()), CtlStart, View())
    {
      if state == Uninitialized {
        state := Started;
        phases := Wake(phases, Sleepers(phases));
      }
    }

    /** AddWorker, lines 257-268: makes the thread objects, numbered from `first`, and raises
        the limit. */
    method AddWorkers(value: nat, first: nat)
      requires ctl == Idle && first == |phases| && first + value < WORD
      modifies this`workerMaxCount, this`workers, this`phases, this`ctl
      ensures IsStep(old(View()), CtlAdd(value), View())
    {
      var newThreads: set<nat> := {};
      for ix := 0 to value
        invariant newThreads == Range(first, first + ix)
      {
        newThreads := newThreads + {first + ix};
      }
      workerMaxCount := workerMaxCount + value;
      workers := workers + newThreads;
      phases := phases + NewWorkers(value);
      ctl := Launching(first, false);
    }

    /** AddWorker's start loop, line 276: starts the thread the iterator points at. */
    method StartThread(ghost next: nat)
      requires ctl == Launching(next, false) && next < |phases|
      modifies this`phases, this`ctl
      ensures IsStep(old(View()), CtlLaunch, View())
    {
      phases := phases[next := Launched];
      ctl := Launching(next, true);
    }

    /** AddWorker's start loop, line 277: only now can CanSleep tell that it is a pool thread. */
    method RecordThread(next: nat)
      requires ctl == Launching(next, true)
      modifies this`idMap, this`ctl
      ensures IsStep(old(View()), CtlRecord, View())
      ensures next in idMap
    {
      idMap := idMap + {next};
      ctl := Launching(next + 1, false);
    }

    /** The end of the start loop, line 278. */
    ghost method AllStarted()
      requires ctl == Launching(|phases|, false)
      modifies this`ctl
      ensures IsStep(old(View()), CtlLaunched, View())
    {
      ctl := WaitCheck(Adding);
    }

    /** worker_monitor_.Wait() releases the monitor's mutex, lines 283 and 357. */
    ghost method WaitForWorkers(op: Op)
      requires ctl == WaitCommit(op)
      modifies this`ctl
      ensures IsStep(old(View()), CtlSleep, View())
    {
      ctl := WaitAsleep(op);
    }

    /** RemoveWorker, lines 337-350: lowers the limit and signals the sleeping workers, once per
        idle worker or all at once. */
    method LowerLimit(value: nat, ghost stop: bool) returns (ok: bool, ghost wakes: set<nat>)
      requires ctl == RemoveEnter(value, stop)
      modifies this`workerMaxCount, this`phases, this`ctl
      ensures IsStep(old(View()), CtlShrink(wakes), View())
      ensures ok <==> value <= old(workerMaxCount)
    {
      ok, wakes := Shrink(value, stop);
    }

    method Shrink(value: nat, ghost stop: bool) returns (ok: bool, ghost wakes: set<nat>)
      modifies this`workerMaxCount, this`phases, this`ctl
      ensures View() == DoCtlShrink(old(View()), value, stop, wakes)
      ensures Signals(Sleepers(old(phases)), ShrinkSignals(old(View()), value), wakes)
      ensures ok <==> value <= old(workerMaxCount)
    {
      wakes := {};
      if value > workerMaxCount {
        ctl := Idle;
        return false, {};
      }
      wakes := SignalIdle(value);
      workerMaxCount := workerMaxCount - value;
      ctl := WaitCheck(Removing(stop));
      ok := true;
    }

    /** Lines 344-350. */
    method SignalIdle(value: nat) returns (ghost wakes: set<nat>)
      modifies this`phases
      ensures Signals(Sleepers(old(phases)), if idleCount < value then idleCount else |Sleepers(old(phases))|, wakes)
      ensures phases == Wake(old(phases), wakes)
    {
      if idleCount < value {
        wakes := SignalEach(idleCount);
      } else {
        wakes := Sleepers(phases);
        phases := Wake(phases, wakes);
      }
    }

    /** n calls of monitor_.Notify in a row. */
    method SignalEach(n: nat) returns (ghost wakes: set<nat>)
      modifies this`phases
      ensures Signals(Sleepers(old(phases)), n, wakes) && phases == Wake(old(phases), wakes)
    {
      wakes := {};
      ghost var before := phases;
      assert Wake(before, {}) == before;
      for ix := 0 to n
        invariant Signals(Sleepers(before), ix, wakes) && phases == Wake(before, wakes)
      {
        ghost var woken := NotifyMonitor();
        WakeTwice(before, wakes, woken);
        wakes := wakes + woken;
      }
    }

    /** AddWorker's wait loop from the test of its condition on, lines 281-284. */
    method CheckAdded() returns (equal: bool)
      requires ctl == WaitCheck(Adding)
      modifies this`ctl
      ensures IsStep(old(View()), CtlCheck, View())
      ensures equal <==> workerCount == workerMaxCount
    {
      equal := workerCount == workerMaxCount;
      ctl := if equal then Idle else WaitCommit(Adding);
    }

    /** RemoveWorker's wait loop from the test of its condition on, lines 356-367. When the
        counts agree the dead threads are erased from both indexes. */
    method CheckRemoved(ghost stop: bool) returns (equal: bool)
      requires ctl == WaitCheck(Removing(stop))
      modifies this`ctl, this`idMap, this`workers, this`deadWorkers
      ensures IsStep(old(View()), CtlCheck, View())
      ensures equal <==> workerCount == workerMaxCount
      ensures equal ==> deadWorkers == {}
      ensures equal && PoolSafety.SafeInv(old(View())) ==> PoolSafety.Reaped(View())
    {
      ghost var before := View();
      equal := workerCount == workerMaxCount;
      if equal {
        EraseDead();
        ctl := if stop then StopFinish else Idle;
        if PoolSafety.SafeInv(before) { PoolSafety.ReapLeavesPresent(before, Removing(stop)); }
      } else {
        ctl := WaitCommit(Removing(stop));
      }
    }

    /** The loop over dead_workers_, lines 360-367. */
    method EraseDead()
      modifies this`idMap, this`workers, this`deadWorkers
      ensures View() == Reap(old(View()))
    {
      var rest := deadWorkers;
      while rest != {}
        invariant rest <= deadWorkers == old(deadWorkers)
        invariant idMap == old(idMap) - (deadWorkers - rest)
        invariant workers == old(workers) - (deadWorkers - rest)
        decreases |rest|
      {
        var thread :| thread in rest;
        idMap := idMap - {thread};
        workers := workers - {thread};
        rest := rest - {thread};
      }
      assert deadWorkers - rest == deadWorkers;
      deadWorkers := {};
    }

    /** StopImpl, lines 309-321. */
    method BeginStop(join: bool) returns (doStop: bool)
      requires ctl == Idle
      modifies this`state, this`ctl, this`mark
      ensures IsStep(old(View()), CtlStop(join), View())
      ensures doStop <==> old(state) in {Uninitialized, Started}
    {
      doStop := false;
      if state == Stopped { return; }
      if state != Stopping && state != Joining {
        doStop := true;
        state := if join then Joining else Stopping;
        mark := |pushed|;
      }
      ctl := if doStop then StopCount else StopFinish;
    }

    /** The argument of StopImpl's RemoveWorker call, line 324. */
    method StopArgument() returns (value: nat)
      requires ctl == StopCount
      modifies this`ctl
      ensures IsStep(old(View()), CtlReadCount, View())
      ensures ctl == RemoveEnter(value, true)
    {
      value := workerCount;
      ctl := RemoveEnter(value, true);
    }

    /** StopImpl's final section, lines 327-330. */
    method FinishStop()
      requires ctl == StopFinish
      modifies this`state, this`ctl
      ensures IsStep(old(View()), CtlFinish, View())
      ensures state == Stopped
    {
      state := Stopped;
      ctl := Idle;
    }
  }

  /** Two rounds of signals wake the union, and the second round adds to the first. */
  lemma WakeTwice(ws: seq<Phase>, first: set<nat>, second: set<nat>)
    requires first <= Sleepers(ws) && Signals(Sleepers(Wake(ws, first)), 1, second)
    ensures Wake(Wake(ws, first), second) == Wake(ws, first + second)
    ensures first + second <= Sleepers(ws)
    ensures |first + second| >= |first| + 1 || first + second == Sleepers(ws)
  {
  }
}
