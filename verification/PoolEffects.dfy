/** Which section may change what, what the controller's sections do, and how the runs of tasks
    end. None of it mentions the functions that compute a step. */
module PoolEffects {
  import opened Totals
  import opened ThreadPool
  import opened PoolInvariants
  import opened PoolLedger
  import opened PoolSafety
  import PoolManaged

  // ---------------------------------------------------------------- who may change what

  predicate AtQueue(ev: Event) { ev.Enter? || ev.Resume? }
  predicate Submits(ev: Event) { ev.Add? || ev.AddResume? }

  /** The counters, the state and the controller. */
  ghost predicate CountersOwned(s: Pool, ev: Event, s': Pool) {
    && s'.limit == s.limit
    && (s'.state != s.state ==> ev.CtlStart? || ev.CtlStop? || ev.CtlFinish?)
    && (s'.workerMaxCount != s.workerMaxCount ==> ev.CtlAdd? || ev.CtlShrink?)
    && (s'.workerCount != s.workerCount ==> ev.Admit? || ev.Exit?)
    && (s'.idleCount != s.idleCount ==> AtQueue(ev))
    && (s'.ctl != s.ctl ==> ByController(ev) || (s.ctl.WaitAsleep? && s'.ctl == WaitCheck(s.ctl.op)))
    && (s'.mark != s.mark ==> ev.CtlStop?)
  }

  /** The queue and its histories. */
  ghost predicate QueueOwned(s: Pool, ev: Event, s': Pool) {
    && (s'.pushed != s.pushed ==> Submits(ev))
    && (s'.tasks != s.tasks || s'.left != s.left ==> AtQueue(ev) || Submits(ev) || ev.RemoveNext? || ev.PurgeNow?)
    && (s'.status != s.status ==> AtQueue(ev) || Submits(ev) || ev.TaskEnd?)
    && (s'.finished != s.finished ==> ev.TaskEnd?)
    && (s'.expiredCount != s.expiredCount ==> AtQueue(ev) || ev.Add? || ev.PurgeNow? || ev.TakeExpired?)
    && (s'.taken != s.taken ==> ev.TakeExpired?)
    && (s'.blocked != s.blocked || s'.signalled != s.signalled
        ==> AtQueue(ev) || Submits(ev) || ev.AddSpurious? || ev.AddTimeout? || ev.AddTimeoutLate?)
  }

  /** The indexes, and the threads: a worker is moved by its own sections, by a signal while it
      sleeps, or when it is started. */
  ghost predicate ThreadsOwned(s: Pool, ev: Event, s': Pool) {
    && (s'.roster != s.roster ==> ev.CtlAdd? || ev.CtlCheck?)
    && (s'.recorded != s.recorded ==> ev.CtlRecord? || ev.CtlCheck?)
    && (s'.dead != s.dead ==> ev.Exit? || ev.CtlCheck?)
    && |s'.workers| >= |s.workers| && (|s'.workers| > |s.workers| ==> ev.CtlAdd?)
    && (forall v :: 0 <= v < |s.workers| && s'.workers[v] != s.workers[v]
         ==> || (ByWorker(ev) && ev.w == v)
             || (s.workers[v] == Asleep && s'.workers[v] == Woken && (Submits(ev) || ev.CtlStart? || ev.CtlShrink?))
             || (ev.CtlLaunch? && s.ctl.Launching? && s.ctl.next == v))
  }

  lemma WorkerCounters(s: Pool, ev: Event)
    requires Enabled(s, ev) && ByWorker(ev)
    ensures CountersOwned(s, ev, Step(s, ev))
  {
  }

  lemma CallerCounters(s: Pool, ev: Event)
    requires Enabled(s, ev) && ByCaller(ev)
    ensures CountersOwned(s, ev, Step(s, ev))
  {
  }

  lemma CountersAreOwned(s: Pool, ev: Event)
    requires Enabled(s, ev)
    ensures CountersOwned(s, ev, Step(s, ev))
  {
    if ByWorker(ev) {
      WorkerCounters(s, ev);
    } else if ByCaller(ev) {
      CallerCounters(s, ev);
    }
  }

  lemma WorkerQueue(s: Pool, ev: Event)
    requires Enabled(s, ev) && ByWorker(ev)
    ensures QueueOwned(s, ev, Step(s, ev))
  {
  }

  lemma CallerQueue(s: Pool, ev: Event)
    requires Enabled(s, ev) && ByCaller(ev)
    ensures QueueOwned(s, ev, Step(s, ev))
  {
  }

  lemma QueueIsOwned(s: Pool, ev: Event)
    requires Enabled(s, ev)
    ensures QueueOwned(s, ev, Step(s, ev))
  {
    if ByWorker(ev) {
      WorkerQueue(s, ev);
    } else if ByCaller(ev) {
      CallerQueue(s, ev);
    }
  }

  lemma SectionThreads(s: Pool, w: nat, now: int, calls: set<AddCall>)
    requires w < |s.workers|
    ensures var s' := Section(s, w, now, calls);
            && s'.roster == s.roster && s'.recorded == s.recorded && s'.dead == s.dead
            && |s'.workers| == |s.workers| && s'.workers == s.workers[w := s'.workers[w]]
  {
  }

  lemma WorkerThreads(s: Pool, ev: Event)
    requires Enabled(s, ev) && ByWorker(ev)
    ensures ThreadsOwned(s, ev, Step(s, ev))
  {
    if ev.Enter? {
      SectionThreads(s, ev.w, ev.now, ev.calls);
    } else if ev.Resume? {
      SectionThreads(s.(idleCount := Dec(s.idleCount)), ev.w, ev.now, ev.calls);
    }
  }

  lemma CallerThreads(s: Pool, ev: Event)
    requires Enabled(s, ev) && ByCaller(ev)
    ensures ThreadsOwned(s, ev, Step(s, ev))
  {
  }

  lemma ThreadsAreOwned(s: Pool, ev: Event)
    requires Enabled(s, ev)
    ensures ThreadsOwned(s, ev, Step(s, ev))
  {
    if ByWorker(ev) {
      WorkerThreads(s, ev);
    } else if ByCaller(ev) {
      CallerThreads(s, ev);
    }
  }

  /** Every section changes only what is its own to change. */
  lemma StepOwns(s: Pool, ev: Event)
    requires Enabled(s, ev)
    ensures var s' := Step(s, ev);
            CountersOwned(s, ev, s') && QueueOwned(s, ev, s') && ThreadsOwned(s, ev, s')
  {
    CountersAreOwned(s, ev);
    QueueIsOwned(s, ev);
    ThreadsAreOwned(s, ev);
  }

  // ---------------------------------------------------------------- workers

  /** A worker at the queue leaves exactly if the count exceeds the limit and it has nothing to
      drain for a Join; otherwise it sleeps exactly if nothing is pending; otherwise it runs the
      first task that has not expired, if there is one. */
  lemma SectionDecides(s: Pool, w: nat, now: int, calls: set<AddCall>)
    requires LedgerInv(LedgerOf(s)) && w < |s.workers| && (s.workers[w] == Ready || s.workers[w] == Woken)
    ensures var p := Section(s, w, now, calls).workers[w];
            var superfluous := s.workerCount > s.workerMaxCount && (s.state == Joining ==> s.tasks == []);
            if superfluous then p == Leaving
            else if s.tasks == [] then p == Asleep
            else if forall i :: 0 <= i < |s.tasks| ==> IsExpired(s.tasks[i], now) then p == Ready
            else p.Running? && p.task in s.tasks && !IsExpired(p.task, now)
  {
    ExpiredPrefixIsLongest(s.tasks, now);
    DispatchIsUnexpired(s, w, now, calls);
    if IsActive(s) && s.tasks != [] {
      PurgeKeepsLedger(LedgerOf(s), ExpiredPrefix(s.tasks, now));
      TakeKeepsLedger(Purge(s, now), w);
    }
  }

  lemma WorkerWakesControl(s: Pool, ev: Event)
    requires Enabled(s, ev) && s.ctl.WaitAsleep? && ByWorker(ev)
    ensures Step(s, ev).ctl != s.ctl
            <==> ev.Greet? || (ev.Exit? && Step(s, ev).workerCount == Step(s, ev).workerMaxCount)
  {
  }

  /** A sleeping controller is woken by the last admitted worker's greeting, and by the exit that
      makes the counts agree; by nothing else but a spurious wakeup. */
  lemma ControllerWokenBy(s: Pool, ev: Event)
    requires Enabled(s, ev) && s.ctl.WaitAsleep?
    ensures Step(s, ev).ctl != s.ctl
            <==> ev.CtlSpurious? || ev.Greet? || (ev.Exit? && Step(s, ev).workerCount == Step(s, ev).workerMaxCount)
  {
    CountersAreOwned(s, ev);
    if ByWorker(ev) { WorkerWakesControl(s, ev); }
  }

  // ---------------------------------------------------------------- the controller

  /** Start makes a new manager STARTED and wakes every sleeping worker; later it does nothing. */
  lemma StartMeans(s: Pool)
    requires Enabled(s, CtlStart)
    ensures var s' := Step(s, CtlStart);
            if s.state == Uninitialized
            then s'.state == Started && forall w :: 0 <= w < |s'.workers| ==> s'.workers[w] != Asleep
            else s' == s
  {
  }

  /** AddWorker first makes exactly `value` new threads, none started, and room for them. */
  lemma AddWorkerMeans(s: Pool, value: nat)
    requires Enabled(s, CtlAdd(value))
    ensures var s' := Step(s, CtlAdd(value)); var n := |s.workers|;
            && |s'.workers| == n + value && s'.workers[..n] == s.workers
            && (forall w :: n <= w < n + value ==> s'.workers[w] == Created)
            && s'.workerMaxCount == s.workerMaxCount + value
            && (forall w :: w in s'.roster <==> w in s.roster || n <= w < n + value)
            && s'.ctl == Launching(n, false)
  {
  }

  lemma ShrinkReachesAll(s: Pool, value: nat, wakes: set<nat>)
    requires Counters(CoreOf(s)) && value <= s.workerMaxCount
    requires Signals(Sleepers(s.workers), ShrinkSignals(s, value), wakes)
    ensures forall w :: 0 <= w < |s.workers| && s.workers[w] == Asleep ==> w in wakes
  {
    PoolManaged.ShrinkWakesAll(s, value, wakes);
  }

  /** RemoveWorker refuses a value above the limit and then changes nothing; otherwise it lowers
      the limit by it and leaves nobody asleep. */
  lemma RemoveWorkerMeans(s: Pool, value: nat, wakes: set<nat>)
    requires Counters(CoreOf(s)) && s.ctl.RemoveEnter? && value == s.ctl.value && Enabled(s, CtlShrink(wakes))
    ensures var s' := Step(s, CtlShrink(wakes));
            if value > s.workerMaxCount then s' == s.(ctl := Idle)
            else && s'.workerMaxCount == s.workerMaxCount - value && s'.ctl == WaitCheck(Removing(s.ctl.stop))
                 && forall w :: 0 <= w < |s'.workers| ==> s'.workers[w] != Asleep
  {
    if value <= s.workerMaxCount {
      ShrinkReachesAll(s, value, wakes);
    }
  }

  /** Both wait loops end exactly when the counts agree; until then nothing changes, and
      AddWorker's changes nothing then either. */
  lemma WaitEndsOnlyEqual(s: Pool)
    requires Enabled(s, CtlCheck)
    ensures Step(s, CtlCheck).ctl.WaitCommit? <==> s.workerCount != s.workerMaxCount
    ensures s.workerCount != s.workerMaxCount ==> Step(s, CtlCheck) == s.(ctl := WaitCommit(s.ctl.op))
    ensures s.workerCount == s.workerMaxCount && s.ctl.op == Adding ==> Step(s, CtlCheck) == s.(ctl := Idle)
  {
  }

  /** Stop and Join set their state once; called again they do not wait for any worker, but set
      STOPPED at once, and in STOPPED they do nothing. */
  lemma StopMeans(s: Pool, join: bool)
    requires Enabled(s, CtlStop(join))
    ensures var s' := Step(s, CtlStop(join));
            match s.state
            case Stopped => s' == s
            case Stopping => Enabled(s', CtlFinish) && Step(s', CtlFinish) == s.(state := Stopped)
            case Joining => Enabled(s', CtlFinish) && Step(s', CtlFinish) == s.(state := Stopped)
            case _ => s'.state == (if join then Joining else Stopping) && Enabled(s', CtlReadCount)
                      && Step(s', CtlReadCount).ctl == RemoveEnter(s.workerCount, true)
  {
  }

  /** ExpiredTaskCount reports every expiry once. */
  lemma ReportsOnce(s: Pool)
    ensures var s' := Step(s, TakeExpired); s'.expiredCount == 0 && s'.taken == s.taken + s.expiredCount
  {
  }

  /** RemoveNextPending takes the front task, and only outside STARTED. */
  lemma RemoveNextMeans(s: Pool)
    ensures var s' := Step(s, RemoveNext);
            if s.state == Started || s.tasks == [] then s' == s
            else [s'.left[|s'.left| - 1].task] + s'.tasks == s.tasks && s'.left == s.left + [Removed(s.tasks[0])]
  {
  }

  // ---------------------------------------------------------------- how runs end

  function CompleteN(x: Status): nat { if x == Complete then 1 else 0 }
  function ExecutingN(x: Status): nat { if x == Executing then 1 else 0 }

  function ReturnN(ev: Event): nat { if ev.TaskEnd? && !ev.threw then 1 else 0 }
  function ThrowN(ev: Event): nat { if ev.TaskEnd? && ev.threw then 1 else 0 }

  /** How many runs of tasks returned in a run of the pool, and how many threw. */
  function Returned(evs: seq<Event>): nat {
    if evs == [] then 0 else ReturnN(evs[0]) + Returned(evs[1..])
  }

  function Thrown(evs: seq<Event>): nat {
    if evs == [] then 0 else ThrowN(evs[0]) + Thrown(evs[1..])
  }

  function Done(s: Pool): nat { Total(s.status, CompleteN) }

  /** Tasks marked EXECUTING that nobody runs any more. */
  function Dropped(s: Pool): int { Total(s.status, ExecutingN) - Total(s.workers, RunningN) }

  ghost predicate Accounts(s: Pool, ev: Event, s': Pool) {
    && Done(s') == Done(s) + ReturnN(ev) && Dropped(s') == Dropped(s) + ThrowN(ev)
    && |s'.finished| == |s.finished| + ReturnN(ev) + ThrowN(ev)
  }

  /** A worker moves between phases in which it runs no task. */
  lemma MoveAccounts(s: Pool, s': Pool, w: nat)
    requires w < |s.workers| && w < |s'.workers| && s'.workers == s.workers[w := s'.workers[w]]
    requires !s.workers[w].Running? && !s'.workers[w].Running? && s'.status == s.status
    ensures Done(s') == Done(s) && Dropped(s') == Dropped(s)
  {
    TotalUpdate(s.workers, w, s'.workers[w], RunningN);
  }

  lemma TakeAccounts(s: Pool, w: nat)
    requires LedgerInv(LedgerOf(s)) && w < |s.workers| && !s.workers[w].Running?
    ensures Done(Take(s, w)) == Done(s) && Dropped(Take(s, w)) == Dropped(s)
  {
    if s.tasks == [] {
      MoveAccounts(s, Take(s, w), w);
    } else {
      var t := s.tasks[0];
      assert t == s.pushed[|s.left|] && s.status[t.id] == Waiting;
      TotalUpdate(s.workers, w, Running(t), RunningN);
      TotalUpdate(s.status, t.id, Executing, CompleteN);
      TotalUpdate(s.status, t.id, Executing, ExecutingN);
    }
  }

  lemma SectionAccounts(s: Pool, w: nat, now: int, calls: set<AddCall>)
    requires LedgerInv(LedgerOf(s)) && w < |s.workers| && !s.workers[w].Running?
    ensures var s' := Section(s, w, now, calls);
            Done(s') == Done(s) && Dropped(s') == Dropped(s) && s'.finished == s.finished
  {
    if IsActive(s) && s.tasks != [] {
      PurgeKeepsLedger(LedgerOf(s), ExpiredPrefix(s.tasks, now));
      TakeAccounts(Purge(s, now), w);
    } else {
      MoveAccounts(s, Section(s, w, now, calls), w);
    }
  }

  lemma EndAccounts(s: Pool, ev: Event)
    requires LedgerInv(LedgerOf(s)) && Enabled(s, ev) && ev.TaskEnd?
    ensures Accounts(s, ev, Step(s, ev))
  {
    var id := s.workers[ev.w].task.id;
    assert RunsOwnTask(LedgerOf(s), ev.w);
    TotalUpdate(s.workers, ev.w, Ready, RunningN);
    TotalUpdate(s.status, id, Complete, CompleteN);
    TotalUpdate(s.status, id, Complete, ExecutingN);
  }

  lemma WorkerAccounts(s: Pool, ev: Event)
    requires LedgerInv(LedgerOf(s)) && Enabled(s, ev) && ByWorker(ev)
    ensures Accounts(s, ev, Step(s, ev))
  {
    if ev.Enter? {
      SectionAccounts(s, ev.w, ev.now, ev.calls);
    } else if ev.Resume? {
      SectionAccounts(s.(idleCount := Dec(s.idleCount)), ev.w, ev.now, ev.calls);
    } else if ev.TaskEnd? {
      EndAccounts(s, ev);
    } else {
      MoveAccounts(s, Step(s, ev), ev.w);
    }
  }

  lemma PushAccounts(s: Pool, call: AddCall, stamp: int, wakes: set<nat>)
    requires wakes <= Sleepers(s.workers)
    ensures var s' := Push(s, call, stamp, wakes); Done(s') == Done(s) && Dropped(s') == Dropped(s)
  {
    WakeTotal(s.workers, wakes, RunningN);
    TotalAppend(s.status, [Waiting], CompleteN);
    TotalAppend(s.status, [Waiting], ExecutingN);
  }

  lemma CallerAccounts(s: Pool, ev: Event)
    requires Enabled(s, ev) && ByCaller(ev)
    ensures Accounts(s, ev, Step(s, ev))
  {
    if ev.Add? {
      PushAccounts(Purge(s, ev.now), ev.call, ev.stamp, ev.wakes);
    } else if ev.AddResume? {
      PushAccounts(s.(signalled := s.signalled - {ev.call}), ev.call, ev.stamp, ev.wakes);
    }
  }

  lemma ControllerAccounts(s: Pool, ev: Event)
    requires Room(CoreOf(s)) && Enabled(s, ev) && ByController(ev)
    ensures Accounts(s, ev, Step(s, ev))
  {
    if ev.CtlStart? {
      WakeTotal(s.workers, Sleepers(s.workers), RunningN);
    } else if ev.CtlShrink? {
      WakeTotal(s.workers, ev.wakes, RunningN);
    } else if ev.CtlAdd? {
      TotalAppend(s.workers, NewWorkers(ev.value), RunningN);
      NewWorkersTotal(ev.value, RunningN);
    } else if ev.CtlLaunch? {
      TotalUpdate(s.workers, s.ctl.next, Launched, RunningN);
    }
  }

  lemma {:induction false} RunAccounts(s: Pool, evs: seq<Event>)
    requires SafeInv(s) && IsRun(s, evs, AnyEvent)
    ensures var s' := After(s, evs, AnyEvent);
            && Done(s') == Done(s) + Returned(evs) && Dropped(s') == Dropped(s) + Thrown(evs)
            && |s'.finished| == |s.finished| + Returned(evs) + Thrown(evs)
    decreases |evs|
  {
    if evs != [] {
      StepKeepsSafe(s, evs[0]);
      if ByWorker(evs[0]) {
        WorkerAccounts(s, evs[0]);
      } else if ByCaller(evs[0]) {
        CallerAccounts(s, evs[0]);
      } else {
        ControllerAccounts(s, evs[0]);
      }
      RunAccounts(Step(s, evs[0]), evs[1..]);
    }
  }

  /** In every run, the COMPLETE tasks are those whose run returned; the EXECUTING ones are those
      running now and those whose run threw. */
  lemma TaskOutcomes(limit: nat, evs: seq<Event>)
    requires IsRun(Init(limit), evs, AnyEvent)
    ensures var s := Reached(limit, evs);
            && Total(s.status, CompleteN) == Returned(evs)
            && Total(s.status, ExecutingN) == Total(s.workers, RunningN) + Thrown(evs)
            && |s.finished| == Returned(evs) + Thrown(evs)
  {
    InitSafe(limit);
    RunAccounts(Init(limit), evs);
  }
}
