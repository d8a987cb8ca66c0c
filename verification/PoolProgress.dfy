/** No lost wakeups and no deadlock while the pool is started. */
module PoolProgress {
  import opened Totals
  import opened ThreadPool
  import opened PoolInvariants
  import opened PoolLedger
  import opened PoolSafety
  import opened PoolManaged

  lemma ManagedReached(limit: nat, evs: seq<Event>, rule: Rule) returns (s: Pool)
    requires IsRun(Init(limit), evs, rule) && WithinManaged(rule)
    ensures s == After(Init(limit), evs, rule) && s.limit == limit
    ensures SafeInv(s) && ManagedInv(s)
  {
    s := After(Init(limit), evs, rule);
    InitSafe(limit);
    RunKeepsManaged(Init(limit), evs, rule);
    LimitFixed(Init(limit), evs, rule);
  }

  /** No work signal is lost: while some worker is asleep un-notified, the pending tasks are
      at most the workers that are notified and have not resumed. */
  lemma NoLostWorkSignal(limit: nat, evs: seq<Event>)
    requires IsRun(Init(limit), evs, Managed)
    ensures var s := After(Init(limit), evs, Managed);
            Sleepers(s.workers) != {} ==> |s.tasks| <= |Marked(s.workers, WokenN)|
  {
    var s := ManagedReached(limit, evs, Managed);
    SleepersTotal(s.workers);
    MarkedTotal(s.workers, WokenN);
  }

  // ---------------------------------------------------------------- pool threads in Add

  /** Pool threads call Add only once AddWorker has put them into id_map_. */
  predicate RecordedAdds(s: Pool, ev: Event) {
    ev.Add? && ev.call.caller.PoolThread? ==> ev.call.caller.w in s.recorded
  }

  ghost predicate WithinRecorded(rule: Rule) {
    forall s, ev :: rule(s, ev) ==> RecordedAdds(s, ev)
  }

  ghost predicate OnlyOutsiders(s: Pool) {
    forall c :: c in s.blocked + s.signalled ==> c.caller.Outside?
  }

  lemma OutsidersStay(s: Pool, ev: Event)
    requires OnlyOutsiders(s) && Enabled(s, ev) && (s.state == Started ==> RecordedAdds(s, ev))
    ensures OnlyOutsiders(Step(s, ev))
  {
  }

  lemma {:induction false} RunKeepsOutsiders(s: Pool, evs: seq<Event>, rule: Rule)
    requires OnlyOutsiders(s) && IsRun(s, evs, rule) && WithinRecorded(rule)
    ensures OnlyOutsiders(After(s, evs, rule))
    decreases |evs|
  {
    if evs != [] {
      OutsidersStay(s, evs[0]);
      RunKeepsOutsiders(Step(s, evs[0]), evs[1..], rule);
    }
  }

  /** Whatever other threads do, worker w calls Add only once it is in id_map_. */
  predicate OwnAddsRecorded(w: nat, s: Pool, ev: Event) {
    ev.Add? && ev.call.caller == PoolThread(w) ==> w in s.recorded
  }

  function OwnRule(w: nat): Rule { (s: Pool, ev: Event) => OwnAddsRecorded(w, s, ev) }

  ghost predicate NotInAdd(s: Pool, w: nat) {
    forall c :: c in s.blocked + s.signalled ==> c.caller != PoolThread(w)
  }

  lemma NotInAddStays(s: Pool, ev: Event, w: nat)
    requires NotInAdd(s, w) && Enabled(s, ev) && OwnAddsRecorded(w, s, ev)
    ensures NotInAdd(Step(s, ev), w)
  {
  }

  lemma {:induction false} RunKeepsNotInAdd(s: Pool, evs: seq<Event>, w: nat)
    requires NotInAdd(s, w) && IsRun(s, evs, OwnRule(w))
    ensures NotInAdd(After(s, evs, OwnRule(w)), w)
    decreases |evs|
  {
    if evs != [] {
      NotInAddStays(s, evs[0], w);
      RunKeepsNotInAdd(Step(s, evs[0]), evs[1..], w);
    }
  }

  /** Under any controller, a pool thread that is in id_map_ whenever it calls Add never waits
      there: it is told TooManyPendingTasks. */
  lemma PoolThreadsDoNotSleep(limit: nat, evs: seq<Event>, w: nat)
    requires IsRun(Init(limit), evs, OwnRule(w))
    ensures NotInAdd(After(Init(limit), evs, OwnRule(w)), w)
  {
    RunKeepsNotInAdd(Init(limit), evs, w);
  }

  ghost predicate NobodyInAdd(s: Pool) { s.blocked + s.signalled == {} }

  lemma NoLimitStep(s: Pool, ev: Event)
    requires s.limit == 0 && NobodyInAdd(s) && Enabled(s, ev)
    ensures NobodyInAdd(Step(s, ev)) && Step(s, ev).limit == 0
  {
  }

  /** Without a limit nobody ever waits in Add. */
  lemma {:induction false} NoLimitNoWait(s: Pool, evs: seq<Event>, rule: Rule)
    requires s.limit == 0 && NobodyInAdd(s) && IsRun(s, evs, rule)
    ensures NobodyInAdd(After(s, evs, rule))
    decreases |evs|
  {
    if evs != [] {
      NoLimitStep(s, evs[0]);
      NoLimitNoWait(Step(s, evs[0]), evs[1..], rule);
    }
  }

  // ---------------------------------------------------------------- submitters

  /** A managed run in which pool threads call Add only once they are in id_map_. */
  predicate Recorded(s: Pool, ev: Event) {
    Managed(s, ev) && RecordedAdds(s, ev)
  }

  /** A managed run in which pool threads call Add only once they are in id_map_, no timed-out
      submitter swallows a signal, and no client calls RemoveExpiredTasks by itself. */
  predicate Careful(s: Pool, ev: Event) {
    Recorded(s, ev) && !ev.AddTimeoutLate? && !ev.PurgeNow?
  }

  ghost predicate WithinCareful(rule: Rule) {
    forall s, ev :: rule(s, ev) ==> Careful(s, ev)
  }

  /** While a submitter sleeps un-notified, there is a task or a notified submitter. */
  ghost predicate RoomSignalled(s: Pool) {
    s.state == Started && s.blocked != {} ==> s.tasks != [] || s.signalled != {}
  }

  ghost predicate SubmitInv(s: Pool) {
    && RoomSignalled(s)
    && (s.state == Uninitialized || s.limit == 0 ==> NobodyInAdd(s))
  }

  lemma SectionKeepsSubmit(s: Pool, w: nat, now: int, calls: set<AddCall>)
    requires SubmitInv(s) && w < |s.workers| && (s.limit > 0 ==> |s.tasks| <= s.limit)
    requires Signals(s.blocked, if Announces(s, w, now) then 1 else 0, calls)
    ensures SubmitInv(Section(s, w, now, calls))
  {
  }

  lemma WorkerKeepsSubmit(s: Pool, ev: Event)
    requires SubmitInv(s) && QueueInv(s) && Enabled(s, ev) && ByWorker(ev)
    ensures SubmitInv(Step(s, ev))
  {
    if ev.Enter? {
      SectionKeepsSubmit(s, ev.w, ev.now, ev.calls);
    } else if ev.Resume? {
      SectionKeepsSubmit(s.(idleCount := Dec(s.idleCount)), ev.w, ev.now, ev.calls);
    }
  }

  lemma CallerKeepsSubmit(s: Pool, ev: Event)
    requires SubmitInv(s) && Enabled(s, ev) && ByCaller(ev) && Careful(s, ev)
    ensures SubmitInv(Step(s, ev))
  {
  }

  lemma ControllerKeepsSubmit(s: Pool, ev: Event)
    requires SubmitInv(s) && Enabled(s, ev) && ByController(ev)
    ensures SubmitInv(Step(s, ev))
  {
  }

  lemma {:induction false} RunKeepsSubmit(s: Pool, evs: seq<Event>, rule: Rule)
    requires SafeInv(s) && SubmitInv(s) && IsRun(s, evs, rule) && WithinCareful(rule)
    ensures SubmitInv(After(s, evs, rule))
    decreases |evs|
  {
    if evs != [] {
      StepKeepsSafe(s, evs[0]);
      if ByWorker(evs[0]) {
        WorkerKeepsSubmit(s, evs[0]);
      } else if ByCaller(evs[0]) {
        CallerKeepsSubmit(s, evs[0]);
      } else {
        ControllerKeepsSubmit(s, evs[0]);
      }
      RunKeepsSubmit(Step(s, evs[0]), evs[1..], rule);
    }
  }

  // ---------------------------------------------------------------- deadlock freedom

  /** A step of a worker, of a notified submitter, or the one by which the controller
      releases worker_monitor_. No spurious wakeup and no timeout is among them. */
  predicate Advances(ev: Event) {
    ev.Greet? || ev.Enter? || ev.Resume? || ev.TaskEnd? || ev.AddResume? || ev.CtlSleep?
  }

  lemma NotifyOne<T>(waiters: set<T>, n: nat) returns (woken: set<T>)
    ensures Signals(waiters, n, woken)
  {
    woken := if n == 0 then {} else waiters;
  }

  lemma WorkerCanMove(s: Pool, w: nat) returns (ev: Event)
    requires OnlyOutsiders(s) && w < |s.workers|
    requires s.workers[w] in {Greeting, Ready, Woken} || s.workers[w].Running?
    ensures Enabled(s, ev) && Advances(ev) && !ev.AddResume?
    ensures ev.CtlSleep? ==> s.workers[w] == Greeting
  {
    if s.workers[w] == Ready {
      var calls := NotifyOne(s.blocked, if Announces(s, w, 0) then 1 else 0);
      ev := Enter(w, 0, calls);
    } else if s.workers[w] == Woken {
      var calls := NotifyOne(s.blocked, if Announces(s, w, 0) then 1 else 0);
      ev := Resume(w, 0, calls);
    } else if s.workers[w] == Greeting {
      ev := if s.ctl.WaitCommit? then CtlSleep else Greet(w);
    } else {
      ev := TaskEnd(w, false);
    }
  }

  /** While a task is pending, a worker can move, or it waits for worker_monitor_'s mutex to
      notify AddWorker and AddWorker can release that mutex. */
  lemma PendingTaskMoves(s: Pool) returns (ev: Event)
    requires CountInv(CoreOf(s)) && ManagedInv(s) && OnlyOutsiders(s)
    requires s.state == Started && s.workerCount >= 1 && s.tasks != []
    ensures Enabled(s, ev) && Advances(ev) && !ev.AddResume?
    ensures ev.CtlSleep? ==> SomeGreeting(s.workers)
  {
    var w := TotalWitness(s.workers, LiveN);
    assert StaysIn(s.workers[w]);
    if s.workers[w] == Asleep {
      TotalAtLeast(s.workers, AsleepN, w);
      w := TotalWitness(s.workers, WokenN);
    }
    ev := WorkerCanMove(s, w);
  }

  /** A started pool with an admitted worker never blocks while a task is pending, if pool
      threads call Add only once in id_map_; nor, in a careful run, while a submitter waits for
      room. If a task is pending the step is not a submitter's. */
  lemma DeadlockFree(limit: nat, evs: seq<Event>, rule: Rule) returns (ev: Event)
    requires IsRun(Init(limit), evs, rule) && WithinManaged(rule) && WithinRecorded(rule)
    requires var s := After(Init(limit), evs, rule);
             && s.state == Started && s.workerCount >= 1
             && (s.tasks != [] || (s.blocked + s.signalled != {} && WithinCareful(rule)))
    ensures var s := After(Init(limit), evs, rule);
            && Enabled(s, ev) && Advances(ev)
            && (s.tasks != [] ==> !ev.AddResume?) && (ev.CtlSleep? ==> SomeGreeting(s.workers))
  {
    var s := ManagedReached(limit, evs, rule);
    RunKeepsOutsiders(Init(limit), evs, rule);
    if s.tasks == [] {
      RunKeepsSubmit(Init(limit), evs, rule);
      var call :| call in s.signalled;
      var wakes := NotifyOne(Sleepers(s.workers), if Full(s) then 0 else PushSignals(s));
      ev := AddResume(call, 0, wakes);
    } else {
      ev := PendingTaskMoves(s);
    }
  }
}
