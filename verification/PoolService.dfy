/** Service: while the pool is started, what its workers can do before a queued task has left
    the queue is bounded, whatever everybody else does; and if pool threads call Add only once
    they are in id_map_, no queued task starves. */
module PoolService {
  import opened Totals
  import opened ThreadPool
  import opened PoolInvariants
  import opened PoolLedger
  import opened PoolSafety
  import opened PoolManaged
  import opened PoolProgress

  /** A managed run before its Stop or Join: spurious wakeups, timeouts, new workers, new
      submitters and clients that purge are all allowed. */
  predicate Serves(s: Pool, ev: Event) {
    Managed(s, ev) && !ev.CtlStop?
  }

  predicate ServesRecorded(s: Pool, ev: Event) {
    Serves(s, ev) && RecordedAdds(s, ev)
  }

  ghost predicate WithinServes(rule: Rule) {
    forall s, ev :: rule(s, ev) ==> Serves(s, ev)
  }

  ghost predicate Busy(s: Pool) {
    SafeInv(s) && ManagedInv(s) && s.state == Started
  }

  lemma BusyQueue(s: Pool)
    requires Busy(s)
    ensures s.workerCount <= s.workerMaxCount
    ensures |s.left| + |s.tasks| == |s.pushed|
  {
    OpenCount(s);
  }

  /** How many events of a kind a run has. */
  function Count(evs: seq<Event>, kind: Event -> bool): nat {
    if evs == [] then 0 else (if kind(evs[0]) then 1 else 0) + Count(evs[1..], kind)
  }

  predicate Takes(ev: Event) { ev.Enter? || ev.Resume? }
  predicate Ends(ev: Event) { ev.TaskEnd? }
  predicate Greets(ev: Event) { ev.Greet? }
  predicate Admits(ev: Event) { ev.Admit? }

  function GreetingN(p: Phase): nat { if p.Greeting? then 1 else 0 }

  function RunningNow(s: Pool): nat { Total(s.workers, RunningN) }
  function GreetingNow(s: Pool): nat { Total(s.workers, GreetingN) }

  function One(b: bool): nat { if b then 1 else 0 }

  /** While a task is queued, a worker that comes to the queue takes from it; it ends only what
      was running or taken, and greets only what was admitted. */
  ghost predicate Served(s: Pool, ev: Event, s': Pool) {
    && |s'.left| >= |s.left| + One(Takes(ev))
    && RunningNow(s') + One(Ends(ev)) <= RunningNow(s) + One(Takes(ev))
    && GreetingNow(s') + One(Greets(ev)) <= GreetingNow(s) + One(Admits(ev))
  }

  lemma MoveServed(s: Pool, s': Pool, ev: Event)
    requires ByWorker(ev) && ev.w < |s.workers| && ev.w < |s'.workers|
    requires s'.workers == s.workers[ev.w := s'.workers[ev.w]] && |s'.left| >= |s.left| + One(Takes(ev))
    requires RunningN(s'.workers[ev.w]) + One(Ends(ev)) <= RunningN(s.workers[ev.w]) + One(Takes(ev))
    requires GreetingN(s'.workers[ev.w]) + One(Greets(ev)) <= GreetingN(s.workers[ev.w]) + One(Admits(ev))
    ensures Served(s, ev, s')
  {
    TotalUpdate(s.workers, ev.w, s'.workers[ev.w], RunningN);
    TotalUpdate(s.workers, ev.w, s'.workers[ev.w], GreetingN);
  }

  lemma SectionMoves(s: Pool, w: nat, now: int, calls: set<AddCall>)
    requires w < |s.workers|
    ensures var s' := Section(s, w, now, calls);
            |s'.workers| == |s.workers| && s'.workers == s.workers[w := s'.workers[w]] && !s'.workers[w].Greeting?
  {
  }

  lemma SectionTakes(s: Pool, w: nat, now: int, calls: set<AddCall>)
    requires w < |s.workers| && IsActive(s) && s.tasks != []
    ensures |Section(s, w, now, calls).left| > |s.left|
  {
  }

  lemma TakeServed(s: Pool, ev: Event)
    requires s.workerCount <= s.workerMaxCount && s.tasks != [] && Enabled(s, ev) && Takes(ev)
    ensures Served(s, ev, Step(s, ev))
  {
    var s0 := if ev.Enter? then s else s.(idleCount := Dec(s.idleCount));
    SectionTakes(s0, ev.w, ev.now, ev.calls);
    SectionMoves(s0, ev.w, ev.now, ev.calls);
    MoveServed(s, Step(s, ev), ev);
  }

  lemma WorkerServed(s: Pool, ev: Event)
    requires s.workerCount <= s.workerMaxCount && s.tasks != [] && Enabled(s, ev) && ByWorker(ev)
    ensures Served(s, ev, Step(s, ev))
  {
    if Takes(ev) {
      TakeServed(s, ev);
    } else {
      MoveServed(s, Step(s, ev), ev);
    }
  }

  lemma CallerServed(s: Pool, ev: Event)
    requires Enabled(s, ev) && ByCaller(ev)
    ensures Served(s, ev, Step(s, ev))
  {
    if ev.Add? || ev.AddResume? {
      WakeTotal(s.workers, ev.wakes, RunningN);
      WakeTotal(s.workers, ev.wakes, GreetingN);
    }
  }

  lemma ControllerServed(s: Pool, ev: Event)
    requires LifeInv(s) && s.state == Started && Enabled(s, ev) && ByController(ev) && Serves(s, ev)
    ensures Served(s, ev, Step(s, ev))
  {
    if ev.CtlAdd? {
      TotalAppend(s.workers, NewWorkers(ev.value), RunningN);
      TotalAppend(s.workers, NewWorkers(ev.value), GreetingN);
      NewWorkersTotal(ev.value, RunningN);
      NewWorkersTotal(ev.value, GreetingN);
    } else if ev.CtlLaunch? {
      TotalUpdate(s.workers, s.ctl.next, Launched, RunningN);
      TotalUpdate(s.workers, s.ctl.next, Launched, GreetingN);
    }
  }

  lemma BusyServed(s: Pool, ev: Event)
    requires Busy(s) && s.tasks != [] && Enabled(s, ev) && Serves(s, ev)
    ensures Served(s, ev, Step(s, ev))
  {
    BusyQueue(s);
    if ByWorker(ev) {
      WorkerServed(s, ev);
    } else if ByCaller(ev) {
      CallerServed(s, ev);
    } else {
      ControllerServed(s, ev);
    }
  }

  lemma StartedStays(s: Pool, ev: Event)
    requires LifeInv(s) && s.state == Started && Enabled(s, ev) && Serves(s, ev)
    ensures Step(s, ev).state == Started
  {
  }

  /** Before the Stop nobody leaves. */
  lemma NobodyExits(s: Pool, ev: Event)
    requires OpenInv(s) && Enabled(s, ev)
    ensures !ev.Exit?
  {
  }

  lemma CountStays(s: Pool, ev: Event)
    requires Enabled(s, ev) && !ev.Exit? && (ev.Admit? ==> s.workerCount + 1 < WORD)
    ensures Step(s, ev).workerCount >= s.workerCount
  {
  }

  lemma BusyCount(s: Pool, ev: Event)
    requires OpenInv(s) && CountInv(CoreOf(s)) && Enabled(s, ev)
    ensures Step(s, ev).workerCount >= s.workerCount
  {
    NobodyExits(s, ev);
    if ev.Admit? { AdmitCounts(s, ev.w); }
    CountStays(s, ev);
  }

  lemma BusyStep(s: Pool, ev: Event)
    requires Busy(s) && Enabled(s, ev) && Serves(s, ev)
    ensures Busy(Step(s, ev)) && Step(s, ev).workerCount >= s.workerCount
  {
    StepKeepsSafe(s, ev);
    StepKeepsManaged(s, ev);
    StartedStays(s, ev);
    BusyCount(s, ev);
  }

  lemma QueueKept(s: Pool, ev: Event)
    requires Busy(s) && Enabled(s, ev) && Serves(s, ev)
    ensures |Step(s, ev).left| + |Step(s, ev).tasks| >= |s.left| + |s.tasks|
  {
    BusyStep(s, ev);
    BusyQueue(s);
    BusyQueue(Step(s, ev));
    StepHistory(s, ev);
  }

  lemma {:induction false} BusyRun(s: Pool, evs: seq<Event>, rule: Rule)
    requires Busy(s) && IsRun(s, evs, rule) && WithinServes(rule)
    ensures Busy(After(s, evs, rule)) && After(s, evs, rule).workerCount >= s.workerCount
    decreases |evs|
  {
    if evs != [] {
      BusyStep(s, evs[0]);
      BusyRun(Step(s, evs[0]), evs[1..], rule);
    }
  }

  /** What the workers can have done while the task with this many ahead of it stays queued. */
  ghost predicate FewSteps(s: Pool, evs: seq<Event>, ahead: nat) {
    && Count(evs, Takes) <= ahead
    && Count(evs, Ends) <= RunningNow(s) + ahead
    && Count(evs, Greets) <= GreetingNow(s) + Count(evs, Admits)
  }

  lemma FewStepsCons(s: Pool, s': Pool, evs: seq<Event>, ahead: nat, rest: nat)
    requires evs != [] && Served(s, evs[0], s') && FewSteps(s', evs[1..], rest)
    requires rest + |s'.left| <= ahead + |s.left|
    ensures FewSteps(s, evs, ahead)
  {
  }

  lemma {:induction false} QueuedMeansFewSteps(s: Pool, evs: seq<Event>, ahead: nat, rule: Rule)
    requires Busy(s) && IsRun(s, evs, rule) && WithinServes(rule) && ahead < |s.tasks|
    requires |After(s, evs, rule).left| <= |s.left| + ahead
    ensures FewSteps(s, evs, ahead)
    decreases |evs|
  {
    if evs != [] {
      var s' := Step(s, evs[0]);
      BusyStep(s, evs[0]);
      BusyServed(s, evs[0]);
      QueueKept(s, evs[0]);
      RunHistory(s', evs[1..], rule);
      var rest := ahead - (|s'.left| - |s.left|);
      QueuedMeansFewSteps(s', evs[1..], rest, rule);
      FewStepsCons(s, s', evs, ahead, rest);
    }
  }

  lemma TaskLeaves(s: Pool, more: seq<Event>, p: nat, rule: Rule)
    requires Busy(s) && p < |s.tasks| && IsRun(s, more, rule) && WithinServes(rule)
    ensures HasLeftQueue(s, p, After(s, more, rule)) || (FewSteps(s, more, p) && After(s, more, rule).tasks != [])
  {
    var s' := After(s, more, rule);
    BusyRun(s, more, rule);
    RunHistory(s, more, rule);
    if |s'.left| <= |s.left| + p {
      QueuedMeansFewSteps(s, more, p, rule);
      BusyQueue(s);
      BusyQueue(s');
    } else {
      LeavesAsItself(s, s', p);
    }
  }

  /** In every run of a started managed pool, whatever submitters, clients, the controller and
      spurious wakeups do, the p-th queued task leaves the queue before the workers come to the
      queue more than p times or end more than p tasks beside those running. */
  lemma QueuedTaskLeaves(limit: nat, evs: seq<Event>, more: seq<Event>, p: nat)
    requires IsRun(Init(limit), evs, Managed)
    requires var s := After(Init(limit), evs, Managed);
             s.state == Started && p < |s.tasks| && IsRun(s, more, Serves)
    ensures var s := After(Init(limit), evs, Managed);
            HasLeftQueue(s, p, After(s, more, Serves)) || FewSteps(s, more, p)
  {
    var s := ManagedReached(limit, evs, Managed);
    TaskLeaves(s, more, p, Serves);
  }

  /** The p-th task has left the queue; or the workers have taken few steps, and one of them, or
      AddWorker's release of the mutex it waits for, has another. */
  ghost predicate LeftOrMoves(s: Pool, p: nat, more: seq<Event>, s': Pool, ev: Event)
    requires p < |s.tasks|
  {
    || HasLeftQueue(s, p, s')
    || (FewSteps(s, more, p) && Enabled(s', ev) && Advances(ev) && !ev.AddResume?
        && (ev.CtlSleep? ==> SomeGreeting(s'.workers)))
  }

  lemma ServedOrMoves(s: Pool, more: seq<Event>, p: nat) returns (ev: Event)
    requires Busy(s) && OnlyOutsiders(s) && s.workerCount >= 1 && p < |s.tasks| && IsRun(s, more, ServesRecorded)
    ensures LeftOrMoves(s, p, more, After(s, more, ServesRecorded), ev)
  {
    var s' := After(s, more, ServesRecorded);
    BusyRun(s, more, ServesRecorded);
    RunKeepsOutsiders(s, more, ServesRecorded);
    TaskLeaves(s, more, p, ServesRecorded);
    ev := CtlSleep;
    if s'.tasks != [] {
      ev := PendingTaskMoves(s');
    }
  }

  /** No queued task starves in a started pool with a worker whose pool threads call Add only
      once they are in id_map_: as long as it is queued a worker has a step, and it has left
      once the workers have taken few. */
  lemma NoStarvation(limit: nat, evs: seq<Event>, more: seq<Event>, p: nat) returns (ev: Event)
    requires IsRun(Init(limit), evs, Recorded)
    requires var s := After(Init(limit), evs, Recorded);
             s.state == Started && s.workerCount >= 1 && p < |s.tasks| && IsRun(s, more, ServesRecorded)
    ensures var s := After(Init(limit), evs, Recorded);
            LeftOrMoves(s, p, more, After(s, more, ServesRecorded), ev)
  {
    var s := ManagedReached(limit, evs, Recorded);
    RunKeepsOutsiders(Init(limit), evs, Recorded);
    ev := ServedOrMoves(s, more, p);
  }
}
