/** The managed lifecycle: workers are removed only by the one final Stop or Join. */
module PoolManaged {
  import opened Totals
  import opened FiniteSets
  import opened ThreadPool
  import opened PoolInvariants
  import opened PoolSafety

  predicate Managed(s: Pool, ev: Event) {
    !ev.CtlRemove? && (ev.CtlAdd? ==> s.state == Uninitialized || s.state == Started)
  }

  /** The final Stop or Join has lowered the worker limit. */
  predicate Shut(s: Pool) {
    || s.state == Stopped || s.ctl == StopFinish
    || ((s.ctl.WaitCheck? || s.ctl.WaitCommit? || s.ctl.WaitAsleep?) && s.ctl.op.Removing?)
  }

  predicate StaysIn(p: Phase) { p != Leaving && p != Gone }
  predicate StaysUp(p: Phase) { p != Asleep && p != Created && p != Launched }

  /** Before shutdown nobody has left and the limit counts every worker ever created. */
  ghost predicate OpenInv(s: Pool) {
    && (forall w :: 0 <= w < |s.workers| ==> StaysIn(s.workers[w]))
    && s.workerMaxCount == |s.workers|
    && (match s.ctl
        case StopCount => s.state == Joining || s.state == Stopping
        case RemoveEnter(value, stop) =>
          stop && value == s.workerMaxCount && (s.state == Joining || s.state == Stopping)
        case _ => s.state == Uninitialized || s.state == Started)
  }

  /** After it the limit is zero and no worker sleeps. */
  ghost predicate ShutInv(s: Pool) {
    && (forall w :: 0 <= w < |s.workers| ==> StaysUp(s.workers[w]))
    && s.workerMaxCount == 0
    && (match s.ctl
        case Idle => s.state == Stopped
        case WaitCheck(op) => op == Removing(true) && (s.state == Joining || s.state == Stopping)
        case WaitCommit(op) => op == Removing(true) && (s.state == Joining || s.state == Stopping)
        case WaitAsleep(op) => op == Removing(true) && (s.state == Joining || s.state == Stopping)
        case StopFinish => s.state == Joining || s.state == Stopping || s.state == Stopped
        case _ => false)
  }

  function Sleeping(s: Pool): nat { Total(s.workers, AsleepN) }
  function Awoken(s: Pool): nat { Total(s.workers, WokenN) }

  /** While a worker sleeps un-notified, every pending task has a notified worker coming. */
  ghost predicate WorkSignalled(s: Pool) {
    Sleeping(s) > 0 ==> |s.tasks| <= Awoken(s)
  }

  ghost predicate LifeInv(s: Pool) {
    if Shut(s) then ShutInv(s) else OpenInv(s)
  }

  ghost predicate ManagedInv(s: Pool) {
    LifeInv(s) && WorkSignalled(s)
  }

  lemma MoveSleepers(ws: seq<Phase>, w: nat, p: Phase)
    requires w < |ws|
    ensures Total(ws[w := p], AsleepN) == Total(ws, AsleepN) - AsleepN(ws[w]) + AsleepN(p)
    ensures Total(ws[w := p], WokenN) == Total(ws, WokenN) - WokenN(ws[w]) + WokenN(p)
  {
    TotalUpdate(ws, w, p, AsleepN);
    TotalUpdate(ws, w, p, WokenN);
  }

  lemma WakeSleepers(ws: seq<Phase>, wakes: set<nat>)
    requires wakes <= Sleepers(ws)
    ensures Total(Wake(ws, wakes), AsleepN) == Total(ws, AsleepN) - |wakes|
    ensures Total(Wake(ws, wakes), WokenN) == Total(ws, WokenN) + |wakes|
  {
    WakeTotal(ws, wakes, AsleepN);
    WakeTotal(ws, wakes, WokenN);
  }

  /** In shutdown a worker still inside finds itself inactive unless it drains for a Join. */
  lemma ShutSection(s: Pool, w: nat, now: int, calls: set<AddCall>)
    requires s.workerMaxCount == 0 && s.workerCount == Live(s)
    requires w < |s.workers| && (s.workers[w] == Ready || s.workers[w] == Woken)
    ensures IsActive(s) <==> s.state == Joining && s.tasks != []
    ensures var p := Section(s, w, now, calls).workers[w];
            (!IsActive(s) ==> p == Leaving) && p != Asleep
  {
    TotalAtLeast(s.workers, LiveN, w);
  }

  lemma PurgeShrinks(s: Pool, w: nat, now: int)
    requires w < |s.workers| && s.tasks != []
    ensures |Take(Purge(s, now), w).tasks| < |s.tasks|
  {
  }

  lemma SectionKeepsLife(s: Pool, w: nat, now: int, calls: set<AddCall>)
    requires LifeInv(s) && w < |s.workers| && (s.workers[w] == Ready || s.workers[w] == Woken)
    requires s.workerCount == Live(s) && (Shut(s) || s.workerCount <= s.workerMaxCount)
    ensures LifeInv(Section(s, w, now, calls))
  {
    var s' := Section(s, w, now, calls);
    var p := s'.workers[w];
    assert s'.workers == s.workers[w := p];
    if Shut(s) {
      ShutSection(s, w, now, calls);
      assert StaysUp(p);
    } else {
      assert StaysIn(p);
    }
  }

  lemma SectionKeepsSignal(s: Pool, w: nat, now: int, calls: set<AddCall>)
    requires WorkSignalled(s) && w < |s.workers| && (s.workers[w] == Ready || s.workers[w] == Woken)
    requires IsActive(s)
    ensures WorkSignalled(Section(s, w, now, calls))
  {
    var s' := Section(s, w, now, calls);
    MoveSleepers(s.workers, w, s'.workers[w]);
    if s.tasks != [] {
      PurgeShrinks(s, w, now);
    }
  }

  lemma ShutSignal(s: Pool)
    requires ShutInv(s)
    ensures WorkSignalled(s)
  {
    assert forall w :: 0 <= w < |s.workers| ==> StaysUp(s.workers[w]) && AsleepN(s.workers[w]) == 0;
    TotalZero(s.workers, AsleepN);
  }

  lemma SectionKeepsManaged(s: Pool, w: nat, now: int, calls: set<AddCall>)
    requires ManagedInv(s) && w < |s.workers| && (s.workers[w] == Ready || s.workers[w] == Woken)
    requires s.workerCount == Live(s) && (Shut(s) || s.workerCount <= s.workerMaxCount)
    ensures ManagedInv(Section(s, w, now, calls))
  {
    SectionKeepsLife(s, w, now, calls);
    if Shut(s) {
      ShutSignal(Section(s, w, now, calls));
    } else {
      SectionKeepsSignal(s, w, now, calls);
    }
  }

  lemma MoveKeepsManaged(s: Pool, s': Pool, w: nat, p: Phase)
    requires ManagedInv(s) && w < |s.workers|
    requires s'.workers == s.workers[w := p] && s'.workerMaxCount == s.workerMaxCount && s'.tasks == s.tasks
    requires s'.state == s.state && (s'.ctl == s.ctl || (s.ctl.WaitAsleep? && s'.ctl == WaitCheck(s.ctl.op)))
    requires if Shut(s) then StaysUp(p) else StaysIn(p)
    requires WokenN(p) >= WokenN(s.workers[w]) && p != Asleep
    ensures ManagedInv(s')
  {
    MoveSleepers(s.workers, w, p);
  }

  lemma WorkerKeepsManaged(s: Pool, ev: Event)
    requires ManagedInv(s) && CountInv(CoreOf(s)) && Enabled(s, ev) && ByWorker(ev)
    ensures ManagedInv(Step(s, ev))
  {
    if ev.Enter? {
      SectionKeepsManaged(s, ev.w, ev.now, ev.calls);
    } else if ev.Resume? {
      SectionKeepsManaged(s.(idleCount := Dec(s.idleCount)), ev.w, ev.now, ev.calls);
    } else {
      if ev.Admit? { AdmitCounts(s, ev.w); }
      MoveKeepsManaged(s, Step(s, ev), ev.w, Step(s, ev).workers[ev.w]);
    }
  }

  lemma PushKeepsManaged(s: Pool, call: AddCall, stamp: int, wakes: set<nat>)
    requires ManagedInv(s) && Counters(CoreOf(s)) && Signals(Sleepers(s.workers), PushSignals(s), wakes)
    ensures ManagedInv(Push(s, call, stamp, wakes))
  {
    var s' := Push(s, call, stamp, wakes);
    WakeSleepers(s.workers, wakes);
    SleepersTotal(s.workers);
    TotalMono(s.workers, AsleepN, IdleN);
    assert forall w :: 0 <= w < |s.workers| ==> s'.workers[w] == s.workers[w] || (s.workers[w] == Asleep && s'.workers[w] == Woken);
  }

  lemma FewerTasksKeepManaged(s: Pool, s': Pool)
    requires ManagedInv(s)
    requires s'.workers == s.workers && s'.workerMaxCount == s.workerMaxCount && s'.state == s.state
    requires s'.ctl == s.ctl && |s'.tasks| <= |s.tasks|
    ensures ManagedInv(s')
  {
  }

  lemma CallerKeepsManaged(s: Pool, ev: Event)
    requires ManagedInv(s) && CountInv(CoreOf(s)) && Enabled(s, ev) && ByCaller(ev)
    ensures ManagedInv(Step(s, ev))
  {
    if ev.Add? && AddPushes(s, ev.now) {
      ExpiredPrefixIsLongest(s.tasks, ev.now);
      PushKeepsManaged(Purge(s, ev.now), ev.call, ev.stamp, ev.wakes);
    } else if ev.AddResume? && !Full(s) {
      PushKeepsManaged(s.(signalled := s.signalled - {ev.call}), ev.call, ev.stamp, ev.wakes);
    } else {
      if ev.Add? || ev.PurgeNow? { ExpiredPrefixIsLongest(s.tasks, ev.now); }
      FewerTasksKeepManaged(s, Step(s, ev));
    }
  }

  /** RemoveWorker's signals reach every sleeping worker, in either of its two branches. */
  lemma ShrinkWakesAll(s: Pool, value: nat, wakes: set<nat>)
    requires Counters(CoreOf(s)) && value <= s.workerMaxCount
    requires Signals(Sleepers(s.workers), ShrinkSignals(s, value), wakes)
    ensures wakes == Sleepers(s.workers)
  {
    SleepersTotal(s.workers);
    TotalMono(s.workers, AsleepN, IdleN);
    if wakes != Sleepers(s.workers) {
      SameSize(wakes, Sleepers(s.workers));
    }
  }

  lemma ShrinkKeepsManaged(s: Pool, wakes: set<nat>)
    requires OpenInv(s) && CountInv(CoreOf(s)) && s.ctl.RemoveEnter?
    requires Signals(Sleepers(s.workers), ShrinkSignals(s, s.ctl.value), wakes)
    ensures ManagedInv(DoCtlShrink(s, s.ctl.value, s.ctl.stop, wakes))
  {
    var s' := DoCtlShrink(s, s.ctl.value, s.ctl.stop, wakes);
    ShrinkWakesAll(s, s.ctl.value, wakes);
    TotalZero(s.workers, PendingN);
    forall w | 0 <= w < |s'.workers| ensures StaysUp(s'.workers[w]) {
      assert PendingN(s.workers[w]) == 0;
      assert s.workers[w] == Asleep ==> w in wakes;
    }
    ShutSignal(s');
  }

  function OneN(p: Phase): nat { 1 }

  lemma {:induction false} TotalOnes(ws: seq<Phase>)
    ensures Total(ws, OneN) == |ws|
  {
    if ws != [] { TotalOnes(ws[..|ws| - 1]); }
  }

  lemma OpenCount(s: Pool)
    requires OpenInv(s) && CountInv(CoreOf(s))
    ensures s.workerCount + Pending(s) == |s.workers|
  {
    forall w | 0 <= w < |s.workers| ensures OneN(s.workers[w]) == LiveN(s.workers[w]) + PendingN(s.workers[w]) {
      assert StaysIn(s.workers[w]);
    }
    TotalSum(s.workers, OneN, LiveN, PendingN);
    TotalOnes(s.workers);
  }

  lemma AddWorkersKeepsManaged(s: Pool, value: nat)
    requires OpenInv(s) && WorkSignalled(s) && s.ctl == Idle
    ensures ManagedInv(DoCtlAdd(s, value))
  {
    var s' := DoCtlAdd(s, value);
    TotalAppend(s.workers, NewWorkers(value), AsleepN);
    TotalAppend(s.workers, NewWorkers(value), WokenN);
    NewWorkersTotal(value, AsleepN);
    NewWorkersTotal(value, WokenN);
    forall w | 0 <= w < |s'.workers| ensures StaysIn(s'.workers[w]) {
      if w < |s.workers| { assert StaysIn(s.workers[w]); }
    }
  }

  lemma StartKeepsManaged(s: Pool)
    requires ManagedInv(s) && s.ctl == Idle
    ensures ManagedInv(DoCtlStart(s))
  {
    WakeSleepers(s.workers, Sleepers(s.workers));
    SleepersTotal(s.workers);
  }

  lemma LaunchKeepsManaged(s: Pool)
    requires ManagedInv(s) && CountInv(CoreOf(s)) && Enabled(s, CtlLaunch)
    ensures ManagedInv(Step(s, CtlLaunch))
  {
    MoveSleepers(s.workers, s.ctl.next, Launched);
  }

  lemma ReadKeepsManaged(s: Pool)
    requires ManagedInv(s) && CountInv(CoreOf(s)) && s.ctl == StopCount
    ensures ManagedInv(Step(s, CtlReadCount))
  {
    OpenCount(s);
  }

  /** The controller's steps that touch neither the workers nor their limit. */
  predicate OnlyControl(ev: Event) {
    ev.CtlRecord? || ev.CtlLaunched? || ev.CtlStop? || ev.CtlCheck? || ev.CtlSleep? || ev.CtlSpurious? || ev.CtlFinish?
  }

  lemma ControlKeepsLife(s: Pool, ev: Event)
    requires LifeInv(s) && Enabled(s, ev) && OnlyControl(ev)
    ensures LifeInv(Step(s, ev))
  {
  }

  lemma ControlKeepsManaged(s: Pool, ev: Event)
    requires ManagedInv(s) && Enabled(s, ev) && OnlyControl(ev)
    ensures ManagedInv(Step(s, ev))
  {
    ControlKeepsLife(s, ev);
    assert Step(s, ev).workers == s.workers && Step(s, ev).tasks == s.tasks;
  }

  lemma ControllerKeepsManaged(s: Pool, ev: Event)
    requires ManagedInv(s) && CountInv(CoreOf(s)) && Enabled(s, ev) && ByController(ev) && Managed(s, ev)
    ensures ManagedInv(Step(s, ev))
  {
    match ev
    case CtlShrink(wakes) => ShrinkKeepsManaged(s, wakes);
    case CtlAdd(value) => AddWorkersKeepsManaged(s, value);
    case CtlStart => StartKeepsManaged(s);
    case CtlLaunch => LaunchKeepsManaged(s);
    case CtlReadCount => ReadKeepsManaged(s);
    case _ => ControlKeepsManaged(s, ev);
  }

  lemma StepKeepsManaged(s: Pool, ev: Event)
    requires ManagedInv(s) && SafeInv(s) && Enabled(s, ev) && Managed(s, ev)
    ensures ManagedInv(Step(s, ev))
  {
    if ByWorker(ev) {
      WorkerKeepsManaged(s, ev);
    } else if ByCaller(ev) {
      CallerKeepsManaged(s, ev);
    } else {
      ControllerKeepsManaged(s, ev);
    }
  }

  /** A rule that allows only managed events. */
  ghost predicate WithinManaged(rule: Rule) {
    forall s, ev :: rule(s, ev) ==> Managed(s, ev)
  }

  lemma {:induction false} RunKeepsManaged(s: Pool, evs: seq<Event>, rule: Rule)
    requires SafeInv(s) && ManagedInv(s) && IsRun(s, evs, rule) && WithinManaged(rule)
    ensures SafeInv(After(s, evs, rule)) && ManagedInv(After(s, evs, rule))
    decreases |evs|
  {
    if evs != [] {
      StepKeepsSafe(s, evs[0]);
      StepKeepsManaged(s, evs[0]);
      RunKeepsManaged(Step(s, evs[0]), evs[1..], rule);
    }
  }
}
