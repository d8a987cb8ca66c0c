/** The final Stop or Join of a managed lifecycle: Stop freezes the queue, Join drains it, and
    both end. */
module PoolShutdown {
  import opened Totals
  import opened FiniteSets
  import opened ThreadPool
  import opened PoolSubmit
  import opened PoolInvariants
  import opened PoolLedger
  import opened PoolSafety
  import opened PoolManaged
  import opened PoolProgress

  // ---------------------------------------------------------------- Join drains

  ghost predicate SomeoneLeft(ws: seq<Phase>) {
    exists w :: 0 <= w < |ws| && HasLeft(ws[w])
  }

  /** While joining, a worker leaves only after everything queued at the Join has left. After
      the removal has returned, the thread indexes are empty. */
  ghost predicate DrainInv(s: Pool) {
    && s.mark <= |s.pushed|
    && (s.state == Joining && SomeoneLeft(s.workers) ==> s.mark <= |s.left|)
    && (Shut(s) && (s.ctl == StopFinish || s.ctl == Idle) ==> s.roster == {})
  }

  lemma SectionKeepsDrain(s: Pool, w: nat, now: int, calls: set<AddCall>)
    requires DrainInv(s) && LedgerInv(LedgerOf(s)) && w < |s.workers|
    requires s.workers[w] == Ready || s.workers[w] == Woken
    ensures DrainInv(Section(s, w, now, calls))
  {
  }

  lemma MoveKeepsDrain(s: Pool, s': Pool, w: nat, p: Phase)
    requires DrainInv(s) && w < |s.workers| && s'.workers == s.workers[w := p]
    requires HasLeft(p) ==> HasLeft(s.workers[w])
    requires s'.mark == s.mark && s'.pushed == s.pushed && s'.left == s.left && s'.roster == s.roster
    requires s'.state == s.state && (s'.ctl == s.ctl || (s.ctl.WaitAsleep? && s'.ctl.WaitCheck?))
    ensures DrainInv(s')
  {
  }

  lemma WorkerKeepsDrain(s: Pool, ev: Event)
    requires DrainInv(s) && LedgerInv(LedgerOf(s)) && CountInv(CoreOf(s)) && Enabled(s, ev) && ByWorker(ev)
    ensures DrainInv(Step(s, ev))
  {
    if ev.Enter? {
      SectionKeepsDrain(s, ev.w, ev.now, ev.calls);
    } else if ev.Resume? {
      SectionKeepsDrain(s.(idleCount := Dec(s.idleCount)), ev.w, ev.now, ev.calls);
    } else {
      if ev.Admit? { AdmitCounts(s, ev.w); }
      MoveKeepsDrain(s, Step(s, ev), ev.w, Step(s, ev).workers[ev.w]);
    }
  }

  lemma CallerKeepsDrain(s: Pool, ev: Event)
    requires DrainInv(s) && Enabled(s, ev) && ByCaller(ev)
    ensures DrainInv(Step(s, ev))
  {
  }

  /** Once every worker is gone, reaping dead_workers_ empties all three indexes. */
  lemma ReapEmpties(s: Pool)
    requires SafeInv(s) && s.workerCount == 0 && Pending(s) == 0
    ensures Reap(s).roster == {} && Reap(s).recorded == {}
    ensures forall w :: 0 <= w < |s.workers| ==> s.workers[w] == Gone
  {
    TotalZero(s.workers, LiveN);
    TotalZero(s.workers, PendingN);
    forall w | 0 <= w < |s.workers| ensures s.workers[w] == Gone {
      assert LiveN(s.workers[w]) == 0 && PendingN(s.workers[w]) == 0;
    }
  }

  lemma NobodyLeavesByControl(s: Pool, ev: Event)
    requires Enabled(s, ev) && ByController(ev)
    ensures SomeoneLeft(Step(s, ev).workers) ==> SomeoneLeft(s.workers)
  {
  }

  lemma CheckKeepsDrain(s: Pool)
    requires DrainInv(s) && SafeInv(s) && LifeInv(s) && Enabled(s, CtlCheck)
    ensures DrainInv(Step(s, CtlCheck))
  {
    if s.ctl.op.Removing? && s.workerCount == s.workerMaxCount {
      ReapEmpties(s);
    }
  }

  lemma OtherControlKeepsDrain(s: Pool, ev: Event)
    requires DrainInv(s) && LifeInv(s) && Enabled(s, ev) && ByController(ev) && Managed(s, ev) && !ev.CtlCheck?
    ensures DrainInv(Step(s, ev))
  {
    NobodyLeavesByControl(s, ev);
  }

  lemma ControllerKeepsDrain(s: Pool, ev: Event)
    requires DrainInv(s) && SafeInv(s) && LifeInv(s) && Enabled(s, ev) && ByController(ev) && Managed(s, ev)
    ensures DrainInv(Step(s, ev))
  {
    if ev.CtlCheck? {
      CheckKeepsDrain(s);
    } else {
      OtherControlKeepsDrain(s, ev);
    }
  }

  lemma {:induction false} RunKeepsDrain(s: Pool, evs: seq<Event>, rule: Rule)
    requires SafeInv(s) && ManagedInv(s) && DrainInv(s) && IsRun(s, evs, rule) && WithinManaged(rule)
    ensures DrainInv(After(s, evs, rule))
    decreases |evs|
  {
    if evs != [] {
      StepKeepsSafe(s, evs[0]);
      StepKeepsManaged(s, evs[0]);
      if ByWorker(evs[0]) {
        WorkerKeepsDrain(s, evs[0]);
      } else if ByCaller(evs[0]) {
        CallerKeepsDrain(s, evs[0]);
      } else {
        ControllerKeepsDrain(s, evs[0]);
      }
      RunKeepsDrain(Step(s, evs[0]), evs[1..], rule);
    }
  }

  /** Task i has been run to its end, has expired, or was taken by RemoveNextPending. */
  ghost predicate Settled(s: Pool, i: nat) {
    i < |s.left| && (s.left[i].Dispatched? ==> i in s.finished)
  }

  /** The RemoveWorker of a Join is about to return. */
  predicate JoinReturns(s: Pool) {
    s.ctl == WaitCheck(Removing(true)) && s.workerCount == s.workerMaxCount
  }

  lemma MarkedDrained(s: Pool)
    requires SafeInv(s) && ManagedInv(s) && DrainInv(s) && JoinReturns(s) && s.state == Joining
    ensures forall w :: 0 <= w < |s.workers| ==> s.workers[w] == Gone
    ensures |s.workers| > 0 ==> forall i :: 0 <= i < s.mark ==> Settled(s, i)
    ensures |s.workers| == 0 ==> forall i :: 0 <= i < |s.left| ==> !s.left[i].Dispatched?
  {
    ReapEmpties(s);
    if |s.workers| > 0 {
      assert HasLeft(s.workers[0]);
    }
    forall i | 0 <= i < |s.left| && s.left[i].Dispatched? ensures |s.workers| > 0 && Settled(s, i) {
      assert Accounted(LedgerOf(s), i);
    }
  }

  /** JOINING is set with the mark at the number of pushes, so the tasks queued then are those
      with an id from the number of departures to the mark. */
  lemma JoinMarksQueue(s: Pool, join: bool)
    requires SafeInv(s) && s.state in {Uninitialized, Started}
    ensures var s' := DoCtlStop(s, join);
            && s'.state == (if join then Joining else Stopping)
            && s'.tasks == s.pushed[|s.left|..s'.mark]
  {
  }

  lemma OnlyControllerStops(s: Pool, ev: Event)
    requires Enabled(s, ev) && !ByController(ev)
    ensures Step(s, ev).state == s.state && Step(s, ev).mark == s.mark
  {
  }

  lemma JoiningStep(s: Pool, ev: Event)
    requires (s.state == Joining || s.state == Stopped) && Enabled(s, ev)
    ensures var t := Step(s, ev); (t.state == Joining || t.state == Stopped) && t.mark == s.mark
  {
    if !ByController(ev) {
      OnlyControllerStops(s, ev);
    }
  }

  lemma {:induction false} JoiningStays(s: Pool, evs: seq<Event>, rule: Rule)
    requires (s.state == Joining || s.state == Stopped) && IsRun(s, evs, rule)
    ensures var t := After(s, evs, rule); (t.state == Joining || t.state == Stopped) && t.mark == s.mark
    decreases |evs|
  {
    if evs != [] {
      JoiningStep(s, evs[0]);
      JoiningStays(Step(s, evs[0]), evs[1..], rule);
    }
  }

  ghost predicate Draining(s: Pool) { SafeInv(s) && ManagedInv(s) && DrainInv(s) }

  lemma JoinKeepsDrain(s: Pool)
    requires Draining(s) && Enabled(s, CtlStop(true))
    ensures Draining(Step(s, CtlStop(true)))
  {
    StepKeepsSafe(s, CtlStop(true));
    StepKeepsManaged(s, CtlStop(true));
    ControllerKeepsDrain(s, CtlStop(true));
  }

  /** Everything kept about a managed run up to its Join. */
  lemma JoinBegins(limit: nat, before: seq<Event>)
    requires IsRun(Init(limit), before, Managed)
    requires Enabled(After(Init(limit), before, Managed), CtlStop(true))
    ensures Draining(After(Init(limit), before, Managed))
    ensures Draining(Step(After(Init(limit), before, Managed), CtlStop(true)))
  {
    var s := ManagedReached(limit, before, Managed);
    RunKeepsDrain(Init(limit), before, Managed);
    JoinKeepsDrain(s);
  }

  /** The p-th task queued in s has left by s', and if it was dispatched its run has ended. */
  ghost predicate Drained(s: Pool, p: nat, s': Pool)
    requires p < |s.tasks|
  {
    HasLeftQueue(s, p, s') && Settled(s', |s.left| + p)
  }

  /** What holds when a Join called in s returns in s'. */
  ghost predicate JoinDone(s: Pool, s': Pool) {
    && (forall w :: 0 <= w < |s'.workers| ==> s'.workers[w] == Gone)
    && (|s'.workers| > 0 ==> forall p :: 0 <= p < |s.tasks| ==> Drained(s, p, s'))
    && (|s'.workers| == 0 ==> forall i :: 0 <= i < |s'.left| ==> !s'.left[i].Dispatched?)
  }

  lemma JoinSettles(s: Pool, s': Pool)
    requires SafeInv(s) && Draining(s') && JoinReturns(s') && s'.mark == |s.pushed| && s.pushed <= s'.pushed
    requires s'.state == Joining || s'.state == Stopped
    ensures JoinDone(s, s')
  {
    MarkedDrained(s');
    if |s'.workers| > 0 {
      forall p | 0 <= p < |s.tasks| ensures Drained(s, p, s') {
        assert Settled(s', |s.left| + p);
        LeavesAsItself(s, s', p);
      }
    }
  }

  lemma JoinRun(s: Pool, after: seq<Event>)
    requires Draining(s) && Draining(DoCtlStop(s, true)) && (s.state == Uninitialized || s.state == Started)
    requires IsRun(DoCtlStop(s, true), after, Managed) && JoinReturns(After(DoCtlStop(s, true), after, Managed))
    ensures JoinDone(s, After(DoCtlStop(s, true), after, Managed))
  {
    var s1 := DoCtlStop(s, true);
    var s' := After(s1, after, Managed);
    RunKeepsManaged(s1, after, Managed);
    RunKeepsDrain(s1, after, Managed);
    JoiningStays(s1, after, Managed);
    RunHistory(s1, after, Managed);
    JoinSettles(s, s');
  }

  /** When the RemoveWorker of a Join is about to return: no worker is between admission and
      exit; with at least one worker, every task that was queued when Join was called has been
      run to its end, expired or been removed; with none, no task was ever dispatched. */
  lemma JoinDrains(limit: nat, before: seq<Event>, after: seq<Event>)
    requires IsRun(Init(limit), before, Managed)
    requires var s := After(Init(limit), before, Managed);
             && s.ctl == Idle && (s.state == Uninitialized || s.state == Started)
             && IsRun(Step(s, CtlStop(true)), after, Managed)
             && JoinReturns(After(Step(s, CtlStop(true)), after, Managed))
    ensures var s := After(Init(limit), before, Managed);
            JoinDone(s, After(Step(s, CtlStop(true)), after, Managed))
  {
    JoinBegins(limit, before);
    JoinRun(After(Init(limit), before, Managed), after);
  }

  /** When the single Stop or Join returns, workers_, id_map_ and dead_workers_ are empty. */
  lemma StopEmptiesIndexes(limit: nat, evs: seq<Event>)
    requires IsRun(Init(limit), evs, Managed)
    requires After(Init(limit), evs, Managed).state == Stopped
    ensures var s := After(Init(limit), evs, Managed);
            s.roster == {} && s.recorded == {} && s.dead == {}
  {
    var s := ManagedReached(limit, evs, Managed);
    RunKeepsDrain(Init(limit), evs, Managed);
  }

  // ---------------------------------------------------------------- Stop freezes the queue

  function DispatchedN(d: Departure): nat { if d.Dispatched? then 1 else 0 }

  /** Stop has set STOPPING (or finished) and lowered the limit. */
  ghost predicate Frozen(s: Pool) {
    SafeInv(s) && ManagedInv(s) && Shut(s) && (s.state == Stopping || s.state == Stopped)
  }

  /** What a step may do to a frozen queue. */
  ghost predicate OnlySleepersPush(s: Pool, ev: Event, s': Pool) {
    && Total(s'.left, DispatchedN) == Total(s.left, DispatchedN)
    && s'.blocked + s'.signalled <= s.blocked + s.signalled
    && (s'.pushed == s.pushed || (ev.AddResume? && ev.call in s.signalled && |s'.pushed| == |s.pushed| + 1))
  }

  lemma PurgeDispatchesNone(s: Pool, now: int)
    ensures Total(Purge(s, now).left, DispatchedN) == Total(s.left, DispatchedN)
  {
    ExpiredPrefixIsLongest(s.tasks, now);
    var n := ExpiredPrefix(s.tasks, now);
    var out := AsExpired(s.tasks[..n]);
    TotalAppend(s.left, out, DispatchedN);
    TotalZero(out, DispatchedN);
  }

  lemma FrozenResume(s: Pool, ev: Event)
    requires Enabled(s, ev) && ev.AddResume?
    ensures OnlySleepersPush(s, ev, Step(s, ev))
  {
    SetSizes(s.signalled, s.blocked, {ev.call});
  }

  lemma FrozenRemove(s: Pool)
    ensures OnlySleepersPush(s, RemoveNext, DoRemoveNext(s))
  {
    if s.tasks != [] {
      TotalAppend(s.left, [Removed(s.tasks[0])], DispatchedN);
    }
  }

  lemma FrozenCaller(s: Pool, ev: Event)
    requires s.state != Started && Enabled(s, ev) && ByCaller(ev)
    ensures OnlySleepersPush(s, ev, Step(s, ev))
  {
    if ev.PurgeNow? {
      PurgeDispatchesNone(s, ev.now);
    } else if ev.RemoveNext? {
      FrozenRemove(s);
    } else if ev.AddResume? {
      FrozenResume(s, ev);
    }
  }

  lemma FrozenWorker(s: Pool, ev: Event)
    requires s.workerMaxCount == 0 && s.workerCount == Live(s) && s.state != Joining
    requires Enabled(s, ev) && ByWorker(ev)
    ensures OnlySleepersPush(s, ev, Step(s, ev))
  {
    if ev.Enter? {
      ShutSection(s, ev.w, ev.now, ev.calls);
    } else if ev.Resume? {
      ShutSection(s.(idleCount := Dec(s.idleCount)), ev.w, ev.now, ev.calls);
    }
  }

  /** Shutdown is not undone, and STOPPING or JOINING only gives way to STOPPED. */
  lemma ShutStays(s: Pool, ev: Event)
    requires Shut(s) && ShutInv(s) && Enabled(s, ev) && Managed(s, ev)
    ensures Shut(Step(s, ev)) && (Step(s, ev).state == s.state || Step(s, ev).state == Stopped)
  {
  }

  lemma FrozenController(s: Pool, ev: Event)
    requires Shut(s) && ShutInv(s) && Enabled(s, ev) && ByController(ev) && Managed(s, ev)
    ensures OnlySleepersPush(s, ev, Step(s, ev))
  {
  }

  lemma FrozenStep(s: Pool, ev: Event)
    requires Frozen(s) && Enabled(s, ev) && Managed(s, ev)
    ensures OnlySleepersPush(s, ev, Step(s, ev))
    ensures Frozen(Step(s, ev))
  {
    StepKeepsSafe(s, ev);
    StepKeepsManaged(s, ev);
    ShutStays(s, ev);
    if ByWorker(ev) {
      FrozenWorker(s, ev);
    } else if ByCaller(ev) {
      FrozenCaller(s, ev);
    } else {
      FrozenController(s, ev);
    }
  }

  /** Since s nothing was dispatched and no call has started to wait; each call that waited in s
      waits on, has pushed its one task or has been given up. */
  ghost predicate FrozenSince(s: Pool, evs: seq<Event>, s': Pool) {
    && Total(s'.left, DispatchedN) == Total(s.left, DispatchedN)
    && InWait(s') <= InWait(s)
    && |s'.pushed| + |InWait(s')| + GivenUp(evs) == |s.pushed| + |InWait(s)|
  }

  lemma FrozenBalance(s: Pool, ev: Event)
    requires Apart(s) && s.state != Started && Enabled(s, ev)
    ensures Apart(Step(s, ev))
    ensures |Step(s, ev).pushed| + |InWait(Step(s, ev))| + GivenUpBy(ev) == |s.pushed| + |InWait(s)|
  {
    StepConserves(s, ev);
  }

  lemma {:induction false} FrozenRun(s: Pool, evs: seq<Event>)
    requires Frozen(s) && Apart(s) && IsRun(s, evs, Managed)
    ensures FrozenSince(s, evs, After(s, evs, Managed))
    decreases |evs|
  {
    if evs != [] {
      FrozenStep(s, evs[0]);
      FrozenBalance(s, evs[0]);
      FrozenRun(Step(s, evs[0]), evs[1..]);
    }
  }

  /** After Stop has lowered the limit no task is ever dispatched again. Later pushes come only
      from Add calls that were already asleep in it, one from each that has stopped waiting and
      not timed out. */
  lemma StopFreezesQueue(limit: nat, evs: seq<Event>, more: seq<Event>)
    requires IsRun(Init(limit), evs, Managed)
    requires var s := After(Init(limit), evs, Managed);
             s.state == Stopping && Shut(s) && IsRun(s, more, Managed)
    ensures var s := After(Init(limit), evs, Managed);
            FrozenSince(s, more, After(s, more, Managed))
  {
    var s := ManagedReached(limit, evs, Managed);
    RunConserves(Init(limit), evs, Managed);
    FrozenRun(s, more);
  }
}
