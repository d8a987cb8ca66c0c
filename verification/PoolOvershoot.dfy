/** RemoveWorker separates a worker's decision to leave from the decrement of worker_count_,
    so a partial removal can lose more workers than asked for, and then never return. */
module PoolOvershoot {
  import opened Totals
  import opened ThreadPool
  import opened PoolInvariants
  import opened PoolManaged
  import opened PoolProgress

  predicate InRemoval(c: Control) {
    (c.WaitCheck? || c.WaitCommit? || c.WaitAsleep?) && c.op.Removing?
  }

  /** RemoveWorker waits for the counts to agree, and they have passed each other. */
  predicate Overshot(s: Pool) {
    InRemoval(s.ctl) && s.workerCount < s.workerMaxCount
  }

  // ---------------------------------------------------------------- no way back

  lemma OvershotWorker(s: Pool, ev: Event)
    requires Overshot(s) && CountInv(CoreOf(s)) && Enabled(s, ev) && ByWorker(ev)
    ensures Overshot(Step(s, ev))
  {
    if ev.Admit? {
      TotalAtLeast(s.workers, PendingN, ev.w);
      assert false;
    } else if ev.Exit? {
      ExitKeepsCount(s, ev.w);
    }
  }

  lemma OvershotCaller(s: Pool, ev: Event)
    requires Overshot(s) && Enabled(s, ev) && ByCaller(ev)
    ensures Overshot(Step(s, ev))
  {
  }

  lemma OvershotController(s: Pool, ev: Event)
    requires Overshot(s) && Enabled(s, ev) && ByController(ev)
    ensures Overshot(Step(s, ev))
  {
  }

  lemma StepKeepsCount(s: Pool, ev: Event)
    requires CountInv(CoreOf(s)) && Enabled(s, ev)
    ensures CountInv(CoreOf(Step(s, ev)))
  {
    if ByWorker(ev) {
      WorkerKeepsCount(s, ev);
    } else if ByCaller(ev) {
      CallerKeepsCount(s, ev);
    } else {
      ControllerKeepsCount(s, ev);
    }
  }

  lemma OvershotStep(s: Pool, ev: Event)
    requires Overshot(s) && CountInv(CoreOf(s)) && Enabled(s, ev)
    ensures Overshot(Step(s, ev))
  {
    if ByWorker(ev) {
      OvershotWorker(s, ev);
    } else if ByCaller(ev) {
      OvershotCaller(s, ev);
    } else {
      OvershotController(s, ev);
    }
  }

  /** An overshot removal never returns, whatever happens, spurious wakeups included. */
  lemma {:induction false} StuckForever(s: Pool, evs: seq<Event>)
    requires Overshot(s) && CountInv(CoreOf(s)) && IsRun(s, evs, AnyEvent)
    ensures Overshot(After(s, evs, AnyEvent))
    decreases |evs|
  {
    if evs != [] {
      OvershotStep(s, evs[0]);
      StepKeepsCount(s, evs[0]);
      StuckForever(Step(s, evs[0]), evs[1..]);
    }
  }

  // ---------------------------------------------------------------- how it happens

  /** The run stays inside one RemoveWorker call. */
  predicate NotReturned(s: Pool, ev: Event) { s.ctl != Idle }

  /** Worker w is in phase p now; nothing else that decides about leaving has changed, except
      that the queue may be shorter and submitters may have been signalled. */
  ghost predicate OnlyMoved(s: Pool, t: Pool, w: nat, p: Phase) {
    && w < |s.workers| && t.workers == s.workers[w := p]
    && t.workerCount == s.workerCount && t.workerMaxCount == s.workerMaxCount
    && t.state == s.state && t.ctl == s.ctl && OnlyOutsiders(t)
  }

  /** A worker that will test IsActive before it sleeps. */
  predicate Awake(p: Phase) { p.Greeting? || p.Ready? || p.Woken? || p.Running? || HasLeft(p) }

  /** A pool in a removal, with more workers than the lowered limit allows. */
  ghost predicate Crowded(s: Pool) {
    && s.workerCount > s.workerMaxCount && s.ctl.WaitCheck? && OnlyOutsiders(s)
    && (forall w :: 0 <= w < |s.workers| ==> Awake(s.workers[w]))
  }

  lemma TakesTask(s: Pool, ev: Event, w: nat, calls: set<AddCall>)
    requires Crowded(s) && w < |s.workers| && s.state == Joining && s.tasks != []
    requires ev == (if s.workers[w] == Ready then Enter(w, 0, calls) else Resume(w, 0, calls))
    requires s.workers[w] == Ready || s.workers[w] == Woken
    requires Signals(s.blocked, if Announces(s, w, 0) then 1 else 0, calls)
    ensures Enabled(s, ev)
    ensures var t := Step(s, ev);
            && OnlyMoved(s, t, w, t.workers[w]) && |t.tasks| < |s.tasks|
            && (t.workers[w] == Ready || t.workers[w].Running?)
  {
    PurgeShrinks(s, w, 0);
  }

  /** While a Join drains the queue, a worker takes a task and ends it, or finds all expired. */
  lemma WorksOnce(s: Pool, w: nat) returns (evs: seq<Event>)
    requires Crowded(s) && w < |s.workers| && (s.workers[w] == Ready || s.workers[w] == Woken)
    requires s.state == Joining && s.tasks != []
    ensures IsRun(s, evs, NotReturned)
    ensures var t := After(s, evs, NotReturned); OnlyMoved(s, t, w, Ready) && |t.tasks| < |s.tasks|
  {
    var calls := NotifyOne(s.blocked, if Announces(s, w, 0) then 1 else 0);
    var ev := if s.workers[w] == Ready then Enter(w, 0, calls) else Resume(w, 0, calls);
    TakesTask(s, ev, w, calls);
    evs := Extend(s, [], ev, NotReturned);
    if Step(s, ev).workers[w].Running? {
      evs := Extend(s, evs, TaskEnd(w, false), NotReturned);
    }
  }

  /** Whatever a worker at the queue finds there, it can be the next to leave. */
  lemma {:induction false} Decides(s: Pool, w: nat) returns (evs: seq<Event>)
    requires Crowded(s) && w < |s.workers| && (s.workers[w] == Ready || s.workers[w] == Woken)
    ensures IsRun(s, evs, NotReturned) && OnlyMoved(s, After(s, evs, NotReturned), w, Leaving)
    decreases |s.tasks|
  {
    if s.state == Joining && s.tasks != [] {
      evs := WorksOnce(s, w);
      var rest := Decides(After(s, evs, NotReturned), w);
      RunConcat(s, evs, rest, NotReturned);
      evs := evs + rest;
    } else {
      var ev := if s.workers[w] == Ready then Enter(w, 0, {}) else Resume(w, 0, {});
      evs := Extend(s, [], ev, NotReturned);
    }
  }

  /** Whatever an awake worker is doing, it can find itself superfluous next. */
  lemma OneDecides(s: Pool, w: nat) returns (evs: seq<Event>, p: Phase)
    requires Crowded(s) && w < |s.workers|
    ensures IsRun(s, evs, NotReturned) && OnlyMoved(s, After(s, evs, NotReturned), w, p)
    ensures HasLeft(p) && LiveN(p) == LiveN(s.workers[w])
  {
    p, evs := Leaving, [];
    if HasLeft(s.workers[w]) {
      p := s.workers[w];
    } else if s.workers[w] == Ready || s.workers[w] == Woken {
      evs := Decides(s, w);
    } else {
      var ev := if s.workers[w] == Greeting then Greet(w) else TaskEnd(w, false);
      var rest := Decides(Step(s, ev), w);
      RunCons(s, ev, rest, NotReturned);
      evs := [ev] + rest;
    }
  }

  /** Every worker has left the loop; those still counted have their exit section before them. */
  ghost predicate AllLeft(s: Pool) {
    s.workerCount == Live(s) && forall w :: 0 <= w < |s.workers| ==> HasLeft(s.workers[w])
  }

  /** While the count exceeds the limit, all workers can decide to leave in turn. */
  lemma {:induction false} AllDecideToLeave(s: Pool, n: nat) returns (evs: seq<Event>)
    requires Crowded(s) && n <= |s.workers| && (forall w :: 0 <= w < n ==> HasLeft(s.workers[w]))
    requires s.workerCount == Live(s)
    ensures IsRun(s, evs, NotReturned)
    ensures var t := After(s, evs, NotReturned);
            && AllLeft(t) && t.workerCount == s.workerCount && t.workerMaxCount == s.workerMaxCount
            && t.ctl == s.ctl && t.state == s.state
    decreases |s.workers| - n
  {
    evs := [];
    if n < |s.workers| {
      var p;
      evs, p := OneDecides(s, n);
      TotalUpdate(s.workers, n, p, LiveN);
      var rest := AllDecideToLeave(After(s, evs, NotReturned), n + 1);
      RunConcat(s, evs, rest, NotReturned);
      evs := evs + rest;
    }
  }

  /** They take it one by one. */
  lemma {:induction false} SomeExit(s: Pool, count: nat, rule: Rule) returns (evs: seq<Event>)
    requires AllLeft(s) && count <= s.workerCount && (s.ctl.WaitCheck? || s.ctl == Idle)
    requires forall t: Pool, ev :: t.ctl == s.ctl ==> rule(t, ev)
    ensures IsRun(s, evs, rule)
    ensures var t := After(s, evs, rule);
            && AllLeft(t) && t.workerCount == count
            && t.workerMaxCount == s.workerMaxCount && t.ctl == s.ctl && t.state == s.state
    decreases s.workerCount - count
  {
    evs := [];
    if count < s.workerCount {
      var w := TotalWitness(s.workers, LiveN);
      TotalUpdate(s.workers, w, Gone, LiveN);
      var rest := SomeExit(Step(s, Exit(w)), count, rule);
      RunCons(s, Exit(w), rest, rule);
      evs := [Exit(w)] + rest;
    }
  }

  lemma NobodyCounted(s: Pool)
    requires AllLeft(s) && s.workerCount == 0
    ensures forall w :: 0 <= w < |s.workers| ==> s.workers[w] == Gone
  {
    TotalZero(s.workers, LiveN);
  }

  /** More workers than the limit allows can all leave. */
  lemma AllLeave(s: Pool) returns (evs: seq<Event>)
    requires Crowded(s) && s.workerCount == Live(s)
    ensures IsRun(s, evs, NotReturned)
    ensures var t := After(s, evs, NotReturned);
            && t.workerCount == 0 && t.workerMaxCount == s.workerMaxCount && t.ctl == s.ctl
            && forall w :: 0 <= w < |t.workers| ==> t.workers[w] == Gone
  {
    evs := AllDecideToLeave(s, 0);
    var rest := SomeExit(After(s, evs, NotReturned), 0, NotReturned);
    RunConcat(s, evs, rest, NotReturned);
    evs := evs + rest;
    NobodyCounted(After(s, evs, NotReturned));
  }

  /** RemoveWorker about to lower the limit. */
  ghost predicate AtRemove(s: Pool, k: nat, stop: bool) {
    CountInv(CoreOf(s)) && s.ctl == RemoveEnter(k, stop) && OnlyOutsiders(s) && k <= s.workerMaxCount
  }

  /** RemoveWorker's first section, waking every sleeper: nobody is left asleep. */
  lemma LowersLimit(s: Pool, k: nat, stop: bool) returns (t: Pool)
    requires AtRemove(s, k, stop)
    ensures IsStep(s, CtlShrink(Sleepers(s.workers)), t)
    ensures t.workerMaxCount == s.workerMaxCount - k && t.workerCount == s.workerCount == Live(t)
    ensures t.ctl == WaitCheck(Removing(stop)) && t.state == s.state && OnlyOutsiders(t)
    ensures |t.workers| == |s.workers|
    ensures forall w :: 0 <= w < |t.workers| ==> Awake(t.workers[w]) && (s.workers[w] == Leaving ==> t.workers[w] == Leaving)
  {
    t := DoCtlShrink(s, k, stop, Sleepers(s.workers));
    WakeCounts(s.workers, Sleepers(s.workers));
    SleepersTotal(s.workers);
    TotalMono(s.workers, AsleepN, IdleN);
    TotalZero(s.workers, PendingN);
    forall w | 0 <= w < |s.workers| ensures Awake(t.workers[w]) {
      assert PendingN(s.workers[w]) == 0;
    }
  }

  /** A limit lowered to a positive number below the count lets all workers leave. */
  lemma RemovalHangs(s: Pool, k: nat, stop: bool) returns (evs: seq<Event>)
    requires AtRemove(s, k, stop) && k < s.workerMaxCount < s.workerCount + k
    ensures IsRun(s, evs, NotReturned)
    ensures var t := After(s, evs, NotReturned);
            Overshot(t) && t.workerCount == 0 && forall w :: 0 <= w < |t.workers| ==> t.workers[w] == Gone
  {
    var ev := CtlShrink(Sleepers(s.workers));
    var t := LowersLimit(s, k, stop);
    var rest := AllLeave(t);
    RunCons(s, ev, rest, NotReturned);
    evs := [ev] + rest;
  }

  /** A pool between two calls of its controller, with no worker waiting in an Add. */
  ghost predicate Between(s: Pool) {
    CountInv(CoreOf(s)) && s.ctl == Idle && OnlyOutsiders(s)
  }

  /** From every such state, if the lowered limit is above zero and below the count, there is a
      run of RemoveWorker in which all workers leave. */
  lemma PartialRemovalCanHang(s: Pool, k: nat) returns (evs: seq<Event>)
    requires Between(s) && k < s.workerMaxCount < s.workerCount + k
    ensures IsRun(Step(s, CtlRemove(k)), evs, NotReturned)
    ensures var t := After(Step(s, CtlRemove(k)), evs, NotReturned);
            Overshot(t) && t.workerCount == 0 && forall w :: 0 <= w < |t.workers| ==> t.workers[w] == Gone
  {
    evs := RemovalHangs(Step(s, CtlRemove(k)), k, false);
  }

  // ---------------------------------------------------------------- when it cannot

  predicate NoneLeaving(ws: seq<Phase>) {
    forall w :: 0 <= w < |ws| ==> ws[w] != Leaving
  }

  /** The limit less k is the count, and nobody is on the way out. */
  predicate AtTarget(s: Pool, k: nat) {
    s.workerCount + k == s.workerMaxCount && NoneLeaving(s.workers)
  }

  predicate Returned(c: Control) { c == Idle }
  predicate Entering(c: Control) { c.RemoveEnter? && !c.stop }
  predicate Awaiting(c: Control) { InRemoval(c) && !c.op.stop }

  /** A removal that lowers the limit to the count or to zero, from its call to its return. */
  ghost predicate WholeRemoval(s: Pool) {
    || Returned(s.ctl)
    || (Entering(s.ctl) && (s.ctl.value >= s.workerMaxCount || AtTarget(s, s.ctl.value)))
    || (Awaiting(s.ctl) && (s.workerMaxCount == 0 || AtTarget(s, 0)))
  }

  lemma AtTargetWorker(s: Pool, ev: Event, k: nat)
    requires AtTarget(s, k) && Enabled(s, ev) && ByWorker(ev) && !ev.Admit?
    ensures AtTarget(Step(s, ev), k)
  {
  }

  lemma WorkerKeepsControl(s: Pool, ev: Event)
    requires Enabled(s, ev) && ByWorker(ev)
    ensures var s' := Step(s, ev);
            && s'.workerMaxCount == s.workerMaxCount
            && (s'.ctl == s.ctl || (s.ctl.WaitAsleep? && s'.ctl == WaitCheck(s.ctl.op)))
  {
  }

  lemma WholeRemovalWorker(s: Pool, ev: Event)
    requires WholeRemoval(s) && !Returned(s.ctl) && Room(CoreOf(s)) && Enabled(s, ev) && ByWorker(ev)
    ensures WholeRemoval(Step(s, ev))
  {
    WorkerKeepsControl(s, ev);
    if ev.Admit? {
      TotalAtLeast(s.workers, PendingN, ev.w);
      assert false;
    }
    var k := if Entering(s.ctl) then s.ctl.value else 0;
    if AtTarget(s, k) { AtTargetWorker(s, ev, k); }
  }

  lemma CallerKeepsControl(s: Pool, ev: Event)
    requires Enabled(s, ev) && ByCaller(ev)
    ensures var s' := Step(s, ev);
            && s'.workerMaxCount == s.workerMaxCount && s'.workerCount == s.workerCount && s'.ctl == s.ctl
            && (NoneLeaving(s.workers) ==> NoneLeaving(s'.workers))
  {
  }

  lemma WholeRemovalCaller(s: Pool, ev: Event)
    requires WholeRemoval(s) && Enabled(s, ev) && ByCaller(ev)
    ensures WholeRemoval(Step(s, ev))
  {
    CallerKeepsControl(s, ev);
  }

  lemma WholeRemovalController(s: Pool, ev: Event)
    requires WholeRemoval(s) && !Returned(s.ctl) && Enabled(s, ev) && ByController(ev)
    ensures WholeRemoval(Step(s, ev))
  {
  }

  lemma {:induction false} WholeRemovalRun(s: Pool, evs: seq<Event>)
    requires WholeRemoval(s) && CountInv(CoreOf(s)) && IsRun(s, evs, NotReturned)
    ensures WholeRemoval(After(s, evs, NotReturned))
    decreases |evs|
  {
    if evs != [] {
      if ByWorker(evs[0]) {
        WholeRemovalWorker(s, evs[0]);
      } else if ByCaller(evs[0]) {
        WholeRemovalCaller(s, evs[0]);
      } else {
        WholeRemovalController(s, evs[0]);
      }
      StepKeepsCount(s, evs[0]);
      WholeRemovalRun(Step(s, evs[0]), evs[1..]);
    }
  }

  /** Some run of RemoveWorker(k) from s loses more workers than the lowered limit allows. */
  ghost predicate CanOvershoot(s: Pool, k: nat)
    requires s.ctl == Idle
  {
    exists evs :: IsRun(Step(s, CtlRemove(k)), evs, NotReturned)
                  && Overshot(After(Step(s, CtlRemove(k)), evs, NotReturned))
  }

  /** The lowered limit is above zero, and it is not the count already or somebody is still on
      the way out from an earlier removal. */
  predicate Partial(s: Pool, k: nat) {
    k < s.workerMaxCount && !AtTarget(s, k)
  }

  /** If the limit is lowered to the count or above it, one who is leaving anyway is enough. */
  lemma LeaverOvershoots(s: Pool, k: nat) returns (evs: seq<Event>)
    requires AtRemove(s, k, false) && !AtTarget(s, k) && s.workerCount + k <= s.workerMaxCount
    ensures IsRun(s, evs, NotReturned) && Overshot(After(s, evs, NotReturned))
  {
    var t := LowersLimit(s, k, false);
    evs := Extend(s, [], CtlShrink(Sleepers(s.workers)), NotReturned);
    if s.workerCount + k == s.workerMaxCount {
      var w :| 0 <= w < |s.workers| && s.workers[w] == Leaving;
      TotalAtLeast(t.workers, LiveN, w);
      evs := Extend(s, evs, Exit(w), NotReturned);
    }
  }

  lemma PartialOvershoots(s: Pool, k: nat)
    requires Between(s) && Partial(s, k)
    ensures CanOvershoot(s, k)
  {
    if s.workerCount + k > s.workerMaxCount {
      var evs := PartialRemovalCanHang(s, k);
    } else {
      var evs := LeaverOvershoots(Step(s, CtlRemove(k)), k);
    }
  }

  /** From any state between two controller calls, RemoveWorker(k) can lose more workers than
      asked for, and so never return, exactly when the removal is partial: in a pool at its
      limit with nobody leaving, exactly for 0 < k < the number of workers. */
  lemma OvershootIffPartial(s: Pool, k: nat)
    requires Between(s)
    ensures CanOvershoot(s, k) <==> Partial(s, k)
    ensures AtTarget(s, 0) ==> (CanOvershoot(s, k) <==> 0 < k < s.workerCount)
  {
    if Partial(s, k) {
      PartialOvershoots(s, k);
    } else {
      var s1 := Step(s, CtlRemove(k));
      forall evs | IsRun(s1, evs, NotReturned) ensures !Overshot(After(s1, evs, NotReturned)) {
        WholeRemovalRun(s1, evs);
      }
    }
  }

  // ---------------------------------------------------------------- Stop after a removal

  /** A Stop or Join that can never return, or that is about to return with workers left. */
  predicate StopFailed(s: Pool) {
    Overshot(s) || (s.ctl == StopFinish && s.workerCount > 0)
  }

  /** Some run of a Stop or Join called in s comes to that. */
  ghost predicate CanStopFail(s: Pool, join: bool)
    requires s.ctl == Idle
  {
    exists evs :: IsRun(DoCtlStop(s, join), evs, NotReturned) && StopFailed(After(DoCtlStop(s, join), evs, NotReturned))
  }

  /** StopImpl has set the state and is about to read worker_count_. */
  ghost predicate AtRead(s: Pool) {
    CountInv(CoreOf(s)) && s.ctl == StopCount && OnlyOutsiders(s)
  }

  /** A count read below the limit makes RemoveWorker lower the limit to a positive number. */
  lemma ShortReadFails(s: Pool) returns (evs: seq<Event>)
    requires AtRead(s) && s.workerCount < s.workerMaxCount
    ensures IsRun(s, evs, NotReturned) && StopFailed(After(s, evs, NotReturned))
  {
    var s1 := Step(s, CtlReadCount);
    var k := s.workerCount;
    if s.workerMaxCount < k + k {
      evs := RemovalHangs(s1, k, true);
    } else {
      var t := LowersLimit(s1, k, true);
      evs := Extend(s1, [], CtlShrink(Sleepers(s1.workers)), NotReturned);
      if t.workerCount == t.workerMaxCount {
        evs := Extend(s1, evs, CtlCheck, NotReturned);
      }
    }
    RunCons(s, CtlReadCount, evs, NotReturned);
    evs := [CtlReadCount] + evs;
  }

  lemma StopFails(s: Pool, join: bool)
    requires Between(s) && (s.state == Uninitialized || s.state == Started) && !AtTarget(s, 0)
    ensures CanStopFail(s, join)
  {
    var s1 := DoCtlStop(s, join);
    if s.workerCount < s.workerMaxCount {
      var evs := ShortReadFails(s1);
    } else {
      var w :| 0 <= w < |s.workers| && s.workers[w] == Leaving;
      ExitKeepsCount(s1, w);
      var evs := ShortReadFails(Step(s1, Exit(w)));
      RunCons(s1, Exit(w), evs, NotReturned);
      evs := [Exit(w)] + evs;
    }
  }

  /** A Stop or Join that removes every worker, from its call to its return. */
  ghost predicate WholeStop(s: Pool) {
    || Returned(s.ctl)
    || (s.ctl == StopCount && AtTarget(s, 0))
    || (s.ctl == RemoveEnter(s.workerMaxCount, true) && AtTarget(s, 0))
    || (InRemoval(s.ctl) && s.ctl.op.stop && s.workerMaxCount == 0)
    || (s.ctl == StopFinish && s.workerMaxCount == 0 && s.workerCount == 0)
  }

  lemma WholeStopWorker(s: Pool, ev: Event)
    requires WholeStop(s) && !Returned(s.ctl) && CountInv(CoreOf(s)) && Enabled(s, ev) && ByWorker(ev)
    ensures WholeStop(Step(s, ev))
  {
    WorkerKeepsControl(s, ev);
    if ev.Admit? {
      TotalAtLeast(s.workers, PendingN, ev.w);
      assert false;
    }
    if AtTarget(s, 0) {
      AtTargetWorker(s, ev, 0);
    } else if s.ctl == StopFinish {
      TotalAtLeast(s.workers, LiveN, ev.w);
    }
  }

  lemma WholeStopCaller(s: Pool, ev: Event)
    requires WholeStop(s) && Enabled(s, ev) && ByCaller(ev)
    ensures WholeStop(Step(s, ev))
  {
    CallerKeepsControl(s, ev);
  }

  lemma WholeStopController(s: Pool, ev: Event)
    requires WholeStop(s) && !Returned(s.ctl) && Enabled(s, ev) && ByController(ev)
    ensures WholeStop(Step(s, ev))
  {
  }

  lemma {:induction false} WholeStopRun(s: Pool, evs: seq<Event>)
    requires WholeStop(s) && CountInv(CoreOf(s)) && IsRun(s, evs, NotReturned)
    ensures WholeStop(After(s, evs, NotReturned))
    decreases |evs|
  {
    if evs != [] {
      if ByWorker(evs[0]) {
        WholeStopWorker(s, evs[0]);
      } else if ByCaller(evs[0]) {
        WholeStopCaller(s, evs[0]);
      } else {
        WholeStopController(s, evs[0]);
      }
      StepKeepsCount(s, evs[0]);
      WholeStopRun(Step(s, evs[0]), evs[1..]);
    }
  }

  /** A Stop or Join called between two controller calls removes every worker, and cannot
      overshoot, exactly if the count is at the limit and nobody is on the way out: that is, if
      no earlier RemoveWorker lost more workers than asked for or may still do so. */
  lemma StopFailsIff(s: Pool, join: bool)
    requires Between(s) && (s.state == Uninitialized || s.state == Started)
    ensures CanStopFail(s, join) <==> !AtTarget(s, 0)
  {
    if AtTarget(s, 0) {
      var s1 := DoCtlStop(s, join);
      forall evs | IsRun(s1, evs, NotReturned) ensures !StopFailed(After(s1, evs, NotReturned)) {
        WholeStopRun(s1, evs);
      }
    } else {
      StopFails(s, join);
    }
  }
}
