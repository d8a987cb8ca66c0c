/** Safety over whole runs of the pool under any sequential controller, partial removals
    included. Every theorem speaks of the state after an arbitrary run from `Init`. */
module PoolSafety {
  import opened Totals
  import opened ThreadPool
  import opened PoolInvariants
  import opened PoolLedger

  // ---------------------------------------------------------------- the thread indexes

  datatype Index = Index(roster: set<nat>, dead: set<nat>, recorded: set<nat>, ws: seq<Phase>, ctl: Control)

  function IndexOf(s: Pool): Index {
    Index(s.roster, s.dead, s.recorded, s.workers, s.ctl)
  }

  /** workers_ holds every thread that is not gone, dead_workers_ those of it that are gone,
      and id_map_ those of it that AddWorker's start loop has passed. */
  ghost predicate IndexInv(x: Index) {
    && (forall i :: i in x.roster ==> i < |x.ws|)
    && (forall i :: 0 <= i < |x.ws| && i !in x.roster ==> x.ws[i] == Gone)
    && (forall i :: i in x.dead <==> i in x.roster && x.ws[i] == Gone)
    && (forall i :: i in x.recorded <==> i in x.roster && (x.ctl.Launching? ==> i < x.ctl.next))
    && (x.ctl.Launching? ==> forall i :: x.ctl.next <= i < |x.ws| ==> i in x.roster)
  }

  lemma MoveKeepsIndex(x: Index, w: nat, p: Phase)
    requires IndexInv(x) && w < |x.ws| && x.ws[w] != Gone && p != Gone
    ensures IndexInv(x.(ws := x.ws[w := p]))
  {
  }

  lemma WakeKeepsIndex(x: Index, wakes: set<nat>)
    requires IndexInv(x) && wakes <= Sleepers(x.ws)
    ensures IndexInv(x.(ws := Wake(x.ws, wakes)))
  {
  }

  lemma ExitKeepsIndex(s: Pool, w: nat)
    requires IndexInv(IndexOf(s)) && w < |s.workers| && s.workers[w] == Leaving
    ensures IndexInv(IndexOf(DoExit(s, w)))
  {
  }

  lemma AddWorkersKeepsIndex(s: Pool, value: nat)
    requires IndexInv(IndexOf(s)) && s.ctl == Idle
    ensures IndexInv(IndexOf(DoCtlAdd(s, value)))
  {
  }

  lemma SectionKeepsIndex(s: Pool, w: nat, now: int, calls: set<AddCall>)
    requires IndexInv(IndexOf(s)) && w < |s.workers| && s.workers[w] != Gone
    ensures IndexInv(IndexOf(Section(s, w, now, calls)))
  {
  }

  lemma WorkerKeepsIndex(s: Pool, ev: Event)
    requires IndexInv(IndexOf(s)) && Enabled(s, ev) && ByWorker(ev)
    ensures IndexInv(IndexOf(Step(s, ev)))
  {
    var x := IndexOf(s);
    match ev
    case Admit(w) => MoveKeepsIndex(x, w, DoAdmit(s, w).workers[w]);
    case Greet(w) => MoveKeepsIndex(x, w, Ready);
    case Enter(w, now, calls) => SectionKeepsIndex(s, w, now, calls);
    case Resume(w, now, calls) => SectionKeepsIndex(s.(idleCount := Dec(s.idleCount)), w, now, calls);
    case Spurious(w) => MoveKeepsIndex(x, w, Woken);
    case TaskEnd(w, threw) => MoveKeepsIndex(x, w, Ready);
    case Exit(w) => ExitKeepsIndex(s, w);
  }

  lemma CallerKeepsIndex(s: Pool, ev: Event)
    requires IndexInv(IndexOf(s)) && Enabled(s, ev) && ByCaller(ev)
    ensures IndexInv(IndexOf(Step(s, ev)))
  {
  }

  lemma RecordKeepsIndex(x: Index)
    requires IndexInv(x) && x.ctl.Launching? && x.ctl.next < |x.ws|
    ensures IndexInv(x.(recorded := x.recorded + {x.ctl.next}, ctl := Launching(x.ctl.next + 1, false)))
  {
  }

  lemma ReapKeepsIndex(x: Index, ctl: Control)
    requires IndexInv(x) && !x.ctl.Launching? && !ctl.Launching?
    ensures IndexInv(x.(recorded := x.recorded - x.dead, roster := x.roster - x.dead, dead := {}, ctl := ctl))
  {
  }

  lemma ControllerKeepsIndex(s: Pool, ev: Event)
    requires IndexInv(IndexOf(s)) && CountInv(CoreOf(s)) && Enabled(s, ev) && ByController(ev)
    ensures IndexInv(IndexOf(Step(s, ev)))
  {
    var x := IndexOf(s);
    match ev
    case CtlStart => WakeKeepsIndex(x, Sleepers(s.workers));
    case CtlAdd(value) => AddWorkersKeepsIndex(s, value);
    case CtlLaunch => MoveKeepsIndex(x, s.ctl.next, Launched);
    case CtlRecord => RecordKeepsIndex(x);
    case CtlShrink(wakes) => WakeKeepsIndex(x, wakes);
    case CtlCheck => ReapKeepsIndex(x, DoCtlCheck(s, s.ctl.op).ctl);
    case _ =>
  }

  // ---------------------------------------------------------------- the whole invariant

  ghost predicate SafeInv(s: Pool) {
    CountInv(CoreOf(s)) && QueueInv(s) && IndexInv(IndexOf(s))
  }

  lemma InitSafe(limit: nat)
    ensures SafeInv(Init(limit))
  {
  }

  lemma StepKeepsSafe(s: Pool, ev: Event)
    requires SafeInv(s) && Enabled(s, ev)
    ensures SafeInv(Step(s, ev))
  {
    if ByWorker(ev) {
      WorkerKeepsCount(s, ev);
      WorkerKeepsQueue(s, ev);
      WorkerKeepsIndex(s, ev);
    } else if ByCaller(ev) {
      CallerKeepsCount(s, ev);
      CallerKeepsQueue(s, ev);
      CallerKeepsIndex(s, ev);
    } else {
      ControllerKeepsCount(s, ev);
      ControllerKeepsQueue(s, ev);
      ControllerKeepsIndex(s, ev);
    }
  }

  lemma {:induction false} RunKeepsSafe(s: Pool, evs: seq<Event>, rule: Rule)
    requires SafeInv(s) && IsRun(s, evs, rule)
    ensures SafeInv(After(s, evs, rule))
    decreases |evs|
  {
    if evs != [] {
      StepKeepsSafe(s, evs[0]);
      RunKeepsSafe(Step(s, evs[0]), evs[1..], rule);
    }
  }

  /** The state a run from `Init` ends in. */
  function Reached(limit: nat, evs: seq<Event>): Pool
    requires IsRun(Init(limit), evs, AnyEvent)
  {
    After(Init(limit), evs, AnyEvent)
  }

  lemma ReachedIsSafe(limit: nat, evs: seq<Event>)
    requires IsRun(Init(limit), evs, AnyEvent)
    ensures SafeInv(Reached(limit, evs))
  {
    InitSafe(limit);
    RunKeepsSafe(Init(limit), evs, AnyEvent);
  }

  lemma {:induction false} LimitFixed(s: Pool, evs: seq<Event>, rule: Rule)
    requires IsRun(s, evs, rule)
    ensures After(s, evs, rule).limit == s.limit
    decreases |evs|
  {
    if evs != [] {
      assert Step(s, evs[0]).limit == s.limit;
      LimitFixed(Step(s, evs[0]), evs[1..], rule);
    }
  }

  // ---------------------------------------------------------------- theorems

  lemma AdmitCounts(s: Pool, w: nat)
    requires CountInv(CoreOf(s)) && w < |s.workers| && s.workers[w] == Launched
    ensures var s' := DoAdmit(s, w);
            && s'.workerCount == s.workerCount + 1 <= s'.workerMaxCount
            && (s'.workers[w] == Greeting || s'.workers[w] == Ready)
  {
    AdmitKeepsCount(s, w);
  }

  lemma ExitCounts(s: Pool, w: nat)
    requires CountInv(CoreOf(s)) && w < |s.workers| && s.workers[w] == Leaving
    ensures DoExit(s, w).workerCount == s.workerCount - 1
  {
    TotalAtLeast(s.workers, LiveN, w);
  }

  /** The workers a 0/1 weight marks. */
  ghost function Marked(ws: seq<Phase>, f: Phase -> nat): set<nat> {
    set w: nat | w < |ws| && f(ws[w]) == 1
  }

  /** A 0/1 weight sums to the size of the set it marks. */
  lemma {:induction false} MarkedTotal(ws: seq<Phase>, f: Phase -> nat)
    requires forall p :: f(p) <= 1
    ensures |Marked(ws, f)| == Total(ws, f)
  {
    if ws == [] {
      assert Marked(ws, f) == {};
    } else {
      var n := |ws| - 1;
      MarkedTotal(ws[..n], f);
      assert Marked(ws, f) == if f(ws[n]) == 1 then Marked(ws[..n], f) + {n} else Marked(ws[..n], f);
    }
  }

  ghost predicate CounterFacts(s: Pool, w: nat) {
    && s.workerCount == |Marked(s.workers, LiveN)|
    && (Enabled(s, Admit(w)) ==>
          && Step(s, Admit(w)).workerCount == s.workerCount + 1 <= s.workerMaxCount
          && Step(s, Admit(w)).workers[w] in {Greeting, Ready})
    && (Enabled(s, Exit(w)) ==> Step(s, Exit(w)).workerCount == s.workerCount - 1)
  }

  lemma CountersGiveFacts(s: Pool, w: nat)
    requires CountInv(CoreOf(s))
    ensures CounterFacts(s, w)
  {
    MarkedTotal(s.workers, LiveN);
    if w < |s.workers| && s.workers[w] == Launched {
      AdmitCounts(s, w);
    }
    if w < |s.workers| && s.workers[w] == Leaving {
      ExitCounts(s, w);
    }
  }

  /** worker_count_ is the number of workers between admission and exit. A started worker is
      never refused admission, so every decrement matches an increment and none wraps. */
  lemma WorkerCounterAgrees(limit: nat, evs: seq<Event>, w: nat)
    requires IsRun(Init(limit), evs, AnyEvent)
    ensures CounterFacts(Reached(limit, evs), w)
  {
    ReachedIsSafe(limit, evs);
    CountersGiveFacts(Reached(limit, evs), w);
  }

  /** No wakeup on worker_monitor_ is lost: a controller asleep in AddWorker although the
      counts agree is owed a Notify by an admitted worker, and a controller asleep in
      RemoveWorker sleeps only while the counts differ. */
  lemma ControllerWakeupsKept(limit: nat, evs: seq<Event>)
    requires IsRun(Init(limit), evs, AnyEvent)
    ensures var s := Reached(limit, evs);
            s.ctl.WaitAsleep? && s.workerCount == s.workerMaxCount
            ==> s.ctl.op == Adding && exists w :: 0 <= w < |s.workers| && s.workers[w] == Greeting
                                                  && Enabled(s, Greet(w)) && Step(s, Greet(w)).ctl == WaitCheck(Adding)
  {
    ReachedIsSafe(limit, evs);
    var s := Reached(limit, evs);
    if s.ctl.WaitAsleep? && s.workerCount == s.workerMaxCount {
      var w :| 0 <= w < |s.workers| && s.workers[w] == Greeting;
      assert Enabled(s, Greet(w)) && Step(s, Greet(w)).ctl == WaitCheck(Adding);
    }
  }

  function TasksOf(left: seq<Departure>): seq<Task> {
    seq(|left|, i requires 0 <= i < |left| => left[i].task)
  }

  /** No two workers run the same task. */
  lemma RunningApart(g: Ledger, v: nat, w: nat)
    requires Runs(g) && v < w < |g.ws| && g.ws[v].Running?
    ensures g.ws[v] != g.ws[w]
  {
    assert RunsOwnTask(g, v);
    if g.ws[w].Running? { assert RunsOwnTask(g, w); }
  }

  /** What left the queue, followed by the queue, is what was pushed; no task is pushed twice,
      run by two workers or ended twice; and only a dispatched task's run ends. */
  ghost predicate FifoFacts(s: Pool) {
    && TasksOf(s.left) + s.tasks == s.pushed
    && (forall i, j :: 0 <= i < j < |s.pushed| ==> s.pushed[i] != s.pushed[j])
    && (forall v, w :: 0 <= v < w < |s.workers| && s.workers[v].Running? ==> s.workers[v] != s.workers[w])
    && (forall i, j :: 0 <= i < j < |s.finished| ==> s.finished[i] != s.finished[j])
    && (forall i :: i in s.finished ==> i < |s.left| && s.left[i].Dispatched?)
  }

  lemma LedgerGivesFifo(s: Pool)
    requires LedgerInv(LedgerOf(s))
    ensures FifoFacts(s)
  {
    forall v, w | 0 <= v < w < |s.workers| && s.workers[v].Running? ensures s.workers[v] != s.workers[w] {
      RunningApart(LedgerOf(s), v, w);
    }
  }

  /** So no task leaves the queue twice, and none is dispatched twice. */
  lemma FifoConservation(limit: nat, evs: seq<Event>)
    requires IsRun(Init(limit), evs, AnyEvent)
    ensures FifoFacts(Reached(limit, evs))
  {
    ReachedIsSafe(limit, evs);
    LedgerGivesFifo(Reached(limit, evs));
  }

  /** A dispatched task is WAITING until it is popped, so the worker that pops it always runs
      it, and until its run ends exactly that worker is running it. */
  lemma DispatchedTasksRun(limit: nat, evs: seq<Event>, i: nat)
    requires IsRun(Init(limit), evs, AnyEvent)
    requires i < |Reached(limit, evs).left| && Reached(limit, evs).left[i].Dispatched?
    ensures var s := Reached(limit, evs);
            && s.left[i].w < |s.workers|
            && (i !in s.finished <==> s.workers[s.left[i].w] == Running(s.left[i].task))
  {
    ReachedIsSafe(limit, evs);
    var s := Reached(limit, evs);
    assert Accounted(LedgerOf(s), i);
    var w := s.left[i].w;
    if s.workers[w] == Running(s.left[i].task) {
      assert RunsOwnTask(LedgerOf(s), w);
    }
  }

  /** The state of a Task object tells its fate: WAITING while it has not been dispatched,
      COMPLETE only after its run ended. */
  lemma TaskStates(limit: nat, evs: seq<Event>, i: nat)
    requires IsRun(Init(limit), evs, AnyEvent) && i < |Reached(limit, evs).pushed|
    ensures var s := Reached(limit, evs);
            && i < |s.status|
            && (s.status[i] == Waiting <==> i >= |s.left| || !s.left[i].Dispatched?)
            && (s.status[i] == Complete ==> i in s.finished)
  {
    ReachedIsSafe(limit, evs);
  }

  /** With a nonzero limit the queue never exceeds it. */
  lemma QueueBound(limit: nat, evs: seq<Event>)
    requires IsRun(Init(limit), evs, AnyEvent) && limit > 0
    ensures |Reached(limit, evs).tasks| <= limit
  {
    ReachedIsSafe(limit, evs);
    LimitFixed(Init(limit), evs, AnyEvent);
  }

  /** Every expiry is counted once: reported already or still in expired_count_. */
  lemma ExpiriesCounted(limit: nat, evs: seq<Event>)
    requires IsRun(Init(limit), evs, AnyEvent)
    ensures var s := Reached(limit, evs); s.expiredCount + s.taken == Total(s.left, ExpiredN)
  {
    ReachedIsSafe(limit, evs);
  }

  /** A worker's section dispatches at most one task, the first of the queue that has not
      expired at the section's clock sample; the tasks before it leave as expired. */
  lemma DispatchIsUnexpired(s: Pool, w: nat, now: int, calls: set<AddCall>)
    requires LedgerInv(LedgerOf(s)) && w < |s.workers| && (s.workers[w] == Ready || s.workers[w] == Woken)
    ensures var s' := Section(s, w, now, calls); var n := ExpiredPrefix(s.tasks, now);
            if s'.workers[w].Running? then
              && n < |s.tasks| && !IsExpired(s.tasks[n], now)
              && s'.workers[w].task == s.tasks[n]
              && s'.tasks == s.tasks[n + 1..]
              && s'.left == Purge(s, now).left + [Dispatched(s.tasks[n], w)]
            else
              s'.tasks == [] || s'.tasks == s.tasks
  {
    ExpiredPrefixIsLongest(s.tasks, now);
    if IsActive(s) && s.tasks != [] {
      PurgeKeepsLedger(LedgerOf(s), ExpiredPrefix(s.tasks, now));
      TakeKeepsLedger(Purge(s, now), w);
    }
  }

  /** TotalTaskCount's sum in size_t arithmetic. */
  function TotalTaskCount(s: Pool): nat {
    (|s.tasks| + s.workerCount + (WORD - s.idleCount % WORD)) % WORD
  }

  function TransitN(p: Phase): nat { if p.Greeting? || p.Ready? || p.Leaving? then 1 else 0 }

  ghost predicate NoneInTransit(ws: seq<Phase>) {
    forall w :: 0 <= w < |ws| ==> TransitN(ws[w]) == 0
  }

  lemma PhasesAddUp(ws: seq<Phase>)
    ensures Total(ws, IdleN) == Total(ws, AsleepN) + Total(ws, WokenN)
    ensures Total(ws, LiveN) >= Total(ws, IdleN) + Total(ws, RunningN)
    ensures Total(ws, LiveN) == Total(ws, IdleN) + Total(ws, RunningN) <==> NoneInTransit(ws)
  {
  }

  ghost predicate LoadFacts(s: Pool) {
    var running := Total(s.workers, RunningN);
    && s.idleCount == Total(s.workers, AsleepN) + Total(s.workers, WokenN) <= s.workerCount
    && (|s.tasks| + |s.workers| < WORD ==>
          && TotalTaskCount(s) == |s.tasks| + s.workerCount - s.idleCount
          && TotalTaskCount(s) >= |s.tasks| + running
          && (TotalTaskCount(s) == |s.tasks| + running <==> NoneInTransit(s.workers)))
  }

  lemma LoadArithmetic(tasks: nat, count: nat, idle: nat)
    requires idle <= count && tasks + count < WORD
    ensures (tasks + count + (WORD - idle % WORD)) % WORD == tasks + count - idle
  {
  }

  lemma CountersGiveLoad(s: Pool)
    requires Counters(CoreOf(s))
    ensures LoadFacts(s)
  {
    LiveAtMost(s.workers);
    PhasesAddUp(s.workers);
    if |s.tasks| + |s.workers| < WORD {
      LoadArithmetic(|s.tasks|, s.workerCount, s.idleCount);
    }
  }

  /** idle_count_ is the number of workers in monitor_.Wait and never exceeds worker_count_.
      So TotalTaskCount does not wrap below zero; it covers the pending and the executing
      tasks, and is exactly their number iff no admitted worker is between waiting and running. */
  lemma LoadCounterSound(limit: nat, evs: seq<Event>)
    requires IsRun(Init(limit), evs, AnyEvent)
    ensures LoadFacts(Reached(limit, evs))
  {
    ReachedIsSafe(limit, evs);
    CountersGiveLoad(Reached(limit, evs));
  }

  /** When no AddWorker is under way, as when each returns, id_map_ holds exactly the threads
      in workers_; and those are the threads not yet gone and the dead ones not yet reaped. */
  lemma IndexesAgree(limit: nat, evs: seq<Event>)
    requires IsRun(Init(limit), evs, AnyEvent)
    ensures var s := Reached(limit, evs);
            && (!s.ctl.Launching? ==> s.recorded == s.roster)
            && s.recorded <= s.roster && s.dead <= s.roster
            && (forall w :: 0 <= w < |s.workers| ==> (w in s.roster - s.dead <==> s.workers[w] != Gone))
  {
    ReachedIsSafe(limit, evs);
  }

  /** The threads that have not taken their exit section. */
  ghost function Present(ws: seq<Phase>): set<nat> {
    set w: nat | w < |ws| && ws[w] != Gone
  }

  /** Both indexes hold exactly the threads that are left, and nobody waits to be reaped. */
  ghost predicate Reaped(s: Pool) {
    s.dead == {} && s.roster == Present(s.workers) && s.recorded == Present(s.workers)
  }

  lemma ReapLeavesPresent(s: Pool, op: Op)
    requires IndexInv(IndexOf(s)) && s.ctl == WaitCheck(op) && op.Removing? && s.workerCount == s.workerMaxCount
    ensures Reaped(DoCtlCheck(s, op))
  {
  }

  /** Whenever RemoveWorker finds the counts equal it returns with every dead thread erased,
      partial removals included. */
  lemma RemovalReaps(limit: nat, evs: seq<Event>, stop: bool)
    requires IsRun(Init(limit), evs, AnyEvent)
    requires var s := Reached(limit, evs); s.ctl == WaitCheck(Removing(stop)) && s.workerCount == s.workerMaxCount
    ensures var s := Reached(limit, evs);
            && Enabled(s, CtlCheck) && Reaped(Step(s, CtlCheck)) && Step(s, CtlCheck).workers == s.workers
            && Step(s, CtlCheck).ctl == if stop then StopFinish else Idle
  {
    ReachedIsSafe(limit, evs);
    ReapLeavesPresent(Reached(limit, evs), Removing(stop));
  }
}
