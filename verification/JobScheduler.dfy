/** SplitterJobScheduler of splitter/splitter_job_scheduler.h on top of the pool. Every task of
    its pool is a job. AddSplitterJob hands the job to the pool first and counts it afterwards,
    so completions may be counted before the job itself is. */
module JobScheduler {
  import opened ThreadPool
  import opened PoolInvariants
  import opened PoolLedger
  import opened PoolSafety
  import opened FiniteSets
  import PoolUnexpired

  /** `counted` is the number of increments so far, `completions` the jobs OnCompletedJob was
      called for, `notified` the workers whose current job has notified its observers. */
  datatype Sched = Sched(pool: Pool, counter: nat, counted: nat, completions: seq<nat>, notified: set<nat>)

  datatype SchedEvent =
    | PoolStep(ev: Event)
    | Count               // AddSplitterJob, lines 128-132
    | JobDone(w: nat)     // NotifyAllObservers reaches OnCompletedJob, lines 62-72 and 138-143

  function SchedInit(limit: nat): Sched {
    Sched(Init(limit), 0, 0, [], {})
  }

  /** Count needs an Add that has pushed and not been counted; JobDone happens once in each run
      of a job, and a run returns normally only after it. */
  predicate SchedEnabled(s: Sched, e: SchedEvent) {
    match e
    case PoolStep(ev) => Enabled(s.pool, ev) && (ev.TaskEnd? && !ev.threw ==> ev.w in s.notified)
    case Count => s.counted < |s.pool.pushed|
    case JobDone(w) => w < |s.pool.workers| && s.pool.workers[w].Running? && w !in s.notified
  }

  function SchedStep(s: Sched, e: SchedEvent): Sched
    requires SchedEnabled(s, e)
  {
    match e
    case PoolStep(ev) =>
      s.(pool := Step(s.pool, ev), notified := if ev.TaskEnd? then s.notified - {ev.w} else s.notified)
    case Count => s.(counter := Inc(s.counter), counted := s.counted + 1)
    case JobDone(w) =>
      s.(counter := Dec(s.counter),
         completions := s.completions + [s.pool.workers[w].task.id],
         notified := s.notified + {w})
  }

  predicate IsSchedStep(s: Sched, e: SchedEvent, s': Sched) {
    SchedEnabled(s, e) && SchedStep(s, e) == s'
  }

  predicate IsSchedRun(s: Sched, es: seq<SchedEvent>)
    decreases |es|
  {
    es == [] || (SchedEnabled(s, es[0]) && IsSchedRun(SchedStep(s, es[0]), es[1..]))
  }

  function SchedAfter(s: Sched, es: seq<SchedEvent>): Sched
    requires IsSchedRun(s, es)
    decreases |es|
  {
    if es == [] then s else SchedAfter(SchedStep(s, es[0]), es[1..])
  }

  // ---------------------------------------------------------------- the invariant

  /** pending_job_count_ is increments minus completions modulo 2^64. */
  ghost predicate CounterInv(s: Sched) {
    && s.counter < WORD && s.counted <= |s.pool.pushed|
    && (s.counter + |s.completions|) % WORD == s.counted % WORD
  }

  /** A completed job has ended, or its worker is past the notification. */
  ghost predicate DoneBy(s: Sched, id: nat) {
    && id < |s.pool.left| && s.pool.left[id].Dispatched?
    && (id in s.pool.finished || s.pool.left[id].w in s.notified)
  }

  ghost predicate OnceInv(s: Sched) {
    && (forall i, j :: 0 <= i < j < |s.completions| ==> s.completions[i] != s.completions[j])
    && (forall id :: id in s.completions ==> DoneBy(s, id))
    && (forall w :: w in s.notified ==> w < |s.pool.workers| && s.pool.workers[w].Running?
                                        && s.pool.workers[w].task.id in s.completions)
  }

  ghost predicate SchedInv(s: Sched) {
    SafeInv(s.pool) && CounterInv(s) && OnceInv(s)
  }

  /** Running jobs stay where they are and the histories grow. */
  ghost predicate Extends(p: Pool, p': Pool) {
    && |p.workers| <= |p'.workers| && p'.finished == p.finished
    && p.left <= p'.left && |p.pushed| <= |p'.pushed|
    && (forall w :: 0 <= w < |p.workers| && p.workers[w].Running? ==> p'.workers[w] == p.workers[w])
  }

  lemma SectionExtends(p: Pool, w: nat, now: int, calls: set<AddCall>)
    requires w < |p.workers| && !p.workers[w].Running?
    ensures Extends(p, Section(p, w, now, calls))
  {
  }

  lemma WorkerExtends(p: Pool, ev: Event)
    requires Enabled(p, ev) && ByWorker(ev) && !ev.TaskEnd?
    ensures Extends(p, Step(p, ev))
  {
    if ev.Enter? {
      SectionExtends(p, ev.w, ev.now, ev.calls);
    } else if ev.Resume? {
      SectionExtends(p.(idleCount := Dec(p.idleCount)), ev.w, ev.now, ev.calls);
    }
  }

  lemma CallerExtends(p: Pool, ev: Event)
    requires Enabled(p, ev) && ByCaller(ev)
    ensures Extends(p, Step(p, ev))
  {
  }

  lemma ControllerExtends(p: Pool, ev: Event)
    requires Enabled(p, ev) && ByController(ev)
    requires ev.CtlLaunch? ==> p.workers[p.ctl.next] == Created
    ensures Extends(p, Step(p, ev))
  {
  }

  /** Away from the end of a run, a pool step leaves running jobs in place. */
  lemma StepExtends(p: Pool, ev: Event)
    requires Enabled(p, ev) && Room(CoreOf(p)) && !ev.TaskEnd?
    ensures Extends(p, Step(p, ev))
  {
    if ByWorker(ev) {
      WorkerExtends(p, ev);
    } else if ByCaller(ev) {
      CallerExtends(p, ev);
    } else {
      ControllerExtends(p, ev);
    }
  }

  lemma StepKeepsOnce(s: Sched, ev: Event)
    requires Room(CoreOf(s.pool)) && OnceInv(s) && SchedEnabled(s, PoolStep(ev)) && !ev.TaskEnd?
    ensures OnceInv(SchedStep(s, PoolStep(ev)))
    ensures |s.pool.pushed| <= |Step(s.pool, ev).pushed|
  {
    StepExtends(s.pool, ev);
    var s' := SchedStep(s, PoolStep(ev));
    forall id | id in s'.completions ensures DoneBy(s', id) {
      assert DoneBy(s, id);
    }
  }

  /** A job completed before its run ends stays completed when some worker's run ends. */
  lemma EndKeepsDone(s: Sched, w: nat, threw: bool, id: nat)
    requires LedgerInv(LedgerOf(s.pool)) && SchedEnabled(s, PoolStep(TaskEnd(w, threw))) && DoneBy(s, id)
    ensures DoneBy(SchedStep(s, PoolStep(TaskEnd(w, threw))), id)
  {
    assert Accounted(LedgerOf(s.pool), id);
  }

  lemma EndKeepsOnce(s: Sched, w: nat, threw: bool)
    requires LedgerInv(LedgerOf(s.pool)) && OnceInv(s) && SchedEnabled(s, PoolStep(TaskEnd(w, threw)))
    ensures OnceInv(SchedStep(s, PoolStep(TaskEnd(w, threw))))
  {
    var s' := SchedStep(s, PoolStep(TaskEnd(w, threw)));
    forall id | id in s'.completions ensures DoneBy(s', id) {
      EndKeepsDone(s, w, threw, id);
    }
  }

  /** The pool's exactly-once dispatch is what keeps a job from completing twice. */
  lemma DoneKeepsOnce(s: Sched, w: nat)
    requires SchedInv(s) && SchedEnabled(s, JobDone(w))
    ensures OnceInv(SchedStep(s, JobDone(w)))
  {
    var s' := SchedStep(s, JobDone(w));
    var id := s.pool.workers[w].task.id;
    assert RunsOwnTask(LedgerOf(s.pool), w);
    if id in s.completions {
      assert false;
    }
    forall c | c in s'.completions ensures DoneBy(s', c) {
      if c in s.completions { assert DoneBy(s, c); }
    }
  }

  lemma CountKeepsCounter(counter: nat, completed: nat, counted: nat)
    requires counter < WORD && (counter + completed) % WORD == counted % WORD
    ensures Inc(counter) < WORD && (Inc(counter) + completed) % WORD == (counted + 1) % WORD
    ensures Dec(counter) < WORD && (Dec(counter) + (completed + 1)) % WORD == counted % WORD
  {
  }

  lemma PoolStepKeepsJobs(s: Sched, ev: Event)
    requires Room(CoreOf(s.pool)) && LedgerInv(LedgerOf(s.pool)) && CounterInv(s) && OnceInv(s)
    requires SchedEnabled(s, PoolStep(ev))
    ensures CounterInv(SchedStep(s, PoolStep(ev))) && OnceInv(SchedStep(s, PoolStep(ev)))
  {
    if ev.TaskEnd? {
      EndKeepsOnce(s, ev.w, ev.threw);
    } else {
      StepKeepsOnce(s, ev);
    }
  }

  lemma PoolStepKeepsSched(s: Sched, ev: Event)
    requires SchedInv(s) && SchedEnabled(s, PoolStep(ev))
    ensures SchedInv(SchedStep(s, PoolStep(ev)))
  {
    StepKeepsSafe(s.pool, ev);
    PoolStepKeepsJobs(s, ev);
  }

  lemma CountKeepsSched(s: Sched)
    requires SchedInv(s) && SchedEnabled(s, Count)
    ensures SchedInv(SchedStep(s, Count))
  {
    CountKeepsCounter(s.counter, |s.completions|, s.counted);
    var s' := SchedStep(s, Count);
    forall id | id in s.completions ensures DoneBy(s', id) { assert DoneBy(s, id); }
  }

  lemma DoneKeepsSched(s: Sched, w: nat)
    requires SchedInv(s) && SchedEnabled(s, JobDone(w))
    ensures SchedInv(SchedStep(s, JobDone(w)))
  {
    CountKeepsCounter(s.counter, |s.completions|, s.counted);
    DoneKeepsOnce(s, w);
  }

  lemma SchedStepKeepsInv(s: Sched, e: SchedEvent)
    requires SchedInv(s) && SchedEnabled(s, e)
    ensures SchedInv(SchedStep(s, e))
  {
    match e
    case PoolStep(ev) => PoolStepKeepsSched(s, ev);
    case Count => CountKeepsSched(s);
    case JobDone(w) => DoneKeepsSched(s, w);
  }

  lemma {:induction false} SchedRunKeepsInv(s: Sched, es: seq<SchedEvent>)
    requires SchedInv(s) && IsSchedRun(s, es)
    ensures SchedInv(SchedAfter(s, es))
    decreases |es|
  {
    if es != [] {
      SchedStepKeepsInv(s, es[0]);
      SchedRunKeepsInv(SchedStep(s, es[0]), es[1..]);
    }
  }

  // ---------------------------------------------------------------- theorems

  function Elems(a: seq<nat>): set<nat> { set x | x in a }

  ghost predicate Distinct(a: seq<nat>) {
    forall i, j :: 0 <= i < j < |a| ==> a[i] != a[j]
  }

  ghost predicate JobFacts(s: Sched) {
    && (s.counter + |s.completions|) % WORD == s.counted % WORD
    && Distinct(s.completions)
    && (forall id :: id in s.completions ==> id < |s.pool.pushed|)
  }

  lemma InvGivesFacts(s: Sched)
    requires CounterInv(s) && OnceInv(s) && |s.pool.left| <= |s.pool.pushed|
    ensures JobFacts(s)
  {
  }

  /** In every interleaving the counter is increments minus completions modulo 2^64, and no
      submitted job completes twice. */
  lemma CounterIsDifference(limit: nat, es: seq<SchedEvent>)
    requires IsSchedRun(SchedInit(limit), es)
    ensures JobFacts(SchedAfter(SchedInit(limit), es))
  {
    InitSafe(limit);
    SchedRunKeepsInv(SchedInit(limit), es);
    InvGivesFacts(SchedAfter(SchedInit(limit), es));
  }

  lemma {:induction false} DistinctSize(a: seq<nat>)
    requires Distinct(a)
    ensures |Elems(a)| == |a|
  {
    if a != [] {
      var n := |a| - 1;
      DistinctSize(a[..n]);
      assert Elems(a) == Elems(a[..n]) + {a[n]};
    }
  }

  lemma {:induction false} RangeSize(lo: nat, hi: nat)
    requires lo <= hi
    ensures |Range(lo, hi)| == hi - lo
    decreases hi - lo
  {
    if lo < hi { RangeSize(lo + 1, hi); }
  }

  /** Distinct numbers below n are at most n, and n of them iff they are all of those. */
  lemma DistinctBelow(a: seq<nat>, n: nat)
    requires Distinct(a) && forall x :: x in a ==> x < n
    ensures |a| <= n
    ensures |a| == n <==> forall k :: 0 <= k < n ==> k in a
  {
    DistinctSize(a);
    RangeSize(0, n);
    SubsetSize(Elems(a), Range(0, n));
    if |a| == n {
      SameSize(Elems(a), Range(0, n));
      forall k | 0 <= k < n ensures k in a { assert k in Range(0, n); }
    }
    if forall k :: 0 <= k < n ==> k in a {
      SubsetSize(Range(0, n), Elems(a));
    }
  }

  ghost predicate AllDone(s: Sched) {
    forall id :: 0 <= id < |s.pool.pushed| ==> id in s.completions
  }

  /** What a zero counter means: exactly then, if every Add has been counted, every submitted
      job has completed; and if some Add has not, some job has not either. */
  ghost predicate ZeroMeaning(s: Sched) {
    && (s.counted == |s.pool.pushed| ==> (s.counter == 0 <==> AllDone(s)))
    && (s.counter == 0 ==> (AllDone(s) <==> s.counted == |s.pool.pushed|))
  }

  lemma WordArithmetic(counter: nat, completed: nat, counted: nat)
    requires counter < WORD && completed < WORD && counted < WORD
    requires (counter + completed) % WORD == counted % WORD
    ensures counter == 0 <==> completed == counted
  {
  }

  lemma ZeroFacts(s: Sched)
    requires CounterInv(s) && OnceInv(s) && |s.pool.left| <= |s.pool.pushed| < WORD
    ensures ZeroMeaning(s)
  {
    InvGivesFacts(s);
    DistinctBelow(s.completions, |s.pool.pushed|);
    WordArithmetic(s.counter, |s.completions|, s.counted);
  }

  /** In every run with fewer than 2^64 jobs. The thread that made all AddSplitterJob calls
      has counted them all when it leaves WaitAllJobDone. */
  lemma ZeroMeansAllDone(limit: nat, es: seq<SchedEvent>)
    requires IsSchedRun(SchedInit(limit), es)
    requires |SchedAfter(SchedInit(limit), es).pool.pushed| < WORD
    ensures ZeroMeaning(SchedAfter(SchedInit(limit), es))
  {
    InitSafe(limit);
    SchedRunKeepsInv(SchedInit(limit), es);
    ZeroFacts(SchedAfter(SchedInit(limit), es));
  }

  // ---------------------------------------------------------------- a misleading zero

  lemma {:induction false} SchedExtend(s: Sched, es: seq<SchedEvent>, e: SchedEvent, t: Sched)
    requires IsSchedRun(s, es) && SchedEnabled(SchedAfter(s, es), e) && SchedStep(SchedAfter(s, es), e) == t
    ensures IsSchedRun(s, es + [e]) && SchedAfter(s, es + [e]) == t
    decreases |es|
  {
    if es != [] {
      assert (es + [e])[1..] == es[1..] + [e];
      SchedExtend(SchedStep(s, es[0]), es[1..], e, t);
    }
  }

  function Plain(): AddCall { AddCall(Outside(0), 0, 0) }
  function Job(id: nat): Task { Task(id, 0) }

  // A new pool is started, gets a job and then its one worker, which takes the job.
  function Begun(limit: nat): Pool { Init(limit).(state := Started) }
  function Pushed(limit: nat): Pool {
    Begun(limit).(tasks := [Job(0)], status := [Waiting], pushed := [Job(0)])
  }
  function Manned(limit: nat, w: Phase, count: nat, launched: bool): Pool {
    Pushed(limit).(workerMaxCount := 1, workers := [w], workerCount := count, roster := {0}, ctl := Launching(0, launched))
  }
  function Working(limit: nat): Pool {
    Manned(limit, Running(Job(0)), 1, true).(tasks := [], status := [Executing], left := [Dispatched(Job(0), 0)])
  }
  /** And another job is submitted. */
  function PushedAgain(limit: nat): Pool {
    Working(limit).(tasks := [Job(1)], status := [Executing, Waiting], pushed := [Job(0), Job(1)])
  }

  /** An Add to a pool with an empty queue and nobody asleep. */
  lemma PushSteps(s: Pool)
    requires s.state == Started && s.tasks == [] && s.idleCount == 0
    requires Sleepers(s.workers) == {} && s.blocked == {} && s.signalled == {}
    ensures var t := Job(|s.pushed|);
            IsStep(s, Add(Plain(), 0, 0, {}),
                   s.(tasks := [t], status := s.status + [Waiting], pushed := s.pushed + [t]))
  {
    PoolUnexpired.AddPurgesNone(s, Plain(), {}, 0);
    assert Wake(s.workers, {}) == s.workers;
  }

  lemma FirstSteps(limit: nat)
    ensures IsStep(Init(limit), CtlStart, Begun(limit))
    ensures IsStep(Begun(limit), Add(Plain(), 0, 0, {}), Pushed(limit))
  {
    assert Wake([], {}) == [];
    PushSteps(Begun(limit));
  }

  lemma LaunchSteps(limit: nat)
    ensures IsStep(Pushed(limit), CtlAdd(1), Manned(limit, Created, 0, false))
    ensures IsStep(Manned(limit, Created, 0, false), CtlLaunch, Manned(limit, Launched, 0, true))
    ensures IsStep(Manned(limit, Launched, 0, true), Admit(0), Manned(limit, Greeting, 1, true))
    ensures IsStep(Manned(limit, Greeting, 1, true), Greet(0), Manned(limit, Ready, 1, true))
  {
  }

  /** The one worker takes the one task. */
  lemma TakeSteps(s: Pool)
    requires s.workers == [Ready] && s.tasks == [Job(0)] && s.status == [Waiting] && s.left == []
    requires s.workerCount <= s.workerMaxCount && s.blocked == {} && s.signalled == {}
    ensures IsStep(s, Enter(0, 0, {}),
                   s.(workers := [Running(Job(0))], tasks := [], status := [Executing], left := [Dispatched(Job(0), 0)]))
  {
    PoolUnexpired.SectionPurgesNone(s, 0, {}, 0);
  }

  lemma WorkSteps(limit: nat)
    ensures IsStep(Manned(limit, Ready, 1, true), Enter(0, 0, {}), Working(limit))
    ensures IsStep(Working(limit), Add(Plain(), 0, 0, {}), PushedAgain(limit))
  {
    TakeSteps(Manned(limit, Ready, 1, true));
    PushSteps(Working(limit));
  }

  lemma JobRuns(limit: nat) returns (es: seq<SchedEvent>)
    ensures IsSchedRun(SchedInit(limit), es)
    ensures SchedAfter(SchedInit(limit), es) == SchedInit(limit).(pool := Working(limit))
  {
    var s := SchedInit(limit);
    FirstSteps(limit);
    LaunchSteps(limit);
    WorkSteps(limit);
    es := [];
    SchedExtend(s, es, PoolStep(CtlStart), s.(pool := Begun(limit)));
    es := es + [PoolStep(CtlStart)];
    SchedExtend(s, es, PoolStep(Add(Plain(), 0, 0, {})), s.(pool := Pushed(limit)));
    es := es + [PoolStep(Add(Plain(), 0, 0, {}))];
    SchedExtend(s, es, PoolStep(CtlAdd(1)), s.(pool := Manned(limit, Created, 0, false)));
    es := es + [PoolStep(CtlAdd(1))];
    SchedExtend(s, es, PoolStep(CtlLaunch), s.(pool := Manned(limit, Launched, 0, true)));
    es := es + [PoolStep(CtlLaunch)];
    SchedExtend(s, es, PoolStep(Admit(0)), s.(pool := Manned(limit, Greeting, 1, true)));
    es := es + [PoolStep(Admit(0))];
    SchedExtend(s, es, PoolStep(Greet(0)), s.(pool := Manned(limit, Ready, 1, true)));
    es := es + [PoolStep(Greet(0))];
    SchedExtend(s, es, PoolStep(Enter(0, 0, {})), s.(pool := Working(limit)));
    es := es + [PoolStep(Enter(0, 0, {}))];
  }

  /** The job completes, another is submitted, the first is counted. */
  lemma MisleadingSteps(limit: nat)
    ensures var s := SchedInit(limit).(pool := Working(limit));
            var s1 := Sched(Working(limit), WORD - 1, 0, [0], {0});
            var s2 := s1.(pool := PushedAgain(limit));
            && SchedEnabled(s, JobDone(0)) && SchedStep(s, JobDone(0)) == s1
            && SchedEnabled(s1, PoolStep(Add(Plain(), 0, 0, {}))) && SchedStep(s1, PoolStep(Add(Plain(), 0, 0, {}))) == s2
            && SchedEnabled(s2, Count) && SchedStep(s2, Count) == s2.(counter := 0, counted := 1)
  {
    WorkSteps(limit);
  }

  /** Such a zero does occur: for every limit there is a run in which a job completes before it
      is counted, another is submitted and only the first is counted; the counter is zero and
      the second job has not even started. */
  lemma ZeroCanMislead(limit: nat) returns (es: seq<SchedEvent>)
    ensures IsSchedRun(SchedInit(limit), es)
    ensures var t := SchedAfter(SchedInit(limit), es); t.counter == 0 && !AllDone(t)
  {
    var s := SchedInit(limit);
    var s1 := Sched(Working(limit), WORD - 1, 0, [0], {0});
    var s2 := s1.(pool := PushedAgain(limit));
    MisleadingSteps(limit);
    es := JobRuns(limit);
    SchedExtend(s, es, JobDone(0), s1);
    es := es + [JobDone(0)];
    SchedExtend(s, es, PoolStep(Add(Plain(), 0, 0, {})), s2);
    es := es + [PoolStep(Add(Plain(), 0, 0, {}))];
    SchedExtend(s, es, Count, s2.(counter := 0, counted := 1));
    es := es + [Count];
    assert 1 !in SchedAfter(s, es).completions;
  }

  // ---------------------------------------------------------------- the objects

  datatype Observer = Null | Observer(id: nat)

  /** weak_ptr::lock: null once the observer has been destroyed. */
  function Locked(id: nat, alive: set<nat>): Observer {
    if id in alive then Observer(id) else Null
  }

  /** Whether the list has an entry that locks to the same pointer. */
  ghost predicate Registered(list: seq<nat>, id: nat, alive: set<nat>) {
    exists i :: 0 <= i < |list| && Locked(list[i], alive) == Locked(id, alive)
  }

  class ObservableSplitterJob {
    var observers: seq<nat>

    constructor ()
      ensures observers == []
    {
      observers := [];
    }

    /** Adds the observer unless it is there; so a live observer is listed once. */
    method RegisterObserver(id: nat, alive: set<nat>)
      modifies this
      ensures observers == if Registered(old(observers), id, alive) then old(observers) else old(observers) + [id]
      ensures old(Distinct(observers)) && id in alive ==> Distinct(observers) && id in observers
    {
      for i := 0 to |observers|
        invariant observers == old(observers)
        invariant forall j :: 0 <= j < i ==> Locked(observers[j], alive) != Locked(id, alive)
      {
        if Locked(observers[i], alive) == Locked(id, alive) {
          return;
        }
      }
      observers := observers + [id];
    }

    /** Calls OnCompletedJob once for each entry, in order. */
    method NotifyAllObservers(alive: set<nat>) returns (calls: seq<nat>)
      requires forall id :: id in observers ==> id in alive
      ensures calls == observers
    {
      calls := [];
      for i := 0 to |observers|
        invariant calls == observers[..i]
      {
        calls := calls + [observers[i]];
      }
    }
  }

  class SplitterJobScheduler {
    var pendingJobCount: nat
    // The pool it submits to, and the histories.
    ghost var pool: Pool
    ghost var counted: nat
    ghost var completions: seq<nat>
    ghost var notified: set<nat>

    ghost function View(): Sched
      reads this
    {
      Sched(pool, pendingJobCount, counted, completions, notified)
    }

    constructor (ghost limit: nat)
      ensures View() == SchedInit(limit)
    {
      pendingJobCount, pool, counted, completions, notified := 0, Init(limit), 0, [], {};
    }

    /** AddSplitterJob's last block: the job is already with the pool. */
    method CountJob()
      requires counted < |pool.pushed|
      modifies this`pendingJobCount, this`counted
      ensures IsSchedStep(old(View()), Count, View())
    {
      pendingJobCount := Inc(pendingJobCount);
      counted := counted + 1;
    }

    /** Called by the job that worker w is running. */
    method OnCompletedJob(ghost w: nat)
      requires w < |pool.workers| && pool.workers[w].Running? && w !in notified
      modifies this`pendingJobCount, this`completions, this`notified
      ensures IsSchedStep(old(View()), JobDone(w), View())
    {
      pendingJobCount := Dec(pendingJobCount);
      completions := completions + [pool.workers[w].task.id];
      notified := notified + {w};
    }
  }
}
