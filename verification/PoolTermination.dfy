/** Shutdown ends: from the moment the final Stop or Join has lowered the limit, the pool can
    take only so many steps before the remover has returned. */
module PoolTermination {
  import opened Totals
  import opened FiniteSets
  import opened ThreadPool
  import opened PoolInvariants
  import opened PoolSafety
  import opened PoolManaged
  import opened PoolProgress
  import opened PoolShutdown

  /** Steps of the pool's own threads: no spurious wakeup, no new call from outside. */
  predicate Works(ev: Event) {
    || ev.Greet? || ev.Enter? || ev.Resume? || ev.TaskEnd? || ev.Exit?
    || ev.AddResume? || ev.AddTimeout?
    || ev.CtlCheck? || ev.CtlSleep? || ev.CtlFinish?
  }

  /** A managed run without spurious wakeups. */
  predicate Quiet(s: Pool, ev: Event) {
    Managed(s, ev) && !ev.Spurious? && !ev.AddSpurious? && !ev.CtlSpurious?
  }

  function RankN(p: Phase): nat {
    match p
    case Running(_) => 3
    case Greeting => 3
    case Ready => 2
    case Woken => 2
    case Leaving => 1
    case _ => 0
  }

  function ControlRank(c: Control): nat {
    match c
    case WaitCheck(_) => 4
    case WaitCommit(_) => 3
    case WaitAsleep(_) => 2
    case StopFinish => 1
    case _ => 0
  }

  /** Tasks that are queued or may still be pushed by a submitter waiting for room. */
  function Potential(s: Pool): nat { |s.tasks| + |s.blocked| + |s.signalled| }

  function Rest(s: Pool): nat {
    2 * |s.signalled| + |s.blocked| + 3 * Total(s.workers, RankN) + ControlRank(s.ctl)
  }

  /** One potential task outweighs everything its dispatch can set in motion. */
  function Measure(s: Pool, k: nat): nat { Times(Potential(s), k) + Rest(s) }

  /** What one dispatch can add to the rest of the measure, at most. */
  function Slack(s: Pool): nat { |s.blocked| + |s.signalled| + 5 }

  predicate Fits(s: Pool, k: nat) { Slack(s) <= k }

  lemma TaskPays(s: Pool, s': Pool, k: nat)
    requires Potential(s') < Potential(s) && Rest(s') < Rest(s) + k
    ensures Measure(s', k) < Measure(s, k)
  {
    TimesMono(Potential(s'), Potential(s), k);
  }

  lemma RestPays(s: Pool, s': Pool, k: nat)
    requires Potential(s') <= Potential(s) && Rest(s') <= Rest(s)
    ensures Measure(s', k) - Rest(s') <= Measure(s, k) - Rest(s)
  {
    TimesMono(Potential(s'), Potential(s), k);
  }

  /** In shutdown a worker's section leaves the loop or takes a task off the queue. */
  lemma SectionWorks(s: Pool, w: nat, now: int, calls: set<AddCall>, k: nat)
    requires ShutInv(s) && s.workerCount == Live(s) && Fits(s, k)
    requires w < |s.workers| && (s.workers[w] == Ready || s.workers[w] == Woken) && calls <= s.blocked
    ensures var s' := Section(s, w, now, calls); Measure(s', k) < Measure(s, k) && Fits(s', k)
  {
    var s' := Section(s, w, now, calls);
    var p := s'.workers[w];
    ShutSection(s, w, now, calls);
    TotalUpdate(s.workers, w, p, RankN);
    assert s'.workers == s.workers[w := p];
    if IsActive(s) {
      SetSizes(s.blocked, s.signalled, calls);
      PurgeShrinks(s, w, now);
      TaskPays(s, s', k);
    } else {
      RestPays(s, s', k);
    }
  }

  lemma MoveWorks(s: Pool, s': Pool, w: nat, k: nat)
    requires w < |s.workers| && w < |s'.workers| && s'.workers == s.workers[w := s'.workers[w]]
    requires RankN(s'.workers[w]) < RankN(s.workers[w])
    requires s'.tasks == s.tasks && s'.blocked == s.blocked && s'.signalled == s.signalled
    requires s'.ctl == s.ctl || (s.ctl.WaitAsleep? && s'.ctl.WaitCheck?)
    ensures Measure(s', k) < Measure(s, k)
  {
    TotalUpdate(s.workers, w, s'.workers[w], RankN);
    RestPays(s, s', k);
  }

  lemma ResumeWorks(s: Pool, w: nat, now: int, calls: set<AddCall>, k: nat)
    requires ShutInv(s) && s.workerCount == Live(s) && Fits(s, k)
    requires w < |s.workers| && s.workers[w] == Woken && calls <= s.blocked
    ensures var s' := Section(s.(idleCount := Dec(s.idleCount)), w, now, calls);
            Measure(s', k) < Measure(s, k) && Fits(s', k)
  {
    var s0 := s.(idleCount := Dec(s.idleCount));
    SectionWorks(s0, w, now, calls, k);
    assert Measure(s0, k) == Measure(s, k);
  }

  lemma WorkerWorks(s: Pool, ev: Event, k: nat)
    requires s.workerCount == Live(s) && ShutInv(s) && Fits(s, k)
    requires Enabled(s, ev) && ByWorker(ev) && Works(ev)
    ensures Measure(Step(s, ev), k) < Measure(s, k) && Fits(Step(s, ev), k)
  {
    if ev.Enter? {
      SectionWorks(s, ev.w, ev.now, ev.calls, k);
    } else if ev.Resume? {
      ResumeWorks(s, ev.w, ev.now, ev.calls, k);
    } else {
      MoveWorks(s, Step(s, ev), ev.w, k);
    }
  }

  lemma NobodySleeps(s: Pool)
    requires ShutInv(s)
    ensures Sleepers(s.workers) == {}
  {
  }

  lemma CallerWorks(s: Pool, ev: Event, k: nat)
    requires ShutInv(s) && Fits(s, k) && Enabled(s, ev) && ByCaller(ev) && Works(ev)
    ensures Measure(Step(s, ev), k) < Measure(s, k) && Fits(Step(s, ev), k)
  {
    var s' := Step(s, ev);
    if ev.AddResume? {
      NobodySleeps(s);
      assert Wake(s.workers, ev.wakes) == s.workers;
      RestPays(s, s', k);
    } else {
      RestPays(s, s', k);
    }
  }

  lemma ControllerWorks(s: Pool, ev: Event, k: nat)
    requires ShutInv(s) && Fits(s, k) && Enabled(s, ev) && ByController(ev) && Works(ev)
    ensures Measure(Step(s, ev), k) < Measure(s, k) && Fits(Step(s, ev), k)
  {
  }

  /** Every other event leaves the measure where it is or lowers it. */
  lemma OthersDoNotHinder(s: Pool, ev: Event, k: nat)
    requires Shut(s) && ShutInv(s) && Fits(s, k) && Enabled(s, ev) && Quiet(s, ev) && !Works(ev)
    ensures Measure(Step(s, ev), k) <= Measure(s, k) && Fits(Step(s, ev), k)
  {
    if ev.AddTimeoutLate? || ev.PurgeNow? || ev.RemoveNext? {
      RestPays(s, Step(s, ev), k);
    }
  }

  function WorkSteps(evs: seq<Event>): nat {
    if evs == [] then 0 else (if Works(evs[0]) then 1 else 0) + WorkSteps(evs[1..])
  }

  ghost predicate Winding(s: Pool) {
    SafeInv(s) && ManagedInv(s) && Shut(s)
  }

  lemma WindingStep(s: Pool, ev: Event, k: nat)
    requires Winding(s) && Fits(s, k) && Enabled(s, ev) && Quiet(s, ev)
    ensures Winding(Step(s, ev)) && Fits(Step(s, ev), k)
    ensures Measure(Step(s, ev), k) + (if Works(ev) then 1 else 0) <= Measure(s, k)
  {
    StepKeepsSafe(s, ev);
    StepKeepsManaged(s, ev);
    ShutStays(s, ev);
    if !Works(ev) {
      OthersDoNotHinder(s, ev, k);
    } else if ByWorker(ev) {
      WorkerWorks(s, ev, k);
    } else if ByCaller(ev) {
      CallerWorks(s, ev, k);
    } else {
      ControllerWorks(s, ev, k);
    }
  }

  lemma {:induction false} WindingRun(s: Pool, evs: seq<Event>, k: nat)
    requires Winding(s) && Fits(s, k) && IsRun(s, evs, Quiet)
    ensures WorkSteps(evs) <= Measure(s, k) && Winding(After(s, evs, Quiet))
    decreases |evs|
  {
    if evs != [] {
      WindingStep(s, evs[0], k);
      WindingRun(Step(s, evs[0]), evs[1..], k);
    }
  }

  /** Until the remover has returned, one of the pool's own threads can take a step. */
  lemma WindingAdvances(s: Pool) returns (ev: Event)
    requires CountInv(CoreOf(s)) && ShutInv(s) && OnlyOutsiders(s) && s.ctl != Idle
    ensures Enabled(s, ev) && Works(ev) && Quiet(s, ev)
  {
    if s.ctl == StopFinish {
      ev := CtlFinish;
    } else if s.ctl.WaitCommit? {
      ev := CtlSleep;
    } else if s.ctl.WaitCheck? {
      ev := CtlCheck;
    } else {
      assert s.workerCount != 0;
      var w := TotalWitness(s.workers, LiveN);
      assert StaysUp(s.workers[w]);
      if s.workers[w] == Leaving {
        ev := Exit(w);
      } else {
        ev := WorkerCanMove(s, w);
      }
    }
  }

  /** Add is refused in shutdown, so no pool thread starts to wait in it. */
  lemma {:induction false} WindingOutsiders(s: Pool, evs: seq<Event>)
    requires Winding(s) && OnlyOutsiders(s) && IsRun(s, evs, Quiet)
    ensures OnlyOutsiders(After(s, evs, Quiet))
    decreases |evs|
  {
    if evs != [] {
      WindingStep(s, evs[0], Slack(s));
      OutsidersStay(s, evs[0]);
      WindingOutsiders(Step(s, evs[0]), evs[1..]);
    }
  }

  /** A shutdown under way: a run within the rule up to it, then one without spurious wakeups. */
  ghost predicate ShuttingDown(limit: nat, evs: seq<Event>, rule: Rule, more: seq<Event>) {
    && IsRun(Init(limit), evs, rule)
    && Shut(After(Init(limit), evs, rule))
    && IsRun(After(Init(limit), evs, rule), more, Quiet)
  }

  /** Shutdown is bounded: once the final Stop or Join has lowered the limit, every run
      without spurious wakeups takes at most this many steps of the pool's own threads,
      however they interleave with calls from outside. */
  lemma ShutdownBounded(limit: nat, evs: seq<Event>, more: seq<Event>)
    requires ShuttingDown(limit, evs, Managed, more)
    ensures var s := After(Init(limit), evs, Managed);
            WorkSteps(more) <= Measure(s, Slack(s))
  {
    var s := ManagedReached(limit, evs, Managed);
    WindingRun(s, more, Slack(s));
  }

  /** If pool threads called Add only once in id_map_, then until the remover has returned
      there is such a step to take; once it has, no worker is left. With the bound: every
      shutdown run that keeps taking steps ends with worker_count_ zero and the remover
      returned. */
  lemma ShutdownCompletes(limit: nat, evs: seq<Event>, more: seq<Event>) returns (ev: Event)
    requires ShuttingDown(limit, evs, Recorded, more)
    ensures var s := After(After(Init(limit), evs, Recorded), more, Quiet);
            if s.ctl == Idle then s.state == Stopped && s.workerCount == 0
            else Enabled(s, ev) && Works(ev) && Quiet(s, ev)
  {
    var s := ManagedReached(limit, evs, Recorded);
    RunKeepsOutsiders(Init(limit), evs, Recorded);
    WindingRun(s, more, Slack(s));
    WindingOutsiders(s, more);
    ev := CtlFinish;
    if After(s, more, Quiet).ctl != Idle {
      ev := WindingAdvances(After(s, more, Quiet));
    }
  }

  // ---------------------------------------------------------------- submitters left behind

  /** Stop has lowered the limit; or Join has, and every worker has left the loop. */
  ghost predicate Closed(s: Pool) {
    Shut(s) && (s.state == Joining ==> forall w :: 0 <= w < |s.workers| ==> HasLeft(s.workers[w]))
  }

  /** A worker still inside leaves without a signal to the submitters. */
  lemma ClosedWorker(s: Pool, ev: Event)
    requires Closed(s) && ShutInv(s) && s.workerCount == Live(s) && Enabled(s, ev) && ByWorker(ev)
    ensures Step(s, ev).blocked == s.blocked
    ensures forall w :: 0 <= w < |s.workers| && HasLeft(s.workers[w]) ==> HasLeft(Step(s, ev).workers[w])
    ensures |Step(s, ev).workers| == |s.workers|
  {
    if ev.Enter? {
      ShutSection(s, ev.w, ev.now, ev.calls);
    } else if ev.Resume? {
      ShutSection(s.(idleCount := Dec(s.idleCount)), ev.w, ev.now, ev.calls);
    }
  }

  lemma ClosedOther(s: Pool, ev: Event, call: AddCall)
    requires Closed(s) && ShutInv(s) && Enabled(s, ev) && Quiet(s, ev) && !ByWorker(ev)
    requires call in s.blocked && call.timeout <= 0
    ensures call in Step(s, ev).blocked && Step(s, ev).workers == s.workers
  {
    NobodySleeps(s);
  }

  lemma ClosedStep(s: Pool, ev: Event, call: AddCall)
    requires Winding(s) && Closed(s) && Enabled(s, ev) && Quiet(s, ev) && call in s.blocked && call.timeout <= 0
    ensures Closed(Step(s, ev)) && call in Step(s, ev).blocked
  {
    ShutStays(s, ev);
    if ByWorker(ev) {
      ClosedWorker(s, ev);
    } else {
      ClosedOther(s, ev, call);
    }
  }

  lemma {:induction false} ClosedRun(s: Pool, evs: seq<Event>, call: AddCall)
    requires Winding(s) && Closed(s) && IsRun(s, evs, Quiet) && call in s.blocked && call.timeout <= 0
    ensures call in After(s, evs, Quiet).blocked
    decreases |evs|
  {
    if evs != [] {
      WindingStep(s, evs[0], Slack(s));
      ClosedStep(s, evs[0], call);
      ClosedRun(Step(s, evs[0]), evs[1..], call);
    }
  }

  /** A submitter without a timeout that is asleep in Add when Stop has lowered the limit, or
      when the last worker leaves a Join, is never woken again but by a spurious wakeup. */
  lemma SubmitterStranded(limit: nat, evs: seq<Event>, more: seq<Event>, call: AddCall)
    requires IsRun(Init(limit), evs, Managed)
    requires var s := After(Init(limit), evs, Managed);
             Closed(s) && call in s.blocked && call.timeout <= 0 && IsRun(s, more, Quiet)
    ensures call in After(After(Init(limit), evs, Managed), more, Quiet).blocked
  {
    var s := ManagedReached(limit, evs, Managed);
    ClosedRun(s, more, call);
  }
}
