/** What every run of the pool keeps, for any sequential controller: exact counters, room
    for every started worker, the startup and removal handshakes, first-in first-out
    conservation, the queue bound and the agreement of the indexes. */
module PoolInvariants {
  import opened Totals
  import opened ThreadPool

  // ---------------------------------------------------------------- weights of a phase

  function LiveN(p: Phase): nat { if p.Created? || p.Launched? || p.Gone? then 0 else 1 }
  function IdleN(p: Phase): nat { if p.Asleep? || p.Woken? then 1 else 0 }
  function AsleepN(p: Phase): nat { if p.Asleep? then 1 else 0 }
  function WokenN(p: Phase): nat { if p.Woken? then 1 else 0 }
  function PendingN(p: Phase): nat { if p.Created? || p.Launched? then 1 else 0 }
  function RunningN(p: Phase): nat { if p.Running? then 1 else 0 }

  predicate HasLeft(p: Phase) { p == Leaving || p == Gone }

  /** Workers between admission and exit. */
  function Live(s: Pool): nat { Total(s.workers, LiveN) }

  /** Workers whose thread object exists but which have not been admitted. */
  function Pending(s: Pool): nat { Total(s.workers, PendingN) }

  /** Waking adds to a sum what Woken weighs more than Asleep, once per woken worker. */
  lemma {:induction false} WakeTotal(ws: seq<Phase>, wakes: set<nat>, f: Phase -> nat)
    requires wakes <= Sleepers(ws)
    ensures f(Woken) == f(Asleep) ==> Total(Wake(ws, wakes), f) == Total(ws, f)
    ensures f(Woken) == f(Asleep) + 1 ==> Total(Wake(ws, wakes), f) == Total(ws, f) + |wakes|
    ensures f(Woken) == f(Asleep) - 1 ==> Total(Wake(ws, wakes), f) == Total(ws, f) - |wakes|
    decreases |wakes|
  {
    if wakes == {} {
      assert Wake(ws, wakes) == ws;
    } else {
      var w :| w in wakes;
      var rest := wakes - {w};
      assert |wakes| == |rest| + 1;
      assert Wake(ws, wakes) == Wake(ws, rest)[w := Woken];
      TotalUpdate(Wake(ws, rest), w, Woken, f);
      WakeTotal(ws, rest, f);
    }
  }

  lemma {:induction false} SleepersTotal(ws: seq<Phase>)
    ensures |Sleepers(ws)| == Total(ws, AsleepN)
  {
    if ws == [] {
      assert Sleepers(ws) == {};
    } else {
      var n := |ws| - 1;
      SleepersTotal(ws[..n]);
      if ws[n] == Asleep {
        assert Sleepers(ws) == Sleepers(ws[..n]) + {n};
      } else {
        assert Sleepers(ws) == Sleepers(ws[..n]);
      }
    }
  }

  lemma {:induction false} NewWorkersTotal(n: nat, f: Phase -> nat)
    ensures f(Created) == 0 ==> Total(NewWorkers(n), f) == 0
    ensures f(Created) == 1 ==> Total(NewWorkers(n), f) == n
  {
    if n > 0 {
      assert NewWorkers(n)[..n - 1] == NewWorkers(n - 1);
      NewWorkersTotal(n - 1, f);
    }
  }

  // ---------------------------------------------------------------- counters

  /** The part of the state the counters and the controller's waits depend on. */
  datatype Core = Core(ctl: Control, ws: seq<Phase>, count: nat, max: nat, idle: nat)

  function CoreOf(s: Pool): Core {
    Core(s.ctl, s.workers, s.workerCount, s.workerMaxCount, s.idleCount)
  }

  ghost predicate Counters(c: Core) {
    && c.max <= |c.ws| < WORD
    && c.count == Total(c.ws, LiveN)
    && c.idle == Total(c.ws, IdleN)
  }

  ghost predicate CreatedFrom(ws: seq<Phase>, n: nat) {
    forall i :: 0 <= i < |ws| ==> (ws[i] == Created <==> i >= n)
  }

  ghost predicate RoomWaiting(c: Core, op: Op) {
    match op
    case Adding => c.count + Total(c.ws, PendingN) <= c.max && CreatedFrom(c.ws, |c.ws|)
    case Removing(_) => Total(c.ws, PendingN) == 0
  }

  /** Under a sequential controller the worker limit always leaves room for the workers
      that have been created and not yet admitted. */
  ghost predicate Room(c: Core) {
    var pending := Total(c.ws, PendingN);
    match c.ctl
    case Launching(next, launched) =>
      && c.count + pending <= c.max
      && next <= |c.ws| && (launched ==> next < |c.ws|)
      && CreatedFrom(c.ws, if launched then next + 1 else next)
    case WaitCheck(op) => RoomWaiting(c, op)
    case WaitCommit(op) => RoomWaiting(c, op) && (op.Removing? ==> c.count != c.max)
    case WaitAsleep(op) => RoomWaiting(c, op) && (op.Removing? ==> c.count != c.max)
    case RemoveEnter(value, stop) => pending == 0 && c.count <= c.max && (stop ==> value <= c.max)
    case _ => pending == 0 && c.count <= c.max
  }

  ghost predicate SomeGreeting(ws: seq<Phase>) {
    exists w :: 0 <= w < |ws| && ws[w] == Greeting
  }

  predicate AddSleeping(ctl: Control) {
    ctl == WaitCommit(Adding) || ctl == WaitAsleep(Adding)
  }

  /** While AddWorker sleeps although every worker is in, one of them still owes the Notify. */
  ghost predicate Handshake(c: Core) {
    AddSleeping(c.ctl) && c.count == c.max ==> SomeGreeting(c.ws)
  }

  ghost predicate CountInv(c: Core) {
    Counters(c) && Room(c) && Handshake(c)
  }

  lemma LiveAtMost(ws: seq<Phase>)
    ensures Total(ws, LiveN) <= |ws|
    ensures Total(ws, IdleN) <= Total(ws, LiveN)
  {
  }

  lemma UpdateCounts(ws: seq<Phase>, w: nat, p: Phase)
    requires w < |ws|
    ensures Total(ws[w := p], LiveN) == Total(ws, LiveN) - LiveN(ws[w]) + LiveN(p)
    ensures Total(ws[w := p], IdleN) == Total(ws, IdleN) - IdleN(ws[w]) + IdleN(p)
    ensures Total(ws[w := p], PendingN) == Total(ws, PendingN) - PendingN(ws[w]) + PendingN(p)
    ensures Total(ws, LiveN) >= LiveN(ws[w]) && Total(ws, IdleN) >= IdleN(ws[w])
    ensures Total(ws, PendingN) >= PendingN(ws[w])
    ensures Total(ws[w := p], LiveN) <= |ws| && Total(ws[w := p], IdleN) <= |ws|
  {
    TotalUpdate(ws, w, p, LiveN);
    TotalUpdate(ws, w, p, IdleN);
    TotalUpdate(ws, w, p, PendingN);
    TotalAtLeast(ws, LiveN, w);
    TotalAtLeast(ws, IdleN, w);
    TotalAtLeast(ws, PendingN, w);
    LiveAtMost(ws[w := p]);
  }

  lemma WakeCounts(ws: seq<Phase>, wakes: set<nat>)
    requires wakes <= Sleepers(ws)
    ensures Total(Wake(ws, wakes), LiveN) == Total(ws, LiveN)
    ensures Total(Wake(ws, wakes), IdleN) == Total(ws, IdleN)
    ensures Total(Wake(ws, wakes), PendingN) == Total(ws, PendingN)
  {
    WakeTotal(ws, wakes, LiveN);
    WakeTotal(ws, wakes, IdleN);
    WakeTotal(ws, wakes, PendingN);
  }

  /** A worker moves between two phases of its loop. */
  lemma MoveKeepsCount(c: Core, w: nat, p: Phase, idle: nat)
    requires CountInv(c) && w < |c.ws|
    requires LiveN(c.ws[w]) == 1 && LiveN(p) == 1 && c.ws[w] != Greeting
    requires idle == c.idle - IdleN(c.ws[w]) + IdleN(p)
    ensures CountInv(c.(ws := c.ws[w := p], idle := idle))
  {
    UpdateCounts(c.ws, w, p);
    if SomeGreeting(c.ws) {
      var g :| 0 <= g < |c.ws| && c.ws[g] == Greeting;
      assert c.ws[w := p][g] == Greeting;
    }
  }

  lemma WakeKeepsCount(c: Core, wakes: set<nat>)
    requires CountInv(c) && wakes <= Sleepers(c.ws)
    ensures CountInv(c.(ws := Wake(c.ws, wakes)))
  {
    WakeCounts(c.ws, wakes);
    if SomeGreeting(c.ws) {
      var g :| 0 <= g < |c.ws| && c.ws[g] == Greeting;
      assert Wake(c.ws, wakes)[g] == Greeting;
    }
  }

  lemma AdmitKeepsCount(s: Pool, w: nat)
    requires CountInv(CoreOf(s)) && w < |s.workers| && s.workers[w] == Launched
    ensures s.workerCount < s.workerMaxCount
    ensures CountInv(CoreOf(DoAdmit(s, w)))
  {
    var s' := DoAdmit(s, w);
    var p := s'.workers[w];
    UpdateCounts(s.workers, w, p);
    if p == Greeting {
      assert SomeGreeting(s'.workers);
    }
  }

  lemma SectionKeepsCount(s: Pool, w: nat, now: int, calls: set<AddCall>, idle: nat)
    requires CountInv(CoreOf(s).(idle := idle)) && w < |s.workers|
    requires s.workers[w] == Ready || s.workers[w] == Woken
    requires s.idleCount == idle - IdleN(s.workers[w])
    ensures CountInv(CoreOf(Section(s, w, now, calls)))
  {
    var s' := Section(s, w, now, calls);
    var p := s'.workers[w];
    UpdateCounts(s.workers, w, p);
    LiveAtMost(s.workers);
    MoveKeepsCount(CoreOf(s).(idle := idle), w, p, s'.idleCount);
    assert CoreOf(s') == CoreOf(s).(ws := s.workers[w := p], idle := s'.idleCount);
  }

  lemma ExitKeepsCount(s: Pool, w: nat)
    requires CountInv(CoreOf(s)) && w < |s.workers| && s.workers[w] == Leaving && !s.ctl.WaitCommit?
    ensures s.workerCount > 0
    ensures CountInv(CoreOf(DoExit(s, w)))
  {
    UpdateCounts(s.workers, w, Gone);
  }

  lemma GreetKeepsCount(s: Pool, w: nat)
    requires CountInv(CoreOf(s)) && w < |s.workers| && s.workers[w] == Greeting && !s.ctl.WaitCommit?
    ensures CountInv(CoreOf(NotifyControl(SetPhase(s, w, Ready))))
  {
    UpdateCounts(s.workers, w, Ready);
  }

  lemma PushKeepsCount(s: Pool, call: AddCall, stamp: int, wakes: set<nat>)
    requires CountInv(CoreOf(s)) && wakes <= Sleepers(s.workers)
    ensures CountInv(CoreOf(Push(s, call, stamp, wakes)))
  {
    WakeKeepsCount(CoreOf(s), wakes);
  }

  lemma AddWorkersKeepsCount(s: Pool, value: nat)
    requires CountInv(CoreOf(s)) && s.ctl == Idle && |s.workers| + value < WORD
    ensures CountInv(CoreOf(DoCtlAdd(s, value)))
  {
    var c := CoreOf(DoCtlAdd(s, value));
    TotalAppend(s.workers, NewWorkers(value), LiveN);
    TotalAppend(s.workers, NewWorkers(value), IdleN);
    TotalAppend(s.workers, NewWorkers(value), PendingN);
    NewWorkersTotal(value, LiveN);
    NewWorkersTotal(value, IdleN);
    NewWorkersTotal(value, PendingN);
    TotalZero(s.workers, PendingN);
    forall i | 0 <= i < |c.ws| ensures c.ws[i] == Created <==> i >= |s.workers| {
      if i < |s.workers| { assert PendingN(s.workers[i]) == 0; }
    }
  }

  lemma LaunchKeepsCount(s: Pool)
    requires CountInv(CoreOf(s)) && s.ctl.Launching? && !s.ctl.launched && s.ctl.next < |s.workers|
    ensures CountInv(CoreOf(SetPhase(s, s.ctl.next, Launched).(ctl := Launching(s.ctl.next, true))))
  {
    UpdateCounts(s.workers, s.ctl.next, Launched);
  }

  lemma ShrinkKeepsCount(s: Pool, wakes: set<nat>)
    requires CountInv(CoreOf(s)) && s.ctl.RemoveEnter? && wakes <= Sleepers(s.workers)
    ensures CountInv(CoreOf(DoCtlShrink(s, s.ctl.value, s.ctl.stop, wakes)))
  {
    WakeCounts(s.workers, wakes);
  }

  lemma StartKeepsCount(s: Pool)
    requires CountInv(CoreOf(s)) && s.ctl == Idle
    ensures CountInv(CoreOf(DoCtlStart(s)))
  {
    WakeKeepsCount(CoreOf(s), Sleepers(s.workers));
  }

  lemma CheckKeepsCount(s: Pool)
    requires CountInv(CoreOf(s)) && s.ctl.WaitCheck?
    ensures CountInv(CoreOf(DoCtlCheck(s, s.ctl.op)))
  {
  }

  lemma WorkerKeepsCount(s: Pool, ev: Event)
    requires CountInv(CoreOf(s)) && Enabled(s, ev) && ByWorker(ev)
    ensures CountInv(CoreOf(Step(s, ev)))
  {
    match ev
    case Admit(w) => AdmitKeepsCount(s, w);
    case Greet(w) => GreetKeepsCount(s, w);
    case Enter(w, now, calls) => SectionKeepsCount(s, w, now, calls, s.idleCount);
    case Resume(w, now, calls) =>
      TotalAtLeast(s.workers, IdleN, w);
      SectionKeepsCount(s.(idleCount := Dec(s.idleCount)), w, now, calls, s.idleCount);
    case Spurious(w) => MoveKeepsCount(CoreOf(s), w, Woken, s.idleCount);
    case TaskEnd(w, _) => MoveKeepsCount(CoreOf(s), w, Ready, s.idleCount);
    case Exit(w) => ExitKeepsCount(s, w);
  }

  lemma CallerKeepsCount(s: Pool, ev: Event)
    requires CountInv(CoreOf(s)) && Enabled(s, ev) && ByCaller(ev)
    ensures CountInv(CoreOf(Step(s, ev)))
  {
    match ev
    case Add(call, now, stamp, wakes) => PushKeepsCount(Purge(s, now), call, stamp, wakes);
    case AddResume(call, stamp, wakes) =>
      PushKeepsCount(s.(signalled := s.signalled - {call}), call, stamp, wakes);
    case _ =>
  }

  lemma ControllerKeepsCount(s: Pool, ev: Event)
    requires CountInv(CoreOf(s)) && Enabled(s, ev) && ByController(ev)
    ensures CountInv(CoreOf(Step(s, ev)))
  {
    match ev
    case CtlStart => StartKeepsCount(s);
    case CtlAdd(value) => AddWorkersKeepsCount(s, value);
    case CtlLaunch => LaunchKeepsCount(s);
    case CtlShrink(wakes) => ShrinkKeepsCount(s, wakes);
    case CtlCheck => CheckKeepsCount(s);
    case _ =>
  }
}
