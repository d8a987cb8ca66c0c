/** The task ledger: what every run keeps about the queue and about the tasks that left it. */
module PoolLedger {
  import opened Totals
  import opened ThreadPool

  datatype Ledger = Ledger(
    tasks: seq<Task>, status: seq<Status>, pushed: seq<Task>, left: seq<Departure>,
    finished: seq<nat>, ws: seq<Phase>)

  function LedgerOf(s: Pool): Ledger {
    Ledger(s.tasks, s.status, s.pushed, s.left, s.finished, s.workers)
  }

  /** The tasks that left the queue, then the queue, are the pushes, in order. */
  ghost predicate Fifo(g: Ledger) {
    && |g.left| + |g.tasks| == |g.pushed| == |g.status|
    && (forall i :: 0 <= i < |g.pushed| ==> g.pushed[i].id == i)
    && (forall i :: 0 <= i < |g.left| ==> g.left[i].task == g.pushed[i])
    && (forall i :: 0 <= i < |g.tasks| ==> g.tasks[i] == g.pushed[|g.left| + i])
    && (forall i :: |g.left| <= i < |g.pushed| ==> g.status[i] == Waiting)
    && (forall i :: 0 <= i < |g.left| ==> (g.status[i] == Waiting <==> !g.left[i].Dispatched?))
    && (forall i :: 0 <= i < |g.status| && g.status[i] == Complete ==> i in g.finished)
  }

  /** A running worker holds the task dispatched to it, unfinished. */
  ghost predicate RunsOwnTask(g: Ledger, w: nat)
    requires w < |g.ws| && g.ws[w].Running?
  {
    var t := g.ws[w].task;
    t.id < |g.left| && g.left[t.id] == Dispatched(t, w) && t.id < |g.status| && g.status[t.id] == Executing
    && t.id !in g.finished
  }

  /** A dispatched task has ended or its worker is running it. */
  ghost predicate Accounted(g: Ledger, i: nat)
    requires i < |g.left| && g.left[i].Dispatched?
  {
    g.left[i].w < |g.ws| && (i in g.finished || g.ws[g.left[i].w] == Running(g.left[i].task))
  }

  ghost predicate Runs(g: Ledger) {
    && (forall w :: 0 <= w < |g.ws| && g.ws[w].Running? ==> RunsOwnTask(g, w))
    && (forall i :: 0 <= i < |g.left| && g.left[i].Dispatched? ==> Accounted(g, i))
    && (forall i, j :: 0 <= i < j < |g.finished| ==> g.finished[i] != g.finished[j])
    && (forall i :: i in g.finished ==> i < |g.left| && g.left[i].Dispatched?)
  }

  ghost predicate LedgerInv(g: Ledger) {
    Fifo(g) && Runs(g)
  }

  function ExpiredN(d: Departure): nat { if d.Expired? then 1 else 0 }

  ghost predicate QueueInv(s: Pool) {
    && LedgerInv(LedgerOf(s))
    && (s.limit > 0 ==> |s.tasks| <= s.limit)
    && s.expiredCount + s.taken == Total(s.left, ExpiredN)
  }

  /** The workers' phases change without touching a running one. */
  predicate SameRunning(ws: seq<Phase>, ws': seq<Phase>) {
    && |ws| <= |ws'|
    && (forall w :: 0 <= w < |ws| && (ws[w].Running? || ws'[w].Running?) ==> ws[w] == ws'[w])
    && (forall w :: |ws| <= w < |ws'| ==> !ws'[w].Running?)
  }

  lemma FrameKeepsLedger(g: Ledger, ws: seq<Phase>)
    requires LedgerInv(g) && SameRunning(g.ws, ws)
    ensures LedgerInv(g.(ws := ws))
  {
  }

  function Leave(g: Ledger, d: Departure): Ledger
    requires g.tasks != []
  {
    g.(tasks := g.tasks[1..], left := g.left + [d])
  }

  /** The front task leaves the queue without being dispatched. */
  lemma LeaveKeepsLedger(g: Ledger, d: Departure)
    requires LedgerInv(g) && g.tasks != [] && d.task == g.tasks[0] && !d.Dispatched?
    ensures LedgerInv(Leave(g, d))
  {
  }

  lemma {:induction false} PurgeKeepsLedger(g: Ledger, n: nat)
    requires LedgerInv(g) && n <= |g.tasks|
    ensures LedgerInv(g.(tasks := g.tasks[n..],
                         left := g.left + AsExpired(g.tasks[..n])))
    decreases n
  {
  }

  lemma PushKeepsLedger(g: Ledger, t: Task)
    requires LedgerInv(g) && t.id == |g.pushed|
    ensures LedgerInv(g.(tasks := g.tasks + [t], status := g.status + [Waiting], pushed := g.pushed + [t]))
  {
  }

  lemma TakeKeepsLedger(s: Pool, w: nat)
    requires LedgerInv(LedgerOf(s)) && w < |s.workers| && !s.workers[w].Running?
    ensures LedgerInv(LedgerOf(Take(s, w)))
    ensures s.tasks != [] ==> Take(s, w).workers[w] == Running(s.tasks[0])
  {
    var g, g' := LedgerOf(s), LedgerOf(Take(s, w));
    if s.tasks == [] {
      FrameKeepsLedger(g, g'.ws);
    } else {
      var t := s.tasks[0];
      assert t == s.pushed[|s.left|];
      assert s.status[t.id] == Waiting;
      assert g'.ws == g.ws[w := Running(t)];
      assert t.id !in g.finished;
      forall v | 0 <= v < |g'.ws| && g'.ws[v].Running? ensures RunsOwnTask(g', v) {
        if v != w { assert RunsOwnTask(g, v); }
      }
      forall i | 0 <= i < |g'.left| && g'.left[i].Dispatched? ensures Accounted(g', i) {
        if i < |g.left| { assert Accounted(g, i); }
      }
    }
  }

  lemma EndKeepsLedger(s: Pool, w: nat, threw: bool)
    requires LedgerInv(LedgerOf(s)) && w < |s.workers| && s.workers[w].Running?
    ensures LedgerInv(LedgerOf(DoTaskEnd(s, w, threw)))
  {
  }

  // ---------------------------------------------------------------- steps

  lemma {:induction false} ExpiredTotal(out: seq<Departure>)
    requires forall i :: 0 <= i < |out| ==> out[i].Expired?
    ensures Total(out, ExpiredN) == |out|
  {
    if out != [] {
      ExpiredTotal(out[..|out| - 1]);
    }
  }

  lemma PurgeKeepsQueue(s: Pool, now: int)
    requires QueueInv(s)
    ensures QueueInv(Purge(s, now))
  {
    ExpiredPrefixIsLongest(s.tasks, now);
    var n := ExpiredPrefix(s.tasks, now);
    var out := AsExpired(s.tasks[..n]);
    PurgeKeepsLedger(LedgerOf(s), n);
    TotalAppend(s.left, out, ExpiredN);
    ExpiredTotal(out);
  }

  lemma TakeKeepsQueue(s: Pool, w: nat)
    requires QueueInv(s) && w < |s.workers| && !s.workers[w].Running?
    ensures QueueInv(Take(s, w))
  {
    TakeKeepsLedger(s, w);
    if s.tasks != [] {
      TotalAppend(s.left, [Dispatched(s.tasks[0], w)], ExpiredN);
    }
  }

  lemma SectionKeepsQueue(s: Pool, w: nat, now: int, calls: set<AddCall>)
    requires QueueInv(s) && w < |s.workers| && !s.workers[w].Running?
    ensures QueueInv(Section(s, w, now, calls))
  {
    if !IsActive(s) {
      FrameKeepsLedger(LedgerOf(s), s.workers[w := Leaving]);
    } else if s.tasks == [] {
      FrameKeepsLedger(LedgerOf(s), s.workers[w := Asleep]);
    } else {
      PurgeKeepsQueue(s, now);
      TakeKeepsQueue(Purge(s, now), w);
    }
  }

  lemma PushKeepsQueue(s: Pool, call: AddCall, stamp: int, wakes: set<nat>)
    requires QueueInv(s) && wakes <= Sleepers(s.workers) && !Full(s)
    ensures QueueInv(Push(s, call, stamp, wakes))
  {
    var t := Task(|s.pushed|, Expiry(stamp, call.expiration));
    PushKeepsLedger(LedgerOf(s), t);
    var g := LedgerOf(s).(tasks := s.tasks + [t], status := s.status + [Waiting], pushed := s.pushed + [t]);
    FrameKeepsLedger(g, Wake(s.workers, wakes));
  }

  lemma RemoveNextKeepsQueue(s: Pool)
    requires QueueInv(s)
    ensures QueueInv(DoRemoveNext(s))
  {
    if s.state != Started && s.tasks != [] {
      LeaveKeepsLedger(LedgerOf(s), Removed(s.tasks[0]));
      TotalAppend(s.left, [Removed(s.tasks[0])], ExpiredN);
    }
  }

  /** A worker moves between phases in which it holds no task. */
  lemma QuietKeepsQueue(s: Pool, s': Pool, w: nat, p: Phase)
    requires QueueInv(s) && w < |s.workers| && !s.workers[w].Running? && !p.Running?
    requires LedgerOf(s') == LedgerOf(s).(ws := s.workers[w := p])
    requires s'.limit == s.limit && s'.expiredCount == s.expiredCount && s'.taken == s.taken
    ensures QueueInv(s')
  {
    FrameKeepsLedger(LedgerOf(s), s.workers[w := p]);
  }

  lemma WorkerKeepsQueue(s: Pool, ev: Event)
    requires QueueInv(s) && Enabled(s, ev) && ByWorker(ev)
    ensures QueueInv(Step(s, ev))
  {
    match ev
    case Admit(w) => QuietKeepsQueue(s, DoAdmit(s, w), w, DoAdmit(s, w).workers[w]);
    case Greet(w) => QuietKeepsQueue(s, NotifyControl(SetPhase(s, w, Ready)), w, Ready);
    case Enter(w, now, calls) => SectionKeepsQueue(s, w, now, calls);
    case Resume(w, now, calls) => SectionKeepsQueue(s.(idleCount := Dec(s.idleCount)), w, now, calls);
    case Spurious(w) => QuietKeepsQueue(s, SetPhase(s, w, Woken), w, Woken);
    case TaskEnd(w, threw) => EndKeepsLedger(s, w, threw);
    case Exit(w) => QuietKeepsQueue(s, DoExit(s, w), w, Gone);
  }

  lemma CallerKeepsQueue(s: Pool, ev: Event)
    requires QueueInv(s) && Enabled(s, ev) && ByCaller(ev)
    ensures QueueInv(Step(s, ev))
  {
    match ev
    case Add(call, now, stamp, wakes) =>
      if s.state == Started {
        PurgeKeepsQueue(s, now);
        if !Full(Purge(s, now)) {
          PushKeepsQueue(Purge(s, now), call, stamp, wakes);
        }
      }
    case AddResume(call, stamp, wakes) =>
      if !Full(s) {
        PushKeepsQueue(s.(signalled := s.signalled - {call}), call, stamp, wakes);
      }
    case RemoveNext => RemoveNextKeepsQueue(s);
    case PurgeNow(now) => PurgeKeepsQueue(s, now);
    case _ =>
  }

  lemma ControllerKeepsQueue(s: Pool, ev: Event)
    requires QueueInv(s) && Enabled(s, ev) && ByController(ev)
    requires ev.CtlLaunch? ==> s.workers[s.ctl.next] == Created
    ensures QueueInv(Step(s, ev))
  {
    match ev
    case CtlStart => FrameKeepsLedger(LedgerOf(s), Wake(s.workers, Sleepers(s.workers)));
    case CtlAdd(value) => FrameKeepsLedger(LedgerOf(s), s.workers + NewWorkers(value));
    case CtlLaunch => FrameKeepsLedger(LedgerOf(s), s.workers[s.ctl.next := Launched]);
    case CtlShrink(wakes) => FrameKeepsLedger(LedgerOf(s), Wake(s.workers, wakes));
    case _ =>
  }

  // ---------------------------------------------------------------- histories

  lemma SectionHistory(s: Pool, w: nat, now: int, calls: set<AddCall>)
    requires w < |s.workers|
    ensures s.left <= Section(s, w, now, calls).left && s.pushed == Section(s, w, now, calls).pushed
  {
  }

  lemma WorkerHistory(s: Pool, ev: Event)
    requires Enabled(s, ev) && ByWorker(ev)
    ensures s.left <= Step(s, ev).left && s.pushed == Step(s, ev).pushed
  {
    if ev.Enter? {
      SectionHistory(s, ev.w, ev.now, ev.calls);
    } else if ev.Resume? {
      SectionHistory(s.(idleCount := Dec(s.idleCount)), ev.w, ev.now, ev.calls);
    }
  }

  lemma StepHistory(s: Pool, ev: Event)
    requires Enabled(s, ev)
    ensures s.left <= Step(s, ev).left && s.pushed <= Step(s, ev).pushed
  {
    if ByWorker(ev) { WorkerHistory(s, ev); }
  }

  lemma {:induction false} RunHistory(s: Pool, evs: seq<Event>, rule: Rule)
    requires IsRun(s, evs, rule)
    ensures s.left <= After(s, evs, rule).left && s.pushed <= After(s, evs, rule).pushed
    decreases |evs|
  {
    if evs != [] {
      StepHistory(s, evs[0]);
      RunHistory(Step(s, evs[0]), evs[1..], rule);
    }
  }

  /** The p-th task queued in s has left by s'. */
  ghost predicate HasLeftQueue(s: Pool, p: nat, s': Pool)
    requires p < |s.tasks|
  {
    |s.left| + p < |s'.left| && s'.left[|s.left| + p].task == s.tasks[p]
  }

  lemma LeavesAsItself(s: Pool, s': Pool, p: nat)
    requires Fifo(LedgerOf(s)) && Fifo(LedgerOf(s')) && s.pushed <= s'.pushed
    requires p < |s.tasks| && |s.left| + p < |s'.left|
    ensures HasLeftQueue(s, p, s')
  {
    assert s'.left[|s.left| + p].task == s'.pushed[|s.left| + p];
  }
}
