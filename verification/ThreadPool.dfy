/** The thread pool of threads/thread_manager.cc as a transition system.

    A `Pool` holds the fields of ThreadManager::Impl, the point each thread has reached and
    the histories the theorems speak about. One `Event` is one critical section, split at
    every Wait; what the scheduler, the clock or the operating system decides is an
    argument of the event. */
module ThreadPool {
  /** size_t counts modulo this. */
  const WORD: nat := 0x1_0000_0000_0000_0000

  function Inc(x: nat): nat { if x == WORD - 1 then 0 else x + 1 }
  function Dec(x: nat): nat { if x == 0 then WORD - 1 else x - 1 }

  datatype Lifecycle = Uninitialized | Started | Joining | Stopping | Stopped

  /** `id` stands for the Task object made by one Add call: its position among the pushes. */
  datatype Task = Task(id: nat, expireTime: int)

  datatype Status = Waiting | Executing | Complete

  /** Where a worker thread stands in Worker::Run. */
  datatype Phase =
    | Created             // in workers_, Start not called
    | Launched            // started, before the admission section
    | Greeting            // admitted as the last one expected, owes worker_monitor_ a Notify
    | Ready               // about to take mutex_ at the top of the loop
    | Asleep              // in monitor_.Wait, no signal received
    | Woken               // signalled in monitor_.Wait, mutex_ not yet retaken
    | Running(task: Task)
    | Leaving             // left the loop, before the exit section
    | Gone

  datatype Caller = Outside(n: nat) | PoolThread(w: nat)

  datatype AddCall = AddCall(caller: Caller, timeout: int, expiration: int)

  datatype Op = Adding | Removing(stop: bool)

  /** Where the one controlling thread stands. */
  datatype Control =
    | Idle
    | Launching(next: nat, launched: bool)     // AddWorker's start loop
    | StopCount                                // StopImpl, before reading worker_count_
    | RemoveEnter(value: nat, stop: bool)      // before RemoveWorker's first section
    | WaitCheck(op: Op)                        // about to test the wait loop's condition
    | WaitCommit(op: Op)                       // holds worker_monitor_, found the counts unequal
    | WaitAsleep(op: Op)                       // in worker_monitor_.Wait
    | StopFinish                               // StopImpl, before the final section

  datatype Departure =
    | Dispatched(task: Task, w: nat)
    | Expired(task: Task)
    | Removed(task: Task)

  datatype Pool = Pool(
    workerCount: nat,
    workerMaxCount: nat,
    idleCount: nat,
    limit: nat,
    expiredCount: nat,
    state: Lifecycle,
    tasks: seq<Task>,
    status: seq<Status>,          // state_ of each Task object, by task id
    roster: set<nat>,             // workers_
    dead: set<nat>,               // dead_workers_
    recorded: set<nat>,           // keys of id_map_
    workers: seq<Phase>,
    blocked: set<AddCall>,        // in max_monitor_.Wait, no signal received
    signalled: set<AddCall>,      // signalled there, mutex_ not yet retaken
    ctl: Control,
    pushed: seq<Task>,            // history: every push
    left: seq<Departure>,         // history: everything that left the queue
    finished: seq<nat>,           // history: ids of the tasks whose run ended
    taken: nat,                   // expiries already reported by ExpiredTaskCount
    mark: nat                     // |pushed| when StopImpl changed the state
  )

  datatype Event =
    | Admit(w: nat)
    | Greet(w: nat)
    | Enter(w: nat, now: int, calls: set<AddCall>)
    | Resume(w: nat, now: int, calls: set<AddCall>)
    | Spurious(w: nat)
    | TaskEnd(w: nat, threw: bool)
    | Exit(w: nat)
    | Add(call: AddCall, now: int, stamp: int, wakes: set<nat>)
    | AddResume(call: AddCall, stamp: int, wakes: set<nat>)
    | AddSpurious(call: AddCall)
    | AddTimeout(call: AddCall)
    | AddTimeoutLate(call: AddCall)
    | CtlStart
    | CtlAdd(value: nat)
    | CtlLaunch
    | CtlRecord
    | CtlLaunched
    | CtlStop(join: bool)
    | CtlReadCount
    | CtlRemove(value: nat)
    | CtlShrink(wakes: set<nat>)
    | CtlCheck
    | CtlSleep
    | CtlSpurious
    | CtlFinish
    | RemoveNext
    | PurgeNow(now: int)
    | TakeExpired

  function Init(limit: nat): Pool {
    Pool(0, 0, 0, limit, 0, Uninitialized, [], [], {}, {}, {}, [], {}, {}, Idle, [], [], [], 0, 0)
  }

  // ---------------------------------------------------------------- condition variables

  function Sleepers(ws: seq<Phase>): set<nat> {
    set i: nat | i < |ws| && ws[i] == Asleep
  }

  function Wake(ws: seq<Phase>, wakes: set<nat>): seq<Phase> {
    seq(|ws|, i requires 0 <= i < |ws| => if i in wakes then Woken else ws[i])
  }

  /** What n pthread_cond_signal calls in one section may do to a set of waiters: each wakes
      at least one of those left, if any. */
  predicate Signals<T>(waiters: set<T>, n: nat, woken: set<T>) {
    && woken <= waiters
    && (n == 0 ==> woken == {})
    && (|woken| >= n || woken == waiters)
  }

  // ---------------------------------------------------------------- the task queue

  predicate IsExpired(t: Task, now: int) {
    t.expireTime != 0 && t.expireTime <= now
  }

  function ExpiredPrefix(ts: seq<Task>, now: int): (n: nat)
    ensures n <= |ts|
  {
    if ts != [] && IsExpired(ts[0], now) then 1 + ExpiredPrefix(ts[1..], now) else 0
  }

  lemma {:induction false} ExpiredPrefixIsLongest(ts: seq<Task>, now: int)
    ensures var n := ExpiredPrefix(ts, now);
            && (forall i :: 0 <= i < n ==> IsExpired(ts[i], now))
            && (n < |ts| ==> !IsExpired(ts[n], now))
  {
    if ts != [] && IsExpired(ts[0], now) {
      ExpiredPrefixIsLongest(ts[1..], now);
    }
  }

  function AsExpired(ts: seq<Task>): seq<Departure> {
    seq(|ts|, i requires 0 <= i < |ts| => Expired(ts[i]))
  }

  lemma PrefixGrows(ts: seq<Task>, n: nat)
    requires n < |ts|
    ensures ts[..n + 1] == ts[..n] + [ts[n]]
    ensures AsExpired(ts[..n + 1]) == AsExpired(ts[..n]) + [Expired(ts[n])]
    ensures ts[n..][1..] == ts[n + 1..]
  {
  }

  /** RemoveExpiredTasks with the clock sample `now`. */
  function Purge(s: Pool, now: int): Pool {
    var n := ExpiredPrefix(s.tasks, now);
    s.(tasks := s.tasks[n..],
       expiredCount := s.expiredCount + n,
       left := s.left + AsExpired(s.tasks[..n]))
  }

  function Expiry(stamp: int, expiration: int): int {
    if expiration != 0 then stamp + expiration else 0
  }

  function Push(s: Pool, call: AddCall, stamp: int, wakes: set<nat>): Pool {
    var t := Task(|s.pushed|, Expiry(stamp, call.expiration));
    s.(tasks := s.tasks + [t],
       status := s.status + [Waiting],
       pushed := s.pushed + [t],
       workers := Wake(s.workers, wakes))
  }

  predicate Full(s: Pool) {
    s.limit > 0 && |s.tasks| >= s.limit
  }

  predicate CanSleep(s: Pool, caller: Caller) {
    caller.Outside? || caller.w !in s.recorded
  }

  // ---------------------------------------------------------------- workers

  predicate IsActive(s: Pool) {
    s.workerCount <= s.workerMaxCount || (s.state == Joining && s.tasks != [])
  }

  function SetPhase(s: Pool, w: nat, p: Phase): Pool
    requires w < |s.workers|
  {
    s.(workers := s.workers[w := p])
  }

  /** Admission, lines 173-180. */
  function DoAdmit(s: Pool, w: nat): Pool
    requires w < |s.workers|
  {
    if s.workerCount < s.workerMaxCount then
      var c := Inc(s.workerCount);
      SetPhase(s, w, if c == s.workerMaxCount then Greeting else Ready).(workerCount := c)
    else
      SetPhase(s, w, Leaving)
  }

  /** worker_monitor_.Notify: only the controller ever waits there. */
  function NotifyControl(s: Pool): Pool {
    if s.ctl.WaitAsleep? then s.(ctl := WaitCheck(s.ctl.op)) else s
  }

  /** Pops the front task, lines 204-210. */
  function Take(s: Pool, w: nat): Pool
    requires w < |s.workers|
  {
    if s.tasks == [] then SetPhase(s, w, Ready)
    else
      var t := s.tasks[0];
      var status := if t.id < |s.status| && s.status[t.id] == Waiting
                    then s.status[t.id := Executing] else s.status;
      SetPhase(s, w, if t.id < |status| && status[t.id] == Executing then Running(t) else Ready)
      .(tasks := s.tasks[1..], status := status, left := s.left + [Dispatched(t, w)])
  }

  /** Whether the section of worker w reaches max_monitor_.Notify, lines 212-215. */
  predicate Announces(s: Pool, w: nat, now: int)
    requires w < |s.workers|
  {
    && IsActive(s)
    && s.tasks != []
    && s.limit != 0
    && |Take(Purge(s, now), w).tasks| <= s.limit - 1
  }

  /** The loop's critical section from the test of the inner while on, lines 193-217. */
  function Section(s: Pool, w: nat, now: int, calls: set<AddCall>): Pool
    requires w < |s.workers|
  {
    if !IsActive(s) then SetPhase(s, w, Leaving)
    else if s.tasks == [] then SetPhase(s, w, Asleep).(idleCount := Inc(s.idleCount))
    else
      Take(Purge(s, now), w)
      .(blocked := s.blocked - calls, signalled := s.signalled + calls)
  }

  /** The end of Task::Run and of the try block, lines 135-140 and 221-225. */
  function DoTaskEnd(s: Pool, w: nat, threw: bool): Pool
    requires w < |s.workers| && s.workers[w].Running?
  {
    var id := s.workers[w].task.id;
    SetPhase(s, w, Ready)
    .(status := if threw || id >= |s.status| then s.status else s.status[id := Complete],
      finished := s.finished + [id])
  }

  /** The exit section, lines 230-239. */
  function DoExit(s: Pool, w: nat): Pool
    requires w < |s.workers|
  {
    var c := Dec(s.workerCount);
    var s1 := SetPhase(s, w, Gone).(dead := s.dead + {w}, workerCount := c);
    if c == s.workerMaxCount then NotifyControl(s1) else s1
  }

  // ---------------------------------------------------------------- submitters

  predicate InAdd(s: Pool, caller: Caller) {
    exists c :: c in s.blocked + s.signalled && c.caller == caller
  }

  /** Add up to its first Wait or its return, lines 385-405. */
  function DoAdd(s: Pool, call: AddCall, now: int, stamp: int, wakes: set<nat>): Pool {
    if s.state != Started then s
    else
      var s1 := Purge(s, now);
      if !Full(s1) then Push(s1, call, stamp, wakes)
      else if CanSleep(s1, call.caller) && call.timeout >= 0 then s1.(blocked := s1.blocked + {call})
      else s1
  }

  predicate AddPushes(s: Pool, now: int) {
    s.state == Started && !Full(Purge(s, now))
  }

  /** Add from the return of max_monitor_.Wait on: the loop condition is tested again,
      state_ is not, lines 393-405. */
  function DoAddResume(s: Pool, call: AddCall, stamp: int, wakes: set<nat>): Pool {
    var s1 := s.(signalled := s.signalled - {call});
    if Full(s) then s1.(blocked := s1.blocked + {call})
    else Push(s1, call, stamp, wakes)
  }

  /** The signals a push sends to monitor_, lines 403-405. */
  function PushSignals(s: Pool): nat {
    if s.idleCount > 0 then 1 else 0
  }

  // ---------------------------------------------------------------- the controller

  function NewWorkers(n: nat): seq<Phase> {
    seq(n, i => Created)
  }

  function Range(lo: nat, hi: nat): (r: set<nat>)
    ensures forall i :: i in r <==> lo <= i < hi
    decreases hi - lo
  {
    if lo < hi then {lo} + Range(lo + 1, hi) else {}
  }

  function DoCtlAdd(s: Pool, value: nat): Pool {
    s.(workerMaxCount := s.workerMaxCount + value,
       workers := s.workers + NewWorkers(value),
       roster := s.roster + Range(|s.workers|, |s.workers| + value),
       ctl := Launching(|s.workers|, false))
  }

  function DoCtlStart(s: Pool): Pool {
    if s.state == Uninitialized
    then s.(state := Started, workers := Wake(s.workers, Sleepers(s.workers)))
    else s
  }

  function DoCtlStop(s: Pool, join: bool): Pool {
    match s.state
    case Stopped => s
    case Stopping => s.(ctl := StopFinish)
    case Joining => s.(ctl := StopFinish)
    case _ => s.(state := if join then Joining else Stopping, mark := |s.pushed|, ctl := StopCount)
  }

  /** How many signals RemoveWorker's first section sends: lines 344-350. */
  function ShrinkSignals(s: Pool, value: nat): nat {
    if value > s.workerMaxCount then 0
    else if s.idleCount < value then s.idleCount
    else |Sleepers(s.workers)|
  }

  function DoCtlShrink(s: Pool, value: nat, stop: bool, wakes: set<nat>): Pool {
    if value > s.workerMaxCount then s.(ctl := Idle)
    else s.(workerMaxCount := s.workerMaxCount - value,
            workers := Wake(s.workers, wakes),
            ctl := WaitCheck(Removing(stop)))
  }

  /** RemoveWorker's reaping of dead_workers_, lines 360-367. */
  function Reap(s: Pool): Pool {
    s.(recorded := s.recorded - s.dead, roster := s.roster - s.dead, dead := {})
  }

  function DoCtlCheck(s: Pool, op: Op): Pool {
    if s.workerCount != s.workerMaxCount then s.(ctl := WaitCommit(op))
    else match op
      case Adding => s.(ctl := Idle)
      case Removing(stop) => Reap(s).(ctl := if stop then StopFinish else Idle)
  }

  function DoRemoveNext(s: Pool): Pool {
    if s.state == Started || s.tasks == [] then s
    else s.(tasks := s.tasks[1..], left := s.left + [Removed(s.tasks[0])])
  }

  /** ExpiredTaskCount. */
  function DoTakeExpired(s: Pool): Pool {
    s.(expiredCount := 0, taken := s.taken + s.expiredCount)
  }

  // ---------------------------------------------------------------- steps

  predicate Enabled(s: Pool, ev: Event) {
    match ev
    case Admit(w) => w < |s.workers| && s.workers[w] == Launched
    case Greet(w) => w < |s.workers| && s.workers[w] == Greeting && !s.ctl.WaitCommit?
    case Enter(w, now, calls) =>
      && w < |s.workers| && s.workers[w] == Ready
      && Signals(s.blocked, if Announces(s, w, now) then 1 else 0, calls)
    case Resume(w, now, calls) =>
      && w < |s.workers| && s.workers[w] == Woken
      && Signals(s.blocked, if Announces(s, w, now) then 1 else 0, calls)
    case Spurious(w) => w < |s.workers| && s.workers[w] == Asleep
    case TaskEnd(w, threw) =>
      w < |s.workers| && s.workers[w].Running? && !InAdd(s, PoolThread(w))
    case Exit(w) => w < |s.workers| && s.workers[w] == Leaving && !s.ctl.WaitCommit?
    case Add(call, now, stamp, wakes) =>
      && !InAdd(s, call.caller)
      && (call.caller.PoolThread? ==> call.caller.w < |s.workers| && s.workers[call.caller.w].Running?)
      && Signals(Sleepers(s.workers), if AddPushes(s, now) then PushSignals(s) else 0, wakes)
    case AddResume(call, stamp, wakes) =>
      && call in s.signalled
      && Signals(Sleepers(s.workers), if Full(s) then 0 else PushSignals(s), wakes)
    case AddSpurious(call) => call in s.blocked
    case AddTimeout(call) => call in s.blocked && call.timeout > 0
    case AddTimeoutLate(call) => call in s.signalled && call.timeout > 0
    case CtlStart => s.ctl == Idle
    case CtlAdd(value) => s.ctl == Idle && |s.workers| + value < WORD
    case CtlLaunch => s.ctl.Launching? && !s.ctl.launched && s.ctl.next < |s.workers|
    case CtlRecord => s.ctl.Launching? && s.ctl.launched
    case CtlLaunched => s.ctl.Launching? && !s.ctl.launched && s.ctl.next >= |s.workers|
    case CtlStop(join) => s.ctl == Idle
    case CtlReadCount => s.ctl == StopCount
    case CtlRemove(value) => s.ctl == Idle
    case CtlShrink(wakes) =>
      && s.ctl.RemoveEnter?
      && Signals(Sleepers(s.workers), ShrinkSignals(s, s.ctl.value), wakes)
    case CtlCheck => s.ctl.WaitCheck?
    case CtlSleep => s.ctl.WaitCommit?
    case CtlSpurious => s.ctl.WaitAsleep?
    case CtlFinish => s.ctl == StopFinish
    case RemoveNext => true
    case PurgeNow(now) => true
    case TakeExpired => true
  }

  function Step(s: Pool, ev: Event): Pool
    requires Enabled(s, ev)
  {
    match ev
    case Admit(w) => DoAdmit(s, w)
    case Greet(w) => NotifyControl(SetPhase(s, w, Ready))
    case Enter(w, now, calls) => Section(s, w, now, calls)
    case Resume(w, now, calls) => Section(s.(idleCount := Dec(s.idleCount)), w, now, calls)
    case Spurious(w) => SetPhase(s, w, Woken)
    case TaskEnd(w, threw) => DoTaskEnd(s, w, threw)
    case Exit(w) => DoExit(s, w)
    case Add(call, now, stamp, wakes) => DoAdd(s, call, now, stamp, wakes)
    case AddResume(call, stamp, wakes) => DoAddResume(s, call, stamp, wakes)
    case AddSpurious(call) => s.(blocked := s.blocked - {call}, signalled := s.signalled + {call})
    case AddTimeout(call) => s.(blocked := s.blocked - {call})
    case AddTimeoutLate(call) => s.(signalled := s.signalled - {call})
    case CtlStart => DoCtlStart(s)
    case CtlAdd(value) => DoCtlAdd(s, value)
    case CtlLaunch => SetPhase(s, s.ctl.next, Launched).(ctl := Launching(s.ctl.next, true))
    case CtlRecord => s.(recorded := s.recorded + {s.ctl.next}, ctl := Launching(s.ctl.next + 1, false))
    case CtlLaunched => s.(ctl := WaitCheck(Adding))
    case CtlStop(join) => DoCtlStop(s, join)
    case CtlReadCount => s.(ctl := RemoveEnter(s.workerCount, true))
    case CtlRemove(value) => s.(ctl := RemoveEnter(value, false))
    case CtlShrink(wakes) => DoCtlShrink(s, s.ctl.value, s.ctl.stop, wakes)
    case CtlCheck => DoCtlCheck(s, s.ctl.op)
    case CtlSleep => s.(ctl := WaitAsleep(s.ctl.op))
    case CtlSpurious => s.(ctl := WaitCheck(s.ctl.op))
    case CtlFinish => s.(state := Stopped, ctl := Idle)
    case RemoveNext => DoRemoveNext(s)
    case PurgeNow(now) => Purge(s, now)
    case TakeExpired => DoTakeExpired(s)
  }

  /** s' is the state after ev happens in s. */
  predicate IsStep(s: Pool, ev: Event, s': Pool) {
    Enabled(s, ev) && Step(s, ev) == s'
  }

  predicate ByWorker(ev: Event) {
    ev.Admit? || ev.Greet? || ev.Enter? || ev.Resume? || ev.Spurious? || ev.TaskEnd? || ev.Exit?
  }

  predicate ByCaller(ev: Event) {
    || ev.Add? || ev.AddResume? || ev.AddSpurious? || ev.AddTimeout? || ev.AddTimeoutLate?
    || ev.RemoveNext? || ev.PurgeNow? || ev.TakeExpired?
  }

  predicate ByController(ev: Event) {
    !ByWorker(ev) && !ByCaller(ev)
  }

  /** A rule says which of the enabled events a run may contain. */
  type Rule = (Pool, Event) -> bool

  predicate AnyEvent(s: Pool, ev: Event) { true }

  /** A run is a list of events, each enabled and within the rule where it happens. */
  predicate IsRun(s: Pool, evs: seq<Event>, rule: Rule)
    decreases |evs|
  {
    evs == [] || (Enabled(s, evs[0]) && rule(s, evs[0]) && IsRun(Step(s, evs[0]), evs[1..], rule))
  }

  function After(s: Pool, evs: seq<Event>, rule: Rule): Pool
    requires IsRun(s, evs, rule)
    decreases |evs|
  {
    if evs == [] then s else After(Step(s, evs[0]), evs[1..], rule)
  }

  lemma {:induction false} RunConcat(s: Pool, a: seq<Event>, b: seq<Event>, rule: Rule)
    requires IsRun(s, a, rule) && IsRun(After(s, a, rule), b, rule)
    ensures IsRun(s, a + b, rule) && After(s, a + b, rule) == After(After(s, a, rule), b, rule)
    decreases |a|
  {
    if a == [] {
      assert a + b == b;
    } else {
      assert (a + b)[1..] == a[1..] + b;
      RunConcat(Step(s, a[0]), a[1..], b, rule);
    }
  }

  lemma RunCons(s: Pool, ev: Event, evs: seq<Event>, rule: Rule)
    requires Enabled(s, ev) && rule(s, ev) && IsRun(Step(s, ev), evs, rule)
    ensures IsRun(s, [ev] + evs, rule)
    ensures After(s, [ev] + evs, rule) == After(Step(s, ev), evs, rule)
  {
  }

  lemma Extend(s: Pool, evs: seq<Event>, ev: Event, rule: Rule) returns (longer: seq<Event>)
    requires IsRun(s, evs, rule) && Enabled(After(s, evs, rule), ev) && rule(After(s, evs, rule), ev)
    ensures IsRun(s, longer, rule) && After(s, longer, rule) == Step(After(s, evs, rule), ev)
  {
    longer := evs + [ev];
    RunCons(After(s, evs, rule), ev, [], rule);
    RunConcat(s, evs, [ev], rule);
  }

  /** A run within a rule is a run. */
  lemma {:induction false} RunIsRun(s: Pool, evs: seq<Event>, rule: Rule)
    requires IsRun(s, evs, rule)
    ensures IsRun(s, evs, AnyEvent) && After(s, evs, AnyEvent) == After(s, evs, rule)
    decreases |evs|
  {
    if evs != [] {
      RunIsRun(Step(s, evs[0]), evs[1..], rule);
    }
  }
}
