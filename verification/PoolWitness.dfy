/** When the pool can deadlock: exactly if its callers may do certain things, shown by runs from
    a new manager for every limit and number of workers. */
module PoolWitness {
  import opened ThreadPool
  import opened PoolUnexpired
  import opened PoolSafety
  import opened PoolManaged
  import opened PoolProgress

  /** What the callers of a managed pool may do: wait for room with a timeout, call Add from a
      pool thread that is not in id_map_ yet, call RemoveExpiredTasks themselves. */
  datatype Policy = Policy(timed: bool, unrecorded: bool, purge: bool)

  predicate Permits(p: Policy, s: Pool, ev: Event) {
    && Managed(s, ev)
    && (ev.Add? && ev.call.timeout > 0 ==> p.timed)
    && (p.unrecorded || RecordedAdds(s, ev))
    && (ev.PurgeNow? ==> p.purge)
  }

  function Under(p: Policy): Rule { (s: Pool, ev: Event) => Permits(p, s, ev) }

  /** Anything but a spurious wakeup or a new call from outside. */
  predicate Internal(ev: Event) {
    && !ev.Spurious? && !ev.AddSpurious? && !ev.CtlSpurious?
    && !ev.Add? && !ev.RemoveNext? && !ev.PurgeNow? && !ev.TakeExpired?
    && !ev.CtlStart? && !ev.CtlAdd? && !ev.CtlRemove? && !ev.CtlStop?
  }

  /** Work or a submitter waits, and nobody can move. */
  ghost predicate Deadlocked(s: Pool) {
    && s.state == Started && s.workerCount >= 1 && (s.tasks != [] || s.blocked != {})
    && forall ev :: Internal(ev) ==> !Enabled(s, ev)
  }

  ghost predicate DeadlockOf(s: Pool, n: nat) { Deadlocked(s) && |s.workers| == n }

  ghost predicate CanDeadlock(limit: nat, n: nat, p: Policy) {
    exists evs :: IsRun(Init(limit), evs, Under(p)) && DeadlockOf(After(Init(limit), evs, Under(p)), n)
  }

  // ---------------------------------------------------------------- freedom

  function Strict(): Policy { Policy(false, false, false) }

  ghost predicate Untimed(s: Pool) {
    forall c :: c in s.blocked + s.signalled ==> c.timeout <= 0
  }

  lemma UntimedStep(s: Pool, ev: Event)
    requires Untimed(s) && Enabled(s, ev) && Permits(Strict(), s, ev)
    ensures Untimed(Step(s, ev)) && Careful(s, ev)
  {
  }

  /** Without timeouts no timed-out submitter can swallow a signal. */
  lemma {:induction false} StrictIsCareful(s: Pool, evs: seq<Event>)
    requires Untimed(s) && IsRun(s, evs, Under(Strict()))
    ensures IsRun(s, evs, Careful) && After(s, evs, Careful) == After(s, evs, Under(Strict()))
    decreases |evs|
  {
    if evs != [] {
      UntimedStep(s, evs[0]);
      StrictIsCareful(Step(s, evs[0]), evs[1..]);
    }
  }

  /** Without a limit the pool cannot deadlock, whatever its callers do. */
  lemma NoLimitFree(n: nat, p: Policy)
    ensures !CanDeadlock(0, n, p)
  {
    forall evs | IsRun(Init(0), evs, Under(p)) ensures !DeadlockOf(After(Init(0), evs, Under(p)), n) {
      var s := ManagedReached(0, evs, Under(p));
      NoLimitNoWait(Init(0), evs, Under(p));
      if Deadlocked(s) {
        var ev := PendingTaskMoves(s);
        assert false;
      }
    }
  }

  lemma StrictFree(limit: nat, n: nat)
    ensures !CanDeadlock(limit, n, Strict())
  {
    forall evs | IsRun(Init(limit), evs, Under(Strict()))
      ensures !DeadlockOf(After(Init(limit), evs, Under(Strict())), n)
    {
      StrictIsCareful(Init(limit), evs);
      if Deadlocked(After(Init(limit), evs, Careful)) {
        var ev := DeadlockFree(limit, evs, Careful);
        assert false;
      }
    }
  }

  // ---------------------------------------------------------------- idle pools are reached

  /** Workers below n are in phase p, the others in phase q. */
  ghost predicate Split(ws: seq<Phase>, n: nat, p: Phase, q: Phase) {
    forall w :: 0 <= w < |ws| ==> ws[w] == if w < n then p else q
  }

  /** A started pool with n workers and no work. */
  ghost predicate Bare(s: Pool, limit: nat, n: nat, count: nat, idle: nat, ctl: Control) {
    && s.state == Started && s.limit == limit && s.tasks == [] && s.blocked == {} && s.signalled == {}
    && |s.workers| == s.workerMaxCount == n < WORD
    && s.workerCount == count && s.idleCount == idle && s.ctl == ctl
  }

  lemma {:induction false} LaunchAll(s: Pool, n: nat, i: nat, p: Policy) returns (evs: seq<Event>)
    requires i <= n && Bare(s, s.limit, n, 0, 0, Launching(i, false)) && Split(s.workers, i, Launched, Created)
    ensures IsRun(s, evs, Under(p))
    ensures var t := After(s, evs, Under(p));
            Bare(t, s.limit, n, 0, 0, WaitCheck(Adding)) && Split(t.workers, 0, Ready, Launched)
    decreases n - i
  {
    if i == n {
      evs := Extend(s, [], CtlLaunched, Under(p));
    } else {
      var s1 := Step(s, CtlLaunch);
      var s2 := Step(s1, CtlRecord);
      var rest := LaunchAll(s2, n, i + 1, p);
      RunCons(s1, CtlRecord, rest, Under(p));
      RunCons(s, CtlLaunch, [CtlRecord] + rest, Under(p));
      evs := [CtlLaunch] + ([CtlRecord] + rest);
    }
  }

  lemma {:induction false} AdmitAll(s: Pool, n: nat, i: nat, p: Policy) returns (evs: seq<Event>)
    requires i < n && Bare(s, s.limit, n, i, 0, WaitCheck(Adding)) && Split(s.workers, i, Ready, Launched)
    ensures IsRun(s, evs, Under(p))
    ensures var t := After(s, evs, Under(p));
            Bare(t, s.limit, n, n, 0, WaitCheck(Adding)) && Split(t.workers, 0, Asleep, Ready)
    decreases n - i
  {
    if i == n - 1 {
      evs := Extend(s, [], Admit(i), Under(p));
      evs := Extend(s, evs, Greet(i), Under(p));
    } else {
      var rest := AdmitAll(Step(s, Admit(i)), n, i + 1, p);
      RunCons(s, Admit(i), rest, Under(p));
      evs := [Admit(i)] + rest;
    }
  }

  lemma {:induction false} SleepAll(s: Pool, n: nat, i: nat, p: Policy) returns (evs: seq<Event>)
    requires i <= n && Bare(s, s.limit, n, n, i, WaitCheck(Adding)) && Split(s.workers, i, Asleep, Ready)
    ensures IsRun(s, evs, Under(p))
    ensures var t := After(s, evs, Under(p));
            Bare(t, s.limit, n, n, n, Idle) && Split(t.workers, n, Asleep, Ready)
    decreases n - i
  {
    if i == n {
      evs := Extend(s, [], CtlCheck, Under(p));
    } else {
      var rest := SleepAll(Step(s, Enter(i, 0, {})), n, i + 1, p);
      RunCons(s, Enter(i, 0, {}), rest, Under(p));
      evs := [Enter(i, 0, {})] + rest;
    }
  }

  lemma StartAndAdd(limit: nat, n: nat, p: Policy) returns (evs: seq<Event>)
    requires n < WORD
    ensures IsRun(Init(limit), evs, Under(p))
    ensures var t := After(Init(limit), evs, Under(p));
            Bare(t, limit, n, 0, 0, Launching(0, false)) && Split(t.workers, 0, Launched, Created)
  {
    var s := Init(limit);
    var s1 := Step(s, CtlStart);
    assert s1.workers == [];
    evs := Extend(s, [], CtlStart, Under(p));
    evs := Extend(s, evs, CtlAdd(n), Under(p));
  }

  /** For every number of workers and any policy, a run brings them all to rest. */
  lemma IdlePoolReached(limit: nat, n: nat, p: Policy) returns (evs: seq<Event>)
    requires 0 < n < WORD
    ensures IsRun(Init(limit), evs, Under(p))
    ensures var s := After(Init(limit), evs, Under(p));
            Bare(s, limit, n, n, n, Idle) && Split(s.workers, n, Asleep, Ready)
  {
    var s := Init(limit);
    evs := StartAndAdd(limit, n, p);
    var more := LaunchAll(After(s, evs, Under(p)), n, 0, p);
    RunConcat(s, evs, more, Under(p));
    evs := evs + more;
    more := AdmitAll(After(s, evs, Under(p)), n, 0, p);
    RunConcat(s, evs, more, Under(p));
    evs := evs + more;
    more := SleepAll(After(s, evs, Under(p)), n, 0, p);
    RunConcat(s, evs, more, Under(p));
    evs := evs + more;
  }

  // ---------------------------------------------------------------- a full queue

  lemma PurgeAll(s: Pool)
    requires AllExpire(s.tasks, 1)
    ensures ExpiredPrefix(s.tasks, 1) == |s.tasks| && Purge(s, 1).tasks == []
  {
    ExpiredPrefixIsLongest(s.tasks, 1);
  }

  /** t is s with a queue of j tasks that expire at e. */
  ghost predicate Stocked(s: Pool, t: Pool, j: nat, e: int) {
    t == s.(tasks := t.tasks, status := t.status, pushed := t.pushed) && |t.tasks| == j && AllExpire(t.tasks, e)
  }

  function Plain(n: nat, timeout: int, expiration: int): AddCall { AddCall(Outside(n), timeout, expiration) }

  /** An Add from outside that finds room, with no worker asleep. */
  lemma PushOne(s: Pool, e: nat)
    requires s.state == Started && AllExpire(s.tasks, e) && !Full(s) && !InAdd(s, Outside(0))
    requires Sleepers(s.workers) == {}
    ensures Enabled(s, Add(Plain(0, 0, e), 0, 0, {}))
    ensures Stocked(s, Step(s, Add(Plain(0, 0, e), 0, 0, {})), |s.tasks| + 1, e)
  {
    AddPurgesNone(s, Plain(0, 0, e), {}, e);
    assert Wake(s.workers, {}) == s.workers;
  }

  lemma {:induction false} FillQueue(s: Pool, e: nat, p: Policy) returns (evs: seq<Event>)
    requires s.state == Started && AllExpire(s.tasks, e) && |s.tasks| <= s.limit && s.limit > 0
    requires NobodyInAdd(s) && Sleepers(s.workers) == {}
    ensures IsRun(s, evs, Under(p)) && Stocked(s, After(s, evs, Under(p)), s.limit, e)
    decreases s.limit - |s.tasks|
  {
    evs := [];
    if |s.tasks| < s.limit {
      PushOne(s, e);
      var ev := Add(Plain(0, 0, e), 0, 0, {});
      var rest := FillQueue(Step(s, ev), e, p);
      RunCons(s, ev, rest, Under(p));
      evs := [ev] + rest;
    }
  }

  // ---------------------------------------------------------------- asleep side by side

  function Patient(): AddCall { Plain(1, 0, 0) }
  function Hasty(): AddCall { Plain(2, 5, 0) }

  /** n admitted workers, the first i asleep and the others woken, and some submitters. */
  ghost predicate Dozing(s: Pool, n: nat, i: nat, blocked: set<AddCall>) {
    && s.state == Started && s.ctl == Idle && s.limit > 0
    && |s.workers| == n == s.workerCount == s.workerMaxCount == s.idleCount < WORD
    && Split(s.workers, i, Asleep, Woken) && s.blocked == blocked && s.signalled == {}
  }

  /** With nothing to do the woken workers go back to sleep, beside the submitter. */
  lemma {:induction false} SleepAgain(s: Pool, n: nat, i: nat, p: Policy) returns (evs: seq<Event>)
    requires Dozing(s, n, i, {Patient()}) && s.tasks == [] && i <= n && 0 < n
    ensures IsRun(s, evs, Under(p)) && DeadlockOf(After(s, evs, Under(p)), n)
    decreases n - i
  {
    evs := [];
    if i < n {
      var rest := SleepAgain(Step(s, Resume(i, 0, {})), n, i + 1, p);
      RunCons(s, Resume(i, 0, {}), rest, Under(p));
      evs := [Resume(i, 0, {})] + rest;
    }
  }

  lemma FirstPush(s: Pool, n: nat)
    requires 0 < n && s.limit > 0 && Bare(s, s.limit, n, n, n, Idle) && Split(s.workers, n, Asleep, Ready)
    ensures var ev := Add(Plain(0, 0, 1), 0, 0, Sleepers(s.workers));
            && Enabled(s, ev) && Dozing(Step(s, ev), n, 0, {}) && Sleepers(Step(s, ev).workers) == {}
            && |Step(s, ev).tasks| == 1 && AllExpire(Step(s, ev).tasks, 1) && Step(s, ev).limit == s.limit
  {
    AddPurgesNone(s, Plain(0, 0, 1), Sleepers(s.workers), 1);
    assert 0 in Sleepers(s.workers);
    assert |Sleepers(s.workers) - {0}| == |Sleepers(s.workers)| - 1;
  }

  /** The first task wakes every worker; none of them has resumed when the queue is full. */
  lemma FullQueueReached(limit: nat, n: nat, p: Policy) returns (evs: seq<Event>)
    requires limit > 0 && 0 < n < WORD
    ensures IsRun(Init(limit), evs, Under(p))
    ensures var s := After(Init(limit), evs, Under(p));
            Dozing(s, n, 0, {}) && s.limit == |s.tasks| && AllExpire(s.tasks, 1)
  {
    evs := IdlePoolReached(limit, n, p);
    var s := After(Init(limit), evs, Under(p));
    var ev := Add(Plain(0, 0, 1), 0, 0, Sleepers(s.workers));
    FirstPush(s, n);
    evs := Extend(Init(limit), evs, ev, Under(p));
    var more := FillQueue(Step(s, ev), 1, p);
    RunConcat(Init(limit), evs, more, Under(p));
    evs := evs + more;
  }

  /** A submitter finds the queue full and waits. */
  lemma WaitsForRoom(s: Pool, n: nat, blocked: set<AddCall>, call: AddCall)
    requires Dozing(s, n, 0, blocked) && Full(s) && AllExpire(s.tasks, 1)
    requires call.caller.Outside? && call.timeout >= 0 && forall c :: c in blocked ==> c.caller != call.caller
    ensures Enabled(s, Add(call, 0, 0, {}))
    ensures Dozing(Step(s, Add(call, 0, 0, {})), n, 0, blocked + {call}) && Step(s, Add(call, 0, 0, {})).tasks == s.tasks
  {
    AddPurgesNone(s, call, {}, 1);
  }

  lemma WaitingSubmitterReached(limit: nat, n: nat, p: Policy) returns (evs: seq<Event>)
    requires limit > 0 && 0 < n < WORD
    ensures IsRun(Init(limit), evs, Under(p))
    ensures var s := After(Init(limit), evs, Under(p));
            Dozing(s, n, 0, {Patient()}) && Full(s) && AllExpire(s.tasks, 1)
  {
    evs := FullQueueReached(limit, n, p);
    WaitsForRoom(After(Init(limit), evs, Under(p)), n, {}, Patient());
    evs := Extend(Init(limit), evs, Add(Patient(), 0, 0, {}), Under(p));
  }

  /** A client's RemoveExpiredTasks empties the queue and signals nobody. */
  lemma ClientPurgeDeadlocks(limit: nat, n: nat, p: Policy)
    requires limit > 0 && 0 < n < WORD && p.purge
    ensures CanDeadlock(limit, n, p)
  {
    var evs := WaitingSubmitterReached(limit, n, p);
    PurgeAll(After(Init(limit), evs, Under(p)));
    evs := Extend(Init(limit), evs, PurgeNow(1), Under(p));
    var more := SleepAgain(After(Init(limit), evs, Under(p)), n, 0, p);
    RunConcat(Init(limit), evs, more, Under(p));
  }

  /** A worker finds every task expired and signals the hasty submitter. */
  lemma AllExpired(s: Pool, n: nat)
    requires Dozing(s, n, 0, {Patient(), Hasty()}) && 0 < n && AllExpire(s.tasks, 1) && Full(s)
    ensures var ev := Resume(0, 1, {Hasty()});
            && Enabled(s, ev)
            && Step(s, ev) == Purge(s, 1).(workers := s.workers[0 := Ready], idleCount := n - 1,
                                           blocked := {Patient()}, signalled := {Hasty()})
  {
    PurgeAll(s);
    assert {Patient(), Hasty()} - {Hasty()} == {Patient()};
  }

  lemma FirstSleeps(s: Pool, n: nat)
    requires 0 < n < WORD && s.state == Started && s.ctl == Idle && s.limit > 0 && s.tasks == []
    requires |s.workers| == n == s.workerCount == s.workerMaxCount && s.idleCount == n - 1
    requires (forall w :: 0 <= w < n ==> s.workers[w] == if w == 0 then Ready else Woken)
    requires s.blocked == {Patient()} && s.signalled == {}
    ensures Enabled(s, Enter(0, 0, {}))
    ensures Dozing(Step(s, Enter(0, 0, {})), n, 1, {Patient()}) && Step(s, Enter(0, 0, {})).tasks == []
  {
  }

  lemma SignalIsLost(s: Pool, n: nat, p: Policy) returns (evs: seq<Event>)
    requires Dozing(s, n, 0, {Patient(), Hasty()}) && 0 < n && AllExpire(s.tasks, 1) && Full(s)
    ensures IsRun(s, evs, Under(p)) && DeadlockOf(After(s, evs, Under(p)), n)
  {
    AllExpired(s, n);
    PurgeAll(s);
    evs := Extend(s, [], Resume(0, 1, {Hasty()}), Under(p));
    evs := Extend(s, evs, AddTimeoutLate(Hasty()), Under(p));
    FirstSleeps(After(s, evs, Under(p)), n);
    evs := Extend(s, evs, Enter(0, 0, {}), Under(p));
    var more := SleepAgain(After(s, evs, Under(p)), n, 1, p);
    RunConcat(s, evs, more, Under(p));
    evs := evs + more;
  }

  /** The hasty submitter times out just as it is signalled; the patient one sleeps on. */
  lemma LateTimeoutDeadlocks(limit: nat, n: nat, p: Policy)
    requires limit > 0 && 0 < n < WORD && p.timed
    ensures CanDeadlock(limit, n, p)
  {
    var evs := WaitingSubmitterReached(limit, n, p);
    WaitsForRoom(After(Init(limit), evs, Under(p)), n, {Patient()}, Hasty());
    evs := Extend(Init(limit), evs, Add(Hasty(), 0, 0, {}), Under(p));
    var s := After(Init(limit), evs, Under(p));
    var more := SignalIsLost(s, n, p);
    RunConcat(Init(limit), evs, more, Under(p));
  }

  // ---------------------------------------------------------------- workers waiting for themselves

  function SelfCall(w: nat): AddCall { AddCall(PoolThread(w), 0, 0) }

  /** The first n workers each run a task that waits for room in its own Add. */
  ghost predicate InOwnAdd(s: Pool, n: nat) {
    && n <= |s.workers|
    && (forall w :: 0 <= w < n ==> s.workers[w].Running? && SelfCall(w) in s.blocked)
    && (forall c :: c in s.blocked ==> c.caller.PoolThread? && c.caller.w < n && c == SelfCall(c.caller.w))
  }

  /** n workers, all running a task. */
  ghost predicate Crew(s: Pool, n: nat, ctl: Control) {
    && s.state == Started && s.ctl == ctl && s.limit > 0
    && |s.workers| == n == s.workerCount == s.workerMaxCount && s.idleCount == 0
    && (forall w :: 0 <= w < n ==> s.workers[w].Running?) && AllExpire(s.tasks, 0)
  }

  /** The queue is full and every worker waits for another to make room. */
  ghost predicate Jammed(s: Pool, n: nat) {
    && Crew(s, n, Idle) && |s.tasks| == s.limit
    && InOwnAdd(s, n) && s.signalled == {} && (forall w :: w in s.recorded ==> w < n)
  }

  lemma JammedDeadlocks(s: Pool, n: nat)
    requires Jammed(s, n) && n > 0
    ensures DeadlockOf(s, n)
  {
  }

  /** One more worker, admitted and at the top of its loop, before it is in id_map_. */
  function WithWorker(s: Pool, n: nat): Pool {
    s.(workers := s.workers + [Ready], workerCount := n + 1, workerMaxCount := n + 1,
       roster := s.roster + {n}, ctl := Launching(n, true))
  }

  lemma WorkerArrives(s: Pool, n: nat, p: Policy) returns (evs: seq<Event>)
    requires Jammed(s, n) && n + 1 < WORD
    ensures IsRun(s, evs, Under(p)) && After(s, evs, Under(p)) == WithWorker(s, n)
  {
    var s1 := WithWorker(s, n).(workers := s.workers + [Created], workerCount := n, ctl := Launching(n, false));
    assert Range(n, n + 1) == {n};
    assert Step(s, CtlAdd(1)) == s1;
    evs := Extend(s, [], CtlAdd(1), Under(p));
    var s2 := s1.(workers := s.workers + [Launched], ctl := Launching(n, true));
    assert s1.workers[n := Launched] == s.workers + [Launched];
    evs := Extend(s, evs, CtlLaunch, Under(p));
    var s3 := WithWorker(s, n).(workers := s.workers + [Greeting]);
    assert s2.workers[n := Greeting] == s.workers + [Greeting];
    evs := Extend(s, evs, Admit(n), Under(p));
    assert s3.workers[n := Ready] == s.workers + [Ready];
    evs := Extend(s, evs, Greet(n), Under(p));
  }

  /** The submitter a take in a jam wakes, if there is one. */
  function Woken0(n: nat): set<AddCall> { if n == 0 then {} else {SelfCall(0)} }

  /** The new worker takes a task, an outsider fills the gap, the woken submitter waits again. */
  function Taken(s: Pool, n: nat): Pool
    requires s.tasks != [] && s.tasks[0].id < |s.status|
  {
    var t := s.tasks[0];
    WithWorker(s, n).(workers := s.workers + [Running(t)], tasks := s.tasks[1..], status := s.status[t.id := Executing],
                      left := s.left + [Dispatched(t, n)],
                      blocked := s.blocked - Woken0(n), signalled := Woken0(n))
  }

  lemma FrontWaits(s: Pool)
    requires SafeInv(s) && s.tasks != []
    ensures s.tasks[0].id < |s.status| && s.status[s.tasks[0].id] == Waiting
  {
    assert s.tasks[0] == s.pushed[|s.left|];
  }

  lemma WorkerTakes(s: Pool, n: nat)
    requires Jammed(s, n) && s.tasks[0].id < |s.status| && s.status[s.tasks[0].id] == Waiting
    ensures var s1 := WithWorker(s, n);
            Enabled(s1, Enter(n, 0, Woken0(n))) && Step(s1, Enter(n, 0, Woken0(n))) == Taken(s, n)
  {
    var s1 := WithWorker(s, n);
    SectionPurgesNone(s1, n, Woken0(n), 0);
    assert s1.workers[n := Running(s.tasks[0])] == s.workers + [Running(s.tasks[0])];
    assert n > 0 ==> SelfCall(0) in s.blocked;
  }

  /** An outsider fills the gap before the woken submitter resumes, which then waits again. */
  lemma GapFilled(s: Pool, blocked: set<AddCall>, n: nat, p: Policy) returns (evs: seq<Event>)
    requires Crew(s, n + 1, Launching(n, true)) && |s.tasks| == s.limit - 1
    requires s.blocked == blocked - Woken0(n) && s.signalled == Woken0(n) <= blocked
    requires forall c :: c in blocked ==> c.caller.PoolThread?
    ensures IsRun(s, evs, Under(p))
    ensures var t := After(s, evs, Under(p));
            && Crew(t, n + 1, Launching(n, true)) && |t.tasks| == t.limit
            && t.blocked == blocked && t.signalled == {} && t.recorded == s.recorded
  {
    assert forall w :: 0 <= w < |s.workers| ==> s.workers[w] != Asleep;
    PushOne(s, 0);
    evs := Extend(s, [], Add(Plain(0, 0, 0), 0, 0, {}), Under(p));
    if n > 0 {
      evs := Extend(s, evs, AddResume(SelfCall(0), 0, {}), Under(p));
    }
  }

  /** The new worker's task calls Add itself, before AddWorker has recorded its thread. */
  lemma JoinsJam(s: Pool, n: nat)
    requires Crew(s, n + 1, Launching(n, true)) && |s.tasks| == s.limit
    requires InOwnAdd(s, n) && s.signalled == {} && (forall w :: w in s.recorded ==> w < n)
    ensures Enabled(s, Add(SelfCall(n), 0, 0, {}))
    ensures Step(s, Add(SelfCall(n), 0, 0, {})) == s.(blocked := s.blocked + {SelfCall(n)})
  {
    AddPurgesNone(s, SelfCall(n), {}, 0);
  }

  /** The thread is recorded and AddWorker returns. */
  lemma JamRecorded(s: Pool, n: nat)
    requires Crew(s, n + 1, Launching(n, true)) && |s.tasks| == s.limit
    requires InOwnAdd(s, n + 1) && s.signalled == {} && (forall w :: w in s.recorded ==> w < n)
    ensures var s1 := s.(recorded := s.recorded + {n}, ctl := Launching(n + 1, false));
            && IsStep(s, CtlRecord, s1)
            && IsStep(s1, CtlLaunched, s1.(ctl := WaitCheck(Adding)))
            && IsStep(s1.(ctl := WaitCheck(Adding)), CtlCheck, s1.(ctl := Idle))
            && Jammed(s1.(ctl := Idle), n + 1)
  {
  }

  lemma WorkerJoinsJam(s: Pool, n: nat, p: Policy) returns (evs: seq<Event>)
    requires Crew(s, n + 1, Launching(n, true)) && |s.tasks| == s.limit && p.unrecorded
    requires InOwnAdd(s, n) && s.signalled == {} && (forall w :: w in s.recorded ==> w < n)
    ensures IsRun(s, evs, Under(p)) && Jammed(After(s, evs, Under(p)), n + 1)
  {
    JoinsJam(s, n);
    JamRecorded(s.(blocked := s.blocked + {SelfCall(n)}), n);
    evs := Extend(s, [], Add(SelfCall(n), 0, 0, {}), Under(p));
    evs := Extend(s, evs, CtlRecord, Under(p));
    evs := Extend(s, evs, CtlLaunched, Under(p));
    evs := Extend(s, evs, CtlCheck, Under(p));
  }

  lemma TakenCrew(s: Pool, n: nat)
    requires Jammed(s, n) && s.tasks[0].id < |s.status|
    ensures var t := Taken(s, n);
            && Crew(t, n + 1, Launching(n, true)) && |t.tasks| == t.limit - 1 && Woken0(n) <= s.blocked
            && t.limit == s.limit && t.recorded == s.recorded
  {
    assert n > 0 ==> SelfCall(0) in s.blocked;
  }

  /** One more worker joins the jam. */
  lemma JamGrows(s: Pool, n: nat, p: Policy) returns (evs: seq<Event>)
    requires SafeInv(s) && Jammed(s, n) && n + 1 < WORD && p.unrecorded
    ensures IsRun(s, evs, Under(p)) && Jammed(After(s, evs, Under(p)), n + 1)
  {
    evs := WorkerArrives(s, n, p);
    FrontWaits(s);
    WorkerTakes(s, n);
    TakenCrew(s, n);
    evs := Extend(s, evs, Enter(n, 0, Woken0(n)), Under(p));
    var more := GapFilled(Taken(s, n), s.blocked, n, p);
    var t := After(Taken(s, n), more, Under(p));
    var rest := WorkerJoinsJam(t, n, p);
    RunConcat(s, evs, more, Under(p));
    RunConcat(s, evs + more, rest, Under(p));
    evs := evs + more + rest;
  }

  lemma {:induction false} JamReached(limit: nat, n: nat, p: Policy) returns (evs: seq<Event>)
    requires limit > 0 && n < WORD && p.unrecorded
    ensures IsRun(Init(limit), evs, Under(p)) && Jammed(After(Init(limit), evs, Under(p)), n)
    decreases n
  {
    if n == 0 {
      var s1 := Step(Init(limit), CtlStart);
      assert s1.workers == [];
      evs := FillQueue(s1, 0, p);
      RunCons(Init(limit), CtlStart, evs, Under(p));
      evs := [CtlStart] + evs;
    } else {
      evs := JamReached(limit, n - 1, p);
      InitSafe(limit);
      RunKeepsSafe(Init(limit), evs, Under(p));
      var more := JamGrows(After(Init(limit), evs, Under(p)), n - 1, p);
      RunConcat(Init(limit), evs, more, Under(p));
      evs := evs + more;
    }
  }

  lemma UnrecordedAddDeadlocks(limit: nat, n: nat, p: Policy)
    requires limit > 0 && 0 < n < WORD && p.unrecorded
    ensures CanDeadlock(limit, n, p)
  {
    var evs := JamReached(limit, n, p);
    JammedDeadlocks(After(Init(limit), evs, Under(p)), n);
  }

  // ---------------------------------------------------------------- exactly when

  /** A managed pool with n workers can deadlock exactly if it has a limit and its callers may
      do one of the three things. */
  lemma DeadlockIff(limit: nat, n: nat, p: Policy)
    requires 0 < n < WORD
    ensures CanDeadlock(limit, n, p) <==> limit > 0 && (p.timed || p.unrecorded || p.purge)
  {
    if limit == 0 {
      NoLimitFree(n, p);
    } else if p.timed {
      LateTimeoutDeadlocks(limit, n, p);
    } else if p.unrecorded {
      UnrecordedAddDeadlocks(limit, n, p);
    } else if p.purge {
      ClientPurgeDeadlocks(limit, n, p);
    } else {
      StrictFree(limit, n);
    }
  }

  ghost predicate StarvationOf(s: Pool, n: nat) { DeadlockOf(s, n) && s.tasks != [] }

  /** A deadlock with a task in the queue. */
  ghost predicate CanStarve(limit: nat, n: nat, p: Policy) {
    exists evs :: IsRun(Init(limit), evs, Under(p)) && StarvationOf(After(Init(limit), evs, Under(p)), n)
  }

  lemma RecordedDoesNotStarve(limit: nat, n: nat, p: Policy)
    requires !p.unrecorded
    ensures !CanStarve(limit, n, p)
  {
    forall evs | IsRun(Init(limit), evs, Under(p)) ensures !StarvationOf(After(Init(limit), evs, Under(p)), n) {
      var s := After(Init(limit), evs, Under(p));
      if Deadlocked(s) && s.tasks != [] {
        var ev := DeadlockFree(limit, evs, Under(p));
        assert false;
      }
    }
  }

  /** A queued task can be left in a deadlock exactly if the pool has a limit and pool threads
      may call Add before they are in id_map_; timeouts and client purges leave only submitters
      behind. */
  lemma StarveIff(limit: nat, n: nat, p: Policy)
    requires 0 < n < WORD
    ensures CanStarve(limit, n, p) <==> limit > 0 && p.unrecorded
  {
    if limit == 0 {
      NoLimitFree(n, p);
      assert forall evs :: IsRun(Init(limit), evs, Under(p)) ==> !DeadlockOf(After(Init(limit), evs, Under(p)), n);
    } else if p.unrecorded {
      var evs := JamReached(limit, n, p);
      JammedDeadlocks(After(Init(limit), evs, Under(p)), n);
      assert StarvationOf(After(Init(limit), evs, Under(p)), n);
    } else {
      RecordedDoesNotStarve(limit, n, p);
    }
  }
}
