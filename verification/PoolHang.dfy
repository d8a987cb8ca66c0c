/** When a shutdown can hang, and whom it leaves asleep in Add. */
module PoolHang {
  import opened ThreadPool
  import opened PoolUnexpired
  import opened PoolManaged
  import opened PoolProgress
  import opened PoolTermination
  import opened PoolWitness

  // ---------------------------------------------------------------- a shutdown that hangs

  /** Stop or Join waits for workers that wait for themselves. */
  ghost predicate Hung(s: Pool) {
    && InOwnAdd(s, |s.workers|) && s.workers != [] && s.signalled == {}
    && s.ctl == WaitAsleep(Removing(true)) && (s.state == Stopping || s.state == Joining)
  }

  lemma HungStep(s: Pool, ev: Event)
    requires Hung(s) && Enabled(s, ev) && Quiet(s, ev)
    ensures Hung(Step(s, ev)) && !Internal(ev)
  {
  }

  /** No continuation without spurious wakeups gets a hung shutdown to return. */
  lemma {:induction false} HungForever(s: Pool, evs: seq<Event>)
    requires Hung(s) && IsRun(s, evs, Quiet)
    ensures Hung(After(s, evs, Quiet)) && WorkSteps(evs) == 0
    decreases |evs|
  {
    if evs != [] {
      HungStep(s, evs[0]);
      HungForever(Step(s, evs[0]), evs[1..]);
    }
  }

  /** The pool in a Stop or Join, its controller at c. */
  function InStop(s: Pool, join: bool, max: nat, c: Control): Pool {
    s.(state := if join then Joining else Stopping, mark := |s.pushed|, workerMaxCount := max, ctl := c)
  }

  lemma StopShrinks(s: Pool, n: nat, join: bool)
    requires s.state == Started && s.ctl == Idle && s.workerCount == s.workerMaxCount == n && Sleepers(s.workers) == {}
    ensures IsStep(s, CtlStop(join), InStop(s, join, n, StopCount))
    ensures IsStep(InStop(s, join, n, StopCount), CtlReadCount, InStop(s, join, n, RemoveEnter(n, true)))
    ensures IsStep(InStop(s, join, n, RemoveEnter(n, true)), CtlShrink({}), InStop(s, join, 0, WaitCheck(Removing(true))))
  {
    assert Wake(s.workers, {}) == s.workers;
  }

  /** A Stop or Join, with no worker asleep, up to its wait. */
  lemma StopBegins(s: Pool, n: nat, join: bool, p: Policy) returns (evs: seq<Event>)
    requires s.state == Started && s.ctl == Idle && s.workerCount == s.workerMaxCount == n && Sleepers(s.workers) == {}
    ensures IsRun(s, evs, Under(p)) && After(s, evs, Under(p)) == InStop(s, join, 0, WaitCheck(Removing(true)))
  {
    StopShrinks(s, n, join);
    evs := Extend(s, [], CtlStop(join), Under(p));
    evs := Extend(s, evs, CtlReadCount, Under(p));
    evs := Extend(s, evs, CtlShrink({}), Under(p));
  }

  lemma StopSleeps(s: Pool, n: nat, join: bool)
    requires Jammed(s, n) && n > 0
    ensures IsStep(InStop(s, join, 0, WaitCheck(Removing(true))), CtlCheck, InStop(s, join, 0, WaitCommit(Removing(true))))
    ensures IsStep(InStop(s, join, 0, WaitCommit(Removing(true))), CtlSleep, InStop(s, join, 0, WaitAsleep(Removing(true))))
    ensures Hung(InStop(s, join, 0, WaitAsleep(Removing(true))))
  {
  }

  lemma StopHangs(s: Pool, n: nat, join: bool, p: Policy) returns (evs: seq<Event>)
    requires Jammed(s, n) && n > 0
    ensures IsRun(s, evs, Under(p)) && Hung(After(s, evs, Under(p))) && |After(s, evs, Under(p)).workers| == n
  {
    assert forall w :: 0 <= w < |s.workers| ==> s.workers[w] != Asleep;
    evs := StopBegins(s, n, join, p);
    StopSleeps(s, n, join);
    evs := Extend(s, evs, CtlCheck, Under(p));
    evs := Extend(s, evs, CtlSleep, Under(p));
  }

  /** For every limit and number of workers, a Stop or Join that hangs. */
  lemma ShutdownHangs(limit: nat, n: nat, join: bool, p: Policy) returns (evs: seq<Event>)
    requires limit > 0 && 0 < n < WORD && p.unrecorded
    ensures IsRun(Init(limit), evs, Under(p))
    ensures var s := After(Init(limit), evs, Under(p)); Hung(s) && |s.workers| == n
  {
    evs := JamReached(limit, n, p);
    var more := StopHangs(After(Init(limit), evs, Under(p)), n, join, p);
    RunConcat(Init(limit), evs, more, Under(p));
    evs := evs + more;
  }

  /** The remover has not returned, and nobody can move. */
  ghost predicate Stalled(s: Pool, n: nat) {
    Shut(s) && s.ctl != Idle && |s.workers| == n && forall ev :: Internal(ev) ==> !Enabled(s, ev)
  }

  ghost predicate CanStall(limit: nat, n: nat, p: Policy) {
    exists evs :: IsRun(Init(limit), evs, Under(p)) && Stalled(After(Init(limit), evs, Under(p)), n)
  }

  lemma HungStalls(s: Pool, n: nat)
    requires Hung(s) && |s.workers| == n
    ensures Stalled(s, n)
  {
    forall ev | Internal(ev) ensures !Enabled(s, ev) {
      if Enabled(s, ev) { HungStep(s, ev); }
    }
  }

  /** A shutdown can hang exactly if the pool has a limit and pool threads may call Add before
      they are in id_map_; timeouts and client purges do no harm to it. */
  lemma StallIff(limit: nat, n: nat, p: Policy)
    requires 0 < n < WORD
    ensures CanStall(limit, n, p) <==> limit > 0 && p.unrecorded
  {
    if limit > 0 && p.unrecorded {
      var evs := ShutdownHangs(limit, n, true, p);
      HungStalls(After(Init(limit), evs, Under(p)), n);
    } else {
      forall evs | IsRun(Init(limit), evs, Under(p)) ensures !Stalled(After(Init(limit), evs, Under(p)), n) {
        var s := ManagedReached(limit, evs, Under(p));
        if limit == 0 {
          NoLimitNoWait(Init(limit), evs, Under(p));
        } else {
          RunKeepsOutsiders(Init(limit), evs, Under(p));
        }
        if Shut(s) && s.ctl != Idle {
          var ev := WindingAdvances(s);
        }
      }
    }
  }

  // ---------------------------------------------------------------- submitters left behind

  /** Woken workers with nothing to do, the first i of which have left a Stop or Join. */
  ghost predicate Parting(s: Pool, n: nat, i: nat) {
    && s.state != Started && s.state != Uninitialized && s.tasks == [] && s.ctl == WaitCheck(Removing(true))
    && |s.workers| == n == s.workerCount && s.workerMaxCount == 0
    && Split(s.workers, i, Leaving, Woken) && Patient() in s.blocked
  }

  lemma {:induction false} AllPart(s: Pool, n: nat, i: nat, p: Policy) returns (evs: seq<Event>)
    requires Parting(s, n, i) && i <= n && 0 < n
    ensures IsRun(s, evs, Under(p))
    ensures var t := After(s, evs, Under(p)); t.state == s.state && Closed(t) && Patient() in t.blocked
    decreases n - i
  {
    evs := [];
    if i < n {
      var rest := AllPart(Step(s, Resume(i, 0, {})), n, i + 1, p);
      RunCons(s, Resume(i, 0, {}), rest, Under(p));
      evs := [Resume(i, 0, {})] + rest;
    }
  }

  lemma DozingStops(s: Pool, n: nat, blocked: set<AddCall>, join: bool, p: Policy) returns (evs: seq<Event>)
    requires Dozing(s, n, 0, blocked) && 0 < n
    ensures IsRun(s, evs, Under(p)) && After(s, evs, Under(p)) == InStop(s, join, 0, WaitCheck(Removing(true)))
  {
    assert forall w :: 0 <= w < |s.workers| ==> s.workers[w] != Asleep;
    evs := StopBegins(s, n, join, p);
  }

  /** Stop leaves a submitter asleep who is never woken again. */
  lemma StopStrands(limit: nat, n: nat, p: Policy) returns (evs: seq<Event>)
    requires limit > 0 && 0 < n < WORD
    ensures IsRun(Init(limit), evs, Under(p))
    ensures var s := After(Init(limit), evs, Under(p)); s.state == Stopping && Closed(s) && Patient() in s.blocked
  {
    evs := WaitingSubmitterReached(limit, n, p);
    var more := DozingStops(After(Init(limit), evs, Under(p)), n, {Patient()}, false, p);
    RunConcat(Init(limit), evs, more, Under(p));
    evs := evs + more;
  }

  function Other(): AddCall { Plain(3, 0, 0) }

  lemma TwoWaitersReached(limit: nat, n: nat, p: Policy) returns (evs: seq<Event>)
    requires limit > 0 && 0 < n < WORD
    ensures IsRun(Init(limit), evs, Under(p))
    ensures var s := After(Init(limit), evs, Under(p));
            Dozing(s, n, 0, {Patient(), Other()}) && Full(s) && AllExpire(s.tasks, 1)
  {
    evs := WaitingSubmitterReached(limit, n, p);
    WaitsForRoom(After(Init(limit), evs, Under(p)), n, {Patient()}, Other());
    evs := Extend(Init(limit), evs, Add(Other(), 0, 0, {}), Under(p));
  }

  /** The one signal of a worker that finds every task expired goes to the other submitter. */
  lemma OtherSignalled(s: Pool, n: nat)
    requires s.state == Joining && s.ctl == WaitCheck(Removing(true)) && s.limit > 0 && s.tasks != [] && AllExpire(s.tasks, 1)
    requires |s.workers| == n == s.workerCount && s.workerMaxCount == 0 && 0 < n && Split(s.workers, 0, Asleep, Woken)
    requires s.blocked == {Patient(), Other()} && s.signalled == {}
    ensures var ev := Resume(0, 1, {Other()});
            && Enabled(s, ev)
            && Step(s, ev) == Purge(s, 1).(workers := s.workers[0 := Ready], idleCount := Dec(s.idleCount),
                                           blocked := {Patient()}, signalled := {Other()})
  {
    PurgeAll(s);
    assert {Patient(), Other()} - {Other()} == {Patient()};
  }

  /** The worker finds the queue of a Join empty and leaves. */
  lemma FirstParts(s: Pool, n: nat)
    requires s.state == Joining && s.ctl == WaitCheck(Removing(true)) && s.tasks == []
    requires |s.workers| == n == s.workerCount && s.workerMaxCount == 0 && 0 < n && Patient() in s.blocked
    requires forall w :: 0 <= w < n ==> s.workers[w] == if w == 0 then Ready else Woken
    ensures Enabled(s, Enter(0, 0, {})) && Parting(Step(s, Enter(0, 0, {})), n, 1) && Step(s, Enter(0, 0, {})).state == Joining
  {
  }

  lemma ExpiredJoin(s: Pool, n: nat, p: Policy) returns (evs: seq<Event>)
    requires s.state == Joining && s.ctl == WaitCheck(Removing(true)) && s.limit > 0 && s.tasks != [] && AllExpire(s.tasks, 1)
    requires |s.workers| == n == s.workerCount && s.workerMaxCount == 0 && 0 < n && Split(s.workers, 0, Asleep, Woken)
    requires s.blocked == {Patient(), Other()} && s.signalled == {}
    ensures IsRun(s, evs, Under(p))
    ensures var t := After(s, evs, Under(p)); t.state == Joining && Closed(t) && Patient() in t.blocked
  {
    var ev := Resume(0, 1, {Other()});
    OtherSignalled(s, n);
    PurgeAll(s);
    var s1 := Step(s, ev);
    FirstParts(s1, n);
    var s2 := Step(s1, Enter(0, 0, {}));
    evs := AllPart(s2, n, 1, p);
    RunCons(s1, Enter(0, 0, {}), evs, Under(p));
    evs := [Enter(0, 0, {})] + evs;
    RunCons(s, ev, evs, Under(p));
    evs := [ev] + evs;
  }

  /** So does Join, when a worker's one signal for a whole queue of expired tasks goes to
      another submitter. */
  lemma JoinStrands(limit: nat, n: nat, p: Policy) returns (evs: seq<Event>)
    requires limit > 0 && 0 < n < WORD
    ensures IsRun(Init(limit), evs, Under(p))
    ensures var s := After(Init(limit), evs, Under(p)); s.state == Joining && Closed(s) && Patient() in s.blocked
  {
    evs := TwoWaitersReached(limit, n, p);
    var s := After(Init(limit), evs, Under(p));
    var more := DozingStops(s, n, {Patient(), Other()}, true, p);
    var rest := ExpiredJoin(After(s, more, Under(p)), n, p);
    RunConcat(s, more, rest, Under(p));
    RunConcat(Init(limit), evs, more + rest, Under(p));
    evs := evs + (more + rest);
  }
}
