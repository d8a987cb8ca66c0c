/** A partial RemoveWorker that has returned can leave the pool in a state from which a Stop or
    Join never returns. */
module PoolRemoval {
  import opened ThreadPool
  import opened PoolInvariants
  import opened PoolSafety
  import opened PoolOvershoot
  import opened PoolWitness

  /** Idle workers, after RemoveWorker(k) has returned and the others have followed it. */
  ghost predicate Depleted(s: Pool, n: nat, k: nat) {
    && s.state == Started && s.ctl == Idle && s.workerCount == 0 && s.workerMaxCount == n - k
    && forall w :: 0 <= w < |s.workers| ==> s.workers[w] == Gone
  }

  lemma RemovalStarts(s: Pool, n: nat, k: nat) returns (evs: seq<Event>)
    requires CountInv(CoreOf(s)) && Bare(s, s.limit, n, n, n, Idle) && 0 < k < n
    ensures IsRun(s, evs, AnyEvent)
    ensures var t := After(s, evs, AnyEvent);
            && AllLeft(t) && t.workerCount == n && t.workerMaxCount == n - k && t.state == Started
            && t.ctl == WaitCheck(Removing(false))
  {
    var s1 := Step(s, CtlRemove(k));
    var s2 := LowersLimit(s1, k, false);
    evs := AllDecideToLeave(s2, 0);
    RunCons(s1, CtlShrink(Sleepers(s1.workers)), evs, NotReturned);
    evs := [CtlShrink(Sleepers(s1.workers))] + evs;
    RunIsRun(s1, evs, NotReturned);
    RunCons(s, CtlRemove(k), evs, AnyEvent);
    evs := [CtlRemove(k)] + evs;
  }

  /** k of n idle workers exit, RemoveWorker(k) returns, the others exit as well. */
  lemma RemovalReturns(s: Pool, n: nat, k: nat) returns (evs: seq<Event>)
    requires CountInv(CoreOf(s)) && Bare(s, s.limit, n, n, n, Idle) && 0 < k < n
    ensures IsRun(s, evs, AnyEvent) && Depleted(After(s, evs, AnyEvent), n, k)
  {
    evs := RemovalStarts(s, n, k);
    var more := SomeExit(After(s, evs, AnyEvent), n - k, AnyEvent);
    RunConcat(s, evs, more, AnyEvent);
    evs := Extend(s, evs + more, CtlCheck, AnyEvent);
    more := SomeExit(After(s, evs, AnyEvent), 0, AnyEvent);
    RunConcat(s, evs, more, AnyEvent);
    evs := evs + more;
    NobodyCounted(After(s, evs, AnyEvent));
  }

  lemma DepletedStop(s: Pool, n: nat, k: nat, join: bool) returns (evs: seq<Event>)
    requires Depleted(s, n, k) && k < n
    ensures IsRun(s, evs, AnyEvent)
    ensures var t := After(s, evs, AnyEvent); Overshot(t) && (t.state == Stopping || t.state == Joining)
  {
    evs := Extend(s, [], CtlStop(join), AnyEvent);
    evs := Extend(s, evs, CtlReadCount, AnyEvent);
    evs := Extend(s, evs, CtlShrink({}), AnyEvent);
  }

  /** For every limit, every n workers and every partial removal: once RemoveWorker(k) has
      returned, a Stop or Join can come to a wait that never ends, with no Add involved. */
  lemma StopHangsAfterRemoval(limit: nat, n: nat, k: nat, join: bool) returns (evs: seq<Event>)
    requires 0 < k < n < WORD
    ensures IsRun(Init(limit), evs, AnyEvent)
    ensures var s := After(Init(limit), evs, AnyEvent);
            && (s.state == Stopping || s.state == Joining) && Overshot(s)
            && forall more :: IsRun(s, more, AnyEvent) ==> Overshot(After(s, more, AnyEvent))
  {
    evs := IdlePoolReached(limit, n, Strict());
    RunIsRun(Init(limit), evs, Under(Strict()));
    ReachedIsSafe(limit, evs);
    var more := RemovalReturns(After(Init(limit), evs, AnyEvent), n, k);
    RunConcat(Init(limit), evs, more, AnyEvent);
    evs := evs + more;
    more := DepletedStop(After(Init(limit), evs, AnyEvent), n, k, join);
    RunConcat(Init(limit), evs, more, AnyEvent);
    evs := evs + more;
    ReachedIsSafe(limit, evs);
    var s := After(Init(limit), evs, AnyEvent);
    forall rest | IsRun(s, rest, AnyEvent) ensures Overshot(After(s, rest, AnyEvent)) {
      StuckForever(s, rest);
    }
  }
}
