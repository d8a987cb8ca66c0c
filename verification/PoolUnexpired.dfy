/** What a section does to a queue in which nothing has expired. */
module PoolUnexpired {
  import opened ThreadPool

  ghost predicate AllExpire(ts: seq<Task>, e: int) {
    forall i :: 0 <= i < |ts| ==> ts[i].expireTime == e
  }

  lemma PurgeNone(s: Pool, e: int)
    requires AllExpire(s.tasks, e) && e >= 0
    ensures Purge(s, 0) == s
  {
    assert ExpiredPrefix(s.tasks, 0) == 0;
  }

  /** Add in a started pool after its purge. */
  function AddTo(s: Pool, call: AddCall, wakes: set<nat>): Pool {
    if !Full(s) then Push(s, call, 0, wakes)
    else if CanSleep(s, call.caller) && call.timeout >= 0 then s.(blocked := s.blocked + {call})
    else s
  }

  lemma AddIsAddTo(s: Pool, s1: Pool, call: AddCall, wakes: set<nat>)
    requires s.state == Started && s1 == Purge(s, 0)
    ensures AddPushes(s, 0) <==> !Full(s1)
    ensures DoAdd(s, call, 0, 0, wakes) == AddTo(s1, call, wakes)
  {
  }

  lemma SectionIsTake(s: Pool, s1: Pool, w: nat, calls: set<AddCall>)
    requires w < |s.workers| && IsActive(s) && s.tasks != [] && s1 == Purge(s, 0)
    ensures Announces(s, w, 0) <==> s.limit != 0 && |Take(s1, w).tasks| <= s.limit - 1
    ensures Section(s, w, 0, calls) == Take(s1, w).(blocked := s.blocked - calls, signalled := s.signalled + calls)
  {
  }

  /** A worker's section made before anything expires. */
  lemma SectionPurgesNone(s: Pool, w: nat, calls: set<AddCall>, e: int)
    requires w < |s.workers| && IsActive(s) && s.tasks != [] && AllExpire(s.tasks, e) && e >= 0
    ensures Announces(s, w, 0) <==> s.limit != 0 && |Take(s, w).tasks| <= s.limit - 1
    ensures Section(s, w, 0, calls) == Take(s, w).(blocked := s.blocked - calls, signalled := s.signalled + calls)
  {
    PurgeNone(s, e);
    SectionIsTake(s, s, w, calls);
  }

  /** An Add made before anything expires. */
  lemma AddPurgesNone(s: Pool, call: AddCall, wakes: set<nat>, e: int)
    requires s.state == Started && AllExpire(s.tasks, e) && e >= 0
    ensures AddPushes(s, 0) <==> !Full(s)
    ensures DoAdd(s, call, 0, 0, wakes) == AddTo(s, call, wakes)
  {
    PurgeNone(s, e);
    AddIsAddTo(s, s, call, wakes);
  }
}
