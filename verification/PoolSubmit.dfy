/** What becomes of an Add: when its task expires, and that it ends in exactly one push, in a
    timeout or in a refusal. */
module PoolSubmit {
  import opened ThreadPool

  // ---------------------------------------------------------------- one section

  /** t expires from stamp plus expiration on; with expiration zero, or a sum of zero, never. */
  ghost predicate ExpiresFrom(t: Task, stamp: int, expiration: int) {
    forall clock :: IsExpired(t, clock)
                    <==> expiration != 0 && stamp + expiration != 0 && clock >= stamp + expiration
  }

  lemma ExpiryMeaning(id: nat, stamp: int, expiration: int)
    ensures ExpiresFrom(Task(id, Expiry(stamp, expiration)), stamp, expiration)
  {
  }

  /** Between s and s' the first k tasks left as expired and nothing else left. */
  ghost predicate OnlyExpired(s: Pool, s': Pool, k: nat) {
    && k <= |s.tasks| && |s'.left| == |s.left| + k && s.left <= s'.left
    && (forall i :: 0 <= i < k ==> s'.left[|s.left| + i] == Expired(s.tasks[i]))
    && s'.expiredCount == s.expiredCount + k
  }

  /** k is the number of tasks at the front that have expired. */
  ghost predicate ExpiredFront(ts: seq<Task>, now: int, k: nat) {
    && k <= |ts| && (forall i :: 0 <= i < k ==> IsExpired(ts[i], now))
    && (k < |ts| ==> !IsExpired(ts[k], now))
  }

  /** One new task, waiting, at the back of what k expiries left of the queue. */
  ghost predicate PushesOne(s: Pool, s': Pool, k: nat, stamp: int, expiration: int) {
    && k <= |s.tasks| && |s'.tasks| == |s.tasks| - k + 1
    && var t := s'.tasks[|s'.tasks| - 1];
    && s'.tasks == s.tasks[k..] + [t] && s'.pushed == s.pushed + [t] && t.id == |s.pushed|
    && s'.status == s.status + [Status.Waiting] && ExpiresFrom(t, stamp, expiration)
  }

  ghost predicate PushesNone(s: Pool, s': Pool, k: nat) {
    k <= |s.tasks| && s'.tasks == s.tasks[k..] && s'.pushed == s.pushed && s'.status == s.status
  }

  /** Room for one more task behind the k expired ones. */
  predicate HasRoom(s: Pool, k: nat) { s.limit == 0 || |s.tasks| - k < s.limit }

  /** Whether Add may wait: not on a pool thread in id_map_, and not with a negative timeout. */
  predicate MayWait(s: Pool, call: AddCall) {
    call.timeout >= 0 && (call.caller.PoolThread? ==> call.caller.w !in s.recorded)
  }

  lemma PurgeMeans(s: Pool, now: int)
    ensures var k := ExpiredPrefix(s.tasks, now);
            && ExpiredFront(s.tasks, now, k)
            && OnlyExpired(s, Purge(s, now), k) && PushesNone(s, Purge(s, now), k)
            && Purge(s, now).blocked == s.blocked && Purge(s, now).signalled == s.signalled
            && Purge(s, now).state == s.state && Purge(s, now).recorded == s.recorded && Purge(s, now).limit == s.limit
  {
    ExpiredPrefixIsLongest(s.tasks, now);
  }

  lemma PushMeans(s: Pool, call: AddCall, stamp: int, wakes: set<nat>)
    ensures PushesOne(s, Push(s, call, stamp, wakes), 0, stamp, call.expiration)
    ensures var s' := Push(s, call, stamp, wakes);
            s'.blocked == s.blocked && s'.signalled == s.signalled && s'.left == s.left && s'.expiredCount == s.expiredCount
  {
    ExpiryMeaning(|s.pushed|, stamp, call.expiration);
  }

  /** What Add does in a STARTED manager: the expired front leaves; then it pushes if there is
      room, waits if there is none and it may, and is refused otherwise. */
  ghost predicate AddsAsPromised(s: Pool, s': Pool, call: AddCall, k: nat, stamp: int) {
    && OnlyExpired(s, s', k) && s'.signalled == s.signalled
    && if HasRoom(s, k) then PushesOne(s, s', k, stamp, call.expiration) && s'.blocked == s.blocked
       else PushesNone(s, s', k) && s'.blocked == if MayWait(s, call) then s.blocked + {call} else s.blocked
  }

  lemma AddMeans(s: Pool, call: AddCall, now: int, stamp: int, wakes: set<nat>)
    requires Enabled(s, Add(call, now, stamp, wakes))
    ensures var s' := Step(s, Add(call, now, stamp, wakes));
            if s.state != Started then s' == s
            else exists k :: ExpiredFront(s.tasks, now, k) && AddsAsPromised(s, s', call, k, stamp)
  {
    if s.state == Started {
      var k := ExpiredPrefix(s.tasks, now);
      var s1 := Purge(s, now);
      PurgeMeans(s, now);
      PushMeans(s1, call, stamp, wakes);
      assert AddsAsPromised(s, Step(s, Add(call, now, stamp, wakes)), call, k, stamp);
    }
  }

  /** What an Add does when it resumes, in any state: it pushes if there is room and waits on
      otherwise. */
  lemma AddResumeMeans(s: Pool, call: AddCall, stamp: int, wakes: set<nat>)
    requires Enabled(s, AddResume(call, stamp, wakes))
    ensures var s' := Step(s, AddResume(call, stamp, wakes));
            && s'.signalled == s.signalled - {call} && s'.left == s.left && s'.state == s.state
            && if HasRoom(s, 0) then PushesOne(s, s', 0, stamp, call.expiration) && s'.blocked == s.blocked
               else PushesNone(s, s', 0) && s'.blocked == s.blocked + {call}
  {
    PushMeans(s.(signalled := s.signalled - {call}), call, stamp, wakes);
  }

  // ---------------------------------------------------------------- conservation

  /** The Add calls that wait for room, signalled or not. */
  function InWait(s: Pool): set<AddCall> { s.blocked + s.signalled }

  ghost predicate Apart(s: Pool) { s.blocked !! s.signalled }

  /** Add takes the task on: it pushes it now or waits. */
  ghost predicate Accepts(s: Pool, ev: Event) {
    && ev.Add? && s.state == Started
    && (MayWait(s, ev.call) || exists k :: ExpiredFront(s.tasks, ev.now, k) && HasRoom(s, k))
  }

  predicate TimesOut(ev: Event) { ev.AddTimeout? || ev.AddTimeoutLate? }

  /** The calls a step accepts and gives up. */
  ghost function AcceptedBy(s: Pool, ev: Event): nat { if Accepts(s, ev) then 1 else 0 }
  function GivenUpBy(ev: Event): nat { if TimesOut(ev) then 1 else 0 }

  /** Every accepted call is pushed, waiting or given up. */
  ghost predicate Conserves(s: Pool, ev: Event, s': Pool) {
    && Apart(s')
    && |s'.pushed| + |InWait(s')| + GivenUpBy(ev) == |s.pushed| + |InWait(s)| + AcceptedBy(s, ev)
  }

  lemma SignalConserves(s: Pool, s': Pool, calls: set<AddCall>)
    requires Apart(s) && calls <= s.blocked
    requires s'.blocked == s.blocked - calls && s'.signalled == s.signalled + calls
    ensures Apart(s') && InWait(s') == InWait(s)
  {
  }

  lemma SectionConserves(s: Pool, w: nat, now: int, calls: set<AddCall>)
    requires Apart(s) && w < |s.workers| && calls <= s.blocked
    ensures var s' := Section(s, w, now, calls); Apart(s') && InWait(s') == InWait(s) && s'.pushed == s.pushed
  {
    if IsActive(s) && s.tasks != [] {
      SignalConserves(s, Section(s, w, now, calls), calls);
    }
  }

  lemma WorkerConserves(s: Pool, ev: Event)
    requires Apart(s) && Enabled(s, ev) && ByWorker(ev)
    ensures Conserves(s, ev, Step(s, ev))
  {
    if ev.Enter? {
      SectionConserves(s, ev.w, ev.now, ev.calls);
    } else if ev.Resume? {
      SectionConserves(s.(idleCount := Dec(s.idleCount)), ev.w, ev.now, ev.calls);
    }
  }

  lemma NotYetWaiting(s: Pool, call: AddCall)
    requires !InAdd(s, call.caller)
    ensures call !in InWait(s)
  {
  }

  lemma FrontUnique(ts: seq<Task>, now: int, k: nat, j: nat)
    requires ExpiredFront(ts, now, k) && ExpiredFront(ts, now, j)
    ensures k == j
  {
  }

  lemma AcceptsMeans(s: Pool, ev: Event, k: nat)
    requires ev.Add? && s.state == Started && ExpiredFront(s.tasks, ev.now, k)
    ensures Accepts(s, ev) <==> MayWait(s, ev.call) || HasRoom(s, k)
  {
    forall j | ExpiredFront(s.tasks, ev.now, j) ensures j == k { FrontUnique(s.tasks, ev.now, k, j); }
  }

  lemma AddConserves(s: Pool, ev: Event)
    requires Apart(s) && Enabled(s, ev) && ev.Add?
    ensures Conserves(s, ev, Step(s, ev))
  {
    AddMeans(s, ev.call, ev.now, ev.stamp, ev.wakes);
    NotYetWaiting(s, ev.call);
    if s.state == Started {
      var s' := Step(s, ev);
      var k :| ExpiredFront(s.tasks, ev.now, k) && AddsAsPromised(s, s', ev.call, k, ev.stamp);
      AcceptsMeans(s, ev, k);
      if !HasRoom(s, k) && MayWait(s, ev.call) {
        assert InWait(s') == InWait(s) + {ev.call};
      }
    }
  }

  lemma ResumeConserves(s: Pool, ev: Event)
    requires Apart(s) && Enabled(s, ev) && ev.AddResume?
    ensures Conserves(s, ev, Step(s, ev))
  {
    AddResumeMeans(s, ev.call, ev.stamp, ev.wakes);
    var s' := Step(s, ev);
    if HasRoom(s, 0) {
      assert InWait(s') == InWait(s) - {ev.call};
    } else {
      assert InWait(s') == InWait(s);
    }
  }

  lemma WaiterConserves(s: Pool, ev: Event)
    requires Apart(s) && Enabled(s, ev) && (ev.AddSpurious? || TimesOut(ev))
    ensures Conserves(s, ev, Step(s, ev))
  {
    if ev.AddSpurious? {
      SignalConserves(s, Step(s, ev), {ev.call});
    } else {
      assert InWait(Step(s, ev)) == InWait(s) - {ev.call};
    }
  }

  lemma OtherConserves(s: Pool, ev: Event)
    requires Apart(s) && Enabled(s, ev) && (ByController(ev) || ev.RemoveNext? || ev.PurgeNow? || ev.TakeExpired?)
    ensures Conserves(s, ev, Step(s, ev))
  {
  }

  lemma StepConserves(s: Pool, ev: Event)
    requires Apart(s) && Enabled(s, ev)
    ensures Conserves(s, ev, Step(s, ev))
  {
    if ByWorker(ev) {
      WorkerConserves(s, ev);
    } else if ev.Add? {
      AddConserves(s, ev);
    } else if ev.AddResume? {
      ResumeConserves(s, ev);
    } else if ev.AddSpurious? || TimesOut(ev) {
      WaiterConserves(s, ev);
    } else {
      OtherConserves(s, ev);
    }
  }

  /** How many Add calls a run accepts. */
  ghost function Accepted(s: Pool, evs: seq<Event>, rule: Rule): nat
    requires IsRun(s, evs, rule)
    decreases |evs|
  {
    if evs == [] then 0 else AcceptedBy(s, evs[0]) + Accepted(Step(s, evs[0]), evs[1..], rule)
  }

  /** How many it gives up by a timeout. */
  function GivenUp(evs: seq<Event>): nat {
    if evs == [] then 0 else GivenUpBy(evs[0]) + GivenUp(evs[1..])
  }

  ghost predicate Balanced(s: Pool, evs: seq<Event>, rule: Rule)
    requires IsRun(s, evs, rule)
  {
    var s' := After(s, evs, rule);
    |s'.pushed| + |InWait(s')| + GivenUp(evs) == |s.pushed| + |InWait(s)| + Accepted(s, evs, rule)
  }

  lemma {:induction false} RunConserves(s: Pool, evs: seq<Event>, rule: Rule)
    requires Apart(s) && IsRun(s, evs, rule)
    ensures Apart(After(s, evs, rule)) && Balanced(s, evs, rule)
    decreases |evs|
  {
    if evs != [] {
      StepConserves(s, evs[0]);
      RunConserves(Step(s, evs[0]), evs[1..], rule);
    }
  }

  /** Conservation of Add calls: in every run under any controller, the calls accepted are those
      whose task has been pushed, once each, those that wait, and those given up by a timeout. */
  lemma AddsConserved(limit: nat, evs: seq<Event>)
    requires IsRun(Init(limit), evs, AnyEvent)
    ensures var s := After(Init(limit), evs, AnyEvent);
            |s.pushed| + |InWait(s)| + GivenUp(evs) == Accepted(Init(limit), evs, AnyEvent)
  {
    RunConserves(Init(limit), evs, AnyEvent);
  }

  lemma WorkerKeepsWaiting(s: Pool, ev: Event)
    requires Enabled(s, ev) && ByWorker(ev)
    ensures InWait(s) <= InWait(Step(s, ev))
  {
  }

  lemma CallerKeepsWaiting(s: Pool, ev: Event)
    requires Enabled(s, ev) && !ByWorker(ev) && !ev.AddResume? && !TimesOut(ev)
    ensures InWait(s) <= InWait(Step(s, ev))
  {
  }

  /** A call stops waiting only by its own timeout, or by its own resumption with room, which
      pushes exactly its task. */
  lemma CallLeaves(s: Pool, ev: Event, call: AddCall)
    requires Apart(s) && Enabled(s, ev) && call in InWait(s) && call !in InWait(Step(s, ev))
    ensures (TimesOut(ev) && ev.call == call)
            || (ev.AddResume? && ev.call == call && PushesOne(s, Step(s, ev), 0, ev.stamp, call.expiration))
  {
    if ev.AddResume? {
      AddResumeMeans(s, ev.call, ev.stamp, ev.wakes);
    } else if ByWorker(ev) {
      WorkerKeepsWaiting(s, ev);
    } else if !TimesOut(ev) {
      CallerKeepsWaiting(s, ev);
    }
  }
}
