/** NoStarveReadWriteMutex of threads/mutex.cc: a gate mutex and a flag in front of a plain
    read/write lock. Threads are numbered; each atomic access is one step. The plain lock
    grants a read whenever no writer holds it and a write whenever nobody does. */
module NoStarveLock {
  import opened Totals

  datatype Phase =
    | Out
    | ReadStart          // AcquireRead, before reading writer_waiting_
    | ReadGate           // saw the flag set, before mutex_.Lock()
    | ReadGateHeld       // holds mutex_
    | ReadPast           // past the gate, before ReadWriteMutex::AcquireRead()
    | Reading
    | WriteStart         // AcquireWrite, before AttemptWrite()
    | WriteGate          // the attempt failed, before mutex_.Lock()
    | WriteGateHeld      // holds mutex_, flag not yet set
    | WriteWaiting       // flag set, in ReadWriteMutex::AcquireWrite()
    | WriteGot           // holds the write lock, flag still set
    | WriteCleared       // flag cleared, mutex_ still held
    | Writing

  datatype Gate = Open | HeldBy(t: nat)

  datatype Lock = Lock(writerWaiting: bool, gate: Gate, readers: nat, writer: bool, threads: seq<Phase>)

  datatype Event =
    | StartRead(t: nat) | TestFlag(t: nat) | LockGate(t: nat) | UnlockGate(t: nat) | TakeRead(t: nat)
    | AttemptRead(t: nat) | TryWrite(t: nat)   // the public attempts; AttemptWrite is AcquireWrite's own
    | StartWrite(t: nat) | AttemptWrite(t: nat) | LockWriteGate(t: nat) | SetFlag(t: nat)
    | TakeWrite(t: nat) | ClearFlag(t: nat) | UnlockWriteGate(t: nat)
    | Release(t: nat)

  predicate HoldsWrite(p: Phase) { p == WriteGot || p == WriteCleared || p == Writing }

  predicate HoldsGate(p: Phase) {
    p == ReadGateHeld || p == WriteGateHeld || p == WriteWaiting || p == WriteGot || p == WriteCleared
  }

  /** The phase an event needs its thread to be in. */
  function From(ev: Event): Phase {
    match ev
    case StartRead(_) => Out
    case TestFlag(_) => ReadStart
    case LockGate(_) => ReadGate
    case UnlockGate(_) => ReadGateHeld
    case TakeRead(_) => ReadPast
    case AttemptRead(_) => Out
    case TryWrite(_) => Out
    case StartWrite(_) => Out
    case AttemptWrite(_) => WriteStart
    case LockWriteGate(_) => WriteGate
    case SetFlag(_) => WriteGateHeld
    case TakeWrite(_) => WriteWaiting
    case ClearFlag(_) => WriteGot
    case UnlockWriteGate(_) => WriteCleared
    case Release(_) => Writing
  }

  predicate Enabled(s: Lock, ev: Event) {
    && ev.t < |s.threads|
    && (if ev.Release? then s.threads[ev.t] in {Reading, Writing} else s.threads[ev.t] == From(ev))
    && (ev.LockGate? || ev.LockWriteGate? ==> s.gate == Open)
    && (ev.TakeRead? ==> !s.writer)
    && (ev.TakeWrite? ==> !s.writer && s.readers == 0)
  }

  function Move(s: Lock, t: nat, p: Phase): Lock
    requires t < |s.threads|
  {
    s.(threads := s.threads[t := p])
  }

  function Step(s: Lock, ev: Event): Lock
    requires Enabled(s, ev)
  {
    match ev
    case StartRead(t) => Move(s, t, ReadStart)
    case TestFlag(t) => Move(s, t, if s.writerWaiting then ReadGate else ReadPast)
    case LockGate(t) => Move(s, t, ReadGateHeld).(gate := HeldBy(t))
    case UnlockGate(t) => Move(s, t, ReadPast).(gate := Open)
    case TakeRead(t) => Move(s, t, Reading).(readers := s.readers + 1)
    case AttemptRead(t) => if s.writer then s else Move(s, t, Reading).(readers := s.readers + 1)
    case TryWrite(t) => if s.writer || s.readers > 0 then s else Move(s, t, Writing).(writer := true)
    case StartWrite(t) => Move(s, t, WriteStart)
    case AttemptWrite(t) =>
      if s.writer || s.readers > 0 then Move(s, t, WriteGate) else Move(s, t, Writing).(writer := true)
    case LockWriteGate(t) => Move(s, t, WriteGateHeld).(gate := HeldBy(t))
    case SetFlag(t) => Move(s, t, WriteWaiting).(writerWaiting := true)
    case TakeWrite(t) => Move(s, t, WriteGot).(writer := true)
    case ClearFlag(t) => Move(s, t, WriteCleared).(writerWaiting := false)
    case UnlockWriteGate(t) => Move(s, t, Writing).(gate := Open)
    case Release(t) =>
      if s.threads[t] == Writing then Move(s, t, Out).(writer := false)
      else Move(s, t, Out).(readers := if s.readers > 0 then s.readers - 1 else 0)
  }

  predicate IsStep(s: Lock, ev: Event, s': Lock) {
    Enabled(s, ev) && Step(s, ev) == s'
  }

  function Init(n: nat): Lock {
    Lock(false, Open, 0, false, seq(n, i => Out))
  }

  predicate IsRun(s: Lock, evs: seq<Event>)
    decreases |evs|
  {
    evs == [] || (Enabled(s, evs[0]) && IsRun(Step(s, evs[0]), evs[1..]))
  }

  function After(s: Lock, evs: seq<Event>): Lock
    requires IsRun(s, evs)
    decreases |evs|
  {
    if evs == [] then s else After(Step(s, evs[0]), evs[1..])
  }

  // ---------------------------------------------------------------- the invariant

  function ReadingN(p: Phase): nat { if p == Reading then 1 else 0 }
  function WriterN(p: Phase): nat { if HoldsWrite(p) then 1 else 0 }
  function PastN(p: Phase): nat { if p == ReadPast then 1 else 0 }

  /** The gate has the owner its phase says, and the flag is up exactly while the gate's owner
      is a writer that waits for the lock or has just got it. */
  ghost predicate GateInv(s: Lock) {
    && (forall t :: 0 <= t < |s.threads| ==> (HoldsGate(s.threads[t]) <==> s.gate == HeldBy(t)))
    && (s.gate.HeldBy? ==> s.gate.t < |s.threads|)
    && (s.writerWaiting <==> s.gate.HeldBy? && s.threads[s.gate.t] in {WriteWaiting, WriteGot})
  }

  /** The plain lock counts its holders and excludes writers from everybody. */
  ghost predicate HoldInv(s: Lock) {
    && s.readers == Total(s.threads, ReadingN)
    && Total(s.threads, WriterN) == (if s.writer then 1 else 0)
    && (s.writer ==> s.readers == 0)
  }

  ghost predicate LockInv(s: Lock) { GateInv(s) && HoldInv(s) }

  predicate ByReader(ev: Event) {
    ev.StartRead? || ev.TestFlag? || ev.LockGate? || ev.UnlockGate? || ev.TakeRead? || ev.AttemptRead? || ev.Release?
  }

  lemma ReaderKeepsGate(s: Lock, ev: Event)
    requires GateInv(s) && Enabled(s, ev) && ByReader(ev)
    ensures GateInv(Step(s, ev))
  {
  }

  lemma WriterKeepsGate(s: Lock, ev: Event)
    requires GateInv(s) && Enabled(s, ev) && !ByReader(ev)
    ensures GateInv(Step(s, ev))
  {
  }

  lemma StepKeepsGate(s: Lock, ev: Event)
    requires GateInv(s) && Enabled(s, ev)
    ensures GateInv(Step(s, ev))
  {
    if ByReader(ev) {
      ReaderKeepsGate(s, ev);
    } else {
      WriterKeepsGate(s, ev);
    }
  }

  lemma MoveKeepsHold(s: Lock, s': Lock, t: nat, p: Phase)
    requires HoldInv(s) && t < |s.threads| && s'.threads == s.threads[t := p]
    requires s'.readers == s.readers - ReadingN(s.threads[t]) + ReadingN(p)
    requires (if s'.writer then 1 else 0) == (if s.writer then 1 else 0) - WriterN(s.threads[t]) + WriterN(p)
    requires s'.writer ==> s'.readers == 0
    ensures HoldInv(s')
  {
    TotalUpdate(s.threads, t, p, ReadingN);
    TotalUpdate(s.threads, t, p, WriterN);
  }

  lemma ReleaseKeepsHold(s: Lock, t: nat)
    requires HoldInv(s) && Enabled(s, Release(t))
    ensures HoldInv(Step(s, Release(t)))
  {
    TotalAtLeast(s.threads, ReadingN, t);
    TotalAtLeast(s.threads, WriterN, t);
    MoveKeepsHold(s, Step(s, Release(t)), t, Out);
  }

  lemma StepKeepsHold(s: Lock, ev: Event)
    requires HoldInv(s) && Enabled(s, ev)
    ensures HoldInv(Step(s, ev))
  {
    if ev.Release? {
      ReleaseKeepsHold(s, ev.t);
    } else {
      MoveKeepsHold(s, Step(s, ev), ev.t, Step(s, ev).threads[ev.t]);
    }
  }

  lemma StepKeepsInv(s: Lock, ev: Event)
    requires LockInv(s) && Enabled(s, ev)
    ensures LockInv(Step(s, ev))
  {
    StepKeepsGate(s, ev);
    StepKeepsHold(s, ev);
  }

  lemma {:induction false} RunKeepsInv(s: Lock, evs: seq<Event>)
    requires LockInv(s) && IsRun(s, evs)
    ensures LockInv(After(s, evs))
    decreases |evs|
  {
    if evs != [] {
      StepKeepsInv(s, evs[0]);
      RunKeepsInv(Step(s, evs[0]), evs[1..]);
    }
  }

  lemma InitInv(n: nat)
    ensures LockInv(Init(n))
  {
    TotalZero(Init(n).threads, ReadingN);
    TotalZero(Init(n).threads, WriterN);
  }

  /** In every run at most one thread holds the write lock, and then no thread reads. */
  lemma MutualExclusion(n: nat, evs: seq<Event>, t: nat, u: nat)
    requires IsRun(Init(n), evs)
    requires t < |After(Init(n), evs).threads| && u < |After(Init(n), evs).threads| && t != u
    requires HoldsWrite(After(Init(n), evs).threads[t])
    ensures !HoldsWrite(After(Init(n), evs).threads[u]) && After(Init(n), evs).threads[u] != Reading
  {
    InitInv(n);
    RunKeepsInv(Init(n), evs);
    var ws := After(Init(n), evs).threads;
    TotalUpdate(ws, t, Out, WriterN);
    TotalAtLeast(ws[t := Out], WriterN, u);
    TotalAtLeast(ws, ReadingN, u);
  }

  // ---------------------------------------------------------------- what a call promises

  /** How far a thread is from the end of its AcquireRead or AcquireWrite; zero outside them. */
  function ReadRank(p: Phase): nat {
    match p
    case ReadStart => 4
    case ReadGate => 3
    case ReadGateHeld => 2
    case ReadPast => 1
    case _ => 0
  }

  function WriteRank(p: Phase): nat {
    match p
    case WriteStart => 6
    case WriteGate => 5
    case WriteGateHeld => 4
    case WriteWaiting => 3
    case WriteGot => 2
    case WriteCleared => 1
    case _ => 0
  }

  /** A thread inside AcquireRead goes through its statements one by one, and the last one takes
      the read lock. It goes through the gate exactly if it saw the flag. */
  ghost predicate ReadCallStep(s: Lock, s': Lock, t: nat)
    requires t < |s.threads| && t < |s'.threads|
  {
    && s'.writer == s.writer && s'.writerWaiting == s.writerWaiting
    && ReadRank(s'.threads[t]) == (if s.threads[t] == ReadStart && !s.writerWaiting then 1 else ReadRank(s.threads[t]) - 1)
    && (if ReadRank(s'.threads[t]) > 0 then s'.readers == s.readers
        else s'.threads[t] == Reading && !s.writer && s'.readers == s.readers + 1)
  }

  lemma ReadCallAdvances(s: Lock, ev: Event)
    requires Enabled(s, ev) && ReadRank(s.threads[ev.t]) > 0
    ensures ReadCallStep(s, Step(s, ev), ev.t)
  {
  }

  /** A thread inside AcquireWrite either gets the lock by its attempt, exactly if nobody holds
      it, or goes through the other statements one by one; it ends holding the write lock. */
  ghost predicate WriteCallStep(s: Lock, s': Lock, t: nat)
    requires t < |s.threads| && t < |s'.threads|
  {
    && s'.readers == s.readers
    && WriteRank(s'.threads[t])
       == (if s.threads[t] == WriteStart && !s.writer && s.readers == 0 then 0 else WriteRank(s.threads[t]) - 1)
    && (WriteRank(s'.threads[t]) == 0 ==> s'.threads[t] == Writing && s'.writer)
    && (s'.writer != s.writer ==> s'.writer && s.readers == 0)
  }

  lemma WriteCallAdvances(s: Lock, ev: Event)
    requires LockInv(s) && Enabled(s, ev) && WriteRank(s.threads[ev.t]) > 0
    ensures WriteCallStep(s, Step(s, ev), ev.t)
  {
    TotalAtLeast(s.threads, WriterN, ev.t);
  }

  /** A reader comes to the gate only by seeing the flag up, a writer only after an attempt that
      found a holder; and calls begin there only. */
  lemma AtGateBecause(s: Lock, ev: Event)
    requires Enabled(s, ev)
    ensures var p, q := s.threads[ev.t], Step(s, ev).threads[ev.t];
            && (q == ReadGate ==> p == ReadStart && s.writerWaiting)
            && (q == WriteGate ==> p == WriteStart && (s.writer || s.readers > 0))
            && (ev.StartRead? || (p == Out && ReadRank(q) > 0) ==> ReadRank(q) == 4)
            && (ev.StartWrite? || (p == Out && WriteRank(q) > 0) ==> WriteRank(q) == 6)
  {
  }

  /** Nobody else moves a thread. */
  lemma OthersStay(s: Lock, ev: Event, u: nat)
    requires Enabled(s, ev) && u < |s.threads| && u != ev.t
    ensures u < |Step(s, ev).threads| && Step(s, ev).threads[u] == s.threads[u]
  {
  }

  /** Attempts and releases never wait: an attempt takes the lock exactly if it is free for it. */
  lemma AttemptsAndReleases(s: Lock, ev: Event)
    requires LockInv(s) && Enabled(s, ev)
    ensures var s' := Step(s, ev); var p := s'.threads[ev.t];
            && (ev.AttemptRead? ==> p == (if s.writer then Out else Reading))
            && (ev.TryWrite? ==> p == (if s.writer || s.readers > 0 then Out else Writing))
            && (ev.Release? ==> p == Out && !s'.writer && s'.readers == if s.writer then 0 else s.readers - 1)
  {
    TotalAtLeast(s.threads, ReadingN, ev.t);
    TotalAtLeast(s.threads, WriterN, ev.t);
  }

  // ---------------------------------------------------------------- bounded bypass

  /** Readers past the gate. */
  function Past(s: Lock): nat { Total(s.threads, PastN) }

  /** Thread w is a slow-path writer that has set the flag and not yet got the lock. */
  predicate Waits(s: Lock, w: nat) {
    w < |s.threads| && s.threads[w] == WriteWaiting
  }

  /** A count over the events of a run, each weighed where it happens. */
  function Tally(s: Lock, evs: seq<Event>, f: (Lock, Event) -> nat): nat
    requires IsRun(s, evs)
    decreases |evs|
  {
    if evs == [] then 0 else f(s, evs[0]) + Tally(Step(s, evs[0]), evs[1..], f)
  }

  /** AttemptRead or AttemptWrite succeeds, the latter called alone or by AcquireWrite. Neither
      looks at the flag. */
  function FastReadN(s: Lock, ev: Event): nat { if ev.AttemptRead? && !s.writer then 1 else 0 }
  function FastWriteN(s: Lock, ev: Event): nat {
    if (ev.AttemptWrite? || ev.TryWrite?) && !s.writer && s.readers == 0 then 1 else 0
  }
  function FastN(s: Lock, ev: Event): nat { FastReadN(s, ev) + FastWriteN(s, ev) }

  /** A read acquisition, by AcquireRead or by AttemptRead. */
  function ReadN(s: Lock, ev: Event): nat { (if ev.TakeRead? then 1 else 0) + FastReadN(s, ev) }

  /** A reader past the gate acquires, or a holder releases. */
  function TurnN(s: Lock, ev: Event): nat { if ev.TakeRead? || ev.Release? then 1 else 0 }

  /** While a writer waits with the flag set, nobody passes the gate. */
  lemma NobodyPasses(s: Lock, ev: Event, w: nat)
    requires GateInv(s) && Waits(s, w) && Enabled(s, ev) && ev != TakeWrite(w)
    ensures Waits(Step(s, ev), w)
    ensures Step(s, ev).threads[ev.t] != ReadPast
  {
  }

  /** A reader leaves the set of those past the gate exactly by acquiring. */
  lemma PastShrinks(s: Lock, ev: Event, w: nat)
    requires GateInv(s) && Waits(s, w) && Enabled(s, ev) && ev != TakeWrite(w)
    ensures Past(Step(s, ev)) + ReadN(s, ev) == Past(s) + FastReadN(s, ev)
  {
    var s' := Step(s, ev);
    NobodyPasses(s, ev, w);
    TotalUpdate(s.threads, ev.t, s'.threads[ev.t], PastN);
    assert s'.threads == s.threads[ev.t := s'.threads[ev.t]];
  }

  /** Bounded writer bypass: over any run during which the writer waits, the read acquisitions
      are exactly the successful AttemptReads and the readers that were past the gate and no
      longer are. */
  lemma {:induction false} BoundedBypass(s: Lock, evs: seq<Event>, w: nat)
    requires LockInv(s) && Waits(s, w) && IsRun(s, evs) && TakeWrite(w) !in evs
    ensures Waits(After(s, evs), w)
    ensures Tally(s, evs, ReadN) + Past(After(s, evs)) == Past(s) + Tally(s, evs, FastReadN)
    decreases |evs|
  {
    if evs != [] {
      NobodyPasses(s, evs[0], w);
      PastShrinks(s, evs[0], w);
      StepKeepsInv(s, evs[0]);
      BoundedBypass(Step(s, evs[0]), evs[1..], w);
    }
  }

  /** The same from the initial state: `before` ends with the writer setting the flag. Apart
      from AttemptReads, only readers past the gate by then acquire before the writer. */
  lemma WriterBypassBound(n: nat, before: seq<Event>, evs: seq<Event>, w: nat)
    requires IsRun(Init(n), before) && Enabled(After(Init(n), before), SetFlag(w))
    requires IsRun(Step(After(Init(n), before), SetFlag(w)), evs) && TakeWrite(w) !in evs
    ensures var s := Step(After(Init(n), before), SetFlag(w));
            Tally(s, evs, ReadN) <= Past(After(Init(n), before)) + Tally(s, evs, FastReadN)
  {
    var s := After(Init(n), before);
    InitInv(n);
    RunKeepsInv(Init(n), before);
    StepKeepsInv(s, SetFlag(w));
    TotalUpdate(s.threads, w, WriteWaiting, PastN);
    BoundedBypass(Step(s, SetFlag(w)), evs, w);
  }

  // ---------------------------------------------------------------- the writer's turn

  function HolderN(p: Phase): nat { if p == ReadPast then 2 else if p == Reading || HoldsWrite(p) then 1 else 0 }

  /** Acquisitions and releases still to come before the lock is free for the waiting writer. */
  function Ahead(s: Lock): nat { Total(s.threads, HolderN) }

  lemma TurnWeighs(s: Lock, ev: Event, w: nat)
    requires GateInv(s) && Waits(s, w) && Enabled(s, ev) && ev != TakeWrite(w)
    ensures HolderN(Step(s, ev).threads[ev.t]) + TurnN(s, ev) == HolderN(s.threads[ev.t]) + FastN(s, ev)
  {
  }

  lemma StepMovesOne(s: Lock, ev: Event)
    requires Enabled(s, ev)
    ensures Step(s, ev).threads == s.threads[ev.t := Step(s, ev).threads[ev.t]]
  {
  }

  lemma AheadShrinks(s: Lock, ev: Event, w: nat)
    requires GateInv(s) && Waits(s, w) && Enabled(s, ev) && ev != TakeWrite(w)
    ensures Ahead(Step(s, ev)) + TurnN(s, ev) == Ahead(s) + FastN(s, ev)
  {
    TurnWeighs(s, ev, w);
    StepMovesOne(s, ev);
    TotalUpdate(s.threads, ev.t, Step(s, ev).threads[ev.t], HolderN);
  }

  /** Over any run during which the writer waits, the acquisitions and releases are what was
      ahead of it and no longer is, plus one for each successful attempt around the gate. */
  lemma {:induction false} WriterTurnBound(s: Lock, evs: seq<Event>, w: nat)
    requires LockInv(s) && Waits(s, w) && IsRun(s, evs) && TakeWrite(w) !in evs
    ensures LockInv(After(s, evs)) && Waits(After(s, evs), w)
    ensures Tally(s, evs, TurnN) + Ahead(After(s, evs)) == Ahead(s) + Tally(s, evs, FastN)
    decreases |evs|
  {
    if evs != [] {
      NobodyPasses(s, evs[0], w);
      AheadShrinks(s, evs[0], w);
      StepKeepsInv(s, evs[0]);
      WriterTurnBound(Step(s, evs[0]), evs[1..], w);
    }
  }

  /** Until then somebody can take such a turn; when nothing is ahead the writer acquires. */
  lemma WriterTurnComes(s: Lock, w: nat) returns (ev: Event)
    requires LockInv(s) && Waits(s, w)
    ensures Enabled(s, ev)
    ensures if Ahead(s) == 0 then ev == TakeWrite(w) else ev.TakeRead? || ev.Release?
  {
    assert HoldsGate(s.threads[w]);
    if Ahead(s) == 0 {
      TotalZero(s.threads, HolderN);
      TotalMono(s.threads, ReadingN, HolderN);
      TotalMono(s.threads, WriterN, HolderN);
      ev := TakeWrite(w);
    } else if s.writer {
      var t := TotalWitness(s.threads, WriterN);
      ev := Release(t);
    } else {
      var t := TotalWitness(s.threads, HolderN);
      TotalAtLeast(s.threads, WriterN, t);
      ev := if s.threads[t] == Reading then Release(t) else TakeRead(t);
    }
  }

  /** The thread that holds the gate can go on, or somebody ahead of it can. */
  lemma GateTurnComes(s: Lock) returns (ev: Event)
    requires LockInv(s) && s.gate.HeldBy?
    ensures Enabled(s, ev) && (ev.t == s.gate.t || ev.TakeRead? || ev.Release?)
  {
    var u := s.gate.t;
    assert HoldsGate(s.threads[u]);
    if s.threads[u] == WriteWaiting {
      ev := WriterTurnComes(s, u);
    } else {
      ev := if s.threads[u] == ReadGateHeld then UnlockGate(u)
            else if s.threads[u] == WriteGateHeld then SetFlag(u)
            else if s.threads[u] == WriteGot then ClearFlag(u) else UnlockWriteGate(u);
    }
  }

  /** A thread inside AcquireRead can take its next step unless another holds the gate it waits
      for, or a writer holds the lock; then that thread, or somebody ahead of it, can. */
  lemma ReaderTurnComes(s: Lock, t: nat) returns (ev: Event)
    requires LockInv(s) && t < |s.threads| && ReadRank(s.threads[t]) > 0
    ensures Enabled(s, ev)
    ensures || ev.t == t
            || (s.threads[t] == ReadGate && s.gate.HeldBy? && (ev.t == s.gate.t || ev.TakeRead? || ev.Release?))
            || (s.threads[t] == ReadPast && s.writer && HoldsWrite(s.threads[ev.t]))
  {
    if s.threads[t] == ReadStart {
      ev := TestFlag(t);
    } else if s.threads[t] == ReadGateHeld {
      ev := UnlockGate(t);
    } else if s.threads[t] == ReadGate {
      if s.gate == Open { ev := LockGate(t); } else { ev := GateTurnComes(s); }
    } else if !s.writer {
      ev := TakeRead(t);
    } else {
      var u := TotalWitness(s.threads, WriterN);
      ev := if s.threads[u] == Writing then Release(u)
            else if s.threads[u] == WriteGot then ClearFlag(u) else UnlockWriteGate(u);
    }
  }

  // ---------------------------------------------------------------- around the gate

  lemma RunPrepend(s: Lock, ev: Event, evs: seq<Event>, f: (Lock, Event) -> nat)
    requires Enabled(s, ev) && IsRun(Step(s, ev), evs)
    ensures IsRun(s, [ev] + evs) && After(s, [ev] + evs) == After(Step(s, ev), evs)
    ensures Tally(s, [ev] + evs, f) == f(s, ev) + Tally(Step(s, ev), evs, f)
  {
    assert ([ev] + evs)[1..] == evs;
  }

  /** A thread that is free to try gets the plain write lock k times while w waits. */
  lemma {:induction false} WritesAround(s: Lock, w: nat, t: nat, k: nat) returns (evs: seq<Event>)
    requires Waits(s, w) && t < |s.threads| && s.threads[t] == Out && !s.writer && s.readers == 0
    ensures IsRun(s, evs) && TakeWrite(w) !in evs && After(s, evs) == s
    ensures Tally(s, evs, FastWriteN) == k
    decreases k
  {
    evs := [];
    if k > 0 {
      var s1 := Step(s, StartWrite(t));
      var s2 := Step(s1, AttemptWrite(t));
      assert Step(s2, Release(t)) == s;
      evs := WritesAround(s, w, t, k - 1);
      RunPrepend(s2, Release(t), evs, FastWriteN);
      evs := [Release(t)] + evs;
      RunPrepend(s1, AttemptWrite(t), evs, FastWriteN);
      evs := [AttemptWrite(t)] + evs;
      RunPrepend(s, StartWrite(t), evs, FastWriteN);
      evs := [StartWrite(t)] + evs;
    }
  }

  /** And so for the read lock. */
  lemma {:induction false} ReadsAround(s: Lock, w: nat, t: nat, k: nat) returns (evs: seq<Event>)
    requires Waits(s, w) && t < |s.threads| && s.threads[t] == Out && !s.writer
    ensures IsRun(s, evs) && TakeWrite(w) !in evs && After(s, evs) == s
    ensures Tally(s, evs, FastReadN) == k
    decreases k
  {
    evs := [];
    if k > 0 {
      var s1 := Step(s, AttemptRead(t));
      assert Step(s1, Release(t)) == s;
      evs := ReadsAround(s, w, t, k - 1);
      RunPrepend(s1, Release(t), evs, FastReadN);
      evs := [Release(t)] + evs;
      RunPrepend(s, AttemptRead(t), evs, FastReadN);
      evs := [AttemptRead(t)] + evs;
    }
  }

  /** Thread w waits with the flag set, everybody else is out. */
  function OneWaits(n: nat, w: nat): Lock
    requires w < n
  {
    Lock(true, HeldBy(w), 0, false, Init(n).threads[w := WriteWaiting])
  }

  /** Thread t reads, w is in phase p, everybody else is out. */
  function OneReads(n: nat, w: nat, t: nat, p: Phase, flag: bool): Lock
    requires w < n && t < n
  {
    Lock(flag, if HoldsGate(p) then HeldBy(w) else Open, 1, false, Init(n).threads[t := Reading][w := p])
  }

  lemma AttemptFails(n: nat, w: nat, t: nat)
    requires w < n && t < n && w != t
    ensures IsStep(Init(n), AttemptRead(t), OneReads(n, w, t, Out, false))
    ensures IsStep(OneReads(n, w, t, Out, false), StartWrite(w), OneReads(n, w, t, WriteStart, false))
    ensures IsStep(OneReads(n, w, t, WriteStart, false), AttemptWrite(w), OneReads(n, w, t, WriteGate, false))
  {
  }

  lemma FlagIsSet(n: nat, w: nat, t: nat)
    requires w < n && t < n && w != t
    ensures IsStep(OneReads(n, w, t, WriteGate, false), LockWriteGate(w), OneReads(n, w, t, WriteGateHeld, false))
    ensures IsStep(OneReads(n, w, t, WriteGateHeld, false), SetFlag(w), OneReads(n, w, t, WriteWaiting, true))
    ensures IsStep(OneReads(n, w, t, WriteWaiting, true), Release(t), OneWaits(n, w))
  {
  }

  /** It comes to that if t holds a read lock when w first tries. */
  lemma OneWaitsReached(n: nat, w: nat, t: nat) returns (evs: seq<Event>)
    requires w < n && t < n && w != t
    ensures IsRun(Init(n), evs) && After(Init(n), evs) == OneWaits(n, w)
  {
    AttemptFails(n, w, t);
    FlagIsSet(n, w, t);
    evs := [];
    RunPrepend(OneReads(n, w, t, WriteWaiting, true), Release(t), evs, FastN);
    evs := [Release(t)] + evs;
    RunPrepend(OneReads(n, w, t, WriteGateHeld, false), SetFlag(w), evs, FastN);
    evs := [SetFlag(w)] + evs;
    RunPrepend(OneReads(n, w, t, WriteGate, false), LockWriteGate(w), evs, FastN);
    evs := [LockWriteGate(w)] + evs;
    RunPrepend(OneReads(n, w, t, WriteStart, false), AttemptWrite(w), evs, FastN);
    evs := [AttemptWrite(w)] + evs;
    RunPrepend(OneReads(n, w, t, Out, false), StartWrite(w), evs, FastN);
    evs := [StartWrite(w)] + evs;
    RunPrepend(Init(n), AttemptRead(t), evs, FastN);
    evs := [AttemptRead(t)] + evs;
  }

  /** No bound covers AttemptWrite: for any two threads and every k there is a run in which one
      waits with the flag set while the other's AttemptWrite wins k times. */
  lemma FastWritersBypass(n: nat, w: nat, t: nat, k: nat) returns (before: seq<Event>, evs: seq<Event>)
    requires w < n && t < n && w != t
    ensures IsRun(Init(n), before) && Waits(After(Init(n), before), w)
    ensures var s := After(Init(n), before);
            IsRun(s, evs) && TakeWrite(w) !in evs && Tally(s, evs, FastWriteN) == k
  {
    before := OneWaitsReached(n, w, t);
    evs := WritesAround(OneWaits(n, w), w, t, k);
  }

  /** Nor does it cover AttemptRead. */
  lemma FastReadersBypass(n: nat, w: nat, t: nat, k: nat) returns (before: seq<Event>, evs: seq<Event>)
    requires w < n && t < n && w != t
    ensures IsRun(Init(n), before) && Waits(After(Init(n), before), w)
    ensures var s := After(Init(n), before);
            IsRun(s, evs) && TakeWrite(w) !in evs && Tally(s, evs, FastReadN) == k
  {
    before := OneWaitsReached(n, w, t);
    evs := ReadsAround(OneWaits(n, w), w, t, k);
  }

  // ---------------------------------------------------------------- the object

  /** The mutex as an object. AcquireRead and AcquireWrite are given statement by statement,
      since other threads run in between; a blocking call is the step at which it returns. */
  class NoStarveReadWriteMutex {
    var writerWaiting: bool
    var gate: Gate
    var readers: nat
    var writer: bool
    ghost var threads: seq<Phase>

    ghost function View(): Lock
      reads this
    {
      Lock(writerWaiting, gate, readers, writer, threads)
    }

    constructor (ghost n: nat)
      ensures View() == Init(n)
    {
      writerWaiting, gate, readers, writer := false, Open, 0, false;
      threads := seq(n, i => Out);
    }

    /** AcquireRead: the test of writer_waiting_, line 166. */
    method ReadFlag(t: nat) returns (mustWait: bool)
      requires t < |threads| && threads[t] == ReadStart
      modifies this`threads
      ensures IsStep(old(View()), TestFlag(t), View())
      ensures mustWait == writerWaiting
    {
      mustWait := writerWaiting;
      threads := threads[t := if mustWait then ReadGate else ReadPast];
    }

    /** mutex_.Lock() returns, lines 167 and 179. */
    method TakeGate(t: nat, write: bool)
      requires t < |threads| && threads[t] == (if write then WriteGate else ReadGate) && gate == Open
      modifies this`gate, this`threads
      ensures IsStep(old(View()), if write then LockWriteGate(t) else LockGate(t), View())
    {
      gate := HeldBy(t);
      threads := threads[t := if write then WriteGateHeld else ReadGateHeld];
    }

    /** mutex_.Unlock(), lines 168 and 183. */
    method LeaveGate(t: nat, write: bool)
      requires t < |threads| && threads[t] == (if write then WriteCleared else ReadGateHeld)
      modifies this`gate, this`threads
      ensures IsStep(old(View()), if write then UnlockWriteGate(t) else UnlockGate(t), View())
      ensures threads[t] == if write then Writing else ReadPast
    {
      gate := Open;
      threads := threads[t := if write then Writing else ReadPast];
    }

    /** ReadWriteMutex::AcquireRead() returns, line 171. */
    method AcquireReadPlain(t: nat)
      requires t < |threads| && threads[t] == ReadPast && !writer
      modifies this`readers, this`threads
      ensures IsStep(old(View()), TakeRead(t), View())
    {
      readers := readers + 1;
      threads := threads[t := Reading];
    }

    /** AttemptRead called by itself, line 150. */
    method TryRead(t: nat) returns (acquired: bool)
      requires t < |threads| && threads[t] == Out
      modifies this`readers, this`threads
      ensures IsStep(old(View()), AttemptRead(t), View())
      ensures acquired <==> threads[t] == Reading
    {
      acquired := !writer;
      if acquired {
        readers := readers + 1;
        threads := threads[t := Reading];
      }
    }

    /** AttemptWrite called by itself, line 154: on failure the caller goes its way. */
    method TryWriteAlone(t: nat) returns (acquired: bool)
      requires t < |threads| && threads[t] == Out
      modifies this`writer, this`threads
      ensures IsStep(old(View()), TryWrite(t), View())
      ensures acquired <==> threads[t] == Writing
    {
      acquired := !writer && readers == 0;
      if acquired {
        writer := true;
        threads := threads[t := Writing];
      }
    }

    /** AcquireWrite: AttemptWrite(), lines 175-177. */
    method TryWritePlain(t: nat) returns (acquired: bool)
      requires t < |threads| && threads[t] == WriteStart
      modifies this`writer, this`threads
      ensures IsStep(old(View()), AttemptWrite(t), View())
      ensures acquired <==> !old(writer) && readers == 0
    {
      acquired := !writer && readers == 0;
      if acquired {
        writer := true;
      }
      threads := threads[t := if acquired then Writing else WriteGate];
    }

    /** writer_waiting_ = true, line 180. */
    method RaiseFlag(t: nat)
      requires t < |threads| && threads[t] == WriteGateHeld
      modifies this`writerWaiting, this`threads
      ensures IsStep(old(View()), SetFlag(t), View())
    {
      writerWaiting := true;
      threads := threads[t := WriteWaiting];
    }

    /** ReadWriteMutex::AcquireWrite() returns, line 181. */
    method AcquireWritePlain(t: nat)
      requires t < |threads| && threads[t] == WriteWaiting && !writer && readers == 0
      modifies this`writer, this`threads
      ensures IsStep(old(View()), TakeWrite(t), View())
    {
      writer := true;
      threads := threads[t := WriteGot];
    }

    /** ReadWriteMutex::Release(), line 158. */
    method Release(t: nat)
      requires t < |threads| && threads[t] in {Reading, Writing} && (writer <==> threads[t] == Writing)
      requires !writer ==> readers > 0
      modifies this`readers, this`writer, this`threads
      ensures IsStep(old(View()), Event.Release(t), View())
    {
      if writer {
        writer := false;
      } else {
        readers := readers - 1;
      }
      threads := threads[t := Out];
    }

    /** writer_waiting_ = false, line 182. */
    method LowerFlag(t: nat)
      requires t < |threads| && threads[t] == WriteGot
      modifies this`writerWaiting, this`threads
      ensures IsStep(old(View()), ClearFlag(t), View())
    {
      writerWaiting := false;
      threads := threads[t := WriteCleared];
    }
  }
}
