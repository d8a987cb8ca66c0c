# Verified model of the thread pool, its lock, its scheduler and its helpers

A Dafny model of the repository's concurrent core with proofs about every run of it.
`dafny verify dfyconfig.toml` checks the whole project.

## What is modelled

**The thread pool** (`threads/thread_manager.cc`). Workers, submitters and one controlling
thread share `mutex_`, the condition variables `monitor_` and `max_monitor_` on it, and
`worker_monitor_` with a mutex of its own. `ThreadPool` is a transition system: a `Pool` value
holds the fields of `ThreadManager::Impl`, the point every thread has reached, and histories
of pushes, departures and ended runs; an `Event` is one critical section, split at every
`Wait`. The clock, the scheduler and the choice of which waiter a signal wakes are event
arguments. Condition variables follow `pthread_cond_wait`, `pthread_cond_timedwait` and
`pthread_cond_signal` of POSIX.1-2017: a signal wakes at least one waiter if there is one,
wakeups may be spurious, and a timed wait that times out may consume a signal.
The controller's test of the counts and its `Wait` on `worker_monitor_` are two steps,
because `worker_count_` is incremented under the other mutex in between.
`ThreadManager` is the same code as a class whose methods are the critical sections; each is
proved to be one step of the transition system.

- `PoolInvariants`, `PoolLedger`, `PoolSafety`: what every run keeps under any sequential
  controller, partial removals included.
- `PoolEffects`, `PoolSubmit`: which section may change what, what each of the controller's
  sections does, how runs of tasks end, and what becomes of every Add.
- `PoolManaged`, `PoolProgress`: no lost wakeups and deadlock freedom when workers are removed
  only by the final Stop or Join.
- `PoolService`: what workers can do before a queued task leaves the queue; no starvation if
  pool threads call `Add` only once they are in `id_map_`.
- `PoolShutdown`, `PoolTermination`: Join drains, Stop freezes, both end within a bound.
- `PoolOvershoot`, `PoolRemoval`: exactly when `RemoveWorker` can lose more workers than asked
  for and never return, and when a later Stop or Join fails to remove every worker.
- `PoolWitness`, `PoolHang`: exactly when callers can bring a managed pool to a deadlock or its
  shutdown to a hang, with runs from a new manager for every limit and number of workers.

**The no-starve lock** (`threads/mutex.cc`), **the job scheduler's counter**
(`splitter/splitter_job_scheduler.h`) composed with the pool, **tick arithmetic and wait
deadlines** (`base/time_util.h`, `threads/monitor.cc`), **output names and the split loop**
(`splitter/splitter_strategy.h`).

## Findings

- `RemoveWorker(k)` can lose more workers than asked for, and then never returns, exactly when
  the lowered limit is above zero and either differs from the count or a worker is still on
  its way out. In a pool at its limit that is 0 < k < number of workers
  (`OvershootIffPartial`, `StuckForever`).
- After a returned partial removal Stop and Join can wait for ever, with no Add involved
  (`StopHangsAfterRemoval`). Called between two controller calls, with no worker inside an
  Add, a Stop or Join can overshoot or return with workers left exactly if the count is below
  the limit or a worker is on its way out (`StopFailsIff`).
- A managed pool with a pending-task limit can deadlock exactly if its callers may do one of
  three things: call `Add` with a positive timeout, call `Add` from a pool thread that
  `AddWorker` has not yet put into `id_map_`, or call `RemoveExpiredTasks` themselves
  (`DeadlockIff`). Without a limit it cannot. Only the second can leave a queued task behind
  (`StarveIff`, `NoStarvation`); the others leave submitters.
- In a managed pool, without spurious wakeups and with tasks that end, Stop and Join end
  whatever the callers do, unless a pool thread called `Add` before it was in `id_map_`; then
  they can hang (`ShutdownBounded`, `ShutdownCompletes`, `StallIff`, `HungForever`).
- A submitter asleep in Add when Stop has lowered the limit, or when the last worker leaves a
  Join, is never woken; it can be left behind by either (`SubmitterStranded`, `StopStrands`,
  `JoinStrands`).
- Join with no worker returns with its queue untouched by any worker (`JoinDrains`).
- A zero job counter means that every job has completed exactly if every `AddSplitterJob` has
  reached its count; otherwise it means that some job has not, and that does occur
  (`ZeroMeansAllDone`, `ZeroCanMislead`).
- The no-starve lock bounds `AcquireRead` only; `AttemptRead` and `AttemptWrite` go around the
  gate any number of times (`BoundedBypass`, `FastReadersBypass`, `FastWritersBypass`).
- `ToUsec` of a `timeval` is always one too large, and every odd ratio rounds up too early in
  one case (`UnitRatioIsOff`, `TicksRound`).
- `RemoveNextPending` succeeds in every state but STARTED although its message says the
  opposite; the model follows the code.

## Assumptions

- One thread at a time issues Start, AddWorker, RemoveWorker, Stop and Join; any number of
  threads call Add. A managed run removes workers only by the final Stop or Join.
- Reads and writes of `worker_count_`, `state_`, `id_map_`, `writer_waiting_` and
  `pending_job_count_` are atomic, and each critical section is one step.
- Thread ids are distinct for the life of the pool; a worker's id is its index. Fewer than
  2^64 threads are ever made.
- The pending-task limit is fixed: only `SimpleThreadManager::Start` sets it, before any Add.
- A client's own call of `RemoveExpiredTasks` is one step as well, although it takes no lock
  (`threads/thread_manager.cc:433`); calls that race with other users of the queue are not
  modelled.
- A thread factory is set, and the expire callback does not call back into the manager.
- `runnable_->Run()` is a step that ends or throws. It may call Add in between.

## Model

| member | source | states |
|---|---|---|
| ThreadPool.ExpiredPrefixIsLongest | threads/thread_manager.cc:436-455 | the expired prefix consists of expired tasks and stops at the first task that has not expired |
| PoolSafety.StepKeepsSafe | threads/thread_manager.cc:168-456 | every critical section keeps the counters, the room for started workers, both handshakes, the task ledger, the queue bound and the indexes |
| PoolSafety.RunKeepsSafe | threads/thread_manager.cc:168-456 | so does every run |
| PoolSafety.ReachedIsSafe | threads/thread_manager.cc:19-27 | hence every state reached from a new manager has all of these |
| PoolSafety.WorkerCounterAgrees | threads/thread_manager.cc:171-185 | in every run `worker_count_` is the number of workers between admission and exit; an arriving worker is always admitted and an exit never wraps the count |
| PoolInvariants.AdmitKeepsCount | threads/thread_manager.cc:173-180 | admission finds the count below the limit and keeps the counters, the room and the startup handshake |
| PoolInvariants.ExitKeepsCount | threads/thread_manager.cc:230-239 | the exit section finds a positive count and leaves no remover asleep with equal counts |
| PoolInvariants.SectionKeepsCount | threads/thread_manager.cc:190-217 | going to sleep and resuming keep `idle_count_` equal to the workers in `monitor_.Wait` |
| PoolInvariants.AddWorkersKeepsCount | threads/thread_manager.cc:256-268 | raising the limit by the number of new threads leaves room for exactly those |
| PoolInvariants.SleepersTotal | threads/thread_manager.cc:344-350 | the sleeping workers counted by phase are the waiters of `monitor_` |
| PoolSafety.ControllerWakeupsKept | threads/thread_manager.cc:280-285 | a controller asleep although the counts agree is in AddWorker, and an admitted worker still owes the notify that wakes it |
| PoolSafety.FifoConservation | threads/thread_manager.cc:401-455 | departures followed by the queue are the pushes in order; no task is pushed, run or ended twice |
| PoolSafety.DispatchedTasksRun | threads/thread_manager.cc:204-227 | a dispatched task has ended, or exactly the worker it went to is running it |
| PoolSafety.TaskStates | threads/thread_manager.cc:124-154 | a Task is WAITING exactly while undispatched and COMPLETE only after its run ended |
| PoolSafety.QueueBound | threads/thread_manager.cc:389-401 | with a nonzero limit the queue never exceeds it, in every run |
| PoolSafety.ExpiriesCounted | threads/thread_manager.cc:79-84 | reported plus unreported expiries are the expired departures |
| PoolSafety.DispatchIsUnexpired | threads/thread_manager.cc:201-210 | a worker takes the first task not expired at the section's clock sample, and all before it leave as expired |
| PoolSafety.LoadCounterSound | threads/thread_manager.cc:71-74 | `idle_count_` counts the waiting workers and never exceeds `worker_count_`; TotalTaskCount does not wrap, covers pending and executing tasks, and equals them exactly when no admitted worker is in between |
| PoolSafety.IndexesAgree | threads/thread_manager.cc:264-278 | outside AddWorker's start loop `id_map_` holds exactly the threads of `workers_`, which are the threads not gone and the dead ones not reaped |
| PoolSafety.RemovalReaps | threads/thread_manager.cc:360-367 | whenever RemoveWorker finds the counts equal, partial removals included, it returns with `dead_workers_` empty and both indexes holding exactly the threads that have not exited |
| PoolEffects.StepOwns | threads/thread_manager.cc:168-456 | every section changes only the counters, queues, indexes and threads that are its own to change |
| PoolEffects.SectionDecides | threads/thread_manager.cc:187-217 | a worker at the queue leaves exactly if superfluous, otherwise sleeps exactly if nothing is pending, otherwise runs the first unexpired task if there is one |
| PoolEffects.ControllerWokenBy | threads/thread_manager.cc:181-239 | a sleeping controller is woken exactly by a greeting or by the exit that makes the counts agree |
| PoolEffects.StartMeans | threads/thread_manager.cc:288-306 | Start wakes every sleeping worker of a new manager and does nothing later |
| PoolEffects.AddWorkerMeans | threads/thread_manager.cc:256-268 | AddWorker makes exactly the asked number of threads, enters them into `workers_` and makes room for them |
| PoolEffects.RemoveWorkerMeans | threads/thread_manager.cc:337-351 | RemoveWorker refuses a value above the limit without any change, otherwise lowers the limit by it and leaves nobody asleep |
| PoolEffects.WaitEndsOnlyEqual | threads/thread_manager.cc:280-285 | both wait loops end exactly when the counts agree |
| PoolEffects.StopMeans | threads/thread_manager.cc:308-331 | Stop and Join set their state once; called again they go to STOPPED without waiting for a worker |
| PoolEffects.ReportsOnce | threads/thread_manager.cc:79-84 | ExpiredTaskCount reports every expiry once |
| PoolEffects.RemoveNextMeans | threads/thread_manager.cc:416-431 | RemoveNextPending takes the front task, and only outside STARTED |
| PoolEffects.TaskOutcomes | threads/thread_manager.cc:135-140 | in every run the COMPLETE tasks are as many as runs returned, the EXECUTING ones as many as are running or threw |
| PoolSubmit.AddMeans | threads/thread_manager.cc:385-406 | in STARTED the expired front leaves, then Add pushes one task if there is room, waits if there is none and it may, and is refused otherwise; the task expires exactly from the clock sample plus the expiration on; in other states nothing changes |
| PoolSubmit.AddResumeMeans | threads/thread_manager.cc:393-405 | a resumed Add pushes exactly its one task if there is room, in any state, and waits on otherwise |
| PoolSubmit.CallLeaves | threads/thread_manager.cc:393-401 | a call stops waiting only by its own timeout or by pushing exactly its task |
| PoolSubmit.AddsConserved | threads/thread_manager.cc:377-406 | in every run the accepted Add calls are the pushes, the calls that wait and those that timed out |
| PoolLedger.TakeKeepsLedger | threads/thread_manager.cc:204-210 | popping dispatches the front task, finds it WAITING and starts it on this worker |
| PoolLedger.PurgeKeepsLedger | threads/thread_manager.cc:433-456 | expiring a prefix keeps order and conservation |
| PoolLedger.PushKeepsLedger | threads/thread_manager.cc:401 | a push appends and keeps conservation |
| PoolLedger.LeaveKeepsLedger | threads/thread_manager.cc:427-430 | removing the front task keeps conservation |
| PoolLedger.EndKeepsLedger | threads/thread_manager.cc:219-227 | a run that returns or throws ends its task once |
| PoolManaged.ShrinkWakesAll | threads/thread_manager.cc:342-351 | RemoveWorker's signals reach every sleeping worker, in both branches |
| PoolManaged.ShutSection | threads/thread_manager.cc:249-252 | once the limit is zero a worker is active only to drain for a Join and never sleeps again |
| PoolManaged.OpenCount | threads/thread_manager.cc:323-325 | before shutdown every worker is counted or still to be admitted, so Stop removes them all |
| PoolManaged.StepKeepsManaged | threads/thread_manager.cc:168-406 | every step of a managed lifecycle keeps the open or shut state and the work signal |
| PoolManaged.RunKeepsManaged | threads/thread_manager.cc:168-406 | so does every managed run |
| PoolProgress.NoLostWorkSignal | threads/thread_manager.cc:193-210 | while a worker sleeps un-notified, pending tasks are at most the notified workers not yet resumed |
| PoolProgress.RunKeepsSubmit | threads/thread_manager.cc:389-399 | while a submitter sleeps un-notified there is a pending task or a notified submitter |
| PoolProgress.PoolThreadsDoNotSleep | threads/thread_manager.cc:372-375 | under any controller and whatever other threads do, a pool thread that is in `id_map_` whenever it calls Add never sleeps on `max_monitor_` |
| PoolProgress.NoLimitNoWait | threads/thread_manager.cc:390-399 | without a pending-task limit nobody ever waits in Add |
| PoolProgress.DeadlockFree | threads/thread_manager.cc:187-228 | a started managed pool with a worker has an enabled step while a task is pending, if pool threads call Add only once recorded, and in careful runs also while a submitter waits: of a worker, of a notified submitter (only if no task is pending), or AddWorker's release of the monitor mutex an admitted worker needs for its notify |
| PoolService.QueuedMeansFewSteps | threads/thread_manager.cc:187-228 | while a task stays queued, workers come to the queue at most as often as there are tasks ahead of it, and end at most that many tasks beside those running, whatever else happens |
| PoolService.QueuedTaskLeaves | threads/thread_manager.cc:187-228 | in every managed run before the Stop, the p-th queued task leaves the queue, in its turn, before workers come to the queue more than p times or end more than p tasks beside those running |
| PoolService.NoStarvation | threads/thread_manager.cc:187-228 | if pool threads call Add only once recorded, a worker of a started pool has a step as long as the task is queued, so it does leave once the workers have taken that few |
| PoolWitness.DeadlockIff | threads/thread_manager.cc:372-406 | for every limit and number of workers: a run to a deadlock exists exactly if there is a limit and Add with a timeout, Add from an unrecorded pool thread, or a client's RemoveExpiredTasks is permitted |
| PoolWitness.StrictIsCareful | threads/thread_manager.cc:393-395 | if no Add has a positive timeout no timed-out submitter can swallow a signal |
| PoolWitness.LateTimeoutDeadlocks | threads/thread_manager.cc:393-395 | if timeouts are permitted, a submitter can time out as it is signalled and leave another asleep beside an empty queue and sleeping workers |
| PoolWitness.ClientPurgeDeadlocks | threads/thread_manager.cc:433-456 | if clients may call RemoveExpiredTasks, it can empty the queue and signal nobody, with the same outcome |
| PoolWitness.UnrecordedAddDeadlocks | threads/thread_manager.cc:270-278 | if tasks may call Add before their thread is in `id_map_`, all workers can end up waiting for themselves |
| PoolWitness.StarveIff | threads/thread_manager.cc:187-228 | for every limit and number of workers: a run to a deadlock with a queued task exists exactly if there is a limit and such Adds are permitted |
| PoolHang.ShutdownHangs | threads/thread_manager.cc:323-325 | then a run to a Stop or Join that waits for them exists, for every limit and number of workers |
| PoolHang.HungForever | threads/thread_manager.cc:353-358 | which no continuation without spurious wakeups ends |
| PoolHang.StallIff | threads/thread_manager.cc:308-370 | a shutdown can come to a state in which nobody can move exactly if there is a limit and such Adds are permitted |
| PoolHang.StopStrands | threads/thread_manager.cc:308-321 | for every limit and number of workers a run to a Stop that leaves a submitter asleep |
| PoolHang.JoinStrands | threads/thread_manager.cc:201-215 | and to a Join that does, after the one signal for a queue of expired tasks went to another submitter |
| PoolWitness.IdlePoolReached | threads/thread_manager.cc:256-286 | for every limit and number of workers a run within any policy brings the workers all to rest |
| PoolShutdown.JoinMarksQueue | threads/thread_manager.cc:314-321 | the tasks queued when JOINING is set are those with ids from the departures to the mark |
| PoolShutdown.JoinDrains | threads/thread_manager.cc:314-325 | when the RemoveWorker of a Join returns every worker is gone, and with at least one worker every task queued when Join was called has been run to its end, expired or removed; with none, no task was ever dispatched |
| PoolShutdown.ReapEmpties | threads/thread_manager.cc:360-367 | with all workers gone the reaping empties `workers_` and `id_map_` |
| PoolShutdown.StopEmptiesIndexes | threads/thread_manager.cc:353-369 | when the single Stop or Join has returned `workers_`, `id_map_` and `dead_workers_` are empty |
| PoolShutdown.ShutStays | threads/thread_manager.cc:327-330 | shutdown is not undone, and the state moves only to STOPPED |
| PoolShutdown.StopFreezesQueue | threads/thread_manager.cc:308-350 | after Stop has lowered the limit nothing is dispatched again, no call starts to wait, and each call that waited waits on, has pushed its one task or has timed out |
| PoolTermination.SectionWorks | threads/thread_manager.cc:187-217 | in shutdown a worker's section lowers the measure: it leaves, or takes a task off the queue |
| PoolTermination.ShutdownBounded | threads/thread_manager.cc:342-358 | in the shutdown of every managed run, without spurious wakeups, the pool's own threads take at most the measure's value of steps |
| PoolTermination.ShutdownCompletes | threads/thread_manager.cc:353-358 | if pool threads called Add only once in `id_map_`, then until the remover has returned such a step is enabled; once it has, the state is STOPPED and `worker_count_` is zero |
| PoolTermination.SubmitterStranded | threads/thread_manager.cc:393-395 | a submitter without a timeout that is asleep when Stop has lowered the limit, or when all workers have left a Join, stays asleep in every continuation without spurious wakeups |
| PoolOvershoot.PartialRemovalCanHang | threads/thread_manager.cc:333-358 | whatever the state of the pool and whatever its workers are doing, if the lowered limit is positive and below the count there is a run in which all of them leave while RemoveWorker waits |
| PoolOvershoot.StuckForever | threads/thread_manager.cc:356-358 | once the count is below the limit no continuation lets RemoveWorker return |
| PoolOvershoot.OvershootIffPartial | threads/thread_manager.cc:187-239 | between two controller calls, RemoveWorker(k) can lose more workers than asked for exactly when the lowered limit is positive and is not the count already or a worker is on its way out |
| PoolOvershoot.StopFailsIff | threads/thread_manager.cc:308-370 | a Stop or Join called between two controller calls can overshoot, or be about to return with workers left, exactly if the count is not at the limit or a worker is on its way out |
| PoolRemoval.StopHangsAfterRemoval | threads/thread_manager.cc:323-358 | for every limit, n workers and partial removal there is a run in which RemoveWorker returns and a later Stop or Join is in a wait that no continuation ends |
| ThreadManager.Impl.constructor | threads/thread_manager.cc:19-27 | a new manager is in the initial state |
| ThreadManager.Impl.RemoveExpiredTasks | threads/thread_manager.cc:433-456 | removes exactly the longest expired prefix, counts it, and calls the callback once per removed task in order |
| ThreadManager.Impl.RemoveNextPending | threads/thread_manager.cc:416-431 | as one step of the pool: refuses exactly in STARTED, finds nothing exactly on an empty queue, otherwise takes the front task |
| ThreadManager.Impl.ExpiredTaskCount | threads/thread_manager.cc:79-84 | returns the unreported expiries and resets them, as one step |
| ThreadManager.Impl.TotalTaskCount | threads/thread_manager.cc:71-74 | computes the load that LoadCounterSound is about |
| ThreadManager.Impl.AdmitWorker | threads/thread_manager.cc:173-180 | is the admission step; the flags tell whether the worker is active and owes a notify |
| ThreadManager.Impl.GreetManager | threads/thread_manager.cc:181-184 | is the step by which the last admitted worker wakes AddWorker |
| ThreadManager.Impl.EnterLoop | threads/thread_manager.cc:187-217 | is the step from the loop top to sleep, exit or a task, and returns exactly the task the worker then runs |
| ThreadManager.Impl.ResumeLoop | threads/thread_manager.cc:196-217 | is the step from the return of Wait to sleep, exit or a task, and returns exactly the task the worker then runs |
| ThreadManager.Impl.EndTask | threads/thread_manager.cc:219-227 | is the step that ends a run |
| ThreadManager.Impl.ExitWorker | threads/thread_manager.cc:230-239 | is the exit step |
| ThreadManager.Impl.AddTask | threads/thread_manager.cc:385-405 | is the step of Add up to its first wait; the outcome tells pushed, waiting, illegal state or too many, and a pushed task expires from the clock sample plus the expiration on |
| ThreadManager.Impl.ResumeAdd | threads/thread_manager.cc:393-405 | is the step of Add after a wait: pushes exactly one task if there is room, without testing the state |
| ThreadManager.Impl.StartManager | threads/thread_manager.cc:288-306 | is the step of Start, waking all waiters |
| ThreadManager.Impl.AddWorkers | threads/thread_manager.cc:256-268 | is the first section of AddWorker |
| ThreadManager.Impl.LowerLimit | threads/thread_manager.cc:337-351 | is the first section of RemoveWorker: refuses a value above the limit, otherwise lowers it and signals |
| ThreadManager.Impl.SignalEach | threads/thread_manager.cc:344-347 | n notifies in a row wake at least n waiters or all of them |
| ThreadManager.Impl.CheckAdded | threads/thread_manager.cc:280-285 | is one turn of AddWorker's wait loop |
| ThreadManager.Impl.CheckRemoved | threads/thread_manager.cc:353-369 | is one turn of RemoveWorker's wait loop; when it ends `dead_workers_` is empty and both indexes hold exactly the threads that have not exited |
| ThreadManager.Impl.EraseDead | threads/thread_manager.cc:360-367 | erases exactly the dead threads from both indexes |
| ThreadManager.Impl.StartThread | threads/thread_manager.cc:273-276 | is the step that starts the next new thread |
| ThreadManager.Impl.RecordThread | threads/thread_manager.cc:277 | is the step that enters it into `id_map_` |
| ThreadManager.Impl.AllStarted | threads/thread_manager.cc:270-278 | is the end of the start loop |
| ThreadManager.Impl.WaitForWorkers | threads/thread_manager.cc:357 | is the release of `worker_monitor_` by a waiting controller |
| ThreadManager.Impl.BeginStop | threads/thread_manager.cc:308-321 | is the first section of StopImpl |
| ThreadManager.Impl.StopArgument | threads/thread_manager.cc:324 | is the read of the count that StopImpl passes to RemoveWorker |
| ThreadManager.Impl.FinishStop | threads/thread_manager.cc:327-330 | is the final section of StopImpl |
| NoStarveLock.RunKeepsInv | threads/mutex.cc:162-184 | in every run the gate has the owner its phase says, the flag is up exactly while the gate's owner is a writer waiting or just served, and the plain lock counts its holders |
| NoStarveLock.MutualExclusion | threads/mutex.cc:104-138 | a write holder excludes every other holder |
| NoStarveLock.ReadCallAdvances | threads/mutex.cc:165-172 | a thread inside AcquireRead goes through its statements one by one, through the gate exactly if it saw the flag, and leaves only by taking the read lock |
| NoStarveLock.WriteCallAdvances | threads/mutex.cc:174-184 | a thread inside AcquireWrite gets the lock by its attempt exactly if nobody holds it, otherwise goes through the other statements one by one, and leaves only holding the write lock |
| NoStarveLock.AtGateBecause | threads/mutex.cc:165-179 | readers come to the gate only by seeing the flag, writers only after an attempt that found a holder |
| NoStarveLock.AttemptsAndReleases | threads/mutex.cc:150-160 | attempts take the lock exactly if it is free for them, and a release ends exactly one hold |
| NoStarveLock.ReaderTurnComes | threads/mutex.cc:165-172 | a reader can take its next step unless another holds the gate or a writer the lock, and then that thread or somebody ahead of it can |
| NoStarveLock.NobodyPasses | threads/mutex.cc:165-184 | while a writer waits with the flag set no reader passes the gate |
| NoStarveLock.BoundedBypass | threads/mutex.cc:165-184 | over any run in which the writer waits, read acquisitions by any path are exactly the shrinkage of the set past the gate plus the successful AttemptReads |
| NoStarveLock.WriterBypassBound | threads/mutex.cc:179-181 | so, successful AttemptReads apart, at most the readers past the gate when the flag was set |
| NoStarveLock.WriterTurnBound | threads/mutex.cc:179-183 | over any run in which the writer waits, acquisitions past the gate and releases are exactly what was ahead and no longer is, plus one per successful attempt around the gate |
| NoStarveLock.WriterTurnComes | threads/mutex.cc:179-183 | until then such a turn is enabled, and with none left the writer acquires |
| NoStarveLock.FastWritersBypass | threads/mutex.cc:174-177 | for any two threads and every k there is a run from the start in which one waits with the flag set while the other's AttemptWrite wins k times |
| NoStarveLock.FastReadersBypass | threads/mutex.cc:150-152 | and one in which AttemptRead does |
| NoStarveLock.NoStarveReadWriteMutex.ReadFlag | threads/mutex.cc:166 | is the reader's test of the flag |
| NoStarveLock.NoStarveReadWriteMutex.TakeGate | threads/mutex.cc:167 | is the gate being locked by a reader or a writer |
| NoStarveLock.NoStarveReadWriteMutex.LeaveGate | threads/mutex.cc:168 | is the gate being unlocked |
| NoStarveLock.NoStarveReadWriteMutex.AcquireReadPlain | threads/mutex.cc:171 | is the read acquisition |
| NoStarveLock.NoStarveReadWriteMutex.TryWritePlain | threads/mutex.cc:175-177 | is the fast path, succeeding exactly when nobody holds the lock |
| NoStarveLock.NoStarveReadWriteMutex.TryRead | threads/mutex.cc:150-152 | is AttemptRead called by itself |
| NoStarveLock.NoStarveReadWriteMutex.TryWriteAlone | threads/mutex.cc:154-156 | is AttemptWrite called by itself, after which a refused caller is out again |
| NoStarveLock.NoStarveReadWriteMutex.RaiseFlag | threads/mutex.cc:180 | is the flag being set |
| NoStarveLock.NoStarveReadWriteMutex.AcquireWritePlain | threads/mutex.cc:181 | is the slow-path write acquisition |
| NoStarveLock.NoStarveReadWriteMutex.LowerFlag | threads/mutex.cc:182 | is the flag being cleared |
| NoStarveLock.NoStarveReadWriteMutex.Release | threads/mutex.cc:158-160 | is the release of either kind of hold |
| JobScheduler.DoneKeepsOnce | splitter/splitter_job_scheduler.h:62-72 | the pool's exactly-once dispatch keeps a job from completing twice |
| JobScheduler.CounterIsDifference | splitter/splitter_job_scheduler.h:124-147 | in every interleaving the counter is increments minus completions modulo 2^64, and completed jobs are distinct submitted jobs |
| JobScheduler.ZeroMeansAllDone | splitter/splitter_job_scheduler.h:149-156 | in every run with fewer than 2^64 jobs: if every Add is counted the counter is zero exactly when every submitted job has completed; and if the counter is zero, every job has completed exactly when every Add is counted |
| JobScheduler.ZeroCanMislead | splitter/splitter_job_scheduler.h:124-133 | for every limit there is a run from a new scheduler to a zero counter with a job outstanding |
| JobScheduler.ObservableSplitterJob.RegisterObserver | splitter/splitter_job_scheduler.h:43-50 | appends the observer unless an entry locks to the same pointer, so a live observer is listed once |
| JobScheduler.ObservableSplitterJob.NotifyAllObservers | splitter/splitter_job_scheduler.h:62-67 | calls every listed observer once, in order |
| JobScheduler.SplitterJobScheduler.CountJob | splitter/splitter_job_scheduler.h:128-132 | is the count step of the composed system, in size_t arithmetic |
| JobScheduler.SplitterJobScheduler.OnCompletedJob | splitter/splitter_job_scheduler.h:135-143 | is the completion step, even if it precedes the job's count |
| TimeUtil.ToTicks | base/time_util.h:35-44 | computes the tick function the lemmas below are about |
| TimeUtil.TicksRound | base/time_util.h:35-44 | for an exact ratio the result is the total rounded half up, plus one exactly when the ratio is odd and the remainder is its half rounded down |
| TimeUtil.TicksAreQuotient | base/time_util.h:35-44 | for an exact ratio it is the total plus half the ratio rounded up, divided by the ratio and rounded down |
| TimeUtil.TicksMonotone | base/time_util.h:35-44 | for every exact ratio it is monotone in seconds and fraction, compared lexicographically |
| TimeUtil.TicksScaleUp | base/time_util.h:35-44 | to a finer unit the conversion is exact |
| TimeUtil.UnitRatioIsOff | base/time_util.h:72-74 | ToUsec of a timeval is exactly one too large |
| TimeUtil.MillisecondsRoundTrip | base/time_util.h:25-66 | ToMilliseconds inverts ToTimespec and ToTimeval, for negative values too |
| TimeUtil.ToTimespecNanos | base/time_util.h:25-28 | a timespec holds exactly the given milliseconds, whole seconds apart, both parts with their sign |
| TimeUtil.ToTimevalMicros | base/time_util.h:30-33 | a timeval holds exactly the given milliseconds, whole seconds apart, both parts with their sign |
| TimeUtil.WaitDeadline | threads/monitor.cc:41-48 | waits forever for timeout zero, otherwise until the deadline the next lemma is about |
| TimeUtil.DeadlineBound | threads/monitor.cc:45-47 | the deadline is the whole millisecond nearest to sample plus timeout, and after the sample exactly for timeouts of at least one millisecond |
| SplitterStrategy.CanonicalIntRoundTrip | splitter/splitter_strategy.h:18 | every canonical spelling of an integer, without leading zeros, is what the printer gives for its value |
| SplitterStrategy.ToStringCanonical | splitter/splitter_strategy.h:18 | and the printer gives canonical spellings only |
| SplitterStrategy.NameRoundTrip | splitter/splitter_strategy.h:15-19 | path and index are recovered from the name, for every path, index and suffix |
| SplitterStrategy.NameUnique | splitter/splitter_strategy.h:15-19 | the name is the path, an underscore, the canonical spelling of the index and the suffix |
| SplitterStrategy.NameInjective | splitter/splitter_strategy.h:15-19 | different paths or indexes give different names |
| SplitterStrategy.Split | splitter/splitter_strategy.h:32-53 | true exactly if there are sections and all succeed; appends one entry per section up to and including the first failure |
| SplitterStrategy.SplitFresh | splitter/splitter_strategy.h:32-53 | from an empty list: true exactly for a nonempty all-OK list with one entry per section; otherwise OK entries and then one ERROR, or nothing; names in order and distinct |

## Left out

- Two controllers at once (AddWorker racing Stop, two stop callers).
- Add's timed acquisition of `mutex_`: a failure throws and changes nothing.
- `SetPendingTaskCountMax` while the pool works, the getters, `ThreadManager::Remove` (it removes nothing).
- The text of exceptions and logging.
- Reuse of thread ids by the operating system after a partial removal.
- Overflow of `int64_t` in tick arithmetic, and of counters of tasks.
- `UnRegisterObserver`: it continues from an erased iterator and has no defined behaviour.
- Liveness of `WaitAllJobDone`: it waits without holding the monitor's mutex.
- The Epub splitter itself: an oracle giving a section count and one success flag per section.
- `net/`, the pthread wrappers, thread creation, `SimpleThreadFactory`.
- PoolShutdown.JoinDrains: a task taken by `RemoveNextPending` while joining counts as settled, because the code allows that call then.
- PoolWitness.ClientPurgeDeadlocks: takes a client's call of `RemoveExpiredTasks`, which holds no lock, as one step.
