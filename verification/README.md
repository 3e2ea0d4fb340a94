# Verified model of the concurrency library

A Dafny model of the concurrency library in `lib_shared`: the blocking `queue`, the multi-queue
`rr_scheduler`, the `thread_pool` that runs it, `latch`, and the future/promise and
sender/receiver chain on top. `dafny verify dfyconfig.toml` checks the project.

## How the model is built

Everything that several threads do at once is a step machine: a state, a type of events that
carries every choice the environment has (which thread moves, whether a try-lock fails, whom a
notification wakes, whether a wakeup is spurious), a predicate `Enabled` and a function `Next`. A
run is any sequence of enabled events, so a lemma about all runs is a lemma about all
interleavings of any number of threads. A region under a mutex is one step; a notification after
the unlock is a later step; a compare-exchange and the write that follows it are two steps.

The machines are composed: each queue inside `Pool` takes only steps of `Monitor`
(`PoolRefinesQueues`), the shared state inside `Lifecycle` and inside `FutureWait` takes only steps
of `SharedState` (`LifeRefinesCell`, `RoomRefinesCell`), and `EndToEnd` puts one `Pool` and any
number of lives together (`SystemRefinesPool`, `SystemRefinesLife`), so theorems about the part
carry over to the whole.

The classes (`Queue`, `Scheduler`, `ThreadPool.Pool`, `State`, `Counter`, `Callback`) are the
imperative form. Methods of `Queue` are single steps of its machine. A call of `Scheduler` or
`ThreadPool.Pool` runs undisturbed by other threads, with the outcome of each try-lock as an
argument; `Solo` proves that for all these outcomes there is a run of
the `Pool` machine by this thread alone, whose try-locks have just these outcomes, with the same result.

| file | content |
|---|---|
| `Tickets.dfy` | 32-bit ticket arithmetic: which queue a probe looks at |
| `Monitor.dfy`, `BlockingQueue.dfy` | the queue as a machine and as an object |
| `Pool.dfy` | workers, clients and N queues as one machine |
| `PoolInvariant.dfy` | its invariant; no stranded task, no deadlock over queued tasks |
| `PoolConservation.dfy` | no task lost or duplicated; FIFO per queue |
| `PoolProgress.dfy` | what bounds the steps of the pool; a pool at rest has run everything |
| `PoolShutdown.dfy`, `AfterClear.dfy` | after `clear` every worker loop ends; what can still run until then |
| `Dealing.dfy`, `RoundRobin.dfy`, `ThreadPool.dfy` | undisturbed calls of the scheduler and the worker loop |
| `Solo.dfy`, `ProbeLoop.dfy` | undisturbed calls are runs of the machine; when `schedule` falls back to the blocking push |
| `SharedState.dfy`, `FutureWait.dfy` | the write-once cell behind promise and future, and waiting for it |
| `Pipeline.dfy` | senders, receivers and the meaning of a chain |
| `Lifecycle.dfy` | one future: ownership of the promise, cancellation, outcome |
| `EndToEnd.dfy`, `Resolution.dfy` | the futures of a pool: every one has its outcome when the pool is destroyed |
| `Latch.dfy`, `CallbackReceiver.dfy` | the latch and the callback receiver |
| `Counting.dfy`, `Wrappers.dfy` | finite sums and sets, options |

## Findings

Places where a natural expectation fails, each with a concrete run and the exact condition:

- Probing wraps at 2^32 before it is reduced modulo the queue count. It visits every queue equally
  often if and only if no wrap falls into the round, or the wrap falls between whole rounds, or
  the count divides 2^32 (`ProbingIsRotationIff`; `RotationFails` has three queues and the last
  ticket). A worker whose round is no rotation misses a queue (`WithoutRotationOneIsMissed`).
  Dealing stays balanced for ever if and only if the count divides 2^32 (`BalancedForeverIff`; one
  call after the wrap, `UnevenAfterWrap`).
- The probe counter of `schedule` is a 32-bit number compared with four times the queue count, so
  a call whose probes all fail falls back to the blocking push if and only if that number fits 32
  bits, and with 2^30 queues or more it can probe for ever (`FallsBackIff`, `NoFallback`;
  `EndlessProbing` has the run).
- `clear` does not stop work: later pushes are accepted and `try_pop` ignores the cancellation
  (`WorkAfterClearCanRun`). From a shut pool with a caller that may schedule, some run starts a task
  if and only if some worker has not started, is probing or is running a task; a worker that is past
  its probes takes nothing any more, though it has not exited yet (`WorkAfterClearIff`).
- `shared_state` publishes its tag before its data, so `get` can throw `bad_variant_access`,
  exactly while the winner is between the two (`TornGet`, `FirstCallWins`).
- `latch` notifies without the mutex, so a wakeup can be lost, exactly if a waiter stands between
  its predicate and its sleep (`WakeupCanBeLost`, `LastNotifyIsLostIff`). More arrivals than
  expected wrap the counter (`OverArrivalWraps`); it is what remains to arrive if and only if no
  more arrived than expected, and zero if and only if the two differ by a multiple of 2^64
  (`CounterIsExactIff`).
- `shared_state` notifies without the mutex too, and one waiter only. A waiter can be left asleep
  with the outcome there if and only if, when the winner notifies, a waiter stands between its
  predicate and its sleep, or sleeps and is not the one that is woken (`NotifyIsNotEnoughIff`;
  `TwoWaitersOneWakeup` has the run).
- `callback_receiver::is_canceled` compares against the failed state and for difference; it is
  right only for a cancelled or a failed receiver (`ReportsCanceledIsRightIff`), so a scheduled
  callback receiver is never completed (`Callback.RunTask`).

## Model

| member | source | states |
|---|---|---|
| `Monitor.RunKeepsInv` | lib_shared/inc/jar/concurrency/queue.hpp:36-92 | no lost wakeup: in every interleaving of any number of pushers, poppers and clearers, with spurious wakeups, while somebody sleeps the items of a live queue are at most the pending notify_one calls plus the woken poppers, and on a cancelled queue a notify_all is pending |
| `Monitor.SleepersMeanEmpty` | lib_shared/inc/jar/concurrency/queue.hpp:36-92 | in every reachable state, a sleeper with nobody woken and nothing left to notify means an empty queue that is not cancelled |
| `Monitor.CancelledNeverSleeps` | lib_shared/inc/jar/concurrency/queue.hpp:36-50 | once cancelled and notified, no run ever puts a popper to sleep again |
| `Monitor.RunIsFifo` | lib_shared/inc/jar/concurrency/queue.hpp:36-100 | from any state and for any mix of try and blocking operations without a clear: container followed by appends equals deliveries followed by the final container, in order |
| `Monitor.PopAnswers` | lib_shared/inc/jar/concurrency/queue.hpp:36-50 | after any run a blocking pop returns nothing iff something was cleared, sleeps iff nothing was and the container is empty, and otherwise hands out the front; it never takes from an empty container |
| `Monitor.SplitTestIsWaitLoop` | lib_shared/inc/jar/concurrency/queue.hpp:38-43 | the test in front of the wait is equivalent to the plain wait loop, and the thread sleeps iff the predicate is false |
| `Monitor.NotifyOneWakesOne` | lib_shared/inc/jar/concurrency/queue.hpp:68-68 | a notify_one wakes exactly one sleeper if there is one, and changes nothing else |
| `Monitor.NotifyAllWakesAll` | lib_shared/inc/jar/concurrency/queue.hpp:91-91 | a notify_all wakes every sleeper and nobody else |
| `BlockingQueue.Queue.Pop` | lib_shared/inc/jar/concurrency/queue.hpp:36-50 | the object's pop up to its return or first sleep is the machine's step and outcome |
| `BlockingQueue.Queue.Resume` | lib_shared/inc/jar/concurrency/queue.hpp:40-49 | the part after a wakeup is the machine's recheck |
| `BlockingQueue.Queue.TryPop` | lib_shared/inc/jar/concurrency/queue.hpp:52-60 | try_pop is the machine's step for either outcome of the lock |
| `BlockingQueue.Queue.Push` | lib_shared/inc/jar/concurrency/queue.hpp:62-69 | push up to its notification is the machine's step |
| `BlockingQueue.Queue.TryPush` | lib_shared/inc/jar/concurrency/queue.hpp:71-82 | try_push up to its notification is the machine's step and succeeds iff the lock was taken |
| `BlockingQueue.Queue.NotifyOne` | lib_shared/inc/jar/concurrency/queue.hpp:68-68 | notify_one wakes one sleeper, whichever, if there is one |
| `BlockingQueue.Queue.Clear` | lib_shared/inc/jar/concurrency/queue.hpp:84-90 | clear up to its notification is the machine's step |
| `BlockingQueue.Queue.NotifyAll` | lib_shared/inc/jar/concurrency/queue.hpp:91-91 | notify_all wakes every sleeper |
| `Tickets.ProbingIsRotationIff` | lib_shared/src/jar/concurrency/rr_scheduler.cpp:36-37 | rounds times N probes visit every queue exactly that many times, if and only if the ticket does not wrap on the way, or wraps after whole rounds, or N divides 2^32 |
| `Tickets.SingleRoundIff` | lib_shared/src/jar/concurrency/rr_scheduler.cpp:36-43 | the N probes of scheduled visit each queue exactly once iff there is no wrap or N divides 2^32 |
| `Tickets.BalancedForeverIff` | lib_shared/src/jar/concurrency/rr_scheduler.cpp:53-62 | up to 2^32 uncontended schedule calls keep any two queue sizes within one; any number of calls does iff N divides 2^32 |
| `Tickets.RotationFails` | lib_shared/src/jar/concurrency/rr_scheduler.cpp:36-37 | twelve probes of three queues from the last ticket on visit them five, four and three times |
| `Tickets.ProbesAreConsecutive` | lib_shared/src/jar/concurrency/rr_scheduler.cpp:36-37 | as long as the ticket has not wrapped, or if N divides 2^32, probe n looks at the n-th queue after the home queue around the ring |
| `ProbeLoop.FallsBackIff` | lib_shared/src/jar/concurrency/rr_scheduler.cpp:53-65 | for every state and every schedule call in progress: it reaches its blocking push after finitely many failed probes iff 4N is below 2^32, and its probes can fail for ever iff it is not |
| `ProbeLoop.NoFallback` | lib_shared/src/jar/concurrency/rr_scheduler.cpp:53-65 | with 4N at 2^32 or more no run of the pool contains a blocking push |
| `ProbeLoop.EndlessProbing` | lib_shared/src/jar/concurrency/rr_scheduler.cpp:57-62 | on a fresh pool of 2^30 queues a call makes any number of failed probes |
| `PoolInvariant.StepKeepsInv` | lib_shared/inc/jar/concurrency/thread_pool.hpp:68-91 | every step of every thread keeps the books: program points agree with wait sets and pending notifications, tickets are distinct and counted, every queue keeps its wakeup cover, cleared queues stay cleared |
| `PoolInvariant.HomesAreABijection` | lib_shared/src/jar/concurrency/rr_scheduler.cpp:33-43 | when all N workers hold tickets, every queue is the home of exactly one worker |
| `PoolInvariant.NoStrandedTask` | lib_shared/src/jar/concurrency/rr_scheduler.cpp:31-44 | in every reachable state of a pool of any size, if all workers sleep and no notification is pending then every queue is empty and none is cancelled |
| `PoolInvariant.QueuedTaskIsNeverStuck` | lib_shared/inc/jar/concurrency/thread_pool.hpp:68-80 | in every reachable state without a clear and with a queued task, a worker can move or a notification can be sent |
| `PoolInvariant.ExitOnlyAfterClear` | lib_shared/inc/jar/concurrency/thread_pool.hpp:68-80 | a worker loop ends only after some queue was cleared |
| `PoolInvariant.SleeperMayWake` | lib_shared/inc/jar/concurrency/queue.hpp:38-43 | in every reachable state a sleeping worker may wake spuriously, and is then awake |
| `PoolConservation.EachCallEnqueuesOnce` | lib_shared/src/jar/concurrency/rr_scheduler.cpp:53-65 | over every run each schedule call puts its task into a queue exactly once or still holds it, whichever probes fail |
| `PoolConservation.EachTaskLeavesOnce` | lib_shared/inc/jar/concurrency/queue.hpp:36-100 | every enqueued task is queued, handed to a worker, or dropped by clear, exactly once |
| `PoolConservation.Conservation` | lib_shared/src/jar/concurrency/rr_scheduler.cpp:31-65 | the multiset of scheduled tasks equals held plus queued plus delivered plus dropped, over every run of a fresh pool |
| `PoolConservation.PoolRefinesQueues` | lib_shared/inc/jar/concurrency/rr_scheduler.hpp:70-76 | a run of the pool seen from one queue is a run of the queue machine |
| `PoolConservation.EachQueueIsFifo` | lib_shared/inc/jar/concurrency/queue.hpp:36-82 | each queue of the pool delivers in append order until something is cleared |
| `PoolConservation.OneQueueIsFifo` | lib_shared/src/jar/concurrency/rr_scheduler.cpp:31-65 | with one queue, workers start tasks in the order in which they were enqueued |
| `PoolProgress.InnerStepsAreBounded` | lib_shared/inc/jar/concurrency/thread_pool.hpp:68-80 | over every run of every pool, with or without clears, the steps of workers and the notifications taken and still possible are at most the measure at the start plus a cost per call and spurious wakeup |
| `PoolProgress.EveryRunIsBounded` | lib_shared/src/jar/concurrency/rr_scheduler.cpp:31-65 | if the probe loop can end, the length of every run is at most a measure of its start plus a price per call and spurious wakeup: no livelock |
| `PoolProgress.RestMeansStuck` | lib_shared/inc/jar/concurrency/thread_pool.hpp:68-80 | every worker sleeps or has exited and no notification is due, iff no step of the pool itself is enabled |
| `PoolProgress.ComesToRest` | lib_shared/inc/jar/concurrency/thread_pool.hpp:68-80 | from every state the pool alone comes to rest, within as many steps as the measure says |
| `PoolProgress.RestHasRunEverything` | lib_shared/src/jar/concurrency/rr_scheduler.cpp:31-65 | in every run without a clear, a pool at rest has empty queues, and the tasks scheduled are exactly the tasks run and those still in the hands of callers |
| `PoolProgress.EveryTaskGetsRun` | lib_shared/src/jar/concurrency/rr_scheduler.cpp:31-65 | every run without a clear can be continued by steps of the pool alone to such a state |
| `PoolShutdown.ClearReturnsShut` | lib_shared/src/jar/concurrency/rr_scheduler.cpp:46-51 | a call of clear has returned only if all queues are cancelled and nobody sleeps, whatever the other threads do meanwhile |
| `PoolShutdown.JoinReturns` | lib_shared/inc/jar/concurrency/thread_pool.hpp:82-91 | take any run of a pool of any size, any thread that then calls clear, any interleaving until that call returns, and any continuation: the worker steps in it are bounded by a measure at the return of clear plus a cost per further call; a worker that has not exited is awake and can move; and from its end steps of workers alone, no more than the measure still allows, make all workers exit |
| `PoolShutdown.WorkAfterClearCanRun` | lib_shared/inc/jar/concurrency/queue.hpp:52-69 | a concrete run in which a task scheduled after clear is accepted and run |
| `AfterClear.WorkAfterClearIff` | lib_shared/inc/jar/concurrency/queue.hpp:36-69 | from every shut state with an idle caller, some run starts a task iff some worker has not started, is probing, or is running a task |
| `RoundRobin.MakeScheduler` | lib_shared/src/jar/concurrency/rr_scheduler.cpp:23-29 | building a scheduler fails iff the queue count is zero, and otherwise gives that many fresh queues |
| `RoundRobin.Scheduler.constructor` | lib_shared/src/jar/concurrency/rr_scheduler.cpp:23-29 | distinct fresh queues and both indices at zero |
| `RoundRobin.Scheduler.Schedule` | lib_shared/src/jar/concurrency/rr_scheduler.cpp:53-65 | exactly one queue grows, by the task at its end: that of the first probe that got its lock, or the ticket's own when all 4N fail; for every outcome of the try-locks with which the call returns |
| `RoundRobin.Scheduler.Scheduled` | lib_shared/src/jar/concurrency/rr_scheduler.cpp:31-44 | the front of the first queue that got its lock and is not empty, in probe order; only if there is none, the blocking pop on the home queue |
| `RoundRobin.Scheduler.Clear` | lib_shared/src/jar/concurrency/rr_scheduler.cpp:46-51 | every queue is empty and cancelled and its sleepers are woken |
| `Dealing.RotationDrainsAll` | lib_shared/src/jar/concurrency/rr_scheduler.cpp:36-43 | if probing is a rotation, a worker drains every queue whole, in the order home, home+1, ... modulo N, and leaves nothing |
| `Dealing.WithoutRotationOneIsMissed` | lib_shared/src/jar/concurrency/rr_scheduler.cpp:36-43 | if it is not, there is a queue whose only task a worker with this ticket never takes |
| `Dealing.DealtByResidue` | lib_shared/src/jar/concurrency/rr_scheduler.cpp:57-62 | queue i receives exactly the tasks whose number is congruent to i, in order |
| `Dealing.DealtLength` | lib_shared/src/jar/concurrency/rr_scheduler.cpp:57-62 | the number of tasks dealt to a queue is the number of tickets that visit it |
| `Dealing.FreshDeal` | lib_shared/src/jar/concurrency/rr_scheduler.cpp:53-62 | a fresh scheduler deals the residue classes, with sizes within one of each other, up to 2^32 calls or if N divides 2^32 |
| `ThreadPool.Pool.constructor` | lib_shared/inc/jar/concurrency/thread_pool.hpp:32-36 | at least one thread, and as many fresh queues as threads; the machine of a pool with this thread count starts in the state of this object: its queues, a worker that has not started for each, both indices, and its callers idle |
| `ThreadPool.Pool.Run` | lib_shared/inc/jar/concurrency/thread_pool.hpp:68-80 | an undisturbed worker runs exactly the tasks its probes reach, each once, in drain order, and stops only when they are gone: it ends if its home is cancelled and sleeps otherwise; if its round is a rotation it runs all tasks, queue by queue from its home around the ring, and leaves every queue empty |
| `ThreadPool.Pool.ScheduleAll` | lib_shared/src/jar/concurrency/rr_scheduler.cpp:53-62 | a series of uncontended schedule calls appends to each queue exactly its deal |
| `ThreadPool.Deal` | lib_shared/src/jar/concurrency/rr_scheduler.cpp:53-62 | tasks scheduled into a fresh pool: queue i holds exactly those whose number is congruent to i, in order, and no queue is ahead of another by more than one |
| `Solo.SoloSchedule` | lib_shared/src/jar/concurrency/rr_scheduler.cpp:53-65 | for every outcome of the try-locks with which a schedule call returns, the machine has a run of this caller only whose probes have exactly these outcomes, up to the first lock, and which ends with the contents that the method states |
| `Solo.SoloClear` | lib_shared/src/jar/concurrency/rr_scheduler.cpp:46-51 | in the machine a clear call that runs alone ends as the method does: every queue empty and cancelled with its sleepers woken, and nothing else changed |
| `Solo.SoloScheduled` | lib_shared/src/jar/concurrency/rr_scheduler.cpp:31-44 | the same for scheduled: a run of this worker only, whose probes have exactly the outcomes given, up to the first that gets its lock and finds a task |
| `Solo.SoloDrain` | lib_shared/inc/jar/concurrency/thread_pool.hpp:68-80 | in the machine there is a run of this worker only, in which it gets every lock, that starts exactly the tasks of the drain, in order, and after which it has exited if its home queue is cancelled and sleeps there otherwise |
| `Solo.SoloFirstScheduled` | lib_shared/src/jar/concurrency/rr_scheduler.cpp:31-44 | the same for the first scheduled of a worker: it draws the pop index as its ticket, advances it, and makes its probes from the home queue of that ticket on |
| `Solo.SoloRun` | lib_shared/inc/jar/concurrency/thread_pool.hpp:68-80 | from its start on, a worker that runs alone and gets every lock starts exactly the tasks of the drain of the pop index it draws, and exits or sleeps at that home queue |
| `SharedState.FirstCallWins` | lib_shared/inc/jar/concurrency/future.hpp:98-149 | over every interleaving of any number of setters: the tag is that of the first call to exchange, data is written at most once and only by it, and get reports exactly that call iff its winner is not between exchange and write |
| `SharedState.TagIsStable` | lib_shared/inc/jar/concurrency/future.hpp:116-149 | the tag leaves init at most once |
| `SharedState.TornGet` | lib_shared/inc/jar/concurrency/future.hpp:102-120 | a concrete run in which get finds the wrong variant |
| `SharedState.CallIsItsOwnRun` | lib_shared/inc/jar/concurrency/future.hpp:116-149 | an uninterrupted call is the run of its own steps |
| `SharedState.State.SetValue` | lib_shared/inc/jar/concurrency/future.hpp:116-123 | sets value and tag iff the state was initial |
| `SharedState.State.SetException` | lib_shared/inc/jar/concurrency/future.hpp:125-132 | sets exception and tag iff the state was initial |
| `SharedState.State.Cancel` | lib_shared/inc/jar/concurrency/future.hpp:134-141 | sets the empty result and tag iff the state was initial |
| `SharedState.State.Broken` | lib_shared/inc/jar/concurrency/future.hpp:143-149 | sets only the tag, iff the state was initial |
| `FutureWait.WaitReturnsOnlyWhenReady` | lib_shared/inc/jar/concurrency/future.hpp:86-114 | over every interleaving of any number of waiters and setters, wait returns only after some call has won; from then on the tag is the winner's, and get reports its outcome iff it is not between exchange and write |
| `FutureWait.WaitReturnsIff` | lib_shared/inc/jar/concurrency/future.hpp:86-96 | each look of wait at the tag returns iff the tag is no longer init |
| `FutureWait.WaitersGetOut` | lib_shared/inc/jar/concurrency/future.hpp:86-96 | from every reachable state with an outcome, steps of the threads awake inside wait bring each of them out of it, but for one between its predicate and its sleep, and leave the mutex free |
| `FutureWait.WaitStepByStep` | lib_shared/inc/jar/concurrency/future.hpp:86-96 | whoever moves, a thread leaves wait only when there is an outcome, falls asleep only from a false predicate and giving back the mutex, and is woken only by a notification that picks it or spuriously |
| `FutureWait.NobodyIsBlocked` | lib_shared/inc/jar/concurrency/future.hpp:86-96 | in every reachable state a thread awake inside wait can take its next step, or waits for the mutex and its holder can |
| `FutureWait.NotifyWakesOne` | lib_shared/inc/jar/concurrency/future.hpp:116-149 | a notification wakes one waiter if any sleeps, and no other |
| `FutureWait.NotifyIsNotEnoughIff` | lib_shared/inc/jar/concurrency/future.hpp:86-149 | in every reachable state in which the winner is about to notify, some continuation leaves a waiter asleep with nobody left to notify iff a waiter stood between predicate and sleep, or slept and was not the one woken |
| `FutureWait.StrandedSleepsOn` | lib_shared/inc/jar/concurrency/future.hpp:86-149 | such a waiter sleeps through every continuation without a spurious wakeup of its own |
| `FutureWait.TwoWaitersOneWakeup` | lib_shared/inc/jar/concurrency/future.hpp:86-123 | a concrete run from a fresh state in which two threads wait and one is never woken |
| `FutureWait.RoomRefinesCell` | lib_shared/inc/jar/concurrency/future.hpp:86-149 | the shared state under waiters only takes steps of its own machine |
| `Pipeline.ConnectPreservesMeaning` | lib_shared/inc/jar/concurrency/details/sender_adapter.hpp:91-95 | for every chain and every receiver, completing the connected nest equals the meaning of the chain followed by that receiver |
| `Pipeline.ChainIsFold` | lib_shared/inc/jar/concurrency/details/sender_adapter.hpp:38-50 | the meaning of f1..fn is the left-to-right fold up to the first throw: each step gets the very value that the one before returned, or nothing if that returned void; the outcome is what the last returned or exactly the exception thrown, and no later step runs |
| `Pipeline.Complete` | lib_shared/inc/jar/concurrency/details/sender_adapter.hpp:38-48 | completing a nest sets the value it computes, or throws and leaves the shared state untouched; what it computes is the fold of the bodies of its steps, by `ConnectPreservesMeaning` and `ChainIsFold` |
| `Pipeline.Fail` | lib_shared/inc/jar/concurrency/details/sender_adapter.hpp:50-50 | the exception reaches the shared state at the end of the nest |
| `Pipeline.Cancel` | lib_shared/inc/jar/concurrency/details/sender_adapter.hpp:52-52 | the cancel reaches the shared state at the end of the nest |
| `Pipeline.IsCanceled` | lib_shared/inc/jar/concurrency/details/sender_adapter.hpp:54-54 | answers for the shared state at the end of the nest |
| `Pipeline.RunTask` | lib_shared/inc/jar/concurrency/schedule.hpp:41-52 | a cancelled receiver is left alone; otherwise the flow of the nest is set, as a value or as the caught exception |
| `Pipeline.WaitThenRun` | lib_shared/inc/jar/concurrency/wait.hpp:27-38 | get on the future of a chain whose task is run reports what the last step returned or the first exception thrown, each step having got what the one before returned, with exactly these steps run in order; cancelled first, it reports that and nothing runs |
| `Lifecycle.EveryFutureGetsAnOutcome` | lib_shared/inc/jar/concurrency/details/value_receiver.hpp:30-61 | a task that has run never leaves the state init; the promise is only broken for a task that never reached a worker; once wait has returned and the task is discarded no copy of the receiver is left, nothing has run, and when the destructor is through the promise is broken unless a cancel came first |
| `Lifecycle.FinalReport` | lib_shared/inc/jar/concurrency/future.hpp:98-149 | a future whose task has returned reports the fold of the bodies of its steps, value or first exception, or the cancel; one whose task was discarded reports the broken promise or the cancel |
| `Lifecycle.CopiesAreCounted` | lib_shared/inc/jar/concurrency/details/value_receiver.hpp:36-41 | over every run a frame has a copy of the receiver exactly from its copy to its drop |
| `Lifecycle.PromiseIsDestroyed` | lib_shared/inc/jar/concurrency/future.hpp:212-217 | from every reachable state in which the task is over or was never queued, dropping the copies that frames still hold and the destructor alone give the future its outcome |
| `Lifecycle.FutureReportsFirst` | lib_shared/inc/jar/concurrency/future.hpp:98-149 | in every interleaving the first of cancel, settle and break decides the tag and, outside the write of the winner, what the future reports, and a settle reports the meaning of the chain |
| `Lifecycle.CancelVersusCheck` | lib_shared/inc/jar/concurrency/schedule.hpp:43-51 | a cancel before the task's test means no step ever runs; otherwise the steps run are those of the uncancelled chain, all of them once it settles |
| `Lifecycle.CancelVersusSettle` | lib_shared/inc/jar/concurrency/future.hpp:116-141 | the future ends cancelled iff a cancel precedes the terminal set |
| `Lifecycle.TaskIsNeverStuck` | lib_shared/inc/jar/concurrency/schedule.hpp:41-52 | a queued or running task and a promise under destruction can always go on |
| `Lifecycle.LifeRefinesCell` | lib_shared/inc/jar/concurrency/details/value_receiver.hpp:42-56 | the shared state of a life only takes steps of its own machine |
| `EndToEnd.SystemRefinesLife` | lib_shared/inc/jar/concurrency/wait.hpp:27-38 | in a system of one pool and any number of futures, every future lives a life of its own machine |
| `EndToEnd.SystemRefinesPool` | lib_shared/inc/jar/concurrency/thread_pool.hpp:30-98 | and the pool, until it is destroyed, runs as the pool machine |
| `EndToEnd.StepKeepsInv` | lib_shared/inc/jar/concurrency/schedule.hpp:41-52 | every step keeps pool and futures in agreement: a task is in one caller's hands, in one queue or in one worker exactly where its future says it is |
| `Resolution.AwakeWorkerCanGoOn` | lib_shared/inc/jar/concurrency/thread_pool.hpp:68-80 | in every reachable state a worker that neither sleeps nor has exited has an enabled next step, and it is one of its loop or of the task that it runs |
| `Resolution.WaitMaySchedule` | lib_shared/inc/jar/concurrency/wait.hpp:27-38 | in every reachable state a future not yet scheduled can be scheduled by any caller outside a call |
| `Resolution.UndisturbedLife` | lib_shared/inc/jar/concurrency/wait.hpp:27-38 | for every chain there is a run of a fresh future, through a queue and a worker, after which get reports what the last step returned or the first exception, with exactly these steps run |
| `Resolution.EveryFutureIsResolved` | lib_shared/inc/jar/concurrency/thread_pool.hpp:56-98 | in every run that ends with the destruction of the pool, the task of every future whose wait scheduled it was discarded or has returned, and once its wait has returned and its promise is destroyed the future is out of its initial state and reports the meaning of its chain, the cancel, or the broken promise, the last only if nothing ran |
| `Resolution.TaskStepsAreBounded` | lib_shared/inc/jar/concurrency/details/sender_adapter.hpp:38-50 | over every run of any number of futures, the steps that their tasks take are together at most the sum of the lengths of their chains and five each |
| `Resolution.JoinReturns` | lib_shared/inc/jar/concurrency/thread_pool.hpp:82-91 | with futures on the pool, after any run that has shut the queues and in every continuation: the steps of the worker loops are bounded by the measure of the pool and the further calls, those of the tasks by their chains, and a worker that has not exited has a next step in its loop or in its task |
| `Resolution.ShutdownResolvesAll` | lib_shared/inc/jar/concurrency/thread_pool.hpp:56-98 | from every reachable state with shut queues and no call in progress, steps of the worker loops and of the tasks themselves, without any cancel or other help, end all workers, so that the pool can be destroyed and every future is so resolved |
| `Latch.CounterIsDifference` | lib_shared/src/jar/concurrency/latch.cpp:21-28 | in every interleaving the counter is the expectation minus the arrivals modulo 2^64 |
| `Latch.CounterIsExactIff` | lib_shared/src/jar/concurrency/latch.cpp:21-28 | for any number of arrivals the counter is zero iff expectation and arrivals differ by a multiple of 2^64, and it is what remains iff no more arrived than expected |
| `Latch.ZeroMeansAllArrived` | lib_shared/src/jar/concurrency/latch.cpp:26-32 | if arrivals do not exceed the expectation, zero is reached iff all have arrived |
| `Latch.ZeroIsStable` | lib_shared/src/jar/concurrency/latch.cpp:26-32 | a counter at zero is zero after a continuation iff what arrives in it is a multiple of 2^64 |
| `Latch.WaitReturnsOnlyAtZero` | lib_shared/src/jar/concurrency/latch.cpp:34-48 | for any number of arrivals, wait returns only after everything expected has arrived, and then the surplus is a multiple of 2^64 |
| `Latch.WaitReturnsIff` | lib_shared/src/jar/concurrency/latch.cpp:34-42 | each look of wait at the counter returns iff the counter is zero |
| `Latch.WaitersGetOut` | lib_shared/src/jar/concurrency/latch.cpp:34-42 | from every reachable state at zero, steps of the threads awake inside wait bring each of them out of it, but for one between its predicate and its sleep, and leave the mutex free |
| `Latch.WaitStepByStep` | lib_shared/src/jar/concurrency/latch.cpp:26-42 | whoever moves, a thread leaves wait only at zero, falls asleep only from a false predicate and giving back the mutex, and is woken by every notification or spuriously, and by nothing else |
| `Latch.NobodyIsBlocked` | lib_shared/src/jar/concurrency/latch.cpp:26-42 | in every reachable state a thread awake inside a call can take its next step, or waits for the mutex and its holder can; a thread outside can count down by any number |
| `Latch.LastArrivalNotifies` | lib_shared/src/jar/concurrency/latch.cpp:26-32 | when all have arrived and every count_down has returned, a notify_all was issued at zero |
| `Latch.NotifiesOnlyAtZero` | lib_shared/src/jar/concurrency/latch.cpp:26-32 | while arrivals do not exceed the expectation, nobody notifies before all have arrived |
| `Latch.OverArrivalWraps` | lib_shared/src/jar/concurrency/latch.cpp:26-28 | a concrete run that passes zero by |
| `Latch.WakeupCanBeLost` | lib_shared/src/jar/concurrency/latch.cpp:26-42 | a concrete run that leaves a waiter asleep at zero with nobody left to notify |
| `Latch.LastNotifyIsLostIff` | lib_shared/src/jar/concurrency/latch.cpp:26-42 | the last notification at zero can leave a waiter asleep with nobody left to notify iff a waiter stood between its predicate and its sleep |
| `Latch.StrandedSleepsOn` | lib_shared/src/jar/concurrency/latch.cpp:26-42 | such a waiter sleeps through every continuation without a further count_down and without a spurious wakeup of its own |
| `Latch.EmptyCountDownWakes` | lib_shared/src/jar/concurrency/latch.cpp:26-32 | a count_down of zero is enough to wake it |
| `Latch.Counter.CountDown` | lib_shared/src/jar/concurrency/latch.cpp:26-32 | the counter drops by n modulo 2^64, and notifies iff it drops to zero |
| `CallbackReceiver.OneShot` | lib_shared/inc/jar/concurrency/details/callback_receiver.hpp:48-88 | over every interleaving, with moves and throwing handlers, at most one handler is invoked, and it is that of the first call; the state is then completed, failed or canceled as that call was complete, fail or cancel |
| `CallbackReceiver.ReportsCanceledIsRightIff` | lib_shared/inc/jar/concurrency/details/callback_receiver.hpp:90-90 | is_canceled is right iff the receiver is cancelled or failed |
| `CallbackReceiver.AnswerAfterRun` | lib_shared/inc/jar/concurrency/details/callback_receiver.hpp:58-90 | after any run is_canceled answers no iff the first call was fail |
| `CallbackReceiver.CallIsItsOwnRun` | lib_shared/inc/jar/concurrency/details/callback_receiver.hpp:58-88 | an uninterrupted call from the initial state leaves completed, failed or canceled and invokes its handler once; from any other state it does nothing |
| `CallbackReceiver.Callback.RunTask` | lib_shared/inc/jar/concurrency/schedule.hpp:43-51 | the scheduled task never completes a callback receiver |

## Left out

- PoolProgress.EveryRunIsBounded: requires fewer than 2^30 queues, because beyond that a caller inside `schedule` may probe for ever (`FallsBackIff` says exactly when); the steps of workers and notifications are bounded for every size (`InnerStepsAreBounded`).
- RoundRobin.Scheduler.Scheduled: stops at the first sleep of the blocking pop; what happens after a wakeup is a step of the `Pool` machine.
- ThreadPool.Pool.Run: the worker loop of one undisturbed thread; interleaved workers are the `Pool` machine.
- The three operations of `callback_receiver` share one method, `Callback.Call`; the value passed to the complete handler is not modelled.
- `try_pop` looks at the container before it looks at its try-lock; the answer is the same either way, and the unsynchronised read itself is not modelled.
- Memory-order effects: every atomic access is sequentially consistent in the model.
- Exceptions from copying, moving or allocating, a raw task that throws in the `noexcept` worker loop, and a pool constructor whose thread creation fails.
- Invocables are functions of their argument; their other effects are visible only as the order in which they run.
- A second `get` on a result that has been moved out.
- A thread that serves two schedulers: the ticket of a worker belongs to the one scheduler of its pool.
- In `EndToEnd` a worker may let go of a finished task at any time after the task has returned; the source does so when its next `scheduled` returns.
- Schedule calls made by the steps of a chain are calls of further clients; tasks without a future are in `Pool` and not in `EndToEnd`.
- `rr_scheduler::adapter` with arguments, `start`, the type traits and the compile-time checks.
- Sockets, addresses and POSIX wrappers in `lib_static`, `basic_handle`, contracts and enum helpers in `lib_header`: thin layers whose facts are easy.
