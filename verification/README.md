# Verification of the coroutine and job runtime

A Dafny 4.11 model of the server's runtime, with proofs of what it promises. `dafny verify
dfyconfig.toml` checks all of it. Sources are cited by path and line.

## What is modelled

| files | models |
|---|---|
| `AsyncProtocol.dfy`, `AsyncInvariant.dfy`, `AsyncPreservation.dfy`, `AsyncSafety.dfy`, `AsyncOutcome.dfy`, `AsyncTiming.dfy`, `AsyncProgress.dfy` | `src/async.hpp` as a transition system: any number of workers and clients, one event per critical section. A state holds the local deques, the delay heap, the cleanup queue, `handle_refs`, all coroutine frames and what every thread has in its hands. A coroutine is a finite body of sleep, yield, await, launch, discard, return and throw |
| `AsyncScheduler.dfy` | the `scheduler` object with its fields updated in place; every method is proved to be a run of the calling thread's events |
| `AsyncLocks.dfy`, `AsyncLockSafety.dfy`, `AsyncSections.dfy` | the mutexes below those events: each operation as a script of lock calls, any number of threads with any lists of operations; and which fields each lock protects |
| `Tasks.dfy` | `Task`, its awaiters, `sync_wait` and `async_run` of `src/coroutine.hpp`: frames linked by `continuation_`, against a recursive evaluator |
| `TimerPool.dfy`, `TimerPoolInvariant.dfy`, `TimerPoolSafety.dfy`, `TimerPoolProgress.dfy`, `TimerPoolShutdown.dfy`, `PoolObjects.dfy` | `src/scheduler.hpp` and `src/thread_pool.cpp` as one transition system from the timer to the worker, and both objects updated in place |
| `Orchestrator.dfy` | the re-queueing loop of `src/orchestrator.cpp` |
| `Joaat.dfy`, `Registry.dfy` | the topic hash and the table of consumers |
| `Broker.dfy`, `BrokerHistory.dfy` | the message broker as an object, and all its histories |
| `PollSet.dfy` | the Windows branch of the poll loop in `src/tcp_server.cpp` |
| `Sums.dfy`, `RoundRobin.dfy`, `Options.dfy` | sums over sequences, which ownership is counted with; dealing out by tickets; values that may be missing |

An event that is not enabled leaves a state alone. So every sequence of events is a schedule and every
schedule is one, and `Run` over all sequences is "every interleaving". `Reachable` says that some schedule
leads to a state. The invariant `Inv` holds in every reachable state and is kept by every event
(`EveryReachableState`, `ApplyKeeps`); lemmas that require `Inv` only are a little more general.

Time, readiness of sockets, results of `recv`, accepted descriptors, which `try_lock` fails, how late a
timer is and when a connection goes away are inputs, and all theorems hold for all of them.

## Where the code does not do what it seems to promise

- A parent whose child finishes between `await_ready` and `await_suspend` is handed to `schedule`, which
  ignores it because it is still in `handle_refs`: it is lost (`AsyncSafety.AwaitKeepsParentIffUnfinished`,
  and `AsyncSafety.ParentIsLost` for a run in which it happens). With one client for each `async` this
  cannot happen, and the protocol theorems assume that.
- An `async` that dies before it was scheduled never has its frame destroyed
  (`AsyncSafety.DiscardedFrameLeaks`, `AsyncSafety.FrameIsLeaked`).
- `async<T>::then`, for T other than void, on a coroutine that is completed reads the result while it holds
  the state mutex, which `result` locks again: the thread waits for itself. This is the one operation that is
  not in the lock order, and without it there is no deadlock (`AsyncLockSafety.NoReachableCircle` says both).
  `async<void>::then`, and any `then` on a coroutine that is not completed, are in order.
- The steal branch of the thread pool cannot be reached (`TimerPoolInvariant.StealIsUnreachable`).
- `destroy` of the timed scheduler can be missed by a thread that is between the loop test and its lock,
  which then sleeps until the next deadline (`TimerPoolSafety.StopCanBeMissedIff` gives the exact
  condition and `TimerPoolSafety.StopIsMissed` a run). It does end then (`TimerPoolShutdown.ShutdownEnds`).
- The comment in `MessageBroker::publish` says that subscribers get a message if there is no handler. The
  code sends it to them in any case, and so does the model.
- `handle_read` keeps the result of `recv` in a `size_t`. The branch for a read that would block is never
  taken: -1 is a very long message, and building the string for a message handler throws out of `start`
  (`PollSet.PassCompletesIff`). A client accepted in the same round has an uninitialised `revents`, so this
  takes no failing socket (`PollSet.FreshClientEndsTheServer`). Without a message handler a failed read does
  leave the connection alone, as a read that would block should.

## Model

| member | source | states |
|---|---|---|
| AsyncPreservation.EveryReachableState | src/async.hpp:102-426 | In every state that any number of workers and clients can reach by any schedule, every unfinished coroutine has exactly one owner, every finishing one exactly one final awaiter, `handle_refs` names exactly the scheduled and not yet destroyed frames, links lead from child to older parent |
| AsyncPreservation.ApplyKeeps | src/async.hpp:102-426 | Every single critical section, by whatever thread, keeps all of that |
| AsyncPreservation.AwaitedIsRetired | src/async.hpp:768-803 | A coroutine that runs while it holds an awaited child was resumed by that child's final awaiter: `await_resume` never waits |
| AsyncSafety.ExclusivePlace | src/async.hpp:102-137 | A coroutine is scheduled and unfinished if and only if it is in a deque slot, a delay entry, a drained batch, on a worker or the continuation of an unfinished child, and it is in one such place only, stealing included |
| AsyncSafety.DestroyedAtMostOnce | src/async.hpp:355-388 | `destroy` is called at most once and only on a retired coroutine; the handle is in `handle_refs` exactly from its first schedule to that moment, always with count 1, although both the final awaiter and the `async` push it |
| AsyncSafety.NoUseAfterDestroy | src/async.hpp:366-388 | A destroyed frame is in no place and in no thread's final awaiter |
| AsyncSafety.NobodyWaits | src/async.hpp:768-785 | With nothing queued, delayed or running, no frame is created, live or ending: await chains are finite and end |
| AsyncSafety.QuiescenceIsCompletion | src/async.hpp:217-219 | When deques and delay heap are empty and all threads idle, every scheduled coroutine is done |
| AsyncSafety.DrainedMeansDestroyed | src/async.hpp:355-388 | When cleanup is drained as well, every scheduled frame has been destroyed exactly once and `handle_refs` is empty |
| AsyncSafety.RunAdvances | src/async.hpp:461-462 | Over any schedule no frame goes back in its life, none is scheduled after it was dropped, destructions only add up |
| AsyncSafety.AwaitKeepsParentIffUnfinished | src/async.hpp:768-794 | After `await_suspend` and its schedule call the parent is in some place if and only if the child was not done |
| AsyncSafety.ParentIsLost | src/async.hpp:763-794 | Such a loss is reachable: a child that is not completed in `await_ready` ends before `await_suspend`, and the unfinished parent is in no place |
| AsyncSafety.DiscardedFrameLeaks | src/async.hpp:816-825 | No schedule of any length destroys the frame of an `async` that was dropped before it was scheduled |
| AsyncSafety.FrameIsLeaked | src/async.hpp:816-825 | A state with such a frame is reachable, and no continuation destroys it |
| AsyncOutcome.RunOutcomes | src/async.hpp:581-597 | No schedule changes what any coroutine has come to or will come to |
| AsyncOutcome.OutcomeIsEvaluation | src/async.hpp:768-803 | A coroutine submitted, awaited or launched in any reachable state, once it is done in any continuation, has thrown if and only if the recursive evaluation of its body throws |
| AsyncTiming.SleepEnters | src/async.hpp:1057-1069 | Executing `sleep_for(ms)` adds exactly one entry to the delay heap, the coroutine's, with deadline now + ms |
| AsyncTiming.StaysInHeap | src/async.hpp:400-405 | Whatever happens, an entry whose deadline has not come stays in the heap |
| AsyncTiming.NeverEarly | src/async.hpp:320-426 | Over every schedule after `sleep_for(ms)` the coroutine is in the delay heap with deadline now + ms, and in no other place, as long as the clock has not reached that |
| AsyncTiming.NotDoneEarly | src/async.hpp:1057-1103 | A coroutine submitted, awaited or launched in any reachable state is in no continuation done before all sleeps on its path, those of the children it awaits included, have passed |
| AsyncTiming.ThroughKeeps | src/async.hpp:796-803 | n nested awaits hand on a value as a value and an exception as an exception, and take no time |
| AsyncTiming.CaughtThrough | src/async.hpp:796-803 | A coroutine that catches what n awaits hand on goes on with its handler exactly if the innermost one throws |
| AsyncTiming.SleepsAddUp | src/async.hpp:1061-1066 | n sleeps of d evaluate to n * d of sleep |
| AsyncProgress.EveryStepWorks | src/async.hpp:143-183 | Every enabled step but the clock and new submissions uses up work |
| AsyncProgress.BoundedWork | src/async.hpp:188-224 | A schedule of any length without submissions contains at most Work(s) steps |
| AsyncProgress.Progress | src/async.hpp:102-183 | No reachable state is stuck: unless all is finished and destroyed, some thread can take a step now or when the earliest deadline comes |
| AsyncProgress.CanSettle | src/async.hpp:188-224 | From every reachable state some schedule finishes and destroys everything |
| AsyncScheduler.DueIsExact | src/async.hpp:400-405 | The drain takes all entries with a deadline up to now and none with a later one |
| AsyncScheduler.DealOneMore | src/async.hpp:410-417 | Putting the next entry at the front of its ticket's deque keeps: each deque is its share of the batch reversed, then its old contents |
| AsyncScheduler.Scheduler.constructor | src/async.hpp:229-252 | A started scheduler is the initial state of the protocol |
| AsyncScheduler.Scheduler.ScheduleImpl | src/async.hpp:285-315 | A new handle goes to the back of the ticket's deque and gets one reference; a done or known one changes nothing but the ticket |
| AsyncInvariant.InsertSorted | src/async.hpp:336 | A heap in deadline order stays so when an entry is added |
| AsyncScheduler.Scheduler.ScheduleAfterImpl | src/async.hpp:320-339 | Exactly one entry, at now plus delay, is added to the delay heap, which stays in order, for an unfinished handle and whatever `handle_refs` says |
| AsyncScheduler.Scheduler.GetNextTask | src/async.hpp:102-137 | The oldest task of the own deque; only if there is none, the newest of the first other deque that can be locked and is not empty; nothing else changes |
| AsyncScheduler.Scheduler.ReapBatch | src/async.hpp:366-388 | The loop under the refs mutex does what the protocol's reaping does, for any batch |
| AsyncScheduler.Scheduler.ProcessCleanupTasks | src/async.hpp:355-388 | A swap and a reap of the calling thread, if there is anything to clean up |
| AsyncScheduler.Scheduler.TakeDue | src/async.hpp:399-405 | The due prefix leaves the heap, in order |
| AsyncScheduler.Scheduler.ProcessDelayedTasks | src/async.hpp:393-426 | Exactly the due entries leave the heap, and every deque receives its round-robin share in reverse deadline order in front; the whole is a run of the protocol |
| AsyncScheduler.Scheduler.FinalSuspend | src/async.hpp:533-558 | Completed, then pushed for cleanup, then control to the continuation, as three protocol steps |
| AsyncScheduler.Scheduler.Suspend | src/async.hpp:1063-1082 | Sleep and yield add exactly one entry, for the running handle at now plus the duration (0 for a yield), to the delay heap and free the worker; nothing else changes but the body, and it is the coroutine's step of the protocol |
| AsyncScheduler.Scheduler.AwaitResumeImpl | src/async.hpp:796-803 | The parent goes on with its handler if the child has thrown, else behind the await; the child is done, and handed to cleanup |
| AsyncScheduler.Scheduler.DiscardChild | src/async.hpp:816-825 | The frame of an `async` that is dropped unscheduled goes to cleanup and is never queued |
| AsyncScheduler.Scheduler.AwaitSuspendImpl | src/async.hpp:768-794 | Links an unfinished child and schedules it, else schedules the parent |
| AsyncScheduler.Scheduler.AwaitChild | src/async.hpp:768-794 | `co_await` on a fresh child: its continuation is the parent, it goes to the back of the ticket's deque, the parent holds it and the worker is free; the whole is a legal run of the protocol |
| AsyncScheduler.Scheduler.LaunchChild | src/async.hpp:1120-1143 | Fire and forget: the child goes to the back of the ticket's deque without a continuation and the launcher still runs; a legal run of the protocol |
| AsyncScheduler.Scheduler.Step | src/async.hpp:533-558 | Every step of a running coroutine is a legal, non-empty run, and says who runs next |
| AsyncScheduler.Scheduler.Resume | src/async.hpp:161 | `resume` with all symmetric transfers terminates, is a legal run and leaves the worker idle |
| AsyncScheduler.Scheduler.TickImpl | src/async.hpp:143-183 | One tick is a legal run: exactly the due entries are dealt out first; then the worker takes its own oldest task, or else steals, from the deques as they are then, and resumes it to its next suspension; cleanup is drained exactly if there was no task |
| AsyncScheduler.Scheduler.RunRound | src/async.hpp:197-222 | A round keeps the invariant and either stops with nothing left or lowers work, or else the time to the next deadline |
| AsyncScheduler.Scheduler.RunImpl | src/async.hpp:188-224 | `run` returns, with everything ever scheduled done and destroyed exactly once and no reference left |
| AsyncScheduler.Scheduler.RunSync | src/async.hpp:1149-1191 | `run_sync` throws if and only if the body throws when evaluated, not before all sleeps on its path have passed; the frame has been destroyed once although its handle is pushed again |
| AsyncScheduler.Scheduler.RunSyncThrough | src/async.hpp:1149-1191 | For a body that sleeps k times for ms and then returns or throws, under any number of awaits: `run_sync` throws exactly if it throws, not before k * ms |
| AsyncLocks.ScriptInOrderIff | src/async.hpp:285-388 | The operations that take their locks in the order state, deque, refs, cleanup, delayed and give all of them back are exactly all but `then` of a non-void `async` on a completed coroutine |
| AsyncLockSafety.RunKeeps | src/async.hpp:439-442 | Over every schedule no lock has two owners and every thread takes what comes next in order |
| AsyncLockSafety.NoReachableCircle | src/async.hpp:102-388 | For any threads with any lists of operations: no interleaving has threads that wait for each other in a circle, of one thread included, if and only if nobody calls `then` of a non-void `async` on a completed coroutine |
| AsyncLockSafety.SomebodyCanStep | src/async.hpp:102-388 | If any thread has lock calls left, some thread can do its next one |
| AsyncLockSafety.EverybodyGetsThrough | src/async.hpp:102-388 | From every state in order, all threads can get to the end of their operations |
| AsyncLockSafety.AllGetThroughIff | src/async.hpp:908-919 | Some schedule gets all threads through their operations if and only if nobody makes that call |
| AsyncLockSafety.EveryRunGetsThrough | src/async.hpp:102-388 | A run of possible steps is bounded by the lock calls left, and it ends only when all threads are through |
| AsyncLockSafety.DoomedWaitsForItself | src/async.hpp:750-761 | A thread that makes that call and is left alone comes to wait for a lock that it holds itself |
| AsyncLockSafety.DoomedNeverDone | src/async.hpp:750-761 | Whatever the others do, such a thread never gets through |
| AsyncSections.ScriptPasses | src/async.hpp:102-388 | Every operation's lock calls come, in order, through points at which it holds the mutexes of all the fields it reads or writes together: `schedule` those of its deque and of `handle_refs`, an await those and its child's, and so on |
| AsyncSections.ChangesAreGuarded | src/async.hpp:102-388 | Every step of the coroutine protocol changes only fields of one such section of the operation it is part of |
| AsyncSections.NoRace | src/async.hpp:102-388 | In every interleaving of any threads with any operations, sections that two threads are in at the same time have no field in common |
| Tasks.EndedKeeps | src/coroutine.hpp:57-73 | Return and throw, then transfer to the continuation, keep the task on its way to the evaluator's result |
| Tasks.AwaitedKeeps | src/coroutine.hpp:90-94 | Storing the parent as continuation and transferring to the child keeps it |
| Tasks.AwaitResumedKeeps | src/coroutine.hpp:96-107 | Taking the child's value or exception and destroying its frame keeps it, and destroys nothing else |
| Tasks.SuspendedKeeps | src/coroutine.hpp:554-571 | Parking a sleeper with a timer keeps it, with the sleep added to the time that must pass |
| Tasks.StepsBounded | src/coroutine.hpp:113-302 | A task never takes more steps than its evaluation |
| Tasks.Runtime.ReturnValue | src/coroutine.hpp:163-176 | The value is stored and control goes to the continuation |
| Tasks.Runtime.UnhandledException | src/coroutine.hpp:178-181 | The exception is stored and control goes to the continuation |
| Tasks.Runtime.AwaitSuspend | src/coroutine.hpp:90-94 | The child has the parent as continuation, and control |
| Tasks.Runtime.AwaitResume | src/coroutine.hpp:183-197 | An exception goes before a value; the child's frame is destroyed |
| Tasks.Runtime.Step | src/coroutine.hpp:75-111 | Every step of the machine keeps the task on its way to the evaluator's result |
| Tasks.Runtime.Fire | src/coroutine.hpp:564-567 | A timer that fires at or after its deadline keeps it |
| Tasks.Runtime.Drive | src/coroutine.hpp:441-501 | The machine gets back to its driver, for every finite task and all delays of timers |
| Tasks.SyncWait | src/coroutine.hpp:441-501 | Returns or rethrows exactly the value or exception of the recursive evaluator, not before all sleeps on the way have passed, and exactly then if timers are punctual; every child frame is destroyed exactly once |
| Tasks.Runtime.EndDriver | src/coroutine.hpp:339-365 | The driver rethrows and terminates if and only if the task ended with an exception; otherwise it destroys the task and comes to its end |
| Tasks.AsyncRun | src/coroutine.hpp:530-544 | The driver terminates the process if and only if the evaluation of the task ends with an exception; otherwise it ends after all sleeps with every frame destroyed exactly once |
| Tasks.SleepsAddUp | src/topics/hello.cpp:15-26 | n sleeps of d evaluate to n * d of sleep, so with `SyncWait` they end no earlier than start + n * d |
| Tasks.ThroughKeeps | src/coroutine.hpp:183-197 | n nested awaits hand on the value or the exception unchanged and take no time |
| Tasks.CaughtThrough | src/coroutine.hpp:183-197 | What awaits a task through n others goes on with its value, or with its handler and the exception |
| Tasks.SyncWaitReturns | src/coroutine.hpp:441-501 | A value returned after a sleep of ms comes out of `sync_wait` through any number of awaits, at start + ms if timers are punctual |
| Tasks.SyncWaitThrows | src/coroutine.hpp:96-107 | An exception comes out of `sync_wait` through any number of awaits, or is returned as a value by a task that catches it |
| Tasks.AsyncRunThrows | src/coroutine.hpp:339-365 | An exception through any number of awaits terminates the process, and never if it is caught |
| TimerPoolInvariant.EveryReachableState | src/thread_pool.cpp:45-146 | Conservation, order of deques, times and wakeups hold in every state that clients, timer thread and workers can reach |
| TimerPoolInvariant.ApplyKeeps | src/scheduler.hpp:31-115 | Every critical section, atomic access and notification keeps all of that |
| TimerPoolInvariant.StealIsUnreachable | src/thread_pool.cpp:99-126 | Past its wait predicate a worker leaves or takes the front of its own deque; it never steals and never gets an empty job |
| TimerPoolSafety.ExclusivePlace | src/thread_pool.cpp:45-146 | Every job ever submitted, and no other, is in exactly one of: a client's hands, the deadline heap, the timer thread's hands, one deque slot, one worker, finished, dropped |
| TimerPoolSafety.NeverEarly | src/scheduler.hpp:86-115 | No job starts before its registration time plus delay, each runs on the worker whose deque it was pushed to, finished ones have started and dropped ones have not |
| TimerPoolSafety.StartsAtMostOnce | src/thread_pool.cpp:104-110 | Over any schedule a job that has started never starts again, and none starts after the accept flag is cleared |
| TimerPoolSafety.NewestFirst | src/thread_pool.cpp:107-111 | The job a worker takes was pushed later than every other job of its deque |
| TimerPoolSafety.HandsOffADueMinimum | src/scheduler.hpp:98-107 | What the timer thread takes is due, and nothing in the heap is due earlier |
| TimerPoolSafety.AtMostOneMoreHandOver | src/scheduler.hpp:88-107 | After `m_running` is cleared at most one more job reaches the pool, and none if the thread is not past its loop test |
| TimerPoolSafety.NoLostWakeup | src/scheduler.hpp:50-57 | Untimed sleep means an empty heap, sleep until t means t is the least deadline, a sleeping worker has an empty deque in an open pool, unless a notification has come or is pending |
| TimerPoolSafety.StopCanBeMissedIff | src/scheduler.hpp:31-40 | Once a stop has been announced the timer thread can still go to sleep until a deadline if and only if it is past its loop test and no job is due |
| TimerPoolSafety.StopIsMissed | src/scheduler.hpp:31-40 | A reachable state with an announced stop, and a schedule from it in which the timer thread goes to sleep all the same |
| TimerPoolProgress.NextStep | src/scheduler.hpp:86-115 | As long as a job has not started in an open system where all jobs are due, some thread can take a step without a spurious wakeup, and less is left to do then |
| TimerPoolProgress.EveryJobCanStart | src/thread_pool.cpp:90-146 | From every reachable state with an open pool and a running timer, every job submitted comes to start after finitely many steps in which sleepers wake only by a notification or a deadline |
| TimerPoolShutdown.ShutdownEnds | src/thread_pool.cpp:45-58 | From every reachable state in which scheduler and pool have been told to stop, finitely many steps without a spurious wakeup end the timer thread, all workers and all clients and clear the deques; then exactly the jobs started by the time of the stop have finished, and every other one was dropped or else is still in the heap |
| TimerPoolShutdown.WhatBecomes | src/thread_pool.cpp:45-58 | With all threads ended and the deques cleared, a job is finished if and only if it has started, and one that has not started is dropped if and only if it is not in the heap |
| TimerPoolSafety.ConsecutiveSleeps | src/topics/hello.cpp:18-22 | n timers of d, each registered after the one before it fired, end no earlier than start + n * d |
| PoolObjects.TicketBalance | src/thread_pool.cpp:60-69 | For any sequence of calls, empty functions included, the jobs given to any two deques differ by at most one |
| PoolObjects.ShareIsBelow | src/thread_pool.cpp:62-69 | A deque's share of the accepted calls is the number of tickets in the window that name it |
| RoundRobin.GoesAround | src/thread_pool.cpp:65 | Tickets name the deques in turn, from the first to the last and again from the first |
| PoolObjects.ThreadPool.QueueJob | src/thread_pool.cpp:60-88 | An empty function takes no ticket; any other goes to the front of the ticket's deque. For every state of the transition system that the pool is part of, this is a client's submission and push, or the timer thread's draw and hand-over |
| PoolObjects.ThreadPool.QueueAll | src/thread_pool.cpp:60-88 | After any series of calls every deque has grown by its share, any two up to one alike |
| PoolObjects.ThreadPool.NextJob | src/thread_pool.cpp:104-126 | Past its wait the worker leaves with the pool closed, else takes the front of its own deque; for every state of the transition system that the pool is part of this is the worker's step |
| PoolObjects.ThreadPool.StopAccepting | src/thread_pool.cpp:47-50 | The flag is cleared and nothing else, as the shutdown step of the transition system does |
| PoolObjects.ThreadPool.ClearJobs | src/thread_pool.cpp:56-57 | Every job that was in a deque, and no other, is dropped, as the last step of the transition system says |
| PoolObjects.ThreadPool.Steal | src/thread_pool.cpp:114-125 | Takes the oldest job of the first other deque, in circular order after the own one, that holds at least four jobs, and changes nothing else; takes none if and only if every other deque holds fewer than four |
| PoolObjects.TimedScheduler.ExecuteAt | src/scheduler.hpp:50-57 | Exactly the new entry is added, as the client's step of the transition system adds it |
| PoolObjects.TimedScheduler.ExecuteAfter | src/scheduler.hpp:44-47 | The entry's deadline is now plus delay, as registration and insertion of the transition system say |
| PoolObjects.TimedScheduler.RunRound | src/scheduler.hpp:90-113 | A due entry with the least deadline is taken out and handed over; otherwise nothing changes and the thread sleeps until the least deadline. It is the timer thread's step of the transition system, and in a reachable state the job handed over is due and no other is due earlier |
| PoolObjects.TimedScheduler.FindTop | src/scheduler.hpp:99 | No entry has an earlier deadline than the top |
| PoolObjects.TimedScheduler.StopRunning | src/scheduler.hpp:31-37 | The flag is cleared and nothing else, as the stop step of the transition system does |
| Orchestrator.RoundRobin | src/orchestrator.cpp:47-76 | For distinct handles the resume trace is, round after round, all handles that need more than r resumes, in their original order |
| Orchestrator.OneRound | src/orchestrator.cpp:60-75 | A round over handles that are not done resumes each once and queues up whoever needs more, behind what was queued |
| Orchestrator.Orchestrator.Enqueue | src/orchestrator.cpp:5-13 | Null and done handles are not accepted, any other is queued last |
| Orchestrator.Orchestrator.TakeTurn | src/orchestrator.cpp:60-75 | A done handle is skipped, any other resumed once and queued again behind what others enqueued meanwhile |
| Orchestrator.Orchestrator.Loop | src/orchestrator.cpp:27-76 | Whatever is enqueued by others, with duplicates, and whenever stop is called: the loop ends with an empty queue, every handle accepted by then was resumed exactly as often as it needed, and nothing else was touched; without outside enqueues the trace is round robin |
| Joaat.Spread10Inverts | src/util/joaat.hpp:17 | Adding the word shifted by 10 is undone by a product with 0xC00FFC01 |
| Joaat.Fold6Inverts | src/util/joaat.hpp:18 | The xor with the word shifted by 6 is undone by xors with its shifts |
| Joaat.AbsorbInverts | src/util/joaat.hpp:14-19 | For each character one round of the loop is a permutation of the 32-bit states |
| Joaat.FinishInverts | src/util/joaat.hpp:20-22 | What follows the loop is a permutation |
| Joaat.MixInverts | src/util/joaat.hpp:11-19 | For every string the loop is a permutation of the 32-bit states, with its inverse given |
| Joaat.LowerIff | src/util/joaat.hpp:7-10 | Two characters have the same lower-case form if and only if they are equal or one is A to Z and the other is 0x20 above it |
| Joaat.WidenKeepsSign | src/util/joaat.hpp:17 | A char from 0x80 on is added as the negative number it is, any other as itself |
| Joaat.SuffixCancels | src/util/joaat.hpp:11-26 | joaat(p + s) == joaat(q + s) if and only if joaat(p) == joaat(q), for all strings |
| Joaat.AbsorbInjective | src/util/joaat.hpp:7-19 | From one state two characters lead to the same state if and only if they are equal or the two cases of one ASCII letter |
| Joaat.OneCharacter | src/util/joaat.hpp:11-26 | Strings that differ in one place collide if and only if they have the two cases of one ASCII letter there |
| Joaat.OneDifferenceNeverCollides | src/util/joaat.hpp:11-26 | Equal-length strings that differ in one place by more than the case of an ASCII letter, and elsewhere by no more, never collide |
| Joaat.CaseIsIgnored | src/util/joaat.hpp:6-26 | Strings of equal length that have at each place the same character or the two cases of one ASCII letter have the same hash |
| Joaat.HashIsOnto | src/util/joaat.hpp:11-26 | Behind any string every hash value is reached from exactly one state |
| Joaat.Compute | src/util/joaat.hpp:11-26 | The range-based loop computes the hash that the theorems are about |
| Joaat.Literal | src/util/joaat.hpp:28-62 | The indexed loop of both literal operators computes the same hash for every string |
| Joaat.HashOfNothing | src/util/joaat.hpp:14-25 | joaat of the empty string is 0 |
| Joaat.HashOfTaskHello | src/topics/hello.cpp:39 | joaat of task.hello is 0xF8A1F85E |
| Registry.Consumers.AddConsumer | src/consumers/consumers.cpp:18-21 | The table finds, under every hash, the first consumer of all that were ever registered; a later one changes nothing |
| Registry.Consumers.GetConsumer | src/consumers/consumers.cpp:23-28 | Returns the first consumer registered under the hash, or none |
| Registry.FoundUnlessShadowed | src/consumers/consumer.cpp:7-15 | A registered consumer is found under its own name if and only if no earlier one has the same hash |
| Registry.DispatchIgnoresCase | src/message_broker.cpp:12-13 | Topics that differ in the case of ASCII letters only have the same consumer |
| Registry.NearNamesDoNotShadow | src/consumers/consumers.cpp:18-28 | Registering, at any time, a consumer whose name differs from a topic in one character by more than case, and elsewhere in case only, never changes the topic's consumer |
| Broker.MessageBroker.Subscribe | src/message_broker.cpp:19-23 | The connection is added last, also if it is there already |
| Broker.CallGoesToTheFirst | src/message_broker.cpp:12-13 | A message's payload, and nothing else, goes to the consumer at the first place with the topic's hash; nobody is called if there is none |
| Broker.DeliveredInOrder | src/message_broker.cpp:37-58 | Sending a queue to a list of subscribers sends the k-th message to the j-th of them at place k * n + j |
| Broker.MessageBroker.Publish | src/message_broker.cpp:9-17 | The first consumer under the topic's hash is called, and in any case every live subscriber is sent the message once for each entry, in order; dead entries of this topic are pruned; all topic queues are empty again |
| Broker.MessageBroker.Dispatch | src/message_broker.cpp:30-60 | Any queue is emptied: message after message to the live subscribers, with an empty queue nothing is touched |
| Broker.MessageBroker.SendToSubscribers | src/message_broker.cpp:42-58 | The loop that erases in place leaves the live subscribers in order and sends to each of them once per entry |
| BrokerHistory.Serve | src/message_broker.cpp:9-60 | The broker object serves every history of openings, expiries, subscriptions and publications as the history model says |
| BrokerHistory.AlikeKept | src/message_broker.cpp:35-57 | Every event keeps: the live part of each lazy list is the list of a broker that removes eagerly |
| BrokerHistory.LazyPruningIsInvisible | src/message_broker.cpp:42-58 | Over every history lazy pruning and eager removal send the same to the same connections in the same order and call the same consumers |
| BrokerHistory.DeliveriesAreExact | src/message_broker.cpp:9-60 | Over every history each connection is sent exactly the messages published while it was connected, in order, each as often as it had subscribed to the topic by then |
| BrokerHistory.CallsAreExact | src/message_broker.cpp:9-17 | Over every history the first consumer under its hash is called with exactly the payloads published to the topics of that hash, in order, and a shadowed or unregistered one is never called |
| PollSet.TcpServer.constructor | src/tcp_server.cpp:18-75 | The vector holds the listening socket, and there are no connections |
| PollSet.TcpServer.HandleAccept | src/tcp_server.cpp:91-138 | Every waiting client gets a connection and a poll entry; vector and map still agree |
| PollSet.TcpServer.HandleRead | src/tcp_server.cpp:140-178 | Without a connection the socket is closed; a positive result goes to the message handler as it is; 0 calls the close handler and then closes; -1 throws if and only if there is a message handler, else it does nothing |
| PollSet.TcpServer.Visit | src/tcp_server.cpp:234-248 | One turn of the scan serves one entry and erases it if and only if its connection was closed |
| PollSet.TcpServer.Scan | src/tcp_server.cpp:232-249 | The scan terminates; it serves the entries of its start in order up to the first that throws, keeps exactly those that do not close, and leaves vector and map in agreement even if it throws |
| PollSet.TcpServer.PollAcceptScan | src/tcp_server.cpp:218-249 | Slot 0 stays the listening socket, the other entries stay duplicate-free and equal to the keys of the map, and the log is exactly the service of all entries, new clients included, up to the first that throws |
| PollSet.TcpServer.Pass | src/tcp_server.cpp:218-249 | In a whole round no connection is read twice and the branch for a missing one is never taken; clients are accepted once, before they are read. Unless the round throws, each connection of its start is read exactly once if it polled readable and else never, all that recv got goes once to its message handler, its close handler is called once, after recv and before the socket is closed, exactly if recv gave 0, and it is there afterwards, unchanged, exactly if it was not closed; likewise each client accepted, by the noise in its revents |
| PollSet.EnteredAgrees | src/tcp_server.cpp:91-138 | Accepting any fresh clients keeps vector and map in agreement |
| PollSet.RoundIsRight | src/tcp_server.cpp:218-249 | What `Pass` says about its log, for any polled vector, fresh clients and results of recv |
| PollSet.ReadExactlyOnce | src/tcp_server.cpp:232-249 | In the service of any entries that are duplicate-free and have connections, if no read throws: every readable one is read exactly once and nothing else is; the message handler gets what recv got, once; the close handler and then the close come after recv, once, exactly if recv gave 0 |
| PollSet.WhoRemains | src/tcp_server.cpp:180-187 | A connection is still there if and only if it was not a readable one that closed |
| PollSet.PassCompletesIff | src/tcp_server.cpp:152-170 | A round gets through all entries if and only if no read of a connection with a message handler fails |
| PollSet.FreshClientEndsTheServer | src/tcp_server.cpp:132-135 | A client just accepted, with noise in its entry and nothing sent yet, makes the round throw |

## Left out

- Sockets, `epoll`, `WSAPoll`, `fcntl`, `recv` and `send` themselves: inputs and logs. The Linux branch of the server is not modelled.
- JSON, `ProtocolHandler`, logging, files, dotenv, `main`: no part of these protocols.
- Memory ordering, real threads and the coroutine ABI: steps are atomic at the granularity of critical sections, atomic accesses and notifications.
- Reuse of frame addresses: frame numbers are fresh for ever.
- What the callbacks of `async::then` do under the state mutex: `then` is among the lock operations with a callback that locks nothing, and not among the steps of the coroutine protocol.
- Moving `async` and `Task` objects between owners, awaiting one of them twice, null ones: each has one client, which awaits, launches or drops it.
- Starting the scheduler again, or with another number of threads; `run` after `start` with several threads, which replaces the mutexes in use. `schedule` before `start` divides by zero: the model has at least one worker.
- `queue_job` on a pool that has been destroyed divides by zero: `jobStack` is not empty in its precondition, and in the transition system a client that finds no deque does nothing.
- Coroutine bodies that do not end: bodies are finite trees.
- Which of several entries with the same deadline a heap delivers: fixed by handle number in the async scheduler, left open (any least entry) in the timed scheduler.
- `co_future`, the awaitable type traits, `is_ready`, `valid`, `task_check`, `spawn_task`, `register_topic_handler`: adapters, type-level code, queries, a wrapper that launches a coroutine, and a table nothing reads. They add no queue, frame, lock or list to the protocols above. Code that is commented out is not part of the program.
- Connections that expire while a dispatch is sending: expiry happens between two calls of the broker.
- AsyncScheduler.Scheduler.RunSync: says whether the task threw, not which value it returned; values are followed in `Tasks`.
- AsyncScheduler.Scheduler.TickImpl: the catch clauses around `resume` are not modelled, since every exception of a coroutine ends in its promise.
- Orchestrator.Orchestrator.Loop: other threads enqueue before a wait and right after a resume, not between the pop and the done test; who waits for whom in `cv_` is not modelled.
- PoolObjects.TicketBalance: the counter does not wrap; `size_t` wraps after 2^64 tickets, and where it does the balance can be off by one more.
- Tasks.SyncWait: the driver coroutine is the noop continuation of the root; its own mutex and condition variable are not modelled.
- Joaat.Literal: that `operator""_J` and `operator""_hash` are `consteval` is not modelled.
- Registry.Consumers.AddConsumer: the order of static initialisation across files is the order of the calls, whatever it is.
