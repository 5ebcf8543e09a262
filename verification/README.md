# Prex kernel core and XMODEM receiver: verified model

A Dafny model of the Prex 0.9.0 kernel core (`src/prex-0.9.0/sys`) and of the
XMODEM receiver beside it (`src/cbl/xmodem.c`), with proofs about every run.
`dafny verify dfyconfig.toml` checks all of it.

Each kernel entry point is one step over shared state, taken with interrupts off
or the scheduler locked; a call that sleeps is one step up to the sleep and one
from its return on. Interrupts come between steps and in the window that
`sched_unlock` opens, where a list of pending interrupts says which events they
wake. A component has up to three kinds of file:

- the specification: state as a datatype, each call as a function (`Sched`,
  `Mutex`, `Page`, `Kmem`, `Vm`, `Ipc`, `Sem`, `Timer`, `Xmodem`);
- what the calls mean and what whole runs keep, as lemmas about these functions:
  what each call leaves behind, in terms of the states before and after alone
  (`...Exact`), and the rest (`...Inv`, `...Steps`, `...Runs` and the like);
- the code: a class whose fields are the source's variables and record fields and
  whose methods, with the source's loops, are proved equal to the functions
  (`Scheduler`, `ThreadTable`, `MutexCode`, `PageCode`, `KmemCode`, `VmCode`,
  `IpcCode`, `SemCode`, `TimerCode`, `XmodemCode`). The table below lists those of
  the methods that do work of their own, with loops or links; the calls around them
  are proved equal to their specification in the same way.

The components:

- **Scheduler.** Run queues, deferred wake queue, sleep queues, the nesting lock
  and the caches `maxpri` and `resched`; suspend counts of threads and tasks.
- **Mutexes.** Hand-off, the wait-for chain walk, priority inheritance, together
  with the scheduler that they re-queue threads in.
- **Memory.** `page.c` below `kmem.c` below `vm.c`: one state, so that memory is
  accounted for across all three layers.
- **Messages and semaphores.** Rendezvous with priority-ordered queues; counting
  semaphores with timeouts and exceptions.
- **Timers.** A sorted list under a 32-bit tick counter that wraps.
- **Rings.** `queue.c` and `list.h` on a heap of nodes with `next` and `prev`, as
  operations on sequences; the other components use sequences for these lists.
- **XMODEM.** CRC-16 as a shift register and as polynomial division, error
  detection, and the receiver's state machine on any input.

Integers are unbounded except where the source depends on 32 bits: page sizes and
`used_size`, tick counts, expiry times, `mstohz`, and `totalbytes` wrap as they do
there.

Where code and comments disagree the model follows the code:

- `sched_wakeone` wakes the best sleeper but returns the last one it looked at
  (`sched.c:351-363`); its comment promises the woken thread. `WakeoneReports` says
  exactly when the two agree, `WakeoneMisreports` gives a run after which they do not.
- For mutexes this means that a deadlock can go undetected; `DeadlockUndetected` is a
  run from the start of the system to one. In a given state a real deadlock is
  detected if and only if every sleeper between holder and caller has its pointer
  (`DetectionExact`). For runs the condition is on the unlocks that hand a mutex
  over: the sleeper queued last is strictly better than all others, or holds no
  mutex. While all do, no real deadlock goes undetected (`DeadlocksDetected`). A
  hand-over that does not meet it leads on to an undetected deadlock of the woken
  thread and the one reported (`HarmfulLeads`), in every continuation in which the
  woken thread gets to ask for what the other holds (`HarmfulAlways`). So the
  hand-overs of a run all meet it exactly when none of them leads on to an undetected
  deadlock (`HonestExactly`).
- `runq_enqueue` marks the current thread against `maxpri`, not against its
  priority, so that an equal can displace a SCHED_FIFO thread: `EqualDisplaces` says
  exactly when, `FifoDisplaced` is a case.
- `thread_schedparam` promises in a comment (`thread.c:353-364`) that of a boosted thread
  only the base priority changes. It sets both priorities to the boost, so that the
  thread keeps it for good: `SetParamExact` says exactly when.
- `prio_inherit` never increments its loop counter (`mutex.c:422-454`); the loop ends
  because the pointers are acyclic.
- A receiver that fails to copy a message it was woken for puts it back without
  waking anybody (`msg.c:263-269`), and that can lose a wake-up: `WakeupLost` is such
  a run, `AttendedStep` says exactly which steps do it.
- A second `sem_destroy` while threads are inside `sem_wait` drops a reference it does
  not have: `Sem.DestroyOk` says exactly when destroying is right,
  `DestroyedUnderWaiter` is a run where it is not.
- Arming an active periodic timer links it twice: `PeriodicOk` says exactly when not,
  `ArmedTwice` is a case.
- `xmodemInTime` ignores its timeout (`xmodem.c:252-256`): as compiled it asks again
  until a byte arrives. `Xmodem` and `XmodemCode` model the receiver with the timeout
  that the commented-out condition of line 252 has, where an answer of the line may
  be a silence. `XmodemWait` models the code as compiled: a flush ends exactly at a
  silence, none is ever reported, so that `xmodemReceive` never returns
  (`CompiledNeverReturns`); what it writes until it waits for ever is in order and a
  beginning of what the receiver with timeouts writes.
- The receiver never uses the one-byte checksum, because the flag for CRC is set at
  the first byte that arrives and never cleared (`RxInv`, kept by `RoundOk`).

## Model

| member | source | states |
|---|---|---|
| Scheduler.Kernel.RunqGetbest | src/prex-0.9.0/sys/kern/sched.c:101-110 | the scan finds the best non-empty level, else 255 |
| Scheduler.Kernel.RunqDequeue | src/prex-0.9.0/sys/kern/sched.c:145-157 | takes the first thread of the best level, which is never empty, and recomputes `maxpri` |
| Scheduler.Kernel.WakeqFlush | src/prex-0.9.0/sys/kern/sched.c:173-190 | the loop that readies every woken thread that is not suspended |
| Scheduler.Kernel.SchedSwtch | src/prex-0.9.0/sys/kern/sched.c:214-247 | re-queues the current thread at head or tail as its state says and runs the best |
| Scheduler.Kernel.SchedTsleep | src/prex-0.9.0/sys/kern/sched.c:267-298 | sleeping, up to the moment the thread runs again |
| Scheduler.Kernel.SchedWakeup | src/prex-0.9.0/sys/kern/sched.c:306-325 | the loop moves all sleepers of an event to the wake queue, in order |
| Scheduler.Kernel.SchedWakeone | src/prex-0.9.0/sys/kern/sched.c:334-364 | wakes the first of the best sleepers and returns the last one scanned |
| Scheduler.Kernel.SchedUnlock | src/prex-0.9.0/sys/kern/sched.c:531-561 | the loop over wake queue, interrupt window and switches ends and equals its specification |
| SchedRuns.OnePlace | src/prex-0.9.0/sys/kern/sched.c:101-387 | under the invariant a thread is in exactly one place, the one its state word names |
| SchedRuns.EveryRun | src/prex-0.9.0/sys/kern/sched.c:101-608 | in every state that operations and interrupts reach: one place for each thread, `maxpri` exact, only the current thread marked, and marked whenever a better one is ready |
| SchedSwitch.SwtchOk | src/prex-0.9.0/sys/kern/sched.c:214-247 | a switch finds a non-empty queue, restores the invariant and leaves the new current thread unmarked |
| SchedSwitch.Unlock | src/prex-0.9.0/sys/kern/sched.c:531-561 | when the lock count has come down to 0 the invariant holds, no wake-up is deferred and no mark is left; only events that an interrupt wakes have lost sleepers |
| SchedSwitch.Tsleep | src/prex-0.9.0/sys/kern/sched.c:267-298 | the same when a sleeper's successor runs |
| SchedRuns.BestRuns | src/prex-0.9.0/sys/kern/sched.c:531-561 | with no mark left, no ready thread has a better priority than the running one |
| SchedInv.DequeueOk | src/prex-0.9.0/sys/kern/sched.c:145-157 | runq_dequeue takes a thread of the best level, every queue stays right, and `maxpri` is again the best level left |
| SchedInv.SetPriOk | src/prex-0.9.0/sys/kern/sched.c:580-608 | a change of priority re-queues the thread and keeps the invariant |
| SchedRuns.WakeoneReports | src/prex-0.9.0/sys/kern/sched.c:334-364 | the returned thread is the woken one exactly when the last sleeper is strictly best |
| SchedRuns.WokenDisplaces | src/prex-0.9.0/sys/kern/sched.c:117-190 | a woken thread takes the processor at the unlock exactly when it is at least as good as the current one and strictly better than the rest |
| SchedRuns.EqualDisplaces | src/prex-0.9.0/sys/kern/sched.c:117-126 | the rule "strictly better only" holds exactly except for an equal that is alone on its level |
| SchedRuns.FifoDisplaced | src/prex-0.9.0/sys/kern/sched.c:117-126 | a state within the invariant in which the exception occurs: a SCHED_FIFO thread loses the processor to its equal |
| SchedRuns.OnlyRotates | src/prex-0.9.0/sys/kern/sched.c:214-239 | while no thread enters or leaves a level, the running thread and its run queue only rotate, over any run |
| SchedTurn.PreemptedFirst | src/prex-0.9.0/sys/kern/sched.c:214-247 | a runnable thread that loses the processor to a better one stays first of its level, and the first of the best level runs |
| SchedTurn.EqualLast | src/prex-0.9.0/sys/kern/sched.c:214-247 | one that is as good as the best ready thread, as after its quantum or a yield, becomes the last of its level |
| SchedTurn.BestStays | src/prex-0.9.0/sys/kern/sched.c:214-247 | one that is better than all ready threads runs on |
| SchedTurn.BlockedLeaves | src/prex-0.9.0/sys/kern/sched.c:214-247 | one that cannot run leaves the queues as they are but for the thread that runs next |
| SchedTurn.FirstAmongEquals | src/prex-0.9.0/sys/kern/sched.c:214-561 | in every run the first thread of a level is picked before any other of its priority, until something is done to that thread or the running one is set to its priority |
| SchedTurn.PreemptedRunsFirst | src/prex-0.9.0/sys/kern/sched.c:214-561 | so a displaced thread gets the processor back before all its equals, in the rest of the operation and in the run after it |
| SchedTurn.PicksEnd | src/prex-0.9.0/sys/kern/sched.c:214-561 | the record of threads picked is that of the run: the last one is the running thread |
| SchedExact.WakeupExact | src/prex-0.9.0/sys/kern/sched.c:306-325 | all sleepers of the event, and they only, join the end of the wake queue in order, with result 0 and their timers stopped |
| SchedExact.WakeoneExact | src/prex-0.9.0/sys/kern/sched.c:334-364 | exactly the first of the best sleepers is woken |
| SchedExact.UnsleepExact | src/prex-0.9.0/sys/kern/sched.c:373-387 | a sleeper leaves its queue with the result given; others are left alone |
| SchedExact.SleepExact | src/prex-0.9.0/sys/kern/sched.c:267-298 | up to the switch the sleeper is the last on the queue of its event, with one lock more |
| SchedExact.FlushExact | src/prex-0.9.0/sys/kern/sched.c:173-190 | the woken threads that can run join the tails of their levels in order; the running one is marked exactly when one of them beats every ready thread |
| SchedExact.SuspendExact | src/prex-0.9.0/sys/kern/sched.c:411-422 | a ready thread leaves its queue, the running one is marked |
| SchedExact.ResumeExact | src/prex-0.9.0/sys/kern/sched.c:428-437 | one that can run again joins the tail of its level |
| SchedExact.SetPriOther | src/prex-0.9.0/sys/kern/sched.c:580-608 | a ready thread goes to the tail of its new level, and the running one is marked exactly when it is then alone on the best level |
| SchedExact.SetPriRunning | src/prex-0.9.0/sys/kern/sched.c:580-608 | the running thread keeps out of the queues and is marked unless it equals the best ready level |
| SchedExact.StopExact | src/prex-0.9.0/sys/kern/sched.c:485-506 | the thread ends and leaves the queue it is on |
| SchedExact.YieldExact | src/prex-0.9.0/sys/kern/sched.c:396-405 | a yield marks the running thread exactly if another of its level is ready |
| SchedExact.TicksExact | src/prex-0.9.0/sys/kern/sched.c:444-465 | a round-robin thread is marked at exactly the tick on which its time left reaches 0, and no other thread is |
| SchedExact.UnlockNested | src/prex-0.9.0/sys/kern/sched.c:531-561 | an unlock that is not the last only counts down |
| SchedExact.UnlockReady | src/prex-0.9.0/sys/kern/sched.c:531-561 | the last unlock begins with that flush, after which a switch is safe |
| SchedExact.UnlockStays | src/prex-0.9.0/sys/kern/sched.c:531-561 | after that flush a thread without mark runs on, with no lock |
| SchedExact.UnlockSwitches | src/prex-0.9.0/sys/kern/sched.c:531-561 | a marked one gives way, once if no interrupt comes in |
| Threads.ThreadSuspendOk | src/prex-0.9.0/sys/kern/thread.c:242-260 | counting up keeps TS_SUSP with every positive count |
| Threads.ThreadResumeOk | src/prex-0.9.0/sys/kern/thread.c:268-293 | TS_SUSP goes only when both counts are zero |
| Threads.TaskSuspendOk | src/prex-0.9.0/sys/kern/task.c:226-254 | the first suspension suspends each thread of the task and counts one more for it; a further one counts for the task only |
| Threads.TaskResumeOk | src/prex-0.9.0/sys/kern/task.c:262-296 | when the task's count comes to zero the loop takes one off each thread's count and resumes exactly those for which it was the last |
| Threads.TaskRoundTrip | src/prex-0.9.0/sys/kern/task.c:226-296 | task_resume undoes task_suspend at any depth: all counts are as before |
| Threads.ThreadCreateOk | src/prex-0.9.0/sys/kern/thread.c:64-121 | a new thread is suspended and counted so |
| Threads.KthreadCreateOk | src/prex-0.9.0/sys/kern/thread.c:524-549 | a kernel thread is on the kernel's list and ready at its priority, and the user threads' counts still hold |
| Threads.ThreadTerminateOk | src/prex-0.9.0/sys/kern/thread.c:443-475 | exactly the terminated thread leaves the lists, and the counts hold |
| Threads.SuspendedNeverPicked | src/prex-0.9.0/sys/kern/thread.c:242-293 | in every run a user thread with a positive count, its own or its task's, has TS_SUSP, is on no run queue and no switch picks it |
| ThreadTable.Table.TaskSuspend | src/prex-0.9.0/sys/kern/task.c:226-254 | the code with its loop equals the specification |
| ThreadTable.Table.TaskResume | src/prex-0.9.0/sys/kern/task.c:262-296 | the code with its loop equals the specification |
| Graph.AddEdge | src/prex-0.9.0/sys/sync/mutex.c:417-458 | a new wait-for pointer closes a cycle exactly when its end reaches its start |
| Graph.TrailComplete | src/prex-0.9.0/sys/sync/mutex.c:417-458 | a chain walked to its end has passed every thread that is reachable |
| MutexInv.InheritDetects | src/prex-0.9.0/sys/sync/mutex.c:417-458 | prio_inherit returns EDEADLK exactly when the pointers of the waiter close a cycle |
| MutexInv.InheritOk | src/prex-0.9.0/sys/sync/mutex.c:417-458 | when it returns 0 every thread along the chain is at least as good as the waiter; no priority got worse, no base priority changed, and the scheduler invariant holds |
| MutexExact.InheritExact | src/prex-0.9.0/sys/sync/mutex.c:417-458 | exactly the threads the waiter is blocked behind end at the better of their priority and the waiter's, and exactly the mutexes that led to a raised one record it; all else is as before, with or without a cycle |
| MutexSteps.MutexLockOk | src/prex-0.9.0/sys/sync/mutex.c:186-235 | mutex_lock returns EDEADLK exactly when it would wait and its pointer would close a cycle, blocks exactly when it would wait and none arises, and keeps the invariant |
| MutexExact.LockContendedExact | src/prex-0.9.0/sys/sync/mutex.c:210-235 | a lock that would wait boosts exactly the holders on the way, also when it then returns EDEADLK; else the caller sleeps last in the queue |
| MutexExact.LockExact | src/prex-0.9.0/sys/sync/mutex.c:186-235 | a free mutex is taken and records the caller's priority, the caller's own is counted |
| MutexHandOff.MutexLockResumeOk | src/prex-0.9.0/sys/sync/mutex.c:186-235 | back from its sleep the thread is the one holder, with lock count 1 |
| MutexExact.ResumeExact | src/prex-0.9.0/sys/sync/mutex.c:210-235 | it takes the mutex once, without changing the priority recorded, and waits no more |
| MutexHandOff.MutexTrylockOk | src/prex-0.9.0/sys/sync/mutex.c:240-266 | succeeds exactly when the mutex is free or the caller's |
| MutexExact.TrylockExact | src/prex-0.9.0/sys/sync/mutex.c:240-266 | what is taken or counted, and the errors |
| MutexHandOff.MutexUnlockReportingOk | src/prex-0.9.0/sys/sync/mutex.c:272-303 | the invariant survives whichever waiter sched_wakeone reports |
| MutexHandOff.MutexUnlockOk | src/prex-0.9.0/sys/sync/mutex.c:272-303 | and so with the report of the code |
| MutexExact.MutexUnlockExact | src/prex-0.9.0/sys/sync/mutex.c:272-303 | after its last unlock a boosted caller is at exactly the best of its base priority and the priorities its other mutexes record, an unboosted one and all others keep theirs; the mutex goes to the last sleeper, whose priority it records |
| MutexRuns.MutexSetpriOk | src/prex-0.9.0/sys/sync/mutex.c:352-358 | before a waiting thread improves, every thread it is blocked behind becomes at least as good as it is so far (the source inherits the old priority); nothing else happens and the invariant holds |
| MutexExact.SetpriExact | src/prex-0.9.0/sys/sync/mutex.c:352-358 | exactly these threads are boosted, exactly if a waiting thread is about to improve |
| MutexRuns.SetParamOk | src/prex-0.9.0/sys/kern/thread.c:298-387 | the priority part of thread_schedparam keeps the invariant |
| MutexExact.SetParamExact | src/prex-0.9.0/sys/kern/thread.c:298-387 | both priorities become the one asked for, exactly except that a boosted thread that asks for a worse one gets its boost for good |
| MutexRuns.MutexDestroyOk | src/prex-0.9.0/sys/sync/mutex.c:138-159 | a mutex goes exactly when nobody holds it, and then nobody waits for it |
| MutexExact.LifeExact | src/prex-0.9.0/sys/sync/mutex.c:94-159 | a new mutex is free, at the worst priority; a destroyed one is gone, no other is touched; EBUSY exactly for one that is held |
| MutexRuns.MutexesEveryRun | src/prex-0.9.0/sys/sync/mutex.c:186-494 | in every run: at most one holder, on whose list the mutex is exactly when locked; no holder, no sleeper; in hand-over exactly one thread in flight; pointers acyclic; no priority worse than its base |
| MutexDeadlock.DetectionExact | src/prex-0.9.0/sys/sync/mutex.c:186-235 | for every real deadlock: EDEADLK exactly when each sleeper from the holder to the caller has its pointer, else the caller sleeps |
| MutexDeadlock.RealDeadlockDetected | src/prex-0.9.0/sys/sync/mutex.c:417-458 | while every sleeper that holds a mutex has its pointer, a real deadlock is answered with EDEADLK |
| MutexDeadlock.ReportDecides | src/prex-0.9.0/sys/sync/mutex.c:272-303 | a hand-over keeps these pointers exactly when the thread reported is the one woken, or holds no mutex |
| MutexDeadlock.UnlockPointed | src/prex-0.9.0/sys/kern/sched.c:334-364 | with the code's report: exactly when the last sleeper is strictly best, or holds no mutex |
| MutexDeadlock.DeadlocksDetected | src/prex-0.9.0/sys/sync/mutex.c:186-303 | in a run whose hand-overs all meet that condition no real deadlock goes undetected |
| MutexDrive.Drive | src/prex-0.9.0/sys/kern/sched.c:411-608 | from every state a run brings any given thread, that neither sleeps nor has ended, to the processor, leaving owners, waiters and sleepers of mutexes alone |
| MutexHidden.HiddenUntil | src/prex-0.9.0/sys/sync/mutex.c:186-303 | an owner left asleep without pointer stays so through every step of all other threads, until the woken thread runs |
| MutexHidden.HiddenDeadlocks | src/prex-0.9.0/sys/sync/mutex.c:210-235 | then to lock what that owner holds is a real deadlock that mutex_lock does not see |
| MutexBlind.HandOverHides | src/prex-0.9.0/sys/sync/mutex.c:272-303 | every hand-over that fails the condition leaves such an owner |
| MutexBlind.HarmfulAlways | src/prex-0.9.0/sys/sync/mutex.c:186-303 | so in every continuation the woken thread, once it runs, holds the mutex on which that owner sleeps, and meets an undetected deadlock on each mutex of the owner |
| MutexBlind.HarmfulLeads | src/prex-0.9.0/sys/sync/mutex.c:186-303 | and some continuation gets there: from this hand-over, by steps that leave owners, waiters and mutex sleepers alone until the woken thread runs, to the deadlock of these two threads |
| MutexBlind.HandOverExact | src/prex-0.9.0/sys/sync/mutex.c:272-303 | while the owners asleep have their pointers, a hand-over meets the condition exactly when it leads on to no undetected deadlock |
| MutexBlind.DishonestRun | src/prex-0.9.0/sys/sync/mutex.c:186-303 | a run with a hand-over that fails the condition has a first one, and that one leads on to an undetected deadlock |
| MutexBlind.HonestExactly | src/prex-0.9.0/sys/sync/mutex.c:186-303 | the hand-overs of a run from the start all meet the condition exactly when none of them leads on to an undetected deadlock |
| MutexStory.DeadlockUndetected | src/prex-0.9.0/sys/sync/mutex.c:272-303 | a run from the start of the system after which thread 1 holds mutex 100, on which 2 sleeps, and locking mutex 200 of thread 2 is an undetected deadlock; one step later 1 sleeps on 200 |
| MutexStory.WakeoneMisreports | src/prex-0.9.0/sys/kern/sched.c:351-363 | a run to a state in which sched_wakeone wakes one sleeper and returns another |
| MutexCode.Locks.PrioInherit | src/prex-0.9.0/sys/sync/mutex.c:417-458 | the do-while walk ends, with a measure on the rest of the chain, and equals the specification |
| MutexCode.Locks.PrioUninherit | src/prex-0.9.0/sys/sync/mutex.c:468-494 | the loop over held mutexes finds the best priority still due |
| Page.Unique | src/prex-0.9.0/sys/mem/page.c:120-176 | a canonical free list (sorted, page multiples, never touching) is a function of the set of free bytes |
| Page.RunInBlock | src/prex-0.9.0/sys/mem/page.c:75-119 | every run of free bytes lies in one block |
| Page.PageAllocMeans | src/prex-0.9.0/sys/mem/page.c:75-119 | takes nothing exactly when no contiguous free run of the rounded size exists, else the lowest one and nothing else; pages are taken and 0, the sign of failure, is returned exactly when the run at address 0 is free |
| Page.PageAllocTooBig | src/prex-0.9.0/sys/mem/page.c:75-119 | a size within a page of 2^32 rounds to nothing |
| Page.FreeBlockOk | src/prex-0.9.0/sys/mem/page.c:128-176 | freeing with coalescing keeps the list canonical and adds exactly the bytes freed |
| Page.AllocThenFree | src/prex-0.9.0/sys/mem/page.c:75-176 | freeing what was just allocated restores list and counter |
| Page.PageReserveMeans | src/prex-0.9.0/sys/mem/page.c:181-236 | succeeds exactly when all the pages are free and takes exactly those |
| PageRuns.PageInitMeans | src/prex-0.9.0/sys/mem/page.c:259-302 | leaves exactly the usable pages outside reserved regions; panics exactly when a reserved region reaches outside or two share a page |
| PageRuns.PagesEveryRun | src/prex-0.9.0/sys/mem/page.c:75-235 | in every run used_size plus the free bytes is constant, and once all is given back, in any order and pieces, the state is that of the start |
| PageRuns.OrderIrrelevant | src/prex-0.9.0/sys/mem/page.c:75-235 | two runs that leave the same bytes free leave the same state |
| PageCode.PageList.PageAlloc | src/prex-0.9.0/sys/mem/page.c:75-119 | the pointer code keeps the ring doubly linked and equals the specification |
| PageCode.PageList.PageFree | src/prex-0.9.0/sys/mem/page.c:128-176 | the same, with search, insertion and both joins |
| PageCode.PageList.PageReserve | src/prex-0.9.0/sys/mem/page.c:181-236 | the same, with both splits |
| KmemRuns.KmemAllocOk | src/prex-0.9.0/sys/mem/kmem.c:174-256 | panics exactly above 4048 bytes, fails without effect exactly when lists and pages are exhausted, else hands out one unused block that holds the request; keeps the heap invariant |
| KmemExact.AllocExact | src/prex-0.9.0/sys/mem/kmem.c:174-256 | a request takes the least multiple of 16 that holds it and its header, from a block of the smallest class that fits or from a new page; the rest stays a free block if it is worth one, and NULL is returned exactly when no free block is that large and no page is free |
| KmemRuns.PayloadsApart | src/prex-0.9.0/sys/mem/kmem.c:174-256 | live payloads are disjoint, inside heap pages and not free memory |
| KmemRuns.KmemFreeOk | src/prex-0.9.0/sys/mem/kmem.c:268-307 | exactly that block is given back; its page goes to page_free exactly when it was the last one in use, with no block of it left on a list |
| KmemRuns.HeapEveryRun | src/prex-0.9.0/sys/mem/kmem.c:174-307 | in every run chains tile their pages, nallocs counts the blocks in use, free blocks are in their class; memory is shared out exactly between heap and page allocator, and comes back when all blocks are freed |
| KmemRuns.BusyLive | src/prex-0.9.0/sys/mem/kmem.c:268-307 | no page is kept without a block in use |
| KmemCode.Heap.BlockFind | src/prex-0.9.0/sys/mem/kmem.c:149-164 | the scan over the size classes finds the first non-empty one |
| KmemCode.Heap.KmemAlloc | src/prex-0.9.0/sys/mem/kmem.c:174-256 | the code on block and page headers equals the specification |
| KmemCode.Heap.KmemFree | src/prex-0.9.0/sys/mem/kmem.c:268-307 | the same, with the loop that unlinks the blocks of an empty page |
| VmRuns.DoAllocateOk | src/prex-0.9.0/sys/mem/vm.c:118-169 | success maps whole pages over the request in what was free, and nothing else; a failure, on any path, leaves segments, total and page allocator as they were |
| VmRuns.DoAllocateSucceeds | src/prex-0.9.0/sys/mem/vm.c:118-169 | it succeeds whenever the checks pass, a segment has room, the mapping works and memory is not short |
| VmSteps.UncarveOk | src/prex-0.9.0/sys/mem/vm.c:901-985 | the undo path: freeing a segment just carved out restores the list and the heap |
| VmSteps.SegReserveOk | src/prex-0.9.0/sys/mem/vm.c:944-985 | reserving carves exactly the range out of a free segment or undoes its first split |
| VmFree.SegFreeOk | src/prex-0.9.0/sys/mem/vm.c:901-939 | freeing joins with free neighbours on both sides and gives up exactly their records |
| VmFree.DoFreeOk | src/prex-0.9.0/sys/mem/vm.c:206-236 | gives up exactly the segment that starts at the address; fails, changing nothing, exactly when there is none |
| VmFree.DoAttributeOk | src/prex-0.9.0/sys/mem/vm.c:275-349 | changes exactly the access of that segment; fails exactly when there is none, or when its access has to change and the mapping fails |
| VmLife.VmCreateOk | src/prex-0.9.0/sys/mem/vm.c:457-476 | fails exactly without page directory or memory for the record; a new map is one free segment and takes one record |
| VmLife.VmTerminateOk | src/prex-0.9.0/sys/mem/vm.c:482-520 | gives back records and pages, all of them |
| VmLife.VExecOk | src/prex-0.9.0/sys/mem/vm.c:118-349 | any run of the three calls keeps the map invariant and all memory accounted for |
| VmLife.MapLife | src/prex-0.9.0/sys/mem/vm.c:118-985 | in every run segments tile [PAGE_SIZE, USERLIMIT) in order with no two free neighbours and total is the sum of those in use; after vm_terminate heap blocks and page allocator are as before vm_create |
| VmCode.Space.SegFree | src/prex-0.9.0/sys/mem/vm.c:901-939 | the code over heap and pages equals the specification |
| VmCode.Space.SegAlloc | src/prex-0.9.0/sys/mem/vm.c:873-896 | the same |
| VmCode.Space.SegReserve | src/prex-0.9.0/sys/mem/vm.c:944-985 | the same, with its undo path |
| VmCode.Space.DoAllocate | src/prex-0.9.0/sys/mem/vm.c:118-169 | the same |
| VmCode.Space.DoFree | src/prex-0.9.0/sys/mem/vm.c:206-236 | the same |
| VmCode.Space.DoAttribute | src/prex-0.9.0/sys/mem/vm.c:275-349 | the same |
| IpcSteps.MsgSendOk | src/prex-0.9.0/sys/ipc/msg.c:80-167 | an error changes nothing; else the caller is queued and the best receiver woken |
| IpcExact.SendExact | src/prex-0.9.0/sys/ipc/msg.c:80-167 | each error has its own cause; else the message is queued last with its size and exactly the first of the best receivers is woken |
| IpcSteps.ReceiveLoopOk | src/prex-0.9.0/sys/ipc/msg.c:221-279 | takes the best queued message, or sleeps exactly when there is none; fails exactly when there is something to copy and the copy fails, and then only puts the message back |
| IpcExact.LoopExact | src/prex-0.9.0/sys/ipc/msg.c:221-279 | exactly the first of the best senders is taken, or put back at the end when the copy fails; nobody else changes |
| IpcSteps.MsgReceiveOk | src/prex-0.9.0/sys/ipc/msg.c:187-279 | the checks and their results, with EFAULT exactly for a bad buffer or a failing copy, and the loop |
| IpcExact.ReceiveExact | src/prex-0.9.0/sys/ipc/msg.c:187-279 | each error has its own cause |
| IpcSteps.MsgReplyOk | src/prex-0.9.0/sys/ipc/msg.c:287-334 | answers exactly the message that the caller holds on that object |
| IpcExact.ReplyExact | src/prex-0.9.0/sys/ipc/msg.c:287-334 | the sender goes on, both forget each other, the receiver gives the object up; EFAULT exactly for a bad buffer or a failing copy |
| IpcExact.ReplyVanished | src/prex-0.9.0/sys/ipc/msg.c:303-311 | with the sender gone the receiver gives the object up, with EINVAL |
| IpcInv.StageShape | src/prex-0.9.0/sys/ipc/msg.c:80-334 | the stage of a sender says how its record of events ends |
| IpcInv.ReturnMeans | src/prex-0.9.0/sys/ipc/msg.c:153-167 | a return follows one sending, one reception and one reply by the same thread |
| IpcRuns.RendezvousEveryRun | src/prex-0.9.0/sys/ipc/msg.c:80-334 | in every run sender and receiver agree, a blocked sender is in exactly one stage, and msg_send returns 0 only after one reception and one reply by the same thread |
| IpcRuns.AttendedStep | src/prex-0.9.0/sys/ipc/msg.c:221-275 | a step loses a wake-up exactly if it is that of a woken receiver whose copy of a non-empty message fails while others sleep and every receiver on the way is needed |
| IpcRuns.NoLostWakeup | src/prex-0.9.0/sys/ipc/msg.c:133-275 | in every other run, while a receiver sleeps its object has no more queued messages than receivers on the way |
| IpcLost.WakeupLost | src/prex-0.9.0/sys/ipc/msg.c:263-269 | a concrete run after which sender and receiver sleep on one object and nobody is on the way |
| IpcCode.Messages.Scan | src/prex-0.9.0/sys/ipc/msg.c:413-430 | the scan of msg_dequeue finds the first of the best threads |
| Sem.SemInitOk | src/prex-0.9.0/sys/sync/sem.c:58-119 | succeeds exactly under its checks; re-initialises only without sleepers, and the invariant holds |
| SemExact.InitExact | src/prex-0.9.0/sys/sync/sem.c:58-119 | each error has its own cause, in the order of the checks |
| Sem.DestroyOk | src/prex-0.9.0/sys/sync/sem.c:126-143 | succeeds exactly with no sleeper and a positive value; right exactly when the owner still has its reference; the record lives on while a thread is inside |
| SemExact.DestroyExact | src/prex-0.9.0/sys/sync/sem.c:126-143 | each error has its own cause; one reference less, no other semaphore or thread changes |
| Sem.PostOk | src/prex-0.9.0/sys/sync/sem.c:228-248 | one unit more, one sleeper woken, ERANGE exactly at the maximum |
| SemExact.PostExact | src/prex-0.9.0/sys/sync/sem.c:228-248 | only the sleeper chosen leaves the queue; no other semaphore or thread changes |
| Sem.TrywaitOk | src/prex-0.9.0/sys/sync/sem.c:202-219 | takes a unit exactly when there is one |
| SemExact.TrywaitExact | src/prex-0.9.0/sys/sync/sem.c:202-219 | likewise, one unit less |
| Sem.SemWaitOk | src/prex-0.9.0/sys/sync/sem.c:161-196 | takes a unit and leaves, or takes a reference and sleeps, exactly as the value says |
| SemExact.WaitExact | src/prex-0.9.0/sys/sync/sem.c:161-196 | a sleeper goes to the end of the queue; no other semaphore or thread changes |
| Sem.SemWaitResumeOk | src/prex-0.9.0/sys/sync/sem.c:173-196 | after a post the value is tested again; a timeout or exception leaves without a unit |
| Sem.UnsleepOk | src/prex-0.9.0/sys/kern/sched.c:373-387 | a timeout or an exception takes a sleeper off the queue and keeps the account |
| Sem.LeaveOk | src/prex-0.9.0/sys/sync/sem.c:285-303 | the reference given back frees the record exactly when it is the last one |
| SemRuns.StepOk | src/prex-0.9.0/sys/sync/sem.c:58-316 | a step keeps the invariant exactly when it is no second destroy |
| SemRuns.SemaphoresEveryRun | src/prex-0.9.0/sys/sync/sem.c:161-248 | in every run the value is initial plus posts minus waits, within 0..MAXSEMVAL, and while anybody sleeps at most the number of threads posted to and not yet run |
| SemRuns.NoLostPost | src/prex-0.9.0/sys/sync/sem.c:161-248 | with nobody on the way, a sleeper means value 0 |
| SemRuns.DestroyedUnderWaiter | src/prex-0.9.0/sys/sync/sem.c:126-143 | a run with two destroys that both succeed and free the record under a thread inside sem_wait |
| SemCode.Semaphores.SemValid | src/prex-0.9.0/sys/sync/sem.c:318-328 | the walk along sem_list finds exactly the live records |
| SemCode.Semaphores.SemRelease | src/prex-0.9.0/sys/sync/sem.c:285-303 | the count and the unlinking from sem_list equal the specification |
| SemCode.Semaphores.SemInit | src/prex-0.9.0/sys/sync/sem.c:58-119 | the code equals the specification |
| Timer.BeforeLeft | src/prex-0.9.0/sys/include/timer.h:60-64 | within half the range the signed comparison is the order of the ticks left, across the wrap |
| TimerExact.BeforeExact | src/prex-0.9.0/sys/include/timer.h:60-64 | time_before is the sign of the difference as a signed 32-bit value, time_remain the difference itself if positive |
| Timer.RearmedShrinks | src/prex-0.9.0/sys/kern/timer.c:403-426 | the loop of timer_handler ends for any contents: a re-armed timer is strictly in the future |
| TimerSteps.MstohzNear | src/prex-0.9.0/include/sys/param.h:181 | no delay leaves the signed range; it is the delay asked for exactly when the product does not wrap |
| TimerExact.DelayExact | src/prex-0.9.0/sys/kern/timer.c:68-91 | a delay is armed for its milliseconds in ticks, at least one, unless the product wraps; then for what is left of it |
| TimerSteps.CalloutOk | src/prex-0.9.0/sys/kern/timer.c:118-137 | arming moves the timer to its place in the sorted list, max(ticks, 1) ahead |
| TimerSteps.StopOk | src/prex-0.9.0/sys/kern/timer.c:96-109 | a stopped timer is on neither list |
| TimerSteps.PeriodicOk | src/prex-0.9.0/sys/kern/timer.c:239-295 | errors, cancelling and arming; the lists stay exact if and only if no active timer is armed |
| TimerExact.PeriodicExact | src/prex-0.9.0/sys/kern/timer.c:239-295 | each error has its own cause, in the order of the checks |
| TimerSteps.DrainOk | src/prex-0.9.0/sys/kern/timer.c:403-426 | each due periodic timer is signalled once and armed one interval after its expiry; the due one-shots reach expire_list in reverse order; nothing else changes |
| TimerRuns.TimersEveryRun | src/prex-0.9.0/sys/kern/timer.c:68-431 | in every run the list is sorted by ticks left, TM_ACTIVE holds exactly on one of the lists, and lbolt counts the ticks modulo 2^32 |
| TimerRuns.OneShotExact | src/prex-0.9.0/sys/kern/timer.c:388-431 | a one-shot timer expires at exactly its tick and no other; its function is called once for it |
| TimerRuns.CalloutOnTime | src/prex-0.9.0/sys/kern/timer.c:118-137 | timer_callout: expiry exactly max(mstohz(msec), 1) ticks after arming, once |
| TimerRuns.PeriodicExact | src/prex-0.9.0/sys/kern/timer.c:410-416 | a periodic timer is signalled at exactly the beats of its interval |
| TimerRuns.PeriodicOnTime | src/prex-0.9.0/sys/kern/timer.c:239-295 | timer_periodic: firing k at exactly first + k * interval, without drift |
| TimerRuns.SignalledOnce | src/prex-0.9.0/sys/kern/timer.c:403-426 | no timer is signalled twice by one tick |
| TimerRuns.ArmedTwice | src/prex-0.9.0/sys/kern/timer.c:282-291 | two calls of timer_periodic that both succeed and leave the node twice on the list |
| TimerCode.Timers.TimerAdd | src/prex-0.9.0/sys/kern/timer.c:68-91 | the scan for the place equals the specification |
| TimerCode.Timers.TimerHandler | src/prex-0.9.0/sys/kern/timer.c:388-431 | the loop equals the specification and wakes the timer thread exactly when a one-shot expired |
| TimerCode.Timers.RunExpired | src/prex-0.9.0/sys/kern/timer.c:346-379 | the drain loop, without interrupts in between, stops and calls every expired timer, the head first |
| Links.Enqueue | src/prex-0.9.0/sys/lib/queue.c:39-47 | the pointer code appends to the ring |
| Links.Dequeue | src/prex-0.9.0/sys/lib/queue.c:52-63 | null for the empty ring, else the first node, unlinked |
| Links.QueueInsert | src/prex-0.9.0/sys/lib/queue.c:68-76 | inserts behind the given node |
| Links.QueueRemove | src/prex-0.9.0/sys/lib/queue.c:81-87 | unlinks exactly the given node |
| Links.ListInsert | src/prex-0.9.0/include/sys/list.h:62-69 | inserts behind the given node |
| Crc.CrcXmodemUpdate | src/cbl/xmodem.c:198-212 | the loop is eight rounds of the register on the byte |
| Crc.UpdateFeeds | src/cbl/xmodem.c:198-212 | and these feed the bits of the byte, the highest first |
| Crc.CrcFeeds | src/cbl/xmodem.c:221-229 | the CRC of a buffer is the register fed with all its bits |
| CrcDivision.Division | src/cbl/xmodem.c:198-212 | m * x^16 is the quotient times x^16 + x^12 + x^5 + 1 plus the register |
| CrcDivision.CrcIsRemainder | src/cbl/xmodem.c:198-229 | the CRC is the remainder of that division: the only one, and with the only quotient |
| CrcDetect.XmodemCrcCheck | src/cbl/xmodem.c:214-245 | both loops of the check equal its specification |
| CrcDetect.AcceptedIffZero | src/cbl/xmodem.c:219-229 | a frame passes exactly when its CRC, check bytes included, is 0 |
| CrcDetect.OwnCrc | src/cbl/xmodem.c:219-229 | data followed by its own CRC, high byte first, leaves 0 |
| CrcDetect.UndetectedIff | src/cbl/xmodem.c:214-245 | a changed frame passes exactly when the flipped bits alone leave 0 |
| CrcDivision.UndetectedIffMultiple | src/cbl/xmodem.c:214-245 | that is, exactly when they are, times x^16, a multiple of the polynomial |
| CrcDetect.BurstsDetected | src/cbl/xmodem.c:214-245 | every frame that differs from an accepted one by a burst of at most 16 bits is rejected |
| Xmodem.RoundShrinks | src/cbl/xmodem.c:67-181 | with a timeout in xmodemInTime the loop ends on every line |
| Xmodem.RoundOk | src/cbl/xmodem.c:67-181 | a pass keeps the invariant, with CRC checking in every pass |
| Xmodem.ReceiveEveryLine | src/cbl/xmodem.c:52-189 | with that timeout, on every line: the writes are the data of the accepted frames with the next number, in order; a normal return is the number of bytes written, as a 32-bit long |
| XmodemExact.PassFrame | src/cbl/xmodem.c:111-180 | by the bytes on the line: the next frame is written and all retries are back, the last one again is only acknowledged, a damaged one costs a retry and is answered with NAK, any other ends the reception |
| XmodemExact.PassShort | src/cbl/xmodem.c:114-136 | a packet cut off by a silence costs a retry and is answered with NAK |
| XmodemExact.PassCases | src/cbl/xmodem.c:67-181 | every line falls under one of the cases |
| XmodemExact.RetriesCount | src/cbl/xmodem.c:67-181 | the retries left are three less the passes that failed since the last new frame |
| XmodemExact.ResultMeans | src/cbl/xmodem.c:52-189 | for every line each result has its own cause: EOT with the number of bytes written, CAN CAN, a sound frame with a foreign number, three failed passes; a number of bytes is never taken for an error |
| Xmodem.WriteNumbered | src/cbl/xmodem.c:135-153 | write k of a whole reception carries the data of an accepted frame numbered k mod 256, with a right complement and CRC |
| Xmodem.FrameAcknowledged | src/cbl/xmodem.c:139-160 | a frame that passes, written or repeated, is acknowledged next |
| Xmodem.OutputIsPrefix | src/cbl/xmodem.c:52-189 | if accepted frames are copies of the sender's blocks within 254 of the receiver's, the output is a prefix of the sender's blocks |
| XmodemWait.InTime | src/cbl/xmodem.c:248-259 | the loop as compiled returns the next byte, or waits for ever |
| XmodemWait.ListenHears | src/cbl/xmodem.c:248-259 | so it returns in turn the bytes of the line without its silences |
| XmodemWait.FlushEnds | src/cbl/xmodem.c:261-264 | a flush ends exactly when the line has a silence |
| XmodemWait.ReceiveWIs | src/cbl/xmodem.c:52-189 | a reception that does not wait for ever is that of the receiver with timeouts; one that does has written, in order, a beginning of what that writes |
| XmodemWait.CompiledNeverReturns | src/cbl/xmodem.c:52-189 | as compiled xmodemReceive reaches no result on any line, and what it has written is in order |
| XmodemCode.Modem.InFlush | src/cbl/xmodem.c:261-264 | with that timeout the loop drops everything up to a silence |
| XmodemCode.Modem.ReadRest | src/cbl/xmodem.c:117-131 | the loop fills the packet buffer, within its bounds |
| XmodemCode.Modem.Receive | src/cbl/xmodem.c:52-189 | with that timeout the whole loop equals the specification, bytes sent and data written included |

## Left out

- Context switching, interrupt levels, the MMU, copyin and copyout: atomic steps and parameters that say whether a call succeeds.
- Interrupts elsewhere than between steps and in the window of sched_unlock; deferred procedure calls.
- Scheduler.Kernel.SchedTsleep: does not take the interrupts that splx lets in after the switch (sched.c:267-298) inside its own step; in a run they come as further steps right behind it.
- SchedSwitch.Tsleep: likewise.
- The idle tick count, timerinfo and other statistics, page_info among them.
- SLP_INTR and thread termination in mutex calls and messages (mutex_cancel, msg_cancel), and msg_abort: the source relinks stale nodes there, and the invariants do not hold.
- Destruction of an object while one of its messages is being processed: the later reply fails and the sender stays blocked.
- mutex_valid and mutex_copyin, the limits and copies of mutex_init, with ownership per task and the automatic initialisation of a static mutex; the wrap of the lock count.
- A global rule that a holder is as good as all its waiters: false, because a boosted holder's mutex priority is not updated (mutex.c:441-444) and mutex_setpri inherits the old priority (mutex.c:352-358).
- "A thread runs as soon as its counts are zero": false for thread_create in a task suspended twice (thread.c:109) and for thread_resume during a task's suspension (thread.c:287-289).
- Segment sharing, vm_map, vm_dup, vm_load and vm_translate: the source's sharing rings are not kept consistent.
- The debug assertion in seg_free (vm.c:906), which the undo paths would violate.
- VmRuns.DoAllocateOk: does not say that an unaligned fixed address is covered to its end, because the source computes the end from the truncated start (vm.c:138-139); sizes that wrap size_t are not modelled.
- VmLife.MapLife: does not cover maps shared between tasks, and its segment list is a sequence in `VmCode` where the source links records.
- KmemCode.Heap.KmemAlloc: the free lists of the size classes are sequences where the source links blocks; `Links` shows the pointer code of these lists.
- KmemRuns.HeapEveryRun: starts from a free list without address 0, because a page allocated there counts as a failure for the caller (PageAllocMeans); the boards with memory there reserve it for the system page (bsp/hal/x86/pc/machdep.c:157).
- PageRuns.PagesEveryRun: regions that wrap 2^32 are not covered; page sizes of single calls are, in PageAllocTooBig.
- IpcRuns.NoLostWakeup: does not cover runs with a failed copy by a receiver that leaves nobody on the way, because there a wake-up is lost (IpcLost.WakeupLost).
- Sem.PostOk: the choice of sched_wakeone among the sleepers is a parameter; Scheduler.Kernel.SchedWakeone proves which one it is.
- Semaphores of a terminated task (sem_cleanup), the per-task list of semaphores, sem_getvalue.
- TimerCode.Timers.RunExpired: does not interleave interrupts with the drain loop; TimerRuns does, one expired timer at a time.
- The size of the record that timer_periodic allocates: `sizeof(tmr)` (timer.c:275) is that of a pointer, and the whole record is cleared and used. The model only has whether the allocation succeeds.
- timer_delay, timer_sleep, timer_alarm and timer_waitperiod, which only combine the calls above.
- xmodemTransmit, which the source leaves unwritten.
- XmodemCode.Modem.Receive: is the receiver with a working timeout; for the code as compiled see XmodemWait, which models its loops as functions because they do not end.
- Boot loader, ELF loading, compression, drivers, file systems and the user library.
