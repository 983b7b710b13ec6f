# Verified model of SyncPerf's locking code and profile

SyncPerf interposes its own copy of the NPTL mutex and condition variable code and hangs counters on every
mutex and thread. These files model that code in Dafny and prove what it is relied on for: mutual exclusion,
no lost wakeup, termination, accounting, and data structures that keep their shape.

Concurrent code is modelled twice. A *protocol* is a state machine over any number of threads, in which every
memory access that can race, every compare-and-swap and every futex call is one step. The invariants, the
theorems over whole runs and the termination measures are about that machine. Beside it a *class* has the
fields that the source updates in place, and each method, one stretch of the source's code, is proved to do
exactly one step of the protocol and to keep its invariant. Code that is not concurrent is modelled by
classes and loops alone, proved against a specification function or an abstract multiset, sequence or trace.

| file | what it is about |
|---|---|
| `futex_lock.dfy`, `futex_results.dfy` | the three-state futex lock: safety, refinement of an atomic lock, a bound on every workload, and when it goes to the kernel |
| `cond_var.dfy`, `cond_wait.dfy` | `pthread_cond_wait` and its cancellation handler: counters, and no signal lost |
| `cond_on_futex.dfy` | the same code access by access under its futex lock: a refinement |
| `cond_settling.dfy` | what waiters do once left alone: every signal is used up |
| `cond_delivery.dfy` | the same for the code on its lock, access by access |
| `cond_fairness.dfy` | which waiter uses which signal |
| `mutex_kinds.dfy`, `mutex_code.dfy` | owner, count and users of NORMAL, ERRORCHECK, RECURSIVE and ADAPTIVE mutexes |
| `mutex_results.dfy` | what every call on them returns |
| `mutex_on_futex.dfy` | those mutexes running on the futex lock: a refinement |
| `adaptive_spin.dfy` | spinning on adaptive mutexes, and the failure counts |
| `pp_lock.dfy`, `pp_progress.dfy`, `pp_results.dfy` | the lock word of priority-protect mutexes: safety, a bound on every workload, how every call ends |
| `priority_protection.dfy` | the accounting of priority ceilings |
| `pp_ceilings.dfy` | both together: many mutexes, many threads, and what each thread is charged for |
| `shadow_mutex.dfy`, `shadow_code.dfy`, `slot_use.dfy` | binding application mutexes to shadows; mutual exclusion end to end; how many slots it takes |
| `cas_loops.dfy` | the compare-and-swap loops of `atomic.h` |
| `async_cancel.dfy` | asynchronous cancellation on and off |
| `robust_list.dfy`, `circular_list.dfy` | the linked lists |
| `thread_levels.dfy` | thread indexes and the serial and parallel phases |
| `sharing_map.dfy` | the classifier of shared addresses in the Pin tool |
| `profile_report.dfy` | the counter matrix and the report |
| `counting.dfy` | counting and summing over threads |

Run `dafny verify dfyconfig.toml` to check the whole project.

## Findings

* **A later waiter can take an earlier waiter's signal.** A non-broadcast return only requires that the wakeup
  counter has moved since the wait began and that some wakeup is unused; it does not require that the unused
  one was sent after the wait began. `CondFairness.SignalCanBeStolen` gives a run: thread 0 waits and is
  signalled, threads 1 and 2 begin to wait, one more signal is sent, both later threads return and thread 0 goes
  back to sleep. `CondFairness.StepIsHonestIff` and `RunsAreHonestIff` say exactly when this cannot happen: every
  return that consumes a wakeup finds, for each wakeup number `k` up to its own start, more wakeups after `k`
  than departures that began at `k` or later. No signal is lost, though: `CondSettling.EverySignalIsDelivered`, `CondDelivery.CodeDeliversEverySignal`.
  A client can rule it out by beginning a wait only when every signalled waiter has returned
  (`CondFairness.RunsInTurnAreHonest`).
* **A mutex can be destroyed under a thread that is locking or unlocking it.** `__nusers` is incremented after the
  lock word is taken and decremented before it is given up. In any state the test of `pthread_mutex_destroy`
  succeeds exactly when nobody is in a condition wait with the mutex and whoever has the word is between these
  points (`MutexKinds.DestroySucceedsIff`, `MutexKinds.DestroyOvertakesIff`); `MutexKinds.DestroyCanOvertake` has a
  run with both. Between calls the test is exact (`MutexKinds.DestroyOnlyWhenUnused`).
* **The first thread of a parallel phase records the serial level before it.** `levelIndex` is stored before
  `_threadLevel` is advanced. `ThreadLevels.RecordedLevelIsOwnPhaseIff` says which threads are affected: a created
  thread records its own phase exactly when more than one thread was already alive
  (`ThreadLevels.NewThreadRecordsOwnPhaseIff`).
* **A lock that the scheduler refuses stays charged.** `__pthread_tpp_change_priority` counts the ceiling before it
  asks the scheduler, and a lock or trylock that gets an error back returns it without giving the ceiling up. This
  happens exactly when the ceiling is above all those already held and a scheduler call fails
  (`PriorityProtection.Priorities.Lock`, `PriorityProtection.RefusedLockStaysCharged`); every other failure leaves
  the account as it was.
* **A reported conflict rate can be far off, either way.** The report adds up accesses and failures in 32 bits and
  multiplies the failures by 100 in 32 bits. While a mutex has fewer than 2^32 accesses, the reported rate is the
  conflict rate exactly up to 42949672 failures. With more accesses it is right only if the wraps of the product
  and of the divisor are in proportion, and at a multiple of 2^32 the mutex is not reported at all
  (`ProfileReport.ReportedRateIsRightIff`). A lock on which every access fails can be reported as free of conflicts
  (`ProfileReport.ContentionCanVanish`), and one that hardly ever fails as failing every other time
  (`ProfileReport.ContentionCanAppear`).

## Assumptions

* Steps are sequentially consistent.
* Signal and broadcast are not in this repository. A signal with `total_seq > wakeup_seq` increments `wakeup_seq`
  and `futex` and wakes one sleeper, if there is one; such a broadcast sets `wakeup_seq` and `woken_seq` to
  `total_seq` and `futex` to twice that, increments `broadcast_seq` and wakes everybody (POSIX.1-2008, System
  Interfaces, chapter 3, `pthread_cond_signal` and `pthread_cond_wait`). Either does nothing otherwise.
* The sequence counters and the futex word of a condition variable do not wrap.
* NORMAL and ADAPTIVE mutexes are unlocked only by their holder. Ceilings do not change while a mutex is in use
  (POSIX.1-2008, System Interfaces, chapter 3, `pthread_mutexattr_getprotocol`).
* In whole sequences of priority-protect calls (`PriorityProtection.PerformAll` and `PPCeilings`) scheduler calls
  succeed; for single calls what they answer is a parameter.
* A thread's own priority is at least one below the lowest `SCHED_FIFO` priority.
* A robust list starts as a head that points to itself with a clear bit.
* Nobody but the thread itself changes its cancellation type bit.

## Model

| member | source | states |
|---|---|---|
| FutexLock.StepIsSafe | source/lowlevellock.S:75-148 | every step of lock, condvar lock, their trylocks and unlock, spurious wakeups included, keeps mutual exclusion, the meaning of the word (nonzero exactly while one thread owns the lock) and the promise that a sleeper is matched by a word of 2 or by a thread that will wake or exchange |
| FutexLock.RunsAreSafe | source/lowlevellock.h:79-174 | those three hold at every point of every run of any number of threads |
| FutexLock.RefinesAtomicLock | source/lowlevellock.h:252-279 | seen from outside the lock is atomic: each step leaves the holder alone, gives a free lock to the acting thread, or takes it from the acting thread |
| FutexLock.NeverStuck | source/lowlevellock.S:326-339 | while work is left some thread can move without a spurious wakeup |
| FutexLock.MeasureDrops | source/lowlevellock.S:87-98 | a measure strictly falls with each step that is not a spurious wakeup |
| FutexLock.EveryWorkloadFinishes | source/lowlevellock.S:75-148 | n threads with m lock/unlock pairs in all take fewer than (6n+2)(5m+1) steps, and a run that cannot go on has finished all of them |
| FutexLock.LowLevelLock.LllLock | source/lowlevellock.h:110-139 | the fast path and the choice of where the slow path starts refine the lock step and keep the invariant |
| FutexLock.LowLevelLock.LllTrylock | source/lowlevellock.h:79-95 | succeeds exactly when nobody owns the lock |
| FutexLock.LowLevelLock.ExchangeWord | source/lowlevellock.S:134-138 | the exchange acquires exactly when nobody owned the lock |
| FutexLock.LowLevelLock.WaitOnWord | source/lowlevellock.S:130-132 | sleeps only on a word of 2, and the promise to sleepers holds |
| FutexLock.LowLevelLock.DecrementWord | source/lowlevellock.h:240-241 | releases an uncontended lock, or leaves it owned until 0 is stored |
| FutexLock.LowLevelLock.StoreWord | source/lowlevellock.S:335 | the contended release |
| FutexLock.LowLevelLock.WakeOneSleeper | source/lowlevellock.S:366-369 | wakes a sleeper if there is one, which then exchanges again |
| FutexResults.UnlockIsQuietIff | source/lowlevellock.h:252-279 | over every run, an unlock makes no futex call exactly when the lock was taken with 1 and nobody has exchanged 2 into it since |
| FutexResults.AcquisitionMarks | source/lowlevellock.h:110-174 | the word is 1 after a plain first try and 2 after one of the condvar build or out of the slow path |
| FutexResults.AsksKernelFirst | source/lowlevellock.S:87-98 | a lock that finds the word at 2 stores nothing before a futex wait of its own |
| CondVar.StepKeepsInv | source/cond_wait.c:27-264 | waiting, rechecking, cancelling, cleaning up, waking all, signal and broadcast keep the whole counter invariant |
| CondVar.RunsKeepInv | source/cond_wait.c:90-264 | so does every run from an unused condition variable |
| CondVar.ReachableStatesCount | source/cond_wait.c:40-55 | in every reachable state woken <= wakeup <= total, futex = total + wakeup, current waiters number total - woken, `nwaiters` counts all waiters, at most total - wakeup of them began after the last wakeup, and outstanding wakeups are matched by waiters that are awake, or a wake-all is pending |
| CondVar.UnsignalledFew | source/cond_wait.c:163-165 | at most total - wakeup current waiters have saved the present wakeup number |
| CondVar.SeenBelowWakeup | source/cond_wait.c:213-225 | once every current waiter has a wakeup, none of them began after the last one |
| CondVar.OnlyFreshWaitersSleep | source/cond_wait.c:168-206 | in every run, a waiter falls asleep exactly when the number of waits, the number of wakeups and the epoch are what they were when it read the futex word; then it has no wakeup to use |
| CondVar.EveryWaitHasRead | source/cond_wait.c:168-206 | which is about every futex wait of every run: each has such a read behind it |
| CondVar.CleanupCounts | source/cond_wait.c:38-55 | a cancelled waiter passes its place on without breaking the counts |
| CondSettling.MeasureDrops | source/cond_wait.c:71-73 | left alone, waiters and handlers come to rest |
| CondSettling.QuietMeansDelivered | source/cond_wait.c:213-229 | when only sleepers are left, every signal was used by a return, by a broadcast or by a cancelled waiter with no successor, and exactly total - wakeup threads sleep |
| CondSettling.EverySignalIsDelivered | source/cond_wait.c:27-264 | both, after any run of any threads: no signal is lost, within a bounded number of steps |
| CondFairness.HonestIffAffordable | source/cond_wait.c:163-225 | departures can each be given a wakeup of their own, sent after they began, exactly when no group of late departures outnumbers the late wakeups |
| CondFairness.StepIsHonestIff | source/cond_wait.c:215-225 | a step keeps that possible exactly when, if it consumes a wakeup, the guard holds before it |
| CondFairness.RunsAreHonestIff | source/cond_wait.c:215-225 | it stays possible throughout a run exactly when every consuming step met the guard |
| CondFairness.RunsInTurnAreHonest | source/cond_wait.c:141-165 | it stays possible in every run in which waits begin only when all signalled waiters have returned |
| CondFairness.SignalCanBeStolen | source/cond_wait.c:220-225 | a run in which a waiter that began after a signal returns on it, and the one it was sent for sleeps on |
| CondOnFutex.SeenAccess | source/cond_wait.c:141-225 | the access that completes a region's step of the protocol has exactly that step's effect, with the accesses still to come accounted for |
| CondOnFutex.WordIsUnseen | source/cond_wait.c:130-170 | no step of the condvar's own lock changes what the protocol speaks of, and regions never overlap |
| CondOnFutex.StepRefines | source/cond_wait.c:27-264 | each single access, lock step, futex call and delivery is the protocol step it completes, or none |
| CondOnFutex.RunsRefine | source/cond_wait.c:27-264 | the first n steps of every run of the code under its futex lock, with the mutex given up inside the first region, are a run of the protocol with atomic regions: of exactly the steps that the code has completed, in order |
| CondOnFutex.MemoryCountsWaiters | source/cond_wait.c:141-143 | whenever nobody is inside a region, the counters in memory are ordered, give the futex word, and count the waiting threads |
| CondOnFutex.ErrorLeavesAtOnce | source/cond_wait.c:132-138 | when the mutex cannot be given up, the call leaves without another access and without waiting |
| CondDelivery.SignalsAreAccountedFor | source/cond_wait.c:38-229 | at every point of every run of the code outside its regions, the signals sent are those used by returns, broadcasts and cancelled waiters and the wakeups in memory not yet used |
| CondDelivery.ThreadCanMove | source/cond_wait.c:129-239 | whoever is in a wait or a handler, and neither asleep nor after the lock, has an access, lock step or futex call to make |
| CondDelivery.StuckIsAtRest | source/cond_wait.c:27-264 | when the code itself can do nothing more, everybody is outside or asleep on the futex word |
| CondDelivery.CodeMeasureDrops | source/cond_wait.c:141-239 | every access, lock step and futex call of the code lowers one measure |
| CondDelivery.CodeDeliversEverySignal | source/cond_wait.c:27-264 | after any run of the code, once its clients are quiet it takes a bounded number of steps under any schedule, lock steps included, and then every signal has been used and exactly the unsignalled waiters sleep |
| CondWait.Condition.BeginWait | source/cond_wait.c:129-170 | the first locked region: nothing on an unlock error, otherwise one more counted waiter, with the values it saved |
| CondWait.Condition.FutexWait | source/cond_wait.c:206 | sleeps exactly on an unchanged futex word |
| CondWait.Condition.Recheck | source/cond_wait.c:213-239 | leaves or waits again as the protocol says, and keeps the invariant |
| CondWait.Condition.Cleanup | source/cond_wait.c:37-69 | the handler's region |
| CondWait.Condition.WakeAll | source/cond_wait.c:71-73 | every sleeper, and nobody else, is woken |
| MutexKinds.StepKeepsInv | source/mutex_lock.c:111-216 | every access to owner, count and users, by every thread, keeps the invariant that ties them to the lock word |
| MutexKinds.RunsKeepInv | source/mutex_trylock.c:83-140 | in every run of locks, trylocks, unlocks and condvar waits |
| MutexKinds.ReachableFields | source/mutex_lock.c:123-181 | one thread at most is inside, the owner field names only the holder, it is empty at every post-acquire assertion, and a RECURSIVE count is its holder's depth |
| MutexKinds.SelfTestIsStable | source/mutex_lock.c:117 | no step of another thread changes the outcome of the unlocked self-ownership test |
| MutexKinds.OthersStayOk | source/mutex_unlock.c:28-36 | what a thread relies on survives every step of the others |
| MutexKinds.CondWaitRestoresDepth | source/cond_wait.c:133-258 | a condvar wait returns with the mutex as deep as at the call; its only error is EPERM, and exactly for a caller that did not hold the mutex |
| MutexKinds.UsersStayCounted | source/mutex_lock.c:540-543 | `__nusers` counts holders and condvar waiters, through both builds of lock and both kinds of unlock |
| MutexKinds.DestroyOnlyWhenUnused | source/mutex_destroy.c:20-25 | between calls, destroying succeeds exactly when nobody holds the mutex or waits with it |
| MutexKinds.DestroySucceedsIff | source/mutex_destroy.c:20-25 | in any state, it succeeds exactly when nobody is in a condvar wait and whoever has the lock word is not yet or no longer counted |
| MutexKinds.DestroyOvertakesIff | source/mutex_unlock.c:31-36 | over every run, exactly when it succeeds although the lock word is taken |
| MutexKinds.DestroyCanOvertake | source/mutex_lock.c:540-543 | both happen: under a thread on its way in and under one on its way out |
| MutexResults.LockReturns | source/mutex_lock.c:111-181 | over every run a lock succeeds exactly when it leaves its caller one level deeper, and with the lock word; EDEADLK exactly for the owner of an ERRORCHECK mutex, EAGAIN exactly for the owner of a RECURSIVE mutex at a full counter, nothing else, and then as deep as before |
| MutexResults.TryLockReturns | source/mutex_trylock.c:83-140 | over every run a trylock returns EBUSY exactly when the word was held at its one try, EAGAIN exactly for the owner of a RECURSIVE mutex at a full counter, and success exactly when it found the word free or its caller the owner of a RECURSIVE mutex with room |
| MutexResults.UnlockReturns | source/mutex_unlock.c:25-72 | over every run an unlock succeeds exactly for a caller that held the mutex, one level less deep afterwards, and without the word after the last level; EPERM to all others |
| MutexResults.CondWaitReturnsSignalled | source/cond_wait.c:132-258 | a condvar wait of a holder comes back only after the condvar let it go on, and with the lock word; while it waits it is one level less deep |
| MutexCode.Mutex.TestOwnerToLock | source/mutex_lock.c:114-143 | the ownership test of lock and trylock, with EDEADLK, EAGAIN at a full counter, or one level more |
| MutexCode.Mutex.TakeWord | source/mutex_trylock.c:107-134 | takes a free word and goes on; on a held one a trylock returns EBUSY with no shared field changed |
| MutexCode.Mutex.StartCount | source/mutex_lock.c:132 | a fresh holder's count agrees with its depth to be |
| MutexCode.Mutex.RecordOwner | source/mutex_lock.c:539-540 | the assertion before it holds |
| MutexCode.Mutex.CountUser | source/mutex_lock.c:541-543 | completes the lock |
| MutexCode.Mutex.TestOwnerToUnlock | source/mutex_unlock.c:49-72 | EPERM exactly for a caller that does not hold the mutex; on to the release exactly from the last level |
| MutexCode.Mutex.ForgetOwner | source/mutex_unlock.c:28-33 | owner and user count are given up while the word is still held |
| MutexCode.Mutex.ReleaseWord | source/mutex_unlock.c:35-40 | completes the unlock |
| MutexCode.Mutex.Destroy | source/mutex_destroy.c:20-25 | between calls, success means that nobody holds the mutex or waits with it; in any state, that nobody is counted |
| MutexOnFutex.StepRefines | source/mutex_lock.c:114-216 | a step of the mutex code on the futex lock is a step of the mutex protocol, or one that the mutex code does not see |
| MutexOnFutex.RunsRefine | source/lowlevellock.h:110-279 | the first n steps of every run of the two together are a run of the mutex protocol on an atomic lock, whose holder is the futex lock's owner: of exactly the steps that the mutex code sees, in order |
| MutexOnFutex.ThreadCanMove | source/mutex_trylock.c:131-134 | inside the mutex code only a sleeper stops, and a thread that locks a mutex it holds; a trylock never does |
| MutexOnFutex.TryLockAnswers | source/lowlevellock.h:79-95 | a trylock is answered by its one exchange: holder when the word is 0, otherwise EBUSY with the lock as it was |
| MutexOnFutex.WordTellsBuild | source/pthread_mutex_cond_lock.c:3-11 | the word after an acquisition is 2 when the condvar build took it or its thread waited, otherwise 1 |
| MutexOnFutex.CodeKeepsItsFields | source/mutex_unlock.c:28-72 | so mutual exclusion and the meaning of owner and count hold of the code with all its steps interleaved |
| AdaptiveSpin.LearnedStaysSmall | source/mutex_lock.c:214 | an update with any possible number of rounds keeps the spin counter in [0, 94] |
| AdaptiveSpin.BoundIsReached | source/mutex_lock.c:188-214 | 94 is exact: contention takes the counter there from every start |
| AdaptiveSpin.LearnedApproaches | source/mutex_lock.c:214 | the counter moves toward the number of rounds, by an eighth of the difference and never past it, and stays exactly within eight of it |
| AdaptiveSpin.CalmsDown | source/mutex_lock.c:214 | without contention it comes down to 8 or less from everywhere |
| AdaptiveSpin.CountersAreTheAccount | source/mutex_lock.c:148-206 | over every run the three counters of a thread are exactly its counted calls, its conflicts with each round as one, and its refused trylocks |
| AdaptiveSpin.ContendedAcquisitionLearns | source/mutex_lock.c:182-214 | over every run a contended acquisition goes through at most min(100, 2s + 10) rounds, or one more and the futex lock, and the counter learns exactly that number |
| AdaptiveSpin.StepKeepsInv | source/mutex_lock.c:178-216 | rounds stay within the limit, the counter's update is not raced, and failures of locks and counted trylocks stay within budget, for all threads and in both builds |
| AdaptiveSpin.OwnersMove | source/mutex_lock.c:178-216 | over every run two threads never have the mutex, and it is had after a step exactly by who had it and did not unlock, or took it free by a first try, a last round, the futex lock or a trylock |
| AdaptiveSpin.FailuresAreBounded | source/mutex_trylock.c:52-72 | over every run of locks, counted trylocks and unlocks: counter in [0, 94], and failures at most 101 per access on an adaptive mutex and one per access on the others; those on a recursive one are exactly its failed trylocks |
| AdaptiveSpin.SpinningMutex.LockContended | source/mutex_lock.c:182-215 | stops at the first try that succeeds or at the limit, after 1 to 101 rounds, each counted as one failure |
| PPLock.StepIsSafe | source/mutex_lock.c:494-527 | every exchange and futex call keeps mutual exclusion, the ceiling bits and the promise to sleepers |
| PPLock.RunsAreSafe | source/mutex_unlock.c:266-278 | over every run of locks, condvar locks, trylocks and unlocks, and with a sleeper there is an owner or an awake contender |
| PPProgress.NeverStuck | source/mutex_lock.c:509-525 | while work is left some thread can move: no sleeper is left behind |
| PPProgress.StepBrings | source/mutex_lock.c:509-525 | every step brings an operation nearer to its end, marks the word, or brings its thread nearer to one of these |
| PPProgress.EveryWorkloadFinishes | source/mutex_lock.c:478-527 | n threads with m operations in all take fewer than 2(6n+1)(3m+1) steps, failing exchanges included, and a run that cannot go on has finished all of them |
| PPResults.TriesNeverWait | source/mutex_trylock.c:408-441 | at no point of any run is a trylock in the inner loop, where it would mark the word and sleep |
| PPResults.TryEndsAtOnce | source/mutex_trylock.c:428-441 | its exchange gives it the mutex exactly when nobody owns it, and otherwise ends it with the word as it was |
| PPResults.CallReturns | source/mutex_lock.c:494-527 | over every run a lock ends only with the mutex; a trylock makes one exchange, has the mutex exactly when nobody owned it and otherwise leaves the word alone; the word is 2 in the condvar build and after waiting, otherwise 1 |
| PPResults.WaitersRetry | source/mutex_lock.c:517-525 | out of the futex call, however it ended, a thread tries for the mutex before anything else |
| PPResults.WakesOnlyIfMarked | source/mutex_unlock.c:266-278 | over every run an unlock wakes somebody exactly when the word was stored as 2 at the acquisition or marked since |
| PPLock.PPMutexWord.FirstExchange | source/mutex_trylock.c:428-441 | acquires exactly when nobody owns the mutex; otherwise the word stays, a trylock is over and a lock goes on to announce itself |
| PPLock.PPMutexWord.MarkExchange | source/mutex_lock.c:511-519 | announces a waiter to the owner, or finds that there is none; the ceiling stays |
| PPLock.PPMutexWord.RetryExchange | source/mutex_lock.c:523-525 | acquires exactly when nobody owns the mutex |
| PPLock.PPMutexWord.ClearExchange | source/mutex_unlock.c:268-278 | when it succeeds nobody owns the mutex |
| PriorityProtection.Priorities.ChangePriority | source/tpp.c:51-156 | the multiset of held ceilings changes by exactly the given two, or not at all; full counters and missing memory are reported; a scheduler error comes exactly when a moved maximum meets a failing call, after the change, and leaves the thread running as it was |
| PriorityProtection.Priorities.ScanDown | source/tpp.c:106-110 | finds the next lower ceiling in use, or one below the lowest |
| PriorityProtection.Priorities.CountUp | source/tpp.c:91-98 | one more use, refused at a full counter; the highest ceiling stays right |
| PriorityProtection.Priorities.CountDown | source/tpp.c:100-113 | one use less; the highest ceiling stays right, scanning only when it must |
| PriorityProtection.Priorities.NewTopAfterScan | source/tpp.c:106-111 | what the scan finds is the highest of the ceilings left |
| PriorityProtection.Priorities.Reschedule | source/tpp.c:118-151 | the maximum is stored first; unless a call fails the thread then runs at the higher of its own priority and the highest ceiling |
| PriorityProtection.Priorities.CurrentPriority | source/tpp.c:158-193 | its own priority, not one lent by a ceiling, or -1 if it cannot be read |
| PriorityProtection.Priorities.Lock | source/mutex_lock.c:483-492 | EINVAL exactly above the ceiling, if the own priority can be read; the ceilings held are unchanged on every error but the scheduler's, which comes exactly when the highest ceiling would rise and a call fails |
| PriorityProtection.RefusedLockStaysCharged | source/mutex_lock.c:490-492 | such a lock fails and leaves its ceiling charged |
| PriorityProtection.Priorities.TryLock | source/mutex_trylock.c:414-441 | a busy mutex leaves the ceilings held as they were, even if the scheduler refuses the way back |
| PriorityProtection.Priorities.Unlock | source/mutex_unlock.c:280-284 | gives back one use of the ceiling, whatever the scheduler says |
| PriorityProtection.PerformAll | source/tpp.c:51-156 | after any disciplined sequence of locks, trylocks and unlocks the thread holds the accounted ceilings and runs at the priority they call for |
| PPCeilings.StepKeepsInv | source/mutex_lock.c:477-525 | charging, each step on a lock word, and giving back keep the account of every thread in line with all lock words |
| PPCeilings.CallsAreAdmittedIff | source/mutex_lock.c:483-492 | at any point of any run a call is charged with the mutex's ceiling exactly when the thread's own priority is not above it and its counter has room, given memory; otherwise nothing changes |
| PPCeilings.ChargesAreOwnership | source/mutex_trylock.c:408-449 | at every point of every run over any mutexes and threads, a thread that is in no call is charged, for each priority, once for every mutex with that ceiling whose word it owns |
| PPCeilings.SameOwnershipSameCharges | source/mutex_trylock.c:437-441 | whatever happened in between, refused calls included, owning the same mutexes means holding the same ceilings |
| PPCeilings.OwnersRunAtTheirCeilings | source/tpp.c:139-147 | the priority that the account calls for is, while a thread owns a mutex, at least the mutex's ceiling, and nobody else owns the mutex |
| PPCeilings.GivenBackWasCharged | source/mutex_unlock.c:280-284 | the ceiling that a call reads from the word and gives back is the mutex's and has been charged, so that no counter goes below zero |
| ShadowMutex.StepKeepsInv | source/mutex_manager.cpp:37-92 | every access in the race to bind a mutex keeps slots unique and bindings final |
| ShadowMutex.BindingIsUniqueAndFinal | source/mutex_manager.cpp:76-92 | over every run the first word changes at most once, two mutexes never share a shadow, and what any thread loaded stays the binding |
| ShadowMutex.SlotIsInstalledOrLost | source/mutex_manager.cpp:81-88 | a thread that lets go of its slot has bound it to an unbound mutex, or nobody has it any more |
| ShadowMutex.LosersAreDropped | source/mutex_manager.cpp:76-92 | a slot that lost the race for its mutex is no mutex's binding at any later point of the run |
| SlotUse.BoundLocksTakeNoSlot | source/mutex_trylock.c:30-36 | over every run, a lock or trylock that begins on a bound mutex only tests and loads its first word, up to its return |
| SlotUse.TakersSawUnbound | source/mutex_manager.cpp:48-57 | whoever takes a slot has seen its mutex unbound before |
| SlotUse.PoolLasts | source/recordentries.hh:74-84 | however threads race, each takes at most one slot for each mutex: a pool with that many slots never ends the program |
| SlotUse.CallsAreShort | source/mutex_manager.cpp:59-92 | whatever the others do, a lock has its shadow after at most six accesses and an unlock after one |
| ApplicationMutex.RunsKeepInv | source/mutex_lock.c:68-77 | binding and locking interleave freely without breaking either |
| ApplicationMutex.MutualExclusion | source/mutex_trylock.c:30-36 | two threads are never inside the same application mutex, however they race through its first lock |
| ShadowCode.Registry.IsMyMutex | source/mutex_manager.cpp:48-57 | tells whether the mutex is bound; a bound one is fetched, and no slot is taken |
| ShadowCode.Registry.GetNextIndex | source/recordentries.hh:74-84 | a slot nobody else gets, or the end of the program |
| ShadowCode.Registry.LoadExpected | source/mutex_manager.cpp:78-79 | the value that the swap will compare with |
| ShadowCode.Registry.CompareAndSwap | source/mutex_manager.cpp:83-88 | installs exactly on an unbound mutex, and reports it |
| ShadowCode.Registry.GetMutex | source/mutex_manager.cpp:59-67 | never null |
| CasLoops.LoopsComputeEffects | source/atomic.h:260-310 | leaving early and swapping both amount to the operation's meaning |
| CasLoops.OrderIsSigned | source/atomic.h:260-310 | words are compared as signed: negative ones come first |
| CasLoops.OperationsKeepPromises | source/atomic.h:190-532 | by outcome: a maximum or minimum is one of the two signed words and bounds both, a decrement leaves zero and negative words alone, setting bits turns on those of the mask and keeps the others |
| CasLoops.MaskIsOneBit | source/atomic.h:418-434 | the masks of the bit operation are the single bits, each twice the one before |
| CasLoops.StepsKeepPromises | source/atomic.h:188-532 | a step of a loop that takes effect keeps that promise and adds a result that tells the word it found, or whether the bit was set; any other changes nothing |
| CasLoops.StepRefines | source/atomic.h:190-310 | a step is one whole atomic operation or changes nothing others see |
| CasLoops.RunsAreLinearizable | source/atomic.h:419-532 | memory and results after any run are those of atomic operations one after another, in the order in which the loops took effect |
| CasLoops.MeasureDrops | source/atomic.h:380-394 | every step brings all threads together nearer to the end |
| CasLoops.EveryWorkloadFinishes | source/atomic.h:190-532 | lock freedom: at most (3n+1)m + 2n steps for n threads and m operations under any schedule |
| CasLoops.Cell.Loop | source/atomic.h:188-310 | a loop under interference acts once, on a value that was in the cell |
| AsyncCancel.TestsAreOfBits | source/descr.h:261-290 | the two tests are those of the masks on the word of bits |
| AsyncCancel.ActsExactlyWhenDelivered | source/cancellation.c:91-101 | over every run a thread goes into `__do_cancel` exactly with the swap that makes it asynchronous, when a cancellation has been delivered, is enabled, and finds it not exiting |
| AsyncCancel.StepKeepsType | source/cancellation.c:78-149 | at each point of nested enables and disables the type bit is what the nesting calls for |
| AsyncCancel.RunsRestoreTheWord | source/cancellation.c:84-132 | over every run no bit set or cleared by others is lost, and the whole word is as if the calls had not been when all are undone |
| AsyncCancel.SettlingSawTheWord | source/cancellation.c:134-148 | the value a disable waits on was in the word since it cleared the bit |
| AsyncCancel.DisableReturnsUnpending | source/cancellation.c:138-148 | a disable that has the bit to clear returns only after having cleared it and then seen no pending cancellation |
| AsyncCancel.SettlesOnceUnpending | source/cancellation.c:138-148 | and with the first such observation |
| AsyncCancel.ThreadDescriptor.EnableAsyncCancel | source/cancellation.c:78-109 | sets the bit on top of the others' latest changes, returns the word before, and acts exactly when it made the thread asynchronous and a cancellation is delivered, enabled and not too late, also by the masks on the bits |
| AsyncCancel.ThreadDescriptor.DisableAsyncCancel | source/cancellation.c:112-149 | nothing for a caller that was asynchronous; otherwise clears the bit, and comes back exactly when nothing is pending |
| AsyncCancel.ThreadDescriptor.ClearType | source/cancellation.c:120-132 | the clearing loop keeps the others' changes |
| RobustList.RemovedAt | source/descr.h:203-215 | removal takes out exactly one entry and keeps the order of the others |
| RobustList.DequeueUndoesEnqueue | source/descr.h:187-246 | a mutex that is taken and given up leaves the list as if it had not been, whatever was taken and given up in between |
| RobustList.ListHoldsTheHeld | source/descr.h:187-246 | after any legal calls the list holds the mutexes whose last call was an enqueue, with that call's bit, the latest first |
| RobustList.DoublyLinkedList.PerformAll | source/descr.h:187-215 | the doubly linked pointers hold that list after any legal sequence of calls |
| RobustList.SinglyLinkedList.PerformAll | source/descr.h:223-248 | so do the singly linked ones |
| RobustList.DoublyLinkedList.Enqueue | source/descr.h:187-202 | refines push-front; each pointer's low bit belongs to the node it points to |
| RobustList.DoublyLinkedList.Dequeue | source/descr.h:203-215 | refines removal, and clears both pointers of the mutex |
| RobustList.Unlink | source/descr.h:205-214 | the paths on both sides of the mutex close up, bits included |
| RobustList.SinglyLinkedList.Enqueue | source/descr.h:223-229 | refines push-front |
| RobustList.Predecessor | source/descr.h:237-243 | the search ends, at the node before the mutex |
| RobustList.Bypass | source/descr.h:233-245 | the path skips the mutex |
| RobustList.SinglyLinkedList.Dequeue | source/descr.h:230-248 | refines removal; only a mutex that was not first has its own pointer cleared |
| CircularList.ListAdd | source/list.h:56-64 | the new node becomes the first element of the ring |
| CircularList.ListDel | source/list.h:67-73 | the ring closes around the element, whose own pointers stay |
| CircularList.PathsJoin | source/list.h:76-88 | linked paths that share an end are one linked path |
| CircularList.ListSplice | source/list.h:76-88 | the added elements follow the head in order; an empty list adds nothing |
| CircularList.ForEach | source/list.h:97-99 | visits exactly the elements, in order |
| CircularList.RingIsUnique | source/list.h:50-52 | the pointers determine the list |
| CircularList.DeleteUndoesAdd | source/list.h:56-73 | deleting what was just added gives the family back |
| CircularList.Perform | source/list.h:56-88 | one operation on a family of disjoint lists does to the pointers what it means for the sequences |
| CircularList.PerformAll | source/list.h:56-88 | so does any allowed sequence of them: all lists stay in shape and disjoint |
| ThreadLevels.StepKeepsValid | source/xthread.h:217-282 | creating and joining keep the levels consistent |
| ThreadLevels.ReachableLevels | source/xthread.h:400-421 | in every run alive = created - joined, multithreaded iff more than one is alive iff the level is odd, and each created thread is in exactly one parallel phase |
| ThreadLevels.PhasesPartitionThreads | source/xthread.h:182-197 | the ranges of the parallel phases are disjoint and cover exactly the created threads |
| ThreadLevels.RecordedLevelIsOwnPhaseIff | source/xthread.h:233-257 | a thread recorded its own phase exactly when it did not begin it |
| ThreadLevels.NewThreadRecordsOwnPhaseIff | source/xthread.h:233-257 | asked before the creation: exactly when more than one thread is alive |
| ThreadLevels.FirstThreadRecordsSerialLevel | source/xthread.h:233-257 | the first created thread records level 0 while it begins level 1 |
| ThreadLevels.ThreadTable.AllocThreadIndex | source/xthread.h:217-282 | hands out the next index and updates the levels; ends the program exactly when a thread table is full; runs past the level table exactly when a new phase has no level left |
| ThreadLevels.ThreadTable.MarkThreadExit | source/xthread.h:400-421 | ends the parallel phase with its last thread, or runs past the level table when no level is left |
| SharingMap.SharedMeansTwoTouchers | diagnosis_tool/src/sync_track.cpp:97-101 | shared means touched by at least two threads |
| SharingMap.MapAgreesAfter | diagnosis_tool/src/sync_track.cpp:92-122 | an access keeps every entry in agreement with the trace |
| SharingMap.SentinelIff | diagnosis_tool/src/sync_track.cpp:97 | the sentinel marks exactly the shared addresses |
| SharingMap.Tracker.DoMemAccess | diagnosis_tool/src/sync_track.cpp:92-122 | the map agrees with the longer trace, and the result tells whether the address is now shared |
| SharingMap.AddressCounted | diagnosis_tool/src/sync_track.cpp:263-267 | what one entry contributes to the totals |
| SharingMap.Tracker.Totals | diagnosis_tool/src/sync_track.cpp:260-267 | the totals are the numbers of calls, and of calls to addresses that ended up shared, in 32 bits |
| ProfileReport.CellsAreApart | source/mutex_manager.cpp:157-161 | two threads or two mutexes never share a cell, and cell indices fit 31 bits |
| ProfileReport.Matrix.IncAccessCount | source/mutex_manager.cpp:163-169 | one counter of one cell moves, nothing else |
| ProfileReport.Matrix.IncFailCount | source/mutex_manager.cpp:171-174 | likewise |
| ProfileReport.Matrix.IncTrylockFailCount | source/mutex_manager.cpp:234-237 | a failed trylock moves two counters of one cell, its own and `fail_count`, and nothing else |
| ProfileReport.Matrix.AddFutexWait | source/mutex_manager.cpp:198-207 | likewise for a waiting time |
| ProfileReport.AddKeepsSums | source/report.h:281-290 | one round of the inner loop keeps the totals equal to the sums, counts modulo 2^32 |
| ProfileReport.SumThreads | source/report.h:281-293 | a mutex's totals, and the threads' waits including it |
| ProfileReport.SumAll | source/report.h:265-293 | all totals and all waits, with the same grand total |
| ProfileReport.WaitsAreConserved | source/report.h:288-292 | summing the waits by thread or by mutex gives the same |
| ProfileReport.RateIsBounded | source/report.h:301 | failures within k per access give a conflict rate within k hundred percent, and a reported one where that is right |
| ProfileReport.ReportedRateIsRightIff | source/report.h:273-301 | exactly when the rate computed from 32-bit totals is the rate of all accesses that the cells count |
| ProfileReport.ContentionCanVanish | source/report.h:301 | 42949673 failures in as many accesses, a rate of 100, are computed as nearly 0 |
| ProfileReport.ContentionCanAppear | source/report.h:281-301 | 5 failures in 2^32 + 10 accesses of two threads are computed as 50 |
| ProfileReport.Classify | source/report.h:297-363 | each list holds, in order, exactly the mutexes that its counts put there: over 5% of failures, as far as the 32-bit product tells, or not, and over max(ms, 1000) accesses, or not |
| ProfileReport.ThresholdsAreOfCounts | source/report.h:301-302 | the comparisons of rate and frequency with their thresholds are these comparisons of counts |
| ProfileReport.UpdateCallStackMap | source/report.h:145-157 | the map holds, for each call site used, the rates of its uses in order |
| ProfileReport.Extremes | source/report.h:165-174 | the least and the greatest rate |
| ProfileReport.FindAsymmetricLocks | source/report.h:159-180 | exactly the call sites at which two locks differ by more than ten points, each once |

## Left out

- Priority-inheriting mutexes: the unlock body is compiled out and its cases fall into the priority-protect code.
- Robust mutexes as protocols: the lock body is compiled out. The list macros are modelled.
- Lock elision, which is stubbed.
- Owner and recursion count of priority-protect mutexes: they follow the same tests as the other kinds; the lock word and the ceilings are what is different, and those are modelled.
- PriorityProtection.PerformAll: scheduler calls succeed; after a scheduler error the account is of calls, not of mutexes. The policy itself, which is passed on to the scheduler, is not modelled.
- PPCeilings.ChargesAreOwnership: scheduler calls succeed and ceilings are fixed, so that the outer loop is not repeated with another ceiling; a thread does not lock a mutex that it owns.
- `pthread_setprioceiling`, `pthread_cond_signal`, `pthread_cond_broadcast` and `pthread_cond_destroy`: not part of the repository. The two wakes for a waiting destroyer are not part of this model.
- The mutex that the cancellation handler names: it passes an already translated shadow to a function that translates again. Taking the mutex back after a wait is part of the mutex model, not of the condition variable's.
- The invalid kind that a successful `pthread_mutex_destroy` stores, and initialisation of a mutex already in use.
- MutexOnFutex.RunsRefine: a thread that locks a NORMAL mutex it already holds, or an ADAPTIVE one, stops there; its steps inside the futex lock are not modelled.
- AdaptiveSpin.StepKeepsInv: counters do not wrap; the word that the plain path tests before it waits may be seen at any value.
- AsyncCancel.ThreadDescriptor.DisableAsyncCancel: spurious returns of the futex wait are not distinguished from wakeups.
- CondOnFutex.RunsRefine: a cancellation arrives only between the regions and outside the code of the lock; a signal or broadcast is one step of a thread that has the condvar's lock.
- CasLoops.Cell.Loop: at most one change by others falls between a read and the swap that follows; the protocol has no such limit. Cells are signed 32-bit words.
- PriorityProtection.Priorities.TryLock: whether the mutex is busy is a parameter; `pp_ceilings.dfy` ties the account to the lock words.
- ProfileReport.FindAsymmetricLocks: sites are reported in no particular order, and rates are real numbers.
- ProfileReport.ReportedRateIsRightIff: totals and product are 32-bit words, and the division after them is exact.
- ShadowMutex.StepKeepsInv: the pool's counter does not wrap, and only the first word of an application mutex is modelled.
- SharingMap.Tracker.DoMemAccess: calls are atomic; which instructions lead to a call is not modelled.
- ThreadLevels.ThreadTable.AllocThreadIndex: what happens after an index past the level table, which the source does not check.
- Child ranges, parents and running times of threads, disabled or without a property to state.
- The counters for condvar waits, which are updated like those that are modelled.
- Timing, stack walking, symbol lookup, report formatting, interposition, signal handlers and instrumentation, and weak memory ordering.
