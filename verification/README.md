# TinyCoroutine: a verified model

TinyCoroutine runs fibers on any number of worker threads. A worker takes tasks from a shared queue, an
ordered timer set and an epoll event registry wake suspended fibers, and hooked system calls park a fiber
until an event or a timer wakes it. This project models those parts in Dafny and proves what they keep in
every run.

The project has two kinds of modules. Data structures that the source updates in place are classes whose
methods are tied, by `ensures`, to an operation on a value; the laws are lemmas about these operations.
The concurrent parts are transition systems: a step is one critical section, one read or write of an
atomic variable, one system call or one transfer of control, and any sequence of enabled steps is a run.
Clock readings, the kernel's answers, and what the programs in the fibers do are free choices.

| file | what it models |
|---|---|
| TimerSet, TimerLaws | the operations of code/timer.cpp on values; their laws |
| TimerExpiry, TimerRuns | `listExpireCb`, when it ends, what it emits; whole histories of a manager |
| TimerManager | the classes Timer and TimerManager |
| Registry | the event registry as a map; conservation over histories; the asserts of `idle` |
| EventMasks, IoManager | bit masks; the classes FdContext and IOManager with the epoll interest list |
| TaskQueue | the queue, the scan of `run` and the class Scheduler |
| Runtime | workers, fibers, queue, registry and timers as one machine, for any number of workers |
| RuntimeHistory | what a run has posted, set, handed over and registered, told by its steps alone |
| RuntimeSafety, WakeTokens, Quiescence, Shutdown | what holds in every run of that machine |
| Handshake | `m_tickled`, the idle count and the pipe against a worker about to wait |
| Activation, Fiber | transfer of control between fibers; the class Fiber and the thread-locals |
| OwnWait | the registration a fiber makes and yields for, in a registry others use too |
| Connect | the race of timer and event in `connect_with_timeout`, over the timer histories and the event registry |
| DoIo, IoRounds | the retry loop of `do_io`; its rounds over the timer histories and the event registry |
| Descriptors | the descriptor table and the hooked F_SETFL and F_GETFL |

Claims that the code does not meet in general are stated with the exact condition under which it does, or
with a concrete run that breaks them:

- The comparator looks at the deadline only, so a timer inserted at a taken deadline is dropped, and an
  operation on it acts on the other holder (`CancelRefines`, `Rekeyed` in `RefreshRefines` and `ResetRefines`).
- `listExpireCb` need not end (`EndsExactly`, `ZeroPeriodNeverEnds`); a recurring timer that expires may drop out of
  the set with its callback (`RenewsIff`, `SecondDropsOut`); a timer fires early exactly on a rollover that finds a
  deadline still to come (`EarlyFiringIff`).
- `reset` gives up the lock between its erase and its insert. A cancel in between returns true and yet the timer may
  come back, and a refresh in between may put the timer back so that its deadline changes inside the set
  (`PutBackRefines`, `ApplyEvolves`, `ResetRaceExactly`, `RefreshRaceExactly`).
- A report that is neither disjoint from nor contained in the mask breaks an assert (`DispatchAsserts`, `StaleReport`).
- A table resized to an older, smaller size may cut off registrations (`ContextResize`), and a `close` whose
  cancelAll fails leaves the table out of step with the kernel (`Close`); `ResizeCutsOff` and `CloseLosesMirror`
  are runs of that kind.
- An entry posted by another thread after a worker has seen quiescence may be left in the queue (`LatePostStays`).
- `IOManager::stopping` is not one atomic read: a timer, an event or an entry that another thread adds after the
  worker has read its absence is left behind (`LateTimerStays`, `LateEventStays`, `LateEntryStays`), and with two
  workers or more a timer that a task sets (`TwoWorkers`).
- The connect timeout can be lost, can be reported although the event won, and a callback can cancel a later
  wait; when exactly is in `TimeoutPendingIff`, `TimeoutReportedIff` and `LaterWaitCancelledIff`.
- In `do_io` a wait can end as timed out before its own timer fires, by a callback of an earlier round
  (`LateTimeoutIff`, `LateCallbackReached`), and one can cancel a later call's wait (`IoRounds.LaterWaitCancelledIff`).
- `resume` must be called from the fiber it saves into (`ResumeThenYield`, `NestedResume`).

No code sets `m_isClosed` (code/fd_manager.h:19), so the EBADF branch of `do_io` is modelled but never taken
in the source.

## Model

| member | source | states |
|---|---|---|
| TimerSet.LowerBound | code/timer.cpp:12-16 | the position the deadline-only comparator assigns: every key before it is earlier, the key at it is not |
| TimerSet.OccupiedIff | code/timer.cpp:12-16 | a lookup succeeds exactly when some member has that deadline, whoever it is |
| TimerSet.DetectMeaning | code/timer.cpp:69-77 | the reading is remembered, and is a rollover exactly when it is more than an hour before the last one |
| TimerLaws.NewRefines | code/timer.cpp:79-93 | a new timer is entered exactly when its deadline was free; the worker is told exactly when no deadline is earlier and nobody was told since the last timeout was computed |
| TimerLaws.CancelRefines | code/timer.cpp:18-29 | cancel succeeds exactly for a live callback, and removes just that timer exactly when it is a member or nobody holds its deadline |
| TimerLaws.RefreshRefines | code/timer.cpp:31-45 | refresh succeeds exactly when its deadline is held; only this entry moves exactly when it was itself the holder and the new deadline is free |
| TimerLaws.ResetRefines | code/timer.cpp:47-67 | the same for a reset with nothing between its two sections: its early return, the new period, the new deadline that period after now or after the time the timer was last started, and when it tells the worker |
| TimerLaws.TakeRefines | code/timer.cpp:52-60 | the first section of reset succeeds exactly for a live timer whose deadline is held, and leaves the timer outside a well-formed set |
| TimerLaws.PutBackRefines | code/timer.cpp:62-65 | the second section, wherever the timer is by then: outside, it keeps the set well formed if and only if the timer still has its callback or its new deadline is taken, and enters the timer exactly when that deadline is free; put back meanwhile, if and only if its new deadline passes no other |
| TimerLaws.CancelledInBetween | code/timer.cpp:52-65 | a cancel between the sections returns true, and the timer comes back without callback exactly when its new deadline is free |
| TimerLaws.RekeySafe | code/timer.cpp:41-43 | in a refresh, and in a reset with nothing between its sections, a timer is outside the set while its deadline is changed |
| TimerLaws.ResetsCompose | code/timer.cpp:47-67 | on a live timer whose deadline is held, reset(a) then reset(b) from the start leaves every timer as reset(b) alone; the deadline set agrees exactly when the deadline passed through was free |
| TimerLaws.TimeoutMeaning | code/timer.cpp:116-134 | all ones exactly for the empty set, 0 exactly when the first deadline is less than a millisecond away, else bracketing it; `idle` waits 5000 ms for an empty set, else the smaller of timeout and 5000 ms, and never past the first deadline |
| TimerLaws.ScheduleDeadlines | code/timer.cpp:12-16 | the map from timer to deadline and the key set of the tree agree |
| TimerExpiry.DueIff | code/timer.cpp:142 | the loop regards as expired exactly the members due by the clock, or all on a rollover |
| TimerExpiry.TurnShape | code/timer.cpp:144-153 | one turn takes out the first timer and re-enters it, in order, exactly when it is recurring and its next deadline is free |
| TimerExpiry.ExpireMeaning | code/timer.cpp:136-155 | emits the callbacks due on entry, once each and in deadline order; leaves the later deadlines with now + period of each expired recurring timer; touches no other timer |
| TimerExpiry.ExpireFields | code/timer.cpp:144-153 | every expired recurring timer is restarted from the reading, every expired one-shot timer loses its callback, and both callbacks are emitted |
| TimerExpiry.ExpireMembers | code/timer.cpp:142-154 | nobody enters the set through the loop, and whoever was not due stays |
| TimerExpiry.RenewsIff | code/timer.cpp:147-151 | without a rollover an expired timer is a member after the loop if and only if it is recurring, no member held its next deadline on entry, and no earlier expired recurring timer has the same period |
| TimerExpiry.SecondDropsOut | code/timer.cpp:147-151 | two recurring timers of one period that expire together: the second drops out with its callback |
| TimerExpiry.RolloverEmpties | code/timer.cpp:69-77 | a rollover whose loop ends emits everything in order and empties the set |
| TimerExpiry.EndsExactly | code/timer.cpp:142-154 | the loop ends if and only if every expired recurring timer that would be re-entered as expired finds its next deadline held by a later member |
| TimerExpiry.NeverEnds | code/timer.cpp:142-154 | otherwise the loop condition holds after any number of turns |
| TimerExpiry.ZeroPeriodNeverEnds | code/timer.cpp:147-151 | a recurring timer with period 0 keeps the loop going for ever |
| TimerRuns.ApplyEvolves | code/timer.cpp:18-155 | every critical section, those of reset one by one with anything in between, revives no callback and keeps the set well formed, unless it is the second section of a reset that enters a timer without callback or moves a member past another deadline |
| TimerRuns.OwnFields | code/timer.cpp:18-67 | period, deadline, kind and callback with which each operation leaves the timer it is called on |
| TimerRuns.OwnPlace | code/timer.cpp:18-93 | whether it leaves the timer in the set, what a reset remembers between its sections, and that a cancel is noted exactly for a live timer |
| TimerRuns.EmitsExactly | code/timer.cpp:136-155 | listExpireCb emits exactly the members due, or all on a rollover, in deadline order and as they were |
| TimerRuns.Remembered | code/timer.cpp:69-77 | over every history the reading a rollover is told from is that of the last listExpireCb, and the readings remembered are those taken |
| TimerRuns.AloneSpoilsNothing | code/timer.cpp:47-67 | that never happens when no thread cancels, refreshes or resets a timer another one is resetting |
| TimerRuns.Bystander | code/timer.cpp:18-93 | an operation leaves the record of every other timer alone, and its membership unless it looks up and erases the same deadline |
| TimerRuns.OneShotOnce | code/timer.cpp:147-153 | over every interleaving of critical sections in which no reset spoils the set, a one-shot timer is emitted at most once |
| TimerRuns.SilentForever | code/timer.cpp:22-60 | in such interleavings a timer without callback is never emitted again, whatever refresh or reset is called |
| TimerRuns.CancelSilences | code/timer.cpp:18-29 | cancel of a live timer returns true, and nothing after it emits the timer |
| TimerRuns.CancelIsFinal | code/timer.cpp:18-29 | in such interleavings, once cancel has returned true the timer is never emitted again |
| TimerRuns.NoEarlyFiring | code/timer.cpp:5-10 | in such interleavings, unless a reading under the lock is more than an hour back (a rollover), every emitted timer had been started at a reading taken before and its whole period had passed |
| TimerRuns.EarlyFiringIff | code/timer.cpp:69-77 | one call of listExpireCb emits only timers due by its reading if and only if it sees no rollover or every deadline has come |
| TimerRuns.ResetRaceExactly | code/timer.cpp:52-65 | a cancel inside a reset returns true and spoils the set if and only if the new deadline is free; the timer is then a member without callback, and an empty callback is emitted for it |
| TimerRuns.ResetRace | code/timer.cpp:52-65 | a set on which that happens |
| TimerRuns.RefreshRaceExactly | code/timer.cpp:31-65 | a refresh inside a reset, when another timer has taken the old deadline, puts the timer back exactly when its next deadline is free; the second section then keeps the set well formed if and only if the timer passes no other deadline |
| TimerRuns.RefreshRace | code/timer.cpp:31-65 | a set on which the order breaks |
| TimerManagers.Timer.Cancel | code/timer.cpp:18-29 | the in-place cancel is the operation on values and keeps objects, list and flags tied to it |
| TimerManagers.Timer.Refresh | code/timer.cpp:31-45 | likewise for refresh |
| TimerManagers.Timer.TakeForReset | code/timer.cpp:52-60 | the in-place first section of reset |
| TimerManagers.Timer.PutBack | code/timer.cpp:62-65 | the in-place second section, on a timer outside the set |
| TimerManagers.Timer.Reset | code/timer.cpp:47-67 | both sections with nothing in between are the reset on values |
| TimerManagers.TimerManager.Position | code/timer.cpp:84 | the search finds the comparator's position |
| TimerManagers.TimerManager.AddTimer | code/timer.cpp:79-93 | the insert and the front test on the in-place list |
| TimerManagers.TimerManager.NewTimer | code/timer.cpp:100-105 | a new timer object is owned by the manager and entered |
| TimerManagers.TimerManager.GetNextTimer | code/timer.cpp:116-134 | clears the flag and computes the timeout |
| TimerManagers.TimerManager.DetectClockRollover | code/timer.cpp:69-77 | reports a step back of more than an hour and remembers the reading |
| TimerManagers.TimerManager.ListExpireCb | code/timer.cpp:136-155 | the while loop over the list of timers has the meaning of Expire, given that it ends |
| EventRegistry.FireInv | code/ioscheduler.cpp:33-46 | a triggered registration moves to the posted ones and to nowhere else |
| EventRegistry.Conservation | code/ioscheduler.cpp:125-373 | over every history successful addEvent calls equal pending plus posted plus dropped, and nothing is posted twice |
| EventRegistry.DispatchAsserts | code/ioscheduler.cpp:122-145 | the asserts of triggerEvent hold for a report if and only if it is disjoint from or contained in the mask or epoll_ctl fails; the mask left is the one written to epoll |
| EventRegistry.StaleReport | code/ioscheduler.cpp:122-139 | a report with one stale event breaks the assert |
| EventRegistry.OpTraces | code/ioscheduler.cpp:202-377 | an operation posts only what was registered, and registers only what it is called with |
| EventRegistry.OpMeaning | code/ioscheduler.cpp:202-377 | what each operation does to every slot: it posts what it hits, READ before WRITE, forgets what delEvent names, registers what addEvent asks for, and leaves the rest |
| EventRegistry.PostedAsAsked | code/ioscheduler.cpp:238-249 | over every history, what is posted goes to the scheduler, and is the fiber or callback, with which its addEvent was called; what is registered is so under its own key |
| EventMasks.MaskLaws | code/ioscheduler.h:13-18 | the bit operations on m_event are the set operations |
| EventMasks.MaskBits | code/ioscheduler.h:13-18 | READ is bit 0 and WRITE bit 2 of a mask, and no other bit is set |
| EventMasks.WatchedBits | code/ioscheduler.cpp:226 | what is written to epoll: bit 0 exactly for READ, bit 2 exactly for WRITE, bit 31 always, nothing else |
| EventMasks.ReadyLaws | code/ioscheduler.cpp:114-121 | how errors and hang-ups widen a report |
| EventMasks.ReportBits | code/ioscheduler.cpp:114-121 | a report stands for READ exactly with bit 0, or with an error or hang-up while READ is registered; likewise WRITE with bit 2 |
| EventMasks.MaskSets | code/ioscheduler.cpp:122-125 | meeting and clearing masks are intersection and difference |
| IoManagers.Epoll.Ctl | code/ioscheduler.cpp:229-234 | an epoll_ctl that does not fit the interest list fails, a failure changes nothing |
| IoManagers.FdContext.SlotShape | code/ioscheduler.cpp:13-46 | a bit is set exactly when its slot holds a scheduler and exactly one handle, clear exactly when the slot is empty |
| IoManagers.FdContext.TriggerEvent | code/ioscheduler.cpp:33-46 | the call of scheduleLock goes to the scheduler of the registration with its fiber or callback, and the slot is emptied |
| IoManagers.FdContext.Fill | code/ioscheduler.cpp:238-249 | a new registration finds its slot empty, as asserted, and fills it |
| IoManagers.MirrorUpdate | code/ioscheduler.cpp:224-234 | a descriptor is in the interest list exactly when its mask is nonzero, with that mask, after every accepted epoll_ctl |
| IoManagers.IoManager.Watching | code/ioscheduler.cpp:224-234 | a descriptor is watched exactly when an event is registered, with just the bits of its registered events and edge triggering |
| IoManagers.KernelBatchLegal | code/ioscheduler.cpp:101-146 | a buffer of descriptors and events the kernel was asked to watch meets every assert whatever other threads register, and whatever they do to other descriptors, before its entries are reached |
| IoManagers.IoManager.ContextResize | code/ioscheduler.cpp:155-165 | for any size, also a smaller one: the table stays in order if and only if no descriptor with a registration is cut off |
| IoManagers.ResizeCutsOff | code/ioscheduler.cpp:155-165 | a resize to an older, smaller size that cuts a registration off |
| IoManagers.IoManager.Control | code/ioscheduler.cpp:224-234 | the operation chosen always fits the interest list, so it fails only when the kernel is unwilling |
| IoManagers.IoManager.AddEvent | code/ioscheduler.cpp:202-251 | registers the callback, or else the calling fiber, with its scheduler exactly when the event was free and epoll_ctl succeeds, else changes nothing; table, mirror, counter and registry agree again |
| IoManagers.IoManager.DelEvent | code/ioscheduler.cpp:253-290 | forgets the registration and schedules nothing; a failed epoll_ctl changes nothing although the result is true |
| IoManagers.IoManager.CancelEvent | code/ioscheduler.cpp:292-329 | schedules what is registered at once, under the same conditions |
| IoManagers.IoManager.CancelAll | code/ioscheduler.cpp:331-377 | schedules everything registered for the descriptor, READ first, and leaves none |
| IoManagers.IoManager.DispatchReport | code/ioscheduler.cpp:111-145 | one report schedules each registered event it stands for once, READ first, and has the effect of the registry operation |
| IoManagers.IoManager.DrainPipe | code/ioscheduler.cpp:104-109 | the pipe is empty afterwards |
| IoManagers.IoManager.Dispatch | code/ioscheduler.cpp:101-146 | the loop over the event buffer, stale or not, with anything other threads and workers do to the registry before each entry: it meets every assert when each entry is legal as it is reached, and has the effect of edits and entries in order |
| IoManagers.IoManager.PendingIsSetBits | code/ioscheduler.cpp:125-145 | between critical sections m_pendingEventCnt is the sum over the descriptors of the set bits in m_event |
| IoManagers.IoManager.Close | code/hook.cpp:346-361 | after the hooked close the interest list still mirrors the table if and only if cancelAll had nothing to do or succeeded |
| IoManagers.CloseLosesMirror | code/hook.cpp:346-361 | a close while epoll_ctl refuses leaves a mask the interest list does not have |
| TaskQueue.FirstAllowed | code/scheduler.cpp:37-53 | the first entry allowed on the thread |
| TaskQueue.ScanMeaning | code/scheduler.cpp:37-53 | every entry before the one taken is pinned to another thread, the one taken is for any thread or this one, and just that one goes |
| TaskQueue.WithoutOrdered | code/scheduler.cpp:51 | taking one entry keeps exactly the others, in order |
| TaskQueue.TakesEarliest | code/scheduler.cpp:39-53 | no entry allowed on the thread was posted before the one taken |
| Schedulers.Scheduler.ScheduleLock | code/scheduler.h:95-111 | appends unless the handle is empty; asks for a tickle exactly when the queue was empty |
| Schedulers.Scheduler.Take | code/scheduler.cpp:32-56 | takes the first allowed entry, counts it as active, keeps the rest; tickle_me exactly when entries remain |
| RuntimeHistory.EntriesAsPosted | code/scheduler.h:95-111 | over every run every entry, queued or taken, has the body and the thread it was posted with, numbered in the order of the posts; an event posts what is registered, for any thread |
| RuntimeHistory.ExpiredArePosted | code/ioscheduler.cpp:92-99 | over every run the callbacks a worker takes over from the due timers are, in order and each once, those it has posted for any thread and then those it still has to post |
| RuntimeHistory.TimersAsSet | code/timer.cpp:100-105 | over every run a timer is set, with its callback, exactly as the steps have last set, cancelled or expired it |
| RuntimeHistory.RegistryAsCalled | code/ioscheduler.cpp:202-377 | over every run the registry is what its calls make of the empty one, and what it has posted is what was asked for |
| RuntimeHistory.WorkerFlow | code/scheduler.cpp:30-93 | where a worker goes from each place in `run` and in its idle fiber, and which fiber it locks for the entry it takes |
| RuntimeHistory.FiberFlow | code/scheduler.cpp:61-80 | a fiber's state changes only by its own worker's resume, yield and end |
| RuntimeSafety.ExclusiveStep | code/scheduler.cpp:61-80 | mutexes, phases and RUNNING states agree after every step |
| RuntimeSafety.MutualExclusion | code/scheduler.cpp:61-80 | for any number of workers a fiber is executed by at most one, under its mutex; a worker that has locked a fiber resumes it exactly when it is READY and never finds it RUNNING; a worker holds at most one mutex |
| RuntimeSafety.CallerRunning | code/ioscheduler.cpp:246-249 | the fiber that calls addEvent is RUNNING, as asserted there |
| RuntimeSafety.TermForever | code/fiber.cpp:162-174 | a finished fiber never runs again however often it is queued |
| RuntimeSafety.CountedStep | code/scheduler.cpp:52-78 | the active count is the number of workers between take and decrement |
| RuntimeSafety.TakeLedger | code/scheduler.cpp:35-56 | taking moves one entry from queued to consumed |
| RuntimeSafety.FairQueueStep | code/scheduler.cpp:35-56 | every step keeps the ledger of entries and the queue discipline |
| RuntimeSafety.QueueDiscipline | code/scheduler.cpp:35-56 | over all runs every entry is taken at most once, on a thread it allows, and whatever a worker takes was posted before every other entry it might take that is taken later by anyone or still queued, pinned entries included |
| WakeTokens.FireTokens | code/ioscheduler.cpp:33-46 | an event that fires hands its wake-up over to the queue |
| WakeTokens.TakeTokens | code/scheduler.cpp:49-64 | taking an entry turns its wake-up into a worker at the fiber's mutex |
| WakeTokens.TokenStep | code/scheduler.h:95-111 | whatever any fiber does, a step changes a fiber's wake-ups by what it makes (a post, a registration, a callback's fiber) less what it uses up (a resume, a delEvent) |
| WakeTokens.TokenBalance | code/ioscheduler.cpp:33-46 | so in every run the wake-ups of a fiber are those made less those used up: events that fire, cancels and takes lose and duplicate none |
| WakeTokens.ResumeLinear | code/scheduler.cpp:64-66 | a fiber with one wake-up that is found at its mutex is READY, and resuming uses the wake-up up |
| WakeTokens.LinearStep | code/fiber.cpp:109-134 | a fiber with the wake-ups due to its state has them after a step if and only if it is not posted twice, registers once before each yield, leaves no registration at its end, and loses none to delEvent in this step, whatever other fibers do |
| WakeTokens.TokenLinearity | code/ioscheduler.cpp:33-46 | in every interleaving, whatever the other fibers do, a fiber posted once that waits by addEvent and yield has exactly one wake-up while suspended, one or none while running as it has registered or not, none after TERM |
| Quiescence.QuiescentStep | code/scheduler.cpp:107-111 | Scheduler::stopping, once true, is ended by an entry that another thread posts, or wakes by cancelling a wait, and by nothing else; no worker posts or takes |
| Quiescence.QuiescenceStable | code/scheduler.cpp:107-111 | it stays true over every run in which no other thread posts or cancels a wait |
| Quiescence.LeavesOnlyWhenDone | code/scheduler.cpp:82-88 | if other threads post, or wake by cancelling, only until some worker has seen quiescence, then when a worker has left `run` the queue is empty, nothing executes and every entry was consumed exactly once |
| Quiescence.LatePostStays | code/scheduler.cpp:82-88 | for every such state: an entry posted after a worker has seen quiescence and stopped looking for it is left in the queue when the worker leaves |
| Quiescence.LatePostTaken | code/scheduler.cpp:35-56 | while the worker is still to scan for it, its next step takes the entry |
| Quiescence.LatePost | code/scheduler.cpp:168-194 | a run from the start that leaves an entry behind |
| Shutdown.RegistryStep | code/ioscheduler.cpp:202-377 | the registry of the running system is the conserved one |
| Shutdown.ClosingStep | code/ioscheduler.cpp:56-76 | what the sole worker has read stays so while it reads on |
| Shutdown.LeavesNothing | code/ioscheduler.cpp:56-76 | if other threads add nothing the sole worker has just read the absence of, then when it has left `run` no timer, no event and no task remains, every entry is consumed and every registration posted or dropped |
| Shutdown.LateTimerStays | code/ioscheduler.cpp:58-59 | for every such state: a timer added after the worker has read the timers, with nothing else left, stays behind |
| Shutdown.LateEventStays | code/ioscheduler.cpp:58-59 | likewise an event registered after the worker has read the pending counter |
| Shutdown.LateEntryStays | code/scheduler.cpp:82-88 | likewise an entry posted after the worker has seen quiescence and scanned for it |
| Shutdown.TwoWorkers | code/ioscheduler.cpp:58-59 | for every number of workers from two on, one can leave with a timer set although other threads add nothing |
| Handshake.AddKeys | code/timer.cpp:79-93 | addTimer reports the front exactly when no deadline is earlier and the flag was clear |
| Handshake.RefreshKeys | code/timer.cpp:31-45 | a refresh brings no deadline closer, so it needs no tickle |
| Handshake.ComputeCovers | code/ioscheduler.cpp:82-86 | a wait begins with a timeout that ends it at once or by the first deadline, and with the flag clear |
| Handshake.DeadlinesFlow | code/timer.cpp:18-155 | each step changes the deadlines by what it removes and then by what it brings |
| Handshake.TickleFlow | code/ioscheduler.cpp:48-54 | a thread decides on a tickle exactly when a new deadline comes first with nobody told, or a post finds the queue empty; it writes a byte only if the worker is idle; the drain empties the pipe |
| Handshake.PlaceFlow | code/ioscheduler.cpp:67-109 | where the worker goes, and the wait it begins |
| Handshake.HandshakeStep | code/timer.cpp:79-134 | every step of the worker and of any other thread, operations inside another thread's reset included, keeps the handshake |
| Handshake.NoTimerSleptThrough | code/ioscheduler.cpp:48-109 | whenever the worker waits, the wait ends by the first deadline, or a byte is in the pipe, or a thread is committed to writing one |
| Activation.ResumeActive | code/fiber.cpp:83-107 | resume extends one chain by a fiber that was on none |
| Activation.YieldToCaller | code/fiber.cpp:109-134 | the fiber below on the chain waits in the resume that is to come back |
| Activation.ActivationChain | code/fiber.cpp:83-174 | in both setups the RUNNING fibers are exactly thread fiber, scheduler fiber if distinct, and current task or idle fiber of each thread; t_fiber is the last |
| Activation.YieldMatchesResume | code/fiber.cpp:109-134 | yield, and the end of a fiber, come back to the latest resume that has not come back |
| Activation.GoesOnBehindYield | code/fiber.cpp:83-134 | in every reachable state a resumed fiber starts in MainFunc if it has not been resumed since it was made or reset, and else goes on on its own stack behind its latest yield |
| Activation.StateFlow | code/fiber.cpp:83-174 | what each step does to the state of every fiber |
| Activation.ThreadFlow | code/fiber.cpp:139-153 | a thread's fibers change by its own steps only, its thread fiber never |
| Activation.ResumeThenYield | code/fiber.cpp:91-118 | a thread executes the stack of its t_fiber after a resume and a yield if and only if resume was called from the fiber it saves into |
| Activation.NestedResume | code/fiber.cpp:83-134 | a task that resumes a task: after the yield the thread runs the first task's stack as its thread fiber |
| Fibers.Fiber.Reset | code/fiber.cpp:64-81 | a finished fiber starts over with a new callback |
| Fibers.Locals.GetThis | code/fiber.cpp:139-150 | the first call makes the thread fiber, running and scheduler fiber by default |
| Fibers.Locals.SetSchedulerFiber | code/fiber.cpp:152-153 | replaces the scheduler fiber of the thread, and nothing else |
| Fibers.Locals.Resume | code/fiber.cpp:83-107 | the in-place resume is the Resume step |
| Fibers.Locals.Yield | code/fiber.cpp:109-134 | the in-place yield is the Yield step |
| Fibers.Locals.Finish | code/fiber.cpp:162-174 | dropping the callback, TERM and yield are the Finish step |
| OwnWait.ForeignTie | code/ioscheduler.cpp:202-377 | whatever others do in the registry, a registered fiber has no registration but its own, which stays its own |
| Connect.RousedByMine | code/ioscheduler.cpp:33-46 | the fiber goes on because its own registration was posted: nothing else in the registry carries it |
| Connect.MineOnce | code/ioscheduler.cpp:292-329 | the registration is in its slot, posted or dropped, in one place and once |
| Connect.SoundStep | code/hook.cpp:231-261 | every step of the fiber, the callback, and any operation of other threads on timers and registry, at any clock reading, keeps the race sound |
| Connect.ConnectRace | code/hook.cpp:231-261 | over every run on a shared timer set and registry: the registration is posted at most once, whoever clears the bit, to the call's scheduler; the fiber goes on only when it was; unless a clock reading was taken for a rollover the timeout is reported only if the timer was emitted at or after its deadline |
| Connect.TimeoutPendingIff | code/hook.cpp:237-249 | a waiting fiber still has its timeout coming if and only if, as it called addEvent, its timer had not been dropped at a taken deadline and the callback had not been through; others keep off its deadline and no cancelEvent of the callback is refused |
| Connect.DisplacedIff | code/timer.cpp:18-67 | that others keep off the deadline is needed: any cancel, refresh or reset of another timer takes this one out if and only if it erases this deadline |
| Connect.RefusedCancelLoses | code/hook.cpp:243-245 | that the callback's cancelEvent is not refused is needed: the fiber then waits on with its timeout gone |
| Connect.TimeoutReportedIff | code/hook.cpp:253-261 | some run reports the timeout if and only if timer->cancel() returns false |
| Connect.LockIff | code/hook.cpp:240-242 | the callback's lock succeeds exactly while the call has not returned |
| Connect.LateCallbackDoesNothing | code/timer.cpp:107-114 | the shared record dies with the call, so a callback that does not hold it then never posts or marks anything |
| Connect.TimeoutLost | code/hook.cpp:235-248 | from every state about to call addEvent with the callback under way: it may come through first, and the fiber waits without a timeout |
| Connect.TimeoutLostFromStart | code/hook.cpp:235-248 | for every timeout such a state is reached on a new manager |
| Connect.EventWinsYetTimeout | code/hook.cpp:251-261 | from every state in which the event has won and the callback is under way, the timeout may still be reported |
| Connect.LaterWaitCancelledIff | code/hook.cpp:237-245 | after the return the callback can post a later registration if and only if it holds the record at the return |
| DoIo.LikeBlockingCall | code/hook.cpp:97-143 | the call reports the first outcome that is neither EINTR nor EAGAIN if and only if no wait before it gives up |
| DoIo.PlayMeaning | code/hook.cpp:97-143 | the same reply told outcome by outcome, as the code meets them |
| DoIo.PlayGuards | code/hook.cpp:121-131 | the fiber yields only when addEvent has just succeeded, and with a timeout only under a timer of its own |
| DoIo.Retry | code/hook.cpp:97-143 | the retry loops compute that reply and make just these acts: every round's timer, registration and yield in this order, and every timer cancelled before the next raw call and the return |
| DoIo.Perform | code/hook.cpp:75-144 | a call goes straight to the raw function without hooks, for an untracked descriptor, a socket or one the user made non-blocking; EBADF for a closed one; else the retry path |
| IoRounds.SoundStep | code/hook.cpp:97-143 | every step of the call, of the callbacks of its rounds, and any operation of other threads on timers and registry keeps timers, record, registration and script in step |
| IoRounds.CallMeaning | code/hook.cpp:97-143 | over every run the reply is the one of DoIo for the outcomes and waits so far; a wait ends only when its own registration was posted; without a rollover the record is marked only if a timer of the call was emitted at or after its deadline; no timer of the call has a callback at a raw call or at the return |
| IoRounds.LateTimeoutIff | code/hook.cpp:105-139 | a wait can end as timed out before its own timer fires if and only if a callback has marked the record already or one of an earlier round is still under way, and its registration has not been dropped |
| IoRounds.LateCallbackReached | code/hook.cpp:105-139 | from every wait that can end and whose timer has just been taken out a later wait is reached that has the callback upon it |
| IoRounds.LockIff | code/hook.cpp:113-115 | a callback's lock succeeds exactly while no timeout has struck and the call, or another callback, holds the record |
| IoRounds.LaterWaitCancelledIff | code/hook.cpp:111-118 | after the return a callback can post a later registration on the descriptor if and only if some round's callback holds the record |
| Descriptors.FdManager.Get | code/fd_manager.cpp:82-108 | a sparse growing table seen as a map; a new socket becomes non-blocking for the kernel |
| Descriptors.FdManager.Del | code/fd_manager.cpp:110-116 | removes one entry of the map |
| Descriptors.FdManager.SetFlags | code/hook.cpp:370-386 | the program sees the flags it set, on that descriptor only, while tracked sockets stay non-blocking |
| Descriptors.FdManager.GetFlags | code/hook.cpp:389-401 | returns the flags the program is to see |

## Left out

- Real context switching (`swapcontext`, stacks, allocation), pthreads, `epoll_wait`, pipes, `fstat` and `dlsym`: control transfer and their answers are steps and parameters.
- Integer widths of clock readings and periods: integers are unbounded; `TimeoutMeaning` alone needs deadlines to be 64-bit time points, because its all-ones value must stay apart.
- Data races inside a critical section (`m_tickled` written under a shared lock, `m_next` read after unlock in `reset`): each section is atomic.
- TimerRuns.CancelIsFinal: runs in which a reset spoils the set, where an empty callback can be emitted; `ApplyEvolves` says exactly which step does, `ResetRaceExactly` what follows. OneShotOnce, SilentForever and NoEarlyFiring speak of the same runs.
- TimerManagers.Timer.PutBack: a timer that another thread has put back between the sections; `PutBackRefines` has the case on values.
- TimerManagers.TimerManager.ListExpireCb: requires the exact condition under which the loop ends, since it does not end otherwise.
- IoManagers.IoManager.AddEvent: the scheduler of the calling thread is not null.
- Descriptors closed other than through the hooked `close`, duplicates of a closed descriptor, and negative descriptors other than -1.
- More than one scheduler in the runtime machine (the registry records the scheduler of each registration), and empty callbacks.
- The vector iterator that `run` compares after `erase`: it is modelled as a position.
- RuntimeSafety.TermForever: `reset` of a fiber is modelled in Activation and Fibers only, as nothing in `run` calls it.
- Prompt delivery of posted tasks: a worker can find the queue empty before it raises the idle count, so no claim is made about tickles for tasks.
- Handshake.NoTimerSleptThrough: one worker; no second section of a reset moves a timer that was put back meanwhile past another deadline; the wake time is the clock reading of the computation plus the timeout, without the time the kernel takes.
- Handshake.DeadlinesFlow: the second section of a reset on a timer that was put back meanwhile, likewise in TickleFlow; `PutBackRefines` has its effect.
- RuntimeHistory.WorkerFlow: what the fibers compute; a callback gets a fiber of its own, and which callback it was is in the entry recorded as taken.
- Connect.ConnectRace: the answers before EINPROGRESS are not modelled; the two locks of the weak handle (OnTimer and the callback) are one step.
- DoIo.Retry: whether the record is marked when a wait is over is part of the script; `IoRounds.CallMeaning` runs the same script over timers and registry.
- Descriptors.FdManager.Get: two threads creating one context at the same time; the second would replace the first.
- Sleep hooks, the thin read, write, recv and send wrappers, `ioctl`, socket options, pass-through `fcntl` commands, `Thread`, `Semaphore`, `Singleton`, the demo servers and the earlier copies under test/.
