# A verified model of the coroutine runtime

The library runs coroutines on one thread. Each thread has an environment with a table of task
blocks, one tail queue of waiting tasks per file descriptor, and an epoll interest set. A coroutine
gives up the processor only inside `schedule()`, which the sleeping, blocking, joining and event-loop
calls reach; `switch_to` then exchanges stacks.

The project models one thread environment at three levels and connects them:

* **The state machine** (`Runtime.dfy`). A step is what the current coroutine does between two calls
  of `schedule()`, or the scheduling itself: create, sleep, block on a descriptor, dispatch a batch of
  events, finish, join, resume, schedule. Every task records where it is suspended, which in the
  program is the return address on its stack. The steps follow the code literally. A step that would
  dereference NULL, write past `fds[]` or wreck a queue through stale links is a `Fault`, and a run
  ends there. The clock is whatever was read at each sleeping slot, so time moves during a sweep.
* **The heap** (`TailQueue.dfy`, `BlockQueues.dfy`, `ThreadEnv.dfy`). Task blocks, the table and the
  linked queues, updated in place by methods with the loops of the C code. `Env.Rep` says that the
  heap represents a state of the machine, and each method is proved to take exactly the machine's
  step. A tail-queue back pointer is the address of a "next" cell; one class `Link` stands for heads
  and entries alike, so `TAILQ_LAST` and `TAILQ_PREV` are `bck.bck.nxt`.
* **The processor** (`ContextSwitch.dfy`, `ContextRuns.dfy`). The x86-64 instructions of `switch_to`
  and the first frame, on registers and a word-addressed memory, and runs of coroutines on disjoint
  stacks.

`JointRuns.dfy` joins the first and the third: on a run that both take together, the dispatches of the
machine are the switches of the processor; `JointExists.dfy` shows that every run has such a companion.

`Invariants.dfy` holds what every step of every run keeps, and `Faults.dfy` when a step faults.
`Effects.dfy` tells every step field by field, without the functions the steps are made of, and
`Calls.dfy` follows a call over a run, from the step that suspends its caller to the one that resumes it.
`Scheduler.dfy`, `PickTermination.dfy`, `Runs.dfy`, `Sleeping.dfy`, `Waiters.dfy` and `Masks.dfy` have
the properties of picks, runs, sleepers, wait queues and interest masks. `Registrations.dfy` and
`ZeroDescriptor.dfy` are about the list of descriptors a task registers, `ExitCleanup.dfy` about
finishing tasks, and `DisciplinedRuns.dfy` about whole runs of well-behaved coroutines. `Examples.dfy`
has the runs that end badly, each from the start of the thread; `Scenes.dfy` is how they are told.
`CircleQueue.dfy` does the circular queue of the same header.

## Where the code departs from its intent

The model keeps the code; each departure has an exact condition, and most an example of the bad case.

* A first registration records `EPOLLIN` even when `EPOLLOUT` was asked for
  (`src/cosyscall.c:60`). The interest set agrees with the records exactly as long as every descriptor
  is first used for reading or accepting while it is in no one's interest (`Masks.AgreesIff`;
  `Examples.FirstWriteExample`). A co_write that is the first call on its descriptor returns only if one
  event brings EPOLLIN and EPOLLOUT together (`Calls.FirstWriteReturnsIff`); EPOLLOUT alone loses it
  (`Calls.FirstWriteIsLost`, `Examples.FirstWriteLostExample`).
* `events & arg != events` parses as `events & (arg != events)` (`src/cosyscall.c:65`), which asks for
  a change exactly when the masks differ and bit 0, `EPOLLIN`, is recorded
  (`Registrations.ParsedConditionIff`). On every run it is recorded for every registered descriptor,
  so no change that the record calls for is missed (`Registrations.NoMissedChange`).
* The event loop dequeues before it tests the mask (`src/coeventloop.c:34-39`), and a woken waiter
  whose bit is still missing waits again in no queue. Somebody is lost exactly when an event does not
  reach the first waiter of its queue, or when a caller enters `co_join` or `co_eventloop` with the
  status a refused call left behind (`Waiters.LosesIff`; `Examples.LostWaiterExample`). That is for
  good: whoever a step loses is still in the same call, and out of reach, at every later state
  (`Waiters.StuckForever`, `Waiters.CarelessIsForGood`). An event on a descriptor nobody waits for
  dereferences NULL (`Faults.BatchFaultsIff`; `Examples.NobodyWaitsExample`).
* Exit cleanup applies `TAILQ_REMOVE` to entries dequeued long ago, or never queued
  (`src/coroutine.c:54`). `ThreadEnv.Env.Exit` and `ThreadEnv.Env.Release` say when that dereferences
  NULL or wrecks a queue (`Examples.NeverQueuedExample`, `Examples.WreckedQueueExample`); in a
  disciplined run the queues stay intact exactly when the task has used at most one descriptor
  (`ExitCleanup.FinishIsCleanIff`).
* `co_join` does not know whom it joins: it tests whoever is in the slot by then. A slot holds the
  same task exactly until somebody frees it (`Runs.SameTaskIff`), so of two joiners the second may
  dereference NULL or free a stranger (`Runs.JoinFreesItsTargetIff`;
  `Examples.SecondJoinerExample`, `Examples.StrangerFreedExample`).
* Exit cleanup deletes a descriptor from the interest set even if another task is registered for it.
  All other entries survive exactly when nobody shares a descriptor with the finishing task
  (`ExitCleanup.OthersSurviveIff`), which the agreement guarantees. Sharing comes from calling twice
  on somebody else's descriptor: the refused call is recorded, and the second one is accepted
  (`ExitCleanup.RefusedThenAccepted`, `Examples.SharedEntryExample`).
* Descriptor 0 is never seen as registered (`src/cosyscall.c:56`): each call lists it once more. A call
  writes past `fds[]` exactly when its descriptor is unregistered and the calls on 0 and the
  registered descriptors add up to 1024 (`ZeroDescriptor.ZeroOverrunsTheList`); there are runs that
  get there (`ZeroDescriptor.ZeroOverrunExample`).
* A refused `epoll_ctl` leaves the status at WAIT and the registration in the task's records
  (`src/cosyscall.c:53-64`); the model does the same.
* Milliseconds are kept in 32 bits. A sleep can end early exactly when the clock wraps between the
  call and the deadline and the deadline is not the last value of the 32-bit clock
  (`Sleeping.WakesEarlyIff`); a sleeper with that last value as deadline never wakes
  (`Sleeping.SleepsForever`). With everybody asleep, `pick` ends under every clock whose sweeps take
  at most g ms exactly when some deadline is at least g ms before the wrap
  (`PickTermination.PickAlwaysEndsIff`); for g = 1 the table alone decides
  (`PickTermination.PickEndsIff`).

## Model

| member | source | states |
|---|---|---|
| TailQueue.Link.constructor | src/coroutine.c:109 | a calloc'ed entry points nowhere |
| TailQueue.ContentIsUnique | include/queue.h:277-292 | the pointers of a well-formed tail queue determine its sequence of elements |
| TailQueue.Init | include/queue.h:319-322 | the head becomes an empty queue |
| TailQueue.InsertHead | include/queue.h:324-332 | the element becomes the first; only the links the macro names change |
| TailQueue.InsertTail | include/queue.h:334-339 | the element becomes the last |
| TailQueue.InsertAfter | include/queue.h:341-349 | the element goes right behind the given one, at any position |
| TailQueue.InsertBefore | include/queue.h:351-356 | the element goes right before the given one, without being told the head |
| TailQueue.Unlink | include/queue.h:358-365 | the two pointer writes of TAILQ_REMOVE, for a member or for stale links |
| TailQueue.Remove | include/queue.h:358-365 | exactly the given element leaves the sequence, and its own links stay as they were |
| TailQueue.RemoveFirst | include/queue.h:358-365 | removing the first element leaves the tail of the sequence |
| TailQueue.Replace | include/queue.h:367-375 | the new element takes the old one's place |
| TailQueue.First | include/queue.h:295-296 | the first element, or NULL for the empty queue |
| TailQueue.Last | include/queue.h:298-299 | the double cast finds the last element, or NULL for the empty queue |
| TailQueue.Prev | include/queue.h:301-302 | the same cast finds the predecessor, and NULL in front of the first element |
| TailQueue.ForEach | include/queue.h:306-309 | visits the elements in order and stops |
| TailQueue.ForEachReverse | include/queue.h:311-314 | visits exactly the reverse of TAILQ_FOREACH, with no predecessor pointer stored |
| BlockQueues.BlockQueues.constructor | src/coroutine.c:88-91 | all block queues start empty and share no link |
| BlockQueues.BlockQueues.InsertTail | src/cosyscall.c:76 | the task goes to the end of its descriptor's queue and all other queues stay as they are |
| BlockQueues.BlockQueues.TakeFirst | src/coeventloop.c:34-35 | the first waiter leaves, no other queue changes, and its links keep pointing at the queue and at the next waiter |
| BlockQueues.BlockQueues.UnlinkStale | src/coroutine.c:54 | what a TAILQ_REMOVE through stale links does to the heads, and that a harmless one writes back what is there |
| BlockQueues.BlockQueues.DamageShows | src/coroutine.c:50-54 | if the queues are still well formed after the stale removals, the removals were harmless |
| Clock.WakeupTimeIsDeadline | src/sched.c:113 | the stored wake-up time is the 32-bit image of the real deadline |
| Clock.ComparisonAgreesIff | src/sched.c:65 | the comparison itself: for a sample less than 2^32 ms away it agrees with real time if and only if sample and deadline lie in one window |
| Clock.EarlyWakeIff | src/sched.c:65 | seen from the call: some sample between call and deadline compares greater if and only if the clock wraps between the two and the deadline is not the last of its window |
| Clock.NeverPassedIff | src/sched.c:65 | a deadline is never passed by any sample if and only if it is the last millisecond of a window |
| Clock.EarlyWakeExample | src/sched.c:43-50 | a one-second sleep across the wrap of the clock that ends 900 ms early |
| Runtime.FreeSlot | src/coroutine.c:104-105 | the lowest free slot, if there is one |
| Scheduler.SweepsWake | src/sched.c:62-68 | sweeps turn exactly the sleepers whose deadline had passed at one of their own samples to RUNNING and change nothing else |
| Scheduler.ScanStops | src/sched.c:70-85 | the cyclic scan stops at the first RUNNING slot, or at current after a full round |
| Scheduler.PickIsFirst | src/sched.c:70-87 | the task picked is RUNNING and none is nearer in cyclic order after current, current being last |
| Scheduler.OneSweepSuffices | src/sched.c:62-85 | with a RUNNING task in the table one sweep is enough |
| PickTermination.PickReturnsIff | src/sched.c:62-85 | with the readings the sweeps really take, one per sleeper, the repeat loop ends if and only if some task is RUNNING or some sleeper's own reading passes its deadline |
| PickTermination.PickEndsIfWakeable | src/sched.c:62-85 | on a clock that never stops and advances at most g ms in one sweep, a RUNNING task or a sleeper due at least g ms before the wrap ends the loop |
| PickTermination.PickEndsIff | src/sched.c:62-85 | with sweeps of at most a millisecond, read off the table: the loop ends if and only if some slot is RUNNING, or SLEEP with any deadline but the last value of the clock |
| PickTermination.PickAlwaysEndsIff | src/sched.c:62-85 | for every g >= 1: the loop ends on every clock that never stops and advances at most g ms in one sweep, if and only if some slot is RUNNING, or SLEEP with a deadline at least g ms before the wrap |
| PickTermination.SlowSweepExample | src/sched.c:62-68 | with sweeps of two milliseconds a sleeper due one before the last value can be missed for ever, even on a clock that ticks one millisecond per reading |
| Invariants.InvInit | src/coroutine.c:75-94 | a new thread environment satisfies the invariant |
| Invariants.AddQueueForm | src/cosyscall.c:43-78 | accepted or not, add_queue leaves the same record in the task; only an accepted call enters the queue |
| Invariants.AcceptedCallSuspends | src/cosyscall.c:99-102 | the wait loop never falls through after add_queue accepted the call |
| Invariants.RegisterKeeps | src/cosyscall.c:56-60 | a first registration keeps list and table in step, with any mask that has EPOLLIN; which one is recorded is Effects.FirstCallEffect |
| Invariants.CreateKeeps | src/coroutine.c:98-120 | co_create keeps the invariant |
| Invariants.SleepKeeps | src/sched.c:110-116 | co_sleep keeps the invariant |
| Invariants.BlockKeeps | src/cosyscall.c:81-169 | the blocking calls keep the invariant, refused ones too |
| Invariants.LoopKeeps | src/coeventloop.c:15-42 | a turn of the event loop that does not fault keeps the invariant |
| Invariants.FinishKeeps | src/coroutine.c:42-61 | a harmless cleanup keeps the invariant |
| Invariants.JoinTestKeeps | src/coroutine.c:171-176 | co_join keeps the invariant, waiting or freeing |
| Invariants.WaitTestKeeps | src/cosyscall.c:153-162 | resuming in a wait loop keeps the invariant |
| Invariants.DispatchKeeps | src/sched.c:52-108 | schedule keeps the invariant |
| Invariants.StepKeeps | src/coroutine.c:98-177 | every step of every kind that does not fault keeps the tables, the queues and the registration lists consistent; Faults.FaultsIff says when one faults |
| Invariants.CountIsRight | src/coroutine.c:104-112 | task_count is the number of occupied slots, lies in 1..NR_TASKS, and is NR_TASKS exactly when co_create fails |
| Effects.StartEffect | src/coroutine.c:75-94 | the main coroutine in slot 0 with a zeroed block, all other slots and all queues empty |
| Effects.WhatComesNext | src/sched.c:103-108 | after schedule() is entered only a dispatch comes; else the place of the current task decides |
| Effects.WhatCanCome | src/sched.c:103-108 | and what that place allows can be done: a suspended call resumes, own code may call anything, nobody executes after its end |
| Effects.CreateEffect | src/coroutine.c:104-120 | the lowest free slot gets a zeroed block of a new serial, every other slot stays; with no free slot nothing happens |
| Effects.DispatchEffect | src/sched.c:62-88 | exactly the sleepers with a greater reading become RUNNING, and the first RUNNING slot after current, modulo the table size, is current |
| Effects.DispatchReadyIff | src/sched.c:62-85 | which readings one schedule() makes: sweeps until somebody is RUNNING, and none after that |
| Effects.SleepEffect | src/sched.c:113-114 | co_sleep stores the deadline modulo 2^32, sets SLEEP, and changes nothing else |
| Effects.SleepReturns | src/sched.c:115-116 | when its schedule() returns, co_sleep returns to its caller and changes nothing else |
| Effects.FirstCallEffect | src/cosyscall.c:52-77 | a first call on a descriptor records EPOLLIN alone, whatever it asks for, and asks the kernel for the bit; if the kernel has the descriptor already it fails with status WAIT; it overruns fds[] if and only if that is full |
| Effects.FurtherCallEffect | src/cosyscall.c:52-77 | a further call adds the bit to the record and asks the kernel for the record if that was another mask; if the kernel does not know the descriptor it fails with status WAIT |
| Effects.WaitEffect | src/cosyscall.c:127-162 | a waiter without its bit is WAIT again; with it, it leaves the call, and a writer drops EPOLLOUT everywhere |
| Effects.JoinEffect | src/coroutine.c:171-176 | the test of co_join on an empty slot, on a task that has not exited, and on one that has |
| Effects.IdleEffect | src/coeventloop.c:22-25 | a turn without events only suspends the caller |
| Effects.EventEffect | src/coeventloop.c:30-40 | a turn takes its events one by one; each takes the first waiter out of its queue, makes it RUNNING and tells it the event if its recorded mask meets the event, and leaves status and revents alone if not |
| Effects.FinishEffect | src/coroutine.c:47-56 | EXIT, an empty list, the listed descriptors out of the interest set, all other entries and tasks unchanged |
| Calls.SleepIsOver | src/sched.c:110-116 | over a run: the first time its caller executes again co_sleep is over, and nothing of the task block but wakeuptime and status has changed since the call |
| Calls.BlockingCallReturnsIff | src/cosyscall.c:99-130 | over a run: a blocked caller that executes again was taken from its queue by one event that met the mask recorded at the call; it returns if and only if that event carries its bit, and is lost otherwise |
| Calls.FirstWriteReturnsIff | src/cosyscall.c:56-64 | a first co_write that executes again had an event with EPOLLIN, and returns if and only if it had EPOLLOUT too |
| Calls.FirstWriteIsLost | src/cosyscall.c:56-64 | on any run, EPOLLOUT reported alone to a first co_write leaves its caller lost |
| Faults.BatchFaultsIff | src/coeventloop.c:30-36 | a batch, repeated descriptors included, dereferences NULL if and only if it has more events on some descriptor than tasks wait there |
| Faults.FaultsIff | src/coroutine.c:42-177 | a step of any kind faults if and only if a condition on state and action fails, and for the reason named: a full fds[], too few waiters, a harmful cleanup, an empty slot joined |
| Faults.RunGoesOnIff | src/sched.c:103-108 | any run can be continued by an action if and only if that action is safe |
| Faults.DisciplinedFaultsIff | src/cosyscall.c:43-169 | in disciplined runs blocking calls never fault, a batch on distinct descriptors faults if and only if nobody waits for one of them, and a finish if and only if the task has used several descriptors |
| Runs.RunKeeps | src/sched.c:103-108 | the invariant holds at every state of every run |
| Runs.OthersArePassive | src/coeventloop.c:30-40 | a task that is not executing is only ever dequeued, woken or, once EXIT, freed by its joiner |
| Runs.CurrentStays | src/sched.c:90-101 | the executing task keeps its slot and identity through its own steps |
| Runs.EmptySlotStays | src/coroutine.c:104-112 | an empty slot is filled by co_create only |
| Runs.ExitIsFinal | src/coroutine.c:47-63 | after EXIT a task block never changes, is never current and is in no queue, until the join that frees it |
| Runs.SlotIsStable | src/coroutine.c:104-112 | a slot holds the same task from co_create until the join that frees it |
| Runs.SameTaskIff | src/coroutine.c:104-112 | a slot holds the same task at a later state if and only if no join has freed it in between |
| Runs.JoinFreesItsTarget | src/coroutine.c:171-176 | with one joiner, co_join returns by freeing the task it was called for, which has exited |
| Runs.JoinFreesItsTargetIff | src/coroutine.c:171-176 | a join that returns frees the task it was called for if and only if nobody else has freed that slot meanwhile |
| Runs.StepTowards | src/sched.c:70-85 | a RUNNING task stays RUNNING whatever others do, and every dispatch strictly shortens its cyclic distance or reaches it |
| Runs.BoundedWait | src/sched.c:52-108 | a RUNNING task becomes current within as many schedule() calls as its cyclic distance from current |
| Runs.LostForever | src/cosyscall.c:127-130 | a suspended task with status WAIT outside all queues is never reached again on any run |
| Runs.UntoldForever | src/coeventloop.c:34-39 | a task taken from its queue without the bit it waits for, awake or not, never leaves its wait loop on any run |
| Runs.UntoldIsLostNext | src/cosyscall.c:127-130 | when such a task executes it sets WAIT again and waits in no queue |
| Runs.LoopIsNotStuck | src/coeventloop.c:22-25 | the pick of the event loop ends after one sweep, because the loop's own task is RUNNING |
| Sleeping.ScheduleReturnsIff | src/sched.c:103-108 | at any state of any run, under such a clock, schedule() returns if and only if some task is RUNNING, or asleep with any deadline but the last value of the clock |
| Sleeping.ScheduleAlwaysReturnsIff | src/sched.c:103-108 | at any state of any run and for every g >= 1: schedule() returns under every clock of that speed if and only if some task is RUNNING, or asleep with a deadline at least g ms before the wrap |
| Sleeping.SleepIsNotShort | src/sched.c:110-116 | after co_sleep(s) called at a time that allows no early wake-up, the task leaves SLEEP only by a clock sample strictly past its deadline, if the clock does not go back |
| Sleeping.WakesEarlyIff | src/sched.c:110-116 | the exact condition, at the call: its schedule() can wake the caller between call and deadline if and only if the clock wraps there and the deadline is not the last value |
| Sleeping.SleepsForever | src/sched.c:64-67 | a sleeper whose deadline is the last value of the clock never wakes on any run |
| Waiters.BatchIsExact | src/coeventloop.c:30-40 | a batch on distinct descriptors takes exactly the first waiter of each reported queue, wakes exactly those whose mask meets the event, changes nothing else, and faults exactly when a reported queue is empty |
| Waiters.EventsTakeTheFront | src/coeventloop.c:34-35 | any batch takes waiters off the front of a queue, one per event on it |
| Waiters.StepConserves | src/cosyscall.c:76 | for every queue and step: old content and arrivals are departures and new content, in order |
| Waiters.FirstInFirstOut | src/coeventloop.c:34-35 | over a whole run, waiters of one descriptor leave in the order they came |
| Waiters.EventLosesIff | src/coeventloop.c:34-39 | an event leaves nobody stuck if and only if it reaches the first waiter with the bit it waits for |
| Waiters.BatchLosesIff | src/coeventloop.c:30-40 | a batch leaves nobody stuck if and only if each event in turn reaches the waiter it finds |
| Waiters.DistinctBatchDelivers | src/coeventloop.c:30-40 | for distinct descriptors that condition can be read off before the batch |
| Waiters.LosesIff | src/cosyscall.c:99-156 | exactly which steps leave a suspended task that nothing can wake |
| Waiters.StuckForever | src/cosyscall.c:99-156 | whoever is out of reach at some state is in the same call, and out of reach, at every later state of every run |
| Waiters.CarelessIsForGood | src/cosyscall.c:99-156 | so one careless step leaves somebody in a call that never returns, however the run goes on |
| Waiters.NobodyIsLost | src/coeventloop.c:30-40 | on runs of careful steps nobody is ever lost |
| Waiters.WaitIffQueued | src/cosyscall.c:43-78 | then, at every point of the run, a task that is not executing is WAIT if and only if it stands in a queue, and only in that of the descriptor it awaits |
| Registrations.ParsedConditionIff | src/cosyscall.c:65 | the condition as C parses it asks for a change if and only if the masks differ and EPOLLIN is recorded |
| Registrations.NoMissedChange | src/cosyscall.c:65-73 | at any state of any run, a registered descriptor records EPOLLIN, so the condition compares the masks and no EPOLL_CTL_MOD the record calls for is missed |
| Registrations.ListLength | src/cosyscall.c:56-59 | fds[] holds one entry per call on descriptor 0 and one per registered positive descriptor |
| Registrations.OverrunsIff | src/cosyscall.c:57 | a call writes past fds[] if and only if its descriptor is unregistered and those entries are MAX_FD |
| Registrations.ListNeverOverflows | src/cosyscall.c:56-59 | fds[] never overflows for any number of calls, as long as descriptor 0 is not used |
| ZeroDescriptor.ZerosStep | src/cosyscall.c:56-57 | a blocking call on descriptor 0, accepted or refused, lists it once more, and no other step does |
| ZeroDescriptor.ZeroIsListedEachTime | src/cosyscall.c:56-57 | over a run, the entries for descriptor 0 grow by exactly the number of calls on it |
| ZeroDescriptor.ZeroOverrunsTheList | src/cosyscall.c:56-57 | over a run, the next call writes past fds[] if and only if its descriptor is unregistered and the calls on 0 and the registered descriptors add up to MAX_FD |
| ZeroDescriptor.ZeroOverrunExample | src/cosyscall.c:56-57 | a run from the start of the thread after which a call on descriptor 0 writes past fds[] |
| Masks.NewcomerAsks | src/cosyscall.c:56-64 | a first registration keeps interest set and record in agreement if and only if it asks to read and nobody holds the descriptor |
| Masks.OwnerAsks | src/cosyscall.c:65-73 | a further call of the owner is accepted, and moves interest set and record together |
| Masks.WriteCompletes | src/cosyscall.c:158-162 | when a write completes, EPOLLOUT leaves record and interest set alike |
| Masks.AgreesIff | src/cosyscall.c:56-73 | a step keeps interest set and records in agreement if and only if it is disciplined |
| Masks.OneWaiterPerQueue | src/coroutine.c:54 | disciplined waiters never share a queue |
| Masks.StrictKeeps | src/cosyscall.c:43-169 | disciplined steps keep the agreement and the tidiness of stale links |
| Masks.DisciplinedRunAgrees | src/cosyscall.c:56-73 | from the start of the thread, disciplined runs agree at every state |
| Masks.DeliversIff | src/coeventloop.c:36-39 | in agreement, an event reaches the first waiter if and only if it carries the awaited bit |
| Masks.DisciplinedBatchLosesIff | src/coeventloop.c:30-40 | in a disciplined run a batch on distinct descriptors leaves nobody stuck if and only if every event carries the bit its first waiter tests for |
| ExitCleanup.FinishIsCleanIff | src/coroutine.c:50-56 | in a disciplined run a finishing task leaves the queues intact if and only if it used at most one descriptor |
| ExitCleanup.FinishReleasesExactly | src/coroutine.c:47-56 | cleanup removes exactly the finished task's descriptors from the interest set, whoever else is registered for them, and changes no other task and no queue |
| ExitCleanup.OthersSurviveIff | src/coroutine.c:50-54 | all interest-set entries of other tasks survive if and only if nobody shares one with the finishing task |
| ExitCleanup.AgreedEntriesSurvive | src/coroutine.c:50-54 | in agreement every other task keeps its registration and its entry |
| ExitCleanup.RefusedThenAccepted | src/cosyscall.c:56-76 | a second call on another task's descriptor is accepted without a word to epoll, so the two share it |
| DisciplinedRuns.ExecutingStays | src/cosyscall.c:52-64 | in disciplined runs no call is refused, so the executing task stays RUNNING |
| DisciplinedRuns.AllIsWell | src/coeventloop.c:30-40 | from the start of the thread, disciplined runs whose events carry the awaited bits lose nobody and keep interest set and records in agreement |
| DisciplinedRuns.EveryWaiterIsServed | src/cosyscall.c:43-78 | in such runs a task that is not executing is WAIT if and only if it is queued, and then epoll is asked for the bit it awaits |
| Examples.LostWaiterExample | src/coeventloop.c:34-36 | a run from the start: one co_read, answered by EPOLLERR, and its caller is lost |
| Examples.NobodyWaitsExample | src/coeventloop.c:34-35 | a disciplined run from the start, after which a second EPOLLERR dereferences NULL |
| Examples.FirstWriteExample | src/cosyscall.c:56-64 | a first co_write takes interest set and records apart |
| Examples.FirstWriteLostExample | src/cosyscall.c:56-64 | a run from the start: one co_write, answered by EPOLLOUT, and its caller is lost |
| Examples.SleepExample | src/sched.c:110-116 | a run from the start: co_sleep(1), not woken by a reading of 1000, woken by 1001, and back in its caller |
| Examples.NeverQueuedExample | src/coroutine.c:50-54 | a run from the start after which a coroutine whose only call was refused dereferences NULL in its cleanup |
| Examples.WreckedQueueExample | src/coroutine.c:50-54 | a disciplined run from the start after which a coroutine that read from two descriptors wrecks a queue in its cleanup |
| Examples.SecondJoinerExample | src/coroutine.c:171-176 | a disciplined run from the start after which the second of two joiners dereferences the empty slot |
| Examples.StrangerFreedExample | src/coroutine.c:171-176 | a disciplined run from the start after which the second of two joiners frees a task created later |
| Examples.SharedEntryExample | src/coroutine.c:50-54 | a run from the start after which a finishing task takes away the interest-set entry of another one |
| ThreadEnv.SystemClock.GetMsTime | src/sched.c:43-50 | each reading is the 32-bit image of the real time it happens at |
| ThreadEnv.TaskBlock.constructor | src/coroutine.c:109-120 | a new block is RUNNING, registered for nothing and linked nowhere |
| ThreadEnv.TaskBlock.Ask | src/cosyscall.c:52-66 | add_queue's updates of the task block |
| ThreadEnv.TaskBlock.Wait | src/cosyscall.c:153-159 | the wait loop's test, and what co_write clears after it |
| ThreadEnv.TaskBlock.Notify | src/coeventloop.c:36-39 | the task is woken and told the event only if its recorded mask meets it |
| ThreadEnv.Env.constructor | src/coroutine.c:75-94 | the new environment represents the initial state |
| ThreadEnv.Env.FindSlot | src/coroutine.c:103-104 | the search loop finds the lowest free slot |
| ThreadEnv.Env.CoCreate | src/coroutine.c:98-120 | takes the create step; the id handed out is the lowest free one, and -1 means there is none |
| ThreadEnv.Env.CoSleep | src/sched.c:110-114 | takes the sleep step for the clock reading it makes |
| ThreadEnv.Env.WakeSlot | src/sched.c:64-67 | reads the clock only at a sleeping slot and promotes it as of that reading |
| ThreadEnv.Env.SweepTable | src/sched.c:63-68 | the first loop of pick is one sweep that reads the clock once per sleeper, in slot order |
| ThreadEnv.Env.ScanTable | src/sched.c:70-85 | the second loop of pick finds the scan's slot, or asks for another round when nothing is RUNNING |
| ThreadEnv.Env.Pick | src/sched.c:52-88 | whenever pick has an end it ends, returns the scan's slot after sweeps of which only the last finds something runnable, with one reading per sleeper and sweep, and changes nothing but woken sleepers |
| ThreadEnv.Env.CoSwitchTo | src/sched.c:90-99 | the picked task becomes current |
| ThreadEnv.Env.Schedule | src/sched.c:103-108 | takes the dispatch step with the samples it reads |
| ThreadEnv.Env.Enqueue | src/cosyscall.c:76 | the current task joins the descriptor's linked queue, all other links keeping their meaning |
| ThreadEnv.Env.AddQueue | src/cosyscall.c:43-78 | add_queue takes the machine's step and returns 0 or -1 accordingly |
| ThreadEnv.Env.WaitTest | src/cosyscall.c:153-162 | the wait loop's test takes the machine's step, EPOLL_CTL_MOD included |
| ThreadEnv.Env.CoBlock | src/cosyscall.c:81-169 | co_accept, co_read and co_write take the blocking step, and return a negative value exactly when add_queue was refused |
| ThreadEnv.Env.TakeWaiter | src/coeventloop.c:34-35 | the first waiter leaves the linked queue and its entry goes stale as the machine says |
| ThreadEnv.Env.OneEvent | src/coeventloop.c:31-39 | one turn of the batch loop takes the event step |
| ThreadEnv.Env.DispatchEvents | src/coeventloop.c:30-40 | the batch loop takes all event steps in order and keeps the invariant |
| ThreadEnv.Env.LoopTurn | src/coeventloop.c:15-41 | a turn of co_eventloop takes the loop step, with no events too |
| ThreadEnv.Env.Release | src/coroutine.c:50-56 | the cleanup loop crashes exactly if something is registered and the entry was never queued; else it empties fds[], drops exactly those descriptors from the interest set, and leaves well-formed queues if and only if the stale removals are harmless, in which case no link has changed |
| ThreadEnv.Env.StaleIsKnown | src/coroutine.c:54 | harmlessness on pointers and in the state machine are the same condition, and an entry never queued has NULL for its back pointer |
| ThreadEnv.Env.Exit | src/coroutine.c:47-61 | takes the finish step, crashing or wrecking a queue exactly when the machine faults so |
| ThreadEnv.Env.JoinTest | src/coroutine.c:171-176 | co_join's loop test takes the join step and frees the slot exactly if the task has exited |
| ContextSwitch.Machine.Push | src/switch.S:64-82 | a push extends the saved frame by its register |
| ContextSwitch.Machine.Pop | src/switch.S:91-107 | a pop restores its register from its slot of the frame |
| ContextSwitch.Machine.Save | src/switch.S:64-82 | the pushes lay down a frame that stands for the caller's whole context and write nothing else |
| ContextSwitch.Machine.Restore | src/switch.S:91-108 | the pops and the ret load the context that the frame stands for, whatever it is |
| ContextSwitch.Machine.SwitchTo | src/switch.S:64-108 | the caller's context is saved in its block's frame, nothing else changes, and the registers are the next block's context |
| ContextSwitch.Machine.BuildFrame | src/coroutine.c:128-147 | the hand-built frame stands for a context that enters start with the task as first argument |
| ContextSwitch.SwitchByWords | src/switch.S:64-108 | which register goes to which word under the stack pointer and comes from which, that the stack pointer is the second word of the block, and that no other word is written, in particular not the first of the block |
| ContextSwitch.FrameByWords | src/coroutine.c:128-147 | the eighteen words of the first frame and the esp word, and that no other word is written |
| ContextRuns.StepIsApart | src/switch.S:64-108 | no step of others touches a sleeping coroutine's stack or saved stack pointer |
| ContextRuns.SwitchFreezes | src/switch.S:64-86 | a switch leaves the caller frozen in the context it was called in |
| ContextRuns.SwitchThaws | src/switch.S:87-108 | a switch to a frozen coroutine puts its context back |
| ContextRuns.ContextIsolation | src/switch.S:63-108 | over any run, a resumed coroutine has exactly the registers, stack pointer and stack words it was suspended with |
| ContextRuns.FirstDispatch | src/coroutine.c:128-147 | the first switch to a new coroutine enters start with rdi the task block (section 3.2.3 of the System V AMD64 ABI) and the stack pointer at the last stack word |
| ContextRuns.StepWrites | src/switch.S:64-90 | a switch or a creation on a run writes words of stacks and second words of blocks only |
| ContextRuns.FirstWordStays | include/coroutine.h:61-63 | so id and wakeuptime of a block, its first word, are changed on a run by own code only |
| JointRuns.SameTaskExecutes | src/sched.c:90-101 | on a joint run, task table and processor agree at every state on who executes |
| JointRuns.TasksAreIsolated | src/sched.c:103-108 | a task that one schedule() leaves and a later one picks goes on in the call the table has for it, with the registers and the stack it had, at the return address of its switch |
| JointRuns.NewTasksStart | src/coroutine.c:98-147 | a task that co_create makes and schedule() picks for the first time enters its function with its own block as argument, on a fresh stack |
| JointExists.EveryRunIsJoint | src/sched.c:90-108 | every run of the state machine is one side of a joint run, with any functions and return addresses |
| CircleQueue.ContentIsUnique | include/queue.h:380-404 | the pointers of a ring determine its sequence of elements |
| CircleQueue.Init | include/queue.h:419-422 | the head becomes an empty ring |
| CircleQueue.InsertAfter | include/queue.h:424-432 | the element goes right behind the given one, at any position |
| CircleQueue.InsertBefore | include/queue.h:434-442 | the element goes right before the given one, at any position |
| CircleQueue.InsertHead | include/queue.h:444-452 | the element becomes the first |
| CircleQueue.InsertTail | include/queue.h:454-462 | the element becomes the last |
| CircleQueue.Remove | include/queue.h:464-475 | exactly the given element leaves the ring, at every position |
| CircleQueue.IsEmpty | include/queue.h:403-404 | the emptiness test tells the empty sequence |
| CircleQueue.ForEach | include/queue.h:406-409 | visits the elements in order |
| CircleQueue.ForEachReverse | include/queue.h:411-414 | visits exactly the reverse |

## Left out

- ThreadEnv.Env.Exit: what a wrecked queue does later is not modelled, since runs end at a `Fault`.
- ThreadEnv.Env.Release: `crashed` stands for the NULL dereference; what the loop has written before it is not described.
- ThreadEnv.Env.DispatchEvents: requires that every event finds a waiter; on an empty queue the loop dereferences NULL, which is the fault of the state machine.
- ThreadEnv.Env.Pick: promises an end only where there is one, by the exact condition `PickEnds`; otherwise the C loop spins for ever.
- PickTermination.PickEndsIff: for sweeps of at most a millisecond; PickTermination.PickAlwaysEndsIff is for any length, about all clocks of that speed, and PickTermination.PickReturnsIff has the condition for a given clock.
- JointRuns.TasksAreIsolated: every task ever created has a block and a stack of its own; that `free` and `calloc` may hand out a joined task's memory again is not modelled.
- ContextSwitch.Machine.SwitchTo: counts memory in 64-bit words without wrap-around of addresses and asks that the frame does not overlap the block's `esp`; the code relies on both.
- ContextRuns.ContextIsolation: a stack has room for the return address and the frame at every switch, and coroutines write only their own stacks and memory that is no stack; nothing in the code checks either.
- The methods of `ThreadEnv` are the pieces of code between scheduling points; the call of `schedule()` inside them is the machine's dispatch step. The `schedule()` of `src/sched.c` and the `switch_to` of `src/switch.S` are modelled apart.
- `fds`, `events`, `revents` of a task block and the interest set are sequence and map values of fields; updates of single elements replace the value. `fds` has all 1024 cells.
- Results and payloads of `accept`, `read`, `write` and `epoll_wait`: events are arbitrary inputs. `epoll_ctl` fails exactly when ADD finds the descriptor present or MOD finds it absent; other failures, closing and reusing descriptors are not modelled.
- Overflow of `1000*seconds` in `int`: the product is exact before it is reduced to 32 bits.
- `gettid`, the table of thread environments and the lookup in it: one environment is fixed.
- The main coroutine never runs `start`, so it never finishes.
- The i386 branch of `switch_to` (it loads `next` from 16(%ebp) and pops edx and ecx out of order) and of `co_create`.
- CIRCLEQ_REPLACE (it uses `(head).` where the other macros use `(head)->`), and SLIST, LIST and SIMPLEQ, which the library does not use.
- The demo servers in `tools/`, logging, examples, and failing allocations.
