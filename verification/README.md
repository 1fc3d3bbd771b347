# Verification of the concurrent core of py-lwip

This project models the parts of py-lwip that have shared state and proves what they keep under
every interleaving:

* the mailbox, semaphore, critical section and time arithmetic of the lwIP port in
  `lwip_lib/src/sys_arch.c`;
* the single-thread executor and its heap-backed queue in `lwip_py/utility/scheduler.py`;
* the emulated Ethernet in `lwip_py/emulation/`, where one executor for the bus feeds one executor
  per host;
* the IPv4 printer and parser in `lwip_py/utility/address_helpers.py`.

## How it is built

Concurrency is a step system on values: a `State`, the atomic statements of each thread, and an
inductive invariant. Threads are arbitrary in number, and a thread may start any call at any time. A
theorem speaks of every state of every run (`Runs.IsRun`). The same code also appears as classes
whose fields are updated in place. Their contracts tie each stretch of code between two waits to the
steps of the step system (`Section`, `Call`, `Step`, `NetStep` and `Leads` below), from any state the
fields can stand for, so that the theorems about runs are about that code. The classes of the emulated
network go through network states: `Offer` is one delivery step whatever has happened since the last,
`Forward`, `DoBroadcast` and `ProcessTask` are runs in which nobody else moves meanwhile, and the
methods of `EthernetNetwork` keep the network in a reachable state.

| file | content |
|---|---|
| `Runs.dfy` | runs, the induction principle, counting threads in a region |
| `Semaphore.dfy` | atomic binary semaphore, its pthread implementation as steps, `SysSem` |
| `MailboxProtocol.dfy` | mailbox steps over atomic semaphores; FIFO, mutual exclusion, bookkeeping |
| `MailboxProgress.dfy` | wake-ups and deadlock freedom |
| `SysMbox.dfy` | uninterrupted sections, `SysMbox` |
| `MailboxAnswers.dfy` | what the calls answer, and what each does when run alone |
| `MailboxStranding.dfy` | the runs that strand one of two blocking fetchers or senders |
| `CriticalSection.dfy` | the re-entrant lock as steps, `LwProt` |
| `Timespec.dfy` | deadlines and elapsed time |
| `TaskQueue.dfy` | the array heap and `TaskQueue` |
| `ExecutorProtocol.dfy` | the executor as steps and its invariant |
| `ExecutorOrder.dfy` | order, at-most-once, futures, waiting, first-in-first-out |
| `ExecutorShutdown.dfy` | after `stop` the status is final, the worker always has a step and `run` returns |
| `ExecutorProgress.dfy` | every queued task runs, and who is turned away |
| `ExecutorAsyncStop.dfy` | what a stop that waits for nothing leaves |
| `ExecutorDrain.dfy` | the exact account of a synchronous stop |
| `DrainRisk.dfy` | exactly which synchronous stops can miss a task, and how many |
| `ExecutorCalls.dfy` | calls of the executor as sequences of steps |
| `Executor.dfy` | `SingleThreadExecutor` |
| `Network.dfy` | bus and host executors composed; shutdown order, total-order broadcast |
| `NetworkDelivery.dfy` | the exact account of a shutdown |
| `NetworkProgress.dfy` | every frame gets to the interfaces it is meant for |
| `NetworkCalls.dfy` | calls of the executors as runs of the network |
| `NetworkLoss.dfy` | exactly which stops of a shutdown can lose frames, and how many |
| `Ethernet.dfy` | `Host`, `EthernetBus`, `EthernetNetwork` |
| `AddressHelpers.dfy` | split, join, decimal text, shifts and bitwise or, the two converters |

## Assumptions

* pthread mutexes, condition variables and Python's `threading.Condition`, `heapq` and
  `concurrent.futures.Future` behave as their own documentation says. A pthread wait may wake
  spuriously; a Python wait ends on a notification or at its deadline. A future is represented by
  its state (pending, cancelled, cancelled and notified, executing, finished), by task number.
* The mailbox steps use atomic semaphores; `SemaphoreProtocol` proves that the pthread code refines
  them. `first`, `last` and `lwprot_count` are mathematical integers. Thread numbers differ from
  0xDEAD. `SYS_ARCH_TIMEOUT` is 0xFFFFFFFF, as in lwIP's `sys.h`, which is not part of this model.
* The wake-up theorem for fetchers is about runs in which one thread blocks in the fetch, the one for
  senders about runs in which one thread blocks in `sys_mbox_post`; any number of threads may be in all
  four functions as long as they find mail or room. Both restrictions are needed: of any two blocked
  fetchers, and of any two blocked senders, one can be stranded (`TwoFetchersCanStrandOne`,
  `TwoSendersCanStrandOne`). Deadlock freedom allows any number of blocked senders but one blocked
  fetcher: with two, a fetcher can sleep beside a full box and a sender before it
  (`TwoFetchersCanDeadlock`). The FIFO and mutual exclusion theorems have no restriction.
* Times are reals, the clock never goes back, and actions return or raise an `Exception`. Delays may be
  negative; tasks scheduled so are the only ones that may begin out of order. A run of the executor
  starts when `run` has set its status. Ties on (time, priority) may come in any order.
* The theorems about what a stop leaves are about runs with one call of `stop`; the other executor theorems allow any
  number. `stop` reads the futures one at a time while other threads cancel them.
* Total order: interfaces are distinct, filters are pure functions, observers and callbacks do not
  raise, each immediate task reads a later clock value than the earlier ones, and the futures that
  `broadcast` and `on_incoming_data` drop are never cancelled.

Where code and documentation differ, the model follows the code:

* `stop` is documented to finish the tasks already scheduled when `sync` is set, but a task in flight
  when `stop` counts is counted off as if it were a queued one (lines 227-229 and 317-318 of
  `scheduler.py`). `SyncStopAccount` gives the exact number of tasks left unrun at the return of `run`,
  `LosesExactlyAtRisk` exactly which calls of `stop` can leave any while nobody cancels, by the times
  and the number of the tasks counted and in flight, and `SyncStopCanMissAny` a run for each number.
  The bus inherits this: it can drop frames at shutdown exactly when its stop finds as many in flight
  as queued (`BusLosesExactlyWhenMatched`, `FramesCanBeLost`, `ShutdownCanLoseAny`).
* `schedule_delayed` is documented to return a task id and returns the future; `get_tasks` is
  documented to return pairs and returns tasks.
* The comment at line 42 of `sys_arch.c` allows SYS_MBOX_SIZE waiting messages; the test at lines 306
  and 348 stops at one less.

## Model

| member | source | states |
|---|---|---|
| SemaphoreProtocol.RefinesBinarySemaphore | lwip_lib/src/sys_arch.c:533-577 | under every interleaving the operations at their linearization points are a legal history of an atomic binary semaphore ending in the current count, one per completed call |
| SemaphoreProtocol.PassesAtMostSignals | lwip_lib/src/sys_arch.c:533-577 | successful waits never exceed the initial count plus the signals |
| SemaphoreProtocol.NoSleeperMissesTheUnit | lwip_lib/src/sys_arch.c:541-577 | with the inner mutex free a call is asleep only at count zero and otherwise can proceed |
| SemaphoreProtocol.HolderCanStep | lwip_lib/src/sys_arch.c:541-577 | the holder of the inner mutex can always proceed |
| SemaphoreProtocol.TimeoutsAreTimed | lwip_lib/src/sys_arch.c:533-577 | every completed call answers what it may: SYS_ARCH_TIMEOUT is given to timed waits only, a wait that is not timed gets a unit, and the answers are the history the refinement counts |
| SemaphoreProtocol.TimedWaitTimesOut | lwip_lib/src/sys_arch.c:541-549 | a timed wait on a count of zero, asleep or out of time, returns SYS_ARCH_TIMEOUT by its own steps and changes nothing |
| SemaphoreProtocol.WaitTakesUnit | lwip_lib/src/sys_arch.c:541-558 | a wait, timed or not, that begins or wakes up with a unit there takes it and returns by its own steps |
| SemaphoreProtocol.SignalGivesUnit | lwip_lib/src/sys_arch.c:561-577 | a signal returns by its own steps, leaves one unit and notifies every sleeper |
| BinarySemaphore.TakenAtMostGiven | lwip_lib/src/sys_arch.c:533-577 | in any legal history units taken and held never exceed units given, and the count stays at most one |
| SysSemaphore.SysSem.constructor | lwip_lib/src/sys_arch.c:457-464 | a new semaphore has the given count |
| SysSemaphore.SysSem.Signal | lwip_lib/src/sys_arch.c:568-576 | the update of the count is the atomic signal |
| SysSemaphore.SysSem.TryPass | lwip_lib/src/sys_arch.c:541-557 | one test of the wait loop is the atomic wait, or no change when the caller sleeps |
| MailboxSafety.RefinesFifo | lwip_lib/src/sys_arch.c:293-453 | messages posted are messages fetched followed by the ring from first to last modulo 128, at most 127 of them |
| MailboxSafety.StepsAreQueueOperations | lwip_lib/src/sys_arch.c:293-453 | every statement enqueues, dequeues the oldest message or leaves the queue alone; failed tries and timeouts are among the last |
| MailboxSafety.ContentsAfter | lwip_lib/src/sys_arch.c:311-319 | storing at the tail overwrites no live slot; only last++ and first++ change the contents |
| MailboxSafety.ExactBookkeeping | lwip_lib/src/sys_arch.c:266-269 | mutex count plus threads inside is one; wait_send is the number of senders between increment and decrement |
| MailboxAnswers.AnswersRefineFifo | lwip_lib/src/sys_arch.c:293-453 | with the box mutex free the messages whose posts answered ERR_OK are those that fetches answered followed by those in the box; ERR_MEM, SYS_MBOX_EMPTY and SYS_ARCH_TIMEOUT are given only to the calls they belong to |
| MailboxAnswers.AnswersAreTrue | lwip_lib/src/sys_arch.c:306-452 | ERR_MEM is given on a box with 127 messages, SYS_MBOX_EMPTY on an empty one, SYS_ARCH_TIMEOUT without touching anything, and no answer moves the queue |
| MailboxAlone.CallRunsAlone | lwip_lib/src/sys_arch.c:293-453 | each call begun with the box mutex free and run alone comes to the answer, contents or wait that the contents of the box call for |
| MailboxAlone.WaitingFetchTimesOut | lwip_lib/src/sys_arch.c:423-428 | a timed fetch that waits can return SYS_ARCH_TIMEOUT by its own steps and leaves box, semaphores, histories and other threads as they were |
| MailboxAlone.FetchTimesOut | lwip_lib/src/sys_arch.c:406-428 | a timed fetch from an empty box run alone from its entry can return SYS_ARCH_TIMEOUT and leaves everything as it was |
| MailboxProgress.NoLostMail | lwip_lib/src/sys_arch.c:418-434 | when one thread blocks in the fetch, whoever else fetches and finds mail, it finds not_empty at one whenever it waits with mail in the box and the mutex free, although posts signal only on the edge |
| MailboxProgress.WaitingSenderSeesMail | lwip_lib/src/sys_arch.c:348-354 | with any number of threads blocking on either side, a sender that waits with not_full at zero and nobody about to post or signal sees a non-empty box, which is all that holds (TwoSendersCanStrandOne) |
| MailboxProgress.StuckOnlyWhenOneSideIsAbsent | lwip_lib/src/sys_arch.c:336-453 | when one thread blocks in the fetch and any number of senders block, calls are all blocked only when one side is absent: that fetcher before an empty box, or only senders before a box with mail; it may have room (TwoSendersCanStrandOne) unless one sender blocks (StuckSenderSeesFullBox) |
| MailboxProgress.NoLostRoom | lwip_lib/src/sys_arch.c:348-354 | with one thread blocking in sys_mbox_post, and any number of fetchers and other posts, a waiting sender with room in the box and the mutex free finds not_full at one |
| MailboxProgress.StuckSenderSeesFullBox | lwip_lib/src/sys_arch.c:336-399 | with one thread blocking in sys_mbox_post a sender stuck with everybody else is before a full box |
| MailboxProgress.DeadlockFree | lwip_lib/src/sys_arch.c:336-453 | when one thread blocks in the fetch, while two threads are in calls and not both wait for room, some thread can proceed |
| TwoFetchers.TwoFetchersCanStrandOne | lwip_lib/src/sys_arch.c:358-368 | of any two blocking fetchers one can be stranded: a run leaves it asleep beside a message with every thread stuck or idle |
| TwoFetchers.TwoFetchersCanDeadlock | lwip_lib/src/sys_arch.c:358-434 | of any two blocking fetchers one can sleep beside a full box while a sender sleeps before it, with nobody left to move |
| TwoSenders.TwoSendersCanStrandOne | lwip_lib/src/sys_arch.c:395-399 | of any two senders waiting on a full box one can be stranded before a box with room, holding any number of messages from 1 to 126, with every thread stuck or idle |
| MailboxSections.PostSection | lwip_lib/src/sys_arch.c:348-371 | what a post does between passing the mutex and signalling it, in each case |
| MailboxSections.FetchSection | lwip_lib/src/sys_arch.c:382-403 | what a fetch does between passing the mutex and signalling it, in each case |
| MailboxAlone.SectionRuns | lwip_lib/src/sys_arch.c:301-453 | running a section alone is a run of the step system that ends with its effect and its answer |
| SysMailbox.SysMbox.constructor | lwip_lib/src/sys_arch.c:265-269 | a new mailbox is empty with its semaphores at 0, 0 and 1 |
| SysMailbox.SysMbox.Store | lwip_lib/src/sys_arch.c:356-370 | appends the message, signals not_empty exactly on the edge and gives the mutex back |
| SysMailbox.SysMbox.Remove | lwip_lib/src/sys_arch.c:436-450 | removes and returns the oldest message, signals not_full exactly if a sender waits |
| SysMailbox.SysMbox.TryPost | lwip_lib/src/sys_arch.c:293-328 | ERR_MEM exactly at 127 messages, with the contents unchanged; otherwise the message is appended |
| SysMailbox.SysMbox.PostStretch | lwip_lib/src/sys_arch.c:348-371 | posts exactly if there is room, otherwise enlists and goes to wait |
| SysMailbox.SysMbox.PostResume | lwip_lib/src/sys_arch.c:351-371 | a woken sender delists and posts exactly if there is room |
| SysMailbox.SysMbox.TryFetch | lwip_lib/src/sys_arch.c:373-404 | SYS_MBOX_EMPTY exactly on an empty box; otherwise the oldest message |
| SysMailbox.SysMbox.FetchStretch | lwip_lib/src/sys_arch.c:418-452 | returns the oldest message exactly if there is one, otherwise goes to wait |
| SysMailbox.SysMbox.FetchResume | lwip_lib/src/sys_arch.c:423-452 | a woken fetcher returns the oldest message exactly if there is one |
| CriticalSectionProtocol.OwnerReadIsExact | lwip_lib/src/sys_arch.c:690-730 | a thread reads itself as owner exactly when it holds the mutex, which is exactly when it is nested, and the counter is then its depth |
| CriticalSectionProtocol.MutualExclusion | lwip_lib/src/sys_arch.c:690-708 | at most one thread is nested and a holder never relocks |
| CriticalSectionProtocol.ReleasedAtOutermost | lwip_lib/src/sys_arch.c:696-729 | the mutex is released exactly by the outermost unprotect and taken exactly by the outermost protect |
| CriticalSectionProtocol.BlockedOnlyByAnother | lwip_lib/src/sys_arch.c:700-728 | a blocked thread waits for another thread that is inside and not itself blocked |
| CriticalSectionProtocol.ProtectRunsAlone | lwip_lib/src/sys_arch.c:690-708 | a thread that is nested or finds the mutex free protects by its own steps, is nested once more and owns the lock |
| CriticalSectionProtocol.UnprotectRunsAlone | lwip_lib/src/sys_arch.c:717-730 | a thread unprotects by its own steps, comes one level out, leaves the lock free exactly from depth one, and changes nothing if it is not nested |
| LightweightProtection.LwProt.constructor | lwip_lib/src/sys_arch.c:95-99 | initially nobody owns the lock |
| LightweightProtection.LwProt.Protect | lwip_lib/src/sys_arch.c:690-708 | the call is the step system's and nests its caller once more |
| LightweightProtection.LwProt.Unprotect | lwip_lib/src/sys_arch.c:717-730 | the call is the step system's, undoes one nesting, releases exactly at depth one, and is void for a non-owner |
| TimespecArithmetic.Deadline | lwip_lib/src/sys_arch.c:509-514 | one carry normalises the deadline, which is start plus timeout exactly |
| TimespecArithmetic.Elapsed | lwip_lib/src/sys_arch.c:523-530 | whole milliseconds between two readings modulo 2^32 |
| TimespecArithmetic.CondWait | lwip_lib/src/sys_arch.c:486-531 | the value of each of the three outcomes of a wait, and exactly which waits read as SYS_ARCH_TIMEOUT |
| TimespecArithmetic.NowIsWholeMillis | lwip_lib/src/sys_arch.c:647-654 | sys_now is the whole milliseconds of the clock reading modulo 2^32 |
| TimespecArithmetic.ElapsedAgainstNow | lwip_lib/src/sys_arch.c:647-654 | the measured wait equals the wrapped difference of sys_now or is one less, and which of the two |
| TaskQueues.TaskQueue.HeapPush | lwip_py/utility/scheduler.py:43 | keeps the heap and adds exactly the task |
| TaskQueues.TaskQueue.HeapPop | lwip_py/utility/scheduler.py:76 | keeps the heap and removes the root, which no remaining task precedes by time, or by priority at the same time |
| TaskQueues.TaskQueue.ScheduleTask | lwip_py/utility/scheduler.py:34-43 | keeps the heap and adds exactly the task |
| TaskQueues.TaskQueue.Empty | lwip_py/utility/scheduler.py:45-54 | true exactly if no task is queued |
| TaskQueues.TaskQueue.PopTasksTillTimestamp | lwip_py/utility/scheduler.py:56-81 | returns exactly the due tasks, earlier times first and lower priority numbers first at the same time, the front of the sorted queue; the rest stay as a heap and are later |
| TaskQueues.TaskQueue.GetTimeTillNextTask | lwip_py/utility/scheduler.py:83-100 | the distance to the true minimum, None exactly on an empty queue |
| Tasks.DueIsPrefix | lwip_py/utility/scheduler.py:56-81 | with distinct keys the due tasks in order are the front of the one sorted arrangement |
| ExecutorOrder.GlobalOrder | lwip_py/utility/scheduler.py:237-303 | over a whole run actions begin in order of abs_time, those scheduled with a negative delay aside, and none begins early |
| ExecutorOrder.AtMostOnce | lwip_py/utility/scheduler.py:297-318 | every accepted task begins at most once |
| ExecutorOrder.FutureEdges | lwip_py/utility/scheduler.py:305-315 | a future completes once, only from executing, and only a cancel cancels it |
| ExecutorOrder.CancelledNeverRuns | lwip_py/utility/scheduler.py:306-307 | a task whose cancel succeeded never begins |
| ExecutorOrder.PoppedTasksAreSettled | lwip_py/utility/scheduler.py:297-315 | between batches every popped task is finished, or notified of its cancellation and not begun |
| ExecutorOrder.NeverOversleeps | lwip_py/utility/scheduler.py:278-295 | an un-notified wait ends no later than the earliest task plus the time between clock read and wait, and the status is as checked |
| ExecutorProgress.EveryTaskRuns | lwip_py/utility/scheduler.py:207-318 | while the executor runs, the worker left alone runs to its end every queued task that is not cancelled, beginning it no earlier than its time and no later than now or the lag of a wait under way past it |
| ExecutorProgress.AcceptsExactlyUntilStop | lwip_py/utility/scheduler.py:264-276 | a task can be accepted exactly until a stop has completed, and is turned away exactly from then on |
| ExecutorOrder.PopsAreNonEmpty | lwip_py/utility/scheduler.py:207-212 | a round in which the wait returns true pops exactly the due tasks, of which there is one, ordered by time and at the same time by priority number |
| ExecutorOrder.BeginInOrder | lwip_py/utility/scheduler.py:237-318 | immediate tasks accepted at increasing times begin in order of acceptance, none overtaken or skipped |
| ExecutorTermination.StaysStopped | lwip_py/utility/scheduler.py:264-269 | in every run, after stop the status never returns to Running, nothing is accepted and the queue only shrinks |
| ExecutorTermination.BoundedWorkAfterStop | lwip_py/utility/scheduler.py:207-303 | between a stop and the next the worker takes at most WorkLeft steps whatever the others do |
| ExecutorTermination.WorkerCanStep | lwip_py/utility/scheduler.py:207-318 | after stop, with nobody inside stop, a worker that has not returned has a step, at once or when its wait runs out |
| ExecutorTermination.RunReturns | lwip_py/utility/scheduler.py:207-303 | from every reachable state after stop with nobody inside stop the worker, when only it and the clock move, returns from run |
| ExecutorTermination.NoEndlessWaitAfterStop | lwip_py/utility/scheduler.py:278-295 | after stop the worker never waits without a deadline or a notification |
| ExecutorAsyncStop.StopLeavesQueue | lwip_py/utility/scheduler.py:214-281 | after a stop that is not synchronous, or that counted no task, the queue stays as the stop found it and only tasks that were in flight begin |
| ExecutorAsyncStop.BatchIsFinished | lwip_py/utility/scheduler.py:280-318 | when run returns after one stop, every task that was in flight has finished or was cancelled |
| ExecutorDrain.SyncStopAccount | lwip_py/utility/scheduler.py:214-318 | when run returns after one synchronous stop, tasks left unrun plus counted tasks cancelled since equal what is still to finish plus the tasks that were in flight and not cancelled; none is left exactly if the queue is empty, nothing was counted or the two cancellation terms balance |
| ExecutorDrain.AccountAtRest | lwip_py/utility/scheduler.py:227-318 | the same account holds between any two batches after the stop |
| ExecutorDrain.IdleSyncStopRunsEverything | lwip_py/utility/scheduler.py:214-235 | with nothing in flight every queued task that is never cancelled has run when run returns |
| ExecutorDrain.DrainsUnlessAtRisk | lwip_py/utility/scheduler.py:214-318 | without cancelling, a call of stop that is not at risk drains every queued task, and otherwise none or as many as were in flight are left |
| ExecutorDrain.RiskNeedsRoom | lwip_py/utility/scheduler.py:227-318 | a call with nothing in flight, or with more in flight than it counted, is not at risk |
| DrainRisk.LosesLateOnes | lwip_py/utility/scheduler.py:279-318 | from a call of stop at risk some run without cancelling leaves exactly the late tasks unrun |
| DrainRisk.LosesExactlyAtRisk | lwip_py/utility/scheduler.py:214-318 | while nobody cancels a call of stop can leave a queued task unrun if and only if it is at risk: as many of the counted tasks as are in flight come strictly after the other counted ones and are due after the stop, or are all of them |
| DrainShortfall.SyncStopCanMissAny | lwip_py/utility/scheduler.py:227-318 | for every k > 0 a run with k tasks in flight at the stop leaves all k queued, uncancelled tasks unrun |
| Executors.SingleThreadExecutor.constructor | lwip_py/utility/scheduler.py:188-195 | a new executor is stopped and empty |
| Executors.SingleThreadExecutor.BeginRun | lwip_py/utility/scheduler.py:203-205 | sets the executor running; on one that nothing has happened to this is the initial state of the step system |
| Executors.SingleThreadExecutor.ScheduleDelayed | lwip_py/utility/scheduler.py:264-276 | is the accepting or the rejecting step, the latter exactly when not running |
| Executors.SingleThreadExecutor.Cancel | lwip_py/utility/scheduler.py:306-307 | is the cancelling step and fails exactly for a future executing or finished |
| Executors.SingleThreadExecutor.CountLive | lwip_py/utility/scheduler.py:227-229 | counts the queued tasks whose future is not cancelled |
| Executors.SingleThreadExecutor.Stop | lwip_py/utility/scheduler.py:226-235 | is the begin, read and end steps of stop and sets the status by the count |
| Executors.SingleThreadExecutor.CheckOnce | lwip_py/utility/scheduler.py:279-295 | is the checking step: false exactly if stopped, or stopped synchronously with an empty queue or nothing left to finish; otherwise true exactly if a task is due; otherwise the wait to the earliest task |
| Executors.SingleThreadExecutor.PopExpired | lwip_py/utility/scheduler.py:297-298 | is the popping step |
| Executors.SingleThreadExecutor.TakeUp | lwip_py/utility/scheduler.py:305-307 | is the step that starts the action or notifies the cancellation |
| Executors.SingleThreadExecutor.Conclude | lwip_py/utility/scheduler.py:308-318 | is the steps that complete the future and, after a synchronous stop, count the task off |
| NetworkShutdown.NoDeliveryRejected | lwip_py/emulation/ethernet_network.py:64-67 | no bus delivery ever meets a stopped host, because the bus worker has returned before any host is stopped |
| NetworkOrder.TotalOrderBroadcast | lwip_py/emulation/ethernet_bus.py:127-138 | frames input to an interface are a prefix of the accepted frames from other interfaces in broadcast order |
| NetworkOrder.InterfacesAgree | lwip_py/emulation/ethernet_bus.py:127-138 | of the frames from neither of two interfaces one has seen a prefix of what the other has |
| NetworkProgress.FrameGetsThrough | lwip_py/emulation/ethernet_bus.py:82-138 | before the shutdown, from every reachable state some run inputs a frame that the bus has accepted to each interface it is meant for |
| NetworkDelivery.ShutdownAccount | lwip_py/emulation/ethernet_network.py:64-67 | when stop returns the frames expected at an interface are those input to it followed by exactly as many as the stops of the bus and of its host left unrun |
| NetworkDelivery.ShutdownDelivers | lwip_py/emulation/ethernet_network.py:64-67 | when stop returns every frame has been input to an interface unless the stop of the bus found as many frames in flight as queued, the stop of its host was at risk or a task of that host was cancelled; never more are missing than were in flight |
| NetworkLoss.BusRisk | lwip_py/emulation/ethernet_bus.py:118-125 | a stop of the bus is at risk exactly if it finds as many frames in flight as queued, and some |
| NetworkLoss.BusLosesExactlyWhenMatched | lwip_py/emulation/ethernet_network.py:64-67 | when the stop of the bus has just released the lock, some run to the end of the shutdown leaves frames on the bus if and only if as many were in flight as queued, and some |
| NetworkLoss.FramesCanBeLost | lwip_py/emulation/ethernet_network.py:64-67 | then some run to the end of the shutdown leaves each queued frame uninput at every interface it is meant for |
| NetworkLoss.HostLosesExactlyAtRisk | lwip_py/emulation/ethernet_network.py:66-67 | when the stop of a host has just released the lock and while nobody cancels, some run to the end of the shutdown leaves tasks of that host unrun if and only if its stop is at risk |
| NetworkDriving.Closes | lwip_py/emulation/ethernet_network.py:64-67 | from the return of any join some run brings the shutdown to its end |
| NetworkShortfall.ShutdownCanLoseAny | lwip_py/emulation/ethernet_network.py:64-67 | for every wiring, frame and k > 0 a run through the end of the shutdown leaves k broadcasts of the frame uninput at every interface it is meant for |
| Ethernet.Host.OnIncomingData | lwip_py/emulation/host.py:124-140 | is the accepting step for the input of the frame, or the rejecting step exactly if the executor is not running |
| Ethernet.Host.Execute | lwip_py/emulation/host.py:142-158 | is the accepting step for the action with its delay, or the rejecting step exactly if the executor is not running |
| Ethernet.Host.Stop | lwip_py/emulation/host.py:100-103 | up to the join, is the steps of a synchronous stop of the executor |
| Ethernet.EthernetBus.AddFilter | lwip_py/emulation/ethernet_bus.py:50-66 | a frame passes afterwards exactly if it passed before and the new filter accepts it |
| Ethernet.EthernetBus.Broadcast | lwip_py/emulation/ethernet_bus.py:82-95 | is the broadcast step of the network, or the rejecting step of the bus exactly if it is not running |
| Ethernet.EthernetBus.PassesFilters | lwip_py/emulation/ethernet_bus.py:128-130 | true exactly if every filter accepts the frame |
| Ethernet.EthernetBus.CallObservers | lwip_py/emulation/ethernet_bus.py:132-133 | every observer is called once with the frame and the verdict |
| Ethernet.EthernetBus.Offer | lwip_py/emulation/ethernet_bus.py:136-138 | one round of the loop is the delivery step of the network, and raises exactly if that step rejects |
| Ethernet.EthernetBus.Forward | lwip_py/emulation/ethernet_bus.py:135-138 | is a run of delivery steps that offers the frame to every interface in turn, up to one that raises; in a reachable state none raises |
| Ethernet.EthernetBus.DoBroadcast | lwip_py/emulation/ethernet_bus.py:127-138 | every observer sees the frame with the verdict of the filters, and what follows is a run after which the frame has been offered to everybody it should be; in a reachable state nothing raises |
| Ethernet.BroadcastDelivers | lwip_py/emulation/ethernet_bus.py:127-138 | in a reachable state, once a frame has been offered to everybody, the inputs each host has accepted for an interface are exactly the frames taken up so far that it should see, in broadcast order |
| Ethernet.EthernetBus.ProcessTask | lwip_py/utility/scheduler.py:305-318 | taking up a broadcast, offering its frame and completing its future is a run of the network |
| Ethernet.EthernetBus.Stop | lwip_py/emulation/ethernet_bus.py:118-125 | up to the join, is a run of the network from before its shutdown to the join of the bus |
| Ethernet.EthernetBus.AddInterfaces | lwip_py/emulation/ethernet_network.py:37-45 | connects the interfaces of one host in order |
| Ethernet.EthernetNetwork.AddHost | lwip_py/emulation/ethernet_network.py:35-47 | the host is found under its name, under a name already taken in place of the old host, other names keep theirs, and each of its interfaces is wired to it |
| Ethernet.EthernetNetwork.Start | lwip_py/emulation/ethernet_network.py:59-62 | puts the network into an initial state of the step system for its wiring |
| Ethernet.EthernetNetwork.Stop | lwip_py/emulation/ethernet_network.py:64-65 | up to the join of the bus, keeps the network in a reachable state and touches no host |
| Ethernet.EthernetNetwork.AfterJoin | lwip_py/emulation/ethernet_network.py:66-67 | the next host is stopped from a state in which the thread before it has returned, and the network stays in a reachable state |
| Ethernet.EthernetNetwork.StopReturns | lwip_py/emulation/ethernet_network.py:64-67 | when stop returns every worker has returned and every executor is stopped |
| AddressHelpers.ParsePrinted | lwip_py/utility/address_helpers.py:6-41 | parsing the printed form of any integer gives it modulo 2^32 |
| AddressHelpers.PrintParsed | lwip_py/utility/address_helpers.py:6-41 | printing a parsed string gives it back exactly if it is an IPv4address of section 3.2.2 of RFC 3986 |
| AddressHelpers.ParseOctets | lwip_py/utility/address_helpers.py:20-21 | any number of dot-separated octets parses to their number in base 256, the first segment least significant |
| AddressHelpers.ParseFails | lwip_py/utility/address_helpers.py:20 | ValueError is raised exactly if some segment is not an integer |
| AddressHelpers.ParseSigned | lwip_py/utility/address_helpers.py:20 | a segment may carry a sign, as int reads it |
| AddressHelpers.ParseSpaced | lwip_py/utility/address_helpers.py:20 | white space at either end of a segment is ignored, as int does |
| AddressHelpers.SplitJoin | lwip_py/utility/address_helpers.py:20 | splitting a join of dotless parts gives the parts |
| AddressHelpers.JoinSplit | lwip_py/utility/address_helpers.py:39-41 | joining a split gives the string |
| AddressHelpers.ParseDecimal | lwip_py/utility/address_helpers.py:20 | reading the decimal form of a natural number gives the number |
| AddressHelpers.OrDisjoint | lwip_py/utility/address_helpers.py:21 | bitwise or below the zero bits of a shifted integer is addition |

## Left out

- Blocking inside one class method: the waits of `sys_mbox_post`, `sys_arch_mbox_fetch`, `_wait_for_task_to_process` and `join` are steps of the step systems; the class methods are the stretches between them.
- Ethernet.EthernetBus.Forward: speaks of a loop during which no other thread moves, because a method owns the objects it updates while it runs; `Offer` covers each round from any state others have left behind, and `TotalOrderBroadcast` and `BroadcastDelivers` hold however the rounds are interleaved.
- Ethernet.EthernetBus.DoBroadcast: speaks of a call during which no other thread moves, as `Forward` does.
- Ethernet.EthernetBus.ProcessTask: speaks of a task during whose processing no other thread moves, as `Forward` does.
- The time a whole `sys_arch_sem_wait` or `sys_arch_mbox_fetch` takes: `timeout` bounds each inner wait only.
- A fetch with a null `msg` pointer: the message is then dropped, which the model treats as delivered.
- `sys_mbox_free`, thread creation, allocation failure and the Mach, Android and Hurd branches of `sys_arch.c`.
- `sys_mutex_*`, `sys_jiffies`, `sys_check_core_locking` and `lwip_unix_keypressed`: one call each.
- The TypeError that `heapq` raises when two entries tie on time and priority and their actions cannot be compared.
- An action that raises something other than an `Exception`, which ends `run` with its batch unfinished.
- A second `stop` racing with the unlocked decrement of `_tasks_to_finish`: it is in the step system, but the theorems about what a stop leaves speak of one `stop`.
- The window between starting a thread and `run` setting its status, and runs that go on after `run` is called once more.
- Running a network in which a name was given twice: the old host stays connected to the bus but is never started or stopped.
- Connecting interfaces or adding filters, observers or hosts while the network runs.
- The ctypes bindings, status callbacks and interface set-up behind `NetIf` and `Stack`.
- Text that `int` accepts beyond ASCII, such as other scripts' digits.
