// SingleThreadExecutor of scheduler.py as interleaved steps of its worker, of clients that
// schedule, cancel and stop, and of the clock.
module ExecutorProtocol {
  import opened Runs
  import opened Tasks

  // concurrent.futures.Future: both cancelled states answer cancelled() with True.
  datatype FutureState = Pending | Cancelled | CancelledNotified | Executing | Finished {
    predicate IsCancelled() {
      Cancelled? || CancelledNotified?
    }
  }

  datatype Status = Running | Stopped | StoppedSync

  // Where the thread in `run` stands.
  datatype Worker<+A> =
    | Unlocked                                                    // 208, about to take the lock
    | Checking                                                    // 280-292, lock held
    | Sleepy(delay: Option<real>, readAt: real, seen: Status)     // 295, lock held
    | Waiting(deadline: Option<real>, lag: real, seen: Status)    // inside Condition.wait
    | Popping                                                     // 298, lock held
    | Batch(rest: seq<Task<A>>)                                   // 301
    | Acting(task: Task<A>, rest: seq<Task<A>>)                   // 309
    | Settled(task: Task<A>, rest: seq<Task<A>>)                  // 317
    | Counting(task: Task<A>, rest: seq<Task<A>>)                 // 318, read
    | Storing(v: int, task: Task<A>, rest: seq<Task<A>>)          // 318, write
    | Exited

  // A thread inside `stop`, holding the lock while it reads the futures of the queued tasks.
  datatype Stopper<A(==)> = NoStop | Stop(sync: bool, todo: set<Task<A>>, counted: set<Task<A>>)

  datatype Start<+A> = Start(task: Task<A>, at: real)

  datatype State<A(==)> = State(
    status: Status,
    queue: set<Task<A>>,
    futures: seq<FutureState>,     // by task id
    toFinish: int,                 // _tasks_to_finish
    clock: real,
    worker: Worker<A>,
    notified: bool,                // the waiting worker has been notified
    stopper: Stopper<A>,
    accepted: seq<Task<A>>,        // tasks schedule_delayed accepted, in order
    started: seq<Start<A>>,        // actions begun, in order
    horizon: real,                 // the time of the last pop
    decremented: set<Task<A>>,     // tasks whose completion lowered _tasks_to_finish
    stops: seq<StopRecord<A>>,     // completed calls of stop
    backdated: set<nat>)           // tasks accepted with a negative delay, by id

  // What a completed call of `stop` found.
  datatype StopRecord<A(==)> = StopRecord(
    sync: bool, at: real, queued: set<Task<A>>, counted: set<Task<A>>, inFlight: set<Task<A>>,
    begun: set<nat>)               // ids of the tasks whose action had begun

  datatype Label<A> =
    | Tick(passed: real)
    | Accept(delay: real, priority: int, action: A)
    | Reject
    | CancelFuture(id: nat)
    | BeginStop(sync: bool)
    | ReadFuture(task: Task<A>)
    | EndStop
    | TakeLock
    | Check
    | Sleep
    | Wake
    | Pop(batch: seq<Task<A>>)
    | TakeTask
    | Complete
    | Settle
    | ReadCount
    | StoreCount
    | Relock

  predicate WorkerStep<A>(l: Label<A>) {
    l.TakeLock? || l.Check? || l.Sleep? || l.Wake? || l.Pop? || l.TakeTask? || l.Complete?
    || l.Settle? || l.ReadCount? || l.StoreCount? || l.Relock?
  }

  ghost predicate Init<A>(s: State<A>) {
    s == State(Running, {}, [], 0, s.clock, Unlocked, false, NoStop, [], [], s.clock, {}, [], {})
  }

  predicate LockFree<A>(s: State<A>) {
    !s.worker.Checking? && !s.worker.Sleepy? && !s.worker.Popping? && s.stopper.NoStop?
  }

  // The tasks of the current batch not yet taken up.
  function Rest<A>(w: Worker<A>): seq<Task<A>> {
    if w.Batch? || w.Acting? || w.Settled? || w.Counting? || w.Storing? then w.rest else []
  }

  // The task whose processing is under way.
  function Current<A>(w: Worker<A>): Option<Task<A>> {
    if w.Acting? || w.Settled? || w.Counting? || w.Storing? then Some(w.task) else None
  }

  ghost predicate Due<A>(queue: set<Task<A>>, now: real) {
    exists t :: t in queue && t.absTime <= now
  }

  // get_time_till_next_task on a queue held as a set.
  ghost predicate TimeTillNext<A>(queue: set<Task<A>>, now: real, delay: Option<real>) {
    match delay
    case None => queue == {}
    case Some(d) =>
      && (exists t :: t in queue && t.absTime == now + d)
      && (forall t :: t in queue ==> now + d <= t.absTime)
  }

  // pop_tasks_till_timestamp on a queue held as a set.
  ghost predicate DueBatch<A>(queue: set<Task<A>>, now: real, batch: seq<Task<A>>) {
    && (forall t :: t in batch ==> t in queue && t.absTime <= now)
    && (forall t :: t in queue && t.absTime <= now ==> t in batch)
    && (forall i, j :: 0 <= i < j < |batch| ==> batch[i] != batch[j])
    && Sorted(batch)
  }

  // The tasks that a worker in the middle of a batch may still count off: the one whose status
  // read is ahead, and those not taken up whose future is not cancelled.
  ghost function InFlight<A>(s: State<A>): set<Task<A>> {
    (set t | t in Rest(s.worker) && t.id < |s.futures| && !s.futures[t.id].IsCancelled())
    + (if s.worker.Acting? || s.worker.Settled? then {s.worker.task} else {})
  }

  // schedule_delayed while running, 267-275
  ghost predicate AcceptStep<A>(s: State<A>, delay: real, priority: int, action: A, s': State<A>) {
    && LockFree(s) && s.status == Running
    && var task := Task(|s.accepted|, s.clock + delay, priority, action);
       s' == s.(queue := s.queue + {task}, accepted := s.accepted + [task], futures := s.futures + [Pending],
                notified := s.notified || s.worker.Waiting?,
                backdated := if delay < 0.0 then s.backdated + {task.id} else s.backdated)
  }

  // Future.cancel, by any thread, without the lock
  ghost predicate CancelStep<A>(s: State<A>, id: nat, s': State<A>) {
    && id < |s.futures|
    && s' == if s.futures[id] == Pending then s.(futures := s.futures[id := Cancelled]) else s
  }

  // _process_expired_tasks, 298-300
  ghost predicate PopStep<A>(s: State<A>, batch: seq<Task<A>>, s': State<A>) {
    && s.worker.Popping? && DueBatch(s.queue, s.clock, batch)
    && s' == s.(queue := (set t | t in s.queue && t.absTime > s.clock), worker := Batch(batch), horizon := s.clock)
  }

  // set_running_or_notify_cancel on the next task of the batch, 306-309
  ghost predicate TakeStep<A>(s: State<A>, task: Task<A>, rest: seq<Task<A>>, s': State<A>) {
    && s.worker == Batch([task] + rest) && task.id < |s.futures|
    && if s.futures[task.id].IsCancelled() then
         s' == s.(futures := s.futures[task.id := CancelledNotified], worker := Batch(rest))
       else
         && s.futures[task.id] == Pending
         && s' == s.(futures := s.futures[task.id := Executing], worker := Acting(task, rest),
                     started := s.started + [Start(task, s.clock)])
  }

  // set_result or set_exception, 313-315
  ghost predicate CompleteStep<A>(s: State<A>, s': State<A>) {
    && s.worker.Acting? && s.worker.task.id < |s.futures|
    && s' == s.(futures := s.futures[s.worker.task.id := Finished], worker := Settled(s.worker.task, s.worker.rest))
  }

  ghost predicate Step<A>(s: State<A>, l: Label<A>, s': State<A>) {
    match l
    case Tick(passed) => passed >= 0.0 && s' == s.(clock := s.clock + passed)

    case Accept(delay, priority, action) => AcceptStep(s, delay, priority, action, s')
    case Reject => LockFree(s) && s.status != Running && s' == s

    case CancelFuture(id) => CancelStep(s, id, s')

    // stop, 226-235
    case BeginStop(sync) => LockFree(s) && s' == s.(stopper := Stop(sync, s.queue, {}))
    case ReadFuture(task) =>
      && s.stopper.Stop? && task in s.stopper.todo && task.id < |s.futures|
      && s' == s.(stopper := s.stopper.(
                    todo := s.stopper.todo - {task},
                    counted := if s.futures[task.id].IsCancelled() then s.stopper.counted
                               else s.stopper.counted + {task}))
    case EndStop =>
      && s.stopper.Stop? && s.stopper.todo == {}
      && var n := |s.stopper.counted|;
         s' == s.(toFinish := n, status := if s.stopper.sync && n != 0 then StoppedSync else Stopped,
                  notified := s.notified || s.worker.Waiting?, stopper := NoStop,
                  stops := s.stops + [StopRecord(s.stopper.sync, s.clock, s.queue, s.stopper.counted, InFlight(s),
                                                  StartedIds(s.started))])

    // run and _wait_for_task_to_process, 208-212 and 279-295
    case TakeLock => s.worker.Unlocked? && LockFree(s) && s' == s.(worker := Checking)
    case Check =>
      && s.worker.Checking?
      && (if s.status == Stopped then s' == s.(worker := Exited)
          else if (s.queue == {} || s.toFinish == 0) && s.status == StoppedSync then
            s' == s.(status := Stopped, worker := Exited)
          else if Due(s.queue, s.clock) then s' == s.(worker := Popping)
          else
            && s'.worker.Sleepy? && TimeTillNext(s.queue, s.clock, s'.worker.delay)
            && s' == s.(worker := Sleepy(s'.worker.delay, s.clock, s.status)))
    case Sleep =>
      && s.worker.Sleepy?
      && s' == s.(notified := false,
                  worker := Waiting(if s.worker.delay.Some? then Some(s.clock + s.worker.delay.value) else None,
                                    s.clock - s.worker.readAt, s.worker.seen))
    case Wake =>
      && s.worker.Waiting?
      && (s.notified || (s.worker.deadline.Some? && s.clock >= s.worker.deadline.value))
      && s' == s.(worker := Unlocked, notified := false)

    // _process_expired_tasks and _process_task, 298-318
    case Pop(batch) => PopStep(s, batch, s')
    case TakeTask =>
      s.worker.Batch? && s.worker.rest != [] && TakeStep(s, s.worker.rest[0], s.worker.rest[1..], s')
    case Complete => CompleteStep(s, s')
    case Settle =>
      && s.worker.Settled?
      && s' == s.(worker := if s.status == StoppedSync then Counting(s.worker.task, s.worker.rest)
                            else Batch(s.worker.rest))
    case ReadCount =>
      s.worker.Counting? && s' == s.(worker := Storing(s.toFinish, s.worker.task, s.worker.rest))
    case StoreCount =>
      && s.worker.Storing?
      && s' == s.(toFinish := s.worker.v - 1, decremented := s.decremented + {s.worker.task},
                  worker := Batch(s.worker.rest))
    case Relock => s.worker.Batch? && s.worker.rest == [] && LockFree(s) && s' == s.(worker := Unlocked)
  }

  ghost predicate Next<A(!new)>(s: State<A>, s': State<A>) {
    exists l :: Step(s, l, s')
  }

  // ---------- every task is in one place ----------

  ghost predicate Known<A>(s: State<A>, t: Task<A>) {
    t.id < |s.accepted| && s.accepted[t.id] == t
  }

  ghost predicate Numbered<A>(s: State<A>) {
    && |s.futures| == |s.accepted|
    && (forall i :: 0 <= i < |s.accepted| ==> s.accepted[i].id == i)
    && (forall t :: t in s.queue ==> Known(s, t))
    && (forall t :: t in Rest(s.worker) ==> Known(s, t))
    && (forall i :: 0 <= i < |s.started| ==> Known(s, s.started[i].task))
    && (Current(s.worker).Some? ==> Known(s, Current(s.worker).value))
  }

  predicate Waits(f: FutureState) {
    f.Pending? || f.Cancelled?
  }

  predicate Ran(f: FutureState) {
    f.Executing? || f.Finished?
  }

  // The future of a task tells where the task is: still queued or in the batch, or taken up.
  ghost predicate Placed<A>(s: State<A>)
    requires Numbered(s)
  {
    && (forall t :: t in s.queue ==> Waits(s.futures[t.id]) && t !in Rest(s.worker))
    && (forall t :: t in Rest(s.worker) ==> Waits(s.futures[t.id]))
    && (forall i, j :: 0 <= i < j < |Rest(s.worker)| ==> Rest(s.worker)[i] != Rest(s.worker)[j])
    && (forall i :: 0 <= i < |s.futures| && Waits(s.futures[i]) ==>
          s.accepted[i] in s.queue || s.accepted[i] in Rest(s.worker))
  }

  ghost function StartedIds<A>(starts: seq<Start<A>>): set<nat> {
    set i | 0 <= i < |starts| :: starts[i].task.id
  }

  lemma StartedIdsAppend<A>(starts: seq<Start<A>>, start: Start<A>)
    ensures StartedIds(starts + [start]) == StartedIds(starts) + {start.task.id}
  {
    var more := starts + [start];
    assert more[|starts|] == start;
    forall i | 0 <= i < |starts|
      ensures starts[i].task.id in StartedIds(more)
    {
      assert more[i] == starts[i];
    }
  }

  // An action has begun exactly for the futures that left the waiting states, and once.
  ghost predicate StartedOnce<A>(s: State<A>)
    requires Numbered(s)
  {
    && (forall k :: k in StartedIds(s.started) ==> k < |s.futures| && Ran(s.futures[k]))
    && (forall k :: 0 <= k < |s.futures| && Ran(s.futures[k]) ==> k in StartedIds(s.started))
    && (forall i, j :: 0 <= i < j < |s.started| ==> s.started[i].task.id != s.started[j].task.id)
  }

  // A future is executing exactly while its action is the one under way.
  ghost predicate Occupied<A>(s: State<A>)
    requires Numbered(s)
  {
    && (forall k :: 0 <= k < |s.futures| && s.futures[k] == Executing ==> s.worker.Acting? && s.worker.task.id == k)
    && (Current(s.worker).Some? ==>
          s.futures[Current(s.worker).value.id] == if s.worker.Acting? then Executing else Finished)
  }

  ghost predicate Accounted<A>(s: State<A>) {
    Numbered(s) && Placed(s) && StartedOnce(s) && Occupied(s)
  }

  // Steps that leave every task where it is.
  predicate MovesNoTask<A>(l: Label<A>) {
    !l.Accept? && !l.CancelFuture? && !l.Pop? && !l.TakeTask? && !l.Complete?
  }

  lemma UnmovingStep<A>(s: State<A>, l: Label<A>, s': State<A>)
    requires MovesNoTask(l) && Step(s, l, s')
    ensures s'.queue == s.queue && s'.futures == s.futures && s'.accepted == s.accepted && s'.started == s.started
    ensures Rest(s'.worker) == Rest(s.worker)
    ensures Current(s'.worker).Some? ==> Current(s'.worker) == Current(s.worker)
    ensures s.worker.Acting? <==> s'.worker.Acting?
  {
  }

  lemma UnmovingKeepsAccounted<A>(s: State<A>, l: Label<A>, s': State<A>)
    requires Accounted(s) && MovesNoTask(l) && Step(s, l, s')
    ensures Accounted(s')
  {
    UnmovingStep(s, l, s');
  }

  lemma AcceptKeepsAccounted<A>(s: State<A>, delay: real, priority: int, action: A, s': State<A>)
    requires Accounted(s) && AcceptStep(s, delay, priority, action, s')
    ensures Accounted(s')
  {
    assert forall t :: Known(s, t) ==> Known(s', t);
  }

  lemma CancelKeepsAccounted<A>(s: State<A>, id: nat, s': State<A>)
    requires Accounted(s) && CancelStep(s, id, s')
    ensures Accounted(s')
  {
  }

  lemma PopKeepsAccounted<A>(s: State<A>, batch: seq<Task<A>>, s': State<A>)
    requires Accounted(s) && PopStep(s, batch, s')
    ensures Accounted(s')
  {
    forall i | 0 <= i < |s'.futures| && Waits(s'.futures[i])
      ensures s'.accepted[i] in s'.queue || s'.accepted[i] in Rest(s'.worker)
    {
      assert s.accepted[i] in s.queue;
    }
  }

  // The task taken up shares its future with no other task still waiting.
  lemma HeadIsAlone<A>(s: State<A>, task: Task<A>, rest: seq<Task<A>>)
    requires Numbered(s) && Placed(s) && s.worker == Batch([task] + rest)
    ensures Known(s, task) && Waits(s.futures[task.id])
    ensures forall t :: t in rest ==> t in s.worker.rest && t.id != task.id
    ensures forall t :: t in s.queue ==> t !in rest && t.id != task.id
    ensures forall i, j :: 0 <= i < j < |rest| ==> rest[i] != rest[j]
  {
    var batch := s.worker.rest;
    assert batch[0] == task && forall i :: 0 <= i < |rest| ==> rest[i] == batch[i + 1];
    assert task in batch;
    forall t | t in rest
      ensures t in batch && t.id != task.id
    {
      var i :| 0 <= i < |rest| && rest[i] == t;
      assert batch[i + 1] == t && batch[0] != batch[i + 1];
      assert Known(s, t) && Known(s, task);
    }
  }

  lemma TakeKeepsNumbered<A>(s: State<A>, task: Task<A>, rest: seq<Task<A>>, s': State<A>)
    requires Numbered(s) && Placed(s) && TakeStep(s, task, rest, s')
    ensures Numbered(s') && Waits(s.futures[task.id])
  {
    HeadIsAlone(s, task, rest);
  }

  lemma TakeKeepsPlaced<A>(s: State<A>, task: Task<A>, rest: seq<Task<A>>, s': State<A>)
    requires Numbered(s) && Placed(s) && TakeStep(s, task, rest, s') && Numbered(s')
    ensures Placed(s')
  {
    HeadIsAlone(s, task, rest);
    forall i | 0 <= i < |s'.futures| && Waits(s'.futures[i])
      ensures s'.accepted[i] in s'.queue || s'.accepted[i] in rest
    {
      assert s.accepted[i] in s.queue || s.accepted[i] in [task] + rest;
    }
  }

  lemma TakeKeepsStartedOnce<A>(s: State<A>, task: Task<A>, rest: seq<Task<A>>, s': State<A>)
    requires Accounted(s) && TakeStep(s, task, rest, s') && Numbered(s') && Waits(s.futures[task.id])
    ensures StartedOnce(s') && Occupied(s')
  {
    StartedIdsAppend(s.started, Start(task, s.clock));
    forall i | 0 <= i < |s.started|
      ensures s.started[i].task.id != task.id
    {
      assert s.started[i].task.id in StartedIds(s.started);
    }
  }

  lemma CompleteKeepsAccounted<A>(s: State<A>, s': State<A>)
    requires Accounted(s) && CompleteStep(s, s')
    ensures Accounted(s')
  {
  }

  lemma StepKeepsAccounted<A>(s: State<A>, l: Label<A>, s': State<A>)
    requires Accounted(s) && Step(s, l, s')
    ensures Accounted(s')
  {
    match l {
      case Accept(delay, priority, action) => AcceptKeepsAccounted(s, delay, priority, action, s');
      case CancelFuture(id) => CancelKeepsAccounted(s, id, s');
      case Pop(batch) => PopKeepsAccounted(s, batch, s');
      case TakeTask =>
        TakeKeepsNumbered(s, s.worker.rest[0], s.worker.rest[1..], s');
        TakeKeepsPlaced(s, s.worker.rest[0], s.worker.rest[1..], s');
        TakeKeepsStartedOnce(s, s.worker.rest[0], s.worker.rest[1..], s');
      case Complete => CompleteKeepsAccounted(s, s');
      case _ => UnmovingKeepsAccounted(s, l, s');
    }
  }

  // ---------- order and timing ----------

  // Nothing comes after a later task, tasks accepted with a negative delay aside.
  ghost predicate TimeOrdered<A>(ts: seq<Task<A>>, backdated: set<nat>) {
    forall i, j :: 0 <= i < j < |ts| ==> ts[i].absTime <= ts[j].absTime || ts[j].id in backdated
  }

  function TasksOf<A>(starts: seq<Start<A>>): seq<Task<A>> {
    seq(|starts|, i requires 0 <= i < |starts| => starts[i].task)
  }

  ghost predicate Timed<A>(s: State<A>) {
    && s.horizon <= s.clock
    && (forall k :: k in s.backdated ==> k < |s.accepted|)
    && (forall t :: t in s.queue ==> s.horizon <= t.absTime || t.id in s.backdated)
    && TimeOrdered(Line(s), s.backdated)
    && (forall t :: t in Line(s) ==> t.absTime <= s.horizon)
    && (forall i :: 0 <= i < |s.started| ==> s.started[i].task.absTime <= s.started[i].at <= s.clock)
  }

  // Started tasks followed by the rest of the batch: the order in which actions begin.
  ghost function Line<A>(s: State<A>): seq<Task<A>> {
    TasksOf(s.started) + Rest(s.worker)
  }

  lemma PopExtendsLine<A>(s: State<A>, batch: seq<Task<A>>, s': State<A>)
    requires Timed(s) && PopStep(s, batch, s')
    ensures Timed(s')
  {
    var line, line' := Line(s), Line(s');
    assert line == TasksOf(s.started) && line' == line + batch;
    forall i, j | 0 <= i < j < |line'|
      ensures line'[i].absTime <= line'[j].absTime || line'[j].id in s.backdated
    {
      if j >= |line| {
        assert batch[j - |line|] in batch;
        if i >= |line| {
          assert Leq(batch[i - |line|], batch[j - |line|]);
        } else {
          assert line[i] in line;
        }
      }
    }
  }

  // Taking up the next task of the batch leaves the line as it is, or drops that task from it.
  lemma TakeKeepsLine<A>(s: State<A>, task: Task<A>, rest: seq<Task<A>>, s': State<A>)
    requires TakeStep(s, task, rest, s')
    ensures var line, n := Line(s), |s.started|;
            && n < |line| && line[n] == task
            && Line(s') == if s'.worker.Acting? then line else line[..n] + line[n + 1..]
  {
    var line, n := Line(s), |s.started|;
    assert line == TasksOf(s.started) + [task] + rest;
    if s'.worker.Acting? {
      assert TasksOf(s'.started) == TasksOf(s.started) + [task];
    } else {
      assert line[..n] == TasksOf(s.started) && line[n + 1..] == rest;
    }
  }

  lemma TakeKeepsTimed<A>(s: State<A>, task: Task<A>, rest: seq<Task<A>>, s': State<A>)
    requires Timed(s) && TakeStep(s, task, rest, s')
    ensures Timed(s')
  {
    TakeKeepsLine(s, task, rest, s');
    assert task in Line(s);
    DropOne(Line(s), |s.started|, s.backdated);
    ShorterLineIsTimed(s, s');
  }

  lemma ShorterLineIsTimed<A>(s: State<A>, s': State<A>)
    requires Timed(s) && s'.queue == s.queue && s'.horizon == s.horizon && s'.clock == s.clock
    requires s'.backdated == s.backdated && s'.accepted == s.accepted
    requires TimeOrdered(Line(s'), s.backdated) && forall t :: t in Line(s') ==> t in Line(s)
    requires forall k :: 0 <= k < |s'.started| ==>
               s'.started[k] in s.started || (s'.started[k].task in Line(s) && s'.started[k].at == s.clock)
    ensures Timed(s')
  {
    forall k | 0 <= k < |s'.started|
      ensures s'.started[k].task.absTime <= s'.started[k].at <= s'.clock
    {
      if s'.started[k] in s.started {
        var j :| 0 <= j < |s.started| && s.started[j] == s'.started[k];
      }
    }
  }

  lemma DropOne<A>(ts: seq<Task<A>>, n: nat, backdated: set<nat>)
    requires TimeOrdered(ts, backdated) && n < |ts|
    ensures TimeOrdered(ts[..n] + ts[n + 1..], backdated)
    ensures forall t :: t in ts[..n] + ts[n + 1..] ==> t in ts
  {
  }

  lemma OtherStepKeepsLine<A>(s: State<A>, l: Label<A>, s': State<A>)
    requires !l.Pop? && !l.TakeTask? && Step(s, l, s')
    ensures Line(s') == Line(s) && s'.started == s.started && s'.horizon == s.horizon && s.clock <= s'.clock
    ensures s.backdated <= s'.backdated && |s.accepted| <= |s'.accepted|
    ensures forall t :: t in s'.queue ==> t in s.queue || s.clock <= t.absTime || t.id in s'.backdated
    ensures forall k :: k in s'.backdated ==> k in s.backdated || k < |s'.accepted|
  {
  }

  lemma OtherStepKeepsTimed<A>(s: State<A>, l: Label<A>, s': State<A>)
    requires Timed(s) && !l.Pop? && !l.TakeTask? && Step(s, l, s')
    ensures Timed(s')
  {
    OtherStepKeepsLine(s, l, s');
  }

  lemma StepKeepsTimed<A>(s: State<A>, l: Label<A>, s': State<A>)
    requires Timed(s) && Step(s, l, s')
    ensures Timed(s')
  {
    match l {
      case Pop(batch) => PopExtendsLine(s, batch, s');
      case TakeTask => TakeKeepsTimed(s, s.worker.rest[0], s.worker.rest[1..], s');
      case _ => OtherStepKeepsTimed(s, l, s');
    }
  }

  // ---------- waiting ----------

  // While the worker is about to wait or waits un-notified, what it saw still holds.
  ghost predicate WaitsRightly<A>(s: State<A>) {
    && (s.worker.Sleepy? ==>
          s.status == s.worker.seen && s.worker.readAt <= s.clock && TimeTillNext(s.queue, s.worker.readAt, s.worker.delay))
    && (s.worker.Waiting? ==> s.worker.lag >= 0.0)
    && (s.worker.Waiting? && !s.notified ==>
          && s.status == s.worker.seen
          && TimeTillNext(s.queue, 0.0,
                          if s.worker.deadline.Some? then Some(s.worker.deadline.value - s.worker.lag) else None))
    && (s.worker.Popping? ==> Due(s.queue, s.clock))
    && (s.worker.Checking? || s.worker.Sleepy? || s.worker.Popping? ==> s.stopper.NoStop?)
  }

  lemma StepKeepsWaitsRightly<A>(s: State<A>, l: Label<A>, s': State<A>)
    requires WaitsRightly(s) && Step(s, l, s')
    ensures WaitsRightly(s')
  {
    if s.worker.Popping? && s'.worker.Popping? {
      var t :| t in s.queue && t.absTime <= s.clock;
      assert t in s'.queue && t.absTime <= s'.clock;
    }
  }

  // ---------- every run ----------

  ghost predicate Inv<A>(s: State<A>) {
    Accounted(s) && Timed(s) && WaitsRightly(s)
  }

  lemma StepKeepsInv<A>(s: State<A>, l: Label<A>, s': State<A>)
    requires Inv(s) && Step(s, l, s')
    ensures Inv(s')
  {
    StepKeepsAccounted(s, l, s');
    StepKeepsTimed(s, l, s');
    StepKeepsWaitsRightly(s, l, s');
  }

  lemma InitInv<A>(s: State<A>)
    requires Init(s)
    ensures Inv(s)
  {
    assert Line(s) == [];
    assert Accounted(s) && Timed(s);
  }

  lemma InvAlways<A(!new)>(tr: seq<State<A>>, i: nat)
    requires IsRun(Init, Next, tr) && i < |tr|
    ensures Inv(tr[i])
  {
    forall s: State<A> | Init(s) ensures Inv(s) { InitInv(s); }
    forall s: State<A>, s' | Inv(s) && Next(s, s') ensures Inv(s') {
      var l :| Step(s, l, s');
      StepKeepsInv(s, l, s');
    }
    InvariantAt(Init, Next, Inv, tr, i);
  }
}
