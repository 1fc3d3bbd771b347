// SingleThreadExecutor as an object: each stretch of code that runs under the lock updates the
// fields in place and is proved to be a step of module ExecutorProtocol.
module Executors {
  import opened Runs
  import opened Tasks
  import opened TaskQueues
  import opened ExecutorProtocol
  import opened ExecutorCalls

  // What one pass of the loop in _wait_for_task_to_process does.
  datatype Verdict = ReturnFalse | ReturnTrue | WaitFor(delay: Option<real>)

  lemma {:induction false} NoRepeatsCounts<A>(q: seq<Task<A>>)
    ensures NoRepeats(q) <==> forall t :: t in q ==> multiset(q)[t] == 1
  {
    if q != [] {
      var front, last := q[..|q| - 1], q[|q| - 1];
      assert q == front + [last];
      NoRepeatsCounts(front);
      if NoRepeats(q) {
        assert last !in front;
        assert multiset(front)[last] == 0;
      } else if NoRepeats(front) {
        assert last in front;
        assert multiset(q)[last] == 2;
      } else {
        var t :| t in front && multiset(front)[t] != 1;
        assert t in q && multiset(q)[t] != 1;
      }
    }
  }

  // Taking some entries out of a queue without repeats partitions its elements.
  lemma SplitElements<A>(all: seq<Task<A>>, due: seq<Task<A>>, rest: seq<Task<A>>)
    requires NoRepeats(all) && multiset(all) == multiset(due) + multiset(rest)
    ensures NoRepeats(due) && NoRepeats(rest)
    ensures Elements(all) == Elements(due) + Elements(rest) && Elements(due) !! Elements(rest)
  {
    NoRepeatsCounts(all);
    NoRepeatsCounts(due);
    NoRepeatsCounts(rest);
    MemberOfEither(all, due, rest);
    forall t | t in due
      ensures multiset(due)[t] == 1 && t !in rest
    {
      assert t in all && t in multiset(due);
    }
    forall t | t in rest
      ensures multiset(rest)[t] == 1
    {
      assert t in all && t in multiset(rest);
    }
  }

  lemma AddElement<A>(q: seq<Task<A>>, t: Task<A>, q': seq<Task<A>>)
    requires NoRepeats(q) && t !in q && multiset(q') == multiset(q) + multiset{t}
    ensures NoRepeats(q') && Elements(q') == Elements(q) + {t}
  {
    assert multiset(q') == multiset(q + [t]);
    NoRepeatsCounts(q + [t]);
    NoRepeatsCounts(q');
    MemberOfEither(q', q, [t]);
    assert NoRepeats(q + [t]);
    forall u | u in q'
      ensures multiset(q')[u] == 1
    {
      assert u in q + [t];
    }
  }

  class SingleThreadExecutor<A(==)> {
    var status: Status
    const tasks: TaskQueue<A>
    var futures: seq<FutureState>   // the state of each task's future
    var tasksToFinish: int
    var waiting: bool               // the worker is inside Condition.wait
    var notified: bool
    ghost var accepted: seq<Task<A>>

    ghost predicate Valid()
      reads this`futures, this`accepted, tasks
    {
      && tasks.Valid() && NoRepeats(tasks.queue)
      && |accepted| == |futures|
      && (forall t :: t in tasks.queue ==> t.id < |futures| && accepted[t.id] == t)
    }

    // The fields are those of protocol state s.
    ghost predicate Models(s: State<A>)
      reads this, tasks
    {
      && s.status == status && s.queue == Elements(tasks.queue) && s.futures == futures
      && s.toFinish == tasksToFinish && s.accepted == accepted
      && s.worker.Waiting? == waiting && s.notified == notified
    }

    // lines 190-195
    constructor ()
      ensures Valid() && fresh(tasks)
      ensures status == Stopped && tasks.queue == [] && futures == [] && tasksToFinish == 0 && accepted == []
      ensures Fresh()
    {
      tasks := new TaskQueue<A>();
      status := Stopped;
      futures := [];
      tasksToFinish := 0;
      waiting, notified := false, false;
      accepted := [];
    }

    // Nothing has happened since the constructor.
    ghost predicate Fresh()
      reads this
    {
      status == Stopped && futures == [] && !waiting && !notified
    }

    // run, lines 203-205: on a fresh executor this sets up the initial state of the protocol.
    method BeginRun(ghost s: State<A>)
      requires Valid()
      modifies this`tasksToFinish, this`status
      ensures Valid() && status == Running && tasksToFinish == 0
      ensures old(Fresh()) && Init(s) ==> Models(s)
    {
      tasksToFinish := 0;
      status := Running;
      assert futures == [] ==> tasks.queue == [] by {
        assert tasks.queue != [] ==> tasks.queue[0] in tasks.queue;
      }
    }

    // Condition.notify with the worker as the only possible waiter
    method Notify()
      modifies this`notified
      ensures notified == (old(notified) || waiting)
    {
      if waiting {
        notified := true;
      }
    }

    // schedule_delayed: None stands for raising Stopped. `now` is what the clock reads.
    method ScheduleDelayed(now: real, delay: real, priority: int, action: A, ghost s: State<A>)
      returns (id: Option<nat>, ghost s': State<A>)
      requires Valid() && Models(s) && LockFree(s) && s.clock == now
      modifies this`futures, this`notified, this`accepted, tasks
      ensures Valid() && Models(s')
      ensures Step(s, if id.Some? then Accept(delay, priority, action) else Reject, s')
      ensures id.Some? <==> status == Running
      ensures id.Some? ==> id.value == |old(futures)| && futures == old(futures) + [Pending]
      ensures id.Some? ==> accepted == old(accepted) + [Task(id.value, now + delay, priority, action)]
      ensures id.None? ==> accepted == old(accepted) && tasks.queue == old(tasks.queue)
    {
      if status == Stopped || status == StoppedSync {
        return None, s;
      }
      var task := Task(|futures|, now + delay, priority, action);
      s' := s.(queue := s.queue + {task}, accepted := s.accepted + [task], futures := s.futures + [Pending],
               notified := s.notified || s.worker.Waiting?,
               backdated := if delay < 0.0 then s.backdated + {task.id} else s.backdated);
      ghost var q := tasks.queue;
      tasks.ScheduleTask(task);
      AddElement(q, task, tasks.queue);
      MemberOfEither(tasks.queue, q, [task]);
      futures := futures + [Pending];
      accepted := accepted + [task];
      Notify();
      return Some(task.id), s';
    }

    // Future.cancel on the future of task `id`
    method Cancel(id: nat, ghost s: State<A>) returns (cancelled: bool, ghost s': State<A>)
      requires Valid() && Models(s) && id < |futures|
      modifies this`futures
      ensures Valid() && Models(s') && Step(s, CancelFuture(id), s')
      ensures cancelled <==> futures[id].IsCancelled()
      ensures cancelled <==> old(futures[id]) !in {Executing, Finished}
    {
      s' := if s.futures[id] == Pending then s.(futures := s.futures[id := Cancelled]) else s;
      if futures[id] == Executing || futures[id] == Finished {
        return false, s';
      }
      if futures[id] == Pending {
        futures := futures[id := Cancelled];
      }
      return true, s';
    }

    ghost function Live(): set<Task<A>>
      reads this, tasks
    {
      LiveIn(tasks.queue, futures)
    }

    // stop: the queued tasks whose future is not cancelled are counted under the lock.
    method Stop(sync: bool, ghost s: State<A>) returns (ghost tr: seq<State<A>>, ghost ls: seq<Label<A>>)
      requires Valid() && Models(s) && LockFree(s)
      modifies this`tasksToFinish, this`status, this`notified
      ensures Valid() && Executes(tr, ls) && tr[0] == s && IsStopCall(ls, sync)
      ensures tr[|tr| - 1] == Stopping(s, sync, Live()) && Models(tr[|tr| - 1])
      ensures tasksToFinish == |Live()|
      ensures status == if sync && Live() != {} then StoppedSync else Stopped
      ensures notified == (old(notified) || waiting)
    {
      tr, ls := StopSteps(s, sync, tasks.queue);
      tasksToFinish := CountLive();
      status := if sync && tasksToFinish != 0 then StoppedSync else Stopped;
      Notify();
    }

    // sum(not task.future.cancelled() for task in self._tasks.get_tasks())
    method CountLive() returns (sum: nat)
      requires Valid()
      ensures sum == |Live()|
    {
      var queued := tasks.GetTasks();
      sum := 0;
      for i := 0 to |queued|
        invariant sum == |LiveIn(queued[..i], futures)|
      {
        var task := queued[i];
        assert task in tasks.queue;
        assert queued[..i + 1] == queued[..i] + [task];
        LiveInAppend(queued[..i], task, futures);
        sum := sum + if !futures[task.id].IsCancelled() then 1 else 0;
      }
      assert queued[..|queued|] == queued;
    }

    // One pass of the loop in _wait_for_task_to_process, lines 280-295, up to the wait.
    method CheckOnce(now: real, ghost s: State<A>) returns (v: Verdict, ghost s': State<A>)
      requires Valid() && Models(s) && s.worker == Checking && s.clock == now
      modifies this`status
      ensures Valid() && Models(s') && Step(s, Check, s')
      ensures match v
              case ReturnFalse => s'.worker == Exited && status == Stopped
              case ReturnTrue => s'.worker == Popping
              case WaitFor(delay) => s'.worker == Sleepy(delay, now, status)
      ensures v == ReturnFalse <==>
                || old(status) == Stopped
                || (old(status) == StoppedSync && (tasks.queue == [] || tasksToFinish == 0))
      ensures v == ReturnTrue <==> v != ReturnFalse && exists t :: t in tasks.queue && t.absTime <= now
      ensures v.WaitFor? ==>
                && (v.delay.None? <==> tasks.queue == [])
                && (v.delay.Some? ==>
                      && (exists t :: t in tasks.queue && v.delay.value == t.absTime - now)
                      && forall t :: t in tasks.queue ==> v.delay.value <= t.absTime - now)
      ensures status == if v == ReturnFalse then Stopped else old(status)
    {
      if status == Stopped {
        return ReturnFalse, s.(worker := Exited);
      }
      var empty := tasks.Empty();
      assert empty <==> tasks.queue == [] by {
        assert tasks.queue != [] ==> tasks.queue[0] in multiset(tasks.queue);
      }
      assert tasks.queue == [] <==> s.queue == {} by {
        assert tasks.queue != [] ==> tasks.queue[0] in s.queue;
      }
      if (empty || tasksToFinish == 0) && status == StoppedSync {
        status := Stopped;
        return ReturnFalse, s.(status := Stopped, worker := Exited);
      }
      var delay := tasks.GetTimeTillNextTask(now);
      if delay.Some? && delay.value <= 0.0 {
        var t :| t in tasks.queue && delay.value == t.absTime - now;
        assert t in s.queue && t.absTime <= s.clock;
        return ReturnTrue, s.(worker := Popping);
      }
      assert TimeTillNext(s.queue, now, delay) && !Due(s.queue, now) by {
        if delay.Some? {
          var t :| t in tasks.queue && delay.value == t.absTime - now;
          assert t in s.queue;
        }
      }
      return WaitFor(delay), s.(worker := Sleepy(delay, now, status));
    }

    // _process_expired_tasks, line 298
    method PopExpired(now: real, ghost s: State<A>) returns (batch: seq<Task<A>>, ghost s': State<A>)
      requires Valid() && Models(s) && s.worker == Popping && s.clock == now
      modifies tasks
      ensures Valid() && Models(s') && Step(s, Pop(batch), s')
      ensures multiset(batch) + multiset(tasks.queue) == old(multiset(tasks.queue))
      ensures forall t :: t in batch ==> t.absTime <= now
      ensures forall t :: t in tasks.queue ==> t.absTime > now
      ensures forall i, j :: 0 <= i < j < |batch| ==>
                || batch[i].absTime < batch[j].absTime
                || (batch[i].absTime == batch[j].absTime && batch[i].priority <= batch[j].priority)
    {
      ghost var q := tasks.queue;
      batch := tasks.PopTasksTillTimestamp(now);
      SplitElements(q, batch, tasks.queue);
      MemberOfEither(q, batch, tasks.queue);
      s' := s.(queue := (set t | t in s.queue && t.absTime > s.clock), worker := Batch(batch), horizon := s.clock);
      assert s'.queue == Elements(tasks.queue);
    }

    // _process_task, lines 306-307: whether the action is to run.
    method TakeUp(task: Task<A>, rest: seq<Task<A>>, ghost s: State<A>) returns (act: bool, ghost s': State<A>)
      requires Valid() && Models(s) && s.worker == Batch([task] + rest)
      requires task.id < |futures| && Waits(futures[task.id])
      modifies this`futures
      ensures Valid() && Models(s') && Step(s, TakeTask, s')
      ensures act <==> old(futures[task.id]) == Pending
      ensures futures == old(futures)[task.id := if act then Executing else CancelledNotified]
      ensures s'.worker == if act then Acting(task, rest) else Batch(rest)
    {
      assert s.worker.rest[0] == task && s.worker.rest[1..] == rest;
      if futures[task.id] == Cancelled {
        futures := futures[task.id := CancelledNotified];
        return false, s.(futures := futures, worker := Batch(rest));
      }
      futures := futures[task.id := Executing];
      return true, s.(futures := futures, worker := Acting(task, rest), started := s.started + [Start(task, s.clock)]);
    }

    // _process_task, lines 313-318, once the action has returned or raised.
    method Conclude(task: Task<A>, rest: seq<Task<A>>, ghost s: State<A>)
      returns (ghost tr: seq<State<A>>, ghost ls: seq<Label<A>>)
      requires Valid() && Models(s) && s.worker == Acting(task, rest) && task.id < |futures|
      modifies this`futures, this`tasksToFinish
      ensures Valid() && Executes(tr, ls) && tr[0] == s && IsConclusion(ls)
      ensures Models(tr[|tr| - 1]) && tr[|tr| - 1].worker == Batch(rest)
      ensures futures == old(futures)[task.id := Finished]
      ensures tasksToFinish == old(tasksToFinish) - if status == StoppedSync then 1 else 0
    {
      tr, ls := ConcludeSteps(s, task, rest);
      futures := futures[task.id := Finished];
      if status == StoppedSync {
        tasksToFinish := tasksToFinish - 1;
      }
    }
  }
}
