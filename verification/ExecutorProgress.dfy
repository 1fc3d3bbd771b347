// While the executor runs, every queued task that nobody cancels gets its turn, on time.
module ExecutorProgress {
  import opened Runs
  import opened Tasks
  import opened ExecutorProtocol
  import opened ExecutorTermination

  // The time between the worker's clock read and its wait.
  function Lag<A>(s: State<A>): real {
    match s.worker
    case Waiting(_, lag, _) => lag
    case Sleepy(_, readAt, _) => s.clock - readAt
    case _ => 0.0
  }

  // When task t begins at the latest if nothing but the clock and the worker moves and actions take no
  // time: now, or the lag past its own time.
  function BeginsBy<A>(s: State<A>, t: Task<A>): real {
    if t.absTime + Lag(s) <= s.clock then s.clock else t.absTime + Lag(s)
  }

  ghost predicate Lives<A>(s: State<A>) {
    Inv(s) && (s.worker.Exited? ==> s.status != Running)
  }

  lemma StepKeepsLives<A>(s: State<A>, l: Label<A>, s': State<A>)
    requires Lives(s) && Step(s, l, s')
    ensures Lives(s')
  {
    StepKeepsInv(s, l, s');
    ExitMeansStopped(s, l, s');
  }

  lemma ExitMeansStopped<A>(s: State<A>, l: Label<A>, s': State<A>)
    requires (s.worker.Exited? ==> s.status != Running) && Step(s, l, s')
    ensures s'.worker.Exited? ==> s'.status != Running
  {
  }

  lemma LivesAlways<A(!new)>(s: State<A>)
    requires Reachable(Init, Next, s)
    ensures Lives(s)
  {
    forall s: State<A> | Init(s) ensures Lives(s) { InitInv(s); }
    forall s: State<A>, s' | Lives(s) && Next(s, s') ensures Lives(s') {
      var l :| Step(s, l, s');
      StepKeepsLives(s, l, s');
    }
    HoldsWhenReachable(Init, Next, Lives, s);
  }

  // The task has been accepted and waits for its turn.
  ghost predicate Awaits<A>(s: State<A>, t: Task<A>) {
    Known(s, t) && t.id < |s.futures| && s.futures[t.id] == Pending
  }

  ghost predicate Working<A>(s: State<A>) {
    Lives(s) && s.status == Running && s.stopper.NoStop?
  }

  lemma AwaitsSomewhere<A>(s: State<A>, t: Task<A>)
    requires Inv(s) && Awaits(s, t)
    ensures t in s.queue || t in Rest(s.worker)
  {
  }

  // A wait for a queued task has an end, no later than the lag past the time of the task.
  lemma WaitEnds<A>(s: State<A>, t: Task<A>)
    requires WaitsRightly(s) && s.worker.Waiting? && t in s.queue
    ensures s.notified || s.worker.deadline.Some?
    ensures s.clock <= s.clock + UntilDeadline(s) <= BeginsBy(s, t)
  {
  }

  lemma NextStep<A>(s: State<A>, t: Task<A>) returns (l: Label<A>, s': State<A>)
    requires Working(s) && Awaits(s, t)
    ensures WorkerStep(l) && UntilDeadline(s) >= 0.0 && Step(Later(s, UntilDeadline(s)), l, s')
    ensures s.clock + UntilDeadline(s) <= BeginsBy(s, t)
  {
    if s.worker.Waiting? {
      AwaitsSomewhere(s, t);
      WaitEnds(s, t);
      l, s' := Wake, Later(s, UntilDeadline(s)).(worker := Unlocked, notified := false);
    } else {
      assert Later(s, UntilDeadline(s)) == s;
      l, s' := AwakeStepIsPossible(s);
      LagIsNotNegative(s);
    }
  }

  lemma LagIsNotNegative<A>(s: State<A>)
    requires WaitsRightly(s)
    ensures Lag(s) >= 0.0
  {
  }

  lemma TickKeepsWork<A>(s: State<A>, passed: real)
    requires passed >= 0.0
    ensures WorkLeft(Later(s, passed)) <= WorkLeft(s)
  {
    var s' := Later(s, passed);
    if Due(s.queue, s.clock) {
      var t :| t in s.queue && t.absTime <= s.clock;
      assert t in s'.queue && t.absTime <= s'.clock;
    }
  }

  lemma StepUsesWorkAnyway<A>(s: State<A>, l: Label<A>, s': State<A>)
    requires Inv(s) && WorkerStep(l) && Step(s, l, s')
    ensures WorkLeft(s') < WorkLeft(s)
  {
    if BatchLabel(l) {
      BatchUsesWork(s, l, s');
    } else if l.Check? {
      CheckUsesWork(s, s');
    } else if l.Pop? {
      BatchSize(s, l.batch, s');
    } else {
      WaitUsesWork(s, l, s');
    }
  }

  // A step of the worker begins the task, or leaves it waiting.
  lemma TaskAfterStep<A>(s: State<A>, l: Label<A>, s': State<A>, t: Task<A>)
    requires Inv(s) && Awaits(s, t) && WorkerStep(l) && Step(s, l, s')
    ensures Known(s', t) && |s'.futures| == |s.futures|
    ensures || s'.futures[t.id] == Pending
            || (s'.futures[t.id] == Executing && s'.worker.Acting? && s'.worker.task == t
                && Start(t, s'.clock) in s'.started)
  {
    if l.TakeTask? {
      var task, rest := s.worker.rest[0], s.worker.rest[1..];
      assert s.worker.rest == [task] + rest;
      HeadIsAlone(s, task, rest);
      if s'.worker.Acting? {
        assert s'.started[|s.started|] == Start(task, s.clock);
      }
    }
  }

  lemma StatusAfterStep<A>(s: State<A>, l: Label<A>, s': State<A>)
    requires s.status == Running && s.stopper.NoStop? && (WorkerStep(l) || l.Tick?) && Step(s, l, s')
    ensures s'.status == Running && s'.stopper.NoStop?
  {
  }

  // The action of t has just begun.
  ghost predicate JustBegun<A>(s: State<A>, t: Task<A>) {
    && s.worker.Acting? && s.worker.task == t && Known(s, t) && t.id < |s.futures|
    && Start(t, s.clock) in s.started
  }

  lemma WorkingAfter<A>(s: State<A>, l: Label<A>, s': State<A>)
    requires Working(s) && (WorkerStep(l) || l.Tick?) && Step(s, l, s')
    ensures Working(s')
  {
    StepKeepsLives(s, l, s');
    StatusAfterStep(s, l, s');
  }

  // One step of the worker, after the wait it may have to sit out.
  lemma Advances<A(!new)>(s: State<A>, t: Task<A>) returns (s': State<A>)
    requires Working(s) && Awaits(s, t)
    ensures LeadsTo(Alone, s, s') && Working(s') && WorkLeft(s') < WorkLeft(s)
    ensures BeginsBy(s', t) <= BeginsBy(s, t) && s'.clock <= BeginsBy(s, t)
    ensures Awaits(s', t) || JustBegun(s', t)
  {
    var passed, later, l := UntilDeadline(s), Later(s, UntilDeadline(s)), TakeLock;
    l, s' := NextStep(s, t);
    assert Step(s, Tick(passed), later);
    WorkingAfter(s, Tick(passed), later);
    WorkingAfter(later, l, s');
    LeadsToItself(Alone, s);
    LeadsToNext(Alone, s, s, later);
    LeadsToNext(Alone, s, later, s');
    TickKeepsWork(s, passed);
    StepUsesWorkAnyway(later, l, s');
    TaskAfterStep(later, l, s', t);
    StaysOnTime(s, t, l, s');
  }

  lemma StaysOnTime<A>(s: State<A>, t: Task<A>, l: Label<A>, s': State<A>)
    requires WaitsRightly(s) && WorkerStep(l) && UntilDeadline(s) >= 0.0 && Step(Later(s, UntilDeadline(s)), l, s')
    requires s.clock + UntilDeadline(s) <= BeginsBy(s, t)
    ensures s'.clock <= BeginsBy(s, t) && BeginsBy(s', t) <= BeginsBy(s, t)
  {
    LagIsNotNegative(s);
  }

  // Every queued task begins, and no later than the lag past its time.
  lemma {:induction false} Begins<A(!new)>(s: State<A>, t: Task<A>) returns (s': State<A>)
    requires Working(s) && Awaits(s, t)
    ensures LeadsTo(Alone, s, s') && Working(s') && JustBegun(s', t) && s'.clock <= BeginsBy(s, t)
    decreases WorkLeft(s)
  {
    var next := Advances(s, t);
    if JustBegun(next, t) {
      return next;
    }
    s' := Begins(next, t);
    LeadsToLeads(Alone, s, next, s');
  }

  // Progress: from every reachable state in which the executor runs and nobody is inside stop, the
  // worker left alone runs every queued task that is not cancelled, beginning it at its time at the
  // earliest and at the latest now or the lag of a wait under way past that time.
  lemma EveryTaskRuns<A(!new)>(s: State<A>, t: Task<A>) returns (s': State<A>, at: real)
    requires Reachable(Init, Next, s) && s.status == Running && s.stopper.NoStop?
    requires t in s.queue && t.id < |s.futures| && s.futures[t.id] == Pending
    ensures LeadsTo(Alone, s, s') && Start(t, at) in s'.started && t.id in StartedIds(s'.started)
    ensures t.absTime <= at && (at <= s.clock || at <= t.absTime + Lag(s))
    ensures t.id < |s'.futures| && s'.futures[t.id] == Finished
  {
    LivesAlways(s);
    var begun := Begins(s, t);
    at := begun.clock;
    s' := begun.(futures := begun.futures[t.id := Finished], worker := Settled(t, begun.worker.rest));
    assert Step(begun, Complete, s');
    LeadsToNext(Alone, s, begun, s');
    var k :| 0 <= k < |s'.started| && s'.started[k] == Start(t, at);
    assert s'.started[k].task.id in StartedIds(s'.started);
    assert begun.started[k].task.absTime <= begun.started[k].at;
  }

  // ---------- who is turned away ----------

  ghost predicate RunsUntilStopped<A>(s: State<A>) {
    s.status == Running <==> s.stops == []
  }

  lemma StepKeepsRunsUntilStopped<A>(s: State<A>, l: Label<A>, s': State<A>)
    requires RunsUntilStopped(s) && Step(s, l, s')
    ensures RunsUntilStopped(s')
  {
  }

  lemma RunsUntilStoppedAlways<A(!new)>(s: State<A>)
    requires Reachable(Init, Next, s)
    ensures RunsUntilStopped(s)
  {
    forall s: State<A>, s' | RunsUntilStopped(s) && Next(s, s') ensures RunsUntilStopped(s') {
      var l :| Step(s, l, s');
      StepKeepsRunsUntilStopped(s, l, s');
    }
    HoldsWhenReachable(Init, Next, RunsUntilStopped, s);
  }

  // schedule_delayed raises Stopped exactly once a stop has completed, and accepts exactly until then.
  lemma AcceptsExactlyUntilStop<A(!new)>(s: State<A>, delay: real, priority: int, action: A)
    requires Reachable(Init, Next, s) && LockFree(s)
    ensures (exists s' :: Step(s, Accept(delay, priority, action), s')) <==> s.stops == []
    ensures (exists s' :: Step(s, Reject, s')) <==> s.stops != []
  {
    RunsUntilStoppedAlways(s);
    if s.status == Running {
      var task := Task(|s.accepted|, s.clock + delay, priority, action);
      assert Step(s, Accept(delay, priority, action),
                  s.(queue := s.queue + {task}, accepted := s.accepted + [task], futures := s.futures + [Pending],
                     notified := s.notified || s.worker.Waiting?,
                     backdated := if delay < 0.0 then s.backdated + {task.id} else s.backdated));
    } else {
      assert Step(s, Reject, s);
    }
  }
}
