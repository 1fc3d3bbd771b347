// What follows a stop: the status is final, the worker always has a step, and `run` returns after
// boundedly many of them.

module ExecutorTermination {
  import opened Runs
  import opened Tasks
  import opened ExecutorProtocol

  // After stop, the status never returns to Running, nothing is accepted, the queue only shrinks.
  lemma StopIsFinal<A>(s: State<A>, l: Label<A>, s': State<A>)
    requires s.status != Running && Step(s, l, s')
    ensures s'.status != Running && s'.accepted == s.accepted && s'.queue <= s.queue
  {
  }

  // The next check returns or finds a due task.
  ghost predicate Ready<A>(s: State<A>) {
    || s.status == Stopped
    || (s.status == StoppedSync && (s.queue == {} || s.toFinish == 0))
    || Due(s.queue, s.clock)
  }

  // Steps the worker can take before its next pop or its return, at most.
  ghost function Stage<A>(s: State<A>): nat {
    match s.worker
    case Exited => 0
    case Popping => 1
    case Checking => if Ready(s) then 2 else 6
    case Unlocked => if Ready(s) then 3 else 7
    case Waiting(_, _, _) => if s.notified then 8 else 4
    case Sleepy(_, _, _) => 5
    case Batch(rest) => 20 + 5 * |rest|
    case Storing(_, _, rest) => 21 + 5 * |rest|
    case Counting(_, rest) => 22 + 5 * |rest|
    case Settled(_, rest) => 23 + 5 * |rest|
    case Acting(_, rest) => 24 + 5 * |rest|
  }

  // A bound on the steps left before `run` returns.
  ghost function WorkLeft<A>(s: State<A>): nat {
    45 * |s.queue| + Stage(s)
  }

  lemma BatchSize<A>(s: State<A>, batch: seq<Task<A>>, s': State<A>)
    requires PopStep(s, batch, s') && Due(s.queue, s.clock)
    ensures |batch| > 0 && |s'.queue| + |batch| == |s.queue|
  {
    var t :| t in s.queue && t.absTime <= s.clock;
    assert t in batch;
    DistinctSize(batch, s.queue - s'.queue);
    assert s.queue == s'.queue + (s.queue - s'.queue);
  }

  lemma {:induction false} DistinctSize<T>(ts: seq<T>, all: set<T>)
    requires forall i, j :: 0 <= i < j < |ts| ==> ts[i] != ts[j]
    requires forall t :: t in ts ==> t in all
    requires forall t :: t in all ==> t in ts
    ensures |ts| == |all|
  {
    if ts == [] {
      assert all == {};
    } else {
      var front, last := ts[..|ts| - 1], ts[|ts| - 1];
      assert ts == front + [last];
      DistinctSize(front, all - {last});
    }
  }

  // Steps of a batch, from taking up a task to going back for the lock.
  predicate BatchLabel<A>(l: Label<A>) {
    l.TakeTask? || l.Complete? || l.Settle? || l.ReadCount? || l.StoreCount? || l.Relock?
  }

  lemma BatchUsesWork<A>(s: State<A>, l: Label<A>, s': State<A>)
    requires BatchLabel(l) && Step(s, l, s')
    ensures WorkLeft(s') < WorkLeft(s)
  {
    if l.TakeTask? {
      assert s.worker.rest == [s.worker.rest[0]] + s.worker.rest[1..];
    }
    assert s'.queue == s.queue;
  }

  lemma WaitUsesWork<A>(s: State<A>, l: Label<A>, s': State<A>)
    requires WaitsRightly(s) && (l.TakeLock? || l.Sleep? || l.Wake?) && Step(s, l, s')
    ensures WorkLeft(s') < WorkLeft(s)
  {
    assert s'.queue == s.queue;
    if l.Wake? && !s.notified {
      var w := s.worker;
      var t :| t in s.queue && t.absTime == w.deadline.value - w.lag;
      assert t.absTime <= s.clock;
      assert Due(s.queue, s.clock);
    }
  }

  lemma CheckUsesWork<A>(s: State<A>, s': State<A>)
    requires Step(s, Check, s')
    ensures WorkLeft(s') < WorkLeft(s)
  {
  }

  lemma OthersUseNone<A>(s: State<A>, l: Label<A>, s': State<A>)
    requires s.status != Running && !WorkerStep(l) && !l.EndStop? && Step(s, l, s')
    ensures WorkLeft(s') <= WorkLeft(s)
  {
    assert s'.queue == s.queue && s'.worker == s.worker && s'.notified == s.notified;
    assert s'.status == s.status && s'.toFinish == s.toFinish && s.clock <= s'.clock;
    if Due(s.queue, s.clock) {
      var t :| t in s.queue && t.absTime <= s.clock;
      assert t.absTime <= s'.clock;
      assert Due(s'.queue, s'.clock);
    }
  }

  // Each step of the worker after stop brings `run` closer to its return, and nobody else's step,
  // short of another stop, takes it further away.
  lemma StepUsesWork<A>(s: State<A>, l: Label<A>, s': State<A>)
    requires Inv(s) && s.status != Running && !l.EndStop? && Step(s, l, s')
    ensures WorkLeft(s') <= WorkLeft(s)
    ensures WorkerStep(l) ==> WorkLeft(s') < WorkLeft(s)
  {
    if !WorkerStep(l) {
      OthersUseNone(s, l, s');
    } else if BatchLabel(l) {
      BatchUsesWork(s, l, s');
    } else if l.Check? {
      CheckUsesWork(s, s');
    } else if l.Pop? {
      BatchSize(s, l.batch, s');
    } else {
      WaitUsesWork(s, l, s');
    }
  }

  ghost predicate LabelledStep<A>(tr: seq<State<A>>, ls: seq<Label<A>>, k: nat)
    requires |tr| == |ls| + 1 && k < |ls|
  {
    Step(tr[k], ls[k], tr[k + 1])
  }

  // A run together with the labels of its steps.
  ghost predicate LabelledRun<A>(tr: seq<State<A>>, ls: seq<Label<A>>) {
    && |tr| == |ls| + 1
    && Init(tr[0])
    && forall k :: 0 <= k < |ls| ==> LabelledStep(tr, ls, k)
  }

  lemma LabelledIsRun<A(!new)>(tr: seq<State<A>>, ls: seq<Label<A>>)
    requires LabelledRun(tr, ls)
    ensures IsRun(Init, Next, tr)
  {
    forall i | 0 < i < |tr|
      ensures StepAt(Next, tr, i)
    {
      assert LabelledStep(tr, ls, i - 1);
    }
  }

  function WorkerSteps<A>(ls: seq<Label<A>>): nat {
    if ls == [] then 0 else WorkerSteps(ls[..|ls| - 1]) + if WorkerStep(ls[|ls| - 1]) then 1 else 0
  }

  // The status stays so until a new `run`: nothing is accepted in the rest of the run.
  lemma {:induction false} StaysStopped<A(!new)>(tr: seq<State<A>>, i: nat, j: nat)
    requires IsRun(Init, Next, tr) && i <= j < |tr| && tr[i].status != Running
    ensures tr[j].status != Running && tr[j].accepted == tr[i].accepted && tr[j].queue <= tr[i].queue
    decreases j - i
  {
    if i < j {
      StaysStopped(tr, i, j - 1);
      assert StepAt(Next, tr, j);
      var l :| Step(tr[j - 1], l, tr[j]);
      StopIsFinal(tr[j - 1], l, tr[j]);
    }
  }

  lemma WorkerStepsLast<A>(ls: seq<Label<A>>, i: nat, j: nat)
    requires i < j <= |ls|
    ensures WorkerSteps(ls[i..j]) == WorkerSteps(ls[i..j - 1]) + if WorkerStep(ls[j - 1]) then 1 else 0
  {
    assert ls[i..j][..j - i - 1] == ls[i..j - 1];
  }

  lemma StepUsesWorkAt<A(!new)>(tr: seq<State<A>>, ls: seq<Label<A>>, k: nat)
    requires LabelledRun(tr, ls) && k < |ls| && tr[k].status != Running && !ls[k].EndStop?
    ensures tr[k + 1].status != Running
    ensures WorkLeft(tr[k + 1]) + (if WorkerStep(ls[k]) then 1 else 0) <= WorkLeft(tr[k])
  {
    LabelledIsRun(tr, ls);
    InvAlways(tr, k);
    assert LabelledStep(tr, ls, k);
    StopIsFinal(tr[k], ls[k], tr[k + 1]);
    StepUsesWork(tr[k], ls[k], tr[k + 1]);
  }

  // Between a stop and the next one the worker takes at most WorkLeft steps, however the run goes on.
  lemma {:induction false} BoundedWorkAfterStop<A(!new)>(tr: seq<State<A>>, ls: seq<Label<A>>, i: nat, j: nat)
    requires LabelledRun(tr, ls) && i <= j <= |ls| && tr[i].status != Running
    requires forall k :: i <= k < j ==> !ls[k].EndStop?
    ensures tr[j].status != Running
    ensures WorkerSteps(ls[i..j]) + WorkLeft(tr[j]) <= WorkLeft(tr[i])
    decreases j - i
  {
    if i < j {
      BoundedWorkAfterStop(tr, ls, i, j - 1);
      StepUsesWorkAt(tr, ls, j - 1);
      WorkerStepsLast(ls, i, j);
    }
  }

  ghost predicate WaitsForSomething<A>(s: State<A>) {
    && (s.worker.Sleepy? && s.worker.seen != Running ==> s.worker.delay.Some?)
    && (s.worker.Waiting? && s.worker.seen != Running ==> s.notified || s.worker.deadline.Some?)
  }

  lemma WaitsForSomethingKept<A>(s: State<A>, l: Label<A>, s': State<A>)
    requires WaitsForSomething(s) && Step(s, l, s')
    ensures WaitsForSomething(s')
  {
  }

  lemma WaitsForSomethingAlways<A(!new)>(s: State<A>)
    requires Reachable(Init, Next, s)
    ensures Inv(s) && WaitsForSomething(s)
  {
    forall s: State<A>, s' | WaitsForSomething(s) && Next(s, s') ensures WaitsForSomething(s') {
      var l :| Step(s, l, s');
      WaitsForSomethingKept(s, l, s');
    }
    var tr :| IsRun(Init, Next, tr) && tr[|tr| - 1] == s;
    InvariantAt(Init, Next, WaitsForSomething, tr, |tr| - 1);
    InvAlways(tr, |tr| - 1);
  }

  // After stop the worker is never left waiting without a deadline or a notification.
  lemma NoEndlessWaitAfterStop<A(!new)>(tr: seq<State<A>>, i: nat)
    requires IsRun(Init, Next, tr) && i < |tr| && tr[i].status != Running && tr[i].worker.Waiting?
    ensures tr[i].notified || tr[i].worker.deadline.Some?
  {
    ReachableInit(Init, Next, tr[0]);
    ReachableAlong(Init, Next, tr, i);
    WaitsForSomethingAlways(tr[i]);
  }

  // ---------- the worker always has a step ----------

  lemma {:induction false} LeastTask<A>(q: set<Task<A>>) returns (least: Task<A>)
    requires q != {}
    ensures least in q && forall t :: t in q ==> Leq(least, t)
    decreases |q|
  {
    var t :| t in q;
    var others := q - {t};
    if others == {} {
      assert q == {t};
      return t;
    }
    least := LeastTask(others);
    assert q == others + {t};
    if Less(t, least) {
      least := t;
    }
  }

  // The entries of a queue in the order the heap gives them out.
  lemma {:induction false} SortedListing<A>(q: set<Task<A>>) returns (ts: seq<Task<A>>)
    ensures Sorted(ts) && forall t :: t in ts <==> t in q
    ensures forall i, j :: 0 <= i < j < |ts| ==> ts[i] != ts[j]
    decreases |q|
  {
    if q == {} {
      return [];
    }
    var least := LeastTask(q);
    var others := SortedListing(q - {least});
    ts := [least] + others;
    forall i, j | 0 <= i < j < |ts|
      ensures Leq(ts[i], ts[j]) && ts[i] != ts[j]
    {
      assert ts[j] == others[j - 1] && others[j - 1] in others;
      if i > 0 {
        assert ts[i] == others[i - 1];
      }
    }
  }

  lemma PopIsPossible<A>(s: State<A>) returns (batch: seq<Task<A>>, s': State<A>)
    requires s.worker.Popping?
    ensures Step(s, Pop(batch), s')
  {
    var due := set t | t in s.queue && t.absTime <= s.clock;
    batch := SortedListing(due);
    assert forall t :: t in batch ==> t in due;
    s' := s.(queue := (set t | t in s.queue && t.absTime > s.clock), worker := Batch(batch), horizon := s.clock);
  }

  lemma CheckIsPossible<A>(s: State<A>) returns (s': State<A>)
    requires s.worker.Checking?
    ensures Step(s, Check, s')
  {
    if s.status == Stopped {
      s' := s.(worker := Exited);
    } else if (s.queue == {} || s.toFinish == 0) && s.status == StoppedSync {
      s' := s.(status := Stopped, worker := Exited);
    } else if Due(s.queue, s.clock) {
      s' := s.(worker := Popping);
    } else if s.queue == {} {
      s' := s.(worker := Sleepy(None, s.clock, s.status));
    } else {
      var least := LeastTask(s.queue);
      var delay := Some(least.absTime - s.clock);
      assert TimeTillNext(s.queue, s.clock, delay);
      s' := s.(worker := Sleepy(delay, s.clock, s.status));
    }
  }

  lemma TakeIsPossible<A>(s: State<A>) returns (s': State<A>)
    requires Inv(s) && s.worker.Batch? && s.worker.rest != []
    ensures Step(s, TakeTask, s')
  {
    var task, rest := s.worker.rest[0], s.worker.rest[1..];
    assert s.worker.rest == [task] + rest;
    HeadIsAlone(s, task, rest);
    if s.futures[task.id].IsCancelled() {
      s' := s.(futures := s.futures[task.id := CancelledNotified], worker := Batch(rest));
    } else {
      s' := s.(futures := s.futures[task.id := Executing], worker := Acting(task, rest),
               started := s.started + [Start(task, s.clock)]);
    }
  }

  predicate InBatch<A>(w: Worker<A>) {
    w.Batch? || w.Acting? || w.Settled? || w.Counting? || w.Storing?
  }

  // In a batch the worker is held up by nobody, save by a thread inside stop when it goes back.
  lemma BatchStepIsPossible<A>(s: State<A>) returns (l: Label<A>, s': State<A>)
    requires Inv(s) && InBatch(s.worker) && s.stopper.NoStop?
    ensures BatchLabel(l) && Step(s, l, s')
  {
    match s.worker {
      case Batch(rest) =>
        if rest == [] {
          l, s' := Relock, s.(worker := Unlocked);
        } else {
          s' := TakeIsPossible(s);
          l := TakeTask;
        }
      case Acting(task, rest) =>
        l, s' := Complete, s.(futures := s.futures[task.id := Finished], worker := Settled(task, rest));
      case Settled(task, rest) =>
        l, s' := Settle, s.(worker := if s.status == StoppedSync then Counting(task, rest) else Batch(rest));
      case Counting(task, rest) =>
        l, s' := ReadCount, s.(worker := Storing(s.toFinish, task, rest));
      case Storing(v, task, rest) =>
        l, s' := StoreCount, s.(toFinish := v - 1, decremented := s.decremented + {task}, worker := Batch(rest));
    }
  }

  function Later<A>(s: State<A>, passed: real): State<A> {
    s.(clock := s.clock + passed)
  }

  // How long a wait that nobody notifies still lasts.
  function UntilDeadline<A>(s: State<A>): real {
    if s.worker.Waiting? && !s.notified && s.worker.deadline.Some? && s.worker.deadline.value > s.clock then
      s.worker.deadline.value - s.clock
    else
      0.0
  }

  lemma WakeIsPossible<A>(s: State<A>) returns (s': State<A>)
    requires WaitsRightly(s) && WaitsForSomething(s) && s.worker.Waiting? && s.status != Running
    ensures Step(Later(s, UntilDeadline(s)), Wake, s')
  {
    assert !s.notified ==> s.worker.deadline.Some?;
    s' := Later(s, UntilDeadline(s)).(worker := Unlocked, notified := false);
  }

  lemma SleepIsPossible<A>(s: State<A>) returns (s': State<A>)
    requires s.worker.Sleepy?
    ensures Step(s, Sleep, s')
  {
    var Sleepy(delay, readAt, seen) := s.worker;
    s' := s.(notified := false,
             worker := Waiting(if delay.Some? then Some(s.clock + delay.value) else None, s.clock - readAt, seen));
  }

  // Every step but the end of a wait is possible at once.
  lemma AwakeStepIsPossible<A>(s: State<A>) returns (l: Label<A>, s': State<A>)
    requires Inv(s) && s.stopper.NoStop? && !s.worker.Waiting? && !s.worker.Exited?
    ensures WorkerStep(l) && Step(s, l, s')
  {
    if InBatch(s.worker) {
      l, s' := BatchStepIsPossible(s);
    } else if s.worker.Popping? {
      var batch;
      batch, s' := PopIsPossible(s);
      l := Pop(batch);
    } else if s.worker.Checking? {
      l := Check;
      s' := CheckIsPossible(s);
    } else if s.worker.Sleepy? {
      l := Sleep;
      s' := SleepIsPossible(s);
    } else {
      l, s' := TakeLock, s.(worker := Checking);
    }
  }

  // After stop, with nobody inside stop, the worker has a step, at once or when its wait has run out.
  lemma WorkerCanStep<A(!new)>(s: State<A>) returns (l: Label<A>, s': State<A>)
    requires Reachable(Init, Next, s) && s.status != Running && s.stopper.NoStop? && !s.worker.Exited?
    ensures WorkerStep(l) && UntilDeadline(s) >= 0.0 && Step(Later(s, UntilDeadline(s)), l, s')
  {
    WaitsForSomethingAlways(s);
    if s.worker.Waiting? {
      l := Wake;
      s' := WakeIsPossible(s);
    } else {
      assert Later(s, UntilDeadline(s)) == s;
      l, s' := AwakeStepIsPossible(s);
    }
  }

  // The worker or the clock moves, and nobody else.
  ghost predicate Alone<A(!new)>(s: State<A>, s': State<A>) {
    exists l :: (WorkerStep(l) || l.Tick?) && Step(s, l, s')
  }

  lemma AloneLeads<A(!new)>(s: State<A>, s': State<A>)
    requires LeadsTo(Alone, s, s')
    ensures LeadsTo(Next, s, s')
    ensures Reachable(Init, Next, s) ==> Reachable(Init, Next, s')
  {
    LeadsWider(Alone, Next, s, s');
    if Reachable(Init, Next, s) {
      ReachableLeads(Init, Next, s, s');
    }
  }

  lemma LaterIsReachable<A(!new)>(s: State<A>, passed: real)
    requires Reachable(Init, Next, s) && passed >= 0.0
    ensures Step(s, Tick(passed), Later(s, passed)) && LeadsTo(Alone, s, Later(s, passed))
    ensures Reachable(Init, Next, Later(s, passed))
  {
    assert Step(s, Tick(passed), Later(s, passed));
    LeadsToItself(Alone, s);
    LeadsToNext(Alone, s, s, Later(s, passed));
    ReachableNext(Init, Next, s, Later(s, passed));
  }

  // Termination: from every state after stop in which nobody is inside stop, the worker left alone
  // returns from `run`, and by BoundedWorkAfterStop whatever else happens it takes the worker at most WorkLeft steps.
  lemma {:induction false} RunReturns<A(!new)>(s: State<A>) returns (s': State<A>)
    requires Reachable(Init, Next, s) && s.status != Running && s.stopper.NoStop?
    ensures LeadsTo(Alone, s, s') && s'.worker.Exited? && s'.stops == s.stops
    decreases WorkLeft(s)
  {
    if s.worker.Exited? {
      LeadsToItself(Alone, s);
      return s;
    }
    var l, next := WorkerCanStep(s);
    var passed := UntilDeadline(s);
    var later := Later(s, passed);
    LaterIsReachable(s, passed);
    ReachableNext(Init, Next, later, next);
    LeadsToNext(Alone, s, later, next);
    WaitsForSomethingAlways(s);
    WaitsForSomethingAlways(later);
    StepUsesWork(s, Tick(passed), later);
    StepUsesWork(later, l, next);
    WorkerStepKeepsStops(later, l, next);
    s' := RunReturns(next);
    LeadsToLeads(Alone, s, next, s');
  }

  lemma WorkerStepKeepsStops<A>(s: State<A>, l: Label<A>, s': State<A>)
    requires WorkerStep(l) && Step(s, l, s') && s.status != Running
    ensures s'.stops == s.stops && s'.stopper == s.stopper && s'.status != Running
  {
  }
}
