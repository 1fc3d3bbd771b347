// The condition AtRisk is exact: from a call of stop that meets it some run goes on to leave queued
// tasks unrun, and there are such calls for any number of tasks lost.
module DrainRisk {
  import opened Runs
  import opened Tasks
  import opened ExecutorProtocol
  import opened ExecutorOrder
  import opened ExecutorTermination
  import opened ExecutorDrain

  // A state in which a synchronous stop, the only one so far, has just released the lock.
  ghost predicate StopReturned<A(!new)>(s: State<A>) {
    && |s.stops| == 1 && s.stops[0].sync
    && exists before :: Reachable(Init, Next, before) && Step(before, EndStop, s)
  }

  lemma DrainsReachable<A(!new)>(s: State<A>)
    requires Reachable(Init, Next, s)
    ensures Drains(s)
  {
    var tr :| IsRun(Init, Next, tr) && tr[|tr| - 1] == s;
    DrainsAlways(tr, |tr| - 1);
  }

  // The worker is outside the lock while a thread is inside stop.
  lemma WhileStopping<A>(s: State<A>)
    requires Drains(s) && s.stopper.Stop? && |s.stops| == 0
    ensures InBatch(s.worker) || s.worker.Unlocked? || s.worker.Waiting?
    ensures s.stopper.counted <= s.queue
  {
  }

  lemma StopReturns<A>(before: State<A>, s: State<A>)
    requires Step(before, EndStop, s)
    ensures before.stopper.Stop? && |s.stops| == |before.stops| + 1
    ensures s.stopper.NoStop? && s.clock == before.clock && s.queue == before.queue && s.worker == before.worker
    ensures s.worker.Waiting? ==> s.notified
    ensures s.stops[|before.stops|].at == s.clock && s.stops[|before.stops|].counted == before.stopper.counted
  {
  }

  lemma AtReturn<A(!new)>(s: State<A>)
    requires StopReturned(s)
    ensures Reachable(Init, Next, s)
    ensures s.stopper.NoStop? && s.clock == s.stops[0].at && s.stops[0].counted <= s.queue
    ensures InBatch(s.worker) || s.worker.Unlocked? || (s.worker.Waiting? && s.notified)
  {
    var before :| Reachable(Init, Next, before) && Step(before, EndStop, s);
    StopReturns(before, s);
    DrainsReachable(before);
    WhileStopping(before);
    ReachableNext(Init, Next, before, s);
  }

  // Nothing leaves the queue, nobody stops and nobody cancels.
  ghost predicate StaysPut<A>(s: State<A>, s': State<A>) {
    && s'.queue == s.queue && s'.clock == s.clock && s'.stops == s.stops && s'.status == s.status
    && s'.stopper == s.stopper && UncancelledStays(s, s')
  }

  ghost predicate UncancelledStays<A>(s: State<A>, s': State<A>) {
    && |s'.futures| == |s.futures|
    && forall id :: 0 <= id < |s.futures| && s'.futures[id].IsCancelled() ==> s.futures[id].IsCancelled()
  }

  lemma BatchStepStaysPut<A>(s: State<A>, l: Label<A>, s': State<A>)
    requires Inv(s) && InBatch(s.worker) && BatchLabel(l) && Step(s, l, s')
    ensures StaysPut(s, s') && (InBatch(s'.worker) || s'.worker.Unlocked?)
  {
    forall id | 0 <= id < |s.futures|
      ensures id < |s'.futures| && (s'.futures[id].IsCancelled() ==> s.futures[id].IsCancelled())
    {
      FutureEdges(s, l, s', id);
    }
  }

  // Left alone, the worker finishes its batch.
  lemma {:induction false} FinishBatch<A(!new)>(s: State<A>) returns (s': State<A>)
    requires Reachable(Init, Next, s) && s.stopper.NoStop? && (InBatch(s.worker) || s.worker.Unlocked?)
    ensures LeadsTo(Alone, s, s') && s'.worker.Unlocked? && StaysPut(s, s')
    decreases WorkLeft(s)
  {
    if s.worker.Unlocked? {
      LeadsToItself(Alone, s);
      return s;
    }
    DrainsReachable(s);
    var l, next := BatchStepIsPossible(s);
    BatchUsesWork(s, l, next);
    BatchStepStaysPut(s, l, next);
    ReachableNext(Init, Next, s, next);
    s' := FinishBatch(next);
    LeadsToItself(Alone, s);
    LeadsToNext(Alone, s, s, next);
    LeadsToLeads(Alone, s, next, s');
  }

  lemma Settle<A(!new)>(s: State<A>) returns (s': State<A>)
    requires StopReturned(s)
    ensures LeadsTo(Alone, s, s') && s'.worker.Unlocked? && StaysPut(s, s')
  {
    AtReturn(s);
    if s.worker.Waiting? {
      s' := s.(worker := Unlocked, notified := false);
      LeadsToItself(Alone, s);
      assert Step(s, Wake, s');
      LeadsToNext(Alone, s, s, s');
    } else {
      s' := FinishBatch(s);
    }
  }

  lemma StaysUncancelled<A>(s: State<A>, s': State<A>, r: StopRecord<A>)
    requires NoneCancelled(s, r) && UncancelledStays(s, s')
    ensures NoneCancelled(s', r)
  {
    assert CancelledOf(s', r.counted + r.inFlight) <= CancelledOf(s, r.counted + r.inFlight);
  }

  // Between batches with nobody cancelling, `stop` still waits for as many tasks as are queued and
  // counted, less those that were in flight.
  lemma CounterAtRest<A(!new)>(s: State<A>)
    requires Reachable(Init, Next, s) && |s.stops| == 1 && s.stops[0].sync && s.stops[0].counted != {}
    requires Idle(s) && NoneCancelled(s, s.stops[0])
    ensures LeftUnrun(s, s.stops[0]) == s.stops[0].counted * s.queue
    ensures s.toFinish == |s.stops[0].counted * s.queue| - |s.stops[0].inFlight|
    ensures s.worker.Exited? || s.status == StoppedSync
  {
    DrainsReachable(s);
    UncancelledAtRest(s);
  }

  // With the counter at zero `run` returns at the next check.
  lemma ReturnsAtZero<A(!new)>(s: State<A>) returns (s': State<A>)
    requires s.worker.Unlocked? && s.stopper.NoStop? && s.status == StoppedSync && s.toFinish == 0
    ensures LeadsTo(Alone, s, s') && s' == s.(status := Stopped, worker := Exited)
  {
    var checking := s.(worker := Checking);
    s' := s.(status := Stopped, worker := Exited);
    LeadsToItself(Alone, s);
    assert Step(s, TakeLock, checking) && Step(checking, Check, s');
    LeadsToNext(Alone, s, s, checking);
    LeadsToNext(Alone, s, checking, s');
  }

  lemma {:induction false} LatestOf<A>(q: set<Task<A>>) returns (latest: Task<A>)
    requires q != {}
    ensures latest in q && forall t :: t in q ==> t.absTime <= latest.absTime
    decreases |q|
  {
    var t :| t in q;
    var others := q - {t};
    assert q == others + {t};
    if others == {} {
      return t;
    }
    latest := LatestOf(others);
    if latest.absTime < t.absTime {
      latest := t;
    }
  }

  // After a pause the worker takes everything that is due by then.
  lemma PopsAfter<A(!new)>(s: State<A>, passed: real) returns (s': State<A>)
    requires s.worker.Unlocked? && s.stopper.NoStop? && s.status == StoppedSync && s.toFinish != 0
    requires passed >= 0.0 && Due(s.queue, s.clock + passed)
    ensures LeadsTo(Alone, s, s') && InBatch(s'.worker) && s'.stopper.NoStop?
    ensures s'.stops == s.stops && s'.futures == s.futures
    ensures s'.queue == set t | t in s.queue && t.absTime > s.clock + passed
  {
    var later := Later(s, passed);
    var checking := later.(worker := Checking);
    var popping := later.(worker := Popping);
    LeadsToItself(Alone, s);
    assert Step(s, Tick(passed), later) && Step(later, TakeLock, checking) && Step(checking, Check, popping);
    LeadsToNext(Alone, s, s, later);
    LeadsToNext(Alone, s, later, checking);
    LeadsToNext(Alone, s, checking, popping);
    var batch;
    batch, s' := PopIsPossible(popping);
    LeadsToNext(Alone, s, popping, s');
  }

  lemma ProperPart<T>(a: set<T>, b: set<T>)
    requires a <= b && a != b
    ensures b - a != {}
  {
    assert b == a + (b - a);
  }

  // The worker runs the early tasks and finds nothing left to wait for.
  lemma RunsEarlyOnes<A(!new)>(s: State<A>, late: set<Task<A>>) returns (s': State<A>)
    requires Reachable(Init, Next, s) && s.worker.Unlocked? && s.stopper.NoStop? && s.status == StoppedSync
    requires |s.stops| == 1 && s.stops[0].at == s.clock && s.stops[0].counted <= s.queue
    requires Separable(s.stops[0], late) && late != {} && late != s.stops[0].counted && s.toFinish != 0
    ensures LeadsTo(Alone, s, s') && s'.worker.Unlocked? && s'.stopper.NoStop? && s'.stops == s.stops
    ensures UncancelledStays(s, s') && s.stops[0].counted * s'.queue == late
  {
    var early := s.stops[0].counted - late;
    ProperPart(late, s.stops[0].counted);
    var latest := LatestOf(early);
    var passed := if latest.absTime <= s.clock then 0.0 else latest.absTime - s.clock;
    assert latest in s.queue && latest.absTime <= s.clock + passed;
    var popped := PopsAfter(s, passed);
    assert s.stops[0].counted * popped.queue == late;
    AloneLeads(s, popped);
    s' := FinishBatch(popped);
    LeadsToLeads(Alone, s, popped, s');
  }

  // From the stop to the moment when just the late tasks are queued and the worker is between batches.
  lemma ReachesLateOnes<A(!new)>(s: State<A>, late: set<Task<A>>) returns (s': State<A>)
    requires StopReturned(s) && NoneCancelled(s, s.stops[0]) && late != {} && Separable(s.stops[0], late)
    ensures LeadsTo(Alone, s, s') && s'.worker.Unlocked? && s'.stopper.NoStop? && s'.stops == s.stops
    ensures Reachable(Init, Next, s') && NoneCancelled(s', s.stops[0]) && s.stops[0].counted * s'.queue == late
  {
    var r := s.stops[0];
    AtReturn(s);
    s' := Settle(s);
    AloneLeads(s, s');
    StaysUncancelled(s, s', r);
    assert r.counted * s'.queue == r.counted;
    if late != r.counted {
      CounterAtRest(s');
      assert r.counted == late + (r.counted - late);
      var ran := RunsEarlyOnes(s', late);
      AloneLeads(s', ran);
      LeadsToLeads(Alone, s, s', ran);
      StaysUncancelled(s', ran, r);
      s' := ran;
    }
  }

  // From a call of stop at risk the worker, left alone, can lose exactly the late tasks.
  lemma LosesLateOnes<A(!new)>(s: State<A>, late: set<Task<A>>) returns (s': State<A>)
    requires StopReturned(s) && NoneCancelled(s, s.stops[0]) && late != {} && Separable(s.stops[0], late)
    ensures LeadsTo(Alone, s, s') && s'.worker.Exited? && s'.stops == s.stops && NoneCancelled(s', s.stops[0])
    ensures LeftUnrun(s', s.stops[0]) == late
  {
    var rested := ReachesLateOnes(s, late);
    CounterAtRest(rested);
    s' := ReturnsAtZero(rested);
    AloneLeads(rested, s');
    LeadsToLeads(Alone, s, rested, s');
    StaysUncancelled(rested, s', s.stops[0]);
    CounterAtRest(s');
  }

  // With as many in flight as were counted, all of the counted ones can be lost.
  lemma LosesAll<A(!new)>(s: State<A>) returns (s': State<A>)
    requires StopReturned(s) && NoneCancelled(s, s.stops[0])
    requires |s.stops[0].counted| == |s.stops[0].inFlight| && s.stops[0].counted != {}
    ensures Reachable(Init, Next, s') && s'.worker.Exited? && s'.stops == s.stops && NoneCancelled(s', s.stops[0])
    ensures LeftUnrun(s', s.stops[0]) == s.stops[0].counted
  {
    s' := LosesLateOnes(s, s.stops[0].counted);
    AtReturn(s);
    AloneLeads(s, s');
  }

  // Some run goes on from s without cancelling to a return of `run` that leaves a queued task unrun.
  ghost predicate CanLose<A(!new)>(s: State<A>)
    requires |s.stops| == 1
  {
    exists s' ::
      && LeadsTo(Next, s, s') && s'.worker.Exited? && s'.stops == s.stops && NoneCancelled(s', s.stops[0])
      && LeftUnrun(s', s.stops[0]) != {}
  }

  // Exactly when a synchronous stop keeps its promise: while nobody cancels, every way the run can go
  // on drains the queue if and only if the call is not at risk.
  lemma LosesExactlyAtRisk<A(!new)>(s: State<A>)
    requires StopReturned(s) && NoneCancelled(s, s.stops[0])
    ensures CanLose(s) <==> AtRisk(s.stops[0])
  {
    if AtRisk(s.stops[0]) {
      var late :| late != {} && Separable(s.stops[0], late);
      var s' := LosesLateOnes(s, late);
      AloneLeads(s, s');
    }
    if CanLose(s) {
      var s' :|
        && LeadsTo(Next, s, s') && s'.worker.Exited? && s'.stops == s.stops && NoneCancelled(s', s.stops[0])
        && LeftUnrun(s', s.stops[0]) != {};
      AtReturn(s);
      ReachableLeads(Init, Next, s, s');
      DrainsReachable(s');
      LossIsSeparable(s');
    }
  }
}

// Any number of tasks can be lost to one call of stop.
module DrainShortfall {
  import opened Runs
  import opened Tasks
  import opened ExecutorProtocol
  import opened ExecutorCalls
  import opened ExecutorDrain
  import opened DrainRisk

  // Of the tasks accepted at time zero the first k are due at once, the others at ten.
  function Nth(k: nat, i: nat): Task<int> {
    Task(i, if i < k then 0.0 else 10.0, 0, 0)
  }

  function Span(k: nat, from: nat, to: nat): (ts: seq<Task<int>>)
    requires from <= to
    ensures |ts| == to - from && forall i :: 0 <= i < |ts| ==> ts[i] == Nth(k, from + i)
  {
    seq(to - from, i requires 0 <= i => Nth(k, from + i))
  }

  lemma Members(k: nat, from: nat, to: nat, t: Task<int>)
    requires from <= to
    ensures t in Span(k, from, to) <==> from <= t.id < to && t == Nth(k, t.id)
  {
    if from <= t.id < to && t == Nth(k, t.id) {
      assert Span(k, from, to)[t.id - from] == t;
    }
  }

  ghost function JustAccepted(k: nat, n: nat): State<int> {
    State(Running, Elements(Span(k, 0, n)), seq(n, _ => Pending), 0, 0.0, Unlocked, false, NoStop,
          Span(k, 0, n), [], 0.0, {}, [], {})
  }

  lemma {:induction false} Accepts(k: nat, n: nat)
    ensures Reachable(Init<int>, Next<int>, JustAccepted(k, n))
  {
    if n == 0 {
      assert Span(k, 0, 0) == [] && Elements<int>([]) == {};
      ReachableInit(Init<int>, Next<int>, JustAccepted(k, 0));
    } else {
      var s, s' := JustAccepted(k, n - 1), JustAccepted(k, n);
      Accepts(k, n - 1);
      var t := Nth(k, n - 1);
      assert s'.accepted == s.accepted + [t] && s'.futures == s.futures + [Pending];
      assert s'.queue == s.queue + {t};
      assert Step(s, Accept(t.absTime, 0, 0), s');
      ReachableNext(Init<int>, Next<int>, s, s');
    }
  }

  lemma SplitSpan(k: nat, t: Task<int>)
    ensures t in Span(k, 0, 2 * k) <==> t in Span(k, 0, k) || t in Span(k, k, 2 * k)
    ensures t in Span(k, 0, k) ==> t.absTime == 0.0
    ensures t in Span(k, k, 2 * k) ==> t.absTime == 10.0
  {
    Members(k, 0, 2 * k, t);
    Members(k, 0, k, t);
    Members(k, k, 2 * k, t);
  }

  // The worker finds the first k due.
  lemma FirstDue(k: nat)
    requires k > 0
    ensures Reachable(Init<int>, Next<int>, JustAccepted(k, 2 * k).(worker := Popping))
  {
    var s0 := JustAccepted(k, 2 * k);
    Accepts(k, 2 * k);
    var s1, s2 := s0.(worker := Checking), s0.(worker := Popping);
    assert Step(s0, TakeLock, s1);
    ReachableNext(Init<int>, Next<int>, s0, s1);
    assert Span(k, 0, 2 * k)[0] in s1.queue;
    assert Step(s1, Check, s2);
    ReachableNext(Init<int>, Next<int>, s1, s2);
  }

  // It takes them off the queue.
  lemma FirstInFlight(k: nat) returns (s: State<int>)
    requires k > 0
    ensures Reachable(Init<int>, Next<int>, s)
    ensures s == JustAccepted(k, 2 * k).(worker := Batch(Span(k, 0, k)), queue := Elements(Span(k, k, 2 * k)))
  {
    FirstDue(k);
    var before := JustAccepted(k, 2 * k).(worker := Popping);
    s := before.(worker := Batch(Span(k, 0, k)), queue := Elements(Span(k, k, 2 * k)));
    forall t: Task<int>
      ensures t in Span(k, 0, 2 * k) <==> t in Span(k, 0, k) || t in Span(k, k, 2 * k)
      ensures t in Span(k, 0, k) ==> t.absTime == 0.0
      ensures t in Span(k, k, 2 * k) ==> t.absTime == 10.0
    {
      SplitSpan(k, t);
    }
    assert s.queue == set t | t in before.queue && t.absTime > before.clock;
    assert Step(before, Pop(Span(k, 0, k)), s);
    ReachableNext(Init<int>, Next<int>, before, s);
  }

  // A synchronous stop counts the k tasks still queued.
  lemma StoppedMeanwhile(k: nat) returns (s: State<int>)
    requires k > 0
    ensures StopReturned(s) && NoneCancelled(s, s.stops[0])
    ensures s.stops[0].counted == s.stops[0].queued == Elements(Span(k, k, 2 * k))
    ensures s.stops[0].inFlight == Elements(Span(k, 0, k))
  {
    var s0 := FirstInFlight(k);
    var queued := Span(k, k, 2 * k);
    var tr, ls := StopSteps(s0, true, queued);
    ExecutesLeads(tr, ls, |ls| - 1);
    ReachableLeads(Init<int>, Next<int>, s0, tr[|ls| - 1]);
    s := tr[|tr| - 1];
    assert Step(tr[|ls| - 1], ls[|ls| - 1], tr[|ls| - 1 + 1]);
    assert LiveIn(queued, s0.futures) == Elements(queued);
    assert InFlight(s0) == Elements(Span(k, 0, k));
  }

  lemma {:induction false} SpanSize(k: nat, from: nat, to: nat)
    requires from <= to
    ensures |Elements(Span(k, from, to))| == to - from
  {
    if from < to {
      SpanSize(k, from, to - 1);
      var front, last := Span(k, from, to - 1), Nth(k, to - 1);
      assert Span(k, from, to) == front + [last] && last !in front;
      assert Elements(front + [last]) == Elements(front) + {last};
    } else {
      assert Elements(Span(k, from, to)) == {};
    }
  }

  // For every k > 0 a run with k tasks in flight at the stop leaves k queued, uncancelled tasks unrun.
  lemma SyncStopCanMissAny(k: nat) returns (s: State<int>)
    requires k > 0
    ensures Reachable(Init<int>, Next<int>, s) && s.worker.Exited? && |s.stops| == 1 && s.stops[0].sync
    ensures NoneCancelled(s, s.stops[0]) && |s.stops[0].inFlight| == k
    ensures |LeftUnrun(s, s.stops[0])| == k && LeftUnrun(s, s.stops[0]) == s.stops[0].queued
  {
    var stopped := StoppedMeanwhile(k);
    SpanSize(k, 0, k);
    SpanSize(k, k, 2 * k);
    s := LosesAll(stopped);
  }
}
