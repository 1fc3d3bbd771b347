// What a synchronous stop drains: the exact account of the queued tasks at the return of `run`, and
// exactly when some are left unrun.
module ExecutorDrain {
  import opened Runs
  import opened Tasks
  import opened ExecutorProtocol
  import opened ExecutorOrder
  import opened ExecutorTermination

  ghost predicate BeforeStop<A>(s: State<A>) {
    && s.status == Running && s.decremented == {}
    && !s.worker.Counting? && !s.worker.Storing? && !s.worker.Exited?
  }

  // While `stop` counts, it has counted every queued task it has read and found not cancelled.
  ghost predicate CountsQueue<A>(s: State<A>)
    requires Numbered(s)
  {
    s.stopper.Stop? ==>
      && s.stopper.todo <= s.queue && s.stopper.counted <= s.queue
      && forall t :: t in s.queue ==>
           t in s.stopper.todo || t in s.stopper.counted || s.futures[t.id].IsCancelled()
  }

  // Where the tasks are once stop has returned.
  ghost predicate Confined<A>(s: State<A>, r: StopRecord<A>)
    requires Numbered(s)
  {
    && r.counted <= r.queued
    && s.queue <= r.queued
    && (forall t :: t in r.queued + r.inFlight ==> Known(s, t))
    && (forall t :: t in r.queued ==> t in r.counted || s.futures[t.id].IsCancelled())
    && (forall t :: t in Rest(s.worker) ==> t in r.queued + r.inFlight || s.futures[t.id].IsCancelled())
    && (Current(s.worker).Some? ==> Current(s.worker).value in r.queued + r.inFlight)
    && r.queued !! r.inFlight
  }

  // _tasks_to_finish is what stop counted less the tasks counted off, which have all finished.
  ghost predicate CountedOff<A>(s: State<A>, r: StopRecord<A>)
    requires Numbered(s)
  {
    && s.status != Running
    && (forall t :: t in s.decremented ==>
          && t in r.queued + r.inFlight && Known(s, t) && s.futures[t.id] == Finished
          && Current(s.worker) != Some(t))
    && s.toFinish == |r.counted| - |s.decremented|
    && (s.worker.Counting? || s.worker.Storing? ==> s.status == StoppedSync)
    && (s.worker.Storing? ==> s.worker.v == s.toFinish)
    && (s.worker.Exited? && r.sync ==> s.toFinish == 0 || s.queue == {})
    && (s.status == Stopped && !s.worker.Exited? && r.sync ==> s.toFinish == 0)
    && (s.worker.Exited? ==> s.status == Stopped)
  }

  // Until `run` returns, each finished task that was counted or in flight has been counted off, or is
  // about to be.
  ghost predicate Tallied<A>(s: State<A>, r: StopRecord<A>)
    requires Numbered(s)
  {
    r.sync && r.counted != {} ==>
      && (!s.worker.Exited? ==> s.status == StoppedSync)
      && forall t :: t in r.counted + r.inFlight && Known(s, t) && s.futures[t.id] == Finished ==>
           t in s.decremented || Current(s.worker) == Some(t)
  }

  // The counted tasks leave the queue in the order of their times.
  ghost predicate LeftInOrder<A>(s: State<A>, r: StopRecord<A>) {
    && r.at <= s.clock
    && (forall t, u :: t in r.counted && t !in s.queue && u in r.counted && u in s.queue ==>
          t.absTime < u.absTime && r.at < u.absTime)
  }

  ghost predicate Accounts<A>(s: State<A>, r: StopRecord<A>)
    requires Numbered(s)
  {
    Confined(s, r) && CountedOff(s, r) && Tallied(s, r) && LeftInOrder(s, r)
  }

  ghost predicate Drains<A>(s: State<A>) {
    && Inv(s) && CountsQueue(s)
    && (|s.stops| == 0 ==> BeforeStop(s))
    && (|s.stops| == 1 ==> Accounts(s, s.stops[0]))
  }

  // Cancelled and finished futures stay so.
  lemma SettledStays<A>(s: State<A>, l: Label<A>, s': State<A>)
    requires Inv(s) && Step(s, l, s')
    ensures |s.futures| <= |s'.futures|
    ensures forall id :: 0 <= id < |s.futures| && s.futures[id].IsCancelled() ==> s'.futures[id].IsCancelled()
    ensures forall id :: 0 <= id < |s.futures| && s.futures[id] == Finished ==> s'.futures[id] == Finished
  {
    forall id | 0 <= id < |s.futures|
      ensures id < |s'.futures|
      ensures s.futures[id].IsCancelled() ==> s'.futures[id].IsCancelled()
      ensures s.futures[id] == Finished ==> s'.futures[id] == Finished
    {
      FutureEdges(s, l, s', id);
    }
    if |s.futures| > 0 {
      FutureEdges(s, l, s', |s.futures| - 1);
    }
  }

  // Nobody else moves the queue while a thread is inside stop.
  lemma StopHoldsQueue<A>(s: State<A>, l: Label<A>, s': State<A>)
    requires Inv(s) && s.stopper.Stop? && Step(s, l, s')
    ensures s'.queue == s.queue
    ensures !l.ReadFuture? && !l.EndStop? ==> s'.stopper == s.stopper
  {
  }

  lemma StepKeepsCountsQueue<A>(s: State<A>, l: Label<A>, s': State<A>)
    requires Inv(s) && CountsQueue(s) && Step(s, l, s') && Numbered(s')
    ensures CountsQueue(s')
  {
    SettledStays(s, l, s');
    if s.stopper.Stop? {
      StopHoldsQueue(s, l, s');
    } else {
      assert s'.stopper.Stop? ==> s'.stopper.todo == s'.queue;
    }
  }

  // The worker has its tasks in hand from outside the queue.
  lemma InFlightIsNotQueued<A>(s: State<A>)
    requires Inv(s)
    ensures forall t :: t in InFlight(s) ==> Known(s, t) && t !in s.queue
  {
    forall t | t in InFlight(s)
      ensures Known(s, t) && t !in s.queue
    {
      assert t in Rest(s.worker) || Current(s.worker) == Some(t);
    }
  }

  lemma EndStopConfines<A>(s: State<A>, s': State<A>)
    requires Inv(s) && CountsQueue(s) && BeforeStop(s) && |s.stops| == 0
    requires Step(s, EndStop, s') && Numbered(s')
    ensures Confined(s', s'.stops[0])
  {
    InFlightIsNotQueued(s);
  }

  lemma EndStopCounts<A>(s: State<A>, s': State<A>)
    requires Inv(s) && CountsQueue(s) && BeforeStop(s) && |s.stops| == 0
    requires Step(s, EndStop, s') && Numbered(s')
    ensures CountedOff(s', s'.stops[0]) && LeftInOrder(s', s'.stops[0])
  {
  }

  lemma EndStopTallies<A>(s: State<A>, s': State<A>)
    requires Inv(s) && CountsQueue(s) && BeforeStop(s) && |s.stops| == 0
    requires Step(s, EndStop, s') && Numbered(s')
    ensures Tallied(s', s'.stops[0])
  {
    var r := s'.stops[0];
    assert r.counted <= s.queue;
    forall t | t in r.inFlight && Known(s, t) && s.futures[t.id] == Finished
      ensures Current(s.worker) == Some(t)
    {
      assert t in Rest(s.worker) ==> Waits(s.futures[t.id]);
    }
  }

  // After stop tasks only move on: from the queue to the batch, from the batch to the worker.
  lemma TasksMoveOn<A>(s: State<A>, l: Label<A>, s': State<A>)
    requires Inv(s) && s.status != Running && Step(s, l, s')
    ensures s'.queue <= s.queue && s'.accepted == s.accepted
    ensures forall t :: t in Rest(s'.worker) ==> t in Rest(s.worker) || t in s.queue
    ensures var c := Current(s'.worker);
            c.Some? ==> c == Current(s.worker)
                        || (c.value in Rest(s.worker) && Known(s, c.value) && s.futures[c.value.id] == Pending)
  {
    StopIsFinal(s, l, s');
    if MovesNoTask(l) {
      UnmovingStep(s, l, s');
    } else if l.TakeTask? {
      var batch := s.worker.rest;
      assert batch == [batch[0]] + batch[1..];
      HeadIsAlone(s, batch[0], batch[1..]);
    }
  }

  lemma StepKeepsConfined<A>(s: State<A>, l: Label<A>, s': State<A>, r: StopRecord<A>)
    requires Inv(s) && Confined(s, r) && s.status != Running && Step(s, l, s') && Numbered(s')
    ensures Confined(s', r)
  {
    TasksMoveOn(s, l, s');
    SettledStays(s, l, s');
    forall t | t in r.queued + r.inFlight
      ensures Known(s', t) && (s.futures[t.id].IsCancelled() ==> s'.futures[t.id].IsCancelled())
    {
      assert Known(s, t);
    }
    forall t | t in r.queued
      ensures t in r.counted || s'.futures[t.id].IsCancelled()
    {
      assert t in r.queued + r.inFlight;
    }
  }

  lemma StoreEffect<A>(s: State<A>, s': State<A>)
    requires Step(s, StoreCount, s')
    ensures s.worker.Storing?
    ensures s' == s.(toFinish := s.worker.v - 1, decremented := s.decremented + {s.worker.task},
                     worker := Batch(s.worker.rest))
  {
  }

  lemma StoreKeepsCountedOff<A>(s: State<A>, s': State<A>, r: StopRecord<A>)
    requires Inv(s) && Confined(s, r) && CountedOff(s, r) && Numbered(s') && s.worker.Storing?
    requires s' == s.(toFinish := s.worker.v - 1, decremented := s.decremented + {s.worker.task},
                      worker := Batch(s.worker.rest))
    ensures CountedOff(s', r)
  {
    var task := s.worker.task;
    assert Current(s.worker) == Some(task) && Current(s'.worker) == None;
    assert task !in s.decremented && s.futures[task.id] == Finished;
  }

  // Only the decrement itself moves the counter once stop has returned.
  lemma CounterMoves<A>(s: State<A>, l: Label<A>, s': State<A>)
    requires s.status != Running && !l.EndStop? && !l.StoreCount? && Step(s, l, s')
    ensures s'.decremented == s.decremented && s'.toFinish == s.toFinish && s'.status != Running
    ensures s'.worker.Counting? || s'.worker.Storing? ==>
              s'.status == s.status && (s.worker.Counting? || s.worker.Storing? || s.status == StoppedSync)
    ensures s'.worker.Storing? ==> s'.worker.v == s.toFinish || s'.worker == s.worker
    ensures s'.worker.Exited? && !s.worker.Exited? ==> s'.status == Stopped
    ensures s'.worker.Exited? && s.worker.Exited? ==> s'.status == s.status
    ensures s'.worker.Exited? && !s.worker.Exited? ==>
              s.status == Stopped || (s.status == StoppedSync && (s.toFinish == 0 || s'.queue == {}))
    ensures s'.worker.Exited? && s.worker.Exited? ==> s'.queue <= s.queue
    ensures s'.status == Stopped && !s'.worker.Exited? ==> s.status == Stopped && !s.worker.Exited?
  {
  }

  lemma StepKeepsCountedOff<A>(s: State<A>, l: Label<A>, s': State<A>, r: StopRecord<A>)
    requires Inv(s) && Confined(s, r) && CountedOff(s, r) && !l.EndStop? && Step(s, l, s') && Numbered(s')
    ensures CountedOff(s', r)
  {
    if l.StoreCount? {
      StoreEffect(s, s');
      StoreKeepsCountedOff(s, s', r);
    } else {
      CounterMoves(s, l, s');
      TasksMoveOn(s, l, s');
      SettledStays(s, l, s');
    }
  }

  // A future finishes in the hands of the worker, which then counts it off.
  lemma StepKeepsTallied<A>(s: State<A>, l: Label<A>, s': State<A>, r: StopRecord<A>)
    requires Inv(s) && Confined(s, r) && CountedOff(s, r) && Tallied(s, r)
    requires !l.EndStop? && Step(s, l, s') && Numbered(s')
    ensures Tallied(s', r)
  {
    if r.sync && r.counted != {} {
      forall t | t in r.counted + r.inFlight && Known(s', t) && s'.futures[t.id] == Finished
        ensures t in s'.decremented || Current(s'.worker) == Some(t)
      {
        assert Known(s, t);
        FutureEdges(s, l, s', t.id);
        FinishedStaysTallied(s, l, s', t);
      }
      StatusAfterStop(s, l, s');
    }
  }

  lemma StatusAfterStop<A>(s: State<A>, l: Label<A>, s': State<A>)
    requires s.status != Running && !l.EndStop? && Step(s, l, s')
    ensures !s'.worker.Exited? ==> s'.status == s.status && !s.worker.Exited?
  {
  }

  lemma FinishedStaysTallied<A>(s: State<A>, l: Label<A>, s': State<A>, t: Task<A>)
    requires Inv(s) && Known(s, t) && Numbered(s') && Known(s', t) && Step(s, l, s')
    requires !s.worker.Exited? ==> s.status == StoppedSync
    requires s'.futures[t.id] == Finished
    requires s.futures[t.id] == Finished ==> t in s.decremented || Current(s.worker) == Some(t)
    ensures t in s'.decremented || Current(s'.worker) == Some(t)
  {
    FutureEdges(s, l, s', t.id);
  }

  lemma StepKeepsLeftInOrder<A>(s: State<A>, l: Label<A>, s': State<A>, r: StopRecord<A>)
    requires LeftInOrder(s, r) && s.status != Running && Step(s, l, s')
    ensures LeftInOrder(s', r)
  {
    StopIsFinal(s, l, s');
    QueueShrinks(s, l, s');
  }

  lemma QueueShrinks<A>(s: State<A>, l: Label<A>, s': State<A>)
    requires s.status != Running && Step(s, l, s')
    ensures s.clock <= s'.clock
    ensures s'.queue == if l.Pop? then (set t | t in s.queue && t.absTime > s.clock) else s.queue
  {
  }

  lemma StepKeepsAccounts<A>(s: State<A>, l: Label<A>, s': State<A>, r: StopRecord<A>)
    requires Inv(s) && Accounts(s, r) && !l.EndStop? && Step(s, l, s') && Numbered(s')
    ensures Accounts(s', r)
  {
    StepKeepsConfined(s, l, s', r);
    StepKeepsCountedOff(s, l, s', r);
    StepKeepsTallied(s, l, s', r);
    StepKeepsLeftInOrder(s, l, s', r);
  }

  // What a step other than the end of a stop does to the records of stops.
  lemma StopsKept<A>(s: State<A>, l: Label<A>, s': State<A>)
    requires !l.EndStop? && Step(s, l, s')
    ensures s'.stops == s.stops
    ensures BeforeStop(s) ==> BeforeStop(s')
  {
  }

  lemma StepKeepsDrains<A>(s: State<A>, l: Label<A>, s': State<A>)
    requires Drains(s) && Step(s, l, s')
    ensures Drains(s')
  {
    StepKeepsInv(s, l, s');
    StepKeepsCountsQueue(s, l, s');
    if l.EndStop? {
      assert |s'.stops| == |s.stops| + 1;
      if |s.stops| == 0 {
        EndStopConfines(s, s');
        EndStopCounts(s, s');
        EndStopTallies(s, s');
      }
    } else {
      StopsKept(s, l, s');
      if |s.stops| == 1 {
        StepKeepsAccounts(s, l, s', s.stops[0]);
      }
    }
  }

  lemma DrainsAlways<A(!new)>(tr: seq<State<A>>, i: nat)
    requires IsRun(Init, Next, tr) && i < |tr|
    ensures Drains(tr[i])
  {
    forall s: State<A>, s' | Drains(s) && Next(s, s') ensures Drains(s') {
      var l :| Step(s, l, s');
      StepKeepsDrains(s, l, s');
    }
    InvariantAt(Init, Next, Drains, tr, i);
  }

  // The queued tasks whose action has not begun and that nobody cancelled.
  ghost function LeftUnrun<A>(s: State<A>, r: StopRecord<A>): set<Task<A>> {
    set t | t in r.queued && t.id < |s.futures| && s.futures[t.id] == Pending
  }

  ghost function CancelledOf<A>(s: State<A>, ts: set<Task<A>>): set<Task<A>> {
    set t | t in ts && t.id < |s.futures| && s.futures[t.id].IsCancelled()
  }

  ghost function FinishedOf<A>(s: State<A>, ts: set<Task<A>>): set<Task<A>> {
    set t | t in ts && t.id < |s.futures| && s.futures[t.id] == Finished
  }

  // The worker has no task in hand.
  predicate Idle<A>(s: State<A>) {
    Rest(s.worker) == [] && Current(s.worker) == None
  }

  lemma IdleTask<A>(s: State<A>, t: Task<A>)
    requires Inv(s) && Idle(s) && Known(s, t)
    ensures s.futures[t.id] == Finished || s.futures[t.id].IsCancelled() || (s.futures[t.id] == Pending && t in s.queue)
  {
  }

  // One synchronous stop has returned, and the worker is between batches.
  ghost predicate Resting<A>(s: State<A>) {
    Drains(s) && Idle(s) && |s.stops| == 1 && s.stops[0].sync && s.stops[0].counted != {}
  }

  lemma CountedAtRest<A>(s: State<A>, t: Task<A>)
    requires Resting(s) && t in s.stops[0].counted
    ensures Known(s, t) && t in s.stops[0].queued
    ensures || (s.futures[t.id] == Finished && t in s.decremented)
            || (s.futures[t.id].IsCancelled() && t !in s.decremented)
            || (s.futures[t.id] == Pending && t !in s.decremented && t in s.queue)
  {
    var r := s.stops[0];
    assert t in r.queued + r.inFlight && t in r.counted + r.inFlight;
    IdleTask(s, t);
  }

  lemma InFlightAtRest<A>(s: State<A>, t: Task<A>)
    requires Resting(s) && t in s.stops[0].inFlight
    ensures Known(s, t) && t !in s.stops[0].counted
    ensures || (s.futures[t.id] == Finished && t in s.decremented)
            || (s.futures[t.id].IsCancelled() && t !in s.decremented)
  {
    var r := s.stops[0];
    assert t in r.queued + r.inFlight && t in r.counted + r.inFlight;
    assert t !in s.queue;
    IdleTask(s, t);
  }

  lemma DecrementedAtRest<A>(s: State<A>, t: Task<A>)
    requires Resting(s) && t in s.decremented
    ensures t in s.stops[0].counted || t in s.stops[0].inFlight
    ensures Known(s, t) && s.futures[t.id] == Finished
  {
    var r := s.stops[0];
    assert t in r.queued + r.inFlight;
  }

  lemma LeftIsCounted<A>(s: State<A>, t: Task<A>)
    requires Drains(s) && |s.stops| == 1 && t in LeftUnrun(s, s.stops[0])
    ensures t in s.stops[0].counted
  {
    var r := s.stops[0];
    assert t in r.queued;
  }

  lemma FinishedIsNotQueued<A>(s: State<A>, t: Task<A>)
    requires Inv(s) && Known(s, t)
    ensures s.futures[t.id] == Finished ==> t !in s.queue
  {
  }

  lemma CountedKind<A>(s: State<A>, t: Task<A>)
    requires Resting(s) && t in s.stops[0].counted
    ensures var r := s.stops[0];
            && t in LeftUnrun(s, r) + CancelledOf(s, r.counted) + FinishedOf(s, r.counted)
            && (t in LeftUnrun(s, r) <==> t in s.queue && t !in CancelledOf(s, r.counted))
  {
    CountedAtRest(s, t);
    FinishedIsNotQueued(s, t);
  }

  lemma CountedCovered<A>(s: State<A>)
    requires Resting(s)
    ensures var r := s.stops[0];
            forall t :: t in r.counted ==>
              && t in LeftUnrun(s, r) + CancelledOf(s, r.counted) + FinishedOf(s, r.counted)
              && (t in LeftUnrun(s, r) <==> t in s.queue && t !in CancelledOf(s, r.counted))
  {
    forall t | t in s.stops[0].counted
      ensures var r := s.stops[0];
              && t in LeftUnrun(s, r) + CancelledOf(s, r.counted) + FinishedOf(s, r.counted)
              && (t in LeftUnrun(s, r) <==> t in s.queue && t !in CancelledOf(s, r.counted))
    {
      CountedKind(s, t);
    }
  }

  lemma LeftAreCounted<A>(s: State<A>)
    requires Drains(s) && |s.stops| == 1
    ensures LeftUnrun(s, s.stops[0]) <= s.stops[0].counted
  {
    forall t | t in LeftUnrun(s, s.stops[0])
      ensures t in s.stops[0].counted
    {
      LeftIsCounted(s, t);
    }
  }

  lemma Partition<T>(counted: set<T>, left: set<T>, cancelled: set<T>, finished: set<T>, queue: set<T>)
    requires left <= counted && cancelled <= counted && finished <= counted
    requires forall t :: t in counted ==> t in left + cancelled + finished && (t in left <==> t in queue && t !in cancelled)
    ensures counted == left + cancelled + finished && left == counted * queue - cancelled
  {
  }

  // Between batches the counted tasks are left, cancelled or finished.
  lemma CountedParts<A>(s: State<A>)
    requires Resting(s)
    ensures var r := s.stops[0];
            && r.counted == LeftUnrun(s, r) + CancelledOf(s, r.counted) + FinishedOf(s, r.counted)
            && LeftUnrun(s, r) == r.counted * s.queue - CancelledOf(s, r.counted)
  {
    var r := s.stops[0];
    CountedCovered(s);
    LeftAreCounted(s);
    Partition(r.counted, LeftUnrun(s, r), CancelledOf(s, r.counted), FinishedOf(s, r.counted), s.queue);
  }

  // Those counted off are the finished ones and the ones in flight that were not cancelled.
  lemma DecrementedParts<A>(s: State<A>)
    requires Resting(s)
    ensures var r := s.stops[0];
            && s.decremented == FinishedOf(s, r.counted) + (r.inFlight - CancelledOf(s, r.inFlight))
            && r.counted !! r.inFlight
  {
    var r := s.stops[0];
    forall t | t in s.decremented
      ensures t in FinishedOf(s, r.counted) || t in r.inFlight - CancelledOf(s, r.inFlight)
    {
      DecrementedAtRest(s, t);
    }
    forall t | t in r.inFlight
      ensures t !in r.counted && (t in s.decremented || t in CancelledOf(s, r.inFlight))
    {
      InFlightAtRest(s, t);
    }
    forall t | t in FinishedOf(s, r.counted)
      ensures t in s.decremented
    {
      CountedAtRest(s, t);
    }
  }

  lemma Balance<T>(counted: set<T>, left: set<T>, cancelled: set<T>, finished: set<T>, alive: set<T>, off: set<T>)
    requires counted == left + cancelled + finished && left !! cancelled && left !! finished && cancelled !! finished
    requires off == finished + alive && finished !! alive
    ensures |left| + |cancelled| == (|counted| - |off|) + |alive|
  {
  }

  lemma PartsAreApart<A>(s: State<A>, r: StopRecord<A>)
    ensures LeftUnrun(s, r) !! CancelledOf(s, r.counted) && LeftUnrun(s, r) !! FinishedOf(s, r.counted)
    ensures CancelledOf(s, r.counted) !! FinishedOf(s, r.counted)
    ensures r.counted !! r.inFlight ==> FinishedOf(s, r.counted) !! r.inFlight
  {
  }

  lemma Counter<A>(s: State<A>)
    requires Resting(s)
    ensures s.toFinish == |s.stops[0].counted| - |s.decremented|
  {
  }

  // The account of a synchronous stop between batches: tasks left unrun and tasks cancelled since
  // make up what is still to be finished and the tasks in flight that were not cancelled.
  lemma AccountAtRest<A>(s: State<A>)
    requires Resting(s)
    ensures var r := s.stops[0];
            |LeftUnrun(s, r)| + |CancelledOf(s, r.counted)| == s.toFinish + |r.inFlight - CancelledOf(s, r.inFlight)|
  {
    var r := s.stops[0];
    CountedParts(s);
    DecrementedParts(s);
    Counter(s);
    PartsAreApart(s, r);
    Balance(r.counted, LeftUnrun(s, r), CancelledOf(s, r.counted), FinishedOf(s, r.counted),
            r.inFlight - CancelledOf(s, r.inFlight), s.decremented);
  }

  lemma NoneCountedNoneLeft<A>(s: State<A>)
    requires Drains(s) && |s.stops| == 1 && s.stops[0].counted == {}
    ensures LeftUnrun(s, s.stops[0]) == {}
  {
  }

  // A synchronous stop, called once, by the return of `run`: every queued task has begun, was
  // cancelled or is left unrun, and the number left unrun is exact.
  lemma SyncStopAccount<A(!new)>(tr: seq<State<A>>, i: nat)
    requires IsRun(Init, Next, tr) && i < |tr| && tr[i].worker.Exited?
    requires |tr[i].stops| == 1 && tr[i].stops[0].sync
    ensures var s, r := tr[i], tr[i].stops[0];
            var left, cancelled := LeftUnrun(s, r), CancelledOf(s, r.counted);
            var replaced := r.inFlight - CancelledOf(s, r.inFlight);
            && (r.counted != {} ==> |left| + |cancelled| == s.toFinish + |replaced|)
            && (left == {} <==> s.queue == {} || r.counted == {} || |cancelled| == |replaced|)
            && |left| <= |r.inFlight|
            && forall t :: t in r.queued ==>
                 && t.id < |s.futures|
                 && (t in left || s.futures[t.id].IsCancelled()
                     || (t.id in StartedIds(s.started) && s.futures[t.id] == Finished))
  {
    DrainsAlways(tr, i);
    AccountAtExit(tr[i]);
    QueuedAtExit(tr[i]);
  }

  lemma QueuedAtExit<A>(s: State<A>)
    requires Drains(s) && s.worker.Exited? && |s.stops| == 1
    ensures forall t :: t in s.stops[0].queued ==>
              && t.id < |s.futures|
              && (t in LeftUnrun(s, s.stops[0]) || s.futures[t.id].IsCancelled()
                  || (t.id in StartedIds(s.started) && s.futures[t.id] == Finished))
  {
    var r := s.stops[0];
    forall t | t in r.queued
      ensures Known(s, t)
      ensures t in LeftUnrun(s, r) || s.futures[t.id].IsCancelled()
              || (t.id in StartedIds(s.started) && s.futures[t.id] == Finished)
    {
      assert t in r.queued + r.inFlight;
      IdleTask(s, t);
    }
  }

  lemma ExitedRests<A>(s: State<A>)
    requires Drains(s) && s.worker.Exited? && |s.stops| == 1 && s.stops[0].sync && s.stops[0].counted != {}
    ensures Resting(s) && (s.toFinish == 0 || s.queue == {})
  {
  }

  lemma AccountAtExit<A>(s: State<A>)
    requires Drains(s) && s.worker.Exited? && |s.stops| == 1 && s.stops[0].sync
    ensures var r := s.stops[0];
            var left, cancelled := LeftUnrun(s, r), CancelledOf(s, r.counted);
            var replaced := r.inFlight - CancelledOf(s, r.inFlight);
            && (r.counted != {} ==> |left| + |cancelled| == s.toFinish + |replaced|)
            && (left == {} <==> s.queue == {} || r.counted == {} || |cancelled| == |replaced|)
            && |left| <= |r.inFlight|
  {
    var r := s.stops[0];
    if r.counted == {} {
      NoneCountedNoneLeft(s);
    } else {
      ExitedRests(s);
      CountedParts(s);
      AccountAtRest(s);
      SubsetSize(r.inFlight - CancelledOf(s, r.inFlight), r.inFlight);
    }
  }

  lemma SubsetSize<T>(a: set<T>, b: set<T>)
    requires a <= b
    ensures |a| <= |b|
  {
    assert b == a + (b - a);
  }

  // With nothing in flight every queued task that is never cancelled has run.
  lemma IdleSyncStopRunsEverything<A(!new)>(tr: seq<State<A>>, i: nat, t: Task<A>)
    requires IsRun(Init, Next, tr) && i < |tr| && tr[i].worker.Exited?
    requires |tr[i].stops| == 1 && tr[i].stops[0].sync && tr[i].stops[0].inFlight == {}
    requires t in tr[i].stops[0].queued
    ensures t.id < |tr[i].futures|
    ensures tr[i].futures[t.id].IsCancelled() || (t.id in StartedIds(tr[i].started) && tr[i].futures[t.id] == Finished)
  {
    SyncStopAccount(tr, i);
  }

  // Nobody cancels a task that was counted or in flight.
  ghost predicate NoneCancelled<A>(s: State<A>, r: StopRecord<A>) {
    CancelledOf(s, r.counted + r.inFlight) == {}
  }

  // Some of the counted tasks, as many as were in flight, come strictly after the other counted ones
  // and can be told from them by the clock: all of them were counted, or all are due after the stop.
  ghost predicate Separable<A>(r: StopRecord<A>, late: set<Task<A>>) {
    && late <= r.counted && |late| == |r.inFlight|
    && (forall t, u :: t in r.counted - late && u in late ==> t.absTime < u.absTime && r.at < u.absTime)
  }

  // The condition on the call of stop under which a queued task can be missed.
  ghost predicate AtRisk<A(!new)>(r: StopRecord<A>) {
    exists late :: late != {} && Separable(r, late)
  }

  // Without cancelling, the account between batches is between tasks left unrun and tasks in flight.
  lemma UncancelledAtRest<A>(s: State<A>)
    requires Resting(s) && NoneCancelled(s, s.stops[0])
    ensures var r := s.stops[0];
            && LeftUnrun(s, r) == r.counted * s.queue
            && |LeftUnrun(s, r)| == s.toFinish + |r.inFlight|
  {
    var r := s.stops[0];
    NoneOfEither(s, r.counted, r.inFlight);
    CountedParts(s);
    AccountAtRest(s);
    Without(r.counted * s.queue);
    Without(r.inFlight);
  }

  lemma NoneOfEither<A>(s: State<A>, a: set<Task<A>>, b: set<Task<A>>)
    requires CancelledOf(s, a + b) == {}
    ensures CancelledOf(s, a) == {} && CancelledOf(s, b) == {}
  {
    assert CancelledOf(s, a + b) == CancelledOf(s, a) + CancelledOf(s, b);
  }

  lemma Without<T>(a: set<T>)
    ensures a - {} == a
  {
  }

  lemma LossIsSeparable<A>(s: State<A>)
    requires Drains(s) && s.worker.Exited? && |s.stops| == 1 && s.stops[0].sync && NoneCancelled(s, s.stops[0])
    ensures LeftUnrun(s, s.stops[0]) != {} ==> Separable(s.stops[0], LeftUnrun(s, s.stops[0]))
  {
    var r := s.stops[0];
    if LeftUnrun(s, r) != {} {
      if r.counted == {} {
        NoneCountedNoneLeft(s);
      }
      ExitedRests(s);
      UncancelledAtRest(s);
      InOrder(s);
    }
  }

  lemma InOrder<A>(s: State<A>)
    requires Resting(s)
    ensures LeftInOrder(s, s.stops[0])
  {
  }

  // A call of stop that is not at risk drains every queued task, however the run goes on without
  // cancelling; in particular one made with nothing in flight, or with more in flight than queued.
  lemma DrainsUnlessAtRisk<A(!new)>(tr: seq<State<A>>, i: nat)
    requires IsRun(Init, Next, tr) && i < |tr| && tr[i].worker.Exited?
    requires |tr[i].stops| == 1 && tr[i].stops[0].sync && NoneCancelled(tr[i], tr[i].stops[0])
    ensures !AtRisk(tr[i].stops[0]) ==> LeftUnrun(tr[i], tr[i].stops[0]) == {}
    ensures |LeftUnrun(tr[i], tr[i].stops[0])| in {0, |tr[i].stops[0].inFlight|}
  {
    DrainsAlways(tr, i);
    LossIsSeparable(tr[i]);
  }

  lemma RiskNeedsRoom<A(!new)>(r: StopRecord<A>)
    requires AtRisk(r)
    ensures 0 < |r.inFlight| <= |r.counted|
  {
    var late :| late != {} && Separable(r, late);
    SubsetSize(late, r.counted);
  }
}
