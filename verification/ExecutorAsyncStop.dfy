// What a stop that waits for nothing does: an asynchronous one, or a synchronous one that found no task
// to count. The queue stays as it was found, and only the batch in hand is finished.
module ExecutorAsyncStop {
  import opened Runs
  import opened Tasks
  import opened ExecutorProtocol
  import opened ExecutorDrain

  // The stop waits for no task.
  ghost predicate Immediate<A>(r: StopRecord<A>) {
    !r.sync || r.counted == {}
  }

  ghost function Ids<A>(ts: set<Task<A>>): set<nat> {
    set t | t in ts :: t.id
  }

  ghost predicate Frozen<A>(s: State<A>, r: StopRecord<A>) {
    && s.status == Stopped && s.queue == r.queued
    && !s.worker.Popping? && !s.worker.Sleepy?
    && StartedIds(s.started) <= r.begun + Ids(r.inFlight)
  }

  ghost predicate Freezes<A>(s: State<A>) {
    Drains(s) && (|s.stops| == 1 && Immediate(s.stops[0]) ==> Frozen(s, s.stops[0]))
  }

  lemma EndStopFreezes<A>(s: State<A>, s': State<A>)
    requires Drains(s) && |s.stops| == 0 && Step(s, EndStop, s') && Immediate(s'.stops[0])
    ensures Frozen(s', s'.stops[0])
  {
  }

  // What a step after the stop does to the queue and the status.
  lemma StoppedStep<A>(s: State<A>, l: Label<A>, s': State<A>)
    requires s.status == Stopped && !s.worker.Popping? && !s.worker.Sleepy? && !l.EndStop? && Step(s, l, s')
    ensures s'.status == Stopped && s'.queue == s.queue && !s'.worker.Popping? && !s'.worker.Sleepy?
    ensures !l.TakeTask? ==> s'.started == s.started
  {
  }

  // The next task of the batch was in flight at the stop.
  lemma TakenWasInFlight<A>(s: State<A>, s': State<A>, r: StopRecord<A>)
    requires Inv(s) && Confined(s, r) && s.queue == r.queued && Step(s, TakeTask, s') && s'.worker.Acting?
    ensures s'.worker.task in r.inFlight && StartedIds(s'.started) == StartedIds(s.started) + {s'.worker.task.id}
  {
    var task := s.worker.rest[0];
    assert task in Rest(s.worker);
    StartedIdsAppend(s.started, Start(task, s.clock));
  }

  lemma TakeKeepsStarted<A>(s: State<A>, s': State<A>)
    requires Step(s, TakeTask, s') && !s'.worker.Acting?
    ensures s'.started == s.started
  {
  }

  lemma StepKeepsFrozen<A>(s: State<A>, l: Label<A>, s': State<A>, r: StopRecord<A>)
    requires Inv(s) && Confined(s, r) && Frozen(s, r) && !l.EndStop? && Step(s, l, s')
    ensures Frozen(s', r)
  {
    StoppedStep(s, l, s');
    if l.TakeTask? {
      if s'.worker.Acting? {
        TakenWasInFlight(s, s', r);
      } else {
        TakeKeepsStarted(s, s');
      }
    }
  }

  lemma StepKeepsFreezes<A>(s: State<A>, l: Label<A>, s': State<A>)
    requires Freezes(s) && Step(s, l, s')
    ensures Freezes(s')
  {
    StepKeepsDrains(s, l, s');
    if l.EndStop? {
      assert |s'.stops| == |s.stops| + 1;
      if |s.stops| == 0 && Immediate(s'.stops[0]) {
        EndStopFreezes(s, s');
      }
    } else {
      StopsKept(s, l, s');
      if |s.stops| == 1 && Immediate(s.stops[0]) {
        StepKeepsFrozen(s, l, s', s.stops[0]);
      }
    }
  }

  lemma FreezesAlways<A(!new)>(tr: seq<State<A>>, i: nat)
    requires IsRun(Init, Next, tr) && i < |tr|
    ensures Freezes(tr[i])
  {
    forall s: State<A> | Init(s) ensures Freezes(s) { InitFreezes(s); }
    forall s: State<A>, s' | Freezes(s) && Next(s, s') ensures Freezes(s') {
      var l :| Step(s, l, s');
      StepKeepsFreezes(s, l, s');
    }
    InvariantAt(Init, Next, Freezes, tr, i);
  }

  lemma InitFreezes<A>(s: State<A>)
    requires Init(s)
    ensures Freezes(s)
  {
    InitInv(s);
  }

  // After one stop that waits for nothing, and however the run goes on until another stop: the queue
  // is what the stop found, and every action begun since belongs to a task that was in flight.
  lemma StopLeavesQueue<A(!new)>(tr: seq<State<A>>, i: nat)
    requires IsRun(Init, Next, tr) && i < |tr| && |tr[i].stops| == 1
    requires !tr[i].stops[0].sync || tr[i].stops[0].counted == {}
    ensures tr[i].status == Stopped && tr[i].queue == tr[i].stops[0].queued
    ensures forall k :: k in StartedIds(tr[i].started) && k !in tr[i].stops[0].begun ==>
              exists t :: t in tr[i].stops[0].inFlight && t.id == k
  {
    FreezesAlways(tr, i);
  }

  // And when `run` has returned, those in flight are finished or cancelled.
  lemma BatchIsFinished<A(!new)>(tr: seq<State<A>>, i: nat, t: Task<A>)
    requires IsRun(Init, Next, tr) && i < |tr| && |tr[i].stops| == 1 && tr[i].worker.Exited?
    requires t in tr[i].stops[0].inFlight
    ensures t.id < |tr[i].futures|
    ensures tr[i].futures[t.id] == Finished || tr[i].futures[t.id].IsCancelled()
  {
    DrainsAlways(tr, i);
    var r := tr[i].stops[0];
    assert t in r.queued + r.inFlight;
    IdleTask(tr[i], t);
  }
}
