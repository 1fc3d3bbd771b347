// What an orderly shutdown can lose: from a stop of the bus or of a host that leaves tasks behind on its
// own, the whole network goes on to the end of its shutdown.

// Runs of the network that one executor, or the shutdown, can bring about when left alone.
module NetworkDriving {
  import opened Runs
  import opened Tasks
  import opened ExecutorProtocol
  import opened ExecutorCalls
  import opened ExecutorTermination
  import opened DrainRisk
  import opened NetworkProtocol
  import opened NetworkShutdown
  import opened NetworkOrder
  import opened NetworkDelivery
  import opened NetworkCalls

  // ---------- each executor of the network is in a state of its own runs ----------

  ghost predicate OwnRun<A(!new)>(s: State<A>) {
    Reachable(ExecutorProtocol.Init<A>, ExecutorProtocol.Next<A>, s)
  }

  ghost predicate OwnRuns(n: Net) {
    OwnRun(n.bus) && forall h :: 0 <= h < |n.hosts| ==> OwnRun(n.hosts[h])
  }

  lemma OwnStep<A(!new)>(s: State<A>, l: Label<A>, s': State<A>)
    requires OwnRun(s) && Step(s, l, s')
    ensures OwnRun(s')
  {
    ReachableNext(ExecutorProtocol.Init<A>, ExecutorProtocol.Next<A>, s, s');
  }

  lemma InitIsOwn<A(!new)>(s: State<A>)
    requires ExecutorProtocol.Init(s)
    ensures OwnRun(s)
  {
    ReachableInit(ExecutorProtocol.Init<A>, ExecutorProtocol.Next<A>, s);
  }

  // A step of the network moves the bus executor, if at all, by one of its own steps.
  lemma BusMovesAlone(w: Wiring, n: Net, l: NetLabel, n': Net)
    requires NetStep(w, n, l, n')
    ensures n'.bus == n.bus || exists bl :: Step(n.bus, bl, n'.bus)
  {
    match l {
      case BusStep(bl) =>
      case Broadcast(source, data) => assert Step(n.bus, Accept(0.0, 0, Transmit(source, data)), n'.bus);
      case BusComplete => assert Step(n.bus, Complete, n'.bus);
      case Main =>
        if n.closing.Open? {
          assert Step(n.bus, BeginStop(true), n'.bus);
        } else if n.closing.BusEnding? {
          assert Step(n.bus, EndStop, n'.bus);
        }
      case _ =>
    }
  }

  lemma BusStaysOwn(w: Wiring, n: Net, l: NetLabel, n': Net)
    requires OwnRun(n.bus) && NetStep(w, n, l, n')
    ensures OwnRun(n'.bus)
  {
    BusMovesAlone(w, n, l, n');
    if n'.bus != n.bus {
      var bl :| Step(n.bus, bl, n'.bus);
      OwnStep(n.bus, bl, n'.bus);
    }
  }

  lemma HostsStayOwn(w: Wiring, n: Net, l: NetLabel, n': Net)
    requires OwnRuns(n) && NetStep(w, n, l, n')
    ensures forall h :: 0 <= h < |n'.hosts| ==> OwnRun(n'.hosts[h])
  {
    HostsMoveAlone(w, n, l, n');
    if n'.hosts != n.hosts {
      var h, hl :|
        && 0 <= h < |n.hosts| && |n'.hosts| == |n.hosts| && n'.hosts == n.hosts[h := n'.hosts[h]]
        && HostMoves(n.hosts[h], hl, n'.hosts[h]);
      OwnStep(n.hosts[h], hl, n'.hosts[h]);
    }
  }

  lemma ReachableOwnRuns(w: Wiring, n: Net)
    requires NetReachable(w, n)
    ensures OwnRuns(n)
  {
    var ok := n => OwnRuns(n);
    forall n | InitOf(w)(n) ensures ok(n) {
      InitIsOwn(n.bus);
      forall h | 0 <= h < |n.hosts| ensures OwnRun(n.hosts[h]) { InitIsOwn(n.hosts[h]); }
    }
    forall n, n' | ok(n) && NextOf(w)(n, n') ensures ok(n') {
      var l :| NetStep(w, n, l, n');
      BusStaysOwn(w, n, l, n');
      HostsStayOwn(w, n, l, n');
    }
    HoldsWhenReachable(InitOf(w), NextOf(w), ok, n);
  }

  // ---------- a host left alone ----------

  ghost function WithHost(n: Net, h: nat, s: State<HostAction>): Net
    requires h < |n.hosts|
  {
    n.(hosts := n.hosts[h := s])
  }

  lemma HostAloneOnce(w: Wiring, n: Net, h: nat, s: State<HostAction>, s': State<HostAction>)
    requires h < |n.hosts| && Alone(s, s')
    ensures Leads(w, WithHost(n, h, s), WithHost(n, h, s'))
  {
    var l :| (WorkerStep(l) || l.Tick?) && Step(s, l, s');
    assert WithHost(n, h, s').hosts == WithHost(n, h, s).hosts[h := s'];
    LeadsOnce(w, WithHost(n, h, s), HostStep(h, l), WithHost(n, h, s'));
  }

  lemma {:induction false} HostAloneAlong(w: Wiring, n: Net, h: nat, tr: seq<State<HostAction>>, k: nat)
    requires h < |n.hosts| && k < |tr| && tr[0] == n.hosts[h]
    requires forall i :: 0 < i < |tr| ==> StepAt(Alone, tr, i)
    ensures Leads(w, n, WithHost(n, h, tr[k]))
  {
    if k == 0 {
      LeadsToItself(NextOf(w), n);
      assert WithHost(n, h, tr[0]) == n;
    } else {
      HostAloneAlong(w, n, h, tr, k - 1);
      assert StepAt(Alone, tr, k);
      HostAloneOnce(w, n, h, tr[k - 1], tr[k]);
      LeadsFurther(w, n, WithHost(n, h, tr[k - 1]), WithHost(n, h, tr[k]));
    }
  }

  // What a host executor does alone it does in the network.
  lemma HostAlone(w: Wiring, n: Net, h: nat, s': State<HostAction>)
    requires h < |n.hosts| && LeadsTo(Alone, n.hosts[h], s')
    ensures Leads(w, n, WithHost(n, h, s'))
  {
    var tr :| IsRun(Only(n.hosts[h]), Alone, tr) && tr[|tr| - 1] == s';
    HostAloneAlong(w, n, h, tr, |tr| - 1);
  }

  lemma AloneOnce<A(!new)>(s: State<A>, mid: State<A>, l: Label<A>, s': State<A>)
    requires LeadsTo(Alone, s, mid) && (WorkerStep(l) || l.Tick?) && Step(mid, l, s')
    ensures LeadsTo(Alone, s, s')
  {
    LeadsToNext(Alone, s, mid, s');
  }

  // Neither the requests made of the executor nor a call of stop under way.
  ghost predicate SameRequests<A>(s: State<A>, s': State<A>) {
    && s'.accepted == s.accepted && s'.stops == s.stops && s'.stopper == s.stopper
    && (s.status == Running ==> s'.status == Running)
  }

  lemma WorkerStepKeepsRequests<A>(s: State<A>, l: Label<A>, s': State<A>)
    requires (WorkerStep(l) || l.Tick?) && Step(s, l, s')
    ensures SameRequests(s, s')
  {
  }

  // A worker that holds the lock lets go of it.
  lemma ReleasesLock<A(!new)>(s: State<A>) returns (s': State<A>)
    requires s.stopper.NoStop?
    ensures LeadsTo(Alone, s, s') && LockFree(s') && SameRequests(s, s')
  {
    LeadsToItself(Alone, s);
    s' := s;
    if s'.worker.Checking? {
      var next := CheckIsPossible(s');
      AloneOnce(s, s', Check, next);
      WorkerStepKeepsRequests(s', Check, next);
      s' := next;
    }
    if s'.worker.Popping? {
      var batch, next := PopIsPossible(s');
      AloneOnce(s, s', Pop(batch), next);
      WorkerStepKeepsRequests(s', Pop(batch), next);
      s' := next;
    } else if s'.worker.Sleepy? {
      var next := SleepIsPossible(s');
      AloneOnce(s, s', Sleep, next);
      WorkerStepKeepsRequests(s', Sleep, next);
      s' := next;
    }
  }

  // A clock reading after the times of all accepted tasks.
  function After<A>(ts: seq<Task<A>>, clock: real): (now: real)
    ensures now >= clock && forall k :: 0 <= k < |ts| ==> ts[k].absTime < now
  {
    if ts == [] then clock
    else
      var now := After(ts[..|ts| - 1], clock);
      if ts[|ts| - 1].absTime < now then now else ts[|ts| - 1].absTime + 1.0
  }

  // The executor is free to accept, and its clock reads later than for any task before.
  lemma GetsReady<A(!new)>(s: State<A>) returns (s': State<A>)
    requires s.stopper.NoStop?
    ensures LeadsTo(Alone, s, s') && LockFree(s') && SameRequests(s, s')
    ensures forall k :: 0 <= k < |s'.accepted| ==> s'.accepted[k].absTime < s'.clock
  {
    var free := ReleasesLock(s);
    var passed := After(free.accepted, free.clock) - free.clock;
    s' := Later(free, passed);
    AloneOnce(s, free, Tick(passed), s');
  }

  // ---------- the bus works off its batch ----------

  lemma HostsTakeDeliveries(w: Wiring, n: Net, h: nat)
    requires NetReachable(w, n) && BusMayWork(n.closing)
    ensures Orderly(w, n)
    ensures h < |n.hosts| ==> n.hosts[h].status == Running && n.hosts[h].stopper.NoStop?
  {
    ReachableOrdered(w, n);
  }

  lemma OffersNext(w: Wiring, n: Net) returns (n': Net)
    requires NetReachable(w, n) && BusMayWork(n.closing) && n.bus.worker.Acting? && n.served < |w.owner|
    ensures Leads(w, n, n') && n'.bus == n.bus && n'.closing == n.closing && n'.served == n.served + 1
  {
    var i, frame := n.served, n.bus.worker.task;
    var h := w.owner[i];
    HostsTakeDeliveries(w, n, h);
    if Offered(w, frame.action, i) {
      var ready := GetsReady(n.hosts[h]);
      HostAlone(w, n, h, ready);
      var before := WithHost(n, h, ready);
      var t := Task(|ready.accepted|, ready.clock + 0.0, 0, Input(i, frame));
      var given := ready.(queue := ready.queue + {t}, accepted := ready.accepted + [t],
                          futures := ready.futures + [Pending], notified := ready.notified || ready.worker.Waiting?);
      assert Step(ready, Accept(0.0, 0, Input(i, frame)), given);
      n' := before.(served := i + 1, hosts := before.hosts[h := given]);
      LeadsOn(w, n, before, Deliver, n');
    } else {
      n' := n.(served := i + 1);
      LeadsOnce(w, n, Deliver, n');
    }
  }

  lemma {:induction false} OffersAll(w: Wiring, n: Net) returns (n': Net)
    requires NetReachable(w, n) && BusMayWork(n.closing) && n.bus.worker.Acting? && n.served <= |w.owner|
    ensures Leads(w, n, n') && n'.bus == n.bus && n'.closing == n.closing && n'.served == |w.owner|
    decreases |w.owner| - n.served
  {
    if n.served == |w.owner| {
      LeadsToItself(NextOf(w), n);
      return n;
    }
    var next := OffersNext(w, n);
    StaysReachable(w, n, next);
    n' := OffersAll(w, next);
    LeadsFurther(w, n, next, n');
  }

  // One step of the bus in its batch, after the deliveries that the end of an action waits for.
  lemma BusBatchStep(w: Wiring, n: Net, l: Label<Transmit>, next: State<Transmit>) returns (n': Net)
    requires NetReachable(w, n) && BusMayWork(n.closing) && BatchLabel(l) && Step(n.bus, l, next)
    ensures Leads(w, n, n') && n'.bus == next && n'.closing == n.closing
  {
    if l.Complete? {
      ReachableOrdered(w, n);
      var offered := OffersAll(w, n);
      n' := offered.(bus := next, served := 0);
      LeadsOn(w, n, offered, BusComplete, n');
    } else {
      n' := n.(bus := next);
      LeadsOnce(w, n, BusStep(l), n');
    }
  }

  lemma {:induction false} BusFinishesBatch(w: Wiring, n: Net) returns (n': Net)
    requires NetReachable(w, n) && BusMayWork(n.closing)
    requires n.bus.stopper.NoStop? && (InBatch(n.bus.worker) || n.bus.worker.Unlocked?)
    ensures Leads(w, n, n') && n'.closing == n.closing && n'.bus.worker.Unlocked? && StaysPut(n.bus, n'.bus)
    decreases WorkLeft(n.bus)
  {
    if n.bus.worker.Unlocked? {
      LeadsToItself(NextOf(w), n);
      return n;
    }
    ReachableOwnRuns(w, n);
    DrainsReachable(n.bus);
    var l, next := BatchStepIsPossible(n.bus);
    BatchUsesWork(n.bus, l, next);
    BatchStepStaysPut(n.bus, l, next);
    var mid := BusBatchStep(w, n, l, next);
    StaysReachable(w, n, mid);
    n' := BusFinishesBatch(w, mid);
    LeadsFurther(w, n, mid, n');
  }

  // ---------- the rest of the shutdown ----------

  lemma HostIsStoppable(w: Wiring, n: Net, k: nat)
    requires NetReachable(w, n) && n.closing == HostBegin(k) && k < |n.hosts|
    ensures n.hosts[k].stopper.NoStop? && OwnRun(n.hosts[k])
  {
    ReachableOwnRuns(w, n);
    ReachableDraining(w, n);
    assert HostDraining(n.hosts[k], n.closing, k);
  }

  lemma FuturesOfQueued<A(!new)>(s: State<A>)
    requires OwnRun(s)
    ensures forall t :: t in s.queue ==> t.id < |s.futures|
  {
    DrainsReachable(s);
  }

  lemma HostStops(w: Wiring, n: Net, k: nat) returns (n': Net)
    requires NetReachable(w, n) && n.closing == HostBegin(k) && k < |n.hosts|
    ensures Leads(w, n, n') && |n'.hosts| == |n.hosts| && n' == WithHost(n, k, n'.hosts[k]).(closing := HostJoining(k))
  {
    HostIsStoppable(w, n, k);
    var free := ReleasesLock(n.hosts[k]);
    AloneLeads(n.hosts[k], free);
    FuturesOfQueued(free);
    var queued := SortedListing(free.queue);
    var tr, ls := StopSteps(free, true, queued);
    HostAlone(w, n, k, free);
    var before := WithHost(n, k, free);
    HostStopRun(w, before, k, tr, ls);
    n' := before.(hosts := before.hosts[k := tr[|tr| - 1]], closing := HostJoining(k));
    LeadsFurther(w, n, before, n');
  }

  lemma HostReturns(w: Wiring, n: Net, k: nat) returns (n': Net)
    requires NetReachable(w, n) && n.closing == HostJoining(k) && k < |n.hosts|
    ensures Leads(w, n, n') && |n'.hosts| == |n.hosts| && n' == WithHost(n, k, n'.hosts[k]) && n'.hosts[k].worker.Exited?
  {
    ReachableOwnRuns(w, n);
    ReachableDraining(w, n);
    assert HostDraining(n.hosts[k], n.closing, k);
    var s' := RunReturns(n.hosts[k]);
    HostAlone(w, n, k, s');
    n' := WithHost(n, k, s');
  }

  // From the return of a join the shutdown goes on to its end.
  lemma {:induction false} Closes(w: Wiring, n: Net, k: nat) returns (n': Net)
    requires NetReachable(w, n) && Joined(n, k) && k <= |n.hosts|
    ensures Leads(w, n, n') && n'.closing.Closed? && n'.bus == n.bus
    ensures |n'.hosts| == |n.hosts| && forall h :: 0 <= h < k ==> n'.hosts[h] == n.hosts[h]
    decreases |n.hosts| - k
  {
    var next := Onward(n, k);
    JoinReturns(w, n, k);
    if k == |n.hosts| {
      return next;
    }
    StaysReachable(w, n, next);
    var stopped := HostStops(w, next, k);
    StaysReachable(w, next, stopped);
    var joined := HostReturns(w, stopped, k);
    StaysReachable(w, stopped, joined);
    n' := Closes(w, joined, k + 1);
    LeadsFurther(w, n, next, stopped);
    LeadsFurther(w, n, stopped, joined);
    LeadsFurther(w, n, joined, n');
  }
}

// Exactly which stops of an orderly shutdown can lose something.
module NetworkLoss {
  import opened Runs
  import opened Tasks
  import opened ExecutorProtocol
  import opened ExecutorDrain
  import opened DrainRisk
  import opened NetworkProtocol
  import opened NetworkOrder
  import opened NetworkDelivery
  import opened NetworkCalls
  import opened NetworkDriving

  // ---------- the stop of the bus ----------

  // The stop of the bus has just released the lock.
  ghost predicate BusStopReturned(w: Wiring, n: Net) {
    n.closing.BusJoining?
    && exists before :: NetReachable(w, before) && before.closing.BusEnding? && NetStep(w, before, Main, n)
  }

  lemma AtBusReturn(w: Wiring, n: Net)
    requires BusStopReturned(w, n)
    ensures NetReachable(w, n) && StopReturned(n.bus)
  {
    var before :| NetReachable(w, before) && before.closing.BusEnding? && NetStep(w, before, Main, n);
    LeadsOnce(w, before, Main, n);
    StaysReachable(w, before, n);
    ReachableOwnRuns(w, before);
    ReachableDraining(w, n);
  }

  // Nobody cancels a task of the bus, and what it counts is due.
  lemma BusIsPlain(w: Wiring, n: Net)
    requires NetReachable(w, n) && |n.bus.stops| == 1
    ensures NoneCancelled(n.bus, n.bus.stops[0]) && TimelyStop(n.bus.stops[0])
  {
    ReachableOrdered(w, n);
    ReachableDraining(w, n);
    NobodyCancelled(IsTransmit, n.bus);
    ReachableTimely(w, n);
  }

  lemma ReachableTimely(w: Wiring, n: Net)
    requires NetReachable(w, n)
    ensures TimelyBus(n.bus)
  {
    var ok := n => Draining(n) && TimelyBus(n.bus);
    forall n | InitOf(w)(n) ensures ok(n) { InitDraining(w, n); }
    forall n, n' | ok(n) && NextOf(w)(n, n') ensures ok(n') {
      var l :| NetStep(w, n, l, n');
      StepKeepsDraining(w, n, l, n');
      StepKeepsTimely(w, n, l, n');
    }
    HoldsWhenReachable(InitOf(w), NextOf(w), ok, n);
  }

  // A stop of the bus is at risk exactly if it found as many frames in flight as queued, and some.
  lemma BusRisk(w: Wiring, n: Net)
    requires NetReachable(w, n) && |n.bus.stops| == 1
    ensures AtRisk(n.bus.stops[0]) <==> Matched(n.bus.stops[0])
  {
    BusIsPlain(w, n);
    TimelyRisk(n.bus.stops[0]);
  }

  // The bus comes to rest with its lock free.
  lemma BusSettles(w: Wiring, n: Net) returns (n': Net)
    requires BusStopReturned(w, n)
    ensures Leads(w, n, n') && NetReachable(w, n') && n'.closing.BusJoining?
    ensures n'.bus.worker.Unlocked? && StaysPut(n.bus, n'.bus)
  {
    AtBusReturn(w, n);
    AtReturn(n.bus);
    if n.bus.worker.Waiting? {
      n' := n.(bus := n.bus.(worker := Unlocked, notified := false));
      LeadsOnce(w, n, BusStep(Wake), n');
    } else {
      n' := BusFinishesBatch(w, n);
    }
    StaysReachable(w, n, n');
  }

  lemma BusReturnsAtZero(w: Wiring, n: Net) returns (n': Net)
    requires n.bus.worker.Unlocked? && n.bus.stopper.NoStop? && n.bus.status == StoppedSync && n.bus.toFinish == 0
    ensures Leads(w, n, n') && n' == n.(bus := n.bus.(status := Stopped, worker := Exited))
  {
    var checking := n.(bus := n.bus.(worker := Checking));
    n' := n.(bus := n.bus.(status := Stopped, worker := Exited));
    LeadsOnce(w, n, BusStep(TakeLock), checking);
    LeadsOn(w, n, checking, BusStep(Check), n');
  }

  // With matching counts the bus can return with every counted frame left behind.
  lemma BusLeavesCounted(w: Wiring, n: Net) returns (n': Net)
    requires BusStopReturned(w, n) && |n.bus.stops| == 1 && Matched(n.bus.stops[0])
    ensures Leads(w, n, n') && n'.closing.BusJoining? && n'.bus.worker.Exited? && n'.bus.stops == n.bus.stops
    ensures LeftUnrun(n'.bus, n.bus.stops[0]) == n.bus.stops[0].counted
  {
    var r := n.bus.stops[0];
    AtBusReturn(w, n);
    AtReturn(n.bus);
    var rested := BusSettles(w, n);
    BusAtRest(w, rested);
    assert r.counted * rested.bus.queue == r.counted;
    n' := BusReturnsAtZero(w, rested);
    LeadsFurther(w, n, rested, n');
    StaysReachable(w, n, n');
    BusAtRest(w, n');
  }

  lemma BusAtRest(w: Wiring, n: Net)
    requires NetReachable(w, n) && |n.bus.stops| == 1 && n.bus.stops[0].sync && n.bus.stops[0].counted != {}
    requires Idle(n.bus)
    ensures LeftUnrun(n.bus, n.bus.stops[0]) == n.bus.stops[0].counted * n.bus.queue
    ensures n.bus.toFinish == |n.bus.stops[0].counted * n.bus.queue| - |n.bus.stops[0].inFlight|
    ensures n.bus.worker.Exited? || n.bus.status == StoppedSync
  {
    BusIsPlain(w, n);
    ReachableOwnRuns(w, n);
    CounterAtRest(n.bus);
  }

  // From there the shutdown goes on to its end, and nothing brings the frames back.
  lemma ShutdownLeavesCounted(w: Wiring, n: Net) returns (n': Net)
    requires BusStopReturned(w, n) && |n.bus.stops| == 1 && Matched(n.bus.stops[0])
    ensures Leads(w, n, n') && NetReachable(w, n') && n'.closing.Closed? && n'.bus.stops == n.bus.stops
    ensures LeftUnrun(n'.bus, n.bus.stops[0]) == n.bus.stops[0].counted
  {
    AtBusReturn(w, n);
    var exited := BusLeavesCounted(w, n);
    StaysReachable(w, n, exited);
    n' := Closes(w, exited, 0);
    LeadsFurther(w, n, exited, n');
    StaysReachable(w, n, n');
  }

  ghost predicate BusCanLose(w: Wiring, n: Net)
    requires |n.bus.stops| == 1
  {
    exists n' ::
      && Leads(w, n, n') && n'.closing.Closed? && n'.bus.stops == n.bus.stops
      && LeftUnrun(n'.bus, n.bus.stops[0]) != {}
  }

  // Exactly when the shutdown can lose frames on the bus: if and only if the stop of the bus finds as
  // many frames in flight as queued, and some.
  lemma BusLosesExactlyWhenMatched(w: Wiring, n: Net)
    requires BusStopReturned(w, n) && |n.bus.stops| == 1
    ensures BusCanLose(w, n) <==> Matched(n.bus.stops[0])
  {
    AtBusReturn(w, n);
    if Matched(n.bus.stops[0]) {
      var n' := ShutdownLeavesCounted(w, n);
    }
    if BusCanLose(w, n) {
      var n' :|
        && Leads(w, n, n') && n'.closing.Closed? && n'.bus.stops == n.bus.stops
        && LeftUnrun(n'.bus, n.bus.stops[0]) != {};
      StaysReachable(w, n, n');
      LossMeansMatched(w, n');
    }
  }

  lemma LossMeansMatched(w: Wiring, n: Net)
    requires NetReachable(w, n) && n.closing.Closed? && |n.bus.stops| == 1
    requires LeftUnrun(n.bus, n.bus.stops[0]) != {}
    ensures Matched(n.bus.stops[0])
  {
    ReachableDraining(w, n);
    ClosedIsQuiet(w, n);
    BusIsPlain(w, n);
    LossIsSeparable(n.bus);
    BusRisk(w, n);
  }

  // The frame of task t was broadcast for interface i and has not been input to it.
  ghost predicate NotInput(w: Wiring, n: Net, i: nat, t: Task<Transmit>) {
    && i < |w.owner| && w.owner[i] < |n.hosts|
    && t in Expected(w, n, i) && t !in InputTo(w, n, i)
  }

  // A frame the bus is left with has not been input to any interface.
  lemma LeftIsNotInput(w: Wiring, n: Net, i: nat, t: Task<Transmit>)
    requires NetReachable(w, n) && |n.bus.stops| == 1 && i < |w.owner|
    requires t in LeftUnrun(n.bus, n.bus.stops[0]) && Offered(w, t.action, i)
    ensures NotInput(w, n, i, t)
  {
    ReachableOrdered(w, n);
    ReachableDraining(w, n);
    var begun, host := TasksOf(n.bus.started), n.hosts[w.owner[i]];
    LeftHasNotBegun(For(w, i), n.bus, t);
    assert HostSteady(host);
    InputsAreDeliveries(host, i);
    SelectPrefix(For(w, i), Handled(n, i), begun);
  }

  // When the counts match, some run of the shutdown leaves each counted frame uninput at every
  // interface it is meant for.
  lemma FramesCanBeLost(w: Wiring, n: Net) returns (n': Net)
    requires BusStopReturned(w, n) && |n.bus.stops| == 1 && Matched(n.bus.stops[0])
    ensures Leads(w, n, n') && n'.closing.Closed?
    ensures forall i, t :: 0 <= i < |w.owner| && t in n.bus.stops[0].counted && Offered(w, t.action, i) ==>
              NotInput(w, n', i, t)
  {
    n' := ShutdownLeavesCounted(w, n);
    forall i, t | 0 <= i < |w.owner| && t in n.bus.stops[0].counted && Offered(w, t.action, i)
      ensures NotInput(w, n', i, t)
    {
      LeftIsNotInput(w, n', i, t);
    }
  }

  // ---------- the stop of a host ----------

  // The stop of host k has just released the lock.
  ghost predicate HostStopReturned(w: Wiring, n: Net, k: nat) {
    n.closing == HostJoining(k) && k < |n.hosts|
    && exists before :: NetReachable(w, before) && before.closing == HostEnding(k) && NetStep(w, before, Main, n)
  }

  lemma AtHostReturn(w: Wiring, n: Net, k: nat)
    requires HostStopReturned(w, n, k)
    ensures NetReachable(w, n) && StopReturned(n.hosts[k])
  {
    var before :| NetReachable(w, before) && before.closing == HostEnding(k) && NetStep(w, before, Main, n);
    LeadsOnce(w, before, Main, n);
    StaysReachable(w, before, n);
    ReachableOwnRuns(w, before);
    ReachableDraining(w, n);
    assert HostDraining(n.hosts[k], n.closing, k);
    assert OwnRun(before.hosts[k]) && Step(before.hosts[k], EndStop, n.hosts[k]);
  }

  ghost predicate HostCanLose(w: Wiring, n: Net, k: nat)
    requires k < |n.hosts| && |n.hosts[k].stops| == 1
  {
    exists n' ::
      && Leads(w, n, n') && n'.closing.Closed? && |n'.hosts| == |n.hosts|
      && n'.hosts[k].stops == n.hosts[k].stops && NoneCancelled(n'.hosts[k], n.hosts[k].stops[0])
      && LeftUnrun(n'.hosts[k], n.hosts[k].stops[0]) != {}
  }

  // Exactly when, while nobody cancels, the shutdown can lose tasks of a host: if and only if its stop
  // is at risk.
  lemma HostLosesExactlyAtRisk(w: Wiring, n: Net, k: nat)
    requires HostStopReturned(w, n, k) && |n.hosts[k].stops| == 1 && NoneCancelled(n.hosts[k], n.hosts[k].stops[0])
    ensures HostCanLose(w, n, k) <==> AtRisk(n.hosts[k].stops[0])
  {
    AtHostReturn(w, n, k);
    var r := n.hosts[k].stops[0];
    if AtRisk(r) {
      var late :| late != {} && Separable(r, late);
      var n' := HostLeavesLate(w, n, k, late);
    }
    if HostCanLose(w, n, k) {
      var n' :|
        && Leads(w, n, n') && n'.closing.Closed? && |n'.hosts| == |n.hosts|
        && n'.hosts[k].stops == n.hosts[k].stops && NoneCancelled(n'.hosts[k], r)
        && LeftUnrun(n'.hosts[k], r) != {};
      StaysReachable(w, n, n');
      HostLossMeansRisk(w, n', k);
    }
  }

  lemma HostLossMeansRisk(w: Wiring, n: Net, k: nat)
    requires NetReachable(w, n) && n.closing.Closed? && k < |n.hosts| && |n.hosts[k].stops| == 1
    requires NoneCancelled(n.hosts[k], n.hosts[k].stops[0]) && LeftUnrun(n.hosts[k], n.hosts[k].stops[0]) != {}
    ensures AtRisk(n.hosts[k].stops[0])
  {
    ReachableDraining(w, n);
    assert HostDraining(n.hosts[k], n.closing, k);
    LossIsSeparable(n.hosts[k]);
  }

  lemma HostLeavesLate(w: Wiring, n: Net, k: nat, late: set<Task<HostAction>>) returns (n': Net)
    requires HostStopReturned(w, n, k) && |n.hosts[k].stops| == 1 && NoneCancelled(n.hosts[k], n.hosts[k].stops[0])
    requires late != {} && Separable(n.hosts[k].stops[0], late)
    ensures Leads(w, n, n') && n'.closing.Closed? && |n'.hosts| == |n.hosts|
    ensures n'.hosts[k].stops == n.hosts[k].stops && NoneCancelled(n'.hosts[k], n.hosts[k].stops[0])
    ensures LeftUnrun(n'.hosts[k], n.hosts[k].stops[0]) == late
  {
    AtHostReturn(w, n, k);
    var s' := LosesLateOnes(n.hosts[k], late);
    HostAlone(w, n, k, s');
    var exited := WithHost(n, k, s');
    StaysReachable(w, n, exited);
    n' := Closes(w, exited, k + 1);
    LeadsFurther(w, n, exited, n');
  }
}

// Any number of frames can be lost to the stop of the bus, whatever the wiring and the filters.
module NetworkShortfall {
  import opened Runs
  import opened Tasks
  import opened ExecutorProtocol
  import opened ExecutorCalls
  import opened ExecutorTermination
  import opened DrainRisk
  import opened NetworkProtocol
  import opened NetworkCalls
  import opened NetworkDriving
  import opened NetworkLoss

  function Fresh<A>(): State<A> {
    State(Running, {}, [], 0, 0.0, Unlocked, false, NoStop, [], [], 0.0, {}, [], {})
  }

  lemma Begins(w: Wiring) returns (n: Net)
    requires Wired(w)
    ensures NetReachable(w, n) && n.closing.Open? && n.bus == Fresh<Transmit>()
  {
    n := Net(Fresh(), seq(w.hosts, _ => Fresh()), 0, false, Open);
    ReachableInit(InitOf(w), NextOf(w), n);
  }

  // Tasks can be accepted, and the worker does not change by it.
  predicate Accepting(s: State<Transmit>) {
    s.status == Running && LockFree(s) && !s.worker.Waiting? && s.stops == []
  }

  // s' is s after m broadcasts of the frame f.
  ghost predicate Broadcasted(s: State<Transmit>, f: Transmit, m: nat, s': State<Transmit>) {
    && Accepting(s') && s'.worker == s.worker
    && |s'.accepted| == |s.accepted| + m && s.accepted <= s'.accepted
    && s'.futures == s.futures + seq(m, _ => Pending)
    && (forall k :: |s.accepted| <= k < |s'.accepted| ==>
          s'.accepted[k].action == f && s'.accepted[k].absTime <= s'.clock)
    && s'.queue == s.queue + set t | t in s'.accepted[|s.accepted|..]
  }

  lemma BroadcastsOnce(w: Wiring, n: Net, f: Transmit) returns (n': Net)
    requires n.closing.Open? && Accepting(n.bus)
    ensures Leads(w, n, n') && n'.closing.Open? && Accepting(n'.bus) && n'.bus.worker == n.bus.worker
    ensures exists t: Task<Transmit> ::
              && t.action == f && t.absTime == n'.bus.clock && n'.bus.accepted == n.bus.accepted + [t]
              && n'.bus.queue == n.bus.queue + {t}
    ensures n'.bus.futures == n.bus.futures + [Pending] && n.bus.clock <= n'.bus.clock
  {
    var s := n.bus;
    var passed := After(s.accepted, s.clock) - s.clock;
    var ready := n.(bus := Later(s, passed));
    LeadsOnce(w, n, BusStep(Tick(passed)), ready);
    var t := Task(|s.accepted|, ready.bus.clock + 0.0, 0, f);
    n' := n.(bus := ready.bus.(queue := s.queue + {t}, accepted := s.accepted + [t], futures := s.futures + [Pending]));
    LeadsOn(w, n, ready, NetLabel.Broadcast(f.source, f.data), n');
  }

  lemma {:induction false} Broadcasts(w: Wiring, n: Net, f: Transmit, m: nat) returns (n': Net)
    requires n.closing.Open? && Accepting(n.bus)
    ensures Leads(w, n, n') && n'.closing.Open? && Broadcasted(n.bus, f, m, n'.bus)
  {
    if m == 0 {
      LeadsToItself(NextOf(w), n);
      n' := n;
      assert n.bus.futures + seq(0, _ => Pending) == n.bus.futures;
      assert n.bus.accepted[|n.bus.accepted|..] == [];
    } else {
      var mid := Broadcasts(w, n, f, m - 1);
      n' := BroadcastsOnce(w, mid, f);
      LeadsFurther(w, n, mid, n');
      OneMore(n.bus, f, m - 1, mid.bus, n'.bus);
    }
  }

  lemma OneMore(s: State<Transmit>, f: Transmit, m: nat, mid: State<Transmit>, s': State<Transmit>)
    requires Broadcasted(s, f, m, mid) && Accepting(s') && s'.worker == mid.worker && mid.clock <= s'.clock
    requires exists t: Task<Transmit> ::
               && t.action == f && t.absTime == s'.clock && s'.accepted == mid.accepted + [t]
               && s'.queue == mid.queue + {t}
    requires s'.futures == mid.futures + [Pending]
    ensures Broadcasted(s, f, m + 1, s')
  {
    var t: Task<Transmit> :|
      && t.action == f && t.absTime == s'.clock && s'.accepted == mid.accepted + [t]
      && s'.queue == mid.queue + {t};
    var more, all := mid.accepted[|s.accepted|..], s'.accepted[|s.accepted|..];
    assert all == more + [t];
    assert s'.futures == s.futures + seq(m + 1, _ => Pending);
  }

  lemma Numbers(s: State<Transmit>)
    requires OwnRun(s)
    ensures |s.futures| == |s.accepted| && forall i :: 0 <= i < |s.accepted| ==> s.accepted[i].id == i
  {
    DrainsReachable(s);
  }

  lemma BroadcastOne(s: State<Transmit>, f: Transmit, m: nat, s': State<Transmit>, t: Task<Transmit>)
    requires OwnRun(s') && Broadcasted(s, f, m, s') && s.queue == {} && t in s'.queue
    ensures t.action == f && t.absTime <= s'.clock && t.id < |s'.futures| && s'.futures[t.id] == Pending
  {
    Numbers(s');
    var since := s'.accepted[|s.accepted|..];
    var i :| 0 <= i < |since| && since[i] == t;
    assert s'.accepted[|s.accepted| + i] == t;
  }

  // The frames queued since are as many as broadcast.
  lemma CountsBroadcasts(s: State<Transmit>, f: Transmit, m: nat, s': State<Transmit>)
    requires OwnRun(s') && Broadcasted(s, f, m, s') && s.queue == {}
    ensures |s'.queue| == m
  {
    Numbers(s');
    var since := s'.accepted[|s.accepted|..];
    forall i, j | 0 <= i < j < |since|
      ensures since[i] != since[j]
    {
      assert s'.accepted[|s.accepted| + i].id != s'.accepted[|s.accepted| + j].id;
    }
    DistinctSize(since, s'.queue);
  }

  // The worker of the bus takes every due frame off the queue.
  lemma BusPops(w: Wiring, n: Net) returns (n': Net)
    requires n.closing.Open? && Accepting(n.bus) && n.bus.worker.Unlocked? && n.bus.queue != {}
    requires forall t :: t in n.bus.queue ==> t.absTime <= n.bus.clock
    ensures Leads(w, n, n') && n'.closing.Open? && Accepting(n'.bus)
    ensures n'.bus.worker.Batch? && n'.bus.queue == {}
    ensures n'.bus.futures == n.bus.futures && forall t :: t in n'.bus.worker.rest <==> t in n.bus.queue
  {
    var s := n.bus;
    var checking, popping := s.(worker := Checking), s.(worker := Popping);
    LeadsOnce(w, n, BusStep(TakeLock), n.(bus := checking));
    var t :| t in s.queue;
    assert Due(s.queue, s.clock);
    LeadsOn(w, n, n.(bus := checking), BusStep(Check), n.(bus := popping));
    var batch, popped := PopIsPossible(popping);
    n' := n.(bus := popped);
    LeadsOn(w, n, n.(bus := popping), BusStep(Pop(batch)), n');
  }

  // The stop of the bus, when nobody else moves.
  lemma BusStops(w: Wiring, n: Net) returns (n': Net)
    requires NetReachable(w, n) && n.closing.Open? && Accepting(n.bus)
    requires forall t :: t in n.bus.queue ==> t.id < |n.bus.futures| && n.bus.futures[t.id] == Pending
    ensures BusStopReturned(w, n') && |n'.bus.stops| == 1
    ensures n'.bus.stops[0].counted == n.bus.queue && n'.bus.stops[0].inFlight == InFlight(n.bus)
  {
    var queued := SortedListing(n.bus.queue);
    var tr, ls := StopSteps(n.bus, true, queued);
    BusStopRun(w, n, tr, ls);
    var read := n.(bus := tr[|tr| - 2], closing := BusEnding);
    StaysReachable(w, n, read);
    n' := n.(bus := tr[|tr| - 1], closing := BusJoining);
    assert LiveIn(queued, n.bus.futures) == n.bus.queue;
  }

  // Every queued task is a broadcast of f that is due and pending.
  ghost predicate Holds(s: State<Transmit>, f: Transmit) {
    forall t :: t in s.queue ==>
      t.action == f && t.absTime <= s.clock && t.id < |s.futures| && s.futures[t.id] == Pending
  }

  // k broadcasts wait on an idle or busy bus.
  lemma Fills(w: Wiring, n: Net, f: Transmit, k: nat) returns (n': Net)
    requires NetReachable(w, n) && n.closing.Open? && Accepting(n.bus) && n.bus.queue == {}
    ensures NetReachable(w, n') && n'.closing.Open? && Accepting(n'.bus) && n'.bus.worker == n.bus.worker
    ensures |n'.bus.queue| == k && Holds(n'.bus, f) && n.bus.futures <= n'.bus.futures
  {
    n' := Broadcasts(w, n, f, k);
    StaysReachable(w, n, n');
    ReachableOwnRuns(w, n');
    CountsBroadcasts(n.bus, f, k, n'.bus);
    forall t | t in n'.bus.queue
      ensures t.action == f && t.absTime <= n'.bus.clock && t.id < |n'.bus.futures| && n'.bus.futures[t.id] == Pending
    {
      BroadcastOne(n.bus, f, k, n'.bus, t);
    }
  }

  // The worker has k frames in hand.
  lemma FirstInHand(w: Wiring, f: Transmit, k: nat) returns (n: Net, batch: set<Task<Transmit>>)
    requires Wired(w) && k > 0
    ensures NetReachable(w, n) && n.closing.Open? && Accepting(n.bus) && n.bus.queue == {} && |batch| == k
    ensures n.bus.worker.Batch? && forall t :: t in n.bus.worker.rest <==> t in batch
    ensures forall t :: t in batch ==> t.id < |n.bus.futures| && n.bus.futures[t.id] == Pending
  {
    var n0 := Begins(w);
    var n1 := Fills(w, n0, f, k);
    batch := n1.bus.queue;
    n := BusPops(w, n1);
    StaysReachable(w, n1, n);
  }

  // A stop of the bus that found k frames in flight and k queued.
  lemma StoppedHalfway(w: Wiring, f: Transmit, k: nat) returns (n: Net)
    requires Wired(w) && k > 0
    ensures BusStopReturned(w, n) && |n.bus.stops| == 1
    ensures |n.bus.stops[0].counted| == |n.bus.stops[0].inFlight| == k
    ensures forall t :: t in n.bus.stops[0].counted ==> t.action == f
  {
    var n1, batch := FirstInHand(w, f, k);
    var n2 := Fills(w, n1, f, k);
    assert InFlight(n2.bus) == batch;
    n := BusStops(w, n2);
  }

  // For every wiring, frame and k > 0 some run of the network, through the end of its shutdown, leaves
  // k broadcasts of the frame uninput at every interface it is meant for.
  lemma ShutdownCanLoseAny(w: Wiring, f: Transmit, k: nat) returns (n: Net, lost: set<Task<Transmit>>)
    requires Wired(w) && k > 0
    ensures NetReachable(w, n) && n.closing.Closed? && |lost| == k
    ensures forall t :: t in lost ==> t.action == f
    ensures forall i, t :: 0 <= i < |w.owner| && t in lost && Offered(w, f, i) ==> NotInput(w, n, i, t)
  {
    var stopped := StoppedHalfway(w, f, k);
    lost := stopped.bus.stops[0].counted;
    n := FramesCanBeLost(w, stopped);
    AtBusReturn(w, stopped);
    StaysReachable(w, stopped, n);
  }
}
