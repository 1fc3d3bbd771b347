// While the network runs, every frame that has been broadcast gets to every interface it is meant for.
module NetworkProgress {
  import opened Tasks
  import opened ExecutorProtocol
  import opened ExecutorOrder
  import opened ExecutorTermination
  import opened ExecutorProgress
  import opened NetworkProtocol
  import opened NetworkOrder
  import opened NetworkCalls
  import opened NetworkDriving

  lemma BusWorks(w: Wiring, n: Net)
    requires NetReachable(w, n) && n.closing.Open?
    ensures Working(n.bus)
  {
    ReachableDraining(w, n);
    ReachableOwnRuns(w, n);
    LivesAlways(n.bus);
  }

  lemma BusMoves(w: Wiring, n: Net, l: Label<Transmit>, next: State<Transmit>) returns (n': Net)
    requires NetReachable(w, n) && n.closing.Open? && WorkerStep(l) && Step(n.bus, l, next)
    ensures Leads(w, n, n') && n'.closing.Open? && n'.bus == next
  {
    if BatchLabel(l) {
      n' := BusBatchStep(w, n, l, next);
    } else {
      n' := n.(bus := next);
      LeadsOnce(w, n, BusStep(l), n');
    }
  }

  // One step of the bus, after the wait it may have to sit out and the deliveries it may owe.
  lemma BusAdvances(w: Wiring, n: Net, t: Task<Transmit>) returns (n': Net)
    requires NetReachable(w, n) && n.closing.Open? && Awaits(n.bus, t)
    ensures Leads(w, n, n') && n'.closing.Open? && WorkLeft(n'.bus) < WorkLeft(n.bus)
    ensures Awaits(n'.bus, t) || JustBegun(n'.bus, t)
  {
    BusWorks(w, n);
    var passed := UntilDeadline(n.bus);
    var l, next := NextStep(n.bus, t);
    var later := n.(bus := Later(n.bus, passed));
    LeadsOnce(w, n, BusStep(Tick(passed)), later);
    assert Step(n.bus, Tick(passed), later.bus);
    WorkingAfter(n.bus, Tick(passed), later.bus);
    TickKeepsWork(n.bus, passed);
    StepUsesWorkAnyway(later.bus, l, next);
    TaskAfterStep(later.bus, l, next, t);
    StaysReachable(w, n, later);
    n' := BusMoves(w, later, l, next);
    LeadsFurther(w, n, later, n');
  }

  lemma {:induction false} BusBegins(w: Wiring, n: Net, t: Task<Transmit>) returns (n': Net)
    requires NetReachable(w, n) && n.closing.Open? && Awaits(n.bus, t)
    ensures Leads(w, n, n') && n'.closing.Open? && JustBegun(n'.bus, t)
    decreases WorkLeft(n.bus)
  {
    var next := BusAdvances(w, n, t);
    if JustBegun(next.bus, t) {
      return next;
    }
    StaysReachable(w, n, next);
    n' := BusBegins(w, next, t);
    LeadsFurther(w, n, next, n');
  }

  // The frame has been offered to every interface.
  lemma BusOffers(w: Wiring, n: Net, t: Task<Transmit>) returns (n': Net)
    requires NetReachable(w, n) && n.closing.Open? && Awaits(n.bus, t)
    ensures Leads(w, n, n') && NetReachable(w, n') && n'.closing.Open?
    ensures n'.bus.worker.Acting? && n'.bus.worker.task == t && n'.served == |w.owner|
    ensures t in TasksOf(n'.bus.started)
  {
    var begun := BusBegins(w, n, t);
    StaysReachable(w, n, begun);
    ReachableOrdered(w, begun);
    n' := OffersAll(w, begun);
    LeadsFurther(w, n, begun, n');
    StaysReachable(w, n, n');
    var k :| 0 <= k < |n'.bus.started| && n'.bus.started[k] == Start(t, n'.bus.clock);
    assert TasksOf(n'.bus.started)[k] == t;
  }

  lemma {:induction false} ReceivedMember(i: nat, ts: seq<Task<HostAction>>, f: Task<Transmit>)
    ensures f in Received(i, ts) <==> exists u :: u in ts && u.action == Input(i, f)
  {
    if ts != [] {
      var front, last := ts[..|ts| - 1], ts[|ts| - 1];
      assert ts == front + [last];
      ReceivedMember(i, front, f);
    }
  }

  // The host has accepted the delivery of the frame.
  lemma DeliveryAccepted(w: Wiring, n: Net, t: Task<Transmit>, i: nat) returns (u: Task<HostAction>)
    requires NetReachable(w, n) && i < |w.owner| && Offered(w, t.action, i)
    requires n.bus.worker.Acting? && n.served == |w.owner| && t in TasksOf(n.bus.started)
    ensures w.owner[i] < |n.hosts| && u in n.hosts[w.owner[i]].accepted && u.action == Input(i, t)
  {
    ReachableOrdered(w, n);
    var accepted := n.hosts[w.owner[i]].accepted;
    assert Handled(n, i) == TasksOf(n.bus.started);
    SelectMember(For(w, i), TasksOf(n.bus.started), t);
    ReceivedMember(i, accepted, t);
    u :| u in accepted && u.action == Input(i, t);
  }

  // A delivery has begun, or waits for its turn: nobody cancels it.
  lemma DeliveryAwaits(s: State<HostAction>, u: Task<HostAction>)
    requires HostSteady(s) && u in s.accepted && IsInput(u.action)
    ensures u in TasksOf(s.started) || Awaits(s, u)
  {
    var id :| 0 <= id < |s.accepted| && s.accepted[id] == u;
    if Ran(s.futures[id]) {
      var k :| 0 <= k < |s.started| && s.started[k].task.id == id;
      assert Known(s, s.started[k].task);
      assert TasksOf(s.started)[k] == u;
    }
  }

  // Progress of the network: from every reachable state before the shutdown, some run inputs a frame
  // that the bus has accepted and not yet taken up to each interface it is meant for.
  lemma FrameGetsThrough(w: Wiring, n: Net, t: Task<Transmit>, i: nat) returns (n': Net)
    requires NetReachable(w, n) && n.closing.Open? && Awaits(n.bus, t)
    requires i < |w.owner| && Offered(w, t.action, i)
    ensures Leads(w, n, n') && w.owner[i] < |n'.hosts| && t in InputTo(w, n', i)
  {
    var offered := BusOffers(w, n, t);
    var u := DeliveryAccepted(w, offered, t, i);
    var h := w.owner[i];
    HostDelivers(w, offered, h);
    DeliveryAwaits(offered.hosts[h], u);
    if u in TasksOf(offered.hosts[h].started) {
      n' := offered;
    } else {
      var s' := Begins(offered.hosts[h], u);
      HostAlone(w, offered, h, s');
      n' := WithHost(offered, h, s');
      LeadsFurther(w, n, offered, n');
      var k :| 0 <= k < |s'.started| && s'.started[k] == Start(u, s'.clock);
      assert TasksOf(s'.started)[k] == u;
    }
    ReceivedMember(i, TasksOf(n'.hosts[h].started), t);
  }

  lemma HostDelivers(w: Wiring, n: Net, h: nat)
    requires NetReachable(w, n) && n.closing.Open? && h < |n.hosts|
    ensures HostSteady(n.hosts[h]) && Working(n.hosts[h])
  {
    HostsTakeDeliveries(w, n, h);
    ReachableOrdered(w, n);
    ReachableOwnRuns(w, n);
    LivesAlways(n.hosts[h]);
  }
}
