// The emulated Ethernet: the executor of the bus feeds the executor of each host, and the network
// stops them in order. One step system over the executors' own steps.
module NetworkProtocol {
  import opened Tasks
  import opened ExecutorProtocol

  type Data = seq<nat>

  // EthernetBus._broadcast with its arguments
  datatype Transmit = Transmit(source: nat, data: Data)

  // NetIf.input_data for a frame from the bus, or any other action run on a host
  datatype HostAction = Input(iface: nat, frame: Task<Transmit>) | Other(n: nat)

  // Interfaces are numbered in the order they joined the bus; `owner[i]` is the host of interface i.
  // `accepts` is the conjunction of the bus filters.
  datatype Wiring = Wiring(owner: seq<nat>, hosts: nat, accepts: Transmit -> bool)

  ghost predicate Wired(w: Wiring) {
    forall i :: 0 <= i < |w.owner| ==> w.owner[i] < w.hosts
  }

  // EthernetNetwork.stop: the bus is stopped and joined, then each host in turn.
  datatype Closing =
    | Open
    | BusEnding | BusJoining
    | HostBegin(k: nat) | HostEnding(k: nat) | HostJoining(k: nat)
    | Closed

  datatype Net = Net(
    bus: State<Transmit>,
    hosts: seq<State<HostAction>>,
    served: nat,          // interfaces the frame under way has been offered to
    rejected: bool,       // some delivery met a stopped host
    closing: Closing)

  datatype NetLabel =
    | BusStep(bl: Label<Transmit>)
    | Broadcast(source: nat, data: Data)
    | Deliver
    | BusComplete
    | HostStep(h: nat, hl: Label<HostAction>)
    | Main

  ghost predicate Init(w: Wiring, n: Net) {
    && Wired(w) && |n.hosts| == w.hosts && n.served == 0 && !n.rejected && n.closing == Open
    && ExecutorProtocol.Init(n.bus)
    && forall h :: 0 <= h < |n.hosts| ==> ExecutorProtocol.Init(n.hosts[h])
  }

  // Steps of the bus executor other than its clients' calls and the end of an action.
  predicate BusOwn(l: Label<Transmit>) {
    !l.Accept? && !l.CancelFuture? && !l.BeginStop? && !l.EndStop? && !l.Complete?
  }

  // Steps of a host executor other than deliveries and stop. The future of a delivery is dropped by
  // on_incoming_data, so only other tasks can be cancelled.
  predicate HostOwn(s: State<HostAction>, l: Label<HostAction>) {
    && !l.BeginStop? && !l.EndStop?
    && (l.Accept? ==> l.action.Other?)
    && (l.CancelFuture? ==> l.id < |s.accepted| && s.accepted[l.id].action.Other?)
  }

  // Every task of the bus is a broadcast.
  predicate IsTransmit(a: Transmit) {
    true
  }

  predicate IsInput(a: HostAction) {
    a.Input?
  }

  // The clock read of an immediate task is later than those of the earlier ones.
  ghost predicate FreshRead<A>(p: A -> bool, s: State<A>) {
    forall i :: 0 <= i < |s.accepted| && p(s.accepted[i].action) ==> s.accepted[i].absTime < s.clock
  }

  predicate Offered(w: Wiring, f: Transmit, i: nat) {
    w.accepts(f) && f.source != i
  }

  ghost predicate DeliverStep(w: Wiring, n: Net, n': Net) {
    && n.bus.worker.Acting? && n.served < |w.owner| && w.owner[n.served] < |n.hosts|
    && var i, frame := n.served, n.bus.worker.task;
       var h := w.owner[i];
       if !Offered(w, frame.action, i) then n' == n.(served := i + 1)
       else if n.hosts[h].status == Running then
         && |n'.hosts| == |n.hosts|
         && FreshRead(IsInput, n.hosts[h])
         && Step(n.hosts[h], Accept(0.0, 0, Input(i, frame)), n'.hosts[h])
         && n' == n.(served := i + 1, hosts := n.hosts[h := n'.hosts[h]])
       else
         // schedule_delayed raises Stopped, which ends the loop of _broadcast
         LockFree(n.hosts[h]) && n' == n.(served := |w.owner|, rejected := true)
  }

  ghost predicate MainStep(w: Wiring, n: Net, n': Net) {
    match n.closing
    case Open => Step(n.bus, BeginStop(true), n'.bus) && n' == n.(bus := n'.bus, closing := BusEnding)
    case BusEnding => Step(n.bus, EndStop, n'.bus) && n' == n.(bus := n'.bus, closing := BusJoining)
    case BusJoining =>
      n.bus.worker.Exited? && n' == n.(closing := if |n.hosts| == 0 then Closed else HostBegin(0))
    case HostBegin(k) =>
      && k < |n.hosts| && |n'.hosts| == |n.hosts| && Step(n.hosts[k], BeginStop(true), n'.hosts[k])
      && n' == n.(hosts := n.hosts[k := n'.hosts[k]], closing := HostEnding(k))
    case HostEnding(k) =>
      && k < |n.hosts| && |n'.hosts| == |n.hosts| && Step(n.hosts[k], EndStop, n'.hosts[k])
      && n' == n.(hosts := n.hosts[k := n'.hosts[k]], closing := HostJoining(k))
    case HostJoining(k) =>
      && k < |n.hosts| && n.hosts[k].worker.Exited?
      && n' == n.(closing := if k + 1 == |n.hosts| then Closed else HostBegin(k + 1))
    case Closed => false
  }

  ghost predicate NetStep(w: Wiring, n: Net, l: NetLabel, n': Net) {
    match l
    case BusStep(bl) => BusOwn(bl) && Step(n.bus, bl, n'.bus) && n' == n.(bus := n'.bus)
    case Broadcast(source, data) =>
      && FreshRead(IsTransmit, n.bus) && Step(n.bus, Accept(0.0, 0, Transmit(source, data)), n'.bus)
      && n' == n.(bus := n'.bus)
    case Deliver => DeliverStep(w, n, n')
    case BusComplete =>
      && n.bus.worker.Acting? && (n.served >= |w.owner| || !w.accepts(n.bus.worker.task.action))
      && Step(n.bus, Complete, n'.bus) && n' == n.(bus := n'.bus, served := 0)
    case HostStep(h, hl) =>
      && h < |n.hosts| && |n'.hosts| == |n.hosts| && HostOwn(n.hosts[h], hl)
      && Step(n.hosts[h], hl, n'.hosts[h]) && n' == n.(hosts := n.hosts[h := n'.hosts[h]])
    case Main => MainStep(w, n, n')
  }

  ghost function InitOf(w: Wiring): Net -> bool {
    n => Init(w, n)
  }

  ghost function NextOf(w: Wiring): (Net, Net) -> bool {
    (n, n') => exists l :: NetStep(w, n, l, n')
  }
}

// Shutdown order: no delivery ever meets a stopped host.
module NetworkShutdown {
  import opened Runs
  import opened ExecutorProtocol
  import opened NetworkProtocol

  predicate BusMayWork(c: Closing) {
    c.Open? || c.BusEnding? || c.BusJoining?
  }

  ghost predicate Orderly(w: Wiring, n: Net) {
    && Wired(w) && |n.hosts| == w.hosts && !n.rejected
    && (BusMayWork(n.closing) ==> forall h :: 0 <= h < |n.hosts| ==> n.hosts[h].status == Running && n.hosts[h].stopper.NoStop?)
    && (!BusMayWork(n.closing) ==> n.bus.worker.Exited?)
  }

  lemma RunningUntilStopped<A>(s: State<A>, l: Label<A>, s': State<A>)
    requires s.status == Running && s.stopper.NoStop? && !l.BeginStop? && Step(s, l, s')
    ensures s'.status == Running && s'.stopper.NoStop?
  {
  }

  lemma ExitedStays<A>(s: State<A>, l: Label<A>, s': State<A>)
    requires s.worker.Exited? && Step(s, l, s')
    ensures s'.worker.Exited?
  {
  }

  lemma StepKeepsOrderly(w: Wiring, n: Net, l: NetLabel, n': Net)
    requires Orderly(w, n) && NetStep(w, n, l, n')
    ensures Orderly(w, n')
  {
    match l {
      case BusStep(bl) =>
        if n.bus.worker.Exited? { ExitedStays(n.bus, bl, n'.bus); }
      case Broadcast(source, data) =>
        if n.bus.worker.Exited? { ExitedStays(n.bus, Accept(0.0, 0, Transmit(source, data)), n'.bus); }
      case HostStep(h, hl) =>
        if BusMayWork(n.closing) { RunningUntilStopped(n.hosts[h], hl, n'.hosts[h]); }
      case Deliver =>
        var h := w.owner[n.served];
        if Offered(w, n.bus.worker.task.action, n.served) {
          RunningUntilStopped(n.hosts[h], Accept(0.0, 0, Input(n.served, n.bus.worker.task)), n'.hosts[h]);
        }
      case BusComplete =>
      case Main =>
        if n.bus.worker.Exited? && n.closing.BusEnding? { ExitedStays(n.bus, EndStop, n'.bus); }
    }
  }

  lemma OrderlyAlways(w: Wiring, tr: seq<Net>, i: nat)
    requires IsRun(InitOf(w), NextOf(w), tr) && i < |tr|
    ensures Orderly(w, tr[i])
  {
    var ok := n => Orderly(w, n);
    forall n, n' | ok(n) && NextOf(w)(n, n') ensures ok(n') {
      var l :| NetStep(w, n, l, n');
      StepKeepsOrderly(w, n, l, n');
    }
    InvariantAt(InitOf(w), NextOf(w), ok, tr, i);
  }

  // Safe shutdown: in every run, through network stop, no bus delivery is ever rejected, because
  // while the bus worker is alive every host is running.
  lemma NoDeliveryRejected(w: Wiring, tr: seq<Net>, i: nat)
    requires IsRun(InitOf(w), NextOf(w), tr) && i < |tr|
    ensures !tr[i].rejected
    ensures !tr[i].bus.worker.Exited? ==> forall h :: 0 <= h < |tr[i].hosts| ==> tr[i].hosts[h].status == Running
  {
    OrderlyAlways(w, tr, i);
  }
}

// Total-order broadcast.
module NetworkOrder {
  import opened Runs
  import opened Tasks
  import opened ExecutorProtocol
  import opened ExecutorOrder
  import opened NetworkProtocol
  import opened NetworkShutdown

  // The frames for interface i among tasks of its host, in the order of the tasks.
  function Received(i: nat, ts: seq<Task<HostAction>>): seq<Task<Transmit>> {
    if ts == [] then []
    else
      var last := ts[|ts| - 1];
      Received(i, ts[..|ts| - 1]) + if last.action.Input? && last.action.iface == i then [last.action.frame] else []
  }

  ghost function For(w: Wiring, i: nat): Transmit -> bool {
    (f: Transmit) => Offered(w, f, i)
  }

  // The frames the bus has finished offering to interface i.
  ghost function Handled(n: Net, i: nat): seq<Task<Transmit>> {
    var begun := TasksOf(n.bus.started);
    if n.bus.worker.Acting? && n.served <= i && begun != [] then begun[..|begun| - 1] else begun
  }

  ghost predicate Linked(w: Wiring, n: Net) {
    && (n.bus.worker.Acting? ==>
          n.bus.started != [] && n.bus.started[|n.bus.started| - 1].task == n.bus.worker.task)
    && (!n.bus.worker.Acting? ==> n.served == 0)
    && n.served <= |w.owner|
    && forall i :: 0 <= i < |w.owner| && w.owner[i] < |n.hosts| ==>
         Received(i, n.hosts[w.owner[i]].accepted) == Select(For(w, i), Handled(n, i))
  }

  ghost predicate Steadied(n: Net) {
    BusSteady(n.bus) && forall h :: 0 <= h < |n.hosts| ==> HostSteady(n.hosts[h])
  }

  ghost predicate Ordered(w: Wiring, n: Net) {
    Orderly(w, n) && Linked(w, n) && Steadied(n)
  }

  // ---------- executors stay steady ----------

  lemma AcceptedGrows<A>(s: State<A>, l: Label<A>, s': State<A>)
    requires Step(s, l, s')
    ensures !l.Accept? ==> s'.accepted == s.accepted && |s'.futures| == |s.futures| && s'.backdated == s.backdated
    ensures l.Accept? ==>
              && s'.accepted == s.accepted + [Task(|s.accepted|, s.clock + l.delay, l.priority, l.action)]
              && s'.futures == s.futures + [Pending]
              && s'.backdated == if l.delay < 0.0 then s.backdated + {|s.accepted|} else s.backdated
  {
  }

  lemma StaysUncancelled<A>(p: A -> bool, s: State<A>, l: Label<A>, s': State<A>, k: nat)
    requires Inv(s) && Steady(p, s) && Step(s, l, s')
    requires l.CancelFuture? && l.id < |s.accepted| ==> !p(s.accepted[l.id].action)
    requires k < |s'.accepted| && k < |s'.futures| && p(s'.accepted[k].action)
    ensures !s'.futures[k].IsCancelled()
  {
    AcceptedGrows(s, l, s');
    if k < |s.futures| {
      FutureEdges(s, l, s', k);
    }
  }

  // The part of being steady that only an acceptance touches.
  lemma StaysIncreasing<A>(p: A -> bool, s: State<A>, l: Label<A>, s': State<A>)
    requires Inv(s) && Steady(p, s) && Step(s, l, s')
    requires l.Accept? && p(l.action) ==> l.delay == 0.0 && FreshRead(p, s)
    ensures IncreasingOn(p, s'.accepted)
    ensures forall k :: 0 <= k < |s'.accepted| && p(s'.accepted[k].action) ==> k !in s'.backdated
  {
    AcceptedGrows(s, l, s');
  }

  lemma StaysSteady<A>(p: A -> bool, s: State<A>, l: Label<A>, s': State<A>)
    requires Inv(s) && Steady(p, s) && Step(s, l, s')
    requires l.CancelFuture? && l.id < |s.accepted| ==> !p(s.accepted[l.id].action)
    requires l.Accept? && p(l.action) ==> l.delay == 0.0 && FreshRead(p, s)
    ensures Inv(s') && Steady(p, s')
  {
    StepKeepsInv(s, l, s');
    StaysIncreasing(p, s, l, s');
    forall k | 0 <= k < |s'.accepted| && k < |s'.futures| && p(s'.accepted[k].action)
      ensures !s'.futures[k].IsCancelled()
    {
      StaysUncancelled(p, s, l, s', k);
    }
  }

  ghost predicate BusSteady(s: State<Transmit>) {
    Inv(s) && Steady(IsTransmit, s)
  }

  ghost predicate HostSteady(s: State<HostAction>) {
    Inv(s) && Steady(IsInput, s)
  }

  // The step of the bus executor, if any, inside a step of the network.
  lemma StepKeepsBusSteady(w: Wiring, n: Net, l: NetLabel, n': Net)
    requires BusSteady(n.bus) && NetStep(w, n, l, n')
    ensures BusSteady(n'.bus)
  {
    match l {
      case BusStep(bl) => StaysSteady(IsTransmit, n.bus, bl, n'.bus);
      case Broadcast(source, data) =>
        StaysSteady(IsTransmit, n.bus, Accept(0.0, 0, Transmit(source, data)), n'.bus);
      case BusComplete => StaysSteady(IsTransmit, n.bus, Complete, n'.bus);
      case HostStep(h, hl) =>
      case Deliver =>
      case Main =>
        if n.closing.Open? {
          StaysSteady(IsTransmit, n.bus, BeginStop(true), n'.bus);
        } else if n.closing.BusEnding? {
          StaysSteady(IsTransmit, n.bus, EndStop, n'.bus);
        }
    }
  }

  // A step of the network moves at most one host executor, by one of its own steps.
  ghost predicate OneHostMoves(n: Net, n': Net) {
    || n'.hosts == n.hosts
    || exists h, hl ::
         && 0 <= h < |n.hosts| && |n'.hosts| == |n.hosts| && n'.hosts == n.hosts[h := n'.hosts[h]]
         && HostMoves(n.hosts[h], hl, n'.hosts[h])
  }

  ghost predicate HostMoves(s: State<HostAction>, l: Label<HostAction>, s': State<HostAction>) {
    && Step(s, l, s')
    && (l.CancelFuture? ==> l.id < |s.accepted| && s.accepted[l.id].action.Other?)
    && (l.Accept? && l.action.Input? ==> l.delay == 0.0 && FreshRead(IsInput, s))
  }

  lemma HostsMoveAlone(w: Wiring, n: Net, l: NetLabel, n': Net)
    requires NetStep(w, n, l, n')
    ensures OneHostMoves(n, n')
  {
    match l {
      case HostStep(h, hl) => assert HostMoves(n.hosts[h], hl, n'.hosts[h]);
      case Deliver =>
        var i, frame := n.served, n.bus.worker.task;
        var h := w.owner[i];
        if Offered(w, frame.action, i) && n.hosts[h].status == Running {
          assert HostMoves(n.hosts[h], Accept(0.0, 0, Input(i, frame)), n'.hosts[h]);
        }
      case Main =>
        if n.closing.HostBegin? {
          assert HostMoves(n.hosts[n.closing.k], BeginStop(true), n'.hosts[n.closing.k]);
        } else if n.closing.HostEnding? {
          assert HostMoves(n.hosts[n.closing.k], EndStop, n'.hosts[n.closing.k]);
        }
      case _ =>
    }
  }

  lemma StepKeepsSteadied(w: Wiring, n: Net, l: NetLabel, n': Net)
    requires Steadied(n) && NetStep(w, n, l, n')
    ensures Steadied(n')
  {
    StepKeepsBusSteady(w, n, l, n');
    HostsMoveAlone(w, n, l, n');
    if n'.hosts != n.hosts {
      var h, hl :|
        && 0 <= h < |n.hosts| && |n'.hosts| == |n.hosts| && n'.hosts == n.hosts[h := n'.hosts[h]]
        && HostMoves(n.hosts[h], hl, n'.hosts[h]);
      assert HostSteady(n.hosts[h]);
      StaysSteady(IsInput, n.hosts[h], hl, n'.hosts[h]);
      forall g | 0 <= g < |n'.hosts|
        ensures HostSteady(n'.hosts[g])
      {
        assert g != h ==> n'.hosts[g] == n.hosts[g] && HostSteady(n.hosts[g]);
      }
    }
  }

  // ---------- deliveries follow the bus ----------

  lemma ReceivedAppend(i: nat, ts: seq<Task<HostAction>>, t: Task<HostAction>)
    ensures Received(i, ts + [t]) ==
            Received(i, ts) + if t.action.Input? && t.action.iface == i then [t.action.frame] else []
  {
    assert (ts + [t])[..|ts|] == ts;
  }

  // What a step of the bus executor does to the frames begun and under way.
  lemma BusProgress(s: State<Transmit>, l: Label<Transmit>, s': State<Transmit>)
    requires Step(s, l, s')
    ensures !l.TakeTask? ==> s'.started == s.started
    ensures !l.TakeTask? && !l.Complete? ==> s'.worker.Acting? == s.worker.Acting?
    ensures !l.TakeTask? && s'.worker.Acting? ==> s'.worker == s.worker
    ensures l.TakeTask? ==> !s.worker.Acting?
    ensures l.TakeTask? && s'.worker.Acting? ==>
              |s'.started| == |s.started| + 1 && s'.started[..|s.started|] == s.started
              && s'.started[|s.started|].task == s'.worker.task
    ensures l.TakeTask? && !s'.worker.Acting? ==> s'.started == s.started
    ensures l.Complete? ==> !s'.worker.Acting?
  {
  }

  lemma BusStepKeepsLinked(w: Wiring, n: Net, l: Label<Transmit>, n': Net)
    requires Linked(w, n) && !l.Complete? && Step(n.bus, l, n'.bus)
    requires n'.hosts == n.hosts && n'.served == n.served
    ensures Linked(w, n')
  {
    BusProgress(n.bus, l, n'.bus);
    forall i: nat
      ensures Handled(n', i) == Handled(n, i)
    {
      var begun, begun' := TasksOf(n.bus.started), TasksOf(n'.bus.started);
      if l.TakeTask? && n'.bus.worker.Acting? {
        assert begun'[..|begun'| - 1] == begun;
      }
    }
  }

  // A frame is offered to each interface in turn before the bus goes on.
  lemma CompleteKeepsLinked(w: Wiring, n: Net, n': Net)
    requires Linked(w, n) && NetStep(w, n, BusComplete, n')
    ensures Linked(w, n')
  {
    BusProgress(n.bus, Complete, n'.bus);
    var begun := TasksOf(n.bus.started);
    var frame := n.bus.worker.task;
    assert begun[|begun| - 1] == frame;
    forall i | 0 <= i < |w.owner|
      ensures Select(For(w, i), Handled(n', i)) == Select(For(w, i), Handled(n, i))
    {
      assert Handled(n', i) == begun;
    }
  }

  lemma DeliverKeepsLinked(w: Wiring, n: Net, n': Net)
    requires Orderly(w, n) && Linked(w, n) && DeliverStep(w, n, n')
    ensures Linked(w, n')
  {
    var s, frame := n.served, n.bus.worker.task;
    var h := w.owner[s];
    var begun := TasksOf(n.bus.started);
    assert begun[|begun| - 1] == frame;
    assert Handled(n, s) == begun[..|begun| - 1] && Handled(n', s) == begun;
    assert Select(For(w, s), begun) ==
           Select(For(w, s), Handled(n, s)) + if Offered(w, frame.action, s) then [frame] else [];
    forall i | 0 <= i < |w.owner|
      ensures Received(i, n'.hosts[w.owner[i]].accepted) == Select(For(w, i), Handled(n', i))
    {
      if i != s {
        assert Handled(n', i) == Handled(n, i);
      }
      if Offered(w, frame.action, s) && w.owner[i] == h {
        var t := Task(|n.hosts[h].accepted|, n.hosts[h].clock + 0.0, 0, Input(s, frame));
        assert n'.hosts[h].accepted == n.hosts[h].accepted + [t];
        ReceivedAppend(i, n.hosts[h].accepted, t);
      }
    }
  }

  lemma HostStepKeepsLinked(w: Wiring, n: Net, h: nat, l: Label<HostAction>, n': Net)
    requires Linked(w, n) && h < |n.hosts| && |n'.hosts| == |n.hosts| && Step(n.hosts[h], l, n'.hosts[h])
    requires l.Accept? ==> l.action.Other?
    requires n'.hosts == n.hosts[h := n'.hosts[h]] && n'.bus == n.bus && n'.served == n.served
    ensures Linked(w, n')
  {
    var before, after := n.hosts[h].accepted, n'.hosts[h].accepted;
    forall i: nat
      ensures Received(i, after) == Received(i, before)
    {
      if l.Accept? {
        var t := Task(|before|, n.hosts[h].clock + l.delay, l.priority, l.action);
        assert after == before + [t];
        ReceivedAppend(i, before, t);
      }
    }
    forall i: nat
      ensures Handled(n', i) == Handled(n, i)
    {
    }
  }

  lemma SameExecutorsKeepLinked(w: Wiring, n: Net, n': Net)
    requires Linked(w, n) && n'.bus == n.bus && n'.hosts == n.hosts && n'.served == n.served
    ensures Linked(w, n')
  {
    forall i: nat
      ensures Handled(n', i) == Handled(n, i)
    {
    }
  }

  lemma StepKeepsLinked(w: Wiring, n: Net, l: NetLabel, n': Net)
    requires Orderly(w, n) && Linked(w, n) && NetStep(w, n, l, n')
    ensures Linked(w, n')
  {
    match l {
      case BusStep(bl) => BusStepKeepsLinked(w, n, bl, n');
      case Broadcast(source, data) =>
        BusStepKeepsLinked(w, n, Accept(0.0, 0, Transmit(source, data)), n');
      case BusComplete => CompleteKeepsLinked(w, n, n');
      case HostStep(h, hl) => HostStepKeepsLinked(w, n, h, hl, n');
      case Deliver => DeliverKeepsLinked(w, n, n');
      case Main =>
        match n.closing {
          case Open => BusStepKeepsLinked(w, n, BeginStop(true), n');
          case BusEnding => BusStepKeepsLinked(w, n, EndStop, n');
          case HostBegin(k) => HostStepKeepsLinked(w, n, k, BeginStop(true), n');
          case HostEnding(k) => HostStepKeepsLinked(w, n, k, EndStop, n');
          case BusJoining => SameExecutorsKeepLinked(w, n, n');
          case HostJoining(_) => SameExecutorsKeepLinked(w, n, n');
          case Closed =>
        }
    }
  }

  lemma InitSteady<A>(p: A -> bool, s: State<A>)
    requires ExecutorProtocol.Init(s)
    ensures Inv(s) && Steady(p, s)
  {
  }

  lemma InitOrdered(w: Wiring, n: Net)
    requires NetworkProtocol.Init(w, n)
    ensures Ordered(w, n)
  {
    InitSteady(IsTransmit, n.bus);
    forall h | 0 <= h < |n.hosts|
      ensures HostSteady(n.hosts[h])
    {
      InitSteady(IsInput, n.hosts[h]);
    }
  }

  lemma NextKeepsOrdered(w: Wiring, n: Net, n': Net)
    requires Ordered(w, n) && NextOf(w)(n, n')
    ensures Ordered(w, n')
  {
    var l :| NetStep(w, n, l, n');
    StepKeepsOrderly(w, n, l, n');
    StepKeepsLinked(w, n, l, n');
    StepKeepsSteadied(w, n, l, n');
  }

  lemma OrderedAlways(w: Wiring, tr: seq<Net>, k: nat)
    requires IsRun(InitOf(w), NextOf(w), tr) && k < |tr|
    ensures Ordered(w, tr[k])
  {
    var ok := n => Ordered(w, n);
    forall n | InitOf(w)(n) ensures ok(n) { InitOrdered(w, n); }
    forall n, n' | ok(n) && NextOf(w)(n, n') ensures ok(n') { NextKeepsOrdered(w, n, n'); }
    InvariantAt(InitOf(w), NextOf(w), ok, tr, k);
  }

  // ---------- the theorem ----------

  // The frames whose input on interface i has begun, in that order.
  ghost function InputTo(w: Wiring, n: Net, i: nat): seq<Task<Transmit>>
    requires i < |w.owner| && w.owner[i] < |n.hosts|
  {
    Received(i, TasksOf(n.hosts[w.owner[i]].started))
  }

  // The frames interface i should see: those the filters accept from another interface, in the
  // order of the calls of EthernetBus.broadcast.
  ghost function Expected(w: Wiring, n: Net, i: nat): seq<Task<Transmit>> {
    Select(For(w, i), n.bus.accepted)
  }

  lemma {:induction false} ReceivedOfSelect(i: nat, ts: seq<Task<HostAction>>)
    ensures Received(i, Select(IsInput, ts)) == Received(i, ts)
  {
    if ts != [] {
      var front, last := ts[..|ts| - 1], ts[|ts| - 1];
      ReceivedOfSelect(i, front);
      if IsInput(last.action) {
        ReceivedAppend(i, Select(IsInput, front), last);
      } else {
        assert Select(IsInput, ts) == Select(IsInput, front);
      }
    }
  }

  lemma {:induction false} ReceivedPrefix(i: nat, a: seq<Task<HostAction>>, b: seq<Task<HostAction>>)
    requires a <= b
    ensures Received(i, a) <= Received(i, b)
    decreases b
  {
    if a != b {
      ReceivedPrefix(i, a, b[..|b| - 1]);
    }
  }

  lemma {:induction false} SelectPrefix<A>(p: A -> bool, a: seq<Task<A>>, b: seq<Task<A>>)
    requires a <= b
    ensures Select(p, a) <= Select(p, b)
    decreases b
  {
    if a != b {
      SelectPrefix(p, a, b[..|b| - 1]);
    }
  }

  lemma {:induction false} SelectAll(ts: seq<Task<Transmit>>)
    ensures Select(IsTransmit, ts) == ts
  {
    if ts != [] {
      SelectAll(ts[..|ts| - 1]);
      assert ts == ts[..|ts| - 1] + [ts[|ts| - 1]];
    }
  }

  lemma InputsAreDeliveries(host: State<HostAction>, i: nat)
    requires HostSteady(host)
    ensures Received(i, TasksOf(host.started)) <= Received(i, host.accepted)
  {
    BeginInOrder(IsInput, host);
    ReceivedPrefix(i, Select(IsInput, TasksOf(host.started)), Select(IsInput, host.accepted));
    ReceivedOfSelect(i, TasksOf(host.started));
    ReceivedOfSelect(i, host.accepted);
  }

  lemma BegunAreBroadcast(bus: State<Transmit>)
    requires BusSteady(bus)
    ensures TasksOf(bus.started) <= bus.accepted
  {
    BeginInOrder(IsTransmit, bus);
    SelectAll(TasksOf(bus.started));
    SelectAll(bus.accepted);
  }

  lemma OrderedGivesPrefix(w: Wiring, n: Net, i: nat)
    requires Ordered(w, n) && i < |w.owner|
    ensures InputTo(w, n, i) <= Expected(w, n, i)
  {
    assert HostSteady(n.hosts[w.owner[i]]);
    InputsAreDeliveries(n.hosts[w.owner[i]], i);
    BegunAreBroadcast(n.bus);
    assert Handled(n, i) <= TasksOf(n.bus.started);
    SelectPrefix(For(w, i), Handled(n, i), n.bus.accepted);
  }

  // Total-order broadcast: at every moment of every run the frames input to an interface are a
  // prefix of the accepted frames from other interfaces, in broadcast order.
  lemma TotalOrderBroadcast(w: Wiring, tr: seq<Net>, k: nat, i: nat)
    requires IsRun(InitOf(w), NextOf(w), tr) && k < |tr| && i < |w.owner|
    ensures w.owner[i] < |tr[k].hosts|
    ensures InputTo(w, tr[k], i) <= Expected(w, tr[k], i)
  {
    OrderedAlways(w, tr, k);
    OrderedGivesPrefix(w, tr[k], i);
  }

  ghost function NotFrom(j: nat): Transmit -> bool {
    (f: Transmit) => f.source != j
  }

  lemma SelectTwiceLast(w: Wiring, front: seq<Task<Transmit>>, last: Task<Transmit>, i: nat, j: nat)
    ensures Select(NotFrom(j), Select(For(w, i), front + [last])) ==
            Select(NotFrom(j), Select(For(w, i), front))
            + if w.accepts(last.action) && last.action.source != i && last.action.source != j then [last] else []
  {
    SelectAppend(For(w, i), front, last);
    if Offered(w, last.action, i) {
      SelectAppend(NotFrom(j), Select(For(w, i), front), last);
    } else {
      assert Select(For(w, i), front + [last]) == Select(For(w, i), front);
    }
  }

  lemma {:induction false} SelectTwice(w: Wiring, ts: seq<Task<Transmit>>, i: nat, j: nat)
    ensures Select(NotFrom(j), Select(For(w, i), ts)) == Select(NotFrom(i), Select(For(w, j), ts))
  {
    if ts != [] {
      var front, last := ts[..|ts| - 1], ts[|ts| - 1];
      SelectTwice(w, front, i, j);
      SelectTwiceLast(w, front, last, i, j);
      SelectTwiceLast(w, front, last, j, i);
      assert ts == front + [last];
    }
  }

  // Any two interfaces agree on the order of the frames they share: of the frames from neither of
  // them, one has seen a prefix of what the other has seen.
  lemma InterfacesAgree(w: Wiring, tr: seq<Net>, k: nat, i: nat, j: nat)
    requires IsRun(InitOf(w), NextOf(w), tr) && k < |tr| && i < |w.owner| && j < |w.owner|
    ensures w.owner[i] < |tr[k].hosts| && w.owner[j] < |tr[k].hosts|
    ensures var atI := Select(NotFrom(j), InputTo(w, tr[k], i));
            var atJ := Select(NotFrom(i), InputTo(w, tr[k], j));
            atI <= atJ || atJ <= atI
  {
    TotalOrderBroadcast(w, tr, k, i);
    TotalOrderBroadcast(w, tr, k, j);
    SelectPrefix(NotFrom(j), InputTo(w, tr[k], i), Expected(w, tr[k], i));
    SelectPrefix(NotFrom(i), InputTo(w, tr[k], j), Expected(w, tr[k], j));
    SelectTwice(w, tr[k].bus.accepted, i, j);
  }
}
