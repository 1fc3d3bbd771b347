// What an orderly shutdown delivers: the drain of every executor and the order of the broadcast
// put together.
module NetworkDelivery {
  import opened Runs
  import opened Tasks
  import opened ExecutorProtocol
  import opened ExecutorOrder
  import opened ExecutorTermination
  import opened ExecutorDrain
  import opened NetworkProtocol
  import opened NetworkShutdown
  import opened NetworkOrder

  // ---------- one executor ----------

  // A steady task that has not begun when `run` has returned was queued at the stop and left unrun.
  lemma NotBegunIsLeft<A>(p: A -> bool, s: State<A>, t: Task<A>)
    requires Drains(s) && Steady(p, s) && s.worker.Exited? && |s.stops| == 1
    requires t in s.accepted && p(t.action) && t !in TasksOf(s.started)
    ensures t in LeftUnrun(s, s.stops[0])
  {
    var id :| 0 <= id < |s.accepted| && s.accepted[id] == t;
    assert t.id == id && !s.futures[id].IsCancelled();
    var ts := TasksOf(s.started);
    forall m | 0 <= m < |s.started|
      ensures s.started[m].task.id != id
    {
      assert Known(s, s.started[m].task);
      assert ts[m] == s.started[m].task && ts[m] in ts;
    }
    assert id !in StartedIds(s.started);
    assert s.accepted[id] in s.queue;
  }

  ghost function LeftOf<A>(p: A -> bool, s: State<A>): set<Task<A>>
    requires |s.stops| == 1
  {
    set t | t in LeftUnrun(s, s.stops[0]) && p(t.action)
  }

  lemma LeftHasNotBegun<A>(p: A -> bool, s: State<A>, t: Task<A>)
    requires Drains(s) && |s.stops| == 1 && t in LeftOf(p, s)
    ensures t in Select(p, s.accepted) && t !in Select(p, TasksOf(s.started))
  {
    var r, ts := s.stops[0], TasksOf(s.started);
    assert t in r.queued + r.inFlight;
    assert Known(s, t) && t.id !in StartedIds(s.started);
    SelectMember(p, s.accepted, t);
    SelectMember(p, ts, t);
    forall m | 0 <= m < |ts|
      ensures ts[m] != t
    {
      assert s.started[m].task.id in StartedIds(s.started);
    }
  }

  // An entry beyond a prefix of an increasing sequence is not in the prefix.
  lemma BeyondPrefix<A>(begun: seq<Task<A>>, all: seq<Task<A>>, k: nat)
    requires begun <= all && Increasing(all) && |begun| <= k < |all|
    ensures all[k] !in begun
  {
    forall j | 0 <= j < |begun|
      ensures begun[j] != all[k]
    {
      assert begun[j] == all[j] && all[j].absTime < all[k].absTime;
    }
  }

  lemma MissingIsLeft<A(!new)>(p: A -> bool, s: State<A>, t: Task<A>)
    requires Drains(s) && Steady(p, s) && s.worker.Exited? && |s.stops| == 1
    requires t in Select(p, s.accepted) && t !in Select(p, TasksOf(s.started))
    ensures t in LeftOf(p, s)
  {
    SelectMember(p, s.accepted, t);
    SelectMember(p, TasksOf(s.started), t);
    NotBegunIsLeft(p, s, t);
  }

  lemma RestIsLeft<A(!new)>(p: A -> bool, s: State<A>, begun: seq<Task<A>>, all: seq<Task<A>>)
    requires Drains(s) && Steady(p, s) && s.worker.Exited? && |s.stops| == 1
    requires begun == Select(p, TasksOf(s.started)) && all == Select(p, s.accepted)
    requires begun <= all && Increasing(all)
    ensures forall t :: t in all[|begun|..] ==> t in LeftOf(p, s)
  {
    forall k | |begun| <= k < |all|
      ensures all[k] in LeftOf(p, s)
    {
      BeyondPrefix(begun, all, k);
      MissingIsLeft(p, s, all[k]);
    }
  }

  lemma LeftIsRest<A(!new)>(p: A -> bool, s: State<A>, begun: seq<Task<A>>, all: seq<Task<A>>)
    requires Drains(s) && |s.stops| == 1
    requires begun == Select(p, TasksOf(s.started)) && all == Select(p, s.accepted) && begun <= all
    ensures forall t :: t in LeftOf(p, s) ==> t in all[|begun|..]
  {
    assert all == begun + all[|begun|..];
    forall t | t in LeftOf(p, s)
      ensures t in all[|begun|..]
    {
      LeftHasNotBegun(p, s, t);
    }
  }

  // When `run` has returned, the steady tasks that have not begun are those left unrun.
  lemma MissingAreLeft<A(!new)>(p: A -> bool, s: State<A>)
    requires Drains(s) && Steady(p, s) && s.worker.Exited? && |s.stops| == 1
    ensures var begun, all := Select(p, TasksOf(s.started)), Select(p, s.accepted);
            begun <= all && forall t :: t in all[|begun|..] <==> t in LeftOf(p, s)
  {
    BeginInOrder(p, s);
    SelectIncreasing(p, s.accepted);
    var begun, all := Select(p, TasksOf(s.started)), Select(p, s.accepted);
    RestIsLeft(p, s, begun, all);
    LeftIsRest(p, s, begun, all);
  }

  lemma AccountOf<A(!new)>(p: A -> bool, s: State<A>)
    requires Drains(s) && Steady(p, s) && s.worker.Exited? && |s.stops| == 1
    ensures Select(p, TasksOf(s.started)) <= Select(p, s.accepted)
    ensures |Select(p, s.accepted)| == |Select(p, TasksOf(s.started))| + |LeftOf(p, s)|
  {
    MissingAreLeft(p, s);
    SelectIncreasing(p, s.accepted);
    var begun, all := Select(p, TasksOf(s.started)), Select(p, s.accepted);
    var missing := all[|begun|..];
    forall i, j | 0 <= i < j < |missing|
      ensures missing[i] != missing[j]
    {
      assert all[|begun| + i].absTime < all[|begun| + j].absTime;
    }
    DistinctSize(missing, LeftOf(p, s));
  }

  // ---------- the network ----------

  // Completed stops of the bus and of host h in a phase of the shutdown.
  function BusStops(c: Closing): nat {
    if c.Open? || c.BusEnding? then 0 else 1
  }

  predicate HostStopped(c: Closing, h: nat) {
    match c
    case HostBegin(k) => h < k
    case HostEnding(k) => h < k
    case HostJoining(k) => h <= k
    case Closed => true
    case _ => false
  }

  predicate HostExited(c: Closing, h: nat) {
    HostStopped(c, h) && !(c.HostJoining? && h == c.k)
  }

  ghost predicate StoppedAs<A>(s: State<A>, stopped: bool, ending: bool) {
    && (stopped ==> |s.stops| == 1 && s.stops[0].sync)
    && (!stopped ==> |s.stops| == 0)
    && (ending ==> s.stopper.Stop? && s.stopper.sync)
    && (!ending ==> s.stopper.NoStop?)
  }

  ghost predicate Draining(n: Net) {
    && Drains(n.bus) && StoppedAs(n.bus, BusStops(n.closing) == 1, n.closing.BusEnding?)
    && forall h :: 0 <= h < |n.hosts| ==> HostDraining(n.hosts[h], n.closing, h)
  }

  ghost predicate HostDraining(s: State<HostAction>, c: Closing, h: nat) {
    && Drains(s) && StoppedAs(s, HostStopped(c, h), c == HostEnding(h))
    && (HostExited(c, h) ==> s.worker.Exited?)
  }

  lemma KeepsStoppedAs<A>(s: State<A>, l: Label<A>, s': State<A>, stopped: bool, ending: bool)
    requires Drains(s) && StoppedAs(s, stopped, ending) && !l.BeginStop? && !l.EndStop? && Step(s, l, s')
    ensures Drains(s') && StoppedAs(s', stopped, ending)
    ensures s.worker.Exited? ==> s'.worker.Exited?
  {
    StepKeepsDrains(s, l, s');
  }

  lemma StopKeepsStoppedAs<A>(s: State<A>, l: Label<A>, s': State<A>)
    requires Drains(s) && (l == BeginStop(true) || l == EndStop) && Step(s, l, s')
    requires StoppedAs(s, false, l == EndStop)
    ensures Drains(s') && StoppedAs(s', l == EndStop, l != EndStop)
  {
    StepKeepsDrains(s, l, s');
  }

  lemma BusStepKeepsDraining(n: Net, l: Label<Transmit>, n': Net)
    requires Draining(n) && !l.BeginStop? && !l.EndStop? && Step(n.bus, l, n'.bus)
    requires n'.hosts == n.hosts && n'.closing == n.closing
    ensures Draining(n')
  {
    KeepsStoppedAs(n.bus, l, n'.bus, BusStops(n.closing) == 1, n.closing.BusEnding?);
  }

  lemma HostStepKeepsDraining(n: Net, h: nat, l: Label<HostAction>, n': Net)
    requires Draining(n) && h < |n.hosts| && |n'.hosts| == |n.hosts|
    requires !l.BeginStop? && !l.EndStop? && Step(n.hosts[h], l, n'.hosts[h])
    requires n'.hosts == n.hosts[h := n'.hosts[h]] && n'.bus == n.bus && n'.closing == n.closing
    ensures Draining(n')
  {
    assert HostDraining(n.hosts[h], n.closing, h);
    KeepsStoppedAs(n.hosts[h], l, n'.hosts[h], HostStopped(n.closing, h), n.closing == HostEnding(h));
  }

  lemma BusPhaseKeepsDraining(w: Wiring, n: Net, n': Net)
    requires Draining(n) && BusMayWork(n.closing) && MainStep(w, n, n')
    ensures Draining(n')
  {
    if n.closing.Open? {
      StopKeepsStoppedAs(n.bus, BeginStop(true), n'.bus);
    } else if n.closing.BusEnding? {
      StopKeepsStoppedAs(n.bus, EndStop, n'.bus);
    }
    forall h | 0 <= h < |n.hosts|
      ensures HostDraining(n'.hosts[h], n'.closing, h)
    {
      assert HostDraining(n.hosts[h], n.closing, h);
    }
  }

  // The two phases say the same of every one of `count` hosts but k.
  ghost predicate SameElsewhere(c: Closing, c': Closing, k: nat, count: nat) {
    forall h: nat :: h < count && h != k ==>
      && HostStopped(c', h) == HostStopped(c, h) && HostExited(c', h) == HostExited(c, h)
      && c != HostEnding(h) && c' != HostEnding(h)
  }

  lemma PhasesOfHost(k: nat, count: nat)
    ensures SameElsewhere(HostBegin(k), HostEnding(k), k, count)
    ensures SameElsewhere(HostEnding(k), HostJoining(k), k, count)
    ensures SameElsewhere(HostJoining(k), HostBegin(k + 1), k, count)
    ensures k + 1 == count ==> SameElsewhere(HostJoining(k), Closed, k, count)
  {
  }

  // The shutdown moves past host k; the others stay as they were.
  lemma PhaseOfOneHost(n: Net, k: nat, n': Net)
    requires Draining(n) && k < |n.hosts| && |n'.hosts| == |n.hosts| && n'.bus == n.bus
    requires n'.hosts == n.hosts[k := n'.hosts[k]] && HostDraining(n'.hosts[k], n'.closing, k)
    requires !BusMayWork(n.closing) && !BusMayWork(n'.closing)
    requires SameElsewhere(n.closing, n'.closing, k, |n.hosts|)
    ensures Draining(n')
  {
    forall h | 0 <= h < |n.hosts|
      ensures HostDraining(n'.hosts[h], n'.closing, h)
    {
      assert HostDraining(n.hosts[h], n.closing, h);
    }
  }

  lemma HostEnds(s: State<HostAction>, s': State<HostAction>, k: nat)
    requires HostDraining(s, HostEnding(k), k) && Step(s, EndStop, s')
    ensures HostDraining(s', HostJoining(k), k)
  {
    StopKeepsStoppedAs(s, EndStop, s');
  }

  lemma HostBegins(s: State<HostAction>, s': State<HostAction>, k: nat)
    requires HostDraining(s, HostBegin(k), k) && Step(s, BeginStop(true), s')
    ensures HostDraining(s', HostEnding(k), k)
  {
    StopKeepsStoppedAs(s, BeginStop(true), s');
  }

  lemma HostBeginKeepsDraining(w: Wiring, n: Net, n': Net)
    requires Draining(n) && n.closing.HostBegin? && MainStep(w, n, n')
    ensures Draining(n')
  {
    var k := n.closing.k;
    assert HostDraining(n.hosts[k], n.closing, k);
    HostBegins(n.hosts[k], n'.hosts[k], k);
    PhasesOfHost(k, |n.hosts|);
    PhaseOfOneHost(n, k, n');
  }

  lemma HostEndingKeepsDraining(w: Wiring, n: Net, n': Net)
    requires Draining(n) && n.closing.HostEnding? && MainStep(w, n, n')
    ensures Draining(n')
  {
    var k := n.closing.k;
    assert HostDraining(n.hosts[k], n.closing, k);
    HostEnds(n.hosts[k], n'.hosts[k], k);
    PhasesOfHost(k, |n.hosts|);
    PhaseOfOneHost(n, k, n');
  }

  lemma HostJoiningKeepsDraining(w: Wiring, n: Net, n': Net)
    requires Draining(n) && n.closing.HostJoining? && MainStep(w, n, n')
    ensures Draining(n')
  {
    var k := n.closing.k;
    assert HostDraining(n.hosts[k], n.closing, k);
    assert n'.hosts[k] == n.hosts[k] && n.hosts[k := n'.hosts[k]] == n.hosts;
    PhasesOfHost(k, |n.hosts|);
    PhaseOfOneHost(n, k, n');
  }

  lemma MainKeepsDraining(w: Wiring, n: Net, n': Net)
    requires Draining(n) && MainStep(w, n, n')
    ensures Draining(n')
  {
    match n.closing {
      case HostBegin(_) => HostBeginKeepsDraining(w, n, n');
      case HostEnding(_) => HostEndingKeepsDraining(w, n, n');
      case HostJoining(_) => HostJoiningKeepsDraining(w, n, n');
      case _ => BusPhaseKeepsDraining(w, n, n');
    }
  }

  lemma StepKeepsDraining(w: Wiring, n: Net, l: NetLabel, n': Net)
    requires Draining(n) && NetStep(w, n, l, n')
    ensures Draining(n')
  {
    match l {
      case BusStep(bl) => BusStepKeepsDraining(n, bl, n');
      case Broadcast(source, data) => BusStepKeepsDraining(n, Accept(0.0, 0, Transmit(source, data)), n');
      case BusComplete => BusStepKeepsDraining(n, Complete, n');
      case HostStep(h, hl) => HostStepKeepsDraining(n, h, hl, n');
      case Deliver =>
        var i, frame := n.served, n.bus.worker.task;
        if Offered(w, frame.action, i) && n.hosts[w.owner[i]].status == Running {
          HostStepKeepsDraining(n, w.owner[i], Accept(0.0, 0, Input(i, frame)), n');
        }
      case Main => MainKeepsDraining(w, n, n');
    }
  }

  lemma InitDrains<A>(s: State<A>)
    requires ExecutorProtocol.Init(s)
    ensures Drains(s) && StoppedAs(s, false, false)
  {
  }

  lemma InitDraining(w: Wiring, n: Net)
    requires NetworkProtocol.Init(w, n)
    ensures Draining(n)
  {
    InitDrains(n.bus);
    forall h | 0 <= h < |n.hosts|
      ensures HostDraining(n.hosts[h], n.closing, h)
    {
      InitDrains(n.hosts[h]);
    }
  }

  lemma DrainingAlways(w: Wiring, tr: seq<Net>, k: nat)
    requires IsRun(InitOf(w), NextOf(w), tr) && k < |tr|
    ensures Draining(tr[k])
  {
    forall n | InitOf(w)(n) ensures Draining(n) {
      InitDraining(w, n);
    }
    forall n, n' | Draining(n) && NextOf(w)(n, n') ensures Draining(n') {
      var l :| NetStep(w, n, l, n');
      StepKeepsDraining(w, n, l, n');
    }
    InvariantAt(InitOf(w), NextOf(w), Draining, tr, k);
  }

  lemma Narrower<A>(p: A -> bool, q: A -> bool, s: State<A>)
    requires Steady(p, s) && forall a :: q(a) ==> p(a)
    ensures Steady(q, s)
  {
  }

  ghost function OnIface(i: nat): HostAction -> bool {
    (a: HostAction) => a.Input? && a.iface == i
  }

  lemma {:induction false} ReceivedCount(i: nat, ts: seq<Task<HostAction>>)
    ensures |Received(i, ts)| == |Select(OnIface(i), ts)|
  {
    if ts != [] {
      ReceivedCount(i, ts[..|ts| - 1]);
    }
  }

  // The frames for interface i that the bus was left with.
  ghost function LostOnBus(w: Wiring, n: Net, i: nat): set<Task<Transmit>>
    requires |n.bus.stops| == 1
  {
    LeftOf(For(w, i), n.bus)
  }

  // The deliveries to interface i that its host was left with.
  ghost function LostOnHost(w: Wiring, n: Net, i: nat): set<Task<HostAction>>
    requires i < |w.owner| && w.owner[i] < |n.hosts| && |n.hosts[w.owner[i]].stops| == 1
  {
    LeftOf(OnIface(i), n.hosts[w.owner[i]])
  }

  lemma ClosedBus(w: Wiring, n: Net, i: nat)
    requires Ordered(w, n) && Draining(n) && n.closing.Closed?
    ensures |n.bus.stops| == 1 && n.bus.stops[0].sync && n.bus.worker.Exited?
    ensures |Expected(w, n, i)| == |Select(For(w, i), Handled(n, i))| + |LostOnBus(w, n, i)|
  {
    Narrower(IsTransmit, For(w, i), n.bus);
    AccountOf(For(w, i), n.bus);
  }

  lemma ClosedHost(w: Wiring, n: Net, i: nat)
    requires Ordered(w, n) && Draining(n) && n.closing.Closed? && i < |w.owner|
    ensures var host := n.hosts[w.owner[i]]; |host.stops| == 1 && host.stops[0].sync && host.worker.Exited?
    ensures |Select(For(w, i), Handled(n, i))| == |InputTo(w, n, i)| + |LostOnHost(w, n, i)|
  {
    var h := w.owner[i];
    var host := n.hosts[h];
    assert HostSteady(host) && HostDraining(host, n.closing, h);
    Narrower(IsInput, OnIface(i), host);
    AccountOf(OnIface(i), host);
    ReceivedCount(i, host.accepted);
    ReceivedCount(i, TasksOf(host.started));
  }

  // The account of an orderly shutdown: when network stop has returned, interface i has been given the
  // accepted frames from other interfaces in broadcast order, short at the end by exactly the frames
  // that the synchronous stops of the bus and of its host left unrun.
  lemma ShutdownAccount(w: Wiring, tr: seq<Net>, k: nat, i: nat)
    requires IsRun(InitOf(w), NextOf(w), tr) && k < |tr| && i < |w.owner| && tr[k].closing.Closed?
    ensures w.owner[i] < |tr[k].hosts| && |tr[k].bus.stops| == 1 && |tr[k].hosts[w.owner[i]].stops| == 1
    ensures InputTo(w, tr[k], i) <= Expected(w, tr[k], i)
    ensures |Expected(w, tr[k], i)| ==
            |InputTo(w, tr[k], i)| + |LostOnBus(w, tr[k], i)| + |LostOnHost(w, tr[k], i)|
  {
    OrderedAlways(w, tr, k);
    DrainingAlways(w, tr, k);
    OrderedGivesPrefix(w, tr[k], i);
    ClosedBus(w, tr[k], i);
    ClosedHost(w, tr[k], i);
  }

  lemma NobodyCancelled<A>(p: A -> bool, s: State<A>)
    requires Drains(s) && Steady(p, s) && |s.stops| == 1 && forall a :: p(a)
    ensures NoneCancelled(s, s.stops[0])
  {
    var r := s.stops[0];
    forall t | t in r.counted + r.inFlight
      ensures t !in CancelledOf(s, r.counted + r.inFlight)
    {
      assert t in r.queued + r.inFlight;
    }
  }

  // A stop that is not at risk, with nobody cancelling, leaves none of the tasks chosen by p.
  lemma NothingLeft<A(!new)>(p: A -> bool, s: State<A>)
    requires Drains(s) && s.worker.Exited? && |s.stops| == 1 && s.stops[0].sync
    requires NoneCancelled(s, s.stops[0]) && !AtRisk(s.stops[0])
    ensures LeftOf(p, s) == {}
  {
    LossIsSeparable(s);
  }

  // Every task of the bus is due when it is accepted, so all that a stop counts is due as well.
  ghost predicate TimelyBus(s: State<Transmit>) {
    && (forall k :: 0 <= k < |s.accepted| ==> s.accepted[k].absTime <= s.clock)
    && (forall k :: 0 <= k < |s.stops| ==> TimelyStop(s.stops[k]))
  }

  ghost predicate TimelyStop(r: StopRecord<Transmit>) {
    forall t :: t in r.counted ==> t.absTime <= r.at
  }

  lemma BusStepKeepsTimely(s: State<Transmit>, l: Label<Transmit>, s': State<Transmit>)
    requires Drains(s) && TimelyBus(s) && Step(s, l, s') && (l.Accept? ==> l.delay == 0.0)
    ensures TimelyBus(s')
  {
    AcceptedGrows(s, l, s');
    StopsGrow(s, l, s');
    if l.EndStop? {
      forall t | t in s.stopper.counted
        ensures t.absTime <= s.clock
      {
        assert t in s.queue && Known(s, t);
      }
    }
  }

  lemma StopsGrow<A>(s: State<A>, l: Label<A>, s': State<A>)
    requires Step(s, l, s')
    ensures s.clock <= s'.clock
    ensures !l.EndStop? ==> s'.stops == s.stops
    ensures l.EndStop? ==>
              && s.stopper.Stop? && |s'.stops| == |s.stops| + 1 && s'.stops[..|s.stops|] == s.stops
              && s'.stops[|s.stops|].at == s.clock && s'.stops[|s.stops|].counted == s.stopper.counted
  {
  }

  lemma StepKeepsTimely(w: Wiring, n: Net, l: NetLabel, n': Net)
    requires Drains(n.bus) && TimelyBus(n.bus) && NetStep(w, n, l, n')
    ensures TimelyBus(n'.bus)
  {
    match l {
      case BusStep(bl) => BusStepKeepsTimely(n.bus, bl, n'.bus);
      case Broadcast(source, data) => BusStepKeepsTimely(n.bus, Accept(0.0, 0, Transmit(source, data)), n'.bus);
      case BusComplete => BusStepKeepsTimely(n.bus, Complete, n'.bus);
      case Main =>
        if n.closing.Open? {
          BusStepKeepsTimely(n.bus, BeginStop(true), n'.bus);
        } else if n.closing.BusEnding? {
          BusStepKeepsTimely(n.bus, EndStop, n'.bus);
        }
      case _ =>
    }
  }

  lemma TimelyAlways(w: Wiring, tr: seq<Net>, k: nat)
    requires IsRun(InitOf(w), NextOf(w), tr) && k < |tr|
    ensures TimelyBus(tr[k].bus)
  {
    var ok := n => Draining(n) && TimelyBus(n.bus);
    forall n | InitOf(w)(n) ensures ok(n) { InitDraining(w, n); }
    forall n, n' | ok(n) && NextOf(w)(n, n') ensures ok(n') {
      var l :| NetStep(w, n, l, n');
      StepKeepsDraining(w, n, l, n');
      StepKeepsTimely(w, n, l, n');
    }
    InvariantAt(InitOf(w), NextOf(w), ok, tr, k);
  }

  // As many tasks in flight as counted, and some.
  ghost predicate Matched<A>(r: StopRecord<A>) {
    0 < |r.inFlight| == |r.counted|
  }

  // A stop of the bus is at risk exactly when the counts match.
  lemma TimelyRisk(r: StopRecord<Transmit>)
    requires TimelyStop(r)
    ensures AtRisk(r) <==> Matched(r)
  {
    if AtRisk(r) {
      var late :| late != {} && Separable(r, late);
      var u :| u in late;
      forall t | t in r.counted
        ensures t in late
      {
        assert u.absTime <= r.at;
      }
      assert late == r.counted;
    }
    if Matched(r) {
      assert Separable(r, r.counted) && r.counted != {};
    }
  }

  // Orderly shutdown delivers every frame to interface i, unless the stop of the bus found as many
  // frames in flight as queued, or that of its host was at risk or a task of that host was cancelled;
  // and it never loses more of them than were in flight.
  lemma ShutdownDelivers(w: Wiring, tr: seq<Net>, k: nat, i: nat)
    requires IsRun(InitOf(w), NextOf(w), tr) && k < |tr| && i < |w.owner| && tr[k].closing.Closed?
    ensures w.owner[i] < |tr[k].hosts| && |tr[k].bus.stops| == 1 && |tr[k].hosts[w.owner[i]].stops| == 1
    ensures var host := tr[k].hosts[w.owner[i]];
            && (!Matched(tr[k].bus.stops[0]) && !AtRisk(host.stops[0]) && NoneCancelled(host, host.stops[0]) ==>
                  InputTo(w, tr[k], i) == Expected(w, tr[k], i))
            && |Expected(w, tr[k], i)| <=
               |InputTo(w, tr[k], i)| + |tr[k].bus.stops[0].inFlight| + |host.stops[0].inFlight|
  {
    ShutdownAccount(w, tr, k, i);
    OrderedAlways(w, tr, k);
    DrainingAlways(w, tr, k);
    TimelyAlways(w, tr, k);
    TimelyRisk(tr[k].bus.stops[0]);
    ShutdownLosses(w, tr[k], i);
  }

  lemma ShutdownLosses(w: Wiring, n: Net, i: nat)
    requires Ordered(w, n) && Draining(n) && n.closing.Closed? && i < |w.owner|
    ensures |n.bus.stops| == 1 && |n.hosts[w.owner[i]].stops| == 1
    ensures !AtRisk(n.bus.stops[0]) ==> LostOnBus(w, n, i) == {}
    ensures var host := n.hosts[w.owner[i]];
            !AtRisk(host.stops[0]) && NoneCancelled(host, host.stops[0]) ==> LostOnHost(w, n, i) == {}
    ensures |LostOnBus(w, n, i)| <= |n.bus.stops[0].inFlight|
    ensures |LostOnHost(w, n, i)| <= |n.hosts[w.owner[i]].stops[0].inFlight|
  {
    ClosedBus(w, n, i);
    ClosedHost(w, n, i);
    LossesOf(For(w, i), n.bus);
    NobodyCancelled(IsTransmit, n.bus);
    var host := n.hosts[w.owner[i]];
    assert HostDraining(host, n.closing, w.owner[i]);
    LossesOf(OnIface(i), host);
  }

  lemma LossesOf<A(!new)>(p: A -> bool, s: State<A>)
    requires Drains(s) && s.worker.Exited? && |s.stops| == 1 && s.stops[0].sync
    ensures |LeftOf(p, s)| <= |s.stops[0].inFlight|
    ensures NoneCancelled(s, s.stops[0]) && !AtRisk(s.stops[0]) ==> LeftOf(p, s) == {}
  {
    AccountAtExit(s);
    SubsetSize(LeftOf(p, s), LeftUnrun(s, s.stops[0]));
    if NoneCancelled(s, s.stops[0]) && !AtRisk(s.stops[0]) {
      NothingLeft(p, s);
    }
  }
}
