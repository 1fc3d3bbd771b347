// Host, EthernetBus and EthernetNetwork as objects over their executors. Every method is placed in the
// step system of the network: `n` is the network state that the fields stand for.
module Ethernet {
  import opened Runs
  import opened Tasks
  import opened ExecutorProtocol
  import opened ExecutorCalls
  import opened Executors
  import opened NetworkProtocol
  import opened ExecutorOrder
  import opened NetworkOrder
  import opened NetworkCalls

  const IMMEDIATE := 0.0
  const TOP_PRIO := 0

  class Host {
    const taskQueue: SingleThreadExecutor<HostAction>
    var started: bool

    ghost predicate Valid()
      reads this, taskQueue, taskQueue.tasks
    {
      taskQueue.Valid() && (!started ==> taskQueue.Fresh())
    }

    constructor ()
      ensures Valid() && fresh(taskQueue) && fresh(taskQueue.tasks) && !started
    {
      started := false;
      taskQueue := new SingleThreadExecutor<HostAction>();
    }

    // start, up to the moment `run` has set its status. A thread is started once.
    method Start(ghost s: State<HostAction>)
      requires Valid() && !started && ExecutorProtocol.Init(s)
      modifies this`started, taskQueue`tasksToFinish, taskQueue`status
      ensures Valid() && started && taskQueue.Models(s)
    {
      taskQueue.BeginRun(s);
      started := true;
    }

    // on_incoming_data: false stands for raising Stopped.
    method OnIncomingData(iface: nat, frame: Task<Transmit>, now: real, ghost s: State<HostAction>)
      returns (ok: bool, ghost s': State<HostAction>)
      requires Valid() && taskQueue.Models(s) && LockFree(s) && s.clock == now
      modifies taskQueue`futures, taskQueue`notified, taskQueue`accepted, taskQueue.tasks
      ensures Valid() && taskQueue.Models(s')
      ensures Step(s, if ok then Accept(0.0, 0, Input(iface, frame)) else Reject, s')
      ensures ok <==> taskQueue.status == Running
    {
      var task;
      task, s' := taskQueue.ScheduleDelayed(now, IMMEDIATE, TOP_PRIO, Input(iface, frame), s);
      ok := task.Some?;
    }

    // execute
    method Execute(n: nat, delay: real, now: real, ghost s: State<HostAction>)
      returns (task: Option<nat>, ghost s': State<HostAction>)
      requires Valid() && taskQueue.Models(s) && LockFree(s) && s.clock == now
      modifies taskQueue`futures, taskQueue`notified, taskQueue`accepted, taskQueue.tasks
      ensures Valid() && taskQueue.Models(s')
      ensures Step(s, if task.Some? then Accept(delay, 0, Other(n)) else Reject, s')
      ensures HostOwn(s, if task.Some? then Accept(delay, 0, Other(n)) else Reject)
      ensures task.Some? <==> taskQueue.status == Running
      ensures task.Some? ==> taskQueue.accepted == old(taskQueue.accepted) + [Task(task.value, now + delay, TOP_PRIO, Other(n))]
    {
      task, s' := taskQueue.ScheduleDelayed(now, delay, TOP_PRIO, Other(n), s);
    }

    // stop, up to the join.
    method Stop(ghost s: State<HostAction>)
      returns (ghost tr: seq<State<HostAction>>, ghost ls: seq<Label<HostAction>>)
      requires Valid() && started && taskQueue.Models(s) && LockFree(s)
      modifies taskQueue`tasksToFinish, taskQueue`status, taskQueue`notified
      ensures Valid() && Executes(tr, ls) && tr[0] == s && IsStopCall(ls, true)
      ensures tr[|tr| - 1] == Stopping(s, true, taskQueue.Live()) && taskQueue.Models(tr[|tr| - 1])
    {
      tr, ls := taskQueue.Stop(true, s);
    }
  }

  // Hosts share no part of their executors.
  ghost predicate Apart(hosts: seq<Host>) {
    forall j, k :: 0 <= j < k < |hosts| ==>
      hosts[j] != hosts[k] && hosts[j].taskQueue != hosts[k].taskQueue
      && hosts[j].taskQueue.tasks != hosts[k].taskQueue.tasks
  }

  ghost function ExecutorsOf(hosts: seq<Host>): set<SingleThreadExecutor<HostAction>> {
    set h | h in hosts :: h.taskQueue
  }

  ghost function QueuesOf(hosts: seq<Host>): set<object> {
    set h | h in hosts :: h.taskQueue.tasks
  }

  ghost predicate AllValid(hosts: seq<Host>)
    reads (set h | h in hosts), ExecutorsOf(hosts), QueuesOf(hosts)
  {
    Apart(hosts) && forall h :: h in hosts ==> h.Valid()
  }

  // The executors of the hosts are in the given states.
  ghost predicate ModelHosts(hosts: seq<Host>, ss: seq<State<HostAction>>)
    reads ExecutorsOf(hosts), QueuesOf(hosts)
  {
    |ss| == |hosts| && forall k :: 0 <= k < |hosts| ==> hosts[k].taskQueue.Models(ss[k])
  }

  function AcceptedBy(filters: seq<Transmit -> bool>): Transmit -> bool {
    (f: Transmit) => forall i :: 0 <= i < |filters| ==> filters[i](f)
  }

  // The clock readings of the deliveries of one frame are later than each other, than what each host
  // has read, and than the readings for the inputs it has accepted.
  ghost predicate ReadsLater(n: Net, clockReads: seq<real>, from: nat) {
    && (forall i, j :: from <= i < j < |clockReads| ==> clockReads[i] < clockReads[j])
    && (forall i, h :: from <= i < |clockReads| && 0 <= h < |n.hosts| ==> ReadsAfter(n.hosts[h], clockReads[i]))
  }

  ghost predicate ReadsAfter(s: State<HostAction>, now: real) {
    && s.clock <= now
    && forall k :: 0 <= k < |s.accepted| && IsInput(s.accepted[k].action) ==> s.accepted[k].absTime < now
  }

  ghost predicate HostsUnlocked(n: Net) {
    forall h :: 0 <= h < |n.hosts| ==> LockFree(n.hosts[h])
  }

  // The bus is executing _broadcast on `frame`.
  ghost predicate Broadcasting(n: Net, frame: Task<Transmit>) {
    n.bus.worker.Acting? && n.bus.worker.task == frame
  }

  class EthernetBus {
    var interfaces: seq<(nat, Host)>           // with the host whose on_incoming_data is the callback
    var observed: seq<seq<(Transmit, bool)>>   // what each observer has been called with
    var filters: seq<Transmit -> bool>
    const taskQueue: SingleThreadExecutor<Transmit>
    var started: bool

    ghost predicate Valid()
      reads this, taskQueue, taskQueue.tasks
    {
      taskQueue.Valid() && (!started ==> taskQueue.Fresh())
    }

    // `w` describes the bus and the hosts connected to it.
    ghost predicate Wires(w: Wiring, hosts: seq<Host>)
      reads this`interfaces, this`filters
    {
      && w.hosts == |hosts| && w.accepts == AcceptedBy(filters) && |w.owner| == |interfaces|
      && forall i :: 0 <= i < |interfaces| ==>
           w.owner[i] < |hosts| && interfaces[i] == (i, hosts[w.owner[i]])
    }

    // Interfaces are numbered in the order they join.
    constructor (attached: seq<(nat, Host)>)
      ensures Valid() && fresh(taskQueue) && fresh(taskQueue.tasks) && !started
      ensures interfaces == attached && observed == [] && filters == []
      ensures forall f :: AcceptedBy(filters)(f)
    {
      interfaces, observed, filters, started := attached, [], [], false;
      taskQueue := new SingleThreadExecutor<Transmit>();
    }

    method AddObserver()
      modifies this`observed
      ensures observed == old(observed) + [[]]
    {
      observed := observed + [[]];
    }

    method AddFilter(filter: Transmit -> bool)
      modifies this`filters
      ensures filters == old(filters) + [filter]
      ensures forall f :: AcceptedBy(filters)(f) <==> AcceptedBy(old(filters))(f) && filter(f)
    {
      filters := filters + [filter];
      forall f
        ensures AcceptedBy(filters)(f) <==> AcceptedBy(old(filters))(f) && filter(f)
      {
        assert filters[|filters| - 1] == filter;
        assert forall i :: 0 <= i < |filters| - 1 ==> filters[i] == old(filters)[i];
      }
    }

    method AddInterface(host: Host) returns (iface: nat)
      modifies this`interfaces
      ensures iface == |old(interfaces)| && interfaces == old(interfaces) + [(iface, host)]
    {
      iface := |interfaces|;
      interfaces := interfaces + [(iface, host)];
    }

    // One call of add_interface per interface of a host.
    method AddInterfaces(host: Host, count: nat)
      modifies this`interfaces
      ensures |interfaces| == |old(interfaces)| + count && old(interfaces) <= interfaces
      ensures forall i :: |old(interfaces)| <= i < |interfaces| ==> interfaces[i] == (i, host)
    {
      for k := 0 to count
        invariant |interfaces| == |old(interfaces)| + k && old(interfaces) <= interfaces
        invariant forall i :: |old(interfaces)| <= i < |interfaces| ==> interfaces[i] == (i, host)
      {
        var iface := AddInterface(host);
      }
    }

    // broadcast: the call is queued on the bus; false stands for raising Stopped.
    method Broadcast(source: nat, data: Data, now: real, ghost w: Wiring, ghost n: Net)
      returns (ok: bool, ghost n': Net)
      requires Valid() && taskQueue.Models(n.bus) && LockFree(n.bus) && n.bus.clock == now
      modifies taskQueue`futures, taskQueue`notified, taskQueue`accepted, taskQueue.tasks
      ensures Valid() && taskQueue.Models(n'.bus) && n' == n.(bus := n'.bus)
      ensures ok <==> taskQueue.status == Running
      ensures Step(n.bus, if ok then Accept(0.0, 0, Transmit(source, data)) else Reject, n'.bus)
      ensures FreshRead(IsTransmit, n.bus) ==>
                NetStep(w, n, if ok then NetLabel.Broadcast(source, data) else BusStep(Reject), n')
    {
      var task;
      ghost var s';
      task, s' := taskQueue.ScheduleDelayed(now, 0.0, 0, Transmit(source, data), n.bus);
      n' := n.(bus := s');
      ok := task.Some?;
    }

    // all(map(...)) over the filters
    method PassesFilters(f: Transmit) returns (ok: bool)
      ensures ok <==> AcceptedBy(filters)(f)
    {
      for i := 0 to |filters|
        invariant forall k :: 0 <= k < i ==> filters[k](f)
      {
        if !filters[i](f) {
          return false;
        }
      }
      return true;
    }

    method CallObservers(f: Transmit, shouldForward: bool)
      modifies this`observed
      ensures |observed| == |old(observed)|
      ensures forall k :: 0 <= k < |observed| ==> observed[k] == old(observed)[k] + [(f, shouldForward)]
    {
      for i := 0 to |observed|
        invariant |observed| == |old(observed)|
        invariant forall k :: 0 <= k < i ==> observed[k] == old(observed)[k] + [(f, shouldForward)]
        invariant forall k :: i <= k < |observed| ==> observed[k] == old(observed)[k]
      {
        observed := observed[i := observed[i] + [(f, shouldForward)]];
      }
    }

    // One round of the loop over the interfaces is one delivery step, whatever the others have done
    // since the last one; false stands for a delivery raising Stopped, which ends the loop.
    method Offer(i: nat, frame: Task<Transmit>, now: real, ghost w: Wiring, ghost hosts: seq<Host>, ghost n: Net)
      returns (ok: bool, ghost n': Net)
      requires i < |interfaces| && Wires(w, hosts) && AllValid(hosts) && ModelHosts(hosts, n.hosts)
      requires Broadcasting(n, frame) && n.served == i && w.accepts(frame.action)
      requires LockFree(n.hosts[w.owner[i]])
      requires Offered(w, frame.action, i) ==>
                 n.hosts[w.owner[i]].clock == now && FreshRead(IsInput, n.hosts[w.owner[i]])
      modifies ExecutorsOf(hosts)`futures, ExecutorsOf(hosts)`notified, ExecutorsOf(hosts)`accepted, QueuesOf(hosts)
      ensures AllValid(hosts) && ModelHosts(hosts, n'.hosts) && NetStep(w, n, Deliver, n')
      ensures ok ==> n'.served == i + 1 && n'.rejected == n.rejected
      ensures !ok ==> n'.served == |interfaces| && n'.rejected
    {
      var (iface, host) := interfaces[i];
      ghost var h := w.owner[i];
      assert host == hosts[h] && host in hosts;
      if iface != frame.action.source {
        ghost var s';
        ok, s' := host.OnIncomingData(iface, frame, now, n.hosts[h]);
        n' := if ok then n.(served := i + 1, hosts := n.hosts[h := s']) else n.(served := |w.owner|, rejected := true);
      } else {
        ok := true;
        n' := n.(served := i + 1);
      }
    }

    // The loop over the interfaces when nobody else runs meanwhile. In every state the network can
    // reach no delivery raises.
    method Forward(frame: Task<Transmit>, clockReads: seq<real>, ghost w: Wiring, ghost hosts: seq<Host>, ghost n: Net)
      returns (ok: bool, ghost n': Net)
      requires |clockReads| == |interfaces|
      requires Wires(w, hosts) && AllValid(hosts) && ModelHosts(hosts, n.hosts)
      requires Broadcasting(n, frame) && n.served == 0 && w.accepts(frame.action)
      requires HostsUnlocked(n) && ReadsLater(n, clockReads, 0)
      modifies ExecutorsOf(hosts)`futures, ExecutorsOf(hosts)`notified, ExecutorsOf(hosts)`accepted, QueuesOf(hosts)
      ensures AllValid(hosts) && ModelHosts(hosts, n'.hosts) && Leads(w, n, n')
      ensures n'.bus == n.bus && n'.closing == n.closing && n'.served == |interfaces|
      ensures n'.rejected <==> n.rejected || !ok
      ensures NetReachable(w, n) ==> ok
    {
      n' := n;
      LeadsToItself(NextOf(w), n);
      for i := 0 to |interfaces|
        invariant AllValid(hosts) && ModelHosts(hosts, n'.hosts) && Leads(w, n, n')
        invariant n'.bus == n.bus && n'.closing == n.closing && n'.served == i && n'.rejected == n.rejected
        invariant HostsUnlocked(n') && ReadsLater(n', clockReads, i)
      {
        ghost var waited := Waited(w, n', clockReads[i]);
        WaitKeeps(w, hosts, n', clockReads);
        LeadsFurther(w, n, n', waited);
        var delivered;
        delivered, n' := Offer(i, frame, clockReads[i], w, hosts, waited);
        LeadsOn(w, n, waited, Deliver, n');
        if !delivered {
          ok := false;
          RejectionIsUnreachable(w, n, n');
          return;
        }
        OfferKeeps(w, waited, n', clockReads);
      }
      ok := true;
    }

    // _broadcast. What the interfaces have been given afterwards is BroadcastDelivers.
    method DoBroadcast(frame: Task<Transmit>, clockReads: seq<real>, ghost w: Wiring, ghost hosts: seq<Host>, ghost n: Net)
      returns (ok: bool, ghost n': Net)
      requires |clockReads| == |interfaces|
      requires Wires(w, hosts) && AllValid(hosts) && ModelHosts(hosts, n.hosts)
      requires Broadcasting(n, frame) && n.served == 0 && HostsUnlocked(n) && ReadsLater(n, clockReads, 0)
      modifies this`observed
      modifies ExecutorsOf(hosts)`futures, ExecutorsOf(hosts)`notified, ExecutorsOf(hosts)`accepted, QueuesOf(hosts)
      ensures AllValid(hosts) && ModelHosts(hosts, n'.hosts) && Leads(w, n, n')
      ensures n'.bus == n.bus && n'.closing == n.closing && AllOffered(w, n')
      ensures !w.accepts(frame.action) ==> ok && n' == n
      ensures |observed| == |old(observed)|
      ensures forall k :: 0 <= k < |observed| ==>
                observed[k] == old(observed)[k] + [(frame.action, w.accepts(frame.action))]
      ensures NetReachable(w, n) ==> ok
    {
      var shouldForward := PassesFilters(frame.action);
      CallObservers(frame.action, shouldForward);
      if shouldForward {
        ok, n' := Forward(frame, clockReads, w, hosts, n);
      } else {
        ok, n' := true, n;
        LeadsToItself(NextOf(w), n);
      }
    }

    // The bus has an executor of its own.
    ghost predicate Elsewhere(hosts: seq<Host>) {
      forall h :: h in hosts ==>
        taskQueue as object != h.taskQueue && taskQueue.tasks as object != h.taskQueue.tasks
    }

    // _process_task on the thread of the bus, lines 308-318, when nobody else runs meanwhile.
    method RunAction(
        task: Task<Transmit>, rest: seq<Task<Transmit>>, clockReads: seq<real>,
        ghost w: Wiring, ghost hosts: seq<Host>, ghost n: Net)
      returns (ghost n': Net)
      requires Valid() && taskQueue.Models(n.bus) && n.bus.worker == Acting(task, rest)
      requires task.id < |taskQueue.futures| && |clockReads| == |interfaces| && n.served == 0
      requires Wires(w, hosts) && AllValid(hosts) && ModelHosts(hosts, n.hosts) && Elsewhere(hosts)
      requires started && HostsUnlocked(n) && ReadsLater(n, clockReads, 0)
      modifies this`observed, taskQueue`futures, taskQueue`tasksToFinish
      modifies ExecutorsOf(hosts)`futures, ExecutorsOf(hosts)`notified, ExecutorsOf(hosts)`accepted, QueuesOf(hosts)
      ensures Valid() && taskQueue.Models(n'.bus) && AllValid(hosts) && ModelHosts(hosts, n'.hosts)
      ensures Leads(w, n, n') && n'.bus.worker == Batch(rest) && n'.served == 0 && n'.closing == n.closing
    {
      var ok;
      ghost var offered;
      ok, offered := DoBroadcast(task, clockReads, w, hosts, n);
      assert taskQueue.Models(offered.bus);
      n' := EndAction(task, rest, w, offered);
      LeadsFurther(w, n, offered, n');
    }

    method EndAction(task: Task<Transmit>, rest: seq<Task<Transmit>>, ghost w: Wiring, ghost n: Net)
      returns (ghost n': Net)
      requires taskQueue.Valid() && taskQueue.Models(n.bus) && n.bus.worker == Acting(task, rest)
      requires task.id < |taskQueue.futures| && AllOffered(w, n)
      modifies taskQueue`futures, taskQueue`tasksToFinish
      ensures taskQueue.Valid() && taskQueue.Models(n'.bus) && n'.bus.worker == Batch(rest)
      ensures Leads(w, n, n') && n' == n.(bus := n'.bus, served := 0)
    {
      ghost var tr, ls;
      tr, ls := taskQueue.Conclude(task, rest, n.bus);
      n' := n.(bus := tr[|tr| - 1], served := 0);
      BusConclusion(w, n, tr, ls);
    }

    // _process_task on the thread of the bus: the task is taken up, its frame offered to every
    // interface, and its future completed.
    method ProcessTask(
        task: Task<Transmit>, rest: seq<Task<Transmit>>, clockReads: seq<real>,
        ghost w: Wiring, ghost hosts: seq<Host>, ghost n: Net)
      returns (ghost n': Net)
      requires Valid() && taskQueue.Models(n.bus) && n.bus.worker == Batch([task] + rest)
      requires task.id < |taskQueue.futures| && Waits(taskQueue.futures[task.id])
      requires |clockReads| == |interfaces| && n.served == 0
      requires Wires(w, hosts) && AllValid(hosts) && ModelHosts(hosts, n.hosts) && Elsewhere(hosts)
      requires started && HostsUnlocked(n) && ReadsLater(n, clockReads, 0)
      modifies this`observed, taskQueue`futures, taskQueue`tasksToFinish
      modifies ExecutorsOf(hosts)`futures, ExecutorsOf(hosts)`notified, ExecutorsOf(hosts)`accepted, QueuesOf(hosts)
      ensures Valid() && taskQueue.Models(n'.bus) && AllValid(hosts) && ModelHosts(hosts, n'.hosts)
      ensures Leads(w, n, n') && n'.bus.worker == Batch(rest) && n'.served == 0 && n'.closing == n.closing
    {
      var act;
      ghost var s';
      act, s' := taskQueue.TakeUp(task, rest, n.bus);
      ghost var taken := n.(bus := s');
      LeadsOnce(w, n, BusStep(TakeTask), taken);
      n' := taken;
      if act {
        n' := RunAction(task, rest, clockReads, w, hosts, taken);
        LeadsFurther(w, n, taken, n');
      }
    }

    // start, up to the moment `run` has set its status. A thread is started once.
    method Start(ghost s: State<Transmit>)
      requires Valid() && !started && ExecutorProtocol.Init(s)
      modifies this`started, taskQueue`tasksToFinish, taskQueue`status
      ensures Valid() && started && taskQueue.Models(s)
    {
      taskQueue.BeginRun(s);
      started := true;
    }

    // stop, up to the join.
    method Stop(ghost w: Wiring, ghost n: Net) returns (ghost n': Net)
      requires Valid() && started && taskQueue.Models(n.bus) && LockFree(n.bus) && n.closing.Open?
      modifies taskQueue`tasksToFinish, taskQueue`status, taskQueue`notified
      ensures Valid() && taskQueue.Models(n'.bus) && Leads(w, n, n')
      ensures n' == n.(bus := Stopping(n.bus, true, taskQueue.Live()), closing := BusJoining)
    {
      ghost var tr, ls;
      tr, ls := taskQueue.Stop(true, n.bus);
      BusStopRun(w, n, tr, ls);
      n' := n.(bus := tr[|tr| - 1], closing := BusJoining);
    }
  }

  // The action under way on the bus has offered its frame to everybody it should.
  ghost predicate AllOffered(w: Wiring, n: Net) {
    n.bus.worker.Acting? && (n.served >= |w.owner| || !w.accepts(n.bus.worker.task.action))
  }

  // Every interface has been given the frames among `taken` that it should see, in that order.
  ghost predicate Delivered(w: Wiring, hosts: seq<Host>, taken: seq<Task<Transmit>>)
    reads ExecutorsOf(hosts)
  {
    forall i :: 0 <= i < |w.owner| && w.owner[i] < |hosts| ==>
      Received(i, hosts[w.owner[i]].taskQueue.accepted) == Select(For(w, i), taken)
  }

  lemma AllOfferedIsHandled(w: Wiring, n: Net, i: nat)
    requires Linked(w, n) && AllOffered(w, n) && i < |w.owner|
    ensures Select(For(w, i), Handled(n, i)) == Select(For(w, i), TasksOf(n.bus.started))
  {
    var begun := TasksOf(n.bus.started);
    assert begun[|begun| - 1] == n.bus.worker.task;
  }

  // In every state the network can reach, once a frame has been offered to everybody, each interface
  // has been given, in broadcast order, all frames taken up so far that it should see.
  lemma BroadcastDelivers(w: Wiring, hosts: seq<Host>, n: Net)
    requires NetReachable(w, n) && AllOffered(w, n) && ModelHosts(hosts, n.hosts)
    ensures Delivered(w, hosts, TasksOf(n.bus.started))
  {
    ReachableOrdered(w, n);
    forall i | 0 <= i < |w.owner| && w.owner[i] < |hosts|
      ensures Received(i, hosts[w.owner[i]].taskQueue.accepted) == Select(For(w, i), TasksOf(n.bus.started))
    {
      AllOfferedIsHandled(w, n, i);
    }
  }

  // Time has passed for the host that the next delivery goes to.
  ghost function Waited(w: Wiring, n: Net, now: real): Net
    requires n.served < |w.owner| && w.owner[n.served] < |n.hosts|
  {
    var h := w.owner[n.served];
    n.(hosts := n.hosts[h := n.hosts[h].(clock := now)])
  }

  lemma WaitKeeps(w: Wiring, hosts: seq<Host>, n: Net, clockReads: seq<real>)
    requires n.served < |w.owner| == |clockReads| && w.owner[n.served] < |n.hosts|
    requires ModelHosts(hosts, n.hosts) && HostsUnlocked(n) && ReadsLater(n, clockReads, n.served)
    ensures var n' := Waited(w, n, clockReads[n.served]);
            && Leads(w, n, n') && ModelHosts(hosts, n'.hosts) && HostsUnlocked(n')
            && ReadsLater(n', clockReads, n.served)
            && FreshRead(IsInput, n'.hosts[w.owner[n.served]])
  {
    var h, now := w.owner[n.served], clockReads[n.served];
    assert ReadsAfter(n.hosts[h], now);
    HostWaits(w, n, h, now);
    var n' := Waited(w, n, now);
    forall i, g | n.served <= i < |clockReads| && 0 <= g < |n'.hosts|
      ensures ReadsAfter(n'.hosts[g], clockReads[i])
    {
      assert ReadsAfter(n.hosts[g], clockReads[i]);
    }
  }

  lemma OfferKeeps(w: Wiring, n: Net, n': Net, clockReads: seq<real>)
    requires n.served < |w.owner| == |clockReads| && w.owner[n.served] < |n.hosts|
    requires HostsUnlocked(n) && ReadsLater(n, clockReads, n.served)
    requires n.hosts[w.owner[n.served]].clock == clockReads[n.served] && DeliverStep(w, n, n')
    ensures HostsUnlocked(n') && ReadsLater(n', clockReads, n.served + 1)
    ensures n'.bus == n.bus && n'.closing == n.closing
  {
    forall i, g | n.served + 1 <= i < |clockReads| && 0 <= g < |n'.hosts|
      ensures ReadsAfter(n'.hosts[g], clockReads[i])
    {
      assert ReadsAfter(n.hosts[g], clockReads[i]);
    }
  }

  lemma RejectionIsUnreachable(w: Wiring, n: Net, n': Net)
    requires Leads(w, n, n') && n'.rejected
    ensures !NetReachable(w, n)
  {
    if NetReachable(w, n) {
      StaysReachable(w, n, n');
      ReachableOrdered(w, n');
    }
  }

  lemma StopAfterJoin(w: Wiring, n: Net, k: nat, tr: seq<State<HostAction>>, ls: seq<Label<HostAction>>)
    requires Joined(n, k) && k < |n.hosts| && Executes(tr, ls) && IsStopCall(ls, true) && tr[0] == n.hosts[k]
    ensures Leads(w, n, n.(hosts := n.hosts[k := tr[|tr| - 1]], closing := HostJoining(k)))
  {
    var begun := Onward(n, k);
    JoinReturns(w, n, k);
    HostStopRun(w, begun, k, tr, ls);
    LeadsFurther(w, n, begun, begun.(hosts := begun.hosts[k := tr[|tr| - 1]], closing := HostJoining(k)));
  }

  function Put(hosts: seq<Host>, k: nat, host: Host): (r: seq<Host>)
    requires k <= |hosts|
    ensures |r| == (if k < |hosts| then |hosts| else |hosts| + 1) && r[k] == host
    ensures forall j :: 0 <= j < |hosts| && j != k ==> r[j] == hosts[j]
  {
    if k < |hosts| then hosts[k := host] else hosts + [host]
  }

  lemma ApartPut(hosts: seq<Host>, k: nat, host: Host)
    requires k <= |hosts| && Apart(hosts)
    requires forall h :: h in hosts ==>
               h != host && h.taskQueue != host.taskQueue && h.taskQueue.tasks != host.taskQueue.tasks
    ensures Apart(Put(hosts, k, host))
    ensures forall h :: h in Put(hosts, k, host) ==> h in hosts || h == host
  {
  }

  class EthernetNetwork {
    const bus: EthernetBus
    var hosts: seq<Host>            // the values of the dictionary _hosts, in insertion order
    var names: map<string, nat>     // host name to position
    ghost var owner: seq<nat>       // the position of the host of each interface

    ghost predicate Valid()
      reads this, bus, bus.taskQueue, bus.taskQueue.tasks
      reads (set h | h in hosts), ExecutorsOf(hosts), QueuesOf(hosts)
    {
      && bus.Valid() && AllValid(hosts) && bus.Elsewhere(hosts)
      && (forall a, b :: a in names && b in names && a != b ==> names[a] != names[b])
      && (forall a :: a in names ==> names[a] < |hosts|)
    }

    // The dictionary lookup of get_host
    ghost function HostNamed(name: string): Host
      requires name in names && names[name] < |hosts|
      reads this
    {
      hosts[names[name]]
    }

    ghost function Wires(): Wiring
      reads this, bus`filters
    {
      Wiring(owner, |hosts|, AcceptedBy(bus.filters))
    }

    // Every interface on the bus belongs to a host of the network: no name was given twice.
    ghost predicate Wired()
      reads this, bus`interfaces, bus`filters
    {
      bus.Wires(Wires(), hosts)
    }

    // The network is in a state that some run of the step system reaches.
    ghost predicate Stands(n: Net)
      reads this, bus, bus.taskQueue, bus.taskQueue.tasks, ExecutorsOf(hosts), QueuesOf(hosts)
    {
      Wired() && NetReachable(Wires(), n) && bus.taskQueue.Models(n.bus) && ModelHosts(hosts, n.hosts)
    }

    constructor ()
      ensures Valid() && Wired() && hosts == [] && names == map[] && !bus.started
      ensures fresh(bus) && fresh(bus.taskQueue) && fresh(bus.taskQueue.tasks)
    {
      bus := new EthernetBus([]);
      hosts, names, owner := [], map[], [];
    }

    // add_host: the host joins with as many interfaces as it has addresses. Under a name already taken
    // it replaces the host of that name, whose interfaces stay on the bus.
    method AddHost(name: string, interfaces: nat) returns (host: Host)
      requires Valid()
      modifies this`hosts, this`names, this`owner, bus`interfaces
      ensures Valid() && fresh(host) && !host.started
      ensures name in names && HostNamed(name) == host && names.Keys == old(names).Keys + {name}
      ensures forall other :: other in old(names) && other != name ==> HostNamed(other) == old(HostNamed(other))
      ensures |hosts| == |old(hosts)| + if name in old(names) then 0 else 1
      ensures |bus.interfaces| == |old(bus.interfaces)| + interfaces && old(bus.interfaces) <= bus.interfaces
      ensures forall i :: |old(bus.interfaces)| <= i < |bus.interfaces| ==> bus.interfaces[i] == (i, host)
      ensures old(Wired()) && name !in old(names) ==> Wired()
    {
      host := new Host();
      bus.AddInterfaces(host, interfaces);
      var k := Register(name, host);
      owner := owner + seq(interfaces, _ => k);
    }

    // self._hosts[host_name] = host
    method Register(name: string, host: Host) returns (k: nat)
      requires Valid() && host.Valid() && bus.Elsewhere([host])
      requires forall h :: h in hosts ==>
                 h != host && h.taskQueue != host.taskQueue && h.taskQueue.tasks != host.taskQueue.tasks
      modifies this`hosts, this`names
      ensures Valid() && name in names && HostNamed(name) == host && names.Keys == old(names).Keys + {name}
      ensures forall other :: other in old(names) && other != name ==> HostNamed(other) == old(HostNamed(other))
      ensures k == (if name in old(names) then old(names)[name] else |old(hosts)|) && k <= |old(hosts)|
      ensures hosts == Put(old(hosts), k, host)
    {
      k := if name in names then names[name] else |hosts|;
      ApartPut(hosts, k, host);
      hosts := Put(hosts, k, host);
      names := names[name := k];
    }

    // start, up to the moment every thread has set its executor running.
    method Start(ghost n: Net)
      requires Valid() && Wired() && !bus.started && forall h :: h in hosts ==> !h.started
      requires NetworkProtocol.Init(Wires(), n)
      modifies bus`started, bus.taskQueue`tasksToFinish, bus.taskQueue`status
      modifies (set h | h in hosts)`started, ExecutorsOf(hosts)`tasksToFinish, ExecutorsOf(hosts)`status
      ensures Valid() && Stands(n) && bus.started && forall h :: h in hosts ==> h.started
    {
      ReachableInit(InitOf(Wires()), NextOf(Wires()), n);
      bus.Start(n.bus);
      StartHosts(n.hosts);
    }

    // The loop of start over the hosts.
    method StartHosts(ghost ss: seq<State<HostAction>>)
      requires AllValid(hosts) && forall h :: h in hosts ==> !h.started
      requires |ss| == |hosts| && forall k :: 0 <= k < |ss| ==> ExecutorProtocol.Init(ss[k])
      modifies (set h | h in hosts)`started, ExecutorsOf(hosts)`tasksToFinish, ExecutorsOf(hosts)`status
      ensures AllValid(hosts) && ModelHosts(hosts, ss) && forall h :: h in hosts ==> h.started
    {
      for k := 0 to |hosts|
        invariant forall h :: h in hosts ==> h.Valid()
        invariant forall j :: 0 <= j < k ==> hosts[j].started && hosts[j].taskQueue.Models(ss[j])
        invariant forall j :: k <= j < |hosts| ==> !hosts[j].started
      {
        assert hosts[k] in hosts;
        hosts[k].Start(ss[k]);
      }
    }

    // stop, up to the join of the bus.
    method Stop(ghost n: Net) returns (ghost n': Net)
      requires Valid() && Stands(n) && bus.started && n.closing.Open? && LockFree(n.bus)
      modifies bus.taskQueue`tasksToFinish, bus.taskQueue`status, bus.taskQueue`notified
      ensures Valid() && Stands(n') && n'.closing == BusJoining && n'.hosts == n.hosts
    {
      n' := bus.Stop(Wires(), n);
      StaysReachable(Wires(), n, n');
    }

    // stop, from the return of one join to the next: the next host is not stopped before.
    method AfterJoin(k: nat, ghost n: Net) returns (ghost n': Net)
      requires Valid() && Stands(n) && k < |hosts| && Joined(n, k)
      requires hosts[k].started && LockFree(n.hosts[k])
      modifies hosts[k].taskQueue`tasksToFinish, hosts[k].taskQueue`status, hosts[k].taskQueue`notified
      ensures Valid() && Stands(n') && n'.closing == HostJoining(k)
    {
      assert hosts[k] in hosts;
      n' := StopHost(k, Wires(), n);
      StaysReachable(Wires(), n, n');
    }

    // The return of stop: in the end every executor has run down and is stopped.
    lemma StopReturns(n: Net) returns (n': Net)
      requires Valid() && Stands(n) && Joined(n, |hosts|)
      ensures Stands(n') && n' == n.(closing := Closed) && n'.bus.worker.Exited?
      ensures forall k :: 0 <= k < |n'.hosts| ==> n'.hosts[k].worker.Exited?
      ensures bus.taskQueue.status == Stopped && forall h :: h in hosts ==> h.taskQueue.status == Stopped
    {
      n' := Onward(n, |hosts|);
      JoinReturns(Wires(), n, |hosts|);
      StaysReachable(Wires(), n, n');
      ClosedIsQuiet(Wires(), n');
    }

    // The return of one join and the next host.stop(), up to its join.
    method StopHost(k: nat, ghost w: Wiring, ghost n: Net) returns (ghost n': Net)
      requires AllValid(hosts) && k < |hosts| && hosts[k].started && ModelHosts(hosts, n.hosts)
      requires Joined(n, k) && LockFree(n.hosts[k])
      modifies hosts[k].taskQueue`tasksToFinish, hosts[k].taskQueue`status, hosts[k].taskQueue`notified
      ensures AllValid(hosts) && ModelHosts(hosts, n'.hosts) && Leads(w, n, n')
      ensures n' == n.(hosts := n'.hosts, closing := HostJoining(k))
    {
      ghost var tr, ls;
      assert hosts[k] in hosts;
      tr, ls := hosts[k].Stop(n.hosts[k]);
      StopAfterJoin(w, n, k, tr, ls);
      n' := n.(hosts := n.hosts[k := tr[|tr| - 1]], closing := HostJoining(k));
      forall j | 0 <= j < |hosts|
        ensures hosts[j].Valid() && hosts[j].taskQueue.Models(n'.hosts[j])
      {
        if j != k {
          assert hosts[j].taskQueue != hosts[k].taskQueue && hosts[j] in hosts;
        }
      }
    }
  }
}
