// Calls of the executors as runs of the network: what module Ethernet needs to place its methods in
// the step system.
module NetworkCalls {
  import opened Runs
  import opened ExecutorProtocol
  import opened ExecutorCalls
  import opened ExecutorDrain
  import opened NetworkProtocol
  import opened NetworkOrder
  import opened NetworkDelivery

  ghost predicate Leads(w: Wiring, n: Net, n': Net) {
    LeadsTo(NextOf(w), n, n')
  }

  ghost predicate NetReachable(w: Wiring, n: Net) {
    Reachable(InitOf(w), NextOf(w), n)
  }

  lemma LeadsOn(w: Wiring, n: Net, mid: Net, l: NetLabel, n': Net)
    requires Leads(w, n, mid) && NetStep(w, mid, l, n')
    ensures Leads(w, n, n')
  {
    LeadsToNext(NextOf(w), n, mid, n');
  }

  lemma LeadsOnce(w: Wiring, n: Net, l: NetLabel, n': Net)
    requires NetStep(w, n, l, n')
    ensures Leads(w, n, n')
  {
    LeadsToItself(NextOf(w), n);
    LeadsToNext(NextOf(w), n, n, n');
  }

  lemma LeadsFurther(w: Wiring, n: Net, mid: Net, n': Net)
    requires Leads(w, n, mid) && Leads(w, mid, n')
    ensures Leads(w, n, n')
  {
    LeadsToLeads(NextOf(w), n, mid, n');
  }

  lemma StaysReachable(w: Wiring, n: Net, n': Net)
    requires NetReachable(w, n) && Leads(w, n, n')
    ensures NetReachable(w, n')
  {
    ReachableLeads(InitOf(w), NextOf(w), n, n');
  }

  lemma ReachableOrdered(w: Wiring, n: Net)
    requires NetReachable(w, n)
    ensures Ordered(w, n)
  {
    var ok := n => Ordered(w, n);
    forall n | InitOf(w)(n) ensures ok(n) { InitOrdered(w, n); }
    forall n, n' | ok(n) && NextOf(w)(n, n') ensures ok(n') { NextKeepsOrdered(w, n, n'); }
    HoldsWhenReachable(InitOf(w), NextOf(w), ok, n);
  }

  lemma ReachableDraining(w: Wiring, n: Net)
    requires NetReachable(w, n)
    ensures Draining(n)
  {
    var ok := n => Draining(n);
    forall n | InitOf(w)(n) ensures ok(n) { InitDraining(w, n); }
    forall n, n' | ok(n) && NextOf(w)(n, n') ensures ok(n') {
      var l :| NetStep(w, n, l, n');
      StepKeepsDraining(w, n, l, n');
    }
    HoldsWhenReachable(InitOf(w), NextOf(w), ok, n);
  }

  lemma {:induction false} BusRun(w: Wiring, n: Net, tr: seq<State<Transmit>>, ls: seq<Label<Transmit>>, k: nat)
    requires Executes(tr, ls) && k < |tr| && tr[0] == n.bus && forall j :: 0 <= j < k ==> BusOwn(ls[j])
    ensures Leads(w, n, n.(bus := tr[k]))
  {
    if k == 0 {
      LeadsToItself(NextOf(w), n);
      assert n.(bus := tr[0]) == n;
    } else {
      BusRun(w, n, tr, ls, k - 1);
      assert Step(tr[k - 1], ls[k - 1], tr[k - 1 + 1]);
      LeadsOn(w, n, n.(bus := tr[k - 1]), BusStep(ls[k - 1]), n.(bus := tr[k]));
    }
  }

  lemma {:induction false} HostRun(
      w: Wiring, n: Net, h: nat, tr: seq<State<HostAction>>, ls: seq<Label<HostAction>>, k: nat)
    requires h < |n.hosts| && Executes(tr, ls) && k < |tr| && tr[0] == n.hosts[h]
    requires forall j :: 0 <= j < k ==> ls[j].ReadFuture?
    ensures Leads(w, n, n.(hosts := n.hosts[h := tr[k]]))
  {
    if k == 0 {
      LeadsToItself(NextOf(w), n);
      assert n.(hosts := n.hosts[h := tr[0]]) == n;
    } else {
      HostRun(w, n, h, tr, ls, k - 1);
      assert Step(tr[k - 1], ls[k - 1], tr[k - 1 + 1]);
      var mid, n' := n.(hosts := n.hosts[h := tr[k - 1]]), n.(hosts := n.hosts[h := tr[k]]);
      assert n'.hosts == mid.hosts[h := n'.hosts[h]];
      LeadsOn(w, n, mid, HostStep(h, ls[k - 1]), n');
    }
  }

  lemma Middle<A>(tr: seq<State<A>>, ls: seq<Label<A>>, from: nat, to: nat)
    requires Executes(tr, ls) && from <= to <= |ls|
    ensures Executes(tr[from..to + 1], ls[from..to])
  {
    forall k | 0 <= k < to - from
      ensures Step(tr[from..to + 1][k], ls[from..to][k], tr[from..to + 1][k + 1])
    {
      assert Step(tr[from + k], ls[from + k], tr[from + k + 1]);
    }
  }

  // The end of an action of the bus and of the processing of its task.
  lemma BusConclusion(w: Wiring, n: Net, tr: seq<State<Transmit>>, ls: seq<Label<Transmit>>)
    requires Executes(tr, ls) && IsConclusion(ls) && tr[0] == n.bus && n.bus.worker.Acting?
    requires n.served >= |w.owner| || !w.accepts(n.bus.worker.task.action)
    ensures Leads(w, n, n.(bus := tr[|tr| - 1], served := 0))
  {
    var settled := n.(bus := tr[1], served := 0);
    assert Step(tr[0], ls[0], tr[0 + 1]);
    LeadsOnce(w, n, BusComplete, settled);
    Middle(tr, ls, 1, |ls|);
    BusRun(w, settled, tr[1..|ls| + 1], ls[1..|ls|], |ls| - 1);
    LeadsFurther(w, n, settled, settled.(bus := tr[|tr| - 1]));
  }

  // EthernetNetwork.stop as far as the join of the bus.
  lemma BusStopRun(w: Wiring, n: Net, tr: seq<State<Transmit>>, ls: seq<Label<Transmit>>)
    requires Executes(tr, ls) && IsStopCall(ls, true) && tr[0] == n.bus && n.closing.Open?
    ensures var read := n.(bus := tr[|tr| - 2], closing := BusEnding);
            var ended := n.(bus := tr[|tr| - 1], closing := BusJoining);
            Leads(w, n, read) && NetStep(w, read, Main, ended) && Leads(w, n, ended)
  {
    var m := |ls| - 1;
    var begun, read := n.(bus := tr[1], closing := BusEnding), n.(bus := tr[m], closing := BusEnding);
    var ended := n.(bus := tr[m + 1], closing := BusJoining);
    assert Step(tr[0], ls[0], tr[0 + 1]) && Step(tr[m], ls[m], tr[m + 1]);
    LeadsOnce(w, n, Main, begun);
    Middle(tr, ls, 1, m);
    BusRun(w, begun, tr[1..m + 1], ls[1..m], m - 1);
    LeadsFurther(w, n, begun, read);
    LeadsOn(w, n, read, Main, ended);
  }

  // One round of the loop over the hosts, as far as the join.
  lemma HostStopRun(w: Wiring, n: Net, h: nat, tr: seq<State<HostAction>>, ls: seq<Label<HostAction>>)
    requires h < |n.hosts| && Executes(tr, ls) && IsStopCall(ls, true) && tr[0] == n.hosts[h]
    requires n.closing == HostBegin(h)
    ensures Leads(w, n, n.(hosts := n.hosts[h := tr[|tr| - 1]], closing := HostJoining(h)))
  {
    var m := |ls| - 1;
    var begun := n.(hosts := n.hosts[h := tr[1]], closing := HostEnding(h));
    var read := n.(hosts := n.hosts[h := tr[m]], closing := HostEnding(h));
    var ended := n.(hosts := n.hosts[h := tr[m + 1]], closing := HostJoining(h));
    assert Step(tr[0], ls[0], tr[0 + 1]) && Step(tr[m], ls[m], tr[m + 1]);
    LeadsOnce(w, n, Main, begun);
    Middle(tr, ls, 1, m);
    HostRun(w, begun, h, tr[1..m + 1], ls[1..m], m - 1);
    assert begun.(hosts := begun.hosts[h := tr[m]]) == read;
    LeadsFurther(w, n, begun, read);
    assert ended.hosts == read.hosts[h := ended.hosts[h]];
    LeadsOn(w, n, read, Main, ended);
  }

  // The join that EthernetNetwork.stop waits for before it stops host k, or returns, can return.
  ghost predicate Joined(n: Net, k: nat) {
    if k == 0 then n.closing.BusJoining? && n.bus.worker.Exited?
    else n.closing == HostJoining(k - 1) && k <= |n.hosts| && n.hosts[k - 1].worker.Exited?
  }

  function Onward(n: Net, k: nat): Net {
    n.(closing := if k == |n.hosts| then Closed else HostBegin(k))
  }

  lemma JoinReturns(w: Wiring, n: Net, k: nat)
    requires Joined(n, k) && k <= |n.hosts|
    ensures Leads(w, n, Onward(n, k))
  {
    LeadsOnce(w, n, Main, Onward(n, k));
  }

  // A thread whose clock reading is later than what its executor has seen lets time pass first.
  lemma HostWaits(w: Wiring, n: Net, h: nat, now: real)
    requires h < |n.hosts| && n.hosts[h].clock <= now
    ensures Leads(w, n, n.(hosts := n.hosts[h := n.hosts[h].(clock := now)]))
  {
    var l := Tick(now - n.hosts[h].clock);
    LeadsOnce(w, n, HostStep(h, l), n.(hosts := n.hosts[h := n.hosts[h].(clock := now)]));
  }

  // When network stop has returned, every executor has run down and is stopped.
  lemma ClosedIsQuiet(w: Wiring, n: Net)
    requires NetReachable(w, n) && n.closing.Closed?
    ensures n.bus.worker.Exited? && n.bus.status == Stopped
    ensures forall h :: 0 <= h < |n.hosts| ==> n.hosts[h].worker.Exited? && n.hosts[h].status == Stopped
  {
    ReachableOrdered(w, n);
    ReachableDraining(w, n);
    ExitedIsStopped(n.bus);
    forall h | 0 <= h < |n.hosts|
      ensures n.hosts[h].worker.Exited? && n.hosts[h].status == Stopped
    {
      assert HostDraining(n.hosts[h], n.closing, h);
      ExitedIsStopped(n.hosts[h]);
    }
  }

  lemma ExitedIsStopped<A>(s: State<A>)
    requires Drains(s) && s.worker.Exited? && |s.stops| == 1
    ensures s.status == Stopped
  {
  }
}
