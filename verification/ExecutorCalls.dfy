// Calls of the executor as sequences of its steps.
module ExecutorCalls {
  import opened Runs
  import opened Tasks
  import opened ExecutorProtocol

  ghost predicate NoRepeats<A>(q: seq<Task<A>>) {
    forall i, j :: 0 <= i < j < |q| ==> q[i] != q[j]
  }

  ghost function Elements<A>(q: seq<Task<A>>): set<Task<A>> {
    set t | t in q
  }

  // The states a stretch of code passes through are steps of the protocol.
  ghost predicate Executes<A>(tr: seq<State<A>>, ls: seq<Label<A>>) {
    && |tr| == |ls| + 1
    && forall k :: 0 <= k < |ls| ==> Step(tr[k], ls[k], tr[k + 1])
  }

  lemma {:induction false} ExecutesLeads<A(!new)>(tr: seq<State<A>>, ls: seq<Label<A>>, k: nat)
    requires Executes(tr, ls) && k < |tr|
    ensures LeadsTo(Next, tr[0], tr[k])
  {
    if k == 0 {
      LeadsToItself(Next, tr[0]);
    } else {
      ExecutesLeads(tr, ls, k - 1);
      assert Step(tr[k - 1], ls[k - 1], tr[k - 1 + 1]);
      LeadsToNext(Next, tr[0], tr[k - 1], tr[k]);
    }
  }

  lemma Extend<A>(tr: seq<State<A>>, ls: seq<Label<A>>, l: Label<A>, s': State<A>)
    requires Executes(tr, ls) && Step(tr[|tr| - 1], l, s')
    ensures Executes(tr + [s'], ls + [l])
  {
    var tr', ls' := tr + [s'], ls + [l];
    forall k | 0 <= k < |ls'|
      ensures Step(tr'[k], ls'[k], tr'[k + 1])
    {
      if k < |ls| {
        assert Step(tr[k], ls[k], tr[k + 1]);
      }
    }
  }

  ghost function LiveIn<A>(q: seq<Task<A>>, futures: seq<FutureState>): set<Task<A>> {
    set t | t in q && t.id < |futures| && !futures[t.id].IsCancelled()
  }

  lemma LiveInAppend<A>(q: seq<Task<A>>, t: Task<A>, futures: seq<FutureState>)
    requires t !in q && t.id < |futures|
    ensures |LiveIn(q + [t], futures)| == |LiveIn(q, futures)| + if !futures[t.id].IsCancelled() then 1 else 0
  {
    assert LiveIn(q + [t], futures) == LiveIn(q, futures) + if !futures[t.id].IsCancelled() then {t} else {};
  }

  function AfterRead<A>(s: State<A>, task: Task<A>): State<A>
    requires s.stopper.Stop? && task.id < |s.futures|
  {
    s.(stopper := s.stopper.(
         todo := s.stopper.todo - {task},
         counted := if s.futures[task.id].IsCancelled() then s.stopper.counted else s.stopper.counted + {task}))
  }

  lemma SplitFirst<A>(task: Task<A>, others: seq<Task<A>>, futures: seq<FutureState>)
    requires task !in others && task.id < |futures|
    ensures Elements([task] + others) - {task} == Elements(others)
    ensures LiveIn([task] + others, futures) ==
            (if futures[task.id].IsCancelled() then {} else {task}) + LiveIn(others, futures)
  {
  }

  // A thread inside stop reads the futures of the queued tasks one by one.
  lemma {:induction false} ReadAll<A>(tr: seq<State<A>>, ls: seq<Label<A>>, queued: seq<Task<A>>)
    returns (tr': seq<State<A>>, ls': seq<Label<A>>)
    requires Executes(tr, ls) && |ls| > 0 && NoRepeats(queued)
    requires forall k :: 0 < k < |ls| ==> ls[k].ReadFuture?
    requires var st := tr[|tr| - 1];
             && st.stopper.Stop? && st.stopper.todo == Elements(queued)
             && forall t :: t in queued ==> t.id < |st.futures|
    ensures Executes(tr', ls') && tr <= tr' && ls <= ls'
    ensures forall k :: 0 < k < |ls'| ==> ls'[k].ReadFuture?
    ensures var st := tr[|tr| - 1];
            tr'[|tr'| - 1] == st.(stopper := st.stopper.(
                                    todo := {}, counted := st.stopper.counted + LiveIn(queued, st.futures)))
    decreases queued
  {
    var st := tr[|tr| - 1];
    if queued == [] {
      assert LiveIn(queued, st.futures) == {} && Elements(queued) == {};
      assert st.stopper.counted + {} == st.stopper.counted;
      tr', ls' := tr, ls;
    } else {
      var task, others := queued[0], queued[1..];
      assert queued == [task] + others && task !in others;
      SplitFirst(task, others, st.futures);
      var next := AfterRead(st, task);
      Extend(tr, ls, ReadFuture(task), next);
      tr', ls' := ReadAll(tr + [next], ls + [ReadFuture(task)], others);
      assert next.stopper.counted + LiveIn(others, st.futures) == st.stopper.counted + LiveIn(queued, st.futures);
    }
  }

  predicate IsStopCall<A>(ls: seq<Label<A>>, sync: bool) {
    && |ls| >= 2 && ls[0] == BeginStop(sync) && ls[|ls| - 1] == EndStop
    && forall k :: 0 < k < |ls| - 1 ==> ls[k].ReadFuture?
  }

  // The state after a call of stop that nobody interfered with.
  ghost function Stopping<A>(s: State<A>, sync: bool, live: set<Task<A>>): State<A> {
    s.(toFinish := |live|, status := if sync && |live| != 0 then StoppedSync else Stopped,
       notified := s.notified || s.worker.Waiting?,
       stops := s.stops + [StopRecord(sync, s.clock, s.queue, live, InFlight(s), StartedIds(s.started))])
  }

  // The calls of stop as steps: begin, read every queued future, end.
  lemma StopSteps<A>(s: State<A>, sync: bool, queued: seq<Task<A>>)
    returns (tr: seq<State<A>>, ls: seq<Label<A>>)
    requires LockFree(s) && NoRepeats(queued) && s.queue == Elements(queued)
    requires forall t :: t in queued ==> t.id < |s.futures|
    ensures Executes(tr, ls) && tr[0] == s && IsStopCall(ls, sync)
    ensures tr[|tr| - 1] == Stopping(s, sync, LiveIn(queued, s.futures))
  {
    var begun := s.(stopper := Stop(sync, s.queue, {}));
    tr, ls := [s, begun], [BeginStop(sync)];
    assert Executes(tr, ls);
    tr, ls := ReadAll(tr, ls, queued);
    var read := tr[|tr| - 1];
    assert {} + LiveIn(queued, s.futures) == LiveIn(queued, s.futures);
    assert InFlight(read) == InFlight(s);
    var last := Stopping(s, sync, LiveIn(queued, s.futures));
    Extend(tr, ls, EndStop, last);
    tr, ls := tr + [last], ls + [EndStop];
  }

  predicate IsConclusion<A>(ls: seq<Label<A>>) {
    && |ls| >= 1 && ls[0] == Complete
    && forall k :: 0 < k < |ls| ==> ls[k].Settle? || ls[k].ReadCount? || ls[k].StoreCount?
  }

  // The end of a task's processing as steps.
  lemma ConcludeSteps<A>(s: State<A>, task: Task<A>, rest: seq<Task<A>>)
    returns (tr: seq<State<A>>, ls: seq<Label<A>>)
    requires s.worker == Acting(task, rest) && task.id < |s.futures|
    ensures Executes(tr, ls) && tr[0] == s && IsConclusion(ls)
    ensures tr[|tr| - 1] == s.(
              futures := s.futures[task.id := Finished], worker := Batch(rest),
              toFinish := s.toFinish - (if s.status == StoppedSync then 1 else 0),
              decremented := if s.status == StoppedSync then s.decremented + {task} else s.decremented)
  {
    var settled := s.(futures := s.futures[task.id := Finished], worker := Settled(task, rest));
    tr, ls := [s], [];
    Extend(tr, ls, Complete, settled);
    tr, ls := tr + [settled], ls + [Complete];
    if s.status == StoppedSync {
      var counting := settled.(worker := Counting(task, rest));
      Extend(tr, ls, Settle, counting);
      tr, ls := tr + [counting], ls + [Settle];
      var storing := settled.(worker := Storing(s.toFinish, task, rest));
      Extend(tr, ls, ReadCount, storing);
      tr, ls := tr + [storing], ls + [ReadCount];
      var done := settled.(toFinish := s.toFinish - 1, decremented := s.decremented + {task}, worker := Batch(rest));
      Extend(tr, ls, StoreCount, done);
      tr, ls := tr + [done], ls + [StoreCount];
    } else {
      var done := settled.(worker := Batch(rest));
      Extend(tr, ls, Settle, done);
      tr, ls := tr + [done], ls + [Settle];
    }
  }
}
