// What every run of the executor keeps: order, timing, at-most-once execution, prompt waking.
module ExecutorOrder {
  import opened Runs
  import opened Tasks
  import opened ExecutorProtocol

  // Over a whole run, across all batches, actions begin in order of their scheduled time, save that
  // one scheduled with a negative delay may come late, and none begins early, whatever running
  // actions or other threads schedule meanwhile.
  lemma GlobalOrder<A(!new)>(tr: seq<State<A>>, i: nat)
    requires IsRun(Init, Next, tr) && i < |tr|
    ensures TimeOrdered(TasksOf(tr[i].started), tr[i].backdated)
    ensures forall k :: k in tr[i].backdated ==> k < |tr[i].accepted|
    ensures forall k :: 0 <= k < |tr[i].started| ==> tr[i].started[k].task.absTime <= tr[i].started[k].at <= tr[i].clock
  {
    InvAlways(tr, i);
    var line, ts := Line(tr[i]), TasksOf(tr[i].started);
    assert forall k :: 0 <= k < |ts| ==> ts[k] == line[k];
  }

  // Each accepted task begins at most once, and only accepted tasks begin.
  lemma AtMostOnce<A(!new)>(tr: seq<State<A>>, i: nat, j: nat, k: nat)
    requires IsRun(Init, Next, tr) && i < |tr| && j < |tr[i].started| && k < |tr[i].started|
    ensures Known(tr[i], tr[i].started[j].task)
    ensures tr[i].started[j].task == tr[i].started[k].task ==> j == k
  {
    InvAlways(tr, i);
  }

  // The only ways a future changes: it completes once, from executing, and stays complete.
  predicate Edge(f: FutureState, f': FutureState) {
    || f' == f
    || (f == Pending && f' in {Cancelled, Executing})
    || (f == Cancelled && f' == CancelledNotified)
    || (f == Executing && f' == Finished)
  }

  lemma FutureEdges<A>(s: State<A>, l: Label<A>, s': State<A>, id: nat)
    requires Inv(s) && Step(s, l, s') && id < |s.futures|
    ensures id < |s'.futures| && Edge(s.futures[id], s'.futures[id])
    ensures s'.futures[id] == Finished && s.futures[id] != Finished ==> l == Complete && s.worker.task.id == id
    ensures s'.futures[id].IsCancelled() && !s.futures[id].IsCancelled() ==> l == CancelFuture(id)
  {
    if MovesNoTask(l) {
      UnmovingStep(s, l, s');
    } else if l.TakeTask? {
      var batch := s.worker.rest;
      assert batch == [batch[0]] + batch[1..];
      HeadIsAlone(s, batch[0], batch[1..]);
    }
  }

  lemma {:induction false} CancelledStays<A(!new)>(tr: seq<State<A>>, i: nat, j: nat, id: nat)
    requires IsRun(Init, Next, tr) && i <= j < |tr|
    requires id < |tr[i].futures| && tr[i].futures[id].IsCancelled()
    ensures id < |tr[j].futures| && tr[j].futures[id].IsCancelled()
    decreases j - i
  {
    if i < j {
      CancelledStays(tr, i, j - 1, id);
      InvAlways(tr, j - 1);
      assert StepAt(Next, tr, j);
      var l :| Step(tr[j - 1], l, tr[j]);
      FutureEdges(tr[j - 1], l, tr[j], id);
    }
  }

  // A task whose cancel succeeded never begins, then or later.
  lemma CancelledNeverRuns<A(!new)>(tr: seq<State<A>>, i: nat, j: nat, id: nat)
    requires IsRun(Init, Next, tr) && i <= j < |tr|
    requires id < |tr[i].futures| && tr[i].futures[id].IsCancelled()
    ensures id !in StartedIds(tr[j].started)
  {
    CancelledStays(tr, i, j, id);
    InvAlways(tr, j);
  }

  // Between batches every accepted task is still queued, or its future is settled: completed if
  // its action ran, notified of the cancellation otherwise.
  lemma PoppedTasksAreSettled<A(!new)>(tr: seq<State<A>>, i: nat, id: nat)
    requires IsRun(Init, Next, tr) && i < |tr| && Rest(tr[i].worker) == [] && Current(tr[i].worker) == None
    requires id < |tr[i].accepted| && tr[i].accepted[id] !in tr[i].queue
    ensures id < |tr[i].futures|
    ensures tr[i].futures[id] == if id in StartedIds(tr[i].started) then Finished else CancelledNotified
  {
    InvAlways(tr, i);
  }

  // Whenever the worker waits, either a notification is pending, or nothing it saw has changed and
  // its deadline is at most the time between its clock read and its wait past the earliest task;
  // it waits without a deadline only for an empty queue.
  lemma NeverOversleeps<A(!new)>(tr: seq<State<A>>, i: nat)
    requires IsRun(Init, Next, tr) && i < |tr| && tr[i].worker.Waiting? && !tr[i].notified
    ensures var w := tr[i].worker;
            && tr[i].status == w.seen && w.lag >= 0.0
            && (w.deadline.None? <==> tr[i].queue == {})
            && (w.deadline.Some? ==> forall t :: t in tr[i].queue ==> w.deadline.value - w.lag <= t.absTime)
  {
    InvAlways(tr, i);
  }

  // Every round in which the wait returns true pops a non-empty batch of exactly the due tasks.
  lemma PopsAreNonEmpty<A(!new)>(tr: seq<State<A>>, i: nat, batch: seq<Task<A>>)
    requires IsRun(Init, Next, tr) && i + 1 < |tr| && Step(tr[i], Pop(batch), tr[i + 1])
    ensures batch != [] && |tr[i + 1].queue| < |tr[i].queue|
    ensures forall t :: t in tr[i].queue ==> (t in batch <==> t !in tr[i + 1].queue)
    ensures forall j, k :: 0 <= j < k < |batch| ==>
              || batch[j].absTime < batch[k].absTime
              || (batch[j].absTime == batch[k].absTime && batch[j].priority <= batch[k].priority)
  {
    InvAlways(tr, i);
    var t :| t in tr[i].queue && t.absTime <= tr[i].clock;
    assert t in batch && t !in tr[i + 1].queue;
    ProperSubsetIsSmaller(tr[i + 1].queue, tr[i].queue);
    assert forall j, k :: 0 <= j < k < |batch| ==> Leq(batch[j], batch[k]);
  }

  lemma ProperSubsetIsSmaller<T>(a: set<T>, b: set<T>)
    requires a < b
    ensures |a| < |b|
  {
    assert b == a + (b - a);
    assert |b - a| > 0;
  }

  // ---------- first in, first out for immediate tasks ----------

  function Select<A>(p: A -> bool, ts: seq<Task<A>>): seq<Task<A>> {
    if ts == [] then []
    else
      var last := ts[|ts| - 1];
      Select(p, ts[..|ts| - 1]) + if p(last.action) then [last] else []
  }

  lemma SelectAppend<A>(p: A -> bool, ts: seq<Task<A>>, t: Task<A>)
    ensures Select(p, ts + [t]) == Select(p, ts) + if p(t.action) then [t] else []
  {
    assert (ts + [t])[..|ts|] == ts;
  }

  lemma {:induction false} SelectMember<A>(p: A -> bool, ts: seq<Task<A>>, t: Task<A>)
    ensures t in Select(p, ts) <==> t in ts && p(t.action)
  {
    if ts != [] {
      var front, last := ts[..|ts| - 1], ts[|ts| - 1];
      SelectMember(p, front, t);
      assert ts == front + [last];
    }
  }

  ghost predicate Increasing<A>(ts: seq<Task<A>>) {
    forall i, j :: 0 <= i < j < |ts| ==> ts[i].absTime < ts[j].absTime
  }

  // The selected tasks of a sequence keep any order the selected pairs have in it.
  ghost predicate IncreasingOn<A>(p: A -> bool, ts: seq<Task<A>>) {
    forall i, j :: 0 <= i < j < |ts| && p(ts[i].action) && p(ts[j].action) ==> ts[i].absTime < ts[j].absTime
  }

  lemma {:induction false} SelectIncreasing<A>(p: A -> bool, ts: seq<Task<A>>)
    requires IncreasingOn(p, ts)
    ensures Increasing(Select(p, ts))
  {
    if ts != [] {
      var front, last := ts[..|ts| - 1], ts[|ts| - 1];
      SelectIncreasing(p, front);
      var s := Select(p, front);
      if p(last.action) {
        forall i | 0 <= i < |s|
          ensures s[i].absTime < last.absTime
        {
          SelectMember(p, front, s[i]);
          assert s[i] in s && s[i] in front;
          var k :| 0 <= k < |front| && front[k] == s[i];
          assert ts[k] == s[i] && ts[|ts| - 1] == last;
        }
      }
    }
  }

  // Every task of `all` that is earlier than one of `s` is in `s`.
  ghost predicate ClosedIn<A>(s: seq<Task<A>>, all: seq<Task<A>>) {
    && (forall t :: t in s ==> t in all)
    && (forall t, u :: t in s && u in all && u.absTime < t.absTime ==> u in s)
  }

  // A task timed between two neighbours of an increasing sequence is not in it.
  lemma OutsideGap<A>(s: seq<Task<A>>, n: nat, u: Task<A>)
    requires Increasing(s) && n < |s| && u.absTime < s[n].absTime
    requires forall k :: 0 <= k < n ==> s[k].absTime < u.absTime
    ensures u !in s
  {
    forall k | 0 <= k < |s|
      ensures s[k] != u
    {
      if k > n {
        assert s[n].absTime < s[k].absTime;
      }
    }
  }

  lemma NextAgrees<A>(s: seq<Task<A>>, all: seq<Task<A>>, n: nat)
    requires Increasing(s) && Increasing(all) && ClosedIn(s, all)
    requires n < |s| && n <= |all| && forall k :: 0 <= k < n ==> s[k] == all[k]
    ensures n < |all| && s[n] == all[n]
  {
    assert forall k :: 0 <= k < n ==> all[k].absTime < s[n].absTime;
    assert s[n] in s;
    var j :| 0 <= j < |all| && all[j] == s[n];
    if j > n {
      assert all[n] in all;
      OutsideGap(s, n, all[n]);
    }
  }

  // Two increasing sequences, the first closed in the second: a prefix of it.
  lemma {:induction false} ClosedIsPrefix<A>(s: seq<Task<A>>, all: seq<Task<A>>, n: nat)
    requires Increasing(s) && Increasing(all) && ClosedIn(s, all) && n <= |s|
    ensures n <= |all| && s[..n] == all[..n]
  {
    if n > 0 {
      ClosedIsPrefix(s, all, n - 1);
      assert forall k :: 0 <= k < n - 1 ==> s[k] == s[..n - 1][k] && all[k] == all[..n - 1][k];
      NextAgrees(s, all, n - 1);
      assert s[..n] == s[..n - 1] + [s[n - 1]] && all[..n] == all[..n - 1] + [all[n - 1]];
    }
  }

  // Tasks chosen by p were scheduled at strictly increasing times, none of them with a negative
  // delay, and never cancelled.
  ghost predicate Steady<A>(p: A -> bool, s: State<A>) {
    && IncreasingOn(p, s.accepted)
    && (forall k :: 0 <= k < |s.accepted| && p(s.accepted[k].action) ==> k !in s.backdated)
    && forall k :: 0 <= k < |s.accepted| && k < |s.futures| && p(s.accepted[k].action) ==> !s.futures[k].IsCancelled()
  }

  lemma StartedIncreasing<A>(p: A -> bool, s: State<A>)
    requires Inv(s) && Steady(p, s)
    ensures IncreasingOn(p, TasksOf(s.started))
  {
    var ts, line := TasksOf(s.started), Line(s);
    forall i, j | 0 <= i < j < |ts| && p(ts[i].action) && p(ts[j].action)
      ensures ts[i].absTime < ts[j].absTime
    {
      assert ts[i] == line[i] && ts[j] == line[j];
      var a, b := s.started[i].task, s.started[j].task;
      assert Known(s, a) && Known(s, b) && a.id != b.id;
    }
  }

  // An earlier steady task of one that has begun has begun itself.
  lemma EarlierHasBegun<A>(p: A -> bool, s: State<A>, t: Task<A>, u: Task<A>)
    requires Inv(s) && Steady(p, s)
    requires t in TasksOf(s.started) && u in s.accepted && p(u.action) && u.absTime < t.absTime
    ensures u in TasksOf(s.started)
  {
    var ts, line := TasksOf(s.started), Line(s);
    var i :| 0 <= i < |ts| && ts[i] == t;
    assert line[i] == t;
    assert t in line && t.absTime <= s.horizon;
    assert u !in s.queue;
    var rest := Rest(s.worker);
    forall k | 0 <= k < |rest|
      ensures rest[k] != u
    {
      assert line[|ts| + k] == rest[k];
    }
    assert u !in rest;
    var id :| 0 <= id < |s.accepted| && s.accepted[id] == u;
    assert !s.futures[id].IsCancelled();
    assert id in StartedIds(s.started);
    var m :| 0 <= m < |s.started| && s.started[m].task.id == id;
    assert Known(s, s.started[m].task);
    assert ts[m] == u;
  }

  // First in, first out: immediate tasks accepted at increasing times begin in the order they were
  // accepted, none overtaken and none skipped.
  lemma BeginInOrder<A>(p: A -> bool, s: State<A>)
    requires Inv(s) && Steady(p, s)
    ensures Select(p, TasksOf(s.started)) <= Select(p, s.accepted)
  {
    var begun, all := Select(p, TasksOf(s.started)), Select(p, s.accepted);
    StartedIncreasing(p, s);
    SelectIncreasing(p, TasksOf(s.started));
    SelectIncreasing(p, s.accepted);
    BegunIsClosed(p, s);
    ClosedIsPrefix(begun, all, |begun|);
    assert begun[..|begun|] == begun;
  }

  lemma BegunIsClosed<A>(p: A -> bool, s: State<A>)
    requires Inv(s) && Steady(p, s)
    ensures ClosedIn(Select(p, TasksOf(s.started)), Select(p, s.accepted))
  {
    var ts := TasksOf(s.started);
    forall t | t in Select(p, ts)
      ensures t in Select(p, s.accepted)
    {
      SelectMember(p, ts, t);
      SelectMember(p, s.accepted, t);
      var i :| 0 <= i < |ts| && ts[i] == t;
      assert Known(s, s.started[i].task);
    }
    forall t, u | t in Select(p, ts) && u in Select(p, s.accepted) && u.absTime < t.absTime
      ensures u in Select(p, ts)
    {
      SelectMember(p, ts, t);
      SelectMember(p, s.accepted, u);
      EarlierHasBegun(p, s, t, u);
      SelectMember(p, ts, u);
    }
  }
}
