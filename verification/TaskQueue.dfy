// TaskQueue of scheduler.py over the array heap that heapq documents.

// Tasks, their (time, priority) order, and what it means to be a heap or sorted.
module Tasks {

  // `id` names the future of the task; futures are numbered in the order tasks are accepted.
  datatype Task<+A> = Task(id: nat, absTime: real, priority: int, action: A)

  // The comparison of heap entries, up to a tie on (time, priority).
  predicate Less<A>(a: Task<A>, b: Task<A>) {
    a.absTime < b.absTime || (a.absTime == b.absTime && a.priority < b.priority)
  }

  predicate Leq<A>(a: Task<A>, b: Task<A>) {
    !Less(b, a)
  }

  function Parent(k: nat): nat
    requires k > 0
  {
    (k - 1) / 2
  }

  predicate Above<A>(q: seq<Task<A>>, k: nat)
    requires 0 < k < |q|
  {
    Leq(q[Parent(k)], q[k])
  }

  ghost predicate IsHeap<A>(q: seq<Task<A>>) {
    forall k :: 0 < k < |q| ==> Above(q, k)
  }

  // A heap except that entry i may be smaller than its parent.
  ghost predicate RisingAt<A>(q: seq<Task<A>>, i: nat) {
    && (forall k :: 0 < k < |q| && k != i ==> Above(q, k))
    && Bridged(q, i)
  }

  // A heap except that entry i may be larger than its children.
  ghost predicate SinkingAt<A>(q: seq<Task<A>>, i: nat) {
    && (forall k :: 0 < k < |q| && Parent(k) != i ==> Above(q, k))
    && Bridged(q, i)
  }

  ghost predicate Bridged<A>(q: seq<Task<A>>, i: nat) {
    0 < i < |q| ==> forall k :: 0 < k < |q| && Parent(k) == i ==> Leq(q[Parent(i)], q[k])
  }

  ghost predicate Sorted<A>(s: seq<Task<A>>) {
    forall i, j :: 0 <= i < j < |s| ==> Leq(s[i], s[j])
  }

  // Sorted with no tie: what a sort of tasks with distinct keys yields.
  ghost predicate StrictlySorted<A>(s: seq<Task<A>>) {
    forall i, j :: 0 <= i < j < |s| ==> Less(s[i], s[j])
  }

  lemma {:induction false} RootIsLeast<A>(q: seq<Task<A>>, k: nat)
    requires IsHeap(q) && k < |q|
    ensures Leq(q[0], q[k])
  {
    if k > 0 {
      RootIsLeast(q, Parent(k));
      assert Above(q, k);
    }
  }

  function Swap<A>(q: seq<A>, i: nat, j: nat): (r: seq<A>)
    requires i < |q| && j < |q|
    ensures |r| == |q| && multiset(r) == multiset(q)
    ensures r[i] == q[j] && r[j] == q[i]
    ensures forall k :: 0 <= k < |q| && k != i && k != j ==> r[k] == q[k]
  {
    q[i := q[j]][j := q[i]]
  }

  lemma RiseOnce<A>(q: seq<Task<A>>, i: nat)
    requires 0 < i < |q| && RisingAt(q, i) && Less(q[i], q[Parent(i)])
    ensures RisingAt(Swap(q, i, Parent(i)), Parent(i))
  {
    var p := Parent(i);
    var q' := Swap(q, i, p);
    forall k | 0 < k < |q'| && k != p
      ensures Above(q', k)
    {
      assert k != i ==> Above(q, k);
    }
    forall k | 0 < k < |q'| && Parent(k) == p && p > 0
      ensures Leq(q'[Parent(p)], q'[k])
    {
      assert Above(q, p);
      assert k != i ==> Above(q, k);
    }
  }

  lemma SinkOnce<A>(q: seq<Task<A>>, i: nat, child: nat)
    requires 0 < child < |q| && Parent(child) == i && SinkingAt(q, i)
    requires forall k :: 0 < k < |q| && Parent(k) == i ==> Leq(q[child], q[k])
    requires Less(q[child], q[i])
    ensures SinkingAt(Swap(q, i, child), child)
  {
    var q' := Swap(q, i, child);
    forall k | 0 < k < |q'| && Parent(k) != child
      ensures Above(q', k)
    {
      assert Parent(k) != i ==> Above(q, k);
    }
    forall k | 0 < k < |q'| && Parent(k) == child
      ensures Leq(q'[Parent(child)], q'[k])
    {
      assert Above(q, k);
    }
  }

  lemma SinkDone<A>(q: seq<Task<A>>, i: nat)
    requires SinkingAt(q, i)
    requires forall k :: 0 < k < |q| && Parent(k) == i ==> Leq(q[i], q[k])
    ensures IsHeap(q)
  {
  }

  // The entry a sinking task is compared with: its smaller child.
  function SmallerChild<A>(q: seq<Task<A>>, i: nat): (child: nat)
    requires 2 * i + 1 < |q|
    ensures 0 < child < |q| && Parent(child) == i
    ensures forall k :: 0 < k < |q| && Parent(k) == i ==> Leq(q[child], q[k])
  {
    assert forall k: nat :: k > 0 && Parent(k) == i ==> k == 2 * i + 1 || k == 2 * i + 2;
    if 2 * i + 2 < |q| && !Less(q[2 * i + 1], q[2 * i + 2]) then 2 * i + 2 else 2 * i + 1
  }

  lemma MemberOfEither<A>(s: seq<A>, t: seq<A>, r: seq<A>)
    requires multiset(s) == multiset(t) + multiset(r)
    ensures forall x :: x in s <==> x in t || x in r
  {
    forall x
      ensures x in s <==> x in t || x in r
    {
      assert x in s <==> x in multiset(s);
      assert x in t <==> x in multiset(t);
      assert x in r <==> x in multiset(r);
    }
  }

  // With distinct keys the due tasks in order are the front of the one sorted arrangement.
  lemma {:induction false} DueIsPrefix<A>(all: seq<Task<A>>, due: seq<Task<A>>, rest: seq<Task<A>>)
    requires StrictlySorted(all) && Sorted(due)
    requires multiset(all) == multiset(due) + multiset(rest)
    requires forall d, r :: d in due && r in rest ==> Less(d, r)
    ensures |due| <= |all| && due == all[..|due|]
  {
    assert |all| == |multiset(all)| && |due| == |multiset(due)|;
    if due != [] {
      FirstIsFirst(all, due, rest);
      DropFirst(all, due, rest);
      forall d, r | d in due[1..] && r in rest
        ensures Less(d, r)
      {
        assert d in due;
      }
      DueIsPrefix(all[1..], due[1..], rest);
      assert due == [due[0]] + due[1..] && all == [all[0]] + all[1..];
    }
  }

  lemma DropFirst<T>(all: seq<T>, due: seq<T>, rest: seq<T>)
    requires due != [] && all != [] && all[0] == due[0]
    requires multiset(all) == multiset(due) + multiset(rest)
    ensures multiset(all[1..]) == multiset(due[1..]) + multiset(rest)
  {
    assert all == [all[0]] + all[1..] && due == [due[0]] + due[1..];
    assert multiset(all[1..]) == multiset(all) - multiset{all[0]};
    assert multiset(due[1..]) == multiset(due) - multiset{due[0]};
  }

  lemma FirstIsFirst<A>(all: seq<Task<A>>, due: seq<Task<A>>, rest: seq<Task<A>>)
    requires StrictlySorted(all) && Sorted(due) && due != [] && all != []
    requires multiset(all) == multiset(due) + multiset(rest)
    requires forall d, r :: d in due && r in rest ==> Less(d, r)
    ensures all[0] == due[0]
  {
    MemberOfEither(all, due, rest);
    var first := due[0];
    assert first in due && all[0] in all;
    var j :| 0 <= j < |all| && all[j] == first;
    if j > 0 {
      assert Less(all[0], first);
      if all[0] in due {
        var k :| 0 <= k < |due| && due[k] == all[0];
        assert k > 0 ==> Leq(first, all[0]);
      }
    }
  }
}

module TaskQueues {
  import opened Runs
  import opened Tasks

  class TaskQueue<A> {
    var queue: seq<Task<A>>

    ghost predicate Valid()
      reads this
    {
      IsHeap(queue)
    }

    constructor ()
      ensures Valid() && queue == []
    {
      queue := [];
    }

    // heapq.heappush: append, then sift the new entry towards the root.
    method HeapPush(task: Task<A>)
      requires Valid()
      modifies this
      ensures Valid() && multiset(queue) == old(multiset(queue)) + multiset{task}
    {
      queue := queue + [task];
      var i := |queue| - 1;
      forall k | 0 < k < |queue| && k != i
        ensures Above(queue, k)
      {
        assert Above(old(queue), k);
      }
      while i > 0 && Less(queue[i], queue[Parent(i)])
        invariant 0 <= i < |queue| && RisingAt(queue, i)
        invariant multiset(queue) == old(multiset(queue)) + multiset{task}
      {
        RiseOnce(queue, i);
        var parent := Parent(i);
        queue := Swap(queue, i, parent);
        i := parent;
      }
    }

    // heapq.heappop: move the last entry to the root and sift it towards the leaves.
    method HeapPop() returns (top: Task<A>)
      requires Valid() && queue != []
      modifies this
      ensures Valid() && top == old(queue)[0]
      ensures old(multiset(queue)) == multiset(queue) + multiset{top}
      ensures forall t :: t in queue ==>
                top.absTime < t.absTime || (top.absTime == t.absTime && top.priority <= t.priority)
    {
      ghost var before := queue;
      top := queue[0];
      var last := queue[|queue| - 1];
      queue := queue[..|queue| - 1];
      assert before == queue + [last];
      if queue == [] {
        return;
      }
      ghost var front := queue;
      queue := queue[0 := last];
      assert multiset(before) == multiset(queue) + multiset{top};
      assert forall k :: 0 < k < |queue| ==> queue[k] == before[k] && Above(before, k);
      SiftDown();
      forall t | t in queue
        ensures Leq(top, t)
      {
        assert t in multiset(queue);
        assert t in multiset(before);
        var k :| 0 <= k < |before| && before[k] == t;
        RootIsLeast(before, k);
      }
    }

    method SiftDown()
      requires SinkingAt(queue, 0)
      modifies this
      ensures Valid() && multiset(queue) == old(multiset(queue)) && |queue| == old(|queue|)
    {
      var i := 0;
      while 2 * i + 1 < |queue|
        invariant 0 <= i && |queue| == old(|queue|) && SinkingAt(queue, i)
        invariant multiset(queue) == old(multiset(queue))
      {
        var child := SmallerChild(queue, i);
        if Leq(queue[i], queue[child]) {
          SinkDone(queue, i);
          return;
        }
        SinkOnce(queue, i, child);
        queue := Swap(queue, i, child);
        i := child;
      }
      SinkDone(queue, i);
    }

    // schedule_task
    method ScheduleTask(task: Task<A>)
      requires Valid()
      modifies this
      ensures Valid() && multiset(queue) == old(multiset(queue)) + multiset{task}
    {
      HeapPush(task);
    }

    // empty
    method Empty() returns (r: bool)
      ensures r <==> multiset(queue) == multiset{}
    {
      r := queue == [];
      assert !r ==> queue[0] in multiset(queue);
    }

    // pop_tasks_till_timestamp: exactly the due tasks, in (time, priority) order.
    method PopTasksTillTimestamp(timestamp: real) returns (tasks: seq<Task<A>>)
      requires Valid()
      modifies this
      ensures Valid()
      ensures multiset(tasks) + multiset(queue) == old(multiset(queue))
      ensures forall t :: t in tasks ==> t.absTime <= timestamp
      ensures forall t :: t in queue ==> t.absTime > timestamp
      ensures forall i, j :: 0 <= i < j < |tasks| ==>
                || tasks[i].absTime < tasks[j].absTime
                || (tasks[i].absTime == tasks[j].absTime && tasks[i].priority <= tasks[j].priority)
      ensures Sorted(tasks)
      ensures forall all :: StrictlySorted(all) && multiset(all) == old(multiset(queue)) ==>
                |tasks| <= |all| && tasks == all[..|tasks|]
    {
      tasks := [];
      while queue != [] && queue[0].absTime <= timestamp
        invariant Valid() && Sorted(tasks)
        invariant multiset(tasks) + multiset(queue) == old(multiset(queue))
        invariant forall t :: t in tasks ==> t.absTime <= timestamp
        invariant forall t, u :: t in tasks && u in queue ==> Leq(t, u)
        decreases |multiset(queue)|
      {
        ghost var before, earlier := queue, tasks;
        var task := HeapPop();
        assert task in before;
        MemberOfEither(before, queue, [task]);
        tasks := tasks + [task];
        assert multiset(tasks) == multiset(earlier) + multiset{task};
      }
      forall t | t in queue
        ensures t.absTime > timestamp
      {
        var k :| 0 <= k < |queue| && queue[k] == t;
        RootIsLeast(queue, k);
      }
      assert forall i, j :: 0 <= i < j < |tasks| ==> Leq(tasks[i], tasks[j]);
      forall all | StrictlySorted(all) && multiset(all) == old(multiset(queue))
        ensures |tasks| <= |all| && tasks == all[..|tasks|]
      {
        DueIsPrefix(all, tasks, queue);
      }
    }

    // get_time_till_next_task: the distance to the true minimum, None when there is no task.
    method GetTimeTillNextTask(timestamp: real) returns (delay: Option<real>)
      requires Valid()
      ensures delay.None? <==> queue == []
      ensures delay.Some? ==>
                && (exists t :: t in queue && delay.value == t.absTime - timestamp)
                && (forall t :: t in queue ==> delay.value <= t.absTime - timestamp)
    {
      if queue == [] {
        return None;
      }
      forall t | t in queue
        ensures queue[0].absTime <= t.absTime
      {
        var k :| 0 <= k < |queue| && queue[k] == t;
        RootIsLeast(queue, k);
      }
      assert queue[0] in queue;
      return Some(queue[0].absTime - timestamp);
    }

    // get_tasks
    method GetTasks() returns (tasks: seq<Task<A>>)
      ensures tasks == queue
    {
      tasks := queue;
    }
  }
}
