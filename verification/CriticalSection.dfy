// sys_arch_protect and sys_arch_unprotect: a re-entrant lock whose owner field is read outside
// the mutex, as interleaved steps of any number of threads.
module CriticalSectionProtocol {
  import opened Runs

  type Tid = int

  const NOBODY := 0xDEAD

  datatype Lock = Lock(
    thread: Tid,           // lwprot_thread
    count: int,            // lwprot_count
    mutex: Option<Tid>)    // who locked lwprot_mutex

  datatype Pc =
    | Outside
    | ProtectRead       // 696
    | ProtectLock       // 700
    | ProtectOwn        // 701
    | ProtectSet        // 702
    | ProtectIncr       // 706
    | UnprotectRead     // 721
    | UnprotectDecr     // 723
    | UnprotectTest     // 724
    | UnprotectDisown   // 726
    | UnprotectUnlock   // 727

  // `depth` counts the completed protects of a thread not yet undone by an unprotect.
  datatype Thread = Thread(pc: Pc, depth: nat)

  datatype State = State(lock: Lock, threads: map<Tid, Thread>)

  function Free(): Lock {
    Lock(NOBODY, 0, None)
  }

  ghost predicate Init(s: State) {
    s.lock == Free() && NOBODY !in s.threads && forall t :: t in s.threads ==> s.threads[t] == Thread(Outside, 0)
  }

  predicate Enabled(lock: Lock, pc: Pc) {
    pc != Outside && (pc == ProtectLock ==> lock.mutex == None)
  }

  // One statement of thread t.
  function Act(lock: Lock, t: Tid, pc: Pc): (Lock, Pc)
    requires Enabled(lock, pc)
  {
    match pc
    case ProtectRead => (lock, if lock.thread != t then ProtectLock else ProtectIncr)
    case ProtectLock => (lock.(mutex := Some(t)), ProtectOwn)
    case ProtectOwn => (lock.(thread := t), ProtectSet)
    case ProtectSet => (lock.(count := 1), Outside)
    case ProtectIncr => (lock.(count := lock.count + 1), Outside)
    case UnprotectRead => (lock, if lock.thread == t then UnprotectDecr else Outside)
    case UnprotectDecr => (lock.(count := lock.count - 1), UnprotectTest)
    case UnprotectTest => (lock, if lock.count == 0 then UnprotectDisown else Outside)
    case UnprotectDisown => (lock.(thread := NOBODY), UnprotectUnlock)
    case UnprotectUnlock => (lock.(mutex := None), Outside)
  }

  // How a completed statement changes the nesting depth: a protect that returns has nested once
  // more, an unprotect that undid one returns one level out.
  function DepthAfter(depth: nat, pc: Pc, pc': Pc): nat {
    if pc in {ProtectSet, ProtectIncr} then depth + 1
    else if pc in {UnprotectTest, UnprotectUnlock} && pc' == Outside && depth > 0 then depth - 1
    else depth
  }

  ghost predicate Move(s: State, t: Tid, s': State) {
    && t in s.threads
    && var th := s.threads[t];
       if th.pc == Outside then
         exists pc :: pc in {ProtectRead, UnprotectRead} && s' == s.(threads := s.threads[t := Thread(pc, th.depth)])
       else
         && Enabled(s.lock, th.pc)
         && var (lock', pc') := Act(s.lock, t, th.pc);
            s' == State(lock', s.threads[t := Thread(pc', DepthAfter(th.depth, th.pc, pc'))])
  }

  ghost predicate Next(s: State, s': State) {
    exists t :: Move(s, t, s')
  }

  // A thread holds the mutex exactly when it is nested, or has locked and not yet counted itself.
  predicate Inside(th: Thread) {
    th.depth > 0 || th.pc in {ProtectOwn, ProtectSet}
  }

  predicate Registered(th: Thread) {
    Inside(th) && th.pc !in {ProtectOwn, UnprotectUnlock}
  }

  predicate Consistent(th: Thread) {
    && (th.pc in {ProtectLock, ProtectOwn, ProtectSet} ==> th.depth == 0)
    && (th.pc in {ProtectIncr, UnprotectDecr, UnprotectTest, UnprotectDisown, UnprotectUnlock} ==> th.depth > 0)
    && (th.pc in {UnprotectDisown, UnprotectUnlock} ==> th.depth == 1)
  }

  predicate Counted(lock: Lock, th: Thread) {
    th.depth > 0 ==>
      lock.count == th.depth - (if th.pc in {UnprotectTest, UnprotectDisown, UnprotectUnlock} then 1 else 0)
  }

  ghost predicate Inv(s: State) {
    && NOBODY !in s.threads
    && (s.lock.thread == NOBODY || s.lock.thread in s.threads)
    && (s.lock.mutex.Some? ==> s.lock.mutex.value in s.threads)
    && (s.lock.mutex == None ==> s.lock == Free())
    && forall t :: t in s.threads ==>
         && Consistent(s.threads[t])
         && (Inside(s.threads[t]) <==> s.lock.mutex == Some(t))
         && (Registered(s.threads[t]) <==> s.lock.thread == t)
         && Counted(s.lock, s.threads[t])
  }

  lemma MoveKeepsInv(s: State, t: Tid, s': State)
    requires Inv(s) && Move(s, t, s')
    ensures Inv(s')
  {
  }

  lemma InvAlways(tr: seq<State>, i: nat)
    requires IsRun(Init, Next, tr) && i < |tr|
    ensures Inv(tr[i])
  {
    forall s, s' | Inv(s) && Next(s, s') ensures Inv(s') {
      var t :| Move(s, t, s');
      MoveKeepsInv(s, t, s');
    }
    InvariantAt(Init, Next, Inv, tr, i);
  }

  // The unsynchronised reads are right under every interleaving: a thread about to read the owner,
  // or outside both functions, is the recorded owner exactly when it holds the mutex, which is
  // exactly when it is nested; the counter is then its nesting depth.
  lemma OwnerReadIsExact(tr: seq<State>, i: nat, t: Tid)
    requires IsRun(Init, Next, tr) && i < |tr| && t in tr[i].threads
    requires tr[i].threads[t].pc in {Outside, ProtectRead, UnprotectRead}
    ensures tr[i].lock.thread == t <==> tr[i].lock.mutex == Some(t)
    ensures tr[i].lock.thread == t <==> tr[i].threads[t].depth > 0
    ensures tr[i].lock.thread == t ==> tr[i].lock.count == tr[i].threads[t].depth
  {
    InvAlways(tr, i);
  }

  // At most one thread is nested, and a holder never reaches the lock call.
  lemma MutualExclusion(tr: seq<State>, i: nat, t: Tid, u: Tid)
    requires IsRun(Init, Next, tr) && i < |tr| && t in tr[i].threads && u in tr[i].threads
    ensures tr[i].threads[t].depth > 0 && tr[i].threads[u].depth > 0 ==> t == u
    ensures tr[i].threads[t].pc == ProtectLock ==> tr[i].lock.mutex != Some(t)
  {
    InvAlways(tr, i);
  }

  // The mutex is released exactly by the statement that completes the outermost unprotect, and
  // taken exactly on the way into the outermost protect.
  lemma ReleasedAtOutermost(tr: seq<State>, i: nat, t: Tid)
    requires IsRun(Init, Next, tr) && i + 1 < |tr| && Move(tr[i], t, tr[i + 1])
    ensures t in tr[i].threads && t in tr[i + 1].threads
    ensures tr[i].lock.mutex.Some? && tr[i + 1].lock.mutex == None
            <==> tr[i].threads[t].depth == 1 && tr[i + 1].threads[t].depth == 0
    ensures tr[i].lock.mutex == None && tr[i + 1].lock.mutex.Some? <==> tr[i].threads[t].pc == ProtectLock
    ensures tr[i].threads[t].pc == ProtectLock ==>
              tr[i + 1].lock.mutex == Some(t) && tr[i].threads[t].depth == 0
  {
    InvAlways(tr, i);
  }

  // A thread waits only for another thread that is inside and can itself go on.
  lemma BlockedOnlyByAnother(tr: seq<State>, i: nat, t: Tid)
    requires IsRun(Init, Next, tr) && i < |tr| && t in tr[i].threads
    requires tr[i].threads[t].pc != Outside && !Enabled(tr[i].lock, tr[i].threads[t].pc)
    ensures var holder := tr[i].lock.mutex;
            && holder.Some? && holder.value != t && holder.value in tr[i].threads
            && var h := tr[i].threads[holder.value];
               Inside(h) && (h.pc == Outside || Enabled(tr[i].lock, h.pc))
  {
    InvAlways(tr, i);
  }

  function Rank(pc: Pc): nat {
    match pc
    case Outside => 0
    case ProtectSet => 1
    case ProtectIncr => 1
    case UnprotectUnlock => 1
    case ProtectOwn => 2
    case UnprotectDisown => 2
    case ProtectLock => 3
    case UnprotectTest => 3
    case UnprotectDecr => 4
    case ProtectRead => 5
    case UnprotectRead => 5
  }

  // A call run to its end by thread t alone; None when it blocks on the mutex.
  function Call(lock: Lock, t: Tid, pc: Pc): Option<Lock>
    decreases Rank(pc)
  {
    if pc == Outside then Some(lock)
    else if !Enabled(lock, pc) then None
    else var (lock', pc') := Act(lock, t, pc); Call(lock', t, pc')
  }

  predicate Between(lock: Lock) {
    && (lock.mutex == None <==> lock.thread == NOBODY)
    && (lock.mutex.Some? ==> lock.mutex == Some(lock.thread) && lock.count > 0)
  }

  // How deep thread t is nested, as the lock's own fields tell it.
  function Depth(lock: Lock, t: Tid): int {
    if lock.thread == t then lock.count else 0
  }

  lemma ProtectCall(lock: Lock, t: Tid)
    requires Between(lock) && t != NOBODY
    ensures Call(lock, t, ProtectRead) ==
            if lock.thread == t then Some(lock.(count := lock.count + 1))
            else if lock.mutex == None then Some(Lock(t, 1, Some(t))) else None
  {
    if lock.thread == t {
      assert Call(lock, t, ProtectIncr) == Some(lock.(count := lock.count + 1));
    } else if lock.mutex == None {
      var locked := lock.(mutex := Some(t));
      assert Call(locked.(thread := t), t, ProtectSet) == Some(Lock(t, 1, Some(t)));
      assert Call(locked, t, ProtectOwn) == Some(Lock(t, 1, Some(t)));
      assert Call(lock, t, ProtectLock) == Some(Lock(t, 1, Some(t)));
    } else {
      assert Call(lock, t, ProtectLock) == None;
    }
  }

  lemma UnprotectCall(lock: Lock, t: Tid)
    requires Between(lock) && t != NOBODY
    ensures Call(lock, t, UnprotectRead) ==
            Some(if lock.thread != t then lock
                 else if lock.count == 1 then Free() else lock.(count := lock.count - 1))
  {
    if lock.thread == t {
      var counted := lock.(count := lock.count - 1);
      if lock.count == 1 {
        assert Call(counted.(thread := NOBODY), t, UnprotectUnlock) == Some(Free());
        assert Call(counted, t, UnprotectDisown) == Some(Free());
      }
      assert Call(counted, t, UnprotectTest) == Some(if lock.count == 1 then Free() else counted);
      assert Call(lock, t, UnprotectDecr) == Call(counted, t, UnprotectTest);
    }
  }

  // ---------- a call that nobody disturbs ----------

  ghost function By(t: Tid): (State, State) -> bool {
    (s: State, s': State) => Move(s, t, s')
  }

  // Run alone, thread t finishes the call it is in.
  lemma {:induction false} FinishesCall(s: State, t: Tid) returns (s': State)
    requires t in s.threads && s.threads[t].pc != Outside && Call(s.lock, t, s.threads[t].pc).Some?
    ensures LeadsTo(By(t), s, s') && s'.lock == Call(s.lock, t, s.threads[t].pc).value
    ensures t in s'.threads && s'.threads[t].pc == Outside
    ensures s'.threads == s.threads[t := s'.threads[t]]
    decreases Rank(s.threads[t].pc)
  {
    var th := s.threads[t];
    var (lock', pc') := Act(s.lock, t, th.pc);
    s' := State(lock', s.threads[t := Thread(pc', DepthAfter(th.depth, th.pc, pc'))]);
    LeadsToItself(By(t), s);
    LeadsToNext(By(t), s, s, s');
    if pc' != Outside {
      var mid := s';
      s' := FinishesCall(mid, t);
      LeadsToLeads(By(t), s, mid, s');
      assert mid.threads[t := s'.threads[t]] == s.threads[t := s'.threads[t]];
    }
  }

  lemma InvReachable(s: State)
    requires Reachable(Init, Next, s)
    ensures Inv(s)
  {
    var tr :| IsRun(Init, Next, tr) && tr[|tr| - 1] == s;
    InvAlways(tr, |tr| - 1);
  }

  // From outside, thread t calls protect, or unprotect, and comes back out.
  lemma CallRuns(s: State, t: Tid, pc: Pc) returns (s': State)
    requires Reachable(Init, Next, s) && t in s.threads && s.threads[t].pc == Outside
    requires pc in {ProtectRead, UnprotectRead} && Call(s.lock, t, pc).Some?
    ensures LeadsTo(By(t), s, s') && Inv(s) && Inv(s') && s'.lock == Call(s.lock, t, pc).value
    ensures t in s'.threads && s'.threads[t].pc == Outside && s'.threads == s.threads[t := s'.threads[t]]
  {
    var inside := s.(threads := s.threads[t := Thread(pc, s.threads[t].depth)]);
    LeadsToItself(By(t), s);
    LeadsToNext(By(t), s, s, inside);
    s' := FinishesCall(inside, t);
    LeadsToLeads(By(t), s, inside, s');
    assert inside.threads[t := s'.threads[t]] == s.threads[t := s'.threads[t]];
    LeadsWider(By(t), Next, s, s');
    ReachableLeads(Init, Next, s, s');
    InvReachable(s);
    InvReachable(s');
  }

  lemma LockIsBetween(s: State, t: Tid)
    requires Inv(s) && t in s.threads && s.threads[t].pc == Outside
    requires s.lock.mutex == None || s.lock.mutex == Some(t)
    ensures Between(s.lock) && t != NOBODY
    ensures s.lock.thread == t <==> s.threads[t].depth > 0
  {
  }

  // A thread that is nested, or finds the mutex free, can protect with nobody else moving, and is then
  // nested once more; the lock is its own.
  lemma ProtectRunsAlone(s: State, t: Tid) returns (s': State)
    requires Reachable(Init, Next, s) && t in s.threads && s.threads[t].pc == Outside
    requires s.threads[t].depth > 0 || s.lock.mutex == None
    ensures LeadsTo(By(t), s, s') && s'.threads == s.threads[t := Thread(Outside, s.threads[t].depth + 1)]
    ensures s'.lock == Lock(t, s.threads[t].depth + 1, Some(t))
  {
    InvReachable(s);
    LockIsBetween(s, t);
    ProtectCall(s.lock, t);
    s' := CallRuns(s, t, ProtectRead);
  }

  // An unprotect undoes one nesting, frees the lock exactly at the outermost one, and does nothing for
  // a thread that is not nested, whoever else is.
  lemma UnprotectRunsAlone(s: State, t: Tid) returns (s': State)
    requires Reachable(Init, Next, s) && t in s.threads && s.threads[t].pc == Outside
    ensures LeadsTo(By(t), s, s')
    ensures var depth := s.threads[t].depth;
            && s'.threads == s.threads[t := Thread(Outside, if depth > 0 then depth - 1 else 0)]
            && s'.lock == if depth == 0 then s.lock else if depth == 1 then Free() else Lock(t, depth - 1, Some(t))
  {
    InvReachable(s);
    if s.threads[t].depth > 0 {
      LockIsBetween(s, t);
      UnprotectCall(s.lock, t);
    } else {
      assert Call(s.lock, t, UnprotectRead) == Some(s.lock);
    }
    s' := CallRuns(s, t, UnprotectRead);
  }
}

// The two static variables and the mutex, as the C code updates them.
module LightweightProtection {
  import opened Runs
  import opened CriticalSectionProtocol

  class LwProt {
    var lwprotThread: Tid
    var lwprotCount: int
    var locked: bool
    ghost var lockedBy: Tid

    ghost function Fields(): Lock
      reads this
    {
      Lock(lwprotThread, lwprotCount, if locked then Some(lockedBy) else None)
    }

    constructor ()
      ensures Fields() == Free() && Between(Fields())
    {
      lwprotThread, lwprotCount, locked := NOBODY, 0, false;
    }

    // sys_arch_protect, called by `self` when the lock at line 700, if reached, can be taken.
    method Protect(self: Tid)
      requires self != NOBODY && Between(Fields())
      requires Call(Fields(), self, ProtectRead).Some?
      modifies this
      ensures Call(old(Fields()), self, ProtectRead) == Some(Fields()) && Between(Fields())
      ensures Depth(Fields(), self) == old(Depth(Fields(), self)) + 1
    {
      ProtectCall(Fields(), self);
      if lwprotThread != self {
        locked, lockedBy := true, self;
        lwprotThread := self;
        lwprotCount := 1;
      } else {
        lwprotCount := lwprotCount + 1;
      }
    }

    // sys_arch_unprotect, called by `self`; a thread that is not the owner changes nothing.
    method Unprotect(self: Tid)
      requires self != NOBODY && Between(Fields())
      modifies this
      ensures Call(old(Fields()), self, UnprotectRead) == Some(Fields()) && Between(Fields())
      ensures Depth(Fields(), self) == if old(Depth(Fields(), self)) > 0 then old(Depth(Fields(), self)) - 1 else 0
      ensures old(locked) && !locked <==> old(Depth(Fields(), self)) == 1
    {
      UnprotectCall(Fields(), self);
      if lwprotThread == self {
        lwprotCount := lwprotCount - 1;
        if lwprotCount == 0 {
          lwprotThread := NOBODY;
          locked := false;
        }
      }
    }
  }
}
