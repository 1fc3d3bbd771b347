// The counting layer of sys_arch.c: an atomic binary semaphore, the pthread
// protocol that implements it, and the object whose field the C code updates.

// What callers rely on: an atomic semaphore capped at one.
module BinarySemaphore {
  import opened Runs

  datatype Event = Signalled | Passed

  // One atomic operation; a wait cannot pass at zero.
  function Apply(c: nat, e: Event): Option<nat> {
    match e
    case Signalled => Some(1)
    case Passed => if c > 0 then Some(c - 1) else None
  }

  // The count after a whole history, None when some wait passed at zero.
  function Replay(initial: nat, log: seq<Event>): Option<nat> {
    if log == [] then Some(initial)
    else match Replay(initial, log[..|log| - 1])
      case None => None
      case Some(c) => Apply(c, log[|log| - 1])
  }

  function Count(log: seq<Event>, e: Event): nat {
    if log == [] then 0 else Count(log[..|log| - 1], e) + if log[|log| - 1] == e then 1 else 0
  }

  lemma ReplayAppend(initial: nat, log: seq<Event>, e: Event)
    requires Replay(initial, log).Some?
    ensures Replay(initial, log + [e]) == Apply(Replay(initial, log).value, e)
    ensures forall f :: Count(log + [e], f) == Count(log, f) + if f == e then 1 else 0
  {
    assert (log + [e])[..|log|] == log;
  }

  // Conservation: units taken and still held never exceed units given.
  lemma {:induction false} TakenAtMostGiven(initial: nat, log: seq<Event>)
    requires initial <= 1 && Replay(initial, log).Some?
    ensures Replay(initial, log).value <= 1
    ensures Count(log, Passed) + Replay(initial, log).value <= initial + Count(log, Signalled)
  {
    if log != [] {
      var before, e := log[..|log| - 1], log[|log| - 1];
      assert log == before + [e];
      TakenAtMostGiven(initial, before);
      ReplayAppend(initial, before, e);
    }
  }
}

// sys_arch_sem_wait and sys_sem_signal as interleaved pthread steps, for any
// number of threads, with spurious wake-ups and timeouts.
module SemaphoreProtocol {
  import opened Runs
  import opened BinarySemaphore

  type Tid = nat

  // Where a thread stands; `timed` records a timeout above zero.
  datatype Pc =
    | Idle
    | SigLock | SigInc | SigCap | SigBroadcast | SigUnlock
    | WaitLock(timed: bool) | WaitTest(timed: bool) | Asleep(timed: bool)
    | Waking(timed: bool, expired: bool)
    | WaitDec | WaitUnlock | ExpireUnlock

  datatype Call = Signal | Wait(timed: bool)

  datatype Result = Given | Got | TimedOut   // TimedOut is SYS_ARCH_TIMEOUT

  // What a completed call answered.
  datatype Answer = Answer(t: Tid, call: Call, result: Result)

  datatype State = State(
    initial: nat,        // the count given to sys_sem_new_internal
    c: nat,              // sem->c
    owner: Option<Tid>,  // holder of sem->mutex
    pcs: map<Tid, Pc>,
    log: seq<Event>,     // atomic operations, each at its linearization point
    passes: nat,         // waits that returned without SYS_ARCH_TIMEOUT
    signals: nat,        // signals that returned
    calls: map<Tid, Call>,  // the call each thread is in, or was in last
    answers: seq<Answer>)   // the calls completed, in order

  predicate Holds(pc: Pc) {
    pc in {SigInc, SigCap, SigBroadcast, SigUnlock, WaitDec, WaitUnlock, ExpireUnlock} || pc.WaitTest?
  }

  ghost predicate Init(s: State) {
    && s.initial <= 1
    && s.c == s.initial && s.owner == None && s.log == [] && s.passes == 0 && s.signals == 0
    && s.calls == map[] && s.answers == []
    && forall t :: t in s.pcs ==> s.pcs[t] == Idle
  }

  function Goto(s: State, t: Tid, pc: Pc): State {
    s.(pcs := s.pcs[t := pc])
  }

  ghost predicate Lock(s: State, t: Tid, pc: Pc, s': State) {
    s.owner == None && s' == Goto(s, t, pc).(owner := Some(t))
  }

  function Unlock(s: State, t: Tid, pc: Pc): State {
    Goto(s, t, pc).(owner := None)
  }

  function Enter(s: State, t: Tid, call: Call): State {
    Goto(s, t, match call case Signal => SigLock case Wait(timed) => WaitLock(timed)).(calls := s.calls[t := call])
  }

  // The call ends with the inner mutex given back.
  function Leave(s: State, t: Tid, result: Result): State {
    Unlock(s, t, Idle).(
      answers := if t in s.calls then s.answers + [Answer(t, s.calls[t], result)] else s.answers,
      passes := if result == Got then s.passes + 1 else s.passes,
      signals := if result == Given then s.signals + 1 else s.signals)
  }

  // pthread_cond_broadcast: every sleeper is notified and must retake the mutex.
  function WakeAll(pcs: map<Tid, Pc>): map<Tid, Pc> {
    map t | t in pcs :: if pcs[t].Asleep? then Waking(pcs[t].timed, false) else pcs[t]
  }

  ghost predicate ThreadStep(s: State, t: Tid, s': State)
    requires t in s.pcs
  {
    match s.pcs[t]
    case Idle => exists call :: s' == Enter(s, t, call)
    // sys_sem_signal
    case SigLock => Lock(s, t, SigInc, s')
    case SigInc => s' == Goto(s, t, SigCap).(c := s.c + 1)
    case SigCap => s' == Goto(s, t, SigBroadcast).(
      c := if s.c > 1 then 1 else s.c, log := s.log + [Signalled])
    case SigBroadcast => s' == s.(pcs := WakeAll(s.pcs)[t := SigUnlock])
    case SigUnlock => s' == Leave(s, t, Given)
    // sys_arch_sem_wait
    case WaitLock(timed) => Lock(s, t, WaitTest(timed), s')
    case WaitTest(timed) =>
      if s.c <= 0 then s' == Unlock(s, t, Asleep(timed)) else s' == Goto(s, t, WaitDec)
    case Asleep(timed) =>
      || s' == Goto(s, t, Waking(timed, false))              // spurious wake-up
      || (timed && s' == Goto(s, t, Waking(timed, true)))    // ETIMEDOUT
    case Waking(timed, expired) =>
      || Lock(s, t, if expired then ExpireUnlock else WaitTest(timed), s')
      // a measured wait of 0xFFFFFFFF ms reads as SYS_ARCH_TIMEOUT
      || (timed && Lock(s, t, ExpireUnlock, s'))
    case WaitDec =>
      s.c > 0 && s' == Goto(s, t, WaitUnlock).(c := s.c - 1, log := s.log + [Passed])
    case WaitUnlock => s' == Leave(s, t, Got)
    case ExpireUnlock => s' == Leave(s, t, TimedOut)
  }

  ghost predicate Next(s: State, s': State) {
    exists t :: t in s.pcs && ThreadStep(s, t, s')
  }

  // The program counter of the thread that holds the inner mutex.
  function OwnerPc(s: State): Pc {
    if s.owner.Some? && s.owner.value in s.pcs then s.pcs[s.owner.value] else Idle
  }

  // The count of the atomic semaphore this state stands for: an increment counts once capped.
  function AbstractCount(s: State): nat
    requires OwnerPc(s) == SigCap ==> s.c >= 1
  {
    if OwnerPc(s) == SigCap then s.c - 1 else s.c
  }

  // The mutex is held by exactly the thread inside a critical section.
  ghost predicate Locked(s: State) {
    && (s.owner.Some? ==> s.owner.value in s.pcs)
    && (forall t :: t in s.pcs ==> (Holds(s.pcs[t]) <==> s.owner == Some(t)))
  }

  // The count is zero or one outside the capping window, and one only if nobody sleeps on.
  ghost predicate Counted(s: State) {
    && (OwnerPc(s) == SigCap ==> 1 <= s.c <= 2)
    && (OwnerPc(s) != SigCap ==> s.c <= 1)
    && (OwnerPc(s) in {WaitDec, SigBroadcast} ==> s.c == 1)
    && (s.c > 0 && OwnerPc(s) !in {SigCap, SigBroadcast} ==>
          forall t :: t in s.pcs ==> !s.pcs[t].Asleep?)
  }

  // The completed calls of either kind, and those past their linearization point.
  function Passes(s: State): nat {
    s.passes + if OwnerPc(s) == WaitUnlock then 1 else 0
  }

  function Signals(s: State): nat {
    s.signals + if OwnerPc(s) in {SigBroadcast, SigUnlock} then 1 else 0
  }

  ghost predicate Recorded(s: State)
    requires Counted(s)
  {
    && s.initial <= 1
    && Replay(s.initial, s.log) == Some(AbstractCount(s))
    && Count(s.log, Passed) == Passes(s) && Count(s.log, Signalled) == Signals(s)
  }

  ghost predicate Inv(s: State) {
    Locked(s) && Counted(s) && Recorded(s)
  }

  lemma StepKeepsLocked(s: State, t: Tid, s': State)
    requires Locked(s) && t in s.pcs && ThreadStep(s, t, s')
    ensures Locked(s') && t in s'.pcs
  {
  }

  // The owner's program counter follows the stepping thread while that thread is inside.
  lemma OwnerPcAfter(s: State, t: Tid, s': State)
    requires Locked(s) && Locked(s') && t in s.pcs && t in s'.pcs && ThreadStep(s, t, s')
    ensures Holds(s.pcs[t]) ==> OwnerPc(s) == s.pcs[t]
    ensures !Holds(s.pcs[t]) && Holds(s'.pcs[t]) ==> OwnerPc(s) == Idle
    ensures OwnerPc(s') ==
            if Holds(s'.pcs[t]) then s'.pcs[t] else if Holds(s.pcs[t]) then Idle else OwnerPc(s)
  {
  }

  lemma StepKeepsCounted(s: State, t: Tid, s': State)
    requires Locked(s) && Counted(s) && t in s.pcs && ThreadStep(s, t, s')
    ensures Counted(s')
  {
    StepKeepsLocked(s, t, s');
    OwnerPcAfter(s, t, s');
  }

  // Only the two linearization points touch the count of the atomic semaphore and its history.
  lemma AbstractStep(s: State, t: Tid, s': State)
    requires Locked(s) && Counted(s) && Locked(s') && Counted(s')
    requires t in s.pcs && t in s'.pcs && ThreadStep(s, t, s')
    ensures s'.initial == s.initial
    ensures s.pcs[t] == SigCap ==>
              s'.log == s.log + [Signalled] && Apply(AbstractCount(s), Signalled) == Some(AbstractCount(s'))
    ensures s.pcs[t] == WaitDec ==>
              s'.log == s.log + [Passed] && Apply(AbstractCount(s), Passed) == Some(AbstractCount(s'))
    ensures s.pcs[t] !in {SigCap, WaitDec} ==> s'.log == s.log && AbstractCount(s') == AbstractCount(s)
  {
    OwnerPcAfter(s, t, s');
  }

  lemma CompletedCalls(s: State, t: Tid, s': State)
    requires Locked(s) && Locked(s') && t in s.pcs && t in s'.pcs && ThreadStep(s, t, s')
    ensures Passes(s') == Passes(s) + if s.pcs[t] == WaitDec then 1 else 0
    ensures Signals(s') == Signals(s) + if s.pcs[t] == SigCap then 1 else 0
  {
    OwnerPcAfter(s, t, s');
  }

  lemma LoggedOne(s: State, s': State, e: Event)
    requires Counted(s) && Recorded(s) && Counted(s') && s'.initial == s.initial && s'.log == s.log + [e]
    requires Apply(AbstractCount(s), e) == Some(AbstractCount(s'))
    requires Passes(s') == Passes(s) + (if e == Passed then 1 else 0)
    requires Signals(s') == Signals(s) + (if e == Signalled then 1 else 0)
    ensures Recorded(s')
  {
    ReplayAppend(s.initial, s.log, e);
  }

  lemma StepKeepsRecorded(s: State, t: Tid, s': State)
    requires Inv(s) && Locked(s') && Counted(s') && t in s.pcs && t in s'.pcs && ThreadStep(s, t, s')
    ensures Recorded(s')
  {
    AbstractStep(s, t, s');
    CompletedCalls(s, t, s');
    if s.pcs[t] == SigCap {
      LoggedOne(s, s', Signalled);
    } else if s.pcs[t] == WaitDec {
      LoggedOne(s, s', Passed);
    }
  }

  lemma StepKeepsInv(s: State, t: Tid, s': State)
    requires Inv(s) && t in s.pcs && ThreadStep(s, t, s')
    ensures Inv(s')
  {
    StepKeepsLocked(s, t, s');
    StepKeepsCounted(s, t, s');
    StepKeepsRecorded(s, t, s');
  }

  lemma InvAlways(tr: seq<State>, i: nat)
    requires IsRun(Init, Next, tr) && i < |tr|
    ensures Inv(tr[i])
  {
    forall s, s' | Inv(s) && Next(s, s') ensures Inv(s') {
      var t :| t in s.pcs && ThreadStep(s, t, s');
      StepKeepsInv(s, t, s');
    }
    InvariantAt(Init, Next, Inv, tr, i);
  }

  // Refinement: in every state of every run the atomic operations performed so far form a legal
  // history of the atomic semaphore, they end in the current count, and each completed call
  // contributed exactly one of them.
  lemma RefinesBinarySemaphore(tr: seq<State>, i: nat)
    requires IsRun(Init, Next, tr) && i < |tr|
    ensures var s := tr[i];
            && (OwnerPc(s) == SigCap ==> s.c >= 1)
            && Replay(s.initial, s.log) == Some(AbstractCount(s))
            && Count(s.log, Passed) == Passes(s) && Count(s.log, Signalled) == Signals(s)
    ensures tr[i].owner == None ==>
              && tr[i].c <= 1
              && Replay(tr[i].initial, tr[i].log) == Some(tr[i].c)
              && Count(tr[i].log, Passed) == tr[i].passes
              && Count(tr[i].log, Signalled) == tr[i].signals
  {
    InvAlways(tr, i);
  }

  // Successful waits never exceed the initial count plus the signals issued.
  lemma PassesAtMostSignals(tr: seq<State>, i: nat)
    requires IsRun(Init, Next, tr) && i < |tr|
    ensures tr[i].passes <= tr[i].initial + Signals(tr[i])
    ensures tr[i].owner == None ==> tr[i].passes + tr[i].c <= tr[i].initial + tr[i].signals
  {
    InvAlways(tr, i);
    TakenAtMostGiven(tr[i].initial, tr[i].log);
  }

  // A call that is under way.
  predicate InCall(s: State, t: Tid) {
    t in s.pcs && s.pcs[t] != Idle
  }

  ghost predicate CanStep(s: State, t: Tid) {
    t in s.pcs && exists s' :: ThreadStep(s, t, s')
  }

  // A sleeping thread that only a broadcast (not a spurious wake-up or a timeout) would move.
  predicate LeftAsleep(s: State, t: Tid) {
    t in s.pcs && s.pcs[t].Asleep?
  }

  // No lost wake-up: with the inner mutex free, a call under way either can proceed now or is
  // asleep because the count is zero.
  lemma NoSleeperMissesTheUnit(tr: seq<State>, i: nat, t: Tid)
    requires IsRun(Init, Next, tr) && i < |tr|
    requires tr[i].owner == None && InCall(tr[i], t)
    ensures LeftAsleep(tr[i], t) ==> tr[i].c == 0
    ensures !LeftAsleep(tr[i], t) ==> CanStep(tr[i], t)
  {
    InvAlways(tr, i);
    var s := tr[i];
    match s.pcs[t] {
      case Asleep(_) =>
      case SigLock =>
        assert ThreadStep(s, t, Goto(s, t, SigInc).(owner := Some(t)));
      case WaitLock(timed) =>
        assert ThreadStep(s, t, Goto(s, t, WaitTest(timed)).(owner := Some(t)));
      case Waking(timed, expired) =>
        assert ThreadStep(s, t, Goto(s, t, if expired then ExpireUnlock else WaitTest(timed)).(owner := Some(t)));
    }
  }

  // The holder of the inner mutex is never stuck, so the mutex is always given back.
  lemma HolderCanStep(tr: seq<State>, i: nat)
    requires IsRun(Init, Next, tr) && i < |tr| && tr[i].owner.Some?
    ensures CanStep(tr[i], tr[i].owner.value)
  {
    InvAlways(tr, i);
    var s, t := tr[i], tr[i].owner.value;
    match s.pcs[t] {
      case SigInc => assert ThreadStep(s, t, Goto(s, t, SigCap).(c := s.c + 1));
      case SigCap =>
        assert ThreadStep(s, t, Goto(s, t, SigBroadcast).(
                                  c := if s.c > 1 then 1 else s.c, log := s.log + [Signalled]));
      case SigBroadcast => assert ThreadStep(s, t, s.(pcs := WakeAll(s.pcs)[t := SigUnlock]));
      case SigUnlock => assert ThreadStep(s, t, Leave(s, t, Given));
      case WaitTest(timed) =>
        assert ThreadStep(s, t, if s.c <= 0 then Unlock(s, t, Asleep(timed)) else Goto(s, t, WaitDec));
      case WaitDec =>
        assert ThreadStep(s, t, Goto(s, t, WaitUnlock).(c := s.c - 1, log := s.log + [Passed]));
      case WaitUnlock => assert ThreadStep(s, t, Leave(s, t, Got));
      case ExpireUnlock => assert ThreadStep(s, t, Leave(s, t, TimedOut));
    }
  }

  // ---------- what calls answer ----------

  // The program counter of a thread belongs to the call it is in.
  predicate Within(pc: Pc, call: Call) {
    match pc
    case Idle => true
    case WaitLock(timed) => call == Wait(timed)
    case WaitTest(timed) => call == Wait(timed)
    case Asleep(timed) => call == Wait(timed)
    case Waking(timed, expired) => call == Wait(timed) && (expired ==> timed)
    case WaitDec => call.Wait?
    case WaitUnlock => call.Wait?
    case ExpireUnlock => call == Wait(true)
    case _ => call == Signal
  }

  predicate Fits(call: Call, result: Result) {
    match result
    case Given => call == Signal
    case Got => call.Wait?
    case TimedOut => call == Wait(true)
  }

  function CountOf(answers: seq<Answer>, result: Result): nat {
    if answers == [] then 0
    else CountOf(answers[..|answers| - 1], result) + if answers[|answers| - 1].result == result then 1 else 0
  }

  lemma CountOfAppend(answers: seq<Answer>, r: Answer)
    ensures forall result :: CountOf(answers + [r], result) == CountOf(answers, result) + if r.result == result then 1 else 0
  {
    assert (answers + [r])[..|answers|] == answers;
  }

  ghost predicate OnCall(s: State) {
    forall t :: t in s.pcs && s.pcs[t] != Idle ==> t in s.calls && Within(s.pcs[t], s.calls[t])
  }

  ghost predicate Tallied(s: State) {
    && (forall k :: 0 <= k < |s.answers| ==> Fits(s.answers[k].call, s.answers[k].result))
    && s.passes == CountOf(s.answers, Got) && s.signals == CountOf(s.answers, Given)
  }

  ghost predicate Answered(s: State) {
    OnCall(s) && Tallied(s)
  }

  lemma BroadcastKeepsOnCall(s: State, t: Tid)
    requires OnCall(s) && t in s.pcs && s.pcs[t] == SigBroadcast
    ensures OnCall(s.(pcs := WakeAll(s.pcs)[t := SigUnlock]))
  {
  }

  lemma StepKeepsOnCall(s: State, t: Tid, s': State)
    requires OnCall(s) && t in s.pcs && ThreadStep(s, t, s')
    ensures OnCall(s')
  {
    if s.pcs[t] == SigBroadcast {
      BroadcastKeepsOnCall(s, t);
    } else {
      assert forall u :: u in s'.pcs && u != t ==> u in s.pcs && s'.pcs[u] == s.pcs[u];
    }
  }

  // A call answers as it ends, once.
  lemma AnswerOfStep(s: State, t: Tid, s': State)
    requires OnCall(s) && t in s.pcs && ThreadStep(s, t, s')
    ensures s.pcs[t] !in {SigUnlock, WaitUnlock, ExpireUnlock} ==>
              s'.answers == s.answers && s'.passes == s.passes && s'.signals == s.signals
    ensures s.pcs[t] in {SigUnlock, WaitUnlock, ExpireUnlock} ==>
              && t in s.calls && Fits(s.calls[t], ResultOf(s.pcs[t])) && s' == Leave(s, t, ResultOf(s.pcs[t]))
  {
  }

  function ResultOf(pc: Pc): Result {
    match pc
    case SigUnlock => Given
    case WaitUnlock => Got
    case _ => TimedOut
  }

  lemma StepKeepsAnswered(s: State, t: Tid, s': State)
    requires Answered(s) && t in s.pcs && ThreadStep(s, t, s')
    ensures Answered(s')
  {
    StepKeepsOnCall(s, t, s');
    AnswerOfStep(s, t, s');
    if s.pcs[t] in {SigUnlock, WaitUnlock, ExpireUnlock} {
      CountOfAppend(s.answers, Answer(t, s.calls[t], ResultOf(s.pcs[t])));
    }
  }

  lemma AnsweredAlways(tr: seq<State>, i: nat)
    requires IsRun(Init, Next, tr) && i < |tr|
    ensures Answered(tr[i])
  {
    forall s, s' | Answered(s) && Next(s, s') ensures Answered(s') {
      var t :| t in s.pcs && ThreadStep(s, t, s');
      StepKeepsAnswered(s, t, s');
    }
    InvariantAt(Init, Next, Answered, tr, i);
  }

  // SYS_ARCH_TIMEOUT is the answer of timed waits only: a wait that is not timed ends with a unit. The
  // waits that got one, and the signals, are those that the refinement counts.
  lemma TimeoutsAreTimed(tr: seq<State>, i: nat)
    requires IsRun(Init, Next, tr) && i < |tr|
    ensures forall k :: 0 <= k < |tr[i].answers| ==>
              match tr[i].answers[k].call
              case Signal => tr[i].answers[k].result == Given
              case Wait(timed) => tr[i].answers[k].result == Got || (timed && tr[i].answers[k].result == TimedOut)
    ensures tr[i].owner == None ==>
              && Count(tr[i].log, Passed) == CountOf(tr[i].answers, Got)
              && Count(tr[i].log, Signalled) == CountOf(tr[i].answers, Given)
  {
    AnsweredAlways(tr, i);
    InvAlways(tr, i);
  }

  // ---------- what a call does when nobody else moves ----------

  ghost function By(t: Tid): (State, State) -> bool {
    (s: State, s': State) => t in s.pcs && ThreadStep(s, t, s')
  }

  lemma Then(t: Tid, s: State, mid: State, s': State)
    requires LeadsTo(By(t), s, mid) && t in mid.pcs && ThreadStep(mid, t, s')
    ensures LeadsTo(By(t), s, s')
  {
    LeadsToNext(By(t), s, mid, s');
  }

  ghost predicate Quiescent(s: State, t: Tid) {
    Inv(s) && Answered(s) && s.owner == None && t in s.pcs
  }

  // The state after thread t's call has ended, all else being as before but for the count and log.
  function Ended(s: State, t: Tid, call: Call, result: Result, c: nat, log: seq<Event>): State {
    s.(pcs := s.pcs[t := Idle], calls := s.calls[t := call], answers := s.answers + [Answer(t, call, result)],
       c := c, log := log,
       passes := if result == Got then s.passes + 1 else s.passes,
       signals := if result == Given then s.signals + 1 else s.signals)
  }

  // From its sleep a timed wait can time out by its own steps, and changes nothing. Once its time has
  // run out it does so even if a unit has come meanwhile.
  lemma SleeperTimesOut(s: State, t: Tid)
    requires Quiescent(s, t) && (s.pcs[t] == Asleep(true) || s.pcs[t] == Waking(true, true))
    ensures LeadsTo(By(t), s, Ended(s, t, Wait(true), TimedOut, s.c, s.log))
  {
    var s' := Ended(s, t, Wait(true), TimedOut, s.c, s.log);
    var woken := Goto(s, t, Waking(true, true));
    var expiring := Goto(woken, t, ExpireUnlock).(owner := Some(t));
    LeadsToItself(By(t), s);
    if s.pcs[t] == Asleep(true) {
      Then(t, s, s, woken);
    } else {
      assert woken == s;
    }
    Then(t, s, woken, expiring);
    assert s.calls[t := Wait(true)] == s.calls;
    assert Leave(expiring, t, TimedOut) == s';
    Then(t, s, expiring, s');
  }

  // A wait on a count of zero goes to sleep.
  lemma WaitSleeps(s: State, t: Tid, timed: bool) returns (s': State)
    requires Quiescent(s, t) && s.pcs[t] == Idle && s.c == 0
    ensures LeadsTo(By(t), s, s')
    ensures s' == s.(pcs := s.pcs[t := Asleep(timed)], calls := s.calls[t := Wait(timed)])
  {
    var entered := Enter(s, t, Wait(timed));
    var locked := Goto(entered, t, WaitTest(timed)).(owner := Some(t));
    s' := Unlock(locked, t, Asleep(timed));
    LeadsToItself(By(t), s);
    Then(t, s, s, entered);
    Then(t, s, entered, locked);
    Then(t, s, locked, s');
  }

  lemma SleeperIsQuiescent(s: State, t: Tid, timed: bool)
    requires Quiescent(s, t) && s.pcs[t] == Idle && s.c == 0
    ensures Quiescent(s.(pcs := s.pcs[t := Asleep(timed)], calls := s.calls[t := Wait(timed)]), t)
  {
  }

  lemma QuiescentWhenReachable(s: State, t: Tid)
    requires Reachable(Init, Next, s) && s.owner == None && t in s.pcs
    ensures Quiescent(s, t)
  {
    var tr :| IsRun(Init, Next, tr) && tr[|tr| - 1] == s;
    InvAlways(tr, |tr| - 1);
    AnsweredAlways(tr, |tr| - 1);
  }

  // A timed wait on a count of zero, asleep, or out of time, can return SYS_ARCH_TIMEOUT with nobody else
  // moving, and leaves the count, the history and everybody else as they were.
  lemma TimedWaitTimesOut(s: State, t: Tid)
    requires Reachable(Init, Next, s) && s.owner == None && t in s.pcs
    requires s.pcs[t] == Asleep(true) || s.pcs[t] == Waking(true, true) || (s.pcs[t] == Idle && s.c == 0)
    ensures LeadsTo(By(t), s, Ended(s, t, Wait(true), TimedOut, s.c, s.log))
  {
    QuiescentWhenReachable(s, t);
    if s.pcs[t] == Idle {
      var asleep := WaitSleeps(s, t, true);
      SleeperIsQuiescent(s, t, true);
      SleeperTimesOut(asleep, t);
      var s' := Ended(asleep, t, Wait(true), TimedOut, s.c, s.log);
      LeadsToLeads(By(t), s, asleep, s');
      assert s.pcs[t := Asleep(true)][t := Idle] == s.pcs[t := Idle];
      assert s.calls[t := Wait(true)][t := Wait(true)] == s.calls[t := Wait(true)];
      assert s' == Ended(s, t, Wait(true), TimedOut, s.c, s.log);
    } else {
      SleeperTimesOut(s, t);
    }
  }

  // A wait, timed or not, that begins or wakes up with a unit there takes it.
  lemma WaitTakesUnit(s: State, t: Tid, timed: bool)
    requires Reachable(Init, Next, s) && s.owner == None && t in s.pcs && s.c == 1
    requires s.pcs[t] == Waking(timed, false) || s.pcs[t] == Idle
    ensures LeadsTo(By(t), s, Ended(s, t, Wait(timed), Got, 0, s.log + [Passed]))
  {
    QuiescentWhenReachable(s, t);
    LeadsToItself(By(t), s);
    if s.pcs[t] == Idle {
      var entered := Enter(s, t, Wait(timed));
      Then(t, s, s, entered);
      TakesUnit(entered, t, timed);
      assert Ended(entered, t, Wait(timed), Got, 0, s.log + [Passed]) == Ended(s, t, Wait(timed), Got, 0, s.log + [Passed]);
      LeadsToLeads(By(t), s, entered, Ended(entered, t, Wait(timed), Got, 0, s.log + [Passed]));
    } else {
      TakesUnit(s, t, timed);
    }
  }

  lemma TakesUnit(s: State, t: Tid, timed: bool)
    requires t in s.pcs && t in s.calls && s.calls[t] == Wait(timed) && s.owner == None && s.c == 1
    requires s.pcs[t] == Waking(timed, false) || s.pcs[t] == WaitLock(timed)
    ensures LeadsTo(By(t), s, Ended(s, t, Wait(timed), Got, 0, s.log + [Passed]))
  {
    var s' := Ended(s, t, Wait(timed), Got, 0, s.log + [Passed]);
    var locked := Goto(s, t, WaitTest(timed)).(owner := Some(t));
    var deciding := Goto(locked, t, WaitDec);
    var taken := Goto(deciding, t, WaitUnlock).(c := 0, log := s.log + [Passed]);
    LeadsToItself(By(t), s);
    Then(t, s, s, locked);
    Then(t, s, locked, deciding);
    Then(t, s, deciding, taken);
    assert s.calls[t := Wait(timed)] == s.calls;
    assert Leave(taken, t, Got) == s';
    Then(t, s, taken, s');
  }

  // A signal leaves one unit and notifies every sleeper.
  lemma SignalGivesUnit(s: State, t: Tid)
    requires Reachable(Init, Next, s) && s.owner == None && t in s.pcs && s.pcs[t] == Idle
    ensures LeadsTo(By(t), s, Ended(s.(pcs := WakeAll(s.pcs)), t, Signal, Given, 1, s.log + [Signalled]))
  {
    QuiescentWhenReachable(s, t);
    var capped := Raised(s, t);
    Raises(s, t);
    Broadcasts(s, t, capped);
    LeadsToLeads(By(t), s, capped, Ended(s.(pcs := WakeAll(s.pcs)), t, Signal, Given, 1, s.log + [Signalled]));
  }

  function Raised(s: State, t: Tid): State {
    s.(pcs := s.pcs[t := SigBroadcast], calls := s.calls[t := Signal], owner := Some(t), c := 1, log := s.log + [Signalled])
  }

  lemma Raises(s: State, t: Tid)
    requires s.owner == None && t in s.pcs && s.pcs[t] == Idle && s.c <= 1
    ensures LeadsTo(By(t), s, Raised(s, t))
  {
    var entered := Enter(s, t, Signal);
    var locked := Goto(entered, t, SigInc).(owner := Some(t));
    var raised := Goto(locked, t, SigCap).(c := s.c + 1);
    LeadsToItself(By(t), s);
    Then(t, s, s, entered);
    Then(t, s, entered, locked);
    Then(t, s, locked, raised);
    assert Goto(raised, t, SigBroadcast).(c := 1, log := s.log + [Signalled]) == Raised(s, t);
    Then(t, s, raised, Raised(s, t));
  }

  lemma Broadcasts(s: State, t: Tid, capped: State)
    requires s.owner == None && t in s.pcs && s.pcs[t] == Idle && capped == Raised(s, t)
    ensures LeadsTo(By(t), capped, Ended(s.(pcs := WakeAll(s.pcs)), t, Signal, Given, 1, s.log + [Signalled]))
  {
    var s' := Ended(s.(pcs := WakeAll(s.pcs)), t, Signal, Given, 1, s.log + [Signalled]);
    var told := capped.(pcs := WakeAll(capped.pcs)[t := SigUnlock]);
    LeadsToItself(By(t), capped);
    Then(t, capped, capped, told);
    assert told.pcs[t := Idle] == s'.pcs;
    assert Leave(told, t, Given) == s';
    Then(t, capped, told, s');
  }
}

// struct sys_sem: the count as the C code updates it under the inner mutex.
module SysSemaphore {
  import opened Runs
  import opened BinarySemaphore

  class SysSem {
    var c: nat

    constructor (count: nat)
      ensures c == count
    {
      c := count;
    }

    // lines 568-576
    method Signal()
      modifies this
      ensures Apply(old(c), Signalled) == Some(c)
    {
      c := c + 1;
      if c > 1 {
        c := 1;
      }
    }

    // One pass through the test of the wait loop: take the unit, or report that the caller sleeps.
    method TryPass() returns (passed: bool)
      modifies this
      ensures passed <==> old(c) > 0
      ensures passed ==> Apply(old(c), Passed) == Some(c)
      ensures !passed ==> c == old(c)
    {
      passed := !(c <= 0);
      if passed {
        c := c - 1;
      }
    }
  }
}
