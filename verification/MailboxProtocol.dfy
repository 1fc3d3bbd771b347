// The 128-slot mailbox of sys_arch.c as interleaved steps of any number of threads over the
// atomic binary semaphores that module SemaphoreProtocol justifies.
module MailboxProtocol {
  import opened Runs
  import opened BinarySemaphore

  type Tid = nat
  type Message = nat  // a void pointer, never dereferenced

  const SIZE := 128

  datatype Shared = Shared(
    first: nat, last: nat, msgs: seq<Message>, waitSend: int,
    mutex: nat, notEmpty: nat, notFull: nat)

  datatype FetchKind = Try | Block(timed: bool)

  datatype Call = Post(m: Message, blocking: bool) | Fetch(kind: FetchKind)

  // ERR_OK of a post, ERR_MEM, the message of a fetch, SYS_MBOX_EMPTY, SYS_ARCH_TIMEOUT.
  datatype Result = Sent | ErrMem | Received(m: Message) | Empty | TimedOut

  // What a completed call answered.
  datatype Answer = Answer(t: Tid, call: Call, result: Result)

  // The statement a thread executes next, named after the function it belongs to.
  datatype Pc =
    | Idle
    | PostLock(m: Message, blocking: bool)   // 301, 344
    | PostTest(m: Message, blocking: bool)   // 306, 348
    | PostEnlist(m: Message)                 // 349
    | PostLetGo(m: Message)                  // 350
    | PostAwait(m: Message)                  // 351
    | PostRelock(m: Message)                 // 352
    | PostDelist(m: Message)                 // 353
    | PostStore(m: Message)                  // 311, 356
    | PostAdvance(m: Message)                // 313-319, 358-364
    | PostRaise(edge: bool)                  // 321-323, 366-368
    | FetchLock(kind: FetchKind)             // 380, 416
    | FetchTest(kind: FetchKind)             // 382, 418
    | FetchLetGo(timed: bool)                // 419
    | FetchAwait(timed: bool)                // 423-431
    | FetchRelock(timed: bool)               // 433
    | FetchRead                              // 389, 438
    | FetchAdvance(got: Message)             // 395, 444
    | FetchRaise(got: Message)               // 397-399, 446-448
    | Release(result: Result)                // 307, 325, 370, 383, 401, 450

  datatype State = State(
    sh: Shared, pcs: map<Tid, Pc>,
    holder: Option<Tid>,     // the thread inside the critical section
    posted: seq<Message>,    // messages in the order they entered the box
    fetched: seq<Message>,   // values handed to fetchers, in the order they left it
    calls: map<Tid, Call>,   // the call each thread is in, or was in last
    answers: seq<Answer>)    // the calls completed, in order

  function New(): Shared {
    Shared(0, 0, seq(SIZE, _ => 0), 0, 1, 0, 0)
  }

  ghost predicate Init(s: State) {
    && s.sh == New() && s.holder == None && s.posted == [] && s.fetched == []
    && s.calls == map[] && s.answers == []
    && forall t :: t in s.pcs ==> s.pcs[t] == Idle
  }

  predicate Full(sh: Shared) {
    sh.last + 1 >= sh.first + SIZE
  }

  function Up(c: nat): nat {
    Apply(c, Signalled).value
  }

  function Down(c: nat): nat
    requires c > 0
  {
    Apply(c, Passed).value
  }

  // A thread blocks only on a semaphore at zero.
  predicate Enabled(sh: Shared, pc: Pc) {
    match pc
    case Idle => false
    case PostLock(_, _) => sh.mutex > 0
    case PostRelock(_) => sh.mutex > 0
    case FetchLock(_) => sh.mutex > 0
    case FetchRelock(_) => sh.mutex > 0
    case PostAwait(_) => sh.notFull > 0
    case FetchAwait(_) => sh.notEmpty > 0
    case _ => true
  }

  // One statement: the shared fields after it and the thread's next statement.
  function Act(sh: Shared, pc: Pc): (Shared, Pc)
    requires Enabled(sh, pc) && |sh.msgs| == SIZE
  {
    match pc
    case PostLock(m, blocking) => (sh.(mutex := Down(sh.mutex)), PostTest(m, blocking))
    case PostTest(m, blocking) =>
      (sh, if !Full(sh) then PostStore(m) else if blocking then PostEnlist(m) else Release(ErrMem))
    case PostEnlist(m) => (sh.(waitSend := sh.waitSend + 1), PostLetGo(m))
    case PostLetGo(m) => (sh.(mutex := Up(sh.mutex)), PostAwait(m))
    case PostAwait(m) => (sh.(notFull := Down(sh.notFull)), PostRelock(m))
    case PostRelock(m) => (sh.(mutex := Down(sh.mutex)), PostDelist(m))
    case PostDelist(m) => (sh.(waitSend := sh.waitSend - 1), PostTest(m, true))
    case PostStore(m) => (sh.(msgs := sh.msgs[sh.last % SIZE := m]), PostAdvance(m))
    case PostAdvance(_) => (sh.(last := sh.last + 1), PostRaise(sh.last == sh.first))
    case PostRaise(edge) => (if edge then sh.(notEmpty := Up(sh.notEmpty)) else sh, Release(Sent))
    case FetchLock(kind) => (sh.(mutex := Down(sh.mutex)), FetchTest(kind))
    case FetchTest(kind) =>
      (sh, if sh.first != sh.last then FetchRead else if kind.Try? then Release(Empty) else FetchLetGo(kind.timed))
    case FetchLetGo(timed) => (sh.(mutex := Up(sh.mutex)), FetchAwait(timed))
    case FetchAwait(timed) => (sh.(notEmpty := Down(sh.notEmpty)), FetchRelock(timed))
    case FetchRelock(timed) => (sh.(mutex := Down(sh.mutex)), FetchTest(Block(timed)))
    case FetchRead => (sh, FetchAdvance(sh.msgs[sh.first % SIZE]))
    case FetchAdvance(got) => (sh.(first := sh.first + 1), FetchRaise(got))
    case FetchRaise(got) => (if sh.waitSend != 0 then sh.(notFull := Up(sh.notFull)) else sh, Release(Received(got)))
    case Release(_) => (sh.(mutex := Up(sh.mutex)), Idle)
  }

  // Between passing a wait on the box mutex and signalling it.
  predicate InCs(pc: Pc) {
    match pc
    case Idle => false
    case PostLock(_, _) => false
    case PostAwait(_) => false
    case PostRelock(_) => false
    case FetchLock(_) => false
    case FetchAwait(_) => false
    case FetchRelock(_) => false
    case _ => true
  }

  predicate Entry(pc: Pc) {
    pc.PostLock? || pc.FetchLock?
  }

  // Between finding the box empty in sys_arch_mbox_fetch and testing it again.
  predicate Starved(pc: Pc) {
    pc.FetchLetGo? || pc.FetchAwait? || pc.FetchRelock?
  }

  // Between wait_send++ and wait_send--.
  predicate Enlisted(pc: Pc) {
    pc.PostLetGo? || pc.PostAwait? || pc.PostRelock? || pc.PostDelist?
  }

  function Answering(s: State, t: Tid, result: Result): seq<Answer> {
    if t in s.calls then s.answers + [Answer(t, s.calls[t], result)] else s.answers
  }

  // The call that begins at an entry.
  function CallOf(pc: Pc): Call
    requires Entry(pc)
  {
    match pc
    case PostLock(m, blocking) => Post(m, blocking)
    case FetchLock(kind) => Fetch(kind)
  }

  function Enter(s: State, t: Tid, pc: Pc): State
    requires Entry(pc)
  {
    s.(pcs := s.pcs[t := pc], calls := s.calls[t := CallOf(pc)])
  }

  // SYS_ARCH_TIMEOUT from the wait for mail.
  function GiveUp(s: State, t: Tid): State {
    s.(pcs := s.pcs[t := Idle], answers := Answering(s, t, TimedOut))
  }

  function Advance(s: State, t: Tid): State
    requires t in s.pcs && Enabled(s.sh, s.pcs[t]) && |s.sh.msgs| == SIZE
  {
    var pc := s.pcs[t];
    var (sh', pc') := Act(s.sh, pc);
    State(sh', s.pcs[t := pc'],
          if InCs(pc') then Some(t) else if InCs(pc) then None else s.holder,
          if pc.PostAdvance? then s.posted + [pc.m] else s.posted,
          if pc.FetchAdvance? then s.fetched + [pc.got] else s.fetched,
          s.calls, if pc.Release? then Answering(s, t, pc.result) else s.answers)
  }

  // A thread enters a function, gives up a timed wait, or executes its statement.
  ghost predicate Move(s: State, t: Tid, s': State)
    requires |s.sh.msgs| == SIZE
  {
    && t in s.pcs
    && (|| (s.pcs[t] == Idle && t in s'.pcs && Entry(s'.pcs[t]) && s' == Enter(s, t, s'.pcs[t]))
        || (s.pcs[t] == FetchAwait(true) && s' == GiveUp(s, t))
        || (Enabled(s.sh, s.pcs[t]) && s' == Advance(s, t)))
  }

  ghost predicate Next(s: State, s': State) {
    |s.sh.msgs| == SIZE && exists t :: Move(s, t, s')
  }

  // Runs in which only thread f blocks in sys_arch_mbox_fetch: the fetches of others find mail.
  ghost predicate OnlyFetcher(f: Tid, s: State) {
    forall t :: t in s.pcs && Starved(s.pcs[t]) ==> t == f
  }

  ghost function NextWith(f: Tid): (State, State) -> bool {
    (s, s') => Next(s, s') && OnlyFetcher(f, s')
  }

  // The live messages, oldest first.
  function Contents(sh: Shared): seq<Message>
    requires |sh.msgs| == SIZE && sh.first <= sh.last
  {
    seq(sh.last - sh.first, i requires 0 <= i => sh.msgs[(sh.first + i) % SIZE])
  }
}

// What holds of every run, for any number of threads in any of the four functions.
module MailboxSafety {
  import opened Runs
  import opened MailboxProtocol

  ghost predicate Exclusive(s: State) {
    && (s.holder.Some? ==> s.holder.value in s.pcs)
    && (forall t :: t in s.pcs ==> (InCs(s.pcs[t]) <==> s.holder == Some(t)))
    && s.sh.mutex == (if s.holder.Some? then 0 else 1)
    && s.sh.notEmpty <= 1 && s.sh.notFull <= 1
  }

  ghost predicate Bounded(sh: Shared) {
    |sh.msgs| == SIZE && sh.first <= sh.last < sh.first + SIZE
  }

  // What a thread inside the critical section has established about the box.
  ghost predicate Established(sh: Shared, pc: Pc)
    requires Bounded(sh)
  {
    match pc
    case PostEnlist(_) => Full(sh)
    case PostLetGo(_) => Full(sh)
    case PostStore(_) => !Full(sh)
    case PostAdvance(m) => !Full(sh) && sh.msgs[sh.last % SIZE] == m
    case FetchRead => sh.first < sh.last
    case FetchAdvance(got) => sh.first < sh.last && got == sh.msgs[sh.first % SIZE]
    case FetchLetGo(_) => sh.first == sh.last
    case Release(result) => (result == ErrMem ==> Full(sh)) && (result == Empty ==> sh.first == sh.last)
    case _ => true
  }

  ghost predicate Fifo(s: State) {
    && Bounded(s.sh)
    && (forall t :: t in s.pcs ==> Established(s.sh, s.pcs[t]))
    && s.posted == s.fetched + Contents(s.sh)
  }

  ghost predicate Enrolled(s: State) {
    s.sh.waitSend == |Those(s.pcs, Enlisted)|
  }

  ghost predicate Inv(s: State) {
    Exclusive(s) && Fifo(s) && Enrolled(s)
  }

  lemma InitInv(s: State)
    requires Init(s)
    ensures Inv(s)
  {
    assert Those(s.pcs, Enlisted) == {};
    EmptyBox();
    assert Exclusive(s) && Enrolled(s);
  }

  lemma EmptyBox()
    ensures Bounded(New()) && [] + Contents(New()) == []
  {
  }

  lemma MoveKeepsExclusive(s: State, t: Tid, s': State)
    requires Exclusive(s) && |s.sh.msgs| == SIZE && Move(s, t, s')
    ensures Exclusive(s')
  {
  }

  lemma DistinctSlots(a: nat, b: nat)
    requires a < b < a + SIZE
    ensures a % SIZE != b % SIZE
  {
  }

  lemma StoreKeepsContents(sh: Shared, m: Message)
    requires Bounded(sh) && !Full(sh)
    ensures Contents(sh.(msgs := sh.msgs[sh.last % SIZE := m])) == Contents(sh)
  {
    var sh' := sh.(msgs := sh.msgs[sh.last % SIZE := m]);
    forall i | 0 <= i < sh.last - sh.first
      ensures Contents(sh')[i] == Contents(sh)[i]
    {
      DistinctSlots(sh.first + i, sh.last);
    }
  }

  lemma AdvanceAppends(sh: Shared)
    requires Bounded(sh) && !Full(sh)
    ensures Contents(sh.(last := sh.last + 1)) == Contents(sh) + [sh.msgs[sh.last % SIZE]]
  {
  }

  lemma AdvanceDrops(sh: Shared)
    requires Bounded(sh) && sh.first < sh.last
    ensures Contents(sh)[0] == sh.msgs[sh.first % SIZE]
    ensures Contents(sh.(first := sh.first + 1)) == Contents(sh)[1..]
  {
    var before, after := Contents(sh), Contents(sh.(first := sh.first + 1));
    forall i | 0 <= i < |after|
      ensures after[i] == before[1..][i]
    {
      assert sh.first + 1 + i == sh.first + (i + 1);
    }
  }

  // What one statement does to the ring and to the two histories.
  ghost predicate RingStep(sh: Shared, pc: Pc, sh': Shared)
    requires |sh.msgs| == SIZE
  {
    && sh'.msgs == (if pc.PostStore? then sh.msgs[sh.last % SIZE := pc.m] else sh.msgs)
    && sh'.last == sh.last + (if pc.PostAdvance? then 1 else 0)
    && sh'.first == sh.first + (if pc.FetchAdvance? then 1 else 0)
  }

  ghost predicate LogStep(s: State, pc: Pc, s': State) {
    && s'.posted == (if pc.PostAdvance? then s.posted + [pc.m] else s.posted)
    && s'.fetched == (if pc.FetchAdvance? then s.fetched + [pc.got] else s.fetched)
  }

  lemma RingAfter(s: State, t: Tid, s': State)
    requires |s.sh.msgs| == SIZE && Move(s, t, s')
    ensures RingStep(s.sh, s.pcs[t], s'.sh)
    ensures LogStep(s, s.pcs[t], s')
  {
  }

  lemma SameRing(sh: Shared, sh': Shared)
    requires Bounded(sh) && sh'.first == sh.first && sh'.last == sh.last && sh'.msgs == sh.msgs
    ensures Contents(sh') == Contents(sh)
  {
  }

  lemma ContentsAfterRingStep(sh: Shared, pc: Pc, sh': Shared)
    requires Bounded(sh) && Established(sh, pc) && RingStep(sh, pc, sh')
    ensures Bounded(sh')
    ensures Contents(sh') ==
            match pc
            case PostAdvance(m) => Contents(sh) + [m]
            case FetchAdvance(_) => Contents(sh)[1..]
            case _ => Contents(sh)
    ensures pc.FetchAdvance? ==> pc.got == Contents(sh)[0]
  {
    match pc {
      case PostStore(m) =>
        StoreKeepsContents(sh, m);
        SameRing(sh.(msgs := sh'.msgs), sh');
      case PostAdvance(_) =>
        AdvanceAppends(sh);
        SameRing(sh.(last := sh.last + 1), sh');
      case FetchAdvance(_) =>
        AdvanceDrops(sh);
        SameRing(sh.(first := sh.first + 1), sh');
      case _ => SameRing(sh, sh');
    }
  }

  // No live slot is overwritten: a step changes the box only by appending at the tail
  // (when `last` moves) or dropping the head (when `first` moves).
  lemma ContentsAfter(s: State, t: Tid, s': State)
    requires Bounded(s.sh) && Move(s, t, s') && Established(s.sh, s.pcs[t])
    ensures Bounded(s'.sh)
    ensures Contents(s'.sh) ==
            match s.pcs[t]
            case PostAdvance(m) => Contents(s.sh) + [m]
            case FetchAdvance(_) => Contents(s.sh)[1..]
            case _ => Contents(s.sh)
    ensures s.pcs[t].FetchAdvance? ==> s.pcs[t].got == Contents(s.sh)[0]
  {
    RingAfter(s, t, s');
    ContentsAfterRingStep(s.sh, s.pcs[t], s'.sh);
  }

  // What a thread has established survives its own step and the steps of threads outside.
  lemma EstablishedAfter(s: State, t: Tid, s': State, u: Tid)
    requires Exclusive(s) && Fifo(s) && Move(s, t, s') && u in s'.pcs && Bounded(s'.sh)
    ensures Established(s'.sh, s'.pcs[u])
  {
    if u != t && InCs(s.pcs[t]) {
      assert !InCs(s'.pcs[u]);
    }
  }

  lemma LogsAfter(s: State, pc: Pc, s': State)
    requires Bounded(s.sh) && Established(s.sh, pc) && RingStep(s.sh, pc, s'.sh) && LogStep(s, pc, s')
    requires s.posted == s.fetched + Contents(s.sh)
    ensures Bounded(s'.sh) && s'.posted == s'.fetched + Contents(s'.sh)
  {
    ContentsAfterRingStep(s.sh, pc, s'.sh);
    match pc {
      case PostAdvance(m) => MoveIn(s.fetched, Contents(s.sh), m);
      case FetchAdvance(_) => MoveOut(s.fetched, Contents(s.sh));
      case _ =>
    }
  }

  lemma MoveIn(fetched: seq<Message>, box: seq<Message>, m: Message)
    ensures (fetched + box) + [m] == fetched + (box + [m])
  {
  }

  lemma MoveOut(fetched: seq<Message>, box: seq<Message>)
    requires box != []
    ensures fetched + box == (fetched + [box[0]]) + box[1..]
  {
  }

  lemma MoveKeepsFifo(s: State, t: Tid, s': State)
    requires Exclusive(s) && Fifo(s) && Move(s, t, s')
    ensures Fifo(s')
  {
    RingAfter(s, t, s');
    LogsAfter(s, s.pcs[t], s');
    forall u | u in s'.pcs
      ensures Established(s'.sh, s'.pcs[u])
    {
      EstablishedAfter(s, t, s', u);
    }
  }

  lemma MoveKeepsEnrolled(s: State, t: Tid, s': State)
    requires Enrolled(s) && |s.sh.msgs| == SIZE && Move(s, t, s')
    ensures Enrolled(s')
  {
    CountMove(s.pcs, Enlisted, t, s'.pcs[t]);
  }

  lemma NextKeepsInv(s: State, s': State)
    requires Inv(s) && Next(s, s')
    ensures Inv(s')
  {
    var t :| Move(s, t, s');
    MoveKeepsExclusive(s, t, s');
    MoveKeepsFifo(s, t, s');
    MoveKeepsEnrolled(s, t, s');
  }

  lemma InvAlways(tr: seq<State>, i: nat)
    requires IsRun(Init, Next, tr) && i < |tr|
    ensures Inv(tr[i])
  {
    forall s | Init(s) ensures Inv(s) { InitInv(s); }
    forall s, s' | Inv(s) && Next(s, s') ensures Inv(s') { NextKeepsInv(s, s'); }
    InvariantAt(Init, Next, Inv, tr, i);
  }

  lemma InvReachable(s: State)
    requires Reachable(Init, Next, s)
    ensures Inv(s)
  {
    var tr :| IsRun(Init, Next, tr) && tr[|tr| - 1] == s;
    InvAlways(tr, |tr| - 1);
  }

  // The mailbox refines a bounded FIFO: what was posted is what was fetched followed by what the
  // ring holds, and it holds at most 127 messages.
  lemma RefinesFifo(tr: seq<State>, i: nat)
    requires IsRun(Init, Next, tr) && i < |tr|
    ensures |tr[i].sh.msgs| == SIZE && tr[i].sh.first <= tr[i].sh.last
    ensures tr[i].posted == tr[i].fetched + Contents(tr[i].sh)
    ensures |Contents(tr[i].sh)| <= SIZE - 1
  {
    InvAlways(tr, i);
  }

  // One step of a run acts on the abstract queue as an enqueue, a dequeue of the oldest message,
  // or nothing; failed try operations and timeouts are among the steps that do nothing.
  lemma StepsAreQueueOperations(tr: seq<State>, i: nat, t: Tid)
    requires IsRun(Init, Next, tr) && i + 1 < |tr| && |tr[i].sh.msgs| == SIZE && Move(tr[i], t, tr[i + 1])
    ensures Inv(tr[i]) && Inv(tr[i + 1])
    ensures var before, after := Contents(tr[i].sh), Contents(tr[i + 1].sh);
            match tr[i].pcs[t]
            case PostAdvance(m) => |before| < SIZE - 1 && after == before + [m]
            case FetchAdvance(got) => before != [] && before == [got] + after
            case _ => after == before && tr[i + 1].posted == tr[i].posted && tr[i + 1].fetched == tr[i].fetched
  {
    InvAlways(tr, i);
    InvAlways(tr, i + 1);
    ContentsAfter(tr[i], t, tr[i + 1]);
    RingAfter(tr[i], t, tr[i + 1]);
    if tr[i].pcs[t].FetchAdvance? {
      var before := Contents(tr[i].sh);
      assert before == [before[0]] + before[1..];
    }
  }

  // Mutual exclusion with exact bookkeeping: the mutex count plus the number of threads inside
  // is one, so the cap of the semaphore never fires on it, and wait_send is the number of
  // senders between their increment and their decrement.
  lemma ExactBookkeeping(tr: seq<State>, i: nat)
    requires IsRun(Init, Next, tr) && i < |tr|
    ensures tr[i].sh.mutex + |Those(tr[i].pcs, InCs)| == 1
    ensures tr[i].sh.waitSend == |Those(tr[i].pcs, Enlisted)|
  {
    InvAlways(tr, i);
    var s := tr[i];
    var inside := Those(s.pcs, InCs);
    match s.holder {
      case None => assert inside == {};
      case Some(t) => AtMostOne(inside, t);
    }
  }
}
