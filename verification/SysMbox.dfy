// struct sys_mbox: the fields the C code updates in place, one method per stretch of code that
// runs between passing a wait on the box mutex and signalling it.

// A stretch of code run without interruption, as the box mutex guarantees.
module MailboxSections {
  import opened MailboxProtocol

  // Statements left before the mutex is signalled, at most.
  function Rank(pc: Pc): nat {
    match pc
    case PostDelist(_) => 8
    case PostTest(_, _) => 7
    case PostEnlist(_) => 6
    case PostLetGo(_) => 5
    case PostStore(_) => 5
    case PostAdvance(_) => 4
    case PostRaise(_) => 3
    case FetchTest(_) => 7
    case FetchLetGo(_) => 5
    case FetchRead => 5
    case FetchAdvance(_) => 4
    case FetchRaise(_) => 3
    case Release(_) => 2
    case _ => 0
  }

  // The effect of running from `pc` up to and including the signal of the box mutex.
  function Section(sh: Shared, pc: Pc): (Shared, Pc)
    requires InCs(pc) && |sh.msgs| == SIZE
    decreases Rank(pc)
  {
    var (sh', pc') := Act(sh, pc);
    if InCs(pc') then Section(sh', pc') else (sh', pc')
  }

  // The shared fields after a message is stored at the tail and the mutex given back.
  function Posted(sh: Shared, m: Message): Shared
    requires |sh.msgs| == SIZE
  {
    sh.(msgs := sh.msgs[sh.last % SIZE := m], last := sh.last + 1,
        notEmpty := if sh.first == sh.last then Up(sh.notEmpty) else sh.notEmpty, mutex := Up(sh.mutex))
  }

  // The shared fields after the oldest message is removed and the mutex given back.
  function Fetched(sh: Shared): Shared {
    sh.(first := sh.first + 1,
        notFull := if sh.waitSend != 0 then Up(sh.notFull) else sh.notFull, mutex := Up(sh.mutex))
  }

  lemma StoreSection(sh: Shared, m: Message)
    requires |sh.msgs| == SIZE
    ensures Section(sh, PostStore(m)) == (Posted(sh, m), Idle)
  {
    var stored := sh.(msgs := sh.msgs[sh.last % SIZE := m]);
    var advanced := stored.(last := sh.last + 1);
    var raised := Act(advanced, PostRaise(sh.first == sh.last)).0;
    assert Section(raised, Release(Sent)) == (Posted(sh, m), Idle);
    assert Section(advanced, PostRaise(sh.first == sh.last)) == Section(raised, Release(Sent));
    assert Section(stored, PostAdvance(m)) == Section(advanced, PostRaise(sh.first == sh.last));
  }

  lemma PostSection(sh: Shared, m: Message, blocking: bool)
    requires |sh.msgs| == SIZE
    ensures Section(sh, PostTest(m, blocking)) ==
            if !Full(sh) then (Posted(sh, m), Idle)
            else if blocking then (sh.(waitSend := sh.waitSend + 1, mutex := Up(sh.mutex)), PostAwait(m))
            else (sh.(mutex := Up(sh.mutex)), Idle)
  {
    StoreSection(sh, m);
    if Full(sh) && blocking {
      var enlisted := sh.(waitSend := sh.waitSend + 1);
      assert Section(enlisted, PostLetGo(m)) == (enlisted.(mutex := Up(sh.mutex)), PostAwait(m));
      assert Section(sh, PostEnlist(m)) == Section(enlisted, PostLetGo(m));
      assert Act(sh, PostTest(m, blocking)) == (sh, PostEnlist(m));
    }
  }

  lemma FetchSection(sh: Shared, kind: FetchKind)
    requires |sh.msgs| == SIZE
    ensures Section(sh, FetchTest(kind)) ==
            if sh.first != sh.last then (Fetched(sh), Idle)
            else if kind.Try? then (sh.(mutex := Up(sh.mutex)), Idle)
            else (sh.(mutex := Up(sh.mutex)), FetchAwait(kind.timed))
  {
    if sh.first != sh.last {
      var got := sh.msgs[sh.first % SIZE];
      var dropped := sh.(first := sh.first + 1);
      var raised := Act(dropped, FetchRaise(got)).0;
      assert Section(raised, Release(Received(got))) == (Fetched(sh), Idle);
      assert Section(dropped, FetchRaise(got)) == Section(raised, Release(Received(got)));
      assert Section(sh, FetchAdvance(got)) == Section(dropped, FetchRaise(got));
      assert Section(sh, FetchRead) == Section(sh, FetchAdvance(got));
    }
  }
}

module SysMailbox {
  import opened Runs
  import opened SysSemaphore
  import opened MailboxProtocol
  import opened MailboxSafety
  import opened MailboxSections

  datatype Err = ERR_OK | ERR_MEM

  class SysMbox {
    var first: nat
    var last: nat
    const msgs: array<Message>
    var waitSend: int
    const notEmpty: SysSem
    const notFull: SysSem
    const mutex: SysSem

    ghost predicate Valid()
      reads this
    {
      && msgs.Length == SIZE
      && notEmpty != notFull && notEmpty != mutex && notFull != mutex
      && first <= last < first + SIZE
    }

    ghost function Fields(): (sh: Shared)
      reads this, msgs, notEmpty, notFull, mutex
      ensures |sh.msgs| == msgs.Length
    {
      Shared(first, last, msgs[..], waitSend, mutex.c, notEmpty.c, notFull.c)
    }

    // sys_mbox_new, lines 265-269
    constructor ()
      ensures Valid() && fresh(msgs) && fresh(notEmpty) && fresh(notFull) && fresh(mutex)
      ensures Fields() == New() && Contents(Fields()) == []
    {
      first, last := 0, 0;
      msgs := new Message[SIZE](_ => 0);
      notEmpty := new SysSem(0);
      notFull := new SysSem(0);
      mutex := new SysSem(1);
      waitSend := 0;
    }

    // The tail of both posting functions, lines 311-325 and 356-370.
    method Store(m: Message)
      requires Valid() && !Full(Fields())
      modifies this`last, msgs, notEmpty, mutex
      ensures Valid() && Fields() == Posted(old(Fields()), m)
      ensures Contents(Fields()) == old(Contents(Fields())) + [m]
    {
      ghost var sh := Fields();
      StoreKeepsContents(sh, m);
      AdvanceAppends(sh.(msgs := sh.msgs[sh.last % SIZE := m]));
      msgs[last % SIZE] := m;
      var edge := last == first;
      last := last + 1;
      if edge {
        notEmpty.Signal();
      }
      mutex.Signal();
    }

    // The tail of both fetching functions, lines 389-401 and 438-450.
    method Remove() returns (m: Message)
      requires Valid() && first < last
      modifies this`first, notFull, mutex
      ensures Valid() && Fields() == Fetched(old(Fields()))
      ensures old(Contents(Fields())) == [m] + Contents(Fields())
    {
      AdvanceDrops(Fields());
      m := msgs[first % SIZE];
      first := first + 1;
      if waitSend != 0 {
        notFull.Signal();
      }
      mutex.Signal();
    }

    // sys_mbox_trypost, from the moment line 301 passes.
    method TryPost(m: Message) returns (err: Err)
      requires Valid() && mutex.c > 0
      modifies this`last, msgs, notEmpty, mutex
      ensures Valid()
      ensures Fields() == Section(old(Act(Fields(), PostLock(m, false))).0, PostTest(m, false)).0
      ensures err == ERR_MEM <==> |old(Contents(Fields()))| == SIZE - 1
      ensures Contents(Fields()) == old(Contents(Fields())) + if err == ERR_OK then [m] else []
    {
      PostSection(Act(Fields(), PostLock(m, false)).0, m, false);
      var passed := mutex.TryPass();
      if last + 1 >= first + SIZE {
        mutex.Signal();
        return ERR_MEM;
      }
      Store(m);
      return ERR_OK;
    }

    // sys_mbox_post, from one pass of a wait on the mutex to the next wait or the return:
    // false means the sender now waits at line 351.
    method PostStretch(m: Message) returns (done: bool)
      requires Valid() && mutex.c == 0
      modifies this`last, this`waitSend, msgs, notEmpty, mutex
      ensures Valid()
      ensures (Fields(), if done then Idle else PostAwait(m)) == Section(old(Fields()), PostTest(m, true))
      ensures done <==> |old(Contents(Fields()))| < SIZE - 1
      ensures Contents(Fields()) == old(Contents(Fields())) + if done then [m] else []
    {
      PostSection(Fields(), m, true);
      if last + 1 >= first + SIZE {
        waitSend := waitSend + 1;
        mutex.Signal();
        return false;
      }
      Store(m);
      return true;
    }

    // sys_mbox_post, lines 351-354 followed by the loop test, when both waits can pass.
    method PostResume(m: Message) returns (done: bool)
      requires Valid() && notFull.c > 0 && mutex.c == 1
      modifies this`last, this`waitSend, msgs, notEmpty, notFull, mutex
      ensures Valid()
      ensures var woken := old(Act(Fields(), PostAwait(m)));
              var relocked := Act(woken.0, woken.1);
              (Fields(), if done then Idle else PostAwait(m)) == Section(relocked.0, relocked.1)
      ensures done <==> |old(Contents(Fields()))| < SIZE - 1
      ensures Contents(Fields()) == old(Contents(Fields())) + if done then [m] else []
    {
      var passed := notFull.TryPass();
      passed := mutex.TryPass();
      waitSend := waitSend - 1;
      assert Fields().msgs == old(Fields()).msgs;
      done := PostStretch(m);
    }

    // sys_arch_mbox_tryfetch, from the moment line 380 passes.
    method TryFetch() returns (m: Option<Message>)
      requires Valid() && mutex.c > 0
      modifies this`first, notFull, mutex
      ensures Valid()
      ensures Fields() == Section(old(Act(Fields(), FetchLock(Try))).0, FetchTest(Try)).0
      ensures m.None? <==> old(Contents(Fields())) == []
      ensures old(Contents(Fields())) == (if m.Some? then [m.value] else []) + Contents(Fields())
    {
      FetchSection(Act(Fields(), FetchLock(Try)).0, Try);
      var passed := mutex.TryPass();
      if first == last {
        mutex.Signal();
        return None;
      }
      var got := Remove();
      return Some(got);
    }

    // sys_arch_mbox_fetch, from one pass of a wait on the mutex to the next wait or the return:
    // None means the fetcher now waits for mail.
    method FetchStretch(timed: bool) returns (m: Option<Message>)
      requires Valid() && mutex.c == 0
      modifies this`first, notFull, mutex
      ensures Valid()
      ensures (Fields(), if m.Some? then Idle else FetchAwait(timed)) == Section(old(Fields()), FetchTest(Block(timed)))
      ensures m.None? <==> old(Contents(Fields())) == []
      ensures old(Contents(Fields())) == (if m.Some? then [m.value] else []) + Contents(Fields())
    {
      FetchSection(Fields(), Block(timed));
      if first == last {
        mutex.Signal();
        return None;
      }
      var got := Remove();
      return Some(got);
    }

    // sys_arch_mbox_fetch, lines 423-433 followed by the loop test, when both waits can pass.
    method FetchResume(timed: bool) returns (m: Option<Message>)
      requires Valid() && notEmpty.c > 0 && mutex.c == 1
      modifies this`first, notEmpty, notFull, mutex
      ensures Valid()
      ensures var woken := old(Act(Fields(), FetchAwait(timed)));
              var relocked := Act(woken.0, woken.1);
              (Fields(), if m.Some? then Idle else FetchAwait(timed)) == Section(relocked.0, relocked.1)
      ensures m.None? <==> old(Contents(Fields())) == []
      ensures old(Contents(Fields())) == (if m.Some? then [m.value] else []) + Contents(Fields())
    {
      var passed := notEmpty.TryPass();
      passed := mutex.TryPass();
      m := FetchStretch(timed);
    }
  }
}
