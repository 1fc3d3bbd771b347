// Runs that strand a thread: what the cap of one on `not_empty` and `not_full` costs when two
// threads block on the same side.

// Calls run one after the other, each without interruption.
module MailboxCalls {
  import opened Runs
  import opened MailboxProtocol
  import opened MailboxSections
  import opened MailboxAlone

  ghost predicate Uncontended(s: State) {
    Reachable(Init, Next, s) && s.holder == None && s.sh.mutex == 1 && |s.sh.msgs| == SIZE
  }

  // The state after thread t passes a wait on the free box mutex at `pc` and runs its section alone.
  ghost predicate RanAlone(s: State, t: Tid, pc: Pc, s': State)
    requires Uncontended(s) && (Entry(pc) || pc.FetchRelock? || pc.PostRelock?)
  {
    var (sh, inside) := Act(s.sh, pc);
    Uncontended(s') && s'.sh == Section(sh, inside).0 && s'.pcs == s.pcs[t := Section(sh, inside).1]
  }

  lemma RunAlone(s: State, t: Tid, pc: Pc) returns (s': State)
    requires Uncontended(s) && t in s.pcs && s.pcs[t] == pc && (Entry(pc) || pc.FetchRelock? || pc.PostRelock?)
    ensures RanAlone(s, t, pc, s')
  {
    s' := LockedSectionRuns(s, t);
    StaysReachable(t, s, s');
    FreeBox(s');
  }

  lemma CallAlone(s: State, t: Tid, pc: Pc) returns (s': State)
    requires Uncontended(s) && t in s.pcs && s.pcs[t] == Idle && Entry(pc)
    ensures RanAlone(s, t, pc, s')
  {
    var entered := Enter(s, t, pc);
    assert Move(s, t, entered);
    ReachableNext(Init, Next, s, entered);
    s' := RunAlone(entered, t, pc);
    assert entered.pcs[t := s'.pcs[t]] == s.pcs[t := s'.pcs[t]];
  }

  // A thread that has taken a unit of `not_full` or `not_empty` is on its way back to the mutex.
  lemma Wake(s: State, t: Tid) returns (s': State)
    requires Uncontended(s) && t in s.pcs && (s.pcs[t].PostAwait? || s.pcs[t].FetchAwait?) && Enabled(s.sh, s.pcs[t])
    ensures Uncontended(s') && s'.sh == Act(s.sh, s.pcs[t]).0 && s'.pcs == s.pcs[t := Act(s.sh, s.pcs[t]).1]
  {
    s' := Advance(s, t);
    assert Move(s, t, s');
    ReachableNext(Init, Next, s, s');
  }

  // Three threads and an empty box.
  lemma Beginning(f: Tid, g: Tid, h: Tid) returns (s: State)
    ensures Uncontended(s) && s.pcs == map[f := Idle, g := Idle, h := Idle] && s.sh == New()
  {
    s := State(New(), map[f := Idle, g := Idle, h := Idle], None, [], [], map[], []);
    ReachableInit(Init, Next, s);
  }
}

// With two threads in the blocking fetch two posts onto an empty box raise one unit, and one fetcher
// stays asleep beside a message with nobody left to move.
module TwoFetchers {
  import opened Runs
  import opened MailboxProtocol
  import opened MailboxSafety
  import opened MailboxProgress
  import opened MailboxSections
  import opened MailboxCalls

  lemma BothAsleep(f: Tid, g: Tid, h: Tid) returns (s: State)
    requires f != g && f != h && g != h
    ensures Uncontended(s) && s.sh == New() && s.pcs == map[f := FetchAwait(false), g := FetchAwait(false), h := Idle]
  {
    s := Beginning(f, g, h);
    FetchSection(s.sh.(mutex := 0), Block(false));
    s := CallAlone(s, f, FetchLock(Block(false)));
    assert s.sh == New();
    FetchSection(s.sh.(mutex := 0), Block(false));
    s := CallAlone(s, g, FetchLock(Block(false)));
  }

  // Two posts in a row raise `not_empty` once.
  lemma TwoPosts(f: Tid, g: Tid, h: Tid) returns (s: State)
    requires f != g && f != h && g != h
    ensures Uncontended(s) && s.pcs == map[f := FetchAwait(false), g := FetchAwait(false), h := Idle]
    ensures s.sh.first == 0 && s.sh.last == 2 && s.sh.notEmpty == 1 && s.sh.notFull == 0 && s.sh.waitSend == 0
  {
    s := BothAsleep(f, g, h);
    PostSection(s.sh.(mutex := 0), 7, false);
    s := CallAlone(s, h, PostLock(7, false));
    PostSection(s.sh.(mutex := 0), 8, false);
    s := CallAlone(s, h, PostLock(8, false));
  }

  lemma FirstWoken(f: Tid, g: Tid, h: Tid) returns (s: State)
    requires f != g && f != h && g != h
    ensures Uncontended(s) && s.pcs == map[f := FetchRelock(false), g := FetchAwait(false), h := Idle]
    ensures s.sh.first == 0 && s.sh.last == 2 && s.sh.notEmpty == 0 && s.sh.notFull == 0 && s.sh.waitSend == 0
  {
    s := TwoPosts(f, g, h);
    s := Wake(s, f);
  }

  // The first fetcher takes that unit and one message.
  lemma OneServed(f: Tid, g: Tid, h: Tid) returns (s: State)
    requires f != g && f != h && g != h
    ensures Uncontended(s) && s.pcs == map[f := Idle, g := FetchAwait(false), h := Idle]
    ensures s.sh.first == 1 && s.sh.last == 2 && s.sh.notEmpty == 0 && s.sh.notFull == 0
  {
    s := FirstWoken(f, g, h);
    var locked := s.sh.(mutex := 0);
    FetchSection(locked, Block(false));
    assert Act(s.sh, FetchRelock(false)) == (locked, FetchTest(Block(false)));
    s := RunAlone(s, f, FetchRelock(false));
  }

  // Of any two blocking fetchers one can be stranded beside a message.
  lemma TwoFetchersCanStrandOne(f: Tid, g: Tid, h: Tid) returns (s: State)
    requires f != g && f != h && g != h
    ensures Reachable(Init, Next, s) && Inv(s) && Stuck(s)
    ensures s.holder == None && |Contents(s.sh)| == 1 && s.sh.notEmpty == 0
    ensures s.pcs == map[f := Idle, g := FetchAwait(false), h := Idle]
  {
    s := OneServed(f, g, h);
    InvReachable(s);
  }

  // The box is filled up again without another edge.
  lemma {:induction false} Refilled(f: Tid, g: Tid, h: Tid, n: nat) returns (s: State)
    requires f != g && f != h && g != h && n <= SIZE - 2
    ensures Uncontended(s) && s.pcs == map[f := Idle, g := FetchAwait(false), h := Idle]
    ensures s.sh.first == 1 && s.sh.last == 2 + n && s.sh.notEmpty == 0 && s.sh.notFull == 0
  {
    if n == 0 {
      s := OneServed(f, g, h);
    } else {
      s := Refilled(f, g, h, n - 1);
      PostSection(s.sh.(mutex := 0), 7, false);
      s := CallAlone(s, h, PostLock(7, false));
    }
  }

  // With two blocking fetchers the two sides can deadlock: one fetcher sleeps beside a full box and
  // a sender sleeps before it. This is why DeadlockFree asks for one.
  lemma TwoFetchersCanDeadlock(f: Tid, g: Tid, h: Tid) returns (s: State)
    requires f != g && f != h && g != h
    ensures Reachable(Init, Next, s) && Inv(s) && Stuck(s)
    ensures s.holder == None && Full(s.sh) && s.sh.notEmpty == 0 && s.sh.notFull == 0
    ensures s.pcs == map[f := Idle, g := FetchAwait(false), h := PostAwait(7)]
  {
    s := Refilled(f, g, h, SIZE - 2);
    PostSection(s.sh.(mutex := 0), 7, true);
    s := CallAlone(s, h, PostLock(7, true));
    InvReachable(s);
  }
}

// With two threads blocked in sys_mbox_post fetches from a full box raise one unit of `not_full`,
// and one sender stays asleep before a box with room with nobody left to move.
module TwoSenders {
  import opened Runs
  import opened MailboxProtocol
  import opened MailboxSafety
  import opened MailboxProgress
  import opened MailboxSections
  import opened MailboxCalls

  lemma {:induction false} Filled(f: Tid, g: Tid, h: Tid, n: nat) returns (s: State)
    requires f != g && f != h && g != h && n <= SIZE - 1
    ensures Uncontended(s) && s.pcs == map[f := Idle, g := Idle, h := Idle]
    ensures s.sh.first == 0 && s.sh.last == n && s.sh.notFull == 0 && s.sh.waitSend == 0
  {
    if n == 0 {
      s := Beginning(f, g, h);
    } else {
      s := Filled(f, g, h, n - 1);
      PostSection(s.sh.(mutex := 0), 7, false);
      s := CallAlone(s, h, PostLock(7, false));
    }
  }

  lemma BothAsleep(f: Tid, g: Tid, h: Tid) returns (s: State)
    requires f != g && f != h && g != h
    ensures Uncontended(s) && s.pcs == map[f := PostAwait(7), g := PostAwait(7), h := Idle]
    ensures s.sh.first == 0 && s.sh.last == SIZE - 1 && s.sh.notFull == 0 && s.sh.waitSend == 2
  {
    s := Filled(f, g, h, SIZE - 1);
    PostSection(s.sh.(mutex := 0), 7, true);
    s := CallAlone(s, f, PostLock(7, true));
    PostSection(s.sh.(mutex := 0), 7, true);
    s := CallAlone(s, g, PostLock(7, true));
  }

  // Fetches in a row raise `not_full` once.
  lemma {:induction false} Drained(f: Tid, g: Tid, h: Tid, n: nat) returns (s: State)
    requires f != g && f != h && g != h && 0 < n < SIZE
    ensures Uncontended(s) && s.pcs == map[f := PostAwait(7), g := PostAwait(7), h := Idle]
    ensures s.sh.first == n && s.sh.last == SIZE - 1 && s.sh.notFull == 1 && s.sh.waitSend == 2
  {
    if n == 1 {
      s := BothAsleep(f, g, h);
    } else {
      s := Drained(f, g, h, n - 1);
    }
    FetchSection(s.sh.(mutex := 0), Try);
    s := CallAlone(s, h, FetchLock(Try));
  }

  lemma FirstWoken(f: Tid, g: Tid, h: Tid, n: nat) returns (s: State)
    requires f != g && f != h && g != h && 0 < n < SIZE
    ensures Uncontended(s) && s.pcs == map[f := PostRelock(7), g := PostAwait(7), h := Idle]
    ensures s.sh.first == n && s.sh.last == SIZE - 1 && s.sh.notFull == 0 && s.sh.waitSend == 2
  {
    s := Drained(f, g, h, n);
    s := Wake(s, f);
  }

  // The first sender takes that unit and one of the free slots.
  lemma OneServed(f: Tid, g: Tid, h: Tid, n: nat) returns (s: State)
    requires f != g && f != h && g != h && 0 < n < SIZE
    ensures Uncontended(s) && s.pcs == map[f := Idle, g := PostAwait(7), h := Idle]
    ensures s.sh.first == n && s.sh.last == SIZE && s.sh.notFull == 0
  {
    s := FirstWoken(f, g, h, n);
    var delisting := s.sh.(mutex := 0);
    PostSection(delisting.(waitSend := 1), 7, true);
    assert Act(delisting, PostDelist(7)) == (delisting.(waitSend := 1), PostTest(7, true));
    assert Section(delisting, PostDelist(7)) == Section(delisting.(waitSend := 1), PostTest(7, true));
    s := RunAlone(s, f, PostRelock(7));
  }

  // Of any two blocked senders one can be stranded before a box with room, with any number of
  // messages from 1 to 126 in it: that it sees mail is all that holds of several waiting senders.
  lemma TwoSendersCanStrandOne(f: Tid, g: Tid, h: Tid, n: nat) returns (s: State)
    requires f != g && f != h && g != h && 0 < n < SIZE - 1
    ensures Reachable(Init, Next, s) && Inv(s) && Stuck(s)
    ensures s.holder == None && !Full(s.sh) && |Contents(s.sh)| == n && s.sh.notFull == 0
    ensures s.pcs == map[f := Idle, g := PostAwait(7), h := Idle]
  {
    s := OneServed(f, g, h, SIZE - n);
    InvReachable(s);
  }
}
