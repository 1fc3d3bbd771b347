// What the four mailbox functions answer: to whom each answer is given, that it is true when it is
// given, and that each call, run alone, comes to the answer it should.
module MailboxAnswers {
  import opened Runs
  import opened MailboxProtocol
  import opened MailboxSafety

  // The answers a call may be given; SYS_ARCH_TIMEOUT is for timed fetches only.
  predicate Fits(call: Call, result: Result) {
    match result
    case Sent => call.Post?
    case ErrMem => call.Post? && !call.blocking
    case Received(_) => call.Fetch?
    case Empty => call == Fetch(Try)
    case TimedOut => call == Fetch(Block(true))
  }

  // The program counter of a thread belongs to the call it is in.
  predicate Within(pc: Pc, call: Call) {
    match pc
    case Idle => true
    case PostLock(m, blocking) => call == Post(m, blocking)
    case PostTest(m, blocking) => call == Post(m, blocking)
    case PostEnlist(m) => call == Post(m, true)
    case PostLetGo(m) => call == Post(m, true)
    case PostAwait(m) => call == Post(m, true)
    case PostRelock(m) => call == Post(m, true)
    case PostDelist(m) => call == Post(m, true)
    case PostStore(m) => call.Post? && call.m == m
    case PostAdvance(m) => call.Post? && call.m == m
    case PostRaise(_) => call.Post?
    case FetchLock(kind) => call == Fetch(kind)
    case FetchTest(kind) => call == Fetch(kind)
    case FetchLetGo(timed) => call == Fetch(Block(timed))
    case FetchAwait(timed) => call == Fetch(Block(timed))
    case FetchRelock(timed) => call == Fetch(Block(timed))
    case FetchRead => call.Fetch?
    case FetchAdvance(_) => call.Fetch?
    case FetchRaise(_) => call.Fetch?
    case Release(result) => result != TimedOut && Fits(call, result)
  }

  ghost predicate OnCall(s: State) {
    forall t :: t in s.pcs && s.pcs[t] != Idle ==> t in s.calls && Within(s.pcs[t], s.calls[t])
  }

  // The messages of the posts that answered ERR_OK, and those that fetches answered, in order.
  function SentIn(answers: seq<Answer>): seq<Message> {
    if answers == [] then []
    else
      var a := answers[|answers| - 1];
      SentIn(answers[..|answers| - 1]) + if a.result == Sent && a.call.Post? then [a.call.m] else []
  }

  function ReceivedIn(answers: seq<Answer>): seq<Message> {
    if answers == [] then []
    else
      var a := answers[|answers| - 1];
      ReceivedIn(answers[..|answers| - 1]) + if a.result.Received? then [a.result.m] else []
  }

  lemma OneMoreAnswer(answers: seq<Answer>, a: Answer)
    ensures SentIn(answers + [a]) == SentIn(answers) + if a.result == Sent && a.call.Post? then [a.call.m] else []
    ensures ReceivedIn(answers + [a]) == ReceivedIn(answers) + if a.result.Received? then [a.result.m] else []
  {
    assert (answers + [a])[..|answers|] == answers;
  }

  // Posted, or fetched, by the thread inside, which is about to answer so.
  function Sending(pc: Pc, call: Call): seq<Message> {
    if call.Post? && (pc.PostRaise? || pc == Release(Sent)) then [call.m] else []
  }

  function Receiving(pc: Pc): seq<Message> {
    if pc.FetchRaise? then [pc.got] else if pc.Release? && pc.result.Received? then [pc.result.m] else []
  }

  ghost predicate Logged(s: State) {
    && (forall k :: 0 <= k < |s.answers| ==> Fits(s.answers[k].call, s.answers[k].result))
    && (s.holder.Some? && s.holder.value in s.pcs && s.holder.value in s.calls ==>
          var h := s.holder.value;
          && s.posted == SentIn(s.answers) + Sending(s.pcs[h], s.calls[h])
          && s.fetched == ReceivedIn(s.answers) + Receiving(s.pcs[h]))
    && (s.holder == None ==> s.posted == SentIn(s.answers) && s.fetched == ReceivedIn(s.answers))
  }

  ghost predicate Told(s: State) {
    Inv(s) && OnCall(s) && Logged(s)
  }

  lemma ActStaysWithin(sh: Shared, pc: Pc, call: Call)
    requires |sh.msgs| == SIZE && Enabled(sh, pc) && Within(pc, call)
    ensures Within(Act(sh, pc).1, call)
  {
  }

  lemma EntryIsWithin(pc: Pc)
    requires Entry(pc)
    ensures Within(pc, CallOf(pc)) && pc != Idle
  {
  }

  lemma MoveKeepsOnCall(s: State, t: Tid, s': State)
    requires OnCall(s) && |s.sh.msgs| == SIZE && Move(s, t, s')
    ensures OnCall(s')
  {
    if s.pcs[t] == Idle {
      EntryIsWithin(s'.pcs[t]);
    } else if Enabled(s.sh, s.pcs[t]) {
      ActStaysWithin(s.sh, s.pcs[t], s.calls[t]);
    }
  }

  // A thread outside does nothing to the history and the logs; coming in it owes nothing yet.
  lemma OutsideMove(s: State, t: Tid, s': State)
    requires Exclusive(s) && OnCall(s) && |s.sh.msgs| == SIZE && Move(s, t, s') && !InCs(s.pcs[t])
    ensures s'.posted == s.posted && s'.fetched == s.fetched
    ensures s'.answers == s.answers || (s.pcs[t] == FetchAwait(true) && s' == GiveUp(s, t))
    ensures t in s'.pcs && s'.holder == if InCs(s'.pcs[t]) then Some(t) else s.holder
    ensures InCs(s'.pcs[t]) ==> s.holder == None && t in s'.calls && Sending(s'.pcs[t], s'.calls[t]) == []
    ensures InCs(s'.pcs[t]) ==> Receiving(s'.pcs[t]) == []
    ensures s.holder.Some? ==> s.holder.value != t && s'.pcs[s.holder.value] == s.pcs[s.holder.value]
    ensures s.holder.Some? && s.holder.value in s.calls ==>
              s.holder.value in s'.calls && s'.calls[s.holder.value] == s.calls[s.holder.value]
  {
  }

  lemma OutsideKeepsLogged(s: State, t: Tid, s': State)
    requires Exclusive(s) && OnCall(s) && Logged(s) && |s.sh.msgs| == SIZE && Move(s, t, s') && !InCs(s.pcs[t])
    requires Exclusive(s')
    ensures Logged(s')
  {
    OutsideMove(s, t, s');
    if s' == GiveUp(s, t) {
      OneMoreAnswer(s.answers, Answer(t, s.calls[t], TimedOut));
    }
    if s.holder.Some? {
      assert InCs(s.pcs[s.holder.value]) && s.holder.value in s.calls;
    }
  }

  // The thread inside posts, fetches or answers.
  lemma InsideMove(s: State, t: Tid, s': State)
    requires Exclusive(s) && OnCall(s) && |s.sh.msgs| == SIZE && Move(s, t, s') && InCs(s.pcs[t])
    ensures t in s.calls && s.holder == Some(t) && s'.calls == s.calls && t in s'.pcs
    ensures s'.holder == if InCs(s'.pcs[t]) then Some(t) else None
    ensures LogStep(s, s.pcs[t], s')
    ensures s'.answers == if s.pcs[t].Release? then s.answers + [Answer(t, s.calls[t], s.pcs[t].result)] else s.answers
    ensures Owed(s, s.pcs[t], s.calls[t], s'.pcs[t])
  {
  }

  // What the thread inside owes after its step, and what it owed before.
  predicate Owed(s: State, pc: Pc, call: Call, pc': Pc) {
    && (pc.PostAdvance? ==> call.Post? && call.m == pc.m && Sending(pc, call) == [] && Sending(pc', call) == [pc.m])
    && (pc.FetchAdvance? ==> Receiving(pc) == [] && Receiving(pc') == [pc.got])
    && (!pc.PostAdvance? && !pc.Release? ==> Sending(pc', call) == Sending(pc, call))
    && (!pc.FetchAdvance? && !pc.Release? ==> Receiving(pc') == Receiving(pc))
    && (pc.Release? ==> pc' == Idle && Fits(call, pc.result))
  }

  lemma InsideKeepsLogged(s: State, t: Tid, s': State)
    requires Exclusive(s) && OnCall(s) && Logged(s) && |s.sh.msgs| == SIZE && Move(s, t, s') && InCs(s.pcs[t])
    requires OnCall(s')
    ensures Logged(s')
  {
    InsideMove(s, t, s');
    var pc := s.pcs[t];
    if pc.Release? {
      OneMoreAnswer(s.answers, Answer(t, s.calls[t], pc.result));
    } else if !InCs(s'.pcs[t]) {
      assert pc.PostLetGo? || pc.FetchLetGo?;
    }
  }

  lemma MoveKeepsTold(s: State, t: Tid, s': State)
    requires Told(s) && Move(s, t, s')
    ensures Told(s')
  {
    NextKeepsInv(s, s');
    MoveKeepsOnCall(s, t, s');
    if InCs(s.pcs[t]) {
      InsideKeepsLogged(s, t, s');
    } else {
      OutsideKeepsLogged(s, t, s');
    }
  }

  lemma ToldWhenReachable(s: State)
    requires Reachable(Init, Next, s)
    ensures Told(s)
  {
    forall s | Init(s) ensures Told(s) { InitInv(s); }
    forall s, s' | Told(s) && Next(s, s') ensures Told(s') {
      var t :| Move(s, t, s');
      MoveKeepsTold(s, t, s');
    }
    HoldsWhenReachable(Init, Next, Told, s);
  }

  // The bounded FIFO as its callers see it: with the box mutex free, the messages whose posts have
  // answered ERR_OK are those that fetches have answered followed by those in the box, all in order.
  // ERR_MEM is given to sys_mbox_trypost, SYS_MBOX_EMPTY to sys_arch_mbox_tryfetch and SYS_ARCH_TIMEOUT
  // to a timed sys_arch_mbox_fetch only.
  lemma AnswersRefineFifo(s: State)
    requires Reachable(Init, Next, s)
    ensures |s.sh.msgs| == SIZE && s.sh.first <= s.sh.last
    ensures s.holder == None ==> SentIn(s.answers) == ReceivedIn(s.answers) + Contents(s.sh)
    ensures forall k :: 0 <= k < |s.answers| ==>
              match s.answers[k].call
              case Post(_, blocking) => s.answers[k].result == Sent || (!blocking && s.answers[k].result == ErrMem)
              case Fetch(kind) =>
                || s.answers[k].result.Received?
                || (kind == Try && s.answers[k].result == Empty)
                || (kind == Block(true) && s.answers[k].result == TimedOut)
  {
    ToldWhenReachable(s);
  }

  // An answer is true when it is given, and giving it moves nothing: ERR_MEM on a full box,
  // SYS_MBOX_EMPTY on an empty one, and SYS_ARCH_TIMEOUT without touching box or semaphores.
  lemma AnswersAreTrue(s: State, t: Tid, s': State)
    requires Reachable(Init, Next, s) && |s.sh.msgs| == SIZE && s.sh.first <= s.sh.last && Move(s, t, s')
    ensures s'.answers != s.answers ==>
              && t in s.calls && t in s'.pcs && s'.pcs[t] == Idle
              && |s'.answers| == |s.answers| + 1 && s.answers <= s'.answers
              && var a := s'.answers[|s.answers|];
                 && a.t == t && a.call == s.calls[t] && Fits(a.call, a.result)
                 && s'.posted == s.posted && s'.fetched == s.fetched
                 && |s'.sh.msgs| == SIZE && s'.sh.first <= s'.sh.last && Contents(s'.sh) == Contents(s.sh)
                 && (a.result == ErrMem ==> |Contents(s.sh)| == SIZE - 1)
                 && (a.result == Empty ==> Contents(s.sh) == [])
                 && (a.result == TimedOut ==> s'.sh == s.sh && s'.holder == s.holder)
  {
    ToldWhenReachable(s);
    assert Established(s.sh, s.pcs[t]);
  }
}

// A call that nobody disturbs.
module MailboxAlone {
  import opened Runs
  import opened MailboxProtocol
  import opened MailboxSafety
  import opened MailboxSections
  import opened MailboxAnswers

  // Thread t moves, and nobody else.
  ghost function By(t: Tid): (State, State) -> bool {
    (s: State, s': State) => |s.sh.msgs| == SIZE && Move(s, t, s')
  }

  lemma Then(t: Tid, s: State, mid: State, s': State)
    requires LeadsTo(By(t), s, mid) && |mid.sh.msgs| == SIZE && Move(mid, t, s')
    ensures LeadsTo(By(t), s, s')
  {
    LeadsToNext(By(t), s, mid, s');
  }

  lemma StaysReachable(t: Tid, s: State, s': State)
    requires Reachable(Init, Next, s) && LeadsTo(By(t), s, s')
    ensures Reachable(Init, Next, s')
  {
    LeadsWider(By(t), Next, s, s');
    ReachableLeads(Init, Next, s, s');
  }

  // What a section answers, None when it ends in a wait.
  function Outcome(sh: Shared, pc: Pc): Option<Result>
    requires InCs(pc) && |sh.msgs| == SIZE
    decreases Rank(pc)
  {
    if pc.Release? then Some(pc.result)
    else
      var (sh', pc') := Act(sh, pc);
      if InCs(pc') then Outcome(sh', pc') else None
  }

  // One statement on the way to the answer.
  lemma OutcomeNext(sh: Shared, pc: Pc)
    requires InCs(pc) && !pc.Release? && |sh.msgs| == SIZE
    ensures var (sh', pc') := Act(sh, pc);
            |sh'.msgs| == SIZE && Outcome(sh, pc) == if InCs(pc') then Outcome(sh', pc') else None
  {
  }

  lemma StoreOutcome(sh: Shared, m: Message)
    requires |sh.msgs| == SIZE
    ensures Outcome(sh, PostStore(m)) == Some(Sent)
  {
    var stored := sh.(msgs := sh.msgs[sh.last % SIZE := m]);
    var advanced, raise := stored.(last := sh.last + 1), PostRaise(sh.first == sh.last);
    OutcomeNext(sh, PostStore(m));
    OutcomeNext(stored, PostAdvance(m));
    OutcomeNext(advanced, raise);
    assert Act(sh, PostStore(m)) == (stored, PostAdvance(m)) && Act(stored, PostAdvance(m)) == (advanced, raise);
  }

  lemma PostOutcome(sh: Shared, m: Message, blocking: bool)
    requires |sh.msgs| == SIZE
    ensures Outcome(sh, PostTest(m, blocking)) ==
            if !Full(sh) then Some(Sent) else if blocking then None else Some(ErrMem)
  {
    StoreOutcome(sh, m);
    if Full(sh) && blocking {
      var enlisted := sh.(waitSend := sh.waitSend + 1);
      assert Outcome(enlisted, PostLetGo(m)) == None;
      assert Outcome(sh, PostEnlist(m)) == None;
    }
  }

  lemma RaiseOutcome(sh: Shared, got: Message)
    requires |sh.msgs| == SIZE
    ensures Outcome(sh, FetchRaise(got)) == Some(Received(got))
  {
  }

  lemma AdvanceOutcome(sh: Shared, got: Message)
    requires |sh.msgs| == SIZE
    ensures Outcome(sh, FetchAdvance(got)) == Some(Received(got))
  {
    OutcomeNext(sh, FetchAdvance(got));
    RaiseOutcome(sh.(first := sh.first + 1), got);
  }

  lemma ReadOutcome(sh: Shared)
    requires |sh.msgs| == SIZE
    ensures Outcome(sh, FetchRead) == Some(Received(sh.msgs[sh.first % SIZE]))
  {
    OutcomeNext(sh, FetchRead);
    AdvanceOutcome(sh, sh.msgs[sh.first % SIZE]);
  }

  lemma FetchOutcome(sh: Shared, kind: FetchKind)
    requires |sh.msgs| == SIZE
    ensures Outcome(sh, FetchTest(kind)) ==
            if sh.first != sh.last then Some(Received(sh.msgs[sh.first % SIZE]))
            else if kind.Try? then Some(Empty) else None
  {
    if sh.first != sh.last {
      ReadOutcome(sh);
      assert Act(sh, FetchTest(kind)) == (sh, FetchRead);
    }
  }

  // The end of a call of thread t, or of its way to a wait.
  ghost predicate RanTo(s: State, t: Tid, sh: Shared, pc: Pc, outcome: Option<Result>, s': State) {
    && s'.sh == sh && s'.holder == None && s'.pcs == s.pcs[t := pc] && s'.calls == s.calls
    && s'.answers == (if outcome.Some? && t in s.calls then s.answers + [Answer(t, s.calls[t], outcome.value)] else s.answers)
  }

  lemma {:induction false} SectionRuns(s: State, t: Tid) returns (s': State)
    requires |s.sh.msgs| == SIZE && t in s.pcs && InCs(s.pcs[t])
    ensures LeadsTo(By(t), s, s')
    ensures RanTo(s, t, Section(s.sh, s.pcs[t]).0, Section(s.sh, s.pcs[t]).1, Outcome(s.sh, s.pcs[t]), s')
    decreases Rank(s.pcs[t])
  {
    s' := Advance(s, t);
    LeadsToItself(By(t), s);
    Then(t, s, s, s');
    if InCs(s'.pcs[t]) {
      var moved := s';
      s' := SectionRuns(moved, t);
      LeadsToLeads(By(t), s, moved, s');
      assert moved.pcs[t := s'.pcs[t]] == s.pcs[t := s'.pcs[t]];
    }
  }

  // From an entry, or on the way back from a wait, with the box mutex free.
  lemma LockedSectionRuns(s: State, t: Tid) returns (s': State)
    requires |s.sh.msgs| == SIZE && t in s.pcs && s.sh.mutex > 0
    requires Entry(s.pcs[t]) || s.pcs[t].FetchRelock? || s.pcs[t].PostRelock?
    ensures LeadsTo(By(t), s, s')
    ensures var inside := Act(s.sh, s.pcs[t]);
            RanTo(s, t, Section(inside.0, inside.1).0, Section(inside.0, inside.1).1, Outcome(inside.0, inside.1), s')
  {
    var locked := Advance(s, t);
    LeadsToItself(By(t), s);
    Then(t, s, s, locked);
    s' := SectionRuns(locked, t);
    LeadsToLeads(By(t), s, locked, s');
    assert locked.pcs[t := s'.pcs[t]] == s.pcs[t := s'.pcs[t]];
  }

  // What is left of a call run alone: where its thread stands, what it answered, what the box holds.
  datatype Ending = Answered(result: Result, box: seq<Message>) | Blocked(pc: Pc, box: seq<Message>)

  // What each call should come to, by the contents of the box.
  function EndingOf(call: Call, box: seq<Message>): Ending {
    match call
    case Post(m, blocking) =>
      if |box| < SIZE - 1 then Answered(Sent, box + [m])
      else if blocking then Blocked(PostAwait(m), box) else Answered(ErrMem, box)
    case Fetch(kind) =>
      if box != [] then Answered(Received(box[0]), box[1..])
      else if kind.Block? then Blocked(FetchAwait(kind.timed), box) else Answered(Empty, box)
  }

  ghost predicate EndsSo(s: State, t: Tid, call: Call, e: Ending, s': State) {
    && s'.holder == None && s'.calls == s.calls[t := call]
    && |s'.sh.msgs| == SIZE && s'.sh.first <= s'.sh.last && Contents(s'.sh) == e.box
    && match e
       case Answered(result, _) => s'.pcs == s.pcs[t := Idle] && s'.answers == s.answers + [Answer(t, call, result)]
       case Blocked(pc, _) => s'.pcs == s.pcs[t := pc] && s'.answers == s.answers
  }

  function EntryOf(call: Call): Pc {
    match call
    case Post(m, blocking) => PostLock(m, blocking)
    case Fetch(kind) => FetchLock(kind)
  }

  lemma FreeBox(s: State)
    requires Reachable(Init, Next, s) && s.holder == None
    ensures Bounded(s.sh) && s.sh.mutex == 1
    ensures s.posted == SentIn(s.answers) && s.fetched == ReceivedIn(s.answers)
  {
    ToldWhenReachable(s);
  }

  // The first statement of a call takes the box mutex.
  function FirstTest(call: Call): Pc {
    match call
    case Post(m, blocking) => PostTest(m, blocking)
    case Fetch(kind) => FetchTest(kind)
  }

  lemma CallEnds(sh: Shared, call: Call)
    requires Bounded(sh) && sh.mutex == 1
    ensures Act(sh, EntryOf(call)) == (sh.(mutex := 0), FirstTest(call))
    ensures var (sh', pc') := Section(sh.(mutex := 0), FirstTest(call));
            && |sh'.msgs| == SIZE && sh'.first <= sh'.last
            && match EndingOf(call, Contents(sh))
               case Answered(result, box) =>
                 pc' == Idle && Outcome(sh.(mutex := 0), FirstTest(call)) == Some(result) && Contents(sh') == box
               case Blocked(pc, box) =>
                 pc' == pc && Outcome(sh.(mutex := 0), FirstTest(call)) == None && Contents(sh') == box
  {
    match call {
      case Post(m, blocking) => PostEnds(sh, sh.(mutex := 0), m, blocking);
      case Fetch(kind) => FetchEnds(sh, sh.(mutex := 0), kind);
    }
  }

  // From the idle thread into the call and on to its end or to its wait.
  lemma EntersAndRuns(s: State, t: Tid, call: Call) returns (s': State)
    requires |s.sh.msgs| == SIZE && t in s.pcs && s.pcs[t] == Idle && s.sh.mutex > 0
    ensures LeadsTo(By(t), s, s')
    ensures var (sh, pc) := Act(s.sh, EntryOf(call));
            var e := Section(sh, pc);
            && s'.sh == e.0 && s'.pcs == s.pcs[t := e.1] && s'.holder == None && s'.calls == s.calls[t := call]
            && s'.answers == match Outcome(sh, pc)
                             case Some(result) => s.answers + [Answer(t, call, result)]
                             case None => s.answers
  {
    var entered := Enter(s, t, EntryOf(call));
    LeadsToItself(By(t), s);
    Then(t, s, s, entered);
    s' := LockedSectionRuns(entered, t);
    LeadsToLeads(By(t), s, entered, s');
    assert entered.pcs[t := s'.pcs[t]] == s.pcs[t := s'.pcs[t]];
  }

  // Every call, begun with the box mutex free and run alone, comes to the end it should.
  lemma CallRunsAlone(s: State, t: Tid, call: Call) returns (s': State)
    requires Reachable(Init, Next, s) && s.holder == None && t in s.pcs && s.pcs[t] == Idle
    requires |s.sh.msgs| == SIZE && s.sh.first <= s.sh.last
    ensures LeadsTo(By(t), s, s') && EndsSo(s, t, call, EndingOf(call, Contents(s.sh)), s')
  {
    FreeBox(s);
    CallEnds(s.sh, call);
    s' := EntersAndRuns(s, t, call);
  }

  lemma PostEnds(sh: Shared, locked: Shared, m: Message, blocking: bool)
    requires Bounded(sh) && locked == sh.(mutex := 0)
    ensures var (sh', pc') := Section(locked, PostTest(m, blocking));
            && |sh'.msgs| == SIZE && sh'.first <= sh'.last
            && match EndingOf(Post(m, blocking), Contents(sh))
               case Answered(result, box) =>
                 pc' == Idle && Outcome(locked, PostTest(m, blocking)) == Some(result) && Contents(sh') == box
               case Blocked(pc, box) =>
                 pc' == pc && Outcome(locked, PostTest(m, blocking)) == None && Contents(sh') == box
  {
    PostSection(locked, m, blocking);
    PostOutcome(locked, m, blocking);
    if !Full(sh) {
      StoreKeepsContents(sh, m);
      AdvanceAppends(sh.(msgs := sh.msgs[sh.last % SIZE := m]));
      SameRing(sh.(msgs := sh.msgs[sh.last % SIZE := m], last := sh.last + 1), Posted(locked, m));
    } else {
      SameRing(sh, Section(locked, PostTest(m, blocking)).0);
    }
  }

  lemma FetchEnds(sh: Shared, locked: Shared, kind: FetchKind)
    requires Bounded(sh) && locked == sh.(mutex := 0)
    ensures var (sh', pc') := Section(locked, FetchTest(kind));
            && |sh'.msgs| == SIZE && sh'.first <= sh'.last
            && match EndingOf(Fetch(kind), Contents(sh))
               case Answered(result, box) =>
                 pc' == Idle && Outcome(locked, FetchTest(kind)) == Some(result) && Contents(sh') == box
               case Blocked(pc, box) =>
                 pc' == pc && Outcome(locked, FetchTest(kind)) == None && Contents(sh') == box
  {
    FetchSection(locked, kind);
    FetchOutcome(locked, kind);
    if sh.first != sh.last {
      AdvanceDrops(sh);
      SameRing(sh.(first := sh.first + 1), Fetched(locked));
    } else {
      SameRing(sh, Section(locked, FetchTest(kind)).0);
    }
  }

  // A timed fetch that waits can return SYS_ARCH_TIMEOUT with nobody else moving, and leaves box,
  // semaphores, histories and everybody else as they were.
  lemma WaitingFetchTimesOut(s: State, t: Tid)
    requires Reachable(Init, Next, s) && |s.sh.msgs| == SIZE && t in s.pcs && s.pcs[t] == FetchAwait(true)
    ensures t in s.calls
    ensures LeadsTo(By(t), s, s.(pcs := s.pcs[t := Idle], answers := s.answers + [Answer(t, Fetch(Block(true)), TimedOut)]))
  {
    ToldWhenReachable(s);
    LeadsToItself(By(t), s);
    Then(t, s, s, GiveUp(s, t));
  }

  // A timed fetch from an empty box, run alone from its entry, can time out too.
  lemma FetchTimesOut(s: State, t: Tid) returns (s': State)
    requires Reachable(Init, Next, s) && s.holder == None && t in s.pcs && s.pcs[t] == Idle
    requires |s.sh.msgs| == SIZE && s.sh.first == s.sh.last
    ensures LeadsTo(By(t), s, s') && s'.sh == s.sh && s'.holder == None && s'.pcs == s.pcs
    ensures s'.posted == s.posted && s'.fetched == s.fetched
    ensures s'.answers == s.answers + [Answer(t, Fetch(Block(true)), TimedOut)]
  {
    FreeBox(s);
    FetchSection(s.sh.(mutex := 0), Block(true));
    FetchOutcome(s.sh.(mutex := 0), Block(true));
    var waiting := EntersAndRuns(s, t, Fetch(Block(true)));
    s' := GiveUp(waiting, t);
    Then(t, s, waiting, s');
    assert s'.pcs == s.pcs;
    StaysReachable(t, s, s');
    FreeBox(s');
    OneMoreAnswer(s.answers, Answer(t, Fetch(Block(true)), TimedOut));
  }
}
