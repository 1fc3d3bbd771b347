// Wake-ups in the mailbox, where `not_empty` is signalled only on the empty-to-non-empty edge,
// `not_full` only when a sender waits, and both are capped at one. One fetcher that blocks is never
// stranded beside a message, and one sender that blocks is never stranded beside a free slot; of two
// of either kind one can be (modules TwoFetchers and TwoSenders). With one blocking fetcher, however
// many senders block, the two sides never deadlock; with two they can (TwoFetchersCanDeadlock).
module MailboxProgress {
  import opened Runs
  import opened MailboxProtocol
  import opened MailboxSafety

  // The step that signals the edge is still to come.
  predicate AboutToSignal(pc: Pc) {
    pc == PostRaise(true)
  }

  // The fetcher f has seen an empty box and has not taken a unit of `not_empty` since.
  predicate AwaitsMail(s: State, f: Tid) {
    f in s.pcs && (s.pcs[f].FetchLetGo? || s.pcs[f].FetchAwait?)
  }

  ghost predicate MailSignalled(f: Tid, s: State) {
    && OnlyFetcher(f, s)
    && (AwaitsMail(s, f) && s.sh.first < s.sh.last ==>
          s.sh.notEmpty == 1 || exists t :: t in s.pcs && AboutToSignal(s.pcs[t]))
  }

  // A sender that has enlisted and holds no unit of `not_full`.
  predicate AwaitsSpace(pc: Pc) {
    pc.PostLetGo? || pc.PostAwait?
  }

  // A thread that will either leave a message in the box or signal `not_full`.
  predicate Hopeful(pc: Pc) {
    || pc.PostRelock? || pc.PostDelist? || pc.PostTest? || pc.PostStore? || pc.PostAdvance?
    || pc.FetchRaise?
  }

  ghost predicate Hope(s: State) {
    s.sh.first < s.sh.last || s.sh.notFull == 1 || exists t :: t in s.pcs && Hopeful(s.pcs[t])
  }

  // A waiting sender is never left behind an empty box.
  ghost predicate SpaceSignalled(s: State) {
    forall w :: w in s.pcs && AwaitsSpace(s.pcs[w]) ==> Hope(s)
  }

  lemma MoveKeepsMailSignalled(f: Tid, s: State, t: Tid, s': State)
    requires Inv(s) && MailSignalled(f, s) && Move(s, t, s') && OnlyFetcher(f, s')
    ensures MailSignalled(f, s')
  {
    if AwaitsMail(s', f) && s'.sh.first < s'.sh.last {
      if t != f && InCs(s.pcs[t]) {
        assert s.pcs[f].FetchAwait?;
      }
      if !(s.sh.first < s.sh.last) {
        // the box became non-empty in this step: the edge is recorded in t's next statement
        assert s.pcs[t].PostAdvance? && s'.pcs[t] == PostRaise(true);
      } else if s.sh.notEmpty != 1 {
        var u :| u in s.pcs && AboutToSignal(s.pcs[u]);
        assert u == t || s'.pcs[u] == s.pcs[u];
      }
    }
  }

  lemma WaitersAreCounted(s: State, w: Tid)
    requires Inv(s) && w in s.pcs && Enlisted(s.pcs[w])
    ensures s.sh.waitSend > 0
  {
    assert w in Those(s.pcs, Enlisted);
  }

  lemma MoveKeepsSpaceSignalled(s: State, t: Tid, s': State)
    requires Inv(s) && SpaceSignalled(s) && Move(s, t, s')
    ensures SpaceSignalled(s')
  {
    forall w | w in s'.pcs && AwaitsSpace(s'.pcs[w])
      ensures Hope(s')
    {
      if w == t {
        assert Full(s'.sh);
      } else {
        WaitersAreCounted(s, w);
        if u :| u in s.pcs && Hopeful(s.pcs[u]) && u != t {
          assert s'.pcs[u] == s.pcs[u];
        } else if Hopeful(s.pcs[t]) || s.pcs[t].PostAwait? || s.pcs[t].FetchAdvance? {
          assert Hopeful(s'.pcs[t]) || s'.sh.first < s'.sh.last || s'.sh.notFull == 1;
        }
      }
    }
  }

  ghost predicate Progress(f: Tid, s: State) {
    Inv(s) && MailSignalled(f, s) && SpaceSignalled(s)
  }

  lemma ProgressAlways(f: Tid, tr: seq<State>, i: nat)
    requires IsRun(Init, NextWith(f), tr) && i < |tr|
    ensures Progress(f, tr[i])
  {
    var inv := s => Progress(f, s);
    forall s | Init(s) ensures inv(s) { InitInv(s); }
    forall s, s' | inv(s) && NextWith(f)(s, s') ensures inv(s') {
      NextKeepsInv(s, s');
      var t :| Move(s, t, s');
      MoveKeepsMailSignalled(f, s, t, s');
      MoveKeepsSpaceSignalled(s, t, s');
    }
    InvariantAt(Init, NextWith(f), inv, tr, i);
  }

  // No lost message wake-up: with one blocking fetcher, whenever it waits on `not_empty`, the box
  // holds a message and nobody holds the box mutex, the wait can pass.
  lemma NoLostMail(f: Tid, tr: seq<State>, i: nat)
    requires IsRun(Init, NextWith(f), tr) && i < |tr|
    requires f in tr[i].pcs && tr[i].pcs[f].FetchAwait?
    requires tr[i].sh.first < tr[i].sh.last && tr[i].holder == None
    ensures tr[i].sh.notEmpty == 1 && Enabled(tr[i].sh, tr[i].pcs[f])
  {
    ProgressAlways(f, tr, i);
  }

  lemma SpaceSignalledAlways(tr: seq<State>, i: nat)
    requires IsRun(Init, Next, tr) && i < |tr|
    ensures Inv(tr[i]) && SpaceSignalled(tr[i])
  {
    var inv := s => Inv(s) && SpaceSignalled(s);
    forall s | Init(s) ensures inv(s) { InitInv(s); }
    forall s, s' | inv(s) && Next(s, s') ensures inv(s') {
      NextKeepsInv(s, s');
      var t :| Move(s, t, s');
      MoveKeepsSpaceSignalled(s, t, s');
    }
    InvariantAt(Init, Next, inv, tr, i);
  }

  // Any number of threads may block on either side here.
  // If a sender waits, `not_full` is zero and no thread is on its way to post or to signal, the box is
  // non-empty, so the next fetch will signal. More does not hold: see TwoSendersCanStrandOne.
  lemma WaitingSenderSeesMail(tr: seq<State>, i: nat, w: Tid)
    requires IsRun(Init, Next, tr) && i < |tr|
    requires w in tr[i].pcs && tr[i].pcs[w].PostAwait? && tr[i].sh.notFull == 0
    requires forall t :: t in tr[i].pcs ==> !Hopeful(tr[i].pcs[t])
    ensures tr[i].sh.first < tr[i].sh.last && tr[i].sh.waitSend > 0
  {
    SpaceSignalledAlways(tr, i);
    WaitersAreCounted(tr[i], w);
  }

  predicate Busy(s: State, t: Tid) {
    t in s.pcs && s.pcs[t] != Idle
  }

  // The thread can execute its next statement, or its timed wait can expire.
  predicate CanMove(s: State, t: Tid) {
    Busy(s, t) && (Enabled(s.sh, s.pcs[t]) || s.pcs[t] == FetchAwait(true))
  }

  ghost predicate Stuck(s: State) {
    forall t :: Busy(s, t) ==> !CanMove(s, t)
  }

  lemma StuckThreadsWaitForEachSide(s: State, t: Tid)
    requires Inv(s) && Stuck(s) && Busy(s, t)
    ensures s.holder == None
    ensures || (s.pcs[t].PostAwait? && s.sh.notFull == 0)
            || (s.pcs[t] == FetchAwait(false) && s.sh.notEmpty == 0)
  {
    if s.holder.Some? {
      assert CanMove(s, s.holder.value);
    }
    assert !CanMove(s, t);
  }

  // In a reachable state in which calls are under way but none can proceed only one side is there: a
  // lone fetcher before an empty box, or senders before a box with mail and nobody in the blocking
  // fetch. With several senders there may be room; with one there is none (StuckSenderSeesFullBox).
  lemma StuckOnlyWhenOneSideIsAbsent(f: Tid, tr: seq<State>, i: nat)
    requires IsRun(Init, NextWith(f), tr) && i < |tr| && Stuck(tr[i])
    ensures var s := tr[i];
            || (&& s.sh.first == s.sh.last
                && forall t :: Busy(s, t) ==> t == f && s.pcs[t] == FetchAwait(false))
            || (s.sh.first < s.sh.last && forall t :: Busy(s, t) ==> s.pcs[t].PostAwait?)
  {
    ProgressAlways(f, tr, i);
    var s := tr[i];
    forall t | Busy(s, t)
      ensures s.holder == None && s.sh.mutex == 1
      ensures || (s.pcs[t].PostAwait? && s.sh.notFull == 0)
              || (t == f && s.pcs[t] == FetchAwait(false) && s.sh.notEmpty == 0)
    {
      StuckThreadsWaitForEachSide(s, t);
    }
  }

  // ---------- one blocking sender ----------

  // From the failed test of a blocking post to wait_send--.
  predicate Delayed(pc: Pc) {
    pc.PostEnlist? || Enlisted(pc)
  }

  // Runs in which only thread w blocks in sys_mbox_post: the posts of others find room.
  ghost predicate OnlySender(w: Tid, s: State) {
    forall t :: t in s.pcs && Delayed(s.pcs[t]) ==> t == w
  }

  ghost function NextWithSender(w: Tid): (State, State) -> bool {
    (s, s') => Next(s, s') && OnlySender(w, s')
  }

  // The sender w has found the box full and has not taken a unit of `not_full` since.
  predicate AwaitsRoom(s: State, w: Tid) {
    w in s.pcs && (s.pcs[w].PostEnlist? || AwaitsSpace(s.pcs[w]))
  }

  ghost predicate RoomSignalled(w: Tid, s: State) {
    && OnlySender(w, s)
    && (AwaitsRoom(s, w) && !Full(s.sh) ==>
          s.sh.notFull == 1 || exists t :: t in s.pcs && s.pcs[t].FetchRaise?)
  }

  lemma MoveKeepsRoomSignalled(w: Tid, s: State, t: Tid, s': State)
    requires Inv(s) && RoomSignalled(w, s) && Move(s, t, s') && OnlySender(w, s')
    ensures RoomSignalled(w, s')
  {
    if AwaitsRoom(s', w) && !Full(s'.sh) {
      if t != w && InCs(s.pcs[t]) {
        assert s.pcs[w].PostAwait?;
        WaitersAreCounted(s, w);
      }
      if Full(s.sh) {
        // a slot became free in this step: the signal is t's next statement
        assert s'.pcs[t].FetchRaise?;
      } else if s.sh.notFull != 1 {
        var u :| u in s.pcs && s.pcs[u].FetchRaise?;
        assert u == t || s'.pcs[u] == s.pcs[u];
      }
    }
  }

  lemma RoomSignalledAlways(w: Tid, tr: seq<State>, i: nat)
    requires IsRun(Init, NextWithSender(w), tr) && i < |tr|
    ensures Inv(tr[i]) && RoomSignalled(w, tr[i])
  {
    var inv := s => Inv(s) && RoomSignalled(w, s);
    forall s | Init(s) ensures inv(s) { InitInv(s); }
    forall s, s' | inv(s) && NextWithSender(w)(s, s') ensures inv(s') {
      NextKeepsInv(s, s');
      var t :| Move(s, t, s');
      MoveKeepsRoomSignalled(w, s, t, s');
    }
    InvariantAt(Init, NextWithSender(w), inv, tr, i);
  }

  // No lost wake-up for a lone blocking sender: whenever it waits on `not_full`, the box has room and
  // nobody holds the box mutex, the wait can pass.
  lemma NoLostRoom(w: Tid, tr: seq<State>, i: nat)
    requires IsRun(Init, NextWithSender(w), tr) && i < |tr|
    requires w in tr[i].pcs && tr[i].pcs[w].PostAwait? && !Full(tr[i].sh) && tr[i].holder == None
    ensures tr[i].sh.notFull == 1 && Enabled(tr[i].sh, tr[i].pcs[w])
  {
    RoomSignalledAlways(w, tr, i);
  }

  // With one blocking sender, and any number of blocking fetchers, a sender that is stuck with
  // everybody else is stuck before a full box.
  lemma StuckSenderSeesFullBox(w: Tid, tr: seq<State>, i: nat, t: Tid)
    requires IsRun(Init, NextWithSender(w), tr) && i < |tr| && Stuck(tr[i])
    requires Busy(tr[i], t) && tr[i].pcs[t].PostAwait?
    ensures t == w && |tr[i].sh.msgs| == SIZE && tr[i].sh.first <= tr[i].sh.last
    ensures Full(tr[i].sh) && |Contents(tr[i].sh)| == SIZE - 1
  {
    RoomSignalledAlways(w, tr, i);
    StuckThreadsWaitForEachSide(tr[i], t);
    if !Full(tr[i].sh) {
      NoLostRoom(w, tr, i);
    }
  }

  // Deadlock freedom: when only thread f blocks in the fetch and any number of senders block, while two
  // threads are in calls and not both wait for room, somebody can proceed; in particular while f
  // fetches and another thread is in any call. With two blocking fetchers this fails: see
  // TwoFetchersCanDeadlock.
  lemma DeadlockFree(f: Tid, g: Tid, p: Tid, tr: seq<State>, i: nat)
    requires IsRun(Init, NextWith(f), tr) && i < |tr|
    requires g != p && Busy(tr[i], g) && !tr[i].pcs[g].PostAwait? && Busy(tr[i], p)
    ensures exists t :: CanMove(tr[i], t)
  {
    if !exists t :: CanMove(tr[i], t) {
      StuckOnlyWhenOneSideIsAbsent(f, tr, i);
    }
  }
}
