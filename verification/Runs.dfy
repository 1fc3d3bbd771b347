// Finite runs of a step system and the induction principle every protocol in
// this project uses: an invariant that holds initially and is kept by each
// step holds in every state of every run.
module Runs {

  datatype Option<+T> = None | Some(value: T)

  ghost predicate StepAt<S>(next: (S, S) -> bool, tr: seq<S>, i: int)
    requires 0 < i < |tr|
  {
    next(tr[i - 1], tr[i])
  }

  ghost predicate IsRun<S>(init: S -> bool, next: (S, S) -> bool, tr: seq<S>) {
    && |tr| > 0
    && init(tr[0])
    && forall i :: 0 < i < |tr| ==> StepAt(next, tr, i)
  }

  lemma {:induction false} InvariantAt<S(!new)>(
      init: S -> bool, next: (S, S) -> bool, inv: S -> bool, tr: seq<S>, i: nat)
    requires IsRun(init, next, tr) && i < |tr|
    requires forall s :: init(s) ==> inv(s)
    requires forall s, s' :: inv(s) && next(s, s') ==> inv(s')
    ensures inv(tr[i])
  {
    if i > 0 {
      InvariantAt(init, next, inv, tr, i - 1);
      assert StepAt(next, tr, i);
    }
  }

  // The threads of `pcs` whose program counter satisfies `p`.
  ghost function Those<Tid, Pc>(pcs: map<Tid, Pc>, p: Pc -> bool): set<Tid> {
    set t | t in pcs && p(pcs[t])
  }

  // Moving one thread changes the number of threads in a region by exactly its own entry or exit.
  lemma CountMove<Tid, Pc>(pcs: map<Tid, Pc>, p: Pc -> bool, t: Tid, pc: Pc)
    requires t in pcs
    ensures |Those(pcs[t := pc], p)| ==
            |Those(pcs, p)| - (if p(pcs[t]) then 1 else 0) + (if p(pc) then 1 else 0)
  {
    var others := Those(pcs, p) - {t};
    assert Those(pcs, p) == others + if p(pcs[t]) then {t} else {};
    assert Those(pcs[t := pc], p) == others + if p(pc) then {t} else {};
  }

  // A predicate that can hold of one thread only has a region of at most one thread.
  lemma AtMostOne<Tid>(ts: set<Tid>, t: Tid)
    requires forall u :: u in ts ==> u == t
    ensures |ts| == if t in ts then 1 else 0
  {
    if t in ts {
      assert ts == {t};
    } else {
      assert ts == {};
    }
  }

  // Some run ends in s.
  ghost predicate Reachable<S(!new)>(init: S -> bool, next: (S, S) -> bool, s: S) {
    exists tr :: IsRun(init, next, tr) && tr[|tr| - 1] == s
  }

  lemma ReachableInit<S(!new)>(init: S -> bool, next: (S, S) -> bool, s: S)
    requires init(s)
    ensures Reachable(init, next, s)
  {
    assert IsRun(init, next, [s]) && [s][|[s]| - 1] == s;
  }

  lemma ReachableNext<S(!new)>(init: S -> bool, next: (S, S) -> bool, s: S, s': S)
    requires Reachable(init, next, s) && next(s, s')
    ensures Reachable(init, next, s')
  {
    var tr :| IsRun(init, next, tr) && tr[|tr| - 1] == s;
    var tr' := tr + [s'];
    forall i | 0 < i < |tr'|
      ensures StepAt(next, tr', i)
    {
      assert i < |tr| ==> StepAt(next, tr, i);
    }
    assert tr'[|tr'| - 1] == s';
  }

  ghost function Only<S>(s: S): S -> bool {
    x => x == s
  }

  // Some run from s ends in s'.
  ghost predicate LeadsTo<S(!new)>(next: (S, S) -> bool, s: S, s': S) {
    Reachable(Only(s), next, s')
  }

  lemma LeadsToItself<S(!new)>(next: (S, S) -> bool, s: S)
    ensures LeadsTo(next, s, s)
  {
    ReachableInit(Only(s), next, s);
  }

  lemma LeadsToNext<S(!new)>(next: (S, S) -> bool, s: S, mid: S, s': S)
    requires LeadsTo(next, s, mid) && next(mid, s')
    ensures LeadsTo(next, s, s')
  {
    ReachableNext(Only(s), next, mid, s');
  }

  lemma {:induction false} ReachableAlong<S(!new)>(init: S -> bool, next: (S, S) -> bool, tr: seq<S>, i: nat)
    requires i < |tr| && Reachable(init, next, tr[0]) && forall k :: 0 < k < |tr| ==> StepAt(next, tr, k)
    ensures Reachable(init, next, tr[i])
  {
    if i > 0 {
      ReachableAlong(init, next, tr, i - 1);
      assert StepAt(next, tr, i);
      ReachableNext(init, next, tr[i - 1], tr[i]);
    }
  }

  lemma ReachableLeads<S(!new)>(init: S -> bool, next: (S, S) -> bool, s: S, s': S)
    requires Reachable(init, next, s) && LeadsTo(next, s, s')
    ensures Reachable(init, next, s')
  {
    var tr :| IsRun(Only(s), next, tr) && tr[|tr| - 1] == s';
    ReachableAlong(init, next, tr, |tr| - 1);
  }

  lemma LeadsToLeads<S(!new)>(next: (S, S) -> bool, s: S, mid: S, s': S)
    requires LeadsTo(next, s, mid) && LeadsTo(next, mid, s')
    ensures LeadsTo(next, s, s')
  {
    ReachableLeads(Only(s), next, mid, s');
  }

  lemma HoldsWhenReachable<S(!new)>(init: S -> bool, next: (S, S) -> bool, inv: S -> bool, s: S)
    requires Reachable(init, next, s)
    requires forall x :: init(x) ==> inv(x)
    requires forall x, y :: inv(x) && next(x, y) ==> inv(y)
    ensures inv(s)
  {
    var tr :| IsRun(init, next, tr) && tr[|tr| - 1] == s;
    InvariantAt(init, next, inv, tr, |tr| - 1);
  }

  // A run of fewer steps is a run of more.
  lemma LeadsWider<S(!new)>(narrow: (S, S) -> bool, wide: (S, S) -> bool, s: S, s': S)
    requires LeadsTo(narrow, s, s') && forall x, y :: narrow(x, y) ==> wide(x, y)
    ensures LeadsTo(wide, s, s')
  {
    var tr :| IsRun(Only(s), narrow, tr) && tr[|tr| - 1] == s';
    forall i | 0 < i < |tr|
      ensures StepAt(wide, tr, i)
    {
      assert StepAt(narrow, tr, i);
    }
    assert IsRun(Only(s), wide, tr);
  }
}
