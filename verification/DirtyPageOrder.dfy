/**
  The order of recovery PLSNs. The queue word has no version: a writer can read {p, p}, p can leave
  and come back, and the writer's compare-and-swap succeeds although its PLSN was read before the
  one p now carries. In runs where no swap succeeds on a word rewritten since it was read, the queue
  is sorted, the recovery PLSN never goes back, and the two checks that compare PLSNs pass.
*/
module DirtyPageOrder {
  import opened Common
  import opened DirtyPageQueue
  import opened DirtyPageInvariant
  import S = DirtyPageSafety
  import W = DirtyPageWriters
  import M = DirtyPageMaster

  /** A swap succeeds only on the very word that was read. */
  ghost predicate Fresh(s: State, a: Action) {
    (a.WriterStep? && s.writers(a.thread).Stamped? && s.q.word == s.writers(a.thread).seen) ==>
      s.writers(a.thread).ver == s.ver
  }

  ghost predicate FreshExecution(states: seq<State>, actions: seq<Action>) {
    S.Execution(states, actions) && forall i | 0 <= i < |actions| :: Fresh(states[i], actions[i])
  }

  /** The checks on recovery PLSNs: in Push against the predecessor, in Run against the published one. */
  ghost predicate Misordered(s: State, a: Action) {
    match a
    case WriterStep(t) =>
      var w := s.writers(t);
      w.Stored? && w.pred.At? && s.rplsn(w.pred.page) > w.plsn
    case MasterStep(_, _) => s.master.Publish? && s.master.plsn < s.recovery
    case _ => false
  }

  predicate Sorted(pushed: seq<Entry>) {
    forall j, k | 0 <= j < k < |pushed| :: pushed[j].plsn <= pushed[k].plsn
  }

  predicate Above(h: History, r: int) {
    forall k | h.removed <= k < |h.pushed| :: r <= h.pushed[k].plsn
  }

  /** The recovery PLSN about to be published, or the published one. */
  function Floor(m: Master, recovery: int): int {
    if m.Publish? then Max(recovery, m.plsn) else if m.EmptyPublish? then Max(recovery, m.max) else recovery
  }

  /** A PLSN read since the word was last written is at or above everything pushed or published. */
  predicate StampOk(w: Writer, ver: nat, pushed: seq<Entry>, floor: int) {
    && (w.Loaded? || w.Stamped? ==> w.ver <= ver)
    && (w.Stamped? && w.ver == ver ==> floor <= w.plsn && forall k | 0 <= k < |pushed| :: pushed[k].plsn <= w.plsn)
  }

  ghost predicate StampsOk(writers: int -> Writer, ver: nat, pushed: seq<Entry>, floor: int) {
    forall t :: StampOk(writers(t), ver, pushed, floor)
  }

  predicate PublishOk(m: Master, recovery: int) {
    match m
    case Began(max) => recovery <= max
    case ScanVec(max, _, _) => recovery <= max
    case ScanPage(max, _, _, _, _) => recovery <= max
    case ScanNext(max, _, _, _, _) => recovery <= max
    case Flushing(max, _, _) => recovery <= max
    case AdvRem(_, _, _, plsn) => recovery <= plsn
    case Publish(plsn) => recovery <= plsn
    case EmptyLoad(max) => recovery <= max
    case EmptyCas(max, _) => recovery <= max
    case EmptyPublish(max) => recovery <= max
    case _ => true
  }

  ghost predicate Ordered(s: State) {
    && Sorted(s.q.h.pushed)
    && Above(s.q.h, Floor(s.master, s.recovery))
    && StampsOk(s.writers, s.ver, s.q.h.pushed, Floor(s.master, s.recovery))
    && PublishOk(s.master, s.recovery)
  }

  /** What the invariant says about PLSNs. */
  lemma PlsnFacts(s: State)
    requires Inv(s)
    ensures PlsnsOk(s.q.h.pushed, |s.d.wal|) && Floor(s.master, s.recovery) <= Plsn(|s.d.wal|)
    ensures s.q.h.removed <= |s.q.h.pushed| && s.recovery <= Plsn(|s.d.wal|)
  {
  }

  lemma WriterOrdered(s: State, t: int)
    requires Inv(s) && Ordered(s) && !s.writers(t).Idle? && Fresh(s, WriterStep(t))
    ensures Ordered(WriterApply(s, t))
  {
    hide Inv;
    PlsnFacts(s);
  }

  lemma MasterFacts(s: State)
    requires Inv(s) && MasterEnabled(s)
    ensures s.master.AdvLock? ==>
        s.q.h.removed < |s.q.h.pushed| && s.rplsn(s.master.here) == s.q.h.pushed[s.q.h.removed].plsn
    ensures s.master.AdvCas? ==> s.q.h.removed < |s.q.h.pushed| && s.master.plsn == s.q.h.pushed[s.q.h.removed].plsn
    ensures s.master.AdvRem? ==>
        0 < s.q.h.removed <= |s.q.h.pushed| && s.master.plsn == s.q.h.pushed[s.q.h.removed - 1].plsn
    ensures s.master.EmptyCas? && s.q.word == s.master.seen ==> s.q.h.removed == |s.q.h.pushed|
  {
    if s.master.AdvLock? { M.LockFacts(s, s.master.here); }
  }

  predicate Moves(m: Master) { m.AdvLock? || m.AdvCas? || m.AdvRem? || m.EmptyCas? }

  lemma ScanOrdered(s: State, cap: nat, vecFull: bool)
    requires Inv(s) && Ordered(s) && MasterEnabled(s) && !Moves(s.master)
    ensures Ordered(MasterApply(s, cap, vecFull))
  {
    hide Inv, Sorted, Above, StampsOk;
    PlsnFacts(s);
  }

  lemma MoveOrdered(s: State, cap: nat, vecFull: bool)
    requires Inv(s) && Ordered(s) && MasterEnabled(s) && Moves(s.master)
    ensures Ordered(MasterApply(s, cap, vecFull))
  {
    hide Inv;
    MasterFacts(s);
  }

  lemma NextOrdered(s: State, a: Action)
    requires Inv(s) && Ordered(s) && Enabled(s, a) && Fresh(s, a)
    ensures Ordered(Apply(s, a)) && s.recovery <= Apply(s, a).recovery
  {
    hide Inv;
    match a
    case WriterStep(t) => WriterOrdered(s, t);
    case MasterStep(cap, vecFull) =>
      if Moves(s.master) { MoveOrdered(s, cap, vecFull); } else { ScanOrdered(s, cap, vecFull); }
    case _ =>
  }

  lemma {:induction false} ExecutionOrdered(states: seq<State>, actions: seq<Action>, i: nat)
    requires FreshExecution(states, actions) && i < |states|
    ensures Ordered(states[i])
  {
    if i > 0 {
      ExecutionOrdered(states, actions, i - 1);
      S.ExecutionInv(states, actions, i - 1);
      assert Enabled(states[i - 1], actions[i - 1]);
      NextOrdered(states[i - 1], actions[i - 1]);
    }
  }

  /** The recovery PLSN never goes back. */
  lemma {:induction false} RecoveryMonotone(states: seq<State>, actions: seq<Action>, i: nat, j: nat)
    requires FreshExecution(states, actions) && i <= j < |states|
    ensures states[i].recovery <= states[j].recovery
  {
    hide Enabled, Apply, Inv, Ordered, Fresh;
    if i < j {
      RecoveryMonotone(states, actions, i, j - 1);
      ExecutionOrdered(states, actions, j - 1);
      S.ExecutionInv(states, actions, j - 1);
      assert Enabled(states[j - 1], actions[j - 1]);
      NextOrdered(states[j - 1], actions[j - 1]);
    }
  }

  /** The queue is sorted by recovery PLSN, and the checks that compare PLSNs pass. */
  lemma NeverMisordered(states: seq<State>, actions: seq<Action>, i: nat, a: Action)
    requires FreshExecution(states, actions) && i < |states|
    ensures Sorted(states[i].q.h.pushed) && !Misordered(states[i], a)
  {
    ExecutionOrdered(states, actions, i);
    S.ExecutionInv(states, actions, i);
    if a.WriterStep? { PredecessorBelow(states[i], a.thread); }
    hide Inv;
  }

  lemma PredecessorBelow(s: State, t: int)
    requires Inv(s) && Ordered(s)
    ensures s.writers(t).Stored? && s.writers(t).pred.At? ==> s.rplsn(s.writers(t).pred.page) <= s.writers(t).plsn
  {
    W.WriterFacts(s, t);
    var w := s.writers(t);
    if w.Stored? && w.pred.At? { assert s.q.h.slot(s.q.h.pushed[w.at - 1].page) == w.at; }
  }
}
