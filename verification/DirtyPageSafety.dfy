/**
  What the dirty page queue guarantees. In every run the checks that would stop the process do not
  fail, and the published recovery PLSN is a safe redo point exactly when the pages handed to the
  slave writers owe nothing below it. In runs in which the master goes on only when every page it
  handed out was reported flushed, the published PLSN is always safe.
*/
module DirtyPageSafety {
  import opened DirtyPageQueue
  import opened DirtyPageInvariant
  import W = DirtyPageWriters
  import M = DirtyPageMaster
  import F = DirtyPageIo

  /** A run: any interleaving of writers, page writes and the master from the initial state. */
  ghost predicate Execution(states: seq<State>, actions: seq<Action>) {
    && |states| == |actions| + 1 && states[0] == Init
    && forall i | 0 <= i < |actions| :: Enabled(states[i], actions[i]) && states[i + 1] == Apply(states[i], actions[i])
  }

  ghost predicate Reachable(s: State) {
    exists states, actions :: Execution(states, actions) && states[|actions|] == s
  }

  lemma InitReachable()
    ensures Reachable(Init)
  {
    assert Execution([Init], []);
  }

  lemma NextReachable(s: State, a: Action)
    requires Reachable(s) && Enabled(s, a)
    ensures Reachable(Apply(s, a))
  {
    var states, actions :| Execution(states, actions) && states[|actions|] == s;
    hide Enabled, Apply;
    assert Execution(states + [Apply(s, a)], actions + [a]);
  }

  // ---- The invariant holds in every run

  lemma InitInv()
    ensures Inv(Init)
  {
    hide MarkersOk, PushersOk, QueueOk, RplsnOk, IoOk, VecOk;
    InitMarkers();
    InitPushers();
    InitQueue();
    InitPages();
  }

  lemma InitQueue()
    ensures QueueOk(Init.q, Limbo(Init.master))
    ensures RplsnOk(Init.q.h, Init.rplsn, Init.uncounted, Init.vec, Limbo(Init.master))
  {
  }

  lemma InitPages()
    ensures IoOk(Init.d, Init.f, Init.cand)
    ensures VecOk(Init.q.h, Init.vec, Held(Init.master))
  {
  }

  lemma InitMarkers()
    ensures MarkersOk(Init.writers, Init.q.h, Init.d, Init.f, Init.vec, Init.cand)
  {
  }

  lemma InitPushers()
    ensures PushersOk(Init.writers, Init.q, Init.rplsn, Init.uncounted, |Init.d.wal|)
  {
  }

  lemma NextInv(s: State, a: Action)
    requires Inv(s) && Enabled(s, a)
    ensures Inv(Apply(s, a))
  {
    hide Inv;
    match a
    case Begin(t, p) => W.BeginInv(s, t, p);
    case WriterStep(t) => W.WriterInv(s, t);
    case AppendMore(t) => W.LogInv(s, t);
    case FlushStart(p, slave) => F.StartIoInv(s, p, slave);
    case FlushEnd(p) => F.TerminateIoInv(s, p);
    case SkipClean(p) => F.SkipCleanInv(s, p);
    case MasterStep(cap, vecFull) => M.MasterInv(s, cap, vecFull);
  }

  lemma {:induction false} ExecutionInv(states: seq<State>, actions: seq<Action>, i: nat)
    requires Execution(states, actions) && i < |states|
    ensures Inv(states[i])
  {
    if i == 0 {
      InitInv();
    } else {
      ExecutionInv(states, actions, i - 1);
      assert Enabled(states[i - 1], actions[i - 1]);
      NextInv(states[i - 1], actions[i - 1]);
    }
  }

  lemma ReachableInv(s: State)
    requires Reachable(s)
    ensures Inv(s)
  {
    var states, actions :| Execution(states, actions) && states[|actions|] == s;
    ExecutionInv(states, actions, |actions|);
  }

  // ---- Safe redo points

  lemma WriteGrows(s: State, p: int)
    requires Inv(s) && s.d.io(p).Writing?
    ensures s.d.disk(p) <= s.d.io(p).upto
  {
  }

  /** The disk never loses a record, and a record yet to be written comes later. */
  lemma NextSafe(s: State, a: Action, r: int)
    requires Inv(s) && Enabled(s, a) && SafePoint(s.d, r) && r <= Plsn(|s.d.wal|)
    ensures SafePoint(Apply(s, a).d, r) && r <= Plsn(|Apply(s, a).d.wal|)
  {
    hide Inv;
    if a.FlushEnd? { WriteGrows(s, a.target); }
  }

  /** Once safe, always safe. */
  lemma {:induction false} SafePointsStay(states: seq<State>, actions: seq<Action>, i: nat, j: nat, r: int)
    requires Execution(states, actions) && i <= j < |states|
    requires SafePoint(states[i].d, r) && r <= Plsn(|states[i].d.wal|)
    ensures SafePoint(states[j].d, r) && r <= Plsn(|states[j].d.wal|)
  {
    hide Enabled, Apply, Inv, SafePoint;
    if i < j {
      SafePointsStay(states, actions, i, j - 1, r);
      ExecutionInv(states, actions, j - 1);
      assert Enabled(states[j - 1], actions[j - 1]);
      NextSafe(states[j - 1], actions[j - 1], r);
    }
  }

  // ---- When the published recovery PLSN is safe

  /** Every page handed to the slave writers and not yet reported flushed is on disk below PLSN r. */
  predicate Settled(d: Store, cand: set<int>, r: int) {
    forall p | p in cand :: OnDisk(d, p, r - 1)
  }

  lemma SafeIffSettled(d: Store, cand: set<int>, r: int)
    requires Owed(d, cand, r)
    ensures SafePoint(d, r) <==> Settled(d, cand, r)
  {
    if Settled(d, cand, r) {
      forall i | 0 <= i < |d.wal| && Plsn(i) < r ensures i < d.disk(d.wal[i]) {
        assert d.disk(d.wal[i]) <= i ==> Due(d, cand, d.wal[i], i);
      }
    }
  }

  lemma CleanOnDisk(s: State, p: int)
    requires Inv(s) && !s.f.dirty(p)
    ensures OnDisk(s.d, p, |s.d.wal|)
  {
  }

  /** What is owed below a PLSN stays owed until it is on disk. */
  lemma NextOwed(s: State, a: Action, r: int)
    requires Inv(s) && Enabled(s, a) && Owed(s.d, s.cand, r) && r <= Plsn(|s.d.wal|)
    ensures Owed(Apply(s, a).d, Apply(s, a).cand, r) && r <= Plsn(|Apply(s, a).d.wal|)
  {
    hide Inv, Owed;
    match a
    case Begin(_, _) =>
    case WriterStep(t) => if s.writers(t).Marked? { W.LoggedOwed(s.d, s.cand, r, s.writers(t).page); }
    case AppendMore(t) => W.LoggedOwed(s.d, s.cand, r, s.writers(t).page);
    case FlushStart(p, slave) => F.StartedOwed(s.d, s.cand, r, p, slave);
    case FlushEnd(p) =>
      WriteGrows(s, p);
      F.EndedOwed(s.d, s.cand, r, p);
    case SkipClean(p) =>
      CleanOnDisk(s, p);
      F.CleanOwed(s.d, s.cand, r, p);
    case MasterStep(_, _) =>
      var m := s.master;
      if m.ScanVec? && s.vec != [] { M.HandedOwed(s.d, s.f, s.cand, r, s.vec[0]); }
      if m.ScanPage? && m.cur.At? { M.HandedOwed(s.d, s.f, s.cand, r, m.cur.page); }
  }

  lemma {:induction false} OwedStays(states: seq<State>, actions: seq<Action>, i: nat, j: nat, r: int)
    requires Execution(states, actions) && i <= j < |states|
    requires Owed(states[i].d, states[i].cand, r) && r <= Plsn(|states[i].d.wal|)
    ensures Owed(states[j].d, states[j].cand, r) && r <= Plsn(|states[j].d.wal|)
  {
    hide Enabled, Apply, Inv, Owed;
    if i < j {
      OwedStays(states, actions, i, j - 1, r);
      ExecutionInv(states, actions, j - 1);
      assert Enabled(states[j - 1], actions[j - 1]);
      NextOwed(states[j - 1], actions[j - 1], r);
    }
  }

  lemma RecoveryOwed(s: State)
    requires Inv(s)
    ensures Owed(s.d, s.cand, s.recovery) && s.recovery <= Plsn(|s.d.wal|)
  {
  }

  /**
    In every run, at any time, a recovery PLSN published now or earlier is a safe redo point exactly
    when the pages handed to the slave writers and not yet reported flushed are on disk below it.
  */
  lemma PublishedSafeIff(states: seq<State>, actions: seq<Action>, i: nat, j: nat)
    requires Execution(states, actions) && i <= j < |states|
    ensures SafePoint(states[j].d, states[i].recovery) <==> Settled(states[j].d, states[j].cand, states[i].recovery)
  {
    hide Execution, Inv, SafePoint, Settled, Owed;
    ExecutionInv(states, actions, i);
    RecoveryOwed(states[i]);
    OwedStays(states, actions, i, j, states[i].recovery);
    SafeIffSettled(states[j].d, states[j].cand, states[i].recovery);
  }

  // ---- Runs in which the master waits for every page it handed out

  /** The master goes on only when every page it handed out was reported flushed. */
  predicate Waits(s: State, a: Action) { a.MasterStep? && s.master.Flushing? ==> s.cand == {} }

  ghost predicate FlushedExecution(states: seq<State>, actions: seq<Action>) {
    Execution(states, actions) && forall i | 0 <= i < |actions| :: Waits(states[i], actions[i])
  }

  /** Outside the scan nothing is handed out, and what is published or about to be is safe. */
  predicate Safe(s: State) {
    && (s.cand != {} ==> ScanPhase(s.master))
    && SafePoint(s.d, s.recovery)
    && (s.master.Publish? ==> SafePoint(s.d, s.master.plsn))
    && (s.master.EmptyPublish? ==> SafePoint(s.d, s.master.max))
  }

  /** What the invariant says about the PLSN about to be published. */
  lemma PublishOwed(s: State)
    requires Inv(s)
    ensures s.recovery <= Plsn(|s.d.wal|)
    ensures s.master.Publish? ==> Owed(s.d, s.cand, s.master.plsn) && s.master.plsn <= Plsn(|s.d.wal|)
    ensures s.master.EmptyPublish? ==> Owed(s.d, s.cand, s.master.max) && s.master.max <= Plsn(|s.d.wal|)
  {
  }

  lemma NextCand(s: State, a: Action)
    requires Enabled(s, a) && Waits(s, a) && (s.cand != {} ==> ScanPhase(s.master))
    ensures Apply(s, a).cand != {} ==> ScanPhase(Apply(s, a).master)
  {
  }

  lemma NothingOwed(d: Store, cand: set<int>, r: int)
    requires Owed(d, cand, r) && cand == {}
    ensures SafePoint(d, r)
  {
    SafeIffSettled(d, cand, r);
  }

  lemma NextRecovery(s: State, a: Action)
    requires Enabled(s, a)
    ensures var r := Apply(s, a).recovery;
      || r == s.recovery || (s.master.Publish? && r == s.master.plsn) || (s.master.EmptyPublish? && r == s.master.max)
  {
  }

  lemma NextIsSafe(s: State, a: Action)
    requires Inv(s) && Safe(s) && Enabled(s, a) && Waits(s, a)
    ensures Safe(Apply(s, a))
  {
    hide Inv, SafePoint, Owed, Apply, Enabled;
    NextInv(s, a);
    NextCand(s, a);
    NextRecovery(s, a);
    PublishOwed(s);
    NextSafe(s, a, s.recovery);
    if s.master.Publish? { NextSafe(s, a, s.master.plsn); }
    if s.master.EmptyPublish? { NextSafe(s, a, s.master.max); }
    var z := Apply(s, a);
    PublishOwed(z);
    if z.master.Publish? { NothingOwed(z.d, z.cand, z.master.plsn); }
    if z.master.EmptyPublish? { NothingOwed(z.d, z.cand, z.master.max); }
  }

  lemma {:induction false} FlushedSafe(states: seq<State>, actions: seq<Action>, i: nat)
    requires FlushedExecution(states, actions) && i < |states|
    ensures Safe(states[i])
  {
    hide Enabled, Apply, Inv, Waits;
    if i > 0 {
      FlushedSafe(states, actions, i - 1);
      ExecutionInv(states, actions, i - 1);
      assert Enabled(states[i - 1], actions[i - 1]) && Waits(states[i - 1], actions[i - 1]);
      NextIsSafe(states[i - 1], actions[i - 1]);
    }
  }

  /** In every state of such a run, all records below the recovery PLSN are on disk. */
  lemma RecoveryIsSafe(states: seq<State>, actions: seq<Action>, i: nat)
    requires FlushedExecution(states, actions) && i < |states|
    ensures SafePoint(states[i].d, states[i].recovery)
  {
    FlushedSafe(states, actions, i);
  }

  /** Every recovery PLSN ever published in such a run is safe in every later state. */
  lemma PublishedStaysSafe(states: seq<State>, actions: seq<Action>, i: nat, j: nat)
    requires FlushedExecution(states, actions) && i <= j < |states|
    ensures SafePoint(states[j].d, states[i].recovery)
  {
    FlushedSafe(states, actions, i);
    ExecutionInv(states, actions, i);
    RecoveryOwed(states[i]);
    SafePointsStay(states, actions, i, j, states[i].recovery);
  }

  // ---- The process does not stop itself

  /** The release panics met at a step, other than the two that compare recovery PLSNs. */
  ghost predicate Stops(s: State, a: Action) {
    match a
    case WriterStep(t) =>
      var w := s.writers(t);
      // Push: the new recovery PLSN is below the published one, or the page has a successor already
      || (w.Swapped? && w.plsn < w.floor)
      || (w.Loaded? && s.q.next(w.page).At?)
      // SetPageEndWriteWal: the page is not dirty
      || (w.Marked? && !s.f.dirty(w.page))
    case AppendMore(t) => s.writers(t).Marked? && !s.f.dirty(s.writers(t).page)
    case FlushEnd(p) =>
      // TerminateIo: the dirty flag is cleared under a record being written
      !s.f.hint(p) && exists t :: s.writers(t) == Marked(p)
    case MasterStep(_, _) =>
      var m := s.master;
      // ScanDirtyListForFlush: a parked page has a successor
      || (m.ScanVec? && s.vec != [] && s.q.next(s.vec[0]).At?)
      // AdvanceHeadAfterFlush: entries are left and the list has ended
      || (m.AdvNext? && (m.cur.Null? || m.left == 0 || (m.left > 1 && s.q.next(m.cur.page).Null?)))
      // Remove: the page is not in the queue
      || (m.AdvRem? && s.rplsn(m.here) == INVALID_PLSN)
    case _ => false
  }

  lemma NeverStops(s: State, a: Action)
    requires Reachable(s)
    ensures !Stops(s, a)
  {
    hide Inv, Reachable;
    ReachableInv(s);
    if a.WriterStep? {
      W.WriterFacts(s, a.thread);
      Unlinked(s, a.thread);
    } else if a.AppendMore? {
      W.WriterFacts(s, a.thread);
    } else if a.FlushEnd? {
      forall t | s.writers(t) == Marked(a.target) ensures s.f.hint(a.target) {
        W.WriterFacts(s, t);
      }
    } else if a.MasterStep? && s.master.AdvNext? {
      LinkAhead(s);
    } else if a.MasterStep? {
      PushedPlsns(s);
      ParkedUnlinked(s);
    }
  }

  lemma Unlinked(s: State, t: int)
    requires Inv(s)
    ensures s.writers(t).Loaded? ==> s.q.next(s.writers(t).page).Null?
  {
    W.WriterFacts(s, t);
  }

  lemma ParkedUnlinked(s: State)
    requires Inv(s)
    ensures s.master.ScanVec? && s.vec != [] ==> s.q.next(s.vec[0]).Null?
  {
    if s.master.ScanVec? && s.vec != [] {
      var p := s.vec[0];
      assert p in s.vec;
      assert !InQueue(s.q.h, p);
      assert s.q.next(p).At? ==> Follows(s.q.h, s.q.h.slot(p), s.q.next(p).page);
    }
  }

  lemma LinkAhead(s: State)
    requires Inv(s) && s.master.AdvNext?
    ensures s.master.cur.At? && s.master.left > 0 && (s.master.left > 1 ==> s.q.next(s.master.cur.page).At?)
  {
  }

  lemma PushedPlsns(s: State)
    requires Inv(s)
    ensures s.master.AdvRem? ==> s.rplsn(s.master.here) != INVALID_PLSN
  {
  }

  // ---- The recovery PLSN of the queue head

  /** GetMinRecoveryPlsn of the queue: the recovery PLSN of the page at its head. */
  function HeadPlsn(s: State): int { if s.q.word.head.At? then s.rplsn(s.q.word.head.page) else INVALID_PLSN }

  /**
    The head's recovery PLSN is a safe redo point exactly when the pages that left the queue dirty
    (parked, or handed to the slave writers) have no older record to write.
  */
  lemma HeadSafeIff(s: State)
    requires Reachable(s)
    ensures SafePoint(s.d, HeadPlsn(s)) <==> forall p | p in s.vec || p in s.cand :: OnDisk(s.d, p, HeadPlsn(s) - 1)
  {
    hide Inv, SafePoint, OnDisk, AllAnswered;
    ReachableInv(s);
    HeadEntry(s);
    if HeadPlsn(s) == 0 {
      BeforeFirst(s.d);
    } else {
      FirstEntrySafe(s.q.h, s.d, s.vec, s.cand, Goal(s.master, s.q.h.removed));
    }
  }

  lemma BeforeFirst(d: Store)
    ensures SafePoint(d, 0) && forall p :: OnDisk(d, p, -1)
  {
  }

  lemma FirstEntrySafe(h: History, d: Store, vec: seq<int>, cand: set<int>, goal: int)
    requires AllAnswered(h, d, vec, cand, goal) && h.removed < |h.pushed|
    ensures SafePoint(d, h.pushed[h.removed].plsn)
       <==> forall p | p in vec || p in cand :: OnDisk(d, p, h.pushed[h.removed].plsn - 1)
  {
    var r := h.pushed[h.removed].plsn;
    if forall p | p in vec || p in cand :: OnDisk(d, p, r - 1) {
      forall i | 0 <= i < |d.wal| && Plsn(i) < r ensures i < d.disk(d.wal[i]) {
        assert d.disk(d.wal[i]) <= i ==> Answered(h, d, vec, cand, goal, d.wal[i], i);
      }
    }
  }

  lemma HeadEntry(s: State)
    requires Inv(s)
    ensures AllAnswered(s.q.h, s.d, s.vec, s.cand, Goal(s.master, s.q.h.removed))
    ensures HeadPlsn(s) != 0 ==> s.q.h.removed < |s.q.h.pushed| && HeadPlsn(s) == s.q.h.pushed[s.q.h.removed].plsn
  {
    if s.q.word.head.At? {
      assert s.q.h.slot(s.q.h.pushed[s.q.h.removed].page) == s.q.h.removed + 1;
    }
  }
}
