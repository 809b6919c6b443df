/**
  The candidate array never overflows, in any run: the pages handed out in a round are distinct. A page
  taken from the parked ones may be pushed again in the same round, but only behind the entries the scan
  goes through.
*/
module FlushRoom {
  import opened Common
  import Q = DirtyPageQueue
  import I = DirtyPageInvariant
  import S = DirtyPageSafety
  import H = FlushHandshake
  import opened FlushRecovery

  predicate InPool(c: H.Config, p: int) { 0 <= p < c.capacity }

  /** Only buffers of the pool are written to, queued or parked. */
  ghost predicate PoolOk(c: H.Config, q: Q.State) {
    && (forall t | !q.writers(t).Idle? :: InPool(c, q.writers(t).page))
    && (forall k | 0 <= k < |q.q.h.pushed| :: InPool(c, q.q.h.pushed[k].page))
    && (forall p | p in q.vec :: InPool(c, p))
  }

  /** Page p is among the n entries from index `from` on. */
  predicate Upcoming(h: Q.History, from: int, n: int, p: int) {
    exists k :: 0 <= from <= k < from + n && k < |h.pushed| && h.pushed[k].page == p
  }

  /** The scan is still to look at page p. */
  predicate Still(q: Q.State, p: int) {
    match q.master
    case Began(_) => true
    case ScanVec(_, _, n) => p in q.vec || Upcoming(q.q.h, q.q.h.removed, n, p)
    case ScanPage(_, _, left, _, adv) => Upcoming(q.q.h, q.q.h.removed + adv, left, p)
    case ScanNext(_, _, left, _, adv) => Upcoming(q.q.h, q.q.h.removed + adv, left, p)
    case _ => false
  }

  predicate Distinct(slots: int -> int, size: nat) { forall j, k | 0 <= j < k < size :: slots(j) != slots(k) }

  ghost predicate RoomInv(c: H.Config, s: State) {
    && I.Inv(s.q) && PhaseOk(s.q.master, s.h.master) && PoolOk(c, s.q)
    && Distinct(s.slots, s.size) && (forall j | 0 <= j < s.size :: InPool(c, s.slots(j)))
    && (s.h.master.Scan? ==> forall j | 0 <= j < s.size :: !Still(s.q, s.slots(j)))
  }

  // ---- What the invariant of the queue says

  /** The entries to scan are in the queue, and each page has one entry. */
  lemma ScanFacts(q: Q.State)
    requires I.Inv(q)
    ensures I.SlotsOk(q.q.h)
    ensures q.master.ScanVec? ==> q.q.h.removed + q.master.n <= |q.q.h.pushed| && I.VecOk(q.q.h, q.vec, Q.Null)
    ensures q.master.ScanPage? || q.master.ScanNext? ==>
      0 <= q.master.adv && q.q.h.removed + q.master.adv + q.master.left <= |q.q.h.pushed|
    ensures q.master.ScanPage? && q.master.cur.At? ==>
      && q.q.h.removed + q.master.adv < |q.q.h.pushed|
      && q.master.cur.page == q.q.h.pushed[q.q.h.removed + q.master.adv].page
    ensures q.master.AdvLock? ==> q.q.h.removed < |q.q.h.pushed| && q.master.here == q.q.h.pushed[q.q.h.removed].page
  {
    hide I.AllAnswered, I.Owed, I.Scanned, I.Links, I.IoOk, I.PushersOk, I.MarkersOk;
  }

  lemma NextPool(c: H.Config, q: Q.State, a: Q.Action)
    requires I.Inv(q) && PoolOk(c, q) && Q.Enabled(q, a) && (a.Begin? ==> InPool(c, a.target))
    ensures PoolOk(c, Q.Apply(q, a))
  {
    hide I.Inv, PoolOk;
    if a.MasterStep? {
      ScanFacts(q);
      MasterPool(c, q, a);
    } else {
      WriterPool(c, q, a);
    }
  }

  lemma MasterPool(c: H.Config, q: Q.State, a: Q.Action)
    requires PoolOk(c, q) && Q.Enabled(q, a) && a.MasterStep?
    requires q.master.AdvLock? ==> q.q.h.removed < |q.q.h.pushed| && q.master.here == q.q.h.pushed[q.q.h.removed].page
    ensures PoolOk(c, Q.Apply(q, a))
  {
  }

  lemma WriterPool(c: H.Config, q: Q.State, a: Q.Action)
    requires PoolOk(c, q) && Q.Enabled(q, a) && !a.MasterStep? && (a.Begin? ==> InPool(c, a.target))
    ensures PoolOk(c, Q.Apply(q, a))
  {
  }

  // ---- The scan

  /** A page pushed during the scan comes behind the entries to scan. */
  lemma PushedBehind(h: Q.History, e: Q.Entry, slot: int -> int, from: int, n: int, p: int)
    requires from + n <= |h.pushed| && !Upcoming(h, from, n, p)
    ensures !Upcoming(h.(pushed := h.pushed + [e], slot := slot), from, n, p)
  {
    var z := h.(pushed := h.pushed + [e], slot := slot);
    assert forall k | 0 <= from <= k < from + n && k < |z.pushed| :: z.pushed[k] == h.pushed[k];
  }

  lemma ShorterAhead(h: Q.History, from: int, n: int, p: int)
    requires !Upcoming(h, from, n, p) && 0 <= from
    ensures !Upcoming(h, from + 1, n - 1, p)
  {
  }

  /** A step that does not hand out p does not bring it back into the scan. */
  lemma NextStill(q: Q.State, a: Q.Action, p: int)
    requires I.Inv(q) && Q.Enabled(q, a) && !Still(q, p) && I.ScanPhase(q.master)
    requires a.MasterStep? ==> !q.master.Flushing?
    ensures !Still(Q.Apply(q, a), p)
  {
    hide I.Inv, Upcoming;
    ScanFacts(q);
    var m, h := q.master, q.q.h;
    if a.WriterStep? && q.writers(a.thread).Stamped? {
      var w := q.writers(a.thread);
      var e, slot := Q.Entry(w.page, w.plsn, a.thread), Put(h.slot, w.page, |h.pushed| + 1);
      if m.ScanVec? { PushedBehind(h, e, slot, h.removed, m.n, p); }
      if m.ScanPage? || m.ScanNext? { PushedBehind(h, e, slot, h.removed + m.adv, m.left, p); }
    }
    if a.MasterStep? && m.ScanPage? && m.left > 0 { ShorterAhead(h, h.removed + m.adv, m.left, p); }
  }

  /** The page handed out was still to come, and is not any more. */
  lemma NewStill(q: Q.State, a: Q.Action)
    requires I.Inv(q) && Q.Enabled(q, a) && Offers(q, a).At?
    ensures Still(q, Offers(q, a).page) && !Still(Q.Apply(q, a), Offers(q, a).page)
  {
    hide I.Inv;
    ScanFacts(q);
    var m, h, p := q.master, q.q.h, Offers(q, a).page;
    if m.ScanVec? {
      assert p in q.vec;
      NotUpcoming(h, h.removed, m.n, p);
    } else {
      assert h.pushed[h.removed + m.adv].page == p;
      EntryPassed(h, h.removed + m.adv, m.left, p);
    }
  }

  lemma NotUpcoming(h: Q.History, from: int, n: int, p: int)
    requires I.SlotsOk(h) && h.removed <= from && !I.InQueue(h, p)
    ensures !Upcoming(h, from, n, p)
  {
    forall k | from <= k < from + n && k < |h.pushed| ensures h.pushed[k].page != p {
      assert h.slot(h.pushed[k].page) == k + 1;
    }
  }

  lemma EntryPassed(h: Q.History, j: int, n: int, p: int)
    requires I.SlotsOk(h) && h.removed <= j < |h.pushed| && h.pushed[j].page == p && 0 < n
    ensures Upcoming(h, j, n, p) && !Upcoming(h, j + 1, n - 1, p)
  {
    forall k | j + 1 <= k < j + n && k < |h.pushed| ensures h.pushed[k].page != p {
      assert h.slot(h.pushed[k].page) == k + 1 && h.slot(h.pushed[j].page) == j + 1;
    }
  }

  // ---- Every run

  lemma QueueRoom(c: H.Config, s: State, a: Q.Action)
    requires RoomInv(c, s) && QueueEnabled(c, s, a)
    ensures RoomInv(c, Apply(c, s, Queue(a)))
  {
    hide I.Inv, PoolOk, Still, Q.Apply, Q.Enabled, PhaseOk;
    S.NextInv(s.q, a);
    NextPool(c, s.q, a);
    QueuePhase(s.q, a, s.h.master);
    var z, o := Apply(c, s, Queue(a)), Offers(s.q, a);
    if s.h.master.Scan? {
      if o.At? { NewStill(s.q, a); }
      forall j | 0 <= j < s.size ensures !Still(z.q, s.slots(j)) {
        ScanStep(s.q, a, s.h.master, s.slots(j));
      }
    }
    if o.At? { OfferInPool(c, s.q, a); }
  }

  lemma ScanStep(q: Q.State, a: Q.Action, h: H.Master, p: int)
    requires I.Inv(q) && Q.Enabled(q, a) && !Still(q, p) && PhaseOk(q.master, h) && h.Scan?
    requires a.MasterStep? && q.master.Flushing? ==> h.Reset?
    ensures !Still(Q.Apply(q, a), p)
  {
    hide I.Inv;
    NextStill(q, a, p);
  }

  lemma OfferInPool(c: H.Config, q: Q.State, a: Q.Action)
    requires I.Inv(q) && PoolOk(c, q) && Offers(q, a).At?
    ensures InPool(c, Offers(q, a).page)
  {
    hide I.Inv;
    ScanFacts(q);
  }

  /** Steps of the handshake: Set(0) empties the array. */
  lemma HandshakeRoom(c: H.Config, s: State, a: H.Action)
    requires RoomInv(c, s) && HandshakeEnabled(c, s, a)
    ensures RoomInv(c, Apply(c, s, Handshake(a)))
  {
    hide I.Inv, PoolOk, Still;
  }

  /** Steps of a slave on its slot. */
  lemma SlotRoom(c: H.Config, s: State, a: Action, b: Q.Action)
    requires RoomInv(c, s) && Enabled(c, s, a) && (a.StartSlot? || a.FinishSlot? || a.SkipSlot?)
    requires b.FlushStart? || b.FlushEnd? || b.SkipClean?
    requires Q.Enabled(s.q, b) && Apply(c, s, a).q == Q.Apply(s.q, b)
    ensures RoomInv(c, Apply(c, s, a))
  {
    hide I.Inv, PoolOk, Upcoming;
    S.NextInv(s.q, b);
    NextPool(c, s.q, b);
    var z := Apply(c, s, a);
    assert z.h.master == s.h.master && z.q.master == s.q.master && z.q.vec == s.q.vec && z.q.q == s.q.q;
    forall j | 0 <= j < s.size && s.h.master.Scan? ensures !Still(z.q, z.slots(j)) {
      assert !Still(s.q, s.slots(j));
    }
  }

  lemma NextRoom(c: H.Config, s: State, a: Action)
    requires RoomInv(c, s) && Enabled(c, s, a)
    ensures RoomInv(c, Apply(c, s, a))
  {
    hide RoomInv;
    match a
    case Queue(a) => QueueRoom(c, s, a);
    case Handshake(a) => HandshakeRoom(c, s, a);
    case StartSlot(i) => SlotRoom(c, s, a, Q.FlushStart(Page(s, i), Page(s, i) in s.q.cand));
    case FinishSlot(i) => SlotRoom(c, s, a, Q.FlushEnd(s.writing(i).page));
    case SkipSlot(i) => SlotRoom(c, s, a, Q.SkipClean(Page(s, i)));
  }

  lemma InitRoom(c: H.Config)
    ensures RoomInv(c, Init)
  {
    hide I.Inv;
    S.InitInv();
  }

  lemma {:induction false} ExecutionRoom(c: H.Config, states: seq<State>, actions: seq<Action>, i: nat)
    requires Execution(c, states, actions) && i < |states|
    ensures RoomInv(c, states[i])
  {
    hide RoomInv, Enabled, Apply;
    if i == 0 {
      InitRoom(c);
    } else {
      ExecutionRoom(c, states, actions, i - 1);
      assert Enabled(c, states[i - 1], actions[i - 1]);
      NextRoom(c, states[i - 1], actions[i - 1]);
    }
  }

  // ---- As many distinct pages as buffers

  function Taken(slots: int -> int, size: nat): set<int> {
    if size == 0 then {} else Taken(slots, size - 1) + {slots(size - 1)}
  }

  function Pool(n: nat): (t: set<int>)
    ensures |t| == n && forall p :: p in t <==> 0 <= p < n
  {
    if n == 0 then {} else Pool(n - 1) + {n - 1}
  }

  lemma {:induction false} TakenAt(slots: int -> int, size: nat, p: int)
    ensures p in Taken(slots, size) ==> exists j :: 0 <= j < size && slots(j) == p
  {
    if size > 0 {
      TakenAt(slots, size - 1, p);
      assert slots(size - 1) == slots(size - 1);
    }
  }

  lemma {:induction false} TakenSize(slots: int -> int, size: nat)
    requires Distinct(slots, size)
    ensures |Taken(slots, size)| == size
  {
    if size > 0 {
      TakenSize(slots, size - 1);
      TakenAt(slots, size - 1, slots(size - 1));
    }
  }

  lemma SubsetSize(a: set<int>, b: set<int>)
    requires a <= b
    ensures |a| <= |b|
  {
    assert b * a == a;
    assert |b - a| == |b| - |b * a|;
  }

  /** In every run the array has room for what the master hands out. */
  lemma NoOverflow(c: H.Config, states: seq<State>, actions: seq<Action>, i: nat)
    requires Execution(c, states, actions) && i < |states|
    ensures states[i].size <= c.capacity
  {
    hide I.Inv, Enabled, Apply;
    ExecutionRoom(c, states, actions, i);
    var s := states[i];
    TakenSize(s.slots, s.size);
    forall p | p in Taken(s.slots, s.size) ensures p in Pool(c.capacity) {
      TakenAt(s.slots, s.size, p);
    }
    SubsetSize(Taken(s.slots, s.size), Pool(c.capacity));
  }
}
