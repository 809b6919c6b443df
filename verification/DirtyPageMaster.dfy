/** Every step of the master keeps the invariant. */
module DirtyPageMaster {
  import opened Common
  import opened DirtyPageQueue
  import opened DirtyPageInvariant

  /** A step that changes nothing but where the master stands. */
  lemma MasterLocal(s: State, m: Master)
    requires Inv(s) && Limbo(m) == Limbo(s.master) && Held(m) == Held(s.master)
    requires Goal(m, s.q.h.removed) == Goal(s.master, s.q.h.removed)
    requires MasterOk(m, s.q, s.rplsn, s.d, s.f, s.vec, s.cand)
    ensures Inv(s.(master := m))
  {
    hide Owners, QueueOk, RplsnOk, PlsnsOk, UncountedOk, CountOk, PushersOk, MarkersOk, HeadersOk, IoOk, MasterOk,
      AllAnswered, Owed;
  }

  // ---- Scanning

  lemma BeganInv(s: State, cap: nat, vecFull: bool)
    requires Inv(s) && s.master.Began?
    ensures Inv(MasterApply(s, cap, vecFull))
  {
    MasterLocal(s, MasterApply(s, cap, vecFull).master);
  }

  lemma TakenRplsn(h: History, rplsn: int -> int, uncounted: set<int>, vec: seq<int>)
    requires RplsnOk(h, rplsn, uncounted, vec, Null) && VecOk(h, vec, Null) && vec != []
    ensures RplsnOk(h, Put(rplsn, vec[0], 0), uncounted, vec[1..], Null)
  {
  }

  lemma TakenPushers(writers: int -> Writer, q: Queue, rplsn: int -> int, uncounted: set<int>, n: int, p: int)
    requires PushersOk(writers, q, rplsn, uncounted, n) && forall t :: !writers(t).Holds(p)
    ensures PushersOk(writers, q, Put(rplsn, p, 0), uncounted, n)
  {
    forall t ensures PusherOk(writers(t), t, q, Put(rplsn, p, 0), uncounted, n) {
      assert PusherOk(writers(t), t, q, rplsn, uncounted, n);
    }
  }

  /** The candidates after p was looked at. */
  function Offered(f: Flags, cand: set<int>, p: int): set<int> { if f.dirty(p) then cand + {p} else cand }

  /** The store after p was looked at: a write in progress does not count for the new slot. */
  function Handed(d: Store, f: Flags, p: int): Store { if f.dirty(p) then Reissued(d, p) else d }

  lemma HandedMarkers(writers: int -> Writer, h: History, d: Store, f: Flags, vec: seq<int>, cand: set<int>, p: int)
    requires MarkersOk(writers, h, d, f, vec, cand)
    ensures MarkersOk(writers, h, Handed(d, f, p), f, vec, Offered(f, cand, p))
  {
    forall t ensures MarkerOk(writers(t), h, Handed(d, f, p), f, vec, Offered(f, cand, p)) {
      assert MarkerOk(writers(t), h, d, f, vec, cand);
    }
  }

  lemma HandedIo(d: Store, f: Flags, cand: set<int>, p: int)
    requires IoOk(d, f, cand)
    ensures IoOk(Handed(d, f, p), f, Offered(f, cand, p))
  {
    var z := Handed(d, f, p);
    forall x ensures !f.dirty(x) ==> OnDisk(z, x, |z.wal|) {
      assert !f.dirty(x) ==> OnDisk(d, x, |d.wal|);
    }
    forall x ensures z.io(x).Writing? ==> WriteOk(z, f, x, z.io(x).upto) {
      assert d.io(x).Writing? ==> WriteOk(d, f, x, d.io(x).upto);
    }
    hide OnDisk, WriteOk;
  }

  lemma HandedAnswered(h: History, d: Store, f: Flags, vec: seq<int>, cand: set<int>, goal: int, p: int)
    requires AllAnswered(h, d, vec, cand, goal)
    ensures AllAnswered(h, Handed(d, f, p), vec, Offered(f, cand, p), goal)
  {
    var z := Handed(d, f, p);
    forall i | 0 <= i < |z.wal| && z.disk(z.wal[i]) <= i
      ensures Answered(h, z, vec, Offered(f, cand, p), goal, z.wal[i], i)
    {
      assert Answered(h, d, vec, cand, goal, d.wal[i], i);
    }
  }

  lemma HandedOwed(d: Store, f: Flags, cand: set<int>, r: int, p: int)
    requires Owed(d, cand, r)
    ensures Owed(Handed(d, f, p), Offered(f, cand, p), r)
  {
    var z := Handed(d, f, p);
    forall i | 0 <= i < |z.wal| && Plsn(i) < r && z.disk(z.wal[i]) <= i
      ensures Due(z, Offered(f, cand, p), z.wal[i], i)
    {
      assert Due(d, cand, d.wal[i], i);
    }
  }

  lemma HandedScanned(h: History, d: Store, f: Flags, cand: set<int>, mark: int, adv: int, p: int)
    requires Scanned(h, d, cand, mark, adv)
    ensures Scanned(h, Handed(d, f, p), Offered(f, cand, p), mark, adv)
  {
    forall k | h.removed <= k < h.removed + adv
      ensures Seen(Handed(d, f, p), Offered(f, cand, p), mark, h.pushed[k].page)
    {
      HandedSeen(d, f, cand, mark, p, h.pushed[k].page);
    }
  }

  lemma HandedSeen(d: Store, f: Flags, cand: set<int>, mark: int, p: int, x: int)
    requires Seen(d, cand, mark, x)
    ensures Seen(Handed(d, f, p), Offered(f, cand, p), mark, x)
  {
    assert OnDisk(d, x, mark) ==> OnDisk(Handed(d, f, p), x, mark);
  }

  // ---- Taking a parked page

  lemma TakenMarkers(writers: int -> Writer, h: History, d: Store, f: Flags, vec: seq<int>, cand: set<int>)
    requires vec != [] && MarkersOk(writers, h, Handed(d, f, vec[0]), f, vec, Offered(f, cand, vec[0]))
    requires forall t :: !writers(t).Holds(vec[0])
    ensures MarkersOk(writers, h, Handed(d, f, vec[0]), f, vec[1..], Offered(f, cand, vec[0]))
  {
    forall t ensures MarkerOk(writers(t), h, Handed(d, f, vec[0]), f, vec[1..], Offered(f, cand, vec[0])) {
      assert MarkerOk(writers(t), h, Handed(d, f, vec[0]), f, vec, Offered(f, cand, vec[0]));
    }
  }

  lemma TakenAnswered(h: History, d: Store, f: Flags, vec: seq<int>, cand: set<int>, goal: int)
    requires AllAnswered(h, d, vec, cand, goal) && IoOk(d, f, cand) && vec != []
    ensures AllAnswered(h, Handed(d, f, vec[0]), vec[1..], Offered(f, cand, vec[0]), goal)
  {
    var z := Handed(d, f, vec[0]);
    forall i | 0 <= i < |z.wal| && z.disk(z.wal[i]) <= i
      ensures Answered(h, z, vec[1..], Offered(f, cand, vec[0]), goal, z.wal[i], i)
    {
      assert Answered(h, d, vec, cand, goal, d.wal[i], i);
      assert f.dirty(d.wal[i]);
    }
  }

  lemma TakenVec(h: History, vec: seq<int>)
    requires VecOk(h, vec, Null) && vec != []
    ensures VecOk(h, vec[1..], Null)
  {
  }

  lemma TakenMaster(m: Master, q: Queue, rplsn: int -> int, d: Store, f: Flags, vec: seq<int>, cand: set<int>)
    requires MasterOk(m, q, rplsn, d, f, vec, cand) && m.ScanVec? && vec != []
    ensures MasterOk(m, q, Put(rplsn, vec[0], 0), Handed(d, f, vec[0]), f, vec[1..], Offered(f, cand, vec[0]))
  {
  }

  lemma TakeParkedInv(s: State)
    requires Inv(s) && s.master.ScanVec? && s.vec != [] && HeaderFree(s, s.vec[0])
    ensures Inv(TakeParked(s, s.vec[0]))
  {
    hide Owners, QueueOk, RplsnOk, PlsnsOk, UncountedOk, CountOk, PushersOk, MarkersOk, HeadersOk, VecOk, IoOk,
         MasterOk, AllAnswered, Owed;
    var p := s.vec[0];
    TakenRplsn(s.q.h, s.rplsn, s.uncounted, s.vec);
    TakenPushers(s.writers, s.q, s.rplsn, s.uncounted, |s.d.wal|, p);
    HandedMarkers(s.writers, s.q.h, s.d, s.f, s.vec, s.cand, p);
    TakenMarkers(s.writers, s.q.h, s.d, s.f, s.vec, s.cand);
    TakenVec(s.q.h, s.vec);
    HandedIo(s.d, s.f, s.cand, p);
    TakenMaster(s.master, s.q, s.rplsn, s.d, s.f, s.vec, s.cand);
    TakenAnswered(s.q.h, s.d, s.f, s.vec, s.cand, s.q.h.removed);
    HandedOwed(s.d, s.f, s.cand, s.recovery, p);
  }

  lemma ScanVecInv(s: State, cap: nat, vecFull: bool)
    requires Inv(s) && MasterEnabled(s) && s.master.ScanVec?
    ensures Inv(MasterApply(s, cap, vecFull))
  {
    if s.vec == [] {
      MasterLocal(s, MasterApply(s, cap, vecFull).master);
    } else {
      TakeParkedInv(s);
    }
  }

  lemma OfferedScanned(h: History, d: Store, f: Flags, cand: set<int>, mark: int, adv: int)
    requires Scanned(h, d, cand, mark, adv) && IoOk(d, f, cand) && mark <= |d.wal| && h.removed + adv < |h.pushed|
    ensures var p := h.pushed[h.removed + adv].page;
      Scanned(h, Handed(d, f, p), Offered(f, cand, p), mark, adv + 1)
  {
    hide Seen, OnDisk;
    var p := h.pushed[h.removed + adv].page;
    HandedScanned(h, d, f, cand, mark, adv, p);
    LookedAt(d, f, cand, mark, p);
  }

  lemma LookedAt(d: Store, f: Flags, cand: set<int>, mark: int, p: int)
    requires IoOk(d, f, cand) && mark <= |d.wal|
    ensures Seen(Handed(d, f, p), Offered(f, cand, p), mark, p)
  {
    assert !f.dirty(p) ==> OnDisk(d, p, |d.wal|);
    assert !f.dirty(p) ==> OnDisk(d, p, mark);
  }

  lemma OfferedMaster(m: Master, q: Queue, rplsn: int -> int, d: Store, f: Flags, vec: seq<int>, cand: set<int>)
    requires MasterOk(m, q, rplsn, d, f, vec, cand) && m.ScanPage? && m.cur.At? && 0 < m.left && IoOk(d, f, cand)
    ensures MasterOk(ScanNext(m.max, m.mark, m.left - 1, m.cur.page, m.adv + 1), q, rplsn, Handed(d, f, m.cur.page), f,
                     vec, Offered(f, cand, m.cur.page))
  {
    hide Scanned, IoOk, Links, Ahead;
    OfferedScanned(q.h, d, f, cand, m.mark, m.adv);
  }

  lemma ScanPageInv(s: State, cap: nat, vecFull: bool)
    requires Inv(s) && s.master.ScanPage?
    ensures Inv(MasterApply(s, cap, vecFull))
  {
    hide Owners, QueueOk, RplsnOk, PlsnsOk, UncountedOk, CountOk, PushersOk, MarkersOk, HeadersOk, IoOk, AllAnswered,
      Owed, Scanned;
    var m := s.master;
    if m.left == 0 || m.cur.Null? {
      MasterLocal(s, MasterApply(s, cap, vecFull).master);
    } else {
      ScannedPageInv(s, cap, vecFull);
    }
  }

  lemma ScannedPageInv(s: State, cap: nat, vecFull: bool)
    requires Inv(s) && s.master.ScanPage? && s.master.left > 0 && s.master.cur.At?
    ensures Inv(MasterApply(s, cap, vecFull))
  {
    var m := s.master;
    hide Owners, QueueOk, RplsnOk, PlsnsOk, UncountedOk, CountOk, PushersOk, MarkersOk, HeadersOk, VecOk, IoOk,
      AllAnswered, Owed, Scannable, Scanned, Links;
    HandedMarkers(s.writers, s.q.h, s.d, s.f, s.vec, s.cand, m.cur.page);
    HandedIo(s.d, s.f, s.cand, m.cur.page);
    OfferedMaster(m, s.q, s.rplsn, s.d, s.f, s.vec, s.cand);
    HandedAnswered(s.q.h, s.d, s.f, s.vec, s.cand, s.q.h.removed, m.cur.page);
    HandedOwed(s.d, s.f, s.cand, s.recovery, m.cur.page);
  }

  lemma ScanNextInv(s: State, cap: nat, vecFull: bool)
    requires Inv(s) && s.master.ScanNext?
    ensures Inv(MasterApply(s, cap, vecFull))
  {
    NextScanned(s.master, s.q, s.rplsn, s.d, s.f, s.vec, s.cand);
    MasterLocal(s, MasterApply(s, cap, vecFull).master);
  }

  /** What follows an entry in the list is the next entry. */
  lemma NextEntry(q: Queue, k: int)
    requires QueueOk(q, Null) && q.h.removed <= k < |q.h.pushed| && q.next(q.h.pushed[k].page).At?
    ensures k + 1 < |q.h.pushed| && q.next(q.h.pushed[k].page) == At(q.h.pushed[k + 1].page)
  {
    var p := q.h.pushed[k].page;
    assert q.h.slot(p) == k + 1;
    assert Follows(q.h, q.h.slot(p), q.next(p).page);
  }

  lemma MoreLinks(q: Queue, n: int)
    requires Links(q, n) && 0 < n < |q.h.pushed| && q.h.removed <= n - 1
    requires q.next(q.h.pushed[n - 1].page) == At(q.h.pushed[n].page)
    ensures Links(q, n + 1)
  {
  }

  lemma NextScanned(m: Master, q: Queue, rplsn: int -> int, d: Store, f: Flags, vec: seq<int>, cand: set<int>)
    requires QueueOk(q, Null) && MasterOk(m, q, rplsn, d, f, vec, cand) && m.ScanNext?
    ensures MasterOk(ScanPage(m.max, m.mark, m.left, q.next(m.here), m.adv), q, rplsn, d, f, vec, cand)
  {
    hide QueueOk, Scanned, Ahead, Links;
    var k := q.h.removed + m.adv;
    if q.next(m.here).At? {
      NextEntry(q, k - 1);
      MoreLinks(q, k);
    }
  }

  /**
    When the wait is over the scanned entries can be removed: a record missing on disk is above their
    PLSNs, or its page is a candidate still to be flushed.
  */
  lemma ScanAnswered(h: History, d: Store, cand: set<int>, mark: int, adv: int)
    requires SlotsOk(h) && AllAnswered(h, d, [], cand, h.removed) && Scanned(h, d, cand, mark, adv)
    requires Ahead(h.pushed, h.removed + adv, mark)
    ensures AllAnswered(h, d, [], cand, h.removed + adv)
  {
    forall i | 0 <= i < |d.wal| && d.disk(d.wal[i]) <= i
      ensures Answered(h, d, [], cand, h.removed + adv, d.wal[i], i)
    {
      var p := d.wal[i];
      assert Answered(h, d, [], cand, h.removed, p, i);
      if InQueue(h, p) {
        assert EntryAt(h, p);
        if h.slot(p) <= h.removed + adv { assert Seen(d, cand, mark, h.pushed[h.slot(p) - 1].page); }
      }
      if i < mark { assert !OnDisk(d, p, mark); }
    }
  }

  lemma FlushingInv(s: State, cap: nat, vecFull: bool)
    requires Inv(s) && s.master.Flushing?
    ensures Inv(MasterApply(s, cap, vecFull))
  {
    hide Owners, SlotsOk, NextOk, RplsnOk, PlsnsOk, UncountedOk, CountOk, PushersOk, MarkersOk, HeadersOk, VecOk, IoOk,
      AllAnswered, Owed, Scanned, Links, Ahead;
    var m := s.master;
    if m.adv == 0 {
      MasterLocal(s, EmptyLoad(m.max));
    } else {
      ScanAnswered(s.q.h, s.d, s.cand, m.mark, m.adv);
    }
  }

  // ---- Advancing the head

  lemma AdvNextInv(s: State, cap: nat, vecFull: bool)
    requires Inv(s) && MasterEnabled(s) && s.master.AdvNext?
    ensures Inv(MasterApply(s, cap, vecFull))
  {
    MasterLocal(s, MasterApply(s, cap, vecFull).master);
  }

  /** The first entry's page carries the recovery PLSN it was pushed with, once its header is free. */
  lemma FirstRplsn(h: History, rplsn: int -> int, uncounted: set<int>, writers: int -> Writer, vec: seq<int>)
    requires SlotsOk(h) && RplsnOk(h, rplsn, uncounted, vec, Null) && UncountedOk(h.pushed, uncounted, writers)
    requires h.removed < |h.pushed| && forall t :: !writers(t).Holds(h.pushed[h.removed].page)
    ensures rplsn(h.pushed[h.removed].page) == h.pushed[h.removed].plsn
  {
    assert h.slot(h.pushed[h.removed].page) == h.removed + 1;
    assert h.removed in uncounted ==> Counting(writers(h.pushed[h.removed].thread), h.removed,
        h.pushed[h.removed].page);
  }

  /** Below the recovery PLSNs of the entries to remove, only candidates have records to write. */
  lemma GoalOwed(h: History, d: Store, vec: seq<int>, cand: set<int>, goal: int, k: int)
    requires AllAnswered(h, d, vec, cand, goal) && 0 <= k < |h.pushed| && k < goal
    ensures Owed(d, cand, h.pushed[k].plsn)
  {
    forall i | 0 <= i < |d.wal| && Plsn(i) < h.pushed[k].plsn && d.disk(d.wal[i]) <= i
      ensures Due(d, cand, d.wal[i], i)
    {
      assert Answered(h, d, vec, cand, goal, d.wal[i], i);
    }
  }

  lemma ParkedRplsn(h: History, rplsn: int -> int, uncounted: set<int>, vec: seq<int>, p: int)
    requires RplsnOk(h, rplsn, uncounted, vec, Null) && rplsn(p) != 0
    ensures RplsnOk(h, rplsn, uncounted, vec + [p], Null)
  {
  }

  lemma ParkedMarkers(writers: int -> Writer, h: History, d: Store, f: Flags, vec: seq<int>, cand: set<int>, p: int)
    requires MarkersOk(writers, h, d, f, vec, cand)
    ensures MarkersOk(writers, h, d, f, vec + [p], cand)
  {
    forall t ensures MarkerOk(writers(t), h, d, f, vec + [p], cand) {
      assert MarkerOk(writers(t), h, d, f, vec, cand);
    }
  }

  lemma ParkedAnswered(h: History, d: Store, vec: seq<int>, cand: set<int>, goal: int, p: int)
    requires AllAnswered(h, d, vec, cand, goal)
    ensures AllAnswered(h, d, vec + [p], cand, goal)
  {
    forall i | 0 <= i < |d.wal| && d.disk(d.wal[i]) <= i ensures Answered(h, d, vec + [p], cand, goal, d.wal[i], i) {
      assert Answered(h, d, vec, cand, goal, d.wal[i], i);
    }
  }

  lemma ParkedVec(h: History, vec: seq<int>, p: int)
    requires VecOk(h, vec, Null) && InQueue(h, p)
    ensures VecOk(h, vec, At(p)) && VecOk(h, vec + [p], At(p)) && p !in vec
  {
  }

  lemma LessAnswered(h: History, d: Store, vec: seq<int>, cand: set<int>, goal: int, less: int)
    requires AllAnswered(h, d, vec, cand, goal) && less <= goal
    ensures AllAnswered(h, d, vec, cand, less)
  {
    forall i | 0 <= i < |d.wal| && d.disk(d.wal[i]) <= i ensures Answered(h, d, vec, cand, less, d.wal[i], i) {
      assert Answered(h, d, vec, cand, goal, d.wal[i], i);
    }
  }

  lemma LockFacts(s: State, here: int)
    requires Inv(s) && s.master.AdvLock? && s.master.here == here && HeaderFree(s, here)
    ensures InQueue(s.q.h, here) && 0 < s.rplsn(here) <= Plsn(|s.d.wal|) && Owed(s.d, s.cand, s.rplsn(here))
    ensures s.q.h.removed < |s.q.h.pushed| && s.rplsn(here) == s.q.h.pushed[s.q.h.removed].plsn
  {
    var h := s.q.h;
    assert h.slot(h.pushed[h.removed].page) == h.removed + 1;
    FirstRplsn(h, s.rplsn, s.uncounted, s.writers, s.vec);
    GoalOwed(h, s.d, s.vec, s.cand, Goal(s.master, h.removed), h.removed);
  }

  lemma ParkedMaster(m: Master, q: Queue, rplsn: int -> int, d: Store, f: Flags, vec: seq<int>, cand: set<int>)
    requires MasterOk(m, q, rplsn, d, f, vec, cand) && m.AdvLock? && m.here !in vec
    requires q.h.removed < |q.h.pushed| && rplsn(m.here) == q.h.pushed[q.h.removed].plsn
    ensures MasterOk(AdvHead(m.left, m.here, m.nxt, rplsn(m.here), q.word), q, rplsn, d, f,
                     if f.dirty(m.here) then vec + [m.here] else vec, cand)
  {
    hide Links;
  }

  lemma AdvLockInv(s: State, m: Master, vecFull: bool)
    requires Inv(s) && s.master == m && m.AdvLock? && HeaderFree(s, m.here)
    ensures Inv(Park(s, m.left, m.here, m.nxt, vecFull))
  {
    hide Owners, QueueOk, RplsnOk, PlsnsOk, UncountedOk, CountOk, PushersOk, MarkersOk, IoOk, VecOk,
      AllAnswered, Owed, Advancing, Locked;
    var h := s.q.h;
    LockFacts(s, m.here);
    LessAnswered(h, s.d, s.vec, s.cand, Goal(m, h.removed), h.removed);
    ParkedRplsn(h, s.rplsn, s.uncounted, s.vec, m.here);
    ParkedMarkers(s.writers, h, s.d, s.f, s.vec, s.cand, m.here);
    ParkedAnswered(h, s.d, s.vec, s.cand, Goal(m, h.removed), m.here);
    ParkedVec(h, s.vec, m.here);
    ParkedMaster(m, s.q, s.rplsn, s.d, s.f, s.vec, s.cand);
  }

  lemma AdvHeadInv(s: State, cap: nat, vecFull: bool)
    requires Inv(s) && s.master.AdvHead?
    ensures Inv(MasterApply(s, cap, vecFull))
  {
    MasterLocal(s, MasterApply(s, cap, vecFull).master);
  }

  // ---- The head moves past the first entry

  lemma PoppedSlots(h: History)
    requires SlotsOk(h) && h.removed < |h.pushed|
    ensures SlotsOk(Passed(h))
  {
    forall x | h.slot(x) > h.removed + 1 ensures EntryAt(Passed(h), x) {
      assert EntryAt(h, x);
    }
  }

  lemma PoppedNext(next: int -> Ptr, h: History)
    requires SlotsOk(h) && NextOk(next, h, Null) && h.removed < |h.pushed|
    ensures NextOk(next, Passed(h), At(h.pushed[h.removed].page))
  {
    var here := h.pushed[h.removed].page;
    assert h.slot(here) == h.removed + 1;
    forall x | next(x).At? && x != here ensures Follows(Passed(h), h.slot(x), next(x).page) {
      assert Follows(h, h.slot(x), next(x).page);
      assert EntryAt(h, x);
    }
  }

  lemma PoppedQueue(q: Queue, succ: Ptr, tag: int)
    requires QueueOk(q, Null) && q.h.removed < |q.h.pushed|
    requires if succ.At? then q.next(q.h.pushed[q.h.removed].page) == succ else q.h.removed + 1 == |q.h.pushed|
    ensures QueueOk(Popped(q, succ, tag), At(q.h.pushed[q.h.removed].page))
  {
    hide SlotsOk, NextOk;
    if succ.At? { NextEntry(q, q.h.removed); }
    PoppedSlots(q.h);
    PoppedNext(q.next, q.h);
  }

  /** The tail was seen at the first entry, so it is the only one. */
  lemma OnlyEntry(q: Queue)
    requires QueueOk(q, Null) && q.h.removed < |q.h.pushed| && q.word.tail == Last(q.h.pushed[q.h.removed].page)
    ensures q.h.removed + 1 == |q.h.pushed|
  {
    assert q.h.slot(q.h.pushed[q.h.removed].page) == q.h.removed + 1;
    assert q.h.slot(q.h.pushed[|q.h.pushed| - 1].page) == |q.h.pushed|;
  }

  function Passed(h: History): History { h.(removed := h.removed + 1) }

  lemma PoppedRplsn(h: History, rplsn: int -> int, uncounted: set<int>, vec: seq<int>)
    requires SlotsOk(h) && RplsnOk(h, rplsn, uncounted, vec, Null) && h.removed < |h.pushed|
    ensures RplsnOk(Passed(h), rplsn, uncounted, vec, At(h.pushed[h.removed].page))
  {
    forall x | InQueue(h, x) && !InQueue(Passed(h), x) ensures x == h.pushed[h.removed].page {
      assert EntryAt(h, x);
    }
  }

  lemma PoppedPushers(q: Queue, rplsn: int -> int, uncounted: set<int>, writers: int -> Writer, n: int, succ: Ptr,
      tag: int)
    requires QueueOk(q, Null) && q.h.removed < |q.h.pushed|
    requires if succ.At? then q.next(q.h.pushed[q.h.removed].page) == succ else q.h.removed + 1 == |q.h.pushed|
    requires PushersOk(writers, q, rplsn, uncounted, n)
    requires HeadersOk(writers, At(q.h.pushed[q.h.removed].page))
    ensures PushersOk(writers, Popped(q, succ, tag), rplsn, uncounted, n)
  {
    var z := Popped(q, succ, tag);
    forall u ensures PusherOk(writers(u), u, z, rplsn, uncounted, n) {
      assert PusherOk(writers(u), u, q, rplsn, uncounted, n);
    }
  }

  lemma PoppedMarkers(writers: int -> Writer, h: History, d: Store, f: Flags, vec: seq<int>, cand: set<int>)
    requires SlotsOk(h) && MarkersOk(writers, h, d, f, vec, cand) && h.removed < |h.pushed|
    requires HeadersOk(writers, At(h.pushed[h.removed].page))
    requires f.dirty(h.pushed[h.removed].page) ==> h.pushed[h.removed].page in vec
    ensures MarkersOk(writers, Passed(h), d, f, vec, cand)
  {
    forall t ensures MarkerOk(writers(t), Passed(h), d, f, vec, cand) {
      assert MarkerOk(writers(t), h, d, f, vec, cand);
      if writers(t).Marked? && InQueue(h, writers(t).page) { assert EntryAt(h, writers(t).page); }
      if writers(t).Counted? && InQueue(h, writers(t).page) { assert EntryAt(h, writers(t).page); }
    }
  }

  lemma PoppedVec(h: History, vec: seq<int>, held: Ptr)
    requires VecOk(h, vec, held)
    ensures VecOk(Passed(h), vec, held)
  {
  }

  lemma PoppedMaster(m: Master, q: Queue, rplsn: int -> int, d: Store, f: Flags, vec: seq<int>, cand: set<int>,
      tag: int)
    requires MasterOk(m, q, rplsn, d, f, vec, cand) && m.AdvCas?
    ensures MasterOk(AdvRem(m.left, m.here, m.nxt, m.plsn), Popped(q, m.succ, tag), rplsn, d, f, vec, cand)
  {
  }

  lemma PoppedAnswered(h: History, d: Store, f: Flags, vec: seq<int>, cand: set<int>, goal: int)
    requires SlotsOk(h) && AllAnswered(h, d, vec, cand, goal) && IoOk(d, f, cand) && h.removed < |h.pushed|
    requires f.dirty(h.pushed[h.removed].page) ==> h.pushed[h.removed].page in vec
    ensures AllAnswered(Passed(h), d, vec, cand, goal)
  {
    forall i | 0 <= i < |d.wal| && d.disk(d.wal[i]) <= i ensures Answered(Passed(h), d, vec, cand, goal, d.wal[i], i) {
      var p := d.wal[i];
      assert Answered(h, d, vec, cand, goal, p, i);
      assert f.dirty(p);
      if InQueue(h, p) { assert EntryAt(h, p); }
    }
  }

  lemma AdvCasInv(s: State, cap: nat, vecFull: bool)
    requires Inv(s) && s.master.AdvCas?
    ensures Inv(MasterApply(s, cap, vecFull))
  {
    hide Owners, QueueOk, RplsnOk, PlsnsOk, UncountedOk, CountOk, PushersOk, MarkersOk, HeadersOk, IoOk, AllAnswered,
      Owed;
    if s.q.word == s.master.seen {
      PoppedInv(s, s.master);
    } else {
      MasterLocal(s, MasterApply(s, cap, vecFull).master);
    }
  }

  lemma CasFacts(q: Queue, rplsn: int -> int, d: Store, f: Flags, vec: seq<int>, cand: set<int>, m: Master)
    requires QueueOk(q, Null) && MasterOk(m, q, rplsn, d, f, vec, cand) && m.AdvCas? && q.word == m.seen
    ensures q.h.removed < |q.h.pushed| && m.here == q.h.pushed[q.h.removed].page
    ensures if m.succ.At? then q.next(m.here) == m.succ else q.h.removed + 1 == |q.h.pushed|
    ensures f.dirty(m.here) ==> m.here in vec
  {
    if m.succ.Null? { OnlyEntry(q); }
    hide QueueOk, Links;
  }

  lemma PoppedInv(s: State, m: Master)
    requires Inv(s) && s.master == m && m.AdvCas? && s.q.word == m.seen
    ensures Inv(s.(q := Popped(s.q, m.succ, s.rplsn(m.here)), ver := s.ver + 1,
                   master := AdvRem(m.left, m.here, m.nxt, m.plsn)))
  {
    hide Owners, SlotsOk, EndsOk, NextOk, RplsnOk, PlsnsOk, UncountedOk, PushersOk, MarkersOk, HeadersOk, VecOk, IoOk,
      MasterOk, AllAnswered, Owed;
    CasFacts(s.q, s.rplsn, s.d, s.f, s.vec, s.cand, m);
    PoppedQueue(s.q, m.succ, s.rplsn(m.here));
    PoppedRplsn(s.q.h, s.rplsn, s.uncounted, s.vec);
    PoppedPushers(s.q, s.rplsn, s.uncounted, s.writers, |s.d.wal|, m.succ, s.rplsn(m.here));
    PoppedMarkers(s.writers, s.q.h, s.d, s.f, s.vec, s.cand);
    PoppedVec(s.q.h, s.vec, Held(m));
    PoppedMaster(m, s.q, s.rplsn, s.d, s.f, s.vec, s.cand, s.rplsn(m.here));
    PoppedAnswered(s.q.h, s.d, s.f, s.vec, s.cand, Goal(m, s.q.h.removed));
  }

  // ---- The removed entry is cleared

  lemma ClearedQueue(q: Queue, here: int)
    requires QueueOk(q, At(here))
    ensures QueueOk(q.(next := Put(q.next, here, Null)), Null)
  {
  }

  lemma ClearedRplsn(h: History, rplsn: int -> int, uncounted: set<int>, vec: seq<int>, here: int, dirty: bool)
    requires RplsnOk(h, rplsn, uncounted, vec, At(here)) && !InQueue(h, here) && (dirty <==> here in vec)
    ensures RplsnOk(h, if dirty then rplsn else Put(rplsn, here, 0), uncounted, vec, Null)
  {
  }

  lemma ClearedPushers(writers: int -> Writer, q: Queue, rplsn: int -> int, uncounted: set<int>, n: int, here: int,
      dirty: bool)
    requires PushersOk(writers, q, rplsn, uncounted, n) && HeadersOk(writers, At(here))
    ensures PushersOk(writers, q.(next := Put(q.next, here, Null)), if dirty then rplsn else Put(rplsn, here, 0),
        uncounted, n)
  {
    var z := q.(next := Put(q.next, here, Null));
    var r := if dirty then rplsn else Put(rplsn, here, 0);
    forall u ensures PusherOk(writers(u), u, z, r, uncounted, n) {
      assert PusherOk(writers(u), u, q, rplsn, uncounted, n);
    }
  }

  lemma ClearedVec(h: History, vec: seq<int>, here: int)
    requires VecOk(h, vec, At(here)) && !InQueue(h, here)
    ensures VecOk(h, vec, Null)
  {
  }

  lemma ClearedLinks(q: Queue, here: int, n: int)
    requires SlotsOk(q.h) && Links(q, n) && !InQueue(q.h, here)
    ensures Links(q.(next := Put(q.next, here, Null)), n)
  {
    var z := q.(next := Put(q.next, here, Null));
    forall k | q.h.removed <= k && k + 1 < n && k + 1 < |q.h.pushed|
      ensures z.next(q.h.pushed[k].page) == At(q.h.pushed[k + 1].page)
    {
      assert q.h.slot(q.h.pushed[k].page) == k + 1;
      assert q.next(q.h.pushed[k].page) == At(q.h.pushed[k + 1].page);
    }
  }

  lemma AdvRemInv(s: State, m: Master)
    requires Inv(s) && s.master == m && m.AdvRem?
    ensures Inv(RemoveEntry(s, m.left, m.here, m.nxt, m.plsn))
  {
    hide Owners, SlotsOk, EndsOk, NextOk, RplsnOk, PlsnsOk, UncountedOk, PushersOk, MarkersOk, HeadersOk, VecOk, IoOk,
      MasterOk, AllAnswered, Owed;
    var h, dirty := s.q.h, s.f.dirty(m.here);
    RemFacts(s);
    ClearedQueue(s.q, m.here);
    ClearedRplsn(h, s.rplsn, s.uncounted, s.vec, m.here, dirty);
    ClearedPushers(s.writers, s.q, s.rplsn, s.uncounted, |s.d.wal|, m.here, dirty);
    ClearedVec(h, s.vec, m.here);
    ClearedMaster(m, s.q, s.rplsn, if dirty then s.rplsn else Put(s.rplsn, m.here, 0), s.d, s.f, s.vec, s.cand);
    FreedHeaders(s.writers, m.here);
  }

  lemma RemFacts(s: State)
    requires Inv(s) && s.master.AdvRem?
    ensures !InQueue(s.q.h, s.master.here) && (s.f.dirty(s.master.here) <==> s.master.here in s.vec)
    ensures Owed(s.d, s.cand, s.master.plsn) && s.master.plsn <= Plsn(|s.d.wal|)
  {
    GoalOwed(s.q.h, s.d, s.vec, s.cand, Goal(s.master, s.q.h.removed), s.q.h.removed - 1);
    hide AllAnswered, Owed, IoOk, RplsnOk, PushersOk, MarkersOk, Links;
  }

  lemma ClearedMaster(m: Master, q: Queue, rplsn: int -> int, r: int -> int, d: Store, f: Flags, vec: seq<int>,
      cand: set<int>)
    requires MasterOk(m, q, rplsn, d, f, vec, cand) && m.AdvRem? && SlotsOk(q.h) && !InQueue(q.h, m.here)
    requires Owed(d, cand, m.plsn) && m.plsn <= Plsn(|d.wal|)
    ensures MasterOk(if m.left == 0 then Publish(m.plsn) else AdvNext(m.left, m.nxt),
                     q.(next := Put(q.next, m.here, Null)), r, d, f, vec, cand)
  {
    ClearedLinks(q, m.here, q.h.removed + m.left);
    hide Links, SlotsOk, Owed;
  }

  lemma FreedHeaders(writers: int -> Writer, here: int)
    requires HeadersOk(writers, At(here))
    ensures HeadersOk(writers, Null)
  {
  }

  // ---- Publishing the recovery PLSN

  lemma PublishInv(s: State, cap: nat, vecFull: bool)
    requires Inv(s) && (s.master.Publish? || s.master.EmptyPublish?)
    ensures Inv(MasterApply(s, cap, vecFull))
  {
    hide Owners, QueueOk, RplsnOk, PlsnsOk, UncountedOk, CountOk, PushersOk, MarkersOk, HeadersOk, VecOk, IoOk,
      AllAnswered, Owed;
  }

  lemma LocalInv(s: State, cap: nat, vecFull: bool)
    requires Inv(s) && (s.master.Start? || s.master.EmptyLoad?)
    ensures Inv(MasterApply(s, cap, vecFull))
  {
    MasterLocal(s, MasterApply(s, cap, vecFull).master);
  }

  lemma TaggedQueue(q: Queue, max: int)
    requires QueueOk(q, Null) && q.word.head.Null?
    ensures QueueOk(q.(word := Word(Null, Tag(max))), Null)
  {
  }

  /** With an empty queue and no parked page, only candidates have records to write. */
  lemma EmptyOwed(q: Queue, d: Store, cand: set<int>, goal: int, r: int)
    requires QueueOk(q, Null) && q.word.head.Null? && AllAnswered(q.h, d, [], cand, goal)
    ensures Owed(d, cand, r)
  {
    forall i | 0 <= i < |d.wal| && d.disk(d.wal[i]) <= i ensures Due(d, cand, d.wal[i], i) {
      assert Answered(q.h, d, [], cand, goal, d.wal[i], i);
    }
  }

  lemma TaggedPushers(writers: int -> Writer, q: Queue, rplsn: int -> int, uncounted: set<int>, n: int, max: int)
    requires PushersOk(writers, q, rplsn, uncounted, n)
    ensures PushersOk(writers, q.(word := Word(Null, Tag(max))), rplsn, uncounted, n)
  {
    forall t ensures PusherOk(writers(t), t, q.(word := Word(Null, Tag(max))), rplsn, uncounted, n) {
      assert PusherOk(writers(t), t, q, rplsn, uncounted, n);
    }
  }

  lemma EmptyCasInv(s: State, cap: nat, vecFull: bool)
    requires Inv(s) && s.master.EmptyCas?
    ensures Inv(MasterApply(s, cap, vecFull))
  {
    hide Owners, QueueOk, RplsnOk, PlsnsOk, UncountedOk, CountOk, PushersOk, MarkersOk, HeadersOk, IoOk,
      AllAnswered, Owed;
    var m := s.master;
    if s.q.word == m.seen {
      TaggedQueue(s.q, m.max);
      EmptyOwed(s.q, s.d, s.cand, s.q.h.removed, m.max);
      TaggedPushers(s.writers, s.q, s.rplsn, s.uncounted, |s.d.wal|, m.max);
    } else {
      MasterLocal(s, Start);
    }
  }

  lemma MasterInv(s: State, cap: nat, vecFull: bool)
    requires Inv(s) && MasterEnabled(s)
    ensures Inv(MasterApply(s, cap, vecFull))
  {
    hide Inv;
    match s.master
    case Start => LocalInv(s, cap, vecFull);
    case Began(_) => BeganInv(s, cap, vecFull);
    case ScanVec(_, _, _) => ScanVecInv(s, cap, vecFull);
    case ScanPage(_, _, _, _, _) => ScanPageInv(s, cap, vecFull);
    case ScanNext(_, _, _, _, _) => ScanNextInv(s, cap, vecFull);
    case Flushing(_, _, _) => FlushingInv(s, cap, vecFull);
    case AdvNext(_, _) => AdvNextInv(s, cap, vecFull);
    case AdvLock(_, _, _) => AdvLockInv(s, s.master, vecFull);
    case AdvHead(_, _, _, _, _) => AdvHeadInv(s, cap, vecFull);
    case AdvCas(_, _, _, _, _, _) => AdvCasInv(s, cap, vecFull);
    case AdvRem(_, _, _, _) => AdvRemInv(s, s.master);
    case Publish(_) => PublishInv(s, cap, vecFull);
    case EmptyLoad(_) => LocalInv(s, cap, vecFull);
    case EmptyCas(_, _) => EmptyCasInv(s, cap, vecFull);
    case EmptyPublish(_) => PublishInv(s, cap, vecFull);
  }
}
