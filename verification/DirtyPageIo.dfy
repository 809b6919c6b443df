/** Starting and ending a page write keep the invariant. */
module DirtyPageIo {
  import opened Common
  import opened DirtyPageQueue
  import opened DirtyPageInvariant

  // ---- A page write starts

  function Started(d: Store, p: int, slave: bool): Store { d.(io := Put(d.io, p, Writing(|d.wal|, slave))) }

  lemma StartedMarkers(writers: int -> Writer, h: History, d: Store, f: Flags, vec: seq<int>, cand: set<int>, p: int,
      slave: bool)
    requires MarkersOk(writers, h, d, f, vec, cand) && forall t :: !writers(t).Has(p)
    ensures MarkersOk(writers, h, Started(d, p, slave), f.(hint := Put(f.hint, p, false)), vec, cand)
  {
    forall t ensures MarkerOk(writers(t), h, Started(d, p, slave), f.(hint := Put(f.hint, p, false)), vec, cand) {
      assert MarkerOk(writers(t), h, d, f, vec, cand);
    }
  }

  lemma StartedIo(d: Store, f: Flags, cand: set<int>, p: int, slave: bool)
    requires IoOk(d, f, cand) && f.dirty(p) && (slave ==> p in cand)
    ensures IoOk(Started(d, p, slave), f.(hint := Put(f.hint, p, false)), cand)
  {
    forall x ensures !f.dirty(x) ==> OnDisk(Started(d, p, slave), x, |d.wal|) {
      assert !f.dirty(x) ==> OnDisk(d, x, |d.wal|);
    }
  }

  lemma StartedScanned(h: History, d: Store, cand: set<int>, mark: int, adv: int, p: int, slave: bool)
    requires Scanned(h, d, cand, mark, adv) && mark <= |d.wal|
    ensures Scanned(h, Started(d, p, slave), cand, mark, adv)
  {
    forall k | h.removed <= k < h.removed + adv ensures Seen(Started(d, p, slave), cand, mark, h.pushed[k].page) {
      assert Seen(d, cand, mark, h.pushed[k].page);
    }
  }

  lemma StartedOwed(d: Store, cand: set<int>, r: int, p: int, slave: bool)
    requires Owed(d, cand, r) && d.io(p).NoIo?
    ensures Owed(Started(d, p, slave), cand, r)
  {
    var z := Started(d, p, slave);
    forall i | 0 <= i < |z.wal| && Plsn(i) < r && z.disk(z.wal[i]) <= i ensures Due(z, cand, z.wal[i], i) {
      assert Due(d, cand, d.wal[i], i);
    }
  }

  lemma StartedMaster(m: Master, q: Queue, rplsn: int -> int, d: Store, f: Flags, vec: seq<int>, cand: set<int>,
      p: int, slave: bool)
    requires MasterOk(m, q, rplsn, d, f, vec, cand) && d.io(p).NoIo?
    ensures MasterOk(m, q, rplsn, Started(d, p, slave), f.(hint := Put(f.hint, p, false)), vec, cand)
  {
    hide Scanned, Links, Ahead, OnDisk, Owed;
    if ScanPhase(m) {
      StartedScanned(q.h, d, cand, m.mark, if m.ScanVec? then 0 else m.adv, p, slave);
    } else if m.Publish? || m.EmptyPublish? {
      StartedOwed(d, cand, if m.Publish? then m.plsn else m.max, p, slave);
    }
  }

  lemma StartedAnswered(h: History, d: Store, vec: seq<int>, cand: set<int>, goal: int, p: int, slave: bool)
    requires AllAnswered(h, d, vec, cand, goal) && d.io(p).NoIo?
    ensures AllAnswered(h, Started(d, p, slave), vec, cand, goal)
  {
    var z := Started(d, p, slave);
    forall i | 0 <= i < |z.wal| && z.disk(z.wal[i]) <= i ensures Answered(h, z, vec, cand, goal, z.wal[i], i) {
      assert Answered(h, d, vec, cand, goal, d.wal[i], i);
    }
  }

  lemma StartIoInv(s: State, p: int, slave: bool)
    requires Inv(s) && Enabled(s, FlushStart(p, slave))
    ensures Inv(StartIo(s, p, slave))
  {
    hide Owners, QueueOk, RplsnOk, PlsnsOk, UncountedOk, CountOk, PushersOk, MarkersOk, HeadersOk, VecOk, IoOk,
         MasterOk, AllAnswered, Owed;
    StartedMarkers(s.writers, s.q.h, s.d, s.f, s.vec, s.cand, p, slave);
    StartedIo(s.d, s.f, s.cand, p, slave);
    StartedMaster(s.master, s.q, s.rplsn, s.d, s.f, s.vec, s.cand, p, slave);
    StartedAnswered(s.q.h, s.d, s.vec, s.cand, Goal(s.master, s.q.h.removed), p, slave);
    StartedOwed(s.d, s.cand, s.recovery, p, slave);
  }

  // ---- A page write ends

  function Ended(d: Store, p: int): Store
    requires d.io(p).Writing?
  {
    d.(disk := Put(d.disk, p, d.io(p).upto), io := Put(d.io, p, NoIo))
  }

  function Done(d: Store, cand: set<int>, p: int): set<int> { if SlaveIo(d, p) then cand - {p} else cand }

  lemma EndedMarkers(writers: int -> Writer, h: History, d: Store, f: Flags, vec: seq<int>, cand: set<int>, p: int)
    requires MarkersOk(writers, h, d, f, vec, cand) && d.io(p).Writing?
    ensures MarkersOk(writers, h, Ended(d, p), f.(dirty := Put(f.dirty, p, f.hint(p))), vec, Done(d, cand, p))
  {
    forall t ensures MarkerOk(writers(t), h, Ended(d, p), f.(dirty := Put(f.dirty, p, f.hint(p))), vec,
        Done(d, cand, p)) {
      assert MarkerOk(writers(t), h, d, f, vec, cand);
    }
  }

  lemma EndedIo(d: Store, f: Flags, cand: set<int>, p: int)
    requires IoOk(d, f, cand) && d.io(p).Writing?
    ensures IoOk(Ended(d, p), f.(dirty := Put(f.dirty, p, f.hint(p))), Done(d, cand, p))
  {
    assert WriteOk(d, f, p, d.io(p).upto);
    var z := Ended(d, p);
    forall x ensures (if x == p then !f.hint(x) else !f.dirty(x)) ==> OnDisk(z, x, |d.wal|) {
      assert !f.dirty(x) ==> OnDisk(d, x, |d.wal|);
    }
  }

  lemma EndedScanned(h: History, d: Store, cand: set<int>, mark: int, adv: int, p: int)
    requires Scanned(h, d, cand, mark, adv) && d.io(p).Writing? && d.disk(p) <= d.io(p).upto
    ensures Scanned(h, Ended(d, p), Done(d, cand, p), mark, adv)
  {
    forall k | h.removed <= k < h.removed + adv ensures Seen(Ended(d, p), Done(d, cand, p), mark, h.pushed[k].page) {
      assert Seen(d, cand, mark, h.pushed[k].page);
    }
  }

  lemma EndedOwed(d: Store, cand: set<int>, r: int, p: int)
    requires Owed(d, cand, r) && d.io(p).Writing? && d.disk(p) <= d.io(p).upto
    ensures Owed(Ended(d, p), Done(d, cand, p), r)
  {
    var z := Ended(d, p);
    forall i | 0 <= i < |z.wal| && Plsn(i) < r && z.disk(z.wal[i]) <= i ensures Due(z, Done(d, cand, p), z.wal[i], i) {
      assert Due(d, cand, d.wal[i], i);
    }
  }

  lemma EndedMaster(m: Master, q: Queue, rplsn: int -> int, d: Store, f: Flags, vec: seq<int>, cand: set<int>, p: int)
    requires MasterOk(m, q, rplsn, d, f, vec, cand) && d.io(p).Writing? && d.disk(p) <= d.io(p).upto && Held(m) != At(p)
    ensures MasterOk(m, q, rplsn, Ended(d, p), f.(dirty := Put(f.dirty, p, f.hint(p))), vec, Done(d, cand, p))
  {
    hide Scanned, Links, Ahead, OnDisk, Owed;
    if ScanPhase(m) {
      EndedScanned(q.h, d, cand, m.mark, if m.ScanVec? then 0 else m.adv, p);
    } else if m.Publish? || m.EmptyPublish? {
      EndedOwed(d, cand, if m.Publish? then m.plsn else m.max, p);
    }
  }

  lemma EndedAnswered(h: History, d: Store, vec: seq<int>, cand: set<int>, goal: int, p: int)
    requires AllAnswered(h, d, vec, cand, goal) && d.io(p).Writing? && d.disk(p) <= d.io(p).upto
    ensures AllAnswered(h, Ended(d, p), vec, Done(d, cand, p), goal)
  {
    var z := Ended(d, p);
    forall i | 0 <= i < |z.wal| && z.disk(z.wal[i]) <= i
      ensures Answered(h, z, vec, Done(d, cand, p), goal, z.wal[i], i)
    {
      assert Answered(h, d, vec, cand, goal, d.wal[i], i);
    }
  }

  lemma TerminateIoInv(s: State, p: int)
    requires Inv(s) && Enabled(s, FlushEnd(p))
    ensures Inv(TerminateIo(s, p))
  {
    assert WriteOk(s.d, s.f, p, s.d.io(p).upto);
    hide Owners, QueueOk, RplsnOk, PlsnsOk, UncountedOk, CountOk, PushersOk, MarkersOk, HeadersOk, IoOk, MasterOk,
      AllAnswered, Owed;
    EndedMarkers(s.writers, s.q.h, s.d, s.f, s.vec, s.cand, p);
    EndedIo(s.d, s.f, s.cand, p);
    EndedMaster(s.master, s.q, s.rplsn, s.d, s.f, s.vec, s.cand, p);
    EndedAnswered(s.q.h, s.d, s.vec, s.cand, Goal(s.master, s.q.h.removed), p);
    EndedOwed(s.d, s.cand, s.recovery, p);
  }

  // ---- A candidate found clean

  lemma CleanMarkers(writers: int -> Writer, h: History, d: Store, f: Flags, vec: seq<int>, cand: set<int>, p: int)
    requires MarkersOk(writers, h, d, f, vec, cand) && forall t :: !writers(t).Has(p)
    ensures MarkersOk(writers, h, d, f, vec, cand - {p})
  {
    forall t ensures MarkerOk(writers(t), h, d, f, vec, cand - {p}) {
      assert MarkerOk(writers(t), h, d, f, vec, cand);
    }
  }

  lemma CleanOwed(d: Store, cand: set<int>, r: int, p: int)
    requires Owed(d, cand, r) && OnDisk(d, p, |d.wal|)
    ensures Owed(d, cand - {p}, r)
  {
    forall i | 0 <= i < |d.wal| && Plsn(i) < r && d.disk(d.wal[i]) <= i ensures Due(d, cand - {p}, d.wal[i], i) {
      assert Due(d, cand, d.wal[i], i);
    }
  }

  lemma CleanScanned(h: History, d: Store, cand: set<int>, mark: int, adv: int, p: int)
    requires Scanned(h, d, cand, mark, adv) && OnDisk(d, p, |d.wal|) && mark <= |d.wal|
    ensures Scanned(h, d, cand - {p}, mark, adv)
  {
    assert OnDisk(d, p, mark);
    forall k | h.removed <= k < h.removed + adv ensures Seen(d, cand - {p}, mark, h.pushed[k].page) {
      assert Seen(d, cand, mark, h.pushed[k].page);
    }
  }

  lemma CleanMaster(m: Master, q: Queue, rplsn: int -> int, d: Store, f: Flags, vec: seq<int>, cand: set<int>, p: int)
    requires MasterOk(m, q, rplsn, d, f, vec, cand) && OnDisk(d, p, |d.wal|)
    ensures MasterOk(m, q, rplsn, d, f, vec, cand - {p})
  {
    hide Scanned, Links, Ahead, OnDisk, Owed;
    if ScanPhase(m) {
      CleanScanned(q.h, d, cand, m.mark, if m.ScanVec? then 0 else m.adv, p);
    } else if m.Publish? || m.EmptyPublish? {
      CleanOwed(d, cand, if m.Publish? then m.plsn else m.max, p);
    }
  }

  lemma CleanAnswered(h: History, d: Store, vec: seq<int>, cand: set<int>, goal: int, p: int)
    requires AllAnswered(h, d, vec, cand, goal) && OnDisk(d, p, |d.wal|)
    ensures AllAnswered(h, d, vec, cand - {p}, goal)
  {
    forall i | 0 <= i < |d.wal| && d.disk(d.wal[i]) <= i ensures Answered(h, d, vec, cand - {p}, goal, d.wal[i], i) {
      assert Answered(h, d, vec, cand, goal, d.wal[i], i);
    }
  }

  lemma SkipCleanInv(s: State, p: int)
    requires Inv(s) && Enabled(s, SkipClean(p))
    ensures Inv(s.(cand := s.cand - {p}))
  {
    hide Owners, QueueOk, RplsnOk, PlsnsOk, UncountedOk, CountOk, PushersOk, MarkersOk, HeadersOk, MasterOk,
      AllAnswered, Owed;
    CleanMarkers(s.writers, s.q.h, s.d, s.f, s.vec, s.cand, p);
    CleanMaster(s.master, s.q, s.rplsn, s.d, s.f, s.vec, s.cand, p);
    CleanAnswered(s.q.h, s.d, s.vec, s.cand, Goal(s.master, s.q.h.removed), p);
    CleanOwed(s.d, s.cand, s.recovery, p);
  }
}
