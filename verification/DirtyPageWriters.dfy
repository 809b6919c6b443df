/**
  Every step of a writer keeps the invariant. Each lemma about a part of the state asks only for the
  conjuncts it depends on; the step lemmas put the parts together.
*/
module DirtyPageWriters {
  import opened Common
  import opened DirtyPageQueue
  import opened DirtyPageInvariant

  // ---- A writer moves on

  lemma MovedOwners(writers: int -> Writer, held: Ptr, t: int, w: Writer)
    requires Owners(writers) && HeadersOk(writers, held)
    requires w.Idle? || writers(t).Has(w.page) || forall u :: !writers(u).Has(w.page)
    requires w.HoldsHeader() ==> held != At(w.page)
    ensures Owners(Put(writers, t, w)) && HeadersOk(Put(writers, t, w), held)
  {
  }

  lemma MovedUncounted(pushed: seq<Entry>, uncounted: set<int>, writers: int -> Writer, t: int, w: Writer)
    requires UncountedOk(pushed, uncounted, writers)
    requires forall k, p | k in uncounted && Counting(writers(t), k, p) :: Counting(w, k, p)
    ensures UncountedOk(pushed, uncounted, Put(writers, t, w))
  {
  }

  lemma MovedPushers(writers: int -> Writer, q: Queue, rplsn: int -> int, uncounted: set<int>, n: int, t: int,
      w: Writer)
    requires PushersOk(writers, q, rplsn, uncounted, n) && PusherOk(w, t, q, rplsn, uncounted, n)
    ensures PushersOk(Put(writers, t, w), q, rplsn, uncounted, n)
  {
  }

  lemma MovedMarkers(writers: int -> Writer, h: History, d: Store, f: Flags, vec: seq<int>, cand: set<int>, t: int,
      w: Writer)
    requires MarkersOk(writers, h, d, f, vec, cand) && MarkerOk(w, h, d, f, vec, cand)
    ensures MarkersOk(Put(writers, t, w), h, d, f, vec, cand)
  {
  }

  /** A step of thread t that changes nothing shared. */
  lemma LocalStep(s: State, t: int, w: Writer)
    requires Inv(s)
    requires w.Idle? || s.writers(t).Has(w.page) || Unowned(s, w.page)
    requires w.HoldsHeader() ==> Held(s.master) != At(w.page)
    requires forall k, p | k in s.uncounted && Counting(s.writers(t), k, p) :: Counting(w, k, p)
    requires PusherOk(w, t, s.q, s.rplsn, s.uncounted, |s.d.wal|)
    requires MarkerOk(w, s.q.h, s.d, s.f, s.vec, s.cand)
    ensures Inv(Goes(s, t, w))
  {
    hide Owners, QueueOk, RplsnOk, PlsnsOk, UncountedOk, CountOk, PushersOk, MarkersOk, HeadersOk, VecOk, IoOk,
         MasterOk, AllAnswered, Owed;
    MovedOwners(s.writers, Held(s.master), t, w);
    MovedUncounted(s.q.h.pushed, s.uncounted, s.writers, t, w);
    MovedPushers(s.writers, s.q, s.rplsn, s.uncounted, |s.d.wal|, t, w);
    MovedMarkers(s.writers, s.q.h, s.d, s.f, s.vec, s.cand, t, w);
  }

  /** The facts about writer t alone. */
  lemma WriterFacts(s: State, t: int)
    requires Inv(s)
    ensures PusherOk(s.writers(t), t, s.q, s.rplsn, s.uncounted, |s.d.wal|)
    ensures MarkerOk(s.writers(t), s.q.h, s.d, s.f, s.vec, s.cand)
    ensures s.writers(t).HoldsHeader() ==> Held(s.master) != At(s.writers(t).page)
  {
  }

  lemma BeginInv(s: State, t: int, p: int)
    requires Inv(s) && s.writers(t).Idle? && Unowned(s, p)
    ensures Inv(Goes(s, t, Owns(p)))
  {
    LocalStep(s, t, Owns(p));
  }

  lemma CheckInv(s: State, t: int)
    requires Inv(s) && s.writers(t).Owns? && !s.master.Holds(s.writers(t).page)
    ensures Inv(WriterApply(s, t))
  {
    var p := s.writers(t).page;
    CheckFacts(s, p);
    LocalStep(s, t, if s.rplsn(p) != INVALID_PLSN then Counted(p) else Entered(p, s.recovery));
  }

  lemma CheckFacts(s: State, p: int)
    requires Inv(s) && !s.master.Holds(p)
    ensures s.rplsn(p) != 0 ==> InQueue(s.q.h, p) || p in s.vec
    ensures s.rplsn(p) == 0 ==> forall t | s.writers(t).Has(p) && s.writers(t).Owns? :: !InQueue(s.q.h, p)
  {
    hide PlsnsOk, CountOk, PushersOk, MarkersOk, HeadersOk, VecOk, IoOk, MasterOk, AllAnswered, Owed;
    forall t | s.rplsn(p) == 0 && s.writers(t) == Owns(p) ensures !InQueue(s.q.h, p) {
      NotQueued(s.q.h, s.rplsn, s.uncounted, s.vec, Limbo(s.master), s.writers, |s.d.wal|, t, p);
    }
  }

  /** A page without a recovery PLSN is in the queue only while its pusher holds it. */
  lemma NotQueued(h: History, rplsn: int -> int, uncounted: set<int>, vec: seq<int>, limbo: Ptr,
      writers: int -> Writer, n: int, t: int, p: int)
    requires SlotsOk(h) && RplsnOk(h, rplsn, uncounted, vec, limbo) && UncountedOk(h.pushed, uncounted, writers)
    requires Owners(writers) && PlsnsOk(h.pushed, n) && rplsn(p) == 0 && writers(t) == Owns(p)
    ensures !InQueue(h, p)
  {
    var k := h.slot(p) - 1;
    assert InQueue(h, p) ==> EntryAt(h, p);
    assert k in uncounted ==> 0 <= k < |h.pushed| && Counting(writers(h.pushed[k].thread), k, h.pushed[k].page);
  }

  lemma LoadInv(s: State, t: int)
    requires Inv(s) && s.writers(t).Entered?
    ensures Inv(WriterApply(s, t))
  {
    WriterFacts(s, t);
    var w := s.writers(t);
    LocalStep(s, t, Loaded(w.page, w.floor, s.q.word, s.ver));
  }

  lemma StampInv(s: State, t: int)
    requires Inv(s) && s.writers(t).Loaded?
    ensures Inv(WriterApply(s, t))
  {
    WriterFacts(s, t);
    var w := s.writers(t);
    LocalStep(s, t, Stamped(w.page, w.floor, w.seen, w.ver, Plsn(|s.d.wal|)));
  }

  // ---- Taking the tail

  lemma PushedSlots(h: History, t: int, p: int, plsn: int)
    requires SlotsOk(h) && !InQueue(h, p)
    ensures SlotsOk(Append(h, t, p, plsn))
  {
    var z := Append(h, t, p, plsn);
    forall k | z.removed <= k < |z.pushed| ensures z.slot(z.pushed[k].page) == k + 1 {
      if k < |h.pushed| { assert h.slot(h.pushed[k].page) == k + 1; }
    }
    forall x | z.slot(x) > z.removed ensures EntryAt(z, x) {
      if x != p { assert EntryAt(h, x); }
    }
  }

  lemma PushedNext(next: int -> Ptr, h: History, limbo: Ptr, t: int, p: int, plsn: int)
    requires NextOk(next, h, limbo) && !InQueue(h, p) && limbo != At(p)
    ensures NextOk(next, Append(h, t, p, plsn), limbo)
  {
    var z := Append(h, t, p, plsn);
    assert next(p).At? ==> Follows(h, h.slot(p), next(p).page);
    forall x | next(x).At? && limbo != At(x) ensures Follows(z, z.slot(x), next(x).page) {
      assert Follows(h, h.slot(x), next(x).page);
    }
  }

  lemma PushedQueue(q: Queue, limbo: Ptr, t: int, p: int, plsn: int)
    requires QueueOk(q, limbo) && !InQueue(q.h, p) && limbo != At(p)
    ensures QueueOk(Pushed(q, t, p, plsn), limbo)
  {
    hide SlotsOk, NextOk;
    PushedSlots(q.h, t, p, plsn);
    PushedNext(q.next, q.h, limbo, t, p, plsn);
  }

  lemma PushedRplsn(h: History, rplsn: int -> int, uncounted: set<int>, vec: seq<int>, limbo: Ptr, t: int, p: int,
      plsn: int)
    requires SlotsOk(h) && RplsnOk(h, rplsn, uncounted, vec, limbo) && rplsn(p) == 0
    ensures RplsnOk(Append(h, t, p, plsn), rplsn, uncounted + {|h.pushed|}, vec, limbo)
  {
  }

  lemma PushedCounts(h: History, uncounted: set<int>, writers: int -> Writer, count: int, limbo: Ptr, n: int, t: int,
      w: Writer, z: Writer)
    requires PlsnsOk(h.pushed, n) && UncountedOk(h.pushed, uncounted, writers) && CountOk(h, count, uncounted, limbo)
    requires writers(t) == w && w.Stamped? && 1 <= w.plsn <= Plsn(n) && Counting(z, |h.pushed|, w.page)
    ensures PlsnsOk(Append(h, t, w.page, w.plsn).pushed, n)
    ensures UncountedOk(Append(h, t, w.page, w.plsn).pushed, uncounted + {|h.pushed|}, Put(writers, t, z))
    ensures CountOk(Append(h, t, w.page, w.plsn), count, uncounted + {|h.pushed|}, limbo)
  {
  }

  lemma TailUnlinked(q: Queue, limbo: Ptr)
    requires QueueOk(q, limbo) && q.h.removed < |q.h.pushed|
    ensures q.next(q.h.pushed[|q.h.pushed| - 1].page).Null?
  {
    var x := q.h.pushed[|q.h.pushed| - 1].page;
    assert q.h.slot(x) == |q.h.pushed|;
  }

  lemma PushedPushers(q: Queue, rplsn: int -> int, uncounted: set<int>, writers: int -> Writer, n: int, limbo: Ptr,
      t: int, w: Writer)
    requires QueueOk(q, limbo) && PushersOk(writers, q, rplsn, uncounted, n) && Owners(writers)
    requires writers(t) == w && w.Stamped? && q.word == w.seen
    ensures PushersOk(Put(writers, t, Swapped(w.page, w.floor, OldTail(w.seen), w.plsn, |q.h.pushed|)),
                      Pushed(q, t, w.page, w.plsn), rplsn, uncounted + {|q.h.pushed|}, n)
  {
    var z := Pushed(q, t, w.page, w.plsn);
    var more := uncounted + {|q.h.pushed|};
    if q.h.removed < |q.h.pushed| { TailUnlinked(q, limbo); }
    forall u ensures u != t ==> PusherOk(writers(u), u, z, rplsn, more, n) {
      assert PusherOk(writers(u), u, q, rplsn, uncounted, n);
    }
  }

  lemma PushedMarkers(h: History, d: Store, f: Flags, vec: seq<int>, cand: set<int>, writers: int -> Writer, t: int,
      w: Writer, p: int, plsn: int)
    requires SlotsOk(h) && MarkersOk(writers, h, d, f, vec, cand) && w.Swapped?
    ensures MarkersOk(Put(writers, t, w), Append(h, t, p, plsn), d, f, vec, cand)
  {
    var z := Append(h, t, p, plsn);
    forall u ensures u != t ==> MarkerOk(writers(u), z, d, f, vec, cand) {
      assert MarkerOk(writers(u), h, d, f, vec, cand);
    }
  }

  lemma PushedVec(h: History, vec: seq<int>, held: Ptr, t: int, p: int, plsn: int)
    requires VecOk(h, vec, held) && p !in vec
    ensures VecOk(Append(h, t, p, plsn), vec, held)
  {
  }

  lemma PushedMaster(m: Master, q: Queue, rplsn: int -> int, d: Store, f: Flags, vec: seq<int>, cand: set<int>,
      t: int, p: int, plsn: int)
    requires MasterOk(m, q, rplsn, d, f, vec, cand)
    ensures MasterOk(m, Pushed(q, t, p, plsn), rplsn, d, f, vec, cand)
  {
    hide OnDisk, Owed;
  }

  lemma PushedAnswered(h: History, d: Store, vec: seq<int>, cand: set<int>, goal: int, t: int, p: int, plsn: int)
    requires SlotsOk(h) && AllAnswered(h, d, vec, cand, goal) && goal <= |h.pushed| && !InQueue(h, p) && p !in vec
    ensures AllAnswered(Append(h, t, p, plsn), d, vec, cand, goal)
  {
    var z := Append(h, t, p, plsn);
    forall i | 0 <= i < |d.wal| && d.disk(d.wal[i]) <= i ensures Answered(z, d, vec, cand, goal, d.wal[i], i) {
      assert Answered(h, d, vec, cand, goal, d.wal[i], i);
    }
  }

  /** The round removes entries that are in the queue. */
  lemma GoalBound(s: State)
    requires Inv(s)
    ensures Goal(s.master, s.q.h.removed) <= |s.q.h.pushed|
  {
  }

  /** What the pusher's page is not. */
  lemma OutsideFacts(s: State, p: int)
    requires Inv(s) && s.rplsn(p) == 0 && Held(s.master) != At(p)
    ensures p !in s.vec && Limbo(s.master) != At(p)
  {
  }

  lemma SwapInv(s: State, t: int)
    requires Inv(s) && s.writers(t).Stamped?
    ensures Inv(WriterApply(s, t))
  {
    WriterFacts(s, t);
    var w := s.writers(t);
    if s.q.word == w.seen {
      SwappedInv(s, t, w);
    } else {
      LocalStep(s, t, Loaded(w.page, w.floor, s.q.word, s.ver));
    }
  }

  lemma SwappedInv(s: State, t: int, w: Writer)
    requires Inv(s) && s.writers(t) == w && w.Stamped? && s.q.word == w.seen
    ensures Inv(Swap(s, t, w.page, w.floor, w.seen, w.plsn))
  {
    WriterFacts(s, t);
    OutsideFacts(s, w.page);
    GoalBound(s);
    hide Owners, SlotsOk, EndsOk, NextOk, RplsnOk, PlsnsOk, UncountedOk, CountOk, PushersOk, MarkersOk, HeadersOk,
         VecOk, IoOk, MasterOk, AllAnswered, Owed;
    var limbo := Limbo(s.master);
    var z := Swapped(w.page, w.floor, OldTail(w.seen), w.plsn, |s.q.h.pushed|);
    PushedQueue(s.q, limbo, t, w.page, w.plsn);
    PushedRplsn(s.q.h, s.rplsn, s.uncounted, s.vec, limbo, t, w.page, w.plsn);
    PushedCounts(s.q.h, s.uncounted, s.writers, s.count, limbo, |s.d.wal|, t, w, z);
    PushedPushers(s.q, s.rplsn, s.uncounted, s.writers, |s.d.wal|, limbo, t, w);
    PushedMarkers(s.q.h, s.d, s.f, s.vec, s.cand, s.writers, t, z, w.page, w.plsn);
    PushedVec(s.q.h, s.vec, Held(s.master), t, w.page, w.plsn);
    PushedMaster(s.master, s.q, s.rplsn, s.d, s.f, s.vec, s.cand, t, w.page, w.plsn);
    PushedAnswered(s.q.h, s.d, s.vec, s.cand, Goal(s.master, s.q.h.removed), t, w.page, w.plsn);
    MovedOwners(s.writers, Held(s.master), t, z);
  }

  // ---- Storing the recovery PLSN

  lemma StoredRplsn(h: History, rplsn: int -> int, uncounted: set<int>, vec: seq<int>, limbo: Ptr, p: int, at: int)
    requires SlotsOk(h) && RplsnOk(h, rplsn, uncounted, vec, limbo) && rplsn(p) == 0
    requires h.removed <= at < |h.pushed| && h.pushed[at].page == p
    ensures RplsnOk(h, Put(rplsn, p, h.pushed[at].plsn), uncounted, vec, limbo)
  {
    assert h.slot(h.pushed[at].page) == at + 1;
  }

  lemma StoredPushers(writers: int -> Writer, q: Queue, rplsn: int -> int, uncounted: set<int>, n: int, t: int,
      w: Writer)
    requires PushersOk(writers, q, rplsn, uncounted, n) && Owners(writers) && writers(t) == w && w.Swapped?
    ensures PushersOk(Put(writers, t, Stored(w.page, w.floor, w.pred, w.plsn, w.at)), q, Put(rplsn, w.page, w.plsn),
        uncounted, n)
  {
    forall u ensures u != t ==> PusherOk(writers(u), u, q, Put(rplsn, w.page, w.plsn), uncounted, n) {
      assert PusherOk(writers(u), u, q, rplsn, uncounted, n);
    }
  }

  lemma StoredMaster(m: Master, q: Queue, rplsn: int -> int, d: Store, f: Flags, vec: seq<int>, cand: set<int>,
      p: int, plsn: int)
    requires MasterOk(m, q, rplsn, d, f, vec, cand) && Held(m) != At(p)
    ensures MasterOk(m, q, Put(rplsn, p, plsn), d, f, vec, cand)
  {
  }

  lemma StoreInv(s: State, t: int)
    requires Inv(s) && s.writers(t).Swapped?
    ensures Inv(WriterApply(s, t))
  {
    WriterFacts(s, t);
    hide Owners, SlotsOk, EndsOk, NextOk, RplsnOk, PlsnsOk, UncountedOk, CountOk, PushersOk, MarkersOk, HeadersOk,
         VecOk, IoOk, MasterOk, AllAnswered, Owed;
    var w := s.writers(t);
    var z := Stored(w.page, w.floor, w.pred, w.plsn, w.at);
    StoredRplsn(s.q.h, s.rplsn, s.uncounted, s.vec, Limbo(s.master), w.page, w.at);
    StoredPushers(s.writers, s.q, s.rplsn, s.uncounted, |s.d.wal|, t, w);
    StoredMaster(s.master, s.q, s.rplsn, s.d, s.f, s.vec, s.cand, w.page, w.plsn);
    MovedOwners(s.writers, Held(s.master), t, z);
    MovedUncounted(s.q.h.pushed, s.uncounted, s.writers, t, z);
    MovedMarkers(s.writers, s.q.h, s.d, s.f, s.vec, s.cand, t, z);
  }

  // ---- Linking the predecessor

  lemma LinkQueue(q: Queue, uncounted: set<int>, limbo: Ptr, t: int, p: int, pred: int, plsn: int, at: int)
    requires QueueOk(q, limbo) && TookTail(q, uncounted, t, p, At(pred), plsn, at)
    ensures QueueOk(q.(next := Put(q.next, pred, At(p))), limbo)
  {
    assert q.h.slot(q.h.pushed[at - 1].page) == at;
    var next := Put(q.next, pred, At(p));
    forall x | next(x).At? && limbo != At(x) ensures Follows(q.h, q.h.slot(x), next(x).page) {
      assert x != pred ==> q.next(x).At?;
    }
  }

  lemma LinkMaster(m: Master, q: Queue, rplsn: int -> int, d: Store, f: Flags, vec: seq<int>, cand: set<int>,
      pred: int, p: int)
    requires MasterOk(m, q, rplsn, d, f, vec, cand) && q.next(pred).Null?
    ensures MasterOk(m, q.(next := Put(q.next, pred, At(p))), rplsn, d, f, vec, cand)
  {
    hide OnDisk, Owed, Scanned, Scannable, Locked;
  }

  lemma LinkPushers(q: Queue, rplsn: int -> int, uncounted: set<int>, writers: int -> Writer, n: int, limbo: Ptr,
      t: int, w: Writer)
    requires QueueOk(q, limbo) && PushersOk(writers, q, rplsn, uncounted, n)
    requires writers(t) == w && w.Stored? && w.pred.At?
    ensures PushersOk(Put(writers, t, Linked(w.page, w.at)), q.(next := Put(q.next, w.pred.page, At(w.page))), rplsn,
        uncounted, n)
  {
    var z := q.(next := Put(q.next, w.pred.page, At(w.page)));
    assert PusherOk(w, t, q, rplsn, uncounted, n);
    forall u ensures u != t ==> PusherOk(writers(u), u, z, rplsn, uncounted, n) {
      var v := writers(u);
      assert PusherOk(v, u, q, rplsn, uncounted, n);
      if (v.Swapped? || v.Stored?) && v.pred == w.pred {
        assert q.h.slot(q.h.pushed[v.at - 1].page) == v.at;
        assert q.h.slot(q.h.pushed[w.at - 1].page) == w.at;
      }
    }
  }

  lemma LinkInv(s: State, t: int)
    requires Inv(s) && s.writers(t).Stored?
    ensures Inv(WriterApply(s, t))
  {
    WriterFacts(s, t);
    var w := s.writers(t);
    var z := Linked(w.page, w.at);
    if w.pred.At? {
      LinkedInv(s, t, w);
    } else {
      LocalStep(s, t, z);
    }
  }

  lemma LinkedInv(s: State, t: int, w: Writer)
    requires Inv(s) && s.writers(t) == w && w.Stored? && w.pred.At?
    ensures Inv(Goes(s.(q := s.q.(next := Put(s.q.next, w.pred.page, At(w.page)))), t, Linked(w.page, w.at)))
  {
    WriterFacts(s, t);
    hide Owners, QueueOk, RplsnOk, PlsnsOk, UncountedOk, CountOk, PushersOk, MarkersOk, HeadersOk, VecOk, IoOk,
         MasterOk, AllAnswered, Owed;
    var z := Linked(w.page, w.at);
    LinkQueue(s.q, s.uncounted, Limbo(s.master), t, w.page, w.pred.page, w.plsn, w.at);
    LinkMaster(s.master, s.q, s.rplsn, s.d, s.f, s.vec, s.cand, w.pred.page, w.page);
    LinkPushers(s.q, s.rplsn, s.uncounted, s.writers, |s.d.wal|, Limbo(s.master), t, w);
    MovedOwners(s.writers, Held(s.master), t, z);
    MovedUncounted(s.q.h.pushed, s.uncounted, s.writers, t, z);
    MovedMarkers(s.writers, s.q.h, s.d, s.f, s.vec, s.cand, t, z);
  }

  // ---- Counting the entry

  lemma CountedCounts(h: History, uncounted: set<int>, writers: int -> Writer, count: int, limbo: Ptr, t: int,
      w: Writer)
    requires UncountedOk(h.pushed, uncounted, writers) && CountOk(h, count, uncounted, limbo)
    requires writers(t) == w && w.Linked? && w.at in uncounted
    ensures UncountedOk(h.pushed, uncounted - {w.at}, Put(writers, t, Counted(w.page)))
    ensures CountOk(h, count + 1, uncounted - {w.at}, limbo)
  {
  }

  lemma CountedRplsn(h: History, rplsn: int -> int, uncounted: set<int>, vec: seq<int>, limbo: Ptr, p: int, at: int)
    requires SlotsOk(h) && RplsnOk(h, rplsn, uncounted, vec, limbo)
    requires h.removed <= at < |h.pushed| && h.pushed[at].page == p && rplsn(p) == h.pushed[at].plsn
    ensures RplsnOk(h, rplsn, uncounted - {at}, vec, limbo)
  {
    forall x | InQueue(h, x) && h.slot(x) - 1 == at ensures x == p {
      assert EntryAt(h, x);
    }
  }

  lemma CountedPushers(q: Queue, rplsn: int -> int, uncounted: set<int>, writers: int -> Writer, n: int, t: int,
      w: Writer)
    requires PushersOk(writers, q, rplsn, uncounted, n) && Owners(writers) && writers(t) == w && w.Linked?
    ensures PushersOk(Put(writers, t, Counted(w.page)), q, rplsn, uncounted - {w.at}, n)
  {
    assert PusherOk(w, t, q, rplsn, uncounted, n);
    forall u ensures u != t ==> PusherOk(writers(u), u, q, rplsn, uncounted - {w.at}, n) {
      assert PusherOk(writers(u), u, q, rplsn, uncounted, n);
    }
  }

  lemma CountInv(s: State, t: int)
    requires Inv(s) && s.writers(t).Linked?
    ensures Inv(WriterApply(s, t))
  {
    WriterFacts(s, t);
    var w := s.writers(t);
    assert s.q.h.slot(s.q.h.pushed[w.at].page) == w.at + 1;
    hide Owners, SlotsOk, EndsOk, NextOk, RplsnOk, PlsnsOk, UncountedOk, CountOk, PushersOk, MarkersOk, HeadersOk,
         VecOk, IoOk, MasterOk, AllAnswered, Owed;
    var z := Counted(w.page);
    CountedCounts(s.q.h, s.uncounted, s.writers, s.count, Limbo(s.master), t, w);
    CountedRplsn(s.q.h, s.rplsn, s.uncounted, s.vec, Limbo(s.master), w.page, w.at);
    CountedPushers(s.q, s.rplsn, s.uncounted, s.writers, |s.d.wal|, t, w);
    MovedOwners(s.writers, Held(s.master), t, z);
    MovedMarkers(s.writers, s.q.h, s.d, s.f, s.vec, s.cand, t, z);
  }

  // ---- Marking the page

  lemma MarkedMarkers(writers: int -> Writer, h: History, d: Store, f: Flags, vec: seq<int>, cand: set<int>, t: int,
      p: int)
    requires MarkersOk(writers, h, d, f, vec, cand) && Owners(writers) && writers(t) == Counted(p)
    ensures MarkersOk(Put(writers, t, Marked(p)), h, d, Flags(Put(f.dirty, p, true), Put(f.hint, p, true)), vec, cand)
  {
    forall u ensures u != t ==> MarkerOk(writers(u), h, d, Flags(Put(f.dirty, p, true), Put(f.hint, p, true)), vec,
        cand) {
      assert MarkerOk(writers(u), h, d, f, vec, cand);
    }
    assert MarkerOk(writers(t), h, d, f, vec, cand);
  }

  lemma MarkedIo(d: Store, f: Flags, cand: set<int>, p: int)
    requires IoOk(d, f, cand)
    ensures IoOk(d, Flags(Put(f.dirty, p, true), Put(f.hint, p, true)), cand)
  {
    hide OnDisk;
  }

  lemma MarkedMaster(m: Master, q: Queue, rplsn: int -> int, d: Store, f: Flags, vec: seq<int>, cand: set<int>, p: int)
    requires MasterOk(m, q, rplsn, d, f, vec, cand) && Held(m) != At(p)
    ensures MasterOk(m, q, rplsn, d, Flags(Put(f.dirty, p, true), Put(f.hint, p, true)), vec, cand)
  {
    hide Scanned, Scannable, Links, Owed;
  }

  lemma MarkInv(s: State, t: int)
    requires Inv(s) && s.writers(t).Counted?
    ensures Inv(WriterApply(s, t))
  {
    WriterFacts(s, t);
    var p := s.writers(t).page;
    var z := Marked(p);
    hide Owners, QueueOk, RplsnOk, PlsnsOk, UncountedOk, CountOk, PushersOk, MarkersOk, HeadersOk, VecOk, IoOk,
         MasterOk, AllAnswered, Owed;
    MarkedMarkers(s.writers, s.q.h, s.d, s.f, s.vec, s.cand, t, p);
    MarkedIo(s.d, s.f, s.cand, p);
    MarkedMaster(s.master, s.q, s.rplsn, s.d, s.f, s.vec, s.cand, p);
    MovedOwners(s.writers, Held(s.master), t, z);
    MovedUncounted(s.q.h.pushed, s.uncounted, s.writers, t, z);
    MovedPushers(s.writers, s.q, s.rplsn, s.uncounted, |s.d.wal|, t, z);
  }

  // ---- Appending the record

  function Logged(d: Store, p: int): Store { d.(wal := d.wal + [p]) }

  lemma LoggedPushers(writers: int -> Writer, q: Queue, rplsn: int -> int, uncounted: set<int>, n: int)
    requires PushersOk(writers, q, rplsn, uncounted, n)
    ensures PushersOk(writers, q, rplsn, uncounted, n + 1)
  {
    forall u ensures PusherOk(writers(u), u, q, rplsn, uncounted, n + 1) {
      assert PusherOk(writers(u), u, q, rplsn, uncounted, n);
    }
  }

  lemma LoggedMarkers(writers: int -> Writer, h: History, d: Store, f: Flags, vec: seq<int>, cand: set<int>, p: int)
    requires MarkersOk(writers, h, d, f, vec, cand)
    ensures MarkersOk(writers, h, Logged(d, p), f, vec, cand)
  {
    forall u ensures MarkerOk(writers(u), h, Logged(d, p), f, vec, cand) {
      assert MarkerOk(writers(u), h, d, f, vec, cand);
    }
  }

  lemma LoggedIo(d: Store, f: Flags, cand: set<int>, p: int)
    requires IoOk(d, f, cand) && f.dirty(p) && f.hint(p)
    ensures IoOk(Logged(d, p), f, cand)
  {
    forall x ensures !f.dirty(x) ==> OnDisk(Logged(d, p), x, |d.wal| + 1) {
      assert !f.dirty(x) ==> OnDisk(d, x, |d.wal|);
    }
  }

  lemma LoggedScanned(h: History, d: Store, cand: set<int>, mark: int, adv: int, p: int)
    requires Scanned(h, d, cand, mark, adv) && mark <= |d.wal|
    ensures Scanned(h, Logged(d, p), cand, mark, adv)
  {
    forall k | h.removed <= k < h.removed + adv ensures Seen(Logged(d, p), cand, mark, h.pushed[k].page) {
      assert Seen(d, cand, mark, h.pushed[k].page);
    }
  }

  lemma LoggedOwed(d: Store, cand: set<int>, r: int, p: int)
    requires Owed(d, cand, r) && r <= Plsn(|d.wal|)
    ensures Owed(Logged(d, p), cand, r)
  {
    var z := Logged(d, p);
    forall i | 0 <= i < |z.wal| && Plsn(i) < r && z.disk(z.wal[i]) <= i ensures Due(z, cand, z.wal[i], i) {
      assert Due(d, cand, d.wal[i], i);
    }
  }

  lemma LoggedMaster(m: Master, q: Queue, rplsn: int -> int, d: Store, f: Flags, vec: seq<int>, cand: set<int>, p: int)
    requires MasterOk(m, q, rplsn, d, f, vec, cand)
    ensures MasterOk(m, q, rplsn, Logged(d, p), f, vec, cand)
  {
    hide Scanned, Links, Locked, Ahead, OnDisk, Owed;
    if ScanPhase(m) {
      LoggedScanned(q.h, d, cand, m.mark, if m.ScanVec? then 0 else m.adv, p);
    } else if m.Publish? || m.EmptyPublish? {
      LoggedOwed(d, cand, if m.Publish? then m.plsn else m.max, p);
    }
  }

  /** The new record is answered for by the entry of its page, whose PLSN was read earlier. */
  lemma LoggedAnswered(h: History, d: Store, vec: seq<int>, cand: set<int>, goal: int, p: int)
    requires AllAnswered(h, d, vec, cand, goal) && PlsnsOk(h.pushed, |d.wal|)
    requires InQueue(h, p) || p in vec || (p in cand && !SlaveIo(d, p))
    ensures AllAnswered(h, Logged(d, p), vec, cand, goal)
  {
    var z := Logged(d, p);
    forall i | 0 <= i < |z.wal| && z.disk(z.wal[i]) <= i ensures Answered(h, z, vec, cand, goal, z.wal[i], i) {
      if i < |d.wal| { assert Answered(h, d, vec, cand, goal, d.wal[i], i); }
    }
  }

  lemma LogInv(s: State, t: int)
    requires Inv(s) && s.writers(t).Marked?
    ensures Inv(Log(s, s.writers(t).page))
  {
    WriterFacts(s, t);
    var p := s.writers(t).page;
    hide Owners, QueueOk, RplsnOk, UncountedOk, CountOk, PushersOk, MarkersOk, HeadersOk, VecOk, IoOk, MasterOk,
      AllAnswered, Owed;
    LoggedPushers(s.writers, s.q, s.rplsn, s.uncounted, |s.d.wal|);
    LoggedMarkers(s.writers, s.q.h, s.d, s.f, s.vec, s.cand, p);
    LoggedIo(s.d, s.f, s.cand, p);
    LoggedMaster(s.master, s.q, s.rplsn, s.d, s.f, s.vec, s.cand, p);
    LoggedAnswered(s.q.h, s.d, s.vec, s.cand, Goal(s.master, s.q.h.removed), p);
    LoggedOwed(s.d, s.cand, s.recovery, p);
  }

  /** The last record of the writer on its page. */
  lemma AppendInv(s: State, t: int)
    requires Inv(s) && s.writers(t).Marked?
    ensures Inv(WriterApply(s, t))
  {
    hide Inv;
    LogInv(s, t);
    LocalStep(Log(s, s.writers(t).page), t, Idle);
  }

  lemma WriterInv(s: State, t: int)
    requires Inv(s) && Enabled(s, WriterStep(t))
    ensures Inv(WriterApply(s, t))
  {
    hide Inv;
    match s.writers(t)
    case Owns(_) => CheckInv(s, t);
    case Entered(_, _) => LoadInv(s, t);
    case Loaded(_, _, _, _) => StampInv(s, t);
    case Stamped(_, _, _, _, _) => SwapInv(s, t);
    case Swapped(_, _, _, _, _) => StoreInv(s, t);
    case Stored(_, _, _, _, _) => LinkInv(s, t);
    case Linked(_, _) => CountInv(s, t);
    case Counted(_) => MarkInv(s, t);
    case Marked(_) => AppendInv(s, t);
  }
}
