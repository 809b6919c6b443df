/**
  The invariant of the dirty page queue: the lock-free list holds the pushed entries in order, and
  every WAL record missing on disk is the responsibility of a page that is in the queue or parked in
  the vector, with every recovery PLSN ahead of it at or below the record, or of a page handed to the
  slave writers and not yet reported flushed.
*/
module DirtyPageInvariant {
  import opened Common
  import opened DirtyPageQueue

  predicate InQueue(h: History, p: int) { h.slot(p) > h.removed }

  /** The page taken off the queue whose entry the master is about to clear. */
  function Limbo(m: Master): Ptr { if m.AdvRem? then At(m.here) else Null }

  /** All records of page p below position n are in its disk image. */
  predicate OnDisk(d: Store, p: int, n: int) {
    forall i | 0 <= i < |d.wal| && i < n && d.wal[i] == p :: i < d.disk(p)
  }

  /** The first m entries ever pushed carry PLSNs at or below record i. */
  predicate Ahead(pushed: seq<Entry>, m: int, i: int) {
    forall k | 0 <= k < |pushed| && k < m :: pushed[k].plsn <= Plsn(i)
  }

  /** One past the last entry that the current round removes. */
  function Goal(m: Master, removed: nat): nat {
    match m
    case AdvNext(left, _) => removed + left
    case AdvLock(left, _, _) => removed + left + 1
    case AdvHead(left, _, _, _, _) => removed + left + 1
    case AdvCas(left, _, _, _, _, _) => removed + left + 1
    case AdvRem(left, _, _, _) => removed + left
    case _ => removed
  }

  ghost predicate Owners(writers: int -> Writer) {
    forall t, u | t != u && !writers(t).Idle? && !writers(u).Idle? :: writers(t).page != writers(u).page
  }

  /** The entries in the queue are of distinct pages, and `slot` finds them. */
  predicate EntryAt(h: History, p: int) {
    0 < h.slot(p) <= |h.pushed| && h.pushed[h.slot(p) - 1].page == p
  }

  ghost predicate SlotsOk(h: History) {
    && h.removed <= |h.pushed|
    && (forall p :: 0 <= h.slot(p) <= |h.pushed|)
    && (forall k {:trigger h.slot(h.pushed[k].page)} | h.removed <= k < |h.pushed| :: h.slot(h.pushed[k].page) == k + 1)
    && (forall p | h.slot(p) > h.removed :: EntryAt(h, p))
  }

  predicate EndsOk(word: Word, h: History) {
    && h.removed <= |h.pushed|
    && word.head == (if h.removed == |h.pushed| then Null else At(h.pushed[h.removed].page))
    && (if h.removed == |h.pushed| then word.tail.Tag? else word.tail == Last(h.pushed[|h.pushed| - 1].page))
  }

  predicate Follows(h: History, at: int, succ: int) {
    h.removed < at < |h.pushed| && h.pushed[at].page == succ
  }

  ghost predicate NextOk(next: int -> Ptr, h: History, limbo: Ptr) {
    && (limbo.At? ==> h.slot(limbo.page) <= h.removed)
    && (forall p | next(p).At? :: limbo == At(p) || Follows(h, h.slot(p), next(p).page))
  }

  /** The linked list from head to tail is pushed[removed..], up to links still to be written. */
  ghost predicate QueueOk(q: Queue, limbo: Ptr) {
    && SlotsOk(q.h)
    && EndsOk(q.word, q.h)
    && NextOk(q.next, q.h, limbo)
  }

  /** A page carries a recovery PLSN exactly while it is in the queue or parked. */
  ghost predicate RplsnOk(h: History, rplsn: int -> int, uncounted: set<int>, vec: seq<int>, limbo: Ptr) {
    && (forall p {:trigger rplsn(p)} | InQueue(h, p) && 0 < h.slot(p) <= |h.pushed| ::
          rplsn(p) == h.pushed[h.slot(p) - 1].plsn || (rplsn(p) == 0 && h.slot(p) - 1 in uncounted))
    && (forall p {:trigger rplsn(p)} | rplsn(p) != 0 :: InQueue(h, p) || p in vec || limbo == At(p))
    && (forall p | p in vec :: rplsn(p) != 0)
  }

  predicate PlsnsOk(pushed: seq<Entry>, n: int) {
    forall k | 0 <= k < |pushed| :: 1 <= pushed[k].plsn <= Plsn(n)
  }

  predicate Counting(w: Writer, k: int, p: int) {
    (w.Swapped? || w.Stored? || w.Linked?) && w.at == k && w.page == p
  }

  predicate UncountedOk(pushed: seq<Entry>, uncounted: set<int>, writers: int -> Writer) {
    forall k | k in uncounted ::
      0 <= k < |pushed| && Counting(writers(pushed[k].thread), k, pushed[k].page)
  }

  /** Every entry is counted once, from its push until it is removed. */
  predicate CountOk(h: History, count: int, uncounted: set<int>, limbo: Ptr) {
    count + |uncounted| == |h.pushed| - h.removed + (if limbo.At? then 1 else 0)
  }

  /** What a writer inside Push knows of the queue; n is the WAL length. */
  predicate PusherOk(w: Writer, t: int, q: Queue, rplsn: int -> int, uncounted: set<int>, n: int) {
    match w
    case Entered(p, floor) => rplsn(p) == 0 && !InQueue(q.h, p) && floor <= Plsn(n)
    case Loaded(p, floor, _, _) => rplsn(p) == 0 && !InQueue(q.h, p) && floor <= Plsn(n)
    case Stamped(p, floor, _, _, plsn) =>
      rplsn(p) == 0 && !InQueue(q.h, p) && floor <= plsn && 1 <= plsn <= Plsn(n)
    case Swapped(p, floor, pred, plsn, at) =>
      rplsn(p) == 0 && floor <= plsn && TookTail(q, uncounted, t, p, pred, plsn, at)
    case Stored(p, floor, pred, plsn, at) =>
      rplsn(p) == plsn && floor <= plsn && TookTail(q, uncounted, t, p, pred, plsn, at)
    case Linked(p, at) =>
      && q.h.removed <= at < |q.h.pushed| && q.h.pushed[at].page == p && q.h.pushed[at].thread == t && at in uncounted
      && rplsn(p) == q.h.pushed[at].plsn
    case _ => true
  }

  /** The writer's entry is at index `at`, and its predecessor is still in the queue, unlinked. */
  predicate TookTail(q: Queue, uncounted: set<int>, t: int, p: int, pred: Ptr, plsn: int, at: int) {
    && q.h.removed <= at < |q.h.pushed| && q.h.pushed[at] == Entry(p, plsn, t) && at in uncounted
    && (pred.At? ==> q.h.removed < at && q.h.pushed[at - 1].page == pred.page && q.next(pred.page).Null?)
  }

  predicate SlaveIo(d: Store, p: int) { d.io(p).Writing? && d.io(p).slave }

  /** A writer past Push: its page is in the queue, parked, or waiting for a slave to start. */
  predicate MarkerOk(w: Writer, h: History, d: Store, f: Flags, vec: seq<int>, cand: set<int>) {
    match w
    case Counted(p) => InQueue(h, p) || p in vec
    case Marked(p) =>
      && f.dirty(p) && f.hint(p)
      && (InQueue(h, p) || p in vec || (p in cand && !SlaveIo(d, p)))
    case _ => true
  }

  ghost predicate PushersOk(writers: int -> Writer, q: Queue, rplsn: int -> int, uncounted: set<int>, n: int) {
    forall t :: PusherOk(writers(t), t, q, rplsn, uncounted, n)
  }

  ghost predicate MarkersOk(writers: int -> Writer, h: History, d: Store, f: Flags, vec: seq<int>, cand: set<int>) {
    forall t :: MarkerOk(writers(t), h, d, f, vec, cand)
  }

  /** The page whose header lock the master holds. */
  function Held(m: Master): Ptr { if m.AdvHead? || m.AdvCas? || m.AdvRem? then At(m.here) else Null }

  ghost predicate HeadersOk(writers: int -> Writer, held: Ptr) {
    forall t | writers(t).HoldsHeader() :: held != At(writers(t).page)
  }

  predicate ScanPhase(m: Master) { m.ScanVec? || m.ScanPage? || m.ScanNext? || m.Flushing? }

  predicate VecOk(h: History, vec: seq<int>, held: Ptr) {
    && (forall i, j | 0 <= i < j < |vec| :: vec[i] != vec[j])
    && (forall p | p in vec && InQueue(h, p) :: held == At(p))
  }

  ghost predicate IoOk(d: Store, f: Flags, cand: set<int>) {
    forall p ::
      && 0 <= d.disk(p) <= |d.wal|
      && (f.hint(p) ==> f.dirty(p))
      && (!f.dirty(p) ==> OnDisk(d, p, |d.wal|))
      && (d.io(p).Writing? ==> WriteOk(d, f, p, d.io(p).upto))
      && (SlaveIo(d, p) ==> p in cand)
  }

  predicate WriteOk(d: Store, f: Flags, p: int, upto: int) {
    && d.disk(p) <= upto <= |d.wal| && f.dirty(p)
    && (!f.hint(p) ==> forall i | 0 <= i < |d.wal| && upto <= i :: d.wal[i] != p)
  }

  /** Page p is on disk up to `mark`, or is a candidate that no write begun before `mark` discharges. */
  predicate Seen(d: Store, cand: set<int>, mark: int, p: int) {
    OnDisk(d, p, mark) || (p in cand && (SlaveIo(d, p) ==> mark <= d.io(p).upto))
  }

  /** The pages of the entries scanned so far. */
  predicate Scanned(h: History, d: Store, cand: set<int>, mark: int, adv: int) {
    && 0 <= adv && h.removed + adv <= |h.pushed|
    && (forall k | h.removed <= k < h.removed + adv :: Seen(d, cand, mark, h.pushed[k].page))
  }

  predicate Links(q: Queue, n: int) {
    forall k {:trigger q.next(q.h.pushed[k].page)} | q.h.removed <= k && k + 1 < n && k + 1 < |q.h.pushed| ::
      q.next(q.h.pushed[k].page) == At(q.h.pushed[k + 1].page)
  }

  /** The next `span` entries were pushed before position `mark`. */
  predicate Scannable(h: History, n: int, max: int, mark: int, span: int) {
    max <= Plsn(mark) <= Plsn(n) && h.removed + span <= |h.pushed| && Ahead(h.pushed, h.removed + span, mark)
  }

  ghost predicate MasterOk(m: Master, q: Queue, rplsn: int -> int, d: Store, f: Flags, vec: seq<int>, cand: set<int>) {
    var n := |d.wal|;
    match m
    case Start => true
    case Began(max) => max <= Plsn(n)
    case ScanVec(max, mark, count) => Scannable(q.h, n, max, mark, count) && Scanned(q.h, d, cand, mark, 0)
    case ScanPage(max, mark, left, cur, adv) =>
      && Scannable(q.h, n, max, mark, adv + left) && Scanned(q.h, d, cand, mark, adv) && vec == [] &&
          Links(q, q.h.removed + adv)
      && (cur.At? ==>
            && q.h.removed + adv < |q.h.pushed| && cur.page == q.h.pushed[q.h.removed + adv].page
            && Links(q, q.h.removed + adv + 1))
    case ScanNext(max, mark, left, here, adv) =>
      && Scannable(q.h, n, max, mark, adv + left) && Scanned(q.h, d, cand, mark, adv) && vec == [] &&
          Links(q, q.h.removed + adv)
      && 0 < adv && here == q.h.pushed[q.h.removed + adv - 1].page
    case Flushing(max, mark, adv) =>
      Scannable(q.h, n, max, mark, adv) && Scanned(q.h, d, cand, mark, adv) && vec == [] && Links(q, q.h.removed + adv)
    case AdvNext(left, cur) =>
      && 0 < left && q.h.removed + left <= |q.h.pushed| && cur == At(q.h.pushed[q.h.removed].page)
      && Links(q, q.h.removed + left)
    case AdvLock(left, here, nxt) => Advancing(q, left, here, nxt)
    case AdvHead(left, here, nxt, plsn, _) => Advancing(q, left, here, nxt) && Locked(q.h, rplsn, f, vec, here, plsn)
    case AdvCas(left, here, nxt, plsn, seen, succ) =>
      && Advancing(q, left, here, nxt) && Locked(q.h, rplsn, f, vec, here, plsn)
      && (if succ.At? then q.next(here) == succ else seen.tail == Last(here))
    case AdvRem(left, here, nxt, plsn) =>
      && 0 < q.h.removed && q.h.removed + left <= |q.h.pushed|
      && q.h.pushed[q.h.removed - 1].page == here
      && plsn == q.h.pushed[q.h.removed - 1].plsn == rplsn(here)
      && (f.dirty(here) <==> here in vec)
      && Links(q, q.h.removed + left)
      && (left > 0 ==> nxt == At(q.h.pushed[q.h.removed].page))
    case Publish(plsn) => Owed(d, cand, plsn) && plsn <= Plsn(n)
    case EmptyLoad(max) => max <= Plsn(n) && vec == []
    case EmptyCas(max, seen) => max <= Plsn(n) && vec == [] && seen.head.Null?
    case EmptyPublish(max) => max <= Plsn(n) && Owed(d, cand, max)
  }

  /** The master is at the first entry, with at least `left` more to remove. */
  predicate Advancing(q: Queue, left: int, here: int, nxt: Ptr) {
    && 0 <= left && q.h.removed + left + 1 <= |q.h.pushed| && here == q.h.pushed[q.h.removed].page
    && Links(q, q.h.removed + left + 1)
    && (left > 0 ==> nxt == At(q.h.pushed[q.h.removed + 1].page))
  }

  predicate Locked(h: History, rplsn: int -> int, f: Flags, vec: seq<int>, here: int, plsn: int) {
    && h.removed < |h.pushed| && plsn == h.pushed[h.removed].plsn == rplsn(here)
    && (f.dirty(here) <==> here in vec)
  }

  /** Record i of page p, missing on disk, is to be written by the slave writers. */
  predicate Due(d: Store, cand: set<int>, p: int, i: int) {
    p in cand && (SlaveIo(d, p) ==> i < d.io(p).upto)
  }

  /** Some page answers for record i of page p, missing on disk. */
  predicate Answered(h: History, d: Store, vec: seq<int>, cand: set<int>, goal: int, p: int, i: int) {
    || Due(d, cand, p, i)
    || (p in vec && Ahead(h.pushed, goal, i))
    || (InQueue(h, p) && Ahead(h.pushed, Max(h.slot(p), goal), i))
  }

  predicate AllAnswered(h: History, d: Store, vec: seq<int>, cand: set<int>, goal: int) {
    forall i | 0 <= i < |d.wal| && d.disk(d.wal[i]) <= i :: Answered(h, d, vec, cand, goal, d.wal[i], i)
  }

  /** Every WAL record below PLSN r is in the disk image of its page. */
  predicate SafePoint(d: Store, r: int) {
    forall i | 0 <= i < |d.wal| && Plsn(i) < r :: i < d.disk(d.wal[i])
  }

  /** Every WAL record below PLSN r is in the disk image of its page, or is to be written by the slave writers. */
  predicate Owed(d: Store, cand: set<int>, r: int) {
    forall i | 0 <= i < |d.wal| && Plsn(i) < r && d.disk(d.wal[i]) <= i :: Due(d, cand, d.wal[i], i)
  }

  ghost predicate Inv(s: State) {
    && Owners(s.writers)
    && QueueOk(s.q, Limbo(s.master))
    && RplsnOk(s.q.h, s.rplsn, s.uncounted, s.vec, Limbo(s.master))
    && PlsnsOk(s.q.h.pushed, |s.d.wal|)
    && UncountedOk(s.q.h.pushed, s.uncounted, s.writers)
    && CountOk(s.q.h, s.count, s.uncounted, Limbo(s.master))
    && PushersOk(s.writers, s.q, s.rplsn, s.uncounted, |s.d.wal|)
    && MarkersOk(s.writers, s.q.h, s.d, s.f, s.vec, s.cand)
    && HeadersOk(s.writers, Held(s.master))
    && VecOk(s.q.h, s.vec, Held(s.master))
    && IoOk(s.d, s.f, s.cand)
    && MasterOk(s.master, s.q, s.rplsn, s.d, s.f, s.vec, s.cand)
    && AllAnswered(s.q.h, s.d, s.vec, s.cand, Goal(s.master, s.q.h.removed))
    && s.recovery <= Plsn(|s.d.wal|) && Owed(s.d, s.cand, s.recovery)
  }
}
