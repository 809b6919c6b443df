/**
  The dirty page queue and its consumer, as an interleaved transition system.

  Writers mark pages dirty, push them on a lock-free queue and append WAL records; the background
  page writer (the master) scans the queue, has the pages flushed, advances the queue head and
  publishes the recovery PLSN from which redo starts after a crash. One step is one access to
  shared memory, or a stretch of code during which the accessed memory is protected by a lock that
  the model keeps.

  Pages stand for buffer descriptors, and there are any number of pages and threads. `wal[i]` is
  the page that WAL record i changes; a PLSN is a position in the stream, and record i sits at
  `Plsn(i)`. Positions start at 1: 0 is INVALID_PLSN.
*/
module DirtyPageQueue {
  import opened Common

  const INVALID_PLSN: int := 0

  function Plsn(i: int): int { i + 1 }

  datatype Ptr = Null | At(page: int)

  /** The 128-bit word {head, tail}. An empty queue keeps a PLSN in the tail half. */
  datatype Tail = Last(page: int) | Tag(plsn: int)
  datatype Word = Word(head: Ptr, tail: Tail)

  /**
    A page write in progress; `upto` is the WAL length when the page image was copied. A write by a
    slave began after its page was handed out, and its end is the report that the page is flushed.
  */
  datatype Io = NoIo | Writing(upto: int, slave: bool)

  /** The WAL and the disk. The disk image of p holds its records below `disk(p)`. */
  datatype Store = Store(wal: seq<int>, disk: int -> int, io: int -> Io)

  /** BUF_CONTENT_DIRTY and BUF_HINT_DIRTY of every page. */
  datatype Flags = Flags(dirty: int -> bool, hint: int -> bool)

  datatype Entry = Entry(page: int, plsn: int, thread: int)

  /**
    What happened to the queue: `pushed` lists every entry in the order the tail was taken, of which
    the first `removed` have left the queue, and `slot(p)` is one more than the index of p's latest
    entry. No step reads it.
  */
  datatype History = History(pushed: seq<Entry>, removed: nat, slot: int -> int)

  datatype Queue = Queue(word: Word, next: int -> Ptr, h: History)

  /** Where a writer thread stands. From `Entered` to `Counted` it holds the header lock of its page. */
  datatype Writer =
    | Idle
    | Owns(page: int)
    | Entered(page: int, floor: int)
    | Loaded(page: int, floor: int, seen: Word, ver: nat)
    | Stamped(page: int, floor: int, seen: Word, ver: nat, plsn: int)
    | Swapped(page: int, floor: int, pred: Ptr, plsn: int, at: int)
    | Stored(page: int, floor: int, pred: Ptr, plsn: int, at: int)
    | Linked(page: int, at: int)
    | Counted(page: int)
    | Marked(page: int)
  {
    predicate HoldsHeader() { !Idle? && !Owns? && !Marked? }

    predicate Holds(p: int) { HoldsHeader() && page == p }

    predicate Has(p: int) { !Idle? && page == p }
  }

  /** Where the master stands. `mark` is the WAL length when the queue length was read. */
  datatype Master =
    | Start
    | Began(max: int)
    | ScanVec(max: int, mark: nat, n: nat)
    | ScanPage(max: int, mark: nat, left: nat, cur: Ptr, adv: nat)
    | ScanNext(max: int, mark: nat, left: nat, here: int, adv: nat)
    | Flushing(max: int, mark: nat, adv: nat)
    | AdvNext(left: nat, cur: Ptr)
    | AdvLock(left: nat, here: int, nxt: Ptr)
    | AdvHead(left: nat, here: int, nxt: Ptr, plsn: int, seen: Word)
    | AdvCas(left: nat, here: int, nxt: Ptr, plsn: int, seen: Word, succ: Ptr)
    | AdvRem(left: nat, here: int, nxt: Ptr, plsn: int)
    | Publish(plsn: int)
    | EmptyLoad(max: int)
    | EmptyCas(max: int, seen: Word)
    | EmptyPublish(max: int)
  {
    predicate Holds(p: int) { (AdvHead? || AdvCas? || AdvRem?) && here == p }
  }

  /**
    `rplsn(p)` and `count` are the recovery PLSN of a page and the page count of the queue. `vec`
    holds the pages taken off the queue while dirty again. Three fields are history: `cand` holds the
    pages handed to the slave writers and not yet reported flushed, which only decides what counts as
    the write of a slave, `uncounted` the entries that took the tail and have not added one to `count`,
    and `ver` counts the writes of the queue word.
  */
  datatype State = State(
    d: Store,
    f: Flags,
    q: Queue,
    rplsn: int -> int,
    count: int,
    writers: int -> Writer,
    vec: seq<int>,
    cand: set<int>,
    recovery: int,
    master: Master,
    uncounted: set<int>,
    ver: nat)

  datatype Action =
    | Begin(thread: int, target: int)
    | WriterStep(thread: int)
    | AppendMore(thread: int)
    | FlushStart(target: int, slave: bool)
    | FlushEnd(target: int)
    | SkipClean(target: int)
    | MasterStep(cap: nat, vecFull: bool)

  const Init: State := State(
    Store([], _ => 0, _ => NoIo),
    Flags(_ => false, _ => false),
    Queue(Word(Null, Tag(0)), _ => Null, History([], 0, _ => 0)),
    _ => INVALID_PLSN, 0, _ => Idle, [], {}, 0, Start, {}, 0)

  ghost predicate Unowned(s: State, p: int) {
    forall t :: !s.writers(t).Has(p)
  }

  ghost predicate HeaderFree(s: State, p: int) {
    !s.master.Holds(p) && forall t :: !s.writers(t).Holds(p)
  }

  ghost predicate Enabled(s: State, a: Action) {
    match a
    case Begin(t, p) => s.writers(t).Idle? && Unowned(s, p)
    case WriterStep(t) =>
      !s.writers(t).Idle? && (s.writers(t).Owns? ==> !s.master.Holds(s.writers(t).page))
    case AppendMore(t) => s.writers(t).Marked?
    case FlushStart(p, slave) =>
      && Unowned(s, p) && HeaderFree(s, p) && s.d.io(p).NoIo? && s.f.dirty(p)
      && (slave ==> p in s.cand)
    case FlushEnd(p) => s.d.io(p).Writing? && HeaderFree(s, p)
    case SkipClean(p) => Unowned(s, p) && !s.f.dirty(p)
    case MasterStep(_, _) => MasterEnabled(s)
  }

  /** The locks the master waits for. How it waits for the slave writers is left open here. */
  ghost predicate MasterEnabled(s: State) {
    var m := s.master;
    && (m.ScanVec? && s.vec != [] ==> HeaderFree(s, s.vec[0]))
    && (m.AdvNext? ==> m.cur.At? && m.left > 0)
    && (m.AdvLock? ==> HeaderFree(s, m.here))
  }

  ghost function Apply(s: State, a: Action): State
    requires Enabled(s, a)
  {
    match a
    case Begin(t, p) => Goes(s, t, Owns(p))
    case WriterStep(t) => WriterApply(s, t)
    case AppendMore(t) => Log(s, s.writers(t).page)
    case FlushStart(p, slave) => StartIo(s, p, slave)
    case FlushEnd(p) => TerminateIo(s, p)
    case SkipClean(p) => s.(cand := s.cand - {p})
    case MasterStep(cap, vecFull) => MasterApply(s, cap, vecFull)
  }

  /** Thread t moves on to w. */
  function Goes(s: State, t: int, w: Writer): State { s.(writers := Put(s.writers, t, w)) }

  function StartIo(s: State, p: int, slave: bool): State {
    s.(d := s.d.(io := Put(s.d.io, p, Writing(|s.d.wal|, slave))), f := s.f.(hint := Put(s.f.hint, p, false)))
  }

  /** The page stays dirty when it was marked again while its copy was being written. */
  function TerminateIo(s: State, p: int): State
    requires s.d.io(p).Writing?
  {
    s.(d := s.d.(disk := Put(s.d.disk, p, s.d.io(p).upto), io := Put(s.d.io, p, NoIo)),
       f := s.f.(dirty := Put(s.f.dirty, p, s.f.hint(p))),
       cand := if s.d.io(p).slave then s.cand - {p} else s.cand)
  }

  /** One step of MarkDirty, DirtyPageQueue::Push, PreOccupyTail and EndAtomicWal in thread t. */
  function WriterApply(s: State, t: int): State
    requires !s.writers(t).Idle?
  {
    var w := s.writers(t);
    match w
    case Owns(p) => Check(s, t, p)
    case Entered(p, floor) => Goes(s, t, Loaded(p, floor, s.q.word, s.ver))
    case Loaded(p, floor, seen, ver) => Goes(s, t, Stamped(p, floor, seen, ver, Plsn(|s.d.wal|)))
    case Stamped(p, floor, seen, ver, plsn) => Swap(s, t, p, floor, seen, plsn)
    case Swapped(p, floor, pred, plsn, at) =>
      Goes(s.(rplsn := Put(s.rplsn, p, plsn)), t, Stored(p, floor, pred, plsn, at))
    case Stored(p, _, pred, _, at) =>
      Goes(if pred.At? then s.(q := s.q.(next := Put(s.q.next, pred.page, At(p)))) else s, t, Linked(p, at))
    case Linked(p, at) =>
      Goes(s.(count := s.count + 1, uncounted := s.uncounted - {at}), t, Counted(p))
    case Counted(p) =>
      Goes(s.(f := Flags(Put(s.f.dirty, p, true), Put(s.f.hint, p, true))), t, Marked(p))
    case Marked(p) => Goes(Log(s, p), t, Idle)
  }

  /** A record on page p. */
  function Log(s: State, p: int): State { s.(d := s.d.(wal := s.d.wal + [p])) }

  /** Under the header lock: nothing to push when the page is in the queue already. */
  function Check(s: State, t: int, p: int): State {
    Goes(s, t, if s.rplsn(p) != INVALID_PLSN then Counted(p) else Entered(p, s.recovery))
  }

  /** The compare-and-swap of PreOccupyTail; on failure the word is read again. */
  function Swap(s: State, t: int, p: int, floor: int, seen: Word, plsn: int): State {
    if s.q.word == seen then
      Goes(s.(q := Pushed(s.q, t, p, plsn), uncounted := s.uncounted + {|s.q.h.pushed|}, ver := s.ver + 1), t,
           Swapped(p, floor, OldTail(seen), plsn, |s.q.h.pushed|))
    else
      Goes(s, t, Loaded(p, floor, s.q.word, s.ver))
  }

  function Pushed(q: Queue, t: int, p: int, plsn: int): Queue {
    q.(word := Word(if q.word.head.Null? then At(p) else q.word.head, Last(p)),
       h := Append(q.h, t, p, plsn))
  }

  function Append(h: History, t: int, p: int, plsn: int): History {
    h.(pushed := h.pushed + [Entry(p, plsn, t)], slot := Put(h.slot, p, |h.pushed| + 1))
  }

  function OldTail(seen: Word): Ptr {
    if seen.head.At? && seen.tail.Last? then At(seen.tail.page) else Null
  }

  /** One step of BgDiskPageMasterWriter::Run, ScanDirtyListForFlush and AdvanceHeadAfterFlush. */
  function MasterApply(s: State, cap: nat, vecFull: bool): State
    requires s.master.AdvNext? ==> s.master.cur.At? && s.master.left > 0
  {
    match s.master
    case Start => s.(master := Began(Plsn(|s.d.wal|)))
    case Began(max) =>
      var n: nat := if s.count < 0 then 0 else if s.count < cap then s.count else cap;
      s.(master := ScanVec(max, |s.d.wal|, n))
    case ScanVec(max, mark, n) =>
      if s.vec == []
      then s.(master := ScanPage(max, mark, n, s.q.word.head, 0))
      else TakeParked(s, s.vec[0])
    case ScanPage(max, mark, left, cur, adv) =>
      if left == 0 || cur.Null?
      then s.(master := Flushing(max, mark, adv))
      else Offer(s, cur.page).(master := ScanNext(max, mark, left - 1, cur.page, adv + 1))
    case ScanNext(max, mark, left, here, adv) =>
      s.(master := ScanPage(max, mark, left, s.q.next(here), adv))
    case Flushing(max, _, adv) =>
      s.(master := if adv == 0 then EmptyLoad(max) else AdvNext(adv, s.q.word.head))
    case AdvNext(left, cur) => s.(master := AdvLock(left - 1, cur.page, s.q.next(cur.page)))
    case AdvLock(left, here, nxt) => Park(s, left, here, nxt, vecFull)
    case AdvHead(left, here, nxt, plsn, seen) =>
      if s.q.next(here).Null? && seen.tail != Last(here)
      then s  // the successor has taken the tail and has not linked itself yet: spin
      else s.(master := AdvCas(left, here, nxt, plsn, seen, s.q.next(here)))
    case AdvCas(left, here, nxt, plsn, seen, succ) =>
      if s.q.word == seen
      then s.(q := Popped(s.q, succ, s.rplsn(here)), ver := s.ver + 1, master := AdvRem(left, here, nxt, plsn))
      else s.(master := AdvHead(left, here, nxt, plsn, s.q.word))
    case AdvRem(left, here, nxt, plsn) => RemoveEntry(s, left, here, nxt, plsn)
    case Publish(plsn) => s.(recovery := plsn, master := Start)
    case EmptyLoad(max) =>
      s.(master := if s.q.word.head.At? then Start else EmptyCas(max, s.q.word))
    case EmptyCas(max, seen) =>
      if s.q.word == seen
      then s.(q := s.q.(word := Word(Null, Tag(max))), ver := s.ver + 1, master := EmptyPublish(max))
      else s.(master := Start)
    case EmptyPublish(max) => s.(recovery := max, master := Start)
  }

  /** A page parked by an earlier round: flush it if dirty, and let it be pushed again. */
  function TakeParked(s: State, p: int): State
    requires s.vec != []
  {
    Offer(s, p).(vec := s.vec[1..], rplsn := Put(s.rplsn, p, INVALID_PLSN))
  }

  /** A dirty page is handed to the slave writers. A write of it begun earlier does not count for them. */
  function Offer(s: State, p: int): State {
    if s.f.dirty(p) then s.(d := Reissued(s.d, p), cand := s.cand + {p}) else s
  }

  function Reissued(d: Store, p: int): Store {
    if d.io(p).Writing? then d.(io := Put(d.io, p, Writing(d.io(p).upto, false))) else d
  }

  /** Under the header lock: a page dirty again is parked; without memory to park it, stop here. */
  function Park(s: State, left: nat, here: int, nxt: Ptr, vecFull: bool): State {
    if s.f.dirty(here) && vecFull
    then s.(master := Publish(s.rplsn(here)))
    else s.(vec := if s.f.dirty(here) then s.vec + [here] else s.vec,
            master := AdvHead(left, here, nxt, s.rplsn(here), s.q.word))
  }

  function Popped(q: Queue, succ: Ptr, tag: int): Queue {
    q.(word := if succ.Null? then Word(Null, Tag(tag)) else Word(succ, q.word.tail),
       h := q.h.(removed := q.h.removed + 1))
  }

  function RemoveEntry(s: State, left: nat, here: int, nxt: Ptr, plsn: int): State {
    s.(q := s.q.(next := Put(s.q.next, here, Null)),
       rplsn := if s.f.dirty(here) then s.rplsn else Put(s.rplsn, here, INVALID_PLSN),
       count := s.count - 1,
       master := if left == 0 then Publish(plsn) else AdvNext(left, nxt))
  }
}
