/**
  The dirty page queue and the flush handshake together. The master hands out pages by filling the
  candidate array, publishes it, wakes the slaves and waits; a slave at work on a slot writes the page
  it finds there, or skips it when it is clean. In runs in which no claim of a published round stops
  short of the word's batch, spurious wake-ups included, the master goes on only when every page it
  handed out was flushed, so the recovery PLSN it publishes is a safe redo point.
*/
module FlushRecovery {
  import opened Common
  import Q = DirtyPageQueue
  import I = DirtyPageInvariant
  import S = DirtyPageSafety
  import H = FlushHandshake
  import B = FlushBarrier
  import R = FlushRounds
  import W = FlushWakeups
  import C = CrashRecovery

  /**
    `slots` is the candidate array and `size` the number of slots filled in this round; `writing(i)` is
    the page slave i is writing.
  */
  datatype State = State(q: Q.State, h: H.State, slots: int -> int, size: nat, writing: int -> Q.Ptr)

  datatype Action =
    | Queue(step: Q.Action)
    | Handshake(move: H.Action)
    | StartSlot(slave: int)
    | FinishSlot(slave: int)
    | SkipSlot(slave: int)

  const Nobody: int -> Q.Ptr := _ => Q.Null

  const Init: State := State(Q.Init, H.Init, _ => 0, 0, Nobody)

  /** The page that step a of the queue hands out. */
  function Offers(q: Q.State, a: Q.Action): Q.Ptr {
    var m := q.master;
    if !a.MasterStep? then Q.Null
    else if m.ScanVec? && q.vec != [] && q.f.dirty(q.vec[0]) then Q.At(q.vec[0])
    else if m.ScanPage? && 0 < m.left && m.cur.At? && q.f.dirty(m.cur.page) then m.cur
    else Q.Null
  }

  ghost predicate AtWork(c: H.Config, s: State, i: int) { 0 <= i < c.slaves && s.h.slaves(i).Flushing? }

  /** The page in the slot that slave i is at. */
  function Page(s: State, i: int): int
    requires s.h.slaves(i).Flushing?
  {
    s.slots(s.h.slaves(i).cur)
  }

  ghost predicate Enabled(c: H.Config, s: State, a: Action) {
    match a
    case Queue(a) => QueueEnabled(c, s, a)
    case Handshake(a) => HandshakeEnabled(c, s, a)
    case StartSlot(i) =>
      AtWork(c, s, i) && s.writing(i).Null? && Q.Enabled(s.q, Q.FlushStart(Page(s, i), Page(s, i) in s.q.cand))
    case FinishSlot(i) => AtWork(c, s, i) && s.writing(i).At? && Q.Enabled(s.q, Q.FlushEnd(s.writing(i).page))
    case SkipSlot(i) => AtWork(c, s, i) && s.writing(i).Null? && Q.Enabled(s.q, Q.SkipClean(Page(s, i)))
  }

  /**
    Writers, other flushes and the master. There are as many buffers as the array has slots, and the
    master scans and goes on in its turn.
  */
  ghost predicate QueueEnabled(c: H.Config, s: State, a: Q.Action) {
    && Q.Enabled(s.q, a) && !a.SkipClean?
    && (a.FlushStart? ==> !a.slave)
    && (a.FlushEnd? ==> forall i :: s.writing(i) != Q.At(a.target))
    && (a.Begin? ==> 0 <= a.target < c.capacity)
    && (a.MasterStep? && s.q.master.Began? ==> s.h.master.Scan?)
    && (a.MasterStep? && s.q.master.Flushing? ==> s.h.master.Reset?)
  }

  /** Set(0) comes before the scan; what was filled is published, and then waited for. */
  predicate HandshakeEnabled(c: H.Config, s: State, a: H.Action) {
    && H.Enabled(c, s.h, a)
    && (a.SlaveStep? ==> !s.h.slaves(a.slave).Flushing?)
    && (a.MasterStep? && s.h.master.Reset? ==> s.q.master.Began?)
    && (a.MasterStep? && s.h.master.Scan? ==> s.q.master.Flushing? && a.count == s.size)
  }

  ghost function Apply(c: H.Config, s: State, a: Action): State
    requires Enabled(c, s, a)
  {
    match a
    case Queue(a) =>
      var p, z := Offers(s.q, a), s.(q := Q.Apply(s.q, a));
      if p.At? then z.(slots := Put(s.slots, s.size, p.page), size := s.size + 1) else z
    case Handshake(a) =>
      s.(h := H.Apply(c, s.h, a), size := if a.MasterStep? && s.h.master.Reset? then 0 else s.size)
    case StartSlot(i) =>
      var p := Page(s, i);
      s.(q := Q.StartIo(s.q, p, p in s.q.cand), writing := Put(s.writing, i, Q.At(p)))
    case FinishSlot(i) =>
      s.(q := Q.TerminateIo(s.q, s.writing(i).page), h := H.SlaveApply(s.h, i), writing := Put(s.writing, i, Q.Null))
    case SkipSlot(i) =>
      s.(q := s.q.(cand := s.q.cand - {Page(s, i)}), h := H.SlaveApply(s.h, i), writing := Put(s.writing, i, Q.Null))
  }

  // ---- The invariant

  /** Where master and handshake stand together. */
  predicate PhaseOk(m: Q.Master, h: H.Master) {
    match h
    case Reset => !m.ScanVec? && !m.ScanPage? && !m.ScanNext?
    case Scan => m.Began? || I.ScanPhase(m)
    case _ => m.Flushing?
  }

  predicate SizeOk(h: H.State, size: nat) {
    && (h.master.Publish? || h.master.PublishRead? ==> h.master.size == size)
    && (B.Published(h.master) ==> h.word.valid == size)
  }

  /** Slot k is not claimed in this round, or its claimant is on the way to it. */
  predicate Open(h: H.State, k: int) {
    B.Published(h.master) ==> h.word.start <= k || B.Covers(h.slaves(h.claimant(k)), k)
  }

  predicate HasSlot(slots: int -> int, size: nat, h: H.State, p: int) {
    exists k :: 0 <= k < size && slots(k) == p && Open(h, k)
  }

  /** Every candidate has a slot that is still to be flushed. */
  predicate CandOk(slots: int -> int, size: nat, h: H.State, cand: set<int>) {
    if h.master.Reset? then cand == {} else forall p | p in cand :: HasSlot(slots, size, h, p)
  }

  predicate Working(w: H.Slave) { w.Flushing? ==> 0 <= w.cur < w.hi }

  /** Slave i claimed slot k in this round. */
  predicate Fresh(h: H.State, i: int, k: int) {
    B.Published(h.master) && k < h.word.valid && k < h.word.start && h.claimant(k) == i
  }

  /** With a claim of this round a slave writes the page of its slot, and the end of a write reports a candidate. */
  predicate WriterOk(c: H.Config, h: H.State, page: Q.Ptr, slots: int -> int, io: int -> Q.Io, cand: set<int>, i: int) {
    page.At? ==>
      && 0 <= i < c.slaves && h.slaves(i).Flushing? && io(page.page).Writing?
      && (Fresh(h, i, h.slaves(i).cur) ==>
            slots(h.slaves(i).cur) == page.page && (page.page in cand ==> io(page.page).slave))
  }

  ghost predicate WritingOk(c: H.Config, s: State) {
    && (forall i :: WriterOk(c, s.h, s.writing(i), s.slots, s.q.d.io, s.q.cand, i))
    && (forall i, j | i != j && s.writing(i).At? :: s.writing(i) != s.writing(j))
  }

  ghost predicate Inv(c: H.Config, s: State) {
    && I.Inv(s.q) && S.Safe(s.q) && R.AwakeInv(c, s.h) && (forall i :: Working(s.h.slaves(i)))
    && PhaseOk(s.q.master, s.h.master)
    && SizeOk(s.h, s.size)
    && CandOk(s.slots, s.size, s.h, s.q.cand)
    && WritingOk(c, s)
  }

  /** Step a makes no claim that wraps the start, and in a published round none that stops short. */
  predicate Meets(s: State, a: Action) {
    a.Handshake? ==> R.Bounded(s.h, a.move) && (B.Published(s.h.master) ==> !R.Short(s.h, a.move))
  }

  // ---- Steps of the queue

  /** The queue part of the invariant. */
  lemma NextQueue(q: Q.State, a: Q.Action)
    requires I.Inv(q) && S.Safe(q) && Q.Enabled(q, a) && S.Waits(q, a)
    ensures I.Inv(Q.Apply(q, a)) && S.Safe(Q.Apply(q, a))
  {
    hide I.Inv, S.Safe, Q.Apply, Q.Enabled;
    S.NextInv(q, a);
    S.NextIsSafe(q, a);
  }

  /** Only an offer adds a candidate, and no step but the slave's own touches a write of its page. */
  lemma QueueFrame(q: Q.State, a: Q.Action)
    requires Q.Enabled(q, a) && !a.SkipClean?
    ensures Offers(q, a).Null? ==> Q.Apply(q, a).cand <= q.cand
    ensures Offers(q, a).At? ==> Q.Apply(q, a).cand == q.cand + {Offers(q, a).page}
    ensures Offers(q, a).Null? ==>
      forall p | q.d.io(p).Writing? && a != Q.FlushEnd(p) :: Q.Apply(q, a).d.io(p) == q.d.io(p)
    ensures forall p | q.d.io(p).Writing? && a != Q.FlushEnd(p) :: Q.Apply(q, a).d.io(p).Writing?
  {
  }

  lemma QueuePhase(q: Q.State, a: Q.Action, h: H.Master)
    requires Q.Enabled(q, a) && PhaseOk(q.master, h)
    requires a.MasterStep? && q.master.Began? ==> h.Scan?
    requires a.MasterStep? && q.master.Flushing? ==> h.Reset?
    ensures PhaseOk(Q.Apply(q, a).master, h)
    ensures Offers(q, a).At? ==> h.Scan?
  {
  }

  lemma OfferedCand(slots: int -> int, size: nat, h: H.State, cand: set<int>, x: int)
    requires CandOk(slots, size, h, cand) && h.master.Scan?
    ensures CandOk(Put(slots, size, x), size + 1, h, cand + {x})
  {
    var more := Put(slots, size, x);
    assert more(size) == x && Open(h, size);
    forall p | p in cand ensures HasSlot(more, size + 1, h, p) {
      assert HasSlot(slots, size, h, p);
      var k :| 0 <= k < size && slots(k) == p && Open(h, k);
      assert more(k) == p;
    }
  }

  lemma QueueInv(c: H.Config, s: State, a: Q.Action)
    requires Inv(c, s) && QueueEnabled(c, s, a)
    ensures Inv(c, Apply(c, s, Queue(a)))
  {
    hide I.Inv, S.Safe, R.AwakeInv, Q.Apply, Q.Enabled, PhaseOk, HasSlot;
    assert S.Waits(s.q, a);
    NextQueue(s.q, a);
    QueueFrame(s.q, a);
    QueuePhase(s.q, a, s.h.master);
    var z := Apply(c, s, Queue(a));
    if Offers(s.q, a).At? { OfferedCand(s.slots, s.size, s.h, s.q.cand, Offers(s.q, a).page); }
    forall i ensures WriterOk(c, z.h, z.writing(i), z.slots, z.q.d.io, z.q.cand, i) {
      assert WriterOk(c, s.h, s.writing(i), s.slots, s.q.d.io, s.q.cand, i);
    }
  }

  // ---- Steps of the handshake

  /** A claim of the round that does not stop short takes the slots of the batch over. */
  lemma ClaimOpen(c: H.Config, h: H.State, i: int, k: int)
    requires R.AwakeInv(c, h) && H.Enabled(c, h, H.SlaveStep(i)) && R.Bounded(h, H.SlaveStep(i))
    requires !h.slaves(i).Flushing? && (B.Published(h.master) ==> !R.Short(h, H.SlaveStep(i)) && k < h.word.valid)
    requires Open(h, k)
    ensures Open(H.SlaveApply(h, i), k)
  {
    hide R.AwakeInv;
    WordFacts(c, h);
  }

  lemma WordFacts(c: H.Config, h: H.State)
    requires R.AwakeInv(c, h)
    ensures B.WordOk(h.master, h.word)
  {
  }

  lemma SlaveCand(c: H.Config, s: State, i: int)
    requires Inv(c, s) && HandshakeEnabled(c, s, H.SlaveStep(i)) && Meets(s, Handshake(H.SlaveStep(i)))
    ensures CandOk(s.slots, s.size, H.SlaveApply(s.h, i), s.q.cand)
  {
    hide I.Inv, S.Safe, R.AwakeInv, Open, WritingOk;
    forall p | p in s.q.cand && !s.h.master.Reset? ensures HasSlot(s.slots, s.size, H.SlaveApply(s.h, i), p) {
      assert HasSlot(s.slots, s.size, s.h, p);
      var k :| 0 <= k < s.size && s.slots(k) == p && Open(s.h, k);
      ClaimOpen(c, s.h, i, k);
      assert s.slots(k) == p;
    }
  }

  /** When the master has seen every slave idle, or has filled no slot, no candidate is left. */
  lemma NoneLeft(slots: int -> int, size: nat, h: H.State, cand: set<int>)
    requires CandOk(slots, size, h, cand) && !h.master.Reset? && forall k | 0 <= k < size :: !Open(h, k)
    ensures cand == {}
  {
    forall p ensures p !in cand {
      assert p in cand ==> HasSlot(slots, size, h, p);
    }
  }

  /** A step of the master that only moves it on, within the round or before the publication. */
  lemma SameCand(slots: int -> int, size: nat, h: H.State, z: H.State, cand: set<int>)
    requires CandOk(slots, size, h, cand) && !h.master.Reset? && !z.master.Reset?
    requires forall k | 0 <= k < size && Open(h, k) :: Open(z, k)
    ensures CandOk(slots, size, z, cand)
  {
    forall p | p in cand ensures HasSlot(slots, size, z, p) {
      assert HasSlot(slots, size, h, p);
      var k :| 0 <= k < size && slots(k) == p && Open(h, k);
      assert slots(k) == p && Open(z, k);
    }
  }

  lemma NoneOpen(c: H.Config, h: H.State)
    requires R.AwakeInv(c, h) && h.master.Waiting? && c.slaves <= h.master.next
    ensures forall k | 0 <= k < h.word.valid :: !Open(h, k)
  {
    R.IdleNow(c, h);
    forall k | 0 <= k < h.word.valid ensures !Open(h, k) {
      var j := h.claimant(k);
      assert !h.slaves(j).Flushing?;
    }
  }

  lemma MasterCand(c: H.Config, s: State, count: nat)
    requires Inv(c, s) && HandshakeEnabled(c, s, H.MasterStep(count))
    ensures var z := Apply(c, s, Handshake(H.MasterStep(count)));
      PhaseOk(z.q.master, z.h.master) && SizeOk(z.h, z.size) && CandOk(z.slots, z.size, z.h, z.q.cand)
  {
    hide I.Inv, S.Safe, R.AwakeInv, WritingOk, CandOk;
    var m, z := s.h.master, H.MasterApply(c, s.h, count);
    WordFacts(c, s.h);
    if m.Waiting? && c.slaves <= m.next {
      NoneOpen(c, s.h);
      NoneLeft(s.slots, s.size, s.h, s.q.cand);
      EmptyCand(s.slots, s.size, z);
    } else if m.Scan? && s.size == 0 {
      NoneLeft(s.slots, s.size, s.h, s.q.cand);
      EmptyCand(s.slots, s.size, z);
    } else if m.Reset? {
      ResetCand(s.slots, s.size, s.h, s.q.cand);
      EmptyCand(s.slots, 0, z);
    } else {
      SameCand(s.slots, s.size, s.h, z, s.q.cand);
    }
  }

  lemma EmptyCand(slots: int -> int, size: nat, h: H.State)
    ensures CandOk(slots, size, h, {})
  {
  }

  lemma ResetCand(slots: int -> int, size: nat, h: H.State, cand: set<int>)
    requires CandOk(slots, size, h, cand) && h.master.Reset?
    ensures cand == {}
  {
  }

  lemma HandshakeInv(c: H.Config, s: State, a: H.Action)
    requires Inv(c, s) && HandshakeEnabled(c, s, a) && Meets(s, Handshake(a))
    ensures Inv(c, Apply(c, s, Handshake(a)))
  {
    hide I.Inv, S.Safe, R.AwakeInv, CandOk;
    R.NextAwake(c, s.h, a);
    WordFacts(c, s.h);
    var z := Apply(c, s, Handshake(a));
    match a {
      case MasterStep(count) => MasterCand(c, s, count);
      case SlaveStep(i) => SlaveCand(c, s, i);
      case Spurious(i) => SpuriousCand(s.slots, s.size, s.h, s.q.cand, i);
    }
    forall i ensures Working(z.h.slaves(i)) && WriterOk(c, z.h, z.writing(i), z.slots, z.q.d.io, z.q.cand, i) {
      assert WriterOk(c, s.h, s.writing(i), s.slots, s.q.d.io, s.q.cand, i) && Working(s.h.slaves(i));
      HandWriter(c, s, a, i);
    }
  }

  /** A slave that is writing keeps its slot, and a claim of another slave does not make its claim a fresh one. */
  lemma HandWriter(c: H.Config, s: State, a: H.Action, i: int)
    requires HandshakeEnabled(c, s, a) && Meets(s, Handshake(a)) && B.WordOk(s.h.master, s.h.word)
    requires WriterOk(c, s.h, s.writing(i), s.slots, s.q.d.io, s.q.cand, i) && Working(s.h.slaves(i))
    ensures WriterOk(c, H.Apply(c, s.h, a), s.writing(i), s.slots, s.q.d.io, s.q.cand, i)
    ensures Working(H.Apply(c, s.h, a).slaves(i))
  {
    var z := H.Apply(c, s.h, a);
    if s.writing(i).At? {
      var k := s.h.slaves(i).cur;
      assert z.slaves(i) == s.h.slaves(i);
      assert Fresh(z, i, k) ==> Fresh(s.h, i, k);
    }
  }

  lemma SpuriousCand(slots: int -> int, size: nat, h: H.State, cand: set<int>, i: int)
    requires CandOk(slots, size, h, cand) && h.slaves(i).Blocked?
    ensures CandOk(slots, size, H.Goes(h, i, H.Notified), cand)
  {
    if !h.master.Reset? { SameCand(slots, size, h, H.Goes(h, i, H.Notified), cand); }
  }

  // ---- Steps of a slave at work

  lemma StartSlotInv(c: H.Config, s: State, i: int)
    requires Inv(c, s) && Enabled(c, s, StartSlot(i))
    ensures Inv(c, Apply(c, s, StartSlot(i)))
  {
    hide I.Inv, S.Safe, R.AwakeInv, CandOk;
    var p := Page(s, i);
    NextQueue(s.q, Q.FlushStart(p, p in s.q.cand));
    var z := Apply(c, s, StartSlot(i));
    forall j ensures WriterOk(c, z.h, z.writing(j), z.slots, z.q.d.io, z.q.cand, j) {
      assert WriterOk(c, s.h, s.writing(j), s.slots, s.q.d.io, s.q.cand, j);
    }
  }

  /** The report of slave i: a page that stays a candidate has its slot elsewhere. */
  lemma ReportCand(slots: int -> int, size: nat, h: H.State, cand: set<int>, left: set<int>, i: int)
    requires CandOk(slots, size, h, cand) && left <= cand && h.slaves(i).Flushing?
    requires B.Published(h.master) ==> h.word.valid == size
    requires Fresh(h, i, h.slaves(i).cur) ==> slots(h.slaves(i).cur) !in left
    ensures CandOk(slots, size, H.SlaveApply(h, i), left)
  {
    var z := H.SlaveApply(h, i);
    forall p | p in left && !h.master.Reset? ensures HasSlot(slots, size, z, p) {
      assert HasSlot(slots, size, h, p);
      var k :| 0 <= k < size && slots(k) == p && Open(h, k);
      assert slots(k) == p && Open(z, k);
    }
  }

  lemma ReportInv(c: H.Config, s: State, i: int, z: State)
    requires Inv(c, s) && AtWork(c, s, i)
    requires z.h == H.SlaveApply(s.h, i) && z.slots == s.slots && z.size == s.size && z.q.master == s.q.master
    requires z.q.cand <= s.q.cand && I.Inv(z.q) && S.Safe(z.q)
    requires Fresh(s.h, i, s.h.slaves(i).cur) ==> Page(s, i) !in z.q.cand
    requires z.writing == Put(s.writing, i, Q.Null)
    requires forall j | j != i && s.writing(j).At? :: z.q.d.io(s.writing(j).page) == s.q.d.io(s.writing(j).page)
    ensures Inv(c, z)
  {
    hide I.Inv, S.Safe, R.AwakeInv, CandOk;
    R.NextAwake(c, s.h, H.SlaveStep(i));
    ReportCand(s.slots, s.size, s.h, s.q.cand, z.q.cand, i);
    forall j ensures Working(z.h.slaves(j)) {
      assert Working(s.h.slaves(j));
    }
    forall j ensures WriterOk(c, z.h, z.writing(j), z.slots, z.q.d.io, z.q.cand, j) {
      assert WriterOk(c, s.h, s.writing(j), s.slots, s.q.d.io, s.q.cand, j);
    }
  }

  lemma FinishSlotInv(c: H.Config, s: State, i: int)
    requires Inv(c, s) && Enabled(c, s, FinishSlot(i))
    ensures Inv(c, Apply(c, s, FinishSlot(i)))
  {
    hide I.Inv, S.Safe, R.AwakeInv, CandOk;
    var p := s.writing(i).page;
    assert WriterOk(c, s.h, s.writing(i), s.slots, s.q.d.io, s.q.cand, i);
    NextQueue(s.q, Q.FlushEnd(p));
    ReportInv(c, s, i, Apply(c, s, FinishSlot(i)));
  }

  lemma SkipSlotInv(c: H.Config, s: State, i: int)
    requires Inv(c, s) && Enabled(c, s, SkipSlot(i))
    ensures Inv(c, Apply(c, s, SkipSlot(i)))
  {
    hide I.Inv, S.Safe, R.AwakeInv, CandOk;
    NextQueue(s.q, Q.SkipClean(Page(s, i)));
    ReportInv(c, s, i, Apply(c, s, SkipSlot(i)));
  }

  // ---- Runs

  lemma NextInv(c: H.Config, s: State, a: Action)
    requires Inv(c, s) && Enabled(c, s, a) && Meets(s, a)
    ensures Inv(c, Apply(c, s, a))
  {
    hide Inv;
    match a
    case Queue(a) => QueueInv(c, s, a);
    case Handshake(a) => HandshakeInv(c, s, a);
    case StartSlot(i) => StartSlotInv(c, s, i);
    case FinishSlot(i) => FinishSlotInv(c, s, i);
    case SkipSlot(i) => SkipSlotInv(c, s, i);
  }

  ghost predicate Execution(c: H.Config, states: seq<State>, actions: seq<Action>) {
    && 0 < c.slaves && |states| == |actions| + 1 && states[0] == Init
    && forall i | 0 <= i < |actions| ::
         Enabled(c, states[i], actions[i]) && states[i + 1] == Apply(c, states[i], actions[i])
  }

  /** No claim wraps the start, and no claim of a published round stops short. */
  ghost predicate MeetingExecution(c: H.Config, states: seq<State>, actions: seq<Action>) {
    Execution(c, states, actions) && forall i | 0 <= i < |actions| :: Meets(states[i], actions[i])
  }

  lemma InitInv(c: H.Config)
    requires 0 < c.slaves
    ensures Inv(c, Init)
  {
    hide I.Inv, R.AwakeInv;
    S.InitInv();
    R.ExecutionAwake(c, [H.Init], [], 0);
  }

  lemma {:induction false} ExecutionInv(c: H.Config, states: seq<State>, actions: seq<Action>, i: nat)
    requires MeetingExecution(c, states, actions) && i < |states|
    ensures Inv(c, states[i])
  {
    hide Inv, Enabled, Apply, Meets;
    if i == 0 {
      InitInv(c);
    } else {
      ExecutionInv(c, states, actions, i - 1);
      assert Enabled(c, states[i - 1], actions[i - 1]) && Meets(states[i - 1], actions[i - 1]);
      NextInv(c, states[i - 1], actions[i - 1]);
    }
  }

  /** The step of the queue in a step of both, if there is one. */
  lemma NextSafe(c: H.Config, s: State, a: Action, r: int)
    requires Inv(c, s) && Enabled(c, s, a) && I.SafePoint(s.q.d, r) && r <= Q.Plsn(|s.q.d.wal|)
    ensures var z := Apply(c, s, a); I.SafePoint(z.q.d, r) && r <= Q.Plsn(|z.q.d.wal|)
  {
    hide I.Inv, I.SafePoint, S.Safe, R.AwakeInv, CandOk, WritingOk;
    match a
    case Queue(a) => S.NextSafe(s.q, a, r);
    case Handshake(a) =>
    case StartSlot(i) => S.NextSafe(s.q, Q.FlushStart(Page(s, i), Page(s, i) in s.q.cand), r);
    case FinishSlot(i) => S.NextSafe(s.q, Q.FlushEnd(s.writing(i).page), r);
    case SkipSlot(i) =>
  }

  lemma {:induction false} SafePointsStay(c: H.Config, states: seq<State>, actions: seq<Action>, i: nat, j: nat, r: int)
    requires MeetingExecution(c, states, actions) && i <= j < |states|
    requires I.SafePoint(states[i].q.d, r) && r <= Q.Plsn(|states[i].q.d.wal|)
    ensures I.SafePoint(states[j].q.d, r) && r <= Q.Plsn(|states[j].q.d.wal|)
  {
    hide Inv, Enabled, Apply, I.SafePoint, Meets;
    if i < j {
      SafePointsStay(c, states, actions, i, j - 1, r);
      ExecutionInv(c, states, actions, j - 1);
      assert Enabled(c, states[j - 1], actions[j - 1]);
      NextSafe(c, states[j - 1], actions[j - 1], r);
    }
  }

  lemma SafeNow(c: H.Config, s: State)
    requires Inv(c, s)
    ensures I.SafePoint(s.q.d, s.q.recovery) && s.q.recovery <= Q.Plsn(|s.q.d.wal|)
    ensures forall p :: 0 <= s.q.d.disk(p) <= |s.q.d.wal|
  {
    hide I.Inv, R.AwakeInv, CandOk, WritingOk;
    S.RecoveryOwed(s.q);
    C.DiskBounds(s.q);
  }

  /**
    In every run of queue and handshake, spurious wake-ups included, in which no claim wraps the start and
    no claim of a published round stops short: after a crash in any state, redo from the recovery PLSN
    published then, or at any earlier time, rebuilds every page.
  */
  lemma RoundsRecover(c: H.Config, states: seq<State>, actions: seq<Action>, i: nat, j: nat)
    requires MeetingExecution(c, states, actions) && i <= j < |states|
    ensures forall p :: 0 <= states[j].q.d.disk(p) <= |states[j].q.d.wal|
    ensures I.SafePoint(states[j].q.d, states[i].q.recovery) && C.Rebuilds(states[j].q.d, states[i].q.recovery)
  {
    hide Inv, I.SafePoint, C.Rebuilds, Meets;
    ExecutionInv(c, states, actions, i);
    SafeNow(c, states[i]);
    SafePointsStay(c, states, actions, i, j, states[i].q.recovery);
    ExecutionInv(c, states, actions, j);
    SafeNow(c, states[j]);
    C.RedoRebuildsIff(states[j].q.d, states[i].q.recovery);
  }

  // ---- Without spurious wake-ups

  /** A slave wakes up by itself. */
  predicate Spurious(a: Action) { a.Handshake? && a.move.Spurious? }

  ghost predicate QuietExecution(c: H.Config, states: seq<State>, actions: seq<Action>) {
    Execution(c, states, actions) && forall i | 0 <= i < |actions| :: !Spurious(actions[i])
  }

  /** The part of a step in the handshake keeps what holds in quiet runs. */
  lemma NextQuiet(c: H.Config, s: State, a: Action)
    requires B.Inv(c, s.h) && W.QuietInv(c, s.h) && W.Fits(c) && Enabled(c, s, a) && !Spurious(a)
    ensures Meets(s, a) && B.Inv(c, Apply(c, s, a).h) && W.QuietInv(c, Apply(c, s, a).h)
  {
    hide B.Inv, W.QuietInv, Q.Enabled, Q.Apply;
    match a
    case Queue(_) =>
    case Handshake(move) => W.QuietNext(c, s.h, move);
    case StartSlot(_) =>
    case FinishSlot(i) => W.QuietNext(c, s.h, H.SlaveStep(i));
    case SkipSlot(i) => W.QuietNext(c, s.h, H.SlaveStep(i));
  }

  lemma {:induction false} QuietMeets(c: H.Config, states: seq<State>, actions: seq<Action>, i: nat)
    requires QuietExecution(c, states, actions) && W.Fits(c) && i < |states|
    ensures B.Inv(c, states[i].h) && W.QuietInv(c, states[i].h) && (i < |actions| ==> Meets(states[i], actions[i]))
  {
    hide B.Inv, W.QuietInv, Enabled, Apply, Meets;
    if i == 0 {
      W.QuietExecutionInv(c, [H.Init], [], 0);
    } else {
      QuietMeets(c, states, actions, i - 1);
      assert Enabled(c, states[i - 1], actions[i - 1]) && !Spurious(actions[i - 1]);
      NextQuiet(c, states[i - 1], actions[i - 1]);
    }
    if i < |actions| {
      assert Enabled(c, states[i], actions[i]) && !Spurious(actions[i]);
      NextQuiet(c, states[i], actions[i]);
    }
  }

  /** Every run without spurious wake-ups is such a run. */
  lemma QuietRecovery(c: H.Config, states: seq<State>, actions: seq<Action>, i: nat, j: nat)
    requires QuietExecution(c, states, actions) && W.Fits(c) && i <= j < |states|
    ensures forall p :: 0 <= states[j].q.d.disk(p) <= |states[j].q.d.wal|
    ensures I.SafePoint(states[j].q.d, states[i].q.recovery) && C.Rebuilds(states[j].q.d, states[i].q.recovery)
  {
    hide Enabled, Apply, Meets, I.SafePoint, C.Rebuilds;
    forall n | 0 <= n < |actions| ensures Meets(states[n], actions[n]) {
      QuietMeets(c, states, actions, n);
    }
    RoundsRecover(c, states, actions, i, j);
  }
}
