/**
  The master and slave page writers, as an interleaved transition system.

  The master fills an array with candidate pages, publishes it by writing the 64-bit word
  {validSize, startFlushLoc}, wakes every slave and waits until each reports that it is not
  flushing. Slaves claim batches of the array with compare-and-swap on the word, and sleep on a
  condition variable when nothing is left. One step is one access to shared memory; a step taken
  under a slave's mutex waits until the mutex is free.
*/
module FlushHandshake {
  import opened Common

  const BATCH: int := 1000
  const UINT32: int := 0x1_0000_0000

  datatype Word = Word(valid: int, start: int)

  /** Where a slave stands. In `Locked` and `Tested` it holds its mutex. */
  datatype Slave =
    | Entering
    | Locked
    | Tested(start: int)
    | Blocked
    | Notified
    | Seizing
    | Sized(total: int)
    | Read(total: int, seen: Word)
    | Flushing(cur: int, hi: int)
    | Finished
    | Rechecked(start: int)
  {
    predicate HasMutex() { Locked? || Tested? }
  }

  /** Where the master stands. `Waiting(n)` with n slaves seen idle; with all of them the round is over. */
  datatype Master =
    | Reset
    | Scan
    | Publish(size: int, origin: int)
    | PublishRead(size: int, origin: int, seen: Word)
    | Waking(next: int)
    | Waiting(next: int)

  /**
    `flushing(i)` is m_isFlushing of slave i. The last three fields are history of the round: the
    slave that claimed an array slot (-1 for none), the number of times a slot was flushed, and the
    number of claims of slave i past the end.
  */
  datatype State = State(
    word: Word,
    flushing: int -> bool,
    slaves: int -> Slave,
    master: Master,
    claimant: int -> int,
    done: int -> int,
    over: int -> int)

  /** The number of slaves and the size of the candidate array. */
  datatype Config = Config(slaves: nat, capacity: nat)

  datatype Action =
    | SlaveStep(slave: int)
    | Spurious(slave: int)
    | MasterStep(count: nat)

  const Unclaimed: int -> int := _ => -1
  const Zero: int -> int := _ => 0

  const Init: State := State(Word(0, 0), _ => false, _ => Entering, Reset, Unclaimed, Zero, Zero)

  predicate Enabled(c: Config, s: State, a: Action) {
    match a
    case SlaveStep(i) => 0 <= i < c.slaves && !s.slaves(i).Blocked?
    case Spurious(i) => 0 <= i < c.slaves && s.slaves(i).Blocked?
    case MasterStep(count) =>
      && (s.master.Scan? ==> count <= c.capacity)
      && (s.master.Waking? && s.master.next < c.slaves ==> !s.slaves(s.master.next).HasMutex())
      && (s.master.Waiting? && s.master.next < c.slaves ==> !s.slaves(s.master.next).HasMutex())
  }

  function Apply(c: Config, s: State, a: Action): State
    requires Enabled(c, s, a)
  {
    match a
    case SlaveStep(i) => SlaveApply(s, i)
    case Spurious(i) => Goes(s, i, Notified)
    case MasterStep(count) => MasterApply(c, s, count)
  }

  function Goes(s: State, i: int, w: Slave): State { s.(slaves := Put(s.slaves, i, w)) }

  /** One step of WaitNextFlush, SeizeDirtyPageListForFlush and FlushCandidateDirtyPage in slave i. */
  function SlaveApply(s: State, i: int): State
    requires !s.slaves(i).Blocked?
  {
    match s.slaves(i)
    case Entering => Goes(s, i, Locked)
    case Locked => Goes(s, i, Tested(s.word.start))
    case Tested(start) =>
      if start >= s.word.valid
      then Goes(s.(flushing := Put(s.flushing, i, false)), i, Blocked)
      else Goes(s, i, Seizing)
    case Notified => Goes(s, i, Seizing)
    case Seizing => Goes(s, i, Sized(s.word.valid))
    case Sized(total) => Goes(s, i, Read(total, s.word))
    case Read(total, seen) =>
      if s.word == seen then Claim(s, i, total) else Goes(s, i, Read(total, s.word))
    case Flushing(cur, hi) =>
      Goes(s.(done := Put(s.done, cur, s.done(cur) + 1)), i, if cur + 1 < hi then Flushing(cur + 1, hi) else Finished)
    case Finished => Goes(s, i, Rechecked(s.word.start))
    case Rechecked(start) => Goes(s, i, if start < s.word.valid then Seizing else Entering)
  }

  /** One past the last slot claimed at `start` when the array is taken to hold `total`. */
  function ClaimEnd(start: int, total: int): int {
    if start >= total then start else if (start + BATCH) % UINT32 > total then total else start + BATCH
  }

  /** ScrambleLoc succeeds: the start moves on by a batch whether or not anything is left. */
  function Claim(s: State, i: int, total: int): State {
    var lo := s.word.start;
    var hi := ClaimEnd(lo, total);
    var z := s.(word := Word(s.word.valid, (lo + BATCH) % UINT32));
    if lo >= total
    then Goes(z.(over := Put(s.over, i, s.over(i) + 1)), i, Entering)
    else Goes(z.(claimant := Claimed(s.claimant, lo, hi, i)), i, Flushing(lo, hi))
  }

  function Claimed(claimant: int -> int, lo: int, hi: int, i: int): int -> int {
    k => if lo <= k < hi then i else claimant(k)
  }

  /** One step of BgDiskPageMasterWriter::Run, SetValidSize, WakeUpSlaveWriter and WaitSlaveWriterFlushFinish. */
  function MasterApply(c: Config, s: State, count: nat): State {
    match s.master
    case Reset => s.(word := Word(0, 0), claimant := Unclaimed, done := Zero, over := Zero, master := Scan)
    case Scan => s.(master := if count == 0 then Reset else Publish(s.word.valid + count, s.word.valid))
    case Publish(size, origin) => s.(master := PublishRead(size, origin, s.word))
    case PublishRead(size, origin, seen) =>
      if s.word == seen
      then s.(word := Word(size, if seen.start < origin then seen.start else origin), master := Waking(0))
      else s.(master := PublishRead(size, origin, s.word))
    case Waking(i) =>
      if i < c.slaves then WakeupIfSleeping(s, i).(master := Waking(i + 1)) else s.(master := Waiting(0))
    case Waiting(i) =>
      if i >= c.slaves then s.(master := Reset)
      else if s.flushing(i) then s
      else s.(master := Waiting(i + 1))
  }

  function WakeupIfSleeping(s: State, i: int): State {
    if s.flushing(i) then s
    else s.(flushing := Put(s.flushing, i, true),
            slaves := if s.slaves(i).Blocked? then Put(s.slaves, i, Notified) else s.slaves)
  }
}
