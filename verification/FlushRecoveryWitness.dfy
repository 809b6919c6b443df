/**
  A run of the dirty page queue and the flush handshake together, with one slave and two spurious
  wake-ups, that publishes a recovery PLSN above a record that is not on disk. Each time the slave wakes
  up by itself and reads the size 0 between Set(0) and the publication; its claim then skips the page.
*/
module FlushRecoveryWitness {
  import opened Common
  import opened FlushRecovery
  import Q = DirtyPageQueue
  import I = DirtyPageInvariant
  import H = FlushHandshake

  const One: H.Config := H.Config(1, 1)

  ghost predicate Reachable(c: H.Config, s: State) {
    exists states, actions :: Execution(c, states, actions) && states[|actions|] == s
  }

  lemma InitReachable(c: H.Config)
    requires 0 < c.slaves
    ensures Reachable(c, Init)
  {
    assert Execution(c, [Init], []);
  }

  lemma Next(c: H.Config, s: State, a: Action)
    requires Reachable(c, s) && Enabled(c, s, a)
    ensures Reachable(c, Apply(c, s, a))
  {
    var states, actions :| Execution(c, states, actions) && states[|actions|] == s;
    hide Enabled, Apply;
    assert Execution(c, states + [Apply(c, s, a)], actions + [a]);
  }

  /** A step of writer thread 1. */
  lemma Writer(c: H.Config, s: State) returns (z: State)
    requires Reachable(c, s) && Q.Enabled(s.q, Q.WriterStep(1))
    ensures Reachable(c, z) && z == s.(q := Q.WriterApply(s.q, 1))
  {
    Next(c, s, Queue(Q.WriterStep(1)));
    z := s.(q := Q.WriterApply(s.q, 1));
  }

  /** A step of the master in the queue that hands out no page. */
  lemma Master(c: H.Config, s: State) returns (z: State)
    requires Reachable(c, s) && Q.MasterEnabled(s.q) && Offers(s.q, Q.MasterStep(1, false)).Null?
    requires (s.q.master.Began? ==> s.h.master.Scan?) && (s.q.master.Flushing? ==> s.h.master.Reset?)
    ensures Reachable(c, z) && z == s.(q := Q.MasterApply(s.q, 1, false))
  {
    Next(c, s, Queue(Q.MasterStep(1, false)));
    z := s.(q := Q.MasterApply(s.q, 1, false));
  }

  /** A step of the master in the queue that hands out page p. */
  lemma HandsOut(c: H.Config, s: State, p: int) returns (z: State)
    requires Reachable(c, s) && Q.MasterEnabled(s.q) && Offers(s.q, Q.MasterStep(1, false)) == Q.At(p)
    requires !s.q.master.Began? && !s.q.master.Flushing?
    ensures Reachable(c, z)
    ensures z == s.(q := Q.MasterApply(s.q, 1, false), slots := Put(s.slots, s.size, p), size := s.size + 1)
  {
    Next(c, s, Queue(Q.MasterStep(1, false)));
    z := s.(q := Q.MasterApply(s.q, 1, false), slots := Put(s.slots, s.size, p), size := s.size + 1);
  }

  lemma Hand(c: H.Config, s: State, a: H.Action) returns (z: State)
    requires Reachable(c, s) && HandshakeEnabled(c, s, a)
    ensures Reachable(c, z)
    ensures z == s.(h := H.Apply(c, s.h, a), size := if a.MasterStep? && s.h.master.Reset? then 0 else s.size)
  {
    Next(c, s, Handshake(a));
    z := s.(h := H.Apply(c, s.h, a), size := if a.MasterStep? && s.h.master.Reset? then 0 else s.size);
  }

  // ---- The handshake loses a batch

  /** Between rounds, with the slave asleep. */
  predicate Dozing(h: H.State) { h.master.Reset? && h.slaves(0).Blocked? && !h.flushing(0) }

  lemma FallAsleep(c: H.Config, s: State) returns (z: State)
    requires c == One && Reachable(c, s) && s.h == H.Init
    ensures Reachable(c, z) && z.q == s.q && Dozing(z.h)
  {
    hide Reachable;
    z := s;
    z := Hand(c, z, H.SlaveStep(0));
    z := Hand(c, z, H.SlaveStep(0));
    z := Hand(c, z, H.SlaveStep(0));
  }

  /** After Set(0) the slave wakes up by itself and reads the size. */
  predicate Sleepwalking(h: H.State) {
    h.master.Scan? && h.slaves(0) == H.Sized(0) && !h.flushing(0) && h.word == H.Word(0, 0)
  }

  lemma Open(c: H.Config, s: State) returns (z: State)
    requires c == One && Reachable(c, s) && Dozing(s.h) && s.q.master.Start?
    ensures Reachable(c, z) && z.q == s.q.(master := Q.Began(Q.Plsn(|s.q.d.wal|))) && Sleepwalking(z.h) && z.size == 0
  {
    hide Reachable;
    z := Master(c, s);
    z := Hand(c, z, H.MasterStep(0));
    z := Hand(c, z, H.Spurious(0));
    z := Hand(c, z, H.SlaveStep(0));
    z := Hand(c, z, H.SlaveStep(0));
  }

  /** One page is published; the slave swaps the start and finds nothing below its old size. */
  lemma Claimless(c: H.Config, s: State) returns (z: State)
    requires c == One && Reachable(c, s) && Sleepwalking(s.h) && s.q.master.Flushing? && s.size == 1
    ensures Reachable(c, z) && z.q == s.q && z.h.master == H.Waking(0) && z.h.word == H.Word(1, H.BATCH)
    ensures z.h.slaves(0) == H.Entering && !z.h.flushing(0)
  {
    hide Reachable;
    z := Hand(c, s, H.MasterStep(1));
    z := Hand(c, z, H.MasterStep(0));
    z := Hand(c, z, H.MasterStep(0));
    z := Hand(c, z, H.SlaveStep(0));
    z := Hand(c, z, H.SlaveStep(0));
  }

  /** The master wakes the slave, which goes back to sleep; the round is over. */
  lemma Close(c: H.Config, s: State) returns (z: State)
    requires c == One && Reachable(c, s) && Sleepwalking(s.h) && s.q.master.Flushing? && s.size == 1
    ensures Reachable(c, z) && z.q == s.q && Dozing(z.h)
  {
    hide Reachable;
    z := Claimless(c, s);
    z := Hand(c, z, H.MasterStep(0));
    z := Hand(c, z, H.MasterStep(0));
    z := Hand(c, z, H.SlaveStep(0));
    z := Hand(c, z, H.SlaveStep(0));
    z := Hand(c, z, H.SlaveStep(0));
    z := Hand(c, z, H.MasterStep(0));
    z := Hand(c, z, H.MasterStep(0));
  }

  // ---- The queue

  /** Page 0 has record 0, which is not on disk, and a recovery PLSN; nobody else is at work. */
  ghost predicate Unwritten(q: Q.State) {
    && q.d.wal == [0] && q.d.disk(0) == 0 && q.d.io(0).NoIo? && q.f.dirty(0) && q.rplsn(0) == 1
    && forall t :: q.writers(t).Idle?
  }

  ghost predicate Queued(q: Q.State) {
    && Unwritten(q) && q.vec == [] && q.count == 1
    && q.q.word == Q.Word(Q.At(0), Q.Last(0)) && q.q.next(0).Null?
  }

  ghost predicate Parked(q: Q.State) {
    Unwritten(q) && q.vec == [0] && q.count == 0 && q.q.word.head.Null?
  }

  /** Thread 1 reads the queue word and the end of the WAL for page 0. */
  lemma Stamp(c: H.Config, s: State) returns (z: State)
    requires c == One && Reachable(c, s) && s.q == Q.Init
    ensures Reachable(c, z) && z.h == s.h
    ensures z.q == Q.Init.(writers := z.q.writers) && z.q.writers(1) == Q.Stamped(0, 0, Q.Init.q.word, 0, 1)
    ensures forall t | t != 1 :: z.q.writers(t).Idle?
  {
    hide Reachable;
    Next(c, s, Queue(Q.Begin(1, 0)));
    z := s.(q := Q.Goes(s.q, 1, Q.Owns(0)));
    z := Writer(c, z);
    z := Writer(c, z);
    z := Writer(c, z);
  }

  lemma Push(c: H.Config, s: State) returns (z: State)
    requires c == One && Reachable(c, s) && s.q == Q.Init
    ensures Reachable(c, z) && z.h == s.h && z.q.master.Start? && Queued(z.q)
  {
    hide Reachable;
    z := Stamp(c, s);
    z := Writer(c, z);
    z := Writer(c, z);
    z := Writer(c, z);
    z := Writer(c, z);
    z := Writer(c, z);
    z := Writer(c, z);
  }

  lemma ScanQueue(c: H.Config, s: State) returns (z: State)
    requires c == One && Reachable(c, s) && s.q.master.Began? && Queued(s.q) && s.h.master.Scan? && s.size == 0
    ensures Reachable(c, z) && z.h == s.h && z.size == 1
    ensures z.q.master.Flushing? && z.q.master.adv == 1 && Queued(z.q)
  {
    hide Reachable;
    z := s;
    z := Master(c, z);
    z := Master(c, z);
    z := HandsOut(c, z, 0);
    z := Master(c, z);
    z := Master(c, z);
  }

  /** The page is still dirty, so it is parked. */
  lemma LockFirst(c: H.Config, s: State) returns (z: State)
    requires Reachable(c, s) && s.h.master.Reset? && s.q.master.Flushing? && s.q.master.adv == 1 && Queued(s.q)
    ensures Reachable(c, z) && z.h == s.h && z.q == s.q.(vec := [0], master := Q.AdvHead(0, 0, Q.Null, 1, s.q.q.word))
  {
    hide Reachable;
    z := s;
    z := Master(c, z);
    z := Master(c, z);
    z := Master(c, z);
  }

  lemma Advance(c: H.Config, s: State) returns (z: State)
    requires Reachable(c, s) && s.h.master.Reset? && s.q.master.Flushing? && s.q.master.adv == 1 && Queued(s.q)
    ensures Reachable(c, z) && z.h == s.h && z.q.master.Start? && Parked(z.q)
  {
    hide Reachable;
    z := LockFirst(c, s);
    z := Master(c, z);
    z := Master(c, z);
    z := Master(c, z);
    z := Master(c, z);
  }

  lemma ScanParked(c: H.Config, s: State) returns (z: State)
    requires c == One && Reachable(c, s) && s.q.master == Q.Began(2) && Parked(s.q) && s.h.master.Scan? && s.size == 0
    ensures Reachable(c, z) && z.h == s.h && z.size == 1 && z.q.master == Q.Flushing(2, 1, 0)
    ensures z.q.d.wal == [0] && z.q.d.disk(0) == 0 && z.q.q.word.head.Null?
  {
    hide Reachable;
    z := s;
    z := Master(c, z);
    z := HandsOut(c, z, 0);
    z := Master(c, z);
    z := Master(c, z);
  }

  lemma PublishEnd(c: H.Config, s: State) returns (z: State)
    requires Reachable(c, s) && s.h.master.Reset? && s.q.master == Q.Flushing(2, 1, 0) && s.q.q.word.head.Null?
    ensures Reachable(c, z) && z.q.recovery == 2 && z.q.d == s.q.d
  {
    hide Reachable;
    z := s;
    z := Master(c, z);
    z := Master(c, z);
    z := Master(c, z);
    z := Master(c, z);
  }

  /** Page 0 is skipped twice; then the queue is empty, and the end of the WAL is published above its record. */
  lemma SpuriousUnsafe()
    ensures exists s :: Reachable(One, s) && !I.SafePoint(s.q.d, s.q.recovery)
  {
    hide Reachable;
    InitReachable(One);
    var s := FallAsleep(One, Init);
    s := Push(One, s);
    s := Open(One, s);
    s := ScanQueue(One, s);
    s := Close(One, s);
    s := Advance(One, s);
    s := Open(One, s);
    s := ScanParked(One, s);
    s := Close(One, s);
    s := PublishEnd(One, s);
    assert s.q.d.disk(s.q.d.wal[0]) == 0;
  }
}
