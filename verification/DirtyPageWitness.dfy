/**
  Three runs of the dirty page queue: one in which the recovery PLSN of the queue head is not a safe
  redo point, one in which the master goes on although a page it handed out was not flushed and
  publishes a recovery PLSN that is not safe, and one in which a swap on a word that has come back
  makes Push stop the process.
*/
module DirtyPageWitness {
  import opened Common
  import opened DirtyPageQueue
  import opened DirtyPageInvariant
  import opened DirtyPageSafety
  import O = DirtyPageOrder

  lemma StepWriter(s: State, t: int)
    requires Reachable(s) && Enabled(s, WriterStep(t))
    ensures Reachable(WriterApply(s, t))
  {
    NextReachable(s, WriterStep(t));
  }

  lemma StepMaster(s: State)
    requires Reachable(s) && MasterEnabled(s)
    ensures Reachable(MasterApply(s, 1, false))
  {
    NextReachable(s, MasterStep(1, false));
  }

  /** Thread t reads the queue word and the end of the WAL for page p, and is preempted. */
  lemma Stamp(s: State, t: int, p: int) returns (z: State)
    requires Reachable(s) && s.writers(t).Idle? && Unowned(s, p) && !s.master.Holds(p) && s.rplsn(p) == 0
    ensures Reachable(z) && z.d == s.d && z.f == s.f && z.q == s.q && z.rplsn == s.rplsn && z.count == s.count
    ensures z.vec == s.vec && z.cand == s.cand && z.recovery == s.recovery && z.master == s.master && z.ver == s.ver
    ensures z.writers(t) == Stamped(p, s.recovery, s.q.word, s.ver, Plsn(|s.d.wal|))
    ensures forall u | u != t :: z.writers(u) == s.writers(u)
  {
    hide Reachable;
    NextReachable(s, Begin(t, p));
    z := Goes(s, t, Owns(p));
    StepWriter(z, t);
    z := WriterApply(z, t);
    StepWriter(z, t);
    z := WriterApply(z, t);
    StepWriter(z, t);
    z := WriterApply(z, t);
  }

  /** The rest of a push onto an empty queue, and the record. */
  lemma Finish(s: State, t: int) returns (z: State)
    requires Reachable(s) && s.writers(t).Stamped? && s.q.word == s.writers(t).seen && s.q.word.head.Null?
    ensures Reachable(z) && z.vec == s.vec && z.cand == s.cand && z.recovery == s.recovery && z.master == s.master
    ensures z.count == s.count + 1 && z.q.next == s.q.next
    ensures var p := s.writers(t).page;
      && z.d == s.d.(wal := s.d.wal + [p]) && z.f == Flags(Put(s.f.dirty, p, true), Put(s.f.hint, p, true))
      && z.q.word == Word(At(p), Last(p)) && z.rplsn == Put(s.rplsn, p, s.writers(t).plsn)
    ensures z.writers(t).Idle? && forall u | u != t :: z.writers(u) == s.writers(u)
  {
    hide Reachable;
    z := s;
    StepWriter(z, t);
    z := WriterApply(z, t);
    StepWriter(z, t);
    z := WriterApply(z, t);
    StepWriter(z, t);
    z := WriterApply(z, t);
    StepWriter(z, t);
    z := WriterApply(z, t);
    StepWriter(z, t);
    z := WriterApply(z, t);
    StepWriter(z, t);
    z := WriterApply(z, t);
  }

  /** Thread t writes a record on a page that has a recovery PLSN already. */
  lemma Touch(s: State, t: int, p: int) returns (z: State)
    requires Reachable(s) && s.writers(t).Idle? && Unowned(s, p) && !s.master.Holds(p) && s.rplsn(p) != 0
    ensures Reachable(z) && z.d == s.d.(wal := s.d.wal + [p]) && z.q == s.q && z.rplsn == s.rplsn && z.count == s.count
    ensures z.f == Flags(Put(s.f.dirty, p, true), Put(s.f.hint, p, true))
    ensures z.vec == s.vec && z.cand == s.cand && z.recovery == s.recovery && z.master == s.master && z.ver == s.ver
    ensures z.writers(t).Idle? && forall u | u != t :: z.writers(u) == s.writers(u)
  {
    hide Reachable;
    NextReachable(s, Begin(t, p));
    z := Goes(s, t, Owns(p));
    StepWriter(z, t);
    z := WriterApply(z, t);
    StepWriter(z, t);
    z := WriterApply(z, t);
    StepWriter(z, t);
    z := WriterApply(z, t);
  }

  /** The master scans a queue of one dirty page p and has it flushed. */
  lemma ScanAndFlush(s: State, p: int) returns (z: State)
    requires Reachable(s) && s.master.Start? && s.count == 1 && s.vec == [] && s.cand == {}
    requires s.q.word == Word(At(p), Last(p)) && s.q.next(p).Null?
    requires Unowned(s, p) && s.d.io(p).NoIo? && s.f.dirty(p)
    ensures Reachable(z) && z.master.Flushing? && z.master.adv == 1 && z.cand == {} && z.vec == []
    ensures z.d.wal == s.d.wal && z.d.disk == Put(s.d.disk, p, |s.d.wal|) && z.d.io(p).NoIo?
    ensures !z.f.dirty(p) && (forall x | x != p :: z.f.dirty(x) == s.f.dirty(x))
    ensures z.q == s.q && z.rplsn == s.rplsn && z.count == 1 && z.writers == s.writers && z.recovery == s.recovery
  {
    z := Scan(s, p);
    hide Reachable;
    NextReachable(z, FlushStart(p, true));
    z := StartIo(z, p, true);
    NextReachable(z, FlushEnd(p));
    z := TerminateIo(z, p);
  }

  lemma Scan(s: State, p: int) returns (z: State)
    requires Reachable(s) && s.master.Start? && s.count == 1 && s.vec == [] && s.cand == {}
    requires s.q.word == Word(At(p), Last(p)) && s.q.next(p).Null? && s.f.dirty(p) && s.d.io(p).NoIo?
    ensures Reachable(z) && z.master.Flushing? && z.master.adv == 1 && z.cand == {p} && z.vec == []
    ensures z.d == s.d && z.f == s.f && z.q == s.q && z.rplsn == s.rplsn && z.count == 1 && z.writers == s.writers
    ensures z.recovery == s.recovery
  {
    hide Reachable;
    z := s;
    StepMaster(z);
    z := MasterApply(z, 1, false);
    StepMaster(z);
    z := MasterApply(z, 1, false);
    StepMaster(z);
    z := MasterApply(z, 1, false);
    StepMaster(z);
    z := MasterApply(z, 1, false);
    StepMaster(z);
    z := MasterApply(z, 1, false);
    StepMaster(z);
    z := MasterApply(z, 1, false);
  }

  /** The master removes the only entry and publishes its recovery PLSN; a dirty page is parked. */
  lemma Advance(s: State, p: int) returns (z: State)
    requires Reachable(s) && s.master.Flushing? && s.master.adv == 1 && s.vec == []
    requires s.q.word == Word(At(p), Last(p)) && s.q.next(p).Null? && HeaderFree(s, p)
    ensures Reachable(z) && z.master.Start? && z.recovery == s.rplsn(p) && z.cand == s.cand
    ensures z.vec == (if s.f.dirty(p) then [p] else []) && z.q.word.head.Null?
    ensures z.rplsn == (if s.f.dirty(p) then s.rplsn else Put(s.rplsn, p, 0)) && z.q.next == Put(s.q.next, p, Null)
    ensures z.d == s.d && z.f == s.f && z.count == s.count - 1 && z.writers == s.writers
  {
    hide Reachable;
    z := Lock(s, p);
    StepMaster(z);
    z := MasterApply(z, 1, false);
    StepMaster(z);
    z := MasterApply(z, 1, false);
    StepMaster(z);
    z := MasterApply(z, 1, false);
    StepMaster(z);
    z := MasterApply(z, 1, false);
  }

  /** The master takes the header lock of the first entry's page. */
  lemma Lock(s: State, p: int) returns (z: State)
    requires Reachable(s) && s.master.Flushing? && s.master.adv == 1 && s.vec == []
    requires s.q.word.head == At(p) && HeaderFree(s, p)
    ensures Reachable(z) && z.master == AdvHead(0, p, s.q.next(p), s.rplsn(p), s.q.word)
    ensures z.vec == (if s.f.dirty(p) then [p] else []) && z.cand == s.cand && z.recovery == s.recovery
    ensures z.d == s.d && z.f == s.f && z.q == s.q && z.rplsn == s.rplsn && z.count == s.count && z.writers == s.writers
  {
    hide Reachable;
    z := s;
    StepMaster(z);
    z := MasterApply(z, 1, false);
    StepMaster(z);
    z := MasterApply(z, 1, false);
    StepMaster(z);
    z := MasterApply(z, 1, false);
  }

  /**
    A page flushed, written again and then taken off the queue is parked with its old recovery PLSN;
    the next page pushed becomes the head with a younger one, above a record that is not on disk.
  */
  lemma HeadUnsafe()
    ensures exists s :: Reachable(s) && HeadPlsn(s) != INVALID_PLSN && !SafePoint(s.d, HeadPlsn(s))
  {
    hide Reachable;
    InitReachable();
    var s := Stamp(Init, 1, 0);
    s := Finish(s, 1);
    s := ScanAndFlush(s, 0);
    s := Touch(s, 1, 0);
    s := Advance(s, 0);
    s := Stamp(s, 2, 1);
    s := Finish(s, 2);
    assert s.d.wal == [0, 0, 1] && s.d.disk(s.d.wal[1]) == 1 && HeadPlsn(s) == 3;
  }

  /** The master hands out the only parked page p. */
  lemma HandOut(s: State, p: int) returns (z: State)
    requires Reachable(s) && s.master.Start? && s.count == 0 && s.vec == [p] && s.q.word.head.Null?
    requires s.f.dirty(p) && HeaderFree(s, p)
    ensures Reachable(z) && z.master == Flushing(Plsn(|s.d.wal|), |s.d.wal|, 0) && z.q == s.q
    ensures z.d.wal == s.d.wal && z.d.disk == s.d.disk
  {
    hide Reachable;
    z := s;
    StepMaster(z);
    z := MasterApply(z, 1, false);
    StepMaster(z);
    z := MasterApply(z, 1, false);
    StepMaster(z);
    z := MasterApply(z, 1, false);
    StepMaster(z);
    z := MasterApply(z, 1, false);
    StepMaster(z);
    z := MasterApply(z, 1, false);
  }

  /** It goes on without the page and finds the queue empty. */
  lemma PublishEnd(s: State) returns (z: State)
    requires Reachable(s) && s.master.Flushing? && s.master.adv == 0 && s.q.word.head.Null?
    ensures Reachable(z) && z.recovery == s.master.max && z.d == s.d
  {
    hide Reachable;
    z := s;
    StepMaster(z);
    z := MasterApply(z, 1, false);
    StepMaster(z);
    z := MasterApply(z, 1, false);
    StepMaster(z);
    z := MasterApply(z, 1, false);
    StepMaster(z);
    z := MasterApply(z, 1, false);
  }

  /**
    A page is parked, is handed out in the next round and its batch is lost: the queue is empty, so
    the end of the WAL is published above the record that is not on disk.
  */
  lemma RecoveryUnsafe()
    ensures exists s :: Reachable(s) && !SafePoint(s.d, s.recovery)
  {
    hide Reachable;
    InitReachable();
    var s := Stamp(Init, 1, 0);
    s := Finish(s, 1);
    s := ScanAndFlush(s, 0);
    s := Touch(s, 1, 0);
    s := Advance(s, 0);
    s := HandOut(s, 0);
    s := PublishEnd(s);
    assert s.d.wal == [0, 0] && s.d.disk(s.d.wal[1]) == 1 && s.recovery == 3;
  }

  /** Thread 2 reads the word {0, 0}; page 0 leaves the queue and comes back with a younger PLSN. */
  lemma PushCanStop()
    ensures exists s :: Reachable(s) && O.Misordered(s, WriterStep(2))
  {
    hide Reachable;
    InitReachable();
    var s := Stamp(Init, 1, 0);
    s := Finish(s, 1);
    s := Stamp(s, 2, 1);
    s := Touch(s, 1, 0);
    s := ScanAndFlush(s, 0);
    s := Advance(s, 0);
    s := Stamp(s, 1, 0);
    s := Finish(s, 1);
    StepWriter(s, 2);
    s := WriterApply(s, 2);
    StepWriter(s, 2);
    s := WriterApply(s, 2);
    assert O.Misordered(s, WriterStep(2));
  }
}
