/**
  The invariant of the handshake while claims are sound.

  A slave reads the size of the array before it claims, in a separate access. A claim is sound when
  that size gives the same batch as the word it swaps. With sound claims every published slot is
  claimed by one slave and flushed once.
*/
module FlushBarrier {
  import opened Common
  import opened FlushHandshake

  /** The claim made by step a, if any, agrees with the word and does not wrap the start. */
  predicate Sound(s: State, a: Action) {
    (a.SlaveStep? && s.slaves(a.slave).Read? && s.word == s.slaves(a.slave).seen) ==>
      && s.word.start + BATCH < UINT32
      && ClaimEnd(s.word.start, s.slaves(a.slave).total) == ClaimEnd(s.word.start, s.word.valid)
  }

  ghost predicate Execution(c: Config, states: seq<State>, actions: seq<Action>) {
    && 0 < c.slaves && |states| == |actions| + 1 && states[0] == Init
    && forall i | 0 <= i < |actions| :: Enabled(c, states[i], actions[i]) &&
        states[i + 1] == Apply(c, states[i], actions[i])
  }

  ghost predicate SoundExecution(c: Config, states: seq<State>, actions: seq<Action>) {
    Execution(c, states, actions) && forall i | 0 <= i < |actions| :: Sound(states[i], actions[i])
  }

  // ---- The invariant

  predicate Published(m: Master) { m.Waking? || m.Waiting? }

  /** Slave i has been woken in this round. */
  predicate Woken(m: Master, i: int) { m.Waiting? || (m.Waking? && i < m.next) }

  predicate WordOk(m: Master, word: Word) {
    && 0 <= word.valid && 0 <= word.start
    && (m.Reset? ==> word.valid <= word.start)
    && (m.Scan? || m.Publish? || m.PublishRead? ==> word.valid == 0)
    && (m.Publish? || m.PublishRead? ==> m.origin == 0 && 0 < m.size)
    && (Published(m) ==> 0 <= m.next)
  }

  /** The claimed slots are those below the start. */
  ghost predicate CoverOk(word: Word, claimant: int -> int) {
    forall k :: claimant(k) != -1 <==> 0 <= k < Min(word.start, word.valid)
  }

  predicate Covers(w: Slave, k: int) { w.Flushing? && w.cur <= k < w.hi }

  /** A claimed slot has been flushed once, or its claimant is about to flush it. */
  predicate SlotOk(claimant: int, done: int, slaves: int -> Slave, k: int) {
    if claimant == -1 then done == 0 else done == 1 || (done == 0 && Covers(slaves(claimant), k))
  }

  ghost predicate DoneOk(claimant: int -> int, done: int -> int, slaves: int -> Slave) {
    forall k :: SlotOk(claimant(k), done(k), slaves, k)
  }

  /** A flushing slave holds the rest of its batch. */
  ghost predicate WorkOk(slaves: int -> Slave, claimant: int -> int, done: int -> int) {
    && (forall i :: NonEmpty(slaves(i)))
    && (forall i, k | Covers(slaves(i), k) :: Mine(claimant, done, i, k))
  }

  predicate NonEmpty(w: Slave) { w.Flushing? ==> w.cur < w.hi }

  predicate Mine(claimant: int -> int, done: int -> int, i: int, k: int) { claimant(k) == i && i != -1 && done(k) == 0 }

  predicate FlagOk(m: Master, flushing: bool, w: Slave, word: Word, i: int) {
    && (!Woken(m, i) ==> !flushing)
    && (m.Waiting? && i < m.next ==> !flushing)
    && (Woken(m, i) && flushing ==> !w.Blocked? && (w.Tested? ==> w.start <= word.start))
    && (Woken(m, i) && !flushing ==> word.valid <= word.start && !w.Flushing?)
    && (m.Reset? ==> !w.Flushing?)
  }

  ghost predicate FlagsOk(c: Config, m: Master, flushing: int -> bool, slaves: int -> Slave, word: Word) {
    forall i | 0 <= i < c.slaves :: FlagOk(m, flushing(i), slaves(i), word, i)
  }

  /** Only the slaves of the configuration ever move. */
  ghost predicate OthersOk(c: Config, slaves: int -> Slave) {
    forall i | i < 0 || c.slaves <= i :: slaves(i) == Entering
  }

  ghost predicate Inv(c: Config, s: State) {
    && 0 < c.slaves
    && WordOk(s.master, s.word)
    && CoverOk(s.word, s.claimant)
    && DoneOk(s.claimant, s.done, s.slaves)
    && WorkOk(s.slaves, s.claimant, s.done)
    && FlagsOk(c, s.master, s.flushing, s.slaves, s.word)
    && OthersOk(c, s.slaves)
  }

  /** A step of slave i between claims and flushes. */
  lemma LocalStep(c: Config, s: State, i: int, w: Slave, flushing: bool)
    requires Inv(c, s) && 0 <= i < c.slaves && !s.slaves(i).Flushing? && !w.Flushing?
    requires FlagOk(s.master, flushing, w, s.word, i)
    ensures Inv(c, s.(slaves := Put(s.slaves, i, w), flushing := Put(s.flushing, i, flushing)))
    ensures flushing == s.flushing(i) ==> Inv(c, Goes(s, i, w))
  {
    hide WordOk, CoverOk;
  }

  lemma ClaimedCover(word: Word, claimant: int -> int, total: int, i: int)
    requires CoverOk(word, claimant) && 0 <= word.valid && 0 <= word.start && i >= 0
    requires word.start + BATCH < UINT32 && ClaimEnd(word.start, total) == ClaimEnd(word.start, word.valid)
    requires word.start < total
    ensures CoverOk(Word(word.valid, word.start + BATCH), Claimed(claimant, word.start, ClaimEnd(word.start, total), i))
    ensures word.start < ClaimEnd(word.start, total) && word.start < word.valid
  {
  }

  lemma ClaimedWork(word: Word, claimant: int -> int, done: int -> int, slaves: int -> Slave, i: int, hi: int)
    requires CoverOk(word, claimant) && DoneOk(claimant, done, slaves) && WorkOk(slaves, claimant, done)
    requires i >= 0 && !slaves(i).Flushing? && word.start < word.valid && word.start < hi
    ensures DoneOk(Claimed(claimant, word.start, hi, i), done, Put(slaves, i, Flushing(word.start, hi)))
    ensures WorkOk(Put(slaves, i, Flushing(word.start, hi)), Claimed(claimant, word.start, hi, i), done)
  {
    var more, now := Claimed(claimant, word.start, hi, i), Put(slaves, i, Flushing(word.start, hi));
    forall k ensures SlotOk(more(k), done(k), now, k) {
      assert SlotOk(claimant(k), done(k), slaves, k);
      assert claimant(k) != -1 <==> 0 <= k < Min(word.start, word.valid);
    }
    forall j ensures NonEmpty(now(j)) {
      assert NonEmpty(slaves(j));
    }
    forall j, k | Covers(now(j), k) ensures Mine(more, done, j, k) {
      assert SlotOk(claimant(k), done(k), slaves, k);
      assert claimant(k) != -1 <==> 0 <= k < Min(word.start, word.valid);
      assert j != i ==> Covers(slaves(j), k) && Mine(claimant, done, j, k);
    }
  }

  lemma ClaimedFlags(c: Config, m: Master, flushing: int -> bool, slaves: int -> Slave, word: Word, i: int, w: Slave)
    requires FlagsOk(c, m, flushing, slaves, word) && OthersOk(c, slaves) && 0 <= i < c.slaves
    requires slaves(i).Read? && (w.Entering? || (w.Flushing? && word.start < word.valid && !m.Reset?))
    ensures FlagsOk(c, m, flushing, Put(slaves, i, w), Word(word.valid, word.start + BATCH))
    ensures OthersOk(c, Put(slaves, i, w))
  {
  }

  lemma ClaimInv(c: Config, s: State, i: int)
    requires Inv(c, s) && 0 <= i < c.slaves && Sound(s, SlaveStep(i)) && s.slaves(i).Read? && s.word == s.slaves(i).seen
    ensures Inv(c, Claim(s, i, s.slaves(i).total))
  {
    hide DoneOk, WorkOk, FlagsOk, OthersOk, CoverOk;
    var lo, total := s.word.start, s.slaves(i).total;
    if lo < total {
      var hi := ClaimEnd(lo, total);
      ClaimedCover(s.word, s.claimant, total, i);
      ClaimedWork(s.word, s.claimant, s.done, s.slaves, i, hi);
      ClaimedFlags(c, s.master, s.flushing, s.slaves, s.word, i, Flushing(lo, hi));
    } else {
      OverCover(s.word, s.claimant);
      ClaimedFlags(c, s.master, s.flushing, s.slaves, s.word, i, Entering);
      EnteringWork(s.claimant, s.done, s.slaves, i);
    }
  }

  lemma OverCover(word: Word, claimant: int -> int)
    requires CoverOk(word, claimant) && ClaimEnd(word.start, word.valid) == word.start &&
        0 <= word.start < UINT32 - BATCH
    ensures CoverOk(Word(word.valid, word.start + BATCH), claimant)
  {
  }

  lemma EnteringWork(claimant: int -> int, done: int -> int, slaves: int -> Slave, i: int)
    requires DoneOk(claimant, done, slaves) && WorkOk(slaves, claimant, done) && !slaves(i).Flushing?
    ensures DoneOk(claimant, done, Put(slaves, i, Entering)) && WorkOk(Put(slaves, i, Entering), claimant, done)
  {
  }

  lemma FlushedDone(claimant: int -> int, done: int -> int, slaves: int -> Slave, i: int, w: Slave)
    requires DoneOk(claimant, done, slaves) && WorkOk(slaves, claimant, done) && slaves(i).Flushing?
    requires w == if slaves(i).cur + 1 < slaves(i).hi then Flushing(slaves(i).cur + 1, slaves(i).hi) else Finished
    ensures DoneOk(claimant, Put(done, slaves(i).cur, done(slaves(i).cur) + 1), Put(slaves, i, w))
  {
    assert Covers(slaves(i), slaves(i).cur);
    var more, now := Put(done, slaves(i).cur, done(slaves(i).cur) + 1), Put(slaves, i, w);
    forall k ensures SlotOk(claimant(k), more(k), now, k) {
      assert SlotOk(claimant(k), done(k), slaves, k);
    }
  }

  lemma FlushedWork(claimant: int -> int, done: int -> int, slaves: int -> Slave, i: int, w: Slave)
    requires WorkOk(slaves, claimant, done) && slaves(i).Flushing?
    requires w == if slaves(i).cur + 1 < slaves(i).hi then Flushing(slaves(i).cur + 1, slaves(i).hi) else Finished
    ensures WorkOk(Put(slaves, i, w), claimant, Put(done, slaves(i).cur, done(slaves(i).cur) + 1))
  {
    assert Covers(slaves(i), slaves(i).cur);
    var more, now := Put(done, slaves(i).cur, done(slaves(i).cur) + 1), Put(slaves, i, w);
    forall j ensures NonEmpty(now(j)) {
      assert NonEmpty(slaves(j));
    }
    forall j, k | Covers(now(j), k) ensures Mine(claimant, more, j, k) {
      assert Covers(slaves(j), k) && Mine(claimant, done, j, k);
    }
  }

  lemma FlushInv(c: Config, s: State, i: int)
    requires Inv(c, s) && 0 <= i < c.slaves && s.slaves(i).Flushing?
    ensures Inv(c, SlaveApply(s, i))
  {
    hide WordOk, CoverOk, DoneOk, WorkOk;
    var w := s.slaves(i);
    assert FlagOk(s.master, s.flushing(i), w, s.word, i);
    var z := if w.cur + 1 < w.hi then Flushing(w.cur + 1, w.hi) else Finished;
    FlushedDone(s.claimant, s.done, s.slaves, i, z);
    FlushedWork(s.claimant, s.done, s.slaves, i, z);
  }

  lemma SlaveInv(c: Config, s: State, i: int)
    requires Inv(c, s) && Enabled(c, s, SlaveStep(i)) && Sound(s, SlaveStep(i))
    ensures Inv(c, SlaveApply(s, i))
  {
    hide WordOk, CoverOk, DoneOk, WorkOk, OthersOk;
    var w := s.slaves(i);
    if w.Read? && s.word == w.seen {
      ClaimInv(c, s, i);
    } else if w.Flushing? {
      FlushInv(c, s, i);
    } else {
      assert FlagOk(s.master, s.flushing(i), w, s.word, i);
      LocalStep(c, s, i, SlaveApply(s, i).slaves(i),
          if w.Tested? && w.start >= s.word.valid then false else s.flushing(i));
    }
  }

  /** A slave at work holds a slot of the array. */
  lemma FlushingClaims(c: Config, s: State, i: int)
    requires Inv(c, s) && s.slaves(i).Flushing?
    ensures 0 < s.word.valid
  {
    assert Covers(s.slaves(i), s.slaves(i).cur);
    assert s.claimant(s.slaves(i).cur) == i;
  }

  lemma ScanInv(c: Config, s: State, count: nat)
    requires Inv(c, s) && !Published(s.master)
    ensures Inv(c, MasterApply(c, s, count))
  {
    forall i | s.slaves(i).Flushing? ensures 0 < s.word.valid {
      FlushingClaims(c, s, i);
    }
  }

  lemma RoundInv(c: Config, s: State, count: nat)
    requires Inv(c, s) && Published(s.master) && Enabled(c, s, MasterStep(count))
    ensures Inv(c, MasterApply(c, s, count))
  {
    hide CoverOk;
    assert FlagOk(s.master, s.flushing(0), s.slaves(0), s.word, 0);
  }

  lemma NextInv(c: Config, s: State, a: Action)
    requires Inv(c, s) && Enabled(c, s, a) && Sound(s, a)
    ensures Inv(c, Apply(c, s, a))
  {
    hide Inv;
    match a
    case SlaveStep(i) => SlaveInv(c, s, i);
    case Spurious(i) => SpuriousInv(c, s, i);
    case MasterStep(count) => if Published(s.master) { RoundInv(c, s, count); } else { ScanInv(c, s, count); }
  }

  lemma SpuriousInv(c: Config, s: State, i: int)
    requires Inv(c, s) && 0 <= i < c.slaves && s.slaves(i).Blocked?
    ensures Inv(c, Goes(s, i, Notified))
  {
    assert FlagOk(s.master, s.flushing(i), s.slaves(i), s.word, i);
    LocalStep(c, s, i, Notified, s.flushing(i));
  }

  lemma {:induction false} ExecutionInv(c: Config, states: seq<State>, actions: seq<Action>, i: nat)
    requires SoundExecution(c, states, actions) && i < |states|
    ensures Inv(c, states[i])
  {
    if i > 0 {
      ExecutionInv(c, states, actions, i - 1);
      assert Enabled(c, states[i - 1], actions[i - 1]);
      NextInv(c, states[i - 1], actions[i - 1]);
    }
  }

  // ---- The end of a round

  /** No slave is at work, and each slot published in this round was flushed exactly once. */
  ghost predicate FlushedOnce(s: State) {
    && (forall k :: s.done(k) == if 0 <= k < s.word.valid then 1 else 0)
    && (forall i :: !s.slaves(i).Flushing?)
  }

  /** When the master has seen every slave idle, everything published is flushed, once. */
  lemma AllIdle(c: Config, s: State)
    requires Inv(c, s) && s.master.Waiting? && c.slaves <= s.master.next
    ensures FlushedOnce(s)
  {
    assert FlagOk(s.master, s.flushing(0), s.slaves(0), s.word, 0);
    forall j ensures !s.slaves(j).Flushing? {
      if 0 <= j < c.slaves { assert FlagOk(s.master, s.flushing(j), s.slaves(j), s.word, j); }
    }
  }

  /** One claim keeps the claimed slots a prefix of the array exactly when it agrees with the word. */
  lemma ClaimExactIff(s: State, i: int, total: int)
    requires CoverOk(s.word, s.claimant) && 0 <= i && 0 <= s.word.valid && 0 <= s.word.start &&
        s.word.start + BATCH < UINT32
    ensures CoverOk(Claim(s, i, total).word, Claim(s, i, total).claimant)
       <==> ClaimEnd(s.word.start, total) == ClaimEnd(s.word.start, s.word.valid)
  {
    var z := Claim(s, i, total);
    var lo, hi, end := s.word.start, ClaimEnd(s.word.start, total), ClaimEnd(s.word.start, s.word.valid);
    if hi < end {
      assert z.claimant(hi) == -1;
    } else if end < hi {
      assert z.claimant(end) == i;
    }
  }
}
