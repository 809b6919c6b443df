/**
  Spurious wake-ups. Without them a slave never keeps a size across rounds, and claims past the end
  are too few to wrap the 32-bit start, so every claim is sound. With one, a batch can be lost.
*/
module FlushWakeups {
  import opened Common
  import opened FlushHandshake
  import opened FlushBarrier
  import R = FlushRounds

  /** The start cannot wrap: two claims past the end per slave and round still fit. */
  predicate Fits(c: Config) { c.capacity + BATCH * (2 * c.slaves + 2) < UINT32 }

  ghost predicate QuietExecution(c: Config, states: seq<State>, actions: seq<Action>) {
    Execution(c, states, actions) && forall i | 0 <= i < |actions| :: !actions[i].Spurious?
  }

  function Sum(f: int -> int, n: nat): int {
    if n == 0 then 0 else Sum(f, n - 1) + f(n - 1)
  }

  lemma {:induction false} SumPut(f: int -> int, n: nat, i: int)
    requires 0 <= i
    ensures Sum(Put(f, i, f(i) + 1), n) == Sum(f, n) + if i < n then 1 else 0
  {
    if n > 0 { SumPut(f, n - 1, i); }
  }

  lemma {:induction false} SumBound(f: int -> int, n: nat)
    requires forall i | 0 <= i < n :: 0 <= f(i) <= 2
    ensures 0 <= Sum(f, n) <= 2 * n
  {
    if n > 0 { SumBound(f, n - 1); }
  }

  lemma {:induction false} SumZero(n: nat)
    ensures Sum(Zero, n) == 0
  {
    if n > 0 { SumZero(n - 1); }
  }

  /** On the way to sleep, with nothing left to claim. */
  predicate Parked(w: Slave, word: Word) {
    && word.valid <= word.start
    && (w.Entering? || w.Locked? || (w.Tested? && word.valid <= w.start) || w.Blocked?)
  }

  predicate SlaveOk(m: Master, flushing: bool, w: Slave, word: Word, over: int, i: int) {
    && (!Published(m) ==> Parked(w, word))
    && (w.Sized? || w.Read? ==> w.total == word.valid)
    && (Woken(m, i) && !flushing ==> w.Blocked?)
    && (Published(m) ==>
          || over == 0
          || (over == 1 && (Woken(m, i) || Parked(w, word)))
          || (over == 2 && Woken(m, i) && Parked(w, word)))
  }

  predicate SizesOk(c: Config, m: Master, word: Word) {
    && word.valid <= c.capacity
    && (m.Publish? || m.PublishRead? ==> m.size <= c.capacity)
  }

  ghost predicate OverOk(c: Config, m: Master, word: Word, over: int -> int) {
    && (!Published(m) && !m.Reset? ==> Sum(over, c.slaves) == 0 && forall i | 0 <= i < c.slaves :: over(i) == 0)
    && (Published(m) ==> word.start <= word.valid + BATCH * (1 + Sum(over, c.slaves)))
  }

  ghost predicate QuietInv(c: Config, s: State) {
    && SizesOk(c, s.master, s.word)
    && (forall i | 0 <= i < c.slaves :: SlaveOk(s.master, s.flushing(i), s.slaves(i), s.word, s.over(i), i))
    && OverOk(c, s.master, s.word, s.over)
  }

  /** The claims past the end in this round. */
  lemma OverBound(c: Config, s: State)
    requires QuietInv(c, s) && Published(s.master)
    ensures 0 <= Sum(s.over, c.slaves) <= 2 * c.slaves
  {
    forall i | 0 <= i < c.slaves ensures 0 <= s.over(i) <= 2 {
      assert SlaveOk(s.master, s.flushing(i), s.slaves(i), s.word, s.over(i), i);
    }
    SumBound(s.over, c.slaves);
  }

  lemma QuietSound(c: Config, s: State, a: Action)
    requires Inv(c, s) && QuietInv(c, s) && Enabled(c, s, a) && Fits(c)
    ensures Sound(s, a)
  {
    if a.SlaveStep? && s.slaves(a.slave).Read? {
      assert SlaveOk(s.master, s.flushing(a.slave), s.slaves(a.slave), s.word, s.over(a.slave), a.slave);
      OverBound(c, s);
    }
  }

  lemma QuietClaim(c: Config, s: State, i: int)
    requires Inv(c, s) && QuietInv(c, s) && Fits(c) && 0 <= i < c.slaves && s.slaves(i).Read? &&
        s.word == s.slaves(i).seen
    ensures QuietInv(c, Claim(s, i, s.slaves(i).total))
  {
    hide CoverOk, DoneOk, WorkOk, FlagsOk, OthersOk;
    QuietSound(c, s, SlaveStep(i));
    assert SlaveOk(s.master, s.flushing(i), s.slaves(i), s.word, s.over(i), i);
    OverBound(c, s);
    SumPut(s.over, c.slaves, i);
    ClaimSlaves(c, s, i);
  }

  lemma ClaimSlaves(c: Config, s: State, i: int)
    requires QuietInv(c, s) && 0 <= i < c.slaves && s.slaves(i).Read? && s.word == s.slaves(i).seen
    requires 0 <= s.word.start && s.word.start + BATCH < UINT32
    ensures var z := Claim(s, i, s.slaves(i).total);
      forall j | 0 <= j < c.slaves :: SlaveOk(z.master, z.flushing(j), z.slaves(j), z.word, z.over(j), j)
  {
    hide OverOk, SizesOk;
    var z := Claim(s, i, s.slaves(i).total);
    assert SlaveOk(s.master, s.flushing(i), s.slaves(i), s.word, s.over(i), i);
    forall j | 0 <= j < c.slaves ensures SlaveOk(z.master, z.flushing(j), z.slaves(j), z.word, z.over(j), j) {
      assert SlaveOk(s.master, s.flushing(j), s.slaves(j), s.word, s.over(j), j);
    }
  }

  lemma QuietLocal(c: Config, s: State, i: int)
    requires Inv(c, s) && QuietInv(c, s) && Enabled(c, s, SlaveStep(i))
    requires s.slaves(i).Read? ==> s.word != s.slaves(i).seen
    ensures QuietInv(c, SlaveApply(s, i))
  {
    assert SlaveOk(s.master, s.flushing(i), s.slaves(i), s.word, s.over(i), i);
    assert FlagOk(s.master, s.flushing(i), s.slaves(i), s.word, i);
    hide Inv, OverOk;
  }

  lemma QuietScan(c: Config, s: State, count: nat)
    requires Inv(c, s) && QuietInv(c, s) && Enabled(c, s, MasterStep(count)) && !Published(s.master)
    ensures QuietInv(c, MasterApply(c, s, count))
  {
    SumZero(c.slaves);
    assert WordOk(s.master, s.word);
    hide Inv;
  }

  lemma QuietRound(c: Config, s: State, count: nat)
    requires Inv(c, s) && QuietInv(c, s) && Enabled(c, s, MasterStep(count)) && Published(s.master)
    ensures QuietInv(c, MasterApply(c, s, count))
  {
    RoundInv(c, s, count);
    assert FlagOk(s.master, s.flushing(0), s.slaves(0), s.word, 0);
    hide CoverOk, DoneOk, WorkOk;
  }

  lemma QuietNext(c: Config, s: State, a: Action)
    requires Inv(c, s) && QuietInv(c, s) && Enabled(c, s, a) && Fits(c) && !a.Spurious?
    ensures Sound(s, a) && Inv(c, Apply(c, s, a)) && QuietInv(c, Apply(c, s, a))
  {
    hide Inv, QuietInv;
    QuietSound(c, s, a);
    NextInv(c, s, a);
    match a
    case SlaveStep(i) =>
      if s.slaves(i).Read? && s.word == s.slaves(i).seen { QuietClaim(c, s, i); } else { QuietLocal(c, s, i); }
    case MasterStep(count) =>
      if Published(s.master) { QuietRound(c, s, count); } else { QuietScan(c, s, count); }
  }

  lemma {:induction false} QuietExecutionInv(c: Config, states: seq<State>, actions: seq<Action>, i: nat)
    requires QuietExecution(c, states, actions) && Fits(c) && i < |states|
    ensures Inv(c, states[i]) && QuietInv(c, states[i])
  {
    if i == 0 {
      SumZero(c.slaves);
    } else {
      QuietExecutionInv(c, states, actions, i - 1);
      assert Enabled(c, states[i - 1], actions[i - 1]);
      QuietNext(c, states[i - 1], actions[i - 1]);
    }
  }

  /** Without spurious wake-ups every claim is sound, so the barrier holds. */
  lemma QuietIsSound(c: Config, states: seq<State>, actions: seq<Action>)
    requires QuietExecution(c, states, actions) && Fits(c)
    ensures SoundExecution(c, states, actions)
  {
    forall i | 0 <= i < |actions| ensures Sound(states[i], actions[i]) {
      QuietExecutionInv(c, states, actions, i);
      assert Enabled(c, states[i], actions[i]);
      QuietSound(c, states[i], actions[i]);
    }
  }

  lemma QuietBarrier(c: Config, states: seq<State>, actions: seq<Action>, i: nat)
    requires QuietExecution(c, states, actions) && Fits(c)
    requires i < |states| && states[i].master == Waiting(c.slaves)
    ensures FlushedOnce(states[i])
  {
    QuietIsSound(c, states, actions);
    R.Barrier(c, states, actions, i);
  }

  // ---- A lost batch

  ghost predicate Reachable(c: Config, s: State) {
    exists states, actions :: Execution(c, states, actions) && states[|actions|] == s
  }

  lemma NextReachable(c: Config, s: State, a: Action)
    requires Reachable(c, s) && Enabled(c, s, a)
    ensures Reachable(c, Apply(c, s, a))
  {
    var states, actions :| Execution(c, states, actions) && states[|actions|] == s;
    hide Enabled, Apply;
    assert Execution(c, states + [Apply(c, s, a)], actions + [a]);
  }

  /**
    The slave wakes up by itself and reads the size 0 between Set(0) and the publication, then claims
    after it: the only candidate page is skipped, and the master still sees the slave idle.
  */
  lemma SpuriousLosesBatch()
    ensures exists s :: Reachable(Config(1, 1), s) && s.master == Waiting(1) && s.word.valid == 1 && s.done(0) == 0
  {
    hide Reachable;
    var c := Config(1, 1);
    assert Reachable(c, Init) by { InitReachable(c); }
    var s := Asleep(c);
    s := Sleepwalk(c, s);
    s := Claimless(c, s);
    s := Round(c, s);
  }

  lemma InitReachable(c: Config)
    requires 0 < c.slaves
    ensures Reachable(c, Init)
  {
    assert Execution(c, [Init], []);
  }

  lemma StepSlave(c: Config, s: State) returns (z: State)
    requires Reachable(c, s) && 0 < c.slaves && !s.slaves(0).Blocked?
    ensures Reachable(c, z) && z == SlaveApply(s, 0)
  {
    NextReachable(c, s, SlaveStep(0));
    z := SlaveApply(s, 0);
  }

  lemma StepMaster(c: Config, s: State) returns (z: State)
    requires Reachable(c, s) && Enabled(c, s, MasterStep(1))
    ensures Reachable(c, z) && z == MasterApply(c, s, 1)
  {
    NextReachable(c, s, MasterStep(1));
    z := MasterApply(c, s, 1);
  }

  /** The slave goes to sleep. */
  lemma Asleep(c: Config) returns (s: State)
    requires c == Config(1, 1)
    ensures Reachable(c, s) && s.slaves(0) == Blocked && s.master == Reset && s.word == Word(0, 0)
    ensures !s.flushing(0) && s.done(0) == 0
  {
    InitReachable(c);
    hide Reachable;
    s := StepSlave(c, Init);
    s := StepSlave(c, s);
    s := StepSlave(c, s);
  }

  /** It wakes up by itself and reads the size after Set(0). */
  lemma Sleepwalk(c: Config, was: State) returns (s: State)
    requires c == Config(1, 1) && Reachable(c, was)
    requires was.slaves(0) == Blocked && was.master == Reset && !was.flushing(0) && was.done(0) == 0
    ensures Reachable(c, s) && s.slaves(0) == Sized(0) && s.master == Scan && s.word == Word(0, 0)
    ensures !s.flushing(0) && s.done(0) == 0
  {
    hide Reachable;
    NextReachable(c, was, Spurious(0));
    s := Goes(was, 0, Notified);
    s := StepSlave(c, s);
    s := StepMaster(c, s);
    s := StepSlave(c, s);
  }

  /** One page is published; the slave swaps the start and finds nothing below its old size. */
  lemma Claimless(c: Config, was: State) returns (s: State)
    requires c == Config(1, 1) && Reachable(c, was)
    requires was.slaves(0) == Sized(0) && was.master == Scan && was.word == Word(0, 0) && !was.flushing(0) &&
        was.done(0) == 0
    ensures Reachable(c, s) && s.slaves(0) == Entering && s.master == Waking(0) && s.word == Word(1, BATCH)
    ensures !s.flushing(0) && s.done(0) == 0
  {
    hide Reachable;
    s := StepMaster(c, was);
    s := StepMaster(c, s);
    s := StepMaster(c, s);
    s := StepSlave(c, s);
    s := StepSlave(c, s);
  }

  /** The master wakes the slave, which goes back to sleep; the round is over. */
  lemma Round(c: Config, was: State) returns (s: State)
    requires c == Config(1, 1) && Reachable(c, was)
    requires was.slaves(0) == Entering && was.master == Waking(0) && was.word == Word(1, BATCH) && !was.flushing(0) &&
        was.done(0) == 0
    ensures Reachable(c, s) && s.master == Waiting(1) && s.word == Word(1, BATCH) && s.done(0) == 0
  {
    hide Reachable;
    s := StepMaster(c, was);
    s := StepMaster(c, s);
    s := StepSlave(c, s);
    s := StepSlave(c, s);
    s := StepSlave(c, s);
    s := StepMaster(c, s);
  }
}
