/**
  A run in which the 32-bit start wraps: a slave that keeps waking up by itself claims past the end until
  the start is below the size again, and another slave, woken earlier in the round, sleeps over the slots
  that have become claimable.
*/
module FlushWrap {
  import opened Common
  import opened FlushHandshake
  import opened FlushBarrier
  import W = FlushWakeups

  const Two: Config := Config(2, 1000)

  lemma Slave(c: Config, s: State, i: int) returns (z: State)
    requires W.Reachable(c, s) && 0 <= i < c.slaves && !s.slaves(i).Blocked?
    ensures W.Reachable(c, z) && z == SlaveApply(s, i)
  {
    W.NextReachable(c, s, SlaveStep(i));
    z := SlaveApply(s, i);
  }

  lemma Master(c: Config, s: State, count: nat) returns (z: State)
    requires W.Reachable(c, s) && Enabled(c, s, MasterStep(count))
    ensures W.Reachable(c, z) && z == MasterApply(c, s, count)
  {
    W.NextReachable(c, s, MasterStep(count));
    z := MasterApply(c, s, count);
  }

  lemma Wakes(c: Config, s: State, i: int) returns (z: State)
    requires W.Reachable(c, s) && 0 <= i < c.slaves && s.slaves(i).Blocked?
    ensures W.Reachable(c, z) && z == Goes(s, i, Notified)
  {
    W.NextReachable(c, s, Spurious(i));
    z := Goes(s, i, Notified);
  }

  lemma FallsAsleep(c: Config, s: State, i: int) returns (z: State)
    requires W.Reachable(c, s) && 0 <= i < c.slaves && s.slaves(i) == Entering && s.word == Word(0, 0)
    ensures W.Reachable(c, z) && z.master == s.master && z.word == s.word && z.slaves(i) == Blocked && !z.flushing(i)
    ensures forall j | j != i :: z.slaves(j) == s.slaves(j) && z.flushing(j) == s.flushing(j)
  {
    hide W.Reachable;
    z := Slave(c, s, i);
    z := Slave(c, z, i);
    z := Slave(c, z, i);
  }

  /** Both slaves fall asleep; slave 0 wakes up by itself after Set(0) and reads the size. */
  lemma Sleepwalk(c: Config) returns (z: State)
    requires c == Two
    ensures W.Reachable(c, z) && z.master == Scan && z.word == Word(0, 0) && !z.flushing(0) && !z.flushing(1)
    ensures z.slaves(0) == Sized(0) && z.slaves(1) == Blocked
  {
    hide W.Reachable;
    W.InitReachable(c);
    z := FallsAsleep(c, Init, 0);
    z := FallsAsleep(c, z, 1);
    z := Master(c, z, 0);
    z := Wakes(c, z, 0);
    z := Slave(c, z, 0);
    z := Slave(c, z, 0);
  }

  /** 1000 slots are published; slave 0 claims with its old size, and both slaves are woken. */
  lemma Publish1000(c: Config, s: State) returns (z: State)
    requires c == Two && W.Reachable(c, s) && s.master == Scan && s.word == Word(0, 0)
    requires !s.flushing(0) && !s.flushing(1) && s.slaves(0) == Sized(0) && s.slaves(1) == Blocked
    ensures W.Reachable(c, z) && z.master == Waiting(0) && z.word == Word(1000, 1000)
    ensures z.slaves(0) == Entering && z.slaves(1) == Notified
  {
    hide W.Reachable;
    z := Master(c, s, 1000);
    z := Master(c, z, 0);
    z := Master(c, z, 0);
    z := Slave(c, z, 0);
    z := Slave(c, z, 0);
    z := Master(c, z, 0);
    z := Master(c, z, 0);
    z := Master(c, z, 0);
  }

  /** Both slaves sleep again, with nothing left to claim. */
  predicate Asleep(s: State, start: int) {
    s.master == Waiting(0) && s.slaves(0) == Blocked && s.slaves(1) == Blocked && s.word == Word(1000, start)
  }

  lemma BackToSleep(c: Config, s: State) returns (z: State)
    requires c == Two && W.Reachable(c, s) && s.master == Waiting(0) && s.word == Word(1000, 1000)
    requires s.slaves(0) == Entering && s.slaves(1) == Notified
    ensures W.Reachable(c, z) && Asleep(z, 2000)
  {
    hide W.Reachable;
    z := s;
    z := Slave(c, z, 1);
    z := Slave(c, z, 1);
    z := Slave(c, z, 1);
    z := Slave(c, z, 1);
    z := Slave(c, z, 1);
    z := Slave(c, z, 1);
    z := Slave(c, z, 1);
    z := Slave(c, z, 0);
    z := Slave(c, z, 0);
    z := Slave(c, z, 0);
  }

  /** Slave 0 wakes up by itself and claims past the end. */
  lemma ClaimsPast(c: Config, s: State, start: int) returns (z: State)
    requires c == Two && W.Reachable(c, s) && Asleep(s, start) && 1000 <= start < UINT32
    ensures W.Reachable(c, z) && z.master == Waiting(0) && z.word == Word(1000, (start + BATCH) % UINT32)
    ensures z.slaves(0) == Entering && z.slaves(1) == Blocked
  {
    hide W.Reachable;
    z := Wakes(c, s, 0);
    z := Slave(c, z, 0);
    z := Slave(c, z, 0);
    z := Slave(c, z, 0);
    z := Slave(c, z, 0);
  }

  lemma {:induction false} Spins(c: Config, n: nat) returns (z: State)
    requires c == Two && 2000 + BATCH * n < UINT32
    ensures W.Reachable(c, z) && Asleep(z, 2000 + BATCH * n)
  {
    hide W.Reachable;
    if n == 0 {
      z := Sleepwalk(c);
      z := Publish1000(c, z);
      z := BackToSleep(c, z);
    } else {
      z := Spins(c, n - 1);
      z := ClaimsPast(c, z, 2000 + BATCH * (n - 1));
      z := Slave(c, z, 0);
      z := Slave(c, z, 0);
      z := Slave(c, z, 0);
    }
  }

  /** The start has wrapped: slots are unclaimed, and a slave the master has woken sleeps. */
  lemma WrapLosesWakeup()
    ensures exists s :: W.Reachable(Two, s) && Woken(s.master, 1) && s.word.start < s.word.valid && s.slaves(1).Blocked?
  {
    hide W.Reachable;
    var s := Spins(Two, 4294965);
    s := ClaimsPast(Two, s, 2000 + BATCH * 4294965);
  }
}
