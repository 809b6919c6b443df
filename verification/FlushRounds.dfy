/**
  What a round of the handshake guarantees, with spurious wake-ups and claims of any size. The only
  hypothesis on a run is that no claim wraps the 32-bit start.

  When the master has seen every slave idle, nobody is at work. A slot published in the round was then
  claimed exactly when no claim of the round left it out, and flushed exactly when it was claimed or a
  slave was on its way to it at the publication. Claims of a round never overlap. A woken slave does not
  sleep while slots are unclaimed. And if the claims since the last completed round were sound, every
  slot was flushed exactly once, whatever happened before.
*/
module FlushRounds {
  import opened Common
  import opened FlushHandshake
  import opened FlushBarrier

  // ---- Claims and flushes

  /** Step a is a compare-and-swap that claims. */
  predicate Claims(s: State, a: Action) {
    a.SlaveStep? && s.slaves(a.slave).Read? && s.word == s.slaves(a.slave).seen
  }

  /** One past the last slot of the batch. */
  function BatchEnd(s: State, a: Action): int
    requires Claims(s, a)
  {
    ClaimEnd(s.word.start, s.slaves(a.slave).total)
  }

  predicate ClaimsSlot(s: State, a: Action, k: int) { Claims(s, a) && s.word.start <= k < BatchEnd(s, a) }

  /** The claim ends before slot k, which the batch of the word has. */
  predicate LeavesOut(s: State, a: Action, k: int) {
    Claims(s, a) && BatchEnd(s, a) <= k < ClaimEnd(s.word.start, s.word.valid)
  }

  /** The claim ends before the batch of the word. */
  predicate Short(s: State, a: Action) { Claims(s, a) && BatchEnd(s, a) < ClaimEnd(s.word.start, s.word.valid) }

  predicate Flushes(s: State, a: Action, k: int) {
    a.SlaveStep? && s.slaves(a.slave).Flushing? && s.slaves(a.slave).cur == k
  }

  predicate Bounded(s: State, a: Action) { Claims(s, a) ==> s.word.start + BATCH < UINT32 }

  ghost predicate BoundedExecution(c: Config, states: seq<State>, actions: seq<Action>) {
    Execution(c, states, actions) && forall i | 0 <= i < |actions| :: Bounded(states[i], actions[i])
  }

  // ---- The invariant of every run

  /** A slave that was woken in this round sleeps only when nothing is left to claim, and then claims nothing. */
  predicate AwakeOk(m: Master, flushing: bool, w: Slave, word: Word, i: int) {
    && (!Woken(m, i) ==> !flushing)
    && (m.Waiting? && i < m.next ==> !flushing)
    && (Woken(m, i) && flushing ==> !w.Blocked? && (w.Tested? ==> w.start <= word.start))
    && (Woken(m, i) && !flushing ==> word.valid <= word.start && Harmless(w, word))
  }

  /** Not at work, and without a size that would give it work. */
  predicate Harmless(w: Slave, word: Word) { !w.Flushing? && (w.Sized? || w.Read? ==> w.total <= word.valid) }

  ghost predicate AwakeInv(c: Config, s: State) {
    && 0 < c.slaves && WordOk(s.master, s.word) && OthersOk(c, s.slaves)
    && forall i | 0 <= i < c.slaves :: AwakeOk(s.master, s.flushing(i), s.slaves(i), s.word, i)
  }

  lemma NextAwake(c: Config, s: State, a: Action)
    requires AwakeInv(c, s) && Enabled(c, s, a) && Bounded(s, a)
    ensures AwakeInv(c, Apply(c, s, a))
  {
    hide OthersOk, WordOk, AwakeOk;
    NextWord(c, s, a);
    NextOthers(c, s, a);
    if a.MasterStep? {
      MasterAwake(c, s, a.count);
    } else {
      SlaveAwake(c, s, a);
    }
  }

  lemma MasterAwake(c: Config, s: State, count: nat)
    requires AwakeInv(c, s) && Enabled(c, s, MasterStep(count))
    ensures var z := MasterApply(c, s, count);
      forall i | 0 <= i < c.slaves :: AwakeOk(z.master, z.flushing(i), z.slaves(i), z.word, i)
  {
    hide OthersOk;
    var z := MasterApply(c, s, count);
    forall i | 0 <= i < c.slaves ensures AwakeOk(z.master, z.flushing(i), z.slaves(i), z.word, i) {
      assert AwakeOk(s.master, s.flushing(i), s.slaves(i), s.word, i);
    }
  }

  lemma SlaveAwake(c: Config, s: State, a: Action)
    requires AwakeInv(c, s) && Enabled(c, s, a) && Bounded(s, a) && !a.MasterStep?
    ensures var z := Apply(c, s, a);
      forall i | 0 <= i < c.slaves :: AwakeOk(z.master, z.flushing(i), z.slaves(i), z.word, i)
  {
    hide OthersOk, WordOk;
    var z := Apply(c, s, a);
    forall i | 0 <= i < c.slaves ensures AwakeOk(z.master, z.flushing(i), z.slaves(i), z.word, i) {
      assert AwakeOk(s.master, s.flushing(i), s.slaves(i), s.word, i);
    }
  }

  lemma NextWord(c: Config, s: State, a: Action)
    requires AwakeInv(c, s) && Enabled(c, s, a) && Bounded(s, a)
    ensures WordOk(Apply(c, s, a).master, Apply(c, s, a).word)
  {
    assert AwakeOk(s.master, s.flushing(0), s.slaves(0), s.word, 0);
  }

  lemma NextOthers(c: Config, s: State, a: Action)
    requires OthersOk(c, s.slaves) && Enabled(c, s, a)
    ensures OthersOk(c, Apply(c, s, a).slaves)
  {
  }

  lemma {:induction false} ExecutionAwake(c: Config, states: seq<State>, actions: seq<Action>, i: nat)
    requires BoundedExecution(c, states, actions) && i < |states|
    ensures AwakeInv(c, states[i])
  {
    if i > 0 {
      ExecutionAwake(c, states, actions, i - 1);
      assert Enabled(c, states[i - 1], actions[i - 1]) && Bounded(states[i - 1], actions[i - 1]);
      NextAwake(c, states[i - 1], actions[i - 1]);
    }
  }

  /** A slave the master has woken does not sleep while slots are unclaimed. */
  lemma NoLostWakeup(c: Config, states: seq<State>, actions: seq<Action>, i: nat, j: nat)
    requires BoundedExecution(c, states, actions) && i < |states| && j < c.slaves
    requires Woken(states[i].master, j) && states[i].word.start < states[i].word.valid
    ensures states[i].flushing(j) && !states[i].slaves(j).Blocked?
  {
    ExecutionAwake(c, states, actions, i);
    var s := states[i];
    assert AwakeOk(s.master, s.flushing(j), s.slaves(j), s.word, j);
  }

  // ---- When a slave stops claiming

  /** The start that a slave compares after its batch was read when the batch was done. */
  lemma {:induction false} RecheckRead(c: Config, states: seq<State>, actions: seq<Action>, q: nat, j: int)
    returns (p: nat)
    requires Execution(c, states, actions) && q < |states| && states[q].slaves(j).Rechecked?
    ensures p < q && actions[p] == SlaveStep(j) && states[p].slaves(j).Finished?
    ensures states[q].slaves(j).start == states[p].word.start
  {
    assert q > 0;
    assert Enabled(c, states[q - 1], actions[q - 1]) && states[q] == Apply(c, states[q - 1], actions[q - 1]);
    if states[q - 1].slaves(j).Rechecked? {
      p := RecheckRead(c, states, actions, q - 1, j);
    } else {
      p := q - 1;
    }
  }

  /**
    In every run, a slave goes from its work to the sleep test only when it found nothing left: its claim
    was past the size it read, or the start it read after its batch was at or past the valid size.
  */
  lemma StopsClaiming(c: Config, states: seq<State>, actions: seq<Action>, q: nat, j: int) returns (p: nat)
    requires Execution(c, states, actions) && q < |actions| && actions[q] == SlaveStep(j)
    requires states[q + 1].slaves(j).Entering?
    ensures p <= q && actions[p] == SlaveStep(j)
    ensures
      if p == q then Claims(states[q], actions[q]) && states[q].slaves(j).total <= states[q].word.start
      else states[p].slaves(j).Finished? && states[q].word.valid <= states[p].word.start
  {
    assert Enabled(c, states[q], actions[q]) && states[q + 1] == Apply(c, states[q], actions[q]);
    if states[q].slaves(j).Rechecked? {
      p := RecheckRead(c, states, actions, q, j);
    } else {
      p := q;
    }
  }

  /** When the master has seen every slave idle, nobody is at work and nothing is left to claim. */
  lemma NobodyAtWork(c: Config, states: seq<State>, actions: seq<Action>, i: nat)
    requires BoundedExecution(c, states, actions) && i < |states| && states[i].master == Waiting(c.slaves)
    ensures (forall j :: !states[i].slaves(j).Flushing?) && states[i].word.valid <= states[i].word.start
  {
    ExecutionAwake(c, states, actions, i);
    IdleNow(c, states[i]);
  }

  lemma IdleNow(c: Config, s: State)
    requires AwakeInv(c, s) && s.master.Waiting? && c.slaves <= s.master.next
    ensures (forall j :: Harmless(s.slaves(j), s.word) && !s.slaves(j).Flushing?) && s.word.valid <= s.word.start
    ensures forall j | 0 <= j < c.slaves :: !s.flushing(j)
  {
    assert AwakeOk(s.master, s.flushing(0), s.slaves(0), s.word, 0);
    forall j ensures Harmless(s.slaves(j), s.word) {
      if 0 <= j < c.slaves { assert AwakeOk(s.master, s.flushing(j), s.slaves(j), s.word, j); }
    }
    forall j | 0 <= j < c.slaves ensures !s.flushing(j) {
      assert AwakeOk(s.master, s.flushing(j), s.slaves(j), s.word, j);
    }
  }

  // ---- The claims of a round

  /** Step p publishes, and the round it opens has not ended at state i. */
  ghost predicate InRound(states: seq<State>, p: nat, i: nat) {
    p < i < |states| && !Published(states[p].master) && forall n | p < n <= i :: Published(states[n].master)
  }

  /** The master has seen every slave idle. */
  ghost predicate Round(c: Config, states: seq<State>, p: nat, i: nat) {
    InRound(states, p, i) && states[i].master == Waiting(c.slaves)
  }

  ghost predicate ClaimedIn(states: seq<State>, actions: seq<Action>, p: nat, i: nat, k: int)
    requires |actions| < |states| && i <= |actions|
  {
    exists n :: p < n < i && ClaimsSlot(states[n], actions[n], k)
  }

  ghost predicate LeftOutIn(states: seq<State>, actions: seq<Action>, p: nat, i: nat, k: int)
    requires |actions| < |states| && i <= |actions|
  {
    exists n :: p < n < i && LeavesOut(states[n], actions[n], k)
  }

  ghost predicate FlushedIn(states: seq<State>, actions: seq<Action>, p: nat, i: nat, k: int)
    requires |actions| < |states| && i <= |actions|
  {
    exists n :: p < n < i && Flushes(states[n], actions[n], k)
  }

  /** A slave is on its way to slot k. */
  ghost predicate UnderWay(s: State, k: int) { exists j :: Covers(s.slaves(j), k) }

  lemma RoundStep(c: Config, s: State, a: Action)
    requires AwakeInv(c, s) && Enabled(c, s, a) && Bounded(s, a) && Published(Apply(c, s, a).master)
    ensures var z := Apply(c, s, a);
      if !Published(s.master) then z.word.start == 0
      else z.word == Word(s.word.valid, if Claims(s, a) then s.word.start + BATCH else s.word.start)
  {
  }

  /** The start grows by a batch with every claim; the size stays. */
  lemma {:induction false} StartGrows(c: Config, states: seq<State>, actions: seq<Action>, p: nat, n: nat, m: nat)
    requires BoundedExecution(c, states, actions) && InRound(states, p, m) && p < n <= m
    ensures states[n].word.valid == states[m].word.valid && states[n].word.start <= states[m].word.start
    ensures n < m && Claims(states[n], actions[n]) ==> states[n].word.start + BATCH <= states[m].word.start
  {
    hide Enabled, Apply, AwakeInv, Claims, Bounded, Published;
    if n < m {
      assert InRound(states, p, m - 1);
      StartGrows(c, states, actions, p, n, m - 1);
      ExecutionAwake(c, states, actions, m - 1);
      assert Enabled(c, states[m - 1], actions[m - 1]) && Bounded(states[m - 1], actions[m - 1]);
      assert Published(states[m].master) && Published(states[m - 1].master);
      RoundStep(c, states[m - 1], actions[m - 1]);
    }
  }

  /** Every slot below the start is in the window of a claim of the round. */
  lemma {:induction false} WindowClaim(c: Config, states: seq<State>, actions: seq<Action>, p: nat, i: nat, k: int)
    returns (n: nat)
    requires BoundedExecution(c, states, actions) && InRound(states, p, i) && 0 <= k < states[i].word.start
    ensures p < n < i && Claims(states[n], actions[n]) && states[n].word.start <= k < states[n].word.start + BATCH
    decreases i
  {
    hide Enabled, Apply, AwakeInv, Claims, Bounded, Published;
    ExecutionAwake(c, states, actions, i - 1);
    assert Enabled(c, states[i - 1], actions[i - 1]) && Bounded(states[i - 1], actions[i - 1]);
    assert Published(states[i].master);
    RoundStep(c, states[i - 1], actions[i - 1]);
    assert p < i - 1 ==> InRound(states, p, i - 1) && Published(states[i - 1].master);
    if p < i - 1 && k < states[i - 1].word.start {
      n := WindowClaim(c, states, actions, p, i - 1, k);
    } else {
      n := i - 1;
    }
  }

  /** A claim works on the window of one batch from the start; a published slot there is claimed or left out. */
  lemma Window(s: State, a: Action, k: int)
    requires Claims(s, a) && Bounded(s, a) && 0 <= s.word.start
    ensures s.word.start <= BatchEnd(s, a) <= s.word.start + BATCH
    ensures ClaimsSlot(s, a, k) || LeavesOut(s, a, k) ==> s.word.start <= k < s.word.start + BATCH
    ensures s.word.start <= k < s.word.start + BATCH && k < s.word.valid ==>
      (ClaimsSlot(s, a, k) <==> !LeavesOut(s, a, k))
  {
  }

  lemma StartOk(c: Config, states: seq<State>, actions: seq<Action>, n: nat)
    requires BoundedExecution(c, states, actions) && n < |actions|
    ensures 0 <= states[n].word.start && Bounded(states[n], actions[n])
  {
    ExecutionAwake(c, states, actions, n);
  }

  /** The batches of two claims of a round do not overlap, whatever sizes they use. */
  lemma ClaimsDisjoint(c: Config, states: seq<State>, actions: seq<Action>, p: nat, i: nat, n: nat, m: nat)
    requires BoundedExecution(c, states, actions) && InRound(states, p, i) && p < n < m < i
    requires Claims(states[n], actions[n]) && Claims(states[m], actions[m])
    ensures BatchEnd(states[n], actions[n]) <= states[n].word.start + BATCH <= states[m].word.start
  {
    hide Enabled, Apply, Claims, Bounded, BatchEnd;
    assert InRound(states, p, m);
    StartGrows(c, states, actions, p, n, m);
    StartOk(c, states, actions, n);
    Window(states[n], actions[n], 0);
  }

  /** Only the claim at n works on slot k. */
  lemma OneClaim(c: Config, states: seq<State>, actions: seq<Action>, p: nat, i: nat, n: nat, m: nat, k: int)
    requires BoundedExecution(c, states, actions) && InRound(states, p, i) && p < n < i && p < m < i
    requires Claims(states[n], actions[n]) && states[n].word.start <= k < states[n].word.start + BATCH
    ensures ClaimsSlot(states[m], actions[m], k) || LeavesOut(states[m], actions[m], k) ==> m == n
  {
    hide Enabled, Apply, Bounded, BatchEnd;
    StartOk(c, states, actions, m);
    if Claims(states[m], actions[m]) {
      Window(states[m], actions[m], k);
      if n < m { ClaimsDisjoint(c, states, actions, p, i, n, m); }
      if m < n { ClaimsDisjoint(c, states, actions, p, i, m, n); }
    }
  }

  /** At the end of a round a published slot was claimed exactly when no claim of the round left it out. */
  lemma ClaimedIff(c: Config, states: seq<State>, actions: seq<Action>, p: nat, i: nat, k: int)
    requires BoundedExecution(c, states, actions) && Round(c, states, p, i) && 0 <= k < states[i].word.valid
    ensures ClaimedIn(states, actions, p, i, k) <==> !LeftOutIn(states, actions, p, i, k)
  {
    hide Enabled, Apply, Claims, Bounded, ClaimsSlot, LeavesOut;
    NobodyAtWork(c, states, actions, i);
    var n := WindowClaim(c, states, actions, p, i, k);
    StartGrows(c, states, actions, p, n, i);
    StartOk(c, states, actions, n);
    Window(states[n], actions[n], k);
    forall m | p < m < i && (ClaimsSlot(states[m], actions[m], k) || LeavesOut(states[m], actions[m], k))
      ensures m == n
    {
      OneClaim(c, states, actions, p, i, n, m, k);
    }
  }

  /** Every slot of a round was claimed exactly when no claim of the round stopped short of the word's batch. */
  lemma AllClaimedIff(c: Config, states: seq<State>, actions: seq<Action>, p: nat, i: nat)
    requires BoundedExecution(c, states, actions) && Round(c, states, p, i)
    ensures (forall k | 0 <= k < states[i].word.valid :: ClaimedIn(states, actions, p, i, k))
       <==> forall n | p < n < i :: !Short(states[n], actions[n])
  {
    hide Enabled, Apply, Bounded, ClaimedIn, Short, LeavesOut;
    forall k | 0 <= k < states[i].word.valid
      ensures ClaimedIn(states, actions, p, i, k) <==> !LeftOutIn(states, actions, p, i, k)
    {
      ClaimedIff(c, states, actions, p, i, k);
    }
    forall n | p < n < i
      ensures Short(states[n], actions[n])
         <==> exists k :: 0 <= k < states[i].word.valid && LeavesOut(states[n], actions[n], k)
    {
      StartGrows(c, states, actions, p, n, i);
      StartOk(c, states, actions, n);
      ShortLeaves(states[n], actions[n]);
    }
    forall n | p < n < i && Short(states[n], actions[n])
      ensures exists k :: 0 <= k < states[i].word.valid && LeftOutIn(states, actions, p, i, k)
    {
      var k :| 0 <= k < states[i].word.valid && LeavesOut(states[n], actions[n], k);
      assert LeftOutIn(states, actions, p, i, k);
    }
  }

  lemma ShortLeaves(s: State, a: Action)
    requires Bounded(s, a) && 0 <= s.word.start
    ensures Short(s, a) <==> exists k :: 0 <= k < s.word.valid && LeavesOut(s, a, k)
  {
    if Short(s, a) {
      var k := BatchEnd(s, a);
      assert LeavesOut(s, a, k);
    }
  }

  // ---- The flushes of a round

  /** Who is on the way to slot k claimed it in the round, or was on the way at the publication. */
  lemma {:induction false} ComesFrom(c: Config, states: seq<State>, actions: seq<Action>, p: nat, m: nat, j: int,
      k: int)
    requires BoundedExecution(c, states, actions) && p < m < |states| && Covers(states[m].slaves(j), k)
    ensures ClaimedIn(states, actions, p, m, k) || Covers(states[p + 1].slaves(j), k)
    decreases m
  {
    if m > p + 1 {
      var s, a := states[m - 1], actions[m - 1];
      assert Enabled(c, s, a) && Bounded(s, a);
      if Covers(s.slaves(j), k) {
        ComesFrom(c, states, actions, p, m - 1, j, k);
      } else {
        StartOk(c, states, actions, m - 1);
        assert ClaimsSlot(s, a, k);
      }
    }
  }

  /** Who is on the way to slot k has flushed it by the time it is not at work. */
  lemma {:induction false} GetsThere(c: Config, states: seq<State>, actions: seq<Action>, m: nat, i: nat, j: int,
      k: int)
    requires Execution(c, states, actions) && m <= i < |states|
    requires Covers(states[m].slaves(j), k) && !states[i].slaves(j).Flushing?
    ensures exists n :: m <= n < i && Flushes(states[n], actions[n], k)
    decreases i - m
  {
    assert Enabled(c, states[m], actions[m]) && states[m + 1] == Apply(c, states[m], actions[m]);
    if actions[m] == SlaveStep(j) && states[m].slaves(j).cur == k {
      assert Flushes(states[m], actions[m], k);
    } else {
      GetsThere(c, states, actions, m + 1, i, j, k);
    }
  }

  /**
    At the end of a round a slot was flushed since the publication exactly when it was claimed in the
    round, or a slave with an older claim was on its way to it at the publication.
  */
  lemma FlushedIff(c: Config, states: seq<State>, actions: seq<Action>, p: nat, i: nat, k: int)
    requires BoundedExecution(c, states, actions) && Round(c, states, p, i)
    ensures FlushedIn(states, actions, p, i, k)
       <==> ClaimedIn(states, actions, p, i, k) || UnderWay(states[p + 1], k)
  {
    hide Enabled, Apply, Bounded;
    NobodyAtWork(c, states, actions, i);
    if FlushedIn(states, actions, p, i, k) {
      var n :| p < n < i && Flushes(states[n], actions[n], k);
      AtWorkCovers(c, states, actions, n, actions[n].slave);
      ComesFrom(c, states, actions, p, n, actions[n].slave, k);
    }
    if ClaimedIn(states, actions, p, i, k) {
      var n :| p < n < i && ClaimsSlot(states[n], actions[n], k);
      ClaimCovers(c, states, actions, n, k);
      GetsThere(c, states, actions, n + 1, i, actions[n].slave, k);
    }
    if UnderWay(states[p + 1], k) {
      var j :| Covers(states[p + 1].slaves(j), k);
      GetsThere(c, states, actions, p + 1, i, j, k);
    }
  }

  lemma ClaimCovers(c: Config, states: seq<State>, actions: seq<Action>, n: nat, k: int)
    requires BoundedExecution(c, states, actions) && n < |actions| && ClaimsSlot(states[n], actions[n], k)
    ensures Covers(states[n + 1].slaves(actions[n].slave), k)
  {
    assert Enabled(c, states[n], actions[n]) && states[n + 1] == Apply(c, states[n], actions[n]);
  }

  /** A slave at work has a slot to flush. */
  lemma {:induction false} AtWorkCovers(c: Config, states: seq<State>, actions: seq<Action>, n: nat, j: int)
    requires BoundedExecution(c, states, actions) && n < |states|
    ensures NonEmpty(states[n].slaves(j))
  {
    if n > 0 {
      AtWorkCovers(c, states, actions, n - 1, j);
      StartOk(c, states, actions, n - 1);
      assert Enabled(c, states[n - 1], actions[n - 1]);
    }
  }

  /**
    The barrier: when the master goes on, every published slot was flushed since the publication exactly
    when each slot that a claim of the round left out had an older claim under way.
  */
  lemma BarrierIff(c: Config, states: seq<State>, actions: seq<Action>, p: nat, i: nat)
    requires BoundedExecution(c, states, actions) && Round(c, states, p, i)
    ensures (forall k | 0 <= k < states[i].word.valid :: FlushedIn(states, actions, p, i, k))
       <==> forall k | 0 <= k < states[i].word.valid && LeftOutIn(states, actions, p, i, k) ::
              UnderWay(states[p + 1], k)
  {
    hide Enabled, Apply, Bounded, ClaimedIn, FlushedIn, LeftOutIn, UnderWay;
    forall k | 0 <= k < states[i].word.valid
      ensures FlushedIn(states, actions, p, i, k)
         <==> (LeftOutIn(states, actions, p, i, k) ==> UnderWay(states[p + 1], k))
    {
      ClaimedIff(c, states, actions, p, i, k);
      FlushedIff(c, states, actions, p, i, k);
    }
  }

  // ---- Rounds of sound claims

  /** Before a scan that follows a completed round, or the first one. */
  predicate Between(c: Config, m: Master) { m.Reset? || (m.Waiting? && c.slaves <= m.next) }

  /** Nobody is at work, and nobody has a size that gives it work. */
  ghost predicate AtRest(c: Config, s: State) {
    && Between(c, s.master)
    && 0 < c.slaves && OthersOk(c, s.slaves) && 0 <= s.word.valid <= s.word.start
    && (forall j :: Harmless(s.slaves(j), s.word)) && (forall j | 0 <= j < c.slaves :: !s.flushing(j))
  }

  /** From there on the invariant of sound claims comes back with the next scan, whatever happened before. */
  lemma NextRest(c: Config, s: State, a: Action)
    requires AtRest(c, s) && Enabled(c, s, a) && Bounded(s, a)
    ensures if Between(c, Apply(c, s, a).master) then AtRest(c, Apply(c, s, a)) else Inv(c, Apply(c, s, a))
  {
    var z := Apply(c, s, a);
    if Between(c, z.master) {
      forall j ensures Harmless(z.slaves(j), z.word) {
        assert Harmless(s.slaves(j), s.word);
      }
    }
  }

  lemma RestNow(c: Config, s: State)
    requires AwakeInv(c, s) && s.master == Waiting(c.slaves)
    ensures AtRest(c, s)
  {
    IdleNow(c, s);
  }

  /**
    State b is the start of the run or the end of a round, the scan of the next round is at state n, and
    the claims from there to state i were sound.
  */
  ghost predicate SoundSince(c: Config, states: seq<State>, actions: seq<Action>, b: nat, n: nat, i: nat) {
    && BoundedExecution(c, states, actions) && b < n <= i < |states|
    && (b == 0 || states[b].master == Waiting(c.slaves))
    && (forall k | b <= k < n :: Between(c, states[k].master)) && !Between(c, states[n].master)
    && forall k | n <= k < i :: Sound(states[k], actions[k])
  }

  lemma {:induction false} RestUntil(c: Config, states: seq<State>, actions: seq<Action>, b: nat, i: nat)
    requires BoundedExecution(c, states, actions) && b <= i < |states|
    requires b == 0 || states[b].master == Waiting(c.slaves)
    requires forall k | b <= k <= i :: Between(c, states[k].master)
    ensures AtRest(c, states[i])
  {
    hide Enabled, Apply, Inv, AwakeInv;
    if b < i {
      RestUntil(c, states, actions, b, i - 1);
      assert Enabled(c, states[i - 1], actions[i - 1]) && Bounded(states[i - 1], actions[i - 1]);
      assert Between(c, states[i].master);
      NextRest(c, states[i - 1], actions[i - 1]);
    } else if b > 0 {
      ExecutionAwake(c, states, actions, b);
      RestNow(c, states[b]);
    }
  }

  lemma {:induction false} SinceInv(c: Config, states: seq<State>, actions: seq<Action>, b: nat, n: nat, i: nat)
    requires SoundSince(c, states, actions, b, n, i)
    ensures Inv(c, states[i])
    decreases i
  {
    hide Enabled, Apply, Inv, AtRest, Bounded, Sound;
    var s, a := states[i - 1], actions[i - 1];
    assert Enabled(c, s, a) && Bounded(s, a) && states[i] == Apply(c, s, a);
    if n == i {
      RestUntil(c, states, actions, b, i - 1);
      NextRest(c, s, a);
    } else {
      SinceInv(c, states, actions, b, n, i - 1);
      assert Sound(s, a);
      NextInv(c, s, a);
    }
  }

  /** If the claims since the scan after the last completed round were sound, every slot is flushed exactly once. */
  lemma BarrierSince(c: Config, states: seq<State>, actions: seq<Action>, b: nat, n: nat, i: nat)
    requires SoundSince(c, states, actions, b, n, i) && states[i].master == Waiting(c.slaves)
    ensures FlushedOnce(states[i])
  {
    SinceInv(c, states, actions, b, n, i);
    AllIdle(c, states[i]);
  }

  /** Then, at any time, a slot was flushed at most once, and at most one slave is to flush it. */
  lemma ClaimedOnce(c: Config, states: seq<State>, actions: seq<Action>, b: nat, n: nat, i: nat, k: int)
    requires SoundSince(c, states, actions, b, n, i)
    ensures 0 <= states[i].done(k) <= 1
    ensures forall j | Covers(states[i].slaves(j), k) :: states[i].claimant(k) == j && states[i].done(k) == 0
    ensures states[i].claimant(k) != -1 <==> 0 <= k < Min(states[i].word.start, states[i].word.valid)
  {
    SinceInv(c, states, actions, b, n, i);
  }

  /** In runs of sound claims every round meets the barrier. */
  lemma Barrier(c: Config, states: seq<State>, actions: seq<Action>, i: nat)
    requires SoundExecution(c, states, actions) && i < |states| && states[i].master == Waiting(c.slaves)
    ensures FlushedOnce(states[i])
  {
    hide Enabled, Apply, FlushedOnce;
    var n := FirstScan(c, states, actions, i);
    BarrierSince(c, states, actions, 0, n, i);
  }

  lemma {:induction false} FirstScan(c: Config, states: seq<State>, actions: seq<Action>, i: nat) returns (n: nat)
    requires Execution(c, states, actions) && i < |states| && !states[i].master.Reset?
    ensures 0 < n <= i && states[n].master.Scan? && forall k | 0 <= k < n :: states[k].master.Reset?
  {
    assert Enabled(c, states[i - 1], actions[i - 1]) && states[i] == Apply(c, states[i - 1], actions[i - 1]);
    if exists k :: 0 <= k < i && !states[k].master.Reset? {
      var k :| 0 <= k < i && !states[k].master.Reset?;
      n := FirstScan(c, states, actions, k);
    } else {
      n := i;
    }
  }
}
