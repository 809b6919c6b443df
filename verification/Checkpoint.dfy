/**
  Checkpoint request counters. The checkpointer counts starts and successful ends in 32-bit counters;
  backends compare counter values to learn that a checkpoint begun after their request has ended well.

  The comment of the class promises more than the code does: the code leaves the request flags and
  the fail counter alone, and a success adds one to the done counter instead of setting it to the
  start counter. The model follows the code.
*/
module Checkpoint {

  const UINT32: int := 0x1_0000_0000
  const HALF: int := 0x8000_0000

  /** How a checkpoint ended; the last one may still be running. */
  datatype Outcome = Running | Success | Failed

  class CheckpointRequest {
    var checkpointStart: int
    var checkpointDone: int
    var checkpointFail: int
    ghost var outcomes: seq<Outcome>

    /** The counters are the true counts modulo 2^32. */
    ghost predicate Valid()
      reads this
    {
      && checkpointStart == |outcomes| % UINT32 && checkpointDone == Successes(outcomes) % UINT32 && checkpointFail == 0
      && forall i | 0 <= i < |outcomes| - 1 :: outcomes[i] != Running
    }

    ghost predicate IsRunning()
      reads this
    {
      LastRuns(outcomes)
    }

    constructor ()
      ensures Valid() && outcomes == []
    {
      checkpointStart, checkpointDone, checkpointFail, outcomes := 0, 0, 0, [];
    }

    method StartCheckpoint()
      requires Valid() && !IsRunning()
      modifies this
      ensures Valid() && outcomes == old(outcomes) + [Running] && Step(old(outcomes), outcomes)
    {
      SuccessesAppend(outcomes, Running);
      NextMod(|outcomes|);
      outcomes := outcomes + [Running];
      checkpointStart := (checkpointStart + 1) % UINT32;
    }

    method FinishCheckpoint()
      requires Valid() && IsRunning()
      modifies this
      ensures Valid() && outcomes == old(outcomes)[|old(outcomes)| - 1 := Success] && Step(old(outcomes), outcomes)
    {
      SuccessesEnd(outcomes, Success);
      NextMod(Successes(outcomes));
      outcomes := outcomes[|outcomes| - 1 := Success];
      checkpointDone := (checkpointDone + 1) % UINT32;
    }

    /** CheckpointOneWalStream failed: no counter changes. */
    method FailCheckpoint()
      requires Valid() && IsRunning()
      modifies this
      ensures Valid() && outcomes == old(outcomes)[|old(outcomes)| - 1 := Failed] && Step(old(outcomes), outcomes)
    {
      SuccessesEnd(outcomes, Failed);
      outcomes := outcomes[|outcomes| - 1 := Failed];
    }
  }

  predicate LastRuns(outcomes: seq<Outcome>) { outcomes != [] && outcomes[|outcomes| - 1] == Running }

  /** A checkpoint starts, succeeds or fails. */
  predicate Step(past: seq<Outcome>, now: seq<Outcome>) {
    if LastRuns(past)
    then now == past[|past| - 1 := Success] || now == past[|past| - 1 := Failed]
    else now == past + [Running]
  }

  /** A run of the checkpointer: the history after every step. */
  predicate Run(h: seq<seq<Outcome>>) {
    h != [] && h[0] == [] && forall i | 0 <= i < |h| - 1 :: Step(h[i], h[i + 1])
  }

  function Successes(outcomes: seq<Outcome>): nat {
    if outcomes == [] then 0
    else Successes(outcomes[..|outcomes| - 1]) + if outcomes[|outcomes| - 1].Success? then 1 else 0
  }

  lemma SuccessesAppend(outcomes: seq<Outcome>, o: Outcome)
    ensures Successes(outcomes + [o]) == Successes(outcomes) + if o.Success? then 1 else 0
  {
    assert (outcomes + [o])[..|outcomes|] == outcomes;
  }

  lemma SuccessesEnd(outcomes: seq<Outcome>, o: Outcome)
    requires outcomes != [] && outcomes[|outcomes| - 1] == Running
    ensures Successes(outcomes[|outcomes| - 1 := o]) == Successes(outcomes) + if o.Success? then 1 else 0
  {
    assert outcomes[|outcomes| - 1 := o][..|outcomes| - 1] == outcomes[..|outcomes| - 1];
  }

  lemma NextMod(n: nat)
    ensures (n % UINT32 + 1) % UINT32 == (n + 1) % UINT32
  {
  }

  // ---- What a backend may conclude

  /** One history is a later one of the other: past ends stay, the running one may have ended. */
  predicate Later(now: seq<Outcome>, past: seq<Outcome>) {
    |past| <= |now| && forall i | 0 <= i < |past| && past[i] != Running :: now[i] == past[i]
  }

  lemma {:induction false} RunLater(h: seq<seq<Outcome>>, i: nat, j: nat)
    requires Run(h) && i <= j < |h|
    ensures Later(h[j], h[i])
  {
    if i < j {
      RunLater(h, i, j - 1);
      assert Step(h[j - 1], h[j]);
    }
  }

  /** Step 5 in modulo arithmetic: the signed difference of two 32-bit counters is not negative. */
  predicate Reached(done: int, saved: int) { (done - saved) % UINT32 < HALF }

  lemma {:induction false} SuccessesBound(outcomes: seq<Outcome>, n: nat)
    requires n <= |outcomes|
    ensures Successes(outcomes[..n]) <= n
    ensures Successes(outcomes) <= |outcomes|
    ensures (forall i | n <= i < |outcomes| :: !outcomes[i].Success?) ==>
        Successes(outcomes) == Successes(outcomes[..n])
    decreases |outcomes|
  {
    if n < |outcomes| {
      var most := outcomes[..|outcomes| - 1];
      SuccessesBound(most, n);
      assert most[..n] == outcomes[..n];
      assert forall i | n <= i < |most| :: most[i] == outcomes[i];
    } else if outcomes != [] {
      assert outcomes[..n] == outcomes;
      SuccessesBound(outcomes[..n - 1], n - 1);
      assert outcomes[..n - 1][..n - 1] == outcomes[..n - 1];
    }
  }

  /** More successes than checkpoints begun before n: one that began later has succeeded. */
  lemma LaterSuccess(outcomes: seq<Outcome>, n: nat)
    requires n <= |outcomes| && n < Successes(outcomes)
    ensures exists i | n <= i < |outcomes| :: outcomes[i].Success?
  {
    SuccessesBound(outcomes, n);
  }

  /** For counts less than 2^32 apart, the modular comparison is exact exactly within 2^31. */
  lemma ReachedIff(done: nat, saved: nat)
    requires -UINT32 < done - saved < UINT32
    ensures (Reached(done % UINT32, saved % UINT32) <==> done >= saved) <==> -HALF <= done - saved < HALF
  {
    ModDiff(done, saved);
  }

  lemma ModDiff(a: nat, b: nat)
    ensures (a % UINT32 - b % UINT32) % UINT32 == (a - b) % UINT32
  {
  }

  /**
    Any backend in any run: it reads the start counter at time a and asks, sees at time b that the start
    counter has changed, and at time c that the done counter has reached the value seen at b. Then a
    checkpoint that began after the request has succeeded, as long as fewer than 2^31 checkpoints were
    started since b, and the done counter is at most 2^31 behind the start counter seen at b.
  */
  lemma RequestServed(h: seq<seq<Outcome>>, a: nat, b: nat, c: nat)
    requires Run(h) && a <= b <= c < |h| && |h[b]| % UINT32 != |h[a]| % UINT32
    requires |h[c]| - |h[b]| < HALF && |h[b]| - Successes(h[c]) <= HALF
    requires Reached(Successes(h[c]) % UINT32, |h[b]| % UINT32)
    ensures exists i | |h[a]| <= i < |h[c]| :: h[c][i].Success?
  {
    RunLater(h, a, b);
    RunLater(h, b, c);
    SuccessesBound(h[c], |h[c]|);
    ReachedIff(Successes(h[c]), |h[b]|);
    LaterSuccess(h[c], |h[a]|);
  }

  // ---- Where the code differs from the comment

  /** With no checkpoint running, the done counter has caught up exactly when none ever failed. */
  lemma DoneCatchesUpIff(outcomes: seq<Outcome>)
    requires forall i | 0 <= i < |outcomes| :: outcomes[i] != Running
    ensures Successes(outcomes) == |outcomes| <==> forall i | 0 <= i < |outcomes| :: outcomes[i] != Failed
  {
    CountsFailures(outcomes);
  }

  lemma {:induction false} CountsFailures(outcomes: seq<Outcome>)
    requires forall i | 0 <= i < |outcomes| :: outcomes[i] != Running
    ensures Successes(outcomes) <= |outcomes|
    ensures Successes(outcomes) == |outcomes| <==> forall i | 0 <= i < |outcomes| :: outcomes[i] != Failed
  {
    if outcomes != [] {
      var most := outcomes[..|outcomes| - 1];
      assert forall i | 0 <= i < |most| :: most[i] == outcomes[i];
      CountsFailures(most);
    }
  }

  /** After one failure, a backend whose checkpoint has succeeded is still told to wait. */
  lemma StillWaiting()
    ensures var requested, now := [Failed], [Failed, Success];
      && Later(now, requested) && now[|requested|].Success?
      && !Reached(Successes(now) % UINT32, |now| % UINT32)
  {
    assert Successes([Failed]) == 0;
    SuccessesAppend([Failed], Success);
    assert [Failed] + [Success] == [Failed, Success];
  }
}
