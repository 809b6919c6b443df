/**
  What a round of the master does to the queue: how many entries it scans, how many it removes, and
  the recovery PLSN it publishes, whatever the other threads do in between.
*/
module DirtyPageRounds {
  import opened Common
  import opened DirtyPageQueue
  import opened DirtyPageInvariant
  import M = DirtyPageMaster
  import S = DirtyPageSafety

  // ---- The scan

  /** The entries a scan is to look at, read from the queue length and bounded by the capacity. */
  function ScanSize(count: int, cap: nat): nat { Max(0, Min(count, cap)) as nat }

  /** The list ends here: there is no entry behind the first `adv` of it. */
  predicate ListEnds(s: State, a: Action, adv: nat) {
    a.MasterStep? &&
    match s.master
    case ScanVec(_, _, _) => s.vec == [] && s.q.word.head.Null? && adv == 0
    case ScanNext(_, _, _, here, done) => s.q.next(here).Null? && adv == done
    case _ => false
  }

  ghost predicate ListEnded(states: seq<State>, actions: seq<Action>, i: nat, j: nat, adv: nat)
    requires |states| == |actions| + 1 && j < |states|
  {
    exists k {:trigger actions[k]} | i < k < j :: ListEnds(states[k], actions[k], adv)
  }

  /** The entries looked at so far. */
  function Looked(m: Master): nat { if m.ScanPage? || m.ScanNext? || m.Flushing? then m.adv else 0 }

  /** Where a scan of n entries stands; `ended` when the list ended behind those looked at. */
  predicate Scanning(m: Master, max: int, n: nat, ended: bool) {
    match m
    case ScanVec(top, _, size) => top == max && size == n
    case ScanPage(top, _, left, cur, adv) => top == max && adv + left == n && (cur.Null? ==> ended)
    case ScanNext(top, _, left, _, adv) => top == max && adv + left == n
    case Flushing(top, _, adv) => top == max && adv <= n && (adv < n ==> ended)
    case _ => false
  }

  lemma NextScanning(s: State, a: Action, max: int, n: nat, before: bool, after: bool)
    requires Enabled(s, a) && Scanning(s.master, max, n, before) && !s.master.Flushing?
    requires before && Looked(Apply(s, a).master) == Looked(s.master) ==> after
    requires ListEnds(s, a, Looked(Apply(s, a).master)) ==> after
    ensures Scanning(Apply(s, a).master, max, n, after)
  {
  }

  lemma BeginScanning(s: State, a: Action)
    requires Enabled(s, a) && s.master.Began? && a.MasterStep?
    ensures Scanning(Apply(s, a).master, s.master.max, ScanSize(s.count, a.cap), false)
  {
  }

  lemma {:induction false} ScanRun(states: seq<State>, actions: seq<Action>, i: nat, j: nat)
    requires S.Execution(states, actions) && i < j < |states|
    requires states[i].master.Began? && actions[i].MasterStep?
    requires forall k | i < k < j :: !states[k].master.Flushing?
    ensures Scanning(states[j].master, states[i].master.max, ScanSize(states[i].count, actions[i].cap),
                     ListEnded(states, actions, i, j, Looked(states[j].master)))
  {
    hide Enabled, Apply, ListEnds, ScanSize;
    var s, a, z := states[j - 1], actions[j - 1], states[j];
    assert Enabled(s, a) && z == Apply(s, a);
    if j == i + 1 {
      BeginScanning(s, a);
    } else {
      hide Scanning;
      ScanRun(states, actions, i, j - 1);
      NextScanning(s, a, states[i].master.max, ScanSize(states[i].count, actions[i].cap),
                   ListEnded(states, actions, i, j - 1, Looked(s.master)),
                   ListEnded(states, actions, i, j, Looked(z.master)));
    }
  }

  /**
    A scan looks at as many entries as the queue length it read, bounded by the capacity; it looks at
    fewer only when the list ended behind the last one. It keeps the PLSN read before it.
  */
  lemma ScanEnds(states: seq<State>, actions: seq<Action>, i: nat, j: nat)
    requires S.Execution(states, actions) && i < j < |states|
    requires states[i].master.Began? && actions[i].MasterStep?
    requires states[j].master.Flushing? && forall k | i < k < j :: !states[k].master.Flushing?
    ensures
      var n := Max(0, Min(states[i].count, actions[i].cap));
      var adv := states[j].master.adv;
      adv == n || (adv < n && exists k | i < k < j :: ListEnds(states[k], actions[k], adv))
    ensures states[j].master.max == states[i].master.max && states[j].vec == []
  {
    ScanRun(states, actions, i, j);
    S.ExecutionInv(states, actions, j);
  }

  /** Only a dirty page is handed to the slave writers: a parked one, or the one the scan looks at. */
  lemma HandedOut(s: State, a: Action, p: int)
    requires Enabled(s, a) && p in Apply(s, a).cand && p !in s.cand
    ensures a.MasterStep? && s.f.dirty(p)
    ensures (s.master.ScanVec? && s.vec != [] && p == s.vec[0]) || (s.master.ScanPage? && s.master.cur == At(p))
  {
  }

  /** A candidate stops being one exactly when it is found clean, or a write of it begun for a slave ends. */
  lemma Reported(s: State, a: Action, p: int)
    requires Enabled(s, a) && p in s.cand
    ensures p !in Apply(s, a).cand <==>
      || (a.SkipClean? && a.target == p && !s.f.dirty(p))
      || (a.FlushEnd? && a.target == p && SlaveIo(s.d, p))
  {
  }

  // ---- Removing the entries

  /** There is no memory to park a page that is dirty again. */
  predicate StopsShort(s: State, a: Action) {
    s.master.AdvLock? && a.MasterStep? && a.vecFull && s.f.dirty(s.master.here)
  }

  ghost predicate StoppedShort(states: seq<State>, actions: seq<Action>, i: nat, j: nat)
    requires |states| == |actions| + 1 && j < |states|
  {
    exists k {:trigger actions[k]} | i <= k < j :: StopsShort(states[k], actions[k])
  }

  /** Where a round stands that found `first` entries removed and is to remove the next `adv`. */
  predicate Removing(m: Master, h: History, first: nat, adv: nat, stopped: bool) {
    match m
    case Flushing(_, _, n) => !stopped && n == adv && h.removed == first
    case Publish(plsn) => RoundDone(h, plsn, first, adv, stopped)
    case _ => !stopped && !m.Start? && first <= h.removed && Goal(m, h.removed) == first + adv && Advances(m)
  }

  predicate Advances(m: Master) { m.AdvNext? || m.AdvLock? || m.AdvHead? || m.AdvCas? || m.AdvRem? }

  /** The entries removed, and the PLSN of the last one; of the first one left when the round stopped short. */
  predicate RoundDone(h: History, plsn: int, first: nat, adv: nat, stopped: bool) {
    if stopped
    then first <= h.removed < first + adv && h.removed < |h.pushed| && plsn == h.pushed[h.removed].plsn
    else h.removed == first + adv <= |h.pushed| && 0 < adv && plsn == h.pushed[h.removed - 1].plsn
  }

  /** Every other thread leaves the entries pushed so far, the number removed and the master alone. */
  lemma OthersKeep(s: State, a: Action)
    requires Enabled(s, a) && !a.MasterStep?
    ensures var z := Apply(s, a);
      && z.master == s.master && z.recovery == s.recovery && z.q.h.removed == s.q.h.removed
      && s.q.h.pushed <= z.q.h.pushed
  {
  }

  /** What the invariant says of the entry at hand. */
  predicate EntryAtHand(s: State) {
    && (s.master.AdvNext? ==> s.master.cur.At? && s.master.left > 0)
    && (s.master.AdvLock? ==>
          s.q.h.removed < |s.q.h.pushed| && s.rplsn(s.master.here) == s.q.h.pushed[s.q.h.removed].plsn)
    && (s.master.AdvRem? ==>
          0 < s.q.h.removed <= |s.q.h.pushed| && s.master.plsn == s.q.h.pushed[s.q.h.removed - 1].plsn)
  }

  lemma AtHand(s: State)
    requires Inv(s) && MasterEnabled(s)
    ensures EntryAtHand(s)
  {
    if s.master.AdvLock? { M.LockFacts(s, s.master.here); }
  }

  lemma MasterRemoving(s: State, cap: nat, vecFull: bool, first: nat, adv: nat, stopped: bool)
    requires EntryAtHand(s) && 0 < adv && Removing(s.master, s.q.h, first, adv, stopped) && !s.master.Publish?
    ensures var z := MasterApply(s, cap, vecFull);
      && Removing(z.master, z.q.h, first, adv, stopped || StopsShort(s, MasterStep(cap, vecFull)))
      && z.recovery == s.recovery
  {
  }

  lemma NextRemoving(s: State, a: Action, first: nat, adv: nat, stopped: bool)
    requires Inv(s) && Enabled(s, a) && 0 < adv && Removing(s.master, s.q.h, first, adv, stopped)
    requires !(a.MasterStep? && s.master.Publish?)
    ensures Removing(Apply(s, a).master, Apply(s, a).q.h, first, adv, stopped || StopsShort(s, a))
    ensures Apply(s, a).recovery == s.recovery
  {
    hide Inv, MasterApply;
    if a.MasterStep? {
      hide Removing;
      AtHand(s);
      MasterRemoving(s, a.cap, a.vecFull, first, adv, stopped);
    } else {
      hide Enabled, Apply;
      OthersKeep(s, a);
    }
  }

  predicate Publishes(s: State, a: Action) { s.master.Publish? && a.MasterStep? }

  lemma {:induction false} RemoveRun(states: seq<State>, actions: seq<Action>, i: nat, j: nat)
    requires S.Execution(states, actions) && i <= j < |states|
    requires states[i].master.Flushing? && states[i].master.adv > 0
    requires forall k | i <= k < j :: !Publishes(states[k], actions[k])
    ensures Removing(states[j].master, states[j].q.h, states[i].q.h.removed, states[i].master.adv,
                     StoppedShort(states, actions, i, j))
    ensures states[j].recovery == states[i].recovery
  {
    hide Enabled, Apply, Inv, StopsShort;
    if i < j {
      var s, a := states[j - 1], actions[j - 1];
      RemoveRun(states, actions, i, j - 1);
      S.ExecutionInv(states, actions, j - 1);
      assert Enabled(s, a) && states[j] == Apply(s, a);
      assert !Publishes(s, a);
      hide Removing;
      NextRemoving(s, a, states[i].q.h.removed, states[i].master.adv, StoppedShort(states, actions, i, j - 1));
    }
  }

  lemma NextPublished(s: State, a: Action)
    requires Enabled(s, a) && Publishes(s, a)
    ensures Apply(s, a).master.Start? && Apply(s, a).recovery == s.master.plsn && Apply(s, a).q == s.q
  {
  }

  /**
    A round that scanned `adv` entries removes exactly that many and publishes the PLSN of the last one.
    When a page dirty again cannot be parked it removes fewer, and publishes the PLSN of the entry at
    the head. The recovery PLSN stays what it was until then.
  */
  lemma RoundRemoves(states: seq<State>, actions: seq<Action>, i: nat, j: nat)
    requires S.Execution(states, actions) && i < j < |actions|
    requires states[i].master.Flushing? && states[i].master.adv > 0
    requires Publishes(states[j], actions[j]) && forall k | i <= k < j :: !Publishes(states[k], actions[k])
    ensures states[j].recovery == states[i].recovery && states[j + 1].recovery == states[j].master.plsn
    ensures states[j + 1].q == states[j].q && states[j + 1].master.Start?
    ensures
      var first, adv := states[i].q.h.removed, states[i].master.adv;
      var h := states[j].q.h;
      if exists k | i <= k < j :: StopsShort(states[k], actions[k])
      then
        && first <= h.removed < first + adv && h.removed < |h.pushed|
        && states[j].master.plsn == h.pushed[h.removed].plsn
      else h.removed == first + adv <= |h.pushed| && states[j].master.plsn == h.pushed[first + adv - 1].plsn
  {
    hide StopsShort, Enabled, Apply, Inv;
    RemoveRun(states, actions, i, j);
    assert Enabled(states[j], actions[j]) && states[j + 1] == Apply(states[j], actions[j]);
    NextPublished(states[j], actions[j]);
    assert StoppedShort(states, actions, i, j) <==> exists k | i <= k < j :: StopsShort(states[k], actions[k]);
  }

  // ---- A round with nothing to remove

  /** The queue word is still the empty one that the master read. */
  predicate SwapsEmpty(s: State, a: Action) { s.master.EmptyCas? && a.MasterStep? && s.q.word == s.master.seen }

  ghost predicate SwappedEmpty(states: seq<State>, actions: seq<Action>, i: nat, j: nat)
    requires |states| == |actions| + 1 && j < |states|
  {
    exists k {:trigger actions[k]} | i <= k < j :: SwapsEmpty(states[k], actions[k])
  }

  /** Where a round with nothing to remove stands; `was` is the recovery PLSN it found. */
  predicate Emptying(m: Master, recovery: int, removed: nat, max: int, was: int, first: nat, swapped: bool) {
    && removed == first
    && match m
       case Flushing(top, _, adv) => adv == 0 && top == max && !swapped && recovery == was
       case EmptyLoad(top) => top == max && !swapped && recovery == was
       case EmptyCas(top, _) => top == max && !swapped && recovery == was
       case EmptyPublish(top) => top == max && swapped && recovery == was
       case Start => recovery == if swapped then max else was
       case _ => false
  }

  lemma NextEmptying(s: State, a: Action, max: int, was: int, first: nat, swapped: bool)
    requires Enabled(s, a) && !s.master.Start?
    requires Emptying(s.master, s.recovery, s.q.h.removed, max, was, first, swapped)
    ensures var z := Apply(s, a);
      Emptying(z.master, z.recovery, z.q.h.removed, max, was, first, swapped || SwapsEmpty(s, a))
  {
    if !a.MasterStep? {
      hide Enabled, Apply;
      OthersKeep(s, a);
    }
  }

  lemma {:induction false} EmptyRun(states: seq<State>, actions: seq<Action>, i: nat, j: nat)
    requires S.Execution(states, actions) && i <= j < |states|
    requires states[i].master.Flushing? && states[i].master.adv == 0
    requires forall k | i <= k < j :: !states[k].master.Start?
    ensures Emptying(states[j].master, states[j].recovery, states[j].q.h.removed, states[i].master.max,
                     states[i].recovery, states[i].q.h.removed, SwappedEmpty(states, actions, i, j))
  {
    hide Enabled, Apply, SwapsEmpty;
    if i < j {
      var s, a := states[j - 1], actions[j - 1];
      EmptyRun(states, actions, i, j - 1);
      assert Enabled(s, a) && states[j] == Apply(s, a);
      hide Emptying;
      NextEmptying(s, a, states[i].master.max, states[i].recovery, states[i].q.h.removed,
                   SwappedEmpty(states, actions, i, j - 1));
    }
  }

  /**
    A round with nothing to remove leaves the entries alone. It publishes the PLSN read before the scan
    exactly when the queue was still as empty as it had read it, and otherwise nothing.
  */
  lemma EmptyRoundPublishes(states: seq<State>, actions: seq<Action>, i: nat, j: nat)
    requires S.Execution(states, actions) && i < j < |states|
    requires states[i].master.Flushing? && states[i].master.adv == 0
    requires states[j].master.Start? && forall k | i <= k < j :: !states[k].master.Start?
    ensures states[j].q.h.removed == states[i].q.h.removed
    ensures states[j].recovery ==
      if exists k | i <= k < j :: SwapsEmpty(states[k], actions[k]) then states[i].master.max else states[i].recovery
  {
    hide SwapsEmpty;
    EmptyRun(states, actions, i, j);
    assert SwappedEmpty(states, actions, i, j) <==> exists k | i <= k < j :: SwapsEmpty(states[k], actions[k]);
  }
}
