/**
  Usage counts. They decide whether an accessed LRU node stays, moves to the head of its list or goes
  hot. The count is read without a lock, so in a run the decision holds for the time of the read; a
  BufferAccessStat that is not disturbed does exactly what its counts say.
*/
module LruUsage {
  import opened Common
  import opened LruLists
  import O = LruOwnership
  import P = LruPlacement

  // ---- Every run

  /** The thread works for node n, or has it. */
  predicate Concerns(s: State, a: Action, n: int) {
    match s.jobs(a.thread)
    case Accesses(x) => x == n
    case Unlinks(x, _) => x == n
    case _ => s.threads(a.thread).Holds(n)
  }

  /** What a step of thread t may do to the usage count of node n. */
  predicate UsageStep(s: State, z: State, a: Action, n: int) {
    && z.usage(n) in {s.usage(n), (s.usage(n) + 1) % 256, 0}
    && (z.usage(n) != s.usage(n) ==> a.Step? && Concerns(s, a, n))
    && (s.tags(n).Lru? && z.tags(n).Pending? && !s.jobs(a.thread).Evicts? ==> z.usage(n) == 0)
  }

  lemma AccessUsage(s: State, t: int, choice: nat, n: int)
    requires O.Inv(s) && P.JobOk(s.threads(t), s.jobs(t)) && s.jobs(t).Accesses? && !s.threads(t).Idle?
    ensures UsageStep(s, ThreadApply(s, t, choice), Step(t, choice), n)
  {
    if s.lists(Hot) != [] { O.NodeAt(s, Hot, 0); }
    hide O.Inv;
  }

  lemma UnlinkUsage(s: State, t: int, choice: nat, n: int)
    requires P.JobOk(s.threads(t), s.jobs(t)) && s.jobs(t).Unlinks? && !s.threads(t).Idle?
    ensures UsageStep(s, ThreadApply(s, t, choice), Step(t, choice), n)
  {
  }

  lemma OtherUsage(s: State, t: int, choice: nat, n: int)
    requires O.Inv(s) && P.JobOk(s.threads(t), s.jobs(t)) && !s.jobs(t).Accesses? && !s.jobs(t).Unlinks?
    requires !s.threads(t).Idle?
    ensures UsageStep(s, ThreadApply(s, t, choice), Step(t, choice), n)
  {
    if s.lists(Hot) != [] { O.NodeAt(s, Hot, 0); }
    hide O.Inv;
  }

  /**
    A step leaves a usage count, adds one in eight bits, or resets it, and only a thread that works for
    the node does. Taken off the LRU list by an access or a removal, the node starts again at 0.
  */
  lemma NextUsage(s: State, a: Action, n: int)
    requires O.Inv(s) && Enabled(s, a) && P.JobOk(s.threads(a.thread), s.jobs(a.thread))
    ensures var z := Apply(s, a);
      && z.usage(n) in {s.usage(n), (s.usage(n) + 1) % 256, 0}
      && (z.usage(n) != s.usage(n) ==> a.Step? && Concerns(s, a, n))
      && (s.tags(n).Lru? && z.tags(n).Pending? && !s.jobs(a.thread).Evicts? ==> z.usage(n) == 0)
  {
    hide O.Inv, P.JobOk, ThreadApply;
    if a.Step? {
      var job := s.jobs(a.thread);
      if job.Accesses? { AccessUsage(s, a.thread, a.choice, n); }
      else if job.Unlinks? { UnlinkUsage(s, a.thread, a.choice, n); }
      else { OtherUsage(s, a.thread, a.choice, n); }
    }
  }

  /** What thread w has decided for its node, from a usage count of `used`. */
  predicate Decided(w: Thread, used: nat) {
    && (w.Touch? ==> LRU_MAX_USAGE / 2 < used < LRU_MAX_USAGE)
    && (w.Promote? ==> LRU_MAX_USAGE <= used)
  }

  predicate Decides(w: Thread) { w.Touch? || w.Promote? }

  lemma AccessTurns(s: State, t: int, choice: nat)
    requires !s.threads(t).Idle? && P.JobOk(s.threads(t), s.jobs(t)) && s.jobs(t).Accesses?
    ensures var w, v := s.threads(t), ThreadApply(s, t, choice).threads(t);
      Decides(v) && v != w ==> w == Weigh(v.n) && Decided(v, s.usage(v.n))
  {
  }

  lemma Turns(s: State, a: Action, t: int)
    requires Enabled(s, a) && P.JobOk(s.threads(t), s.jobs(t))
    ensures var w, v := s.threads(t), Apply(s, a).threads(t);
      Decides(v) && v != w ==> a.thread == t && w == Weigh(v.n) && Decided(v, s.usage(v.n))
  {
    P.OnlyActs(s, a, t);
    P.NextJob(s, a, t);
    hide ThreadApply;
    if a.Step? && a.thread == t {
      P.OneThread(s, t, a.choice, t);
      if s.jobs(t).Accesses? { AccessTurns(s, t, a.choice); }
    }
  }

  /** Thread t, about to move or promote its node, read a usage count that says so when it last weighed it. */
  lemma {:induction false} Weighed(max: nat, states: seq<State>, actions: seq<Action>, i: nat, t: int) returns (k: nat)
    requires O.Execution(max, states, actions) && i < |states| && Decides(states[i].threads(t))
    ensures k < i && actions[k].thread == t && states[k].threads(t) == Weigh(states[i].threads(t).n)
    ensures Decided(states[i].threads(t), states[k].usage(states[i].threads(t).n))
  {
    hide Enabled, Apply, P.JobOk, Decided;
    assert i > 0;
    var s, a := states[i - 1], actions[i - 1];
    assert Enabled(s, a) && states[i] == Apply(s, a);
    P.ExecutionJob(max, states, actions, i - 1, t);
    Turns(s, a, t);
    if s.threads(t) == states[i].threads(t) {
      k := Weighed(max, states, actions, i - 1, t);
    } else {
      k := i - 1;
    }
  }

  /** A step of an access on a node in the LRU list. */
  lemma AccessMoves(s: State, t: int, choice: nat, n: int)
    requires O.Inv(s) && s.jobs(t) == Accesses(n) && P.JobOk(s.threads(t), s.jobs(t)) && s.tags(n).Lru?
    requires !s.threads(t).Idle?
    ensures var z := ThreadApply(s, t, choice);
      && (z.threads(t).Holds(n) ==> s.threads(t) == Promote(n))
      && (z.tags(n).Lru? && z.lists != s.lists ==> s.threads(t) == Touch(n))
  {
    O.ThreadFacts(s, t);
    hide O.Inv;
  }

  /**
    In every run, an access takes a node off the LRU list, and then to the hot list, only when it has
    read a usage count of at least LRU_MAX_USAGE before.
  */
  lemma HotNeedsUse(max: nat, states: seq<State>, actions: seq<Action>, i: nat, t: int, n: int) returns (k: nat)
    requires O.Execution(max, states, actions) && i < |actions| && actions[i].Step? && actions[i].thread == t
    requires states[i].jobs(t) == Accesses(n) && states[i].tags(n).Lru? && states[i + 1].threads(t).Holds(n)
    ensures k < i && actions[k].thread == t && states[k].threads(t) == Weigh(n) && LRU_MAX_USAGE <= states[k].usage(n)
  {
    assert Enabled(states[i], actions[i]) && states[i + 1] == Apply(states[i], actions[i]);
    hide O.Inv, P.JobOk, ThreadApply;
    O.ExecutionInv(max, states, actions, i);
    P.ExecutionJob(max, states, actions, i, t);
    AccessMoves(states[i], t, actions[i].choice, n);
    k := Weighed(max, states, actions, i, t);
  }

  /** In every run, an access moves a node within the LRU list only when it has read a count in between. */
  lemma MoveNeedsUse(max: nat, states: seq<State>, actions: seq<Action>, i: nat, t: int, n: int) returns (k: nat)
    requires O.Execution(max, states, actions) && i < |actions| && actions[i].Step? && actions[i].thread == t
    requires states[i].jobs(t) == Accesses(n) && states[i].tags(n).Lru? && states[i + 1].tags(n).Lru?
    requires states[i + 1].lists != states[i].lists
    ensures k < i && actions[k].thread == t && states[k].threads(t) == Weigh(n)
    ensures LRU_MAX_USAGE / 2 < states[k].usage(n) < LRU_MAX_USAGE
  {
    assert Enabled(states[i], actions[i]) && states[i + 1] == Apply(states[i], actions[i]);
    hide O.Inv, P.JobOk, ThreadApply;
    O.ExecutionInv(max, states, actions, i);
    P.ExecutionJob(max, states, actions, i, t);
    AccessMoves(states[i], t, actions[i].choice, n);
    k := Weighed(max, states, actions, i, t);
  }

  // ---- BufferAccessStat undisturbed

  /** Thread t alone runs BufferAccessStat on node n, from its call in step i to its return at j. */
  ghost predicate Alone(max: nat, states: seq<State>, actions: seq<Action>, i: nat, j: nat, t: int, n: int) {
    && O.Execution(max, states, actions) && i < j < |states|
    && actions[i] == Start(t, Accesses(n)) && states[j].threads(t).Idle?
    && forall k | i < k < j :: actions[k].Step? && actions[k].thread == t && !states[k].threads(t).Idle?
  }

  /** The next state while it runs. */
  lemma AloneStep(max: nat, states: seq<State>, actions: seq<Action>, i: nat, j: nat, t: int, n: int, k: nat)
    requires Alone(max, states, actions, i, j, t, n) && i < k <= j
    ensures k == j <==> states[k].threads(t).Idle?
    ensures k < j ==> states[k + 1] == ThreadApply(states[k], t, actions[k].choice)
  {
    hide ThreadApply;
    if k < j { assert Enabled(states[k], actions[k]) && states[k + 1] == Apply(states[k], actions[k]); }
  }

  lemma AloneStart(max: nat, states: seq<State>, actions: seq<Action>, i: nat, j: nat, t: int, n: int)
    requires Alone(max, states, actions, i, j, t, n)
    ensures O.Inv(states[i]) && Same(states[i], states[i + 1]) && states[i + 1].usage == states[i].usage
    ensures states[i + 1].threads(t) == Access(n)
  {
    assert Enabled(states[i], actions[i]) && states[i + 1] == Apply(states[i], actions[i]);
    O.ExecutionInv(max, states, actions, i);
  }

  /** Nothing but usage counts, threads and history differ. */
  ghost predicate Same(s: State, z: State) {
    z.lists == s.lists && z.tags == s.tags && z.size == s.size && z.max == s.max
  }

  /** The first steps on an LRU node: it is counted, and below half of the maximum that is all. */
  lemma AloneCounts(max: nat, states: seq<State>, actions: seq<Action>, i: nat, j: nat, t: int, n: int)
    requires Alone(max, states, actions, i, j, t, n) && states[i].tags(n).Lru?
    ensures i + 3 <= j && Same(states[i], states[i + 3]) && states[i + 3].usage(n) == (states[i].usage(n) + 1) % 256
    ensures states[i + 3].threads(t) == if states[i + 3].usage(n) < LRU_MAX_USAGE / 2 then Idle else Weigh(n)
  {
    hide O.Inv, Alone;
    AloneStart(max, states, actions, i, j, t, n);
    Bounds(max, states, actions, i, j, t, n);
    AloneStep(max, states, actions, i, j, t, n, i + 1);
    AloneStep(max, states, actions, i, j, t, n, i + 2);
  }

  lemma Bounds(max: nat, states: seq<State>, actions: seq<Action>, i: nat, j: nat, t: int, n: int)
    requires Alone(max, states, actions, i, j, t, n)
    ensures i < j < |states| == |actions| + 1
  {
  }

  /** An LRU node counted to at least the maximum leaves its list, with its count reset. */
  lemma AlonePromotes(max: nat, states: seq<State>, actions: seq<Action>, i: nat, j: nat, t: int, n: int)
    requires Alone(max, states, actions, i, j, t, n) && states[i].tags(n).Lru?
    requires LRU_MAX_USAGE <= (states[i].usage(n) + 1) % 256
    ensures i + 5 <= j && states[i + 5].threads(t) == PushHot(n) && states[i + 5].usage(n) == 0
    ensures P.Unlinked(states[i], states[i + 5], Lru, n)
    ensures states[i + 5].size(Hot) == states[i].size(Hot) && states[i + 5].max == states[i].max
  {
    hide O.Inv, Alone, P.Unlinked;
    AloneCounts(max, states, actions, i, j, t, n);
    Bounds(max, states, actions, i, j, t, n);
    AloneStep(max, states, actions, i, j, t, n, i + 3);
    AloneStep(max, states, actions, i, j, t, n, i + 4);
    ReachedInv(max, states, actions, i, j, t, n, i + 4);
    P.RemoveUnlinks(states[i + 4], t, n, PushHot(n));
    SameLists(states[i], states[i + 4], states[i + 5], Lru, n);
  }

  lemma ReachedInv(max: nat, states: seq<State>, actions: seq<Action>, i: nat, j: nat, t: int, n: int, k: nat)
    requires Alone(max, states, actions, i, j, t, n) && k <= j
    ensures O.Inv(states[k])
  {
    O.ExecutionInv(max, states, actions, k);
  }

  lemma SameLists(s: State, s': State, z: State, list: Tag, n: int)
    requires s.lists == s'.lists && P.Unlinked(s', z, list, n)
    ensures P.Unlinked(s, z, list, n)
  {
  }

  /** An empty hot list with a bound of 0 never has room, so the access would not return. */
  lemma {:induction false} SomeRoom(max: nat, states: seq<State>, actions: seq<Action>, i: nat, j: nat, t: int, n: int,
      k: nat)
    requires Alone(max, states, actions, i, j, t, n) && i < k <= j
    requires states[k].threads(t).PushHot? || states[k].threads(t).MakeRoom?
    ensures states[k].size(Hot) != states[k].max || states[k].lists(Hot) != []
    decreases j - k
  {
    hide Alone;
    Bounds(max, states, actions, i, j, t, n);
    if states[k].size(Hot) == states[k].max && states[k].lists(Hot) == [] {
      AloneStep(max, states, actions, i, j, t, n, k);
      SomeRoom(max, states, actions, i, j, t, n, k + 1);
    }
  }

  /** The node at the hot tail; a full hot list gives its head, the coldest node, to the LRU head. */
  ghost predicate Heated(s: State, z: State, n: int) {
    && (forall list: Tag | !list.Lru? && !list.Hot? :: z.lists(list) == s.lists(list))
    && if s.size(Hot) != s.max
       then z.lists(Hot) == s.lists(Hot) + [n] && z.lists(Lru) == s.lists(Lru)
       else
         && s.lists(Hot) != [] && z.lists(Hot) == s.lists(Hot)[1..] + [n]
         && z.lists(Lru) == [s.lists(Hot)[0]] + s.lists(Lru)
  }

  /** The same from a state in which the node is still in the LRU list. */
  ghost predicate WentHot(s: State, z: State, n: int) {
    && (forall list: Tag | !list.Lru? && !list.Hot? :: z.lists(list) == s.lists(list))
    && if s.size(Hot) != s.max
       then z.lists(Hot) == s.lists(Hot) + [n] && P.CutOut(s.lists(Lru), z.lists(Lru), n)
       else
         && s.lists(Hot) != [] && z.lists(Hot) == s.lists(Hot)[1..] + [n]
         && z.lists(Lru) != [] && z.lists(Lru)[0] == s.lists(Hot)[0]
         && P.CutOut(s.lists(Lru), z.lists(Lru)[1..], n)
  }

  lemma ThenHot(s: State, m: State, z: State, n: int)
    requires P.Unlinked(s, m, Lru, n) && Heated(m, z, n) && m.size(Hot) == s.size(Hot) && m.max == s.max
    ensures WentHot(s, z, n)
  {
    hide P.CutOut;
    assert m.lists(Hot) == s.lists(Hot);
    assert z.lists(Lru) != [] && s.size(Hot) == s.max ==> z.lists(Lru)[1..] == m.lists(Lru);
  }

  lemma AlonePushes(max: nat, states: seq<State>, actions: seq<Action>, i: nat, j: nat, t: int, n: int, k: nat)
    requires Alone(max, states, actions, i, j, t, n) && i < k <= j && states[k].threads(t) == PushHot(n)
    ensures Heated(states[k], states[j], n) && states[j].usage == states[k].usage
  {
    hide Alone;
    Bounds(max, states, actions, i, j, t, n);
    if states[k].size(Hot) == states[k].max {
      AloneRoom(max, states, actions, i, j, t, n, k);
    } else {
      AloneStep(max, states, actions, i, j, t, n, k);
      AloneStep(max, states, actions, i, j, t, n, k + 1);
    }
  }

  /** The hot list is full. */
  lemma AloneRoom(max: nat, states: seq<State>, actions: seq<Action>, i: nat, j: nat, t: int, n: int, k: nat)
    requires Alone(max, states, actions, i, j, t, n) && i < k <= j && states[k].threads(t) == PushHot(n)
    requires states[k].size(Hot) == states[k].max
    ensures Heated(states[k], states[j], n) && states[j].usage == states[k].usage
  {
    hide Alone, Heated, O.Inv;
    Bounds(max, states, actions, i, j, t, n);
    SomeRoom(max, states, actions, i, j, t, n, k);
    AloneStep(max, states, actions, i, j, t, n, k);
    AloneStep(max, states, actions, i, j, t, n, k + 1);
    ReachedInv(max, states, actions, i, j, t, n, k);
    var h := states[k].lists(Hot)[0];
    PopHead(states[k + 1], t, Return(n, h), states[k]);
    assert states[k + 2] == Take(states[k + 1], t, h, Return(n, h));
    AloneReturns(max, states, actions, i, j, t, n, k + 2);
    Replaced(states[k], states[k + 2], states[j], n, h);
  }

  /** The coldest node goes to the LRU head, and then there is room. */
  lemma AloneReturns(max: nat, states: seq<State>, actions: seq<Action>, i: nat, j: nat, t: int, n: int, k: nat)
    requires Alone(max, states, actions, i, j, t, n) && i < k <= j && states[k].threads(t).Return?
    requires states[k].threads(t).n == n && states[k].size(Hot) != states[k].max
    ensures BothPut(states[k], states[j], n, states[k].threads(t).m) && states[j].usage == states[k].usage
  {
    hide Alone;
    Bounds(max, states, actions, i, j, t, n);
    AloneStep(max, states, actions, i, j, t, n, k);
    AloneStep(max, states, actions, i, j, t, n, k + 1);
    AloneStep(max, states, actions, i, j, t, n, k + 2);
  }

  ghost predicate BothPut(s: State, z: State, n: int, m: int) {
    && z.lists(Hot) == s.lists(Hot) + [n] && z.lists(Lru) == [m] + s.lists(Lru)
    && forall list: Tag | !list.Lru? && !list.Hot? :: z.lists(list) == s.lists(list)
  }

  lemma Replaced(s: State, m: State, z: State, n: int, h: int)
    requires s.size(Hot) == s.max && s.lists(Hot) != [] && h == s.lists(Hot)[0] && BothPut(m, z, n, h)
    requires m.lists(Hot) == s.lists(Hot)[1..] && forall list: Tag | !list.Hot? :: m.lists(list) == s.lists(list)
    ensures Heated(s, z, n)
  {
  }

  lemma PopHead(s: State, t: int, w: Thread, before: State)
    requires O.Inv(before) && Same(before, s) && s.lists(Hot) != []
    ensures var h := s.lists(Hot)[0]; var z := Take(s, t, h, w);
      && z.lists(Hot) == s.lists(Hot)[1..] && z.size(Hot) == s.size(Hot) - 1
      && forall list: Tag | !list.Hot? :: z.lists(list) == s.lists(list)
  {
    O.NodeAt(before, Hot, 0);
    hide O.Inv;
  }

  /**
    BufferAccessStat undisturbed. An LRU node is counted; up to half of the maximum it stays, below the
    maximum it moves to the LRU head, and from the maximum on it goes to the hot tail, with room made
    for it, and its count is reset. A candidate goes to the LRU head with a count of 1. Any other node
    is left alone; with a node in the invalidation list the access does not return.
  */
  lemma AccessAlone(max: nat, states: seq<State>, actions: seq<Action>, i: nat, j: nat, t: int, n: int)
    requires Alone(max, states, actions, i, j, t, n)
    ensures var s, z := states[i], states[j];
      match s.tags(n)
      case Lru =>
        var used := (s.usage(n) + 1) % 256;
        if used <= 2 then Same(s, z) && z.usage(n) == used
        else if used < 5 then P.MovedUp(s, z, n) && z.usage(n) == used
        else z.usage(n) == 0 && WentHot(s, z, n)
      case Candidate =>
        && z.usage(n) == 1 && z.lists(Lru) == [n] + s.lists(Lru) && P.CutOut(s.lists(Candidate), z.lists(Candidate), n)
        && z.lists(Hot) == s.lists(Hot) && z.lists(Invalidation) == s.lists(Invalidation)
      case Invalidation => false
      case _ => Same(s, z) && z.usage == s.usage
  {
    hide Alone, Heated, WentHot, P.Unlinked, P.MovedUp;
    Bounds(max, states, actions, i, j, t, n);
    match states[i].tags(n)
    case Lru =>
      var used := (states[i].usage(n) + 1) % 256;
      if used < LRU_MAX_USAGE {
        AloneStays(max, states, actions, i, j, t, n);
      } else {
        AlonePromotes(max, states, actions, i, j, t, n);
        AlonePushes(max, states, actions, i, j, t, n, i + 5);
        ThenHot(states[i], states[i + 5], states[j], n);
      }
    case Candidate => AloneCandidate(max, states, actions, i, j, t, n);
    case _ => AloneLeaves(max, states, actions, i, j, t, n);
  }

  lemma AloneStays(max: nat, states: seq<State>, actions: seq<Action>, i: nat, j: nat, t: int, n: int)
    requires Alone(max, states, actions, i, j, t, n) && states[i].tags(n).Lru?
    requires (states[i].usage(n) + 1) % 256 < LRU_MAX_USAGE
    ensures states[j].usage(n) == (states[i].usage(n) + 1) % 256
    ensures var s, z := states[i], states[j];
      if (s.usage(n) + 1) % 256 <= 2 then Same(s, z) else P.MovedUp(s, z, n)
  {
    hide Alone, O.Inv, P.MovedUp;
    Bounds(max, states, actions, i, j, t, n);
    AloneCounts(max, states, actions, i, j, t, n);
    AloneStep(max, states, actions, i, j, t, n, i + 3);
    if states[i + 3].usage(n) >= LRU_MAX_USAGE / 2 { AloneStep(max, states, actions, i, j, t, n, i + 4); }
    if states[i + 3].usage(n) > LRU_MAX_USAGE / 2 {
      AloneStep(max, states, actions, i, j, t, n, i + 5);
      ReachedInv(max, states, actions, i, j, t, n, i + 4);
      P.MoveUp(states[i + 4], t, n);
      SameMove(states[i], states[i + 4], states[i + 5], n);
    }
  }

  lemma SameMove(s: State, s': State, z: State, n: int)
    requires s.lists == s'.lists && P.MovedUp(s', z, n)
    ensures P.MovedUp(s, z, n)
  {
  }

  lemma AloneCandidate(max: nat, states: seq<State>, actions: seq<Action>, i: nat, j: nat, t: int, n: int)
    requires Alone(max, states, actions, i, j, t, n) && states[i].tags(n).Candidate?
    ensures var s, z := states[i], states[j];
      && z.usage(n) == 1 && z.lists(Lru) == [n] + s.lists(Lru) && P.CutOut(s.lists(Candidate), z.lists(Candidate), n)
      && z.lists(Hot) == s.lists(Hot) && z.lists(Invalidation) == s.lists(Invalidation)
  {
    hide Alone, O.Inv, P.CutOut;
    Bounds(max, states, actions, i, j, t, n);
    AloneStart(max, states, actions, i, j, t, n);
    AloneStep(max, states, actions, i, j, t, n, i + 1);
    AloneStep(max, states, actions, i, j, t, n, i + 2);
    ReachedInv(max, states, actions, i, j, t, n, i + 2);
    P.TakeUnlinks(states[i + 2], t, n, Renew(n));
    AloneEnters(max, states, actions, i, j, t, n, i + 3);
  }

  lemma AloneEnters(max: nat, states: seq<State>, actions: seq<Action>, i: nat, j: nat, t: int, n: int, k: nat)
    requires Alone(max, states, actions, i, j, t, n) && i < k <= j && states[k].threads(t) == Renew(n)
    ensures states[j].usage(n) == 1 && states[j].lists(Lru) == [n] + states[k].lists(Lru)
    ensures forall list: Tag | !list.Lru? :: states[j].lists(list) == states[k].lists(list)
  {
    hide Alone;
    Bounds(max, states, actions, i, j, t, n);
    AloneStep(max, states, actions, i, j, t, n, k);
    AloneStep(max, states, actions, i, j, t, n, k + 1);
    AloneStep(max, states, actions, i, j, t, n, k + 2);
  }

  lemma {:induction false} AloneWaits(max: nat, states: seq<State>, actions: seq<Action>, i: nat, j: nat, t: int,
      n: int, k: nat)
    requires Alone(max, states, actions, i, j, t, n) && i < k <= j && states[k].threads(t) == Access(n)
    ensures !states[k].tags(n).Invalidation?
    decreases j - k
  {
    hide Alone;
    Bounds(max, states, actions, i, j, t, n);
    if states[k].tags(n).Invalidation? {
      AloneStep(max, states, actions, i, j, t, n, k);
      AloneWaits(max, states, actions, i, j, t, n, k + 1);
    }
  }

  lemma AloneLeaves(max: nat, states: seq<State>, actions: seq<Action>, i: nat, j: nat, t: int, n: int)
    requires Alone(max, states, actions, i, j, t, n) && !states[i].tags(n).Lru? && !states[i].tags(n).Candidate?
    ensures !states[i].tags(n).Invalidation? && Same(states[i], states[j]) && states[j].usage == states[i].usage
  {
    hide Alone, O.Inv;
    Bounds(max, states, actions, i, j, t, n);
    AloneStart(max, states, actions, i, j, t, n);
    AloneWaits(max, states, actions, i, j, t, n, i + 1);
    AloneStep(max, states, actions, i, j, t, n, i + 1);
    AloneStep(max, states, actions, i, j, t, n, i + 2);
  }
}
