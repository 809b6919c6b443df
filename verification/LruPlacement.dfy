/**
  Where the nodes go. Whatever the other threads do, the job of a thread decides which node it takes
  off which end of a list, and at which end of which list it puts the node down again.
*/
module LruPlacement {
  import opened Common
  import opened LruLists
  import O = LruOwnership

  // ---- What a thread does belongs to the job it started

  predicate JobOk(w: Thread, job: Job) {
    match w
    case Idle => true
    case Access(n) => job == Accesses(n)
    case TakeCandidate(n) => job == Accesses(n)
    case Renew(n) => job == Accesses(n)
    case Count(n) => job == Accesses(n)
    case Weigh(n) => job == Accesses(n)
    case Touch(n) => job == Accesses(n)
    case Promote(n) => job == Accesses(n)
    case PushHot(n) => job == Accesses(n)
    case MakeRoom(n) => job == Accesses(n)
    case Return(n, _) => job == Accesses(n)
    case Unlink(n, aim) => job == Unlinks(n, aim)
    case UnlinkFrom(n, list, aim) =>
      job == Unlinks(n, aim) && (list.Lru? || list.Hot? || (list.Candidate? && !aim.Recycle?))
    case Drop(n) => job == Unlinks(n, Retire)
    case Evict => job.Evicts?
    case ScanLru => job.Evicts?
    case CoolHot => job.Cools?
    case Resize(bound) => job == Resizes(bound)
    case Shrink => job.Resizes?
    case ShrinkPop => job.Resizes?
    case ShrinkPut(_) => job.Resizes?
    case Have(n) => job.Evicts? || job == Unlinks(n, Reuse)
    case Enter(n, _) => job == Accesses(n) || job.Evicts? || job == Unlinks(n, Reuse)
    case Insert(n, list, _) => InsertOk(job, n, list)
  }

  predicate InsertOk(job: Job, n: int, list: Tag) {
    match job
    case Unlinks(x, aim) => x == n && (if aim.Retire? then list.Invalidation? else list.Candidate?)
    case Evicts => list.Lru? || list.Candidate?
    case Cools => list.Lru?
    case Creates(x) => x == n && list.Candidate?
    case _ => false
  }

  /** A step of BufferAccessStat. */
  lemma AccessJob(s: State, t: int, choice: nat)
    requires !s.threads(t).Idle? && JobOk(s.threads(t), s.jobs(t)) && s.jobs(t).Accesses?
    ensures JobOk(ThreadApply(s, t, choice).threads(t), s.jobs(t))
  {
  }

  /** A step of MoveToCandidateList, Remove or RemoveMemChunkFromLru. */
  lemma UnlinkJob(s: State, t: int, choice: nat)
    requires !s.threads(t).Idle? && JobOk(s.threads(t), s.jobs(t)) && s.jobs(t).Unlinks?
    ensures JobOk(ThreadApply(s, t, choice).threads(t), s.jobs(t))
  {
  }

  lemma OtherJob(s: State, t: int, choice: nat)
    requires !s.threads(t).Idle? && JobOk(s.threads(t), s.jobs(t)) && !s.jobs(t).Accesses? && !s.jobs(t).Unlinks?
    ensures JobOk(ThreadApply(s, t, choice).threads(t), s.jobs(t))
  {
  }

  lemma NextJob(s: State, a: Action, t: int)
    requires Enabled(s, a) && JobOk(s.threads(t), s.jobs(t))
    ensures JobOk(Apply(s, a).threads(t), Apply(s, a).jobs(t))
  {
    if a.Step? {
      OneThread(s, a.thread, a.choice, t);
      hide JobOk, ThreadApply;
      if a.thread == t {
        if s.jobs(t).Accesses? { AccessJob(s, t, a.choice); }
        else if s.jobs(t).Unlinks? { UnlinkJob(s, t, a.choice); }
        else { OtherJob(s, t, a.choice); }
      }
    }
  }

  /** A thread moves itself only. */
  lemma OneThread(s: State, t: int, choice: nat, u: int)
    requires !s.threads(t).Idle?
    ensures var z := ThreadApply(s, t, choice); z.jobs(u) == s.jobs(u) && (t != u ==> z.threads(u) == s.threads(u))
  {
  }

  lemma {:induction false} ExecutionJob(max: nat, states: seq<State>, actions: seq<Action>, i: nat, t: int)
    requires O.Execution(max, states, actions) && i < |states|
    ensures JobOk(states[i].threads(t), states[i].jobs(t))
  {
    hide JobOk;
    if i == 0 {
      IdleOk(Init(max), t);
    } else {
      ExecutionJob(max, states, actions, i - 1, t);
      assert Enabled(states[i - 1], actions[i - 1]);
      NextJob(states[i - 1], actions[i - 1], t);
    }
  }

  lemma IdleOk(s: State, t: int)
    requires s.threads(t).Idle?
    ensures JobOk(s.threads(t), s.jobs(t))
  {
  }

  // ---- Lists before and after a step

  ghost predicate Others(s: State, z: State, list: Tag) {
    forall other: Tag | other != list :: z.lists(other) == s.lists(other)
  }

  ghost predicate PoppedFirst(s: State, z: State, list: Tag, n: int) {
    s.lists(list) == [n] + z.lists(list) && Others(s, z, list)
  }

  ghost predicate PoppedLast(s: State, z: State, list: Tag, n: int) {
    s.lists(list) == z.lists(list) + [n] && Others(s, z, list)
  }

  /** The list without its node n, the others in their order. */
  predicate CutOut(before: seq<int>, after: seq<int>, n: int) {
    exists k | 0 <= k < |before| :: before[k] == n && after == before[..k] + before[k + 1..]
  }

  ghost predicate Unlinked(s: State, z: State, list: Tag, n: int) {
    CutOut(s.lists(list), z.lists(list), n) && Others(s, z, list)
  }

  /** Node n is moved to the front of the LRU list. */
  ghost predicate MovedUp(s: State, z: State, n: int) {
    && z.lists(Lru) != [] && z.lists(Lru)[0] == n && CutOut(s.lists(Lru), z.lists(Lru)[1..], n)
    && Others(s, z, Lru)
  }

  lemma {:induction false} MinusCuts(list: seq<int>, n: int, k: nat)
    requires k < |list| && list[k] == n && n !in list[..k]
    ensures Minus(list, n) == list[..k] + list[k + 1..]
  {
    if k > 0 {
      assert list[0] == list[..k][0];
      assert list[1..][..k - 1] == list[..k][1..];
      MinusCuts(list[1..], n, k - 1);
      assert list[..k] + list[k + 1..] == [list[0]] + (list[1..][..k - 1] + list[1..][k..]);
    }
  }

  /** In a list without duplicates, taking off its node n cuts it out. */
  lemma MinusIs(list: seq<int>, n: int, k: nat)
    requires O.NoDup(list) && k < |list| && list[k] == n
    ensures Minus(list, n) == list[..k] + list[k + 1..] && CutOut(list, Minus(list, n), n)
  {
    MinusCuts(list, n, k);
  }

  lemma TagListed(s: State, n: int) returns (k: nat)
    requires O.Inv(s) && s.tags(n).IsList()
    ensures k < |s.lists(s.tags(n))| && s.lists(s.tags(n))[k] == n && O.NoDup(s.lists(s.tags(n)))
  {
    var list := s.tags(n);
    assert O.ListOk(s.tags, s.lists(list), s.size(list), list) && O.Listed(s.tags, s.lists(list), list, n);
    k :| 0 <= k < |s.lists(list)| && s.lists(list)[k] == n;
  }

  lemma TakeUnlinks(s: State, t: int, n: int, w: Thread)
    requires O.Inv(s) && s.tags(n).IsList()
    ensures Unlinked(s, Take(s, t, n, w), s.tags(n), n)
  {
    var k := TagListed(s, n);
    MinusIs(s.lists(s.tags(n)), n, k);
    hide O.Inv;
  }

  /** The same with the usage count reset. */
  lemma RemoveUnlinks(s: State, t: int, n: int, w: Thread)
    requires O.Inv(s) && s.tags(n).IsList()
    ensures Unlinked(s, Take(Uses(s, n, 0), t, n, w), s.tags(n), n)
  {
    TakeUnlinks(s, t, n, w);
    hide O.Inv;
  }

  lemma TakeFirst(s: State, t: int, list: Tag, w: Thread)
    requires O.Inv(s) && s.lists(list) != []
    ensures var n := s.lists(list)[0]; s.tags(n) == list && PoppedFirst(s, Take(s, t, n, w), list, n)
  {
    O.NodeAt(s, list, 0);
    hide O.Inv;
  }

  lemma TakeLast(s: State, t: int, list: Tag, w: Thread)
    requires O.Inv(s) && s.lists(list) != []
    ensures var n := s.lists(list)[|s.lists(list)| - 1];
      s.tags(n) == list && PoppedLast(s, Take(s, t, n, w), list, n)
  {
    var k := |s.lists(list)| - 1;
    O.NodeAt(s, list, k);
    assert O.ListOk(s.tags, s.lists(list), s.size(list), list);
    MinusIs(s.lists(list), s.lists(list)[k], k);
    hide O.Inv;
  }

  // ---- Where a node is to go

  /** One end of a list; wherever the user of a buffer puts it back; or out of the pool. */
  datatype Goal = FrontOf(list: Tag) | BackOf(list: Tag) | PutBack | Gone

  /**
    Where a job takes node n, which it found in list `from`. `fit` says whether GetCandidateBuffer found
    the buffer reusable.
  */
  function Aimed(job: Job, n: int, from: Tag, fit: bool): Goal {
    match job
    case NoJob => Gone
    // a candidate goes to the LRU head, an LRU node to the hot tail, a node popped for room to the LRU head
    case Accesses(x) => if n == x && from.Lru? then BackOf(Hot) else FrontOf(Lru)
    case Unlinks(_, aim) =>
      (match aim
       case Recycle => BackOf(Candidate)
       case Reuse => PutBack
       case Retire => if from.Candidate? then Gone else BackOf(Invalidation))
    case Evicts => if fit then PutBack else BackOf(Lru)
    case Cools => FrontOf(Lru)
    case Resizes(_) => FrontOf(Lru)
    case Creates(_) => BackOf(Candidate)
  }

  /** The lists after node n arrived. */
  ghost predicate Arrived(s: State, z: State, n: int, goal: Goal) {
    match goal
    case FrontOf(list) => z.lists(list) == [n] + s.lists(list) && z.tags(n) == list && Others(s, z, list)
    case BackOf(list) => z.lists(list) == s.lists(list) + [n] && z.tags(n) == list && Others(s, z, list)
    case PutBack =>
      || (z.lists(Lru) == [n] + s.lists(Lru) && z.tags(n) == Lru && Others(s, z, Lru))
      || (z.lists(Candidate) == s.lists(Candidate) + [n] && z.tags(n) == Candidate && Others(s, z, Candidate))
    case Gone => z.tags(n) == Absent && forall list: Tag :: z.lists(list) == s.lists(list)
  }

  /** The thread is on its way to the goal with node n. */
  predicate Heading(w: Thread, n: int, goal: Goal) {
    match w
    case Renew(_) => goal == FrontOf(Lru)
    case PushHot(_) => goal == BackOf(Hot)
    case MakeRoom(_) => goal == BackOf(Hot)
    case Return(x, m) => goal == if n == m then FrontOf(Lru) else BackOf(Hot)
    case ShrinkPut(_) => goal == FrontOf(Lru)
    case Drop(_) => goal == Gone
    case Have(_) => goal == PutBack
    case Enter(_, _) => goal == FrontOf(Lru) || goal == PutBack
    case Insert(_, list, front) =>
      || goal == (if front then FrontOf(list) else BackOf(list))
      || (goal == PutBack && list.Candidate? && !front)
    case _ => false
  }

  /** Where a job takes node n from. */
  ghost predicate TakenOff(s: State, z: State, job: Job, n: int) {
    match job
    case NoJob => false
    case Accesses(x) =>
      if n == x then (s.tags(n).Candidate? || s.tags(n).Lru?) && Unlinked(s, z, s.tags(n), n)
      else PoppedFirst(s, z, Hot, n)
    case Unlinks(x, aim) =>
      n == x && s.tags(n).IsList() && (aim.Recycle? ==> !s.tags(n).Candidate?) && Unlinked(s, z, s.tags(n), n)
    case Evicts => PoppedFirst(s, z, Candidate, n) || PoppedLast(s, z, Lru, n)
    case Cools => PoppedFirst(s, z, Hot, n)
    case Resizes(_) => PoppedFirst(s, z, Hot, n)
    case Creates(x) => n == x && s.tags(n).Absent? && forall list: Tag :: z.lists(list) == s.lists(list)
  }

  predicate Fit(a: Action) { a.Step? && a.choice == 0 }

  /** What a step that takes node n comes to. */
  ghost predicate Takes(s: State, z: State, t: int, n: int, fit: bool) {
    TakenOff(s, z, z.jobs(t), n) && Heading(z.threads(t), n, Aimed(z.jobs(t), n, s.tags(n), fit))
  }

  lemma AccessTakes(s: State, t: int, choice: nat, n: int)
    requires O.Inv(s) && JobOk(s.threads(t), s.jobs(t)) && s.jobs(t).Accesses? && !s.threads(t).Idle?
    requires !s.threads(t).Holds(n) && ThreadApply(s, t, choice).threads(t).Holds(n)
    ensures Takes(s, ThreadApply(s, t, choice), t, n, choice == 0)
  {
    hide O.Inv, PoppedFirst, PoppedLast, Unlinked;
    match s.threads(t)
    case TakeCandidate(_) => TakeUnlinks(s, t, n, Renew(n));
    case Promote(_) => RemoveUnlinks(s, t, n, PushHot(n));
    case MakeRoom(x) => TakeFirst(s, t, Hot, Return(x, n));
    case _ =>
  }

  lemma UnlinkTakes(s: State, t: int, choice: nat, n: int)
    requires O.Inv(s) && JobOk(s.threads(t), s.jobs(t)) && s.jobs(t).Unlinks? && !s.threads(t).Idle?
    requires !s.threads(t).Holds(n) && ThreadApply(s, t, choice).threads(t).Holds(n)
    ensures Takes(s, ThreadApply(s, t, choice), t, n, choice == 0)
  {
    hide O.Inv, PoppedFirst, PoppedLast, Unlinked;
    match s.threads(t)
    case UnlinkFrom(_, list, aim) =>
      TakeUnlinks(s, t, n, AfterUnlink(list, n, aim));
      RemoveUnlinks(s, t, n, AfterUnlink(list, n, aim));
    case _ =>
  }

  lemma PopTakes(s: State, t: int, choice: nat, n: int)
    requires O.Inv(s) && JobOk(s.threads(t), s.jobs(t)) && !s.jobs(t).Accesses? && !s.jobs(t).Unlinks?
    requires !s.threads(t).Idle? && !s.threads(t).Holds(n) && ThreadApply(s, t, choice).threads(t).Holds(n)
    ensures Takes(s, ThreadApply(s, t, choice), t, n, choice == 0)
  {
    hide O.Inv, PoppedFirst, PoppedLast, Unlinked;
    var w := ThreadApply(s, t, choice).threads(t);
    match s.threads(t)
    case Evict => TakeFirst(s, t, Candidate, w);
    case ScanLru => TakeLast(s, t, Lru, w);
    case CoolHot => TakeFirst(s, t, Hot, w);
    case ShrinkPop => TakeFirst(s, t, Hot, w);
    case _ =>
  }

  lemma NextTakes(s: State, a: Action, n: int)
    requires O.Inv(s) && Enabled(s, a) && JobOk(s.threads(a.thread), s.jobs(a.thread))
    requires !s.threads(a.thread).Holds(n) && Apply(s, a).threads(a.thread).Holds(n)
    ensures var z := Apply(s, a); var job := z.jobs(a.thread);
      TakenOff(s, z, job, n) && Heading(z.threads(a.thread), n, Aimed(job, n, s.tags(n), Fit(a)))
  {
    if a.Step? {
      hide O.Inv, JobOk, ThreadApply, TakenOff, Heading, Aimed;
      var job := s.jobs(a.thread);
      if job.Accesses? { AccessTakes(s, a.thread, a.choice, n); }
      else if job.Unlinks? { UnlinkTakes(s, a.thread, a.choice, n); }
      else { PopTakes(s, a.thread, a.choice, n); }
    }
  }

  /** What a step of a thread with node n comes to. */
  ghost predicate Brings(s: State, z: State, t: int, n: int, goal: Goal) {
    if z.threads(t).Holds(n) then Heading(z.threads(t), n, goal) else Arrived(s, z, n, goal)
  }

  /** A step on the way to the hot list. */
  lemma HotHeld(s: State, t: int, choice: nat, n: int, goal: Goal)
    requires O.Inv(s) && s.threads(t).Holds(n) && Heading(s.threads(t), n, goal)
    requires s.threads(t).PushHot? || s.threads(t).MakeRoom? || s.threads(t).Return?
    ensures Brings(s, ThreadApply(s, t, choice), t, n, goal)
  {
    O.ThreadFacts(s, t);
    if s.threads(t).MakeRoom? && s.lists(Hot) != [] { O.NodeAt(s, Hot, 0); }
    hide O.Inv;
  }

  lemma OtherHeld(s: State, t: int, choice: nat, n: int, goal: Goal)
    requires s.threads(t).Holds(n) && Heading(s.threads(t), n, goal)
    requires !s.threads(t).PushHot? && !s.threads(t).MakeRoom? && !s.threads(t).Return?
    ensures Brings(s, ThreadApply(s, t, choice), t, n, goal)
  {
  }

  /** A thread that keeps node n keeps its goal, and one that puts it down puts it where it was to go. */
  lemma NextHeld(s: State, a: Action, n: int, goal: Goal)
    requires O.Inv(s) && Enabled(s, a) && s.threads(a.thread).Holds(n) && Heading(s.threads(a.thread), n, goal)
    ensures var z := Apply(s, a);
      if z.threads(a.thread).Holds(n) then Heading(z.threads(a.thread), n, goal) else Arrived(s, z, n, goal)
  {
    hide O.Inv, ThreadApply, Heading, Arrived;
    var w := s.threads(a.thread);
    if w.PushHot? || w.MakeRoom? || w.Return? { HotHeld(s, a.thread, a.choice, n, goal); }
    else { OtherHeld(s, a.thread, a.choice, n, goal); }
  }

  // ---- From taking a node to putting it down

  lemma {:induction false} HeadingRun(max: nat, states: seq<State>, actions: seq<Action>, i: nat, k: nat, t: int,
      n: int)
    requires O.Execution(max, states, actions) && i < k < |states|
    requires !states[i].threads(t).Holds(n) && forall m | i < m <= k :: states[m].threads(t).Holds(n)
    ensures actions[i].thread == t && TakenOff(states[i], states[i + 1], states[i + 1].jobs(t), n)
    ensures Heading(states[k].threads(t), n, Aimed(states[i + 1].jobs(t), n, states[i].tags(n), Fit(actions[i])))
  {
    hide O.Inv, Enabled, Apply, TakenOff, Heading, Aimed, Fit, JobOk;
    var s, a := states[k - 1], actions[k - 1];
    assert Enabled(s, a) && states[k] == Apply(s, a);
    O.ExecutionInv(max, states, actions, k - 1);
    ExecutionJob(max, states, actions, k - 1, t);
    OnlyActs(s, a, t);
    if k == i + 1 {
      NextTakes(s, a, n);
    } else {
      HeadingRun(max, states, actions, i, k - 1, t, n);
      if a.thread == t {
        NextHeld(s, a, n, Aimed(states[i + 1].jobs(t), n, states[i].tags(n), Fit(actions[i])));
      }
    }
  }

  lemma OnlyActs(s: State, a: Action, t: int)
    requires Enabled(s, a)
    ensures a.thread != t ==> Apply(s, a).threads(t) == s.threads(t)
  {
    if a.Step? {
      hide ThreadApply;
      OneThread(s, a.thread, a.choice, t);
    }
  }

  /**
    In every run, thread t takes node n in step i and puts it down in step k. What it started and the
    list the node was in decide which end of the list the node came from, and to which end of which
    list it goes: it is first, or last, right after step k.
  */
  lemma Destination(max: nat, states: seq<State>, actions: seq<Action>, i: nat, k: nat, t: int, n: int)
    requires O.Execution(max, states, actions) && i < k < |actions|
    requires !states[i].threads(t).Holds(n) && !states[k + 1].threads(t).Holds(n)
    requires forall m | i < m <= k :: states[m].threads(t).Holds(n)
    ensures TakenOff(states[i], states[i + 1], states[i + 1].jobs(t), n)
    ensures Arrived(states[k], states[k + 1], n,
                    Aimed(states[i + 1].jobs(t), n, states[i].tags(n), Fit(actions[i])))
  {
    hide O.Inv, Enabled, Apply, TakenOff, Heading, Aimed, Fit, Arrived;
    HeadingRun(max, states, actions, i, k, t, n);
    O.ExecutionInv(max, states, actions, k);
    assert Enabled(states[k], actions[k]) && states[k + 1] == Apply(states[k], actions[k]);
    OnlyActs(states[k], actions[k], t);
    NextHeld(states[k], actions[k], n, Aimed(states[i + 1].jobs(t), n, states[i].tags(n), Fit(actions[i])));
  }

  // ---- Steps in which no node changes hands

  /** The lists and tags stay, unless a node is moved to the front of the LRU list. */
  lemma NextStays(s: State, a: Action)
    requires O.Inv(s) && Enabled(s, a) && JobOk(s.threads(a.thread), s.jobs(a.thread))
    requires forall x :: s.threads(a.thread).Holds(x) <==> Apply(s, a).threads(a.thread).Holds(x)
    ensures var z := Apply(s, a); var job := z.jobs(a.thread);
      && (forall x :: z.tags(x) == s.tags(x))
      && (|| (forall list: Tag :: z.lists(list) == s.lists(list))
          || (job.Accesses? && s.tags(job.n).Lru? && MovedUp(s, z, job.n))
          || (job.Evicts? && !Fit(a) && s.lists(Lru) != [] && MovedUp(s, z, s.lists(Lru)[|s.lists(Lru)| - 1])))
  {
    hide MovedUp, O.Inv;
    var w := s.threads(a.thread);
    assert w.Holds(Handled(s, a)) <==> Apply(s, a).threads(a.thread).Holds(Handled(s, a));
    if a.Step? {
      if s.jobs(a.thread).Accesses? { AccessStays(s, a); } else { OtherStays(s, a); }
    }
    if a.Step? && w.Touch? && s.tags(w.n).Lru? { MoveUp(s, a.thread, w.n); }
    if a.Step? && w.ScanLru? && s.lists(Lru) != [] {
      O.NodeAt(s, Lru, |s.lists(Lru)| - 1);
      MoveUp(s, a.thread, s.lists(Lru)[|s.lists(Lru)| - 1]);
    }
  }

  /** The node that a step may take, or put down. */
  function Handled(s: State, a: Action): int {
    match a
    case Start(_, _) => 0
    case Create(_, n) => n
    case Step(t, _) =>
      match s.threads(t)
      case TakeCandidate(n) => n
      case Promote(n) => n
      case PushHot(n) => n
      case MakeRoom(_) => if s.lists(Hot) == [] then 0 else s.lists(Hot)[0]
      case Return(_, m) => m
      case UnlinkFrom(n, _, _) => n
      case Drop(n) => n
      case Evict => if s.lists(Candidate) == [] then 0 else s.lists(Candidate)[0]
      case ScanLru => if s.lists(Lru) == [] then 0 else s.lists(Lru)[|s.lists(Lru)| - 1]
      case CoolHot => if s.lists(Hot) == [] then 0 else s.lists(Hot)[0]
      case ShrinkPop => if s.lists(Hot) == [] then 0 else s.lists(Hot)[0]
      case ShrinkPut(n) => n
      case Enter(n, _) => n
      case Insert(n, _, _) => n
      case _ => 0
  }

  /** BufferAccessStat. */
  lemma AccessStays(s: State, a: Action)
    requires O.Inv(s) && Enabled(s, a) && a.Step? && JobOk(s.threads(a.thread), s.jobs(a.thread))
    requires s.jobs(a.thread).Accesses?
    requires s.threads(a.thread).Holds(Handled(s, a)) <==> Apply(s, a).threads(a.thread).Holds(Handled(s, a))
    ensures Apply(s, a).tags == s.tags && (Apply(s, a).lists == s.lists || s.threads(a.thread).Touch?)
  {
    O.ThreadFacts(s, a.thread);
    if s.threads(a.thread).MakeRoom? && s.lists(Hot) != [] { O.NodeAt(s, Hot, 0); }
    hide O.Inv;
  }

  lemma OtherStays(s: State, a: Action)
    requires Enabled(s, a) && a.Step? && JobOk(s.threads(a.thread), s.jobs(a.thread)) && !s.jobs(a.thread).Accesses?
    requires s.threads(a.thread).Holds(Handled(s, a)) <==> Apply(s, a).threads(a.thread).Holds(Handled(s, a))
    ensures Apply(s, a).tags == s.tags && (Apply(s, a).lists == s.lists || s.threads(a.thread).ScanLru?)
  {
  }

  lemma MoveUp(s: State, t: int, n: int)
    requires O.Inv(s) && s.tags(n).Lru?
    ensures MovedUp(s, Goes(s.(lists := Put(s.lists, Lru, [n] + Minus(s.lists(Lru), n))), t, Idle), n)
  {
    var k := TagListed(s, n);
    MinusIs(s.lists(Lru), n, k);
    assert ([n] + Minus(s.lists(Lru), n))[1..] == Minus(s.lists(Lru), n);
  }

  // ---- When a job returns

  /** BufferAccessStat returns: the node is busy or hot, or not used enough, or was moved. */
  lemma AccessReturns(s: State, t: int, choice: nat, n: int)
    requires O.Inv(s) && s.jobs(t) == Accesses(n) && JobOk(s.threads(t), s.jobs(t))
    requires !s.threads(t).Idle? && ThreadApply(s, t, choice).threads(t).Idle?
    ensures var z := ThreadApply(s, t, choice);
      || s.tags(n).Hot? || s.tags(n).Absent? || (s.tags(n).Pending? && s.threads(t) == Access(n))
      || (z.usage(n) <= LRU_MAX_USAGE / 2 && z.lists == s.lists)
      || MovedUp(s, z, n) || Arrived(s, z, n, FrontOf(Lru)) || Arrived(s, z, n, BackOf(Hot))
  {
    hide MovedUp;
    if s.threads(t).Touch? && s.tags(n).Lru? { MoveUp(s, t, n); }
    hide O.Inv;
  }

  /** What holds of the node or the lists when any other job returns. */
  lemma NextReturns(s: State, t: int, choice: nat)
    requires JobOk(s.threads(t), s.jobs(t)) && !s.jobs(t).Accesses?
    requires !s.threads(t).Idle? && ThreadApply(s, t, choice).threads(t).Idle?
    ensures var z := ThreadApply(s, t, choice);
      match s.jobs(t)
      case NoJob => false
      case Accesses(_) => true
      case Unlinks(n, aim) =>
        (match aim
         case Recycle => z.tags(n).Candidate?
         case Reuse => z.tags(n).Lru? || z.tags(n).Candidate?
         case Retire => z.tags(n).Invalidation? || z.tags(n).Absent?)
      // GetCandidateBuffer gives up only without a reusable buffer
      case Evicts => (exists n :: s.threads(t).Holds(n)) || s.lists(Lru) == [] || choice != 0
      case Cools => (exists n :: s.threads(t).Holds(n)) || s.lists(Hot) == []
      case Resizes(_) => z.size(Hot) <= z.max
      case Creates(n) => z.tags(n).Candidate?
  {
    if s.threads(t).Enter? || s.threads(t).Insert? { assert s.threads(t).Holds(s.threads(t).n); }
  }
}
