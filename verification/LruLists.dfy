/**
  The hot, LRU, candidate and invalidation lists of one LRU partition, as an interleaved transition
  system. Every list has its own lock; what a thread does under a list lock is one step, and so is
  each read of a node's type without a lock.
*/
module LruLists {
  import opened Common

  const LRU_MAX_USAGE: nat := 5

  /** The type tag of a node. `Absent` is a node of a buffer that is not in the pool. */
  datatype Tag = Candidate | Lru | Hot | Invalidation | Pending | Absent {
    predicate IsList() { Candidate? || Lru? || Hot? || Invalidation? }
  }

  /** What a node is taken off its list for: the candidate list, another use, or the removal of its chunk. */
  datatype Aim = Recycle | Reuse | Retire

  /** What a thread set out to do. */
  datatype Job =
    | NoJob
    | Accesses(n: int)
    | Unlinks(n: int, aim: Aim)
    | Evicts
    | Cools
    | Resizes(bound: nat)
    | Creates(n: int)

  /** Where a thread stands. */
  datatype Thread =
    | Idle
    // BufferAccessStat
    | Access(n: int)
    | TakeCandidate(n: int)
    | Renew(n: int)
    | Count(n: int)
    | Weigh(n: int)
    | Touch(n: int)
    | Promote(n: int)
    | PushHot(n: int)
    | MakeRoom(n: int)
    | Return(n: int, m: int)
    // MoveToCandidateList, Remove, RemoveMemChunkFromLru
    | Unlink(n: int, aim: Aim)
    | UnlinkFrom(n: int, list: Tag, aim: Aim)
    | Drop(n: int)
    // GetCandidateBuffer, ScanLruListToFindCandidateBuffer, TryMoveOneNodeFromHotToLruList
    | Evict
    | ScanLru
    | CoolHot
    // ResizeHotList
    | Resize(bound: nat)
    | Shrink
    | ShrinkPop
    | ShrinkPut(n: int)
    // with a node in hand; PushBackToLru
    | Have(n: int)
    | Enter(n: int, counts: bool)
    | Insert(n: int, list: Tag, front: bool)
  {
    /** The nodes the thread has taken off a list and not put back. */
    predicate Holds(x: int) {
      match this
      case Renew(n) => x == n
      case PushHot(n) => x == n
      case MakeRoom(n) => x == n
      case Return(n, m) => x == n || x == m
      case ShrinkPut(n) => x == n
      case Drop(n) => x == n
      case Have(n) => x == n
      case Enter(n, _) => x == n
      case Insert(n, _, _) => x == n
      case _ => false
    }
  }

  /**
    `size` are the length counters and `usage` the 8-bit usage counts of the nodes. Two fields are
    history: `owner` is the thread that took the node last, `jobs` what each thread started last.
  */
  datatype State = State(
    tags: int -> Tag,
    lists: Tag -> seq<int>,
    size: Tag -> int,
    usage: int -> nat,
    max: int,
    threads: int -> Thread,
    owner: int -> int,
    jobs: int -> Job)

  datatype Action =
    | Start(thread: int, job: Job)
    | Create(thread: int, node: int)
    | Step(thread: int, choice: nat)

  const NoNodes: Tag -> seq<int> := _ => []
  const NoSizes: Tag -> int := _ => 0

  function Init(max: nat): State {
    State(_ => Absent, NoNodes, NoSizes, _ => 0, max, _ => Idle, _ => -1, _ => NoJob)
  }

  predicate Enabled(s: State, a: Action) {
    match a
    case Start(t, job) => s.threads(t).Idle? && !job.NoJob? && !job.Creates?
    case Create(t, n) => s.threads(t).Idle? && s.tags(n).Absent?
    case Step(t, _) => !s.threads(t).Idle?
  }

  function Apply(s: State, a: Action): State
    requires Enabled(s, a)
  {
    match a
    case Start(t, job) => Goes(s.(jobs := Put(s.jobs, t, job)), t, First(job))
    case Create(t, n) =>
      Goes(s.(tags := Put(s.tags, n, Pending), owner := Put(s.owner, n, t), jobs := Put(s.jobs, t, Creates(n))), t,
           Insert(n, Candidate, false))
    case Step(t, choice) => ThreadApply(s, t, choice)
  }

  /** The first step of a job. */
  function First(job: Job): Thread {
    match job
    case NoJob => Idle
    case Accesses(n) => Access(n)
    case Unlinks(n, aim) => Unlink(n, aim)
    case Evicts => Evict
    case Cools => CoolHot
    case Resizes(bound) => Resize(bound)
    case Creates(n) => Insert(n, Candidate, false)
  }

  function Goes(s: State, t: int, w: Thread): State { s.(threads := Put(s.threads, t, w)) }

  /** The list without n. */
  function Minus(list: seq<int>, n: int): seq<int> {
    if list == [] then [] else if list[0] == n then list[1..] else [list[0]] + Minus(list[1..], n)
  }

  /** Under the lock of its list, thread t takes node n off it. */
  function Take(s: State, t: int, n: int, w: Thread): State {
    var list := s.tags(n);
    Goes(s.(lists := Put(s.lists, list, Minus(s.lists(list), n)),
            size := Put(s.size, list, s.size(list) - 1),
            tags := Put(s.tags, n, Pending),
            owner := Put(s.owner, n, t)), t, w)
  }

  /** Under the lock of the list, thread t puts node n at its front or back. */
  function Add(s: State, t: int, n: int, list: Tag, front: bool, w: Thread): State {
    Goes(s.(lists := Put(s.lists, list, if front then [n] + s.lists(list) else s.lists(list) + [n]),
            size := Put(s.size, list, s.size(list) + 1),
            tags := Put(s.tags, n, list)), t, w)
  }

  function ThreadApply(s: State, t: int, choice: nat): State
    requires !s.threads(t).Idle?
  {
    match s.threads(t)
    case Access(n) => Goes(s, t, AfterLook(s.tags(n), n))
    case TakeCandidate(n) => if s.tags(n).Candidate? then Take(s, t, n, Renew(n)) else Goes(s, t, Access(n))
    case Renew(n) => Goes(Uses(s, n, 0), t, Enter(n, true))
    case Count(n) =>
      var used := Next(s.usage(n));
      Goes(Uses(s, n, used), t, if used < LRU_MAX_USAGE / 2 then Idle else Weigh(n))
    case Weigh(n) => Goes(s, t, AfterWeigh(s.usage(n), n))
    case Touch(n) =>
      if s.tags(n).Lru?
      then Goes(s.(lists := Put(s.lists, Lru, [n] + Minus(s.lists(Lru), n))), t, Idle)
      else Goes(s, t, Access(n))
    case Promote(n) => if s.tags(n).Lru? then Take(Uses(s, n, 0), t, n, PushHot(n)) else Goes(s, t, Access(n))
    case PushHot(n) => if s.size(Hot) == s.max then Goes(s, t, MakeRoom(n)) else Add(s, t, n, Hot, false, Idle)
    case MakeRoom(n) =>
      if s.lists(Hot) == [] then Goes(s, t, PushHot(n)) else Take(s, t, s.lists(Hot)[0], Return(n, s.lists(Hot)[0]))
    case Return(n, m) => Add(s, t, m, Lru, true, PushHot(n))
    case Unlink(n, aim) => Goes(s, t, AfterRead(s.tags(n), n, aim))
    case UnlinkFrom(n, list, aim) =>
      if s.tags(n) == list && list.IsList()
      then Take(if list.Lru? then Uses(s, n, 0) else s, t, n, AfterUnlink(list, n, aim))
      else Goes(s, t, Unlink(n, aim))
    case Drop(n) => Goes(s.(tags := Put(s.tags, n, Absent)), t, Idle)
    case Evict =>
      if s.lists(Candidate) == [] then Goes(s, t, ScanLru)
      else
        var n := s.lists(Candidate)[0];
        Take(s, t, n, if choice == 0 then Have(n) else Insert(n, Lru, false))
    case ScanLru =>
      if s.lists(Lru) == [] then Goes(s, t, Idle)
      else
        var n := s.lists(Lru)[|s.lists(Lru)| - 1];
        if choice == 0 then Take(s, t, n, Have(n))
        else Goes(s.(lists := Put(s.lists, Lru, [n] + Minus(s.lists(Lru), n))), t, Idle)
    case CoolHot =>
      if s.lists(Hot) == [] then Goes(s, t, Idle) else Take(s, t, s.lists(Hot)[0], Insert(s.lists(Hot)[0], Lru, true))
    case Resize(bound) => Goes(s.(max := bound), t, Shrink)
    case Shrink => Goes(s, t, if s.size(Hot) > s.max then ShrinkPop else Idle)
    case ShrinkPop =>
      if s.lists(Hot) == [] then Goes(s, t, Shrink) else Take(s, t, s.lists(Hot)[0], ShrinkPut(s.lists(Hot)[0]))
    case ShrinkPut(n) => Add(s, t, n, Lru, true, Shrink)
    case Have(n) =>
      if choice <= 1 then Goes(Uses(s, n, 0), t, Enter(n, choice == 0)) else Goes(s, t, Insert(n, Candidate, false))
    case Enter(n, counts) => Add(if counts then Uses(s, n, Next(s.usage(n))) else s, t, n, Lru, true, Idle)
    case Insert(n, list, front) => Add(s, t, n, list, front, Idle)
  }

  /** Node n has this usage count. */
  function Uses(s: State, n: int, used: nat): State { s.(usage := Put(s.usage, n, used)) }

  /** IncUsage, in eight bits. */
  function Next(used: nat): nat { (used + 1) % 256 }

  /** BufferAccessStat after reading the usage count back. */
  function AfterWeigh(used: nat, n: int): Thread {
    if LRU_MAX_USAGE / 2 < used < LRU_MAX_USAGE then Touch(n)
    else if used >= LRU_MAX_USAGE then Promote(n)
    else Idle
  }

  /** BufferAccessStat after reading the type. */
  function AfterLook(tag: Tag, n: int): Thread {
    match tag
    case Candidate => TakeCandidate(n)
    case Lru => Count(n)
    case Invalidation => Access(n)
    case _ => Idle
  }

  /** MoveToCandidateList and Remove after reading the type. */
  function AfterRead(tag: Tag, n: int, aim: Aim): Thread {
    match tag
    case Candidate => if aim.Recycle? then Idle else UnlinkFrom(n, Candidate, aim)
    case Lru => UnlinkFrom(n, Lru, aim)
    case Hot => UnlinkFrom(n, Hot, aim)
    case _ => Unlink(n, aim)
  }

  /** After n was taken off the list. A candidate of a removed chunk is not in use and goes nowhere. */
  function AfterUnlink(list: Tag, n: int, aim: Aim): Thread {
    match aim
    case Recycle => Insert(n, Candidate, false)
    case Reuse => Have(n)
    case Retire => if list.Candidate? then Drop(n) else Insert(n, Invalidation, false)
  }
}

/** Every node is in exactly one list with the matching tag, or in the hands of exactly one thread. */
module LruOwnership {
  import opened Common
  import opened LruLists

  predicate NoDup(list: seq<int>) { forall i, j | 0 <= i < j < |list| :: list[i] != list[j] }

  /** The lists hold exactly the nodes with their tag, once each, and the counters are their lengths. */
  ghost predicate ListsOk(tags: int -> Tag, lists: Tag -> seq<int>, size: Tag -> int) {
    forall list: Tag :: ListOk(tags, lists(list), size(list), list)
  }

  ghost predicate ListOk(tags: int -> Tag, nodes: seq<int>, size: int, list: Tag) {
    NoDup(nodes) && size == |nodes| && forall n :: Listed(tags, nodes, list, n)
  }

  predicate Listed(tags: int -> Tag, nodes: seq<int>, list: Tag, n: int) {
    n in nodes <==> tags(n) == list && list.IsList()
  }

  /** A node is pending exactly while one thread holds it, and that thread is its owner. */
  ghost predicate HoldersOk(tags: int -> Tag, threads: int -> Thread, owner: int -> int) {
    && (forall t, n | threads(t).Holds(n) :: OwnedBy(tags, owner, t, n))
    && (forall n :: Held(tags, threads, owner, n))
    && (forall t :: WellFormed(threads(t)))
  }

  predicate OwnedBy(tags: int -> Tag, owner: int -> int, t: int, n: int) { tags(n).Pending? && owner(n) == t }

  predicate Held(tags: int -> Tag, threads: int -> Thread, owner: int -> int, n: int) {
    tags(n).Pending? ==> threads(owner(n)).Holds(n)
  }

  ghost predicate Inv(s: State) {
    ListsOk(s.tags, s.lists, s.size) && HoldersOk(s.tags, s.threads, s.owner)
  }

  lemma {:induction false} MinusOk(list: seq<int>, n: int)
    requires NoDup(list)
    ensures NoDup(Minus(list, n)) && (forall x :: x in Minus(list, n) <==> x in list && x != n)
    ensures |Minus(list, n)| == |list| - if n in list then 1 else 0
  {
    if list != [] {
      MinusOk(list[1..], n);
      assert list[0] !in list[1..];
      assert forall x :: x in list <==> x == list[0] || x in list[1..];
    }
  }

  lemma TakeLists(tags: int -> Tag, lists: Tag -> seq<int>, size: Tag -> int, n: int)
    requires ListsOk(tags, lists, size) && tags(n).IsList()
    ensures ListsOk(Put(tags, n, Pending), Put(lists, tags(n), Minus(lists(tags(n)), n)),
        Put(size, tags(n), size(tags(n)) - 1))
  {
    var from := tags(n);
    MinusOk(lists(from), n);
    var tags', lists', size' := Put(tags, n, Pending), Put(lists, from, Minus(lists(from), n)),
        Put(size, from, size(from) - 1);
    forall list: Tag ensures ListOk(tags', lists'(list), size'(list), list) {
      assert ListOk(tags, lists(list), size(list), list) && Listed(tags, lists(list), list, n);
      forall x ensures Listed(tags', lists'(list), list, x) {
        assert Listed(tags, lists(list), list, x);
      }
    }
  }

  lemma AddLists(tags: int -> Tag, lists: Tag -> seq<int>, size: Tag -> int, n: int, to: Tag, front: bool)
    requires ListsOk(tags, lists, size) && !tags(n).IsList() && to.IsList()
    ensures ListsOk(Put(tags, n, to), Put(lists, to, if front then [n] + lists(to) else lists(to) + [n]),
                    Put(size, to, size(to) + 1))
  {
    var more := if front then [n] + lists(to) else lists(to) + [n];
    var tags', lists', size' := Put(tags, n, to), Put(lists, to, more), Put(size, to, size(to) + 1);
    forall list: Tag ensures ListOk(tags', lists'(list), size'(list), list) {
      assert ListOk(tags, lists(list), size(list), list) && Listed(tags, lists(list), list, n);
      forall x ensures Listed(tags', lists'(list), list, x) {
        assert Listed(tags, lists(list), list, x);
      }
    }
  }

  lemma MoveLists(tags: int -> Tag, lists: Tag -> seq<int>, size: Tag -> int, n: int)
    requires ListsOk(tags, lists, size) && tags(n).Lru?
    ensures ListsOk(tags, Put(lists, Lru, [n] + Minus(lists(Lru), n)), size)
  {
    var lists' := Put(lists, Lru, [n] + Minus(lists(Lru), n));
    assert ListOk(tags, lists(Lru), size(Lru), Lru) && Listed(tags, lists(Lru), Lru, n);
    MinusOk(lists(Lru), n);
    forall list: Tag ensures ListOk(tags, lists'(list), size(list), list) {
      assert ListOk(tags, lists(list), size(list), list);
      forall x ensures Listed(tags, lists'(list), list, x) {
        assert Listed(tags, lists(list), list, x);
      }
    }
  }

  lemma RetagLists(tags: int -> Tag, lists: Tag -> seq<int>, size: Tag -> int, n: int, tag: Tag)
    requires ListsOk(tags, lists, size) && !tags(n).IsList() && !tag.IsList()
    ensures ListsOk(Put(tags, n, tag), lists, size)
  {
    forall list: Tag ensures ListOk(Put(tags, n, tag), lists(list), size(list), list) {
      assert ListOk(tags, lists(list), size(list), list);
      forall x ensures Listed(Put(tags, n, tag), lists(list), list, x) {
        assert Listed(tags, lists(list), list, x);
      }
    }
  }

  predicate WellFormed(w: Thread) { (w.Return? ==> w.n != w.m) && (w.Insert? ==> w.list.IsList() && !w.list.Hot?) }

  /** Thread t gains node n. */
  lemma GainHolders(tags: int -> Tag, threads: int -> Thread, owner: int -> int, t: int, n: int, w: Thread)
    requires HoldersOk(tags, threads, owner) && !tags(n).Pending? && WellFormed(w)
    requires forall x :: w.Holds(x) <==> threads(t).Holds(x) || x == n
    ensures HoldersOk(Put(tags, n, Pending), Put(threads, t, w), Put(owner, n, t))
  {
    var tags', threads', owner' := Put(tags, n, Pending), Put(threads, t, w), Put(owner, n, t);
    forall u, x | threads'(u).Holds(x) ensures OwnedBy(tags', owner', u, x) {
      assert x != n ==> threads(u).Holds(x) && OwnedBy(tags, owner, u, x);
      assert threads(u).Holds(n) ==> OwnedBy(tags, owner, u, n);
    }
    forall x ensures Held(tags', threads', owner', x) {
      assert Held(tags, threads, owner, x);
    }
    forall u ensures WellFormed(threads'(u)) {
      assert WellFormed(threads(u));
    }
  }

  /** Thread t gives node n away. */
  lemma LoseHolders(tags: int -> Tag, threads: int -> Thread, owner: int -> int, t: int, n: int, tag: Tag, w: Thread)
    requires HoldersOk(tags, threads, owner) && threads(t).Holds(n) && !tag.Pending? && WellFormed(w)
    requires forall x :: w.Holds(x) <==> threads(t).Holds(x) && x != n
    ensures HoldersOk(Put(tags, n, tag), Put(threads, t, w), owner)
  {
    var tags', threads' := Put(tags, n, tag), Put(threads, t, w);
    assert OwnedBy(tags, owner, t, n);
    forall u, x | threads'(u).Holds(x) ensures OwnedBy(tags', owner, u, x) {
      assert threads(u).Holds(x) && OwnedBy(tags, owner, u, x);
    }
    forall x ensures Held(tags', threads', owner, x) {
      assert Held(tags, threads, owner, x);
    }
    forall u ensures WellFormed(threads'(u)) {
      assert WellFormed(threads(u));
    }
  }

  lemma SameHolders(tags: int -> Tag, threads: int -> Thread, owner: int -> int, t: int, w: Thread)
    requires HoldersOk(tags, threads, owner) && WellFormed(w)
    requires forall x :: w.Holds(x) <==> threads(t).Holds(x)
    ensures HoldersOk(tags, Put(threads, t, w), owner)
  {
    var threads' := Put(threads, t, w);
    forall u, x | threads'(u).Holds(x) ensures OwnedBy(tags, owner, u, x) {
      assert threads(u).Holds(x);
    }
    forall x ensures Held(tags, threads', owner, x) {
      assert Held(tags, threads, owner, x);
    }
    forall u ensures WellFormed(threads'(u)) {
      assert WellFormed(threads(u));
    }
  }

  lemma TakeInv(s: State, t: int, n: int, w: Thread)
    requires Inv(s) && s.tags(n).IsList() && WellFormed(w)
    requires forall x :: w.Holds(x) <==> s.threads(t).Holds(x) || x == n
    ensures Inv(Take(s, t, n, w))
  {
    hide ListsOk, HoldersOk;
    TakeLists(s.tags, s.lists, s.size, n);
    GainHolders(s.tags, s.threads, s.owner, t, n, w);
  }

  lemma AddInv(s: State, t: int, n: int, list: Tag, front: bool, w: Thread)
    requires Inv(s) && list.IsList() && s.threads(t).Holds(n) && WellFormed(w)
    requires forall x :: w.Holds(x) <==> s.threads(t).Holds(x) && x != n
    ensures Inv(Add(s, t, n, list, front, w))
  {
    assert OwnedBy(s.tags, s.owner, t, n);
    AddLists(s.tags, s.lists, s.size, n, list, front);
    LoseHolders(s.tags, s.threads, s.owner, t, n, list, w);
    hide ListsOk, HoldersOk;
  }

  lemma StayInv(s: State, t: int, w: Thread)
    requires Inv(s) && WellFormed(w) && forall x :: w.Holds(x) <==> s.threads(t).Holds(x)
    ensures Inv(Goes(s, t, w))
  {
    hide ListsOk, HoldersOk;
    SameHolders(s.tags, s.threads, s.owner, t, w);
  }

  /** The node at an index of a list carries its tag. */
  lemma NodeAt(s: State, list: Tag, i: int)
    requires Inv(s) && 0 <= i < |s.lists(list)|
    ensures s.tags(s.lists(list)[i]) == list && list.IsList()
  {
    assert ListOk(s.tags, s.lists(list), s.size(list), list);
    assert Listed(s.tags, s.lists(list), list, s.lists(list)[i]);
  }

  lemma ThreadFacts(s: State, t: int)
    requires Inv(s)
    ensures WellFormed(s.threads(t)) && forall x | s.threads(t).Holds(x) :: s.tags(x).Pending?
  {
    forall x | s.threads(t).Holds(x) ensures s.tags(x).Pending? {
      assert OwnedBy(s.tags, s.owner, t, x);
    }
  }

  lemma MovedInv(s: State, t: int, n: int)
    requires Inv(s) && s.tags(n).Lru? && forall x :: !s.threads(t).Holds(x)
    ensures Inv(Goes(s.(lists := Put(s.lists, Lru, [n] + Minus(s.lists(Lru), n))), t, Idle))
  {
    hide ListsOk, HoldersOk;
    MoveLists(s.tags, s.lists, s.size, n);
    SameHolders(s.tags, s.threads, s.owner, t, Idle);
  }

  lemma RetireInv(s: State, t: int, n: int)
    requires Inv(s) && s.threads(t) == Drop(n)
    ensures Inv(Goes(s.(tags := Put(s.tags, n, Absent)), t, Idle))
  {
    ThreadFacts(s, t);
    RetagLists(s.tags, s.lists, s.size, n, Absent);
    LoseHolders(s.tags, s.threads, s.owner, t, n, Absent, Idle);
    hide ListsOk, HoldersOk;
  }

  lemma BoundInv(s: State, bound: nat)
    requires Inv(s)
    ensures Inv(s.(max := bound))
  {
    hide ListsOk, HoldersOk;
  }

  lemma ResizeInv(s: State, t: int, choice: nat)
    requires Inv(s)
    requires s.threads(t).Resize? || s.threads(t).Shrink? || s.threads(t).ShrinkPop? || s.threads(t).ShrinkPut?
    ensures Inv(ThreadApply(s, t, choice))
  {
    hide Inv;
    match s.threads(t)
    case Resize(bound) =>
      BoundInv(s, bound);
      StayInv(s.(max := bound), t, Shrink);
    case Shrink => StayInv(s, t, if s.size(Hot) > s.max then ShrinkPop else Idle);
    case ShrinkPop =>
      if s.lists(Hot) == [] {
        StayInv(s, t, Shrink);
      } else {
        NodeAt(s, Hot, 0);
        TakeInv(s, t, s.lists(Hot)[0], ShrinkPut(s.lists(Hot)[0]));
      }
    case ShrinkPut(n) => AddInv(s, t, n, Lru, true, Shrink);
  }

  /** A step that leaves a list for another, or takes a node off one. */
  lemma EvictInv(s: State, t: int, choice: nat)
    requires Inv(s) && (s.threads(t).Evict? || s.threads(t).ScanLru? || s.threads(t).CoolHot?)
    ensures Inv(ThreadApply(s, t, choice))
  {
    hide Inv;
    match s.threads(t)
    case Evict =>
      if s.lists(Candidate) == [] {
        StayInv(s, t, ScanLru);
      } else {
        var n := s.lists(Candidate)[0];
        NodeAt(s, Candidate, 0);
        TakeInv(s, t, n, if choice == 0 then Have(n) else Insert(n, Lru, false));
      }
    case ScanLru =>
      if s.lists(Lru) == [] {
        StayInv(s, t, Idle);
      } else {
        var n := s.lists(Lru)[|s.lists(Lru)| - 1];
        NodeAt(s, Lru, |s.lists(Lru)| - 1);
        if choice == 0 { TakeInv(s, t, n, Have(n)); } else { MovedInv(s, t, n); }
      }
    case CoolHot =>
      if s.lists(Hot) == [] {
        StayInv(s, t, Idle);
      } else {
        NodeAt(s, Hot, 0);
        TakeInv(s, t, s.lists(Hot)[0], Insert(s.lists(Hot)[0], Lru, true));
      }
  }

  lemma UsesInv(s: State, n: int, used: nat)
    requires Inv(s)
    ensures Inv(Uses(s, n, used))
  {
    hide ListsOk, HoldersOk;
  }

  /** A step that writes the usage count. */
  lemma UsageInv(s: State, t: int, choice: nat)
    requires Inv(s)
    requires s.threads(t).Renew? || s.threads(t).Count? || s.threads(t).Have? || s.threads(t).Enter?
    ensures Inv(ThreadApply(s, t, choice))
  {
    hide Inv;
    var n := s.threads(t).n;
    UsesInv(s, n, 0);
    UsesInv(s, n, Next(s.usage(n)));
    match s.threads(t)
    case Renew(_) => StayInv(Uses(s, n, 0), t, Enter(n, true));
    case Count(_) =>
      var used := Next(s.usage(n));
      StayInv(Uses(s, n, used), t, if used < LRU_MAX_USAGE / 2 then Idle else Weigh(n));
    case Have(_) =>
      if choice <= 1 {
        StayInv(Uses(s, n, 0), t, Enter(n, choice == 0));
      } else {
        StayInv(s, t, Insert(n, Candidate, false));
      }
    case Enter(_, counts) => AddInv(if counts then Uses(s, n, Next(s.usage(n))) else s, t, n, Lru, true, Idle);
  }

  lemma ThreadInv(s: State, t: int, choice: nat)
    requires Inv(s) && !s.threads(t).Idle?
    ensures Inv(ThreadApply(s, t, choice))
  {
    hide Inv;
    ThreadFacts(s, t);
    match s.threads(t)
    case Access(n) => StayInv(s, t, AfterLook(s.tags(n), n));
    case TakeCandidate(n) =>
      if s.tags(n).Candidate? { TakeInv(s, t, n, Renew(n)); } else { StayInv(s, t, Access(n)); }
    case Renew(_) => UsageInv(s, t, choice);
    case Count(_) => UsageInv(s, t, choice);
    case Weigh(n) => StayInv(s, t, AfterWeigh(s.usage(n), n));
    case Touch(n) => if s.tags(n).Lru? { MovedInv(s, t, n); } else { StayInv(s, t, Access(n)); }
    case Promote(n) =>
      if s.tags(n).Lru? {
        UsesInv(s, n, 0);
        TakeInv(Uses(s, n, 0), t, n, PushHot(n));
      } else {
        StayInv(s, t, Access(n));
      }
    case PushHot(n) =>
      if s.size(Hot) == s.max { StayInv(s, t, MakeRoom(n)); } else { AddInv(s, t, n, Hot, false, Idle); }
    case MakeRoom(n) =>
      if s.lists(Hot) == [] {
        StayInv(s, t, PushHot(n));
      } else {
        NodeAt(s, Hot, 0);
        TakeInv(s, t, s.lists(Hot)[0], Return(n, s.lists(Hot)[0]));
      }
    case Return(n, m) => AddInv(s, t, m, Lru, true, PushHot(n));
    case Unlink(n, aim) => StayInv(s, t, AfterRead(s.tags(n), n, aim));
    case UnlinkFrom(n, list, aim) =>
      if s.tags(n) == list && list.IsList() {
        UsesInv(s, n, 0);
        TakeInv(if list.Lru? then Uses(s, n, 0) else s, t, n, AfterUnlink(list, n, aim));
      } else {
        StayInv(s, t, Unlink(n, aim));
      }
    case Drop(n) => RetireInv(s, t, n);
    case Evict => EvictInv(s, t, choice);
    case ScanLru => EvictInv(s, t, choice);
    case CoolHot => EvictInv(s, t, choice);
    case Have(_) => UsageInv(s, t, choice);
    case Enter(_, _) => UsageInv(s, t, choice);
    case Resize(_) => ResizeInv(s, t, choice);
    case Shrink => ResizeInv(s, t, choice);
    case ShrinkPop => ResizeInv(s, t, choice);
    case ShrinkPut(_) => ResizeInv(s, t, choice);
    case Insert(n, list, front) => AddInv(s, t, n, list, front, Idle);
  }

  lemma CreateInv(s: State, t: int, n: int)
    requires Inv(s) && s.threads(t).Idle? && s.tags(n).Absent?
    ensures Inv(Apply(s, Create(t, n)))
  {
    RetagLists(s.tags, s.lists, s.size, n, Pending);
    GainHolders(s.tags, s.threads, s.owner, t, n, Insert(n, Candidate, false));
    hide ListsOk, HoldersOk;
  }

  lemma JobInv(s: State, t: int, job: Job)
    requires Inv(s)
    ensures Inv(s.(jobs := Put(s.jobs, t, job)))
  {
    hide ListsOk, HoldersOk;
  }

  lemma NextInv(s: State, a: Action)
    requires Inv(s) && Enabled(s, a)
    ensures Inv(Apply(s, a))
  {
    hide ListsOk, HoldersOk;
    match a
    case Start(t, job) =>
      JobInv(s, t, job);
      StayInv(s.(jobs := Put(s.jobs, t, job)), t, First(job));
    case Create(t, n) => CreateInv(s, t, n);
    case Step(t, choice) => ThreadInv(s, t, choice);
  }

  // ---- Every run

  ghost predicate Execution(max: nat, states: seq<State>, actions: seq<Action>) {
    && |states| == |actions| + 1 && states[0] == Init(max)
    && forall i | 0 <= i < |actions| :: Enabled(states[i], actions[i]) && states[i + 1] == Apply(states[i], actions[i])
  }

  lemma {:induction false} ExecutionInv(max: nat, states: seq<State>, actions: seq<Action>, i: nat)
    requires Execution(max, states, actions) && i < |states|
    ensures Inv(states[i])
  {
    if i > 0 {
      ExecutionInv(max, states, actions, i - 1);
      assert Enabled(states[i - 1], actions[i - 1]);
      NextInv(states[i - 1], actions[i - 1]);
    }
  }

  /** How often n occurs in a list. */
  function Times(list: seq<int>, n: int): nat { multiset(list)[n] }

  /** One list has n, once, and no thread has it; or one thread has it, and no list; or it is not in the pool. */
  ghost predicate OneHome(s: State, n: int) {
    && (forall list: Tag :: Times(s.lists(list), n) == if s.tags(n) == list && list.IsList() then 1 else 0)
    && (forall t :: s.threads(t).Holds(n) <==> s.tags(n).Pending? && t == s.owner(n))
  }

  lemma {:induction false} NoDupTimes(list: seq<int>, n: int)
    requires NoDup(list)
    ensures Times(list, n) == if n in list then 1 else 0
  {
    if list != [] {
      var most, last := list[..|list| - 1], list[|list| - 1];
      assert list == most + [last];
      NoDupTimes(most, n);
      assert last !in most;
    }
  }

  lemma Ownership(max: nat, states: seq<State>, actions: seq<Action>, i: nat, n: int)
    requires Execution(max, states, actions) && i < |states|
    ensures OneHome(states[i], n)
  {
    ExecutionInv(max, states, actions, i);
    var s := states[i];
    forall t ensures s.threads(t).Holds(n) <==> s.tags(n).Pending? && t == s.owner(n) {
      assert Held(s.tags, s.threads, s.owner, n);
      assert s.threads(t).Holds(n) ==> OwnedBy(s.tags, s.owner, t, n);
    }
    forall list: Tag ensures Times(s.lists(list), n) == if s.tags(n) == list && list.IsList() then 1 else 0 {
      assert ListOk(s.tags, s.lists(list), s.size(list), list) && Listed(s.tags, s.lists(list), list, n);
      NoDupTimes(s.lists(list), n);
    }
  }

  /** Of racing removals one wins: a second thread has the node only after the first gave it away. */
  lemma {:induction false} TakenOnce(max: nat, states: seq<State>, actions: seq<Action>, i: nat, j: nat, t: int,
      u: int, n: int)
    requires Execution(max, states, actions) && i <= j < |states| && t != u
    requires states[i].threads(t).Holds(n) && states[j].threads(u).Holds(n)
    ensures exists k | i <= k < j :: states[k].threads(t).Holds(n) && !states[k + 1].threads(t).Holds(n)
    decreases j - i
  {
    ExecutionInv(max, states, actions, i);
    assert OwnedBy(states[i].tags, states[i].owner, t, n);
    if i < j && states[i + 1].threads(t).Holds(n) {
      TakenOnce(max, states, actions, i + 1, j, t, u, n);
    } else if i < j {
      assert states[i].threads(t).Holds(n) && !states[i + 1].threads(t).Holds(n);
    }
  }

  // ---- The bound of the hot list

  predicate HotBounded(s: State) { s.size(Hot) <= s.max }

  /** ResizeHotList is about to lower the bound below the length. */
  predicate Lowers(s: State, a: Action) {
    a.Step? && s.threads(a.thread).Resize? && s.threads(a.thread).bound < s.size(Hot)
  }

  /** BufferAccessStat is about to push to the hot list. */
  predicate Pushes(s: State, a: Action) { a.Step? && s.threads(a.thread).PushHot? && s.size(Hot) != s.max }

  /** Only BufferAccessStat pushes to the hot list, after comparing its length with the bound. */
  lemma InsertsElsewhere(s: State, t: int)
    requires Inv(s)
    ensures s.threads(t).Insert? ==> !s.threads(t).list.Hot?
  {
  }

  /**
    One step: the bound breaks exactly when ResizeHotList lowers it below the length. The length is
    compared with the bound for equality only, so above the bound every push succeeds.
  */
  lemma NextHot(s: State, a: Action)
    requires Inv(s) && Enabled(s, a)
    ensures var z := Apply(s, a);
      && (HotBounded(s) ==> (HotBounded(z) <==> !Lowers(s, a)))
      && z.size(Hot) <= s.size(Hot) + (if Pushes(s, a) then 1 else 0)
      && (!HotBounded(s) && Pushes(s, a) ==> z.size(Hot) == s.size(Hot) + 1)
  {
    hide Inv;
    if a.Step? {
      hide ThreadApply;
      InsertsElsewhere(s, a.thread);
      if TouchesHot(s.threads(a.thread)) {
        HotThread(s, a.thread, a.choice);
      } else {
        OtherThread(s, a.thread, a.choice);
      }
    }
  }

  /** The steps that may change the hot list or its bound. */
  predicate TouchesHot(w: Thread) {
    w.PushHot? || w.MakeRoom? || w.UnlinkFrom? || w.CoolHot? || w.ShrinkPop? || w.Resize? || w.Evict? || w.ScanLru?
  }

  lemma OtherThread(s: State, t: int, choice: nat)
    requires !s.threads(t).Idle? && !TouchesHot(s.threads(t)) && (s.threads(t).Insert? ==> !s.threads(t).list.Hot?)
    ensures var z := ThreadApply(s, t, choice); z.size(Hot) == s.size(Hot) && z.max == s.max
  {
  }

  lemma HotThread(s: State, t: int, choice: nat)
    requires TouchesHot(s.threads(t))
    ensures var z := ThreadApply(s, t, choice);
      && z.size(Hot) <= s.size(Hot) + (if s.threads(t).PushHot? && s.size(Hot) != s.max then 1 else 0)
      && (s.threads(t).PushHot? && s.size(Hot) != s.max ==> z.size(Hot) == s.size(Hot) + 1)
      && z.max == (if s.threads(t).Resize? then s.threads(t).bound else s.max)
      && (s.threads(t).Resize? ==> z.size(Hot) == s.size(Hot))
  {
  }

  /** The pushes in the first n steps from i on. */
  function PushCount(states: seq<State>, actions: seq<Action>, i: nat, n: nat): nat
    requires i + n <= |actions| && |actions| < |states|
  {
    if n == 0 then 0
    else PushCount(states, actions, i, n - 1) + if Pushes(states[i + n - 1], actions[i + n - 1]) then 1 else 0
  }

  /** Until the bound is lowered again, only pushes can keep the list above it, one node each. */
  lemma {:induction false} HotGrowth(max: nat, states: seq<State>, actions: seq<Action>, i: nat, n: nat)
    requires Execution(max, states, actions) && i + n < |states|
    requires forall k | i <= k < i + n :: !Lowers(states[k], actions[k])
    ensures HotBounded(states[i]) ==> HotBounded(states[i + n])
    ensures HotBounded(states[i + n]) ||
      states[i + n].size(Hot) <= states[i].size(Hot) + PushCount(states, actions, i, n)
  {
    hide Inv, Enabled, Apply, Lowers, Pushes, HotBounded;
    if n > 0 {
      var k := i + n - 1;
      HotGrowth(max, states, actions, i, n - 1);
      ExecutionInv(max, states, actions, k);
      assert Enabled(states[k], actions[k]) && !Lowers(states[k], actions[k]);
      NextHot(states[k], actions[k]);
      HotStep(states[k], actions[k], states[i].size(Hot) + PushCount(states, actions, i, n - 1));
    }
  }

  lemma HotStep(s: State, a: Action, most: int)
    requires Inv(s) && Enabled(s, a) && !Lowers(s, a) && (HotBounded(s) || s.size(Hot) <= most)
    ensures HotBounded(Apply(s, a)) || Apply(s, a).size(Hot) <= most + if Pushes(s, a) then 1 else 0
    ensures HotBounded(s) ==> HotBounded(Apply(s, a))
  {
    NextHot(s, a);
    hide Inv, Enabled, Apply;
  }

  /** Over the bound, a round of ResizeHotList takes one node off the hot list. */
  lemma ShrinkTakes(s: State, t: int, choice: nat)
    requires Inv(s) && s.threads(t).ShrinkPop? && !HotBounded(s) && 0 <= s.max
    ensures ThreadApply(s, t, choice).size(Hot) == s.size(Hot) - 1
  {
    assert ListOk(s.tags, s.lists(Hot), s.size(Hot), Hot);
    NodeAt(s, Hot, 0);
  }

  /** When ResizeHotList returns, the list is within its bound, and stays so until the bound is lowered again. */
  lemma ResizeRestores(max: nat, states: seq<State>, actions: seq<Action>, i: nat, j: nat, t: int)
    requires Execution(max, states, actions) && i < j < |states|
    requires actions[i].Step? && actions[i].thread == t
    requires states[i].threads(t).Shrink? && states[i + 1].threads(t).Idle?
    requires forall k | i < k < j :: !Lowers(states[k], actions[k])
    ensures HotBounded(states[j])
  {
    hide Inv;
    assert Enabled(states[i], actions[i]) && states[i + 1] == Apply(states[i], actions[i]);
    assert HotBounded(states[i + 1]);
    HotGrowth(max, states, actions, i + 1, j - i - 1);
  }
}
