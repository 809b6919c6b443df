/**
  Intrusive circular lists and a scan whose body may move the current node to another list. Pointers
  are functions from node to node; a list head is a node too.
*/
module ListScan {
  import opened Common

  datatype Links = Links(next: int -> int, prev: int -> int)

  /** DListDelete. */
  function Delete(l: Links, n: int): Links {
    Links(Put(l.next, l.prev(n), l.next(n)), Put(l.prev, l.next(n), l.prev(n)))
  }

  /** DListPushTail on an initialised head. */
  function PushTail(l: Links, head: int, n: int): Links {
    Links(Put(Put(l.next, n, head), l.prev(head), n), Put(Put(l.prev, n, l.prev(head)), head, n))
  }

  /** The node at position i of the ring: the head at both ends. */
  function At(head: int, s: seq<int>, i: int): int { if 1 <= i <= |s| then s[i - 1] else head }

  predicate Linked(l: Links, a: int, b: int) { l.next(a) == b && l.prev(b) == a }

  predicate Distinct(head: int, s: seq<int>) {
    head !in s && forall i, j | 0 <= i < j < |s| :: s[i] != s[j]
  }

  /** From head, the nodes of s in order, and back. */
  predicate Ring(l: Links, head: int, s: seq<int>) {
    Distinct(head, s) && forall i | 0 <= i <= |s| :: Linked(l, At(head, s, i), At(head, s, i + 1))
  }

  predicate Apart(head: int, s: seq<int>, other: int, o: seq<int>) {
    head != other && head !in o && other !in s && forall x | x in s :: x !in o
  }

  lemma Neighbours(l: Links, head: int, s: seq<int>, i: int)
    requires Ring(l, head, s) && 0 <= i < |s|
    ensures l.next(s[i]) == At(head, s, i + 2) && l.prev(s[i]) == At(head, s, i)
  {
    assert Linked(l, At(head, s, i), At(head, s, i + 1));
    assert Linked(l, At(head, s, i + 1), At(head, s, i + 2));
  }

  lemma DeleteRing(l: Links, head: int, s: seq<int>, i: int)
    requires Ring(l, head, s) && 0 <= i < |s|
    ensures Ring(Delete(l, s[i]), head, s[..i] + s[i + 1..])
  {
    var z, out := Delete(l, s[i]), s[..i] + s[i + 1..];
    Neighbours(l, head, s, i);
    forall k | 0 <= k <= |out| ensures Linked(z, At(head, out, k), At(head, out, k + 1)) {
      if k < i {
        assert Linked(l, At(head, s, k), At(head, s, k + 1));
      } else if k > i {
        assert Linked(l, At(head, s, k + 1), At(head, s, k + 2));
      }
    }
  }

  lemma AtApart(head: int, s: seq<int>, i: int, other: int, o: seq<int>, k: int)
    requires Apart(head, s, other, o)
    ensures At(head, s, i) != At(other, o, k)
  {
    assert 1 <= i <= |s| ==> s[i - 1] in s;
    assert 1 <= k <= |o| ==> o[k - 1] in o;
  }

  /** Unlinking a node leaves a ring it is not in. */
  lemma DeleteApart(l: Links, head: int, s: seq<int>, i: int, other: int, o: seq<int>)
    requires Ring(l, head, s) && 0 <= i < |s| && Ring(l, other, o) && Apart(head, s, other, o)
    ensures Ring(Delete(l, s[i]), other, o)
  {
    Neighbours(l, head, s, i);
    var z := Delete(l, s[i]);
    forall k | 0 <= k <= |o| ensures Linked(z, At(other, o, k), At(other, o, k + 1)) {
      AtApart(head, s, i, other, o, k);
      AtApart(head, s, i + 2, other, o, k + 1);
      assert Linked(l, At(other, o, k), At(other, o, k + 1));
    }
  }

  lemma PushRing(l: Links, head: int, s: seq<int>, n: int)
    requires Ring(l, head, s) && n !in s && n != head
    ensures Ring(PushTail(l, head, n), head, s + [n])
  {
    var z, out := PushTail(l, head, n), s + [n];
    assert Linked(l, At(head, s, |s|), At(head, s, |s| + 1));
    forall k | 0 <= k <= |out| ensures Linked(z, At(head, out, k), At(head, out, k + 1)) {
      if k < |s| { assert Linked(l, At(head, s, k), At(head, s, k + 1)); }
    }
  }

  lemma PushApart(l: Links, head: int, s: seq<int>, n: int, other: int, o: seq<int>)
    requires Ring(l, head, s) && Ring(l, other, o) && Apart(head, s, other, o) && n !in o && n != other
    ensures Ring(PushTail(l, head, n), other, o)
  {
    assert Linked(l, At(head, s, |s|), At(head, s, |s| + 1));
    var z := PushTail(l, head, n);
    forall k | 0 <= k <= |o| ensures Linked(z, At(other, o, k), At(other, o, k + 1)) {
      assert Linked(l, At(other, o, k), At(other, o, k + 1));
    }
  }

  /** Node i of s moves to the end of the other list. */
  lemma Moved(l: Links, head: int, s: seq<int>, i: int, other: int, o: seq<int>)
    requires Ring(l, head, s) && Ring(l, other, o) && Apart(head, s, other, o) && 0 <= i < |s|
    ensures var z := PushTail(Delete(l, s[i]), other, s[i]);
      && Ring(z, head, s[..i] + s[i + 1..]) && Ring(z, other, o + [s[i]])
      && Apart(head, s[..i] + s[i + 1..], other, o + [s[i]])
  {
    var m := Delete(l, s[i]);
    DeleteRing(l, head, s, i);
    DeleteApart(l, head, s, i, other, o);
    PushRing(m, other, o, s[i]);
    PushApart(m, other, o, s[i], head, s[..i] + s[i + 1..]);
  }

  /** The nodes of s that are moved, or those that are not. */
  function Pick(s: seq<int>, move: int -> bool, moved: bool): seq<int> {
    if s == [] then []
    else Pick(s[..|s| - 1], move, moved) + if move(|s| - 1) == moved then [s[|s| - 1]] else []
  }

  lemma PickNext(s: seq<int>, k: int, move: int -> bool, moved: bool)
    requires 0 <= k < |s|
    ensures Pick(s[..k + 1], move, moved) == Pick(s[..k], move, moved) + if move(k) == moved then [s[k]] else []
  {
    assert s[..k + 1][..k] == s[..k];
  }

  /** Pick is the nodes at the picked places, in their order. */
  lemma {:induction false} PickFirst(x: int, s: seq<int>, move: int -> bool, moved: bool)
    ensures Pick([x] + s, move, moved)
         == (if move(0) == moved then [x] else []) + Pick(s, k => move(k + 1), moved)
    ensures Pick([], move, moved) == []
    decreases |s|
  {
    if s == [] {
      assert Pick([x], move, moved) == Pick([], move, moved) + if move(0) == moved then [x] else [];
    } else {
      var most := s[..|s| - 1];
      assert ([x] + s)[..|s|] == [x] + most;
      PickFirst(x, most, move, moved);
    }
  }

  function Rev(s: seq<int>): (r: seq<int>)
    ensures |r| == |s| && forall i | 0 <= i < |s| :: r[i] == s[|s| - 1 - i]
  {
    seq(|s|, i requires 0 <= i < |s| => s[|s| - 1 - i])
  }

  /** The links as an iterator of the given direction follows them. */
  function View(l: Links, forward: bool): Links { if forward then l else Links(l.prev, l.next) }

  /** The nodes in the order of the iterator. */
  function Order(s: seq<int>, forward: bool): seq<int> { if forward then s else Rev(s) }

  lemma OrderAt(s: seq<int>, forward: bool)
    ensures |Order(s, forward)| == |s|
    ensures forall i | 0 <= i < |s| :: Order(s, forward)[i] == if forward then s[i] else s[|s| - 1 - i]
  {
  }

  lemma ViewRing(l: Links, head: int, s: seq<int>, forward: bool)
    requires Ring(l, head, s)
    ensures Ring(View(l, forward), head, Order(s, forward))
  {
    if !forward {
      var z, r := View(l, false), Rev(s);
      forall k | 0 <= k <= |r| ensures Linked(z, At(head, r, k), At(head, r, k + 1)) {
        assert Linked(l, At(head, s, |s| - k), At(head, s, |s| - k + 1));
      }
      RevNodes(s);
    }
  }

  lemma RevNodes(s: seq<int>)
    ensures forall x :: x in Rev(s) <==> x in s
  {
    forall x | x in s ensures x in Rev(s) {
      var i :| 0 <= i < |s| && s[i] == x;
      assert Rev(s)[|s| - 1 - i] == x;
    }
  }

  lemma OrderApart(head: int, s: seq<int>, other: int, o: seq<int>, forward: bool)
    requires Apart(head, s, other, o)
    ensures Apart(head, Order(s, forward), other, o)
  {
    RevNodes(s);
  }

  /** Node i in the order of the iterator moves to the end of the other list. */
  lemma MovedView(l: Links, forward: bool, head: int, s: seq<int>, i: int, other: int, o: seq<int>)
    requires Ring(View(l, forward), head, s) && Ring(l, other, o) && Apart(head, s, other, o) && 0 <= i < |s|
    ensures var z := PushTail(Delete(l, s[i]), other, s[i]);
      && Ring(View(z, forward), head, s[..i] + s[i + 1..]) && Ring(z, other, o + [s[i]])
      && Apart(head, s[..i] + s[i + 1..], other, o + [s[i]])
  {
    hide Ring, Apart, Delete, PushTail;
    var r, j := Order(s, forward), if forward then i else |s| - 1 - i;
    var z, left := PushTail(Delete(l, s[i]), other, s[i]), r[..j] + r[j + 1..];
    ViewRing(View(l, forward), head, s, forward);
    OrderApart(head, s, other, o, forward);
    Moved(l, head, r, j, other, o);
    ViewRing(z, head, left, forward);
    OrderApart(head, left, other, o + [s[i]], forward);
    assert Order(left, forward) == s[..i] + s[i + 1..];
  }

  /** After k nodes: those not moved and those not visited are linked, and the moved ones are in the other list. */
  ghost predicate Scanning(l: Links, forward: bool, head: int, other: int, move: int -> bool, s: seq<int>, o: seq<int>,
                           k: int, cur: int) {
    && 0 <= k <= |s| && head !in s && cur == At(head, s, k + 1)
    && var left, right := Pick(s[..k], move, false) + s[k..], o + Pick(s[..k], move, true);
       Ring(View(l, forward), head, left) && Ring(l, other, right) && Apart(head, left, other, right)
  }

  lemma Begin(l: Links, forward: bool, head: int, other: int, move: int -> bool, s: seq<int>, o: seq<int>)
    requires Ring(View(l, forward), head, s) && Ring(l, other, o) && Apart(head, s, other, o)
    ensures Scanning(l, forward, head, other, move, s, o, 0, View(l, forward).next(head))
  {
    assert Linked(View(l, forward), At(head, s, 0), At(head, s, 1));
    assert Pick(s[..0], move, false) + s[0..] == s && o + Pick(s[..0], move, true) == o;
  }

  lemma Continue(l: Links, forward: bool, head: int, other: int, move: int -> bool, s: seq<int>, o: seq<int>,
                 k: int, cur: int)
    requires Scanning(l, forward, head, other, move, s, o, k, cur) && cur != head
    ensures k < |s| && cur == s[k]
    ensures Scanning(if move(k) then PushTail(Delete(l, cur), other, cur) else l, forward, head, other, move, s, o,
                     k + 1, View(l, forward).next(cur))
  {
    hide Pick, View;
    var kept, moved := Pick(s[..k], move, false), Pick(s[..k], move, true);
    var left, right := kept + s[k..], o + moved;
    assert left[|kept|] == cur && (k + 1 < |s| ==> left[|kept| + 1] == s[k + 1]);
    Neighbours(View(l, forward), head, left, |kept|);
    PickNext(s, k, move, false);
    PickNext(s, k, move, true);
    if move(k) {
      MovedView(l, forward, head, left, |kept|, other, right);
      assert left[..|kept|] + left[|kept| + 1..] == kept + s[k + 1..];
      assert right + [cur] == o + (moved + [cur]) && kept + [] == kept;
    } else {
      assert left == (kept + [cur]) + s[k + 1..] && moved + [] == moved;
    }
  }

  lemma Finish(l: Links, forward: bool, head: int, other: int, move: int -> bool, s: seq<int>, o: seq<int>, k: int)
    requires Scanning(l, forward, head, other, move, s, o, k, head)
    ensures k == |s| && Ring(l, other, o + Pick(s, move, true))
    ensures Ring(l, head, Order(Pick(s, move, false), forward))
  {
    assert s[..|s|] == s && s[|s|..] == [] && Pick(s, move, false) + [] == Pick(s, move, false);
    ViewRing(View(l, forward), head, Pick(s, move, false), forward);
  }

  /**
    A scan in either direction that moves the nodes it chooses: every node originally present is
    visited once, in the order of the iterator, the others stay in order, and the scan comes to its end.
  */
  method Scan(links: Links, forward: bool, head: int, other: int, move: int -> bool, ghost s: seq<int>,
      ghost o: seq<int>)
    returns (visited: seq<int>, l: Links)
    requires Ring(links, head, s) && Ring(links, other, o) && Apart(head, s, other, o)
    ensures visited == Order(s, forward)
    ensures |visited| == |s| && forall i | 0 <= i < |s| :: visited[i] == if forward then s[i] else s[|s| - 1 - i]
    ensures Ring(l, head, Order(Pick(visited, move, false), forward)) && Ring(l, other, o + Pick(visited, move, true))
  {
    hide Scanning, Ring, Apart, Delete, PushTail, At, Order;
    l := links;
    ghost var r := Order(s, forward);
    ViewRing(l, head, s, forward);
    OrderApart(head, s, other, o, forward);
    Begin(l, forward, head, other, move, r, o);
    var cur := if forward then l.next(head) else l.prev(head);
    var next := if forward then l.next(cur) else l.prev(cur);
    visited := [];
    while cur != head
      invariant |visited| <= |r| && visited == r[..|visited|] && next == View(l, forward).next(cur)
      invariant Scanning(l, forward, head, other, move, r, o, |visited|, cur)
      decreases |r| - |visited|
    {
      Continue(l, forward, head, other, move, r, o, |visited|, cur);
      if move(|visited|) {
        l := PushTail(Delete(l, cur), other, cur);
      }
      visited := visited + [cur];
      cur := next;
      next := if forward then l.next(cur) else l.prev(cur);
    }
    Finish(l, forward, head, other, move, r, o, |visited|);
    OrderAt(s, forward);
  }
}
