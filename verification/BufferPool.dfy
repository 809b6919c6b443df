/**
  The elastic buffer pool: aligning the pool size with memory chunks and LRU partitions, appending
  chunks, and handing the new buffer descriptors to the partitions.
*/
module BufferPool {
  import opened Common
  import opened ListScan

  const BUF_MEMCHUNK_MAX_NBLOCKS: int := 1310720
  const BUF_MEMCHUNK_MIN_NCHUNKS: int := 8

  // ---- Alignment

  function RoundDown(x: nat, y: nat): int { if y != 0 then (x / y) * y else x }

  ghost predicate Divides(y: int, x: int) { exists q :: x == q * y }

  lemma DividesTrans(z: int, y: int, x: int)
    requires Divides(z, y) && Divides(y, x)
    ensures Divides(z, x)
  {
    var q, r :| y == q * z && x == r * y;
    assert x == (r * q) * z;
  }

  lemma RoundDownOk(x: nat, y: nat)
    requires 0 < y <= x
    ensures Divides(y, RoundDown(x, y)) && y <= RoundDown(x, y) <= x < RoundDown(x, y) + y
  {
    var q := x / y;
    assert x == y * q + x % y;
    AtLeastOne(y, q, x % y);
    assert q * y >= y;
  }

  lemma AtLeastOne(y: int, q: int, r: int)
    requires 0 <= r < y <= y * q + r
    ensures 1 <= q
  {
    assert q <= 0 ==> y * q <= 0;
  }

  /**
    Chunk size and partitions are the largest allowed ones, one of them rounded down so that one divides
    the other. The pool size is the largest multiple of both that is not above the requested one.
  */
  ghost predicate Aligned(requested: nat, partitions: nat, size: int, chunk: int, parts: int) {
    var c0 := Min(BUF_MEMCHUNK_MAX_NBLOCKS, requested / BUF_MEMCHUNK_MIN_NCHUNKS);
    var p0 := Min(partitions, requested);
    && 0 < chunk && 0 < parts
    && (if c0 > p0
        then parts == p0 && Divides(parts, chunk) && chunk <= c0 < chunk + p0
        else chunk == c0 && Divides(chunk, parts) && parts <= p0 < parts + c0)
    && Divides(chunk, size) && Divides(parts, size) && size <= requested < size + Max(chunk, parts)
  }

  /** What the start of InitMemChunkAndLruTemplate computes: pool size, chunk size and partitions. */
  method Align(requested: nat, partitions: nat) returns (size: int, chunk: int, parts: int)
    requires BUF_MEMCHUNK_MIN_NCHUNKS <= requested && 0 < partitions
    ensures Aligned(requested, partitions, size, chunk, parts)
    ensures requested < 2 * size && BUF_MEMCHUNK_MIN_NCHUNKS * chunk < 2 * size
    ensures chunk <= BUF_MEMCHUNK_MAX_NBLOCKS && parts <= partitions
  {
    hide RoundDown, Divides;
    chunk := Min(BUF_MEMCHUNK_MAX_NBLOCKS, requested / BUF_MEMCHUNK_MIN_NCHUNKS);
    parts := Min(partitions, requested);
    assert 0 < chunk && BUF_MEMCHUNK_MIN_NCHUNKS * chunk <= requested;
    if chunk > parts {
      RoundDownOk(chunk, parts);
      chunk := RoundDown(chunk, parts);
    } else {
      RoundDownOk(parts, chunk);
      parts := RoundDown(parts, chunk);
    }
    RoundDownOk(requested, Max(chunk, parts));
    size := RoundDown(requested, Max(chunk, parts));
    if Divides(chunk, parts) && chunk <= parts {
      DividesTrans(chunk, parts, size);
    } else {
      DividesTrans(parts, chunk, size);
    }
  }

  // ---- Appending chunks

  /** DListConcatenateTail. */
  function Concatenate(l: Links, first: int, second: int): Links {
    var next := Put(l.next, l.prev(second), first);
    var prev := Put(l.prev, l.next(second), l.prev(first));
    Links(Put(next, l.prev(first), l.next(second)), Put(prev, first, l.prev(second)))
  }

  lemma Concatenated(l: Links, first: int, s: seq<int>, second: int, t: seq<int>)
    requires Ring(l, first, s) && Ring(l, second, t) && Apart(first, s, second, t) && t != []
    ensures Ring(Concatenate(l, first, second), first, s + t) && Concatenate(l, first, second).next(second) == t[0]
  {
    var z, out := Concatenate(l, first, second), s + t;
    assert Linked(l, At(first, s, |s|), At(first, s, |s| + 1));
    assert Linked(l, At(second, t, 0), At(second, t, 1));
    assert Linked(l, At(second, t, |t|), At(second, t, |t| + 1));
    AtApart(first, s, |s|, second, t, 0);
    AtApart(first, s, |s|, second, t, |t|);
    AtApart(first, s, 0, second, t, 1);
    forall k | 0 <= k <= |out| ensures Linked(z, At(first, out, k), At(first, out, k + 1)) {
      if k < |s| {
        assert Linked(l, At(first, s, k), At(first, s, k + 1));
        AtApart(first, s, k, second, t, |t|);
        AtApart(first, s, k + 1, second, t, 1);
      } else if |s| < k < |out| {
        assert Linked(l, At(second, t, k - |s|), At(second, t, k - |s| + 1));
        AtApart(first, s, |s|, second, t, k - |s|);
        AtApart(first, s, 0, second, t, k - |s| + 1);
      }
    }
    JoinDistinct(first, s, second, t);
  }

  lemma JoinDistinct(first: int, s: seq<int>, second: int, t: seq<int>)
    requires Distinct(first, s) && Distinct(second, t) && Apart(first, s, second, t)
    ensures Distinct(first, s + t)
  {
    var out := s + t;
    forall i, j | 0 <= i < j < |out| ensures out[i] != out[j] {
      if i < |s| <= j { assert s[i] in s && t[j - |s|] in t; }
    }
  }

  /** What can go wrong with one chunk. */
  datatype Attempt = NoChunk | NoWrapper | NoInit | Ready

  function Interval(a: int, n: nat): (s: seq<int>)
    ensures |s| == n && (forall i | 0 <= i < n :: s[i] == a + i) && forall c :: c in s <==> a <= c < a + n
  {
    if n == 0 then [] else Interval(a, n - 1) + [a + n - 1]
  }

  /** The chunk list, and the chunks destroyed so far. Chunks are named by the order of their allocation. */
  class BufferMemChunkList {
    var chunks: seq<int>
    var numOfMemChunk: int
    var serial: nat
    ghost var destroyed: set<int>

    ghost predicate Valid()
      reads this
    {
      && numOfMemChunk == |chunks| && (forall i, j | 0 <= i < j < |chunks| :: chunks[i] != chunks[j])
      && (forall c :: 0 <= c < serial <==> c in chunks || c in destroyed) && (forall c | c in chunks :: c !in destroyed)
    }

    constructor ()
      ensures Valid() && chunks == [] && destroyed == {}
    {
      chunks, numOfMemChunk, serial, destroyed := [], 0, 0, {};
    }

    /** All the chunks are appended behind the old ones, or none is left and the list is as before. */
    method AppendBufferMemChunkList(attempts: seq<Attempt>) returns (ok: bool, first: int)
      requires Valid() && attempts != []
      modifies this
      ensures Valid() && ok == (forall i | 0 <= i < |attempts| :: attempts[i].Ready?)
      ensures ok ==> chunks == old(chunks) + Interval(old(serial), |attempts|) && first == old(serial)
      ensures ok ==> destroyed == old(destroyed)
      ensures !ok ==> chunks == old(chunks) && numOfMemChunk == old(numOfMemChunk)
      ensures !ok ==> forall c | old(serial) <= c < serial :: c in destroyed
    {
      ghost var from := serial;
      var newList: seq<int> := [];
      var i := 0;
      ok := true;
      while i < |attempts| && ok
        invariant 0 <= i <= |attempts| && chunks == old(chunks) && numOfMemChunk == old(numOfMemChunk)
        invariant newList == Interval(from, |newList|) && from + |newList| <= serial
        invariant ok ==> |newList| == i && serial == from + i && destroyed == old(destroyed)
        invariant forall c :: c in destroyed <==> c in old(destroyed) || from + |newList| <= c < serial
        invariant ok ==> forall j | 0 <= j < i :: attempts[j].Ready?
        invariant !ok ==> i < |attempts| && !attempts[i].Ready?
        decreases |attempts| - i + if ok then 1 else 0
      {
        match attempts[i]
        case NoChunk =>
          ok := false;
        case NoWrapper =>
          destroyed := destroyed + {serial};
          serial := serial + 1;
          ok := false;
        case NoInit =>
          newList := newList + [serial];
          serial := serial + 1;
          ok := false;
        case Ready =>
          newList := newList + [serial];
          serial := serial + 1;
          i := i + 1;
      }
      if ok {
        assert forall i | 0 <= i < |chunks| :: chunks[i] in chunks && chunks[i] < from;
        chunks := chunks + newList;
        numOfMemChunk := numOfMemChunk + |attempts|;
        first := newList[0];
      } else {
        first := -1;
        destroyed := Rollback(newList, from, serial, destroyed, old(destroyed));
      }
    }

    method DestroyBufferMemChunkList()
      requires Valid()
      modifies this
      ensures Valid() && chunks == [] && numOfMemChunk == 0 && forall c | c in old(chunks) :: c in destroyed
    {
      while chunks != []
        invariant Valid() && forall c | c in old(chunks) :: c in chunks || c in destroyed
        decreases |chunks|
      {
        ghost var head, tail := chunks[0], chunks[1..];
        assert chunks == [head] + tail && head !in tail;
        assert forall c :: c in chunks <==> c == head || c in tail;
        destroyed := destroyed + {head};
        chunks := chunks[1..];
        numOfMemChunk := numOfMemChunk - 1;
      }
    }
  }

  /** The rollback loop: what is left in the new list is destroyed, from its head. */
  method Rollback(list: seq<int>, ghost from: int, ghost end: int, ghost dead: set<int>, ghost before: set<int>)
    returns (ghost destroyed: set<int>)
    requires list == Interval(from, |list|) && from + |list| <= end
    requires forall c :: c in dead <==> c in before || from + |list| <= c < end
    ensures forall c :: c in destroyed <==> c in before || from <= c < end
  {
    var newList := list;
    ghost var n := 0;
    destroyed := dead;
    while newList != []
      invariant 0 <= n <= |list| && newList == list[n..]
      invariant forall c :: c in destroyed <==> c in before || from + |list| <= c < end || from <= c < from + n
      decreases |newList|
    {
      destroyed := destroyed + {newList[0]};
      newList := newList[1..];
      n := n + 1;
    }
  }

  // ---- Handing out the descriptors

  lemma DivMod(q: int, r: int, d: int)
    requires 0 <= r < d
    ensures (q * d + r) / d == q && (q * d + r) % d == r
  {
    var x := q * d + r;
    assert x == d * (x / d) + x % d;
    assert (q - x / d) * d == x % d - r;
    NoMultipleAround(q - x / d, d, x % d - r);
  }

  lemma NoMultipleAround(q: int, d: int, e: int)
    requires q * d == e && -d < e < d
    ensures q == 0
  {
    assert q >= 1 ==> q * d >= d;
    assert q <= -1 ==> q * d <= -d;
  }

  /** What partition j gets of the first n descriptors handed out in turn. */
  function Share(n: nat, parts: nat, j: int): int
    requires 0 < parts
  {
    n / parts + if j < n % parts then 1 else 0
  }

  lemma NextTurn(n: nat, parts: nat)
    requires 0 < parts
    ensures (n + 1) % parts == (n % parts + 1) % parts
    ensures (n + 1) % parts == if n % parts + 1 == parts then 0 else n % parts + 1
    ensures (n + 1) / parts == n / parts + if n % parts + 1 == parts then 1 else 0
  {
    var q, r := n / parts, n % parts;
    assert n == q * parts + r;
    if r + 1 == parts {
      assert n + 1 == (q + 1) * parts + 0;
      DivMod(q + 1, 0, parts);
      DivMod(1, 0, parts);
    } else {
      DivMod(q, r + 1, parts);
      DivMod(0, r + 1, parts);
    }
  }

  lemma NextShare(n: nat, parts: nat, j: nat)
    requires 0 < parts && j < parts
    ensures Share(n + 1, parts, j) == Share(n, parts, j) + if j == n % parts then 1 else 0
  {
    NextTurn(n, parts);
  }

  /** A buffer descriptor: its chunk, and its place in the chunk. */
  datatype Desc = Desc(chunk: int, index: int)

  /** The k-th descriptor of the chunks, each of the given size. */
  predicate IsNumber(d: Desc, chunks: seq<int>, chunkSize: nat, k: nat) {
    0 < chunkSize && 0 <= k / chunkSize < |chunks| && d == Desc(chunks[k / chunkSize], k % chunkSize)
  }

  /** Chunk after chunk, the descriptors of each in order, as far as the list goes. */
  predicate InOrder(given: seq<Desc>, chunks: seq<int>, chunkSize: nat) {
    forall k: nat | k < |given| :: IsNumber(given[k], chunks, chunkSize, k)
  }

  /** All descriptors of the chunks, chunk after chunk. */
  predicate Descriptors(given: seq<Desc>, chunks: seq<int>, chunkSize: nat) {
    |given| == |chunks| * chunkSize && InOrder(given, chunks, chunkSize)
  }

  lemma {:induction false} Multiples(a: nat, b: nat, d: nat)
    requires a <= b
    ensures 0 <= a * d <= b * d
  {
    if a < b { Multiples(a, b - 1, d); }
  }

  lemma NumberOf(chunks: seq<int>, chunkSize: nat, c: nat, i: nat)
    requires c < |chunks| && i < chunkSize
    ensures 0 <= c * chunkSize + i < |chunks| * chunkSize
    ensures IsNumber(Desc(chunks[c], i), chunks, chunkSize, c * chunkSize + i)
  {
    Multiples(c + 1, |chunks|, chunkSize);
    assert (c + 1) * chunkSize == c * chunkSize + chunkSize;
    DivMod(c, i, chunkSize);
  }

  /** Of distinct chunks, different numbers give different descriptors. */
  lemma OneNumber(d: Desc, chunks: seq<int>, chunkSize: nat, a: nat, b: nat)
    requires forall i, j | 0 <= i < j < |chunks| :: chunks[i] != chunks[j]
    requires IsNumber(d, chunks, chunkSize, a) && IsNumber(d, chunks, chunkSize, b)
    ensures a == b
  {
    var p, q := a / chunkSize, b / chunkSize;
    assert p == q;
    assert a == chunkSize * p + a % chunkSize && b == chunkSize * q + b % chunkSize;
  }

  lemma NextDescriptor(given: seq<Desc>, chunks: seq<int>, chunkSize: nat, c: nat, i: nat)
    requires InOrder(given, chunks, chunkSize) && c < |chunks| && i < chunkSize && |given| == c * chunkSize + i
    ensures InOrder(given + [Desc(chunks[c], i)], chunks, chunkSize)
  {
    hide IsNumber;
    NumberOf(chunks, chunkSize, c, i);
    var more := given + [Desc(chunks[c], i)];
    forall k: nat | k < |more| ensures IsNumber(more[k], chunks, chunkSize, k) {
      if k < |given| { assert IsNumber(given[k], chunks, chunkSize, k); }
    }
  }

  /** Every descriptor of the chunks is in the list exactly once, and nothing else is. */
  ghost predicate EachOnce(given: seq<Desc>, chunks: seq<int>, chunkSize: nat) {
    && (forall d :: d in given <==> d.chunk in chunks && 0 <= d.index < chunkSize)
    && (forall a, b | 0 <= a < b < |given| :: given[a] != given[b])
  }

  lemma AllOnce(given: seq<Desc>, chunks: seq<int>, chunkSize: nat)
    requires Descriptors(given, chunks, chunkSize) && forall i, j | 0 <= i < j < |chunks| :: chunks[i] != chunks[j]
    ensures EachOnce(given, chunks, chunkSize)
  {
    hide IsNumber;
    forall d ensures d in given <==> d.chunk in chunks && 0 <= d.index < chunkSize {
      if d.chunk in chunks && 0 <= d.index < chunkSize {
        var c :| 0 <= c < |chunks| && chunks[c] == d.chunk;
        IsGiven(given, chunks, chunkSize, c, d.index);
      }
      if d in given {
        var k: nat :| k < |given| && given[k] == d;
        assert IsNumber(given[k], chunks, chunkSize, k);
        InChunk(d, chunks, chunkSize, k);
      }
    }
    forall a, b | 0 <= a < b < |given| ensures given[a] != given[b] {
      assert IsNumber(given[a], chunks, chunkSize, a) && IsNumber(given[b], chunks, chunkSize, b);
      if given[a] == given[b] { OneNumber(given[a], chunks, chunkSize, a, b); }
    }
  }

  lemma IsGiven(given: seq<Desc>, chunks: seq<int>, chunkSize: nat, c: nat, i: nat)
    requires Descriptors(given, chunks, chunkSize) && c < |chunks| && i < chunkSize
    ensures Desc(chunks[c], i) in given
  {
    hide IsNumber;
    NumberOf(chunks, chunkSize, c, i);
    var k := c * chunkSize + i;
    assert IsNumber(given[k], chunks, chunkSize, k);
    SameNumber(given[k], Desc(chunks[c], i), chunks, chunkSize, k);
  }

  lemma SameNumber(d: Desc, e: Desc, chunks: seq<int>, chunkSize: nat, k: nat)
    requires IsNumber(d, chunks, chunkSize, k) && IsNumber(e, chunks, chunkSize, k)
    ensures d == e
  {
  }

  lemma InChunk(d: Desc, chunks: seq<int>, chunkSize: nat, k: nat)
    requires IsNumber(d, chunks, chunkSize, k)
    ensures d.chunk in chunks && 0 <= d.index < chunkSize
  {
  }

  /** Handed out in turn: home[k] is the partition of the k-th descriptor, got[j] the number given to partition j. */
  ghost predicate InTurn(home: seq<int>, got: seq<int>, parts: nat)
    requires 0 < parts
  {
    && (forall k: nat | k < |home| :: home[k] == k % parts)
    && |got| == parts && forall j: nat | j < parts :: got[j] == multiset(home)[j] == Share(|home|, parts, j)
  }

  lemma OneMore(home: seq<int>, got: seq<int>, parts: nat, j: nat)
    requires 0 < parts && InTurn(home, got, parts) && j == |home| % parts
    ensures |got| == parts && InTurn(home + [j], got[j := got[j] + 1], parts)
    ensures (j + 1) % parts == (|home| + 1) % parts
  {
    hide Share;
    NextTurn(|home|, parts);
    var more := got[j := got[j] + 1];
    assert multiset(home + [j]) == multiset(home) + multiset{j};
    forall i: nat | i < parts ensures more[i] == multiset(home + [j])[i] == Share(|home| + 1, parts, i) {
      NextShare(|home|, parts, i);
      assert got[i] == multiset(home)[i];
    }
  }

  /** AddBuffersInSpecifiedChunksToLru, from a chunk of the list to its end. */
  method HandOut(chunks: seq<int>, first: nat, chunkSize: nat, parts: nat)
    returns (given: seq<Desc>, home: seq<int>, got: seq<int>)
    requires 0 < parts && first <= |chunks|
    ensures Descriptors(given, chunks[first..], chunkSize)
    ensures (forall i, j | 0 <= i < j < |chunks| :: chunks[i] != chunks[j]) ==>
      EachOnce(given, chunks[first..], chunkSize)
    ensures |home| == |given| && InTurn(home, got, parts)
  {
    hide Share, InTurn, InOrder, EachOnce;
    given, home, got := [], [], seq(parts, _ => 0);
    var lruIndex, c := 0, first;
    ghost var rest := chunks[first..];
    NoneGiven(parts, rest, chunkSize);
    while c < |chunks|
      invariant first <= c <= |chunks| && |home| == |given| == (c - first) * chunkSize
      invariant InOrder(given, rest, chunkSize)
      invariant InTurn(home, got, parts) && 0 <= lruIndex == |home| % parts
    {
      var i := 0;
      while i < chunkSize
        invariant 0 <= i <= chunkSize && |home| == |given| == (c - first) * chunkSize + i
        invariant InOrder(given, rest, chunkSize)
        invariant InTurn(home, got, parts) && 0 <= lruIndex == |home| % parts
      {
        OneMore(home, got, parts, lruIndex);
        NextDescriptor(given, rest, chunkSize, c - first, i);
        given := given + [Desc(chunks[c], i)];
        home, got := home + [lruIndex], got[lruIndex := got[lruIndex] + 1];
        lruIndex := (lruIndex + 1) % parts;
        i := i + 1;
      }
      c := c + 1;
      assert (c - first) * chunkSize == (c - 1 - first) * chunkSize + chunkSize;
    }
    if forall i, j | 0 <= i < j < |chunks| :: chunks[i] != chunks[j] { AllOnce(given, rest, chunkSize); }
  }

  lemma NoneGiven(parts: nat, chunks: seq<int>, chunkSize: nat)
    requires 0 < parts
    ensures InTurn([], seq(parts, _ => 0), parts) && InOrder([], chunks, chunkSize)
  {
    DivMod(0, 0, parts);
  }

  /** DoWhenBufferpoolResizeTemplate, growing: the new descriptors are handed out, and no others. */
  method Grow(list: BufferMemChunkList, attempts: seq<Attempt>, chunkSize: nat, parts: nat)
    returns (ok: bool, given: seq<Desc>, home: seq<int>, got: seq<int>)
    requires list.Valid() && attempts != [] && 0 < parts
    modifies list
    ensures list.Valid() && ok == (forall i | 0 <= i < |attempts| :: attempts[i].Ready?)
    ensures list.chunks == old(list.chunks) + if ok then Interval(old(list.serial), |attempts|) else []
    ensures var added := list.chunks[|old(list.chunks)|..];
      Descriptors(given, added, chunkSize) && EachOnce(given, added, chunkSize)
    ensures |home| == |given| && InTurn(home, got, parts)
  {
    hide InOrder, EachOnce, InTurn;
    var first := |list.chunks|;
    var chunk;
    ok, chunk := list.AppendBufferMemChunkList(attempts);
    if ok {
      given, home, got := HandOut(list.chunks, first, chunkSize, parts);
    } else {
      given, home, got := [], [], seq(parts, _ => 0);
      NoneGiven(parts, [], chunkSize);
      AllOnce([], [], chunkSize);
      assert list.chunks[first..] == [];
    }
  }

  /** InitMemChunkAndLruTemplate: the aligned pool is handed out whole, in equal shares. */
  method StartUp(requested: nat, partitions: nat, outcome: int -> Attempt)
    returns (list: BufferMemChunkList, size: int, chunk: int, parts: int, ok: bool,
             given: seq<Desc>, home: seq<int>, got: seq<int>)
    requires BUF_MEMCHUNK_MIN_NCHUNKS <= requested && 0 < partitions
    ensures fresh(list) && list.Valid() && Aligned(requested, partitions, size, chunk, parts)
    ensures ok == forall i | 0 <= i < size / chunk :: outcome(i).Ready?
    ensures Descriptors(given, list.chunks, chunk) && EachOnce(given, list.chunks, chunk)
    ensures |home| == |given| && InTurn(home, got, parts)
    ensures ok ==> |given| == size && |list.chunks| == size / chunk
    ensures ok ==> forall j | 0 <= j < parts :: got[j] * parts == size
    ensures !ok ==> list.chunks == [] && given == []
  {
    hide Descriptors, InOrder, EachOnce, InTurn, Divides, Share;
    size, chunk, parts := Align(requested, partitions);
    list := new BufferMemChunkList();
    var n := size / chunk;
    WholeChunks(size, chunk);
    var attempts := seq(n, i => outcome(i));
    assert forall i | 0 <= i < n :: attempts[i] == outcome(i);
    ok, given, home, got := Grow(list, attempts, chunk, parts);
    HowMany(given, list.chunks, chunk);
    if ok { EqualShares(home, got, parts); }
  }

  lemma HowMany(given: seq<Desc>, chunks: seq<int>, chunkSize: nat)
    requires Descriptors(given, chunks, chunkSize)
    ensures |given| == |chunks| * chunkSize
  {
  }

  lemma WholeChunks(size: int, chunk: int)
    requires 0 < chunk && 0 < size && Divides(chunk, size)
    ensures 0 < size / chunk && (size / chunk) * chunk == size
  {
    var q :| size == q * chunk;
    Quotient(size, chunk, q);
  }

  lemma Quotient(x: int, d: int, q: int)
    requires 0 < d && 0 < x == q * d
    ensures x / d == q && 0 < q
  {
    assert q <= 0 ==> q * d <= 0;
    DivMod(q, 0, d);
  }

  lemma EqualShares(home: seq<int>, got: seq<int>, parts: nat)
    requires 0 < parts && InTurn(home, got, parts) && Divides(parts, |home|)
    ensures |got| == parts && forall j | 0 <= j < parts :: got[j] * parts == |home|
  {
    hide Share, Divides;
    forall j: nat | j < parts ensures got[j] * parts == |home| {
      EvenShares(|home|, parts, j, j);
    }
  }

  /** Any two shares differ by at most one, and are equal when the partitions divide the descriptors. */
  lemma EvenShares(n: nat, parts: nat, i: int, j: nat)
    requires 0 < parts
    ensures -1 <= Share(n, parts, i) - Share(n, parts, j) <= 1
    ensures Divides(parts, n) ==> Share(n, parts, j) * parts == n
  {
    if Divides(parts, n) {
      var q :| n == q * parts;
      DivMod(q, 0, parts);
    }
  }
}
