/**
  The difference between two versions of a tuple. Positions are counted from the end of the data, so
  versions of different lengths are compared right-aligned; a range [start, end) of positions covers
  the bytes the redo and undo records carry.
*/
module TupleDiff {
  import opened Common

  const MAX_DIFF_POS_NUM: int := 10
  const NUM_DIFF_STEP: int := 2

  datatype Range = Range(start: int, end: int)

  /** Both versions have a byte at position k from the end, and it is the same. */
  predicate Same(a: seq<byte>, b: seq<byte>, k: int) {
    0 <= k < |a| && k < |b| && a[|a| - 1 - k] == b[|b| - 1 - k]
  }

  predicate Covered(rs: seq<Range>, k: int) {
    rs != [] && (rs[0].start <= k < rs[0].end || Covered(rs[1..], k))
  }

  /** Non-empty ranges in increasing order with gaps between them, within [lo, n). */
  predicate Ordered(rs: seq<Range>, lo: int, n: int) {
    rs == [] || (lo <= rs[0].start < rs[0].end <= n && Ordered(rs[1..], rs[0].end + 1, n))
  }

  // ---- The maximal runs of differing positions

  function NextDiff(a: seq<byte>, b: seq<byte>, i: int): (k: int)
    requires 0 <= i <= Max(|a|, |b|)
    ensures i <= k <= Max(|a|, |b|) && (forall j | i <= j < k :: Same(a, b, j)) && !Same(a, b, k)
    decreases Max(|a|, |b|) - i
  {
    if Same(a, b, i) then NextDiff(a, b, i + 1) else i
  }

  function NextSame(a: seq<byte>, b: seq<byte>, i: int): (k: int)
    requires 0 <= i <= Max(|a|, |b|)
    ensures i <= k <= Max(|a|, |b|) && (forall j | i <= j < k :: !Same(a, b, j)) &&
        (k < Max(|a|, |b|) ==> Same(a, b, k))
    decreases Max(|a|, |b|) - i
  {
    if i < Max(|a|, |b|) && !Same(a, b, i) then NextSame(a, b, i + 1) else i
  }

  /** The maximal runs of differing positions from i on. */
  function Runs(a: seq<byte>, b: seq<byte>, i: int): (rs: seq<Range>)
    requires 0 <= i <= Max(|a|, |b|)
    decreases Max(|a|, |b|) - i
  {
    var start := NextDiff(a, b, i);
    if start == Max(|a|, |b|) then []
    else
      var end := NextSame(a, b, start);
      [Range(start, end)] + Runs(a, b, end)
  }

  /** There is room for five runs; if data follows the fifth, it is stretched to the front of the tuple. */
  function Recorded(rs: seq<Range>, short: int, long: int): seq<Range> {
    if |rs| >= 5 && rs[4].end < short then rs[..4] + [Range(rs[4].start, long)] else rs
  }

  function Diff(a: seq<byte>, b: seq<byte>): seq<Range> {
    Recorded(Runs(a, b, 0), Min(|a|, |b|), Max(|a|, |b|))
  }

  lemma {:induction false} RunsOrdered(a: seq<byte>, b: seq<byte>, i: int)
    requires 0 <= i <= Max(|a|, |b|)
    ensures Ordered(Runs(a, b, i), if Same(a, b, i) then i + 1 else i, Max(|a|, |b|))
    decreases Max(|a|, |b|) - i
  {
    var start := NextDiff(a, b, i);
    if start < Max(|a|, |b|) {
      var end := NextSame(a, b, start);
      RunsOrdered(a, b, end);
      assert Runs(a, b, i)[1..] == Runs(a, b, end);
      assert end == Max(|a|, |b|) ==> Runs(a, b, end) == [];
    }
  }

  /** Each run starts where both versions have data, or at the end of the shorter. */
  lemma {:induction false} RunsStart(a: seq<byte>, b: seq<byte>, i: int)
    requires 0 <= i <= Min(|a|, |b|)
    ensures forall r | r in Runs(a, b, i) :: r.start <= Min(|a|, |b|)
    decreases Max(|a|, |b|) - i
  {
    var start := NextDiff(a, b, i);
    if start < Max(|a|, |b|) {
      var end := NextSame(a, b, start);
      assert !Same(a, b, Min(|a|, |b|));
      assert Runs(a, b, i) == [Range(start, end)] + Runs(a, b, end);
      if end < Max(|a|, |b|) { RunsStart(a, b, end); }
    }
  }

  /** The runs cover exactly the positions that differ. */
  lemma {:induction false} RunsExact(a: seq<byte>, b: seq<byte>, i: int, k: int)
    requires 0 <= i < Max(|a|, |b|) && k < Max(|a|, |b|)
    ensures Covered(Runs(a, b, i), k) <==> i <= k && !Same(a, b, k)
    decreases Max(|a|, |b|) - i
  {
    var start := NextDiff(a, b, i);
    if start < Max(|a|, |b|) {
      var end := NextSame(a, b, start);
      assert Runs(a, b, i)[1..] == Runs(a, b, end);
      if end < Max(|a|, |b|) {
        RunsExact(a, b, end, k);
      }
    }
  }

  // ---- What is recorded

  lemma {:induction false} OrderedUncovered(rs: seq<Range>, lo: int, n: int, k: int)
    requires Ordered(rs, lo, n) && (k < lo || n <= k)
    ensures !Covered(rs, k)
  {
    if rs != [] { OrderedUncovered(rs[1..], rs[0].end + 1, n, k); }
  }

  /** Stretching the last of the first m + 1 ranges to n covers more, up to n. */
  lemma {:induction false} Stretched(rs: seq<Range>, lo: int, n: int, m: nat, k: int)
    requires Ordered(rs, lo, n) && m < |rs|
    ensures Ordered(rs[..m] + [Range(rs[m].start, n)], lo, n)
    ensures Covered(rs[..m] + [Range(rs[m].start, n)], k) <==> (if k < rs[m].start then Covered(rs, k) else k < n)
    ensures lo <= rs[m].start < n
  {
    var out := rs[..m] + [Range(rs[m].start, n)];
    if m == 0 {
      assert out[1..] == [];
      if k < rs[0].start { OrderedUncovered(rs, rs[0].start, n, k); }
    } else {
      Stretched(rs[1..], rs[0].end + 1, n, m - 1, k);
      assert out[1..] == rs[1..][..m - 1] + [Range(rs[m].start, n)];
    }
  }

  /**
    At most five ranges are recorded. They cover every position that differs; the only positions
    covered in vain are in a fifth range.
  */
  lemma DiffCovers(a: seq<byte>, b: seq<byte>, k: int)
    requires 0 <= k < Max(|a|, |b|)
    ensures |Diff(a, b)| <= 5 && Ordered(Diff(a, b), 0, Max(|a|, |b|))
    ensures !Same(a, b, k) ==> Covered(Diff(a, b), k)
    ensures Covered(Diff(a, b), k) && Same(a, b, k) ==> |Diff(a, b)| == 5 && Diff(a, b)[4].start <= k
  {
    RunsOrdered(a, b, 0);
    RunsStart(a, b, 0);
    RunsExact(a, b, 0, k);
    var rs, long := Runs(a, b, 0), Max(|a|, |b|);
    Loosen(rs, if Same(a, b, 0) then 1 else 0, long);
    if |rs| >= 5 {
      Stretched(rs, 0, long, 4, k);
      if |rs| > 5 {
        OrderedAt(rs, 0, long, 4);
        assert rs[5] in rs;
      }
    }
  }

  lemma DiffStarts(a: seq<byte>, b: seq<byte>)
    ensures forall r | r in Diff(a, b) :: r.start <= Min(|a|, |b|)
  {
    RunsStart(a, b, 0);
    var rs := Runs(a, b, 0);
    if |rs| >= 5 { assert rs[4] in rs; }
  }

  lemma {:induction false} OrderedAt(rs: seq<Range>, lo: int, n: int, i: nat)
    requires Ordered(rs, lo, n) && i + 1 < |rs|
    ensures rs[i].end < rs[i + 1].start
  {
    if i > 0 { OrderedAt(rs[1..], rs[0].end + 1, n, i - 1); }
  }

  lemma Loosen(rs: seq<Range>, lo: int, n: int)
    requires Ordered(rs, lo, n) && 0 <= lo
    ensures Ordered(rs, 0, n)
  {
  }

  // ---- The ranges of one version

  /** The ranges cut to a version of n bytes; a range left empty ends the list. */
  function Truncated(rs: seq<Range>, n: int): seq<Range> {
    if rs == [] then []
    else
      var end := Min(rs[0].end, n);
      if n < rs[0].end && end == rs[0].start then []
      else [Range(rs[0].start, end)] + Truncated(rs[1..], n)
  }

  lemma {:induction false} TruncatedCovers(rs: seq<Range>, lo: int, long: int, n: int, k: int)
    requires Ordered(rs, lo, long) && 0 <= lo && n <= long && forall r | r in rs :: r.start <= n
    ensures Ordered(Truncated(rs, n), lo, n) && (Covered(Truncated(rs, n), k) <==> Covered(rs, k) && k < n)
  {
    if rs != [] {
      assert forall r | r in rs[1..] :: r in rs;
      TruncatedCovers(rs[1..], rs[0].end + 1, long, n, k);
      if k < rs[0].end + 1 || n < rs[0].end { OrderedUncovered(rs[1..], rs[0].end + 1, long, Min(k, rs[0].end)); }
    }
  }

  // ---- Applying the ranges of a version

  /** t with the covered positions taken from data. */
  function Patch(t: seq<byte>, rs: seq<Range>, data: seq<byte>): (p: seq<byte>)
    requires |t| == |data|
    ensures |p| == |t|
  {
    seq(|t|, x requires 0 <= x < |t| => if Covered(rs, |t| - 1 - x) then data[x] else t[x])
  }

  /** The patched tuple is the version exactly when the uncovered positions agree already. */
  lemma PatchRebuildsIff(t: seq<byte>, rs: seq<Range>, data: seq<byte>)
    requires |t| == |data|
    ensures Patch(t, rs, data) == data <==> forall k | 0 <= k < |t| && !Covered(rs, k) :: Same(t, data, k)
  {
    if forall k | 0 <= k < |t| && !Covered(rs, k) :: Same(t, data, k) {
      forall x | 0 <= x < |t| ensures Patch(t, rs, data)[x] == data[x] {
        assert !Covered(rs, |t| - 1 - x) ==> Same(t, data, |t| - 1 - x);
      }
    }
    if Patch(t, rs, data) == data {
      forall k | 0 <= k < |t| && !Covered(rs, k) ensures Same(t, data, k) {
        assert Patch(t, rs, data)[|t| - 1 - k] == data[|t| - 1 - k];
      }
    }
  }

  /** base holds the bytes of t, right-aligned; where t has no byte, base may hold anything. */
  predicate Aligned(base: seq<byte>, t: seq<byte>) {
    forall k | 0 <= k < |base| && k < |t| :: Same(base, t, k)
  }

  /** Ranges that cover every differing position turn one version into the other. */
  lemma CoveringRebuilds(rs: seq<Range>, from: seq<byte>, to: seq<byte>, base: seq<byte>)
    requires |base| == |to| && Aligned(base, from)
    requires forall k | 0 <= k < |to| && !Same(from, to, k) :: Covered(rs, k)
    ensures Patch(base, rs, to) == to
  {
    forall k | 0 <= k < |base| && !Covered(rs, k) ensures Same(base, to, k) {
      assert Same(from, to, k);
      assert Same(base, from, k);
    }
    PatchRebuildsIff(base, rs, to);
  }

  lemma TruncatedDiff(a: seq<byte>, b: seq<byte>, n: int)
    requires Min(|a|, |b|) <= n <= Max(|a|, |b|)
    ensures Ordered(Truncated(Diff(a, b), n), 0, n)
    ensures forall k | 0 <= k < n && !Same(a, b, k) :: Covered(Truncated(Diff(a, b), n), k)
  {
    DiffStarts(a, b);
    DiffOrdered(a, b);
    TruncatedCovers(Diff(a, b), 0, Max(|a|, |b|), n, 0);
    forall k | 0 <= k < n && !Same(a, b, k) ensures Covered(Truncated(Diff(a, b), n), k) {
      DiffCovers(a, b, k);
      TruncatedCovers(Diff(a, b), 0, Max(|a|, |b|), n, k);
    }
  }

  lemma DiffOrdered(a: seq<byte>, b: seq<byte>)
    ensures Ordered(Diff(a, b), 0, Max(|a|, |b|)) && |Diff(a, b)| <= 5
  {
    if Max(|a|, |b|) > 0 {
      DiffCovers(a, b, 0);
    }
  }

  /** Redo turns the old version into the new one. */
  lemma RedoRebuilds(before: seq<byte>, after: seq<byte>, base: seq<byte>)
    requires |base| == |after| && Aligned(base, before)
    ensures Patch(base, Truncated(Diff(before, after), |after|), after) == after
  {
    TruncatedDiff(before, after, |after|);
    CoveringRebuilds(Truncated(Diff(before, after), |after|), before, after, base);
  }

  /** Undo, with the ranges of the same comparison, turns the new version back. */
  lemma UndoRebuilds(before: seq<byte>, after: seq<byte>, base: seq<byte>)
    requires |base| == |before| && Aligned(base, after)
    ensures Patch(base, Truncated(Diff(before, after), |before|), before) == before
  {
    TruncatedDiff(before, after, |before|);
    assert forall k :: Same(before, after, k) == Same(after, before, k);
    CoveringRebuilds(Truncated(Diff(before, after), |before|), after, before, base);
  }
}
