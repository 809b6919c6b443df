/**
  In-place heap update: the handler compares the two versions of a tuple, and the redo and undo
  records carry the differing ranges of the new and of the old version.
*/
module HeapUpdate {
  import opened Common
  import opened TupleDiff

  /** Tuple data fits a page, so 16-bit positions and sizes are exact. */
  const BLCKSZ: int := 8192

  function Pairs(flat: seq<int>): (rs: seq<Range>)
    requires |flat| % 2 == 0
    ensures |rs| == |flat| / 2
  {
    seq(|flat| / 2, j requires 0 <= j < |flat| / 2 => Range(flat[2 * j], flat[2 * j + 1]))
  }

  lemma PairsAppend(flat: seq<int>, start: int, end: int)
    requires |flat| % 2 == 0
    ensures Pairs(flat + [start, end]) == Pairs(flat) + [Range(start, end)]
  {
  }

  lemma PairsNone(flat: seq<int>)
    ensures Pairs(flat[..0]) == []
  {
  }

  lemma PairsAt(flat: seq<int>, j: nat)
    requires |flat| % 2 == 0 && 2 * j < |flat|
    ensures |Pairs(flat)| == |flat| / 2 && Pairs(flat)[j] == Range(flat[2 * j], flat[2 * j + 1])
  {
  }

  /** The next two positions are one more range. */
  lemma PairsExtend(flat: seq<int>, i: nat)
    requires i % 2 == 0 && i + 2 <= |flat|
    ensures Pairs(flat[..i + 2]) == Pairs(flat[..i]) + [Range(flat[i], flat[i + 1])]
  {
    assert flat[..i + 2] == flat[..i] + [flat[i], flat[i + 1]];
    PairsAppend(flat[..i], flat[i], flat[i + 1]);
  }

  lemma PairsStretch(flat: seq<int>, end: int)
    requires |flat| % 2 == 0 && |flat| > 0
    ensures Pairs(flat[|flat| - 1 := end])
         == Pairs(flat)[..|flat| / 2 - 1] + [Range(Pairs(flat)[|flat| / 2 - 1].start, end)]
  {
  }

  // ---- The handler

  class HeapUpdateHandler {
    const diffPos: array<int>
    var numDiffPos: int
    const tupDiffPos: array<int>
    var tupDiffNum: int

    ghost predicate Valid()
      reads this
    {
      && diffPos.Length == MAX_DIFF_POS_NUM && tupDiffPos.Length == MAX_DIFF_POS_NUM && diffPos != tupDiffPos
      && 0 <= numDiffPos <= MAX_DIFF_POS_NUM && numDiffPos % NUM_DIFF_STEP == 0
      && 0 <= tupDiffNum <= MAX_DIFF_POS_NUM && tupDiffNum % NUM_DIFF_STEP == 0
    }

    /** The recorded ranges. */
    ghost function Diffs(): seq<Range>
      requires Valid()
      reads this, diffPos
    {
      Pairs(diffPos[..numDiffPos])
    }

    /** The ranges cut to one version. */
    ghost function TupDiffs(): seq<Range>
      requires Valid()
      reads this, tupDiffPos
    {
      Pairs(tupDiffPos[..tupDiffNum])
    }

    constructor ()
      ensures Valid() && Diffs() == [] && TupDiffs() == [] && fresh(diffPos) && fresh(tupDiffPos)
    {
      diffPos := new int[MAX_DIFF_POS_NUM](_ => 0);
      tupDiffPos := new int[MAX_DIFF_POS_NUM](_ => 0);
      numDiffPos, tupDiffNum := 0, 0;
    }

    /** The recorded ranges are the maximal runs of differing positions, the fifth stretched if data follows. */
    method GetDiffBetweenTuples(before: seq<byte>, after: seq<byte>)
      requires Valid() && |before| <= BLCKSZ && |after| <= BLCKSZ
      modifies this`numDiffPos, diffPos
      ensures Valid() && Diffs() == Diff(before, after)
    {
      hide Continues, Runs, Diff, NextDiff, NextSame;
      var short, long := Min(|before|, |after|), Max(|before|, |after|);
      numDiffPos := 0;
      ContinuesStart(before, after);
      var index, i := 0, 0;
      ghost var found: seq<Range> := [];
      while i < MAX_DIFF_POS_NUM
        invariant 0 <= i <= MAX_DIFF_POS_NUM && i % 2 == 0 && numDiffPos == i
        invariant 0 <= index <= short || index == long
        invariant found != [] ==> index < short || index == long
        invariant found == Pairs(diffPos[..i]) && Continues(before, after, found, index)
      {
        var start, end := ScanRun(before, after, index);
        ContinuesStep(before, after, found, index);
        index := end;
        if start == end {
          break;
        }
        diffPos[i], diffPos[i + 1] := start, end;
        PairsAppend(diffPos[..i], start, end);
        assert diffPos[..i + 2] == diffPos[..i] + [start, end];
        found := found + [Range(start, end)];
        numDiffPos := i + NUM_DIFF_STEP;
        i := i + NUM_DIFF_STEP;
      }
      DiffFound(before, after, found, index);
      if index < short {
        PairsStretch(diffPos[..numDiffPos], long);
        diffPos[numDiffPos - 1] := long;
      }
    }

    /** The ranges of a version of `size` bytes, and the bytes they take in a record. */
    method GetTupleDiffSize(size: int) returns (diffSize: int)
      requires Valid() && 0 <= size <= BLCKSZ
      modifies this`tupDiffNum, tupDiffPos
      ensures Valid() && Diffs() == old(Diffs())
      ensures TupDiffs() == Truncated(Diffs(), size) && diffSize == EncodedSize(TupDiffs(), |TupDiffs()|)
    {
      hide Cutting, Truncated, EncodedSize, Pairs;
      ghost var rs, kept: seq<Range> := Diffs(), [];
      CutStart(rs, size);
      diffSize, tupDiffNum := 0, 0;
      var i := 1;
      PairsNone(tupDiffPos[..]);
      while i < numDiffPos
        invariant 1 <= i <= numDiffPos + 1 && i == 2 * |kept| + 1 && tupDiffNum == i - 1
        invariant Diffs() == rs && TupDiffs() == kept && Cutting(rs, kept, size, diffSize)
      {
        CutNext(rs, kept, size, diffSize);
        PairsAt(diffPos[..numDiffPos], |kept|);
        var start, end := diffPos[i - 1], diffPos[i];
        tupDiffPos[i], tupDiffPos[i - 1] := end, start;
        if end > size {
          tupDiffPos[i] := size;
          if size == start {
            break;
          }
          end := size;
        }
        PairsExtend(tupDiffPos[..], i - 1);
        kept := kept + [Range(start, end)];
        tupDiffNum := tupDiffNum + NUM_DIFF_STEP;
        diffSize := diffSize + end - start;
        i := i + NUM_DIFF_STEP;
      }
      CutEnd(rs, TupDiffs(), size, diffSize);
      diffSize := diffSize + tupDiffNum * 2;
    }
  }

  /** `kept` is what truncation keeps of the first i ranges. */
  predicate Truncates(rs: seq<Range>, kept: seq<Range>, i: int, size: int) {
    0 <= i <= |rs| && kept + Truncated(rs[i..], size) == Truncated(rs, size)
  }

  lemma TruncatesStep(rs: seq<Range>, kept: seq<Range>, i: int, size: int)
    requires Truncates(rs, kept, i, size) && i < |rs|
    ensures var end := Min(rs[i].end, size);
      if size < rs[i].end && size == rs[i].start then Truncates(rs, kept, |rs|, size)
      else Truncates(rs, kept + [Range(rs[i].start, end)], i + 1, size)
  {
    var r := Range(rs[i].start, Min(rs[i].end, size));
    assert rs[i..][1..] == rs[i + 1..];
    assert kept + ([r] + Truncated(rs[i + 1..], size)) == (kept + [r]) + Truncated(rs[i + 1..], size);
    assert rs[|rs|..] == [] && kept + [] == kept;
  }

  /** The loop of GetTupleDiffSize: the ranges kept of those looked at, and the bytes they cover. */
  predicate Cutting(rs: seq<Range>, kept: seq<Range>, size: int, covered: int) {
    Truncates(rs, kept, |kept|, size) && covered + 4 * |kept| == EncodedSize(kept, |kept|)
  }

  lemma CutStart(rs: seq<Range>, size: int)
    ensures Cutting(rs, [], size, 0)
  {
    assert rs[0..] == rs && [] + Truncated(rs, size) == Truncated(rs, size);
  }

  lemma CutNext(rs: seq<Range>, kept: seq<Range>, size: int, covered: int)
    requires Cutting(rs, kept, size, covered) && |kept| < |rs|
    ensures var r := rs[|kept|];
      if size < r.end && size == r.start then kept == Truncated(rs, size)
      else Cutting(rs, kept + [Range(r.start, Min(r.end, size))], size, covered + Min(r.end, size) - r.start)
  {
    var r := Range(rs[|kept|].start, Min(rs[|kept|].end, size));
    TruncatesStep(rs, kept, |kept|, size);
    EncodedSizeAppend(kept, r);
    assert rs[|rs|..] == [] && kept + [] == kept;
  }

  lemma CutEnd(rs: seq<Range>, kept: seq<Range>, size: int, covered: int)
    requires Cutting(rs, kept, size, covered) && (|kept| == |rs| || kept == Truncated(rs, size))
    ensures kept == Truncated(rs, size) && covered + 4 * |kept| == EncodedSize(kept, |kept|)
  {
    assert rs[|rs|..] == [] && kept + [] == kept;
  }

  // ---- The bytes of a record

  function U16(n: int): (s: seq<byte>)
    requires 0 <= n < 0x1_0000
    ensures |s| == 2
  {
    [n % 256, n / 256]
  }

  function FromU16(s: seq<byte>): int
    requires |s| == 2
  {
    var low: int, high: int := s[0], s[1];
    low + 256 * high
  }

  predicate InBounds(rs: seq<Range>, n: int) {
    n < 0x1_0000 && forall j | 0 <= j < |rs| :: 0 <= rs[j].start < rs[j].end <= n
  }

  /** One range: its start, its end, and the bytes of the version there. */
  function EncodeOne(r: Range, data: seq<byte>): (s: seq<byte>)
    requires 0 <= r.start < r.end <= |data| < 0x1_0000
    ensures |s| == 4 + r.end - r.start
  {
    U16(r.start) + U16(r.end) + data[|data| - r.end..|data| - r.start]
  }

  /** The first j ranges, one after the other. */
  function Encode(rs: seq<Range>, data: seq<byte>, j: nat): (s: seq<byte>)
    requires InBounds(rs, |data|) && j <= |rs|
    ensures |s| == EncodedSize(rs, j)
  {
    if j == 0 then [] else Encode(rs, data, j - 1) + EncodeOne(rs[j - 1], data)
  }

  function EncodedSize(rs: seq<Range>, j: nat): int
    requires j <= |rs|
  {
    if j == 0 then 0 else EncodedSize(rs, j - 1) + 4 + rs[j - 1].end - rs[j - 1].start
  }

  lemma {:induction false} EncodedSizeSame(a: seq<Range>, b: seq<Range>, j: nat)
    requires j <= |a| && j <= |b| && a[..j] == b[..j]
    ensures EncodedSize(a, j) == EncodedSize(b, j)
  {
    if j > 0 {
      assert a[j - 1] == a[..j][j - 1] && a[..j - 1] == a[..j][..j - 1] && b[..j - 1] == b[..j][..j - 1];
      EncodedSizeSame(a, b, j - 1);
    }
  }

  lemma EncodedSizeAppend(rs: seq<Range>, r: Range)
    ensures EncodedSize(rs + [r], |rs| + 1) == EncodedSize(rs, |rs|) + 4 + r.end - r.start
  {
    EncodedSizeSame(rs + [r], rs, |rs|);
  }

  /** Range j is found after the j before it. */
  lemma {:induction false} EncodedAt(rs: seq<Range>, data: seq<byte>, j: nat, n: nat)
    requires InBounds(rs, |data|) && j < n <= |rs|
    ensures 0 <= EncodedSize(rs, j) && EncodedSize(rs, j + 1) <= EncodedSize(rs, n)
    ensures Encode(rs, data, n)[EncodedSize(rs, j)..EncodedSize(rs, j + 1)] == EncodeOne(rs[j], data)
  {
    var before := Encode(rs, data, n - 1);
    if j < n - 1 {
      EncodedAt(rs, data, j, n - 1);
      AppendedSlice(before, EncodeOne(rs[n - 1], data), EncodedSize(rs, j), EncodedSize(rs, j + 1));
    } else {
      assert (before + EncodeOne(rs[j], data))[|before|..] == EncodeOne(rs[j], data);
    }
  }

  lemma AppendedSlice(a: seq<byte>, b: seq<byte>, i: int, j: int)
    requires 0 <= i <= j <= |a|
    ensures (a + b)[i..j] == a[i..j]
  {
  }

  lemma SubSlice(s: seq<byte>, a: int, b: int, i: int, j: int)
    requires 0 <= a <= b <= |s| && 0 <= i <= j <= b - a
    ensures s[a..b][i..j] == s[a + i..a + j]
  {
    forall x | 0 <= x < j - i ensures s[a..b][i..j][x] == s[a + i..a + j][x] {
    }
  }

  /** The runs found so far end at index, and the runs from there on complete them. */
  predicate Continues(a: seq<byte>, b: seq<byte>, found: seq<Range>, index: int)
    requires 0 <= index <= Max(|a|, |b|)
  {
    && found + Runs(a, b, index) == Runs(a, b, 0)
    && (found != [] ==> found[|found| - 1].end == index)
  }

  lemma ContinuesStart(a: seq<byte>, b: seq<byte>)
    ensures Continues(a, b, [], 0)
  {
    assert [] + Runs(a, b, 0) == Runs(a, b, 0);
  }

  lemma ContinuesStep(a: seq<byte>, b: seq<byte>, found: seq<Range>, index: int)
    requires 0 <= index <= Max(|a|, |b|) && Continues(a, b, found, index)
    ensures var start := NextDiff(a, b, index);
      var end := NextSame(a, b, start);
      if start == end then found == Runs(a, b, 0) && end == Max(|a|, |b|)
      else Continues(a, b, found + [Range(start, end)], end)
  {
    hide Runs, NextDiff, NextSame;
    RunsUnfold(a, b, index);
    var start := NextDiff(a, b, index);
    var end := NextSame(a, b, start);
    if start == end {
      assert found + [] == found;
    } else {
      assert found + ([Range(start, end)] + Runs(a, b, end)) == (found + [Range(start, end)]) + Runs(a, b, end);
    }
  }

  lemma RunsUnfold(a: seq<byte>, b: seq<byte>, i: int)
    requires 0 <= i <= Max(|a|, |b|)
    ensures var start := NextDiff(a, b, i);
      var end := NextSame(a, b, start);
      if start == end then Runs(a, b, i) == [] && end == Max(|a|, |b|)
      else Runs(a, b, i) == [Range(start, end)] + Runs(a, b, end)
  {
  }

  /** What is recorded when the loop ends: all runs, or five of them. */
  lemma DiffFound(a: seq<byte>, b: seq<byte>, found: seq<Range>, index: int)
    requires index < Min(|a|, |b|) || index == Max(|a|, |b|)
    requires (|found| < 5 && found == Runs(a, b, 0) && index == Max(|a|, |b|)) ||
             (|found| == 5 && 0 <= index && Continues(a, b, found, index))
    ensures Diff(a, b) ==
      if index < Min(|a|, |b|) then found[..4] + [Range(found[4].start, Max(|a|, |b|))] else found
  {
    if |found| == 5 {
      var rs := Runs(a, b, 0);
      assert rs[..4] == found[..4] && rs[4] == found[4];
      assert index == Max(|a|, |b|) ==> Runs(a, b, index) == [];
    }
  }

  /** The next run of differing positions at or after `from`. */
  method ScanRun(before: seq<byte>, after: seq<byte>, from: int) returns (start: int, end: int)
    requires 0 <= from <= Min(|before|, |after|) || from == Max(|before|, |after|)
    ensures start == NextDiff(before, after, from) && end == NextSame(before, after, start)
    ensures end < Min(|before|, |after|) || end == Max(|before|, |after|)
  {
    var short, long := Min(|before|, |after|), Max(|before|, |after|);
    var index := from;
    while index < short && before[|before| - 1 - index] == after[|after| - 1 - index]
      invariant from <= index && (index <= short || index == long)
      invariant NextDiff(before, after, index) == NextDiff(before, after, from)
    {
      index := index + 1;
    }
    start := index;
    while index < short && before[|before| - 1 - index] != after[|after| - 1 - index]
      invariant start <= index && (index <= short || index == long)
      invariant NextSame(before, after, index) == NextSame(before, after, start)
    {
      index := index + 1;
    }
    AtEnd(before, after, start, index);
    end := if index >= short then long else index;
  }

  /** Where the two scans of the comparison stop. */
  lemma AtEnd(a: seq<byte>, b: seq<byte>, start: int, index: int)
    requires 0 <= start <= index <= Max(|a|, |b|) && (index <= Min(|a|, |b|) || index == Max(|a|, |b|))
    requires NextSame(a, b, index) == NextSame(a, b, start)
    requires index < Min(|a|, |b|) ==> Same(a, b, index)
    ensures NextSame(a, b, start) == if index >= Min(|a|, |b|) then Max(|a|, |b|) else index
  {
    if index >= Min(|a|, |b|) { assert forall k | Min(|a|, |b|) <= k :: !Same(a, b, k); }
  }

  // ---- The record

  /** t with range r taken from data. */
  function Overwrite(t: seq<byte>, r: Range, data: seq<byte>): (z: seq<byte>)
    requires |t| == |data| && 0 <= r.start < r.end <= |t|
    ensures |z| == |t|
  {
    t[..|t| - r.end] + data[|t| - r.end..|t| - r.start] + t[|t| - r.start..]
  }

  lemma Spliced(t: seq<byte>, n: int, r: Range, data: seq<byte>)
    requires n == |data| <= |t| && 0 <= r.start < r.end <= n
    ensures var z := t[..n - r.end] + data[n - r.end..n - r.start] + t[n - r.start..];
      z[..n] == Overwrite(t[..n], r, data) && z[n..] == t[n..]
  {
  }

  lemma {:induction false} CoveredAppend(rs: seq<Range>, r: Range, k: int)
    ensures Covered(rs + [r], k) <==> Covered(rs, k) || r.start <= k < r.end
  {
    if rs == [] {
      assert (rs + [r])[1..] == [];
    } else {
      assert (rs + [r])[1..] == rs[1..] + [r];
      CoveredAppend(rs[1..], r, k);
    }
  }

  lemma PatchStep(t: seq<byte>, rs: seq<Range>, r: Range, data: seq<byte>)
    requires |t| == |data| && 0 <= r.start < r.end <= |t|
    ensures Patch(t, rs + [r], data) == Overwrite(Patch(t, rs, data), r, data)
  {
    forall x | 0 <= x < |t| ensures Patch(t, rs + [r], data)[x] == Overwrite(Patch(t, rs, data), r, data)[x] {
      CoveredAppend(rs, r, |t| - 1 - x);
    }
  }

  lemma PatchNext(t: seq<byte>, rs: seq<Range>, j: nat, data: seq<byte>)
    requires |t| == |data| && j < |rs| && 0 <= rs[j].start < rs[j].end <= |t|
    ensures Patch(t, rs[..j + 1], data) == Overwrite(Patch(t, rs[..j], data), rs[j], data)
  {
    assert rs[..j + 1] == rs[..j] + [rs[j]];
    PatchStep(t, rs[..j], rs[j], data);
  }

  /** One more range is put in place. */
  lemma PutInPlace(was: seq<byte>, now: seq<byte>, n: int, base: seq<byte>, rs: seq<Range>, j: nat, data: seq<byte>)
    requires n == |data| == |base| <= |was| && j < |rs| && 0 <= rs[j].start < rs[j].end <= n
    requires was[..n] == Patch(base, rs[..j], data)
    requires now == was[..n - rs[j].end] + data[n - rs[j].end..n - rs[j].start] + was[n - rs[j].start..]
    ensures now[..n] == Patch(base, rs[..j + 1], data) && now[n..] == was[n..]
  {
    hide Patch;
    PatchNext(base, rs, j, data);
    Spliced(was, n, rs[j], data);
  }

  lemma OneDecodes(r: Range, data: seq<byte>)
    requires 0 <= r.start < r.end <= |data| < 0x1_0000
    ensures FromU16(EncodeOne(r, data)[..2]) == r.start && FromU16(EncodeOne(r, data)[2..4]) == r.end
    ensures EncodeOne(r, data)[4..] == data[|data| - r.end..|data| - r.start]
  {
    assert EncodeOne(r, data)[..2] == U16(r.start);
    assert EncodeOne(r, data)[2..4] == U16(r.end);
  }

  /**
    The layout of the record: range j follows the ranges before it, as two 16-bit numbers, low byte
    first, and the bytes of the version between those positions from the end.
  */
  lemma RangeLayout(rs: seq<Range>, data: seq<byte>, j: nat)
    requires InBounds(rs, |data|) && j < |rs|
    ensures var at, r, raw := EncodedSize(rs, j), rs[j], Encode(rs, data, |rs|);
      && 0 <= at && at + 4 + r.end - r.start == EncodedSize(rs, j + 1) <= EncodedSize(rs, |rs|) == |raw|
      && raw[at] == r.start % 256 && raw[at + 1] == r.start / 256
      && raw[at + 2] == r.end % 256 && raw[at + 3] == r.end / 256
      && raw[at + 4..at + 4 + r.end - r.start] == data[|data| - r.end..|data| - r.start]
    ensures EncodedSize(rs, 0) == 0
  {
    hide Encode;
    EncodedAt(rs, data, j, |rs|);
    var at, raw, one := EncodedSize(rs, j), Encode(rs, data, |rs|), EncodeOne(rs[j], data);
    SubSlice(raw, at, at + |one|, 4, |one|);
    assert forall i | 0 <= i < 4 :: raw[at + i] == one[i];
  }

  /** memcpy of bytes into a at `at`. */
  method CopyIn(a: array<byte>, at: int, bytes: seq<byte>)
    requires 0 <= at && at + |bytes| <= a.Length
    modifies a
    ensures a[..] == old(a[..at]) + bytes + old(a[at + |bytes|..])
  {
    forall x | 0 <= x < |bytes| { a[at + x] := bytes[x]; }
  }

  /** memmove of len bytes within a. */
  method Move(a: array<byte>, to: int, from: int, len: int)
    requires 0 <= to && 0 <= from && 0 <= len && to + len <= a.Length && from + len <= a.Length
    modifies a
    ensures a[..] == old(a[..to]) + old(a[from..from + len]) + old(a[to + len..])
  {
    forall x | 0 <= x < len { a[to + x] := a[from + x]; }
  }

  /** The diff part of an in-place update record, redo or undo. */
  class DiffRecord {
    const rawData: array<byte>
    var numDiff: int
    var pos: int

    /** The record carries the ranges rs of the version data. */
    ghost predicate Carries(rs: seq<Range>, data: seq<byte>)
      reads this, rawData
    {
      && InBounds(rs, |data|) && numDiff == 2 * |rs|
      && 0 <= pos <= rawData.Length && rawData[..pos] == Encode(rs, data, |rs|)
    }

    constructor (size: nat)
      ensures fresh(rawData) && rawData.Length == size && Carries([], [])
    {
      rawData := new byte[size](_ => 0);
      numDiff, pos := 0, 0;
    }

    /** A record at the front of a buffer that holds more. */
    constructor Over(rawData: array<byte>)
      ensures this.rawData == rawData && Carries([], [])
    {
      this.rawData := rawData;
      numDiff, pos := 0, 0;
    }

    /** The ranges are written one after the other; what follows them in the buffer is kept. */
    method SetData(rs: seq<Range>, data: seq<byte>)
      requires InBounds(rs, |data|) && EncodedSize(rs, |rs|) <= rawData.Length
      modifies this, rawData
      ensures Carries(rs, data) && pos == EncodedSize(rs, |rs|) && rawData[pos..] == old(rawData[..])[pos..]
    {
      hide Encode, EncodeOne, EncodedSize;
      numDiff := 2 * |rs|;
      var fromPos, j := 0, 0;
      ghost var was := rawData[..];
      EncodeFirst(rs, data);
      while j < |rs|
        invariant 0 <= j <= |rs| && numDiff == 2 * |rs|
        invariant 0 <= fromPos == EncodedSize(rs, j) <= rawData.Length
        invariant rawData[..] == Encode(rs, data, j) + was[fromPos..]
      {
        ghost var raw, done := rawData[..], Encode(rs, data, j);
        EncodeNext(rs, data, j);
        var one := EncodeOne(rs[j], data);
        CopyIn(rawData, fromPos, one);
        Extend(done, one, was, raw, rawData[..]);
        fromPos := fromPos + 4 + rs[j].end - rs[j].start;
        j := j + 1;
      }
      pos := fromPos;
    }

    /** The loop of GetUpdateTuple, Redo and UndoActionOnTuple: the ranges are put in place. */
    method ApplyDiffs(dest: array<byte>, n: int, ghost rs: seq<Range>, ghost data: seq<byte>)
      requires Carries(rs, data) && n == |data| <= dest.Length && dest != rawData
      modifies dest
      ensures dest[..n] == Patch(old(dest[..n]), rs, data) && dest[n..] == old(dest[n..])
    {
      hide Encode, EncodeOne, EncodedSize, Patch, FromU16, Overwrite;
      ghost var base := dest[..n];
      var ptr, i := 0, 0;
      ghost var j := 0;
      PatchNone(base, data);
      EncodeFirst(rs, data);
      while i < numDiff
        invariant 0 <= j <= |rs| && i == 2 * j && ptr == EncodedSize(rs, j)
        invariant dest[..n] == Patch(base, rs[..j], data) && dest[n..] == old(dest[n..])
      {
        DecodedAt(rawData[..], pos, rs, data, j);
        var start, end := FromU16(rawData[ptr..ptr + 2]), FromU16(rawData[ptr + 2..ptr + 4]);
        ghost var was := dest[..];
        CopyIn(dest, n - end, rawData[ptr + 4..ptr + 4 + end - start]);
        PutInPlace(was, dest[..], n, base, rs, j, data);
        ptr := ptr + 4 + end - start;
        i := i + NUM_DIFF_STEP;
        j := j + 1;
      }
      assert rs[..j] == rs;
    }

    /**
      Redo, and undo, of a tuple of `size` bytes on its page: shift the data to the new length, then put the
      ranges in.
    */
    method ApplyInPlace(tuple: array<byte>, size: int, n: int, ghost rs: seq<Range>, ghost data: seq<byte>)
      requires Carries(rs, data) && n == |data| <= tuple.Length && 0 <= size <= tuple.Length && tuple != rawData
      modifies tuple
      ensures tuple[..n] == Patch(Shifted(old(tuple[..]), size, n), rs, data)
      ensures tuple[Max(size, n)..] == old(tuple[..])[Max(size, n)..]
    {
      hide Patch, Encode;
      if n > size {
        Move(tuple, n - size, 0, size);
      } else if n < size {
        Move(tuple, 0, size - n, n);
      }
      assert tuple[..n] == Shifted(old(tuple[..]), size, n);
      assert tuple[Max(size, n)..] == old(tuple[..])[Max(size, n)..];
      ghost var moved := tuple[..];
      ApplyDiffs(tuple, n, rs, data);
      SubSlice(moved, n, |moved|, Max(size, n) - n, |moved| - n);
      SubSlice(tuple[..], n, |moved|, Max(size, n) - n, |moved| - n);
    }

    /** The page of an update replays to the new version. */
    method Redo(tuple: array<byte>, size: int, ghost before: seq<byte>, ghost after: seq<byte>, n: int)
      requires Carries(Truncated(Diff(before, after), |after|), after) && n == |after|
      requires size == |before| <= tuple.Length && n <= tuple.Length && tuple != rawData && tuple[..size] == before
      modifies tuple
      ensures tuple[..n] == after && tuple[Max(size, n)..] == old(tuple[..])[Max(size, n)..]
    {
      ShiftedAligned(tuple[..], size, n);
      RedoRebuilds(before, after, Shifted(tuple[..], size, n));
      ApplyInPlace(tuple, size, n, Truncated(Diff(before, after), |after|), after);
    }

    /** The page of an update rolls back to the old version. */
    method Undo(tuple: array<byte>, size: int, ghost before: seq<byte>, ghost after: seq<byte>, n: int)
      requires Carries(Truncated(Diff(before, after), |before|), before) && n == |before|
      requires size == |after| <= tuple.Length && n <= tuple.Length && tuple != rawData && tuple[..size] == after
      modifies tuple
      ensures tuple[..n] == before && tuple[Max(size, n)..] == old(tuple[..])[Max(size, n)..]
    {
      ShiftedAligned(tuple[..], size, n);
      UndoRebuilds(before, after, Shifted(tuple[..], size, n));
      ApplyInPlace(tuple, size, n, Truncated(Diff(before, after), |before|), before);
    }
  }

  /** The data area of a tuple of `size` bytes moved, right-aligned, to n bytes. */
  function Shifted(t: seq<byte>, size: int, n: int): (z: seq<byte>)
    requires 0 <= size <= |t| && 0 <= n <= |t|
    ensures |z| == n
  {
    if n > size then t[..n - size] + t[..size] else t[size - n..size]
  }

  lemma ShiftedAligned(t: seq<byte>, size: int, n: int)
    requires 0 <= size <= |t| && 0 <= n <= |t|
    ensures Aligned(Shifted(t, size, n), t[..size])
  {
  }

  /** The records of an update: their buffers have the computed sizes, and the ranges fill them. */
  method MakeRecords(before: seq<byte>, after: seq<byte>) returns (redo: DiffRecord, undo: DiffRecord)
    requires |before| <= BLCKSZ && |after| <= BLCKSZ
    ensures redo.Carries(Truncated(Diff(before, after), |after|), after) && redo.pos == redo.rawData.Length
    ensures undo.Carries(Truncated(Diff(before, after), |before|), before) && undo.pos == undo.rawData.Length
  {
    hide Diff, Truncated, Encode, EncodedSize;
    var handler := new HeapUpdateHandler();
    handler.GetDiffBetweenTuples(before, after);
    TruncatedInBounds(before, after, |before|);
    TruncatedInBounds(before, after, |after|);
    var undoSize := handler.GetTupleDiffSize(|before|);
    undo := new DiffRecord(undoSize);
    undo.SetData(Pairs(handler.tupDiffPos[..handler.tupDiffNum]), before);
    var redoSize := handler.GetTupleDiffSize(|after|);
    redo := new DiffRecord(redoSize);
    redo.SetData(Pairs(handler.tupDiffPos[..handler.tupDiffNum]), after);
  }

  lemma TruncatedInBounds(a: seq<byte>, b: seq<byte>, n: int)
    requires |a| <= BLCKSZ && |b| <= BLCKSZ && Min(|a|, |b|) <= n <= Max(|a|, |b|)
    ensures InBounds(Truncated(Diff(a, b), n), n)
    ensures 0 <= EncodedSize(Truncated(Diff(a, b), n), |Truncated(Diff(a, b), n)|)
  {
    TruncatedDiff(a, b, n);
    OrderedInBounds(Truncated(Diff(a, b), n), 0, n);
  }

  lemma {:induction false} OrderedInBounds(rs: seq<Range>, lo: int, n: int)
    requires Ordered(rs, lo, n) && 0 <= lo && n <= BLCKSZ
    ensures InBounds(rs, n) && forall j | 0 <= j <= |rs| :: 0 <= EncodedSize(rs, j)
  {
    if rs != [] {
      OrderedInBounds(rs[1..], rs[0].end + 1, n);
      assert forall j | 1 <= j < |rs| :: rs[j] == rs[1..][j - 1];
    }
    forall j: nat | j <= |rs| ensures 0 <= EncodedSize(rs, j) {
      EncodedSizeNat(rs, n, j);
    }
  }

  lemma {:induction false} EncodedSizeNat(rs: seq<Range>, n: int, j: nat)
    requires InBounds(rs, n) && j <= |rs|
    ensures 0 <= EncodedSize(rs, j)
  {
    if j > 0 { EncodedSizeNat(rs, n, j - 1); }
  }

  lemma EncodeFirst(rs: seq<Range>, data: seq<byte>)
    requires InBounds(rs, |data|)
    ensures Encode(rs, data, 0) == [] && EncodedSize(rs, 0) == 0
  {
  }

  lemma EncodeNext(rs: seq<Range>, data: seq<byte>, j: nat)
    requires InBounds(rs, |data|) && j < |rs|
    ensures Encode(rs, data, j + 1) == Encode(rs, data, j) + EncodeOne(rs[j], data)
    ensures EncodedSize(rs, j + 1) == EncodedSize(rs, j) + 4 + rs[j].end - rs[j].start <= EncodedSize(rs, |rs|)
  {
    EncodedAt(rs, data, j, |rs|);
  }

  lemma Extend(done: seq<byte>, one: seq<byte>, was: seq<byte>, raw: seq<byte>, now: seq<byte>)
    requires |done| + |one| <= |raw| == |was| && raw == done + was[|done|..]
    requires now == raw[..|done|] + one + raw[|done| + |one|..]
    ensures now == (done + one) + was[|done| + |one|..]
  {
    assert raw[..|done|] == done && raw[|done| + |one|..] == was[|done| + |one|..];
  }

  /** Range j, read back from the record. */
  lemma DecodedAt(raw: seq<byte>, pos: int, rs: seq<Range>, data: seq<byte>, j: nat)
    requires InBounds(rs, |data|) && j < |rs| && 0 <= pos <= |raw| && raw[..pos] == Encode(rs, data, |rs|)
    ensures var at := EncodedSize(rs, j);
      var r := rs[j];
      && 0 <= at && EncodedSize(rs, j + 1) == at + 4 + r.end - r.start <= pos
      && FromU16(raw[at..at + 2]) == r.start && FromU16(raw[at + 2..at + 4]) == r.end
      && raw[at + 4..at + 4 + r.end - r.start] == data[|data| - r.end..|data| - r.start]
  {
    EncodedAt(rs, data, j, |rs|);
    OneDecodes(rs[j], data);
    var at, one := EncodedSize(rs, j), EncodeOne(rs[j], data);
    SubSlice(raw, 0, pos, at, at + |one|);
    SubSlice(raw, at, at + |one|, 0, 2);
    SubSlice(raw, at, at + |one|, 2, 4);
    SubSlice(raw, at, at + |one|, 4, |one|);
  }

  lemma PatchNone(t: seq<byte>, data: seq<byte>)
    requires |t| == |data|
    ensures Patch(t, [], data) == t
  {
    forall x | 0 <= x < |t| ensures Patch(t, [], data)[x] == t[x] {
      assert !Covered([], |t| - 1 - x);
    }
  }
}
