/**
  Redo after a crash. A page carries the PLSN of its last record, a record carries the PLSN of the
  record before it on the same page, and a record is replayed only onto the version it was built on.
*/
module CrashRecovery {
  import opened Common
  import opened DirtyPageQueue
  import opened DirtyPageInvariant
  import S = DirtyPageSafety

  /** A page: the records it contains, and the PLSN in its header. */
  datatype PageImage = PageImage(records: seq<int>, plsn: int)

  datatype ReplayType = Replayable | NoNeedToReplay | NotReplayable

  function Replay(page: PageImage, pre: int, plsn: int): ReplayType {
    if plsn <= page.plsn then NoNeedToReplay
    else if pre == page.plsn then Replayable
    else NotReplayable
  }

  /** Page p after the first n WAL records. */
  function Version(wal: seq<int>, p: int, n: nat): PageImage
    requires n <= |wal|
  {
    if n == 0 then PageImage([], INVALID_PLSN)
    else
      var before := Version(wal, p, n - 1);
      if wal[n - 1] == p then PageImage(before.records + [n - 1], Plsn(n - 1)) else before
  }

  /** The PLSN recorded in record i as the predecessor on its page. */
  function PrePlsn(wal: seq<int>, i: nat): int
    requires i < |wal|
  {
    Version(wal, wal[i], i).plsn
  }

  /** Redo of page p from record i on. A record that is not replayable stops it. */
  function Redo(wal: seq<int>, p: int, page: PageImage, i: nat): Option<PageImage>
    requires i <= |wal|
    decreases |wal| - i
  {
    if i == |wal| then Some(page)
    else if wal[i] != p then Redo(wal, p, page, i + 1)
    else
      match Replay(page, PrePlsn(wal, i), Plsn(i))
      case Replayable => Redo(wal, p, PageImage(page.records + [i], Plsn(i)), i + 1)
      case NoNeedToReplay => Redo(wal, p, page, i + 1)
      case NotReplayable => None
  }

  /** The first record at or above PLSN r. */
  function FirstFrom(wal: seq<int>, r: int): nat { if r <= 1 then 0 else if r - 1 <= |wal| then r - 1 else |wal| }

  /** The page holds the records of p among the first n, each once and in order, and the PLSN of the last. */
  ghost predicate Contains(page: PageImage, wal: seq<int>, p: int, n: nat)
    requires n <= |wal|
  {
    && (forall a, b | 0 <= a < b < |page.records| :: page.records[a] < page.records[b])
    && (forall i :: i in page.records <==> 0 <= i < n && wal[i] == p)
    && page.plsn == if page.records == [] then INVALID_PLSN else Plsn(page.records[|page.records| - 1])
  }

  /** Redo of page p on top of its disk image. */
  function Recovered(d: Store, r: int, p: int): Option<PageImage>
    requires 0 <= d.disk(p) <= |d.wal|
  {
    Redo(d.wal, p, Version(d.wal, p, d.disk(p)), FirstFrom(d.wal, r))
  }

  /** Redo from PLSN r gives every page all its records in the WAL. */
  ghost predicate Rebuilds(d: Store, r: int)
    requires forall p :: 0 <= d.disk(p) <= |d.wal|
  {
    forall p :: Recovered(d, r, p).Some? && Contains(Recovered(d, r, p).value, d.wal, p, |d.wal|)
  }

  // ---- The versions of a page

  lemma {:induction false} VersionContains(wal: seq<int>, p: int, n: nat)
    requires n <= |wal|
    ensures Contains(Version(wal, p, n), wal, p, n)
  {
    if n > 0 {
      VersionContains(wal, p, n - 1);
      var before := Version(wal, p, n - 1).records;
      forall i ensures i in Version(wal, p, n).records <==> 0 <= i < n && wal[i] == p {
        assert i in before <==> 0 <= i < n - 1 && wal[i] == p;
      }
      forall a | 0 <= a < |before| ensures before[a] < n - 1 {
        assert before[a] in before;
      }
    }
  }

  /** No other page holds the same records. */
  lemma {:induction false} VersionOnly(wal: seq<int>, p: int, n: nat, page: PageImage)
    requires n <= |wal| && Contains(page, wal, p, n)
    ensures page == Version(wal, p, n)
  {
    if page.records != [] { assert page.records[0] in page.records; }
    if n > 0 {
      if wal[n - 1] == p {
        var before := WithoutLast(wal, p, n, page);
        VersionOnly(wal, p, n - 1, before);
      } else {
        VersionOnly(wal, p, n - 1, page);
      }
    }
  }

  lemma WithoutLast(wal: seq<int>, p: int, n: nat, page: PageImage) returns (before: PageImage)
    requires 0 < n <= |wal| && wal[n - 1] == p && Contains(page, wal, p, n)
    ensures Contains(before, wal, p, n - 1) && page == PageImage(before.records + [n - 1], Plsn(n - 1))
  {
    var rs := page.records;
    var k := |rs| - 1;
    assert n - 1 in rs;
    LastIsNewest(rs, n - 1);
    before := PageImage(rs[..k], if k == 0 then INVALID_PLSN else Plsn(rs[k - 1]));
    forall i ensures i in rs[..k] <==> 0 <= i < n - 1 && wal[i] == p {
      assert i in rs <==> i in rs[..k] || i == rs[k];
    }
    assert rs == rs[..k] + [rs[k]];
  }

  lemma LastIsNewest(rs: seq<int>, top: int)
    requires top in rs && forall i | i in rs :: i <= top
    requires forall a, b | 0 <= a < b < |rs| :: rs[a] < rs[b]
    ensures rs[|rs| - 1] == top
  {
    assert rs[|rs| - 1] in rs;
  }

  lemma {:induction false} VersionPlsn(wal: seq<int>, p: int, n: nat)
    requires n <= |wal|
    ensures 0 <= Version(wal, p, n).plsn < Plsn(n)
  {
    if n > 0 { VersionPlsn(wal, p, n - 1); }
  }

  /** A record among the first n is at or below the page's PLSN. */
  lemma {:induction false} VersionCovers(wal: seq<int>, p: int, n: nat, i: nat)
    requires i < n <= |wal| && wal[i] == p
    ensures Plsn(i) <= Version(wal, p, n).plsn
  {
    if i < n - 1 { VersionCovers(wal, p, n - 1, i); }
  }

  /** Without records of p in between, the page does not change. */
  lemma {:induction false} VersionSame(wal: seq<int>, p: int, m: nat, n: nat)
    requires m <= n <= |wal| && forall i | m <= i < n :: wal[i] != p
    ensures Version(wal, p, m) == Version(wal, p, n)
  {
    if m < n { VersionSame(wal, p, m, n - 1); }
  }

  /** Redo from record i finishes a page that is at version i or later. */
  lemma {:induction false} RedoCompletes(wal: seq<int>, p: int, n: nat, i: nat)
    requires i <= n <= |wal|
    ensures Redo(wal, p, Version(wal, p, n), i) == Some(Version(wal, p, |wal|))
    ensures Contains(Version(wal, p, |wal|), wal, p, |wal|)
    decreases |wal| - i
  {
    VersionContains(wal, p, |wal|);
    if i < |wal| {
      if i < n {
        if wal[i] == p { VersionCovers(wal, p, n, i); }
        RedoCompletes(wal, p, n, i + 1);
      } else {
        VersionPlsn(wal, p, i);
        RedoCompletes(wal, p, i + 1, i + 1);
      }
    }
  }

  /** A page that misses a record below record i is never completed by redo from i. */
  lemma {:induction false} RedoStuck(wal: seq<int>, p: int, page: PageImage, i: nat)
    requires i <= |wal| && page.plsn < Version(wal, p, i).plsn
    ensures Redo(wal, p, page, i) != Some(Version(wal, p, |wal|))
    decreases |wal| - i
  {
    if i < |wal| {
      VersionPlsn(wal, p, i);
      if wal[i] != p { RedoStuck(wal, p, page, i + 1); }
    }
  }

  /**
    Redo from PLSN r gives every page each of its records in the WAL, once and in order, exactly when r
    is a safe point.
  */
  lemma RedoRebuildsIff(d: Store, r: int)
    requires forall p :: 0 <= d.disk(p) <= |d.wal|
    ensures Rebuilds(d, r) <==> SafePoint(d, r)
  {
    if SafePoint(d, r) {
      forall p ensures Recovered(d, r, p).Some? && Contains(Recovered(d, r, p).value, d.wal, p, |d.wal|) {
        RedoFromSafe(d, r, p);
        VersionContains(d.wal, p, |d.wal|);
      }
    } else {
      var i :| 0 <= i < |d.wal| && Plsn(i) < r && d.disk(d.wal[i]) <= i;
      var p := d.wal[i];
      assert 0 <= d.disk(p);
      RedoFromUnsafe(d, r, i);
      if Rebuilds(d, r) { VersionOnly(d.wal, p, |d.wal|, Recovered(d, r, p).value); }
    }
  }

  lemma RedoFromSafe(d: Store, r: int, p: int)
    requires 0 <= d.disk(p) <= |d.wal| && SafePoint(d, r)
    ensures Recovered(d, r, p) == Some(Version(d.wal, p, |d.wal|))
  {
    var n, i := d.disk(p), FirstFrom(d.wal, r);
    if n < i {
      VersionSame(d.wal, p, n, i);
      RedoCompletes(d.wal, p, i, i);
    } else {
      RedoCompletes(d.wal, p, n, i);
    }
  }

  lemma RedoFromUnsafe(d: Store, r: int, i: nat)
    requires i < |d.wal| && Plsn(i) < r && 0 <= d.disk(d.wal[i]) <= i
    ensures Recovered(d, r, d.wal[i]) != Some(Version(d.wal, d.wal[i], |d.wal|))
  {
    var p := d.wal[i];
    VersionPlsn(d.wal, p, d.disk(p));
    VersionCovers(d.wal, p, FirstFrom(d.wal, r), i);
    RedoStuck(d.wal, p, Version(d.wal, p, d.disk(p)), FirstFrom(d.wal, r));
  }

  lemma DiskBounds(s: State)
    requires Inv(s)
    ensures forall p :: 0 <= s.d.disk(p) <= |s.d.wal|
  {
  }

  /**
    A crash in any state of any run: redo from the recovery PLSN published then, or at any earlier
    time, rebuilds every page exactly when the pages handed to the slave writers and not yet reported
    flushed are on disk below it.
  */
  lemma CrashRebuildsIff(states: seq<State>, actions: seq<Action>, i: nat, j: nat)
    requires S.Execution(states, actions) && i <= j < |states|
    ensures forall p :: 0 <= states[j].d.disk(p) <= |states[j].d.wal|
    ensures Rebuilds(states[j].d, states[i].recovery)
       <==> S.Settled(states[j].d, states[j].cand, states[i].recovery)
  {
    hide Rebuilds, S.Settled, SafePoint, Inv;
    S.ExecutionInv(states, actions, j);
    DiskBounds(states[j]);
    S.PublishedSafeIff(states, actions, i, j);
    RedoRebuildsIff(states[j].d, states[i].recovery);
  }

  /** In runs in which the master waits for every page it handed out, redo always rebuilds every page. */
  lemma CrashRebuilds(states: seq<State>, actions: seq<Action>, i: nat, j: nat)
    requires S.FlushedExecution(states, actions) && i <= j < |states|
    ensures forall p :: 0 <= states[j].d.disk(p) <= |states[j].d.wal|
    ensures Rebuilds(states[j].d, states[i].recovery)
  {
    hide Rebuilds, SafePoint, Inv;
    S.PublishedStaysSafe(states, actions, i, j);
    S.ExecutionInv(states, actions, j);
    DiskBounds(states[j]);
    RedoRebuildsIff(states[j].d, states[i].recovery);
  }
}
