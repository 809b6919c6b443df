/**
  The paged item store of the control file: fixed-size items packed in linked pages, removal by
  moving the items behind it, and an iterator that tolerates deleting the item it stands on.
*/
module ControlPages {
  import opened Common

  /** The page size less the page header, sizeof(ControlPageHeader) = 24. */
  const DATA_SIZE: int := 8192 - 24
  const INVALID_OFFSET: int := 0xFFFF

  /** A page; the number of the next block is modelled as a reference to its page, null at the end. */
  class ControlPage {
    const data: array<byte>
    var writeOffset: int
    var nextPage: ControlPage?

    ghost predicate Valid()
      reads this
    {
      data.Length == DATA_SIZE && 0 <= writeOffset <= DATA_SIZE
    }

    ghost function Contents(): seq<byte>
      requires Valid()
      reads this, data
    {
      data[..writeOffset]
    }

    /** A page of items only: no meta data in front of them. */
    constructor ()
      ensures Valid() && fresh(data) && Contents() == [] && nextPage == null
    {
      data := new byte[DATA_SIZE](_ => 0);
      writeOffset, nextPage := 0, null;
    }

    function GetAvailableSize(): (n: int)
      requires Valid()
      reads this
      ensures n == DATA_SIZE - writeOffset
    {
      DATA_SIZE - writeOffset
    }

    method AddItem(item: seq<byte>)
      requires Valid() && |item| <= GetAvailableSize()
      modifies this`writeOffset, data
      ensures Valid() && Contents() == old(Contents()) + item
    {
      forall x | 0 <= x < |item| { data[writeOffset + x] := item[x]; }
      writeOffset := writeOffset + |item|;
    }

    /** The bytes behind the item, to the end of the page, move forward unless it is the last one. */
    method RemoveItem(offset: int, len: int)
      requires Valid() && 0 <= offset && 0 <= len && offset + len <= writeOffset
      modifies this`writeOffset, data
      ensures Valid() && Contents() == old(Contents()[..offset] + Contents()[offset + len..])
    {
      ghost var was := data[..];
      if offset + len != writeOffset {
        var size := DATA_SIZE - offset;
        forall x | 0 <= x < size - len { data[offset + x] := data[offset + len + x]; }
      }
      CutOut(was, data[..], offset, len, writeOffset);
      writeOffset := writeOffset - len;
    }

    method GetItem(offset: int, len: int) returns (item: seq<byte>)
      requires Valid() && 0 <= offset && 0 <= len && offset + len <= writeOffset
      ensures item == Contents()[offset..offset + len]
    {
      item := data[offset..offset + len];
    }
  }

  /** What is left of the first `end` bytes when `len` bytes at an offset are cut out. */
  lemma CutOut(was: seq<byte>, now: seq<byte>, offset: int, len: int, end: int)
    requires 0 <= offset && 0 <= len && offset + len <= end <= |was| == |now|
    requires forall x | 0 <= x < end - len :: now[x] == was[if x < offset then x else x + len]
    ensures now[..end - len] == was[..end][..offset] + was[..end][offset + len..]
  {
  }

  // ---- The chain of pages

  /** The bytes of pages i and following. */
  function Flat(pages: seq<seq<byte>>, i: nat): seq<byte>
    requires i <= |pages|
    decreases |pages| - i
  {
    if i == |pages| then [] else pages[i] + Flat(pages, i + 1)
  }

  /** The bytes of the first i pages. */
  function Before(pages: seq<seq<byte>>, i: nat): seq<byte>
    requires i <= |pages|
  {
    if i == 0 then [] else Before(pages, i - 1) + pages[i - 1]
  }

  lemma {:induction false} FlatSplit(pages: seq<seq<byte>>, i: nat)
    requires i <= |pages|
    ensures Flat(pages, 0) == Before(pages, i) + Flat(pages, i)
  {
    if i > 0 {
      FlatSplit(pages, i - 1);
      assert Before(pages, i - 1) + (pages[i - 1] + Flat(pages, i))
          == (Before(pages, i - 1) + pages[i - 1]) + Flat(pages, i);
    }
  }

  lemma {:induction false} FlatSame(a: seq<seq<byte>>, b: seq<seq<byte>>, i: nat)
    requires |a| == |b| && i <= |a| && forall j | i <= j < |a| :: a[j] == b[j]
    ensures Flat(a, i) == Flat(b, i)
    decreases |a| - i
  {
    if i < |a| { FlatSame(a, b, i + 1); }
  }

  lemma {:induction false} BeforeSame(a: seq<seq<byte>>, b: seq<seq<byte>>, i: nat)
    requires |a| == |b| && i <= |a| && forall j | 0 <= j < i :: a[j] == b[j]
    ensures Before(a, i) == Before(b, i)
  {
    if i > 0 { BeforeSame(a, b, i - 1); }
  }

  /** n bytes are whole items. */
  predicate Whole(n: int, size: int)
    requires 0 < size
    decreases n
  {
    n == 0 || (size <= n && Whole(n - size, size))
  }

  lemma {:induction false} NextWhole(a: int, b: int, size: int)
    requires 0 < size && Whole(a, size) && Whole(b, size) && a < b
    ensures a + size <= b && Whole(a + size, size)
    decreases a
  {
    if a > 0 { NextWhole(a - size, b - size, size); }
  }

  lemma LessWhole(n: int, size: int)
    requires 0 < size <= n && Whole(n, size)
    ensures Whole(n - size, size)
  {
  }

  /** The pages of a group in the order they are linked, each holding whole items. */
  ghost predicate ChainOk(chain: seq<ControlPage>, size: int)
    reads chain
  {
    && 0 < size
    && (forall i, j | 0 <= i < j < |chain| :: chain[i] != chain[j] && chain[i].data != chain[j].data)
    && (forall i | 0 <= i < |chain| :: chain[i].Valid())
    && (forall i | 0 <= i < |chain| :: PageOk(chain, size, i))
  }

  function PageAt(chain: seq<ControlPage>, i: int): ControlPage? { if 0 <= i < |chain| then chain[i] else null }

  ghost predicate PageOk(chain: seq<ControlPage>, size: int, i: int)
    requires 0 < size
    reads chain
  {
    0 <= i < |chain| && Whole(chain[i].writeOffset, size) && chain[i].nextPage == PageAt(chain, i + 1)
  }

  lemma PageFacts(chain: seq<ControlPage>, size: int, i: int)
    requires ChainOk(chain, size) && 0 <= i < |chain|
    ensures 0 < size && chain[i].Valid() && PageOk(chain, size, i)
  {
  }

  ghost function Arrays(chain: seq<ControlPage>): set<array<byte>> { set i | 0 <= i < |chain| :: chain[i].data }

  ghost function Pages(chain: seq<ControlPage>, size: int): (pages: seq<seq<byte>>)
    requires ChainOk(chain, size)
    reads chain, Arrays(chain)
    ensures |pages| == |chain|
  {
    seq(|chain|, i requires 0 <= i < |chain| && ChainOk(chain, size) reads chain, Arrays(chain) => chain[i].Contents())
  }

  // ---- The iterator

  /** Where a scan stands: on an item of a page, or past the last one. */
  datatype Spot = End | Spot(page: nat, offset: int)

  /** The first item at or behind an offset in page k. */
  function Seek(pages: seq<seq<byte>>, k: nat, offset: int): Spot
    requires k <= |pages|
    decreases |pages| - k
  {
    if k == |pages| then End
    else if offset < |pages[k]| then Spot(k, offset)
    else Seek(pages, k + 1, 0)
  }

  class ControlPageIterator {
    const itemSize: int
    var currentBlock: ControlPage?
    var currOffset: int
    var isItemDelete: bool
    ghost const chain: seq<ControlPage>
    ghost var at: nat

    ghost predicate Valid()
      reads this, chain
    {
      && ChainOk(chain, itemSize) && at <= |chain| && currentBlock == PageAt(chain, at)
      && (at < |chain| ==> Stands(chain[at].writeOffset))
    }

    /** Before the first item of a page, on an item, or where an item was deleted. */
    ghost predicate Stands(end: int)
      requires 0 < itemSize
      reads this
    {
      if currOffset == INVALID_OFFSET then !isItemDelete
      else
        && 0 <= currOffset && Whole(currOffset, itemSize)
        && (if isItemDelete then currOffset <= end else currOffset + itemSize <= end)
    }

    /** The offset of the next item in the current page. */
    ghost function Ahead(): int
      reads this
    {
      if currOffset == INVALID_OFFSET then 0 else if isItemDelete then currOffset else currOffset + itemSize
    }

    constructor (first: ControlPage?, itemSize: int, ghost chain: seq<ControlPage>)
      requires ChainOk(chain, itemSize) && first == PageAt(chain, 0)
      ensures Valid() && this.chain == chain && this.itemSize == itemSize && at == 0 && Ahead() == 0
    {
      this.itemSize, this.chain := itemSize, chain;
      currentBlock, currOffset, isItemDelete := first, INVALID_OFFSET, false;
      at := 0;
    }

    /** The iterator stands on this spot. */
    ghost predicate IsAt(spot: Spot)
      reads this
    {
      match spot
      case End => at == |chain|
      case Spot(page, offset) => at == page && currOffset == offset && !isItemDelete && offset != INVALID_OFFSET
    }

    /** On to the first item that is ahead. */
    method NextItem() returns (ok: bool)
      requires Valid()
      modifies this
      ensures Valid() && ok == (at < |chain|)
      ensures IsAt(old(Seek(Pages(chain, itemSize), at, Ahead())))
    {
      if isItemDelete {
        ok := AfterDelete();
      } else {
        ok := AfterItem();
      }
    }

    method AfterDelete() returns (ok: bool)
      requires Valid() && isItemDelete
      modifies this
      ensures Valid() && ok == (at < |chain|)
      ensures IsAt(old(Seek(Pages(chain, itemSize), at, Ahead())))
    {
      hide ChainOk;
      ghost var pages, k := Pages(chain, itemSize), at;
      var block, offset := currentBlock, currOffset;
      if k < |chain| { PageFacts(chain, itemSize, k); }
      isItemDelete := false;
      while block != null
        invariant ChainOk(chain, itemSize) && k <= |chain| && block == PageAt(chain, k) && !isItemDelete
        invariant k < |chain| ==> 0 <= offset <= |pages[k]| && Whole(offset, itemSize)
        invariant Seek(pages, k, offset) == old(Seek(Pages(chain, itemSize), at, Ahead()))
        decreases |chain| - k
      {
        PageFacts(chain, itemSize, k);
        if offset == block.writeOffset {
          block, offset, k := block.nextPage, 0, k + 1;
        } else {
          NextWhole(offset, block.writeOffset, itemSize);
          currentBlock, currOffset, at := block, offset, k;
          return true;
        }
      }
      currentBlock, currOffset, at := block, offset, k;
      return false;
    }

    method AfterItem() returns (ok: bool)
      requires Valid() && !isItemDelete
      modifies this
      ensures Valid() && ok == (at < |chain|)
      ensures IsAt(old(Seek(Pages(chain, itemSize), at, Ahead())))
    {
      hide ChainOk;
      ghost var pages, k := Pages(chain, itemSize), at;
      var block, offset := currentBlock, currOffset;
      if k < |chain| { PageFacts(chain, itemSize, k); }
      while block != null
        invariant ChainOk(chain, itemSize) && k <= |chain| && block == PageAt(chain, k) && !isItemDelete
        invariant var next := if offset == INVALID_OFFSET then 0 else offset + itemSize;
          && (k < |chain| ==> 0 <= next <= |pages[k]| && Whole(next, itemSize))
          && Seek(pages, k, next) == old(Seek(Pages(chain, itemSize), at, Ahead()))
        decreases |chain| - k
      {
        offset := if offset == INVALID_OFFSET then 0 else offset + itemSize;
        PageFacts(chain, itemSize, k);
        if offset < block.writeOffset {
          NextWhole(offset, block.writeOffset, itemSize);
          assert Seek(pages, k, offset) == Spot(k, offset) && offset != INVALID_OFFSET;
          currentBlock, currOffset, at := block, offset, k;
          assert Stands(block.writeOffset);
          return true;
        }
        block, offset, k := block.nextPage, INVALID_OFFSET, k + 1;
      }
      currentBlock, currOffset, at := block, offset, k;
      return false;
    }

    /** The item the iterator stands on. */
    method GetItem() returns (item: seq<byte>)
      requires Valid() && at < |chain| && currOffset != INVALID_OFFSET && !isItemDelete
      ensures 0 <= currOffset && currOffset + itemSize <= |Pages(chain, itemSize)[at]|
      ensures item == Pages(chain, itemSize)[at][currOffset..currOffset + itemSize]
    {
      item := currentBlock.GetItem(currOffset, itemSize);
    }

    /** Called after RemoveItem, when the item may have been the last of its page. */
    method MarkItemDelete()
      requires ChainOk(chain, itemSize) && at < |chain| && currentBlock == chain[at]
      requires 0 <= currOffset <= chain[at].writeOffset && Whole(currOffset, itemSize) && currOffset != INVALID_OFFSET
      modifies this`isItemDelete
      ensures Valid() && isItemDelete && Ahead() == currOffset
    {
      isItemDelete := true;
    }

    /** RemoveItem of the current item, and MarkItemDelete. */
    method DeleteItem()
      requires Valid() && at < |chain| && currOffset != INVALID_OFFSET && !isItemDelete
      modifies this`isItemDelete, chain[at], chain[at].data
      ensures Valid() && Ahead() == currOffset
      ensures Pages(chain, itemSize) == old(Without(Pages(chain, itemSize), at, currOffset, itemSize))
    {
      ghost var before := Pages(chain, itemSize);
      PageFacts(chain, itemSize, at);
      LessWhole(chain[at].writeOffset, itemSize);
      currentBlock.RemoveItem(currOffset, itemSize);
      forall i | 0 <= i < |chain| ensures PageOk(chain, itemSize, i) {
        assert old(PageOk(chain, itemSize, i));
      }
      MarkItemDelete();
      ghost var after := Pages(chain, itemSize);
      forall i | 0 <= i < |chain| ensures after[i] == Without(before, at, currOffset, itemSize)[i] {
        assert i != at ==> chain[i].data != chain[at].data;
      }
    }
  }

  // ---- A scan that deletes

  predicate AllWhole(pages: seq<seq<byte>>, size: int)
    requires 0 < size
  {
    forall i | 0 <= i < |pages| :: Whole(|pages[i]|, size)
  }

  predicate IsSpot(pages: seq<seq<byte>>, size: int, k: nat, offset: int)
    requires 0 < size
  {
    AllWhole(pages, size) && k <= |pages| && (k < |pages| ==> 0 <= offset <= |pages[k]| && Whole(offset, size))
  }

  /** The bytes from an offset in page k on. */
  function From(pages: seq<seq<byte>>, k: nat, offset: int): seq<byte>
    requires k <= |pages| && (k < |pages| ==> 0 <= offset <= |pages[k]|)
  {
    if k == |pages| then [] else pages[k][offset..] + Flat(pages, k + 1)
  }

  /** The bytes before an offset in page k. */
  function UpTo(pages: seq<seq<byte>>, k: nat, offset: int): seq<byte>
    requires k <= |pages| && (k < |pages| ==> 0 <= offset <= |pages[k]|)
  {
    Before(pages, k) + if k == |pages| then [] else pages[k][..offset]
  }

  /** RemoveItem in page k. */
  function Without(pages: seq<seq<byte>>, k: nat, offset: int, size: int): seq<seq<byte>>
    requires k < |pages| && 0 <= offset && 0 < size && offset + size <= |pages[k]|
  {
    pages[k := pages[k][..offset] + pages[k][offset + size..]]
  }

  lemma {:induction false} SeekItem(pages: seq<seq<byte>>, size: int, k: nat, offset: int)
    requires 0 < size && IsSpot(pages, size, k, offset)
    ensures match Seek(pages, k, offset)
      case End => From(pages, k, offset) == [] && UpTo(pages, k, offset) == Flat(pages, 0)
      case Spot(j, o) =>
        && j < |pages| && 0 <= o && o + size <= |pages[j]| && Whole(o, size) && Whole(o + size, size)
        && From(pages, k, offset) == pages[j][o..o + size] + From(pages, j, o + size)
        && UpTo(pages, k, offset) == UpTo(pages, j, o)
    decreases |pages| - k
  {
    hide From, UpTo, Flat;
    if k == |pages| {
      PagesEnd(pages, offset);
    } else if offset < |pages[k]| {
      NextWhole(offset, |pages[k]|, size);
      TakeItem(pages, k, offset, size);
    } else {
      NextPage(pages, k);
      SeekItem(pages, size, k + 1, 0);
    }
  }

  lemma PagesEnd(pages: seq<seq<byte>>, offset: int)
    ensures From(pages, |pages|, offset) == [] && UpTo(pages, |pages|, offset) == Flat(pages, 0)
  {
    FlatSplit(pages, |pages|);
  }

  lemma TakeItem(pages: seq<seq<byte>>, k: nat, offset: int, size: int)
    requires k < |pages| && 0 <= offset && 0 < size && offset + size <= |pages[k]|
    ensures From(pages, k, offset) == pages[k][offset..offset + size] + From(pages, k, offset + size)
  {
    hide Flat;
    Cut(pages[k], offset, size, Flat(pages, k + 1));
  }

  lemma Cut(page: seq<byte>, offset: int, size: int, rest: seq<byte>)
    requires 0 <= offset && 0 < size && offset + size <= |page|
    ensures page[offset..] + rest == page[offset..offset + size] + (page[offset + size..] + rest)
  {
    assert page[offset..] == page[offset..offset + size] + page[offset + size..];
  }

  lemma NextPage(pages: seq<seq<byte>>, k: nat)
    requires k < |pages|
    ensures From(pages, k, |pages[k]|) == From(pages, k + 1, 0) && UpTo(pages, k, |pages[k]|) == UpTo(pages, k + 1, 0)
  {
  }

  /** Taking an item out changes neither what is behind it nor what is in front of it. */
  lemma Removed(pages: seq<seq<byte>>, size: int, k: nat, offset: int)
    requires 0 < size && k < |pages| && IsSpot(pages, size, k, offset) && offset + size <= |pages[k]|
    ensures var now := Without(pages, k, offset, size);
      && IsSpot(now, size, k, offset)
      && From(now, k, offset) == From(pages, k, offset + size) && UpTo(now, k, offset) == UpTo(pages, k, offset)
  {
    var now := Without(pages, k, offset, size);
    FlatSame(pages, now, k + 1);
    BeforeSame(pages, now, k);
    hide Flat, Before;
    Gap(pages[k], offset, size);
    assert Whole(|pages[k]| - size, size);
  }

  lemma Gap(page: seq<byte>, offset: int, size: int)
    requires 0 <= offset && 0 < size && offset + size <= |page|
    ensures var now := page[..offset] + page[offset + size..];
      now[offset..] == page[offset + size..] && now[..offset] == page[..offset] && |now| == |page| - size
  {
  }

  lemma Passed(pages: seq<seq<byte>>, size: int, k: nat, offset: int)
    requires 0 < size && k < |pages| && IsSpot(pages, size, k, offset) && offset + size <= |pages[k]|
    ensures UpTo(pages, k, offset + size) == UpTo(pages, k, offset) + pages[k][offset..offset + size]
  {
    assert pages[k][..offset + size] == pages[k][..offset] + pages[k][offset..offset + size];
  }

  datatype Outcome = Outcome(visited: seq<seq<byte>>, pages: seq<seq<byte>>)

  /** NextItem until it finds nothing, with RemoveItem and MarkItemDelete on the items `remove` picks. */
  function Scan(pages: seq<seq<byte>>, size: int, k: nat, offset: int, remove: (int, seq<byte>) -> bool,
      n: nat): Outcome
    requires 0 < size && IsSpot(pages, size, k, offset)
    decreases Left(pages, k, offset)
  {
    hide From, Flat, Whole;
    NextSpot(pages, size, k, offset);
    match Seek(pages, k, offset)
    case End => Outcome([], pages)
    case Spot(j, o) =>
      var rest :=
        if remove(n, pages[j][o..o + size]) then Scan(Without(pages, j, o, size), size, j, o, remove, n + 1)
        else Scan(pages, size, j, o + size, remove, n + 1);
      Outcome([pages[j][o..o + size]] + rest.visited, rest.pages)
  }

  /** Either way there is less ahead than before. */
  lemma NextSpot(pages: seq<seq<byte>>, size: int, k: nat, offset: int)
    requires 0 < size && IsSpot(pages, size, k, offset)
    ensures var spot := Seek(pages, k, offset);
      spot.Spot? ==>
        && spot.page < |pages| && 0 <= spot.offset && spot.offset + size <= |pages[spot.page]|
        && IsSpot(pages, size, spot.page, spot.offset + size)
        && IsSpot(Without(pages, spot.page, spot.offset, size), size, spot.page, spot.offset)
        && Left(pages, spot.page, spot.offset + size) < Left(pages, k, offset)
        && Left(Without(pages, spot.page, spot.offset, size), spot.page, spot.offset) < Left(pages, k, offset)
  {
    hide From, UpTo, Flat;
    SeekItem(pages, size, k, offset);
    var spot := Seek(pages, k, offset);
    if spot.Spot? { Removed(pages, size, spot.page, spot.offset); }
  }

  function Left(pages: seq<seq<byte>>, k: nat, offset: int): nat
    requires k <= |pages| && (k < |pages| ==> 0 <= offset <= |pages[k]|)
  {
    |From(pages, k, offset)|
  }

  function Concat(items: seq<seq<byte>>): seq<byte> { if items == [] then [] else items[0] + Concat(items[1..]) }

  /** The items that are not removed; the first is number n. */
  function Kept(items: seq<seq<byte>>, remove: (int, seq<byte>) -> bool, n: nat): seq<seq<byte>> {
    if items == [] then []
    else (if remove(n, items[0]) then [] else [items[0]]) + Kept(items[1..], remove, n + 1)
  }

  lemma {:induction false} ConcatLast(items: seq<seq<byte>>, last: seq<byte>)
    ensures Concat(items + [last]) == Concat(items) + last && Concat([]) == []
  {
    if items == [] {
      assert [last][1..] == [] && last + [] == last;
    } else {
      assert (items + [last])[1..] == items[1..] + [last];
      ConcatLast(items[1..], last);
      assert items[0] + (Concat(items[1..]) + last) == items[0] + Concat(items[1..]) + last;
    }
  }

  /** The last item is number n + |items|, and is kept unless it is removed. */
  lemma {:induction false} KeptLast(items: seq<seq<byte>>, last: seq<byte>, remove: (int, seq<byte>) -> bool, n: nat)
    ensures Kept(items + [last], remove, n) == Kept(items, remove, n) + if remove(n + |items|, last) then [] else [last]
    ensures Concat(items + [last]) == Concat(items) + last
    ensures Kept([], remove, n) == [] && Concat([]) == []
  {
    ConcatLast(items, last);
    hide Concat;
    var end := if remove(n + |items|, last) then [] else [last];
    if items == [] {
      assert [last][1..] == [];
    } else {
      var one, rest := if remove(n, items[0]) then [] else [items[0]], Kept(items[1..], remove, n + 1);
      assert (items + [last])[1..] == items[1..] + [last];
      KeptLast(items[1..], last, remove, n + 1);
      assert one + (rest + end) == (one + rest) + end;
    }
  }

  /**
    Whatever is removed, the scan visits every item once, in order, and the pages then hold exactly
    the items that were not removed, in order.
  */
  lemma {:induction false} ScanExact(pages: seq<seq<byte>>, size: int, k: nat, offset: int,
      remove: (int, seq<byte>) -> bool, n: nat)
    requires 0 < size && IsSpot(pages, size, k, offset)
    ensures var z := Scan(pages, size, k, offset, remove, n);
      && Concat(z.visited) == From(pages, k, offset)
      && Flat(z.pages, 0) == UpTo(pages, k, offset) + Concat(Kept(z.visited, remove, n))
      && (forall v | v in z.visited :: |v| == size) && AllWhole(z.pages, size)
    decreases |From(pages, k, offset)|
  {
    hide From, UpTo, Flat, Scan, Seek, Concat, Kept, Whole;
    SeekItem(pages, size, k, offset);
    ScanStep(pages, size, k, offset, remove, n);
    match Seek(pages, k, offset)
    case End =>
      EmptyScan(UpTo(pages, k, offset), remove, n);
    case Spot(j, o) =>
      var item := pages[j][o..o + size];
      if remove(n, item) {
        Removed(pages, size, j, o);
        ScanExact(Without(pages, j, o, size), size, j, o, remove, n + 1);
        var rest := Scan(Without(pages, j, o, size), size, j, o, remove, n + 1);
        ConsScan(item, rest.visited, remove, n, UpTo(pages, j, o));
      } else {
        Passed(pages, size, j, o);
        ScanExact(pages, size, j, o + size, remove, n + 1);
        var rest := Scan(pages, size, j, o + size, remove, n + 1);
        ConsScan(item, rest.visited, remove, n, UpTo(pages, j, o));
      }
  }

  /** The whole scan, from the first page. */
  lemma DeletingScan(pages: seq<seq<byte>>, size: int, remove: (int, seq<byte>) -> bool)
    requires 0 < size && AllWhole(pages, size)
    ensures var z := Scan(pages, size, 0, 0, remove, 0);
      Concat(z.visited) == Flat(pages, 0) && Flat(z.pages, 0) == Concat(Kept(z.visited, remove, 0))
  {
    ScanExact(pages, size, 0, 0, remove, 0);
    FlatSplit(pages, 0);
  }

  /** One step of the scan. */
  lemma ScanStep(pages: seq<seq<byte>>, size: int, k: nat, offset: int, remove: (int, seq<byte>) -> bool, n: nat)
    requires 0 < size && IsSpot(pages, size, k, offset)
    ensures match Seek(pages, k, offset)
      case End => Scan(pages, size, k, offset, remove, n) == Outcome([], pages)
      case Spot(j, o) =>
        && j < |pages| && 0 <= o && o + size <= |pages[j]|
        && IsSpot(Without(pages, j, o, size), size, j, o) && IsSpot(pages, size, j, o + size)
        && var rest :=
             if remove(n, pages[j][o..o + size]) then Scan(Without(pages, j, o, size), size, j, o, remove, n + 1)
             else Scan(pages, size, j, o + size, remove, n + 1);
           Scan(pages, size, k, offset, remove, n) == Outcome([pages[j][o..o + size]] + rest.visited, rest.pages)
  {
    hide From, UpTo, Flat, Whole;
    NextSpot(pages, size, k, offset);
  }

  lemma EmptyScan(before: seq<byte>, remove: (int, seq<byte>) -> bool, n: nat)
    ensures Concat([]) == [] && before + Concat(Kept([], remove, n)) == before
  {
  }

  lemma ConsScan(item: seq<byte>, rest: seq<seq<byte>>, remove: (int, seq<byte>) -> bool, n: nat, before: seq<byte>)
    ensures Concat([item] + rest) == item + Concat(rest)
    ensures before + Concat(Kept([item] + rest, remove, n))
         == (if remove(n, item) then before else before + item) + Concat(Kept(rest, remove, n + 1))
  {
    assert ([item] + rest)[1..] == rest;
    if remove(n, item) {
      assert [] + Kept(rest, remove, n + 1) == Kept(rest, remove, n + 1);
    } else {
      assert ([item] + Kept(rest, remove, n + 1))[1..] == Kept(rest, remove, n + 1);
      assert before + (item + Concat(Kept(rest, remove, n + 1))) == (before + item) + Concat(Kept(rest, remove, n + 1));
    }
  }

  // ---- The loop of a caller

  lemma SpotOk(it: ControlPageIterator)
    requires it.Valid()
    ensures 0 < it.itemSize && IsSpot(Pages(it.chain, it.itemSize), it.itemSize, it.at, it.Ahead())
  {
    var pages := Pages(it.chain, it.itemSize);
    forall i | 0 <= i < |pages| ensures Whole(|pages[i]|, it.itemSize) {
      PageFacts(it.chain, it.itemSize, i);
    }
    assert Whole(0, it.itemSize);
  }

  /** What is still to come of the scan. */
  ghost function Rest(it: ControlPageIterator, remove: (int, seq<byte>) -> bool, n: nat): Outcome
    requires it.Valid()
    reads it, it.chain, Arrays(it.chain)
  {
    SpotOk(it);
    Scan(Pages(it.chain, it.itemSize), it.itemSize, it.at, it.Ahead(), remove, n)
  }

  ghost function ToCome(it: ControlPageIterator): nat
    requires it.Valid()
    reads it, it.chain, Arrays(it.chain)
  {
    SpotOk(it);
    Left(Pages(it.chain, it.itemSize), it.at, it.Ahead())
  }

  /** One round of the loop: the next item, removed if it matches. */
  method OneItem(it: ControlPageIterator, remove: (int, seq<byte>) -> bool, n: nat)
    returns (more: bool, item: seq<byte>)
    requires it.Valid()
    modifies it, it.chain, Arrays(it.chain)
    ensures it.Valid()
    ensures !more ==> old(Rest(it, remove, n)) == Outcome([], Pages(it.chain, it.itemSize))
    ensures more ==> ToCome(it) < old(ToCome(it))
    ensures more ==>
      var rest := Rest(it, remove, n + 1); old(Rest(it, remove, n)) == Outcome([item] + rest.visited, rest.pages)
  {
    hide Scan, Seek, Whole, ChainOk, Left, Flat, Pages, PageOk, Without, IsSpot;
    ghost var pages, k, offset := Pages(it.chain, it.itemSize), it.at, it.Ahead();
    SpotOk(it);
    ScanStep(pages, it.itemSize, k, offset, remove, n);
    NextSpot(pages, it.itemSize, k, offset);
    item := [];
    more := it.NextItem();
    assert Pages(it.chain, it.itemSize) == pages;
    if more {
      item := it.GetItem();
      if remove(n, item) {
        it.DeleteItem();
      }
    }
  }

  /** The loop is the rest of the scan. */
  method Drain(it: ControlPageIterator, remove: (int, seq<byte>) -> bool) returns (visited: seq<seq<byte>>)
    requires it.Valid()
    modifies it, it.chain, Arrays(it.chain)
    ensures it.Valid() && Outcome(visited, Pages(it.chain, it.itemSize)) == old(Rest(it, remove, 0))
  {
    hide Rest, ToCome, ChainOk;
    visited := [];
    var more := true;
    while more
      invariant it.Valid()
      invariant more ==>
        var rest := Rest(it, remove, |visited|); Outcome(visited + rest.visited, rest.pages) == old(Rest(it, remove, 0))
      invariant !more ==> Outcome(visited, Pages(it.chain, it.itemSize)) == old(Rest(it, remove, 0))
      decreases more, ToCome(it)
    {
      var item;
      more, item := OneItem(it, remove, |visited|);
      if more {
        visited := visited + [item];
      }
    }
  }

  /** The bytes the iterator has passed, and those ahead of it. */
  ghost function Behind(it: ControlPageIterator): seq<byte>
    requires it.Valid()
    reads it, it.chain, Arrays(it.chain)
  {
    SpotOk(it);
    UpTo(Pages(it.chain, it.itemSize), it.at, it.Ahead())
  }

  ghost function InFront(it: ControlPageIterator): seq<byte>
    requires it.Valid()
    reads it, it.chain, Arrays(it.chain)
  {
    SpotOk(it);
    From(Pages(it.chain, it.itemSize), it.at, it.Ahead())
  }

  lemma RestExact(it: ControlPageIterator, remove: (int, seq<byte>) -> bool)
    requires it.Valid()
    ensures var z := Rest(it, remove, 0);
      && Concat(z.visited) == InFront(it) && Flat(z.pages, 0) == Behind(it) + Concat(Kept(z.visited, remove, 0))
      && forall v | v in z.visited :: |v| == it.itemSize
  {
    hide Scan, From, UpTo, Flat, Concat, Kept, Whole;
    SpotOk(it);
    ScanExact(Pages(it.chain, it.itemSize), it.itemSize, it.at, it.Ahead(), remove, 0);
  }

  /**
    DeleteLogicalReplicationSlot: every item in front is visited once, in order, and then the pages
    hold what was behind and the items that did not match, in order.
  */
  method RemoveItems(it: ControlPageIterator, remove: (int, seq<byte>) -> bool) returns (visited: seq<seq<byte>>)
    requires it.Valid()
    modifies it, it.chain, Arrays(it.chain)
    ensures it.Valid() && Concat(visited) == old(InFront(it)) && forall v | v in visited :: |v| == it.itemSize
    ensures Flat(Pages(it.chain, it.itemSize), 0) == old(Behind(it)) + Concat(Kept(visited, remove, 0))
  {
    hide Rest, ToCome, ChainOk, InFront, Behind, Concat, Kept, Flat;
    RestExact(it, remove);
    visited := Drain(it, remove);
  }
}
