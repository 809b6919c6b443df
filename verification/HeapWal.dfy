/**
  The variable part of the heap WAL records: tuples that carry their own size, the logical decoding
  information, and the transaction directory area (AllocTd). Delete and update records are read from
  the front, insert records from the back.
*/
module HeapWal {
  import opened Common
  import opened TupleDiff
  import opened HeapUpdate

  const HEAP_DISK_TUP_HEADER_SIZE: int := 16
  const OID_SIZE: int := 4
  const CSN_SIZE: int := 8
  const CID_SIZE: int := 4
  const INVALID_CID: seq<byte> := [255, 255, 255, 255]

  /** A disk tuple: the 16-bit size at offset 2 is its length. */
  predicate IsTuple(t: seq<byte>) {
    HEAP_DISK_TUP_HEADER_SIZE <= |t| < 0x1_0000 && FromU16(t[2..4]) == |t|
  }

  function TupleSizeAt(raw: seq<byte>, at: int): int
    requires 0 <= at && at + 4 <= |raw|
  {
    FromU16(raw[at + 2..at + 4])
  }

  lemma TupleLength(t: seq<byte>)
    requires IsTuple(t)
    ensures HEAP_DISK_TUP_HEADER_SIZE <= |t|
  {
  }

  lemma TupleFound(raw: seq<byte>, at: int, t: seq<byte>)
    requires IsTuple(t) && 0 <= at && at + |t| <= |raw| && raw[at..at + |t|] == t
    ensures TupleSizeAt(raw, at) == |t|
  {
    SubSlice(raw, at, at + |t|, 2, 4);
  }

  /** The logical decoding information. */
  datatype Info = Info(oid: seq<byte>, csn: seq<byte>, cid: seq<byte>) {
    predicate Valid() { |oid| == OID_SIZE && |csn| == CSN_SIZE && |cid| == CID_SIZE }

    predicate HasCid() { cid != INVALID_CID }

    function Bytes(): seq<byte> { oid + csn + if HasCid() then cid else [] }
  }

  /** Writes bytes behind a prefix. */
  method Append(a: array<byte>, at: int, bytes: seq<byte>)
    requires 0 <= at && at + |bytes| <= a.Length
    modifies a
    ensures a[..at + |bytes|] == old(a[..at]) + bytes && a[at + |bytes|..] == old(a[at + |bytes|..])
  {
    CopyIn(a, at, bytes);
  }

  /** Writes the decoding information behind a prefix; the command id only if it is valid. */
  method SetInfo(a: array<byte>, at: int, info: Info) returns (dictChange: bool)
    requires info.Valid() && 0 <= at && at + |info.Bytes()| <= a.Length
    modifies a
    ensures a[..at + |info.Bytes()|] == old(a[..at]) + info.Bytes() && dictChange == info.HasCid()
    ensures a[at + |info.Bytes()|..] == old(a[at + |info.Bytes()|..])
  {
    hide Overlay;
    ghost var was := a[..];
    var fromPos := at;
    Write(a, fromPos, info.oid);
    fromPos := fromPos + OID_SIZE;
    Write(a, fromPos, info.csn);
    OverlayTwice(was, at, info.oid, info.csn);
    dictChange := info.HasCid();
    if dictChange {
      fromPos := fromPos + CSN_SIZE;
      Write(a, fromPos, info.cid);
      OverlayTwice(was, at, info.oid + info.csn, info.cid);
    } else {
      assert info.oid + info.csn == info.Bytes();
    }
    OverlayParts(was, at, info.Bytes(), a[..]);
  }

  /** s with bytes written at `at`. */
  function Overlay(s: seq<byte>, at: int, bytes: seq<byte>): (z: seq<byte>)
    requires 0 <= at && at + |bytes| <= |s|
    ensures |z| == |s|
  {
    s[..at] + bytes + s[at + |bytes|..]
  }

  method Write(a: array<byte>, at: int, bytes: seq<byte>)
    requires 0 <= at && at + |bytes| <= a.Length
    modifies a
    ensures a[..] == Overlay(old(a[..]), at, bytes)
  {
    CopyIn(a, at, bytes);
  }

  lemma OverlayTwice(s: seq<byte>, at: int, x: seq<byte>, y: seq<byte>)
    requires 0 <= at && at + |x| + |y| <= |s|
    ensures Overlay(Overlay(s, at, x), at + |x|, y) == Overlay(s, at, x + y)
  {
  }

  lemma OverlayParts(s: seq<byte>, at: int, bytes: seq<byte>, z: seq<byte>)
    requires 0 <= at && at + |bytes| <= |s| && z == Overlay(s, at, bytes)
    ensures z[..at + |bytes|] == s[..at] + bytes && z[at + |bytes|..] == s[at + |bytes|..]
  {
  }

  /** Which record: what comes before the old tuple. */
  datatype Kind = Delete | AppendUpdate | InplaceUpdate(pos: int)

  /** A record read from the front: lead, old tuple, table oid, snapshot csn, command id, AllocTd. */
  class FrontRecord {
    const kind: Kind
    const rawData: array<byte>
    var logical: bool
    var dictChange: bool

    /** The record flags start clear. */
    constructor (kind: Kind, rawData: array<byte>)
      ensures this.kind == kind && this.rawData == rawData && !logical && !dictChange
    {
      this.kind, this.rawData := kind, rawData;
      logical, dictChange := false, false;
    }

    /** The record starts with this lead: nothing, the new tuple, or the diff ranges. */
    ghost predicate Leads(lead: seq<byte>)
      reads rawData
    {
      && |lead| <= rawData.Length && rawData[..|lead|] == lead
      && match kind
         case Delete => lead == []
         case AppendUpdate => IsTuple(lead)
         case InplaceUpdate(pos) => |lead| == pos
    }

    function LeadSize(ghost lead: seq<byte>): (n: int)
      requires Leads(lead)
      reads rawData
      ensures n == |lead|
    {
      match kind
      case Delete => 0
      case AppendUpdate => TupleFound(rawData[..], 0, lead); TupleSizeAt(rawData[..], 0)
      case InplaceUpdate(pos) => pos
    }

    method SetLead(lead: seq<byte>)
      requires |lead| <= rawData.Length
      requires match kind
               case Delete => lead == []
               case AppendUpdate => IsTuple(lead)
               case InplaceUpdate(pos) => |lead| == pos
      modifies rawData
      ensures Leads(lead)
    {
      Append(rawData, 0, lead);
    }

    /** The lead is followed by the old tuple and the decoding information, if there is any. */
    ghost predicate Holds(lead: seq<byte>, log: Option<Logical>)
      reads this, rawData
    {
      && Leads(lead) && logical == log.Some?
      && (log.Some? ==> log.value.Valid() && dictChange == log.value.info.HasCid())
      && |Content(lead, log)| <= rawData.Length && rawData[..|Content(lead, log)|] == Content(lead, log)
    }

    method SetLogicalDecodeInfo(key: seq<byte>, info: Info, ghost lead: seq<byte>)
      requires Holds(lead, None) && !dictChange && Logical(key, info).Valid()
      requires |Content(lead, Some(Logical(key, info)))| <= rawData.Length
      modifies this, rawData
      ensures Holds(lead, Some(Logical(key, info)))
      ensures lead + key + info.oid + info.csn + (if info.HasCid() then info.cid else []) <= rawData[..]
    {
      hide IsTuple, Info.Bytes;
      logical := true;
      var fromPos := LeadSize(lead);
      Append(rawData, fromPos, key);
      dictChange := SetInfo(rawData, fromPos + |key|, info);
      Flat(lead, key, info);
      Appended(rawData[..], lead, key, info.Bytes());
    }

    /** Where the setters and redo find the AllocTd area: right behind everything else. */
    function AllocTdPos(ghost lead: seq<byte>, ghost log: Option<Logical>): (n: int)
      requires Holds(lead, log)
      reads this, rawData
      ensures n == |Content(lead, log)|
    {
      var fromPos := LeadSize(lead);
      if !logical then fromPos
      else
        KeyFound(rawData[..], lead, log.value);
        fromPos + TupleSizeAt(rawData[..], fromPos) + OID_SIZE + CSN_SIZE + if dictChange then CID_SIZE else 0
    }

    /** SetAllocTd; the record size leaves exactly the room that is needed. */
    method SetAllocTd(td: seq<byte>, ghost lead: seq<byte>, ghost log: Option<Logical>)
      requires Holds(lead, log) && rawData.Length == |Content(lead, log)| + |td|
      modifies rawData
      ensures Holds(lead, log) && rawData[..] == Content(lead, log) + td
    {
      var fromPos := AllocTdPos(lead, log);
      Append(rawData, fromPos, td);
      assert rawData[..] == rawData[..rawData.Length];
      assert rawData[..|lead|] == Content(lead, log)[..|lead|];
    }

    /** GetLogicalDecodeInfo: what was set is read back. */
    method GetLogicalDecodeInfo(ghost lead: seq<byte>, ghost log: Logical)
      returns (key: seq<byte>, oid: seq<byte>, csn: seq<byte>, cid: Option<seq<byte>>)
      requires Holds(lead, Some(log))
      ensures key == log.key && oid == log.info.oid && csn == log.info.csn
      ensures cid == if log.info.HasCid() then Some(log.info.cid) else None
    {
      hide IsTuple, Info.Bytes, Content, FromU16, TupleSizeAt;
      KeyFound(rawData[..], lead, log);
      var fromPos := LeadSize(lead);
      var size := TupleSizeAt(rawData[..], fromPos);
      key := rawData[fromPos..fromPos + size];
      fromPos := fromPos + size;
      oid := rawData[fromPos..fromPos + OID_SIZE];
      fromPos := fromPos + OID_SIZE;
      csn := rawData[fromPos..fromPos + CSN_SIZE];
      cid := None;
      if dictChange {
        fromPos := fromPos + CSN_SIZE;
        cid := Some(rawData[fromPos..fromPos + CID_SIZE]);
      }
    }
  }

  /** GetUpdateTuple of an append-update record: both tuples, found by their own sizes. */
  method GetAppendedTuples(record: FrontRecord, ghost lead: seq<byte>, ghost log: Logical)
    returns (oldTuple: seq<byte>, newTuple: seq<byte>)
    requires record.kind.AppendUpdate? && record.Holds(lead, Some(log))
    ensures oldTuple == log.key && newTuple == lead
  {
    var size := record.LeadSize(lead);
    newTuple := record.rawData[..size];
    KeyFound(record.rawData[..], lead, log);
    oldTuple := record.rawData[size..size + TupleSizeAt(record.rawData[..], size)];
  }

  /** The old tuple, whole or its replica key, with the decoding information. */
  datatype Logical = Logical(key: seq<byte>, info: Info) {
    predicate Valid() { IsTuple(key) && info.Valid() }
  }

  function Content(lead: seq<byte>, log: Option<Logical>): seq<byte> {
    lead + if log.Some? then log.value.key + log.value.info.Bytes() else []
  }

  /** The parts in their order. */
  lemma Flat(lead: seq<byte>, key: seq<byte>, info: Info)
    ensures Content(lead, Some(Logical(key, info))) == lead + key + info.Bytes()
    ensures lead + key + info.Bytes() == lead + key + info.oid + info.csn + if info.HasCid() then info.cid else []
  {
  }

  /** The parts behind the lead, at their offsets. */
  lemma KeyFound(raw: seq<byte>, lead: seq<byte>, log: Logical)
    requires log.Valid() && Content(lead, Some(log)) <= raw
    ensures var at := |lead|; var end := at + |log.key|;
      && |raw| >= end + OID_SIZE + CSN_SIZE + (if log.info.HasCid() then CID_SIZE else 0)
      && TupleSizeAt(raw, at) == |log.key| && raw[at..end] == log.key
      && raw[end..end + OID_SIZE] == log.info.oid
      && raw[end + OID_SIZE..end + OID_SIZE + CSN_SIZE] == log.info.csn
      && (log.info.HasCid() ==>
            raw[end + OID_SIZE + CSN_SIZE..end + OID_SIZE + CSN_SIZE + CID_SIZE] == log.info.cid)
  {
    var all := Content(lead, Some(log));
    assert all == raw[..|all|];
    assert raw[|lead|..|lead| + |log.key|] == all[|lead|..|lead| + |log.key|] == log.key;
    TupleFound(raw, |lead|, log.key);
    var end := |lead| + |log.key|;
    assert raw[end..|all|] == all[end..] == log.info.Bytes();
    SubSlice(raw, end, |all|, 0, OID_SIZE);
    SubSlice(raw, end, |all|, OID_SIZE, OID_SIZE + CSN_SIZE);
    if log.info.HasCid() { SubSlice(raw, end, |all|, OID_SIZE + CSN_SIZE, OID_SIZE + CSN_SIZE + CID_SIZE); }
  }

  /** A record written by the setters and read by the getters; the AllocTd area overlaps nothing. */
  method WriteAndRead(kind: Kind, lead: seq<byte>, log: Logical, td: seq<byte>)
    returns (key: seq<byte>, oid: seq<byte>, csn: seq<byte>, cid: Option<seq<byte>>, area: seq<byte>)
    requires log.Valid()
    requires match kind
             case Delete => lead == []
             case AppendUpdate => IsTuple(lead)
             case InplaceUpdate(pos) => |lead| == pos
    ensures key == log.key && oid == log.info.oid && csn == log.info.csn && area == td
    ensures cid == if log.info.HasCid() then Some(log.info.cid) else None
  {
    var raw := new byte[|Content(lead, Some(log))| + |td|](_ => 0);
    var record := new FrontRecord(kind, raw);
    record.SetLead(lead);
    record.SetLogicalDecodeInfo(log.key, log.info, lead);
    record.SetAllocTd(td, lead, Some(log));
    key, oid, csn, cid := record.GetLogicalDecodeInfo(lead, log);
    area := raw[record.AllocTdPos(lead, Some(log))..];
  }

  // ---- In-place update records, decoded

  /** The ranges cover every position where the versions differ. */
  ghost predicate Complete(rs: seq<Range>, before: seq<byte>, after: seq<byte>) {
    forall k | 0 <= k < |after| && !Same(before, after, k) :: Covered(rs, k)
  }

  /**
    GetUpdateTuple of an in-place update record: the old tuple comes out as it was stored; the data of
    the new tuple is the old data, right-aligned, with the ranges put in place.
  */
  method GetUpdateTuple(record: FrontRecord, diff: DiffRecord, newData: array<byte>, ghost rs: seq<Range>,
                        ghost after: seq<byte>, ghost log: Logical)
    returns (oldTuple: seq<byte>)
    requires diff.rawData == record.rawData && record.kind == InplaceUpdate(diff.pos) && newData != record.rawData
    requires diff.Carries(rs, after) && record.Holds(Encode(rs, after, |rs|), Some(log)) && newData.Length == |after|
    modifies newData
    ensures oldTuple == log.key
    ensures Complete(rs, log.key[HEAP_DISK_TUP_HEADER_SIZE..], after) ==> newData[..] == after
  {
    hide Encode, Patch, Covered, Aligned, InBounds;
    KeyFound(record.rawData[..], Encode(rs, after, |rs|), log);
    var size := TupleSizeAt(record.rawData[..], diff.pos);
    oldTuple := record.rawData[diff.pos..diff.pos + size];
    var oldData := oldTuple[HEAP_DISK_TUP_HEADER_SIZE..];
    CopyAligned(newData, oldData);
    ghost var base := newData[..];
    assert base == newData[..|base|];
    diff.ApplyDiffs(newData, newData.Length, rs, after);
    assert newData[..] == newData[..|base|];
    if Complete(rs, oldData, after) { CoveringRebuilds(rs, oldData, after, base); }
  }

  /** The lead of the record is the ranges, and nothing else is set yet. */
  lemma LeadsOnly(record: FrontRecord, diff: DiffRecord, rs: seq<Range>, after: seq<byte>)
    requires diff.rawData == record.rawData && record.kind == InplaceUpdate(diff.pos) && diff.Carries(rs, after)
    requires !record.logical
    ensures record.Holds(Encode(rs, after, |rs|), None)
  {
    assert Content(Encode(rs, after, |rs|), None) == Encode(rs, after, |rs|);
  }

  /** GenerateInplaceUpdateWal: the ranges, the old tuple, the decoding information and the directory area. */
  method MakeUpdate(log: Logical, after: seq<byte>, td: seq<byte>)
    returns (record: FrontRecord, diff: DiffRecord, rs: seq<Range>)
    requires log.Valid() && |log.key| - HEAP_DISK_TUP_HEADER_SIZE <= BLCKSZ && |after| <= BLCKSZ
    ensures diff.rawData == record.rawData && record.kind == InplaceUpdate(diff.pos) && diff.Carries(rs, after)
    ensures record.Holds(Encode(rs, after, |rs|), Some(log))
    ensures record.rawData[..] == Content(Encode(rs, after, |rs|), Some(log)) + td
    ensures HEAP_DISK_TUP_HEADER_SIZE <= |log.key| && Complete(rs, log.key[HEAP_DISK_TUP_HEADER_SIZE..], after)
  {
    hide IsTuple, Encode, EncodedSize, Covered;
    TupleLength(log.key);
    var size;
    size, rs := DiffOf(log.key[HEAP_DISK_TUP_HEADER_SIZE..], after);
    ghost var lead := Encode(rs, after, |rs|);
    var raw := new byte[size + |log.key| + |log.info.Bytes()| + |td|](_ => 0);
    diff := new DiffRecord.Over(raw);
    diff.SetData(rs, after);
    record := new FrontRecord(InplaceUpdate(diff.pos), raw);
    LeadsOnly(record, diff, rs, after);
    record.SetLogicalDecodeInfo(log.key, log.info, lead);
    record.SetAllocTd(td, lead, Some(log));
  }

  /**
    An in-place update record made from any two versions gives back the old tuple, the data of the new
    one, the decoding information and the directory area.
  */
  method UpdateAndDecode(log: Logical, after: seq<byte>, td: seq<byte>)
    returns (t: seq<byte>, newData: array<byte>, oid: seq<byte>, csn: seq<byte>, cid: Option<seq<byte>>,
             area: seq<byte>)
    requires log.Valid() && |log.key| - HEAP_DISK_TUP_HEADER_SIZE <= BLCKSZ && |after| <= BLCKSZ
    ensures t == log.key && newData[..] == after && area == td
    ensures oid == log.info.oid && csn == log.info.csn
    ensures cid == if log.info.HasCid() then Some(log.info.cid) else None
  {
    hide IsTuple, Encode, Complete, Content, Info.Bytes;
    var record, diff, rs := MakeUpdate(log, after, td);
    ghost var lead := Encode(rs, after, |rs|);
    newData := new byte[|after|](_ => 0);
    t := GetUpdateTuple(record, diff, newData, rs, after, log);
    var key;
    key, oid, csn, cid := record.GetLogicalDecodeInfo(lead, log);
    area := record.rawData[record.AllocTdPos(lead, Some(log))..];
  }

  /** The ranges of the new version, and the bytes they take. */
  method DiffOf(before: seq<byte>, after: seq<byte>) returns (size: nat, rs: seq<Range>)
    requires |before| <= BLCKSZ && |after| <= BLCKSZ
    ensures InBounds(rs, |after|) && Complete(rs, before, after) && size == EncodedSize(rs, |rs|)
  {
    hide Diff, Truncated, EncodedSize, Covered;
    var handler := new HeapUpdateHandler();
    handler.GetDiffBetweenTuples(before, after);
    TruncatedInBounds(before, after, |after|);
    TruncatedDiff(before, after, |after|);
    size := handler.GetTupleDiffSize(|after|);
    rs := Pairs(handler.tupDiffPos[..handler.tupDiffNum]);
  }

  /** Copies t right-aligned; positions beyond t keep what they held. */
  method CopyAligned(a: array<byte>, t: seq<byte>)
    modifies a
    ensures Aligned(a[..], t)
  {
    var n := a.Length;
    if n > |t| {
      CopyIn(a, n - |t|, t);
    } else {
      CopyIn(a, 0, t[|t| - n..]);
    }
  }

  // ---- Insert records

  /** A record read from the back: tuple, AllocTd, table oid, snapshot csn, command id. */
  class InsertRecord {
    const rawData: array<byte>
    var dictChange: bool

    /** The record is the tuple, the AllocTd area and the decoding information, and nothing else. */
    ghost predicate Holds(tuple: seq<byte>, td: seq<byte>, info: Info)
      reads this, rawData
    {
      IsTuple(tuple) && info.Valid() && dictChange == info.HasCid() && rawData[..] == tuple + td + info.Bytes()
    }

    /**
      GenerateHeapInsertWal: the record has room for a command id when the table is part of the decode
      dictionary, and the command id is written only if it is valid.
    */
    constructor (tuple: seq<byte>, td: seq<byte>, info: Info, room: bool)
      requires IsTuple(tuple) && info.Valid() && (info.HasCid() ==> room)
      ensures fresh(rawData) && dictChange == info.HasCid()
      ensures |rawData[..]| == |tuple| + |td| + OID_SIZE + CSN_SIZE + (if room then CID_SIZE else 0)
      ensures tuple + td + info.oid + info.csn + (if info.HasCid() then info.cid else []) <= rawData[..]
      ensures tuple + td + info.Bytes() <= rawData[..] && (room == info.HasCid() ==> Holds(tuple, td, info))
    {
      rawData := new byte[|tuple| + |td| + OID_SIZE + CSN_SIZE + if room then CID_SIZE else 0](_ => 0);
      new;
      hide TupleSizeAt, FromU16;
      Append(rawData, 0, tuple);
      assert rawData[..][0..|tuple|] == tuple;
      TupleFound(rawData[..], 0, tuple);
      var fromPos := TupleSizeAt(rawData[..], 0);
      Append(rawData, fromPos, td);
      dictChange := SetInfo(rawData, fromPos + |td|, info);
      ghost var all := tuple + td + info.Bytes();
      assert rawData[..fromPos + |td| + |info.Bytes()|] == all;
      Flat(tuple, td, info);
    }

    /** Redo: the tuple is found by its own size. */
    method GetInsertTuple(ghost tuple: seq<byte>) returns (t: seq<byte>)
      requires IsTuple(tuple) && tuple <= rawData[..]
      ensures t == tuple
    {
      assert rawData[..][0..|tuple|] == tuple;
      TupleFound(rawData[..], 0, tuple);
      t := rawData[..TupleSizeAt(rawData[..], 0)];
    }

    /** Redo: the AllocTd area is what the record size leaves between the tuple and the information. */
    method GetAllocTd(ghost tuple: seq<byte>, ghost td: seq<byte>, ghost info: Info) returns (area: seq<byte>)
      requires IsTuple(tuple) && tuple <= rawData[..]
      requires |tuple| + OID_SIZE + CSN_SIZE + (if dictChange then CID_SIZE else 0) <= rawData.Length
      ensures Holds(tuple, td, info) ==> area == td
    {
      assert rawData[..][0..|tuple|] == tuple;
      TupleFound(rawData[..], 0, tuple);
      var size := TupleSizeAt(rawData[..], 0);
      var allocTdSize := rawData.Length - size - OID_SIZE - CSN_SIZE;
      if dictChange {
        allocTdSize := allocTdSize - CID_SIZE;
      }
      area := rawData[size..size + allocTdSize];
    }

    /** GetLogicalDecodeInfo, from the back: what was set is read back when nothing follows it. */
    method GetLogicalDecodeInfo(ghost tuple: seq<byte>, ghost td: seq<byte>, ghost info: Info)
      returns (oid: seq<byte>, csn: seq<byte>, cid: Option<seq<byte>>)
      requires OID_SIZE + CSN_SIZE + CID_SIZE <= rawData.Length
      ensures (oid, csn, cid) == FromBack(rawData[..], dictChange)
      ensures Holds(tuple, td, info) ==> oid == info.oid && csn == info.csn
      ensures Holds(tuple, td, info) ==> cid == if info.HasCid() then Some(info.cid) else None
    {
      hide IsTuple, Info.Bytes, Info.HasCid;
      var raw := rawData[..];
      var end := |raw|;
      cid := None;
      if dictChange {
        end := end - CID_SIZE;
        cid := Some(raw[end..end + CID_SIZE]);
      }
      end := end - CSN_SIZE;
      csn := raw[end..end + CSN_SIZE];
      end := end - OID_SIZE;
      oid := raw[end..end + OID_SIZE];
      if Holds(tuple, td, info) {
        TupleLength(tuple);
        InsertReadsBack(tuple + td, info);
      }
    }
  }

  /** An insert record that is exactly large enough gives back everything that was set. */
  method InsertAndRead(tuple: seq<byte>, td: seq<byte>, info: Info)
    returns (t: seq<byte>, area: seq<byte>, oid: seq<byte>, csn: seq<byte>, cid: Option<seq<byte>>)
    requires IsTuple(tuple) && info.Valid()
    ensures t == tuple && area == td && oid == info.oid && csn == info.csn
    ensures cid == if info.HasCid() then Some(info.cid) else None
  {
    var record := new InsertRecord(tuple, td, info, info.HasCid());
    hide IsTuple;
    t := record.GetInsertTuple(tuple);
    area := record.GetAllocTd(tuple, td, info);
    oid, csn, cid := record.GetLogicalDecodeInfo(tuple, td, info);
  }

  function FromBack(raw: seq<byte>, dictChange: bool): (seq<byte>, seq<byte>, Option<seq<byte>>)
    requires OID_SIZE + CSN_SIZE + CID_SIZE <= |raw|
  {
    var end := if dictChange then |raw| - CID_SIZE else |raw|;
    (raw[end - CSN_SIZE - OID_SIZE..end - CSN_SIZE], raw[end - CSN_SIZE..end],
     if dictChange then Some(raw[end..end + CID_SIZE]) else None)
  }

  /** Read from the back, an insert record gives what was set when nothing follows it. */
  lemma InsertReadsBack(lead: seq<byte>, info: Info)
    requires info.Valid() && HEAP_DISK_TUP_HEADER_SIZE <= |lead|
    ensures FromBack(lead + info.Bytes(), info.HasCid())
         == (info.oid, info.csn, if info.HasCid() then Some(info.cid) else None)
  {
    var raw := lead + info.Bytes();
    var bytes := info.Bytes();
    assert raw[|lead|..|raw|] == bytes;
    assert bytes[0..OID_SIZE] == info.oid && bytes[OID_SIZE..OID_SIZE + CSN_SIZE] == info.csn;
    assert info.HasCid() ==> bytes[OID_SIZE + CSN_SIZE..|bytes|] == info.cid;
    SubSlice(raw, |lead|, |raw|, 0, OID_SIZE);
    SubSlice(raw, |lead|, |raw|, OID_SIZE, OID_SIZE + CSN_SIZE);
    SubSlice(raw, |lead|, |raw|, OID_SIZE + CSN_SIZE, |info.Bytes()|);
  }

  /** Whatever the ids, with `slack` bytes behind the information it is read back. */
  ghost predicate ReadsBackWith(lead: seq<byte>, hasCid: bool, slack: seq<byte>) {
    forall info: Info | info.Valid() && info.HasCid() == hasCid ::
      && HEAP_DISK_TUP_HEADER_SIZE <= |lead|
      && FromBack(lead + info.Bytes() + slack, hasCid) == (info.oid, info.csn, if hasCid then Some(info.cid) else None)
  }

  /** An insert record is read back for all ids exactly when it has no room for a command id it does not carry. */
  lemma InsertRoomIff(lead: seq<byte>, hasCid: bool, slack: seq<byte>)
    requires HEAP_DISK_TUP_HEADER_SIZE <= |lead| && (|slack| == 0 || |slack| == CID_SIZE)
    ensures ReadsBackWith(lead, hasCid, slack) <==> slack == []
  {
    if slack == [] {
      forall info: Info | info.Valid() && info.HasCid() == hasCid
        ensures FromBack(lead + info.Bytes() + slack, hasCid)
             == (info.oid, info.csn, if hasCid then Some(info.cid) else None)
      {
        assert lead + info.Bytes() + slack == lead + info.Bytes();
        InsertReadsBack(lead, info);
      }
    } else {
      var cid := if hasCid then [0, 0, 0, 0] else INVALID_CID;
      var info := Info([1, 0, 0, 0], [0, 0, 0, 0, 0, 0, 0, 0], cid);
      var raw := lead + info.Bytes() + slack;
      assert FromBack(raw, hasCid).0[0] == 0;
      assert FromBack(raw, hasCid).0 != info.oid;
    }
  }

  // ---- Batch insert records

  datatype Item = Item(offset: int, tuple: seq<byte>) {
    predicate Valid() { 0 <= offset < 0x1_0000 && IsTuple(tuple) }

    function Bytes(): seq<byte>
      requires Valid()
    {
      U16(offset) + tuple
    }
  }

  predicate AllValid(items: seq<Item>) { forall j | 0 <= j < |items| :: items[j].Valid() }

  /** The bytes of items j and following. */
  function BatchBytes(items: seq<Item>, j: nat): seq<byte>
    requires AllValid(items) && j <= |items|
    decreases |items| - j
  {
    if j == |items| then [] else items[j].Bytes() + BatchBytes(items, j + 1)
  }

  lemma {:induction false} BatchAppend(items: seq<Item>, item: Item, j: nat)
    requires AllValid(items) && item.Valid() && j <= |items|
    ensures BatchBytes(items + [item], j) == BatchBytes(items, j) + item.Bytes()
    decreases |items| - j
  {
    if j < |items| {
      BatchAppend(items, item, j + 1);
      assert (items[j].Bytes() + BatchBytes(items, j + 1)) + item.Bytes()
          == items[j].Bytes() + (BatchBytes(items, j + 1) + item.Bytes());
    } else {
      assert BatchBytes(items + [item], |items| + 1) == [];
    }
  }

  /** The item at the front of what is left. */
  lemma ItemAt(raw: seq<byte>, cur: int, pos: int, items: seq<Item>, j: nat)
    requires AllValid(items) && j < |items| && 0 <= cur <= pos <= |raw| && raw[cur..pos] == BatchBytes(items, j)
    ensures var at := cur + 2; var end := at + |items[j].tuple|;
      && at + 4 <= end <= pos && FromU16(raw[cur..at]) == items[j].offset
      && TupleSizeAt(raw, at) == |items[j].tuple| && raw[at..end] == items[j].tuple
      && raw[end..pos] == BatchBytes(items, j + 1)
  {
    var one, rest := items[j].Bytes(), BatchBytes(items, j + 1);
    var at, end := cur + 2, cur + |one|;
    var all := one + rest;
    assert all[..2] == U16(items[j].offset) && all[2..|one|] == items[j].tuple && all[|one|..] == rest;
    SubSlice(raw, cur, pos, 0, 2);
    SubSlice(raw, cur, pos, 2, |one|);
    SubSlice(raw, cur, pos, |one|, |all|);
    TupleFound(raw, at, items[j].tuple);
  }

  /** Bytes are left exactly while items are. */
  lemma NotDone(items: seq<Item>, j: nat)
    requires AllValid(items) && j <= |items|
    ensures BatchBytes(items, j) == [] <==> j == |items|
  {
    if j < |items| { assert items[j].Bytes() + BatchBytes(items, j + 1) != []; }
  }

  lemma Appended(raw: seq<byte>, was: seq<byte>, x: seq<byte>, y: seq<byte>)
    requires |was| + |x| + |y| <= |raw| && raw[..|was| + |x| + |y|] == was + x + y
    ensures raw[..|was|] == was && raw[|was|..|was| + |x|] == x && raw[|was| + |x|..|was| + |x| + |y|] == y
    ensures raw[..|was| + |x| + |y|] == was + (x + y)
    ensures forall i | 0 <= i < |x| :: raw[|was| + i] == x[i]
  {
    var all := was + x + y;
    assert forall i | 0 <= i < |all| :: raw[i] == all[i];
  }

  class BatchInsertRecord {
    const rawData: array<byte>
    var pos: int

    ghost predicate Holds(items: seq<Item>)
      reads this, rawData
    {
      AllValid(items) && 0 <= pos <= rawData.Length && rawData[..pos] == BatchBytes(items, 0)
    }

    constructor (size: nat)
      ensures fresh(rawData) && rawData.Length == size && pos == 0 && Holds([])
    {
      rawData := new byte[size](_ => 0);
      pos := 0;
    }

    method AppendData(item: Item, ghost items: seq<Item>)
      requires Holds(items) && item.Valid() && pos + 2 + |item.tuple| <= rawData.Length
      modifies this, rawData
      ensures Holds(items + [item]) && pos == old(pos) + 2 + |item.tuple|
      ensures rawData[old(pos)] == item.offset % 256 && rawData[old(pos) + 1] == item.offset / 256
      ensures rawData[old(pos) + 2..pos] == item.tuple && rawData[..old(pos)] == old(rawData[..pos])
    {
      hide BatchBytes, IsTuple;
      ghost var was := rawData[..pos];
      BatchAppend(items, item, 0);
      Append(rawData, pos, U16(item.offset));
      pos := pos + 2;
      Append(rawData, pos, item.tuple);
      pos := pos + |item.tuple|;
      Appended(rawData[..], was, U16(item.offset), item.tuple);
    }

    /** The loop of Redo and Dump: it finds exactly the appended items and stops at pos. */
    method Walk(ghost items: seq<Item>) returns (found: seq<Item>)
      requires Holds(items)
      ensures found == items
    {
      hide BatchBytes, FromU16, TupleSizeAt, AllValid, IsTuple;
      found := [];
      var raw, curPos := rawData[..], 0;
      assert raw[0..pos] == rawData[..pos];
      while curPos < pos
        invariant 0 <= curPos <= pos && |found| <= |items| && found == items[..|found|]
        invariant raw[curPos..pos] == BatchBytes(items, |found|)
        decreases pos - curPos
      {
        NotDone(items, |found|);
        ItemAt(raw, curPos, pos, items, |found|);
        var offset := FromU16(raw[curPos..curPos + 2]);
        curPos := curPos + 2;
        var size := TupleSizeAt(raw, curPos);
        found := found + [Item(offset, raw[curPos..curPos + size])];
        curPos := curPos + size;
      }
      NotDone(items, |found|);
    }
  }
}
