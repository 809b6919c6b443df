/**
  Attributes packed back to back in a tuple: fixed-length values, C strings, and variable-length
  values with a 1-byte or 4-byte header or a LOB locator, and the walk that finds each of them.
*/
module Attributes {
  import opened Common

  const ATT_VAR_LEN_TYPE: int := -1
  const ATT_CSTR_LEN_TYPE: int := -2
  const VARTAG_DLOB_LOCATOR: int := 38
  const LOCATOR_SIZE: int := 24
  const VARHDRSZ: int := 4
  const VARHDRSZ_SHORT: int := 1
  const VARHDRSZ_EXTERNAL: int := 2
  const VARATT_SHORT_MAX: int := 0x7f

  // ---- Headers

  /** The low `count` bytes of n, lowest first. */
  function Bytes(n: nat, count: nat): (s: seq<byte>)
    ensures |s| == count
  {
    if count == 0 then [] else [n % 256] + Bytes(n / 256, count - 1)
  }

  function Number(s: seq<byte>): nat {
    if s == [] then 0
    else
      var low: int := s[0];
      low + 256 * Number(s[1..])
  }

  function Pow256(n: nat): nat { if n == 0 then 1 else 256 * Pow256(n - 1) }

  /** The low bytes give back the number exactly when it has no others. */
  lemma {:induction false} BytesIff(n: nat, count: nat)
    ensures Number(Bytes(n, count)) == n <==> n < Pow256(count)
    ensures Number(Bytes(n, count)) <= n && Number(Bytes(n, count)) < Pow256(count)
  {
    if count > 0 {
      BytesIff(n / 256, count - 1);
      assert Bytes(n, count)[1..] == Bytes(n / 256, count - 1);
      assert n == n % 256 + 256 * (n / 256);
    }
  }

  /** DstoreSetVarSize1B: len shifted left by one and a one, in eight bits. */
  function ShortHeader(len: nat): byte { 2 * (len % 128) + 1 }

  /** DstoreSetVarSize4B; len counts the header. */
  function LongHeader(len: nat): (s: seq<byte>)
    ensures |s| == VARHDRSZ
  {
    Bytes(4 * len, VARHDRSZ)
  }

  lemma LongHeaderReads(len: nat)
    requires len < 0x4000_0000
    ensures Number(LongHeader(len)) / 4 == len && LongHeader(len)[0] % 2 == 0
  {
    assert Pow256(4) == 0x1_0000_0000 by { assert Pow256(0) == 1 && Pow256(1) == 256 && Pow256(2) == 65536; }
    BytesIff(4 * len, VARHDRSZ);
  }

  /** DstoreVarSizeAny of the value at an offset; None where the code panics or leaves the tuple. */
  function SizeAny(raw: seq<byte>, at: int): Option<int>
    requires 0 <= at < |raw|
  {
    var first: int := raw[at];
    if first == 1 then
      if at + 1 < |raw| && raw[at + 1] % 128 == VARTAG_DLOB_LOCATOR
      then Some(VARHDRSZ_EXTERNAL + LOCATOR_SIZE)
      else None
    else if first % 2 == 1 then Some(first / 2)
    else if at + 4 <= |raw| then Some(Number(raw[at..at + 4]) / 4)
    else None
  }

  /** A short header is read back exactly for lengths 1 to 127: length 0 is taken for an external value. */
  lemma ShortHeaderIff(len: nat, rest: seq<byte>)
    ensures SizeAny([ShortHeader(len)] + rest, 0) == Some(len) <==> 1 <= len <= VARATT_SHORT_MAX
    ensures ShortHeader(len) % 2 == 1 && (ShortHeader(len) / 2 == len <==> len <= VARATT_SHORT_MAX)
  {
    var raw := [ShortHeader(len)] + rest;
    assert raw[0] == ShortHeader(len);
  }

  // ---- Attributes

  datatype Att =
    | Fixed(bytes: seq<byte>)
    | Short(data: seq<byte>)
    | Long(data: seq<byte>)
    | Locator(lob: seq<byte>)
    | CString(text: seq<byte>)
  {
    predicate Valid() {
      match this
      case Fixed(bytes) => bytes != []
      case Short(data) => VARHDRSZ_SHORT + |data| <= VARATT_SHORT_MAX
      case Long(data) => VARHDRSZ + |data| < 0x4000_0000
      case Locator(lob) => |lob| == LOCATOR_SIZE
      case CString(text) => forall i | 0 <= i < |text| :: text[i] != 0
    }

    function AttLen(): int {
      match this
      case Fixed(bytes) => |bytes|
      case CString(_) => ATT_CSTR_LEN_TYPE
      case _ => ATT_VAR_LEN_TYPE
    }

    function Bytes(): (s: seq<byte>)
      requires Valid()
      ensures s != []
    {
      match this
      case Fixed(bytes) => bytes
      case Short(data) => [ShortHeader(VARHDRSZ_SHORT + |data|)] + data
      case Long(data) => LongHeader(VARHDRSZ + |data|) + data
      case Locator(lob) => [1, VARTAG_DLOB_LOCATOR] + lob
      case CString(text) => text + [0]
    }
  }

  /** AttAlignNominal: disk tuples have no alignment. */
  function AlignNominal(offset: int): int { offset }

  /** AttAlignPointer: a zero byte may be padding, so the offset is aligned; any other starts a short value. */
  function AlignPointer(raw: seq<byte>, offset: int, attLen: int): int
    requires 0 <= offset < |raw|
  {
    if attLen == ATT_VAR_LEN_TYPE && raw[offset] != 0 then offset else AlignNominal(offset)
  }

  function StrLen(raw: seq<byte>, at: int): int
    requires 0 <= at <= |raw|
    decreases |raw| - at
  {
    if at == |raw| || raw[at] == 0 then 0 else 1 + StrLen(raw, at + 1)
  }

  /** AttAddLength; an unsupported length is an error, and the offset is 0. */
  function AddLength(raw: seq<byte>, offset: int, attLen: int): Option<int>
    requires 0 <= offset < |raw|
  {
    if attLen > 0 then Some(offset + attLen)
    else if attLen == ATT_VAR_LEN_TYPE then
      match SizeAny(raw, offset)
      case Some(n) => Some(offset + n)
      case None => None
    else if attLen == ATT_CSTR_LEN_TYPE then Some(offset + StrLen(raw, offset) + 1)
    else Some(0)
  }

  lemma {:induction false} StrLenOf(pre: seq<byte>, text: seq<byte>, post: seq<byte>, i: nat)
    requires i <= |text| && forall j | 0 <= j < |text| :: text[j] != 0
    ensures StrLen(pre + (text + [0]) + post, |pre| + i) == |text| - i
    decreases |text| - i
  {
    if i < |text| { StrLenOf(pre, text, post, i + 1); }
  }

  lemma Inside(pre: seq<byte>, bytes: seq<byte>, post: seq<byte>, n: nat)
    requires n <= |bytes|
    ensures (pre + bytes + post)[|pre|..|pre| + n] == bytes[..n]
    ensures forall i | 0 <= i < |bytes| :: (pre + bytes + post)[|pre| + i] == bytes[i]
  {
  }

  lemma ShortExact(pre: seq<byte>, data: seq<byte>, post: seq<byte>)
    requires Short(data).Valid()
    ensures SizeAny(pre + Short(data).Bytes() + post, |pre|) == Some(|Short(data).Bytes()|)
  {
    Inside(pre, Short(data).Bytes(), post, 1);
  }

  lemma LongExact(pre: seq<byte>, data: seq<byte>, post: seq<byte>)
    requires Long(data).Valid()
    ensures SizeAny(pre + Long(data).Bytes() + post, |pre|) == Some(|Long(data).Bytes()|)
  {
    hide LongHeader;
    var header := LongHeader(VARHDRSZ + |data|);
    Inside(pre, Long(data).Bytes(), post, 4);
    assert Long(data).Bytes()[..4] == header && Long(data).Bytes()[0] == header[0];
    LongHeaderReads(VARHDRSZ + |data|);
  }

  /** Wherever an attribute stands, its length leads exactly to its end. */
  lemma LengthExact(pre: seq<byte>, att: Att, post: seq<byte>)
    requires att.Valid()
    ensures AddLength(pre + att.Bytes() + post, |pre|, att.AttLen()) == Some(|pre| + |att.Bytes()|)
  {
    hide SizeAny, StrLen, Att.Bytes;
    match att
    case Fixed(bytes) => FixedExact(bytes);
    case Short(data) => ShortExact(pre, data, post);
    case Long(data) => LongExact(pre, data, post);
    case Locator(lob) => LocatorExact(pre, lob, post);
    case CString(text) => CStringExact(pre, text, post);
  }

  lemma FixedExact(bytes: seq<byte>)
    requires Fixed(bytes).Valid()
    ensures |Fixed(bytes).Bytes()| == |bytes|
  {
  }

  lemma LocatorExact(pre: seq<byte>, lob: seq<byte>, post: seq<byte>)
    requires Locator(lob).Valid()
    ensures SizeAny(pre + Locator(lob).Bytes() + post, |pre|) == Some(|Locator(lob).Bytes()|)
  {
    Inside(pre, Locator(lob).Bytes(), post, 2);
  }

  lemma CStringExact(pre: seq<byte>, text: seq<byte>, post: seq<byte>)
    requires CString(text).Valid()
    ensures StrLen(pre + CString(text).Bytes() + post, |pre|) + 1 == |CString(text).Bytes()|
  {
    StrLenOf(pre, text, post, 0);
  }

  // ---- The walk

  function Pack(atts: seq<Att>): seq<byte>
    requires forall i | 0 <= i < |atts| :: atts[i].Valid()
  {
    if atts == [] then [] else atts[0].Bytes() + Pack(atts[1..])
  }

  /** Where each attribute starts, and at last where the data ends. */
  function Starts(atts: seq<Att>, offset: int): seq<int>
    requires forall i | 0 <= i < |atts| :: atts[i].Valid()
  {
    if atts == [] then [offset] else [offset] + Starts(atts[1..], offset + |atts[0].Bytes()|)
  }

  /** The offsets found by AttAlignPointer and AttAddLength for attributes of the given lengths. */
  function Walk(raw: seq<byte>, offset: int, lens: seq<int>): Option<seq<int>>
    requires 0 <= offset
    decreases |lens|
  {
    if lens == [] then Some([offset])
    else if offset >= |raw| then None
    else
      var start := AlignPointer(raw, offset, lens[0]);
      match AddLength(raw, start, lens[0])
      case None => None
      case Some(end) =>
        if end < 0 then None
        else
          match Walk(raw, end, lens[1..])
          case None => None
          case Some(rest) => Some([start] + rest)
  }

  function Lens(atts: seq<Att>): (lens: seq<int>)
    ensures |lens| == |atts|
  {
    seq(|atts|, i requires 0 <= i < |atts| => atts[i].AttLen())
  }

  /** For any attributes, the walk lands on every start and on the exact end. */
  lemma {:induction false} WalkExact(pre: seq<byte>, atts: seq<Att>, post: seq<byte>)
    requires forall i | 0 <= i < |atts| :: atts[i].Valid()
    ensures Walk(pre + Pack(atts) + post, |pre|, Lens(atts)) == Some(Starts(atts, |pre|))
    decreases |atts|
  {
    hide AddLength, Att.Bytes, Att.Valid, Att.AttLen, Walk, Pack, Starts;
    if atts == [] {
      WalkNone(pre + Pack(atts) + post, |pre|);
    } else {
      var first, rest := atts[0], atts[1..];
      PackSplit(pre, atts, post);
      LengthExact(pre, first, Pack(rest) + post);
      WalkExact(pre + first.Bytes(), rest, post);
      WalkStep(pre + Pack(atts) + post, |pre|, Lens(atts));
      assert Lens(atts)[1..] == Lens(rest);
    }
  }

  /** Attribute k starts behind the k attributes before it, and the last start is the end of the data. */
  lemma {:induction false} StartsAt(atts: seq<Att>, offset: int, k: nat)
    requires k <= |atts| && forall i | 0 <= i < |atts| :: atts[i].Valid()
    ensures |Starts(atts, offset)| == |atts| + 1 && Starts(atts, offset)[k] == offset + |Pack(atts[..k])|
    ensures k < |atts| ==> |Pack(atts[..k + 1])| == |Pack(atts[..k])| + |atts[k].Bytes()|
    decreases |atts|
  {
    hide Att.Bytes, Att.Valid;
    if atts != [] {
      StartsAt(atts[1..], offset + |atts[0].Bytes()|, if k == 0 then 0 else k - 1);
      if k > 0 { assert atts[..k][1..] == atts[1..][..k - 1]; }
      if k < |atts| { assert atts[..k + 1][1..] == atts[1..][..k]; }
    }
  }

  lemma WalkNone(raw: seq<byte>, offset: nat)
    ensures Walk(raw, offset, Lens([])) == Some(Starts([], offset))
  {
  }

  lemma PackSplit(pre: seq<byte>, atts: seq<Att>, post: seq<byte>)
    requires atts != [] && forall i | 0 <= i < |atts| :: atts[i].Valid()
    ensures var first, rest := atts[0], Pack(atts[1..]);
      && pre + Pack(atts) + post == pre + first.Bytes() + (rest + post) == (pre + first.Bytes()) + rest + post
      && Starts(atts, |pre|) == [|pre|] + Starts(atts[1..], |pre + first.Bytes()|)
      && |pre| < |pre + Pack(atts) + post|
  {
    hide Att.Bytes, Pack, Starts;
    PackFirst(atts, |pre|);
    Regroup(pre, atts[0].Bytes(), Pack(atts[1..]), post);
  }

  lemma PackFirst(atts: seq<Att>, offset: int)
    requires atts != [] && forall i | 0 <= i < |atts| :: atts[i].Valid()
    ensures Pack(atts) == atts[0].Bytes() + Pack(atts[1..])
    ensures Starts(atts, offset) == [offset] + Starts(atts[1..], offset + |atts[0].Bytes()|)
  {
    hide Att.Bytes, Att.Valid;
  }

  lemma Regroup(a: seq<byte>, b: seq<byte>, c: seq<byte>, d: seq<byte>)
    ensures a + (b + c) + d == a + b + (c + d) == (a + b) + c + d
  {
  }

  lemma WalkStep(raw: seq<byte>, offset: nat, lens: seq<int>)
    requires lens != [] && offset < |raw|
    ensures AlignPointer(raw, offset, lens[0]) == offset
    ensures AddLength(raw, offset, lens[0]).Some? && AddLength(raw, offset, lens[0]).value >= 0 ==>
      var rest := Walk(raw, AddLength(raw, offset, lens[0]).value, lens[1..]);
      Walk(raw, offset, lens) == if rest.Some? then Some([offset] + rest.value) else None
  {
    hide AddLength;
  }

  // ---- By-value attributes

  /** StoreAttByVal writes the low bytes of the datum; FetchAtt reads them as an unsigned number. */
  function FetchStored(datum: nat, len: nat): nat { Number(Bytes(datum, len)) }

  /** A by-value attribute survives exactly when its datum has no bits beyond its length. */
  lemma ByValRoundTripIff(datum: nat, len: nat)
    ensures FetchStored(datum, len) == datum <==> datum < Pow256(len)
  {
    BytesIff(datum, len);
  }
}
