/** The DLMS record parser of the push and pull pages: values by type tag, the record loop over a
    page, and the encoding the parser inverts. Type tags follow section 4.1.5 of the DLMS UA Blue Book
    (IEC 62056-6-2), with one-byte lengths only. */
module DlmsRecords {
  import opened Wrappers
  import opened Bytes

  const ARRAY: byte := 0x01
  const BOOLEAN: byte := 0x03
  const BIT_STRING: byte := 0x04
  const INT32: byte := 0x05
  const UINT32: byte := 0x06
  const OCTET_STRING: byte := 0x09
  const STRING: byte := 0x0A
  const STRING_UTF8: byte := 0x0C
  const INT8: byte := 0x0F
  const INT16: byte := 0x10
  const UINT8: byte := 0x11
  const UINT16: byte := 0x12
  const INT64: byte := 0x14
  const UINT64: byte := 0x15
  const DATETIME: byte := 0x19

  /** PMESH header and DLMS header in front of the records of a page. */
  const PMESH_HEADER_SIZE := 17
  const DLMS_HEADER_SIZE := 9
  const RECORDS_START := PMESH_HEADER_SIZE + DLMS_HEADER_SIZE

  datatype DlmsValue = NoData | Bool(flag: bool) | Number(n: int) | Octets(bytes: seq<byte>)

  /** A parsed value with its type tag. */
  datatype Typed = Typed(tag: byte, value: DlmsValue)

  datatype Record = Record(id: byte, content: Typed)

  /** A record found in a page: where its payload starts, and where the next record begins. */
  datatype Found = Found(record: Record, payload: nat, next: nat)

  /** How many payload bytes a tag announces. */
  datatype Layout = Fixed(width: nat) | Counted | Unsupported

  function LayoutOf(tag: byte): Layout {
    if tag == ARRAY then Fixed(0)
    else if tag == BOOLEAN || tag == INT8 || tag == UINT8 then Fixed(1)
    else if tag == INT16 || tag == UINT16 then Fixed(2)
    else if tag == INT32 || tag == UINT32 || tag == DATETIME then Fixed(4)
    else if tag == INT64 || tag == UINT64 then Fixed(8)
    else if tag == BIT_STRING || tag == OCTET_STRING || tag == STRING || tag == STRING_UTF8 then Counted
    else Unsupported
  }

  predicate IsSigned(tag: byte) {
    tag == INT8 || tag == INT16 || tag == INT32 || tag == INT64
  }

  function BigEndian(s: seq<byte>): (r: nat) {
    if s == [] then 0 else BigEndian(s[..|s| - 1]) * 256 + s[|s| - 1]
  }

  function Power256(w: nat): (r: nat)
    ensures r > 0
  {
    if w == 0 then 1 else 256 * Power256(w - 1)
  }

  /** The last `w` bytes of a number, most significant first. */
  function ToBigEndian(n: nat, w: nat): (s: seq<byte>)
    ensures |s| == w
  {
    if w == 0 then [] else ToBigEndian(n / 256, w - 1) + [n % 256]
  }

  /** Two's complement reading of a `w`-byte number. */
  function AsSigned(n: nat, w: nat): int {
    if 2 * n >= Power256(w) then n - Power256(w) else n
  }

  function FromSigned(i: int, w: nat): nat
    requires 0 <= i + Power256(w)
  {
    if i < 0 then i + Power256(w) else i
  }

  /** The value a payload of fixed width stands for. */
  function Meaning(tag: byte, payload: seq<byte>): DlmsValue {
    if payload == [] then NoData
    else if tag == BOOLEAN then Bool(BigEndian(payload) != 0)
    else if IsSigned(tag) then Number(AsSigned(BigEndian(payload), |payload|))
    else Number(BigEndian(payload))
  }

  /** Parsing one value: nothing is parsed at the very end of the data, even for a type without payload. */
  function ParseValue(data: seq<byte>, offset: nat, tag: byte): Option<(DlmsValue, nat, nat)> {
    if offset >= |data| then None
    else match LayoutOf(tag)
      case Unsupported => None
      case Fixed(w) =>
        if offset + w > |data| then None
        else Some((Meaning(tag, data[offset..offset + w]), offset, offset + w))
      case Counted =>
        var start, len := offset + 1, data[offset];
        if start + len > |data| then None
        else Some((Octets(data[start..start + len]), start, start + len))
  }

  /** One record at an offset: id, a zero delimiter, type tag and value. */
  function ParseRecord(data: seq<byte>, offset: nat): (r: Option<Found>)
    ensures r.Some? ==> offset + 3 <= r.value.payload <= r.value.next <= |data|
  {
    if offset + 3 > |data| || data[offset + 1] != 0x00 then None
    else match ParseValue(data, offset + 3, data[offset + 2])
      case None => None
      case Some((v, payload, next)) => Some(Found(Record(data[offset], Typed(data[offset + 2], v)), payload, next))
  }

  /** The records of a page from an offset on: up to the last byte, which is the checksum, or up to
      the first record that does not parse. */
  function Scan(data: seq<byte>, offset: nat): (r: seq<Found>)
    decreases |data| - offset
  {
    if offset + 1 < |data| && ParseRecord(data, offset).Some? then
      var f := ParseRecord(data, offset).value;
      [f] + Scan(data, f.next)
    else []
  }

  function RecordsOf(fs: seq<Found>): (r: seq<Record>)
    ensures |r| == |fs|
    ensures forall i :: 0 <= i < |r| ==> r[i] == fs[i].record
  {
    if fs == [] then [] else RecordsOf(fs[..|fs| - 1]) + [fs[|fs| - 1].record]
  }

  /** The records a whole page yields; a page shorter than its headers yields none. */
  function PageRecords(data: seq<byte>): seq<Record> {
    if |data| < RECORDS_START then [] else RecordsOf(Scan(data, RECORDS_START))
  }

  /** The page is complete: long enough for its headers and with as many records as it declares. */
  predicate PageParses(data: seq<byte>, declared: byte) {
    RECORDS_START <= |data| && |PageRecords(data)| == declared
  }

  type RecordMap = map<byte, Typed>

  /** Records written into a map in order, the last one winning. */
  function Merge(m: RecordMap, rs: seq<Record>): RecordMap {
    if rs == [] then m else Merge(m, rs[..|rs| - 1])[rs[|rs| - 1].id := rs[|rs| - 1].content]
  }

  // ---- the parser as the source runs it ----

  /** Bytes shifted into place and combined. */
  function Pack2(b1: int, b0: int): int {
    b1 * 0x100 + b0
  }

  function Pack4(b3: int, b2: int, b1: int, b0: int): int {
    b3 * 0x100_0000 + b2 * 0x1_0000 + b1 * 0x100 + b0
  }

  /** A number of a given width, in two's complement when its type is signed. */
  function AsNumber(n: int, signed: bool, half: int): DlmsValue {
    if signed && n >= half then Number(n - 2 * half) else Number(n)
  }

  /** Parses one value by its type tag, advancing the offset. */
  method ParseByType(data: seq<byte>, offset: nat, tag: byte) returns (ok: bool, next: nat, value: DlmsValue, payload: nat)
    ensures ok <==> ParseValue(data, offset, tag).Some?
    ensures ok ==> ParseValue(data, offset, tag) == Some((value, payload, next))
  {
    ok, next, value, payload := false, offset, NoData, offset;
    if offset >= |data| {
      return;
    }
    if tag == ARRAY {
      ok := true;
    } else if tag == BOOLEAN || tag == INT8 || tag == UINT8 {
      var n: int := data[offset];
      value := if tag == BOOLEAN then Bool(n != 0) else AsNumber(n, tag == INT8, 0x80);
      Meaning1(tag, data[offset..offset + 1]);
      ok, next := true, offset + 1;
    } else if tag == INT16 || tag == UINT16 || tag == INT32 || tag == UINT32 || tag == DATETIME || tag == INT64 || tag == UINT64 {
      ok, next, value := ParseWide(data, offset, tag);
    } else if tag == BIT_STRING || tag == OCTET_STRING || tag == STRING || tag == STRING_UTF8 {
      ok, next, value, payload := ParseCounted(data, offset, tag);
    }
  }

  /** A number of two, four or eight bytes. */
  method ParseWide(data: seq<byte>, offset: nat, tag: byte) returns (ok: bool, next: nat, value: DlmsValue)
    requires offset < |data| && LayoutOf(tag).Fixed? && LayoutOf(tag).width >= 2
    ensures ok <==> ParseValue(data, offset, tag).Some?
    ensures ok ==> ParseValue(data, offset, tag) == Some((value, offset, next))
  {
    ok, next, value := false, offset, NoData;
    if tag == INT16 || tag == UINT16 {
      if offset + 2 > |data| { return; }
      value := AsNumber(Pack2(data[offset], data[offset + 1]), tag == INT16, 0x8000);
      Meaning2(tag, data[offset..offset + 2]);
      next := offset + 2;
    } else if tag == INT32 || tag == UINT32 || tag == DATETIME {
      if offset + 4 > |data| { return; }
      var n := Pack4(data[offset], data[offset + 1], data[offset + 2], data[offset + 3]);
      value := AsNumber(n, tag == INT32, 0x8000_0000);
      Meaning4(tag, data[offset..offset + 4]);
      next := offset + 4;
    } else {
      if offset + 8 > |data| { return; }
      var hi := Pack4(data[offset], data[offset + 1], data[offset + 2], data[offset + 3]);
      var lo := Pack4(data[offset + 4], data[offset + 5], data[offset + 6], data[offset + 7]);
      value := AsNumber(hi * 0x1_0000_0000 + lo, tag == INT64, 0x8000_0000_0000_0000);
      Meaning8(tag, data[offset..offset + 8]);
      next := offset + 8;
    }
    ok := true;
  }

  /** A string with its length in front of it. */
  method ParseCounted(data: seq<byte>, offset: nat, tag: byte) returns (ok: bool, next: nat, value: DlmsValue, payload: nat)
    requires offset < |data| && LayoutOf(tag).Counted?
    ensures ok <==> ParseValue(data, offset, tag).Some?
    ensures ok ==> ParseValue(data, offset, tag) == Some((value, payload, next))
  {
    var length := data[offset];
    ok, next, value, payload := false, offset + 1, NoData, offset + 1;
    if next + length > |data| {
      return;
    }
    var octets := CopyOctets(data, next, length);
    ok, value, next := true, Octets(octets), next + length;
  }

  method CopyOctets(data: seq<byte>, start: nat, length: nat) returns (octets: seq<byte>)
    requires start + length <= |data|
    ensures octets == data[start..start + length]
  {
    octets := [];
    var i := 0;
    while i < length
      invariant 0 <= i <= length && |octets| == i
      invariant forall j :: 0 <= j < i ==> octets[j] == data[start + j]
    {
      octets := octets + [data[start + i]];
      i := i + 1;
    }
  }

  lemma Meaning1(tag: byte, s: seq<byte>)
    requires |s| == 1 && (tag == BOOLEAN || tag == INT8 || tag == UINT8)
    ensures Meaning(tag, s) == if tag == BOOLEAN then Bool(s[0] != 0) else AsNumber(s[0], tag == INT8, 0x80)
  {
    BigEndian1(s);
  }

  lemma Meaning2(tag: byte, s: seq<byte>)
    requires |s| == 2 && (tag == INT16 || tag == UINT16)
    ensures Meaning(tag, s) == AsNumber(Pack2(s[0], s[1]), tag == INT16, 0x8000)
  {
    BigEndian2(s);
  }

  lemma Meaning4(tag: byte, s: seq<byte>)
    requires |s| == 4 && (tag == INT32 || tag == UINT32 || tag == DATETIME)
    ensures Meaning(tag, s) == AsNumber(Pack4(s[0], s[1], s[2], s[3]), tag == INT32, 0x8000_0000)
  {
    BigEndian4(s);
  }

  lemma Meaning8(tag: byte, s: seq<byte>)
    requires |s| == 8 && (tag == INT64 || tag == UINT64)
    ensures var n := Pack4(s[0], s[1], s[2], s[3]) * 0x1_0000_0000 + Pack4(s[4], s[5], s[6], s[7]);
      Meaning(tag, s) == AsNumber(n, tag == INT64, 0x8000_0000_0000_0000)
  {
    BigEndian8(s);
  }

  lemma BigEndian1(s: seq<byte>)
    requires |s| == 1
    ensures BigEndian(s) == s[0]
    ensures Power256(1) == 0x100
  {
    assert s[..0] == [] && BigEndian(s[..0]) == 0;
    assert Power256(0) == 1;
  }

  lemma BigEndian2(s: seq<byte>)
    requires |s| == 2
    ensures BigEndian(s) == Pack2(s[0], s[1])
    ensures Power256(2) == 0x1_0000
  {
    BigEndian1(s[..1]);
  }

  lemma BigEndian4(s: seq<byte>)
    requires |s| == 4
    ensures BigEndian(s) == Pack4(s[0], s[1], s[2], s[3])
    ensures Power256(4) == 0x1_0000_0000
  {
    BigEndian2(s[..2]);
    assert s[..3][..2] == s[..2];
    assert Power256(3) == 0x100_0000;
  }

  lemma BigEndian8(s: seq<byte>)
    requires |s| == 8
    ensures BigEndian(s) == Pack4(s[0], s[1], s[2], s[3]) * 0x1_0000_0000 + Pack4(s[4], s[5], s[6], s[7])
    ensures Power256(8) == 0x1_0000_0000_0000_0000
  {
    BigEndian4(s[..4]);
    assert s[..5][..4] == s[..4] && s[..6][..5] == s[..5] && s[..7][..6] == s[..6];
    assert BigEndian(s[..5]) == BigEndian(s[..4]) * 256 + s[4];
    assert BigEndian(s[..6]) == BigEndian(s[..5]) * 256 + s[5];
    assert BigEndian(s[..7]) == BigEndian(s[..6]) * 256 + s[6];
    assert Power256(5) == 0x100_0000_0000 && Power256(6) == 0x1_0000_0000_0000;
    assert Power256(7) == 0x100_0000_0000_0000;
  }

  // ---- values by the number of their tag ----

  /** A record needs its three header bytes and a zero between id and tag. */
  lemma HeaderRefused(data: seq<byte>, offset: nat)
    requires offset + 3 > |data| || data[offset + 1] != 0
    ensures ParseRecord(data, offset) == None
  {
  }

  /** Nothing is parsed at the end of the data, not even a type without payload. */
  lemma NothingAtTheEnd(data: seq<byte>, offset: nat, tag: byte)
    requires offset >= |data|
    ensures ParseValue(data, offset, tag) == None
  {
  }

  /** Types of at most one payload byte, and counted ones; an unknown type is never parsed. */
  lemma ShortValues(data: seq<byte>, offset: nat, tag: byte)
    requires offset < |data|
    ensures tag == 0x01 ==> ParseValue(data, offset, tag) == Some((NoData, offset, offset))
    ensures tag == 0x03 ==> ParseValue(data, offset, tag) == Some((Bool(data[offset] != 0), offset, offset + 1))
    ensures tag == 0x0F || tag == 0x11 ==>
      ParseValue(data, offset, tag) == Some((AsNumber(data[offset], tag == 0x0F, 0x80), offset, offset + 1))
    ensures tag == 0x04 || tag == 0x09 || tag == 0x0A || tag == 0x0C ==>
      var start, end := offset + 1, offset + 1 + data[offset];
      ParseValue(data, offset, tag) == if end > |data| then None else Some((Octets(data[start..end]), start, end))
    ensures tag !in {0x01, 0x03, 0x04, 0x05, 0x06, 0x09, 0x0A, 0x0C, 0x0F, 0x10, 0x11, 0x12, 0x14, 0x15, 0x19} ==>
      ParseValue(data, offset, tag) == None
  {
    if tag == 0x03 || tag == 0x0F || tag == 0x11 {
      Meaning1(tag, data[offset..offset + 1]);
    }
  }

  /** Numbers of two, four and eight bytes, most significant byte first; only 0x10, 0x05 and 0x14 are signed. */
  lemma WideValues(data: seq<byte>, offset: nat, tag: byte)
    requires offset < |data|
    ensures tag == 0x10 || tag == 0x12 ==>
      var end: nat := offset + 2;
      ParseValue(data, offset, tag) ==
        if end > |data| then None else Some((AsNumber(Pack2(data[offset], data[offset + 1]), tag == 0x10, 0x8000), offset, end))
    ensures tag == 0x05 || tag == 0x06 || tag == 0x19 ==>
      var end: nat := offset + 4;
      ParseValue(data, offset, tag) ==
        if end > |data| then None
        else
          var n := Pack4(data[offset], data[offset + 1], data[offset + 2], data[offset + 3]);
          Some((AsNumber(n, tag == 0x05, 0x8000_0000), offset, end))
    ensures tag == 0x14 || tag == 0x15 ==>
      var end: nat := offset + 8;
      ParseValue(data, offset, tag) ==
        if end > |data| then None
        else
          var high := Pack4(data[offset], data[offset + 1], data[offset + 2], data[offset + 3]);
          var low := Pack4(data[offset + 4], data[offset + 5], data[offset + 6], data[offset + 7]);
          Some((AsNumber(high * 0x1_0000_0000 + low, tag == 0x14, 0x8000_0000_0000_0000), offset, end))
  {
    if (tag == 0x10 || tag == 0x12) && offset + 2 <= |data| {
      Meaning2(tag, data[offset..offset + 2]);
    } else if (tag == 0x05 || tag == 0x06 || tag == 0x19) && offset + 4 <= |data| {
      Meaning4(tag, data[offset..offset + 4]);
    } else if (tag == 0x14 || tag == 0x15) && offset + 8 <= |data| {
      Meaning8(tag, data[offset..offset + 8]);
    }
  }

  // ---- the encoding the parser inverts ----

  /** The value fits its type: a counted string of at most 255 bytes, a number in the range of its width. */
  predicate Encodable(t: Typed) {
    match LayoutOf(t.tag)
    case Unsupported => false
    case Counted => t.value.Octets? && |t.value.bytes| <= 255
    case Fixed(w) =>
      if t.tag == ARRAY then t.value.NoData?
      else if t.tag == BOOLEAN then t.value.Bool?
      else
        t.value.Number? &&
        if IsSigned(t.tag) then 0 <= 2 * t.value.n + Power256(w) < 2 * Power256(w) else 0 <= t.value.n < Power256(w)
  }

  function EncodeValue(t: Typed): (s: seq<byte>)
    requires Encodable(t)
  {
    match LayoutOf(t.tag)
    case Counted => [|t.value.bytes|] + t.value.bytes
    case Fixed(w) =>
      if t.tag == ARRAY then []
      else if t.tag == BOOLEAN then [if t.value.flag then 1 else 0]
      else if IsSigned(t.tag) then ToBigEndian(FromSigned(t.value.n, w), w)
      else ToBigEndian(t.value.n, w)
  }

  function Encode(r: Record): (s: seq<byte>)
    requires Encodable(r.content)
  {
    [r.id, 0x00, r.content.tag] + EncodeValue(r.content)
  }

  predicate AllEncodable(rs: seq<Record>) {
    forall i :: 0 <= i < |rs| ==> Encodable(rs[i].content)
  }

  function EncodeAll(rs: seq<Record>): (s: seq<byte>)
    requires AllEncodable(rs)
  {
    if rs == [] then [] else Encode(rs[0]) + EncodeAll(rs[1..])
  }

  lemma {:induction false} BigEndianInverts(n: nat, w: nat)
    requires n < Power256(w)
    ensures BigEndian(ToBigEndian(n, w)) == n
  {
    if w > 0 {
      BigEndianInverts(n / 256, w - 1);
      assert ToBigEndian(n, w)[..w - 1] == ToBigEndian(n / 256, w - 1);
    }
  }

  lemma MeaningInverts(t: Typed)
    requires Encodable(t) && LayoutOf(t.tag).Fixed?
    ensures |EncodeValue(t)| == LayoutOf(t.tag).width && Meaning(t.tag, EncodeValue(t)) == t.value
  {
    var w := LayoutOf(t.tag).width;
    if t.tag == BOOLEAN {
      var b := EncodeValue(t);
      assert b[..0] == [] && BigEndian(b) == b[0];
    } else if t.tag != ARRAY {
      BigEndianInverts(if IsSigned(t.tag) then FromSigned(t.value.n, w) else t.value.n, w);
    }
  }

  lemma SliceAt(data: seq<byte>, offset: nat, skip: nat, e: seq<byte>)
    requires offset <= |data| && skip + |e| <= |data[offset..]| && data[offset..][skip..skip + |e|] == e
    ensures data[offset + skip..offset + skip + |e|] == e
  {
  }

  /** A value that starts here, followed by at least one more byte, is parsed as it was encoded. */
  lemma ValueInverts(data: seq<byte>, at: nat, t: Typed)
    requires Encodable(t)
    requires at + |EncodeValue(t)| < |data| && data[at..at + |EncodeValue(t)|] == EncodeValue(t)
    ensures var p := ParseValue(data, at, t.tag);
      p.Some? && p.value.0 == t.value && p.value.2 == at + |EncodeValue(t)|
  {
    var v := EncodeValue(t);
    if LayoutOf(t.tag).Fixed? {
      MeaningInverts(t);
    } else {
      assert data[at] == v[0];
      assert data[at + 1..at + |v|] == v[1..] == t.value.bytes;
    }
  }

  /** A record that starts here, followed by anything, is found as it was encoded. */
  lemma RecordInverts(data: seq<byte>, offset: nat, r: Record, rest: seq<byte>)
    requires Encodable(r.content) && rest != []
    requires offset <= |data| && data[offset..] == Encode(r) + rest
    ensures var f := ParseRecord(data, offset);
      f.Some? && f.value.record == r && f.value.next == offset + |Encode(r)|
  {
    var v := EncodeValue(r.content);
    var tail := data[offset..];
    assert tail == [r.id, 0x00, r.content.tag] + v + rest;
    assert |tail| == |data| - offset;
    assert tail[3..3 + |v|] == v;
    SliceAt(data, offset, 3, v);
    assert data[offset] == tail[0] && data[offset + 1] == tail[1] && data[offset + 2] == tail[2];
    ValueInverts(data, offset + 3, r.content);
  }

  /** Scanning an encoded record list, up to the checksum byte, finds exactly those records. */
  lemma {:induction false} ScanInverts(data: seq<byte>, offset: nat, rs: seq<Record>, checksum: byte)
    requires AllEncodable(rs)
    requires offset <= |data| && data[offset..] == EncodeAll(rs) + [checksum]
    ensures RecordsOf(Scan(data, offset)) == rs
    decreases |rs|
  {
    if rs == [] {
      assert |data| == offset + 1;
    } else {
      var e, rest := Encode(rs[0]), EncodeAll(rs[1..]) + [checksum];
      assert data[offset..] == e + rest;
      RecordInverts(data, offset, rs[0], rest);
      var f := ParseRecord(data, offset).value;
      DropFront(data, offset, e, rest);
      ScanInverts(data, f.next, rs[1..], checksum);
      assert Scan(data, offset) == [f] + Scan(data, f.next);
      RecordsOfCons(f, Scan(data, f.next));
    }
  }

  lemma DropFront(data: seq<byte>, offset: nat, e: seq<byte>, rest: seq<byte>)
    requires offset <= |data| && data[offset..] == e + rest
    ensures |data| == offset + |e| + |rest| && data[offset + |e|..] == rest
  {
    assert data[offset..][|e|..] == rest;
    assert data[offset + |e|..] == data[offset..][|e|..];
  }

  lemma RecordsOfCons(f: Found, fs: seq<Found>)
    ensures RecordsOf([f] + fs) == [f.record] + RecordsOf(fs)
  {
  }

  /** Round trip of a page: headers, encoded records and a checksum byte give back the records, so
      the page is complete exactly when it declares their number, and the map gets them in order. */
  lemma PageRoundTrip(header: seq<byte>, rs: seq<Record>, checksum: byte, declared: byte, m: RecordMap)
    requires |header| == RECORDS_START && AllEncodable(rs)
    ensures var page := header + EncodeAll(rs) + [checksum];
      PageRecords(page) == rs && (PageParses(page, declared) <==> declared == |rs|) &&
      Merge(m, PageRecords(page)) == Merge(m, rs)
  {
    var page := header + EncodeAll(rs) + [checksum];
    assert page[RECORDS_START..] == EncodeAll(rs) + [checksum];
    ScanInverts(page, RECORDS_START, rs, checksum);
  }

  // ---- merging ----

  function Ids(rs: seq<Record>): set<byte> {
    set r | r in rs :: r.id
  }

  /** Merging overwrites exactly the ids it mentions, with content that does not depend on what was there. */
  lemma {:induction false} MergeContents(m: RecordMap, rs: seq<Record>)
    ensures Merge(m, rs).Keys == m.Keys + Ids(rs)
    ensures forall k :: k in Merge(m, rs) && k !in Ids(rs) ==> Merge(m, rs)[k] == m[k]
    ensures forall k :: k in Ids(rs) ==> k in Merge(map[], rs) && k in Merge(m, rs) && Merge(m, rs)[k] == Merge(map[], rs)[k]
    ensures Merge(map[], rs).Keys == Ids(rs)
  {
    if rs != [] {
      var before, last := rs[..|rs| - 1], rs[|rs| - 1];
      MergeContents(m, before);
      assert rs == before + [last];
      assert Ids(rs) == Ids(before) + {last.id};
    }
  }
}
