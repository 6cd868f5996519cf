/** The second reader of profile pages: the pull and on-demand side walks the records with a one-byte
    offset and reads as many as the page declares. Where the two readers see the same fields. */
module ProfileFields {
  import opened Wrappers
  import opened Bytes
  import opened DlmsRecords

  const NONE: byte := 0x00
  const ENUM: byte := 0x16

  /** The records start behind the DLMS header; the byte before them is their number. */
  const FIELDS_START: byte := 9

  /** A field as it is read: id, status, type tag, and the bytes handed to the value decoder. */
  datatype Field = Field(id: byte, status: byte, tag: byte, start: nat, payload: seq<byte>)

  /** Every byte a one-byte offset and two one-byte lengths can reach. */
  const REACH := 255 + 4 + 255

  /** The receive buffer behind the mesh header. */
  type Data = d: seq<byte> | REACH <= |d| witness seq(REACH, _ => 0)

  /** How far behind the start of a record its data begins; 0 for a type this reader does not know. */
  function DataOffset(tag: byte): (r: byte) {
    if tag == OCTET_STRING || tag == STRING then 4
    else if tag == ENUM then 3
    else match LayoutOf(tag)
      case Fixed(_) => 3
      case _ => 0
  }

  function FieldLength(data: Data, offset: byte, tag: byte): (r: byte) {
    if tag == OCTET_STRING || tag == STRING then data[offset + 3]
    else if tag == ENUM then 1
    else match LayoutOf(tag)
      case Fixed(w) => w
      case _ => 0
  }

  function FieldAt(data: Data, offset: byte): Field {
    var tag := data[offset + 2];
    var start := offset + DataOffset(tag);
    Field(data[offset], data[offset + 1], tag, start, data[start..start + FieldLength(data, offset, tag)])
  }

  /** The one-byte offset of the record after this one. */
  function NextOffset(data: Data, offset: byte): byte {
    var tag := data[offset + 2];
    (offset + DataOffset(tag) + FieldLength(data, offset, tag)) % 256
  }

  /** One field, and the offset behind it. */
  datatype Reading = Reading(field: Field, next: byte)

  function Reader(data: Data): byte -> Reading {
    (offset: byte) => Reading(FieldAt(data, offset), NextOffset(data, offset))
  }

  /** The fields read from an offset on: at most `count`, none from the end of the data on. */
  function Fields(read: byte -> Reading, length: nat, offset: byte, count: nat): (r: seq<Field>)
    decreases count
  {
    if count == 0 || offset >= length then []
    else [read(offset).field] + Fields(read, length, read(offset).next, count - 1)
  }

  /** `read` reads these data. The loop carries it as a value, so that the solver does not unfold the reading
      of a field at every step. */
  ghost predicate Reads(read: byte -> Reading, data: Data) {
    forall offset: byte {:trigger FieldAt(data, offset)} ::
      read(offset) == Reading(FieldAt(data, offset), NextOffset(data, offset))
  }

  /** Determines where the data of a field lies, type by type. */
  method LogDlmsDataType(tag: byte, offset: byte, data: Data) returns (dataOffset: byte, fieldLength: byte)
    ensures dataOffset == DataOffset(tag) && fieldLength == FieldLength(data, offset, tag)
  {
    dataOffset, fieldLength := 0, 0;
    if tag == ARRAY {
      dataOffset := 3;
    } else if tag == OCTET_STRING || tag == STRING {
      fieldLength := data[offset + 3];
      dataOffset := 4;
    } else if tag == BOOLEAN || tag == INT8 || tag == UINT8 || tag == ENUM {
      fieldLength, dataOffset := 1, 3;
    } else if tag == UINT16 || tag == INT16 {
      fieldLength, dataOffset := 2, 3;
    } else if tag == UINT64 || tag == INT64 {
      fieldLength, dataOffset := 8, 3;
    } else if tag == UINT32 || tag == INT32 || tag == DATETIME {
      fieldLength, dataOffset := 4, 3;
    }
  }

  /** Reads the field at an offset and moves the offset behind it. */
  method ReadField(data: Data, offset: byte, ghost read: byte -> Reading) returns (field: Field, next: byte)
    requires Reads(read, data)
    ensures Reading(field, next) == read(offset)
  {
    var tag := data[offset + 2];
    var dataOffset, fieldLength := LogDlmsDataType(tag, offset, data);
    var start := offset + dataOffset;
    field := Field(data[offset], data[offset + 1], tag, start, data[start..start + fieldLength]);
    next := (offset + dataOffset + fieldLength) % 256;
    assert field == FieldAt(data, offset);
  }

  /** The bytes of every type, by the number of its tag: three header bytes and a payload of fixed size,
      four and a counted one, or nothing at all. */
  lemma FieldByTag(data: Data, offset: byte)
    ensures var tag, f, here: int := data[offset + 2], FieldAt(data, offset), offset;
      var size: int :=
        if tag == 0x01 then 0
        else if tag in {0x03, 0x0F, 0x11, 0x16} then 1
        else if tag in {0x10, 0x12} then 2
        else if tag in {0x05, 0x06, 0x19} then 4
        else if tag in {0x14, 0x15} then 8
        else if tag in {0x09, 0x0A} then data[offset + 3]
        else -1;
      f.id == data[offset] && f.status == data[offset + 1] && f.tag == tag &&
      if size < 0 then f.payload == [] && NextOffset(data, offset) == offset
      else
        f.start == here + (if tag in {0x09, 0x0A} then 4 else 3) && f.payload == data[f.start..f.start + size] &&
        NextOffset(data, offset) == (f.start + size) % 256
  {
  }

  /** Fields without a type are read and not stored; all others are. */
  lemma {:induction false} StoredIffTyped(fs: seq<Field>, id: byte, f: Field)
    ensures f in Stored(fs, id) <==> f in fs && f.id == id && f.tag != 0
  {
    if fs != [] {
      StoredIffTyped(fs[..|fs| - 1], id, f);
      assert fs == fs[..|fs| - 1] + [fs[|fs| - 1]];
    }
  }

  /** What is stored under an id is in the order in which it was read. */
  lemma {:induction false} StoredInOrder(fs: seq<Field>, gs: seq<Field>, id: byte)
    ensures Stored(fs + gs, id) == Stored(fs, id) + Stored(gs, id)
  {
    if gs == [] {
      assert fs + gs == fs;
    } else {
      var before, last := gs[..|gs| - 1], gs[|gs| - 1];
      StoredInOrder(fs, before, id);
      assert (fs + gs)[..|fs + gs| - 1] == fs + before && (fs + gs)[|fs + gs| - 1] == last;
    }
  }

  /** The field loop: a field with a type is stored under its id, behind what is already there. */
  method ParseFields(data: Data, length: nat, ghost read: byte -> Reading)
    returns (visited: seq<Field>, stored: map<byte, seq<Field>>)
    requires Reads(read, data)
    ensures visited == Fields(read, length, FIELDS_START, data[8])
    ensures Collects(stored, visited)
  {
    visited, stored := [], map[];
    var offset: byte, total: byte, i: byte := FIELDS_START, data[8], 0;
    ghost var all := Fields(read, length, offset, total);
    while i < total && offset < length
      invariant 0 <= i <= total
      invariant visited + Fields(read, length, offset, total - i) == all
      invariant Collects(stored, visited)
      decreases total - i
    {
      var field, next := ReadField(data, offset, read);
      OneMoreField(visited, read, length, offset, total - i);
      OneMoreStored(stored, visited, field);
      visited := visited + [field];
      if field.tag != NONE {
        stored := stored[field.id := Under(stored, field.id) + [field]];
      }
      offset := next;
      i := i + 1;
    }
  }

  /** A profile page as every profile is read. */
  method ParseProfile(data: Data, length: nat) returns (visited: seq<Field>, stored: map<byte, seq<Field>>)
    ensures visited == Fields(Reader(data), length, FIELDS_START, data[8])
    ensures Collects(stored, visited)
  {
    visited, stored := ParseFields(data, length, Reader(data));
  }

  /** The fields stored under an id, in the order they were read. */
  function Stored(fs: seq<Field>, id: byte): (r: seq<Field>) {
    if fs == [] then []
    else Stored(fs[..|fs| - 1], id) + (if fs[|fs| - 1].tag != NONE && fs[|fs| - 1].id == id then [fs[|fs| - 1]] else [])
  }

  function Under(stored: map<byte, seq<Field>>, id: byte): seq<Field> {
    if id in stored then stored[id] else []
  }

  /** Under every id there are the fields that were read with it. */
  predicate Collects(stored: map<byte, seq<Field>>, fs: seq<Field>) {
    forall id: byte :: Under(stored, id) == Stored(fs, id)
  }

  lemma OneMoreStored(stored: map<byte, seq<Field>>, fs: seq<Field>, f: Field)
    requires Collects(stored, fs)
    ensures Collects(if f.tag == NONE then stored else stored[f.id := Under(stored, f.id) + [f]], fs + [f])
  {
    assert (fs + [f])[..|fs|] == fs;
    var more := if f.tag == NONE then stored else stored[f.id := Under(stored, f.id) + [f]];
    forall id: byte ensures Under(more, id) == Stored(fs + [f], id) {
      assert Under(stored, id) == Stored(fs, id);
    }
  }

  lemma OneMoreField(visited: seq<Field>, read: byte -> Reading, length: nat, offset: byte, count: nat)
    requires count > 0 && offset < length
    ensures (visited + [read(offset).field]) + Fields(read, length, read(offset).next, count - 1)
      == visited + Fields(read, length, offset, count)
  {
  }

  // ---- where the two readers agree ----

  /** Types both readers know. */
  predicate Shared(tag: byte) {
    LayoutOf(tag).Fixed? || tag == OCTET_STRING || tag == STRING
  }

  /** The same record, seen by the page parser in the whole frame and by this reader behind the mesh header. */
  predicate Same(found: Found, f: Field) {
    f.id == found.record.id && f.status == 0 && f.tag == found.record.content.tag &&
    f.start + PMESH_HEADER_SIZE == found.payload && f.start + |f.payload| + PMESH_HEADER_SIZE == found.next &&
    found.record.content.value ==
      (if f.tag == OCTET_STRING || f.tag == STRING then Octets(f.payload) else Meaning(f.tag, f.payload))
  }

  predicate AllSame(found: seq<Found>, fs: seq<Field>) {
    |found| == |fs| && forall i :: 0 <= i < |fs| ==> Same(found[i], fs[i])
  }

  /** All records are of shared types, and end within the DLMS data and within reach of the offset byte. */
  predicate Readable(found: seq<Found>, length: nat) {
    forall i :: 0 <= i < |found| ==>
      Shared(found[i].record.content.tag) && found[i].next - PMESH_HEADER_SIZE <= length &&
      found[i].next - PMESH_HEADER_SIZE < 256
  }

  /** The bytes behind the mesh header, seen from the frame. */
  lemma BehindHeader(buffer: seq<byte>, total: nat, from: nat, to: nat)
    requires from <= to && PMESH_HEADER_SIZE + to <= total <= |buffer|
    ensures buffer[PMESH_HEADER_SIZE..][from..to] == buffer[..total][PMESH_HEADER_SIZE + from..PMESH_HEADER_SIZE + to]
    ensures forall i :: from <= i < to ==> buffer[PMESH_HEADER_SIZE..][i] == buffer[..total][PMESH_HEADER_SIZE + i]
  {
    var data, page := buffer[PMESH_HEADER_SIZE..], buffer[..total];
    forall i | from <= i < to ensures data[i] == page[PMESH_HEADER_SIZE + i] {
      assert data[i] == buffer[PMESH_HEADER_SIZE + i];
    }
    var a, b := data[from..to], page[PMESH_HEADER_SIZE + from..PMESH_HEADER_SIZE + to];
    forall j | 0 <= j < to - from ensures a[j] == b[j] {
      assert a[j] == data[from + j] && b[j] == page[PMESH_HEADER_SIZE + (from + j)];
    }
  }

  /** The page parser finds a record of a shared type at an offset that this reader can reach. */
  predicate SharedAt(buffer: seq<byte>, total: nat, offset: byte) {
    PMESH_HEADER_SIZE + REACH <= |buffer| && total <= |buffer| &&
    var r := ParseRecord(buffer[..total], PMESH_HEADER_SIZE + offset);
    r.Some? && Shared(r.value.record.content.tag) && r.value.next - PMESH_HEADER_SIZE < 256
  }

  /** A type of fixed width. */
  lemma SameFixed(buffer: seq<byte>, total: nat, offset: byte)
    requires SharedAt(buffer, total, offset) && LayoutOf(buffer[PMESH_HEADER_SIZE..][offset + 2]).Fixed?
    ensures var r := ParseRecord(buffer[..total], PMESH_HEADER_SIZE + offset).value;
      var data := buffer[PMESH_HEADER_SIZE..];
      Same(r, FieldAt(data, offset)) && NextOffset(data, offset) == r.next - PMESH_HEADER_SIZE
  {
    var page, data := buffer[..total], buffer[PMESH_HEADER_SIZE..];
    var tag := data[offset + 2];
    var w := LayoutOf(tag).width;
    BehindHeader(buffer, total, offset, offset + 3);
    BehindHeader(buffer, total, offset + 3, offset + 3 + w);
    var r, f, at := ParseRecord(page, PMESH_HEADER_SIZE + offset).value, FieldAt(data, offset), PMESH_HEADER_SIZE + offset + 3;
    assert FieldLength(data, offset, tag) == w && DataOffset(tag) == 3;
    assert r.payload == at && r.next == at + w && r.record.content.value == Meaning(tag, page[at..at + w]);
    assert f.payload == data[offset + 3..offset + 3 + w] == page[at..at + w];
  }

  /** A string, with its length in front of it. */
  lemma SameCounted(buffer: seq<byte>, total: nat, offset: byte)
    requires SharedAt(buffer, total, offset) && LayoutOf(buffer[PMESH_HEADER_SIZE..][offset + 2]).Counted?
    ensures var r := ParseRecord(buffer[..total], PMESH_HEADER_SIZE + offset).value;
      var data := buffer[PMESH_HEADER_SIZE..];
      Same(r, FieldAt(data, offset)) && NextOffset(data, offset) == r.next - PMESH_HEADER_SIZE
  {
    var page, data := buffer[..total], buffer[PMESH_HEADER_SIZE..];
    var tag, len := data[offset + 2], data[offset + 3];
    BehindHeader(buffer, total, offset, offset + 4);
    BehindHeader(buffer, total, offset + 4, offset + 4 + len);
    var r, f, at := ParseRecord(page, PMESH_HEADER_SIZE + offset).value, FieldAt(data, offset), PMESH_HEADER_SIZE + offset + 4;
    assert FieldLength(data, offset, tag) == len && DataOffset(tag) == 4;
    assert r.payload == at && r.next == at + len && r.record.content.value == Octets(page[at..at + len]);
    assert f.payload == data[offset + 4..offset + 4 + len] == page[at..at + len];
  }

  /** A record the page parser finds is the field this reader finds in the same place. */
  lemma SameRecord(buffer: seq<byte>, total: nat, offset: byte)
    requires SharedAt(buffer, total, offset)
    ensures var r := ParseRecord(buffer[..total], PMESH_HEADER_SIZE + offset).value;
      var data := buffer[PMESH_HEADER_SIZE..];
      Same(r, FieldAt(data, offset)) && NextOffset(data, offset) == r.next - PMESH_HEADER_SIZE
  {
    BehindHeader(buffer, total, offset, offset + 3);
    if LayoutOf(buffer[PMESH_HEADER_SIZE..][offset + 2]).Fixed? {
      SameFixed(buffer, total, offset);
    } else {
      SameCounted(buffer, total, offset);
    }
  }

  /** Where the last of these records ends, counted behind the mesh header. */
  function EndOf(found: seq<Found>, offset: nat): int {
    if found == [] then offset else found[|found| - 1].next - PMESH_HEADER_SIZE
  }

  /** The fields are the first `count` records; a count beyond the records is cut off at the last
      record exactly when the DLMS data ends there. */
  predicate Agree(found: seq<Found>, fs: seq<Field>, count: nat, offset: nat, length: nat) {
    if count <= |found| then AllSame(found[..count], fs)
    else |found| <= |fs| && AllSame(found, fs[..|found|]) && (|fs| == |found| <==> EndOf(found, offset) >= length)
  }

  lemma AgreeOnOneMore(f: Found, g: Field, found: seq<Found>, fs: seq<Field>, count: nat, offset: nat, length: nat)
    requires Same(f, g) && f.next >= PMESH_HEADER_SIZE
    requires Agree(found, fs, count, f.next - PMESH_HEADER_SIZE, length)
    ensures Agree([f] + found, [g] + fs, count + 1, offset, length)
  {
    if count <= |found| {
      assert ([f] + found)[..count + 1] == [f] + found[..count];
    } else {
      assert ([g] + fs)[..|found| + 1] == [g] + fs[..|found|];
    }
  }

  lemma ReadableRest(f: Found, rest: seq<Found>, length: nat)
    requires Readable([f] + rest, length)
    ensures Readable(rest, length) && Readable([f], length)
  {
    forall i | 0 <= i < |rest| ensures rest[i] == ([f] + rest)[i + 1] {}
    assert ([f] + rest)[0] == f;
  }

  /** From this offset on, this reader meets these records one after the other. */
  predicate Chain(read: byte -> Reading, offset: int, found: seq<Found>)
    decreases |found|
  {
    found == [] ||
    (0 <= offset < 256 && Same(found[0], read(offset).field) &&
     offset < read(offset).next == found[0].next - PMESH_HEADER_SIZE &&
     Chain(read, found[0].next - PMESH_HEADER_SIZE, found[1..]))
  }

  /** The records the page parser finds are met by this reader in the same places. */
  lemma {:induction false} ScanIsChain(buffer: seq<byte>, total: nat, length: nat, offset: nat)
    requires PMESH_HEADER_SIZE + REACH <= |buffer| && total <= |buffer|
    requires Readable(Scan(buffer[..total], PMESH_HEADER_SIZE + offset), length)
    ensures Chain(Reader(buffer[PMESH_HEADER_SIZE..]), offset, Scan(buffer[..total], PMESH_HEADER_SIZE + offset))
    decreases total - offset
  {
    var page := buffer[..total];
    var found := Scan(page, PMESH_HEADER_SIZE + offset);
    if found != [] {
      var f := ParseRecord(page, PMESH_HEADER_SIZE + offset).value;
      var rest := Scan(page, f.next);
      assert found == [f] + rest && found[1..] == rest && found[0] == f;
      ReadableRest(f, rest, length);
      ScanIsChain(buffer, total, length, f.next - PMESH_HEADER_SIZE);
      SameRecord(buffer, total, offset);
    }
  }

  /** Reading along a chain gives its records, as long as there are records to read. */
  lemma {:induction false} ChainAgrees(read: byte -> Reading, length: nat, offset: byte, found: seq<Found>, count: nat)
    requires Chain(read, offset, found) && Readable(found, length)
    ensures Agree(found, Fields(read, length, offset, count), count, offset, length)
    decreases count
  {
    if count > 0 && found != [] {
      var f, rest, here := found[0], found[1..], read(offset);
      assert found == [f] + rest;
      ReadableRest(f, rest, length);
      assert [f][0] == f;
      ChainAgrees(read, length, here.next, rest, count - 1);
      AgreeOnOneMore(f, here.field, rest, Fields(read, length, here.next, count - 1), count - 1, offset, length);
    }
  }

  /** Decoders agree: on a page of shared types within reach of the offset byte, the fields read are
      the page's records if and only if the declared number is right or runs on past the end of the
      DLMS data. */
  lemma DecodersAgree(buffer: seq<byte>, total: nat, length: nat, declared: byte)
    requires PMESH_HEADER_SIZE + REACH <= |buffer| && RECORDS_START <= total <= |buffer|
    requires Readable(Scan(buffer[..total], RECORDS_START), length)
    ensures var found := Scan(buffer[..total], RECORDS_START);
      var fs := Fields(Reader(buffer[PMESH_HEADER_SIZE..]), length, FIELDS_START, declared);
      AllSame(found, fs) <==> (declared == |found| || (declared > |found| && EndOf(found, FIELDS_START) >= length))
  {
    var found := Scan(buffer[..total], RECORDS_START);
    var read := Reader(buffer[PMESH_HEADER_SIZE..]);
    var fs := Fields(read, length, FIELDS_START, declared);
    ScanIsChain(buffer, total, length, FIELDS_START);
    ChainAgrees(read, length, FIELDS_START, found, declared);
    assert declared == |found| ==> found[..declared] == found;
    assert |fs| == |found| ==> fs[..|found|] == fs;
  }

  /** A type only the page parser knows stops this reader: it reads the same record over and over. */
  lemma {:induction false} UnsharedStalls(data: Data, length: nat, offset: byte, count: nat)
    requires offset < length && LayoutOf(data[offset + 2]) != Unsupported && !Shared(data[offset + 2])
    ensures Fields(Reader(data), length, offset, count) == seq(count, i => FieldAt(data, offset))
    decreases count
  {
    if count > 0 {
      assert NextOffset(data, offset) == offset;
      UnsharedStalls(data, length, offset, count - 1);
    }
  }
}
