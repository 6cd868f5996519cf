/** The push side of the client: page buffers per node and profile as objects, the two record loops
    that fill them, the handlers that commit or clear them, and the timeout cleanup. */
module PushProcessing {
  import opened Wrappers
  import opened Bytes
  import opened DlmsRecords
  import opened PageBuffers

  const FI_INSTANT_DATA := 0x0E
  const FI_INSTANT_EVENT_OBJECT_READ := 0x10
  const FI_INSTANT_POWERFAIL_OBJECT_READ := 0x11

  /** Collects the records of one plain profile of one node. */
  class PacketBuffer {
    var totalPacketsReceived: int
    var lastPacketTime: int
    var profileData: RecordMap

    constructor ()
      ensures State() == Fresh(InstantaneousProfile)
    {
      totalPacketsReceived, lastPacketTime, profileData := 0, 0, map[];
    }

    function State(): Buffer
      reads this
    {
      Buffer(totalPacketsReceived, lastPacketTime, Plain(profileData))
    }

    /** Every field back to its default. */
    method Clear()
      modifies this
      ensures State() == Cleared(old(State())) == Buffer(0, 0, Plain(map[]))
    {
      totalPacketsReceived, lastPacketTime, profileData := 0, 0, map[];
    }
  }

  /** Collects the blocks of the block load profile; the unfinished block survives page boundaries. */
  class PacketBufferBlockLoad {
    var totalPacketsReceived: int
    var lastPacketTime: int
    var profilesData: seq<RecordMap>
    var partialProfile: RecordMap

    constructor ()
      ensures State() == Fresh(BlockLoad)
    {
      totalPacketsReceived, lastPacketTime, profilesData, partialProfile := 0, 0, [], map[];
    }

    function State(): Buffer
      reads this
    {
      Buffer(totalPacketsReceived, lastPacketTime, Blocks(profilesData, partialProfile))
    }

    /** Content and counter are reset; the time of the last packet stays. */
    method Clear()
      modifies this
      ensures State() == Cleared(old(State())) == Buffer(0, old(lastPacketTime), Blocks([], map[]))
    {
      profilesData := [];
      partialProfile := map[];
      totalPacketsReceived := 0;
    }
  }

  /** A record found at the scan position moves from what is still to come to what is done. */
  lemma OneMoreFound(data: seq<byte>, offset: nat, done: seq<Found>, all: seq<Found>)
    requires offset + 1 < |data| && ParseRecord(data, offset).Some?
    requires done + Scan(data, offset) == all
    ensures var f := ParseRecord(data, offset).value; (done + [f]) + Scan(data, f.next) == all
  {
    var f := ParseRecord(data, offset).value;
    var rest := Scan(data, f.next);
    assert Scan(data, offset) == [f] + rest;
    assert (done + [f]) + rest == done + ([f] + rest);
  }

  lemma OneMoreAbsorbed(c: Content, done: seq<Found>, f: Found)
    ensures Absorb(c, RecordsOf(done + [f])) == AbsorbRecord(Absorb(c, RecordsOf(done)), f.record)
  {
    assert (done + [f])[..|done|] == done;
    assert (RecordsOf(done) + [f.record])[..|done|] == RecordsOf(done);
  }

  /** Reads one record: id, zero delimiter, type tag, value. */
  method ReadRecord(data: seq<byte>, offset: nat) returns (found: Option<Found>)
    ensures found == ParseRecord(data, offset)
  {
    if offset + 3 > |data| {
      return None;
    }
    var recordId, delimiter := data[offset], data[offset + 1];
    if delimiter != 0x00 {
      return None;
    }
    var dtype := data[offset + 2];
    var ok, next, value, payload := ParseByType(data, offset + 3, dtype);
    if !ok {
      return None;
    }
    return Some(Found(Record(recordId, Typed(dtype, value)), payload, next));
  }

  /** Reads the records of a page into a plain buffer. Records read before a failure stay. */
  method ParseDLMSRecords(data: seq<byte>, numberOfRecords: byte, records: PacketBuffer) returns (ok: bool)
    modifies records`profileData
    ensures ok <==> PageParses(data, numberOfRecords)
    ensures Plain(records.profileData) == Absorb(old(Plain(records.profileData)), PageRecords(data))
  {
    var receivedRecords := 0;
    if |data| < RECORDS_START {
      return false;
    }
    ghost var c := Plain(records.profileData);
    ghost var all := Scan(data, RECORDS_START);
    ghost var done: seq<Found> := [];
    var offset := RECORDS_START;
    while offset < |data| - 1
      invariant RECORDS_START <= offset <= |data|
      invariant done + Scan(data, offset) == all
      invariant receivedRecords == |done|
      invariant Plain(records.profileData) == Absorb(c, RecordsOf(done))
      decreases |data| - offset
    {
      var found := ReadRecord(data, offset);
      if found.None? {
        break;
      }
      OneMoreFound(data, offset, done, all);
      OneMoreAbsorbed(c, done, found.value);
      done := done + [found.value];
      var r := found.value.record;
      records.profileData := records.profileData[r.id := r.content];
      receivedRecords := receivedRecords + 1;
      offset := found.value.next;
    }
    assert Scan(data, offset) == [];
    assert done == all;
    ok := receivedRecords == numberOfRecords;
  }

  /** The same loop for the block load profile: record 0x06 closes the block in progress. */
  method ParseBlockLoadDLMSRecords(data: seq<byte>, numberOfRecords: byte, records: PacketBufferBlockLoad) returns (ok: bool)
    modifies records`profilesData, records`partialProfile
    ensures ok <==> PageParses(data, numberOfRecords)
    ensures Blocks(records.profilesData, records.partialProfile)
      == Absorb(old(Blocks(records.profilesData, records.partialProfile)), PageRecords(data))
  {
    var receivedRecords := 0;
    if |data| < RECORDS_START {
      return false;
    }
    ghost var c := Blocks(records.profilesData, records.partialProfile);
    ghost var all := Scan(data, RECORDS_START);
    ghost var done: seq<Found> := [];
    var offset := RECORDS_START;
    while offset < |data| - 1
      invariant RECORDS_START <= offset <= |data|
      invariant done + Scan(data, offset) == all
      invariant receivedRecords == |done|
      invariant Blocks(records.profilesData, records.partialProfile) == Absorb(c, RecordsOf(done))
      decreases |data| - offset
    {
      var found := ReadRecord(data, offset);
      if found.None? {
        break;
      }
      OneMoreFound(data, offset, done, all);
      OneMoreAbsorbed(c, done, found.value);
      done := done + [found.value];
      var r := found.value.record;
      records.partialProfile := records.partialProfile[r.id := r.content];
      if r.id == 0x06 {
        records.profilesData := records.profilesData + [records.partialProfile];
        records.partialProfile := map[];
      }
      receivedRecords := receivedRecords + 1;
      offset := found.value.next;
    }
    assert Scan(data, offset) == [];
    assert done == all;
    ok := receivedRecords == numberOfRecords;
  }

  // ---- the layout of a received page ----

  /** Every byte the handlers look at lies inside the receive buffer. */
  predicate InBuffer(buff: seq<byte>, length: nat) {
    length <= |buff| && RECORDS_START <= |buff| && buff[1] < |buff| && PMESH_HEADER_SIZE + DlmsLength(buff) <= |buff|
  }

  function DlmsLength(buff: seq<byte>): nat
    requires RECORDS_START <= |buff|
  {
    Pack2(buff[18], buff[19])
  }

  function NodeOf(buff: seq<byte>): Mac
    requires RECORDS_START <= |buff|
  {
    [0x3C, 0xC1, 0xF6, 0x01] + buff[11..15]
  }

  predicate ChecksumGood(buff: seq<byte>, length: nat)
    requires InBuffer(buff, length)
  {
    buff[buff[1]] == Checksum(buff[PMESH_HEADER_SIZE..PMESH_HEADER_SIZE + DlmsLength(buff)])
  }

  function PacketOf(buff: seq<byte>, length: nat): Packet
    requires InBuffer(buff, length)
  {
    var page := buff[..length];
    Packet(buff[20], buff[24], PageRecords(page), PageParses(page, buff[25]))
  }

  /** Which profile a push page belongs to. */
  function ProfileOf(frameId: byte, command: byte): Option<Profile> {
    if frameId == FI_INSTANT_DATA then
      if command == 0x01 then Some(InstantaneousProfile)
      else if command == 0x02 then Some(BillingHistory)
      else if command == 0x03 then Some(DailyLoad)
      else if command == 0x04 then Some(BlockLoad)
      else None
    else if frameId == FI_INSTANT_EVENT_OBJECT_READ then Some(PowerOn)
    else if frameId == FI_INSTANT_POWERFAIL_OBJECT_READ then Some(PowerOff)
    else None
  }

  /** What a page of a known profile amounts to: nothing if its checksum is bad. */
  function PageEvent(buff: seq<byte>, length: nat, profile: Profile, now: int): Option<Event>
    requires InBuffer(buff, length)
  {
    if ChecksumGood(buff, length) then Some(Arrived(Key(NodeOf(buff), profile), PacketOf(buff, length), now)) else None
  }

  /** What any received push page amounts to. */
  function EventOf(buff: seq<byte>, length: nat, now: int): Option<Event>
    requires InBuffer(buff, length)
  {
    match ProfileOf(buff[21], buff[22])
    case None => None
    case Some(profile) => PageEvent(buff, length, profile, now)
  }

  /** The page is for this buffer, by the bytes of the frame: the last four of the node's address are its
      bytes 11 to 14, and its bytes 21 and 22 are those of the profile. */
  predicate Addressed(buff: seq<byte>, k: Key)
    requires RECORDS_START <= |buff|
  {
    |k.node| == 8 && k.node[..4] == [0x3C, 0xC1, 0xF6, 0x01] &&
    k.node[4] == buff[11] && k.node[5] == buff[12] && k.node[6] == buff[13] && k.node[7] == buff[14] &&
    match k.profile
    case InstantaneousProfile => buff[21] == 0x0E && buff[22] == 1
    case BillingHistory => buff[21] == 0x0E && buff[22] == 2
    case DailyLoad => buff[21] == 0x0E && buff[22] == 3
    case BlockLoad => buff[21] == 0x0E && buff[22] == 4
    case PowerOn => buff[21] == 0x10
    case PowerOff => buff[21] == 0x11
  }

  /** The byte at the frame's length is the sum of its DLMS data, whose length is bytes 18 and 19. */
  predicate BytesGood(buff: seq<byte>)
    requires RECORDS_START <= |buff| && buff[1] < |buff|
  {
    var high: int := buff[18];
    17 + 256 * high + buff[19] <= |buff| && buff[buff[1]] == Sum(buff[17..17 + 256 * high + buff[19]]) % 256
  }

  lemma AddressedIs(buff: seq<byte>, k: Key)
    requires RECORDS_START <= |buff|
    ensures Addressed(buff, k) <==> ProfileOf(buff[21], buff[22]) == Some(k.profile) && k.node == NodeOf(buff)
  {
    if |k.node| == 8 {
      assert k.node == k.node[..4] + k.node[4..];
    }
  }

  /** What a frame does to every buffer, told from its bytes: buffers it is not addressed to are left alone,
      and so is every buffer when the checksum is bad; otherwise page index, status and declared number are
      its bytes 20, 24 and 25. */
  lemma PageBytes(buff: seq<byte>, length: nat, now: int)
    requires InBuffer(buff, length)
    ensures var packet := Packet(buff[20], buff[24], PageRecords(buff[..length]), PageParses(buff[..length], buff[25]));
      forall k, b :: Addressed(buff, k) && BytesGood(buff) ==> Felt(k, b, EventOf(buff, length, now)) == AfterPacket(b, packet, now)
    ensures forall k, b :: !Addressed(buff, k) || !BytesGood(buff) ==> Felt(k, b, EventOf(buff, length, now)) == b
  {
    forall k: Key ensures Addressed(buff, k) <==> ProfileOf(buff[21], buff[22]) == Some(k.profile) && k.node == NodeOf(buff) {
      AddressedIs(buff, k);
    }
  }

  lemma InsertedWhen(b: Buffer, p: Packet, now: int)
    ensures Inserted(b, p, now) ==
      if p.nextPageStatus == 0 && b.received + (if p.parses then 1 else 0) == p.page + 1 then [Absorb(b.content, p.records)] else []
  {
  }

  /** What a frame makes the client insert, told from its bytes: only a last page (byte 24 is zero) on which
      the count is its page index plus one, for the node and profile it is addressed to. */
  lemma InsertBytes(buff: seq<byte>, length: nat, now: int, k: Key, b: Buffer)
    requires InBuffer(buff, length) && Addressed(buff, k)
    ensures var p := Packet(buff[20], buff[24], PageRecords(buff[..length]), PageParses(buff[..length], buff[25]));
      var last := p.nextPageStatus == 0 && b.received + (if p.parses then 1 else 0) == p.page + 1;
      Delivered(b, EventOf(buff, length, now)) == if BytesGood(buff) && last then [(k, Absorb(b.content, p.records))] else []
  {
    var p := PacketOf(buff, length);
    AddressedIs(buff, k);
    InsertedWhen(b, p, now);
    DeliveredBy(k, b, p, now);
    assert EventOf(buff, length, now) == if BytesGood(buff) then Some(Arrived(k, p, now)) else None;
  }

  lemma DeliveredBy(k: Key, b: Buffer, p: Packet, now: int)
    ensures Delivered(b, Some(Arrived(k, p, now))) == if Inserted(b, p, now) == [] then [] else [(k, Inserted(b, p, now)[0])]
  {
  }

  /** Two nodes whose addresses end differently never share a buffer: a page of one leaves all buffers of the
      other as they were. */
  lemma OtherNodesUntouched(buff: seq<byte>, length: nat, now: int, k: Key, b: Buffer)
    requires InBuffer(buff, length) && |k.node| == 8
    requires k.node[4] != buff[11] || k.node[5] != buff[12] || k.node[6] != buff[13] || k.node[7] != buff[14]
    ensures Felt(k, b, EventOf(buff, length, now)) == b
  {
    PageBytes(buff, length, now);
  }

  /** The reading of a page as functions, carried as values by the handlers so that the solver does not
      parse the page again in each of them. */
  datatype PageReader = PageReader(packet: (seq<byte>, nat) -> Packet, good: (seq<byte>, nat) -> bool)

  ghost predicate Faithful(r: PageReader) {
    (forall buff, length {:trigger PacketOf(buff, length)} :: InBuffer(buff, length) ==> r.packet(buff, length) == PacketOf(buff, length)) &&
    (forall buff, length {:trigger ChecksumGood(buff, length)} :: InBuffer(buff, length) ==> r.good(buff, length) == ChecksumGood(buff, length))
  }

  function TheReader(): PageReader {
    PageReader(
      (buff, length: nat) => if InBuffer(buff, length) then PacketOf(buff, length) else Packet(0, 0, [], false),
      (buff, length: nat) => InBuffer(buff, length) && ChecksumGood(buff, length))
  }

  /** What a page of a profile amounts to, by a reader. */
  function EventBy(r: PageReader, buff: seq<byte>, length: nat, profile: Profile, now: int): Option<Event>
    requires RECORDS_START <= |buff|
  {
    if r.good(buff, length) then Some(Arrived(Key(NodeOf(buff), profile), r.packet(buff, length), now)) else None
  }

  lemma ReaderReads(buff: seq<byte>, length: nat, now: int)
    requires InBuffer(buff, length)
    ensures Faithful(TheReader())
    ensures match ProfileOf(buff[21], buff[22])
      case None => EventOf(buff, length, now) == None
      case Some(p) => EventOf(buff, length, now) == EventBy(TheReader(), buff, length, p, now)
  {
  }

  /** The records of a page go into a plain buffer; a page that parsed is counted. */
  method TakePage(node: PacketBuffer, buff: seq<byte>, length: nat, now: int)
    requires InBuffer(buff, length)
    modifies node
    ensures node.State() == Taken(old(node.State()), PacketOf(buff, length), now)
  {
    var ok := ParseDLMSRecords(buff[..length], buff[25], node);
    if ok {
      node.lastPacketTime := now;
      node.totalPacketsReceived := node.totalPacketsReceived + 1;
    }
  }

  /** After the last page a plain buffer is committed if the count fits, and cleared in any case. */
  method ClosePage(node: PacketBuffer, page: byte, status: byte) returns (committed: seq<Content>)
    modifies node
    ensures node.State() == if status == 0 then Cleared(old(node.State())) else old(node.State())
    ensures committed == if status == 0 && old(node.State()).received == page + 1 then [old(node.State()).content] else []
  {
    committed := [];
    if status == 0x00 {
      var received, expected := node.totalPacketsReceived, page as int + 1;
      if received == expected {
        committed := [Plain(node.profileData)];
        node.Clear();
      } else {
        node.Clear();
      }
    }
  }

  /** The records of a page go into a block load buffer; a page that parsed is counted. */
  method TakeBlockLoadPage(node: PacketBufferBlockLoad, buff: seq<byte>, length: nat, now: int)
    requires InBuffer(buff, length)
    modifies node
    ensures node.State() == Taken(old(node.State()), PacketOf(buff, length), now)
  {
    var ok := ParseBlockLoadDLMSRecords(buff[..length], buff[25], node);
    if ok {
      node.lastPacketTime := now;
      node.totalPacketsReceived := node.totalPacketsReceived + 1;
    }
  }

  /** After the last page a block load buffer is committed if the count fits, and cleared in any case. */
  method CloseBlockLoadPage(node: PacketBufferBlockLoad, page: byte, status: byte) returns (committed: seq<Content>)
    modifies node
    ensures node.State() == if status == 0 then Cleared(old(node.State())) else old(node.State())
    ensures committed == if status == 0 && old(node.State()).received == page + 1 then [old(node.State()).content] else []
  {
    committed := [];
    if status == 0x00 {
      var received, expected := node.totalPacketsReceived, page as int + 1;
      if received == expected {
        committed := [Blocks(node.profilesData, node.partialProfile)];
        node.Clear();
      } else {
        node.Clear();
      }
    }
  }

  /** A checksum-good page goes into its buffer, which is committed or dropped when the page is the
      last one. Returns what was handed to the database. */
  method HandlePage(node: PacketBuffer, buff: seq<byte>, length: nat, now: int, ghost r: PageReader) returns (committed: seq<Content>)
    requires InBuffer(buff, length) && Faithful(r)
    modifies node
    ensures node.State() == AfterPacket(old(node.State()), r.packet(buff, length), now)
    ensures committed == Inserted(old(node.State()), r.packet(buff, length), now)
  {
    assert r.packet(buff, length) == PacketOf(buff, length);
    TakePage(node, buff, length, now);
    committed := ClosePage(node, buff[20], buff[24]);
  }

  /** The same for the block load profile. */
  method HandleBlockLoadPage(node: PacketBufferBlockLoad, buff: seq<byte>, length: nat, now: int, ghost r: PageReader)
    returns (committed: seq<Content>)
    requires InBuffer(buff, length) && Faithful(r)
    modifies node
    ensures node.State() == AfterPacket(old(node.State()), r.packet(buff, length), now)
    ensures committed == Inserted(old(node.State()), r.packet(buff, length), now)
  {
    assert r.packet(buff, length) == PacketOf(buff, length);
    TakeBlockLoadPage(node, buff, length, now);
    committed := CloseBlockLoadPage(node, buff[20], buff[24]);
  }

  method ChecksumMatches(buff: seq<byte>, length: nat) returns (good: bool)
    requires InBuffer(buff, length)
    ensures good <==> ChecksumGood(buff, length)
  {
    var receivedChecksum := buff[buff[1]];
    var calculatedChecksum := CalculateChecksum(buff[PMESH_HEADER_SIZE..], DlmsLength(buff));
    assert buff[PMESH_HEADER_SIZE..][..DlmsLength(buff)] == buff[PMESH_HEADER_SIZE..PMESH_HEADER_SIZE + DlmsLength(buff)];
    good := receivedChecksum == calculatedChecksum;
  }

  method PageIsGood(buff: seq<byte>, length: nat, ghost r: PageReader) returns (good: bool)
    requires InBuffer(buff, length) && Faithful(r)
    ensures good <==> r.good(buff, length)
  {
    good := ChecksumMatches(buff, length);
    assert r.good(buff, length) == ChecksumGood(buff, length);
  }

  /** Inserts of one handler call, labelled with the node and profile they belong to. */
  function Tagged(key: Key, contents: seq<Content>): (r: seq<(Key, Content)>) {
    seq(|contents|, i requires 0 <= i < |contents| => (key, contents[i]))
  }

  /** The push side of one gateway connection. A buffer comes into being with the first good page
      of its node and profile. */
  class PushData {
    var plain: map<Key, PacketBuffer>
    var blockLoad: map<Mac, PacketBufferBlockLoad>
    /** Profiles handed to the database, oldest first. */
    ghost var inserted: seq<(Key, Content)>

    /** Plain buffers are for plain profiles, and no two keys share a buffer. */
    ghost predicate Valid()
      reads this`plain, this`blockLoad
    {
      (forall k :: k in plain ==> k.profile != BlockLoad) &&
      (forall a, b :: a in plain && b in plain && a != b ==> plain[a] != plain[b]) &&
      (forall a, b :: a in blockLoad && b in blockLoad && a != b ==> blockLoad[a] != blockLoad[b])
    }

    /** The buffer of a node and profile; one that was never touched counts as fresh. */
    ghost function View(k: Key): Buffer
      reads this`plain, this`blockLoad, plain.Values, blockLoad.Values
    {
      if k.profile == BlockLoad then
        if k.node in blockLoad then blockLoad[k.node].State() else Fresh(BlockLoad)
      else
        if k in plain then plain[k].State() else Fresh(k.profile)
    }

    constructor ()
      ensures Valid() && inserted == [] && plain == map[] && blockLoad == map[]
      ensures forall k :: View(k) == Fresh(k.profile)
    {
      plain, blockLoad, inserted := map[], map[], [];
    }

    /** The buffer of a plain profile, created when missing. */
    method BufferFor(key: Key) returns (node: PacketBuffer)
      requires Valid() && key.profile != BlockLoad
      modifies this`plain
      ensures Valid() && key in plain && plain[key] == node
      ensures fresh(plain.Values - old(plain.Values))
      ensures forall k :: View(k) == old(View(k))
    {
      if key !in plain {
        var empty := new PacketBuffer();
        plain := plain[key := empty];
      }
      node := plain[key];
    }

    method BlockLoadBufferFor(mac: Mac) returns (node: PacketBufferBlockLoad)
      requires Valid()
      modifies this`blockLoad
      ensures Valid() && mac in blockLoad && blockLoad[mac] == node
      ensures fresh(blockLoad.Values - old(blockLoad.Values))
      ensures forall k :: View(k) == old(View(k))
    {
      if mac !in blockLoad {
        var empty := new PacketBufferBlockLoad();
        blockLoad := blockLoad[mac := empty];
      }
      node := blockLoad[mac];
    }

    /** A good page of a plain profile goes to the buffer of its node and profile, and to no other. */
    method AcceptPlainPage(key: Key, buff: seq<byte>, length: nat, now: int, ghost r: PageReader)
      requires Valid() && InBuffer(buff, length) && key.profile != BlockLoad && Faithful(r)
      modifies this`plain, this`inserted, plain.Values
      ensures Valid()
      ensures fresh(plain.Values - old(plain.Values))
      ensures forall k :: View(k) == Step(k, old(View(k)), Arrived(key, r.packet(buff, length), now))
      ensures inserted == old(inserted) + Tagged(key, Inserted(old(View(key)), r.packet(buff, length), now))
    {
      var node := BufferFor(key);
      label L:
      var committed := HandlePage(node, buff, length, now, r);
      assert forall k :: k in plain && k != key ==> plain[k].State() == old@L(plain[k].State());
      assert forall m :: m in blockLoad ==> blockLoad[m].State() == old@L(blockLoad[m].State());
      assert forall k :: k != key ==> View(k) == old@L(View(k));
      assert View(key) == node.State();
      inserted := inserted + Tagged(key, committed);
    }

    method AcceptBlockLoadPage(key: Key, buff: seq<byte>, length: nat, now: int, ghost r: PageReader)
      requires Valid() && InBuffer(buff, length) && key.profile == BlockLoad && Faithful(r)
      modifies this`blockLoad, this`inserted, blockLoad.Values
      ensures Valid()
      ensures fresh(blockLoad.Values - old(blockLoad.Values))
      ensures forall k :: View(k) == Step(k, old(View(k)), Arrived(key, r.packet(buff, length), now))
      ensures inserted == old(inserted) + Tagged(key, Inserted(old(View(key)), r.packet(buff, length), now))
    {
      var node := BlockLoadBufferFor(key.node);
      label L:
      var committed := HandleBlockLoadPage(node, buff, length, now, r);
      assert forall k :: k in plain ==> plain[k].State() == old@L(plain[k].State());
      assert forall m :: m in blockLoad && m != key.node ==> blockLoad[m].State() == old@L(blockLoad[m].State());
      assert forall k :: k != key ==> View(k) == old@L(View(k));
      assert View(key) == node.State();
      inserted := inserted + Tagged(key, committed);
    }

    /** A page of one of the five plain profiles. */
    method ProcessPlainPage(buff: seq<byte>, length: nat, profile: Profile, now: int, ghost r: PageReader)
      requires Valid() && InBuffer(buff, length) && profile != BlockLoad && Faithful(r)
      modifies this`plain, this`inserted, plain.Values
      ensures Valid() && fresh(plain.Values - old(plain.Values))
      ensures forall k :: View(k) == Felt(k, old(View(k)), EventBy(r, buff, length, profile, now))
      ensures inserted == old(inserted) + Delivered(old(View(Key(NodeOf(buff), profile))), EventBy(r, buff, length, profile, now))
    {
      var good := PageIsGood(buff, length, r);
      if good {
        AcceptPlainPage(Key(NodeOf(buff), profile), buff, length, now, r);
      }
    }

    /** A page of the block load profile. */
    method ProcessBlockLoadPage(buff: seq<byte>, length: nat, now: int, ghost r: PageReader)
      requires Valid() && InBuffer(buff, length) && Faithful(r)
      modifies this`blockLoad, this`inserted, blockLoad.Values
      ensures Valid() && fresh(blockLoad.Values - old(blockLoad.Values))
      ensures forall k :: View(k) == Felt(k, old(View(k)), EventBy(r, buff, length, BlockLoad, now))
      ensures inserted == old(inserted) + Delivered(old(View(Key(NodeOf(buff), BlockLoad))), EventBy(r, buff, length, BlockLoad, now))
    {
      var good := PageIsGood(buff, length, r);
      if good {
        AcceptBlockLoadPage(Key(NodeOf(buff), BlockLoad), buff, length, now, r);
      }
    }

    /** Dispatch of a push page by frame id and command. */
    method ProcessPushData(buff: seq<byte>, length: nat, now: int)
      requires Valid() && InBuffer(buff, length)
      modifies this, plain.Values, blockLoad.Values
      ensures Valid()
      ensures fresh(plain.Values - old(plain.Values)) && fresh(blockLoad.Values - old(blockLoad.Values))
      ensures forall k :: View(k) == Felt(k, old(View(k)), EventOf(buff, length, now))
      ensures match ProfileOf(buff[21], buff[22])
        case None => inserted == old(inserted)
        case Some(p) => inserted == old(inserted) + Delivered(old(View(Key(NodeOf(buff), p))), EventOf(buff, length, now))
      ensures forall k :: !Addressed(buff, k) ==> View(k) == old(View(k))
      ensures forall k :: Addressed(buff, k) && !BytesGood(buff) ==> View(k) == old(View(k))
      ensures forall k :: Addressed(buff, k) && BytesGood(buff) ==>
        View(k) == AfterPacket(old(View(k)), Packet(buff[20], buff[24], PageRecords(buff[..length]), PageParses(buff[..length], buff[25])), now)
    {
      ghost var r := TheReader();
      ReaderReads(buff, length, now);
      PageBytes(buff, length, now);
      if buff[21] == FI_INSTANT_DATA {
        if buff[22] == 0x01 {
          ProcessPlainPage(buff, length, InstantaneousProfile, now, r);
        } else if buff[22] == 0x04 {
          ProcessBlockLoadPage(buff, length, now, r);
        } else if buff[22] == 0x03 {
          ProcessPlainPage(buff, length, DailyLoad, now, r);
        } else if buff[22] == 0x02 {
          ProcessPlainPage(buff, length, BillingHistory, now, r);
        }
      } else if buff[21] == FI_INSTANT_EVENT_OBJECT_READ {
        ProcessPlainPage(buff, length, PowerOn, now, r);
      } else if buff[21] == FI_INSTANT_POWERFAIL_OBJECT_READ {
        ProcessPlainPage(buff, length, PowerOff, now, r);
      }
    }

    /** Clears every buffer that waited too long for its next page. */
    method CleanupPushProfiles(now: int)
      requires Valid()
      modifies plain.Values, blockLoad.Values
      ensures Valid()
      ensures forall k :: View(k) == AfterCleanup(old(View(k)), now)
    {
      CleanupPlain(now);
      CleanupBlockLoad(now);
    }

    method CleanupPlain(now: int)
      requires Valid()
      modifies plain.Values
      ensures Valid()
      ensures forall k :: View(k) == if k.profile == BlockLoad then old(View(k)) else AfterCleanup(old(View(k)), now)
    {
      var keys := plain.Keys;
      while keys != {}
        invariant Valid() && keys <= plain.Keys
        invariant forall k :: View(k) == if k in plain && k !in keys then AfterCleanup(old(View(k)), now) else old(View(k))
        decreases keys
      {
        var key :| key in keys;
        label L:
        CleanUp(plain[key], now);
        forall k | k != key ensures View(k) == old@L(View(k)) {
          assert k in plain ==> plain[k].State() == old@L(plain[k].State());
        }
        keys := keys - {key};
      }
    }

    /** The block load buffer of a node that is no longer waiting to be visited. */
    predicate Done(k: Key, waiting: set<Mac>)
      reads this`blockLoad
    {
      k.profile == BlockLoad && k.node in blockLoad && k.node !in waiting
    }

    method CleanupBlockLoad(now: int)
      requires Valid()
      modifies blockLoad.Values
      ensures Valid()
      ensures forall k :: View(k) == if k.profile == BlockLoad then AfterCleanup(old(View(k)), now) else old(View(k))
    {
      var macs := blockLoad.Keys;
      while macs != {}
        invariant Valid() && macs <= blockLoad.Keys
        invariant forall k :: Done(k, macs) ==> View(k) == AfterCleanup(old(View(k)), now)
        invariant forall k :: !Done(k, macs) ==> View(k) == old(View(k))
        decreases macs
      {
        var mac :| mac in macs;
        label L:
        CleanUpBlockLoad(blockLoad[mac], now);
        forall k | k != Key(mac, BlockLoad) ensures View(k) == old@L(View(k)) {
          assert k.node in blockLoad && k.node != mac ==> blockLoad[k.node].State() == old@L(blockLoad[k.node].State());
        }
        macs := macs - {mac};
      }
    }
  }

  method CleanUp(node: PacketBuffer, now: int)
    modifies node
    ensures node.State() == AfterCleanup(old(node.State()), now)
  {
    if node.totalPacketsReceived > 0 && now - node.lastPacketTime > TIMEOUT {
      node.Clear();
    }
  }

  method CleanUpBlockLoad(node: PacketBufferBlockLoad, now: int)
    modifies node
    ensures node.State() == AfterCleanup(old(node.State()), now)
  {
    if node.totalPacketsReceived > 0 && now - node.lastPacketTime > TIMEOUT {
      node.Clear();
    }
  }

  /** What a buffer goes through when a page arrives: its step, or nothing when there was no event. */
  function Felt(k: Key, b: Buffer, e: Option<Event>): Buffer {
    if e.Some? then Step(k, b, e.value) else b
  }

  function Delivered(b: Buffer, e: Option<Event>): seq<(Key, Content)> {
    if e.Some? && e.value.Arrived? then Tagged(e.value.key, Inserted(b, e.value.packet, e.value.now)) else []
  }
}
