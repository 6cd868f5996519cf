/** The pull side's handlers of a received page, and what asking again for a page that failed to parse
    does to the records collected so far. */
module PullProcessing {
  import opened Bytes
  import opened ResponseCodes
  import opened DlmsRecords
  import opened PageBuffers
  import opened PushProcessing

  /** The page is complete as it arrived and comes from the node that was asked. */
  predicate Admitted(mac: Mac, buff: seq<byte>, length: nat)
    requires InBuffer(buff, length)
  {
    length > 0 && ChecksumGood(buff, length) && NodeOf(buff) == mac
  }

  /** The answer to the page loop: done, more to come, or failed. */
  function PageAnswer(mac: Mac, buff: seq<byte>, length: nat): int
    requires InBuffer(buff, length)
  {
    if !Admitted(mac, buff, length) || !PacketOf(buff, length).parses then FAILURE
    else if buff[24] == 0 then SUCCESS
    else if buff[24] == 1 then NEXT_PAGE_PRESENT
    else FAILURE
  }

  /** What the page leaves in its buffer. */
  function AfterPage(b: Buffer, mac: Mac, buff: seq<byte>, length: nat, now: int): Buffer
    requires InBuffer(buff, length)
  {
    if Admitted(mac, buff, length) then Taken(b, PacketOf(buff, length), now) else b
  }

  method Admits(mac: Mac, buff: seq<byte>, length: nat) returns (ok: bool)
    requires InBuffer(buff, length)
    ensures ok <==> Admitted(mac, buff, length)
  {
    if length == 0 {
      return false;
    }
    var good := ChecksumMatches(buff, length);
    if !good {
      return false;
    }
    ok := NodeOf(buff) == mac;
  }

  /** Nameplate, daily load, billing history and instantaneous data. */
  method ProcessPlainData(mac: Mac, node: PacketBuffer, buff: seq<byte>, length: nat, now: int) returns (code: int)
    requires InBuffer(buff, length)
    modifies node
    ensures code == PageAnswer(mac, buff, length)
    ensures node.State() == AfterPage(old(node.State()), mac, buff, length, now)
  {
    var ok := Admits(mac, buff, length);
    if !ok {
      return FAILURE;
    }
    var parsed := ParseDLMSRecords(buff[..length], buff[25], node);
    if !parsed {
      return FAILURE;
    }
    node.lastPacketTime := now;
    node.totalPacketsReceived := node.totalPacketsReceived + 1;
    code := if buff[24] == 0 then SUCCESS else if buff[24] == 1 then NEXT_PAGE_PRESENT else FAILURE;
  }

  /** Block load data. */
  method ProcessBlockLoadData(mac: Mac, node: PacketBufferBlockLoad, buff: seq<byte>, length: nat, now: int) returns (code: int)
    requires InBuffer(buff, length)
    modifies node
    ensures code == PageAnswer(mac, buff, length)
    ensures node.State() == AfterPage(old(node.State()), mac, buff, length, now)
  {
    var ok := Admits(mac, buff, length);
    if !ok {
      return FAILURE;
    }
    var parsed := ParseBlockLoadDLMSRecords(buff[..length], buff[25], node);
    if !parsed {
      return FAILURE;
    }
    node.lastPacketTime := now;
    node.totalPacketsReceived := node.totalPacketsReceived + 1;
    code := if buff[24] == 0 then SUCCESS else if buff[24] == 1 then NEXT_PAGE_PRESENT else FAILURE;
  }

  /** A page that asks for the next one, or ends the profile, has been counted and merged as a whole. */
  lemma AnsweredIsCounted(b: Buffer, mac: Mac, buff: seq<byte>, length: nat, now: int)
    requires InBuffer(buff, length) && PageAnswer(mac, buff, length) != FAILURE
    ensures var after := AfterPage(b, mac, buff, length, now);
      after.received == b.received + 1 && after.content == Absorb(b.content, PageRecords(buff[..length])) &&
      |PageRecords(buff[..length])| == buff[25]
  {
  }

  /** The answers by the bytes of the frame: a page counts only from the node that was asked (bytes 11 to
      14), with a good checksum and as many records as byte 25 declares; byte 24 then says whether it was
      the last one. */
  lemma AnswerByBytes(mac: Mac, buff: seq<byte>, length: nat)
    requires InBuffer(buff, length)
    ensures var accepted := length >= 26 && BytesGood(buff) && |mac| == 8 && mac[..4] == [0x3C, 0xC1, 0xF6, 0x01] &&
        mac[4..] == buff[11..15] && |PageRecords(buff[..length])| == buff[25];
      PageAnswer(mac, buff, length) == if accepted && buff[24] == 0 then 0 else if accepted && buff[24] == 1 then 0x52 else -1
  {
    if |mac| == 8 {
      assert mac == mac[..4] + mac[4..];
    }
    assert |NodeOf(buff)| == 8 && NodeOf(buff)[4..] == buff[11..15] && NodeOf(buff)[..4] == [0x3C, 0xC1, 0xF6, 0x01];
  }

  // ---- a page that failed and is asked for again ----

  /** Plain profiles: the records a failed page left behind are overwritten when the whole page comes. */
  lemma RetryHealsPlain(m: RecordMap, part: seq<Record>, whole: seq<Record>)
    requires Ids(part) <= Ids(whole)
    ensures Absorb(Absorb(Plain(m), part), whole) == Absorb(Plain(m), whole)
  {
    AbsorbIsMerge(m, part);
    var n := Merge(m, part);
    AbsorbIsMerge(n, whole);
    AbsorbIsMerge(m, whole);
    MergeContents(m, part);
    MergeContents(n, whole);
    MergeContents(m, whole);
    assert Merge(n, whole).Keys == Merge(m, whole).Keys;
    forall k | k in Merge(m, whole) ensures Merge(n, whole)[k] == Merge(m, whole)[k] {
      if k !in Ids(whole) {
        assert n[k] == m[k];
      }
    }
  }

  /** Records without a closing id only go into the block in progress. */
  lemma {:induction false} OpenGoesToPartial(done: seq<RecordMap>, partial: RecordMap, rs: seq<Record>)
    requires IsOpen(rs)
    ensures Absorb(Blocks(done, partial), rs) == Blocks(done, Merge(partial, rs))
  {
    if rs != [] {
      OpenGoesToPartial(done, partial, rs[..|rs| - 1]);
    }
  }

  lemma MergeTwice(m: RecordMap, rs: seq<Record>)
    ensures Merge(Merge(m, rs), rs) == Merge(m, rs)
  {
    RetryHealsPlain(m, rs, rs);
    AbsorbIsMerge(m, rs);
    AbsorbIsMerge(Merge(m, rs), rs);
  }

  /** Number of blocks that records close. */
  function Closings(rs: seq<Record>): (n: nat)
    ensures n == 0 <==> IsOpen(rs)
  {
    if rs == [] then 0 else Closings(rs[..|rs| - 1]) + (if rs[|rs| - 1].id == BLOCK_END then 1 else 0)
  }

  lemma {:induction false} ClosingsCount(c: Content, rs: seq<Record>)
    requires c.Blocks?
    ensures Absorb(c, rs).Blocks? && |Absorb(c, rs).completed| == |c.completed| + Closings(rs)
  {
    if rs != [] {
      ClosingsCount(c, rs[..|rs| - 1]);
    }
  }

  /** Block load: a failed page that is asked for again leaves nothing behind if and only if it had
      not closed a block before it failed; otherwise its blocks are there twice. */
  lemma RetryHealsBlocksIff(c: Content, whole: seq<Record>, k: nat)
    requires c.Blocks? && k <= |whole|
    ensures Absorb(Absorb(c, whole[..k]), whole) == Absorb(c, whole) <==> IsOpen(whole[..k])
  {
    var part, rest := whole[..k], whole[k..];
    assert whole == part + rest;
    if IsOpen(part) {
      var p := Merge(c.partial, part);
      OpenGoesToPartial(c.completed, c.partial, part);
      OpenGoesToPartial(c.completed, p, part);
      MergeTwice(c.partial, part);
      AbsorbConcat(c, part, rest);
      AbsorbConcat(Blocks(c.completed, p), part, rest);
    } else {
      ClosingsCount(c, part);
      ClosingsCount(Absorb(c, part), whole);
      ClosingsCount(c, whole);
    }
  }
}
