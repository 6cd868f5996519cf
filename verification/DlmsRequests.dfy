/** The profile requests of the pull side, and how they relate to the requests the on-demand side
    edits in place. */
module DlmsRequests {
  import opened Bytes
  import opened Paths
  import opened NextPage
  import opened Framing
  import Records = DlmsRecords
  import Cycles

  const INSTANT_DATA: byte := 0x0E
  const CACHE_DATA: byte := 0x0C
  const CMD_IP_PROFILE: byte := 1

  type Seconds = s: int | 0 <= s < 0x1_0000_0000

  /** A 32-bit number, most significant byte first. */
  function Word(s: Seconds): (r: seq<byte>)
    ensures |r| == 4
  {
    [s / 0x100_0000, s / 0x1_0000 % 256, s / 0x100 % 256, s % 256]
  }

  /** What every request is: flag, a length that counts all other bytes, the page asked for, and
      the checksum of everything before it. */
  predicate Consistent(p: seq<byte>, page: byte) {
    4 <= |p| <= 256 && p[0] == DLMS_FLAG && p[1] == |p| - 1 && p[2] == page && p[|p| - 1] == Checksum(p[..|p| - 1])
  }

  /** The sum of the first bytes of a packet, in one byte. */
  method SumOf(packet: array<byte>, count: nat) returns (checksum: byte)
    requires count <= packet.Length
    ensures checksum == Checksum(packet[..count])
  {
    checksum := 0;
    var i := 0;
    while i < count
      invariant 0 <= i <= count && checksum == SumTo(packet[..], i) % 256
    {
      AddByteKeeps(checksum, SumTo(packet[..], i), packet[i]);
      checksum := AddByte(checksum, packet[i]);
      i := i + 1;
    }
    SumOfSlice(packet[..], count);
    assert packet[..][..count] == packet[..count];
  }

  function AddByte(a: byte, b: byte): byte {
    var n: int := a;
    (n + b) % 256
  }

  lemma AddByteKeeps(a: byte, total: nat, b: byte)
    requires a == total % 256
    ensures AddByte(a, b) == (total + b) % 256
  {
    SameLowByte(total + b, a + b, total / 256);
  }

  function NameplateBody(page: byte): (r: seq<byte>)
    ensures |r| == 7
  {
    [DLMS_FLAG, 0x07, page, INSTANT_DATA, 0x00, 0x00, 0x00]
  }

  function IpBody(page: byte, cycle: int): (r: seq<byte>)
    ensures |r| == 7
  {
    [DLMS_FLAG, 0x07, page, CACHE_DATA, CMD_IP_PROFILE, 0x00, cycle % 256]
  }

  method FrameDlmsNameplate(page: byte) returns (packet: seq<byte>)
    ensures packet == Sealed(NameplateBody(page), 0)
    ensures packet[..7] == [0x2B, 7, page, 0x0E, 0, 0, 0]
  {
    var buf := new byte[8](_ => 0);
    Put(buf, 0, NameplateBody(page));
    assert buf[..7] == NameplateBody(page);
    packet := Seal(buf, 7);
  }

  /** The cycle is cut to one byte, whatever it is. */
  method FrameDlmsIp(page: byte, cycle: int) returns (packet: seq<byte>)
    ensures packet == Sealed(IpBody(page, cycle), 0)
    ensures packet[..6] == [0x2B, 7, page, 0x0C, 1, 0] && packet[6] == cycle % 256
  {
    var buf := new byte[8](_ => 0);
    Put(buf, 0, IpBody(page, cycle));
    assert buf[..7] == IpBody(page, cycle);
    packet := Seal(buf, 7);
  }

  /** Daily load and block load: the first page carries the time range. */
  method FrameDlmsRange(kind: byte, page: byte, from: Seconds, to: Seconds) returns (packet: seq<byte>)
    ensures packet == RangeRequest(kind, page, from, to)
  {
    var buf := new byte[128](_ => 0);
    ghost var head := [DLMS_FLAG, 0x00, page, INSTANT_DATA, kind, 0x00, 0x00];
    Put(buf, 0, [DLMS_FLAG, 0x00, page, INSTANT_DATA, kind, 0x00, 0x00]);
    assert buf[..7] == head;
    var pos := 7;
    if page == 0 {
      var range := [0x53] + Word(from) + [0x45] + Word(to);
      Put(buf, 7, range);
      assert buf[..17] == head + range;
      pos := 17;
    }
    ghost var open := buf[..pos];
    buf[1] := pos;
    assert buf[..pos] == open[1 := pos];
    assert page != 0 ==> open[1 := pos] == ShortBody(kind, page);
    assert page == 0 ==> open[1 := pos] == head[1 := pos] + ([0x53] + Word(from) + [0x45] + Word(to));
    assert head[1 := pos] == [DLMS_FLAG, pos, page, INSTANT_DATA, kind, 0x00, 0x00];
    packet := Seal(buf, pos);
  }

  function RangeRequest(kind: byte, page: byte, from: Seconds, to: Seconds): (r: seq<byte>) {
    if page == 0 then Sealed([DLMS_FLAG, 0x11, page, INSTANT_DATA, kind, 0x00, 0x00] + ([0x53] + Word(from) + [0x45] + Word(to)), 0)
    else Sealed(ShortBody(kind, page), 0)
  }

  /** Billing history: the checksum runs over the whole padded buffer, and the length is fixed. */
  method FrameDlmsBhp(page: byte) returns (packet: seq<byte>)
    ensures packet == Sealed(BhpBody(page), 0)
  {
    var buf := new byte[128](_ => 0);
    Put(buf, 0, BhpBody(page));
    var checksum := SumOf(buf, 128);
    assert buf[..128] == buf[..12] + buf[12..128] && buf[..12] == BhpBody(page);
    SumZeros(buf[12..128], 116);
    SumConcat(buf[..12], buf[12..128]);
    assert BhpBody(page)[0..] == BhpBody(page);
    buf[12] := checksum;
    packet := buf[..13];
  }

  function BhpBody(page: byte): (r: seq<byte>)
    ensures |r| == 12
  {
    [DLMS_FLAG, 0x0C, page, INSTANT_DATA, CMD_BH_PROFILE, 0x00, 0x00, 0x49, 0x00, 0x06, 0x43, 0x01]
  }

  /** Closes a packet with its checksum and cuts it to size. */
  method Seal(buf: array<byte>, pos: nat) returns (packet: seq<byte>)
    requires pos < buf.Length
    modifies buf
    ensures packet == Sealed(old(buf[..pos]), 0)
  {
    assert buf[..pos][0..] == buf[..pos];
    var checksum := SumOf(buf, pos);
    buf[pos] := checksum;
    packet := buf[..pos + 1];
  }

  /** Sealing a body that counts its own bytes gives a consistent request. */
  lemma SealedIsConsistent(body: seq<byte>, page: byte)
    requires 3 <= |body| < 256 && body[0] == DLMS_FLAG && body[1] == |body| && body[2] == page
    ensures Consistent(Sealed(body, 0), page)
  {
    var p := Sealed(body, 0);
    assert body[0..] == body && p[..|p| - 1] == body;
  }

  /** Every request of the pull side is consistent, for every page, cycle and time. */
  lemma RequestsConsistent(page: byte, kind: byte, cycle: int, from: Seconds, to: Seconds)
    ensures Consistent(Sealed(NameplateBody(page), 0), page)
    ensures Consistent(Sealed(IpBody(page, cycle), 0), page)
    ensures Consistent(RangeRequest(kind, page, from, to), page)
    ensures |RangeRequest(kind, page, from, to)| == if page == 0 then 18 else 8
    ensures Consistent(Sealed(BhpBody(page), 0), page) && |Sealed(BhpBody(page), 0)| == 13
  {
    SealedIsConsistent(NameplateBody(page), page);
    SealedIsConsistent(IpBody(page, cycle), page);
    if page == 0 {
      SealedIsConsistent([DLMS_FLAG, 0x11, page, INSTANT_DATA, kind, 0x00, 0x00] + ([0x53] + Word(from) + [0x45] + Word(to)), page);
    } else {
      SealedIsConsistent(ShortBody(kind, page), page);
    }
    SealedIsConsistent(BhpBody(page), page);
  }

  // ---- what a request asks for, byte by byte ----

  /** The request for the instantaneous data of a cycle names it in its seventh byte, so requests for
      different cycles of the last hour differ. */
  lemma IpRequestNamesCycle(page: byte, cycle: int, other: int)
    requires 0 <= cycle <= 3 && 0 <= other <= 3
    ensures var p := Sealed(IpBody(page, cycle), 0);
      |p| == 8 && p[2] == page && p[3] == 0x0C && p[4] == 1 && p[6] == cycle &&
      (p == Sealed(IpBody(page, other), 0) <==> cycle == other)
  {
    assert Sealed(IpBody(page, other), 0)[6] == other;
  }

  /** From a missing cycle to the request and back: the number in the request for a missing cycle leads,
      when its data is stored, to the id of that cycle, if and only if the rounded quarter hour of that
      moment is the quarter hour in which it was found missing. */
  lemma RequestedCycleStores(page: byte, asked: Cycles.Instant, stored: Cycles.Instant, missing: int)
    requires 1 <= missing <= 96 && Cycles.InWindow(Cycles.CurrentCycle(asked), missing)
    ensures var p := Sealed(IpBody(page, Cycles.Relative(Cycles.CurrentCycle(asked), missing)), 0);
      (Cycles.CalculateCycleId(stored, p[6]) == missing <==>
        (Cycles.MinuteOfDay(stored) + 5) / 15 % 96 == Cycles.MinuteOfDay(asked) / 15)
  {
    var relative := Cycles.Relative(Cycles.CurrentCycle(asked), missing);
    Cycles.WindowIsLastFour(Cycles.CurrentCycle(asked), missing);
    Cycles.RoundTripIff(asked, stored, missing);
    IpRequestNamesCycle(page, relative, relative);
  }

  /** A word is its number, most significant byte first. */
  lemma WordIsNumber(s: Seconds)
    ensures Records.BigEndian(Word(s)) == s
  {
    Records.BigEndian4(Word(s));
    WordParts(s);
  }

  lemma WordParts(s: Seconds)
    ensures s == Records.Pack4(s / 0x100_0000, s / 0x1_0000 % 256, s / 0x100 % 256, s % 256)
  {
    var a, b := s / 0x100, s / 0x1_0000;
    assert s == a * 0x100 + s % 256 && a == b * 0x100 + a % 256 && b == b / 256 * 0x100 + b % 256;
    assert b == a / 256 && b / 256 == s / 0x100_0000;
  }

  /** The first request for a profile with a time range names profile and page and carries the two times;
      a request for a later page names profile and page only. */
  lemma RangeRequestNames(kind: byte, page: byte, from: Seconds, to: Seconds)
    ensures var p := RangeRequest(kind, page, from, to);
      |p| == (if page == 0 then 18 else 8) && p[2] == page && p[3] == 0x0E && p[4] == kind && p[5] == 0 && p[6] == 0 &&
      (page == 0 ==> p[7] == 0x53 && Records.BigEndian(p[8..12]) == from && p[12] == 0x45 && Records.BigEndian(p[13..17]) == to)
  {
    if page == 0 {
      var p := RangeRequest(kind, page, from, to);
      assert p[8..12] == Word(from) && p[13..17] == Word(to);
      WordIsNumber(from);
      WordIsNumber(to);
    }
  }

  /** Nameplate and billing requests name their profile and page. */
  lemma OtherRequestsName(page: byte)
    ensures var p := Sealed(NameplateBody(page), 0); |p| == 8 && p[2] == page && p[3..7] == [0x0E, 0, 0, 0]
    ensures var p := Sealed(BhpBody(page), 0);
      |p| == 13 && p[2] == page && p[3..12] == [0x0E, 2, 0, 0, 0x49, 0, 6, 0x43, 1]
  {
  }

  // ---- requests inside mesh frames ----

  /** A route and a request that fit a frame whose length is one byte. */
  predicate Fits(g: Gateway, route: PathInfo, cmd: seq<byte>) {
    |g.serial| == 8 && |g.panid| == 4 && Routed(route) && FIXED_HEADER + |route.path| + |cmd| <= 256
  }

  /** A consistent request in a frame is what the on-demand side needs: recomputing its checksum
      changes nothing, and for the types of `GetDestinationAddress` the response is checked against the
      last address of the route. */
  lemma FramedRequest(packetType: byte, g: Gateway, route: PathInfo, cmd: seq<byte>, page: byte)
    requires Fits(g, route, cmd) && Consistent(cmd, page)
    ensures var f := Framed(packetType, g, route, cmd);
      WellFormed(f, page) && Recalculated(f, |f|) == f && f[0] == 0x2E && f[2] == packetType &&
      AddressOf(f) == route.path[|route.path| - 4..] && DlmsStart(f[12]) == FIXED_HEADER + |route.path|
  {
    FrameParts(packetType, g, route, cmd);
    WellFormedAround(Framed(packetType, g, route, cmd), FIXED_HEADER + |route.path|, cmd, page);
  }

  /** A frame with a correct length byte around a consistent request is well-formed. */
  lemma WellFormedAround(f: seq<byte>, ds: nat, cmd: seq<byte>, page: byte)
    requires 17 <= ds <= |f| <= 256 && f[1] == |f| - 1 && DlmsStart(f[12]) == ds && f[ds..] == cmd && Consistent(cmd, page)
    ensures WellFormed(f, page) && Recalculated(f, |f|) == f
  {
    assert f[ds] == cmd[0] && f[ds + 2] == cmd[2] && f[|f| - 1] == cmd[|cmd| - 1];
    assert f[ds..|f| - 1] == cmd[..|cmd| - 1];
    RecalculationIsIdentity(f, page);
  }

  /** Replacing the request inside a frame is framing the other request. */
  lemma Reframed(packetType: byte, g: Gateway, route: PathInfo, a: seq<byte>, b: seq<byte>)
    requires Fits(g, route, a) && Fits(g, route, b) && b != []
    ensures var f, ds := Framed(packetType, g, route, a), FIXED_HEADER + |route.path|;
      f[..ds][1 := ds + |b| - 1] + b == Framed(packetType, g, route, b)
  {
  }

  /** The parts of a framed first request that the edits touch. */
  lemma FramedIsFirst(kind: byte, packetType: byte, g: Gateway, route: PathInfo, first: seq<byte>)
    requires Fits(g, route, first) && Consistent(first, 0) && (Ranged(kind) ==> |first| == RangedSize(kind))
    ensures var f, ds := Framed(packetType, g, route, first), FIXED_HEADER + |route.path|;
      IsFirst(Request(kind, f)) && DlmsStart(f[12]) == ds && f[ds..] == first
  {
    FramedRequest(packetType, g, route, first, 0);
    FrameParts(packetType, g, route, first);
  }

  lemma ShortEditOfFrame(kind: byte, packetType: byte, g: Gateway, route: PathInfo, first: seq<byte>, page: byte)
    requires Ranged(kind) && page > 0 && Fits(g, route, first) && Consistent(first, 0) && |first| == RangedSize(kind)
    ensures var f, ds := Framed(packetType, g, route, first), FIXED_HEADER + |route.path|;
      IsFirst(Request(kind, f)) && PageFrame(Request(kind, f), page) == f[..ds][1 := ds + 7] + Sealed(ShortBody(kind, page), 0)
  {
    FramedIsFirst(kind, packetType, g, route, first);
    ShortEdit(Request(kind, Framed(packetType, g, route, first)), page);
  }

  /** Ranged profiles: editing a framed first request into the request for a later page gives byte
      for byte the frame around the short request for that page. */
  lemma EditIsReframing(kind: byte, packetType: byte, g: Gateway, route: PathInfo, first: seq<byte>, page: byte)
    requires Ranged(kind) && page > 0 && Fits(g, route, first) && Consistent(first, 0) && |first| == RangedSize(kind)
    ensures var r := Request(kind, Framed(packetType, g, route, first));
      IsFirst(r) && PageFrame(r, page) == Framed(packetType, g, route, Sealed(ShortBody(kind, page), 0))
  {
    ShortEditOfFrame(kind, packetType, g, route, first, page);
    Reframed(packetType, g, route, first, Sealed(ShortBody(kind, page), 0));
  }

  lemma ShortEdit(r: FirstRequest, page: byte)
    requires Ranged(r.kind) && page > 0
    ensures var ds := DlmsStart(r.frame[12]);
      PageFrame(r, page) == r.frame[..ds][1 := ds + 7] + Sealed(ShortBody(r.kind, page), 0)
  {
    var ds := DlmsStart(r.frame[12]);
    SealTail(Open(r, page), r.frame[..ds][1 := ds + 7], ShortBody(r.kind, page));
  }

  /** From the pull side's requests to the on-demand edits: the framed request for page 0 of daily load or
      block load is edited into the framed request for any later page. */
  lemma EditedRangeRequest(kind: byte, packetType: byte, g: Gateway, route: PathInfo, from: Seconds, to: Seconds, page: byte)
    requires (kind == 3 || kind == 4) && page > 0 && Fits(g, route, RangeRequest(kind, 0, from, to))
    ensures var r := Request(kind, Framed(packetType, g, route, RangeRequest(kind, 0, from, to)));
      IsFirst(r) && PageFrame(r, page) == Framed(packetType, g, route, RangeRequest(kind, page, from, to))
  {
    RequestsConsistent(0, kind, 0, from, to);
    EditIsReframing(kind, packetType, g, route, RangeRequest(kind, 0, from, to), page);
  }

  /** Billing is edited into the short request for a later page, as the profiles with a time range are. */
  lemma EditedBillingRequest(packetType: byte, g: Gateway, route: PathInfo, page: byte)
    requires page > 0 && Fits(g, route, Sealed(BhpBody(0), 0))
    ensures var r := Request(2, Framed(packetType, g, route, Sealed(BhpBody(0), 0)));
      IsFirst(r) && PageFrame(r, page) == Framed(packetType, g, route, Sealed(ShortBody(2, page), 0))
  {
    RequestsConsistent(0, 2, 0, 0, 0);
    EditIsReframing(2, packetType, g, route, Sealed(BhpBody(0), 0), page);
  }

  lemma PlainEditOfFrame(kind: byte, packetType: byte, g: Gateway, route: PathInfo, body: seq<byte>, page: byte)
    requires !Ranged(kind) && page > 0 && 3 <= |body| < 256 && Fits(g, route, Sealed(body, 0)) && Consistent(Sealed(body, 0), 0)
    ensures var f, ds := Framed(packetType, g, route, Sealed(body, 0)), FIXED_HEADER + |route.path|;
      IsFirst(Request(kind, f)) && ds + |body| < 256 &&
      PageFrame(Request(kind, f), page) == f[..ds][1 := ds + |body|] + Sealed(body[2 := page], 0)
  {
    FramedIsFirst(kind, packetType, g, route, Sealed(body, 0));
    PlainEdit(Request(kind, Framed(packetType, g, route, Sealed(body, 0))), FIXED_HEADER + |route.path|, body, page);
  }

  /** The other profiles: the edited frame is the frame around the same request for that page. */
  lemma EditIsRepaging(kind: byte, packetType: byte, g: Gateway, route: PathInfo, body: seq<byte>, page: byte)
    requires !Ranged(kind) && page > 0 && 3 <= |body| < 256 && Fits(g, route, Sealed(body, 0)) && Consistent(Sealed(body, 0), 0)
    ensures var r := Request(kind, Framed(packetType, g, route, Sealed(body, 0)));
      IsFirst(r) && PageFrame(r, page) == Framed(packetType, g, route, Sealed(body[2 := page], 0))
  {
    var next := Sealed(body[2 := page], 0);
    assert |next| == |body| + 1;
    PlainEditOfFrame(kind, packetType, g, route, body, page);
    Reframed(packetType, g, route, Sealed(body, 0), next);
  }

  lemma PlainEdit(r: FirstRequest, ds: nat, body: seq<byte>, page: byte)
    requires !Ranged(r.kind) && page > 0 && 3 <= |body| && ds == DlmsStart(r.frame[12])
    requires r.frame[ds..] == Sealed(body, 0)
    ensures ds + |body| < 256 && PageFrame(r, page) == r.frame[..ds][1 := ds + |body|] + Sealed(body[2 := page], 0)
  {
    var f := r.frame;
    assert |f| == ds + |body| + 1;
    assert f[..ds][1 := ds + |body|] == f[..ds];
    PlainOpen(f, ds, body, page);
    SealTail(Open(r, page), f[..ds], body[2 := page]);
  }

  lemma PlainOpen(f: seq<byte>, ds: nat, body: seq<byte>, page: byte)
    requires 3 <= |body| && ds <= |f| && f[ds..] == Sealed(body, 0)
    ensures |f| == ds + |body| + 1 && f[..|f| - 1][ds + 2 := page] == f[..ds] + body[2 := page]
  {
    assert f[ds..][..|body|] == body;
  }
}
