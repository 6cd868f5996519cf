/** Mesh frames: routes read out of hex text in three ways, the two framers of commands, and the
    address a response is checked against. */
module Framing {
  import opened Bytes
  import opened Paths

  const HES_START_BYTE: byte := 0x2E
  const NMS_START_BYTE: byte := 0x2A
  const MESH_COMMISSION_PACKET: byte := 0x03
  const MESH_DATA_QUERY: byte := 0x07
  const MESH_PING_REQUEST: byte := 0x0D

  /** Bytes in front of the route in a frame, and the size of the path buffer of the on-demand framer. */
  const FIXED_HEADER := 13
  const PATH_BUFFER := 100
  const COMMAND_BUFFER := 256

  // ---- hex text ----

  predicate IsHexDigit(c: char) {
    '0' <= c <= '9' || 'A' <= c <= 'F'
  }

  /** Upper-case hex text. */
  type Hex = s: string | forall i :: 0 <= i < |s| ==> IsHexDigit(s[i])

  function Digit(c: char): (r: byte)
    requires IsHexDigit(c)
  {
    if c <= '9' then (c - '0') as int else (c - 'A') as int + 10
  }

  /** The byte spelled at a position. */
  function ByteAt(s: Hex, at: nat): (r: byte)
    requires at + 2 <= |s|
  {
    16 * Digit(s[at]) + Digit(s[at + 1])
  }

  /** The bytes a text spells, two digits each. */
  function Unhex(s: Hex): (r: seq<byte>)
    ensures |r| == |s| / 2
  {
    seq(|s| / 2, i requires 0 <= i < |s| / 2 => ByteAt(s, 2 * i))
  }

  /** The digits that spell a byte. */
  function Spelled(bytes: seq<byte>): (s: Hex)
    ensures |s| == 2 * |bytes|
  {
    seq(2 * |bytes|, i requires 0 <= i < 2 * |bytes| =>
      if i % 2 == 0 then DigitFor(bytes[i / 2] / 16) else DigitFor(bytes[i / 2] % 16))
  }

  function DigitFor(n: int): (c: char)
    requires 0 <= n < 16
    ensures IsHexDigit(c)
  {
    "0123456789ABCDEF"[n]
  }

  lemma SpelledAt(bytes: seq<byte>, i: nat)
    requires i < |bytes|
    ensures var s := Spelled(bytes); s[2 * i] == DigitFor(bytes[i] / 16) && s[2 * i + 1] == DigitFor(bytes[i] % 16)
  {
    HalfOf(i);
  }

  lemma HalfOf(i: nat)
    ensures 2 * i / 2 == i && (2 * i + 1) / 2 == i && 2 * i % 2 == 0 && (2 * i + 1) % 2 == 1
  {
  }

  lemma ByteOfSpelled(bytes: seq<byte>, i: nat)
    requires i < |bytes|
    ensures ByteAt(Spelled(bytes), 2 * i) == bytes[i]
  {
    SpelledAt(bytes, i);
    DigitReads(bytes[i] / 16);
    DigitReads(bytes[i] % 16);
  }

  /** Spelling bytes in hex and reading them back gives the bytes. */
  lemma UnhexInverts(bytes: seq<byte>)
    ensures Unhex(Spelled(bytes)) == bytes
  {
    forall i | 0 <= i < |bytes| ensures Unhex(Spelled(bytes))[i] == bytes[i] {
      ByteOfSpelled(bytes, i);
    }
  }

  lemma DigitReads(n: int)
    requires 0 <= n < 16
    ensures Digit(DigitFor(n)) == n
  {
  }

  /** The route of a stored path: of the eight bytes of each hop the last four. */
  function Route(s: Hex, hops: nat): (r: seq<byte>)
    requires |s| >= 16 * hops
    ensures |r| == 4 * hops
  {
    seq(4 * hops, n requires 0 <= n < 4 * hops => ByteAt(s, 16 * (n / 4) + 8 + 2 * (n % 4)))
  }

  /** In terms of the stored bytes: hop k contributes the last four of its eight bytes, in order. */
  lemma RouteOfBytes(bytes: seq<byte>, hops: nat, k: nat, j: nat)
    requires |bytes| == 8 * hops && k < hops && j < 4
    ensures Route(Spelled(bytes), hops)[4 * k + j] == bytes[8 * k + 4 + j]
  {
    var n := 8 * k + 4 + j;
    assert 16 * k + 8 + 2 * j == 2 * n;
    ByteOfHop(Spelled(bytes), hops, k, j);
    ByteOfSpelled(bytes, n);
  }

  /** Skips eight digits, takes eight digits, and so on; refuses a path of the wrong length. */
  method ExtractPath(hexPath: Hex, hopCount: nat) returns (ok: bool, out: seq<byte>)
    ensures ok <==> |hexPath| == 16 * hopCount
    ensures out == if ok then Route(hexPath, hopCount) else []
  {
    out := [];
    if |hexPath| != 16 * hopCount {
      return false, out;
    }
    var take, pos := false, 0;
    ghost var k := 0;
    ghost var route := Route(hexPath, hopCount);
    while pos + 8 <= 16 * hopCount
      invariant 0 <= k <= hopCount && pos == 16 * k + (if take then 8 else 0) && (take ==> k < hopCount)
      invariant out == route[..4 * k]
    {
      if take {
        HopIsRoute(hexPath, hopCount, k);
        out := out + TakenHop(hexPath, pos);
        k := k + 1;
      }
      take := !take;
      pos := pos + 8;
    }
    ok := true;
  }

  /** The four bytes spelled by eight digits. */
  function TakenHop(s: Hex, at: nat): (r: seq<byte>)
    requires at + 8 <= |s|
  {
    seq(4, j requires 0 <= j < 4 => ByteAt(s, at + 2 * j))
  }

  lemma HopOf(k: nat, j: nat)
    requires j < 4
    ensures (4 * k + j) / 4 == k && (4 * k + j) % 4 == j
  {
  }

  lemma ByteOfHop(s: Hex, hops: nat, k: nat, j: nat)
    requires |s| >= 16 * hops && k < hops && j < 4
    ensures Route(s, hops)[4 * k + j] == TakenHop(s, 16 * k + 8)[j]
  {
    HopOf(k, j);
  }

  lemma NextSlice(r: seq<byte>, at: nat, to: nat)
    requires at <= to <= |r|
    ensures r[..to] == r[..at] + r[at..to]
  {
  }

  /** One more hop of a route. */
  lemma HopIsRoute(s: Hex, hops: nat, k: nat)
    requires |s| >= 16 * hops && k < hops
    ensures Route(s, hops)[4 * k..4 * k + 4] == TakenHop(s, 16 * k + 8)
    ensures Route(s, hops)[..4 * k + 4] == Route(s, hops)[..4 * k] + TakenHop(s, 16 * k + 8)
  {
    var r, hop := Route(s, hops), TakenHop(s, 16 * k + 8);
    forall j | 0 <= j < 4 ensures r[4 * k..4 * k + 4][j] == hop[j] {
      ByteOfHop(s, hops, k, j);
    }
    NextSlice(r, 4 * k, 4 * k + 4);
  }

  /** Hex text to bytes, nibble by nibble, in one-byte arithmetic. */
  method AscHexToHex(source: Hex, length: nat) returns (destination: seq<byte>)
    requires 2 * length <= |source|
    ensures destination == Unhex(source[..2 * length])
  {
    destination := [];
    var i := 0;
    while i < length
      invariant 0 <= i <= length && destination == Unhex(source[..2 * length])[..i]
    {
      var byteval: int := source[2 * i] as int;
      byteval := if '0' <= source[2 * i] <= '9' then byteval - 0x30 else byteval - 55;
      byteval := byteval * 16 % 256;
      var temp: int := source[2 * i + 1] as int;
      temp := if '0' <= source[2 * i + 1] <= '9' then temp - 0x30 else temp - 55;
      assert byteval + temp == ByteAt(source[..2 * length], 2 * i);
      destination := destination + [byteval + temp];
      i := i + 1;
    }
  }

  /** Writes the route of a path into a buffer, hop by hop; the rest of the buffer stays. */
  method ArrangeRoutePath(source: Hex, dest: array<byte>, hopCount: nat)
    requires |source| >= 16 * hopCount && dest.Length >= 4 * hopCount
    modifies dest
    ensures dest[..4 * hopCount] == Route(source, hopCount)
    ensures dest[4 * hopCount..] == old(dest[4 * hopCount..])
  {
    var i := 0;
    ghost var route := Route(source, hopCount);
    while i < hopCount
      invariant 0 <= i <= hopCount
      invariant dest[..4 * i] == route[..4 * i]
      invariant dest[4 * hopCount..] == old(dest[4 * hopCount..])
    {
      var track := 16 * i + 8;
      var hop := AscHexToHex(source[track..track + 8], 4);
      assert hop == TakenHop(source, track) by { UnhexHop(source, track); }
      HopIsRoute(source, hopCount, i);
      var at := 4 * i;
      ghost var before := dest[..at];
      Put(dest, at, hop);
      assert dest[..at + 4] == before + hop;
      i := i + 1;
    }
  }

  lemma UnhexHop(s: Hex, at: nat)
    requires at + 8 <= |s|
    ensures Unhex(s[at..at + 8][..8]) == TakenHop(s, at)
  {
    var t: Hex := s[at..at + 8];
    assert t[..8] == t;
    forall j | 0 <= j < 4 ensures Unhex(t)[j] == TakenHop(s, at)[j] {
      assert ByteAt(t, 2 * j) == ByteAt(s, at + 2 * j);
    }
  }

  // ---- the third extractor, on text ----

  /** The digits of the route: of the sixteen digits of each hop the last eight. */
  function RouteDigits(s: Hex, hops: nat): (r: Hex)
    requires |s| >= 16 * hops
    ensures |r| == 8 * hops
  {
    seq(8 * hops, n requires 0 <= n < 8 * hops => s[16 * (n / 8) + 8 + n % 8])
  }

  /** Copies eight digits, skips eight digits; the stored text has room for 64 digits and a NUL. */
  method ExtractDigits(rawPath: Hex, hopCount: nat) returns (destAddress: string)
    requires |rawPath| == 16 * hopCount
    ensures destAddress == (if hopCount <= 8 then RouteDigits(rawPath, hopCount) else RouteDigits(rawPath, hopCount)[..64]) + ['\0']
  {
    destAddress := [];
    var totalLength, copyStart := hopCount * 16, 8;
    ghost var k := 0;
    while copyStart + 8 <= totalLength && copyStart < |rawPath|
      invariant copyStart == 16 * k + 8 && k <= hopCount
      invariant destAddress == RouteDigits(rawPath, hopCount)[..8 * k]
    {
      DigitsOfHop(rawPath, hopCount, k);
      destAddress := destAddress + rawPath[copyStart..copyStart + 8];
      copyStart := copyStart + 16;
      k := k + 1;
    }
    destAddress := destAddress + ['\0'];
    if |destAddress| > 65 {
      destAddress := destAddress[..65];
      destAddress := destAddress[64 := '\0'];
    }
  }

  lemma DigitsOfHop(s: Hex, hops: nat, k: nat)
    requires |s| >= 16 * hops && k < hops
    ensures RouteDigits(s, hops)[8 * k..8 * k + 8] == s[16 * k + 8..16 * k + 16]
    ensures RouteDigits(s, hops)[..8 * k + 8] == RouteDigits(s, hops)[..8 * k] + s[16 * k + 8..16 * k + 16]
  {
    var r := RouteDigits(s, hops);
    forall n | 8 * k <= n < 8 * k + 8 ensures r[n] == s[16 * k + 8 + (n - 8 * k)] {
      assert n / 8 == k && n % 8 == n - 8 * k;
    }
  }

  /** The digits spell the route. */
  lemma DigitsSpellRoute(s: Hex, hops: nat)
    requires |s| >= 16 * hops
    ensures Unhex(RouteDigits(s, hops)) == Route(s, hops)
  {
    var t, r := RouteDigits(s, hops), Route(s, hops);
    forall n | 0 <= n < 4 * hops ensures Unhex(t)[n] == r[n] {
      var k, j := n / 4, n % 4;
      DigitOf(s, hops, k, 2 * j);
      DigitOf(s, hops, k, 2 * j + 1);
      assert ByteAt(t, 8 * k + 2 * j) == ByteAt(s, 16 * k + 8 + 2 * j);
    }
  }

  lemma DigitOf(s: Hex, hops: nat, k: nat, i: nat)
    requires |s| >= 16 * hops && k < hops && i < 8
    ensures RouteDigits(s, hops)[8 * k + i] == s[16 * k + 8 + i]
  {
    assert (8 * k + i) / 8 == k && (8 * k + i) % 8 == i;
  }

  /** What the third extractor stores spells the whole route exactly up to eight hops. */
  lemma StoredDigitsIff(s: Hex, hops: nat)
    requires |s| == 16 * hops
    ensures var kept := if hops <= 8 then RouteDigits(s, hops) else RouteDigits(s, hops)[..64];
      Unhex(kept) == Route(s, hops) <==> hops <= 8
  {
    DigitsSpellRoute(s, hops);
  }

  // ---- the two framers ----

  /** What the pull side knows of its gateway: the serial number and the PAN id cut from it. */
  datatype Gateway = Gateway(serial: seq<byte>, panid: seq<byte>)

  /** A mesh frame around a command. */
  function Framed(packetType: byte, g: Gateway, route: PathInfo, cmd: seq<byte>): (r: seq<byte>)
    requires |g.serial| == 8 && |g.panid| == 4
  {
    var size := FIXED_HEADER + |route.path| + |cmd|;
    [HES_START_BYTE, (size - 1) % 256, packetType] + g.panid + g.serial[4..] + [0, route.hopCount % 256] + route.path + cmd
  }

  /** The pull side's framer: parts appended one after the other, the length filled in at the end. */
  method FramePmeshCommandPacket(packetType: byte, g: Gateway, route: PathInfo, cmd: seq<byte>) returns (packet: seq<byte>)
    requires |g.serial| == 8 && |g.panid| == 4
    ensures packet == Framed(packetType, g, route, cmd)
  {
    packet := [HES_START_BYTE, 0x00, packetType];
    packet := packet + g.panid;
    packet := packet + g.serial[4..];
    packet := packet + [0x00];
    packet := packet + [route.hopCount % 256];
    if route.path != [] {
      packet := packet + route.path;
    }
    if cmd != [] {
      packet := packet + cmd;
    }
    packet := packet[1 := (|packet| - 1) % 256];
  }

  /** The gateway details as the pull side takes them from the gateway id. */
  function GatewayOf(id: Hex): (g: Gateway)
    requires |id| == 16
    ensures |g.serial| == 8 && |g.panid| == 4
  {
    var serial := Unhex(id);
    Gateway(serial, [0, 0] + serial[6..8])
  }

  /** The path of the gateway's own node: no hops, and the last four bytes of its id. */
  method GatewayNodePath(id: Hex) returns (p: PathInfo)
    requires |id| == 16
    ensures p == PathInfo(0, Unhex(id)[4..])
  {
    var path := [];
    var i := 8;
    while i < 16
      invariant 8 <= i <= 16 && i % 2 == 0 && path == Unhex(id)[4..i / 2]
    {
      path := path + [ByteAt(id, i)];
      i := i + 2;
    }
    p := PathInfo(0, path);
  }

  /** Bytes behind the fixed header: the route, or the gateway's address when there are no hops. */
  function RouteSize(hops: byte): nat {
    if hops > 0 then 4 * hops else 4
  }

  /** Hex text as bytes, as a scan of two digits at a time writes them into a buffer. */
  method ConvertHex(source: Hex) returns (bytes: seq<byte>)
    ensures bytes == Unhex(source)
  {
    bytes := [];
    var i := 0;
    while i < |source| / 2
      invariant 0 <= i <= |source| / 2 && bytes == Unhex(source)[..i]
    {
      bytes := bytes + [ByteAt(source, 2 * i)];
      i := i + 1;
    }
  }

  /** Bytes behind the gateway's own eight in a decoded path: of each eight the last four. */
  function Destination(path: seq<byte>, hops: byte): (r: seq<byte>)
    requires |path| >= 8 * (hops + 1)
    ensures |r| == RouteSize(hops)
  {
    if hops == 0 then path[4..8]
    else seq(4 * hops, n requires 0 <= n < 4 * hops => path[8 * (n / 4) + 12 + n % 4])
  }

  /** Collects the destination block by block, for every whole block of the path. */
  method DestinationOfPath(path: seq<byte>, hops: byte) returns (dest: seq<byte>)
    requires |path| >= 8 * (hops + 1)
    ensures RouteSize(hops) <= |dest| && dest[..RouteSize(hops)] == Destination(path, hops)
  {
    if hops == 0 {
      return path[4..8];
    }
    dest := [];
    var blocks := 0;
    while 8 * blocks + 16 <= |path|
      invariant |dest| == 4 * blocks && 8 * blocks + 8 <= |path|
      invariant forall n :: 0 <= n < |dest| ==> dest[n] == path[8 * (n / 4) + 12 + n % 4]
    {
      var more := dest + path[8 * blocks + 12..8 * blocks + 16];
      forall n | 0 <= n < |more| ensures more[n] == path[8 * (n / 4) + 12 + n % 4] {
        if n >= |dest| {
          HopOf(blocks, n - |dest|);
        }
      }
      dest := more;
      blocks := blocks + 1;
    }
  }

  /** What the on-demand framer makes of the fields of a command, all spelled in hex. */
  function OnDemandFrame(gatewayId: Hex, ping: bool, hops: byte, path: Hex, command: Hex): (r: seq<byte>)
    requires |gatewayId| == 16 && |path| / 2 >= 8 * (hops + 1)
  {
    var dest, cmd := Destination(Unhex(path), hops), Unhex(command);
    LaidOut(if ping then MESH_PING_REQUEST else MESH_DATA_QUERY,
      [0, 0] + Unhex(gatewayId[12..]), Unhex(gatewayId[8..]), hops, dest, cmd)
  }

  function LaidOut(packetType: byte, pan: seq<byte>, source: seq<byte>, hops: byte, dest: seq<byte>, cmd: seq<byte>): (r: seq<byte>) {
    [HES_START_BYTE, (FIXED_HEADER + |dest| + |cmd| - 1) % 256, packetType] + pan + source + [0, hops] + dest + cmd
  }

  /** The on-demand framer: everything is spelled in the command's fields. */
  method BuildPmeshFrame(gatewayId: Hex, ping: bool, hops: byte, path: Hex, command: Hex) returns (packet: seq<byte>)
    requires |gatewayId| == 16 && 8 * (hops + 1) <= |path| / 2 <= PATH_BUFFER && |command| / 2 <= COMMAND_BUFFER
    ensures packet == OnDemandFrame(gatewayId, ping, hops, path, command)
  {
    var cmd := ConvertHex(command);
    var packetType := if ping then MESH_PING_REQUEST else MESH_DATA_QUERY;
    var pan := ConvertHex(gatewayId[12..]);
    var source := ConvertHex(gatewayId[8..]);
    var bytes := ConvertHex(path);
    var dest := DestinationOfPath(bytes, hops);
    packet := BuildOdmPmeshPacket(packetType, [0, 0] + pan, source, hops, dest, cmd);
  }

  /** Lays the frame out in a buffer of its final size. */
  method BuildOdmPmeshPacket(packetType: byte, pan: seq<byte>, source: seq<byte>, hops: byte, dest: seq<byte>, command: seq<byte>)
    returns (packet: seq<byte>)
    requires |pan| == 4 && |source| == 4 && |dest| >= RouteSize(hops)
    ensures packet == LaidOut(packetType, pan, source, hops, dest[..RouteSize(hops)], command)
  {
    var pmhLen := if hops > 0 then FIXED_HEADER + hops * 4 else FIXED_HEADER + 4;
    var totalLen := pmhLen + |command|;
    var buf := new byte[totalLen](_ => 0);
    PutHeader(buf, packetType, pan, source, hops);
    ghost var head := buf[..13];
    Put(buf, 13, dest[..pmhLen - 13]);
    Put(buf, pmhLen, command);
    packet := buf[..];
    assert packet[..13] == head;
    assert packet[13..pmhLen] == dest[..RouteSize(hops)] && packet[pmhLen..] == command;
    assert packet == packet[..13] + packet[13..pmhLen] + packet[pmhLen..];
  }

  /** The fixed part of a frame, field by field. */
  method PutHeader(buf: array<byte>, packetType: byte, pan: seq<byte>, source: seq<byte>, hops: byte)
    requires |pan| == 4 && |source| == 4 && buf.Length >= FIXED_HEADER
    modifies buf
    ensures buf[..13] == [HES_START_BYTE, (buf.Length - 1) % 256, packetType] + pan + source + [0, hops]
  {
    buf[0], buf[1], buf[2] := HES_START_BYTE, (buf.Length - 1) % 256, packetType;
    Put(buf, 3, pan);
    Put(buf, 7, source);
    buf[11], buf[12] := 0, hops;
    assert buf[..3] == [HES_START_BYTE, (buf.Length - 1) % 256, packetType];
    assert buf[3..7] == pan && buf[7..11] == source && buf[11..13] == [0, hops];
    assert buf[..13] == buf[..3] + buf[3..7] + buf[7..11] + buf[11..13];
  }

  /** Copies a block into a buffer. */
  method Put(buf: array<byte>, at: nat, block: seq<byte>)
    requires at + |block| <= buf.Length
    modifies buf
    ensures forall i :: 0 <= i < buf.Length ==> buf[i] == if at <= i < at + |block| then block[i - at] else old(buf[i])
  {
    forall i | at <= i < at + |block| { buf[i] := block[i - at]; }
  }

  lemma TailOfId(id: Hex)
    requires |id| == 16
    ensures Unhex(id[12..]) == Unhex(id)[6..8] && Unhex(id[8..]) == Unhex(id)[4..]
  {
  }

  lemma DestinationIsRoute(path: Hex, hops: byte)
    requires |path| == 16 * (hops + 1)
    ensures Destination(Unhex(path), hops) == if hops == 0 then Unhex(path)[4..] else Route(path[16..], hops)
  {
    if hops > 0 {
      var rest: Hex := path[16..];
      var bytes := Unhex(path);
      forall n | 0 <= n < 4 * hops ensures Destination(bytes, hops)[n] == Route(rest, hops)[n] {
        var k, j := n / 4, n % 4;
        assert bytes[8 * k + 12 + j] == ByteAt(path, 16 * k + 24 + 2 * j);
        assert ByteAt(rest, 16 * k + 8 + 2 * j) == ByteAt(path, 16 * k + 24 + 2 * j);
      }
    }
  }

  /** The path the pull side keeps for a node: the stored path's route, or for the gateway itself
      the address cut from its id. */
  function PulledPath(id: Hex, hops: byte, stored: Hex): PathInfo
    requires |id| == 16 && |stored| == 16 * hops
  {
    if hops == 0 then PathInfo(0, Unhex(id)[4..]) else PathInfo(hops, Route(stored, hops))
  }

  lemma SamePath(id: Hex, hops: byte, stored: Hex)
    requires |id| == 16 && |stored| == 16 * hops
    ensures Destination(Unhex(id + stored), hops) == PulledPath(id, hops, stored).path
  {
    var whole: Hex := id + stored;
    assert whole[16..] == stored;
    assert hops == 0 ==> whole == id;
    DestinationIsRoute(whole, hops);
  }

  /** The two framers agree: for every gateway and stored path, the on-demand frame, whose path field
      is the gateway id followed by the stored path, is the pull frame on the extracted route. */
  lemma FramersAgree(id: Hex, ping: bool, hops: byte, stored: Hex, command: Hex)
    requires |id| == 16 && |stored| == 16 * hops
    ensures OnDemandFrame(id, ping, hops, id + stored, command)
      == Framed(if ping then MESH_PING_REQUEST else MESH_DATA_QUERY, GatewayOf(id), PulledPath(id, hops, stored), Unhex(command))
  {
    SamePath(id, hops, stored);
    TailOfId(id);
  }

  /** What every on-demand frame says in front of its route: start byte, length, type, a PAN id that ends in
      the last two bytes of the gateway's id, the last four bytes of that id, and the hop count. */
  lemma OnDemandHeader(id: Hex, ping: bool, hops: byte, stored: Hex, command: Hex)
    requires |id| == 16 && |stored| == 16 * hops
    ensures var f, g := OnDemandFrame(id, ping, hops, id + stored, command), Unhex(id);
      |f| == 13 + RouteSize(hops) + |command| / 2 && f[0] == 0x2E && f[1] == (|f| - 1) % 256 &&
      f[2] == (if ping then 0x0D else 0x07) && f[3..7] == [0, 0, g[6], g[7]] && f[7..11] == g[4..] && f[11..13] == [0, hops]
  {
    FramersAgree(id, ping, hops, stored, command);
    SamePath(id, hops, stored);
    HeaderOf(if ping then MESH_PING_REQUEST else MESH_DATA_QUERY, GatewayOf(id), PulledPath(id, hops, stored), Unhex(command));
  }

  lemma HeaderOf(packetType: byte, g: Gateway, route: PathInfo, cmd: seq<byte>)
    requires |g.serial| == 8 && |g.panid| == 4
    ensures var f := Framed(packetType, g, route, cmd);
      |f| == 13 + |route.path| + |cmd| && f[0] == 0x2E && f[1] == (|f| - 1) % 256 && f[2] == packetType &&
      f[3..7] == g.panid && f[7..11] == g.serial[4..] && f[11..13] == [0, route.hopCount % 256]
  {
    var size := FIXED_HEADER + |route.path| + |cmd|;
    var front, middle, rest := [HES_START_BYTE, (size - 1) % 256, packetType], g.panid + g.serial[4..], route.path + cmd;
    assert Framed(packetType, g, route, cmd) == front + middle + [0, route.hopCount % 256] + rest;
  }

  // ---- the address a response is checked against ----

  /** The last address of the route of a frame, or the one address of a frame without hops. */
  function AddressOf(f: seq<byte>): (r: seq<byte>)
    requires FIXED_HEADER < |f| && FIXED_HEADER + RouteSize(f[12]) <= |f|
  {
    f[FIXED_HEADER..FIXED_HEADER + RouteSize(f[12])][RouteSize(f[12]) - 4..]
  }

  /** The four address bytes a written frame is destined for, where the client remembers them. */
  method GetDestinationAddress(buf: seq<byte>) returns (found: bool, address: seq<byte>)
    requires FIXED_HEADER < |buf| && FIXED_HEADER + RouteSize(buf[12]) <= |buf|
    ensures found <==> (buf[0] == 0x2E || buf[0] == 0x2A) && (buf[2] == 0x0D || buf[2] == 0x07 || buf[2] == 0x03)
    ensures found ==> address == AddressOf(buf)
  {
    found, address := false, [];
    var cmdType := buf[2];
    if (buf[0] == HES_START_BYTE || buf[0] == NMS_START_BYTE) &&
       (cmdType == MESH_PING_REQUEST || cmdType == MESH_DATA_QUERY || cmdType == MESH_COMMISSION_PACKET) {
      var routers: int := buf[12];
      var at := if routers == 0x00 then 0 else (routers - 1) * 4;
      found, address := true, buf[FIXED_HEADER..][at..at + 4];
    }
  }

  /** A route that has as many bytes as its hop count says. */
  predicate Routed(route: PathInfo) {
    0 <= route.hopCount < 256 && |route.path| == RouteSize(route.hopCount)
  }

  /** The parts of a framed command are found where they are looked for: start byte, length, type, PAN id,
      the gateway's address, hop count, route with its last address, and the command behind it. */
  lemma FrameParts(packetType: byte, g: Gateway, route: PathInfo, cmd: seq<byte>)
    requires |g.serial| == 8 && |g.panid| == 4 && Routed(route)
    ensures var f := Framed(packetType, g, route, cmd);
      |f| == 13 + |route.path| + |cmd| && f[1] == (|f| - 1) % 256 && f[0] == 0x2E && f[2] == packetType &&
      f[3..7] == g.panid && f[7..11] == g.serial[4..] && f[11] == 0 && f[12] == route.hopCount &&
      f[13..13 + |route.path|] == route.path && f[13 + |route.path|..] == cmd &&
      AddressOf(f) == route.path[|route.path| - 4..] && f[FIXED_HEADER + RouteSize(f[12])..] == cmd
  {
    var f := Framed(packetType, g, route, cmd);
    var head := [HES_START_BYTE, (FIXED_HEADER + |route.path| + |cmd| - 1) % 256, packetType] + g.panid + g.serial[4..] + [0, route.hopCount % 256];
    assert |head| == 13 && f == head + route.path + cmd;
    assert f[13..13 + |route.path|] == route.path;
    assert f[3..7] == head[3..7] == g.panid && f[7..11] == head[7..11] == g.serial[4..];
  }
}
