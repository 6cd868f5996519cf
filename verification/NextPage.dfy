/** Multi-page on-demand requests: the request frame is edited in place for every further page and
    its checksum is patched by one instead of being recomputed. */
module NextPage {
  import opened Wrappers
  import opened ResponseCodes
  import opened Bytes

  const CMD_BH_PROFILE: byte := 2
  const CMD_DLP_PROFILE: byte := 3
  const CMD_BLP_PROFILE: byte := 4
  const PING_NODE: byte := 0x0D

  const DLMS_FLAG: byte := 0x2B

  /** Where the DLMS part of a mesh frame starts, by its hop count. */
  function DlmsStart(hops: byte): nat {
    if hops <= 1 then 17 else 17 + (hops - 1) * 4
  }

  /** Where the page index of a request sits; computed in one byte. */
  function PageOffset(hops: byte): byte {
    (if hops == 0 then 19 else 19 + (hops - 1) * 4) % 256
  }

  /** Profiles whose first request carries a time range, dropped from the second page on. */
  predicate Ranged(kind: byte) {
    kind == CMD_BH_PROFILE || kind == CMD_DLP_PROFILE || kind == CMD_BLP_PROFILE
  }

  /** Size of the DLMS part with the time range. */
  function RangedSize(kind: byte): nat {
    if kind == CMD_BH_PROFILE then 13 else 18
  }

  /** A request for a page: correct length byte, DLMS part in place, correct checksum. */
  predicate WellFormed(f: seq<byte>, page: byte) {
    18 <= |f| <= 256 && DlmsStart(f[12]) + 4 <= |f| && f[1] == |f| - 1 &&
    f[DlmsStart(f[12])] == DLMS_FLAG && f[DlmsStart(f[12]) + 2] == page &&
    f[|f| - 1] == Checksum(f[DlmsStart(f[12])..|f| - 1])
  }

  datatype Request = Request(kind: byte, frame: seq<byte>)

  /** A first request: page 0, and for the ranged profiles exactly the size that carries the range. */
  predicate IsFirst(r: Request) {
    WellFormed(r.frame, 0) && (Ranged(r.kind) ==> |r.frame| == DlmsStart(r.frame[12]) + RangedSize(r.kind))
  }

  const SMALLEST: seq<byte> := [0x2E, 20, 0, 0, 0, 0, 0, 0, 0, 0, 0, 0, 0, 0, 0, 0, 0, DLMS_FLAG, 0x03, 0, 0x2E]

  lemma SmallestIsFirst()
    ensures IsFirst(Request(0, SMALLEST))
  {
    var body: seq<byte> := SMALLEST[17..20];
    assert SumTo(body, 1) == 0x2B && SumTo(body, 2) == 0x2E && SumTo(body, 3) == 0x2E;
  }

  type FirstRequest = r: Request | IsFirst(r)
    witness (SmallestIsFirst(); Request(0, SMALLEST))

  // ---- one step, as the code edits the frame ----

  /** The edit stays inside the frame. */
  predicate CanStep(kind: byte, f: seq<byte>, pageIndex: byte) {
    12 < |f| && PageOffset(f[12]) < |f| && (Ranged(kind) && pageIndex == 1 ==> RangedSize(kind) <= |f|)
  }

  /** The literal bytes that replace a ranged DLMS part. */
  function SecondPage(kind: byte): (r: seq<byte>)
    requires Ranged(kind)
    ensures |r| == 8
  {
    if kind == CMD_BH_PROFILE then [0x2B, 0x07, 0x01, 0x0E, 0x02, 0x00, 0x00, 0x43]
    else if kind == CMD_DLP_PROFILE then [0x2B, 0x07, 0x01, 0x0E, 0x03, 0x00, 0x00, 0x44]
    else [0x2B, 0x07, 0x01, 0x0E, 0x04, 0x00, 0x00, 0x45]
  }

  function Stepped(kind: byte, f: seq<byte>, pageIndex: byte): (r: seq<byte>)
    requires CanStep(kind, f, pageIndex)
  {
    if Ranged(kind) && pageIndex == 1 then
      var start := |f| - RangedSize(kind);
      f[1 := (start + 7) % 256][..start] + SecondPage(kind)
    else
      f[PageOffset(f[12]) := pageIndex][|f| - 1 := Plus1(f[|f| - 1])]
  }

  // ---- the request for a page, built from scratch ----

  /** Appends the checksum of everything from `start` on. */
  function Sealed(f: seq<byte>, start: nat): (r: seq<byte>)
    requires start <= |f|
  {
    f + [Checksum(f[start..])]
  }

  /** The request for a page, up to its checksum: route, length byte, and the DLMS part naming the page. */
  function Open(r: FirstRequest, page: byte): (f: seq<byte>) {
    var ds := DlmsStart(r.frame[12]);
    if Ranged(r.kind) then r.frame[..ds][1 := ds + 7] + ShortBody(r.kind, page)
    else r.frame[..|r.frame| - 1][ds + 2 := page]
  }

  /** A profile request without a time range. */
  function ShortBody(kind: byte, page: byte): (r: seq<byte>) {
    [DLMS_FLAG, 0x07, page, 0x0E, kind, 0x00, 0x00]
  }

  /** The request for page `n`, with a full checksum. */
  function PageFrame(r: FirstRequest, n: nat): (f: seq<byte>) {
    if n == 0 then r.frame else Sealed(Open(r, n % 256), DlmsStart(r.frame[12]))
  }

  /** Sealing a frame whose length, flag and page bytes are in place makes it well-formed. */
  lemma SealedWellFormed(open: seq<byte>, ds: nat, page: byte)
    requires 17 <= ds && ds + 3 <= |open| <= 255 && ds == DlmsStart(open[12])
    requires open[1] == |open| && open[ds] == DLMS_FLAG && open[ds + 2] == page
    ensures WellFormed(Sealed(open, ds), page)
  {
    var f := Sealed(open, ds);
    assert f[ds..|f| - 1] == open[ds..];
  }

  /** What the open part of a request keeps of the first one, and what it states. */
  lemma OpenFacts(r: FirstRequest, page: byte)
    ensures var o, ds := Open(r, page), DlmsStart(r.frame[12]);
      17 <= ds && ds + 3 <= |o| <= 255 && o[1] == |o| && o[ds] == DLMS_FLAG && o[ds + 2] == page &&
      |o| == (if Ranged(r.kind) then ds + 7 else |r.frame| - 1) &&
      forall i :: 0 <= i < 17 && i != 1 ==> o[i] == r.frame[i]
  {
  }

  /** A request built from scratch is well-formed, keeps the route, and asks for its page. */
  lemma PageFrameWellFormed(r: FirstRequest, n: nat)
    ensures var f := PageFrame(r, n);
      WellFormed(f, n % 256) && (forall i :: 0 <= i < 17 && i != 1 ==> f[i] == r.frame[i]) &&
      |f| == if Ranged(r.kind) && n > 0 then DlmsStart(r.frame[12]) + 8 else |r.frame|
  {
    if n > 0 {
      OpenFacts(r, n % 256);
      SealedWellFormed(Open(r, n % 256), DlmsStart(r.frame[12]), n % 256);
    }
  }

  lemma SecondPageIsSealed(kind: byte)
    requires Ranged(kind)
    ensures SecondPage(kind) == Sealed(ShortBody(kind, 1), 0)
  {
    var body := ShortBody(kind, 1);
    assert SumTo(body, 1) == DLMS_FLAG && SumTo(body, 2) == 50 && SumTo(body, 3) == 51 && SumTo(body, 4) == 65;
    assert SumTo(body, 5) == 65 + kind && SumTo(body, 6) == 65 + kind;
    assert body[0..] == body;
  }

  /** Writing the next page byte moves the checksum by exactly one, also when the byte wraps. */
  lemma PatchIsRecompute(body: seq<byte>, at: nat)
    requires at < |body|
    ensures Checksum(body[at := Plus1(body[at])]) == Plus1(Checksum(body))
  {
    var sum: int := Sum(body);
    SumUpdateTo(body, at, Plus1(body[at]), |body|);
    SameLowByte(Sum(body[at := Plus1(body[at])]), sum + 1, if body[at] == 255 then -1 else 0);
    SameLowByte(sum % 256 + 1, sum + 1, -(sum / 256));
  }

  /** A page byte and a checksum byte behind it, written in place. */
  lemma TwoWrites(f: seq<byte>, at: nat, page: byte, checksum: byte)
    requires at < |f| - 1
    ensures f[at := page][|f| - 1 := checksum] == f[..|f| - 1][at := page] + [checksum]
  {
  }

  lemma BodyAfterWrite(f: seq<byte>, ds: nat, page: byte)
    requires ds + 2 < |f|
    ensures f[ds + 2 := page][ds..] == f[ds..][2 := page]
  {
  }

  /** A patched frame is the sealed frame of the next page. */
  lemma PatchedIsSealed(f: seq<byte>, page: byte)
    requires WellFormed(f, page)
    ensures var ds := DlmsStart(f[12]);
      PageOffset(f[12]) == ds + 2 < |f| - 1 &&
      f[ds + 2 := Plus1(page)][|f| - 1 := Plus1(f[|f| - 1])] == Sealed(f[..|f| - 1][ds + 2 := Plus1(page)], ds)
  {
    var ds, open := DlmsStart(f[12]), f[..|f| - 1];
    TwoWrites(f, ds + 2, Plus1(page), Plus1(f[|f| - 1]));
    BodyAfterWrite(open, ds, Plus1(page));
    assert open[ds..] == f[ds..|f| - 1];
    PatchIsRecompute(open[ds..], 2);
  }

  /** Sealing a frame from where its last part starts only concerns that part. */
  lemma SealTail(open: seq<byte>, head: seq<byte>, body: seq<byte>)
    requires open == head + body
    ensures Sealed(open, |head|) == head + Sealed(body, 0)
  {
    assert open[|head|..] == body && body[0..] == body;
  }

  /** The first step of a ranged profile. */
  lemma FirstStep(r: FirstRequest)
    requires Ranged(r.kind)
    ensures CanStep(r.kind, r.frame, 1) && Stepped(r.kind, r.frame, 1) == PageFrame(r, 1)
  {
    var ds := DlmsStart(r.frame[12]);
    var head := r.frame[..ds][1 := ds + 7];
    SecondPageIsSealed(r.kind);
    SealTail(Open(r, 1), head, ShortBody(r.kind, 1));
    assert r.frame[1 := ds + 7][..ds] == head;
  }

  lemma OpenNext(r: FirstRequest, page: byte, next: byte)
    ensures var o, ds := Open(r, page), DlmsStart(r.frame[12]);
      ds + 2 < |o| && o[ds + 2 := next] == Open(r, next)
  {
  }

  /** A sealed frame is patched into the sealed frame of the next page. */
  lemma PatchSealed(kind: byte, open: seq<byte>, ds: nat, page: byte, f: seq<byte>)
    requires ds <= |open| && f == Sealed(open, ds) && WellFormed(f, page) && ds == DlmsStart(f[12])
    requires Ranged(kind) ==> page != 0
    ensures CanStep(kind, f, Plus1(page)) && ds + 2 < |open|
    ensures Stepped(kind, f, Plus1(page)) == Sealed(open[ds + 2 := Plus1(page)], ds)
  {
    PatchedIsSealed(f, page);
    assert f[..|f| - 1] == open;
  }

  /** Every other step: a sealed frame is patched into the next one. */
  lemma LaterStep(r: FirstRequest, page: byte, f: seq<byte>)
    requires Ranged(r.kind) ==> page != 0
    requires f == Sealed(Open(r, page), DlmsStart(r.frame[12])) && WellFormed(f, page) && f[12] == r.frame[12]
    ensures CanStep(r.kind, f, Plus1(page))
    ensures Stepped(r.kind, f, Plus1(page)) == Sealed(Open(r, Plus1(page)), DlmsStart(r.frame[12]))
  {
    PatchSealed(r.kind, Open(r, page), DlmsStart(r.frame[12]), page, f);
    OpenNext(r, page, Plus1(page));
  }

  /** All requests but the first of a ranged profile are sealed. */
  lemma PageIsSealed(r: FirstRequest, n: nat)
    requires Ranged(r.kind) ==> n > 0
    ensures PageFrame(r, n) == Sealed(Open(r, n % 256), DlmsStart(r.frame[12]))
  {
    if n == 0 {
      assert Open(r, 0) == r.frame[..|r.frame| - 1];
    }
  }

  lemma StepOnSealed(r: FirstRequest, n: nat)
    requires Ranged(r.kind) ==> 0 < n < 256
    ensures var f := PageFrame(r, n);
      CanStep(r.kind, f, Plus1(n % 256)) && Stepped(r.kind, f, Plus1(n % 256)) == Sealed(Open(r, Plus1(n % 256)), DlmsStart(r.frame[12]))
  {
    PageFrameWellFormed(r, n);
    PageIsSealed(r, n);
    LaterStep(r, n % 256, PageFrame(r, n));
  }

  /** The step from the request of one page gives the request of the next. */
  lemma StepIsNextPage(r: FirstRequest, n: nat)
    requires Ranged(r.kind) ==> n < 256
    ensures var f := PageFrame(r, n);
      CanStep(r.kind, f, (n + 1) % 256) && Stepped(r.kind, f, (n + 1) % 256) == PageFrame(r, n + 1)
  {
    if Ranged(r.kind) && n == 0 {
      FirstStep(r);
    } else {
      Plus1Mod(n);
      StepOnSealed(r, n);
    }
  }

  lemma Plus1Mod(n: nat)
    ensures Plus1(n % 256) == (n + 1) % 256
  {
  }

  // ---- any number of steps ----

  /** Request frame, the page index the next step writes, and the page index a response must carry. */
  datatype Exchange = Exchange(frame: seq<byte>, pageIndex: byte, txPageIndex: byte)

  predicate Sound(e: Exchange) {
    WellFormed(e.frame, e.txPageIndex) && e.pageIndex == Plus1(e.txPageIndex)
  }

  predicate CanAdvance(kind: byte, e: Exchange) {
    CanStep(kind, e.frame, e.pageIndex)
  }

  function Advance(kind: byte, e: Exchange): Exchange
    requires CanAdvance(kind, e)
  {
    Exchange(Stepped(kind, e.frame, e.pageIndex), Plus1(e.pageIndex), Plus1(e.txPageIndex))
  }

  /** The exchange after `n` steps, as long as every edit stays inside the frame. */
  function Run(kind: byte, e: Exchange, n: nat): (r: Option<Exchange>) {
    if n == 0 then Some(e)
    else match Run(kind, e, n - 1)
      case None => None
      case Some(before) => if CanAdvance(kind, before) then Some(Advance(kind, before)) else None
  }

  predicate SoundAt(kind: byte, e: Exchange, n: nat) {
    var now := Run(kind, e, n);
    now.Some? && Sound(now.value)
  }

  /** The exchange is sound now and after each of the next `n` steps. */
  predicate SoundFor(kind: byte, e: Exchange, n: nat) {
    forall m :: 0 <= m <= n ==> SoundAt(kind, e, m)
  }

  function At(r: FirstRequest, n: nat): Exchange {
    Exchange(PageFrame(r, n), (n + 1) % 256, n % 256)
  }

  lemma SoundHere(r: FirstRequest, n: nat)
    ensures Sound(At(r, n))
  {
    PageFrameWellFormed(r, n);
    Plus1Mod(n);
  }

  lemma AdvanceIsAt(r: FirstRequest, n: nat)
    requires Ranged(r.kind) ==> n < 256
    ensures CanAdvance(r.kind, At(r, n)) && Advance(r.kind, At(r, n)) == At(r, n + 1)
  {
    Plus1Mod(n);
    Plus1Mod(n + 1);
    StepIsNextPage(r, n);
  }

  /** Cutting a time range that is no longer there cuts into the route. */
  lemma CutTooDeep(kind: byte, f: seq<byte>)
    requires Ranged(kind) && 17 <= |f| && |f| == DlmsStart(f[12]) + 8 && CanStep(kind, f, 1)
    ensures !WellFormed(Stepped(kind, f, 1), 1)
  {
    var start := |f| - RangedSize(kind);
    var g := Stepped(kind, f, 1);
    assert |g| == start + 8;
    if f[12] <= 1 {
      assert start <= 12 < start + 8;
      assert g[12] == SecondPage(kind)[12 - start];
    } else {
      assert |f| >= 29;
      assert start > 12 ==> g[12] == f[12];
      assert kind != CMD_BH_PROFILE && |f| == 29 ==> start == 11 && g[12] == SecondPage(kind)[1];
    }
  }

  predicate IsStep(kind: byte, before: Exchange, after: Exchange) {
    CanAdvance(kind, before) && Advance(kind, before) == after
  }

  /** A list of exchanges, each one step after the one before. */
  ghost predicate IsRun(kind: byte, states: seq<Exchange>) {
    forall i, j :: 0 <= i < j < |states| && j == i + 1 ==> IsStep(kind, states[i], states[j])
  }

  lemma {:induction false} RunIsLast(kind: byte, states: seq<Exchange>)
    requires states != [] && IsRun(kind, states)
    ensures Run(kind, states[0], |states| - 1) == Some(states[|states| - 1])
  {
    if |states| > 1 {
      RunIsLast(kind, states[..|states| - 1]);
    }
  }

  predicate IsStateTable(r: FirstRequest, states: seq<Exchange>) {
    forall n {:trigger At(r, n)} :: 0 <= n < |states| ==> states[n] == At(r, n)
  }

  lemma StateTable(r: FirstRequest, count: nat) returns (states: seq<Exchange>)
    ensures |states| == count && IsStateTable(r, states)
  {
    states := seq(count, n requires 0 <= n => At(r, n));
  }

  lemma StateStep(r: FirstRequest, states: seq<Exchange>, n: nat)
    requires IsStateTable(r, states) && n + 1 < |states| && (Ranged(r.kind) ==> n < 256)
    ensures IsStep(r.kind, states[n], states[n + 1])
  {
    AdvanceIsAt(r, n);
  }

  /** The run of a request is the sequence of its page frames. */
  lemma RunIsAt(r: FirstRequest, n: nat)
    requires Ranged(r.kind) ==> n <= 256
    ensures Run(r.kind, At(r, 0), n) == Some(At(r, n))
  {
    var states := StateTable(r, n + 1);
    forall i, j | 0 <= i < j < |states| && j == i + 1 ensures IsStep(r.kind, states[i], states[j]) {
      StateStep(r, states, i);
    }
    RunIsLast(r.kind, states);
  }

  /** One step too many: page index 1 comes round again. */
  lemma WrapBreaks(r: FirstRequest)
    requires Ranged(r.kind)
    ensures !SoundAt(r.kind, At(r, 0), 257)
  {
    RunIsAt(r, 256);
    var e := At(r, 256);
    PageFrameWellFormed(r, 256);
    if CanAdvance(r.kind, e) {
      CutTooDeep(r.kind, e.frame);
    }
  }

  lemma SoundFromStart(r: FirstRequest, n: nat)
    ensures SoundFor(r.kind, At(r, 0), n) <==> (!Ranged(r.kind) || n <= 256)
  {
    if !Ranged(r.kind) || n <= 256 {
      forall m | 0 <= m <= n ensures SoundAt(r.kind, At(r, 0), m) {
        RunIsAt(r, m);
        SoundHere(r, m);
      }
    } else {
      WrapBreaks(r);
      assert !SoundAt(r.kind, At(r, 0), 257);
    }
  }

  /** The request stays sound over every number of steps for the plain profiles; for the ranged
      profiles exactly as long as the one-byte page index has not come round to 1 again. */
  lemma SoundIff(r: FirstRequest, n: nat)
    ensures SoundFor(r.kind, Exchange(r.frame, 1, 0), n) <==> (!Ranged(r.kind) || n <= 256)
  {
    assert At(r, 0) == Exchange(r.frame, 1, 0);
    SoundFromStart(r, n);
  }

  /** What recomputing the checksum leaves of a buffer holding a frame of `total` bytes. */
  function Recalculated(buf: seq<byte>, total: nat): (r: seq<byte>)
    requires total <= |buf| && 12 < |buf| && DlmsStart(buf[12]) < |buf|
  {
    var ds := DlmsStart(buf[12]);
    if total < 18 || buf[ds] != DLMS_FLAG then buf
    else buf[total - 1 := if ds < total then Checksum(buf[ds..total - 1]) else 0]
  }

  /** On a well-formed request recomputing the checksum changes nothing: the patch was exact. */
  lemma RecalculationIsIdentity(f: seq<byte>, page: byte)
    requires WellFormed(f, page)
    ensures Recalculated(f, |f|) == f
  {
  }

  /** A buffer that is too short or carries no DLMS request is left alone. */
  lemma OthersUntouched(buf: seq<byte>, total: nat)
    requires total <= |buf| && 12 < |buf| && DlmsStart(buf[12]) < |buf|
    ensures var hops: int := buf[12];
      total < 18 || buf[if hops == 0 then 17 else 13 + 4 * hops] != 0x2B ==> Recalculated(buf, total) == buf
  {
  }

  /** A request whose checksum was damaged is repaired. */
  lemma RecalculationRepairs(f: seq<byte>, page: byte, damaged: byte)
    requires WellFormed(f, page)
    ensures Recalculated(f[|f| - 1 := damaged], |f|) == f
  {
    var g := f[|f| - 1 := damaged];
    assert g[DlmsStart(f[12])..|f| - 1] == f[DlmsStart(f[12])..|f| - 1];
  }

  // ---- the request loop ----

  /** One pass of the loop: the code the receive path returned, whether a write that follows gets
      through, whether the profile could be stored or the connection could be recovered, and where a
      failed recovery left the retry counter. */
  datatype Event = Event(code: int, sent: bool, good: bool, left: int)

  /** The request loop: whether it goes on, its three retry counters, how many "next page" answers
      there were, and for which pages a request was handed to the socket. */
  datatype Loop = Loop(open: bool, retry: int, poll: int, checksum: int, page: nat, writes: seq<nat>)

  /** The request for the current page is handed to the socket; a failed write ends the loop. */
  function Again(s: Loop, e: Event): Loop {
    s.(writes := s.writes + [s.page], open := e.sent)
  }

  /** Recovering the connection starts the counter anew when it succeeds; otherwise it has gone up by the
      attempts made before a write failed or all three were spent. */
  function AfterRecovery(retry: int, e: Event): int {
    if e.good then 1 else if retry < e.left < 3 then e.left else 3
  }

  /** What one answer makes of the loop. A ping is not repeated when the gateway stays silent. */
  function AfterEvent(kind: byte, s: Loop, e: Event): Loop {
    if !s.open then s
    else if e.code == SUCCESS then s.(retry := 1, open := !e.good)
    else if e.code == DLMS_SUCCESS then Again(s, e)
    else if e.code == TIMEOUT_RECEIVED then
      if s.retry == 3 then s.(retry := 1, open := false) else Again(s.(retry := s.retry + 1), e)
    else if e.code == DLMS_CONNECTION_FAILED then
      if s.retry == 3 then s.(retry := 1, open := false) else s.(retry := AfterRecovery(s.retry, e), open := e.good)
    else if e.code == POLL_TIMEOUT then
      if kind != PING_NODE && s.poll < 3 then Again(s.(poll := s.poll + 1), e) else s.(open := false)
    else if e.code == SUCCES_NEXT_PAGE then Again(s.(retry := 1, poll := 1, page := s.page + 1), e)
    else if e.code == DLMS_CHECKSUM_ERROR then
      var again := Again(s.(checksum := s.checksum + 1), e);
      again.(open := again.open && again.checksum <= 3)
    else if e.code == PMESH_ERROR || e.code == FAILED_PMESH_ERROR || e.code == DLMS_ERROR then s.(open := false)
    else s
  }

  /** The loop after these answers, when it began with this retry counter. */
  function RunLoop(kind: byte, retry: int, sent: bool, events: seq<Event>): (s: Loop) {
    if events == [] then Loop(sent, retry, 1, 1, 0, [0])
    else AfterEvent(kind, RunLoop(kind, retry, sent, events[..|events| - 1]), events[|events| - 1])
  }

  function Count(events: seq<Event>, code: int): nat {
    if events == [] then 0 else Count(events[..|events| - 1], code) + (if events[|events| - 1].code == code then 1 else 0)
  }

  /** The pages requested come in order from 0: after each request the same page again or the next. */
  ghost predicate InOrder(writes: seq<nat>, page: nat) {
    writes != [] && writes[0] == 0 && writes[|writes| - 1] == page &&
    forall i, j :: 0 <= i < j < |writes| && j == i + 1 ==> writes[i] <= writes[j] <= writes[i] + 1
  }

  lemma OneMoreWrite(writes: seq<nat>, page: nat, next: nat)
    requires InOrder(writes, page) && page <= next <= page + 1
    ensures InOrder(writes + [next], next)
  {
  }

  lemma StepInOrder(kind: byte, s: Loop, e: Event)
    requires InOrder(s.writes, s.page)
    ensures var t := AfterEvent(kind, s, e);
      InOrder(t.writes, t.page) && t.page <= s.page + if e.code == SUCCES_NEXT_PAGE then 1 else 0
  {
    OneMoreWrite(s.writes, s.page, s.page);
    OneMoreWrite(s.writes, s.page, s.page + 1);
  }

  lemma {:induction false} RequestsInOrder(kind: byte, retry: int, sent: bool, events: seq<Event>)
    ensures var s := RunLoop(kind, retry, sent, events);
      InOrder(s.writes, s.page) && s.page <= Count(events, SUCCES_NEXT_PAGE)
  {
    if events != [] {
      RequestsInOrder(kind, retry, sent, events[..|events| - 1]);
      StepInOrder(kind, RunLoop(kind, retry, sent, events[..|events| - 1]), events[|events| - 1]);
    }
  }

  /** On which answers the loop ends, by their numbers: a stored profile, a failed write, a spent counter, an
      unrecovered connection, silence after a ping, and the three errors that are final. */
  lemma EndsIff(kind: byte, s: Loop, e: Event)
    requires s.open
    ensures !AfterEvent(kind, s, e).open <==>
      (e.code == 0 && e.good) ||
      (e.code == 0x37 && !e.sent) ||
      (e.code == 0x06 && (s.retry == 3 || !e.sent)) ||
      (e.code == 0x25 && (s.retry == 3 || !e.good)) ||
      (e.code == 0xFF && (kind == 0x0D || s.poll >= 3 || !e.sent)) ||
      (e.code == 0x02 && !e.sent) ||
      (e.code == 0x29 && (s.checksum >= 3 || !e.sent)) ||
      e.code == 0x0F || e.code == 12 || e.code == 13
  {
  }

  /** What is sent on an answer, by its number: the next page exactly on 0x02, the same page again on a
      re-established connection, a timeout, silence and a checksum error while their counters last, and
      nothing otherwise. */
  lemma SendsExactly(kind: byte, s: Loop, e: Event)
    requires s.open
    ensures var t := AfterEvent(kind, s, e);
      t.page == (if e.code == 0x02 then s.page + 1 else s.page) &&
      t.writes == s.writes +
        if e.code == 0x02 then [s.page + 1]
        else if e.code == 0x37 || e.code == 0x29 || (e.code == 0x06 && s.retry != 3) || (e.code == 0xFF && kind != 0x0D && s.poll < 3)
          then [s.page]
        else []
  {
  }

  /** A failed recovery leaves the counter where its attempts took it: up by at least one, at most 3. */
  lemma RecoveryCounts(kind: byte, s: Loop, e: Event)
    requires s.open && 1 <= s.retry < 3 && e.code == 0x25
    ensures var t := AfterEvent(kind, s, e);
      if e.good then t.retry == 1 else s.retry < t.retry <= 3 && (s.retry < e.left <= 3 ==> t.retry == e.left)
  {
  }

  /** When the first request does not get through, nothing more is sent, whatever arrives. */
  lemma UnsentEnds(kind: byte, retry: int, events: seq<Event>)
    ensures var s := RunLoop(kind, retry, false, events); !s.open && s.writes == [0] && s.page == 0 && s.retry == retry
  {
    assert events[..0] == [];
    ClosedStays(kind, retry, false, events, 0);
  }

  /** How many "next page" answers were read while the loop was open. */
  function Turns(kind: byte, retry: int, sent: bool, events: seq<Event>): nat {
    if events == [] then 0
    else
      var before := events[..|events| - 1];
      Turns(kind, retry, sent, before) +
        (if RunLoop(kind, retry, sent, before).open && events[|events| - 1].code == 0x02 then 1 else 0)
  }

  /** For every script the page is the number of "next page" answers read, and those requests are all
      there: every page up to the current one was asked for. */
  lemma {:induction false} PageIsTurns(kind: byte, retry: int, sent: bool, events: seq<Event>)
    ensures var s := RunLoop(kind, retry, sent, events);
      s.page == Turns(kind, retry, sent, events) && forall p :: 0 <= p <= s.page ==> p in s.writes
  {
    if events != [] {
      var before := events[..|events| - 1];
      PageIsTurns(kind, retry, sent, before);
      if RunLoop(kind, retry, sent, before).open {
        SendsExactly(kind, RunLoop(kind, retry, sent, before), events[|events| - 1]);
      }
    }
  }

  /** Each "next page" answer read by an open loop adds the request for exactly the next page, and the
      loop goes on if and only if that write got through. */
  lemma NextPageTurns(kind: byte, retry: int, sent: bool, events: seq<Event>, e: Event)
    requires RunLoop(kind, retry, sent, events).open && e.code == 0x02
    ensures var s, t := RunLoop(kind, retry, sent, events), RunLoop(kind, retry, sent, events + [e]);
      t.writes == s.writes + [Turns(kind, retry, sent, events) + 1] && t.page == Turns(kind, retry, sent, events) + 1 &&
      (t.open <==> e.sent)
  {
    assert (events + [e])[..|events|] == events;
    var s := RunLoop(kind, retry, sent, events);
    PageIsTurns(kind, retry, sent, events);
    SendsExactly(kind, s, e);
    EndsIff(kind, s, e);
  }

  /** A profile of many pages, answered page by page, is asked for page by page: 0, 1, ..., k. */
  lemma {:induction false} PagesAnswered(kind: byte, retry: int, events: seq<Event>)
    requires forall i :: 0 <= i < |events| ==> events[i].code == 0x02 && events[i].sent
    ensures var s := RunLoop(kind, retry, true, events);
      s.open && |s.writes| == |events| + 1 && forall i :: 0 <= i <= |events| ==> s.writes[i] == i
    ensures Turns(kind, retry, true, events) == |events|
  {
    if events != [] {
      var before := events[..|events| - 1];
      PagesAnswered(kind, retry, before);
      assert before + [events[|events| - 1]] == events;
      NextPageTurns(kind, retry, true, before, events[|events| - 1]);
    }
  }

  // ---- the counters, told from the answers ----

  /** So many answers of this number since the last one that resets the counter. */
  function Since(events: seq<Event>, code: int, resets: set<int>): nat {
    if events == [] then 0
    else
      var last := events[|events| - 1].code;
      if last in resets then 0
      else Since(events[..|events| - 1], code, resets) + (if last == code then 1 else 0)
  }

  predicate SinceStart(events: seq<Event>, resets: set<int>) {
    forall i :: 0 <= i < |events| ==> events[i].code !in resets
  }

  /** What one answer adds to the counters of a loop that stays open. */
  lemma CountersStep(kind: byte, s: Loop, e: Event)
    requires s.open && AfterEvent(kind, s, e).open
    ensures var t := AfterEvent(kind, s, e);
      t.poll == (if e.code == 0x02 then 1 else if e.code == 0xFF then s.poll + 1 else s.poll) &&
      t.checksum == (if e.code == 0x29 then s.checksum + 1 else s.checksum) &&
      t.retry == if e.code in {0, 0x02, 0x25} then 1 else if e.code == 0x06 then s.retry + 1 else s.retry
  {
  }

  lemma SinceMore(events: seq<Event>, e: Event, resets: set<int>)
    ensures SinceStart(events + [e], resets) <==> SinceStart(events, resets) && e.code !in resets
  {
    var more := events + [e];
    assert more[|events|] == e && forall i :: 0 <= i < |events| ==> more[i] == events[i];
  }

  /** The counters as they follow from the answers. */
  predicate Told(s: Loop, retry: int, events: seq<Event>) {
    s.poll == 1 + Since(events, 0xFF, {0x02}) && s.checksum == 1 + Since(events, 0x29, {}) &&
    s.retry == (if SinceStart(events, {0, 0x02, 0x25}) then retry else 1) + Since(events, 0x06, {0, 0x02, 0x25})
  }

  lemma ToldMore(kind: byte, s: Loop, retry: int, events: seq<Event>, e: Event)
    requires Told(s, retry, events) && s.open && AfterEvent(kind, s, e).open
    ensures Told(AfterEvent(kind, s, e), retry, events + [e])
  {
    CountersStep(kind, s, e);
    SinceMore(events, e, {0, 0x02, 0x25});
    assert (events + [e])[..|events|] == events;
  }

  /** While the loop is open its counters are the answers read: silences since the last new page, checksum
      errors in all, and timeouts since the last success, new page or recovered connection, on top of what
      an earlier request left when there was none of these. */
  lemma {:induction false} CountersTell(kind: byte, retry: int, sent: bool, events: seq<Event>)
    requires RunLoop(kind, retry, sent, events).open
    ensures Told(RunLoop(kind, retry, sent, events), retry, events)
  {
    if events != [] {
      var before, e := events[..|events| - 1], events[|events| - 1];
      CountersTell(kind, retry, sent, before);
      assert before + [e] == events;
      ToldMore(kind, RunLoop(kind, retry, sent, before), retry, before, e);
    }
  }

  /** Retries left until the loop gives up. */
  function Patience(s: Loop): int {
    if s.open then (3 - s.retry) + (3 - s.poll) + (4 - s.checksum) else 0
  }

  predicate CountersOk(s: Loop) {
    1 <= s.retry <= 3 && 1 <= s.poll <= 3 && 1 <= s.checksum && (s.open ==> s.checksum <= 3)
  }

  /** What an answer may add: a new page, a connection or a stored profile resets counters. */
  function Cost(code: int): int {
    if code == SUCCES_NEXT_PAGE then 5
    else if code == DLMS_SUCCESS then 1
    else if code == DLMS_CONNECTION_FAILED || code == SUCCESS then 2
    else 0
  }

  function Allowance(events: seq<Event>): int {
    5 * Count(events, SUCCES_NEXT_PAGE) + Count(events, DLMS_SUCCESS)
      + 2 * (Count(events, DLMS_CONNECTION_FAILED) + Count(events, SUCCESS))
  }

  lemma AllowanceGrows(events: seq<Event>)
    requires events != []
    ensures Allowance(events) == Allowance(events[..|events| - 1]) + Cost(events[|events| - 1].code)
  {
  }

  lemma StepPatience(kind: byte, s: Loop, e: Event)
    requires CountersOk(s)
    ensures var t := AfterEvent(kind, s, e);
      CountersOk(t) && |t.writes| + Patience(t) <= |s.writes| + Patience(s) + Cost(e.code)
  {
  }

  lemma {:induction false} PatienceRuns(kind: byte, retry: int, sent: bool, events: seq<Event>)
    requires 1 <= retry <= 3
    ensures var s := RunLoop(kind, retry, sent, events);
      CountersOk(s) && |s.writes| + Patience(s) <= 8 + Allowance(events)
  {
    if events != [] {
      var before := events[..|events| - 1];
      PatienceRuns(kind, retry, sent, before);
      StepPatience(kind, RunLoop(kind, retry, sent, before), events[|events| - 1]);
      AllowanceGrows(events);
    }
  }

  /** Request bound: besides one request per page and per re-established connection, timeouts, silence
      and checksum errors cause only a bounded number of repetitions. */
  lemma RequestBound(kind: byte, retry: int, sent: bool, events: seq<Event>)
    requires 1 <= retry <= 3
    ensures |RunLoop(kind, retry, sent, events).writes| <= 8 + Allowance(events)
  {
    PatienceRuns(kind, retry, sent, events);
  }

  /** The loop as functions, carried as values by the methods so that the solver does not unfold it there. */
  datatype Rules = Rules(step: (Loop, Event) -> Loop, run: seq<Event> -> Loop)

  ghost predicate RulesOf(g: Rules, kind: byte, retry: int, sent: bool) {
    (forall s, e {:trigger AfterEvent(kind, s, e)} :: g.step(s, e) == AfterEvent(kind, s, e)) &&
    (forall events {:trigger RunLoop(kind, retry, sent, events)} :: g.run(events) == RunLoop(kind, retry, sent, events))
  }

  function TheRules(kind: byte, retry: int, sent: bool): Rules {
    Rules((s, e) => AfterEvent(kind, s, e), events => RunLoop(kind, retry, sent, events))
  }

  lemma FirstPass(g: Rules, kind: byte, retry: int, sent: bool)
    requires RulesOf(g, kind, retry, sent)
    ensures g.run([]) == Loop(sent, retry, 1, 1, 0, [0])
  {
    assert RunLoop(kind, retry, sent, []) == g.run([]);
  }

  lemma OneMoreEvent(g: Rules, kind: byte, retry: int, sent: bool, events: seq<Event>, i: nat)
    requires RulesOf(g, kind, retry, sent) && i < |events|
    ensures g.run(events[..i + 1]) == g.step(g.run(events[..i]), events[i])
    ensures g.run(events[..i]).page + (if events[i].code == SUCCES_NEXT_PAGE then 1 else 0)
      <= Count(events, SUCCES_NEXT_PAGE)
  {
    assert events[..i + 1][..i] == events[..i];
    assert g.run(events[..i + 1]) == RunLoop(kind, retry, sent, events[..i + 1]);
    assert g.run(events[..i]) == RunLoop(kind, retry, sent, events[..i]);
    assert g.step(g.run(events[..i]), events[i]) == AfterEvent(kind, g.run(events[..i]), events[i]);
    RequestsInOrder(kind, retry, sent, events[..i]);
    CountGrows(events, i + 1, SUCCES_NEXT_PAGE);
  }

  /** The loop has ended, or the answers have. */
  lemma LastPass(g: Rules, kind: byte, retry: int, sent: bool, events: seq<Event>, i: nat)
    requires RulesOf(g, kind, retry, sent) && i <= |events| && (g.run(events[..i]).open ==> i == |events|)
    ensures g.run(events[..i]) == RunLoop(kind, retry, sent, events)
  {
    assert g.run(events[..i]) == RunLoop(kind, retry, sent, events[..i]);
    if i == |events| {
      assert events[..i] == events;
    } else {
      ClosedStays(kind, retry, sent, events, i);
    }
  }

  lemma {:induction false} CountGrows(events: seq<Event>, i: nat, code: int)
    requires i <= |events|
    ensures Count(events[..i], code) <= Count(events, code)
    decreases |events|
  {
    if i == |events| {
      assert events[..i] == events;
    } else {
      var shorter := events[..|events| - 1];
      assert shorter[..i] == events[..i];
      CountGrows(shorter, i, code);
    }
  }

  /** The requests for the first pages of a profile: a list the loop carries instead of the function, so
      that the solver does not build frames from scratch at every step of the loop. */
  predicate IsTable(r: FirstRequest, frames: seq<seq<byte>>) {
    forall n {:trigger PageFrame(r, n)} :: 0 <= n < |frames| ==> frames[n] == PageFrame(r, n)
  }

  /** The frames in a log are those of the table for these pages. */
  predicate FromTable(frames: seq<seq<byte>>, log: seq<seq<byte>>, pages: seq<nat>) {
    |log| == |pages| && forall i :: 0 <= i < |log| ==> pages[i] < |frames| && log[i] == frames[pages[i]]
  }

  lemma Table(r: FirstRequest, count: nat) returns (frames: seq<seq<byte>>)
    ensures |frames| == count && IsTable(r, frames)
  {
    frames := seq(count, n requires 0 <= n => PageFrame(r, n));
  }

  lemma TableStep(r: FirstRequest, frames: seq<seq<byte>>, n: nat)
    requires IsTable(r, frames) && n + 1 < |frames| && (Ranged(r.kind) ==> n < 256)
    ensures CanStep(r.kind, frames[n], (n + 1) % 256) && Stepped(r.kind, frames[n], (n + 1) % 256) == frames[n + 1]
  {
    StepIsNextPage(r, n);
  }

  lemma TableWellFormed(r: FirstRequest, frames: seq<seq<byte>>, n: nat)
    requires IsTable(r, frames) && n < |frames|
    ensures WellFormed(frames[n], n % 256)
  {
    PageFrameWellFormed(r, n);
  }

  lemma LogMore(frames: seq<seq<byte>>, log: seq<seq<byte>>, pages: seq<nat>, page: nat)
    requires pages != [] && FromTable(frames, log, pages[..|pages| - 1]) && pages[|pages| - 1] == page < |frames|
    ensures FromTable(frames, log + [frames[page]], pages)
  {
  }

  /** Every request handed to the socket is the one built from scratch for its page. */
  predicate Requests(r: FirstRequest, log: seq<seq<byte>>, pages: seq<nat>) {
    |log| == |pages| && forall i :: 0 <= i < |log| ==> log[i] == PageFrame(r, pages[i])
  }

  lemma LogRequests(r: FirstRequest, frames: seq<seq<byte>>, log: seq<seq<byte>>, pages: seq<nat>)
    requires IsTable(r, frames) && FromTable(frames, log, pages)
    ensures Requests(r, log, pages)
  {
    forall i | 0 <= i < |log| ensures log[i] == PageFrame(r, pages[i]) {
      assert frames[pages[i]] == PageFrame(r, pages[i]);
    }
  }

  class Client {
    /** The page a response must carry. */
    var txPageIndex: byte
    var retry: int

    constructor ()
    {
      txPageIndex, retry := 0, 1;
    }

    /** Replaces the DLMS part with the time range by the short one for page 1. */
    method DropRange(buf: array<byte>, length: nat, kind: byte) returns (newLength: nat)
      requires Ranged(kind) && RangedSize(kind) <= length <= buf.Length
      modifies buf
      ensures newLength == length - RangedSize(kind) + 8
      ensures buf[..newLength] == old(buf[..length])[1 := (newLength - 1) % 256][..newLength - 8] + SecondPage(kind)
    {
      ghost var was: seq<byte> := buf[..length];
      var start := length - RangedSize(kind);
      newLength := start + 8;
      buf[1] := (newLength - 1) % 256;
      assert buf[..start] == was[1 := (newLength - 1) % 256][..start];
      ghost var kept := buf[..start];
      forall i | start <= i < length { buf[i] := 0; }
      assert buf[..start] == kept;
      var body := SecondPage(kind);
      forall i | start <= i < start + 8 { buf[i] := body[i - start]; }
      assert buf[..start] == kept && buf[start..newLength] == body;
      assert buf[..newLength] == buf[..start] + buf[start..newLength];
    }

    /** Writes the page byte and counts the checksum up. */
    method PatchPage(buf: array<byte>, length: nat, offset: nat, page: byte)
      requires 0 < length <= buf.Length && offset < length
      modifies buf
      ensures buf[..length] == old(buf[..length])[offset := page][length - 1 := Plus1(old(buf[length - 1]))]
    {
      ghost var was: seq<byte> := buf[..length];
      var checksum: byte := Plus1(buf[length - 1]);
      buf[offset] := page;
      assert buf[..length] == was[offset := page];
      buf[length - 1] := checksum;
      assert buf[..length] == was[offset := page][length - 1 := checksum];
    }

    /** Edits the request for the next page and sends it again. */
    method HandleNextPage(buf: array<byte>, length: nat, kind: byte, pageIndex: byte, sent: bool)
      returns (ok: bool, newLength: nat, next: byte)
      requires length <= buf.Length && CanStep(kind, buf[..length], pageIndex)
      modifies buf
      ensures newLength <= buf.Length && buf[..newLength] == Stepped(kind, old(buf[..length]), pageIndex)
      ensures ok == sent && next == if sent then Plus1(pageIndex) else pageIndex
    {
      newLength := length;
      if Ranged(kind) && pageIndex == 1 {
        newLength := DropRange(buf, length, kind);
      } else {
        PatchPage(buf, length, PageOffset(buf[12]), pageIndex);
      }
      ok := sent;
      next := if sent then Plus1(pageIndex) else pageIndex;
    }

    /** Recomputes the checksum of the DLMS part in place. */
    method RecalculateDlmsChecksum(buf: array<byte>, total: nat)
      requires total <= buf.Length && 12 < buf.Length && DlmsStart(buf[12]) < buf.Length
      modifies buf
      ensures buf[..] == Recalculated(old(buf[..]), total)
    {
      if total < 18 {
        return;
      }
      var start := DlmsStart(buf[12]);
      if buf[start] != DLMS_FLAG {
        return;
      }
      var sum: nat := 0;
      var i := start;
      while i < total - 1
        invariant start <= i && (start <= total - 1 ==> i <= total - 1) && (start > total - 1 ==> i == start)
        invariant buf[..] == old(buf[..])
        invariant 0 <= sum < 0x1_0000_0000 && sum % 256 == SumTo(buf[start..], i - start) % 256
      {
        WrapKeepsLowByte(sum, SumTo(buf[start..], i - start), buf[i]);
        sum := (sum + buf[i]) % 0x1_0000_0000;
        i := i + 1;
      }
      ghost var was := buf[..];
      assert was == old(buf[..]) && start == DlmsStart(was[12]);
      if start < total {
        SumOfSlice(buf[start..], i - start);
        assert was[start..total - 1] == buf[start..][..i - start];
        assert sum % 256 == Checksum(was[start..total - 1]);
      } else {
        assert sum % 256 == 0;
      }
      buf[total - 1] := sum % 256;
      assert buf[..] == was[total - 1 := sum % 256];
    }

    /** Moves on to the next page and sends its request. */
    method Turn(buf: array<byte>, length: nat, kind: byte, pageIndex: byte, sent: bool, ghost r: FirstRequest, ghost page: nat, ghost frames: seq<seq<byte>>)
      returns (ok: bool, newLength: nat, next: byte)
      requires IsTable(r, frames) && page + 1 < |frames| && kind == r.kind && (Ranged(r.kind) ==> page < 256)
      requires length <= buf.Length && buf[..length] == frames[page]
      requires pageIndex == (page + 1) % 256 && txPageIndex == page % 256
      modifies buf, this`txPageIndex
      ensures newLength <= buf.Length && buf[..newLength] == frames[page + 1]
      ensures txPageIndex == (page + 1) % 256
      ensures ok == sent && (ok ==> next == (page + 2) % 256)
    {
      TableStep(r, frames, page);
      Plus1Mod(page);
      Plus1Mod(page + 1);
      txPageIndex := Plus1(txPageIndex);
      ok, newLength, next := HandleNextPage(buf, length, kind, pageIndex, sent);
    }

    /** Recomputes the checksum of a request the meter complained about; it was right already. */
    method Correct(buf: array<byte>, length: nat, ghost r: FirstRequest, ghost page: nat, ghost frames: seq<seq<byte>>)
      requires IsTable(r, frames) && page < |frames|
      requires length <= buf.Length && buf[..length] == frames[page]
      modifies buf
      ensures buf[..] == old(buf[..])
    {
      TableWellFormed(r, frames, page);
      RecalculationLocal(buf[..], length, page % 256);
      RecalculateDlmsChecksum(buf, length);
    }

    /** What one response makes of the request and the counters: the next page, the same page again, or
        nothing more. */
    method React(buf: array<byte>, length: nat, kind: byte, pageIndex: byte, pollRetry: int, checksumRetry: int, e: Event,
                 ghost r: FirstRequest, ghost s: Loop, ghost frames: seq<seq<byte>>, ghost g: Rules, ghost began: int, ghost sent: bool)
      returns (open: bool, writes: bool, newLength: nat, next: byte, poll: int, checksum: int)
      requires RulesOf(g, kind, began, sent)
      requires IsTable(r, frames) && s.page < |frames| && kind == r.kind
      requires e.code == SUCCES_NEXT_PAGE ==> s.page + 1 < |frames| && (Ranged(kind) ==> s.page < 256)
      requires length <= buf.Length && buf[..length] == frames[s.page]
      requires pageIndex == (s.page + 1) % 256 && txPageIndex == s.page % 256
      requires s.open && s.retry == retry && s.poll == pollRetry && s.checksum == checksumRetry
      modifies buf, this
      ensures var t := g.step(s, e);
        t.open == open && t.retry == retry && t.poll == poll && t.checksum == checksum &&
        t.writes == s.writes + (if writes then [t.page] else []) &&
        t.page < |frames| && newLength <= buf.Length && buf[..newLength] == frames[t.page] &&
        txPageIndex == t.page % 256 && (open ==> next == (t.page + 1) % 256)
    {
      assert g.step(s, e) == AfterEvent(kind, s, e);
      open, writes, newLength, next, poll, checksum := true, false, length, pageIndex, pollRetry, checksumRetry;
      if e.code == SUCCESS {
        retry := 1;
        open := !e.good;
      } else if e.code == DLMS_SUCCESS {
        writes, open := true, e.sent;
      } else if e.code == TIMEOUT_RECEIVED {
        writes := retry != 3;
        open := retry != 3 && e.sent;
        retry := if retry == 3 then 1 else retry + 1;
      } else if e.code == DLMS_CONNECTION_FAILED {
        open := retry != 3 && e.good;
        retry := if retry == 3 then 1 else AfterRecovery(retry, e);
      } else if e.code == POLL_TIMEOUT {
        writes := kind != PING_NODE && pollRetry < 3;
        open := writes && e.sent;
        poll := if writes then pollRetry + 1 else pollRetry;
      } else if e.code == SUCCES_NEXT_PAGE {
        retry, poll, writes := 1, 1, true;
        open, newLength, next := Turn(buf, length, kind, pageIndex, e.sent, r, s.page, frames);
      } else if e.code == DLMS_CHECKSUM_ERROR {
        checksum, writes := checksumRetry + 1, true;
        Correct(buf, length, r, s.page, frames);
        open := e.sent && checksum <= 3;
      } else if e.code == PMESH_ERROR || e.code == FAILED_PMESH_ERROR || e.code == DLMS_ERROR {
        open := false;
      }
    }

    /** The request loop over a script of responses, cut wherever the script ends. Its counters and
        writes are those of the loop function, and every frame it writes is the well-formed request
        for the page the meter is at. */
    method ProcessOdmRequest(buf: array<byte>, total: nat, kind: byte, sent: bool, events: seq<Event>)
      returns (log: seq<seq<byte>>)
      requires total <= buf.Length && IsFirst(Request(kind, buf[..total]))
      requires Ranged(kind) ==> Count(events, SUCCES_NEXT_PAGE) <= 256
      modifies this, buf
      ensures Requests(Request(kind, old(buf[..total])), log, RunLoop(kind, old(retry), sent, events).writes)
      ensures var s := RunLoop(kind, old(retry), sent, events); retry == s.retry && txPageIndex == s.page % 256
    {
      ghost var r: FirstRequest := Request(kind, buf[..total]);
      ghost var frames := Table(r, Count(events, SUCCES_NEXT_PAGE) + 1);
      ghost var g := TheRules(kind, retry, sent);
      assert frames[0] == PageFrame(r, 0);
      log := Serve(buf, total, kind, sent, events, r, frames, g);
      LogRequests(r, frames, log, RunLoop(kind, old(retry), sent, events).writes);
    }

    /** The loop itself. */
    method Serve(buf: array<byte>, total: nat, kind: byte, sent: bool, events: seq<Event>,
                 ghost r: FirstRequest, ghost frames: seq<seq<byte>>, ghost g: Rules)
      returns (log: seq<seq<byte>>)
      requires IsTable(r, frames) && |frames| == Count(events, SUCCES_NEXT_PAGE) + 1 && kind == r.kind
      requires total <= buf.Length && buf[..total] == frames[0]
      requires Ranged(kind) ==> Count(events, SUCCES_NEXT_PAGE) <= 256
      requires RulesOf(g, kind, retry, sent)
      modifies this, buf
      ensures var s := RunLoop(kind, old(retry), sent, events);
        FromTable(frames, log, s.writes) && retry == s.retry && txPageIndex == s.page % 256
    {
      ghost var began := retry;
      FirstPass(g, kind, began, sent);
      txPageIndex := 0;
      log := [buf[..total]];
      var length: nat, pageIndex := total, 1;
      var pollRetry, checksumRetry, i := 1, 1, 0;
      var open := sent;
      ghost var s := g.run([]);
      while open && i < |events|
        invariant 0 <= i <= |events| && s == g.run(events[..i])
        invariant s.open == open && s.retry == retry && s.poll == pollRetry && s.checksum == checksumRetry
        invariant s.page < |frames| && length <= buf.Length && buf[..length] == frames[s.page]
        invariant txPageIndex == s.page % 256 && (open ==> pageIndex == (s.page + 1) % 256)
        invariant FromTable(frames, log, s.writes)
      {
        OneMoreEvent(g, kind, began, sent, events, i);
        var writes;
        open, writes, length, pageIndex, pollRetry, checksumRetry :=
          React(buf, length, kind, pageIndex, pollRetry, checksumRetry, events[i], r, s, frames, g, began, sent);
        s := g.step(s, events[i]);
        i := i + 1;
        if writes {
          LogMore(frames, log, s.writes, s.page);
          log := log + [buf[..length]];
        }
      }
      LastPass(g, kind, began, sent, events, i);
    }
  }

  /** A loop that ended is not affected by later answers. */
  lemma {:induction false} ClosedStays(kind: byte, retry: int, sent: bool, events: seq<Event>, i: nat)
    requires i <= |events| && !RunLoop(kind, retry, sent, events[..i]).open
    ensures RunLoop(kind, retry, sent, events) == RunLoop(kind, retry, sent, events[..i])
    decreases |events|
  {
    if i == |events| {
      assert events[..i] == events;
    } else {
      var shorter := events[..|events| - 1];
      assert shorter[..i] == events[..i];
      ClosedStays(kind, retry, sent, shorter, i);
    }
  }

  /** Recomputing the checksum of a well-formed request leaves the whole buffer alone. */
  lemma RecalculationLocal(buf: seq<byte>, total: nat, page: byte)
    requires total <= |buf| && WellFormed(buf[..total], page)
    ensures Recalculated(buf, total) == buf
  {
    var f := buf[..total];
    var ds := DlmsStart(buf[12]);
    assert f[12] == buf[12];
    assert f[ds..total - 1] == buf[ds..total - 1];
  }
}
