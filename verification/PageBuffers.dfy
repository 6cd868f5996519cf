/** What a page buffer is at any moment of a run: the pages absorbed since it was last cleared.
    A buffer is committed when the number of parsed pages matches the index of the final page. */
module PageBuffers {
  import opened Bytes
  import opened DlmsRecords

  /** The record id that closes a block of the block load profile. */
  const BLOCK_END: byte := 0x06

  const TIMEOUT := 120

  datatype Profile = InstantaneousProfile | DailyLoad | BlockLoad | BillingHistory | PowerOn | PowerOff

  type Mac = seq<byte>

  datatype Key = Key(node: Mac, profile: Profile)

  /** Plain profiles collect one map; block load collects finished blocks and the one in progress. */
  datatype Content = Plain(records: RecordMap) | Blocks(completed: seq<RecordMap>, partial: RecordMap)

  datatype Buffer = Buffer(received: int, lastPacketTime: int, content: Content)

  /** A page after its checksum was found good. */
  datatype Packet = Packet(page: byte, nextPageStatus: byte, records: seq<Record>, parses: bool)

  function Empty(p: Profile): Content {
    if p == BlockLoad then Blocks([], map[]) else Plain(map[])
  }

  function Fresh(p: Profile): Buffer {
    Buffer(0, 0, Empty(p))
  }

  predicate Fits(b: Buffer, p: Profile) {
    b.content.Blocks? <==> p == BlockLoad
  }

  function AbsorbRecord(c: Content, r: Record): Content {
    match c
    case Plain(m) => Plain(m[r.id := r.content])
    case Blocks(done, partial) =>
      var now := partial[r.id := r.content];
      if r.id == BLOCK_END then Blocks(done + [now], map[]) else Blocks(done, now)
  }

  /** The records of a page written into a buffer, one after the other. */
  function Absorb(c: Content, rs: seq<Record>): Content {
    if rs == [] then c else AbsorbRecord(Absorb(c, rs[..|rs| - 1]), rs[|rs| - 1])
  }

  /** Clearing: a plain buffer forgets everything, a block load buffer keeps its last packet time. */
  function Cleared(b: Buffer): Buffer {
    match b.content
    case Plain(_) => Fresh(InstantaneousProfile)
    case Blocks(_, _) => Buffer(0, b.lastPacketTime, Blocks([], map[]))
  }

  /** A page arrives. A page that does not parse still leaves the records read before the failure. */
  function Taken(b: Buffer, p: Packet, now: int): Buffer {
    var content := Absorb(b.content, p.records);
    if p.parses then Buffer(b.received + 1, now, content) else b.(content := content)
  }

  /** The last page of a profile closes the buffer, committed or not. */
  function AfterPacket(b: Buffer, p: Packet, now: int): Buffer {
    if p.nextPageStatus == 0 then Cleared(Taken(b, p, now)) else Taken(b, p, now)
  }

  /** What a page makes the client insert into the database: at most the one finished profile. */
  function Inserted(b: Buffer, p: Packet, now: int): seq<Content> {
    var taken := Taken(b, p, now);
    if p.nextPageStatus == 0 && taken.received == p.page + 1 then [taken.content] else []
  }

  predicate Expired(b: Buffer, now: int) {
    b.received > 0 && now - b.lastPacketTime > TIMEOUT
  }

  function AfterCleanup(b: Buffer, now: int): Buffer {
    if Expired(b, now) then Cleared(b) else b
  }

  datatype Event = Arrived(key: Key, packet: Packet, now: int) | CleanedUp(now: int)

  /** The buffer of one key after an event; events of other keys pass it by. */
  function Step(k: Key, b: Buffer, e: Event): Buffer {
    match e
    case Arrived(key, p, now) => if key == k then AfterPacket(b, p, now) else b
    case CleanedUp(now) => AfterCleanup(b, now)
  }

  function Run(k: Key, events: seq<Event>): Buffer {
    if events == [] then Fresh(k.profile) else Step(k, Run(k, events[..|events| - 1]), events[|events| - 1])
  }

  /** The checksum-good pages of a key since its buffer was last cleared. */
  function SinceClear(k: Key, events: seq<Event>): seq<Packet> {
    if events == [] then []
    else SinceNow(k, Run(k, events[..|events| - 1]), SinceClear(k, events[..|events| - 1]), events[|events| - 1])
  }

  function SinceNow(k: Key, b: Buffer, since: seq<Packet>, e: Event): seq<Packet> {
    match e
    case Arrived(key, p, _) => if key != k then since else if p.nextPageStatus == 0 then [] else since + [p]
    case CleanedUp(now) => if Expired(b, now) then [] else since
  }

  function Parsed(ps: seq<Packet>): seq<Packet> {
    if ps == [] then []
    else Parsed(ps[..|ps| - 1]) + (if ps[|ps| - 1].parses then [ps[|ps| - 1]] else [])
  }

  function AbsorbAll(c: Content, ps: seq<Packet>): Content {
    if ps == [] then c else Absorb(AbsorbAll(c, ps[..|ps| - 1]), ps[|ps| - 1].records)
  }

  lemma {:induction false} AbsorbKeepsKind(c: Content, rs: seq<Record>)
    ensures Absorb(c, rs).Blocks? <==> c.Blocks?
  {
    if rs != [] {
      AbsorbKeepsKind(c, rs[..|rs| - 1]);
    }
  }

  lemma OneMorePage(c: Content, ps: seq<Packet>, p: Packet)
    ensures Parsed(ps + [p]) == Parsed(ps) + (if p.parses then [p] else [])
    ensures AbsorbAll(c, ps + [p]) == Absorb(AbsorbAll(c, ps), p.records)
  {
    assert (ps + [p])[..|ps|] == ps;
  }

  /** The counter is the number of these pages that parsed; the content is what all of them left behind. */
  predicate Tracks(b: Buffer, p: Profile, since: seq<Packet>) {
    Fits(b, p) && b.received == |Parsed(since)| && b.content == AbsorbAll(Empty(p), since)
  }

  lemma TracksOn(k: Key, b: Buffer, since: seq<Packet>, e: Event)
    requires Tracks(b, k.profile, since)
    ensures Tracks(Step(k, b, e), k.profile, SinceNow(k, b, since, e))
  {
    if e.Arrived? && e.key == k {
      OneMorePage(Empty(k.profile), since, e.packet);
      AbsorbKeepsKind(b.content, e.packet.records);
    }
  }

  /** In every reachable state a buffer is exactly the pages since its last clear. */
  lemma {:induction false} BufferIsSinceClear(k: Key, events: seq<Event>)
    ensures Tracks(Run(k, events), k.profile, SinceClear(k, events))
  {
    if events != [] {
      var earlier := events[..|events| - 1];
      BufferIsSinceClear(k, earlier);
      TracksOn(k, Run(k, earlier), SinceClear(k, earlier), events[|events| - 1]);
    }
  }

  // ---- the timeout ----

  lemma OneMoreStep(k: Key, events: seq<Event>, e: Event)
    ensures Run(k, events + [e]) == Step(k, Run(k, events), e)
  {
    assert (events + [e])[..|events|] == events;
  }

  /** Two minutes without a further page, and the next cleanup empties the buffer; before that it changes
      nothing. Only a page that parsed starts this time. */
  lemma CleanupIff(k: Key, events: seq<Event>, p: Packet, now: int, later: int)
    requires p.parses && p.nextPageStatus != 0
    ensures var waiting := events + [Arrived(k, p, now)];
      var b, c := Run(k, waiting), Run(k, waiting + [CleanedUp(later)]);
      b.received > 0 && b.lastPacketTime == now &&
      if later - now > 120 then c.received == 0 && c.content == Empty(k.profile) else c == b
  {
    var waiting := events + [Arrived(k, p, now)];
    OneMoreStep(k, events, Arrived(k, p, now));
    OneMoreStep(k, waiting, CleanedUp(later));
    BufferIsSinceClear(k, events);
    BufferIsSinceClear(k, waiting);
  }

  /** What a page that failed to parse leaves behind in an empty buffer is not waited for: no cleanup ever
      removes it. */
  lemma UncountedStays(k: Key, events: seq<Event>, p: Packet, now: int, later: int)
    requires Run(k, events).received == 0 && !p.parses && p.nextPageStatus != 0
    ensures var left := events + [Arrived(k, p, now)];
      Run(k, left + [CleanedUp(later)]).content == Absorb(Run(k, events).content, p.records)
  {
    var left := events + [Arrived(k, p, now)];
    OneMoreStep(k, events, Arrived(k, p, now));
    OneMoreStep(k, left, CleanedUp(later));
  }

  // ---- commit implies complete ----

  predicate HasParsed(ps: seq<Packet>, page: int) {
    exists j :: 0 <= j < |ps| && ps[j].page == page && ps[j].parses
  }

  /** Every page 0..k arrived and parsed. */
  predicate Complete(ps: seq<Packet>, k: nat) {
    forall i :: 0 <= i <= k ==> HasParsed(ps, i)
  }

  predicate PagesDistinct(ps: seq<Packet>) {
    forall i, j :: 0 <= i < j < |ps| ==> ps[i].page != ps[j].page
  }

  predicate PagesUpTo(ps: seq<Packet>, k: nat) {
    forall i :: 0 <= i < |ps| ==> ps[i].page <= k
  }

  function UpTo(k: nat): (s: set<int>) {
    if k == 0 then {0} else UpTo(k - 1) + {k}
  }

  lemma {:induction false} UpToFacts(k: nat)
    ensures |UpTo(k)| == k + 1
    ensures forall i :: i in UpTo(k) <==> 0 <= i <= k
  {
    if k > 0 {
      UpToFacts(k - 1);
    }
  }

  function PageSet(ps: seq<Packet>): (s: set<int>) {
    set j | 0 <= j < |ps| :: ps[j].page as int
  }

  lemma PageSetOfMore(ps: seq<Packet>)
    requires ps != []
    ensures PageSet(ps) == PageSet(ps[..|ps| - 1]) + {ps[|ps| - 1].page as int}
  {
    var before, last := ps[..|ps| - 1], ps[|ps| - 1];
    forall x | x in PageSet(before) ensures x in PageSet(ps) {
      var j :| 0 <= j < |before| && before[j].page as int == x;
      assert ps[j] == before[j];
    }
  }

  lemma DistinctOfMore(ps: seq<Packet>)
    requires ps != []
    ensures PagesDistinct(ps) <==> PagesDistinct(ps[..|ps| - 1]) && ps[|ps| - 1].page as int !in PageSet(ps[..|ps| - 1])
  {
    var before, last := ps[..|ps| - 1], ps[|ps| - 1];
    assert forall i :: 0 <= i < |before| ==> before[i] == ps[i];
  }

  /** A list has as many different page numbers as entries exactly when none repeats. */
  lemma {:induction false} PageSetSize(ps: seq<Packet>)
    ensures |PageSet(ps)| <= |ps|
    ensures |PageSet(ps)| == |ps| <==> PagesDistinct(ps)
  {
    if ps == [] {
      assert PageSet(ps) == {};
    } else {
      PageSetSize(ps[..|ps| - 1]);
      PageSetOfMore(ps);
      DistinctOfMore(ps);
      AddOne(PageSet(ps[..|ps| - 1]), ps[|ps| - 1].page as int);
    }
  }

  lemma AddOne(a: set<int>, x: int)
    ensures |a + {x}| == |a| + if x in a then 0 else 1
  {
    if x in a {
      assert a + {x} == a;
    }
  }

  lemma {:induction false} ParsedMembers(ps: seq<Packet>)
    ensures forall q :: q in Parsed(ps) <==> q in ps && q.parses
  {
    if ps != [] {
      ParsedMembers(ps[..|ps| - 1]);
      assert ps == ps[..|ps| - 1] + [ps[|ps| - 1]];
    }
  }

  lemma {:induction false} ParsedSize(ps: seq<Packet>)
    ensures |Parsed(ps)| <= |ps|
    ensures |Parsed(ps)| == |ps| ==> Parsed(ps) == ps
  {
    if ps != [] {
      ParsedSize(ps[..|ps| - 1]);
      assert ps == ps[..|ps| - 1] + [ps[|ps| - 1]];
    }
  }

  lemma HasParsedIff(ps: seq<Packet>, page: int)
    ensures HasParsed(ps, page) <==> page in PageSet(Parsed(ps))
  {
    ParsedMembers(ps);
    var good := Parsed(ps);
    if HasParsed(ps, page) {
      var j :| 0 <= j < |ps| && ps[j].page == page && ps[j].parses;
      assert ps[j] in good;
      var m :| 0 <= m < |good| && good[m] == ps[j];
    }
    if page in PageSet(good) {
      var m :| 0 <= m < |good| && good[m].page as int == page;
      assert good[m] in ps;
      var j :| 0 <= j < |ps| && ps[j] == good[m];
    }
  }

  lemma CompleteIsPageSet(ps: seq<Packet>, k: nat)
    ensures Complete(ps, k) <==> UpTo(k) <= PageSet(Parsed(ps))
  {
    UpToFacts(k);
    forall i ensures HasParsed(ps, i) <==> i in PageSet(Parsed(ps)) {
      HasParsedIff(ps, i);
    }
  }

  /** With exactly k+1 parsed pages, all of 0..k are among them if and only if no parsed page came
      twice and none lies beyond k. */
  lemma CountedIsCompleteIff(ps: seq<Packet>, k: nat)
    requires |Parsed(ps)| == k + 1
    ensures Complete(ps, k) <==> PagesDistinct(Parsed(ps)) && PagesUpTo(Parsed(ps), k)
  {
    var good := Parsed(ps);
    CompleteIsPageSet(ps, k);
    PageSetSize(good);
    UpToFacts(k);
    if UpTo(k) <= PageSet(good) {
      SubsetOfEqualSize(UpTo(k), PageSet(good));
      forall i | 0 <= i < |good| ensures good[i].page <= k {
        assert good[i].page as int in PageSet(good);
      }
    }
    if PagesDistinct(good) && PagesUpTo(good, k) {
      assert PageSet(good) <= UpTo(k);
      SubsetOfEqualSize(PageSet(good), UpTo(k));
    }
  }

  lemma SubsetOfEqualSize(a: set<int>, b: set<int>)
    requires a <= b && |a| >= |b|
    ensures a == b
  {
    var rest := b - a;
    assert b == a + rest;
    assert |b| == |a| + |rest|;
  }

  /** An insert happens exactly on the right count, and delivers what the pages left behind. */
  lemma InsertsMerge(k: Key, events: seq<Event>, p: Packet, now: int)
    requires p.nextPageStatus == 0
    ensures var pages := SinceClear(k, events) + [p];
      Inserted(Run(k, events), p, now) == if |Parsed(pages)| == p.page + 1 then [AbsorbAll(Empty(k.profile), pages)] else []
  {
    BufferIsSinceClear(k, events);
    OneMorePage(Empty(k.profile), SinceClear(k, events), p);
  }

  /** Commit implies complete. Whatever happened before, an insert at a final page with index k
      delivers what the pages since the last clear left behind, k+1 of which parsed; and if no
      page came twice and none lay beyond k, then each of the pages 0..k came once and parsed. */
  lemma CommitIsComplete(k: Key, events: seq<Event>, p: Packet, now: int)
    requires p.nextPageStatus == 0
    ensures var pages := SinceClear(k, events) + [p];
      var inserts := Inserted(Run(k, events), p, now);
      (inserts != [] <==> |Parsed(pages)| == p.page + 1) &&
      (inserts != [] ==> inserts == [AbsorbAll(Empty(k.profile), pages)]) &&
      (inserts != [] ==> (Complete(pages, p.page) <==> PagesDistinct(Parsed(pages)) && PagesUpTo(Parsed(pages), p.page))) &&
      (inserts != [] && PagesDistinct(pages) && PagesUpTo(pages, p.page) ==>
        Complete(pages, p.page) && |pages| == p.page + 1 && Parsed(pages) == pages)
  {
    var since := SinceClear(k, events);
    var pages := since + [p];
    InsertsMerge(k, events, p, now);
    if |Parsed(pages)| == p.page + 1 {
      CountedIsCompleteIff(pages, p.page);
      if PagesDistinct(pages) && PagesUpTo(pages, p.page) {
        DistinctPagesFit(pages, p.page);
      }
    }
  }

  /** Distinct pages within range, k+1 of which parsed: they are the pages 0..k, and all of them parsed. */
  lemma DistinctPagesFit(pages: seq<Packet>, k: nat)
    requires PagesDistinct(pages) && PagesUpTo(pages, k) && |Parsed(pages)| == k + 1
    ensures Complete(pages, k) && |pages| == k + 1 && Parsed(pages) == pages
  {
    AtMostOnce(pages, k);
    ParsedSize(pages);
    CountedIsCompleteIff(pages, k);
  }

  lemma AtMostOnce(pages: seq<Packet>, k: nat)
    requires PagesDistinct(pages) && PagesUpTo(pages, k)
    ensures |pages| <= k + 1
  {
    PageSetSize(pages);
    UpToFacts(k);
    assert PageSet(pages) <= UpTo(k);
    SubsetSize(PageSet(pages), UpTo(k));
  }

  lemma SubsetSize(a: set<int>, b: set<int>)
    requires a <= b
    ensures |a| <= |b|
  {
    assert b == a + (b - a);
  }

  /** The count alone is not enough: page 0 sent twice stands in for a final page that failed to parse. */
  lemma RepeatedPageCommitsIncomplete(k: Key, r: Record)
    ensures var twice := Arrived(k, Packet(0, 1, [r], true), 0);
      var last := Packet(1, 0, [], false);
      Inserted(Run(k, [twice, twice]), last, 0) != [] && !Complete(SinceClear(k, [twice, twice]) + [last], 1)
  {
    var first := Packet(0, 1, [r], true);
    var twice := Arrived(k, first, 0);
    var last := Packet(1, 0, [], false);
    assert [twice, twice][..1] == [twice] && [twice][..0] == [];
    assert SinceClear(k, [twice]) == [first];
    assert SinceClear(k, [twice, twice]) == [first, first];
    var b1 := Step(k, Fresh(k.profile), twice);
    assert Run(k, [twice]) == b1 && Run(k, [twice, twice]) == Step(k, b1, twice);
    var pages := [first, first, last];
    assert SinceClear(k, [twice, twice]) + [last] == pages;
    assert !HasParsed(pages, 1);
    assert forall j :: 0 <= j < |pages| && pages[j].parses ==> pages[j].page == 0;
  }

  // ---- the order of arrival ----

  /** Different pages mention different record ids. */
  predicate IdsDisjoint(ps: seq<Packet>) {
    forall i, j :: 0 <= i < j < |ps| ==> Ids(ps[i].records) !! Ids(ps[j].records)
  }

  lemma {:induction false} AbsorbIsMerge(m: RecordMap, rs: seq<Record>)
    ensures Absorb(Plain(m), rs) == Plain(Merge(m, rs))
  {
    if rs != [] {
      AbsorbIsMerge(m, rs[..|rs| - 1]);
    }
  }

  /** With disjoint ids every page keeps its own records to the end. */
  lemma {:induction false} PageSurvives(ps: seq<Packet>, i: nat, id: byte)
    requires IdsDisjoint(ps) && i < |ps| && id in Ids(ps[i].records)
    ensures var c := AbsorbAll(Plain(map[]), ps);
      c.Plain? && id in c.records && id in Merge(map[], ps[i].records) &&
      c.records[id] == Merge(map[], ps[i].records)[id]
  {
    var before, last := ps[..|ps| - 1], ps[|ps| - 1];
    PlainStaysPlain(before);
    var m := AbsorbAll(Plain(map[]), before).records;
    AbsorbIsMerge(m, last.records);
    MergeContents(m, last.records);
    if i < |before| {
      assert before[i] == ps[i];
      PageSurvives(before, i, id);
    }
  }

  lemma {:induction false} PlainStaysPlain(ps: seq<Packet>)
    ensures AbsorbAll(Plain(map[]), ps).Plain?
  {
    if ps != [] {
      PlainStaysPlain(ps[..|ps| - 1]);
      AbsorbIsMerge(AbsorbAll(Plain(map[]), ps[..|ps| - 1]).records, ps[|ps| - 1].records);
    }
  }

  /** Whatever a buffer holds was brought by one of its pages. */
  lemma {:induction false} BroughtBy(ps: seq<Packet>, id: byte) returns (i: nat)
    requires var c := AbsorbAll(Plain(map[]), ps); c.Plain? && id in c.records
    ensures i < |ps| && id in Ids(ps[i].records)
  {
    if ps != [] {
      var before, last := ps[..|ps| - 1], ps[|ps| - 1];
      PlainStaysPlain(before);
      var m := AbsorbAll(Plain(map[]), before).records;
      AbsorbIsMerge(m, last.records);
      MergeContents(m, last.records);
      if id in m {
        i := BroughtBy(before, id);
      } else {
        i := |ps| - 1;
      }
    }
  }

  lemma SameInOtherOrder(a: seq<Packet>, b: seq<Packet>, id: byte)
    requires IdsDisjoint(a) && IdsDisjoint(b)
    requires forall p :: p in a ==> p in b
    requires var c := AbsorbAll(Plain(map[]), a); c.Plain? && id in c.records
    ensures var ca, cb := AbsorbAll(Plain(map[]), a), AbsorbAll(Plain(map[]), b);
      cb.Plain? && id in cb.records && cb.records[id] == ca.records[id]
  {
    var i := BroughtBy(a, id);
    assert a[i] in b;
    var j :| 0 <= j < |b| && b[j] == a[i];
    PageSurvives(a, i, id);
    PageSurvives(b, j, id);
  }

  /** Pages with disjoint record ids may arrive in any order: the committed map is the same. */
  lemma ArrivalOrderIrrelevant(a: seq<Packet>, b: seq<Packet>)
    requires IdsDisjoint(a) && IdsDisjoint(b)
    requires forall p :: p in a <==> p in b
    ensures AbsorbAll(Plain(map[]), a) == AbsorbAll(Plain(map[]), b)
  {
    PlainStaysPlain(a);
    PlainStaysPlain(b);
    var ca, cb := AbsorbAll(Plain(map[]), a).records, AbsorbAll(Plain(map[]), b).records;
    forall id | id in ca ensures id in cb && cb[id] == ca[id] {
      SameInOtherOrder(a, b, id);
    }
    forall id | id in cb ensures id in ca {
      SameInOtherOrder(b, a, id);
    }
    assert ca == cb;
  }

  // ---- block load pages ----

  lemma {:induction false} AbsorbConcat(c: Content, a: seq<Record>, b: seq<Record>)
    ensures Absorb(c, a + b) == Absorb(Absorb(c, a), b)
  {
    if b == [] {
      assert a + b == a;
    } else {
      assert (a + b)[..|a + b| - 1] == a + b[..|b| - 1];
      AbsorbConcat(c, a, b[..|b| - 1]);
    }
  }

  function AllRecords(ps: seq<Packet>): seq<Record> {
    if ps == [] then [] else AllRecords(ps[..|ps| - 1]) + ps[|ps| - 1].records
  }

  /** Page boundaries do not matter: pages absorbed one by one give what one pass over the whole
      record stream gives, unfinished block included. */
  lemma {:induction false} PageBoundariesIrrelevant(c: Content, ps: seq<Packet>)
    ensures AbsorbAll(c, ps) == Absorb(c, AllRecords(ps))
  {
    if ps != [] {
      PageBoundariesIrrelevant(c, ps[..|ps| - 1]);
      AbsorbConcat(c, AllRecords(ps[..|ps| - 1]), ps[|ps| - 1].records);
    }
  }

  /** A block as the meter sends it: it ends with the closing id, which occurs nowhere before. */
  predicate IsBlock(rs: seq<Record>) {
    rs != [] && rs[|rs| - 1].id == 0x06 && IsOpen(rs[..|rs| - 1])
  }

  predicate IsOpen(rs: seq<Record>) {
    forall i :: 0 <= i < |rs| ==> rs[i].id != 0x06
  }

  function Flatten(blocks: seq<seq<Record>>): seq<Record> {
    if blocks == [] then [] else Flatten(blocks[..|blocks| - 1]) + blocks[|blocks| - 1]
  }

  function MergeEach(blocks: seq<seq<Record>>): (r: seq<RecordMap>) {
    if blocks == [] then [] else MergeEach(blocks[..|blocks| - 1]) + [Merge(map[], blocks[|blocks| - 1])]
  }

  lemma {:induction false} OpenStaysPartial(done: seq<RecordMap>, rs: seq<Record>)
    requires IsOpen(rs)
    ensures Absorb(Blocks(done, map[]), rs) == Blocks(done, Merge(map[], rs))
  {
    if rs != [] {
      OpenStaysPartial(done, rs[..|rs| - 1]);
    }
  }

  /** The splitter finds exactly the blocks that were sent: a stream of blocks and an unfinished
      rest gives the map of each block in order and the map of the rest as the block in progress. */
  lemma {:induction false} SplitterFindsBlocks(blocks: seq<seq<Record>>, rest: seq<Record>)
    requires forall i :: 0 <= i < |blocks| ==> IsBlock(blocks[i])
    requires IsOpen(rest)
    ensures Absorb(Empty(BlockLoad), Flatten(blocks) + rest) == Blocks(MergeEach(blocks), Merge(map[], rest))
  {
    AbsorbConcat(Empty(BlockLoad), Flatten(blocks), rest);
    if blocks == [] {
      OpenStaysPartial([], rest);
    } else {
      var earlier, last := blocks[..|blocks| - 1], blocks[|blocks| - 1];
      var opening := last[..|last| - 1];
      SplitterFindsBlocks(earlier, opening);
      assert Flatten(blocks) == (Flatten(earlier) + opening) + [last[|last| - 1]];
      assert ((Flatten(earlier) + opening) + [last[|last| - 1]])[..|Flatten(earlier) + opening|] == Flatten(earlier) + opening;
      OpenStaysPartial(MergeEach(blocks), rest);
    }
  }

  /** Every completed block contains the closing id, and the block in progress never does. */
  lemma {:induction false} BlocksClosed(rs: seq<Record>)
    ensures var c := Absorb(Empty(BlockLoad), rs);
      c.Blocks? && 0x06 !in c.partial && forall i :: 0 <= i < |c.completed| ==> 0x06 in c.completed[i]
  {
    if rs != [] {
      BlocksClosed(rs[..|rs| - 1]);
    }
  }
}
