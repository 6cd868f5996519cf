/** A profile pull as one flat machine: in every state one transmission is due, and its answer decides
    the next state. The nested loops of the client follow it step by step. */
module PullMachine {
  import opened Bytes
  import opened ResponseCodes
  import opened Paths

  /** Frames one transmission may write, page requests on one path, and the page where a path gives up. */
  const MAX_RETRIES := 3
  const PAGE_LIMIT := 16

  datatype Request = Page(index: byte) | DlmsConnect

  /** A frame: the path it goes out on and what it asks for. */
  datatype Frame = Frame(path: PathInfo, request: Request)

  /** Which path pages are asked for on: whatever is primary at that moment, or an alternate. */
  datatype Leg = Primary | Alternate(index: nat)

  /** Asking: a page is due on a leg on which `rounds` page requests were made before.
      Reconnecting: a DLMS connect is due, on the leg's own path (tried 0) or on alternate `tried - 1`.
      Stranded: the alternates were rebuilt while a reference to one of them was in use. */
  datatype Control =
    | Asking(leg: Leg, page: byte, rounds: nat)
    | Reconnecting(leg: Leg, page: byte, rounds: nat, tried: nat)
    | Done(code: int, page: byte)
    | Stranded(page: byte)

  datatype Driver = Driver(paths: NodePaths, at: Control)

  /** How a transmission ended: its code, whether the gateway is still connected, and the frames written. */
  datatype Answer = Answer(code: int, connected: bool, writes: nat)

  predicate LegOk(n: NodePaths, leg: Leg) {
    leg.Alternate? ==> leg.index < |n.alternates|
  }

  predicate Active(d: Driver) {
    match d.at
    case Asking(leg, _, rounds) => LegOk(d.paths, leg) && rounds < PAGE_LIMIT
    case Reconnecting(leg, _, rounds, tried) => LegOk(d.paths, leg) && 0 < rounds <= PAGE_LIMIT && tried <= |d.paths.alternates|
    case _ => false
  }

  function PathOf(n: NodePaths, leg: Leg): PathInfo
    requires LegOk(n, leg)
  {
    if leg.Primary? then n.primary else n.alternates[leg.index]
  }

  /** The transmission that is due. */
  function Demand(d: Driver): Frame
    requires Active(d)
  {
    match d.at
    case Asking(leg, page, _) => Frame(PathOf(d.paths, leg), Page(page))
    case Reconnecting(leg, _, _, tried) =>
      Frame(if tried == 0 then PathOf(d.paths, leg) else d.paths.alternates[tried - 1], DlmsConnect)
  }

  /** A leg failed: the next alternate is asked, unless there is none, or the gateway is gone after
      the primary path. */
  function NextLeg(n: NodePaths, leg: Leg, page: byte, connected: bool): Driver {
    var i := if leg.Primary? then 0 else leg.index + 1;
    if i < |n.alternates| && (leg.Alternate? || connected) then Driver(n, Asking(Alternate(i), page, 0))
    else Driver(n, Done(FAILURE, page))
  }

  /** The page loop goes on, unless it has gone round too often. */
  function Resume(n: NodePaths, leg: Leg, page: byte, rounds: nat, connected: bool): Driver {
    if rounds < PAGE_LIMIT then Driver(n, Asking(leg, page, rounds)) else NextLeg(n, leg, page, connected)
  }

  function AfterPage(n: NodePaths, leg: Leg, page: byte, rounds: nat, a: Answer): Driver
    requires LegOk(n, leg)
  {
    if a.code == NEXT_PAGE_PRESENT then
      if Plus1(page) >= PAGE_LIMIT then NextLeg(n, leg, Plus1(page), a.connected)
      else Resume(n, leg, Plus1(page), rounds + 1, a.connected)
    else if a.code == SUCCESS then
      Driver(if leg.Alternate? then Apply(n, Rotate(leg.index)) else n, Done(SUCCESS, page))
    else if a.code == DLMS_CONNECTION_FAILED then Driver(n, Reconnecting(leg, page, rounds + 1, 0))
    else if a.code == DLMS_ERROR then Driver(n, Done(FAILURE, page))
    else NextLeg(n, leg, page, a.connected)
  }

  predicate Reconnected(a: Answer) {
    a.code == DLMS_SUCCESS || a.code == SUCCESS
  }

  function AfterReconnect(n: NodePaths, leg: Leg, page: byte, rounds: nat, tried: nat, a: Answer): Driver
    requires LegOk(n, leg) && tried <= |n.alternates|
  {
    if Reconnected(a) then
      if tried == 0 then Resume(n, leg, page, rounds, a.connected)
      else if leg.Alternate? then Driver(Apply(n, Rebuild(tried - 1)), Stranded(page))
      else Resume(Apply(n, Rebuild(tried - 1)), leg, page, rounds, a.connected)
    else if a.code == DLMS_CONNECTION_FAILED then Driver(n, Done(FAILURE, page))
    else if tried < |n.alternates| && (tried > 0 || a.connected) then Driver(n, Reconnecting(leg, page, rounds, tried + 1))
    else Driver(n, Done(FAILURE, page))
  }

  function React(d: Driver, a: Answer): Driver
    requires Active(d)
  {
    match d.at
    case Asking(leg, page, rounds) => AfterPage(d.paths, leg, page, rounds, a)
    case Reconnecting(leg, page, rounds, tried) => AfterReconnect(d.paths, leg, page, rounds, tried, a)
  }

  // ---- runs ----

  /** Every answer was to a transmission that was due. */
  predicate IsRun(d: Driver, answers: seq<Answer>)
    decreases |answers|, 0
  {
    answers == [] ||
    (IsRun(d, answers[..|answers| - 1]) && Active(Run(d, answers[..|answers| - 1])) &&
     answers[|answers| - 1].writes <= MAX_RETRIES)
  }

  function Run(d: Driver, answers: seq<Answer>): Driver
    requires IsRun(d, answers)
    decreases |answers|, 1
  {
    if answers == [] then d else React(Run(d, answers[..|answers| - 1]), answers[|answers| - 1])
  }

  /** The same frame `n` times over. */
  function Copies(f: Frame, n: nat): (r: seq<Frame>)
    ensures |r| == n
  {
    if n == 0 then [] else Copies(f, n - 1) + [f]
  }

  /** The frames a run writes: each demand as often as its transmission wrote it. */
  function Frames(d: Driver, answers: seq<Answer>): (r: seq<Frame>)
    requires IsRun(d, answers)
    ensures |r| <= MAX_RETRIES * |answers|
  {
    if answers == [] then []
    else
      var before, last := answers[..|answers| - 1], answers[|answers| - 1];
      Frames(d, before) + Copies(Demand(Run(d, before)), last.writes)
  }

  /** The answer is a page: more to come, or the last one. */
  predicate BringsPage(a: Answer) {
    a.code == NEXT_PAGE_PRESENT || a.code == SUCCESS
  }

  /** The pages accepted, in order. */
  function Accepted(d: Driver, answers: seq<Answer>): seq<byte>
    requires IsRun(d, answers)
  {
    if answers == [] then []
    else
      var before, last := answers[..|answers| - 1], answers[|answers| - 1];
      Accepted(d, before) + (if Run(d, before).at.Asking? && BringsPage(last) then [Run(d, before).at.page] else [])
  }

  /** The promotions made, in order. */
  function Promotions(d: Driver, answers: seq<Answer>): seq<Promotion>
    requires IsRun(d, answers)
  {
    if answers == [] then []
    else
      var before, last := answers[..|answers| - 1], answers[|answers| - 1];
      Promotions(d, before) + PromotionAt(Run(d, before), last)
  }

  function PromotionAt(d: Driver, a: Answer): seq<Promotion>
    requires Active(d)
  {
    match d.at
    case Asking(leg, _, _) => if a.code == SUCCESS && leg.Alternate? then [Rotate(leg.index)] else []
    case Reconnecting(_, _, _, tried) => if Reconnected(a) && tried > 0 then [Rebuild(tried - 1)] else []
  }

  /** A pull begins with page 0 on the primary path. */
  function Begin(n: NodePaths): Driver {
    Driver(n, Asking(Primary, 0, 0))
  }

  lemma OneMoreAnswer(d: Driver, answers: seq<Answer>, a: Answer)
    requires IsRun(d, answers) && Active(Run(d, answers)) && a.writes <= MAX_RETRIES
    ensures var more := answers + [a];
      IsRun(d, more) && Run(d, more) == React(Run(d, answers), a) &&
      Frames(d, more) == Frames(d, answers) + Copies(Demand(Run(d, answers)), a.writes)
  {
    assert (answers + [a])[..|answers|] == answers;
  }

  /** The machine as functions of the answers alone. The methods of the client carry it as a value, so
      that the solver sees applications of unknown functions instead of unfolding the run in every method. */
  datatype Machine = Machine(start: Driver, ok: seq<Answer> -> bool, run: seq<Answer> -> Driver, frames: seq<Answer> -> seq<Frame>)

  ghost predicate Genuine(g: Machine) {
    forall answers {:trigger IsRun(g.start, answers)} ::
      g.ok(answers) == IsRun(g.start, answers) &&
      (IsRun(g.start, answers) ==> g.run(answers) == Run(g.start, answers) && g.frames(answers) == Frames(g.start, answers))
  }

  function MachineFrom(d: Driver): (g: Machine) {
    Machine(d, answers => IsRun(d, answers), answers => if IsRun(d, answers) then Run(d, answers) else d,
      answers => if IsRun(d, answers) then Frames(d, answers) else [])
  }

  lemma MachineIsGenuine(d: Driver)
    ensures Genuine(MachineFrom(d)) && MachineFrom(d).ok([]) && MachineFrom(d).run([]) == d && MachineFrom(d).frames([]) == []
  {
  }

  lemma GenuineStep(g: Machine, answers: seq<Answer>, a: Answer)
    requires Genuine(g) && g.ok(answers) && Active(g.run(answers)) && a.writes <= MAX_RETRIES
    ensures var more := answers + [a];
      g.ok(more) && g.run(more) == React(g.run(answers), Answer(a.code, a.connected, 0)) &&
      g.frames(more) == g.frames(answers) + Copies(Demand(g.run(answers)), a.writes)
  {
    assert IsRun(g.start, answers);
    OneMoreAnswer(g.start, answers, a);
    assert IsRun(g.start, answers + [a]);
    WritesDoNotMatter(Run(g.start, answers), a);
  }

  lemma WritesDoNotMatter(d: Driver, a: Answer)
    requires Active(d)
    ensures React(d, a) == React(d, Answer(a.code, a.connected, 0))
  {
  }

  lemma GenuineRun(g: Machine, answers: seq<Answer>)
    requires Genuine(g) && g.ok(answers)
    ensures IsRun(g.start, answers) && g.run(answers) == Run(g.start, answers) && g.frames(answers) == Frames(g.start, answers)
  {
    assert IsRun(g.start, answers) || !IsRun(g.start, answers);
  }

  // ---- gapless paging ----

  /** `count` consecutive page numbers from 0, modulo the width of the page byte. */
  function Pages(count: nat): (r: seq<byte>) {
    seq(count, i requires 0 <= i => i % 256)
  }

  predicate InStep(d: Driver, accepted: seq<byte>) {
    accepted == Pages(|accepted|) &&
    match d.at
    case Done(code, page) =>
      if code == SUCCESS then |accepted| > 0 && page == (|accepted| - 1) % 256 else page == |accepted| % 256
    case Asking(_, page, _) => page == |accepted| % 256
    case Reconnecting(_, page, _, _) => page == |accepted| % 256
    case Stranded(page) => page == |accepted| % 256
  }

  lemma StepInStep(d: Driver, a: Answer, accepted: seq<byte>)
    requires Active(d) && InStep(d, accepted)
    ensures InStep(React(d, a), accepted + if d.at.Asking? && BringsPage(a) then [d.at.page] else [])
  {
    if d.at.Asking? && BringsPage(a) {
      assert Plus1(d.at.page) == (|accepted| + 1) % 256;
    }
  }

  /** In every run, for any number of alternates and whatever it does in between, the accepted pages are
      consecutive from 0 in the one-byte counter, the page to be asked for is the next one, and success
      comes with the last page accepted. */
  lemma {:induction false} Gapless(n: NodePaths, answers: seq<Answer>)
    requires IsRun(Begin(n), answers)
    ensures InStep(Run(Begin(n), answers), Accepted(Begin(n), answers))
  {
    if answers != [] {
      var before, last := answers[..|answers| - 1], answers[|answers| - 1];
      Gapless(n, before);
      StepInStep(Run(Begin(n), before), last, Accepted(Begin(n), before));
    }
  }

  // ---- how far the page counter gets ----

  /** On the primary leg pages stay below the limit; each alternate tried adds at most one. */
  function PageCap(leg: Leg): int {
    if leg.Primary? then PAGE_LIMIT - 1 else PAGE_LIMIT + leg.index
  }

  predicate Capped(d: Driver, n: nat) {
    |d.paths.alternates| <= n &&
    match d.at
    case Asking(leg, page, _) => LegOk(d.paths, leg) && page <= PageCap(leg)
    case Reconnecting(leg, page, _, _) => LegOk(d.paths, leg) && page <= PageCap(leg)
    case Done(_, page) => page <= PAGE_LIMIT + n
    case Stranded(page) => page <= PAGE_LIMIT + n
  }

  lemma NextLegCapped(p: NodePaths, leg: Leg, page: byte, connected: bool, n: nat)
    requires |p.alternates| <= n && LegOk(p, leg) && page <= PageCap(leg) + 1
    ensures Capped(NextLeg(p, leg, page, connected), n)
  {
  }

  lemma ResumeCapped(p: NodePaths, leg: Leg, page: byte, rounds: nat, connected: bool, n: nat)
    requires |p.alternates| <= n && LegOk(p, leg) && page <= PageCap(leg)
    ensures Capped(Resume(p, leg, page, rounds, connected), n)
  {
    NextLegCapped(p, leg, page, connected, n);
  }

  lemma PageStepCapped(d: Driver, a: Answer, n: nat)
    requires Active(d) && d.at.Asking? && Capped(d, n) && n < 240
    ensures Capped(React(d, a), n)
  {
    var p, leg, page := d.paths, d.at.leg, d.at.page;
    if a.code == NEXT_PAGE_PRESENT {
      Plus1Small(page);
      NextLegCapped(p, leg, page + 1, a.connected, n);
      if page + 1 < PAGE_LIMIT {
        ResumeCapped(p, leg, page + 1, d.at.rounds + 1, a.connected, n);
      }
    } else if a.code == SUCCESS {
      if leg.Alternate? {
        PromotionKeepsPaths(p, Rotate(leg.index));
      }
    } else {
      NextLegCapped(p, leg, page, a.connected, n);
    }
  }

  lemma Plus1Small(page: byte)
    requires page < 255
    ensures Plus1(page) == page + 1
  {
  }

  lemma StepCapped(d: Driver, a: Answer, n: nat)
    requires Active(d) && Capped(d, n) && n < 240
    ensures Capped(React(d, a), n)
  {
    match d.at
    case Asking(_, _, _) => PageStepCapped(d, a, n);
    case Reconnecting(leg, page, rounds, tried) =>
      ResumeCapped(d.paths, leg, page, rounds, a.connected, n);
      if tried > 0 {
        PromotionKeepsPaths(d.paths, Rebuild(tried - 1));
        if leg.Primary? {
          ResumeCapped(Apply(d.paths, Rebuild(tried - 1)), leg, page, rounds, a.connected, n);
        }
      }
  }

  lemma {:induction false} StaysCapped(n: NodePaths, answers: seq<Answer>)
    requires IsRun(Begin(n), answers) && |n.alternates| < 240
    ensures Capped(Run(Begin(n), answers), |n.alternates|)
  {
    if answers != [] {
      var before := answers[..|answers| - 1];
      StaysCapped(n, before);
      StepCapped(Run(Begin(n), before), answers[|answers| - 1], |n.alternates|);
    }
  }

  /** The page counter never exceeds sixteen plus the number of alternates. */
  lemma PageBound(n: NodePaths, answers: seq<Answer>)
    requires IsRun(Begin(n), answers)
    ensures Run(Begin(n), answers).at.page <= PAGE_LIMIT + |n.alternates|
  {
    if |n.alternates| < 240 {
      StaysCapped(n, answers);
    }
  }

  // ---- each page once ----

  /** The accepted pages are exactly 0, 1, 2, ... up to the page before the one that is due, or up to the
      final page. */
  predicate Exactly(d: Driver, accepted: seq<byte>) {
    (forall i :: 0 <= i < |accepted| ==> accepted[i] == i) &&
    |accepted| == if d.at.Done? && d.at.code == SUCCESS then d.at.page + 1 else d.at.page
  }

  lemma StepExactly(d: Driver, a: Answer, accepted: seq<byte>, n: nat)
    requires Active(d) && Capped(d, n) && n < 240 && Exactly(d, accepted)
    ensures Exactly(React(d, a), accepted + if d.at.Asking? && BringsPage(a) then [d.at.page] else [])
  {
    if d.at.Asking? && BringsPage(a) {
      Plus1Small(d.at.page);
    }
  }

  /** Gapless paging: in every run of a pull with fewer than 240 alternates the accepted pages are exactly
      0..k, each once, and the counter is their number. */
  lemma {:induction false} EachPageOnce(n: NodePaths, answers: seq<Answer>)
    requires IsRun(Begin(n), answers) && |n.alternates| < 240
    ensures Exactly(Run(Begin(n), answers), Accepted(Begin(n), answers))
  {
    if answers != [] {
      var before, last := answers[..|answers| - 1], answers[|answers| - 1];
      EachPageOnce(n, before);
      StaysCapped(n, before);
      StepExactly(Run(Begin(n), before), last, Accepted(Begin(n), before), |n.alternates|);
    }
  }

  /** So many pages answered "more to come", one after the other. */
  function NextAnswers(k: nat): (r: seq<Answer>)
    ensures |r| == k
  {
    if k == 0 then [] else NextAnswers(k - 1) + [Answer(NEXT_PAGE_PRESENT, true, 1)]
  }

  /** Sixteen pages on the primary path, one on each alternate, until the counter wraps. */
  function AfterNext(k: nat): Control {
    if k < PAGE_LIMIT then Asking(Primary, k, k)
    else if k < 256 then Asking(Alternate(k - PAGE_LIMIT), k, 0)
    else Asking(Alternate(239), 0, 1)
  }

  lemma NextOnNext(n: NodePaths, k: nat)
    requires |n.alternates| >= 240 && k < 256
    ensures Active(Driver(n, AfterNext(k))) && AfterNext(k).page == k
    ensures React(Driver(n, AfterNext(k)), Answer(NEXT_PAGE_PRESENT, true, 1)) == Driver(n, AfterNext(k + 1))
  {
  }

  lemma {:induction false} AllNext(n: NodePaths, k: nat)
    requires |n.alternates| >= 240 && k <= 256
    ensures IsRun(Begin(n), NextAnswers(k)) && Run(Begin(n), NextAnswers(k)) == Driver(n, AfterNext(k))
    ensures |Accepted(Begin(n), NextAnswers(k))| == k
  {
    if k > 0 {
      AllNext(n, k - 1);
      NextOnNext(n, k - 1);
      assert NextAnswers(k)[..k - 1] == NextAnswers(k - 1);
    }
  }

  /** With 240 alternates the one-byte counter comes round: page 0 is accepted as the first and as the
      257th page. */
  lemma WrapAcceptsTwice(n: NodePaths) returns (answers: seq<Answer>)
    requires |n.alternates| >= 240
    ensures IsRun(Begin(n), answers)
    ensures var accepted := Accepted(Begin(n), answers); |accepted| == 257 && accepted[0] == 0 == accepted[256]
  {
    var before := NextAnswers(256);
    AllNext(n, 256);
    answers := before + [Answer(NEXT_PAGE_PRESENT, true, 1)];
    assert answers[..256] == before;
    Gapless(n, answers);
  }

  ghost predicate AcceptsOnce(n: NodePaths) {
    forall answers | IsRun(Begin(n), answers) :: NoRepeats(Accepted(Begin(n), answers))
  }

  predicate NoRepeats(pages: seq<byte>) {
    forall i, j :: 0 <= i < j < |pages| ==> pages[i] != pages[j]
  }

  /** No pull of a node accepts a page twice if and only if the node has fewer than 240 alternates. */
  lemma AcceptsOnceIff(n: NodePaths)
    ensures AcceptsOnce(n) <==> |n.alternates| < 240
  {
    if |n.alternates| < 240 {
      forall answers | IsRun(Begin(n), answers) ensures NoRepeats(Accepted(Begin(n), answers)) {
        EachPageOnce(n, answers);
      }
    } else {
      var answers := WrapAcceptsTwice(n);
      assert !NoRepeats(Accepted(Begin(n), answers));
    }
  }

  // ---- the dangling reference ----

  /** The one way to strand: a connect on an alternate succeeds while pages are read on an alternate. */
  lemma StrandsWhen(d: Driver, a: Answer)
    requires Active(d)
    ensures React(d, a).at.Stranded? <==> d.at.Reconnecting? && d.at.leg.Alternate? && d.at.tried > 0 && Reconnected(a)
  {
  }

  /** The primary path fails; the connection is lost on the first alternate, cannot be re-established
      there as the failed path, and then can as the first of the alternates. */
  const STRANDING: seq<Answer> := [
    Answer(FAILURE, true, 3), Answer(DLMS_CONNECTION_FAILED, true, 1), Answer(FAILURE, true, 3), Answer(DLMS_SUCCESS, true, 1)]

  lemma StrandingRun(n: NodePaths)
    requires n.alternates != []
    ensures IsRun(Begin(n), STRANDING) && Run(Begin(n), STRANDING).at == Stranded(0)
  {
    OneMoreAnswer(Begin(n), [], STRANDING[0]);
    OneMoreAnswer(Begin(n), [] + [STRANDING[0]], STRANDING[1]);
    OneMoreAnswer(Begin(n), [] + [STRANDING[0]] + [STRANDING[1]], STRANDING[2]);
    OneMoreAnswer(Begin(n), [] + [STRANDING[0]] + [STRANDING[1]] + [STRANDING[2]], STRANDING[3]);
    assert [] + [STRANDING[0]] + [STRANDING[1]] + [STRANDING[2]] + [STRANDING[3]] == STRANDING;
  }

  lemma {:induction false} NoAlternateNoStranding(n: NodePaths, answers: seq<Answer>)
    requires n.alternates == [] && IsRun(Begin(n), answers)
    ensures var d := Run(Begin(n), answers);
      d.paths == n && !d.at.Stranded? && (Active(d) ==> d.at.leg.Primary? && (d.at.Reconnecting? ==> d.at.tried == 0))
  {
    if answers != [] {
      NoAlternateNoStranding(n, answers[..|answers| - 1]);
    }
  }

  ghost predicate NeverStrands(n: NodePaths) {
    forall answers | IsRun(Begin(n), answers) :: !Run(Begin(n), answers).at.Stranded?
  }

  /** Every run of a pull is well defined if and only if the node has no alternates. */
  lemma NeverStrandsIff(n: NodePaths)
    ensures NeverStrands(n) <==> n.alternates == []
  {
    if n.alternates == [] {
      forall answers | IsRun(Begin(n), answers) ensures !Run(Begin(n), answers).at.Stranded? {
        NoAlternateNoStranding(n, answers);
      }
    } else {
      StrandingRun(n);
      assert !NeverStrands(n);
    }
  }

  // ---- how long a pull takes ----

  /** The transmissions `rounds` page rounds may take with `n` alternates: a page request, a reconnect on the
      path itself, and one on every alternate. */
  function Budget(rounds: nat, n: nat): nat {
    if rounds == 0 then 0 else Budget(rounds - 1, n) + n + 2
  }

  lemma {:induction false} BudgetClosed(rounds: nat, n: nat)
    ensures Budget(rounds, n) == rounds * (n + 2)
  {
    if rounds > 0 {
      BudgetClosed(rounds - 1, n);
    }
  }

  /** Page rounds left on this leg and on all legs after it, when there were `n` alternates. */
  function RoundsLeft(leg: Leg, rounds: nat, n: nat): int {
    PAGE_LIMIT - rounds + PAGE_LIMIT * (if leg.Primary? then n else n - 1 - leg.index)
  }

  /** Transmissions still possible. */
  function Left(d: Driver, n: nat): int
    requires |d.paths.alternates| <= n && (Active(d) || d.at.Done? || d.at.Stranded?)
  {
    match d.at
    case Asking(leg, _, rounds) => Budget(RoundsLeft(leg, rounds, n), n)
    case Reconnecting(leg, _, rounds, tried) => Budget(RoundsLeft(leg, rounds, n), n) + n + 1 - tried
    case _ => 0
  }

  predicate Live(d: Driver, n: nat) {
    |d.paths.alternates| <= n && (Active(d) || d.at.Done? || d.at.Stranded?)
  }

  lemma {:induction false} BudgetGrows(a: nat, b: nat, n: nat)
    requires a <= b
    ensures Budget(a, n) <= Budget(b, n)
    decreases b
  {
    if a < b {
      BudgetGrows(a, b - 1, n);
    }
  }

  lemma NextLegLeft(p: NodePaths, leg: Leg, page: byte, rounds: nat, connected: bool, n: nat)
    requires |p.alternates| <= n && rounds <= PAGE_LIMIT && LegOk(p, leg)
    ensures var d := NextLeg(p, leg, page, connected);
      Live(d, n) && 0 <= Left(d, n) <= Budget(RoundsLeft(leg, rounds, n), n)
  {
    var d := NextLeg(p, leg, page, connected);
    if d.at.Asking? {
      BudgetGrows(RoundsLeft(d.at.leg, 0, n), RoundsLeft(leg, rounds, n), n);
    }
  }

  lemma ResumeLeft(p: NodePaths, leg: Leg, page: byte, rounds: nat, connected: bool, n: nat)
    requires |p.alternates| <= n && rounds <= PAGE_LIMIT && LegOk(p, leg)
    ensures var d := Resume(p, leg, page, rounds, connected);
      Live(d, n) && 0 <= Left(d, n) <= Budget(RoundsLeft(leg, rounds, n), n)
  {
    NextLegLeft(p, leg, page, rounds, connected, n);
  }

  lemma RoundSpent(leg: Leg, rounds: nat, n: nat)
    requires rounds < PAGE_LIMIT && (leg.Alternate? ==> leg.index < n)
    ensures Budget(RoundsLeft(leg, rounds, n), n) == Budget(RoundsLeft(leg, rounds + 1, n), n) + n + 2
  {
  }

  lemma NextPageUsesOne(d: Driver, a: Answer, n: nat)
    requires Live(d, n) && Active(d) && d.at.Asking? && a.code == NEXT_PAGE_PRESENT
    ensures Live(React(d, a), n) && 0 <= Left(React(d, a), n) < Left(d, n)
  {
    var p, leg, page, rounds := d.paths, d.at.leg, d.at.page, d.at.rounds;
    RoundSpent(leg, rounds, n);
    if Plus1(page) >= PAGE_LIMIT {
      NextLegLeft(p, leg, Plus1(page), rounds + 1, a.connected, n);
    } else {
      ResumeLeft(p, leg, Plus1(page), rounds + 1, a.connected, n);
    }
  }

  lemma FinalPageUsesOne(d: Driver, a: Answer, n: nat)
    requires Live(d, n) && Active(d) && d.at.Asking? && a.code == SUCCESS
    ensures Live(React(d, a), n) && 0 <= Left(React(d, a), n) < Left(d, n)
  {
    RoundSpent(d.at.leg, d.at.rounds, n);
    if d.at.leg.Alternate? {
      PromotionKeepsPaths(d.paths, Rotate(d.at.leg.index));
    }
  }

  lemma OtherAnswerUsesOne(d: Driver, a: Answer, n: nat)
    requires Live(d, n) && Active(d) && d.at.Asking? && !BringsPage(a)
    ensures Live(React(d, a), n) && 0 <= Left(React(d, a), n) < Left(d, n)
  {
    RoundSpent(d.at.leg, d.at.rounds, n);
    if a.code != DLMS_CONNECTION_FAILED && a.code != DLMS_ERROR {
      NextLegLeft(d.paths, d.at.leg, d.at.page, d.at.rounds + 1, a.connected, n);
    }
  }

  lemma PageStepUsesOne(d: Driver, a: Answer, n: nat)
    requires Live(d, n) && Active(d) && d.at.Asking?
    ensures Live(React(d, a), n) && 0 <= Left(React(d, a), n) < Left(d, n)
  {
    if a.code == NEXT_PAGE_PRESENT {
      NextPageUsesOne(d, a, n);
    } else if a.code == SUCCESS {
      FinalPageUsesOne(d, a, n);
    } else {
      OtherAnswerUsesOne(d, a, n);
    }
  }

  lemma ReconnectUsesOne(d: Driver, a: Answer, n: nat)
    requires Live(d, n) && Active(d) && d.at.Reconnecting?
    ensures Live(React(d, a), n) && 0 <= Left(React(d, a), n) < Left(d, n)
  {
    var p, leg, page, rounds, tried := d.paths, d.at.leg, d.at.page, d.at.rounds, d.at.tried;
    if Reconnected(a) && tried == 0 {
      ResumeLeft(p, leg, page, rounds, a.connected, n);
    } else if Reconnected(a) {
      PromotionKeepsPaths(p, Rebuild(tried - 1));
      if leg.Primary? {
        ResumeLeft(Apply(p, Rebuild(tried - 1)), leg, page, rounds, a.connected, n);
      }
    }
  }

  /** Every answer uses up at least one of the transmissions left. */
  lemma StepUsesOne(d: Driver, a: Answer, n: nat)
    requires Live(d, n) && Active(d)
    ensures Live(React(d, a), n) && 0 <= Left(React(d, a), n) < Left(d, n)
  {
    if d.at.Asking? {
      PageStepUsesOne(d, a, n);
    } else {
      ReconnectUsesOne(d, a, n);
    }
  }

  lemma {:induction false} RunUsesUp(n: NodePaths, answers: seq<Answer>)
    requires IsRun(Begin(n), answers)
    ensures var d, m := Run(Begin(n), answers), |n.alternates|;
      Live(d, m) && 0 <= Left(d, m) <= Left(Begin(n), m) - |answers|
  {
    if answers != [] {
      var before := answers[..|answers| - 1];
      RunUsesUp(n, before);
      StepUsesOne(Run(Begin(n), before), answers[|answers| - 1], |n.alternates|);
    }
  }

  lemma WholeBudget(m: nat)
    ensures Budget(RoundsLeft(Primary, 0, m), m) == 16 * ((m + 1) * (m + 2))
  {
    BudgetClosed(RoundsLeft(Primary, 0, m), m);
    assert RoundsLeft(Primary, 0, m) == 16 * (m + 1);
    assert 16 * (m + 1) * (m + 2) == 16 * ((m + 1) * (m + 2));
  }

  /** Transmission bound: a pull with n alternates makes at most 16(n+1)(n+2) transmissions and writes at
      most 48(n+1)(n+2) frames, whatever the answers; while it is still active there is room for one more
      transmission. */
  lemma TransmissionBound(n: NodePaths, answers: seq<Answer>)
    requires IsRun(Begin(n), answers)
    ensures var m := |n.alternates|;
      |answers| + (if Active(Run(Begin(n), answers)) then 1 else 0) <= 16 * ((m + 1) * (m + 2)) &&
      |Frames(Begin(n), answers)| + (if Active(Run(Begin(n), answers)) then MAX_RETRIES else 0) <= 48 * ((m + 1) * (m + 2))
  {
    var m := |n.alternates|;
    RunUsesUp(n, answers);
    WholeBudget(m);
    var d := Run(Begin(n), answers);
    if Active(d) {
      StepUsesOne(d, Answer(FAILURE, true, 0), m);
    }
  }

  // ---- the frame after a frame ----

  /** A leg is given up: the due page is asked for on the next alternate, unless the gateway is gone after
      the primary path or there is no alternate left. */
  predicate GivesUp(d: Driver, page: byte, a: Answer, next: Driver)
    requires Active(d)
  {
    var alternates, leg := next.paths.alternates, d.at.leg;
    if leg.Primary? && a.connected && alternates != [] then
      Active(next) && Demand(next) == Frame(alternates[0], Page(page))
    else if leg.Alternate? && leg.index + 1 < |alternates| then
      Active(next) && Demand(next) == Frame(alternates[leg.index + 1], Page(page))
    else next.at == Done(-1, page)
  }

  /** What the answer to a page request makes the client send next, by the number it comes as. */
  lemma AfterPageRequest(d: Driver, a: Answer)
    requires Active(d) && d.at.Asking?
    ensures var next, path, page, rounds := React(d, a), Demand(d).path, d.at.page, d.at.rounds;
      Demand(d).request == Page(page) && (a.code != 0 ==> next.paths == d.paths) &&
      if a.code == 0 then next.at == Done(0, page)
      else if a.code == 13 then next.at == Done(-1, page)
      else if a.code == 0x25 then Active(next) && Demand(next) == Frame(path, DlmsConnect)
      else if a.code == 0x52 then
        if (page + 1) % 256 < 16 && rounds + 1 < 16 then Active(next) && Demand(next) == Frame(path, Page((page + 1) % 256))
        else GivesUp(d, (page + 1) % 256, a, next)
      else GivesUp(d, page, a, next)
  {
  }

  /** The same for a DLMS connect: the page that was due is asked for on the path that answered. */
  lemma AfterConnect(d: Driver, a: Answer)
    requires Active(d) && d.at.Reconnecting?
    ensures var next, path, page, tried := React(d, a), Demand(d).path, d.at.page, d.at.tried;
      Demand(d).request == DlmsConnect &&
      if a.code == 0x37 || a.code == 0 then
        if d.at.leg.Alternate? && tried > 0 then next.at == Stranded(page)
        else if d.at.rounds < 16 then Active(next) && Demand(next) == Frame(path, Page(page))
        else GivesUp(d, page, a, next)
      else
        next.paths == d.paths &&
        if a.code != 0x25 && tried < |d.paths.alternates| && (tried > 0 || a.connected) then
          Active(next) && Demand(next) == Frame(d.paths.alternates[tried], DlmsConnect)
        else next.at == Done(-1, page)
  {
  }

  /** A meter that refuses a page request with a DLMS error (13) ends the pull at once: no alternate is
      tried, nothing more is sent, and the paths stay as they are. */
  lemma RefusalEnds(n: NodePaths, answers: seq<Answer>, k: nat)
    requires IsRun(Begin(n), answers) && k < |answers| && answers[k].code == 13
    requires IsRun(Begin(n), answers[..k]) && Run(Begin(n), answers[..k]).at.Asking?
    ensures k == |answers| - 1
    ensures var before := Run(Begin(n), answers[..k]); Run(Begin(n), answers) == Driver(before.paths, Done(-1, before.at.page))
    decreases |answers|
  {
    if k < |answers| - 1 {
      var shorter := answers[..|answers| - 1];
      assert shorter[..k] == answers[..k];
      RefusalEnds(n, shorter, k);
    }
  }

  /** The transmissions of a run, in order. */
  function Demands(d: Driver, answers: seq<Answer>): (r: seq<Frame>)
    requires IsRun(d, answers)
    ensures |r| == |answers|
  {
    if answers == [] then []
    else Demands(d, answers[..|answers| - 1]) + [Demand(Run(d, answers[..|answers| - 1]))]
  }

  predicate Asked(frames: seq<Frame>, path: PathInfo) {
    exists i :: 0 <= i < |frames| && frames[i].path == path && frames[i].request.Page?
  }

  /** Neither refused nor cut off from the meter or the gateway. */
  predicate Plain(a: Answer) {
    a.connected && a.code != 13 && a.code != 0x25
  }

  /** How many paths have been asked for a page before this moment, the one in use not counted. */
  function PathsBefore(n: NodePaths, d: Driver): int {
    match d.at
    case Asking(leg, _, _) => if leg.Primary? then 0 else leg.index + 1
    case _ => |n.alternates| + 1
  }

  lemma AskedStays(frames: seq<Frame>, f: Frame, path: PathInfo)
    ensures Asked(frames, path) ==> Asked(frames + [f], path)
    ensures f.request.Page? ==> Asked(frames + [f], f.path)
  {
    var more := frames + [f];
    assert more[|frames|] == f;
    if Asked(frames, path) {
      var i :| 0 <= i < |frames| && frames[i].path == path && frames[i].request.Page?;
      assert more[i] == frames[i];
    }
  }

  /** Each path is asked in its turn: the legs follow the listing of the paths, and none is left before the
      pull ends. */
  lemma NextInTurn(n: NodePaths, d: Driver, a: Answer)
    requires Active(d) && d.at.Asking? && d.paths == n && Plain(a) && a.code != 0
    ensures var now, next := PathsBefore(n, d), React(d, a);
      0 <= now <= |n.alternates| && Demand(d).path == Listing(n)[now] && Demand(d).request.Page? &&
      next.paths == n && !next.at.Reconnecting? && now <= PathsBefore(n, next) <= now + 1
  {
    assert Listing(n)[0] == n.primary && forall i :: 0 <= i < |n.alternates| ==> Listing(n)[i + 1] == n.alternates[i];
  }

  predicate AskedBefore(n: NodePaths, frames: seq<Frame>, count: int) {
    0 <= count <= |n.alternates| + 1 && forall i :: 0 <= i < count ==> Asked(frames, Listing(n)[i])
  }

  lemma OneMoreAsked(n: NodePaths, frames: seq<Frame>, f: Frame, now: int, next: int)
    requires AskedBefore(n, frames, now) && now <= |n.alternates| && now <= next <= now + 1
    requires f.path == Listing(n)[now] && f.request.Page?
    ensures AskedBefore(n, frames + [f], next)
  {
    forall i | 0 <= i < next ensures Asked(frames + [f], Listing(n)[i]) {
      AskedStays(frames, f, Listing(n)[i]);
    }
  }

  lemma {:induction false} PathsInTurn(n: NodePaths, answers: seq<Answer>)
    requires IsRun(Begin(n), answers) && forall a :: a in answers ==> Plain(a) && a.code != 0
    ensures var d := Run(Begin(n), answers);
      d.paths == n && !d.at.Reconnecting? && AskedBefore(n, Demands(Begin(n), answers), PathsBefore(n, d))
  {
    if answers != [] {
      var before, last := answers[..|answers| - 1], answers[|answers| - 1];
      assert last in answers && forall a :: a in before ==> a in answers;
      PathsInTurn(n, before);
      var d := Run(Begin(n), before);
      NextInTurn(n, d, last);
      OneMoreAsked(n, Demands(Begin(n), before), Demand(d), PathsBefore(n, d), PathsBefore(n, React(d, last)));
    }
  }

  /** No path is skipped: a pull that fails although the meter never refused and the connection was never
      lost has asked for a page on the primary path and on every alternate. */
  lemma NoPathSkipped(n: NodePaths, answers: seq<Answer>)
    requires IsRun(Begin(n), answers) && Run(Begin(n), answers).at.Done? && Run(Begin(n), answers).at.code == -1
    requires forall a :: a in answers ==> Plain(a) && a.code != 0
    ensures forall path :: path in Known(n) ==> Asked(Demands(Begin(n), answers), path)
  {
    PathsInTurn(n, answers);
    forall path | path in Known(n) ensures Asked(Demands(Begin(n), answers), path) {
      var i :| 0 <= i < |Listing(n)| && Listing(n)[i] == path;
    }
  }

  // ---- which path is primary afterwards ----

  /** The step on which a pull succeeds. */
  predicate Delivered(before: Driver, after: Driver)
    requires Active(before)
  {
    after.at.Done? && Demand(before) == Frame(after.paths.primary, Page(after.at.page)) &&
    if before.at.leg.Primary? then after.paths == before.paths
    else before.at.leg.index < |before.paths.alternates| && MovedUp(before.paths, after.paths, before.at.leg.index)
  }

  lemma FinalPage(d: Driver, a: Answer)
    requires Active(d) && React(d, a).at.Done? && React(d, a).at.code == 0
    ensures a.code == 0 && d.at.Asking? && Delivered(d, React(d, a))
  {
    if d.at.leg.Alternate? {
      RotationMovesUp(d.paths, d.at.leg.index);
    }
  }

  /** The path that delivered the final page is primary after a successful pull. When it was an alternate,
      the others keep their order and the old primary comes last; otherwise the paths are as they were. */
  lemma SuccessPromotes(n: NodePaths, answers: seq<Answer>)
    requires IsRun(Begin(n), answers) && Run(Begin(n), answers).at.Done? && Run(Begin(n), answers).at.code == 0
    ensures answers != [] && answers[|answers| - 1].code == 0
    ensures var earlier := answers[..|answers| - 1];
      IsRun(Begin(n), earlier) && Active(Run(Begin(n), earlier)) && Run(Begin(n), earlier).at.Asking? &&
      Delivered(Run(Begin(n), earlier), Run(Begin(n), answers))
  {
    if answers != [] {
      FinalPage(Run(Begin(n), answers[..|answers| - 1]), answers[|answers| - 1]);
    }
  }

  /** A connect that succeeds on an alternate makes it primary and puts the old primary first among the
      alternates; of the others every copy of the new primary is gone, and the rest keep their order. */
  lemma ReconnectPromotes(d: Driver, a: Answer)
    requires Active(d) && d.at.Reconnecting? && d.at.tried > 0
    ensures var after := React(d, a).paths;
      if a.code == 0x37 || a.code == 0 then RebuiltAround(d.paths, after, Demand(d).path) else after == d.paths
  {
    if Reconnected(a) {
      ReconnectRebuilds(d.paths, React(d, a).paths, d.at.tried - 1);
    }
  }

  lemma ReconnectRebuilds(n: NodePaths, after: NodePaths, i: nat)
    requires i < |n.alternates| && after == Apply(n, Rebuild(i))
    ensures RebuiltAround(n, after, n.alternates[i])
  {
    RebuildKeepsOrder(n, i);
  }

  // ---- path conservation ----

  lemma StepPromotes(d: Driver, a: Answer)
    requires Active(d)
    ensures var p := PromotionAt(d, a); CanApplyAll(d.paths, p) && ApplyAll(d.paths, p) == React(d, a).paths
  {
    var p := PromotionAt(d, a);
    if p != [] {
      ApplyOne(d.paths, p[0]);
      assert p == [p[0]];
    }
  }

  /** The node's paths are those it began with, after the promotions of the run. */
  lemma {:induction false} PromotionsDrive(n: NodePaths, answers: seq<Answer>)
    requires IsRun(Begin(n), answers)
    ensures CanApplyAll(n, Promotions(Begin(n), answers)) &&
      ApplyAll(n, Promotions(Begin(n), answers)) == Run(Begin(n), answers).paths
  {
    if answers != [] {
      var before, last := answers[..|answers| - 1], answers[|answers| - 1];
      var d := Run(Begin(n), before);
      PromotionsDrive(n, before);
      StepPromotes(d, last);
      ApplyAllConcat(n, Promotions(Begin(n), before), PromotionAt(d, last));
    }
  }

  /** A pull keeps the set of paths the node knows, and every copy when they are distinct. */
  lemma RunConservesPaths(n: NodePaths, answers: seq<Answer>)
    requires IsRun(Begin(n), answers)
    ensures var after := Run(Begin(n), answers).paths;
      Known(after) == Known(n) && |after.alternates| <= |n.alternates| &&
      (Distinct(Listing(n)) ==> multiset(Listing(after)) == multiset(Listing(n)))
  {
    var ps := Promotions(Begin(n), answers);
    PromotionsDrive(n, answers);
    PathsConserved(n, ps);
    if Distinct(Listing(n)) {
      DistinctKeepsCopies(n, ps);
    }
  }

  /** Every frame goes out on a path the node knows. */
  lemma {:induction false} FramesOnKnownPaths(n: NodePaths, answers: seq<Answer>)
    requires IsRun(Begin(n), answers)
    ensures forall f :: f in Frames(Begin(n), answers) ==> f.path in Known(n)
  {
    if answers != [] {
      var before, last := answers[..|answers| - 1], answers[|answers| - 1];
      FramesOnKnownPaths(n, before);
      RunConservesPaths(n, before);
      var d := Run(Begin(n), before);
      assert Demand(d).path in Listing(d.paths) by {
        assert Listing(d.paths) == [d.paths.primary] + d.paths.alternates;
      }
      CopiesMembers(Demand(d), last.writes);
    }
  }

  lemma {:induction false} CopiesMembers(f: Frame, n: nat)
    ensures forall g :: g in Copies(f, n) ==> g == f
  {
    if n > 0 {
      CopiesMembers(f, n - 1);
    }
  }

  /** All of this together, for every run of a pull. */
  lemma PullFacts(n: NodePaths, answers: seq<Answer>)
    requires IsRun(Begin(n), answers)
    ensures var d, m := Run(Begin(n), answers), |n.alternates|;
      InStep(d, Accepted(Begin(n), answers)) && (m < 240 ==> Exactly(d, Accepted(Begin(n), answers))) &&
      d.at.page <= PAGE_LIMIT + m &&
      |Frames(Begin(n), answers)| + (if Active(d) then MAX_RETRIES else 0) <= 48 * ((m + 1) * (m + 2)) &&
      Known(d.paths) == Known(n) &&
      (Distinct(Listing(n)) ==> multiset(Listing(d.paths)) == multiset(Listing(n)))
  {
    Gapless(n, answers);
    TransmissionBound(n, answers);
    RunConservesPaths(n, answers);
    PageBound(n, answers);
    if |n.alternates| < 240 {
      EachPageOnce(n, answers);
    }
  }
}
