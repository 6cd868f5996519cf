/** The pull engine of the head-end: one transmission with bounded retries, the DLMS reconnect over
    all paths, the page loop on one path, and the failover from the primary path to the alternates.
    The socket is a script of events: one event for every pass of the retry loop. */
module PullEngine {
  import opened Bytes
  import opened ResponseCodes
  import opened Paths
  import opened PullMachine

  /** What one receive brings: a response already reduced to its code, or nothing. */
  datatype Receipt = Data(code: int) | NoData

  /** One pass of the retry loop as the environment decides it: whether a write succeeds (if one is
      due), what is received, how the gateway and duplicate flags stand after the receive, and whether
      the source address of a next response is to be checked after data came in. */
  datatype Event = Event(written: bool, receipt: Receipt, connected: bool, duplicate: bool, checksSource: bool)

  /** How a call ends. Cut: the script is used up, so the run is a prefix of a longer one.
      Dangling: the path list was replaced while a reference into it was still in use; the source
      gives no meaning to what would follow. */
  datatype Outcome = Returned(code: int) | Cut | Dangling

  predicate ConsumesRetry(e: Event) {
    match e.receipt
    case Data(code) => !IsFinal(code) && !IsFree(code)
    case NoData => e.connected && !e.duplicate
  }

  /** Number of events that spend a retry. */
  function Retries(used: seq<Event>): nat {
    if used == [] then 0 else Retries(used[..|used| - 1]) + (if ConsumesRetry(used[|used| - 1]) then 1 else 0)
  }

  /** A frame is written on the first pass and on every pass after a spent retry. */
  predicate WritesAt(used: seq<Event>, i: nat)
    requires i < |used|
  {
    i == 0 || ConsumesRetry(used[i - 1])
  }

  /** The pass ends the loop without an answer: the write failed, or nothing came from a gateway that is gone. */
  predicate StopsAt(used: seq<Event>, i: nat)
    requires i < |used|
  {
    (WritesAt(used, i) && !used[i].written) ||
    (used[i].receipt.NoData? && (!used[i].connected || used[i].duplicate))
  }

  predicate AnswersAt(used: seq<Event>, i: nat)
    requires i < |used|
  {
    used[i].receipt.Data? && IsFinal(used[i].receipt.code)
  }

  predicate PassesAt(used: seq<Event>, i: nat)
    requires i < |used|
  {
    !StopsAt(used, i) && !AnswersAt(used, i)
  }

  predicate AllPass(used: seq<Event>) {
    forall i :: 0 <= i < |used| ==> PassesAt(used, i)
  }

  /** The events a transmission consumed are exactly those that explain its outcome. */
  predicate Explains(used: seq<Event>, o: Outcome, maxRetries: nat) {
    if used == [] then
      if o.Cut? then maxRetries > 0 else o == Returned(FAILURE) && maxRetries == 0
    else
      var before, last := used[..|used| - 1], |used| - 1;
      AllPass(before) && Retries(before) < maxRetries &&
      match o
      case Cut => Retries(used) < maxRetries && PassesAt(used, last)
      case Dangling => false
      case Returned(code) =>
        if StopsAt(used, last) then code == FAILURE
        else if AnswersAt(used, last) then code == used[last].receipt.code
        else code == FAILURE && Retries(used) == maxRetries
  }

  /** Some response reached the client. */
  predicate Heard(used: seq<Event>) {
    exists i :: 0 <= i < |used| && used[i].receipt.Data? && !StopsAt(used, i)
  }

  /** Number of frames a transmission writes while consuming these events. */
  function Writes(used: seq<Event>): nat {
    if used == [] then 0 else 1 + Retries(used[..|used| - 1])
  }

  class NodeInfo {
    var primaryPath: PathInfo
    var alternatePaths: seq<PathInfo>

    constructor (primary: PathInfo, alternates: seq<PathInfo>)
      ensures Paths() == NodePaths(primary, alternates)
    {
      primaryPath, alternatePaths := primary, alternates;
    }

    function Paths(): NodePaths
      reads this
    {
      NodePaths(primaryPath, alternatePaths)
    }
  }

  // ---- which events answered which transmission ----

  /** How the gateway stands after the last pass. */
  predicate LastConnected(used: seq<Event>)
    requires used != []
  {
    var last := |used| - 1;
    used[last].connected && (WritesAt(used, last) ==> used[last].written)
  }

  /** The source address check after one pass: a write asks for it, incoming data settles it, and a
      response from a wrong source asks for it again. */
  predicate FlagAfter(flag: bool, e: Event, due: bool) {
    if due && !e.written then true
    else match e.receipt
      case Data(code) => e.checksSource || code == INVALID_SRC_ADDR
      case NoData => flag || due
  }

  /** The source address check after all these passes. */
  predicate Flag(used: seq<Event>, flag: bool) {
    if used == [] then flag
    else
      var before := used[..|used| - 1];
      FlagAfter(Flag(before, flag), used[|used| - 1], WriteDue(before))
  }

  /** These events make one transmission end with this answer. */
  predicate Makes(used: seq<Event>, a: Answer) {
    used != [] && Explains(used, Returned(a.code), MAX_RETRIES) && a.writes == Writes(used) &&
    (a.connected <==> Heard(used) && LastConnected(used))
  }

  /** These events, taken in order, make the transmissions end with these answers. */
  predicate Told(answers: seq<Answer>, events: seq<Event>)
    decreases |answers|, 1
  {
    if answers == [] then events == []
    else exists k :: 0 <= k <= |events| && ToldUpTo(answers, events, k)
  }

  predicate ToldUpTo(answers: seq<Answer>, events: seq<Event>, k: nat)
    requires answers != [] && k <= |events|
    decreases |answers|, 0
  {
    Told(answers[..|answers| - 1], events[..k]) && Makes(events[k..], answers[|answers| - 1])
  }

  /** These events leave a transmission undecided after so many writes. */
  predicate Breaks(used: seq<Event>, writes: nat) {
    Explains(used, Cut, MAX_RETRIES) && writes == Writes(used)
  }

  lemma ToldOneMore(answers: seq<Answer>, events: seq<Event>, a: Answer, used: seq<Event>, more: seq<Answer>, all: seq<Event>)
    requires Told(answers, events) && Makes(used, a) && more == answers + [a] && all == events + used
    ensures Told(more, all)
  {
    assert more[..|answers|] == answers && all[..|events|] == events && all[|events|..] == used;
    assert ToldUpTo(more, all, |events|);
  }

  /** The two relations as functions, carried as values for the same reason as the machine: so that the
      solver does not unfold them in every method. */
  datatype Oracle = Oracle(told: (seq<Answer>, seq<Event>) -> bool, breaks: (seq<Event>, nat) -> bool)

  function TheOracle(): Oracle {
    Oracle((answers, events) => Told(answers, events), (used: seq<Event>, writes: nat) => Breaks(used, writes))
  }

  ghost predicate Truthful(r: Oracle) {
    (forall answers, events {:trigger Told(answers, events)} :: r.told(answers, events) == Told(answers, events)) &&
    (forall used, writes {:trigger Breaks(used, writes)} :: r.breaks(used, writes) == Breaks(used, writes))
  }

  /** A run of the machine as far as it has got: what had been written when it began and which events
      lay ahead, the answers since, and the events that made them. */
  datatype Log = Log(machine: Machine, oracle: Oracle, base: seq<Frame>, origin: seq<Event>, answers: seq<Answer>, used: seq<Event>)

  function At(l: Log): Driver {
    l.machine.run(l.answers)
  }

  /** A later stage of the same run. */
  ghost predicate Continues(l: Log, m: Log) {
    m == l.(answers := m.answers, used := m.used)
  }

  class Client {
    var connected: bool
    var duplicateGateway: bool
    var needToValidateSrcAddr: bool
    var script: seq<Event>
    /** Everything handed to the socket. */
    var wire: seq<Frame>
    /** The events of a transmission that the end of the script cut off, and its writes. */
    ghost var pending: seq<Event>
    ghost var cut: nat

    constructor (script: seq<Event>)
      ensures this.script == script && connected && !duplicateGateway && wire == [] && pending == [] && cut == 0
    {
      this.script := script;
      connected, duplicateGateway, needToValidateSrcAddr, wire, pending, cut := true, false, false, [], [], 0;
    }

    /** The socket has seen exactly the frames of the run, and the events so far made its answers. */
    ghost predicate Tracks(l: Log)
      reads this`wire, this`cut, this`pending, this`script
    {
      Genuine(l.machine) && Truthful(l.oracle) && l.machine.ok(l.answers) && l.oracle.told(l.answers, l.used) &&
      l.origin == l.used + script && pending == [] && cut == 0 &&
      wire == l.base + l.machine.frames(l.answers)
    }

    /** The script ended during the transmission that was due. */
    ghost predicate Interrupted(l: Log)
      reads this`wire, this`cut, this`pending, this`script
    {
      Genuine(l.machine) && Truthful(l.oracle) && l.machine.ok(l.answers) && l.oracle.told(l.answers, l.used) &&
      l.origin == l.used + pending && script == [] && l.oracle.breaks(pending, cut) && cut <= MAX_RETRIES &&
      Active(At(l)) && wire == l.base + l.machine.frames(l.answers) + Copies(Demand(At(l)), cut)
    }

    /** One pass of the retry loop: writes the frame if that is due, waits, and sorts the answer. */
    method Attempt(f: Frame, e: Event, needToWrite: bool) returns (v: Verdict)
      modifies this`connected, this`duplicateGateway, this`needToValidateSrcAddr, this`wire
      ensures v == VerdictOf(e, needToWrite)
      ensures wire == old(wire) + if needToWrite then [f] else []
      ensures connected <==> e.connected && (needToWrite ==> e.written)
      ensures needToValidateSrcAddr == FlagAfter(old(needToValidateSrcAddr), e, needToWrite)
    {
      if needToWrite {
        wire := wire + [f];
        needToValidateSrcAddr := true;
        if !e.written {
          connected := false;
          return Stop;
        }
      }
      connected, duplicateGateway := e.connected, e.duplicate;
      if e.receipt.Data? {
        needToValidateSrcAddr := e.checksSource;
        var code := e.receipt.code;
        if IsFinal(code) {
          return Final(code);
        } else if IsFree(code) {
          if code == INVALID_SRC_ADDR {
            needToValidateSrcAddr := true;
          }
          return Free;
        }
      } else if !connected || duplicateGateway {
        return Stop;
      }
      v := Spent;
    }

    /** Writes the frame, waits for an answer, and resends at most `maxRetries` times in all.
        Frames of the kinds "in progress", "wrong source" and "push" cost no retry. */
    method TransmitCommandAndValidateResponse(path: PathInfo, request: Request, maxRetries: nat)
      returns (o: Outcome, ghost used: seq<Event>)
      modifies this`connected, this`duplicateGateway, this`needToValidateSrcAddr, this`script, this`wire
      ensures old(script) == used + script
      ensures Explains(used, o, maxRetries)
      ensures wire == old(wire) + Copies(Frame(path, request), Writes(used)) && Writes(used) <= maxRetries
      ensures needToValidateSrcAddr == Flag(used, old(needToValidateSrcAddr))
      ensures o.Returned? && used != [] ==> (connected <==> Heard(used) && LastConnected(used))
      ensures o.Cut? ==> script == []
    {
      ghost var job := Job(Frame(path, request), maxRetries, needToValidateSrcAddr, wire);
      ghost var keeps := LoopState(job);
      var open, retry, gotAnyResponse;
      open, o, retry, gotAnyResponse, used := RetryLoop(Frame(path, request), maxRetries, job, keeps);
      if open && retry < maxRetries {
        o := Cut;
      } else if o == Returned(FAILURE) && maxRetries > 0 && !gotAnyResponse {
        connected := false;
      }
    }

    /** The retry loop: it ends with an answer, with the last retry spent, or where the script ends. */
    method RetryLoop(f: Frame, maxRetries: nat, ghost job: Job, ghost keeps: (seq<Event>, Trial) -> bool)
      returns (open: bool, o: Outcome, retry: nat, gotAnyResponse: bool, ghost used: seq<Event>)
      requires job == Job(f, maxRetries, needToValidateSrcAddr, wire) && IsLoopState(keeps, job)
      modifies this`connected, this`duplicateGateway, this`needToValidateSrcAddr, this`script, this`wire
      ensures old(script) == used + script && (open && retry < maxRetries ==> script == [])
      ensures Concludes(job, used, open, o, retry, gotAnyResponse, connected, needToValidateSrcAddr, wire)
    {
      var needToWrite := true;
      open, o, retry, gotAnyResponse, used := true, Returned(FAILURE), 0, false, [];
      LoopBegins(job, connected, keeps);
      while open && retry < maxRetries && script != []
        invariant old(script) == used + script
        invariant keeps(used, Trial(open, o, retry, needToWrite, gotAnyResponse, connected, needToValidateSrcAddr, wire))
        decreases open, |script|
      {
        var e := script[0];
        ReadHead(used, script);
        StayInLoop(job, keeps, used, e, Trial(open, o, retry, needToWrite, gotAnyResponse, connected, needToValidateSrcAddr, wire));
        script := script[1..];
        var v := Attempt(f, e, needToWrite);
        gotAnyResponse := gotAnyResponse || Hears(e, needToWrite);
        used := used + [e];
        open, needToWrite := v.Free? || v.Spent?, v.Spent?;
        o := if v.Final? then Returned(v.code) else o;
        retry := if v.Spent? then retry + 1 else retry;
      }
      LoopEnds(job, keeps, used, Trial(open, o, retry, needToWrite, gotAnyResponse, connected, needToValidateSrcAddr, wire));
    }

    /** One transmission on a mesh path: the one that was due. */
    method TransmitCommandOnPathPmesh(path: PathInfo, request: Request, ghost l: Log)
      returns (o: Outcome, ghost m: Log)
      requires Tracks(l) && Active(At(l)) && Demand(At(l)) == Frame(path, request)
      modifies this
      ensures !o.Dangling? && Continues(l, m)
      ensures o.Returned? ==> Tracks(m) && At(m) == React(At(l), Answer(o.code, connected, 0))
      ensures o.Cut? ==> m == l && Interrupted(m)
    {
      ghost var used;
      o, used := TransmitCommandAndValidateResponse(path, request, MAX_RETRIES);
      m := l;
      if o.Cut? {
        pending, cut := used, Writes(used);
        assert Breaks(used, cut);
        UsedAll(used, script);
      } else {
        ghost var a := Answer(o.code, connected, Writes(used));
        GenuineStep(l.machine, l.answers, a);
        TruthfulStep(l.oracle, l.answers, l.used, a, used);
        UsedMore(l.used, used, script);
        m := l.(answers := l.answers + [a], used := l.used + used);
      }
    }

    /** One DLMS connect attempt on one path. */
    method AttemptDlmsReconnect(path: PathInfo, ghost l: Log) returns (o: Outcome, ghost m: Log)
      requires Tracks(l) && Active(At(l)) && Demand(At(l)) == Frame(path, DlmsConnect)
      modifies this
      ensures Continues(l, m)
      ensures o.Cut? || o == Returned(SUCCESS) || o == Returned(DLMS_CONNECTION_FAILED) || o == Returned(FAILURE)
      ensures o.Returned? ==> Tracks(m) && At(m) == React(At(l), Answer(o.code, connected, 0))
      ensures o.Cut? ==> m == l && Interrupted(m)
    {
      o, m := TransmitCommandOnPathPmesh(path, DlmsConnect, l);
      if o == Returned(DLMS_SUCCESS) || o == Returned(SUCCESS) {
        o := Returned(SUCCESS);
      } else if o.Returned? && o.code != DLMS_CONNECTION_FAILED {
        o := Returned(FAILURE);
      }
    }

    /** A path that answered becomes primary; every copy of it leaves the alternates, and the old
        primary comes first among them. */
    static method RebuildAround(node: NodeInfo, i: nat)
      requires i < |node.alternatePaths|
      modifies node
      ensures node.Paths() == Apply(old(node.Paths()), Rebuild(i))
    {
      var alt, oldPrimary := node.alternatePaths[i], node.primaryPath;
      node.primaryPath := alt;
      var updated := [oldPrimary];
      var j := 0;
      while j < |node.alternatePaths|
        invariant 0 <= j <= |node.alternatePaths|
        invariant updated == [oldPrimary] + Without(node.alternatePaths[..j], alt)
      {
        assert node.alternatePaths[..j + 1][..j] == node.alternatePaths[..j];
        if node.alternatePaths[j] != alt {
          updated := updated + [node.alternatePaths[j]];
        }
        j := j + 1;
      }
      assert node.alternatePaths[..j] == node.alternatePaths;
      node.alternatePaths := updated;
    }

    /** One reconnect attempt on the alternate that is due. */
    method ReconnectOnAlternate(node: NodeInfo, i: nat, ghost leg: Leg, ghost page: byte, ghost rounds: nat, ghost l: Log)
      returns (o: Outcome, ghost m: Log)
      requires Tracks(l) && i < |node.alternatePaths|
      requires At(l) == Driver(node.Paths(), Reconnecting(leg, page, rounds, i + 1)) && Active(At(l))
      modifies this
      ensures Continues(l, m)
      ensures o.Cut? || o == Returned(SUCCESS) || o == Returned(DLMS_CONNECTION_FAILED) || o == Returned(FAILURE)
      ensures o.Cut? ==> Interrupted(m) && At(m).paths == node.Paths()
      ensures o.Returned? ==> Tracks(m)
      ensures o == Returned(FAILURE) ==> At(m) == Driver(node.Paths(), ToReconnect(node.Paths(), leg, page, rounds, i + 1))
      ensures o == Returned(DLMS_CONNECTION_FAILED) ==> At(m) == Driver(node.Paths(), Done(FAILURE, page))
      ensures o == Returned(SUCCESS) ==>
        At(m) == AfterReconnect(node.Paths(), leg, page, rounds, i + 1, Answer(SUCCESS, connected, 0))
    {
      o, m := AttemptDlmsReconnect(node.alternatePaths[i], l);
    }

    /** Tries every alternate in turn; `chosen` is the one that answered, if any. */
    method ReconnectOnAlternates(node: NodeInfo, ghost leg: Leg, ghost page: byte, ghost rounds: nat, ghost l: Log)
      returns (o: Outcome, chosen: nat, ghost m: Log)
      requires Tracks(l) && LegOk(node.Paths(), leg) && 0 < rounds <= PAGE_LIMIT
      requires At(l) == Driver(node.Paths(), ToReconnect(node.Paths(), leg, page, rounds, 0))
      modifies this
      ensures Continues(l, m) && !o.Dangling?
      ensures o.Cut? ==> Interrupted(m) && At(m).paths == node.Paths()
      ensures o.Returned? ==> Tracks(m)
      ensures o == Returned(SUCCESS) ==> chosen < |node.alternatePaths|
      ensures o == Returned(SUCCESS) ==>
        At(m) == AfterReconnect(node.Paths(), leg, page, rounds, chosen + 1, Answer(SUCCESS, connected, 0))
      ensures o.Returned? && o.code != SUCCESS ==> At(m) == Driver(node.Paths(), Done(FAILURE, page))
    {
      o, chosen, m := Returned(FAILURE), 0, l;
      while chosen < |node.alternatePaths| && o == Returned(FAILURE)
        invariant chosen <= |node.alternatePaths| && Continues(l, m) && !o.Dangling?
        invariant o.Cut? ==> Interrupted(m) && At(m).paths == node.Paths()
        invariant o.Returned? ==> Tracks(m)
        invariant o == Returned(FAILURE) ==> At(m) == Driver(node.Paths(), ToReconnect(node.Paths(), leg, page, rounds, chosen))
        invariant o.Returned? && o.code != SUCCESS && o.code != FAILURE ==> At(m) == Driver(node.Paths(), Done(FAILURE, page))
        invariant o == Returned(SUCCESS) ==> chosen < |node.alternatePaths|
        invariant o == Returned(SUCCESS) ==>
          At(m) == AfterReconnect(node.Paths(), leg, page, rounds, chosen + 1, Answer(SUCCESS, connected, 0))
        decreases |node.alternatePaths| - chosen, o == Returned(FAILURE)
      {
        o, m := ReconnectOnAlternate(node, chosen, leg, page, rounds, m);
        if o == Returned(FAILURE) {
          chosen := chosen + 1;
        }
      }
    }

    /** Reconnects on the failed path first and then on every alternate; an alternate that answers
        becomes primary and the alternate list is rebuilt around it. */
    method AttemptDlmsReconnectAllPaths(node: NodeInfo, failed: PathInfo, ghost leg: Leg, ghost page: byte, ghost rounds: nat, ghost l: Log)
      returns (o: Outcome, rebuilt: bool, ghost m: Log)
      requires Tracks(l) && At(l) == Driver(node.Paths(), Reconnecting(leg, page, rounds, 0)) && Active(At(l))
      requires failed == PathOf(node.Paths(), leg)
      modifies this, node
      ensures Continues(l, m) && !o.Dangling?
      ensures o.Cut? ==> Interrupted(m) && At(m).paths == node.Paths()
      ensures o.Returned? ==> Tracks(m)
      ensures o == Returned(SUCCESS) && rebuilt && leg.Alternate? ==> At(m) == Driver(node.Paths(), Stranded(page))
      ensures o == Returned(SUCCESS) && !(rebuilt && leg.Alternate?) ==> At(m) == Resume(node.Paths(), leg, page, rounds, connected)
      ensures !(rebuilt && leg.Alternate?) ==> LegOk(node.Paths(), leg)
      ensures o.Returned? && o.code != SUCCESS ==> At(m) == Driver(node.Paths(), Done(FAILURE, page))
      ensures !rebuilt ==> node.Paths() == old(node.Paths())
      ensures rebuilt ==> o == Returned(SUCCESS)
    {
      rebuilt := false;
      o, m := AttemptDlmsReconnect(failed, l);
      if o == Returned(FAILURE) && connected {
        var i;
        o, i, m := ReconnectOnAlternates(node, leg, page, rounds, m);
        if o == Returned(SUCCESS) {
          RebuildAround(node, i);
          rebuilt := true;
        }
      }
    }

    /** One pass of the page loop: asks for the due page and acts on the answer. `again` says that
        the loop goes on, after the next page became due or after a reconnect. */
    method RequestPage(node: NodeInfo, leg: Leg, firstPage: byte, ghost rounds: nat, ghost l: Log)
      returns (again: bool, o: Outcome, page: byte, ghost m: Log)
      requires Tracks(l) && At(l) == Driver(node.Paths(), Asking(leg, firstPage, rounds)) && Active(At(l))
      modifies this, node
      ensures Continues(l, m)
      ensures again ==> Tracks(m) && LegOk(node.Paths(), leg)
      ensures again ==> At(m) == Resume(node.Paths(), leg, page, rounds + 1, connected)
      ensures !again && o.Cut? ==> Interrupted(m) && At(m).paths == node.Paths()
      ensures !again && o == Returned(SUCCESS) ==> LegOk(node.Paths(), leg)
      ensures !again && !o.Cut? ==> Tracks(m) && At(m) == LegEnd(node.Paths(), leg, o, page, connected)
      ensures leg.Alternate? && (again || !o.Dangling?) ==> node.Paths() == old(node.Paths())
    {
      page, again := firstPage, false;
      o, m := TransmitCommandOnPathPmesh(PathOf(node.Paths(), leg), Page(page), l);
      if o.Cut? {
        return;
      }
      var ret := o.code;
      if ret == NEXT_PAGE_PRESENT {
        page := Plus1(page);
        again, o := page < PAGE_LIMIT, Returned(FAILURE);
      } else if ret == DLMS_CONNECTION_FAILED {
        var rebuilt;
        o, rebuilt, m := AttemptDlmsReconnectAllPaths(node, PathOf(node.Paths(), leg), leg, page, rounds + 1, m);
        if o == Returned(SUCCESS) {
          again, o := !(leg.Alternate? && rebuilt), Dangling;
        } else if o.Returned? {
          o := Returned(DLMS_CONNECTION_FAILED);
        }
      } else if ret != SUCCESS && ret != DLMS_ERROR {
        o := Returned(FAILURE);
      }
    }

    /** Reads the pages of a profile on one path, starting at `firstPage`. A lost DLMS connection is
        re-established and the same page is asked for again. On the primary leg the reference
        follows a promotion; on an alternate leg a rebuild of the list leaves it dangling. */
    method PullProfilePagesOnPath(node: NodeInfo, leg: Leg, firstPage: byte, ghost l: Log)
      returns (o: Outcome, page: byte, ghost m: Log)
      requires Tracks(l) && At(l) == Driver(node.Paths(), Asking(leg, firstPage, 0)) && Active(At(l))
      modifies this, node
      ensures Continues(l, m)
      ensures o.Cut? ==> Interrupted(m) && At(m).paths == node.Paths()
      ensures o == Returned(SUCCESS) ==> LegOk(node.Paths(), leg)
      ensures !o.Cut? ==> Tracks(m) && At(m) == LegEnd(node.Paths(), leg, o, page, connected)
      ensures leg.Alternate? && !o.Dangling? ==> node.Paths() == old(node.Paths())
    {
      o, page, m := Returned(FAILURE), firstPage, l;
      var exitLoopCounter := 0;
      var again := true;
      while again && exitLoopCounter < PAGE_LIMIT
        invariant 0 <= exitLoopCounter <= PAGE_LIMIT && Continues(l, m)
        invariant again ==> Tracks(m) && LegOk(node.Paths(), leg)
        invariant again ==> At(m) == Resume(node.Paths(), leg, page, exitLoopCounter, connected)
        invariant !again && o.Cut? ==> Interrupted(m) && At(m).paths == node.Paths()
        invariant !again && o == Returned(SUCCESS) ==> LegOk(node.Paths(), leg)
        invariant !again && !o.Cut? ==> Tracks(m) && At(m) == LegEnd(node.Paths(), leg, o, page, connected)
        invariant leg.Alternate? && (again || !o.Dangling?) ==> node.Paths() == old(node.Paths())
        decreases PAGE_LIMIT - exitLoopCounter
      {
        exitLoopCounter := exitLoopCounter + 1;
        again, o, page, m := RequestPage(node, leg, page, exitLoopCounter - 1, m);
      }
      if again {
        o := Returned(FAILURE);
      }
    }

    /** The promotion shared by all pulls: the alternate leaves its place, the old primary goes last. */
    static method PromoteAlternate(node: NodeInfo, i: nat)
      requires i < |node.alternatePaths|
      modifies node
      ensures node.Paths() == Apply(old(node.Paths()), Rotate(i))
    {
      var altPath, oldPrimary := node.alternatePaths[i], node.primaryPath;
      node.primaryPath := altPath;
      node.alternatePaths := node.alternatePaths[..i] + node.alternatePaths[i + 1..];
      node.alternatePaths := node.alternatePaths + [oldPrimary];
    }

    /** One leg of a failover, starting at page `firstPage`; `more` says that the next path is to be
        tried. An alternate that delivers the final page is promoted. */
    method TryLeg(node: NodeInfo, leg: Leg, firstPage: byte, ghost l: Log)
      returns (more: bool, o: Outcome, page: byte, ghost m: Log)
      requires Tracks(l) && At(l) == Driver(node.Paths(), Asking(leg, firstPage, 0)) && Active(At(l))
      modifies this, node
      ensures Continues(l, m)
      ensures more ==> o == Returned(FAILURE) && Tracks(m) && At(m) == NextLeg(node.Paths(), leg, page, connected)
      ensures !more ==> Ends(m, node, o, page)
      ensures more && leg.Alternate? ==> node.Paths() == old(node.Paths())
    {
      more := false;
      o, page, m := PullProfilePagesOnPath(node, leg, firstPage, l);
      if !o.Returned? {
        return;
      }
      if o.code != SUCCESS {
        more := o.code != DLMS_ERROR && o.code != DLMS_CONNECTION_FAILED;
        o := Returned(FAILURE);
      } else if leg.Alternate? {
        PromoteAlternate(node, leg.index);
      }
    }

    /** The end of a pull. */
    ghost predicate Ends(m: Log, node: NodeInfo, o: Outcome, page: byte)
      reads this`wire, this`cut, this`pending, this`script, node
    {
      (if o.Cut? then Interrupted(m) else Tracks(m)) && Stands(At(m), node.Paths(), o, page)
    }

    /** Pulls one profile of a node: the primary path first, then, unless the meter refused or the
        connection is lost for good, every alternate in turn. It does what the machine does. */
    method TryPathsForProfilePull(node: NodeInfo, firstPage: byte, ghost l: Log)
      returns (o: Outcome, page: byte, ghost m: Log)
      requires Tracks(l) && At(l) == Driver(node.Paths(), Asking(Primary, firstPage, 0))
      modifies this, node
      ensures Continues(l, m)
      ensures Ends(m, node, o, page)
    {
      var more;
      more, o, page, m := TryLeg(node, Primary, firstPage, l);
      var i := 0;
      if more && connected {
        ghost var n := node.Paths();
        while more && i < |node.alternatePaths|
          invariant more ==> node.Paths() == n
          invariant Continues(l, m)
          invariant more ==> o == Returned(FAILURE) && Tracks(m)
          invariant more ==> At(m) == Driver(n, OnAlternate(n, i, page))
          invariant !more ==> Ends(m, node, o, page)
          decreases more, |n.alternates| - i
        {
          more, o, page, m := TryLeg(node, Alternate(i), page, m);
          i := i + 1;
        }
      }
    }

    /** A whole profile pull for one node, from page 0: the client does what the machine does, and the
        environment's events made the machine's answers. */
    method FollowMachine(node: NodeInfo)
      returns (o: Outcome, page: byte, ghost answers: seq<Answer>, ghost used: seq<Event>, ghost wrote: seq<Frame>)
      requires cut == 0 && pending == []
      modifies this, node
      ensures Conforms(old(node.Paths()), answers, o, page, node.Paths(), wrote, cut) && wire == old(wire) + wrote
      ensures Told(answers, used) && old(script) == used + pending + script
      ensures if o.Cut? then script == [] && Breaks(pending, cut) else pending == []
    {
      ghost var n := node.Paths();
      ghost var g := MachineFrom(Begin(n));
      ghost var m;
      MachineIsGenuine(Begin(n));
      NothingTold();
      o, page, m := TryPathsForProfilePull(node, 0, Log(g, TheOracle(), wire, script, [], []));
      wrote := Unveil(n, m, o, page, node.Paths(), wire, pending, cut);
      answers, used := m.answers, m.used;
    }

    /** In every prefix of a pull and whatever the events: the accepted pages are exactly 0..k, each once,
        and on success the last one is the final page (up to 239 alternates; with more the one-byte
        counter can come round); with n alternates at most 48(n+1)(n+2) frames are written and the
        page counter stays within 16+n; the node still knows the same paths; and after a success its primary
        path is the one the last frame on the wire went out on, the request for the final page. */
    method PullProfileForANode(node: NodeInfo) returns (o: Outcome, page: byte, ghost answers: seq<Answer>)
      requires cut == 0 && pending == []
      modifies this, node
      ensures var n := old(node.Paths());
        IsRun(Begin(n), answers) && Stands(Run(Begin(n), answers), node.Paths(), o, page) &&
        InStep(Run(Begin(n), answers), Accepted(Begin(n), answers)) &&
        (|n.alternates| < 240 ==> Exactly(Run(Begin(n), answers), Accepted(Begin(n), answers))) &&
        (!o.Cut? ==> page <= PAGE_LIMIT + |n.alternates|) &&
        |wire| - |old(wire)| <= 48 * ((|n.alternates| + 1) * (|n.alternates| + 2)) &&
        Known(node.Paths()) == Known(n) &&
        (Distinct(Listing(n)) ==> multiset(Listing(node.Paths())) == multiset(Listing(n)))
      ensures o == Returned(0) ==> |wire| > |old(wire)| && wire[|wire| - 1] == Frame(node.primaryPath, Page(page))
    {
      ghost var n, used, wrote := node.Paths(), [], [];
      o, page, answers, used, wrote := FollowMachine(node);
      PullFacts(n, answers);
      if o == Returned(0) {
        SuccessOnPrimary(n, answers, used);
      }
    }
  }

  lemma NothingTold()
    ensures Truthful(TheOracle()) && TheOracle().told([], [])
  {
    assert Told([], []);
  }

  /** What a log of the real machine says, in terms of the machine. */
  lemma Unveil(n: NodePaths, l: Log, o: Outcome, page: byte, after: NodePaths, wire: seq<Frame>, pending: seq<Event>, cut: nat)
    returns (wrote: seq<Frame>)
    requires l.machine == MachineFrom(Begin(n)) && l.oracle == TheOracle()
    requires l.machine.ok(l.answers) && l.oracle.told(l.answers, l.used) && Stands(At(l), after, o, page) && cut <= MAX_RETRIES
    requires wire == l.base + l.machine.frames(l.answers) + if o.Cut? then Copies(Demand(At(l)), cut) else []
    requires o.Cut? ==> l.oracle.breaks(pending, cut)
    ensures Conforms(n, l.answers, o, page, after, wrote, cut) && wire == l.base + wrote && Told(l.answers, l.used)
    ensures o.Cut? ==> Breaks(pending, cut)
  {
    var last := if o.Cut? then Copies(Demand(At(l)), cut) else [];
    UnveilMachine(Begin(n), l.answers);
    wrote := l.machine.frames(l.answers) + last;
    WroteMore(l.base, l.machine.frames(l.answers), last);
  }

  lemma UnveilMachine(d: Driver, answers: seq<Answer>)
    requires MachineFrom(d).ok(answers)
    ensures IsRun(d, answers) && MachineFrom(d).run(answers) == Run(d, answers) && MachineFrom(d).frames(answers) == Frames(d, answers)
  {
    MachineIsGenuine(d);
    GenuineRun(MachineFrom(d), answers);
  }

  lemma OneMoreCopy(before: seq<Frame>, f: Frame, n: nat)
    ensures before + Copies(f, n + 1) == before + Copies(f, n) + [f]
    ensures before + Copies(f, n) + [] == before + Copies(f, n)
  {
  }

  lemma WroteMore(a: seq<Frame>, b: seq<Frame>, c: seq<Frame>)
    ensures a + b + c == a + (b + c)
  {
  }

  /** The machine's run of these answers, as seen from outside: where it stands, and the frames it wrote,
      with those of a transmission that was cut off. */
  predicate Conforms(n: NodePaths, answers: seq<Answer>, o: Outcome, page: byte, after: NodePaths, wrote: seq<Frame>, cut: nat) {
    IsRun(Begin(n), answers) && Stands(Run(Begin(n), answers), after, o, page) && cut <= MAX_RETRIES &&
    wrote == Frames(Begin(n), answers) + if o.Cut? then Copies(Demand(Run(Begin(n), answers)), cut) else []
  }

  /** Where the machine stands, the client stands. */
  predicate Stands(d: Driver, n: NodePaths, o: Outcome, page: byte) {
    d.paths == n &&
    match o
    case Cut => Active(d)
    case Dangling => d.at == Stranded(page)
    case Returned(code) => d.at == Done(code, page) && (code == SUCCESS || code == FAILURE)
  }

  lemma UsedAll(used: seq<Event>, rest: seq<Event>)
    requires rest == []
    ensures used + rest == used
  {
  }

  lemma UsedMore(a: seq<Event>, b: seq<Event>, c: seq<Event>)
    ensures a + (b + c) == (a + b) + c
  {
  }

  lemma TruthfulStep(r: Oracle, answers: seq<Answer>, events: seq<Event>, a: Answer, used: seq<Event>)
    requires Truthful(r) && r.told(answers, events) && Makes(used, a)
    ensures r.told(answers + [a], events + used)
  {
    assert Told(answers, events) == r.told(answers, events);
    ToldOneMore(answers, events, a, used, answers + [a], events + used);
  }

  /** Alternate `i` is due for a reconnect, if there is one. */
  function ToReconnect(n: NodePaths, leg: Leg, page: byte, rounds: nat, i: nat): Control {
    if i < |n.alternates| then Reconnecting(leg, page, rounds, i + 1) else Done(FAILURE, page)
  }

  /** Alternate `i` is due for page requests, if there is one. */
  function OnAlternate(n: NodePaths, i: nat, page: byte): Control {
    if i < |n.alternates| then Asking(Alternate(i), page, 0) else Done(FAILURE, page)
  }

  /** How a leg ends in the machine, by the code the page loop returns. */
  function LegEnd(n: NodePaths, leg: Leg, o: Outcome, page: byte, connected: bool): Driver
    requires o == Returned(SUCCESS) ==> LegOk(n, leg)
  {
    match o
    case Dangling => Driver(n, Stranded(page))
    case Cut => Driver(n, Done(FAILURE, page))
    case Returned(code) =>
      if code == SUCCESS then Driver(if leg.Alternate? then Apply(n, Rotate(leg.index)) else n, Done(SUCCESS, page))
      else if code == DLMS_ERROR || code == DLMS_CONNECTION_FAILED then Driver(n, Done(FAILURE, page))
      else NextLeg(n, leg, page, connected)
  }

  /** A write is due on the first pass and after a spent retry. */
  predicate WriteDue(used: seq<Event>) {
    used == [] || ConsumesRetry(used[|used| - 1])
  }

  /** The retry loop is still undecided, or has just spent its last retry. */
  predicate Pending(used: seq<Event>, retry: nat, maxRetries: nat) {
    AllPass(used) && retry == Retries(used) <= maxRetries &&
    (used == [] ==> retry == 0) &&
    (used != [] ==> Explains(used, if retry < maxRetries then Cut else Returned(FAILURE), maxRetries))
  }

  lemma ReadHead(used: seq<Event>, rest: seq<Event>)
    requires rest != []
    ensures used + rest == (used + [rest[0]]) + rest[1..]
  {
  }

  /** What reading one more event adds to the counts. */
  lemma OneMoreCount(used: seq<Event>, e: Event)
    ensures var more := used + [e];
      more[..|used|] == used &&
      Retries(more) == Retries(used) + (if ConsumesRetry(e) then 1 else 0) &&
      Writes(more) == Writes(used) + (if WriteDue(used) then 1 else 0)
  {
    var more := used + [e];
    assert more[..|used|] == used;
  }

  /** What happened on the passes so far does not depend on later events. */
  lemma EarlierPassesStay(used: seq<Event>, e: Event, i: nat)
    requires i < |used|
    ensures StopsAt(used + [e], i) <==> StopsAt(used, i)
    ensures PassesAt(used + [e], i) <==> PassesAt(used, i)
  {
  }

  lemma OneMoreHeard(used: seq<Event>, e: Event)
    ensures Heard(used + [e]) <==> Heard(used) || (e.receipt.Data? && !StopsAt(used + [e], |used|))
  {
    var more := used + [e];
    if Heard(used) {
      var i :| 0 <= i < |used| && used[i].receipt.Data? && !StopsAt(used, i);
      EarlierPassesStay(used, e, i);
      assert more[i] == used[i];
    }
    if Heard(more) {
      var i :| 0 <= i < |more| && more[i].receipt.Data? && !StopsAt(more, i);
      if i < |used| {
        EarlierPassesStay(used, e, i);
        assert more[i] == used[i];
      }
    }
    assert more[|used|] == e;
  }

  /** A response is read on this pass. */
  predicate Hears(e: Event, due: bool) {
    e.receipt.Data? && (due ==> e.written)
  }

  /** How one pass of the retry loop goes on: it stops, has its answer, waits again, or resends. */
  datatype Verdict = Stop | Final(code: int) | Free | Spent

  function VerdictOf(e: Event, due: bool): Verdict {
    if due && !e.written then Stop
    else match e.receipt
      case Data(code) => if IsFinal(code) then Final(code) else if IsFree(code) then Free else Spent
      case NoData => if !e.connected || e.duplicate then Stop else Spent
  }

  /** One pass of the retry loop, case by case. */
  lemma OnePass(used: seq<Event>, e: Event, maxRetries: nat)
    requires AllPass(used) && Retries(used) < maxRetries
    ensures var more := used + [e];
      (Heard(more) <==> Heard(used) || Hears(e, WriteDue(used))) &&
      (LastConnected(more) <==> e.connected && (WriteDue(used) ==> e.written)) &&
      Writes(more) == Writes(used) + (if WriteDue(used) then 1 else 0) &&
      match VerdictOf(e, WriteDue(used))
      case Stop => Explains(more, Returned(FAILURE), maxRetries)
      case Final(code) => Explains(more, Returned(code), maxRetries)
      case Free => Pending(more, Retries(used), maxRetries) && !WriteDue(more)
      case Spent => Pending(more, Retries(used) + 1, maxRetries) && WriteDue(more)
  {
    var more := used + [e];
    OneMoreCount(used, e);
    OneMoreHeard(used, e);
    if PassesAt(more, |used|) {
      forall i | 0 <= i < |used| ensures PassesAt(more, i) {
        EarlierPassesStay(used, e, i);
      }
    }
  }

  /** What a transmission began with. */
  datatype Job = Job(frame: Frame, maxRetries: nat, flag: bool, wire: seq<Frame>)

  /** The state of the retry loop. */
  datatype Trial = Trial(open: bool, o: Outcome, retry: nat, needToWrite: bool, heard: bool, connected: bool, flag: bool, wire: seq<Frame>)

  /** One pass of the retry loop. */
  function AfterPass(t: Trial, f: Frame, e: Event): Trial {
    var v := VerdictOf(e, t.needToWrite);
    Trial(v.Free? || v.Spent?, if v.Final? then Returned(v.code) else t.o, if v.Spent? then t.retry + 1 else t.retry, v.Spent?,
      t.heard || Hears(e, t.needToWrite), e.connected && (t.needToWrite ==> e.written), FlagAfter(t.flag, e, t.needToWrite),
      t.wire + if t.needToWrite then [f] else [])
  }

  /** The state of the retry loop is told by the events used so far. */
  predicate InLoop(k: Job, used: seq<Event>, t: Trial) {
    Judged(used, t, k.maxRetries) && t.wire == k.wire + Copies(k.frame, Writes(used)) && t.flag == Flag(used, k.flag) &&
    (used != [] ==> (t.connected <==> LastConnected(used)))
  }

  /** Outcome and counters of the retry loop. */
  predicate Judged(used: seq<Event>, t: Trial, maxRetries: nat) {
    (t.heard <==> Heard(used)) && (t.o != Returned(FAILURE) ==> t.heard) &&
    if t.open then Pending(used, t.retry, maxRetries) && t.o == Returned(FAILURE) && (t.needToWrite <==> WriteDue(used))
    else Explains(used, t.o, maxRetries) && t.o.Returned?
  }

  /** The state of the loop as a function, carried as a value so that the solver does not unfold it in the loop. */
  function LoopState(k: Job): (seq<Event>, Trial) -> bool {
    (used, t) => InLoop(k, used, t)
  }

  ghost predicate IsLoopState(keeps: (seq<Event>, Trial) -> bool, k: Job) {
    forall used, t {:trigger InLoop(k, used, t)} :: keeps(used, t) == InLoop(k, used, t)
  }

  lemma LoopBegins(k: Job, connected: bool, keeps: (seq<Event>, Trial) -> bool)
    requires IsLoopState(keeps, k)
    ensures keeps([], Trial(true, Returned(FAILURE), 0, true, false, connected, k.flag, k.wire))
  {
    assert InLoop(k, [], Trial(true, Returned(FAILURE), 0, true, false, connected, k.flag, k.wire));
  }

  lemma PassKeepsJudged(used: seq<Event>, e: Event, t: Trial, f: Frame, maxRetries: nat)
    requires Judged(used, t, maxRetries) && t.open && t.retry < maxRetries
    ensures Judged(used + [e], AfterPass(t, f, e), maxRetries)
  {
    OnePass(used, e, maxRetries);
  }

  /** One pass of the retry loop keeps its state. */
  lemma StayInLoop(k: Job, keeps: (seq<Event>, Trial) -> bool, used: seq<Event>, e: Event, t: Trial)
    requires IsLoopState(keeps, k) && keeps(used, t) && t.open && t.retry < k.maxRetries
    ensures keeps(used + [e], AfterPass(t, k.frame, e))
  {
    assert InLoop(k, used, t);
    PassKeepsJudged(used, e, t, k.frame, k.maxRetries);
    OneMoreCount(used, e);
    OneMoreCopy(k.wire, k.frame, Writes(used));
    assert (used + [e])[..|used|] == used;
    assert InLoop(k, used + [e], AfterPass(t, k.frame, e));
  }

  /** What the state of the loop says when it ends. */
  predicate Concludes(k: Job, used: seq<Event>, open: bool, o: Outcome, retry: nat, heard: bool, connected: bool, flag: bool, wire: seq<Frame>) {
    wire == k.wire + Copies(k.frame, Writes(used)) && Writes(used) <= k.maxRetries && flag == Flag(used, k.flag) &&
    (used != [] ==> k.maxRetries > 0 && (connected <==> LastConnected(used))) &&
    (heard <==> Heard(used)) && (o != Returned(FAILURE) ==> heard) &&
    if open && retry < k.maxRetries then Explains(used, Cut, k.maxRetries)
    else o.Returned? && Explains(used, o, k.maxRetries)
  }

  lemma LoopEnds(k: Job, keeps: (seq<Event>, Trial) -> bool, used: seq<Event>, t: Trial)
    requires IsLoopState(keeps, k) && keeps(used, t)
    ensures Concludes(k, used, t.open, t.o, t.retry, t.heard, t.connected, t.flag, t.wire)
  {
    assert InLoop(k, used, t);
  }

  // ---- the codes by number ----

  /** What one pass of the retry loop decides, by the number the response comes as: six codes end the
      transmission with that answer, three leave it waiting for the same frame's answer, and any other
      spends a retry, the last of which ends it. Silence ends it only without the gateway. */
  lemma PassDecides(used: seq<Event>, e: Event, maxRetries: nat)
    requires AllPass(used) && Retries(used) < maxRetries && (WriteDue(used) ==> e.written)
    ensures var more, spent := used + [e], Retries(used) + 1;
      match e.receipt
      case Data(code) =>
        if code == 0 || code == 1 || code == 0x52 || code == 0x25 || code == 13 || code == 0x37 then
          Explains(more, Returned(code), maxRetries)
        else if code == 0x07 || code == 0x49 || code == 0x54 then
          Explains(more, Cut, maxRetries) && Retries(more) == Retries(used) && !WriteDue(more)
        else
          Explains(more, if spent < maxRetries then Cut else Returned(-1), maxRetries) && Retries(more) == spent && WriteDue(more)
      case NoData =>
        if !e.connected || e.duplicate then Explains(more, Returned(-1), maxRetries) && Retries(more) == Retries(used)
        else
          Explains(more, if spent < maxRetries then Cut else Returned(-1), maxRetries) && Retries(more) == spent && WriteDue(more)
  {
    OnePass(used, e, maxRetries);
    OneMoreCount(used, e);
  }

  /** A first response on a connected gateway is the answer exactly for six codes. */
  lemma AnswersIff(code: int)
    ensures Makes([Response(code)], Answer(code, true, 1))
      <==> code == 0 || code == 1 || code == 0x52 || code == 0x25 || code == 13 || code == 0x37
  {
    PassDecides([], Response(code), 3);
    assert [] + [Response(code)] == [Response(code)];
    OnePass([], Response(code), MAX_RETRIES);
  }

  /** The other codes on a first response: three cost nothing, any other one of the three retries. */
  lemma OtherwisePending(code: int)
    requires code != 0 && code != 1 && code != 0x52 && code != 0x25 && code != 13 && code != 0x37
    ensures Breaks([Response(code)], 1)
    ensures Retries([Response(code)]) == if code == 0x07 || code == 0x49 || code == 0x54 then 0 else 1
  {
    assert [] + [Response(code)] == [Response(code)];
    PassDecides([], Response(code), 3);
    OnePass([], Response(code), 3);
  }

  /** Three responses with a code of no meaning to the pull make a transmission fail after three writes. */
  lemma ThreeStrikes(code: int)
    requires code !in {0, 1, 0x52, 0x25, 13, 0x37, 0x07, 0x49, 0x54}
    ensures Makes([Response(code), Response(code), Response(code)], Answer(-1, true, 3))
  {
    var e := Response(code);
    var one, two := [e], [e, e];
    assert [] + [e] == one && one + [e] == two && two + [e] == [e, e, e];
    OnePass([], e, 3);
    OnePass(one, e, 3);
    OnePass(two, e, 3);
  }

  // ---- what a transmission leaves behind ----

  lemma {:induction false} SilentFlag(used: seq<Event>, flag: bool)
    requires used != [] && forall i :: 0 <= i < |used| ==> used[i].receipt.NoData?
    ensures Flag(used, flag)
  {
    var before := used[..|used| - 1];
    if before != [] {
      SilentFlag(before, flag);
    } else {
      assert WriteDue(before);
    }
  }

  /** A gateway that sends nothing during a whole transmission counts as gone, however its last pass stood,
      and the source address of whatever comes next will be checked. */
  lemma SilenceDisconnects(used: seq<Event>, a: Answer, flag: bool)
    requires Makes(used, a) && forall i :: 0 <= i < |used| ==> used[i].receipt.NoData?
    ensures a.code == -1 && !a.connected && Flag(used, flag)
  {
    SilentFlag(used, flag);
  }

  /** An answer leaves the gateway and the source address check as its own data left them. */
  lemma AnswerSettles(used: seq<Event>, a: Answer, flag: bool)
    requires Makes(used, a) && a.code != -1
    ensures used[|used| - 1].receipt == Data(a.code)
    ensures a.connected == used[|used| - 1].connected
    ensures Flag(used, flag) == used[|used| - 1].checksSource
  {
    var last := |used| - 1;
    assert used[last].receipt.Data? && !StopsAt(used, last);
  }

  /** A response from a wrong source leaves the check on, whatever was said about it. */
  lemma WrongSourceChecks(used: seq<Event>, e: Event, flag: bool)
    requires e.receipt == Data(0x49)
    ensures Flag(used + [e], flag)
  {
    assert (used + [e])[..|used|] == used;
  }

  // ---- the last frame of a successful pull ----

  lemma MadeIsWritten(used: seq<Event>, a: Answer)
    requires Makes(used, a)
    ensures a.writes > 0
  {
  }

  lemma LastIsWritten(answers: seq<Answer>, used: seq<Event>)
    requires answers != [] && Told(answers, used)
    ensures answers[|answers| - 1].writes > 0
  {
    var k :| 0 <= k <= |used| && ToldUpTo(answers, used, k);
    MadeIsWritten(used[k..], answers[|answers| - 1]);
  }

  lemma SuccessOnPrimary(n: NodePaths, answers: seq<Answer>, used: seq<Event>)
    requires IsRun(Begin(n), answers) && Told(answers, used)
    requires Run(Begin(n), answers).at.Done? && Run(Begin(n), answers).at.code == 0
    ensures var d, frames := Run(Begin(n), answers), Frames(Begin(n), answers);
      frames != [] && frames[|frames| - 1] == Frame(d.paths.primary, Page(d.at.page))
  {
    SuccessPromotes(n, answers);
    LastIsWritten(answers, used);
  }

  // ---- the stranding run is real ----

  /** A response with an unexpected code, on a gateway that stays connected. */
  const UNEXPECTED := 0x99

  function Response(code: int): Event {
    Event(true, Data(code), true, false, false)
  }

  /** So many unexpected responses, one after the other. */
  function Unexpected(k: nat): (r: seq<Event>) {
    if k == 0 then [] else Unexpected(k - 1) + [Response(UNEXPECTED)]
  }

  lemma {:induction false} EachSpendsARetry(k: nat)
    requires k <= MAX_RETRIES
    ensures var u := Unexpected(k);
      AllPass(u) && Retries(u) == k && Writes(u) == k && WriteDue(u) &&
      (k > 0 ==> u != [] && Pending(u, k, MAX_RETRIES) && Heard(u) && LastConnected(u))
  {
    if k > 0 {
      EachSpendsARetry(k - 1);
      OnePass(Unexpected(k - 1), Response(UNEXPECTED), MAX_RETRIES);
      OneMoreCount(Unexpected(k - 1), Response(UNEXPECTED));
    }
  }

  lemma FailureIsPossible()
    ensures Makes(Unexpected(MAX_RETRIES), Answer(FAILURE, true, MAX_RETRIES))
  {
    EachSpendsARetry(MAX_RETRIES);
  }

  lemma FinalIsPossible(code: int)
    requires IsFinal(code)
    ensures Makes([Response(code)], Answer(code, true, 1))
  {
    OnePass([], Response(code), MAX_RETRIES);
    assert [] + [Response(code)] == [Response(code)];
  }

  lemma StrandingAnswerIsPossible(k: nat) returns (used: seq<Event>)
    requires k < |STRANDING|
    ensures Makes(used, STRANDING[k])
  {
    FailureIsPossible();
    FinalIsPossible(DLMS_CONNECTION_FAILED);
    FinalIsPossible(DLMS_SUCCESS);
    used := if STRANDING[k].code == FAILURE then Unexpected(MAX_RETRIES) else [Response(STRANDING[k].code)];
  }

  /** Responses of the gateway that drive a pull through the first answers of the stranding run. */
  lemma {:induction false} StrandingHappens(k: nat) returns (events: seq<Event>)
    requires k <= |STRANDING|
    ensures Told(STRANDING[..k], events)
  {
    if k == 0 {
      events := [];
    } else {
      var before := StrandingHappens(k - 1);
      var used := StrandingAnswerIsPossible(k - 1);
      events := before + used;
      ToldOneMore(STRANDING[..k - 1], before, STRANDING[k - 1], used, STRANDING[..k], events);
    }
  }
}
