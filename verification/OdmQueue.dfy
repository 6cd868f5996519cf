/** Splitting command text into fields, as the two threads that share the on-demand queue do it. */
module CommandText {

  /** The next position of a character from a position on, or the length of the text. */
  function Next(s: string, d: char, at: nat): (i: nat)
    requires at <= |s|
    ensures at <= i <= |s| && (i < |s| ==> s[i] == d)
    ensures forall k :: at <= k < i ==> s[k] != d
    decreases |s| - at
  {
    if at == |s| || s[at] == d then at else Next(s, d, at + 1)
  }

  /** All fields from a position on, including an empty one behind a final delimiter. */
  function FieldsFrom(s: string, d: char, at: nat): (r: seq<string>)
    requires at <= |s|
    ensures r != []
    decreases |s| - at
  {
    var i := Next(s, d, at);
    if i == |s| then [s[at..]] else [s[at..i]] + FieldsFrom(s, d, i + 1)
  }

  /** The fields read line by line: nothing is read once the text is used up. */
  function LinesFrom(s: string, d: char, at: nat): (r: seq<string>)
    requires at <= |s|
    decreases |s| - at
  {
    if at == |s| then []
    else
      var i := Next(s, d, at);
      if i == |s| then [s[at..]] else [s[at..i]] + LinesFrom(s, d, i + 1)
  }

  function Fields(s: string, d: char): (r: seq<string>)
    ensures r != []
  {
    FieldsFrom(s, d, 0)
  }

  function Lines(s: string, d: char): (r: seq<string>) {
    LinesFrom(s, d, 0)
  }

  /** Fields put together again with the delimiter between them. */
  function Join(fs: seq<string>, d: char): string {
    if fs == [] then "" else if |fs| == 1 then fs[0] else fs[0] + [d] + Join(fs[1..], d)
  }

  /** The fields are free of delimiters. */
  lemma {:induction false} FieldsFree(s: string, d: char, at: nat)
    requires at <= |s|
    ensures forall f :: f in FieldsFrom(s, d, at) ==> d !in f
    decreases |s| - at
  {
    var i := Next(s, d, at);
    if i < |s| {
      FieldsFree(s, d, i + 1);
    }
  }

  /** Joining the fields gives the text back. */
  lemma {:induction false} FieldsJoin(s: string, d: char, at: nat)
    requires at <= |s|
    ensures Join(FieldsFrom(s, d, at), d) == s[at..]
    decreases |s| - at
  {
    var i := Next(s, d, at);
    if i < |s| {
      var rest := FieldsFrom(s, d, i + 1);
      FieldsJoin(s, d, i + 1);
      JoinOne(s[at..i], rest, d);
      TextSplits(s, at, i);
    }
  }

  lemma TextSplits(s: string, at: nat, i: nat)
    requires at <= i < |s|
    ensures s[at..] == s[at..i] + [s[i]] + s[i + 1..]
  {
  }

  lemma JoinOne(f: string, rest: seq<string>, d: char)
    requires rest != []
    ensures Join([f] + rest, d) == f + [d] + Join(rest, d)
  {
  }

  /** The two ways of splitting differ by at most one empty last field. */
  lemma {:induction false} FieldsAreLinesFrom(s: string, d: char, at: nat)
    requires at <= |s| && (0 < at ==> s[at - 1] == d)
    ensures FieldsFrom(s, d, at) == LinesFrom(s, d, at) + (if s == "" || s[|s| - 1] == d then [""] else [])
    decreases |s| - at
  {
    var i := Next(s, d, at);
    var extra := if s == "" || s[|s| - 1] == d then [""] else [];
    if i < |s| {
      FieldsAreLinesFrom(s, d, i + 1);
      Prepend(s[at..i], LinesFrom(s, d, i + 1), extra);
    } else if at < |s| {
      assert s[|s| - 1] != d;
    } else {
      assert s[at..] == "";
    }
  }

  lemma Prepend(head: string, a: seq<string>, b: seq<string>)
    ensures [head] + (a + b) == ([head] + a) + b
  {
  }

  lemma FieldsAreLines(s: string, d: char)
    ensures Fields(s, d) == Lines(s, d) + (if s == "" || s[|s| - 1] == d then [""] else [])
  {
    FieldsAreLinesFrom(s, d, 0);
  }

  /** So both read the same first field of a command that is not empty. */
  lemma SameRequestId(s: string, d: char)
    requires s != ""
    ensures Lines(s, d) != [] && Lines(s, d)[0] == Fields(s, d)[0]
  {
    FieldsAreLines(s, d);
  }

  /** The next position of a character from `start` on, if there is one. */
  method FindFrom(s: string, d: char, start: nat) returns (found: bool, at: nat)
    requires start <= |s|
    ensures at == Next(s, d, start) && (found <==> at < |s|)
  {
    at := start;
    while at < |s| && s[at] != d
      invariant start <= at <= |s| && Next(s, d, at) == Next(s, d, start)
    {
      at := at + 1;
    }
    found := at < |s|;
  }

  lemma Shift(tokens: seq<string>, head: string, rest: seq<string>)
    ensures tokens + ([head] + rest) == (tokens + [head]) + rest
  {
  }

  /** Splits by searching for delimiters. */
  method Explode(s: string, delim: char) returns (tokens: seq<string>)
    ensures tokens == Fields(s, delim)
  {
    tokens := [];
    var start := 0;
    var more, end := FindFrom(s, delim, 0);
    ghost var all := Fields(s, delim);
    while more
      invariant start <= |s| && end == Next(s, delim, start) && (more <==> end < |s|)
      invariant tokens + FieldsFrom(s, delim, start) == all
      decreases |s| - start
    {
      Shift(tokens, s[start..end], FieldsFrom(s, delim, end + 1));
      tokens := tokens + [s[start..end]];
      start := end + 1;
      more, end := FindFrom(s, delim, start);
    }
    tokens := tokens + [s[start..]];
  }

  /** Splits by reading up to the next delimiter until the text is used up. */
  method Split(s: string, delim: char) returns (tokens: seq<string>)
    ensures tokens == Lines(s, delim)
  {
    tokens := [];
    var at := 0;
    ghost var all := Lines(s, delim);
    while at < |s|
      invariant at <= |s| && tokens + LinesFrom(s, delim, at) == all
      decreases |s| - at
    {
      var more, end := FindFrom(s, delim, at);
      var next := if more then end + 1 else end;
      assert !more ==> s[at..end] == s[at..];
      Shift(tokens, s[at..end], LinesFrom(s, delim, next));
      tokens := tokens + [s[at..end]];
      at := next;
    }
  }
}

/** The on-demand queue of a client: filled and cancelled from by the message thread, emptied by the
    connection's thread, which works on the front and takes it off only afterwards. */
module OdmQueue {
  import opened Wrappers
  import opened CommandText

  const MAX_QUEUE_SIZE := 500

  /** A command with the number of its arrival. */
  datatype Command = Command(stamp: nat, text: string)

  /** The request id of a command. */
  function RequestId(c: Command): string {
    Fields(c.text, ':')[0]
  }

  /** The queue, the command in work, and where all others went. After the connection is gone,
      commands are answered "gateway disconnected" instead of being processed. */
  datatype State = State(
    arrived: nat, queue: seq<Command>, current: Option<Command>, closed: bool,
    processed: seq<Command>, drained: seq<Command>, cancelled: seq<Command>, dropped: seq<Command>)

  datatype Event = Enqueue(text: string) | Cancel(ids: set<string>) | Begin | Finish | Abort | Close

  function Start(): State {
    State(0, [], None, false, [], [], [], [])
  }

  /** The commands whose request id is listed, or is not. */
  function Listed(q: seq<Command>, ids: set<string>, wanted: bool): (r: seq<Command>) {
    if q == [] then []
    else Listed(q[..|q| - 1], ids, wanted) + (if (RequestId(q[|q| - 1]) in ids) == wanted then [q[|q| - 1]] else [])
  }

  predicate Enabled(s: State, e: Event) {
    match e
    case Begin => s.current.None? && s.queue != []
    case Finish => s.current.Some?
    case Abort => s.current.Some? && !s.closed
    case Close => s.current.None? && !s.closed
    case _ => true
  }

  function Step(s: State, e: Event): State
    requires Enabled(s, e)
  {
    match e
    case Enqueue(text) =>
      var room := if |s.queue| >= MAX_QUEUE_SIZE then s.queue[1..] else s.queue;
      s.(arrived := s.arrived + 1, queue := room + [Command(s.arrived, text)],
         dropped := if |s.queue| >= MAX_QUEUE_SIZE then s.dropped + [s.queue[0]] else s.dropped)
    case Cancel(ids) =>
      s.(queue := Listed(s.queue, ids, false), cancelled := s.cancelled + Listed(s.queue, ids, true))
    case Begin => s.(current := Some(s.queue[0]))
    case Finish =>
      var rest := if s.queue == [] then [] else s.queue[1..];
      if s.closed then s.(queue := rest, current := None, drained := s.drained + [s.current.value])
      else s.(queue := rest, current := None, processed := s.processed + [s.current.value])
    case Abort => s.(current := None, closed := true)
    case Close => s.(closed := true)
  }

  predicate EnabledAll(events: seq<Event>)
    decreases |events|, 0
  {
    events == [] || (EnabledAll(events[..|events| - 1]) && Enabled(Run(events[..|events| - 1]), events[|events| - 1]))
  }

  function Run(events: seq<Event>): State
    requires EnabledAll(events)
    decreases |events|, 1
  {
    if events == [] then Start() else Step(Run(events[..|events| - 1]), events[|events| - 1])
  }

  /** Everything that ever arrived, in order. */
  function Arrivals(events: seq<Event>): (r: seq<Command>)
    requires EnabledAll(events)
  {
    if events == [] then []
    else
      var before := events[..|events| - 1];
      match events[|events| - 1]
      case Enqueue(text) => Arrivals(before) + [Command(Run(before).arrived, text)]
      case _ => Arrivals(before)
  }

  /** What has left the queue with an answer or on record. */
  function Settled(s: State): seq<Command> {
    s.processed + s.drained + s.cancelled + s.dropped
  }

  // ---- the queue itself ----

  predicate InOrder(q: seq<Command>) {
    forall i, j :: 0 <= i < j < |q| ==> q[i].stamp < q[j].stamp
  }

  /** Bounded, in order of arrival, and made of commands that arrived. */
  predicate QueueOk(s: State, arrivals: seq<Command>) {
    |s.queue| <= MAX_QUEUE_SIZE && InOrder(s.queue) && s.arrived == |arrivals| && InOrder(arrivals) &&
    (forall c :: c in arrivals ==> c.stamp < s.arrived) && (forall c :: c in s.queue ==> c in arrivals)
  }

  lemma {:induction false} ListedMembers(q: seq<Command>, ids: set<string>, wanted: bool)
    ensures forall c :: c in Listed(q, ids, wanted) <==> c in q && (RequestId(c) in ids) == wanted
    ensures |Listed(q, ids, wanted)| <= |q|
  {
    if q != [] {
      ListedMembers(q[..|q| - 1], ids, wanted);
      assert q == q[..|q| - 1] + [q[|q| - 1]];
    }
  }

  lemma {:induction false} ListedInOrder(q: seq<Command>, ids: set<string>, wanted: bool)
    requires InOrder(q)
    ensures InOrder(Listed(q, ids, wanted))
  {
    if q != [] {
      var before, last := q[..|q| - 1], q[|q| - 1];
      var kept := Listed(before, ids, wanted);
      ListedInOrder(before, ids, wanted);
      ListedMembers(before, ids, wanted);
      forall i | 0 <= i < |kept| ensures kept[i].stamp < last.stamp {
        assert kept[i] in kept;
        var j :| 0 <= j < |before| && before[j] == kept[i];
        assert q[j] == kept[i];
      }
    }
  }

  /** Cancelling splits the queue in two. */
  lemma {:induction false} ListedSplits(q: seq<Command>, ids: set<string>)
    ensures multiset(Listed(q, ids, true)) + multiset(Listed(q, ids, false)) == multiset(q)
  {
    if q != [] {
      var before, last := q[..|q| - 1], q[|q| - 1];
      ListedSplits(before, ids);
      assert q == before + [last];
      if RequestId(last) in ids {
        assert Listed(q, ids, true) == Listed(before, ids, true) + [last] && Listed(q, ids, false) == Listed(before, ids, false);
      } else {
        assert Listed(q, ids, false) == Listed(before, ids, false) + [last] && Listed(q, ids, true) == Listed(before, ids, true);
      }
    }
  }

  lemma StepKeepsQueue(s: State, e: Event, arrivals: seq<Command>)
    requires Enabled(s, e) && QueueOk(s, arrivals)
    ensures QueueOk(Step(s, e), if e.Enqueue? then arrivals + [Command(s.arrived, e.text)] else arrivals)
  {
    if e.Cancel? {
      ListedMembers(s.queue, e.ids, false);
      ListedInOrder(s.queue, e.ids, false);
    }
  }

  /** In every run the queue is bounded and a subsequence of the arrivals. */
  lemma {:induction false} QueueIsOrdered(events: seq<Event>)
    requires EnabledAll(events)
    ensures QueueOk(Run(events), Arrivals(events))
  {
    if events != [] {
      var before := events[..|events| - 1];
      QueueIsOrdered(before);
      StepKeepsQueue(Run(before), events[|events| - 1], Arrivals(before));
    }
  }

  // ---- conservation ----

  /** The command in work was dropped or cancelled under the worker's hands. */
  predicate Robbed(s: State, e: Event)
  {
    s.current.Some? &&
    match e
    case Enqueue(_) => |s.queue| >= MAX_QUEUE_SIZE
    case Cancel(ids) => RequestId(s.current.value) in ids
    case _ => false
  }

  /** Whether that happened since the worker last began. */
  predicate Disturbed(events: seq<Event>)
    requires EnabledAll(events)
  {
    if events == [] then false
    else
      var before, e := events[..|events| - 1], events[|events| - 1];
      match e
      case Begin => false
      case Finish => false
      case Abort => false
      case _ => Disturbed(before) || Robbed(Run(before), e)
  }

  /** No command was finished after having been dropped or cancelled in the meantime. */
  predicate Undisturbed(events: seq<Event>)
    requires EnabledAll(events)
  {
    events == [] ||
    (Undisturbed(events[..|events| - 1]) && !(events[|events| - 1].Finish? && Disturbed(events[..|events| - 1])))
  }

  /** Every arrival is in exactly one place: still queued, processed, drained, cancelled or dropped. */
  ghost predicate Conserved(events: seq<Event>)
    requires EnabledAll(events)
  {
    multiset(Run(events).queue) + multiset(Settled(Run(events))) == multiset(Arrivals(events))
  }

  /** As long as nothing disturbed the worker, the command in work is the front of the queue;
      otherwise it has been dropped or cancelled already. */
  predicate FrontOk(s: State, disturbed: bool) {
    match s.current
    case None => !disturbed
    case Some(c) =>
      if disturbed then (c in s.cancelled || c in s.dropped)
      else s.queue != [] && s.queue[0] == c
  }

  lemma CancelKeepsFront(q: seq<Command>, ids: set<string>)
    requires q != [] && RequestId(q[0]) !in ids
    ensures var rest := Listed(q, ids, false); rest != [] && rest[0] == q[0]
  {
    CancelKeepsPrefix(q, ids, 1);
    assert q[..1] == [q[0]] && q[..1][..0] == [];
  }

  lemma {:induction false} CancelKeepsPrefix(q: seq<Command>, ids: set<string>, n: nat)
    requires n <= |q|
    ensures Listed(q[..n], ids, false) <= Listed(q, ids, false)
    decreases |q|
  {
    if n == |q| {
      assert q[..n] == q;
    } else {
      var shorter := q[..|q| - 1];
      assert shorter[..n] == q[..n];
      CancelKeepsPrefix(shorter, ids, n);
    }
  }

  lemma StepKeepsFront(s: State, e: Event, disturbed: bool)
    requires Enabled(s, e) && FrontOk(s, disturbed)
    requires disturbed ==> s.current.Some?
    ensures FrontOk(Step(s, e), !(e.Begin? || e.Finish? || e.Abort?) && (disturbed || Robbed(s, e)))
  {
    if e.Cancel? && s.current.Some? {
      ListedMembers(s.queue, e.ids, true);
      if !disturbed && !Robbed(s, e) {
        CancelKeepsFront(s.queue, e.ids);
      }
    }
  }

  lemma {:induction false} FrontIsCurrent(events: seq<Event>)
    requires EnabledAll(events)
    ensures FrontOk(Run(events), Disturbed(events))
    ensures Disturbed(events) ==> Run(events).current.Some?
  {
    if events != [] {
      var before, e := events[..|events| - 1], events[|events| - 1];
      FrontIsCurrent(before);
      StepKeepsFront(Run(before), e, Disturbed(before));
    }
  }

  lemma OffTheFront(q: seq<Command>)
    requires q != []
    ensures multiset(q) == multiset{q[0]} + multiset(q[1..])
  {
    assert q == [q[0]] + q[1..];
  }

  function Total(s: State): multiset<Command> {
    multiset(s.queue) + multiset(s.processed) + multiset(s.drained) + multiset(s.cancelled) + multiset(s.dropped)
  }

  lemma TotalIsAll(s: State)
    ensures Total(s) == multiset(s.queue) + multiset(Settled(s))
  {
  }

  lemma EnqueueConserves(s: State, text: string)
    ensures Total(Step(s, Enqueue(text))) == Total(s) + multiset{Command(s.arrived, text)}
  {
    if |s.queue| >= MAX_QUEUE_SIZE {
      OffTheFront(s.queue);
    }
  }

  lemma CancelConserves(s: State, ids: set<string>)
    ensures Total(Step(s, Cancel(ids))) == Total(s)
  {
    ListedSplits(s.queue, ids);
  }

  lemma FinishConserves(s: State)
    requires s.current.Some? && s.queue != [] && s.queue[0] == s.current.value
    ensures Total(Step(s, Finish)) == Total(s)
  {
    OffTheFront(s.queue);
  }

  lemma StepConserves(s: State, e: Event, arrivals: seq<Command>)
    requires Enabled(s, e) && Total(s) == multiset(arrivals)
    requires e.Finish? ==> s.queue != [] && s.queue[0] == s.current.value
    ensures Total(Step(s, e)) == multiset(if e.Enqueue? then arrivals + [Command(s.arrived, e.text)] else arrivals)
  {
    match e
    case Enqueue(text) => EnqueueConserves(s, text);
    case Cancel(ids) => CancelConserves(s, ids);
    case Finish => FinishConserves(s);
    case _ =>
  }

  /** A command that was both finished and dropped or cancelled. */
  predicate Twice(s: State, c: Command) {
    (c in s.processed || c in s.drained) && (c in s.cancelled || c in s.dropped)
  }

  lemma TwiceStays(s: State, e: Event, c: Command)
    requires Enabled(s, e) && Twice(s, c)
    ensures Twice(Step(s, e), c)
  {
  }

  lemma TwiceBreaks(s: State, c: Command, arrivals: seq<Command>)
    requires Twice(s, c) && InOrder(arrivals)
    ensures multiset(s.queue) + multiset(Settled(s)) != multiset(arrivals)
  {
    var finished, gone := s.processed + s.drained, s.cancelled + s.dropped;
    assert c in finished && c in gone && Settled(s) == finished + gone;
    assert multiset(Settled(s)) == multiset(finished) + multiset(gone);
    assert c in multiset(finished) && c in multiset(gone);
    OnceInOrder(arrivals, c);
  }

  lemma {:induction false} OnceInOrder(q: seq<Command>, c: Command)
    requires InOrder(q)
    ensures multiset(q)[c] <= 1
  {
    if q != [] {
      var before, last := q[..|q| - 1], q[|q| - 1];
      OnceInOrder(before, c);
      assert q == before + [last];
      if c in before {
        var i :| 0 <= i < |before| && before[i] == c;
        assert q[i].stamp < last.stamp;
      }
    }
  }

  /** A run that finished a disturbed command has one that went two ways. */
  lemma {:induction false} DisturbedGoesTwice(events: seq<Event>) returns (c: Command)
    requires EnabledAll(events) && !Undisturbed(events)
    ensures Twice(Run(events), c)
  {
    var before, e := events[..|events| - 1], events[|events| - 1];
    if Undisturbed(before) {
      FrontIsCurrent(before);
      c := Run(before).current.value;
    } else {
      c := DisturbedGoesTwice(before);
      TwiceStays(Run(before), e, c);
    }
  }

  lemma {:induction false} UndisturbedConserves(events: seq<Event>)
    requires EnabledAll(events) && Undisturbed(events)
    ensures Conserved(events)
  {
    if events != [] {
      var before, e := events[..|events| - 1], events[|events| - 1];
      UndisturbedConserves(before);
      FrontIsCurrent(before);
      TotalIsAll(Run(before));
      TotalIsAll(Run(events));
      StepConserves(Run(before), e, Arrivals(before));
    }
  }

  /** Conservation holds in exactly those runs in which no command was finished after an arrival at
      a full queue or a cancellation had taken it away from the worker. */
  lemma ConservedIff(events: seq<Event>)
    requires EnabledAll(events)
    ensures Conserved(events) <==> Undisturbed(events)
  {
    if Undisturbed(events) {
      UndisturbedConserves(events);
    } else {
      var c := DisturbedGoesTwice(events);
      QueueIsOrdered(events);
      TwiceBreaks(Run(events), c, Arrivals(events));
    }
  }

  lemma SecondBecomesFront(q: seq<Command>, ids: set<string>)
    requires |q| >= 2 && RequestId(q[0]) in ids && RequestId(q[1]) !in ids
    ensures var rest := Listed(q, ids, false); rest != [] && rest[0] == q[1]
  {
    var one, two := q[..1], q[..2];
    assert one == [] + [q[0]] && two == one + [q[1]];
    ListedSnoc([], q[0], ids);
    ListedSnoc(one, q[1], ids);
    assert Listed(two, ids, false) == [q[1]];
    CancelKeepsPrefix(q, ids, 2);
    assert Listed(q, ids, false)[..1] == [q[1]];
  }

  lemma FrontOccursOnce(q: seq<Command>)
    requires InOrder(q) && q != []
    ensures q[0] !in q[1..]
  {
    forall i | 0 <= i < |q[1..]| ensures q[1..][i] != q[0] {
      assert q[1..][i] == q[i + 1] && q[0].stamp < q[i + 1].stamp;
    }
  }

  lemma FrontGone(q: seq<Command>, ids: set<string>)
    requires InOrder(q) && |q| >= 2 && RequestId(q[0]) in ids && RequestId(q[1]) !in ids
    ensures var rest := Listed(q, ids, false); rest != [] && rest[0] == q[1] && q[1] !in rest[1..]
  {
    SecondBecomesFront(q, ids);
    ListedInOrder(q, ids, false);
    FrontOccursOnce(Listed(q, ids, false));
  }

  lemma CancelThenFinish(s: State, ids: set<string>)
    requires InOrder(s.queue) && |s.queue| >= 2 && s.current == Some(s.queue[0])
    requires RequestId(s.queue[0]) in ids && RequestId(s.queue[1]) !in ids && s.queue[1] !in Settled(s)
    ensures var t, lost := Step(Step(s, Cancel(ids)), Finish), s.queue[1];
      Twice(t, s.queue[0]) && lost !in t.queue && lost !in Settled(t)
  {
    FrontGone(s.queue, ids);
    ListedMembers(s.queue, ids, true);
    assert s.queue[0].stamp < s.queue[1].stamp;
  }

  /** A cancellation of the command in work makes the worker take the next command off the queue
      instead, although nobody has looked at it: it ends up nowhere. */
  lemma CancelDuringWorkLoses(events: seq<Event>, ids: set<string>)
    requires EnabledAll(events) && Conserved(events)
    requires var s := Run(events);
      |s.queue| >= 2 && s.current == Some(s.queue[0]) && RequestId(s.queue[0]) in ids && RequestId(s.queue[1]) !in ids
    ensures var all, lost := events + [Cancel(ids)] + [Finish], Run(events).queue[1];
      EnabledAll(all) && !Conserved(all) && lost in Arrivals(events) &&
      lost !in Run(all).queue && lost !in Settled(Run(all))
  {
    var s, mid := Run(events), events + [Cancel(ids)];
    OneMore(events, Cancel(ids));
    OneMore(mid, Finish);
    QueueIsOrdered(events);
    QueuedNotSettled(s, Arrivals(events), s.queue[1]);
    CancelThenFinish(s, ids);
    QueueIsOrdered(mid + [Finish]);
    TwiceBreaks(Run(mid + [Finish]), s.queue[0], Arrivals(mid + [Finish]));
  }

  lemma QueuedNotSettled(s: State, arrivals: seq<Command>, c: Command)
    requires multiset(s.queue) + multiset(Settled(s)) == multiset(arrivals) && InOrder(arrivals) && c in s.queue
    ensures c !in Settled(s)
  {
    OnceInOrder(arrivals, c);
    assert c in multiset(s.queue);
    assert multiset(arrivals)[c] == multiset(s.queue)[c] + multiset(Settled(s))[c];
  }

  /** Such a run: two commands arrive and the first is in work. */
  lemma WorkBegun(a: string, b: string)
    ensures var begun := [Enqueue(a), Enqueue(b), Begin];
      EnabledAll(begun) && Conserved(begun) &&
      Run(begun) == State(2, [Command(0, a), Command(1, b)], Some(Command(0, a)), false, [], [], [], [])
  {
    OneMore([], Enqueue(a));
    OneMore([] + [Enqueue(a)], Enqueue(b));
    OneMore([] + [Enqueue(a)] + [Enqueue(b)], Begin);
    var begun := [] + [Enqueue(a)] + [Enqueue(b)] + [Begin];
    assert begun == [Enqueue(a), Enqueue(b), Begin];
    OneMoreUndisturbed([], Enqueue(a));
    OneMoreUndisturbed([] + [Enqueue(a)], Enqueue(b));
    OneMoreUndisturbed([] + [Enqueue(a)] + [Enqueue(b)], Begin);
    ConservedIff(begun);
  }

  lemma OneMoreUndisturbed(events: seq<Event>, e: Event)
    requires EnabledAll(events) && Undisturbed(events) && Enabled(Run(events), e) && !e.Finish?
    ensures EnabledAll(events + [e]) && Undisturbed(events + [e])
  {
    OneMore(events, e);
    assert (events + [e])[..|events|] == events;
  }

  lemma ListedSnoc(q: seq<Command>, c: Command, ids: set<string>)
    ensures Listed(q + [c], ids, true) == Listed(q, ids, true) + (if RequestId(c) in ids then [c] else [])
    ensures Listed(q + [c], ids, false) == Listed(q, ids, false) + (if RequestId(c) in ids then [] else [c])
  {
    assert (q + [c])[..|q|] == q;
  }

  lemma OneMore(events: seq<Event>, e: Event)
    requires EnabledAll(events) && Enabled(Run(events), e)
    ensures EnabledAll(events + [e]) && Run(events + [e]) == Step(Run(events), e)
  {
    assert (events + [e])[..|events|] == events;
  }

  // ---- the queue operations ----

  /** The client as far as its on-demand queue goes. Each operation on the queue is one step. */
  class Client {
    var odm: seq<Command>
    /** The number the next arrival gets; it tells equal commands apart. */
    var arrived: nat
    /** The command the connection's thread works on. */
    var current: Option<Command>
    var disconnected: bool
    ghost var processed: seq<Command>
    ghost var drained: seq<Command>
    ghost var cancelled: seq<Command>
    ghost var dropped: seq<Command>

    constructor ()
      ensures View() == Start()
    {
      odm, arrived, current, disconnected := [], 0, None, false;
      processed, drained, cancelled, dropped := [], [], [], [];
    }

    ghost function View(): State
      reads this
    {
      State(arrived, odm, current, disconnected, processed, drained, cancelled, dropped)
    }

    /** Appends a command; a full queue loses its oldest first. */
    method EnqueueOdm(cmd: string)
      modifies this
      ensures View() == Step(old(View()), Enqueue(cmd))
    {
      if |odm| >= MAX_QUEUE_SIZE {
        dropped := dropped + [odm[0]];
        odm := odm[1..];
      }
      odm := odm + [Command(arrived, cmd)];
      arrived := arrived + 1;
    }

    /** Rebuilds the queue without the commands whose request id is cancelled. */
    method RemoveCommandsByReqId(cancelReqIds: set<string>)
      modifies this`odm, this`cancelled
      ensures View() == Step(old(View()), Cancel(cancelReqIds))
    {
      var temp: seq<Command> := [];
      ghost var done: seq<Command> := [];
      ghost var was := odm;
      while odm != []
        invariant done + odm == was && temp == Listed(done, cancelReqIds, false)
        invariant cancelled == old(cancelled) + Listed(done, cancelReqIds, true)
        decreases |odm|
      {
        var front := odm[0];
        var parts := Explode(front.text, ':');
        ListedSnoc(done, front, cancelReqIds);
        if parts[0] !in cancelReqIds {
          temp := temp + [front];
        } else {
          cancelled := cancelled + [front];
        }
        TakeFront(done, odm);
        done := done + [front];
        odm := odm[1..];
      }
      assert done == was;
      odm := temp;
    }

    /** Looks at the front of the queue and starts on it; the request id is the first field. */
    method BeginFront() returns (requestId: Option<string>)
      requires Enabled(View(), Begin)
      modifies this`current
      ensures View() == Step(old(View()), Begin) && requestId == AnsweredAs(odm[0])
    {
      current := Some(odm[0]);
      var parts := Split(odm[0].text, ':');
      FieldsAreLines(odm[0].text, ':');
      requestId := if parts != [] && parts[0] != "" then Some(parts[0]) else None;
    }

    /** Takes the front off the queue after the work is done, whatever is there by now. */
    method PopFront()
      requires Enabled(View(), Finish)
      modifies this`odm, this`current, this`processed, this`drained
      ensures View() == Step(old(View()), Finish)
    {
      if disconnected {
        drained := drained + [current.value];
      } else {
        processed := processed + [current.value];
      }
      current := None;
      odm := if odm == [] then [] else odm[1..];
    }

    /** At the end of the connection, with nobody else at the queue, every command still there is
        answered "gateway disconnected" once, under the request id its text starts with. */
    method DrainDisconnected() returns (answered: seq<Option<string>>)
      requires disconnected && current.None?
      modifies this
      ensures View() == old(View()).(queue := [], drained := old(drained) + old(odm))
      ensures |answered| == |old(odm)|
      ensures forall i :: 0 <= i < |answered| ==> answered[i] == AnsweredAs(old(odm)[i])
    {
      answered := [];
      ghost var done: seq<Command> := [];
      while odm != []
        invariant done + odm == old(odm) && |done| == |answered|
        invariant View() == old(View()).(queue := odm, drained := old(drained) + done)
        invariant forall i :: 0 <= i < |answered| ==> answered[i] == AnsweredAs(done[i])
        decreases |odm|
      {
        TakeFront(done, odm);
        done := done + [odm[0]];
        var requestId := BeginFront();
        answered := answered + [requestId];
        PopFront();
      }
    }
  }

  lemma TakeFront(done: seq<Command>, q: seq<Command>)
    requires q != []
    ensures (done + [q[0]]) + q[1..] == done + q
  {
  }

  /** The request id an answer goes to. */
  function AnsweredAs(c: Command): Option<string> {
    if RequestId(c) == "" then None else Some(RequestId(c))
  }
  /** In terms of the text: its request id is everything up to the first ':', or the whole of a text without
      one. That is the id an answer goes to, unless it is empty, and the id a cancellation has to name. */
  lemma AnsweredIsPrefix(c: Command, id: string)
    requires ':' !in id
    requires c.text == id || exists rest :: c.text == id + [':'] + rest
    ensures RequestId(c) == id && AnsweredAs(c) == if id == "" then None else Some(id)
  {
    var at := Next(c.text, ':', 0);
    assert forall i :: 0 <= i < |id| ==> c.text[i] == id[i];
    assert |id| < |c.text| ==> c.text[|id|] == ':';
    assert at == |id|;
    assert c.text[..at] == id;
    assert at == |c.text| ==> c.text[0..] == c.text;
  }

  /** Cancelling an id takes exactly the commands away whose text is that id, or goes on with a ':' behind it. */
  lemma CancelledByPrefix(q: seq<Command>, id: string, c: Command)
    requires ':' !in id
    ensures c in Listed(q, {id}, true) <==> c in q && (c.text == id || id + [':'] <= c.text)
    ensures c in Listed(q, {id}, false) <==> c in q && !(c.text == id || id + [':'] <= c.text)
  {
    ListedMembers(q, {id}, true);
    ListedMembers(q, {id}, false);
    var own := RequestId(c);
    assert ':' !in own && (c.text == own || own + [':'] <= c.text) by { OwnPrefix(c); }
    if c.text == id || id + [':'] <= c.text {
      if id + [':'] <= c.text {
        assert c.text == id + [':'] + c.text[|id| + 1..];
      }
      AnsweredIsPrefix(c, id);
    }
  }

  lemma OwnPrefix(c: Command)
    ensures ':' !in RequestId(c) && (c.text == RequestId(c) || RequestId(c) + [':'] <= c.text)
  {
    FieldsFree(c.text, ':', 0);
    var at := Next(c.text, ':', 0);
    assert RequestId(c) == c.text[..at];
  }

  // ---- before and after the end of the connection ----

  predicate Ends(e: Event) {
    e.Abort? || e.Close?
  }

  predicate HasEnded(events: seq<Event>) {
    exists i :: 0 <= i < |events| && Ends(events[i])
  }

  lemma EndedMore(events: seq<Event>, e: Event)
    ensures HasEnded(events + [e]) <==> HasEnded(events) || Ends(e)
  {
    var more := events + [e];
    assert more[|events|] == e && forall i :: 0 <= i < |events| ==> more[i] == events[i];
    if HasEnded(events) {
      var i :| 0 <= i < |events| && Ends(events[i]);
      assert Ends(more[i]);
    }
  }

  lemma StepDrains(s: State, e: Event)
    requires Enabled(s, e)
    ensures var t := Step(s, e);
      (t.closed <==> s.closed || Ends(e)) && (!s.closed ==> t.drained == s.drained) && (s.closed ==> t.processed == s.processed)
  {
  }

  /** The connection is gone once it was aborted or closed. Until then no command is answered "gateway
      disconnected"; from then on none is processed. */
  lemma {:induction false} ClosedDrains(events: seq<Event>)
    requires EnabledAll(events)
    ensures (Run(events).closed <==> HasEnded(events)) && (!HasEnded(events) ==> Run(events).drained == [])
    ensures events != [] && HasEnded(events[..|events| - 1]) ==> Run(events).processed == Run(events[..|events| - 1]).processed
  {
    if events != [] {
      var before, e := events[..|events| - 1], events[|events| - 1];
      ClosedDrains(before);
      assert before + [e] == events;
      EndedMore(before, e);
      StepDrains(Run(before), e);
    }
  }

  // ---- the bound by number ----

  /** An arrival takes the oldest command off exactly when five hundred are waiting, and is last itself. */
  lemma ArrivalDrops(events: seq<Event>, text: string)
    requires EnabledAll(events)
    ensures var s, more := Run(events), events + [Enqueue(text)];
      EnabledAll(more) && |s.queue| <= 500 && Run(more).dropped == (if |s.queue| == 500 then s.dropped + [s.queue[0]] else s.dropped) &&
      Run(more).queue == (if |s.queue| == 500 then s.queue[1..] else s.queue) + [Command(|Arrivals(events)|, text)]
  {
    QueueIsOrdered(events);
    OneMore(events, Enqueue(text));
  }
}
