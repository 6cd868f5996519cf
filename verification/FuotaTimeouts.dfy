/** Timeouts of a firmware update: retries on the current route, switches to alternate routes, and the
    final failure. Switching counts the alternate twice, once in the timeout handler and once more in
    the preparation of the alternate route. */
module FuotaTimeouts {
  import opened Bytes

  /** Retry limit per route, and limit of the alternate counter. */
  datatype Limits = Limits(maxRetries: nat, alternateMaxcnt: nat)

  /** The limits every update starts with. */
  const LIMITS := Limits(3, 2)

  /** How the preparation of an alternate route ends: a route was built or the frame has no routers;
      no route was found; no route of the same length was found during image transfer. */
  datatype Outcome = Prepared | NoRoute | NoSameRoute

  datatype Context = Context(retryCount: nat, alternateRetry: nat, waiting: bool, alternate: bool, rebuilds: nat)

  function Fresh(): Context {
    Context(0, 0, true, false, 0)
  }

  /** The alternate counter after a switch. */
  function AfterSwitch(l: Limits, alternateRetry: nat, o: Outcome): nat {
    match o
    case Prepared => alternateRetry + 2
    case NoRoute => l.alternateMaxcnt
    case NoSameRoute => l.maxRetries
  }

  function Timeout(l: Limits, c: Context, o: Outcome): Context {
    if !c.waiting then c
    else if c.retryCount < l.maxRetries then c.(retryCount := c.retryCount + 1, rebuilds := c.rebuilds + 1)
    else if c.alternateRetry < l.alternateMaxcnt then
      Context(0, AfterSwitch(l, c.alternateRetry, o), true, true, c.rebuilds + 1)
    else Context(0, 0, false, false, c.rebuilds)
  }

  /** One timeout after the other, each with the outcome a switch would have. */
  function Run(l: Limits, outcomes: seq<Outcome>): Context {
    if outcomes == [] then Fresh() else Timeout(l, Run(l, outcomes[..|outcomes| - 1]), outcomes[|outcomes| - 1])
  }

  class Fuota {
    var retryCount: nat
    var alternateRetry: nat
    var maxRetries: nat
    var alternateMaxcnt: nat
    var waitingForResponse: bool
    var useAlternateFuotaRoute: bool
    /** How often the command was built again. */
    ghost var rebuilds: nat

    constructor ()
      ensures Bounds() == LIMITS && State() == Fresh()
    {
      retryCount, alternateRetry, maxRetries, alternateMaxcnt := 0, 0, 3, 2;
      waitingForResponse, useAlternateFuotaRoute, rebuilds := true, false, 0;
    }

    function Bounds(): Limits
      reads this
    {
      Limits(maxRetries, alternateMaxcnt)
    }

    ghost function State(): Context
      reads this
    {
      Context(retryCount, alternateRetry, waitingForResponse, useAlternateFuotaRoute, rebuilds)
    }

    /** The preparation of an alternate route for a command in work. */
    method PrepareAlternateRoute(sameRoute: bool, routers: byte, found: bool)
      modifies this`retryCount, this`alternateRetry
      ensures retryCount == 0
      ensures alternateRetry == if routers == 0 || found then old(alternateRetry) + 1
                                else if sameRoute then maxRetries else alternateMaxcnt
    {
      retryCount := 0;
      alternateRetry := alternateRetry + 1;
      if routers == 0 {
        return;
      }
      if !found {
        alternateRetry := if sameRoute then maxRetries else alternateMaxcnt;
      }
    }

    /** The timeout handler while a response is awaited. */
    method PollTimeout(imageTransfer: bool, routers: byte, found: bool)
      modifies this
      ensures Bounds() == old(Bounds())
      ensures State() == Timeout(Bounds(), old(State()), OutcomeOf(imageTransfer, routers, found))
      ensures useAlternateFuotaRoute ==
        if !old(waitingForResponse) || old(retryCount) < maxRetries then old(useAlternateFuotaRoute)
        else old(alternateRetry) < alternateMaxcnt
    {
      if !waitingForResponse {
        return;
      }
      if retryCount < maxRetries {
        retryCount := retryCount + 1;
        rebuilds := rebuilds + 1;
        return;
      }
      if alternateRetry < alternateMaxcnt {
        alternateRetry := alternateRetry + 1;
        retryCount := 0;
        useAlternateFuotaRoute := true;
        PrepareAlternateRoute(imageTransfer, routers, found);
        rebuilds := rebuilds + 1;
        return;
      }
      waitingForResponse := false;
      useAlternateFuotaRoute := false;
      retryCount := 0;
      alternateRetry := 0;
    }
  }


  function OutcomeOf(imageTransfer: bool, routers: byte, found: bool): Outcome {
    if routers == 0 || found then Prepared else if imageTransfer then NoSameRoute else NoRoute
  }

  // ---- how many timeouts an update survives ----

  /** Switches still possible: each one takes two off the alternate counter. */
  function SwitchesLeft(l: Limits, alternateRetry: nat): nat {
    if alternateRetry >= l.alternateMaxcnt then 0 else (l.alternateMaxcnt - alternateRetry + 1) / 2
  }

  /** Retries on the current route and on all routes still to come. */
  function Rank(l: Limits, c: Context): int {
    SwitchesLeft(l, c.alternateRetry) * (l.maxRetries + 1) + l.maxRetries - c.retryCount
  }

  /** The switch uses up exactly one of the switches left: always when a route was prepared, and
      under the limits of the code whatever the outcome. */
  predicate Regular(l: Limits, o: Outcome) {
    o == Prepared || (l.alternateMaxcnt <= 2 && l.alternateMaxcnt <= l.maxRetries)
  }

  lemma SwitchUsesOne(l: Limits, alternateRetry: nat, o: Outcome)
    requires alternateRetry < l.alternateMaxcnt && Regular(l, o)
    ensures SwitchesLeft(l, AfterSwitch(l, alternateRetry, o)) == SwitchesLeft(l, alternateRetry) - 1
  {
  }

  /** While the update is alive, each timeout that is not the last lowers the rank by exactly one. */
  lemma RankDropsByOne(l: Limits, c: Context, o: Outcome)
    requires c.waiting && c.retryCount <= l.maxRetries && Regular(l, o)
    ensures var d := Timeout(l, c, o);
      (Rank(l, c) > 0 <==> d.waiting) &&
      (d.waiting ==> Rank(l, d) == Rank(l, c) - 1 && d.rebuilds == c.rebuilds + 1 && d.retryCount <= l.maxRetries) &&
      (!d.waiting ==> d.rebuilds == c.rebuilds)
  {
    var n, r := SwitchesLeft(l, c.alternateRetry), l.maxRetries + 1;
    if n > 0 {
      OneRound(n, r);
      assert c.alternateRetry < l.alternateMaxcnt;
      SwitchUsesOne(l, c.alternateRetry, o);
    }
  }

  /** The timeout on which failure is declared. */
  function LastTimeout(l: Limits): nat {
    (SwitchesLeft(l, 0) + 1) * (l.maxRetries + 1)
  }

  /** From fresh counters every timeout before the last one rebuilds the command, and failure is
      declared on exactly that timeout. */
  lemma {:induction false} FailsExactly(l: Limits, outcomes: seq<Outcome>)
    requires forall i :: 0 <= i < |outcomes| ==> Regular(l, outcomes[i])
    ensures var c := Run(l, outcomes);
      (c.waiting <==> |outcomes| < LastTimeout(l)) &&
      (c.waiting ==> c.rebuilds == |outcomes| && c.retryCount <= l.maxRetries && Rank(l, c) == LastTimeout(l) - 1 - |outcomes|) &&
      (!c.waiting ==> c.rebuilds == LastTimeout(l) - 1)
  {
    OneRound(SwitchesLeft(l, 0) + 1, l.maxRetries + 1);
    if outcomes != [] {
      var before := outcomes[..|outcomes| - 1];
      FailsExactly(l, before);
      if Run(l, before).waiting {
        RankDropsByOne(l, Run(l, before), outcomes[|outcomes| - 1]);
      }
    }
  }

  /** The alternate route is in use exactly while the update is alive and the retries on the primary route
      are spent: from the first timeout beyond them on. A failure leaves all counters fresh. */
  lemma {:induction false} AlternateIff(l: Limits, outcomes: seq<Outcome>)
    ensures var c := Run(l, outcomes);
      (c.alternate <==> c.waiting && |outcomes| > l.maxRetries) &&
      (c.waiting && !c.alternate ==> c.retryCount == |outcomes| && c.alternateRetry == 0) &&
      (!c.waiting ==> c.retryCount == 0 && c.alternateRetry == 0)
  {
    if outcomes != [] {
      AlternateIff(l, outcomes[..|outcomes| - 1]);
    }
  }

  // ---- failed route searches under any limits ----

  /** Every timeout of a live update uses up something, if a failed search exhausts the alternates. */
  lemma RankDrops(l: Limits, c: Context, o: Outcome)
    requires l.alternateMaxcnt <= l.maxRetries && c.waiting && c.retryCount <= l.maxRetries
    ensures var d := Timeout(l, c, o);
      d.waiting ==> d.retryCount <= l.maxRetries && 0 <= Rank(l, d) < Rank(l, c)
  {
    var n, r := SwitchesLeft(l, c.alternateRetry), l.maxRetries + 1;
    if n > 0 && c.retryCount == l.maxRetries {
      OneRound(n, r);
      var left := SwitchesLeft(l, AfterSwitch(l, c.alternateRetry, o));
      assert left <= n - 1;
      if left < n - 1 {
        MoreRounds(left, n - 1, r);
      }
    }
  }

  lemma {:induction false} RankRunsDown(l: Limits, outcomes: seq<Outcome>)
    requires l.alternateMaxcnt <= l.maxRetries
    ensures var c := Run(l, outcomes);
      c.waiting ==> c.retryCount <= l.maxRetries && 0 <= Rank(l, c) <= LastTimeout(l) - 1 - |outcomes|
  {
    OneRound(SwitchesLeft(l, 0) + 1, l.maxRetries + 1);
    if outcomes != [] {
      var before := outcomes[..|outcomes| - 1];
      RankRunsDown(l, before);
      if Run(l, before).waiting {
        RankDrops(l, Run(l, before), outcomes[|outcomes| - 1]);
      }
    }
  }

  /** The same outcome every time. */
  function Always(o: Outcome, k: nat): (r: seq<Outcome>)
    ensures |r| == k
  {
    if k == 0 then [] else Always(o, k - 1) + [o]
  }

  /** With fewer retries than alternates a failed search during image transfer sets the alternate counter
      back below its limit, again and again. */
  lemma {:induction false} NeverFails(l: Limits, k: nat)
    requires l.maxRetries < l.alternateMaxcnt
    ensures var c := Run(l, Always(NoSameRoute, k));
      c.waiting && c.retryCount <= l.maxRetries && (c.alternateRetry == 0 || c.alternateRetry == l.maxRetries)
  {
    if k > 0 {
      assert Always(NoSameRoute, k)[..k - 1] == Always(NoSameRoute, k - 1);
      NeverFails(l, k - 1);
    }
  }

  ghost predicate FailsInTheEnd(l: Limits) {
    exists bound: nat :: FailsBy(l, bound)
  }

  ghost predicate FailsBy(l: Limits, bound: nat) {
    forall outcomes: seq<Outcome> | |outcomes| >= bound :: !Run(l, outcomes).waiting
  }

  /** However the route searches turn out, an update without responses is given up after a bounded number
      of timeouts if and only if there are at least as many retries as alternates. */
  lemma FailsInTheEndIff(l: Limits)
    ensures FailsInTheEnd(l) <==> l.alternateMaxcnt <= l.maxRetries
  {
    if l.alternateMaxcnt <= l.maxRetries {
      forall outcomes: seq<Outcome> | |outcomes| >= LastTimeout(l) ensures !Run(l, outcomes).waiting {
        RankRunsDown(l, outcomes);
      }
      assert FailsBy(l, LastTimeout(l));
    } else {
      forall bound: nat ensures !FailsBy(l, bound) {
        NeverFails(l, bound);
        assert |Always(NoSameRoute, bound)| >= bound;
      }
    }
  }

  /** With more than two alternates a failed search shortens the update. */
  lemma {:induction false} NoRouteRun(l: Limits, k: nat)
    requires l.alternateMaxcnt > 2 && k <= 2 * (l.maxRetries + 1)
    ensures var c, r := Run(l, Always(NoRoute, k)), l.maxRetries + 1;
      if k < r then c == Context(k, 0, true, false, k)
      else if k < 2 * r then c == Context(k - r, l.alternateMaxcnt, true, true, k)
      else !c.waiting
  {
    if k > 0 {
      assert Always(NoRoute, k)[..k - 1] == Always(NoRoute, k - 1);
      NoRouteRun(l, k - 1);
    }
  }

  ghost predicate AlwaysOnLastTimeout(l: Limits) {
    forall outcomes: seq<Outcome> :: Run(l, outcomes).waiting <==> |outcomes| < LastTimeout(l)
  }

  /** Failure is declared on exactly the computed timeout, whatever the outcomes, if and only if there are
      at most two alternates and at least as many retries. */
  lemma AlwaysOnLastTimeoutIff(l: Limits)
    ensures AlwaysOnLastTimeout(l) <==> l.alternateMaxcnt <= 2 && l.alternateMaxcnt <= l.maxRetries
  {
    if l.alternateMaxcnt > l.maxRetries {
      NeverFails(l, LastTimeout(l));
      assert |Always(NoSameRoute, LastTimeout(l))| == LastTimeout(l);
    } else if l.alternateMaxcnt > 2 {
      var r := l.maxRetries + 1;
      NoRouteRun(l, 2 * r);
      assert |Always(NoRoute, 2 * r)| == 2 * r;
      assert SwitchesLeft(l, 0) + 1 > 2;
      MoreRounds(2, SwitchesLeft(l, 0) + 1, r);
    } else {
      forall outcomes: seq<Outcome> ensures Run(l, outcomes).waiting <==> |outcomes| < LastTimeout(l) {
        FailsExactly(l, outcomes);
      }
    }
  }

  /** Under the limits of the code failure is declared on exactly the eighth timeout, after seven
      rebuilds, however the alternate routes turn out. */
  lemma FailsOnTheEighth(outcomes: seq<Outcome>)
    ensures Run(LIMITS, outcomes).waiting <==> |outcomes| < 8
    ensures |outcomes| >= 8 ==> Run(LIMITS, outcomes).rebuilds == 7
  {
    FailsExactly(LIMITS, outcomes);
  }

  /** The limits suggest one round of retries for the primary route and one for each alternate. That
      many timeouts it takes only if the alternate limit is at most one. */
  lemma NominalCountIff(l: Limits)
    ensures LastTimeout(l) == (l.alternateMaxcnt + 1) * (l.maxRetries + 1) <==> l.alternateMaxcnt <= 1
  {
    var n, a := SwitchesLeft(l, 0), l.alternateMaxcnt;
    if a >= 2 {
      assert n < a;
      MoreRounds(n + 1, a + 1, l.maxRetries + 1);
    }
  }

  lemma {:induction false} MoreRounds(a: nat, b: nat, r: nat)
    requires a < b && r > 0
    ensures a * r < b * r
    decreases b
  {
    OneRound(b, r);
    if a < b - 1 {
      MoreRounds(a, b - 1, r);
    }
  }

  lemma OneRound(n: nat, r: nat)
    requires n > 0
    ensures n * r == (n - 1) * r + r
  {
  }
}
