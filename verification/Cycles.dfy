/** Quarter-hour cycles of the instantaneous profile: absolute ids 1..96 of the day, the window of the
    last hour, and the relative numbers 0..3 a request carries and the insert turns back into ids. */
module Cycles {

  const CYCLES := 96
  const MINUTES := 1440

  /** Seconds since the epoch, and the distance of local time from it. */
  datatype Instant = Instant(seconds: int, offset: int)

  /** Local minute of the day. */
  function MinuteOfDay(t: Instant): (m: int)
    ensures 0 <= m < MINUTES
  {
    (t.seconds + t.offset) / 60 % MINUTES
  }

  /** The cycle a minute of the day lies in. */
  function CurrentCycle(t: Instant): (c: int)
    ensures 1 <= c <= CYCLES
  {
    var hour, minute := MinuteOfDay(t) / 60, MinuteOfDay(t) % 60;
    hour * 4 + minute / 15 + 1
  }

  function StartCycle(current: int): int {
    (current - 4 + CYCLES) % CYCLES + 1
  }

  /** The window of the missing-cycle query, which may run over midnight. */
  predicate InWindow(current: int, cycle: int) {
    var start := StartCycle(current);
    (start <= current && start <= cycle <= current) || (start > current && (cycle >= start || cycle <= current))
  }

  function Relative(current: int, cycle: int): (r: int)
    ensures 0 <= r < CYCLES
  {
    (current - cycle + CYCLES) % CYCLES
  }

  /** The id under which a pulled cycle is stored: so many quarter hours back, rounded with a
      tolerance of five minutes. */
  function CalculateCycleId(t: Instant, back: int): (id: int) {
    var steps := if back < 0 || back > 3 then 0 else back;
    var minute := MinuteOfDay(t.(seconds := t.seconds - steps * 15 * 60));
    var id := (minute + 5) / 15 + 1;
    if id < 1 then CYCLES else if id > CYCLES then (id - 1) % CYCLES + 1 else id
  }

  /** The slot of a minute in which the hourly pull may start, if there is one. */
  function CycleFromMinute(minute: int): int {
    if 6 <= minute <= 9 then 0
    else if 18 <= minute <= 24 then 1
    else if 33 <= minute <= 39 then 2
    else if 48 <= minute <= 54 then 3
    else -1
  }

  /** The window is the four cycles up to the current one: exactly those that get a relative number 0..3. */
  lemma WindowIsLastFour(current: int, cycle: int)
    requires 1 <= current <= CYCLES && 1 <= cycle <= CYCLES
    ensures InWindow(current, cycle) <==> Relative(current, cycle) <= 3
  {
  }

  lemma QuartersBack(t: Instant, steps: nat)
    requires steps <= 3
    ensures MinuteOfDay(t.(seconds := t.seconds - steps * 15 * 60)) == (MinuteOfDay(t) - 15 * steps + MINUTES) % MINUTES
  {
    var s := t.seconds + t.offset;
    assert (s - steps * 900) / 60 == s / 60 - 15 * steps;
    DayWrap(s / 60, 15 * steps);
  }

  lemma DayWrap(m: int, back: nat)
    requires back <= 45
    ensures (m - back) % MINUTES == (m % MINUTES - back + MINUTES) % MINUTES
  {
    var q, r := m / MINUTES, m % MINUTES;
    assert m - back == q * MINUTES + (r - back);
    if r >= back {
      assert (m - back) % MINUTES == r - back;
    } else {
      assert m - back == (q - 1) * MINUTES + (r - back + MINUTES);
    }
  }

  lemma CurrentCycleIsQuarter(t: Instant)
    ensures CurrentCycle(t) == MinuteOfDay(t) / 15 + 1
  {
  }

  /** The clock is read twice: when a cycle of the window is turned into the relative number to ask for,
      and when its data has been pulled and is stored. It is stored under its own id if and only if the
      rounded quarter hour of the second reading is the quarter hour of the first. */
  lemma RoundTripIff(asked: Instant, stored: Instant, cycle: int)
    requires 1 <= cycle <= CYCLES && InWindow(CurrentCycle(asked), cycle)
    ensures CalculateCycleId(stored, Relative(CurrentCycle(asked), cycle)) == cycle
      <==> (MinuteOfDay(stored) + 5) / 15 % CYCLES == MinuteOfDay(asked) / 15
  {
    var r := Relative(CurrentCycle(asked), cycle);
    WindowIsLastFour(CurrentCycle(asked), cycle);
    CurrentCycleIsQuarter(asked);
    QuartersBack(stored, r);
    Rounding(MinuteOfDay(asked) / 15, MinuteOfDay(stored), r, cycle);
  }

  lemma QuarterOf(m: int, q: int, r: int)
    requires m == 15 * q + r && 0 <= r < 15
    ensures m / 15 == q && m % 15 == r
  {
  }

  /** Rounding `r` quarter hours back gives the rounded quarter, `r` back. */
  lemma RoundedBack(m: int, r: int)
    requires 0 <= m < MINUTES && 0 <= r <= 3
    ensures var p, back := (m + 5) / 15, (m - 15 * r + MINUTES) % MINUTES;
      0 <= p <= CYCLES && (m >= 15 * r ==> p >= r) && (m < 15 * r ==> p <= r) &&
      (back + 5) / 15 == if m >= 15 * r then p - r else p - r + CYCLES
  {
    var p, x := (m + 5) / 15, (m + 5) % 15;
    var turn := if m >= 15 * r then 0 else CYCLES;
    assert (m - 15 * r + MINUTES) % MINUTES == m - 15 * r + 15 * turn;
    QuarterOf(m - 15 * r + 15 * turn + 5, p - r + turn, x);
  }

  /** A minute counted `r` quarter hours back, rounded, against the cycle `r` quarters before quarter `q`. */
  lemma Rounding(q: int, m: int, r: int, cycle: int)
    requires 0 <= q < CYCLES && 0 <= m < MINUTES && 0 <= r <= 3 && 1 <= cycle <= CYCLES && r == (q + 1 - cycle + CYCLES) % CYCLES
    ensures var id := ((m - 15 * r + MINUTES) % MINUTES + 5) / 15 + 1;
      (if id > CYCLES then (id - 1) % CYCLES + 1 else id) == cycle <==> (m + 5) / 15 % CYCLES == q
  {
    var p := (m + 5) / 15;
    RoundedBack(m, r);
    assert p % CYCLES == if p == CYCLES then 0 else p;
    assert cycle == (if q >= r then q - r + 1 else q - r + CYCLES + 1);
  }

  /** Minutes that begin between two readings of the clock. */
  function Elapsed(asked: Instant, stored: Instant): int {
    (stored.seconds + stored.offset) / 60 - (asked.seconds + asked.offset) / 60
  }

  /** `e` minutes later, the rounded quarter hour is still the one of minute `m`. */
  lemma RoundedQuarter(m: int, e: int)
    requires 0 <= m < MINUTES && 0 <= e <= 1380
    ensures ((m + e) % MINUTES + 5) / 15 % CYCLES == m / 15 <==> e < 10 - m % 15
  {
    var q, x := m / 15, m % 15;
    assert m == 15 * q + x;
    var later := (m + e) % MINUTES;
    var p, y := (x + e + 5) / 15, (x + e + 5) % 15;
    assert x + e + 5 == 15 * p + y;
    assert later + 5 == (if m + e < MINUTES then 15 * (q + p) + y else 15 * (q + p - CYCLES) + y);
    assert 0 <= p <= 93;
  }

  lemma LaterMinute(asked: Instant, stored: Instant)
    requires Elapsed(asked, stored) >= 0
    ensures MinuteOfDay(stored) == (MinuteOfDay(asked) + Elapsed(asked, stored)) % MINUTES
  {
    var a, e := (asked.seconds + asked.offset) / 60, Elapsed(asked, stored);
    assert (a + e) % MINUTES == (a % MINUTES + e) % MINUTES by {
      SameMinute(a + e, a % MINUTES + e, a / MINUTES);
    }
  }

  lemma SameMinute(a: int, b: int, days: int)
    requires a == b + MINUTES * days
    ensures a % MINUTES == b % MINUTES
  {
  }

  /** The deadline of a pull: data asked for in minute x of a quarter hour and stored within the day is
      stored under its own id if and only if the tenth minute of that quarter hour has not begun. */
  lemma DeadlineIff(asked: Instant, stored: Instant, cycle: int)
    requires 1 <= cycle <= CYCLES && InWindow(CurrentCycle(asked), cycle) && 0 <= Elapsed(asked, stored) <= 1380
    ensures CalculateCycleId(stored, Relative(CurrentCycle(asked), cycle)) == cycle
      <==> Elapsed(asked, stored) < 10 - MinuteOfDay(asked) % 15
  {
    RoundTripIff(asked, stored, cycle);
    LaterMinute(asked, stored);
    RoundedQuarter(MinuteOfDay(asked), Elapsed(asked, stored));
  }

  /** Read twice at the same instant, the clock gives the id back in the first ten minutes of a quarter hour. */
  lemma SameInstantIff(t: Instant, cycle: int)
    requires 1 <= cycle <= CYCLES && InWindow(CurrentCycle(t), cycle)
    ensures CalculateCycleId(t, Relative(CurrentCycle(t), cycle)) == cycle <==> MinuteOfDay(t) % 15 < 10
  {
    DeadlineIff(t, t, cycle);
  }

  /** Asked for in a minute in which a pull may start, the data has between one and seven minutes. */
  lemma ScheduledDeadline(asked: Instant)
    requires CycleFromMinute(MinuteOfDay(asked) % 60) >= 0
    ensures 1 <= 10 - MinuteOfDay(asked) % 15 <= 7
  {
    AcceptedMinutes(MinuteOfDay(asked));
  }

  /** A pull that takes longer: cycle 1, asked for at 00:09 and stored at 00:10, becomes cycle 2. */
  lemma LateStoreMovesCycle()
    ensures var asked, stored := Instant(9 * 60, 0), Instant(10 * 60, 0);
      CycleFromMinute(MinuteOfDay(asked) % 60) == 0 && InWindow(CurrentCycle(asked), 1) &&
      CalculateCycleId(stored, Relative(CurrentCycle(asked), 1)) == 2
  {
    var asked, stored := Instant(9 * 60, 0), Instant(10 * 60, 0);
    assert MinuteOfDay(asked) == 9 && MinuteOfDay(stored) == 10;
    assert CurrentCycle(asked) == 1 && Relative(1, 1) == 0 && InWindow(1, 1);
  }

  /** Every stored id is one of the day's ninety-six; a number outside the last hour counts as no way back. */
  lemma IdInRange(t: Instant, back: int)
    ensures 1 <= CalculateCycleId(t, back) <= 96
    ensures back < 0 || back > 3 ==> CalculateCycleId(t, back) == CalculateCycleId(t, 0)
  {
  }

  /** The slots: the fourth to the tenth minute of each quarter hour, but for the first three of those in the
      first quarter; the slot is the number of the quarter. */
  lemma SlotIff(minute: int)
    requires 0 <= minute < 60
    ensures CycleFromMinute(minute) == if minute >= 6 && 3 <= minute % 15 <= 9 then minute / 15 else -1
  {
  }

  lemma AcceptedMinutes(m: int)
    requires 0 <= m && CycleFromMinute(m % 60) >= 0
    ensures 3 <= m % 15 <= 9
  {
    var h, x := m / 60, m % 60;
    QuarterOf(m, 4 * h + x / 15, x % 15);
  }

  /** Relative numbers of the missing cycles of a window, as the query returned them. */
  method MissingCycles(t: Instant, rows: seq<int>) returns (missing: seq<int>)
    requires forall i :: 0 <= i < |rows| ==> 1 <= rows[i] <= CYCLES && InWindow(CurrentCycle(t), rows[i])
    ensures |missing| == if |rows| < 4 then |rows| else 4
    ensures forall i :: 0 <= i < |missing| ==> 0 <= missing[i] <= 3 && missing[i] == Relative(CurrentCycle(t), rows[i])
  {
    var absolute := if |rows| <= 4 then rows else rows[..4];
    var current := CurrentCycle(t);
    missing := [];
    var i := 0;
    while i < |absolute|
      invariant 0 <= i <= |absolute| && |missing| == i
      invariant forall j :: 0 <= j < i ==> 0 <= missing[j] <= 3 && missing[j] == Relative(current, rows[j])
    {
      var relative := (current - absolute[i] + 96) % 96;
      WindowIsLastFour(current, absolute[i]);
      if 0 <= relative <= 3 {
        missing := missing + [relative];
      }
      i := i + 1;
    }
  }
}
