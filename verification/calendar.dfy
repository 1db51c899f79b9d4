/** The date arithmetic the application takes from date-fns and from the
    server's Bangkok-midnight computation, on integer timestamps.

    An instant is a count of milliseconds since 1970-01-01T00:00:00Z. A
    calendar is read in a zone with a fixed `offset` (milliseconds east of
    UTC): the browser's local zone on the client, UTC+07:00 on the server.
    Days are numbered from 1970-01-01 (day 0, a Thursday) and months by one
    integer `12 * year + (month - 1)`, in the proleptic Gregorian calendar. */
module Calendar {

  const HOUR: int := 3_600_000
  const DAY: int := 86_400_000

  /** Day number, in the zone `offset`, of the calendar day holding `t`. */
  function DayOf(t: int, offset: int): int
  {
    (t + offset) / DAY
  }

  /** First instant of local day `d`. */
  function DayStart(d: int, offset: int): int
  {
    d * DAY - offset
  }

  /** The instants of local day `d` are exactly those from `DayStart(d)` up
      to, but excluding, `DayStart(d + 1)`. */
  lemma DayBounds(t: int, d: int, offset: int)
    ensures DayOf(t, offset) == d <==> DayStart(d, offset) <= t < DayStart(d + 1, offset)
    ensures DayStart(d, offset) <= t <==> d <= DayOf(t, offset)
  {
  }

  /** A day's first instant lies in that day; the instant before it in the
      day before. */
  lemma DayStartEdges(d: int, offset: int)
    ensures DayOf(DayStart(d, offset), offset) == d
    ensures DayOf(DayStart(d, offset) - 1, offset) == d - 1
  {
    DayBounds(DayStart(d, offset), d, offset);
    DayBounds(DayStart(d, offset) - 1, d - 1, offset);
  }

  /** Moving an instant by whole days moves its day by as many and keeps
      its time of day. */
  lemma DayShift(t: int, k: int, offset: int)
    ensures DayOf(t + k * DAY, offset) == DayOf(t, offset) + k
    ensures t + k * DAY - DayStart(DayOf(t + k * DAY, offset), offset) == t - DayStart(DayOf(t, offset), offset)
    ensures k <= 0 ==> t + k * DAY <= t
  {
    var d := DayOf(t, offset);
    DayBounds(t, d, offset);
    DayBounds(t + k * DAY, d + k, offset);
    assert (d + k) * DAY == d * DAY + k * DAY;
  }

  /** `startOfDay`: the first instant of the local day holding `t`. */
  function StartOfDay(t: int, offset: int): (r: int)
    ensures r <= t < r + DAY
    ensures DayOf(r, offset) == DayOf(t, offset)
    ensures DayOf(r - 1, offset) == DayOf(t, offset) - 1
  {
    DayStartEdges(DayOf(t, offset), offset);
    DayStart(DayOf(t, offset), offset)
  }

  /** `endOfDay`: the last millisecond of the local day holding `t`. */
  function EndOfDay(t: int, offset: int): (r: int)
    ensures t <= r < t + DAY
    ensures DayOf(r, offset) == DayOf(t, offset)
    ensures DayOf(r + 1, offset) == DayOf(t, offset) + 1
  {
    DayStart(DayOf(t, offset) + 1, offset) - 1
  }

  /** Local hour of the day, `Date.prototype.getHours`. */
  function HourOf(t: int, offset: int): (h: int)
    ensures 0 <= h < 24
    ensures StartOfDay(t, offset) + h * HOUR <= t < StartOfDay(t, offset) + (h + 1) * HOUR
  {
    ((t + offset) % DAY) / HOUR
  }

  /** `subDays`: the same local time of day, `n` days earlier. */
  function SubDays(t: int, n: int): (r: int)
    ensures forall offset :: DayOf(r, offset) == DayOf(t, offset) - n
  {
    t - n * DAY
  }

  /** Weekday of day `d`, 0 = Sunday through 6 = Saturday. */
  function Weekday(d: int): (w: int)
    ensures 0 <= w < 7
    ensures (d - w) % 7 == 3    // day 3 (1970-01-04) was a Sunday
  {
    (d + 4) % 7
  }

  /** `startOfWeek(t, { weekStartsOn: 0 })`: the Sunday midnight before `t`. */
  function StartOfWeek(t: int, offset: int): (r: int)
    ensures r <= t < r + 7 * DAY
    ensures Weekday(DayOf(r, offset)) == 0
    ensures StartOfDay(r, offset) == r
  {
    var d := DayOf(t, offset);
    DayStart(d - Weekday(d), offset)
  }

  /** `endOfWeek(t, { weekStartsOn: 0 })`: the last millisecond of the Saturday after. */
  function EndOfWeek(t: int, offset: int): (r: int)
    ensures t <= r
    ensures r == StartOfWeek(t, offset) + 7 * DAY - 1
    ensures Weekday(DayOf(r, offset)) == 6
  {
    var d := DayOf(t, offset);
    DayStart(d - Weekday(d) + 7, offset) - 1
  }

  // ---------------------------------------------------------------- years

  predicate IsLeapYear(y: int)
  {
    y % 4 == 0 && (y % 100 != 0 || y % 400 == 0)
  }

  // --------------------------------------------------------------- months

  /** Length of month `m0` (0 = January) of year `y`. */
  function MonthLength(y: int, m0: int): int
    requires 0 <= m0 < 12
  {
    if m0 == 1 then (if IsLeapYear(y) then 29 else 28)
    else if m0 == 3 || m0 == 5 || m0 == 8 || m0 == 10 then 30
    else 31
  }

  function YearOfMonth(mi: int): int { mi / 12 }
  function MonthOfYear(mi: int): (m0: int) ensures 0 <= m0 < 12 { mi % 12 }

  /** Number of days in month `mi`. */
  function MonthDays(mi: int): (n: int)
    ensures 28 <= n <= 31
  {
    MonthLength(YearOfMonth(mi), MonthOfYear(mi))
  }

  /** Month index of January 1970, whose first day is day 0. */
  const EpochMonth: int := 1970 * 12

  /** Day number of the first day of month `mi`: months are laid end to end
      on both sides of January 1970. */
  function MonthStartDay(mi: int): int
    decreases if mi < EpochMonth then EpochMonth - mi else mi - EpochMonth
  {
    if mi == EpochMonth then 0
    else if mi > EpochMonth then MonthStartDay(mi - 1) + MonthDays(mi - 1)
    else MonthStartDay(mi + 1) - MonthDays(mi)
  }

  /** Months tile the day line: month `mi + 1` starts where `mi` ends. */
  lemma MonthStartStep(mi: int)
    ensures MonthStartDay(mi + 1) == MonthStartDay(mi) + MonthDays(mi)
  {
  }

  /** Month starts are strictly increasing; an earlier month ends no later
      than a later one begins. */
  lemma {:induction false} MonthStartMonotone(i: int, j: int)
    requires i < j
    ensures MonthStartDay(i) + MonthDays(i) <= MonthStartDay(j)
    decreases j - i
  {
    MonthStartStep(i);
    if i + 1 < j {
      MonthStartMonotone(i + 1, j);
    }
  }

  function MonthIndexUp(d: int, mi: int): (r: int)
    requires MonthStartDay(mi) <= d
    ensures MonthStartDay(r) <= d < MonthStartDay(r + 1)
    decreases d - MonthStartDay(mi)
  {
    MonthStartStep(mi);
    if d < MonthStartDay(mi + 1) then mi else MonthIndexUp(d, mi + 1)
  }

  function MonthIndexDown(d: int, mi: int): (r: int)
    requires d < MonthStartDay(mi + 1)
    ensures MonthStartDay(r) <= d < MonthStartDay(r + 1)
    decreases MonthStartDay(mi + 1) - d
  {
    MonthStartStep(mi - 1);
    MonthStartStep(mi);
    if MonthStartDay(mi) <= d then mi else MonthIndexDown(d, mi - 1)
  }

  /** The month holding day `d`. */
  function MonthOfDay(d: int): (r: int)
    ensures MonthStartDay(r) <= d < MonthStartDay(r + 1)
  {
    assert MonthStartDay(EpochMonth) == 0;
    if d >= 0 then MonthIndexUp(d, EpochMonth) else MonthIndexDown(d, EpochMonth - 1)
  }

  /** Only one month holds a given day. */
  lemma MonthOfDayUnique(d: int, mi: int)
    requires MonthStartDay(mi) <= d < MonthStartDay(mi + 1)
    ensures MonthOfDay(d) == mi
  {
    var r := MonthOfDay(d);
    if mi < r {
      MonthStartMonotone(mi, r);
      MonthStartStep(mi);
    } else if r < mi {
      MonthStartMonotone(r, mi);
      MonthStartStep(r);
    }
  }

  /** The local month holding instant `t`. */
  function MonthOf(t: int, offset: int): int
  {
    MonthOfDay(DayOf(t, offset))
  }

  /** First instant of month `mi` (`startOfMonth`). */
  function MonthFirstInstant(mi: int, offset: int): int
  {
    DayStart(MonthStartDay(mi), offset)
  }

  /** Last millisecond of month `mi` (`endOfMonth`). */
  function MonthLastInstant(mi: int, offset: int): int
  {
    DayStart(MonthStartDay(mi + 1), offset) - 1
  }

  /** The inclusive bounds of a month select exactly the instants of that
      month: a month filter by bounds is a filter by month. */
  lemma InMonthBounds(t: int, mi: int, offset: int)
    ensures MonthFirstInstant(mi, offset) <= t <= MonthLastInstant(mi, offset)
        <==> MonthOf(t, offset) == mi
  {
    var d := DayOf(t, offset);
    DayBounds(t, MonthStartDay(mi), offset);
    DayBounds(t, MonthStartDay(mi + 1), offset);
    if MonthStartDay(mi) <= d < MonthStartDay(mi + 1) {
      MonthOfDayUnique(d, mi);
    }
  }

  /** `startOfMonth`: the first instant of the local month holding `t`;
      the instant before it belongs to the month before. */
  function StartOfMonth(t: int, offset: int): (r: int)
    ensures r <= t
    ensures MonthOf(r, offset) == MonthOf(t, offset)
    ensures MonthOf(r - 1, offset) == MonthOf(t, offset) - 1
  {
    var mi := MonthOf(t, offset);
    InMonthBounds(t, mi, offset);
    MonthStartStep(mi);
    InMonthBounds(MonthFirstInstant(mi, offset), mi, offset);
    MonthStartStep(mi - 1);
    assert MonthLastInstant(mi - 1, offset) == MonthFirstInstant(mi, offset) - 1;
    InMonthBounds(MonthFirstInstant(mi, offset) - 1, mi - 1, offset);
    MonthFirstInstant(mi, offset)
  }

  /** The first and the last day of month `mi` both lie in `mi`. */
  lemma MonthOfDayEnds(mi: int)
    ensures MonthOfDay(MonthStartDay(mi)) == mi
    ensures MonthOfDay(MonthStartDay(mi + 1) - 1) == mi
  {
    MonthStartStep(mi);
    MonthOfDayUnique(MonthStartDay(mi), mi);
    MonthOfDayUnique(MonthStartDay(mi + 1) - 1, mi);
  }

  /** The last millisecond of month `mi` lies in `mi`; the next one in `mi + 1`. */
  lemma MonthLastInstantMonth(mi: int, offset: int)
    ensures MonthOf(MonthLastInstant(mi, offset), offset) == mi
    ensures MonthOf(MonthLastInstant(mi, offset) + 1, offset) == mi + 1
  {
    var next := MonthStartDay(mi + 1);
    var last := DayStart(next, offset) - 1;
    assert DayOf(last, offset) == next - 1 && DayOf(last + 1, offset) == next by {
      DayStartEdges(next, offset);
    }
    assert MonthOf(last, offset) == mi by {
      MonthOfDayEnds(mi);
    }
    assert MonthOf(last + 1, offset) == mi + 1 by {
      MonthOfDayEnds(mi + 1);
    }
  }

  function EndOfMonth(t: int, offset: int): (r: int)
    ensures t <= r
    ensures MonthOf(r, offset) == MonthOf(t, offset)
    ensures MonthOf(r + 1, offset) == MonthOf(t, offset) + 1
  {
    var mi := MonthOf(t, offset);
    InMonthBounds(t, mi, offset);
    MonthLastInstantMonth(mi, offset);
    MonthLastInstant(mi, offset)
  }

  /** Day of the month (1-based) of day `d`. */
  function DayOfMonth(d: int): (n: int)
    ensures 1 <= n <= MonthDays(MonthOfDay(d))
  {
    MonthStartStep(MonthOfDay(d));
    d - MonthStartDay(MonthOfDay(d)) + 1
  }

  /** `subMonths(t, n)`: the same local time of day on the same day of the
      month `n` months earlier, clamped to the last day of a shorter month. */
  function SubMonths(t: int, n: int, offset: int): (r: int)
    ensures MonthOf(r, offset) == MonthOf(t, offset) - n
    ensures DayOfMonth(DayOf(r, offset)) == Min(DayOfMonth(DayOf(t, offset)), MonthDays(MonthOf(t, offset) - n))
    ensures r - StartOfDay(r, offset) == t - StartOfDay(t, offset)
    ensures n >= 0 ==> r <= t
  {
    var d := DayOf(t, offset);
    var day := ShiftedDay(d, MonthOf(t, offset) - n);
    SubMonthsLands(t, n, offset);
    t + (day - d) * DAY
  }

  lemma SubMonthsLands(t: int, n: int, offset: int)
    ensures var d := DayOf(t, offset);
      var day := ShiftedDay(d, MonthOfDay(d) - n);
      && DayOf(t + (day - d) * DAY, offset) == day
      && MonthOfDay(day) == MonthOfDay(d) - n
      && DayOfMonth(day) == Min(DayOfMonth(d), MonthDays(MonthOfDay(d) - n))
      && t + (day - d) * DAY - StartOfDay(t + (day - d) * DAY, offset) == t - StartOfDay(t, offset)
      && (n >= 0 ==> t + (day - d) * DAY <= t)
  {
    var d := DayOf(t, offset);
    var day := ShiftedDay(d, MonthOfDay(d) - n);
    SubMonthsDay(d, n);
    DayShift(t, day - d, offset);
  }

  /** The day `subMonths` lands on: the same day of month in month `target`,
      clamped to that month's length. */
  function ShiftedDay(d: int, target: int): int
  {
    MonthStartDay(target) + Min(DayOfMonth(d), MonthDays(target)) - 1
  }

  lemma SubMonthsDay(d: int, n: int)
    ensures MonthOfDay(ShiftedDay(d, MonthOfDay(d) - n)) == MonthOfDay(d) - n
    ensures DayOfMonth(ShiftedDay(d, MonthOfDay(d) - n)) == Min(DayOfMonth(d), MonthDays(MonthOfDay(d) - n))
    ensures n >= 0 ==> ShiftedDay(d, MonthOfDay(d) - n) <= d
  {
    var mi := MonthOfDay(d);
    var target := mi - n;
    var dom := DayOfMonth(d);
    var m := Min(dom, MonthDays(target));
    var day := MonthStartDay(target) + m - 1;
    assert ShiftedDay(d, target) == day;
    assert 1 <= m <= MonthDays(target);
    MonthStartStep(target);
    MonthOfDayUnique(day, target);
    assert DayOfMonth(day) == m;
    if n > 0 {
      MonthStartMonotone(target, mi);
      assert day < MonthStartDay(mi);
    } else if n == 0 {
      assert m == dom;
    }
  }

  function Min(a: int, b: int): int { if a <= b then a else b }
}
