/** The date range the balance-trend and the income/expense charts draw,
    chosen by the dashboard's range selector, and the days of that range
    (`eachDayOfInterval`). Both charts use the same table; "All Time" is
    capped to the last three months and an unrecognised value behaves as
    "Last 30 Days". */
module ChartRange {
  import opened Calendar
  import opened TimeFilters

  /** The drawn range and the x-axis tick interval. */
  datatype Span = Span(start: int, end: int, tickInterval: int)

  function ChartSpan(f: TimeFilter, c: Clock): (r: Span)
    ensures r.start <= c.now <= r.end
    ensures f == ThisWeek ==> r.tickInterval == 0
    ensures f == ThisMonth ==> r.tickInterval == 4
    ensures f == AllTime ==> r.tickInterval == 10
    ensures f == Last30 || f == Unrecognised ==> r.tickInterval == 5
  {
    match f
    case ThisWeek => Span(StartOfWeek(c.now, c.offset), EndOfWeek(c.now, c.offset), 0)
    case ThisMonth => Span(StartOfMonth(c.now, c.offset), EndOfMonth(c.now, c.offset), 4)
    case AllTime => Span(SubMonths(c.now, 3, c.offset), c.now, 10)
    case _ => Span(SubDays(c.now, 29), c.now, 5)
  }

  /** The local day of the first point. */
  function FirstDay(f: TimeFilter, c: Clock): int
  {
    DayOf(ChartSpan(f, c).start, c.offset)
  }

  /** How many daily points the chart draws: one per local day from the
      start's day to the end's day, both included. */
  function DayCount(f: TimeFilter, c: Clock): (n: nat)
    ensures n >= 1
    ensures FirstDay(f, c) + n - 1 == DayOf(ChartSpan(f, c).end, c.offset)
  {
    DayOf(ChartSpan(f, c).end, c.offset) - FirstDay(f, c) + 1
  }

  /** `eachDayOfInterval`: the local day numbers of the points, in order. */
  function ChartDays(f: TimeFilter, c: Clock): (r: seq<int>)
    ensures |r| == DayCount(f, c)
    ensures forall i :: 0 <= i < |r| ==> r[i] == FirstDay(f, c) + i
    ensures r[0] == DayOf(ChartSpan(f, c).start, c.offset)
    ensures r[|r| - 1] == DayOf(ChartSpan(f, c).end, c.offset)
    ensures forall i :: 0 < i < |r| ==> r[i - 1] < r[i]
  {
    seq(DayCount(f, c), i => FirstDay(f, c) + i)
  }

  /** The points are exactly the local days on which some instant of the
      drawn range falls. */
  lemma ChartDaysAreSpanDays(f: TimeFilter, c: Clock, d: int)
    ensures d in ChartDays(f, c)
        <==> exists t :: ChartSpan(f, c).start <= t <= ChartSpan(f, c).end && DayOf(t, c.offset) == d
  {
    var span := ChartSpan(f, c);
    var r := ChartDays(f, c);
    var lo := DayOf(span.start, c.offset);
    var hi := DayOf(span.end, c.offset);
    if d in r {
      var i :| 0 <= i < |r| && r[i] == d;
      if i == 0 {
        assert span.start <= span.start <= span.end && DayOf(span.start, c.offset) == d;
      } else {
        DayBounds(span.start, d, c.offset);
        DayBounds(span.end, d, c.offset);
        DayStartEdges(d, c.offset);
        var t := DayStart(d, c.offset);
        assert span.start <= t <= span.end && DayOf(t, c.offset) == d;
      }
    }
    if exists t :: span.start <= t <= span.end && DayOf(t, c.offset) == d {
      var t :| span.start <= t <= span.end && DayOf(t, c.offset) == d;
      DayBounds(span.start, lo, c.offset);
      DayBounds(t, lo, c.offset);
      DayBounds(t, d, c.offset);
      DayBounds(span.end, d, c.offset);
      assert lo <= d <= hi;
      assert r[d - lo] == d;
    }
  }

  /** The ranges hold the days the selector names: a whole Sunday-to-Saturday
      week, the 30 days ending today, the whole current month, and for
      "All Time" the days from three months back to today. */
  lemma ChartRanges(c: Clock)
    ensures DayCount(ThisWeek, c) == 7
    ensures DayCount(Last30, c) == 30 && DayOf(ChartSpan(Last30, c).end, c.offset) == DayOf(c.now, c.offset)
    ensures DayCount(Unrecognised, c) == 30
    ensures DayCount(ThisMonth, c) == MonthDays(MonthOf(c.now, c.offset))
    ensures MonthOfDay(FirstDay(ThisMonth, c)) == MonthOf(c.now, c.offset)
    ensures MonthOfDay(FirstDay(AllTime, c)) == MonthOf(c.now, c.offset) - 3
    ensures DayOf(ChartSpan(AllTime, c).end, c.offset) == DayOf(c.now, c.offset)
  {
    var mi := MonthOf(c.now, c.offset);
    MonthOfDayEnds(mi);
    MonthStartStep(mi);
    MonthLastInstantMonth(mi, c.offset);
    assert DayOf(MonthLastInstant(mi, c.offset), c.offset) == MonthStartDay(mi + 1) - 1;
    assert DayOf(MonthFirstInstant(mi, c.offset), c.offset) == MonthStartDay(mi);
    assert DayOf(EndOfWeek(c.now, c.offset), c.offset) == DayOf(StartOfWeek(c.now, c.offset), c.offset) + 6;
  }
}
