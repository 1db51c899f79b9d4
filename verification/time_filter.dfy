/** The time-range selector the dashboard and its charts share, and the
    browser's clock: the current instant and the local zone's offset. */
module TimeFilters {

  /** The values of the dashboard's range selector; `Unrecognised` stands
      for any other string, which each consumer's `default` branch handles. */
  datatype TimeFilter = AllTime | ThisWeek | Last30 | ThisMonth | Unrecognised

  /** Reads the selector's option value. */
  function ParseTimeFilter(s: string): (f: TimeFilter)
    ensures f == AllTime <==> s == "allTime"
    ensures f == ThisWeek <==> s == "thisWeek"
    ensures f == Last30 <==> s == "last30"
    ensures f == ThisMonth <==> s == "thisMonth"
  {
    if s == "allTime" then AllTime
    else if s == "thisWeek" then ThisWeek
    else if s == "last30" then Last30
    else if s == "thisMonth" then ThisMonth
    else Unrecognised
  }

  /** The selector's value string, the inverse of `ParseTimeFilter` on the
      four offered options. */
  function FilterName(f: TimeFilter): string
    requires f != Unrecognised
  {
    match f
    case AllTime => "allTime"
    case ThisWeek => "thisWeek"
    case Last30 => "last30"
    case ThisMonth => "thisMonth"
  }

  lemma ParseFilterName(f: TimeFilter)
    requires f != Unrecognised
    ensures ParseTimeFilter(FilterName(f)) == f
  {
  }

  /** What `new Date()` reads: the instant, and the offset of the local zone
      (taken as fixed). */
  datatype Clock = Clock(now: int, offset: int)

  /** A closed interval of instants. */
  datatype Interval = Interval(start: int, end: int)

  /** `isWithinInterval`: both ends included. */
  predicate Within(t: int, iv: Interval)
  {
    iv.start <= t <= iv.end
  }
}
