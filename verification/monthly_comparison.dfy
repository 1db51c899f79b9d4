/** The income/expense comparison chart: one bucket per day of the selected
    range holding that day's income and expense totals. The range table is
    the one the balance-trend chart uses; without a range the chart shows
    the last 30 days. */
module MonthlyComparison {
  import opened Js
  import opened Records
  import opened Sequences
  import opened Ledger
  import opened Sorting
  import opened Calendar
  import opened TimeFilters
  import opened ChartRange
  import opened KeyRanges
  import opened BalanceTrend
  import Dashboard

  /** The range the chart uses when its caller passes none. */
  function ChartFilter(timeFilter: Option<TimeFilter>): (f: TimeFilter)
    ensures timeFilter.None? ==> f == Last30
    ensures timeFilter.Some? ==> f == timeFilter.value
  {
    match timeFilter
    case None => Last30
    case Some(f) => f
  }

  /** One day of the chart. */
  datatype Bucket = Bucket(day: int, income: int, expense: int)

  /** Total of the transactions of type `kind` dated on local day `d`: the
      day's transactions first, then those of that type. */
  function DayTotal(txs: seq<Transaction>, kind: TxType, d: int, offset: int): int
  {
    Total(Filter(txs, HasKey(DayKey(offset), d)), kind)
  }

  /** The buckets of `count` days from local day `first`. */
  function BucketsFrom(txs: seq<Transaction>, first: int, count: nat, offset: int): (r: seq<Bucket>)
    ensures |r| == count
    ensures forall i :: 0 <= i < count ==> r[i].day == first + i
  {
    seq(count, i requires 0 <= i < count =>
      Bucket(first + i, DayTotal(txs, Income, first + i, offset), DayTotal(txs, Expense, first + i, offset)))
  }

  /** `chartData`: a bucket for every day of the range, in order, including
      days without transactions. */
  function Buckets(txs: seq<Transaction>, f: TimeFilter, c: Clock): (r: seq<Bucket>)
    ensures |r| == DayCount(f, c)
    ensures forall i :: 0 <= i < |r| ==> r[i].day == ChartDays(f, c)[i]
  {
    BucketsFrom(txs, FirstDay(f, c), DayCount(f, c), c.offset)
  }

  /** The amounts of one type, bucket by bucket. */
  function Column(b: seq<Bucket>, kind: TxType): (r: seq<int>)
    ensures |r| == |b|
  {
    seq(|b|, i requires 0 <= i < |b| => if kind == Income then b[i].income else b[i].expense)
  }

  /** A bucket's income and expense are the totals of exactly the
      transactions of that day and that type. */
  lemma BucketContents(txs: seq<Transaction>, first: int, count: nat, offset: int, i: int, kind: TxType)
    requires 0 <= i < count
    ensures Column(BucketsFrom(txs, first, count, offset), kind)[i]
         == KeySum(Filter(txs, OfKind(kind)), Amount, DayKey(offset), first + i)
  {
    var onDay := HasKey(DayKey(offset), first + i);
    var b := BucketsFrom(txs, first, count, offset);
    assert Column(b, kind)[i] == DayTotal(txs, kind, first + i, offset);
    assert DayTotal(txs, kind, first + i, offset) == SumOf(Filter(Filter(txs, onDay), OfKind(kind)), Amount);
    FilterCommute(txs, onDay, OfKind(kind));
  }

  /** Adding up a column gives the total of that type over the transactions
      dated on the buckets' days. */
  lemma ColumnAddsUp(txs: seq<Transaction>, first: int, count: nat, offset: int, kind: TxType)
    ensures Sum(Column(BucketsFrom(txs, first, count, offset), kind))
         == Total(Filter(txs, KeyIn(DayKey(offset), first, first + count - 1)), kind)
  {
    var key := DayKey(offset);
    var ofKind := Filter(txs, OfKind(kind));
    var col := Column(BucketsFrom(txs, first, count, offset), kind);
    forall i | 0 <= i < count
      ensures col[i] == KeySums(ofKind, Amount, key, first, count)[i]
    {
      BucketContents(txs, first, count, offset, i, kind);
    }
    assert col == KeySums(ofKind, Amount, key, first, count);
    KeySumsAddUp(ofKind, Amount, key, first, count);
    FilterCommute(txs, OfKind(kind), KeyIn(key, first, first + count - 1));
  }

  /** Over the whole chart, each column adds up to the total of its type
      over the transactions dated within the chart's days. */
  lemma ChartAddsUp(txs: seq<Transaction>, f: TimeFilter, c: Clock, kind: TxType)
    ensures Sum(Column(Buckets(txs, f, c), kind))
         == Total(Filter(txs, KeyIn(DayKey(c.offset), FirstDay(f, c), FirstDay(f, c) + DayCount(f, c) - 1)), kind)
  {
    ColumnAddsUp(txs, FirstDay(f, c), DayCount(f, c), c.offset, kind);
  }

  /** The days of the "This Month" chart hold exactly the instants the
      dashboard's "This Month" filter keeps. */
  lemma ThisMonthSameDays(c: Clock, t: Transaction)
    ensures KeyIn(DayKey(c.offset), FirstDay(ThisMonth, c), FirstDay(ThisMonth, c) + DayCount(ThisMonth, c) - 1)(t)
        <==> Dashboard.DatedWithin(Dashboard.FilterWindow(ThisMonth, c).value)(t)
  {
    var mi := MonthOf(c.now, c.offset);
    var d := DayOf(t.date, c.offset);
    assert FirstDay(ThisMonth, c) == MonthStartDay(mi);
    assert FirstDay(ThisMonth, c) + DayCount(ThisMonth, c) - 1 == MonthStartDay(mi + 1) - 1;
    InMonthBounds(t.date, mi, c.offset);
    if MonthStartDay(mi) <= d < MonthStartDay(mi + 1) {
      MonthOfDayUnique(d, mi);
    }
  }

  /** When the buckets' days hold exactly the instants of a window, each
      column adds up to the total of its type over that window. */
  lemma ColumnMatchesWindow(txs: seq<Transaction>, first: int, count: nat, offset: int,
                            iv: Interval, kind: TxType)
    requires forall t: Transaction ::
      KeyIn(DayKey(offset), first, first + count - 1)(t) == Dashboard.DatedWithin(iv)(t)
    ensures Sum(Column(BucketsFrom(txs, first, count, offset), kind))
         == Total(Filter(txs, Dashboard.DatedWithin(iv)), kind)
  {
    ColumnAddsUp(txs, first, count, offset, kind);
    FilterCongruent(txs, KeyIn(DayKey(offset), first, first + count - 1), Dashboard.DatedWithin(iv));
  }

  /** Over "This Month" the chart's columns add up to the dashboard's income
      and expense cards: both cover the current month. */
  lemma ThisMonthChartMatchesCard(txs: seq<Transaction>, c: Clock, kind: TxType)
    ensures Sum(Column(Buckets(txs, ThisMonth, c), kind))
         == Total(Dashboard.FilteredTransactions(txs, ThisMonth, c), kind)
  {
    var first := FirstDay(ThisMonth, c);
    var count := DayCount(ThisMonth, c);
    var iv := Dashboard.FilterWindow(ThisMonth, c).value;
    forall t: Transaction
      ensures KeyIn(DayKey(c.offset), first, first + count - 1)(t) == Dashboard.DatedWithin(iv)(t)
    {
      ThisMonthSameDays(c, t);
    }
    ColumnMatchesWindow(txs, first, count, c.offset, iv, kind);
    assert Dashboard.FilteredTransactions(txs, ThisMonth, c) == Filter(txs, Dashboard.DatedWithin(iv));
  }
  /** Over "Last 30 Days" the card reaches one day further back than the
      chart: a transaction dated exactly 30 days before now counts on the
      card, yet its day lies just before the chart's first day. */
  lemma Last30CardReachesPastChart(txs: seq<Transaction>, c: Clock, t: Transaction)
    requires t in txs && t.date == c.now - 30 * DAY
    ensures t in Dashboard.FilteredTransactions(txs, Last30, c)
    ensures DayOf(t.date, c.offset) == FirstDay(Last30, c) - 1
  {
    Dashboard.Last30Days(txs, c, t);
    ChartRanges(c);
  }
}
