/** The balance-trend chart: one point per day of the selected range, each
    the running balance at the end of that day. It is drawn from ALL the
    user's transactions (not the range-filtered ones) and the initial
    balance: history before the range is folded into the starting balance,
    then each day adds its own transactions. */
module BalanceTrend {
  import opened Records
  import opened Sequences
  import opened Ledger
  import opened Sorting
  import opened Calendar
  import opened TimeFilters
  import opened ChartRange
  import opened KeyRanges

  /** Sort key of `compareAsc` on the dates: oldest first. */
  function OldestFirst(t: Transaction): int
  {
    t.date
  }

  /** The predicate `t => t.date < from`. */
  function DatedBefore(from: int): Transaction -> bool
  {
    (t: Transaction) => t.date < from
  }

  /** The local day of a transaction's date; `isSameDay` compares these. */
  function DayKey(offset: int): Transaction -> int
  {
    (t: Transaction) => DayOf(t.date, offset)
  }

  /** The balance at the end of local day `d`: the initial balance moved by
      every transaction dated on that day or earlier. */
  function BalanceAt(txs: seq<Transaction>, initialBalance: int, d: int, offset: int): int
  {
    initialBalance + Net(Filter(txs, KeyAtMost(DayKey(offset), d)))
  }

  /** Dated before the start of day `first` is dated on an earlier day. */
  lemma BeforeStartIsEarlierDay(s: seq<Transaction>, first: int, offset: int)
    ensures Net(Filter(s, DatedBefore(DayStart(first, offset))))
         == SumOf(Filter(s, KeyAtMost(DayKey(offset), first - 1)), Signed)
  {
    forall t: Transaction
      ensures DatedBefore(DayStart(first, offset))(t) == KeyAtMost(DayKey(offset), first - 1)(t)
    {
      DayBounds(t.date, first, offset);
    }
    FilterCongruent(s, DatedBefore(DayStart(first, offset)), KeyAtMost(DayKey(offset), first - 1));
  }

  /** Sorting does not change the balance at the end of a day. */
  lemma SortedBalanceAt(txs: seq<Transaction>, initialBalance: int, d: int, offset: int)
    ensures BalanceAt(Sort(txs, OldestFirst), initialBalance, d, offset) == BalanceAt(txs, initialBalance, d, offset)
  {
    RangeSumPermutation(Sort(txs, OldestFirst), txs, Signed, KeyAtMost(DayKey(offset), d));
  }

  /** The chart's points: the transactions sorted oldest first, then the
      daily balances over the days of the range. Point `i` is the balance
      at the end of the `i`-th day of the range, whatever order the
      transactions came in. */
  method BalancePoints(txs: seq<Transaction>, initialBalance: int, f: TimeFilter, c: Clock)
    returns (points: seq<int>)
    ensures |points| == DayCount(f, c)
    ensures forall i :: 0 <= i < |points| ==>
      points[i] == BalanceAt(txs, initialBalance, FirstDay(f, c) + i, c.offset)
  {
    var sorted := Sort(txs, OldestFirst);
    var startTime := StartOfDay(ChartSpan(f, c).start, c.offset);
    points := DailyBalances(sorted, initialBalance, startTime, FirstDay(f, c), DayCount(f, c), c.offset);
    forall i | 0 <= i < |points|
      ensures points[i] == BalanceAt(txs, initialBalance, FirstDay(f, c) + i, c.offset)
    {
      SortedBalanceAt(txs, initialBalance, FirstDay(f, c) + i, c.offset);
    }
  }

  /** The running balance over `count` days from local day `first`, whose
      first instant is `startTime`: the history before `startTime` folded
      into the initial balance, then each day's transactions added and the
      balance recorded. */
  method DailyBalances(sorted: seq<Transaction>, initialBalance: int, startTime: int,
                       first: int, count: nat, offset: int)
    returns (points: seq<int>)
    requires startTime == DayStart(first, offset)
    ensures |points| == count
    ensures forall i :: 0 <= i < count ==> points[i] == BalanceAt(sorted, initialBalance, first + i, offset)
  {
    var before := Net(Filter(sorted, DatedBefore(startTime)));
    BeforeStartIsEarlierDay(sorted, first, offset);
    var nets := RunningTotals(sorted, Signed, DayKey(offset), before, first, count);
    points := seq(count, i requires 0 <= i < count => initialBalance + nets[i]);
  }

  /** When nothing is dated after a day, the balance at its end is the
      balance the dashboard's balance card shows. */
  lemma LastPointIsBalance(txs: seq<Transaction>, initialBalance: int, d: int, offset: int)
    requires forall i :: 0 <= i < |txs| ==> DayOf(txs[i].date, offset) <= d
    ensures BalanceAt(txs, initialBalance, d, offset) == initialBalance + Net(txs)
  {
    FilterKeepsAll(txs, KeyAtMost(DayKey(offset), d));
  }

  /** Consecutive days' balances differ by exactly the net of the later
      day's transactions. */
  lemma PointStep(txs: seq<Transaction>, initialBalance: int, d: int, offset: int)
    ensures BalanceAt(txs, initialBalance, d, offset)
         == BalanceAt(txs, initialBalance, d - 1, offset) + Net(Filter(txs, HasKey(DayKey(offset), d)))
  {
    AtMostStep(txs, Signed, DayKey(offset), d);
  }
}
