/** The dashboard page's derived values: the transactions the range selector
    keeps, the three stat cards, the greeting and the daily-limit label.
    The selector starts on "This Month". */
module Dashboard {
  import opened Js
  import opened Records
  import opened Sequences
  import opened Ledger
  import opened Calendar
  import opened TimeFilters
  import opened Http
  import TransactionRoutes

  const InitialFilter: TimeFilter := ThisMonth

  /** The interval a filter keeps, read on the clock `c`; `None` for
      "All Time", which keeps everything. "Last 30 Days" runs from the same
      time of day 30 days ago to the end of today; an unrecognised value
      falls back to the current month. */
  function FilterWindow(f: TimeFilter, c: Clock): (r: Option<Interval>)
    ensures r.None? <==> f == AllTime
    ensures r.Some? ==> r.value.start <= c.now <= r.value.end
  {
    match f
    case AllTime => None
    case ThisWeek => Some(Interval(StartOfWeek(c.now, c.offset), EndOfWeek(c.now, c.offset)))
    case Last30 => Some(Interval(SubDays(c.now, 30), EndOfDay(c.now, c.offset)))
    case _ => Some(Interval(StartOfMonth(c.now, c.offset), EndOfMonth(c.now, c.offset)))
  }

  /** The predicate `t => isWithinInterval(t.date, iv)`. */
  function DatedWithin(iv: Interval): Transaction -> bool
  {
    (t: Transaction) => Within(t.date, iv)
  }

  /** `filteredTransactions`: the transactions the selected range keeps, in
      their order. */
  function FilteredTransactions(txs: seq<Transaction>, f: TimeFilter, c: Clock): (r: seq<Transaction>)
    ensures f == AllTime ==> r == txs
    ensures f != AllTime ==> forall i :: 0 <= i < |r| ==> Within(r[i].date, FilterWindow(f, c).value)
    ensures multiset(r) <= multiset(txs)
  {
    match FilterWindow(f, c)
    case None => txs
    case Some(iv) =>
      FilterSubMultiset(txs, DatedWithin(iv));
      Filter(txs, DatedWithin(iv))
  }

  /** A transaction is kept exactly when the filter is "All Time" or its
      date lies in the filter's interval. */
  lemma FilteredMembers(txs: seq<Transaction>, f: TimeFilter, c: Clock, t: Transaction)
    ensures t in FilteredTransactions(txs, f, c)
        <==> t in txs && (f == AllTime || Within(t.date, FilterWindow(f, c).value))
  {
    if f != AllTime {
      FilterMembers(txs, DatedWithin(FilterWindow(f, c).value), t);
    }
  }

  /** "This Month" keeps exactly the transactions of the current local
      calendar month. */
  lemma ThisMonthKeepsCurrentMonth(txs: seq<Transaction>, c: Clock, t: Transaction)
    ensures t in FilteredTransactions(txs, ThisMonth, c)
        <==> t in txs && MonthOf(t.date, c.offset) == MonthOf(c.now, c.offset)
  {
    FilteredMembers(txs, ThisMonth, c, t);
    InMonthBounds(t.date, MonthOf(c.now, c.offset), c.offset);
  }

  /** An unrecognised selector value behaves as "This Month". */
  lemma UnrecognisedIsThisMonth(txs: seq<Transaction>, c: Clock)
    ensures FilteredTransactions(txs, Unrecognised, c) == FilteredTransactions(txs, ThisMonth, c)
  {
  }

  /** "This Week" keeps exactly the transactions of the current
      Sunday-to-Saturday week. */
  lemma ThisWeekKeepsCurrentWeek(txs: seq<Transaction>, c: Clock, t: Transaction)
    ensures t in FilteredTransactions(txs, ThisWeek, c)
        <==> t in txs && StartOfWeek(t.date, c.offset) == StartOfWeek(c.now, c.offset)
  {
    FilteredMembers(txs, ThisWeek, c, t);
    SameWeek(t.date, c.now, c.offset);
  }

  /** Two instants share a week exactly when one lies within the other's
      week bounds. */
  lemma SameWeek(t: int, now: int, offset: int)
    ensures StartOfWeek(now, offset) <= t <= EndOfWeek(now, offset)
        <==> StartOfWeek(t, offset) == StartOfWeek(now, offset)
  {
    var d := DayOf(t, offset);
    var n := DayOf(now, offset);
    var w := n - Weekday(n);
    DayBounds(t, w, offset);
    DayBounds(t, w + 7, offset);
    assert StartOfWeek(t, offset) == DayStart(d - Weekday(d), offset);
    assert StartOfWeek(now, offset) == DayStart(w, offset);
    if w <= d < w + 7 {
      assert (d - Weekday(d)) % 7 == 3 && (w - 0) % 7 == 3 by {
        assert Weekday(w) == 0 by {
          assert DayOf(DayStart(w, offset), offset) == w;
        }
      }
      assert d - Weekday(d) == w;
    } else {
      assert d - Weekday(d) != w;
    }
  }

  /** "Last 30 Days" keeps every transaction of the last 29 days and today,
      none older than 30 days or later than today, and of the day exactly 30
      days back only those at or after the current time of day. */
  lemma Last30Days(txs: seq<Transaction>, c: Clock, t: Transaction)
    requires t in txs
    ensures var today := DayOf(c.now, c.offset);
      && (today - 29 <= DayOf(t.date, c.offset) <= today ==> t in FilteredTransactions(txs, Last30, c))
      && (DayOf(t.date, c.offset) < today - 30 || DayOf(t.date, c.offset) > today
          ==> t !in FilteredTransactions(txs, Last30, c))
      && (DayOf(t.date, c.offset) == today - 30
          ==> (t in FilteredTransactions(txs, Last30, c) <==> t.date >= c.now - 30 * DAY))
  {
    var today := DayOf(c.now, c.offset);
    FilteredMembers(txs, Last30, c, t);
    DayBounds(t.date, DayOf(t.date, c.offset), c.offset);
    DayBounds(c.now, today, c.offset);
  }

  /** The three stat cards. */
  datatype Stats = Stats(income: int, expense: int, balance: int)

  /** `dashboardStats`: income and expense over the filtered transactions,
      the balance over all of them. */
  function DashboardStats(txs: seq<Transaction>, initialBalance: int, f: TimeFilter, c: Clock): (s: Stats)
    ensures s.income == Total(FilteredTransactions(txs, f, c), Income)
    ensures s.expense == Total(FilteredTransactions(txs, f, c), Expense)
    ensures s.balance == initialBalance + Net(txs)
  {
    var filtered := FilteredTransactions(txs, f, c);
    NetIsIncomeMinusExpense(txs);
    Stats(Total(filtered, Income), Total(filtered, Expense), Balance(initialBalance, txs))
  }

  /** The balance card does not move with the range selector or the clock. */
  lemma BalanceIgnoresFilter(txs: seq<Transaction>, initialBalance: int,
                             f: TimeFilter, c: Clock, g: TimeFilter, d: Clock)
    ensures DashboardStats(txs, initialBalance, f, c).balance
         == DashboardStats(txs, initialBalance, g, d).balance
  {
  }

  /** Over "All Time" the cards are consistent: balance = initial + income
      - expense. */
  lemma AllTimeCardsAgree(txs: seq<Transaction>, initialBalance: int, c: Clock)
    ensures var s := DashboardStats(txs, initialBalance, AllTime, c);
      s.balance == initialBalance + s.income - s.expense
  {
    NetIsIncomeMinusExpense(txs);
  }

  /** With non-negative amounts, a filtered card never exceeds its
      all-time total. */
  lemma FilteredCardsBounded(txs: seq<Transaction>, initialBalance: int, f: TimeFilter, c: Clock)
    requires TransactionRoutes.NonNegativeAmounts(txs)
    ensures var s := DashboardStats(txs, initialBalance, f, c);
      && 0 <= s.income <= Total(txs, Income)
      && 0 <= s.expense <= Total(txs, Expense)
  {
    match FilterWindow(f, c)
    case None =>
      TransactionRoutes.NonNegativeTotal(txs, Income);
      TransactionRoutes.NonNegativeTotal(txs, Expense);
    case Some(iv) =>
      var keep := DatedWithin(iv);
      var drop := (t: Transaction) => !Within(t.date, iv);
      var all := (t: Transaction) => true;
      FilterKeepsAll(txs, all);
      TotalSplit(txs, all, keep, drop, Income);
      TotalSplit(txs, all, keep, drop, Expense);
      TransactionRoutes.SelectionNonNegative(txs, keep);
      TransactionRoutes.SelectionNonNegative(txs, drop);
      TransactionRoutes.NonNegativeTotal(Filter(txs, keep), Income);
      TransactionRoutes.NonNegativeTotal(Filter(txs, keep), Expense);
      TransactionRoutes.NonNegativeTotal(Filter(txs, drop), Income);
      TransactionRoutes.NonNegativeTotal(Filter(txs, drop), Expense);
  }

  /** The balance card agrees with the server's summary: the page's
      transactions are the user's (in any order) and the initial balance is
      the stored one. */
  lemma BalanceMatchesServerSummary(db: Store, userId: string, isValidId: string -> bool, now: int,
                                    txs: seq<Transaction>, f: TimeFilter, c: Clock)
    requires isValidId(userId) && FindUser(db.users, userId).Some?
    requires multiset(txs) == multiset(TransactionRoutes.UserTransactions(db, userId))
    ensures DashboardStats(txs, FindUser(db.users, userId).value.initialBalance, f, c).balance
         == TransactionRoutes.GetSummary(db, userId, isValidId, now).body.summary.balance
  {
    var mine := TransactionRoutes.UserTransactions(db, userId);
    NetIsIncomeMinusExpense(txs);
    NetIsIncomeMinusExpense(mine);
    TotalPermutation(txs, mine, Income);
    TotalPermutation(txs, mine, Expense);
  }

  /** The greeting's part of the day. */
  datatype PartOfDay = Morning | Afternoon | Evening

  /** `TimeofDay`: morning from 06:00 to 11:59, afternoon from 12:00 to
      17:59, evening otherwise (including the small hours). */
  function TimeOfDay(hour: int): (r: PartOfDay)
    requires 0 <= hour < 24
    ensures r == Morning <==> 6 <= hour <= 11
    ensures r == Afternoon <==> 12 <= hour <= 17
    ensures r == Evening <==> hour <= 5 || 18 <= hour
  {
    if hour < 12 && hour > 5 then Morning
    else if hour < 18 && hour >= 12 then Afternoon
    else Evening
  }

  /** The greeting as read from the clock: morning exactly when the local
      time lies in [06:00, 12:00), afternoon in [12:00, 18:00). */
  lemma TimeOfDayWindows(c: Clock)
    ensures var midnight := StartOfDay(c.now, c.offset);
      && (TimeOfDay(HourOf(c.now, c.offset)) == Morning <==>
          midnight + 6 * HOUR <= c.now < midnight + 12 * HOUR)
      && (TimeOfDay(HourOf(c.now, c.offset)) == Afternoon <==>
          midnight + 12 * HOUR <= c.now < midnight + 18 * HOUR)
  {
  }

  /** The name in the greeting: the first name when it is not empty,
      otherwise the username. */
  function GreetingName(u: PublicUser): (r: string)
    ensures u.firstName != "" ==> r == u.firstName
    ensures u.firstName == "" ==> r == u.username
  {
    if u.firstName != "" then u.firstName else u.username
  }

  /** The "Remaining" figure of the daily-limit card. */
  datatype RemainingLabel = Over | Left(amount: int)

  function Remaining(remainingToday: int): (r: RemainingLabel)
    ensures r == Over <==> remainingToday < 0
    ensures r.Left? ==> r.amount == remainingToday && r.amount >= 0
  {
    if remainingToday < 0 then Over else Left(remainingToday)
  }

  /** The card reads "OVER" exactly when today's spending exceeds the daily
      limit. */
  lemma OverExactlyWhenLimitExceeded(db: Store, userId: string, isValidId: string -> bool, now: int)
    requires isValidId(userId) && FindUser(db.users, userId).Some?
    ensures var s := TransactionRoutes.GetSummary(db, userId, isValidId, now).body.summary;
      Remaining(s.remainingToday) == Over <==> s.spentToday > s.dailyLimit
  {
  }
}
