# Expense tracker — a Dafny model of its core

The application is a personal expense tracker. Each user registers with a
username, a numeric PIN, names, an initial balance and a daily spending
limit. The user then records income and expense transactions. The server
offers two groups of operations, and holds the handler of a third that it
does not serve:

- registration and login (`/api/auth`);
- the profile update (`/api/users`), whose handler exists but is not
  mounted by server/index.js:32-33;
- the dashboard summary, the history listing, creation and deletion of
  transactions (`/api/transactions`).

The browser derives everything it shows from the list of the user's
transactions:

- the dashboard's range filter and stat cards;
- the balance-trend chart, the income/expense comparison chart and the
  expense pie chart;
- the transactions table's month/type/category filters and sort;
- the new-transaction form, the delete and edit flow of the transactions
  page, and the registration page's checks.

This project models those pieces as pure functions over immutable values
and proves what they promise. The model is organised as follows.

- `Records` holds the two stored entities with their schema invariants,
  and the store (users and transactions in insertion order).
- `Js` holds the JavaScript values request bodies carry: `undefined`/`null`,
  truthiness, `||` and `Number(...)`.
- `Text` models `trim` and `toLowerCase`. `IsoDate` models the
  "YYYY-MM-DD" text `toISOString` produces.
- `Calendar` holds the date-fns arithmetic on integer millisecond
  timestamps, read in a zone with a fixed offset. This covers day, Sunday
  week, month, `subDays` and `subMonths`.
- `Sequences`, `Sorting`, `Ledger` and `KeyRanges` hold the generic
  pieces: `filter`, `reduce`, a stable sort, per-type totals and per-day
  sums.
- `AuthRoutes`, `UserRoutes` and `TransactionRoutes` hold the handlers.
  Each takes the request and the store and returns a status, a body and,
  when it writes, the new store.
- `TimeFilters`, `Dashboard`, `ChartRange`, `BalanceTrend`,
  `MonthlyComparison`, `ExpensePie`, `TransactionTable`,
  `TransactionForm`, `TransactionsPage` and `RegisterPage` hold the client
  views and their state transitions.

Some parts of the system are parameters of the model:

- the PIN hash and compare (`hash`, `matches`);
- ObjectId validity (`isValidId`);
- the fresh document id (`newId`);
- the clock (`now`, or a `Clock` carrying the instant and the local zone
  offset);
- the conversion of a form's numeric text (`number`).

Amounts are integers in minor units and dates are integer milliseconds.

## Model

| member | source | states |
|---|---|---|
| Records.ParseTxType | server/models/Transaction.js:11-15 | a transaction type is Income exactly for "income" and Expense exactly for "expense"; anything else is refused |
| Records.StoredTransactionIsFixed | server/models/Transaction.js:16-20 | a schema-valid transaction has a non-empty category that is its own trim, so saving it again changes nothing |
| Records.StoredUserIsFixed | server/models/User.js:5-21 | a schema-valid user's username is its own lower-cased, trimmed lookup key, and its names are their own trim |
| Records.ToPublic | server/routes/authRoutes.js:67-74 | the public view copies id, username, names, initial balance and daily limit from the stored user |
| Records.PublicViewIgnoresPin | server/routes/authRoutes.js:105-112 | users differing only in the PIN hash have the same public view, so no response can reveal the PIN |
| Records.FindUser | server/routes/userRoutes.js:18-22 | lookup by id returns a stored user with that id, or none exactly when no user has it |
| Records.FindByUsername | server/routes/authRoutes.js:45-50 | lookup by username returns a stored user with that username, or none exactly when no user has it |
| Records.ReplaceUser | server/routes/userRoutes.js:32 | saving rewrites the user with the saved id and leaves every other position unchanged |
| Records.ReplaceUserAt | server/routes/userRoutes.js:32 | with unique ids, saving rewrites exactly the one position holding that id |
| Js.OrElse | server/routes/transactionRoutes.js:113-116 | `s || fallback` gives the value when it is truthy and the fallback when it is absent or "" |
| Js.ToNumber | server/routes/authRoutes.js:62 | `Number(x)` is NaN exactly for undefined and non-numeric text; null reads as 0 and a number as itself |
| Text.Trim | server/models/Transaction.js:16-20 | trimming gives the text without leading and trailing white space |
| Text.TrimIdempotent | server/models/User.js:5-13 | a trimmed value stays the same when trimmed again, as the schema's `trim` re-applies it |
| Text.ToLower | server/models/User.js:5-13 | lower-casing keeps the length, maps each character and leaves no capital letter |
| Text.NormalizeIsLowerOfTrim | server/routes/authRoutes.js:46 | `toLowerCase().trim()` equals trimming first and then lower-casing, and is as long as the trimmed input |
| Text.NormalizeIsNormal | server/routes/authRoutes.js:58 | the stored username is trimmed and lower-case, so normalising it again changes nothing |
| IsoDate.FormatParseRoundTrip | client/src/pages/Transactions.jsx:74 | reading back a formatted "YYYY-MM-DD" text gives the civil date it was written from |
| IsoDate.DayTextRoundTrip | client/src/pages/Transactions.jsx:74 | the text written for a day parses back to that very day |
| IsoDate.IsoDay | client/src/components/ui/cards/TransactionForm.jsx:13 | the date part of `toISOString` parses back to the civil date whose day number is the UTC day of the instant |
| IsoDate.FormatCivilParts | client/src/pages/Transactions.jsx:74 | a formatted date has its dashes sixth-last and third-last, the year text before the first and the two-digit month and day after them |
| Calendar.StartOfWeek | client/src/pages/Dashboard.jsx:70 | `startOfWeek` with Sunday start is a local midnight on a Sunday, at most seven days before the instant |
| Calendar.EndOfWeek | client/src/pages/Dashboard.jsx:71 | `endOfWeek` is the last millisecond of the following Saturday, one millisecond before the next week starts |
| Calendar.SubDays | client/src/pages/Dashboard.jsx:74 | `subDays(t, n)` lands on the local day n days earlier in every zone |
| Calendar.StartOfDay | client/src/components/ui/charts/BalanceTrendChart.jsx:68 | `startOfDay` opens the instant's local day: the instant lies within the day after it, and the millisecond before it belongs to the previous day |
| Calendar.EndOfDay | client/src/pages/Dashboard.jsx:75 | `endOfDay` is the last millisecond of the instant's local day |
| Calendar.StartOfMonth | client/src/pages/Dashboard.jsx:79 | `startOfMonth` is the first instant of the local month: it lies in that month, no later than the instant, and the millisecond before it lies in the previous month |
| Calendar.EndOfMonth | client/src/pages/Dashboard.jsx:80 | `endOfMonth` lies in the same local month and the next millisecond lies in the next month |
| Calendar.InMonthBounds | client/src/components/ui/charts/TransactionTable.jsx:44-50 | an instant lies between a month's first and last instants, both included, exactly when it falls in that month |
| Calendar.SubMonths | client/src/components/ui/charts/BalanceTrendChart.jsx:47 | `subMonths(t, n)` lands n months back, on the same day of the month clamped to the target month's length, at the same time of day |
| Calendar.HourOf | client/src/pages/Dashboard.jsx:130 | `getHours` is the local hour h with the instant inside [midnight + h hours, midnight + h+1 hours) |
| AuthRoutes.LimitOrDefault | server/routes/authRoutes.js:63 | a limit that is missing, NaN or 0 becomes 1000; any other number is kept |
| AuthRoutes.NewUser | server/routes/authRoutes.js:57-64 | the created user has the new id, the hashed PIN, the normalised username, the trimmed first and last names, the numeric initial balance and the defaulted limit |
| AuthRoutes.NewUserValid | server/models/User.js:5-33 | the created user satisfies the user schema: username of 8-12 characters, trimmed and lower-case, trimmed names, non-empty PIN hash |
| AuthRoutes.Register | server/routes/authRoutes.js:19-78 | each 400 message is answered exactly when its check is the first to fail, in the order username, PIN, names, initial balance, duplicate; past them, 500 "Server error during registration" exactly when the store refuses the document (a NaN initial balance or an empty PIN hash); the status is always 201, 400 or 500; a failure leaves the store alone; 201 exactly when all checks pass and the document is valid, appending the new user and answering its public view |
| AuthRoutes.RegisterPreservesValidStore | server/routes/authRoutes.js:45-64 | registration with a fresh id keeps the store valid, usernames unique included |
| AuthRoutes.AddUserPreservesValidStore | server/models/User.js:5-13 | appending a valid user whose id and username are new keeps ids and usernames unique |
| AuthRoutes.CaseVariantRefused | server/routes/authRoutes.js:45-50 | after a registration, a username differing only in case or surrounding spaces is refused as a duplicate |
| AuthRoutes.FindByUsernameFinds | server/routes/authRoutes.js:91-93 | a lookup by a username that some stored user has finds a user |
| AuthRoutes.FindByUsernameAppended | server/routes/authRoutes.js:91-93 | the user appended by registration is the one a later lookup of its username finds |
| AuthRoutes.Login | server/routes/authRoutes.js:86-116 | 400 exactly when a field is missing; 401 with one message exactly when the user is unknown or the PIN does not match; otherwise 200 with the found user's public view |
| AuthRoutes.RegisterThenLogin | server/routes/authRoutes.js:57-112 | after a registration, logging in with any spelling that normalises to the same name and the same PIN succeeds with the view registration answered |
| AuthRoutes.LoginFindsUser | server/routes/authRoutes.js:91-112 | a login whose username finds a user and whose PIN matches answers that user's public view |
| AuthRoutes.LoginFailuresIndistinguishable | server/routes/authRoutes.js:94-102 | an unknown username and a wrong PIN get the identical 401 answer |
| UserRoutes.UpdatedName | server/routes/userRoutes.js:25-26 | a truthy name replaces the stored one trimmed; absent or "" keeps it; trimmed stays trimmed |
| UserRoutes.UpdatedNumber | server/routes/userRoutes.js:27-30 | undefined keeps the stored number, null stores 0, a number is stored, non-numeric text is refused |
| UserRoutes.ApplyUpdate | server/routes/userRoutes.js:24-32 | the saved user keeps id, username and PIN hash, takes the updated names and numbers, and stays valid; it is refused exactly when a numeric field is NaN |
| UserRoutes.UpdateUser | server/routes/userRoutes.js:9-47 | 400 exactly for a malformed id, 404 exactly for an unknown user, 500 "Error updating profile" exactly when a numeric field is NaN for a found user; the status is always 200, 400, 404 or 500; failures leave the store; 200 exactly when the cast succeeds, replacing the user and answering its public view |
| UserRoutes.ReplaceUserPreservesValidUsers | server/routes/userRoutes.js:32 | saving a valid document with the same id and username keeps the users collection valid |
| UserRoutes.UpdatePreservesValidStore | server/routes/userRoutes.js:32 | a profile update keeps the store valid |
| UserRoutes.UpdateTouchesOnlyThatUser | server/routes/userRoutes.js:18-32 | an update changes no other user and no transaction |
| UserRoutes.EmptyUpdateChangesNothing | server/routes/userRoutes.js:24-32 | an update that supplies no field leaves the store unchanged and answers the stored user |
| UserRoutes.NullSettingBecomesZero | server/routes/userRoutes.js:27-30 | sending null for a numeric setting stores 0 rather than keeping the stored value |
| UserRoutes.BlankNameClearsName | server/routes/userRoutes.js:25 | a name of only spaces is truthy and clears the stored name |
| TransactionRoutes.BangkokMidnight | server/routes/transactionRoutes.js:40-50 | the day start is a Bangkok (UTC+07:00) midnight, at or before now and less than a day before |
| TransactionRoutes.DaySummary | server/routes/transactionRoutes.js:27-71 | the summary's totals are the per-type totals, the balance is initial plus income minus expense, the spending counts expenses from the day start on, and remaining is limit minus spending |
| TransactionRoutes.GetSummary | server/routes/transactionRoutes.js:9-77 | 400 exactly for a malformed id, 404 exactly for an unknown user, otherwise the summary of that user's transactions with today starting at Bangkok midnight |
| TransactionRoutes.SpentTodayBounds | server/routes/transactionRoutes.js:52-71 | with non-negative amounts, today's spending lies between 0 and the expense total, and remaining is negative exactly when spending exceeds the limit |
| TransactionRoutes.SelectionNonNegative | server/models/Transaction.js:21-25 | a selection of amounts that are at least 0 still has amounts at least 0 |
| TransactionRoutes.StoredAmountsNonNegative | server/models/Transaction.js:21-25 | in a valid store every user's transactions have amounts at least 0 |
| TransactionRoutes.NonNegativeTotal | server/routes/transactionRoutes.js:22-33 | a total of non-negative amounts is non-negative |
| TransactionRoutes.MissingTypeTotalsZero | server/routes/transactionRoutes.js:27-33 | a type the user has no transaction of totals 0, and without expenses nothing is spent today |
| TransactionRoutes.SummaryIgnoresOtherUsers | server/routes/transactionRoutes.js:22-23 | adding another user's transaction does not change a user's summary |
| TransactionRoutes.FutureExpenseCountsToday | server/routes/transactionRoutes.js:52-58 | for every list and clock, adding an expense dated at or after Bangkok midnight, however far ahead, raises the amount spent today by exactly its amount: the window has no upper bound |
| TransactionRoutes.ListTransactions | server/routes/transactionRoutes.js:83-95 | 400 exactly for a malformed id; otherwise the user's transactions, a permutation of them, newest first |
| TransactionRoutes.UserTransactionsMembers | server/routes/transactionRoutes.js:88 | a transaction is the user's exactly when it is stored and owned by the user |
| TransactionRoutes.ListingIsTheUsers | server/routes/transactionRoutes.js:88-90 | the listing holds exactly the stored transactions owned by the user |
| TransactionRoutes.NewTransaction | server/models/Transaction.js:5-35 | the schema accepts the document exactly when the type is known, the amount is a number at least 0, the defaulted category trims to something, the defaulted description has at most 300 characters, the owner is not empty and the date casts; the stored document is then schema-valid and carries the new id and the requesting user |
| TransactionRoutes.CreateTransaction | server/routes/transactionRoutes.js:99-123 | the answer is 201, 400 or 500: 400 for a missing or invalid user id, then 400 for a missing or non-positive amount; past those checks 201 exactly when the schema accepts the document and 500 otherwise; failures leave the store; 201 appends one valid transaction with a positive amount and the requester as owner |
| TransactionRoutes.CreatePreservesValidStore | server/routes/transactionRoutes.js:110-119 | with a fresh document id, creation keeps every stored transaction schema-valid and all ids distinct |
| TransactionRoutes.AppendKeepsValid | server/models/Transaction.js:3-38 | appending a schema-valid transaction whose id is not taken keeps the collection valid |
| TransactionRoutes.CreateDefaults | server/routes/transactionRoutes.js:110-117 | a missing category becomes "Uncategorized", a missing description "", a missing or falsy date the current time; supplied values are kept, the category trimmed; type and amount are the parsed request values |
| TransactionRoutes.DefaultedCategory | server/routes/transactionRoutes.js:113 | `category || "Uncategorized"` after the schema's trim is the trimmed category when one is given and the default otherwise |
| TransactionRoutes.DefaultCategoryTrimmed | server/models/Transaction.js:16-20 | the default category already satisfies the schema's trim |
| TransactionRoutes.ZeroAmountRefused | server/routes/transactionRoutes.js:106-108 | an amount of 0 is refused with 400 |
| TransactionRoutes.RemoveFirst | server/routes/transactionRoutes.js:132 | deleting by id removes one element when some transaction has the id and nothing otherwise |
| TransactionRoutes.FirstWithId | server/routes/transactionRoutes.js:132 | the position found is the first holding the id, or the length when no transaction holds it |
| TransactionRoutes.RemoveFirstSplits | server/routes/transactionRoutes.js:132 | deleting removes exactly the first transaction with the id: what comes before it and what comes after it stay, in order |
| TransactionRoutes.RemoveFirstUnique | server/routes/transactionRoutes.js:132 | with unique ids, deleting the first match equals filtering out every transaction with that id |
| TransactionRoutes.DeleteTransaction | server/routes/transactionRoutes.js:127-140 | the answer is 200, 400 or 404: 400 exactly for a malformed id, 404 exactly when no transaction has it, 200 exactly when the id is well formed and some transaction has it; failures leave the store; success cuts out the first transaction with the id, keeping the rest in order, and touches no user |
| TransactionRoutes.DeleteKeepsOthers | server/routes/transactionRoutes.js:132-136 | in a valid store a delete leaves exactly the other transactions in their order, and the store valid |
| TimeFilters.ParseTimeFilter | client/src/pages/Dashboard.jsx:166-172 | each of the four option values selects its own range; any other value is unrecognised |
| TimeFilters.ParseFilterName | client/src/pages/Dashboard.jsx:166-172 | reading an option's value gives back that option |
| Dashboard.FilterWindow | client/src/pages/Dashboard.jsx:62-82 | "All Time" has no window; every other filter's window contains now |
| Dashboard.FilteredTransactions | client/src/pages/Dashboard.jsx:62-87 | "All Time" returns the list unchanged; otherwise the result holds only transactions inside the window, and nothing not in the input |
| Dashboard.FilteredMembers | client/src/pages/Dashboard.jsx:84-86 | a transaction is kept exactly when it is in the input and the filter is "All Time" or its date lies in the closed window |
| Dashboard.ThisMonthKeepsCurrentMonth | client/src/pages/Dashboard.jsx:77-81 | "This Month" keeps exactly the transactions of the current local month |
| Dashboard.UnrecognisedIsThisMonth | client/src/pages/Dashboard.jsx:77-78 | an unrecognised filter value behaves as "This Month" |
| Dashboard.ThisWeekKeepsCurrentWeek | client/src/pages/Dashboard.jsx:69-72 | "This Week" keeps exactly the transactions of the current Sunday-to-Saturday week |
| Dashboard.SameWeek | client/src/pages/Dashboard.jsx:69-72 | an instant lies within the week bounds of now exactly when it has the same week start |
| Dashboard.Last30Days | client/src/pages/Dashboard.jsx:73-76 | "Last 30 Days" keeps the last 29 days and today whole, nothing older or later, and on the 30th day back only from now's time of day on |
| Dashboard.DashboardStats | client/src/pages/Dashboard.jsx:89-117 | income and expense are the type totals over the filtered list; the balance is initial plus net over all transactions |
| Dashboard.BalanceIgnoresFilter | client/src/pages/Dashboard.jsx:100-110 | the balance card is the same whatever the filter or the clock |
| Dashboard.AllTimeCardsAgree | client/src/pages/Dashboard.jsx:89-117 | over "All Time", balance = initial + income − expense |
| Dashboard.FilteredCardsBounded | client/src/pages/Dashboard.jsx:91-106 | with non-negative amounts, the filtered income and expense lie between 0 and their all-time totals |
| Dashboard.BalanceMatchesServerSummary | client/src/pages/Dashboard.jsx:108-110 | the balance card equals the server summary's balance for the same user's transactions in any order |
| Dashboard.TimeOfDayWindows | client/src/pages/Dashboard.jsx:129-134 | the greeting says morning exactly from 06:00 to before 12:00 and afternoon exactly from 12:00 to before 18:00 local time; evening otherwise |
| Dashboard.TimeOfDay | client/src/pages/Dashboard.jsx:129-134 | the hour gives morning exactly for 6 to 11, afternoon exactly for 12 to 17, evening exactly for 0 to 5 and 18 to 23 |
| Dashboard.GreetingName | client/src/pages/Dashboard.jsx:148 | the greeting uses the first name when it is not empty, otherwise the username |
| Dashboard.Remaining | client/src/pages/Dashboard.jsx:255-257 | the label is "OVER" exactly when the remaining allowance is negative, otherwise the non-negative amount |
| Dashboard.OverExactlyWhenLimitExceeded | client/src/pages/Dashboard.jsx:250-257 | the card reads "OVER" exactly when today's spending exceeds the daily limit |
| ChartRange.ChartSpan | client/src/components/ui/charts/BalanceTrendChart.jsx:32-59 | the range contains now; the tick interval is 0 for the week, 4 for the month, 10 for all time and 5 otherwise |
| ChartRange.DayCount | client/src/components/ui/charts/BalanceTrendChart.jsx:79 | there is at least one point, and the points run from the start's day to the end's day |
| ChartRange.ChartDays | client/src/components/ui/charts/BalanceTrendChart.jsx:79 | `eachDayOfInterval` starts at the start's local day, ends at the end's local day and strictly increases, one point per day |
| ChartRange.ChartDaysAreSpanDays | client/src/components/ui/charts/BalanceTrendChart.jsx:79 | a day is a point exactly when some instant of the range falls on it |
| ChartRange.ChartRanges | client/src/components/ui/charts/BalanceTrendChart.jsx:32-59 | the week has 7 days, "Last 30 Days" and the default have 30 ending today, the month all its days, and "All Time" runs from three months back to today |
| BalanceTrend.BeforeStartIsEarlierDay | client/src/components/ui/charts/BalanceTrendChart.jsx:67-76 | the carry-in over transactions before the first day's midnight is the net of the transactions of earlier days |
| BalanceTrend.SortedBalanceAt | client/src/components/ui/charts/BalanceTrendChart.jsx:62-64 | sorting the copy by date does not change any day's balance |
| BalanceTrend.BalancePoints | client/src/components/ui/charts/BalanceTrendChart.jsx:61-98 | one point per day of the range; point i is the initial balance moved by every transaction up to the end of day i, whatever the input order |
| BalanceTrend.DailyBalances | client/src/components/ui/charts/BalanceTrendChart.jsx:66-96 | carry-in then per-day application gives, at each day, the balance at the end of that day |
| BalanceTrend.LastPointIsBalance | client/src/components/ui/charts/BalanceTrendChart.jsx:81-95 | when nothing is dated after a day, the balance at its end is initial + income − non-income |
| BalanceTrend.PointStep | client/src/components/ui/charts/BalanceTrendChart.jsx:86-89 | consecutive points differ by exactly the net of the later day's transactions |
| KeyRanges.RunningTotals | client/src/components/ui/charts/BalanceTrendChart.jsx:81-96 | starting from the sum before the first key, entry i is the sum over every key up to the i-th |
| Ledger.NetIsIncomeMinusExpense | client/src/components/ui/charts/BalanceTrendChart.jsx:73-74 | adding incomes and subtracting the rest ends at income total minus expense total |
| Ledger.TotalsPartition | client/src/pages/Dashboard.jsx:91-97 | income and expense totals add up to the sum of all amounts |
| Ledger.TotalPermutation | server/routes/transactionRoutes.js:22-33 | totals do not depend on the order the transactions come in |
| MonthlyComparison.ChartFilter | client/src/components/ui/charts/MonthlyComparisonChart.jsx:24 | without a range passed in the chart uses "Last 30 Days" |
| MonthlyComparison.BucketsFrom | client/src/components/ui/charts/MonthlyComparisonChart.jsx:62-82 | one bucket per day, the i-th for the i-th day |
| MonthlyComparison.Buckets | client/src/components/ui/charts/MonthlyComparisonChart.jsx:60-82 | the chart has one bucket per day of the range, in day order |
| MonthlyComparison.BucketContents | client/src/components/ui/charts/MonthlyComparisonChart.jsx:63-74 | a bucket's income or expense is the sum over exactly the transactions of that day and that type |
| MonthlyComparison.ColumnAddsUp | client/src/components/ui/charts/MonthlyComparisonChart.jsx:62-82 | a column adds up to the type's total over the transactions dated within the buckets' days |
| MonthlyComparison.ChartAddsUp | client/src/components/ui/charts/MonthlyComparisonChart.jsx:60-82 | over the chart's range each column adds up to its type's total within the covered days |
| MonthlyComparison.ThisMonthSameDays | client/src/components/ui/charts/MonthlyComparisonChart.jsx:39-44 | the "This Month" chart's days hold exactly the instants the dashboard's "This Month" filter keeps |
| MonthlyComparison.ColumnMatchesWindow | client/src/components/ui/charts/MonthlyComparisonChart.jsx:62-82 | when the buckets' days are exactly a window, each column adds up to its type's total over that window |
| MonthlyComparison.ThisMonthChartMatchesCard | client/src/components/ui/charts/MonthlyComparisonChart.jsx:39-44 | over "This Month" the chart's columns equal the dashboard's income and expense cards |
| MonthlyComparison.Last30CardReachesPastChart | client/src/components/ui/charts/MonthlyComparisonChart.jsx:52-57 | over "Last 30 Days" the card counts a transaction exactly 30 days old that falls on the day before the chart's first day |
| ExpensePie.Find | client/src/components/ui/charts/ExpensePieChart.jsx:28 | `acc[name]` finds the first slice of that name, or reports that none has it |
| ExpensePie.Accumulate | client/src/components/ui/charts/ExpensePieChart.jsx:25-31 | a reduce step ignores incomes and keeps category names distinct |
| ExpensePie.Aggregate | client/src/components/ui/charts/ExpensePieChart.jsx:24-37 | the chart data has each category at most once |
| ExpensePie.AccumulateFind | client/src/components/ui/charts/ExpensePieChart.jsx:28 | a category's slice is opened at the end by its first expense and grows by each further one; other transactions leave it |
| ExpensePie.AccumulateUpdate | client/src/components/ui/charts/ExpensePieChart.jsx:28 | adding to an existing slice changes only that slice's value, by the expense's amount |
| ExpensePie.AggregateEntry | client/src/components/ui/charts/ExpensePieChart.jsx:25-36 | a category has a slice exactly when it has an expense, and the slice holds the sum of its expenses |
| ExpensePie.AccumulateSum | client/src/components/ui/charts/ExpensePieChart.jsx:28 | a step adds an expense's amount to the sum of the slices and nothing for an income |
| ExpensePie.SliceValues | client/src/components/ui/charts/ExpensePieChart.jsx:33-36 | every slice holds its category's expense sum and has at least one expense behind it |
| ExpensePie.CategoryTotalSnoc | client/src/components/ui/charts/ExpensePieChart.jsx:28 | one more transaction grows its category's expense total by its amount exactly when it is an expense |
| ExpensePie.SlicesSumToExpenseTotal | client/src/components/ui/charts/ExpensePieChart.jsx:24-37 | the slices' values add up to the total expense of the transactions |
| ExpensePie.TotalExpense | client/src/components/ui/charts/ExpensePieChart.jsx:39 | the pie's total is the total expense of the transactions, the dashboard's figure for the same list |
| ExpensePie.FirstExpense | client/src/components/ui/charts/ExpensePieChart.jsx:25-31 | the position found is that of the first expense of the category, or the length when it has none |
| ExpensePie.FirstExpenseFound | client/src/components/ui/charts/ExpensePieChart.jsx:25-31 | a category's first expense lies inside the list exactly when the category has an expense |
| ExpensePie.SlicesInFirstMetOrder | client/src/components/ui/charts/ExpensePieChart.jsx:24-37 | of two slices, the earlier belongs to the category whose first expense comes first |
| ExpensePie.EmptyExactlyWithoutExpenses | client/src/components/ui/charts/ExpensePieChart.jsx:70-79 | the chart data is empty, and the empty state shows, exactly when there is no expense |
| ExpensePie.NoZeroSlices | client/src/components/ui/charts/ExpensePieChart.jsx:25-36 | with positive amounts no slice has value zero |
| Sequences.Filter | client/src/components/ui/charts/TransactionTable.jsx:48-57 | `filter` keeps only passing elements and never lengthens |
| Sequences.FilterMembers | client/src/components/ui/charts/TransactionTable.jsx:48-57 | an element is kept exactly when it is in the input and passes |
| Sequences.FilterCommute | client/src/components/ui/charts/TransactionTable.jsx:54-57 | two successive filters may run in either order |
| Sequences.FilterFuse | client/src/components/ui/charts/TransactionTable.jsx:54-57 | two successive filters are one filter by the conjunction |
| Sorting.Sort | client/src/components/ui/charts/TransactionTable.jsx:60-75 | the sort returns a permutation of its input |
| Sorting.SortSorted | client/src/components/ui/charts/TransactionTable.jsx:60-75 | the sort's result is ordered by the key |
| Sorting.SortStable | client/src/components/ui/charts/TransactionTable.jsx:60-75 | elements with equal keys keep their input order |
| Sorting.SortIdempotent | client/src/components/ui/charts/TransactionTable.jsx:60-75 | sorting twice by one key is sorting once |
| Sorting.SortConstantKey | client/src/components/ui/charts/TransactionTable.jsx:72-73 | a comparator that always answers 0 leaves the order unchanged |
| Sorting.SortFilter | client/src/components/ui/charts/TransactionTable.jsx:60-75 | filtering the sorted list equals sorting the filtered list |
| TransactionTable.ParseSortOrder | client/src/components/ui/charts/TransactionTable.jsx:63-74 | each of the four option values selects its own order; any other value is unordered |
| TransactionTable.AddKey | client/src/components/ui/charts/TransactionTable.jsx:29-33 | adding a month to the descending month list keeps it descending and adds exactly that month |
| TransactionTable.DistinctKeys | client/src/components/ui/charts/TransactionTable.jsx:28-35 | the collected keys are strictly descending and are exactly the keys of the input |
| TransactionTable.DescendingUnique | client/src/components/ui/charts/TransactionTable.jsx:34 | two strictly descending lists with the same members are equal |
| TransactionTable.AvailableMonthsListing | client/src/components/ui/charts/TransactionTable.jsx:28-35 | the month options are each transaction's month exactly once, newest first, and the only such list |
| TransactionTable.AvailableMonths | client/src/components/ui/charts/TransactionTable.jsx:28-35 | the options are newest first without repeats; every transaction's month is one, and every option is some transaction's month |
| TransactionTable.StepsAreFilters | client/src/components/ui/charts/TransactionTable.jsx:42-57 | each filter step, "all" included, is a filter by its test |
| TransactionTable.SelectedIsConjunction | client/src/components/ui/charts/TransactionTable.jsx:42-57 | the three steps act as one filter by the conjunction of their tests |
| TransactionTable.StepsCommute | client/src/components/ui/charts/TransactionTable.jsx:42-57 | any two filter steps may run in either order |
| TransactionTable.SelectedMembers | client/src/components/ui/charts/TransactionTable.jsx:42-57 | a transaction is selected exactly when it is in the input and in the chosen month, type and category |
| TransactionTable.Rows | client/src/components/ui/charts/TransactionTable.jsx:38-77 | the rows are a permutation of the selected transactions |
| TransactionTable.RowsOrdered | client/src/components/ui/charts/TransactionTable.jsx:60-75 | the sort puts dates or amounts in the selected direction, and keeps the input order for an unknown order |
| TransactionTable.RowsOrderedBySelector | client/src/components/ui/charts/TransactionTable.jsx:60-75 | the rows are ordered as the sort selector says |
| TransactionTable.RowsMembers | client/src/components/ui/charts/TransactionTable.jsx:38-77 | a row is shown exactly when the transaction is in the input and matches the chosen month, type and category |
| TransactionTable.RowsStable | client/src/components/ui/charts/TransactionTable.jsx:60-75 | rows that tie under the chosen order keep their input order |
| TransactionTable.RowsResorted | client/src/components/ui/charts/TransactionTable.jsx:60-75 | sorting the rows again by the same order changes nothing |
| TransactionTable.OnTypeChange | client/src/components/ui/charts/TransactionTable.jsx:116-119 | a type change sets the type and resets the category to "all", keeping month and order |
| TransactionTable.TypeChangeShowsWholeType | client/src/components/ui/charts/TransactionTable.jsx:116-119 | after a type change every transaction of the month and type is shown, whatever category was chosen |
| TransactionTable.InitialShowsEverything | client/src/components/ui/charts/TransactionTable.jsx:22-25 | the initial table shows every transaction, newest first |
| TransactionForm.FirstCategory | client/src/components/ui/cards/TransactionForm.jsx:20-21 | the preselected category is one the type's list offers |
| TransactionForm.InitialForm | client/src/components/ui/cards/TransactionForm.jsx:8-14 | the form starts as an expense in an offered category with empty amount and description, dated by the UTC day of now |
| TransactionForm.InitialDateLagsEastOfUtc | client/src/components/ui/cards/TransactionForm.jsx:13 | east of UTC, early in a local day, the starting date is the previous day |
| TransactionForm.LocalInitialForm | client/src/components/ui/cards/TransactionForm.jsx:8-14 | the corrected starting form is dated by the local day of now |
| TransactionForm.LocalInitialFormInUtc | client/src/components/ui/cards/TransactionForm.jsx:13 | in UTC the corrected and the original starting forms agree |
| TransactionForm.SetType | client/src/components/ui/cards/TransactionForm.jsx:16-23 | a type switch sets the type and an offered category, keeping amount, description and date |
| TransactionForm.SetTypeIdempotent | client/src/components/ui/cards/TransactionForm.jsx:16-23 | switching to the same type twice is switching once |
| TransactionForm.PickCategory | client/src/components/ui/cards/TransactionForm.jsx:38-39 | picking a category changes only the category |
| TransactionForm.PickOfferedCategory | client/src/components/ui/cards/TransactionForm.jsx:38-39 | the form stays consistent exactly when the pick is one of the current type's options |
| TransactionForm.Submit | client/src/components/ui/cards/TransactionForm.jsx:25-35 | submit hands over the form unchanged, then clears amount and description and preselects an offered category, keeping type and date |
| TransactionForm.SubmitResets | client/src/components/ui/cards/TransactionForm.jsx:25-35 | the state after submit is a type switch to the same type with the texts cleared, and a second submit leaves it as it is |
| TransactionForm.TransitionsKeepConsistent | client/src/components/ui/cards/TransactionForm.jsx:8-39 | every transition keeps the shown category among the current type's options |
| TransactionsPage.HandleDelete | client/src/pages/Transactions.jsx:57-65 | declining requests nothing and keeps the list; a failed delete keeps it; a successful one leaves no row with that id |
| TransactionsPage.DeleteRemovesExactlyThatId | client/src/pages/Transactions.jsx:61 | after a successful delete a row is listed exactly when it was listed before and has another id |
| TransactionsPage.DeleteKeepsOtherRows | client/src/pages/Transactions.jsx:61 | rows with other ids keep their multiplicity |
| TransactionsPage.DeleteMatchesRefetch | client/src/pages/Transactions.jsx:59-61 | the locally updated list equals the list the server would now return, in the same order |
| TransactionsPage.DeleteCommutesWithListing | client/src/pages/Transactions.jsx:59-61 | removing an id from the sorted listing equals listing the store without it |
| TransactionsPage.OpenEdit | client/src/pages/Transactions.jsx:68-78 | the edit dialog opens on the id, copies type, amount, category and description, and dates the form by the UTC day of the stored instant |
| TransactionsPage.EditDateRoundTrip | client/src/pages/Transactions.jsx:74 | a date stored as midnight UTC of a day comes back as that day's text |
| TransactionsPage.AfterUpdate | client/src/pages/Transactions.jsx:81-91 | a successful update closes the dialog and forgets the id; a failure changes nothing |
| TransactionsPage.EditCycleCloses | client/src/pages/Transactions.jsx:68-91 | open then successful update ends closed with no id; a failed update keeps the id |
| RegisterPage.PreCheck | client/src/pages/Register.jsx:21-23 | the form is sent exactly when the username has at least 8 and the PIN at least 4 characters; the username message comes first |
| RegisterPage.InitialFormRefused | client/src/pages/Register.jsx:6-13 | the starting form has initial balance "1" and is refused for its empty username |
| RegisterPage.PreCheckNoStricterThanServer | client/src/pages/Register.jsx:21-23 | whatever the page refuses, the server would refuse with 400 too |
| RegisterPage.CreatedPassedPreCheck | client/src/pages/Register.jsx:21-26 | a registration the server accepts passed the page's checks |
| RegisterPage.LongUsernameReachesServer | client/src/pages/Register.jsx:21-26 | a 13-character username passes the page and is refused by the server |
| RegisterPage.LetterPinReachesServer | client/src/pages/Register.jsx:21-26 | a PIN of four letters passes the page and is refused by the server |

## Left out

- Persistence and transport: the store is a value and each handler returns the store it leaves. Express, the Mongo queries, `server/index.js` and concurrent requests are not modelled.
- Mongo's ObjectId cast is the parameter `isValidId`. A fresh `_id` is the parameter `newId`. Freshness is a precondition where a lemma needs it.
- Ids are compared as raw text. Mongo casts a valid 24-digit hex id to an ObjectId before comparing, so an upper-case spelling of a stored id finds that document; in the model it finds nothing (404 on delete, an empty listing, "User not found").
- bcrypt hashing and comparison are the parameters `hash` and `matches`. The random salt is not modelled.
- `Date.now()` and `new Date()` are parameters. Time zones are a fixed offset, so daylight-saving changes are not modelled. The server's `+07:00` string parse is replaced by the arithmetic `BangkokMidnight`.
- The handlers' 500 paths for a thrown store error are not modelled, except the schema refusals that the model itself decides: a NaN number, an unknown type, a category that trims to nothing, an over-long description, a date the cast refuses and an empty PIN hash. The login route's 500 path is not modelled.
- The `createdAt`/`updatedAt` timestamps the schemas add are not modelled.
- Amounts are integers. JavaScript floating-point sums and the pie chart's percentage formatting are not modelled.
- Dates on the client are integers. The `parseISO` of the server's date strings is not modelled.
- `toLowerCase` is modelled on ASCII letters only; other letters are left as they are. `trim` is the full ECMAScript trim: it removes WhiteSpace and LineTerminator characters, U+00A0, U+1680, U+2000 to U+200A, U+2028, U+2029, U+202F, U+205F, U+3000 and U+FEFF included. Lengths count characters, not UTF-16 units.
- `Number(...)` of a request field is a `NumInput` value: undefined, null, a number or non-numeric. The `date` of a creation request is a `DateInput` value: absent or falsy, a value the Date cast turns into an instant, or a value it refuses; which texts the cast accepts is not modelled. The page's text-to-number conversion is the parameter `number`.
- The user routes are not mounted in server/index.js:32-33. The model covers only the handler.
- Text fields of a request (`username`, `pin`, `firstName`, `lastName`, `category`, `description`) are `Option<string>`: absent or a string. A JSON number, boolean, array or object in such a field is not modelled. In the source a truthy non-string makes `username.trim()` (server/routes/authRoutes.js:21 and 92) or `firstName.trim()` (server/routes/userRoutes.js:25) throw a TypeError, and a numeric `pin` such as `123456` passes the `/^\d{4,6}$/` test but is refused by bcryptjs `hash`/`compare` (server/routes/authRoutes.js:54 and 99); each of these answers 500.
- No transaction update handler exists on the server. The update request of the edit dialog is an outcome parameter (`Succeeded`/`Failed`); only the dialog's state after it is modelled.
- TransactionTable.AvailableMonths: a month is a month index, not the "yyyy-MM" text. The text's `sort().reverse()` is newest-first only for four-digit years.
- TransactionTable.Rows: an unknown sort order leaves rows in input order. JavaScript guarantees this for a stable sort with a comparator that always returns 0.
- TransactionRoutes.ListTransactions: the order among transactions with equal dates is the stable sort's order. Mongo's `sort` does not specify it, so the contract states only the date order and the multiset.
- TransactionRoutes.RemoveFirst: `findByIdAndDelete` is modelled as removing the first match. The stronger statement that it removes every match holds only with unique ids (`RemoveFirstUnique`).
- ExpensePie.Aggregate: slices are in the order their categories are first met. `Object.keys` gives that order for non-numeric keys; a category that is an array index would be listed first in JavaScript, and the model does not reproduce this. The accumulator is a plain object, so a category named after an `Object.prototype` member behaves differently there: `constructor`, `toString` and the like start from the inherited function and give a concatenated string, and `__proto__` never becomes a key. The model treats every category name as an ordinary key.
- The category lists `EXPENSE_CATEGORIES` and `INCOME_CATEGORIES` are defined outside the files modelled. They are a `Catalog` parameter, assumed non-empty.
- The table's `onEdit` prop is ignored by the component, so it is not modelled.
- Session handling, the API client, login/profile local storage, the navigation bar, seeding, rendering, chart labels and tooltips are not modelled.
- The comparison chart's internal income/expense line toggle only changes which lines are drawn. It is not modelled.
- Dashboard.DashboardStats: `user.initialBalance || 0` is an integer parameter. An undefined or NaN initial balance is not modelled.

## Findings

| source | as written | input that shows it | evidently intended | confidence | as-written member | corrected member |
|---|---|---|---|---|---|---|
| client/src/components/ui/cards/TransactionForm.jsx:13 | the default date is `new Date().toISOString().split("T")[0]`, the UTC calendar day of now | a user at UTC+07:00 (the zone the server's day uses) opening the form at 01:00 local time gets the previous day's date | the local calendar day, as the rest of the client reads days with date-fns in the local zone | medium, not executed | TransactionForm.InitialForm, shown by TransactionForm.InitialDateLagsEastOfUtc | TransactionForm.LocalInitialForm, proved equal to the original in UTC by TransactionForm.LocalInitialFormInUtc |
