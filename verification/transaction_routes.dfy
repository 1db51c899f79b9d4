/** The `/api/transactions` routes: the dashboard summary, the history
    listing, creation and deletion. The store is a value; a handler that
    writes returns the store it leaves behind. ObjectId validity is the
    parameter `isValidId` and the clock reading the parameter `now`. */
module TransactionRoutes {
  import opened Js
  import opened Text
  import opened Records
  import opened Sequences
  import opened Ledger
  import opened Sorting
  import opened Calendar
  import opened Http

  /** Bangkok's fixed offset, UTC+07:00. */
  const BangkokOffset: int := 7 * HOUR

  /** The most recent midnight on the Bangkok clock at or before `now`. */
  function BangkokMidnight(now: int): (r: int)
    ensures r <= now < r + DAY
    ensures (r + BangkokOffset) % DAY == 0
  {
    StartOfDay(now, BangkokOffset)
  }

  /** The predicate `t => t.user == userId`. */
  function OwnedBy(userId: string): Transaction -> bool
  {
    (t: Transaction) => t.user == userId
  }

  /** The predicate `t => t.date >= from` (no upper bound). */
  function DatedFrom(from: int): Transaction -> bool
  {
    (t: Transaction) => t.date >= from
  }

  function UserTransactions(db: Store, userId: string): seq<Transaction>
  {
    Filter(db.transactions, OwnedBy(userId))
  }

  /** Expense total of the transactions dated at or after `from`. */
  function SpentSince(s: seq<Transaction>, from: int): int
  {
    Total(Filter(s, DatedFrom(from)), Expense)
  }

  /** The figures of one user's summary: all-time totals, the balance they
      give, and the spending since `midnight` against the daily limit. */
  function DaySummary(u: User, mine: seq<Transaction>, midnight: int): (s: Summary)
    ensures s.totalIncome == Total(mine, Income)
    ensures s.totalExpenses == Total(mine, Expense)
    ensures s.balance == u.initialBalance + Net(mine)
    ensures s.dailyLimit == u.dailySpendingLimit
    ensures s.spentToday == SpentSince(mine, midnight)
    ensures s.remainingToday == s.dailyLimit - s.spentToday
  {
    var income := Total(mine, Income);
    var expense := Total(mine, Expense);
    var spent := SpentSince(mine, midnight);
    NetIsIncomeMinusExpense(mine);
    Summary(income, expense, u.initialBalance + income - expense,
            u.dailySpendingLimit, spent, u.dailySpendingLimit - spent)
  }

  /** `GET /summary/:userId`. A malformed id is refused with 400 and an
      unknown user with 404; otherwise the user's summary, where "today"
      starts at Bangkok midnight. */
  function GetSummary(db: Store, userId: string, isValidId: string -> bool, now: int): (r: Response)
    ensures !isValidId(userId) <==> r == Error(BAD_REQUEST, "Invalid user ID")
    ensures isValidId(userId) && FindUser(db.users, userId).None?
        <==> r == Error(NOT_FOUND, "User not found")
    ensures r.status == OK <==> isValidId(userId) && FindUser(db.users, userId).Some?
    ensures r.status == OK ==>
      r.body == SummaryBody(DaySummary(FindUser(db.users, userId).value,
                                       UserTransactions(db, userId), BangkokMidnight(now)))
  {
    if !isValidId(userId) then Error(BAD_REQUEST, "Invalid user ID")
    else match FindUser(db.users, userId)
      case None => Error(NOT_FOUND, "User not found")
      case Some(u) =>
        Response(OK, SummaryBody(DaySummary(u, UserTransactions(db, userId), BangkokMidnight(now))))
  }

  /** Every amount is at least 0, as the schema demands. */
  ghost predicate NonNegativeAmounts(s: seq<Transaction>)
  {
    forall i :: 0 <= i < |s| ==> s[i].amount >= 0
  }

  /** With non-negative amounts, the spending since any instant is between 0
      and the all-time expense total; the remaining allowance is negative
      exactly when that spending exceeds the limit. */
  lemma SpentTodayBounds(u: User, mine: seq<Transaction>, midnight: int)
    requires NonNegativeAmounts(mine)
    ensures var s := DaySummary(u, mine, midnight);
      && 0 <= s.spentToday <= s.totalExpenses
      && (s.remainingToday < 0 <==> s.spentToday > s.dailyLimit)
  {
    var early := (t: Transaction) => t.date < midnight;
    var all := (t: Transaction) => true;
    TotalSplit(mine, all, DatedFrom(midnight), early, Expense);
    FilterKeepsAll(mine, all);
    SelectionNonNegative(mine, early);
    SelectionNonNegative(mine, DatedFrom(midnight));
    NonNegativeTotal(Filter(mine, early), Expense);
    NonNegativeTotal(Filter(mine, DatedFrom(midnight)), Expense);
  }

  /** A selection of non-negative amounts has non-negative amounts. */
  lemma SelectionNonNegative(txs: seq<Transaction>, p: Transaction -> bool)
    requires NonNegativeAmounts(txs)
    ensures NonNegativeAmounts(Filter(txs, p))
  {
    var r := Filter(txs, p);
    forall i | 0 <= i < |r|
      ensures r[i].amount >= 0
    {
      FilterFrom(txs, p, i);
      var k :| 0 <= k < |txs| && txs[k] == r[i];
    }
  }

  /** In a valid store every user's transactions have non-negative amounts. */
  lemma StoredAmountsNonNegative(db: Store, userId: string)
    requires ValidStore(db)
    ensures NonNegativeAmounts(UserTransactions(db, userId))
  {
    var mine := UserTransactions(db, userId);
    forall i | 0 <= i < |mine|
      ensures mine[i].amount >= 0
    {
      FilterFrom(db.transactions, OwnedBy(userId), i);
      var k :| 0 <= k < |db.transactions| && db.transactions[k] == mine[i];
      assert ValidTransaction(db.transactions[k]);
    }
  }

  /** A total of non-negative amounts is non-negative. */
  lemma {:induction false} NonNegativeTotal(s: seq<Transaction>, kind: TxType)
    requires NonNegativeAmounts(s)
    ensures Total(s, kind) >= 0
  {
    if s != [] {
      TotalCons(s, kind);
      NonNegativeTotal(s[1..], kind);
    }
  }

  /** A type the user has no transaction of totals 0: the reduce's
      starting `{ income: 0, expense: 0 }` is kept. Without expenses
      nothing is spent today either. */
  lemma MissingTypeTotalsZero(u: User, mine: seq<Transaction>, midnight: int, kind: TxType)
    requires forall i :: 0 <= i < |mine| ==> mine[i].kind != kind
    ensures var s := DaySummary(u, mine, midnight);
      && (kind == Income ==> s.totalIncome == 0)
      && (kind == Expense ==> s.totalExpenses == 0 && s.spentToday == 0)
  {
    FilterDropsAll(mine, OfKind(kind));
    if kind == Expense {
      var recent := Filter(mine, DatedFrom(midnight));
      FilterBounded(mine, DatedFrom(midnight), (t: Transaction) => if t.kind == Expense then 1 else 0, 0);
      FilterDropsAll(recent, OfKind(Expense));
    }
  }

  /** Another user's transactions never change a user's summary. */
  lemma SummaryIgnoresOtherUsers(db: Store, t: Transaction, userId: string,
                                 isValidId: string -> bool, now: int)
    requires t.user != userId
    ensures GetSummary(db.(transactions := db.transactions + [t]), userId, isValidId, now)
         == GetSummary(db, userId, isValidId, now)
  {
    FilterAppend(db.transactions, [t], OwnedBy(userId));
    FilterSingleton(t, OwnedBy(userId));
    assert UserTransactions(db.(transactions := db.transactions + [t]), userId)
        == UserTransactions(db, userId);
  }

  /** Adding an expense dated at or after Bangkok midnight raises the
      amount spent today by exactly its amount, however far in the future
      its date lies: the window has no upper bound. */
  lemma {:induction false} FutureExpenseCountsToday(mine: seq<Transaction>, t: Transaction, now: int)
    requires t.kind == Expense && t.date >= BangkokMidnight(now)
    ensures SpentSince(mine + [t], BangkokMidnight(now)) == SpentSince(mine, BangkokMidnight(now)) + t.amount
  {
    var from := BangkokMidnight(now);
    FilterAppend(mine, [t], DatedFrom(from));
    FilterSingleton(t, DatedFrom(from));
    TotalAppend(Filter(mine, DatedFrom(from)), [t], Expense);
    TotalCons([t], Expense);
  }

  /** The order key of the listing: later dates first. */
  function NewestFirst(t: Transaction): int
  {
    -t.date
  }

  /** `GET /:userId`: the user's transactions, newest first. A malformed id
      is refused; an unknown user simply has no transactions. */
  function ListTransactions(db: Store, userId: string, isValidId: string -> bool): (r: Response)
    ensures !isValidId(userId) <==> r == Error(BAD_REQUEST, "Invalid user ID")
    ensures isValidId(userId) ==>
      && r.status == OK && r.body.TransactionsBody?
      && multiset(r.body.items) == multiset(UserTransactions(db, userId))
      && (forall i, j :: 0 <= i < j < |r.body.items| ==> r.body.items[i].date >= r.body.items[j].date)
  {
    if !isValidId(userId) then Error(BAD_REQUEST, "Invalid user ID")
    else
      var items := Sort(UserTransactions(db, userId), NewestFirst);
      SortSorted(UserTransactions(db, userId), NewestFirst);
      assert forall i, j :: 0 <= i < j < |items| ==> NewestFirst(items[i]) <= NewestFirst(items[j]);
      Response(OK, TransactionsBody(items))
  }

  /** A transaction is the user's exactly when the store holds it and it
      names the user as owner. */
  lemma UserTransactionsMembers(db: Store, userId: string, t: Transaction)
    ensures t in UserTransactions(db, userId) <==> t in db.transactions && t.user == userId
  {
    FilterMembers(db.transactions, OwnedBy(userId), t);
  }

  /** The listing holds exactly the user's transactions. */
  lemma ListingIsTheUsers(db: Store, userId: string, isValidId: string -> bool, t: Transaction)
    requires isValidId(userId)
    ensures t in ListTransactions(db, userId, isValidId).body.items
        <==> t in db.transactions && t.user == userId
  {
    var items := ListTransactions(db, userId, isValidId).body.items;
    var mine := UserTransactions(db, userId);
    assert multiset(items) == multiset(mine);
    assert t in items <==> t in multiset(items);
    assert t in mine <==> t in multiset(mine);
    UserTransactionsMembers(db, userId, t);
  }

  /** The `date` field of the request body as `date || Date.now()` and the
      schema's Date cast see it: absent or falsy (`undefined`, `null`, `0`,
      `""`), which takes the clock; a truthy value the cast turns into the
      instant `t` (a number of milliseconds, or a string the date parser
      reads, the epoch included); or a truthy value the cast refuses. */
  datatype DateInput = NoDate | DateAt(t: int) | BadDate

  /** The body of `POST /api/transactions`. */
  datatype CreateRequest = CreateRequest(
    userId: Option<string>,
    kind: Option<string>,
    category: Option<string>,
    amount: NumInput,
    date: DateInput,
    description: Option<string>)

  /** The document `Transaction.create` is asked to store, or `None` when
      the schema refuses it (an unknown type, a non-numeric or negative
      amount, a category that trims to nothing, an over-long description,
      an empty owner, a date the cast refuses). */
  function NewTransaction(req: CreateRequest, userId: string, newId: string, now: int): (r: Option<Transaction>)
    ensures r.Some? ==> ValidTransaction(r.value) && r.value.id == newId && r.value.user == userId
    ensures r.Some? <==>
      && ParseTxType(req.kind).Some?
      && ToNumber(req.amount).Some? && ToNumber(req.amount).value >= 0
      && Trim(OrElse(req.category, DefaultCategory)) != []
      && |OrElse(req.description, "")| <= DescriptionMaxLength
      && userId != ""
      && !req.date.BadDate?
  {
    var category := Trim(OrElse(req.category, DefaultCategory));
    var description := OrElse(req.description, "");
    var kind := ParseTxType(req.kind);
    var amount := ToNumber(req.amount);
    if kind.None? || amount.None? || req.date.BadDate? then None
    else if category == [] || |description| > DescriptionMaxLength || amount.value < 0 || userId == "" then None
    else
      var date := if req.date.DateAt? then req.date.t else now;
      Some(Transaction(newId, userId, kind.value, category, amount.value, date, description))
  }

  /** `POST /`. Checks the user id, then the amount; the rest of the
      validation is the schema's, whose failures surface as 500. On success
      the new transaction is appended to the store and echoed with 201. */
  function CreateTransaction(db: Store, req: CreateRequest, isValidId: string -> bool,
                             newId: string, now: int): (out: (Response, Store))
    ensures out.0.status in {CREATED, BAD_REQUEST, SERVER_ERROR}
    ensures var (r, db') := out;
      && (!Truthy(req.userId) || !isValidId(req.userId.value)
          ==> r == Error(BAD_REQUEST, "Valid user ID required") && db' == db)
      && (Truthy(req.userId) && isValidId(req.userId.value)
          && (!NumTruthy(req.amount) || (req.amount.Num? && req.amount.n <= 0))
          ==> r == Error(BAD_REQUEST, "Amount must be positive") && db' == db)
      && (Truthy(req.userId) && isValidId(req.userId.value)
          && NumTruthy(req.amount) && !(req.amount.Num? && req.amount.n <= 0)
          ==> && (r.status == CREATED <==> NewTransaction(req, req.userId.value, newId, now).Some?)
              && (r.status != CREATED ==> r == Error(SERVER_ERROR, "Error creating transaction")))
      && (r.status == CREATED <==> db' != db)
      && (r.status != CREATED ==> db' == db)
      && (r.status == CREATED ==>
            && r.body.TransactionBody?
            && db' == db.(transactions := db.transactions + [r.body.item])
            && ValidTransaction(r.body.item)
            && r.body.item.amount > 0
            && Some(r.body.item.user) == req.userId
            && r.body.item.id == newId
            && NewTransaction(req, req.userId.value, newId, now) == Some(r.body.item))
  {
    if !Truthy(req.userId) || !isValidId(req.userId.value) then
      (Error(BAD_REQUEST, "Valid user ID required"), db)
    else if !NumTruthy(req.amount) || (req.amount.Num? && req.amount.n <= 0) then
      (Error(BAD_REQUEST, "Amount must be positive"), db)
    else match NewTransaction(req, req.userId.value, newId, now)
      case None => (Error(SERVER_ERROR, "Error creating transaction"), db)
      case Some(t) =>
        assert |db.(transactions := db.transactions + [t]).transactions| != |db.transactions|;
        (Response(CREATED, TransactionBody(t)), db.(transactions := db.transactions + [t]))
  }

  /** Creation keeps the store valid when the new id is fresh: the appended
      document is schema-valid and its id collides with no stored one. */
  lemma CreatePreservesValidStore(db: Store, req: CreateRequest, isValidId: string -> bool,
                                  newId: string, now: int)
    requires ValidStore(db)
    requires forall i :: 0 <= i < |db.transactions| ==> db.transactions[i].id != newId
    ensures ValidStore(CreateTransaction(db, req, isValidId, newId, now).1)
  {
    var out := CreateTransaction(db, req, isValidId, newId, now);
    if out.0.status == CREATED {
      var t := out.0.body.item;
      assert out.1 == db.(transactions := db.transactions + [t]);
      AppendKeepsValid(db.transactions, t);
    }
  }

  /** Appending a valid document whose id is not yet taken keeps the
      collection valid. */
  lemma AppendKeepsValid(s: seq<Transaction>, t: Transaction)
    requires ValidTransactions(s) && ValidTransaction(t)
    requires forall i :: 0 <= i < |s| ==> s[i].id != t.id
    ensures ValidTransactions(s + [t])
  {
    var s' := s + [t];
    forall i, j | 0 <= i < j < |s'|
      ensures s'[i].id != s'[j].id
    {
      assert s'[i] == s[i];
      if j < |s| {
        assert s'[j] == s[j];
      }
    }
    forall i | 0 <= i < |s'|
      ensures ValidTransaction(s'[i])
    {
      if i < |s| {
        assert s'[i] == s[i];
      }
    }
  }

  /** The defaults of creation: a missing category becomes "Uncategorized",
      a missing description "", a missing or falsy date the current time;
      supplied values are kept, the category trimmed. */
  lemma CreateDefaults(req: CreateRequest, userId: string, newId: string, now: int)
    requires NewTransaction(req, userId, newId, now).Some?
    ensures var t := NewTransaction(req, userId, newId, now).value;
      && t.category == (if Truthy(req.category) then Trim(req.category.value) else DefaultCategory)
      && t.description == (if Truthy(req.description) then req.description.value else "")
      && t.date == (if req.date.DateAt? then req.date.t else now)
      && Some(t.kind) == ParseTxType(req.kind)
      && Some(t.amount) == ToNumber(req.amount)
  {
    StoredDocument(req, userId, newId, now);
    DefaultedCategory(req.category);
  }

  /** `category || "Uncategorized"`, trimmed: the trimmed value when one is
      given, the default otherwise. */
  lemma DefaultedCategory(category: Option<string>)
    ensures Trim(OrElse(category, DefaultCategory))
         == if Truthy(category) then Trim(category.value) else DefaultCategory
  {
    if !Truthy(category) {
      DefaultCategoryTrimmed();
    }
  }

  /** An accepted request stores the document assembled field by field. */
  lemma StoredDocument(req: CreateRequest, userId: string, newId: string, now: int)
    requires NewTransaction(req, userId, newId, now).Some?
    ensures NewTransaction(req, userId, newId, now).value
         == Transaction(newId, userId, ParseTxType(req.kind).value, Trim(OrElse(req.category, DefaultCategory)),
                        ToNumber(req.amount).value, if req.date.DateAt? then req.date.t else now,
                        OrElse(req.description, ""))
  {
  }

  /** The default category has no surrounding white space. */
  lemma DefaultCategoryTrimmed()
    ensures Trim(DefaultCategory) == DefaultCategory
  {
    TrimmedIsFixed(DefaultCategory);
  }

  /** A zero amount is refused. */
  lemma ZeroAmountRefused(db: Store, req: CreateRequest, isValidId: string -> bool, newId: string, now: int)
    requires Truthy(req.userId) && isValidId(req.userId.value)
    requires req.amount == Num(0)
    ensures CreateTransaction(db, req, isValidId, newId, now).0 == Error(BAD_REQUEST, "Amount must be positive")
  {
  }

  /** The predicate `t => t.id != id`. */
  function OtherThan(id: string): Transaction -> bool
  {
    (t: Transaction) => t.id != id
  }

  /** Removes the first transaction carrying `id` (`findByIdAndDelete`). */
  function RemoveFirst(s: seq<Transaction>, id: string): (r: seq<Transaction>)
    ensures (exists i :: 0 <= i < |s| && s[i].id == id) ==> |r| == |s| - 1
    ensures (forall i :: 0 <= i < |s| ==> s[i].id != id) ==> r == s
  {
    if s == [] then []
    else if s[0].id == id then s[1..]
    else [s[0]] + RemoveFirst(s[1..], id)
  }

  /** The position of the first transaction carrying `id`, or `|s|` when
      none does. */
  function FirstWithId(s: seq<Transaction>, id: string): (i: nat)
    ensures i <= |s|
    ensures i < |s| ==> s[i].id == id
    ensures forall k :: 0 <= k < i ==> s[k].id != id
  {
    if s == [] then 0
    else if s[0].id == id then 0
    else 1 + FirstWithId(s[1..], id)
  }

  /** Removing the first match cuts the sequence at that match: everything
      before it and everything after it stay, in order. */
  lemma {:induction false} RemoveFirstSplits(s: seq<Transaction>, id: string, i: nat)
    requires i < |s| && s[i].id == id
    requires forall k :: 0 <= k < i ==> s[k].id != id
    ensures RemoveFirst(s, id) == s[..i] + s[i+1..]
  {
    if i > 0 {
      RemoveFirstSplits(s[1..], id, i - 1);
      assert s[1..][..i-1] == s[1..i];
      assert s[1..][i..] == s[i+1..];
      assert [s[0]] + s[1..i] == s[..i];
    }
  }

  /** With unique ids, removing the first match removes every match and
      keeps the others in order. */
  lemma {:induction false} RemoveFirstUnique(s: seq<Transaction>, id: string)
    requires forall i, j :: 0 <= i < j < |s| ==> s[i].id != s[j].id
    ensures RemoveFirst(s, id) == Filter(s, OtherThan(id))
  {
    if s != [] {
      RemoveFirstUnique(s[1..], id);
      if s[0].id == id {
        FilterKeepsAll(s[1..], OtherThan(id));
      }
    }
  }

  function TxId(t: Transaction): string
  {
    t.id
  }

  /** `DELETE /:id`: 400 for a malformed id, 404 when no transaction has
      it, otherwise the first transaction with that id is cut out of the
      collection. Ownership is not checked. */
  function DeleteTransaction(db: Store, id: string, isValidId: string -> bool): (out: (Response, Store))
    ensures out.0.status in {OK, BAD_REQUEST, NOT_FOUND}
    ensures var (r, db') := out;
      && (!isValidId(id) <==> r == Error(BAD_REQUEST, "Invalid ID"))
      && (isValidId(id) && (forall i :: 0 <= i < |db.transactions| ==> db.transactions[i].id != id)
          <==> r == Error(NOT_FOUND, "Transaction not found"))
      && (r.status == OK <==>
            isValidId(id) && exists i :: 0 <= i < |db.transactions| && db.transactions[i].id == id)
      && (r.status != OK ==> db' == db)
      && (r.status == OK ==>
            && r == Reply(OK, "Deleted successfully")
            && db'.users == db.users
            && |db'.transactions| == |db.transactions| - 1
            && exists i :: 0 <= i < |db.transactions| && db.transactions[i].id == id
                 && (forall k :: 0 <= k < i ==> db.transactions[k].id != id)
                 && db'.transactions == db.transactions[..i] + db.transactions[i+1..])
  {
    if !isValidId(id) then (Error(BAD_REQUEST, "Invalid ID"), db)
    else if forall i :: 0 <= i < |db.transactions| ==> db.transactions[i].id != id then
      (Error(NOT_FOUND, "Transaction not found"), db)
    else
      var i := FirstWithId(db.transactions, id);
      RemoveFirstSplits(db.transactions, id, i);
      (Reply(OK, "Deleted successfully"), db.(transactions := RemoveFirst(db.transactions, id)))
  }

  /** In a valid store a successful delete leaves exactly the other
      transactions, in their order, and the store stays valid. */
  lemma DeleteKeepsOthers(db: Store, id: string, isValidId: string -> bool)
    requires ValidStore(db)
    requires DeleteTransaction(db, id, isValidId).0.status == OK
    ensures DeleteTransaction(db, id, isValidId).1.transactions
         == Filter(db.transactions, OtherThan(id))
    ensures ValidStore(DeleteTransaction(db, id, isValidId).1)
  {
    RemoveFirstUnique(db.transactions, id);
    assert DistinctBy(db.transactions, TxId);
    FilterDistinct(db.transactions, OtherThan(id), TxId);
    var rest := Filter(db.transactions, OtherThan(id));
    forall i | 0 <= i < |rest|
      ensures ValidTransaction(rest[i])
    {
      FilterFrom(db.transactions, OtherThan(id), i);
      var k :| 0 <= k < |db.transactions| && db.transactions[k] == rest[i];
    }
  }
}
