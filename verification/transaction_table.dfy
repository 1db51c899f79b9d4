/** The transactions table: the months its month filter offers, and the
    rows it shows — the input narrowed by the month, type and category
    selectors, then ordered by the sort selector. The selectors start on
    "all", "all", "all" and newest first. */
module TransactionTable {
  import opened Records
  import opened Sequences
  import opened Sorting
  import opened Calendar
  import opened TimeFilters

  /** A filter selector: "all", or one chosen value. */
  datatype Choice<T> = All | Only(value: T)

  /** The sort selector's options; `Unordered` stands for any other value,
      which the comparator's `default` branch answers with 0. */
  datatype SortOrder = DateDesc | DateAsc | AmountDesc | AmountAsc | Unordered

  /** Reads the sort selector's option value. */
  function ParseSortOrder(s: string): (r: SortOrder)
    ensures r == DateDesc <==> s == "dateDesc"
    ensures r == DateAsc <==> s == "dateAsc"
    ensures r == AmountDesc <==> s == "amountDesc"
    ensures r == AmountAsc <==> s == "amountAsc"
  {
    if s == "dateDesc" then DateDesc
    else if s == "dateAsc" then DateAsc
    else if s == "amountDesc" then AmountDesc
    else if s == "amountAsc" then AmountAsc
    else Unordered
  }

  /** The four selectors; a month is a month index (see `Calendar`). */
  datatype TableState = TableState(
    month: Choice<int>,
    kind: Choice<TxType>,
    category: Choice<string>,
    order: SortOrder)

  const InitialTable: TableState := TableState(All, All, All, DateDesc)

  // ---------------------------------------------------------------------
  // The month selector's options

  /** Strictly decreasing: newest first, nothing twice. */
  predicate Descending(ms: seq<int>)
  {
    forall i, j :: 0 <= i < j < |ms| ==> ms[i] > ms[j]
  }

  /** Adds `m` to a descending list unless it is already there. */
  function AddKey(ms: seq<int>, m: int): (r: seq<int>)
    requires Descending(ms)
    ensures Descending(r)
    ensures forall x :: x in r <==> x in ms || x == m
  {
    if ms == [] then [m]
    else if m == ms[0] then ms
    else if m > ms[0] then [m] + ms
    else
      var rest := AddKey(ms[1..], m);
      assert forall i :: 0 <= i < |rest| ==> rest[i] in rest;
      assert forall x :: x in ms[1..] ==> x < ms[0];
      [ms[0]] + rest
  }

  /** The distinct keys of `s`, largest first: the keys gathered into a
      set, sorted and reversed. */
  function DistinctKeys<T>(s: seq<T>, key: T -> int): (r: seq<int>)
    ensures Descending(r)
    ensures forall m :: m in r <==> exists i :: 0 <= i < |s| && key(s[i]) == m
  {
    if s == [] then []
    else
      var init := s[..|s| - 1];
      var r := AddKey(DistinctKeys(init, key), key(s[|s| - 1]));
      assert forall i :: 0 <= i < |init| ==> init[i] == s[i];
      r
  }

  /** Lists with the same members are empty together. */
  lemma EmptyTogether(a: seq<int>, b: seq<int>)
    requires forall x :: x in a ==> x in b
    requires forall x :: x in b ==> x in a
    ensures a == [] <==> b == []
  {
    if a != [] {
      var y := a[0];
      assert y in a;
    }
    if b != [] {
      var y := b[0];
      assert y in b;
    }
  }

  /** Two descending lists with the same members are the same list: there
      is only one way to list a set of months newest first. */
  lemma {:induction false} DescendingUnique(a: seq<int>, b: seq<int>)
    requires Descending(a) && Descending(b)
    requires forall x :: x in a <==> x in b
    ensures a == b
    decreases |a|
  {
    EmptyTogether(a, b);
    if a != [] {
      assert a[0] in a && b[0] in b;
      assert a[0] in b;
      assert b[0] in a;
      assert a[0] == b[0] by {
        var i :| 0 <= i < |b| && b[i] == a[0];
        var j :| 0 <= j < |a| && a[j] == b[0];
      }
      forall x
        ensures x in a[1..] <==> x in b[1..]
      {
        if x in a[1..] {
          var i :| 1 <= i < |a| && a[i] == x;
          assert x in b && x != b[0];
        }
        if x in b[1..] {
          var i :| 1 <= i < |b| && b[i] == x;
          assert x in a && x != a[0];
        }
      }
      DescendingUnique(a[1..], b[1..]);
      assert a == [a[0]] + a[1..] && b == [b[0]] + b[1..];
    }
  }

  /** The local month of a transaction's date. */
  function MonthKey(offset: int): Transaction -> int
  {
    (t: Transaction) => MonthOf(t.date, offset)
  }

  /** `availableMonths`: each month some transaction falls in, exactly
      once, newest first. */
  function AvailableMonths(txs: seq<Transaction>, offset: int): (r: seq<int>)
    ensures Descending(r)
    ensures forall i :: 0 <= i < |txs| ==> MonthOf(txs[i].date, offset) in r
    ensures forall j :: 0 <= j < |r| ==> exists i :: 0 <= i < |txs| && MonthOf(txs[i].date, offset) == r[j]
  {
    var r := DistinctKeys(txs, MonthKey(offset));
    assert forall i :: 0 <= i < |txs| ==> MonthKey(offset)(txs[i]) == MonthOf(txs[i].date, offset);
    assert forall j :: 0 <= j < |r| ==> r[j] in r;
    r
  }

  /** The month options are exactly the months of the transactions, newest
      first without repeats, and they are the only such list. */
  lemma AvailableMonthsListing(txs: seq<Transaction>, offset: int, other: seq<int>)
    ensures Descending(AvailableMonths(txs, offset))
    ensures forall m ::
      m in AvailableMonths(txs, offset) <==> exists i :: 0 <= i < |txs| && MonthOf(txs[i].date, offset) == m
    ensures Descending(other) && (forall m :: m in other <==> m in AvailableMonths(txs, offset))
        ==> other == AvailableMonths(txs, offset)
  {
    var r := AvailableMonths(txs, offset);
    forall m
      ensures m in r <==> exists i :: 0 <= i < |txs| && MonthOf(txs[i].date, offset) == m
    {
      if m in r {
        var i :| 0 <= i < |txs| && MonthKey(offset)(txs[i]) == m;
      } else {
        forall i | 0 <= i < |txs|
          ensures MonthOf(txs[i].date, offset) != m
        {
          assert MonthKey(offset)(txs[i]) != m;
        }
      }
    }
    if Descending(other) && (forall m :: m in other <==> m in r) {
      DescendingUnique(other, r);
    }
  }

  // ---------------------------------------------------------------------
  // The three filters

  /** The first and last instants of month `mi`, both included. */
  function MonthBounds(mi: int, offset: int): Interval
  {
    Interval(MonthFirstInstant(mi, offset), MonthLastInstant(mi, offset))
  }

  /** The predicate of the month filter. */
  function InMonth(mi: int, offset: int): Transaction -> bool
  {
    (t: Transaction) => Within(t.date, MonthBounds(mi, offset))
  }

  /** The predicate of the type filter. */
  function OfType(kind: TxType): Transaction -> bool
  {
    (t: Transaction) => t.kind == kind
  }

  /** The predicate of the category filter. */
  function InCategory(category: string): Transaction -> bool
  {
    (t: Transaction) => t.category == category
  }

  /** Step 1, the month filter; "all" keeps everything. */
  function ByMonth(s: seq<Transaction>, month: Choice<int>, offset: int): seq<Transaction>
  {
    match month
    case All => s
    case Only(mi) => Filter(s, InMonth(mi, offset))
  }

  /** Step 2a, the type filter; "all" keeps everything. */
  function ByType(s: seq<Transaction>, kind: Choice<TxType>): seq<Transaction>
  {
    match kind
    case All => s
    case Only(k) => Filter(s, OfType(k))
  }

  /** Step 2b, the category filter; "all" keeps everything. */
  function ByCategory(s: seq<Transaction>, category: Choice<string>): seq<Transaction>
  {
    match category
    case All => s
    case Only(c) => Filter(s, InCategory(c))
  }

  /** The transactions the selectors keep, in input order. */
  function Selected(txs: seq<Transaction>, st: TableState, offset: int): seq<Transaction>
  {
    ByCategory(ByType(ByMonth(txs, st.month, offset), st.kind), st.category)
  }

  /** What the selectors accept together: each selector's own test, or
      anything when it is "all". */
  function Accepts(st: TableState, offset: int): Transaction -> bool
  {
    (t: Transaction) =>
      && (st.month.All? || Within(t.date, MonthBounds(st.month.value, offset)))
      && (st.kind.All? || t.kind == st.kind.value)
      && (st.category.All? || t.category == st.category.value)
  }

  /** The predicate a filter step applies, "all" accepting everything. */
  function MonthTest(month: Choice<int>, offset: int): Transaction -> bool
  {
    if month.All? then (t: Transaction) => true else InMonth(month.value, offset)
  }

  function TypeTest(kind: Choice<TxType>): Transaction -> bool
  {
    if kind.All? then (t: Transaction) => true else OfType(kind.value)
  }

  function CategoryTest(category: Choice<string>): Transaction -> bool
  {
    if category.All? then (t: Transaction) => true else InCategory(category.value)
  }

  /** Every step is a filter by its test, "all" included. */
  lemma StepsAreFilters(s: seq<Transaction>, st: TableState, offset: int)
    ensures ByMonth(s, st.month, offset) == Filter(s, MonthTest(st.month, offset))
    ensures ByType(s, st.kind) == Filter(s, TypeTest(st.kind))
    ensures ByCategory(s, st.category) == Filter(s, CategoryTest(st.category))
  {
    var yes := (t: Transaction) => true;
    FilterKeepsAll(s, yes);
  }

  /** The conjunction of the three tests is `Accepts`. */
  lemma ConjunctionAccepts(st: TableState, offset: int)
    ensures forall t :: Both(Both(MonthTest(st.month, offset), TypeTest(st.kind)), CategoryTest(st.category))(t)
                     == Accepts(st, offset)(t)
  {
  }

  /** The three filters act as one filter by their conjunction. */
  lemma SelectedIsConjunction(txs: seq<Transaction>, st: TableState, offset: int)
    ensures Selected(txs, st, offset) == Filter(txs, Accepts(st, offset))
  {
    var m := MonthTest(st.month, offset);
    var k := TypeTest(st.kind);
    var c := CategoryTest(st.category);
    var s1 := ByMonth(txs, st.month, offset);
    StepsAreFilters(txs, st, offset);
    assert s1 == Filter(txs, m);
    var s2 := ByType(s1, st.kind);
    StepsAreFilters(s1, st, offset);
    assert s2 == Filter(s1, k);
    StepsAreFilters(s2, st, offset);
    assert Selected(txs, st, offset) == Filter(s2, c);
    FilterFuse(txs, m, k);
    FilterFuse(txs, Both(m, k), c);
    ConjunctionAccepts(st, offset);
    FilterCongruent(txs, Both(Both(m, k), c), Accepts(st, offset));
  }

  /** The filters may run in any order: each pair of steps commutes. */
  lemma StepsCommute(s: seq<Transaction>, st: TableState, offset: int)
    ensures ByType(ByMonth(s, st.month, offset), st.kind) == ByMonth(ByType(s, st.kind), st.month, offset)
    ensures ByCategory(ByMonth(s, st.month, offset), st.category) == ByMonth(ByCategory(s, st.category), st.month, offset)
    ensures ByCategory(ByType(s, st.kind), st.category) == ByType(ByCategory(s, st.category), st.kind)
  {
    var m := MonthTest(st.month, offset);
    var k := TypeTest(st.kind);
    var c := CategoryTest(st.category);
    StepsAreFilters(s, st, offset);
    StepsAreFilters(Filter(s, m), st, offset);
    StepsAreFilters(Filter(s, k), st, offset);
    StepsAreFilters(Filter(s, c), st, offset);
    FilterCommute(s, m, k);
    FilterCommute(s, m, c);
    FilterCommute(s, k, c);
  }

  /** A transaction is kept exactly when it is in the input, in the chosen
      local month, of the chosen type and of the chosen category. */
  lemma SelectedMembers(txs: seq<Transaction>, st: TableState, offset: int, t: Transaction)
    ensures t in Selected(txs, st, offset)
        <==> && t in txs
             && (st.month.All? || MonthOf(t.date, offset) == st.month.value)
             && (st.kind.All? || t.kind == st.kind.value)
             && (st.category.All? || t.category == st.category.value)
  {
    SelectedIsConjunction(txs, st, offset);
    FilterMembers(txs, Accepts(st, offset), t);
    if st.month.Only? {
      InMonthBounds(t.date, st.month.value, offset);
    }
  }

  // ---------------------------------------------------------------------
  // Sorting

  /** The comparator as a key: `b - a` on dates or amounts is ascending
      order of the negated value. Any other selector compares everything
      equal. */
  function Rank(order: SortOrder): Transaction -> int
  {
    match order
    case DateDesc => (t: Transaction) => -t.date
    case DateAsc => (t: Transaction) => t.date
    case AmountDesc => (t: Transaction) => -t.amount
    case AmountAsc => (t: Transaction) => t.amount
    case Unordered => (t: Transaction) => 0
  }

  /** `filteredTransactions`: the selected transactions, stably sorted by
      the chosen order. */
  function Rows(txs: seq<Transaction>, st: TableState, offset: int): (r: seq<Transaction>)
    ensures multiset(r) == multiset(Selected(txs, st, offset))
  {
    Sort(Selected(txs, st, offset), Rank(st.order))
  }

  /** The rows are ordered as the sort selector says, a permutation of
      the selection, and in input order for an unknown selector. */
  lemma RowsOrdered(s: seq<Transaction>, order: SortOrder)
    ensures var r := Sort(s, Rank(order));
      && multiset(r) == multiset(s)
      && (order == DateDesc ==> forall i, j :: 0 <= i < j < |r| ==> r[i].date >= r[j].date)
      && (order == DateAsc ==> forall i, j :: 0 <= i < j < |r| ==> r[i].date <= r[j].date)
      && (order == AmountDesc ==> forall i, j :: 0 <= i < j < |r| ==> r[i].amount >= r[j].amount)
      && (order == AmountAsc ==> forall i, j :: 0 <= i < j < |r| ==> r[i].amount <= r[j].amount)
      && (order == Unordered ==> r == s)
  {
    var r := Sort(s, Rank(order));
    SortSorted(s, Rank(order));
    assert forall i, j :: 0 <= i < j < |r| ==> Rank(order)(r[i]) <= Rank(order)(r[j]);
    if order == Unordered {
      SortConstantKey(s, Rank(order));
    }
  }

  /** The table's rows, in the selector's order. */
  lemma RowsOrderedBySelector(txs: seq<Transaction>, st: TableState, offset: int)
    ensures var r := Rows(txs, st, offset);
      && (st.order == DateDesc ==> forall i, j :: 0 <= i < j < |r| ==> r[i].date >= r[j].date)
      && (st.order == DateAsc ==> forall i, j :: 0 <= i < j < |r| ==> r[i].date <= r[j].date)
      && (st.order == AmountDesc ==> forall i, j :: 0 <= i < j < |r| ==> r[i].amount >= r[j].amount)
      && (st.order == AmountAsc ==> forall i, j :: 0 <= i < j < |r| ==> r[i].amount <= r[j].amount)
      && (st.order == Unordered ==> r == Selected(txs, st, offset))
  {
    RowsOrdered(Selected(txs, st, offset), st.order);
  }

  /** A row is shown exactly when the selectors keep it. */
  lemma RowsMembers(txs: seq<Transaction>, st: TableState, offset: int, t: Transaction)
    ensures t in Rows(txs, st, offset)
        <==> && t in txs
             && (st.month.All? || MonthOf(t.date, offset) == st.month.value)
             && (st.kind.All? || t.kind == st.kind.value)
             && (st.category.All? || t.category == st.category.value)
  {
    SelectedMembers(txs, st, offset, t);
    assert t in Rows(txs, st, offset) <==> t in multiset(Rows(txs, st, offset));
  }

  /** Stability: rows that tie under the chosen order keep their input
      order. */
  lemma RowsStable(txs: seq<Transaction>, st: TableState, offset: int, k: int)
    ensures WithKey(Rows(txs, st, offset), Rank(st.order), k)
         == WithKey(Selected(txs, st, offset), Rank(st.order), k)
  {
    SortStable(Selected(txs, st, offset), Rank(st.order), k);
  }

  /** Sorting the rows again by the same order changes nothing. */
  lemma RowsResorted(txs: seq<Transaction>, st: TableState, offset: int)
    ensures Sort(Rows(txs, st, offset), Rank(st.order)) == Rows(txs, st, offset)
  {
    SortIdempotent(Selected(txs, st, offset), Rank(st.order));
  }

  // ---------------------------------------------------------------------
  // Selector changes

  /** The type selector's change handler: sets the type and puts the
      category back to "all"; the month and the order stay. */
  function OnTypeChange(st: TableState, kind: Choice<TxType>): (r: TableState)
    ensures r.kind == kind && r.category == All
    ensures r.month == st.month && r.order == st.order
  {
    st.(kind := kind, category := All)
  }

  /** After a type change the table shows every transaction of the chosen
      month and type, whatever category was chosen before. */
  lemma TypeChangeShowsWholeType(txs: seq<Transaction>, st: TableState, kind: Choice<TxType>,
                                 offset: int, t: Transaction)
    ensures t in Rows(txs, OnTypeChange(st, kind), offset)
        <==> && t in txs
             && (st.month.All? || MonthOf(t.date, offset) == st.month.value)
             && (kind.All? || t.kind == kind.value)
  {
    RowsMembers(txs, OnTypeChange(st, kind), offset, t);
  }

  /** The initial table lists every transaction, newest first. */
  lemma InitialShowsEverything(txs: seq<Transaction>, offset: int)
    ensures multiset(Rows(txs, InitialTable, offset)) == multiset(txs)
    ensures var r := Rows(txs, InitialTable, offset);
      forall i, j :: 0 <= i < j < |r| ==> r[i].date >= r[j].date
  {
    RowsOrderedBySelector(txs, InitialTable, offset);
  }
}
