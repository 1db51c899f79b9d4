/** The expense pie chart: the expenses among the given transactions added
    up per category, one slice per category in the order the categories
    are first met, and the total the percentages are taken of. */
module ExpensePie {
  import opened Records
  import opened Sequences
  import opened Ledger

  /** One slice: a category and the sum of its expenses. */
  datatype Slice = Slice(name: string, value: int)

  /** The predicate "an expense of category `cat`". */
  function ExpenseIn(cat: string): Transaction -> bool
  {
    (t: Transaction) => t.kind == Expense && t.category == cat
  }

  /** Sum of the expenses of category `cat`. */
  function CategoryTotal(txs: seq<Transaction>, cat: string): int
  {
    SumOf(Filter(txs, ExpenseIn(cat)), Amount)
  }

  /** No two slices share a category. */
  ghost predicate DistinctNames(acc: seq<Slice>)
  {
    forall i, j :: 0 <= i < j < |acc| ==> acc[i].name != acc[j].name
  }

  /** Index of the slice for `name` (`acc[name]`), or -1 when there is none. */
  function Find(acc: seq<Slice>, name: string): (k: int)
    ensures -1 <= k < |acc|
    ensures k >= 0 ==> acc[k].name == name && forall i :: 0 <= i < k ==> acc[i].name != name
    ensures k < 0 ==> forall i :: 0 <= i < |acc| ==> acc[i].name != name
    decreases |acc|
  {
    if acc == [] then -1
    else if acc[|acc| - 1].name == name && Find(acc[..|acc| - 1], name) < 0 then |acc| - 1
    else Find(acc[..|acc| - 1], name)
  }

  /** Two slice lists with the same names at the same places find every
      name at the same place. */
  lemma FindSameNames(a: seq<Slice>, b: seq<Slice>, name: string)
    requires |a| == |b|
    requires forall i :: 0 <= i < |a| ==> a[i].name == b[i].name
    ensures Find(a, name) == Find(b, name)
  {
  }

  /** A slice appended after the others is found only by its own name, and
      only when no earlier slice has it. */
  lemma FindAppended(acc: seq<Slice>, s: Slice, name: string)
    ensures Find(acc + [s], name)
         == if Find(acc, name) >= 0 then Find(acc, name) else if s.name == name then |acc| else -1
  {
    assert (acc + [s])[..|acc|] == acc;
  }

  /** One step of the `reduce`: an expense adds its amount to its
      category's slice, opening the slice when the category is new; any
      other transaction leaves the slices as they are. */
  function Accumulate(acc: seq<Slice>, t: Transaction): (r: seq<Slice>)
    ensures t.kind != Expense ==> r == acc
    ensures DistinctNames(acc) ==> DistinctNames(r)
  {
    if t.kind != Expense then acc
    else
      var k := Find(acc, t.category);
      if k < 0 then acc + [Slice(t.category, t.amount)]
      else acc[k := Slice(acc[k].name, acc[k].value + t.amount)]
  }

  /** `chartData`: the slices after every transaction has been met, first
      to last. */
  function Aggregate(txs: seq<Transaction>): (r: seq<Slice>)
    ensures DistinctNames(r)
    decreases |txs|
  {
    if txs == [] then []
    else Accumulate(Aggregate(txs[..|txs| - 1]), txs[|txs| - 1])
  }

  /** Sum of the slices' values. */
  function SumValues(acc: seq<Slice>): int
  {
    if acc == [] then 0 else SumValues(acc[..|acc| - 1]) + acc[|acc| - 1].value
  }

  /** `totalExpense`: the sum of the slices' values, which is the total
      expense of the transactions. */
  function TotalExpense(txs: seq<Transaction>): (r: int)
    ensures r == Total(txs, Expense)
  {
    SlicesSumToExpenseTotal(txs);
    SumValues(Aggregate(txs))
  }

  /** The selection of a sequence with one more element at the end. */
  lemma FilterSnoc<T>(s: seq<T>, x: T, p: T -> bool)
    ensures Filter(s + [x], p) == Filter(s, p) + (if p(x) then [x] else [])
  {
    FilterAppend(s, [x], p);
    FilterSingleton(x, p);
  }

  /** A category's total grows by the amount of each of its expenses. */
  lemma CategoryTotalSnoc(txs: seq<Transaction>, t: Transaction, cat: string)
    ensures CategoryTotal(txs + [t], cat)
         == CategoryTotal(txs, cat) + (if ExpenseIn(cat)(t) then t.amount else 0)
    ensures Filter(txs + [t], ExpenseIn(cat)) == []
        <==> Filter(txs, ExpenseIn(cat)) == [] && !ExpenseIn(cat)(t)
  {
    FilterSnoc(txs, t, ExpenseIn(cat));
    SumOfAppend(Filter(txs, ExpenseIn(cat)), if ExpenseIn(cat)(t) then [t] else [], Amount);
  }

  /** One step seen from category `cat`: its slice is opened by its first
      expense, at the end, and grows by each further one; other categories'
      expenses and incomes leave it where it is. */
  lemma AccumulateFind(acc: seq<Slice>, t: Transaction, cat: string)
    ensures var k := Find(acc, cat);
      Find(Accumulate(acc, t), cat) == (if k < 0 && ExpenseIn(cat)(t) then |acc| else k)
    ensures var k := Find(acc, cat);
      var r := Accumulate(acc, t);
      Find(r, cat) >= 0 ==>
        r[Find(r, cat)].value == (if k >= 0 then acc[k].value else 0) + (if ExpenseIn(cat)(t) then t.amount else 0)
  {
    if t.kind == Expense {
      var j := Find(acc, t.category);
      if j < 0 {
        FindAppended(acc, Slice(t.category, t.amount), cat);
      } else {
        AccumulateUpdate(acc, t, j, cat);
      }
    }
  }

  /** The update branch of `AccumulateFind`: the slice found for the
      expense's category grows, the others stay. */
  lemma AccumulateUpdate(acc: seq<Slice>, t: Transaction, j: int, cat: string)
    requires t.kind == Expense && j == Find(acc, t.category) && j >= 0
    ensures Find(Accumulate(acc, t), cat) == Find(acc, cat)
    ensures var k := Find(acc, cat);
      k >= 0 ==> Accumulate(acc, t)[k].value == acc[k].value + (if cat == t.category then t.amount else 0)
  {
    var r := acc[j := Slice(acc[j].name, acc[j].value + t.amount)];
    assert Accumulate(acc, t) == r;
    assert forall i :: 0 <= i < |acc| ==> acc[i].name == r[i].name;
    FindSameNames(acc, r, cat);
  }

  /** A category has a slice exactly when some expense has that category,
      and its slice holds the sum of those expenses. */
  lemma {:induction false} AggregateEntry(txs: seq<Transaction>, cat: string)
    ensures Find(Aggregate(txs), cat) >= 0 <==> Filter(txs, ExpenseIn(cat)) != []
    ensures Find(Aggregate(txs), cat) >= 0
        ==> Aggregate(txs)[Find(Aggregate(txs), cat)].value == CategoryTotal(txs, cat)
    decreases |txs|
  {
    if txs != [] {
      var init := txs[..|txs| - 1];
      var t := txs[|txs| - 1];
      assert txs == init + [t];
      AggregateEntry(init, cat);
      CategoryTotalSnoc(init, t, cat);
      AccumulateFind(Aggregate(init), t, cat);
      if Find(Aggregate(init), cat) < 0 {
        assert CategoryTotal(init, cat) == 0;
      }
    }
  }

  /** One step adds an expense's amount to the slices' sum and leaves it
      unchanged for an income. */
  lemma AccumulateSum(acc: seq<Slice>, t: Transaction)
    ensures SumValues(Accumulate(acc, t)) == SumValues(acc) + (if t.kind == Expense then t.amount else 0)
  {
    if t.kind == Expense {
      var k := Find(acc, t.category);
      if k < 0 {
        assert (acc + [Slice(t.category, t.amount)])[..|acc|] == acc;
      } else {
        SumValuesUpdate(acc, k, Slice(acc[k].name, acc[k].value + t.amount));
      }
    }
  }

  /** Every slice holds the sum of its category's expenses, and it has at
      least one. */
  lemma SliceValues(txs: seq<Transaction>, i: int)
    requires 0 <= i < |Aggregate(txs)|
    ensures Aggregate(txs)[i].value == CategoryTotal(txs, Aggregate(txs)[i].name)
    ensures Filter(txs, ExpenseIn(Aggregate(txs)[i].name)) != []
  {
    var r := Aggregate(txs);
    AggregateEntry(txs, r[i].name);
    assert Find(r, r[i].name) == i;
  }

  /** Replacing one slice changes the sum by the change in that slice. */
  lemma {:induction false} SumValuesUpdate(acc: seq<Slice>, k: int, s: Slice)
    requires 0 <= k < |acc|
    ensures SumValues(acc[k := s]) == SumValues(acc) - acc[k].value + s.value
    decreases |acc|
  {
    var last := |acc| - 1;
    if k < last {
      assert acc[k := s][..last] == acc[..last][k := s];
      SumValuesUpdate(acc[..last], k, s);
    } else {
      assert acc[k := s][..last] == acc[..last];
    }
  }

  /** The slices add up to the total expense of the transactions: the
      total the pie shows is the dashboard's expense total for the same
      transactions. */
  lemma {:induction false} SlicesSumToExpenseTotal(txs: seq<Transaction>)
    ensures SumValues(Aggregate(txs)) == Total(txs, Expense)
    decreases |txs|
  {
    if txs != [] {
      var init := txs[..|txs| - 1];
      var t := txs[|txs| - 1];
      assert txs == init + [t];
      SlicesSumToExpenseTotal(init);
      TotalAppend(init, [t], Expense);
      assert Total([t], Expense) == if t.kind == Expense then t.amount else 0 by {
        TotalCons([t], Expense);
      }
      AccumulateSum(Aggregate(init), t);
    }
  }

  /** The chart is empty, and the "No expenses found" state shows, exactly
      when there is no expense among the transactions. */
  lemma EmptyExactlyWithoutExpenses(txs: seq<Transaction>)
    ensures Aggregate(txs) == [] <==> Filter(txs, OfKind(Expense)) == []
  {
    var r := Aggregate(txs);
    if r != [] {
      SliceValues(txs, 0);
      var e := Filter(txs, ExpenseIn(r[0].name));
      FilterFrom(txs, ExpenseIn(r[0].name), 0);
      FilterMembers(txs, OfKind(Expense), e[0]);
    } else if Filter(txs, OfKind(Expense)) != [] {
      var x := Filter(txs, OfKind(Expense))[0];
      FilterFrom(txs, OfKind(Expense), 0);
      FilterMembers(txs, ExpenseIn(x.category), x);
      AggregateEntry(txs, x.category);
    }
  }

  /** When every amount is positive, as the server's creation route
      ensures, no slice has value zero. */
  lemma NoZeroSlices(txs: seq<Transaction>, i: int)
    requires forall j :: 0 <= j < |txs| ==> txs[j].amount > 0
    requires 0 <= i < |Aggregate(txs)|
    ensures Aggregate(txs)[i].value > 0
  {
    var name := Aggregate(txs)[i].name;
    SliceValues(txs, i);
    PositiveSum(Filter(txs, ExpenseIn(name)), txs, ExpenseIn(name));
  }

  /** A non-empty selection of positive amounts has a positive sum. */
  lemma {:induction false} PositiveSum(s: seq<Transaction>, txs: seq<Transaction>, p: Transaction -> bool)
    requires forall j :: 0 <= j < |txs| ==> txs[j].amount > 0
    requires s == Filter(txs, p) && s != []
    ensures SumOf(s, Amount) > 0
  {
    assert forall j :: 0 <= j < |s| ==> s[j].amount > 0 by {
      forall j | 0 <= j < |s|
        ensures s[j].amount > 0
      {
        FilterFrom(txs, p, j);
      }
    }
    PositiveSumOf(s);
  }

  lemma {:induction false} PositiveSumOf(s: seq<Transaction>)
    requires forall j :: 0 <= j < |s| ==> s[j].amount > 0
    requires s != []
    ensures SumOf(s, Amount) > 0
    decreases |s|
  {
    if |s| > 1 {
      PositiveSumOf(s[1..]);
    }
  }

  /** Position of the first expense of category `cat`, or `|txs|` when
      there is none. */
  function FirstExpense(txs: seq<Transaction>, cat: string): (k: nat)
    ensures k <= |txs|
    ensures k < |txs| ==> ExpenseIn(cat)(txs[k])
    ensures forall j :: 0 <= j < k ==> !ExpenseIn(cat)(txs[j])
    decreases |txs|
  {
    if txs == [] then 0
    else
      var init := txs[..|txs| - 1];
      var k := FirstExpense(init, cat);
      assert forall j :: 0 <= j < |init| ==> init[j] == txs[j];
      if k < |init| || ExpenseIn(cat)(txs[|txs| - 1]) then k else |txs|
  }

  /** A category has an expense exactly when its first expense lies inside
      the sequence. */
  lemma FirstExpenseFound(txs: seq<Transaction>, cat: string)
    ensures FirstExpense(txs, cat) < |txs| <==> Filter(txs, ExpenseIn(cat)) != []
  {
    var k := FirstExpense(txs, cat);
    var p := ExpenseIn(cat);
    if k < |txs| {
      FilterMembers(txs, p, txs[k]);
    } else if Filter(txs, p) != [] {
      var x := Filter(txs, p)[0];
      FilterMembers(txs, p, x);
    }
  }

  /** The slices come in the order their categories are first met: the
      earlier of two slices belongs to the category whose first expense
      comes first. */
  lemma {:induction false} SlicesInFirstMetOrder(txs: seq<Transaction>, i: int, j: int)
    requires 0 <= i < j < |Aggregate(txs)|
    ensures FirstExpense(txs, Aggregate(txs)[i].name) < FirstExpense(txs, Aggregate(txs)[j].name)
    decreases |txs|
  {
    var init := txs[..|txs| - 1];
    var t := txs[|txs| - 1];
    var acc := Aggregate(init);
    var r := Aggregate(txs);
    assert r == Accumulate(acc, t);
    var a := r[i].name;
    var b := r[j].name;
    if j < |acc| {
      SameSlicesBefore(acc, t, j);
      SlicesInFirstMetOrder(init, i, j);
      SliceValues(init, j);
      FirstExpenseFound(init, b);
    } else {
      NewSliceAtEnd(acc, t, j);
      SameSlicesBefore(acc, t, i);
      SliceValues(init, i);
      FirstExpenseFound(init, a);
      AggregateEntry(init, b);
      FirstExpenseFound(init, b);
    }
  }

  /** A step keeps the names of the slices already there. */
  lemma SameSlicesBefore(acc: seq<Slice>, t: Transaction, i: int)
    requires 0 <= i < |acc|
    ensures i < |Accumulate(acc, t)| && Accumulate(acc, t)[i].name == acc[i].name
  {
  }

  /** A step that lengthens the slices adds one, at the end, for the
      expense's category, which had no slice before. */
  lemma NewSliceAtEnd(acc: seq<Slice>, t: Transaction, j: int)
    requires |acc| <= j < |Accumulate(acc, t)|
    ensures j == |acc| && t.kind == Expense
    ensures Accumulate(acc, t)[j].name == t.category && Find(acc, t.category) < 0
  {
  }
}
