/** Sums over lists of transactions: the per-type totals, the signed net
    and the balance every screen derives from them. */
module Ledger {
  import opened Records
  import opened Sequences

  function Amount(t: Transaction): int
  {
    t.amount
  }

  /** Contribution to a running balance: income adds its amount, any other
      type subtracts it. */
  function Signed(t: Transaction): int
  {
    if t.kind == Income then t.amount else -t.amount
  }

  /** The predicate `t => t.type === kind`. */
  function OfKind(kind: TxType): Transaction -> bool
  {
    (t: Transaction) => t.kind == kind
  }

  /** `s.filter(t => t.type === kind).reduce((acc, t) => acc + t.amount, 0)`. */
  function Total(s: seq<Transaction>, kind: TxType): int
  {
    SumOf(Filter(s, OfKind(kind)), Amount)
  }

  /** Net effect of the transactions on a balance. */
  function Net(s: seq<Transaction>): int
  {
    SumOf(s, Signed)
  }

  /** `(initialBalance || 0) + totalIncome - totalExpense`. */
  function Balance(initialBalance: int, s: seq<Transaction>): int
  {
    initialBalance + Total(s, Income) - Total(s, Expense)
  }

  /** Peels the first transaction off a total. */
  lemma TotalCons(s: seq<Transaction>, kind: TxType)
    requires s != []
    ensures Total(s, kind) == (if s[0].kind == kind then s[0].amount else 0) + Total(s[1..], kind)
  {
    var h := if s[0].kind == kind then [s[0]] else [];
    assert Filter(s, OfKind(kind)) == h + Filter(s[1..], OfKind(kind));
    SumOfAppend(h, Filter(s[1..], OfKind(kind)), Amount);
  }

  /** Applying each transaction's signed amount in turn ends where the
      income-minus-expense formula does. */
  lemma {:induction false} NetIsIncomeMinusExpense(s: seq<Transaction>)
    ensures Net(s) == Total(s, Income) - Total(s, Expense)
  {
    if s != [] {
      NetIsIncomeMinusExpense(s[1..]);
      TotalCons(s, Income);
      TotalCons(s, Expense);
    }
  }

  /** Income and expense partition the transactions: their totals add up
      to the sum of all amounts. */
  lemma {:induction false} TotalsPartition(s: seq<Transaction>)
    ensures Total(s, Income) + Total(s, Expense) == SumOf(s, Amount)
  {
    if s != [] {
      TotalsPartition(s[1..]);
      TotalCons(s, Income);
      TotalCons(s, Expense);
    }
  }

  lemma TotalAppend(a: seq<Transaction>, b: seq<Transaction>, kind: TxType)
    ensures Total(a + b, kind) == Total(a, kind) + Total(b, kind)
  {
    FilterAppend(a, b, OfKind(kind));
    SumOfAppend(Filter(a, OfKind(kind)), Filter(b, OfKind(kind)), Amount);
  }

  /** Totals do not depend on the order of the transactions. */
  lemma TotalPermutation(a: seq<Transaction>, b: seq<Transaction>, kind: TxType)
    requires multiset(a) == multiset(b)
    ensures Total(a, kind) == Total(b, kind)
  {
    FilterPermutation(a, b, OfKind(kind));
    SumOfPermutation(Filter(a, OfKind(kind)), Filter(b, OfKind(kind)), Amount);
  }

  /** Totals of a selection split like the selection does. */
  lemma TotalSplit(s: seq<Transaction>, p: Transaction -> bool, q: Transaction -> bool,
                   r: Transaction -> bool, kind: TxType)
    requires forall x :: p(x) <==> q(x) || r(x)
    requires forall x :: !(q(x) && r(x))
    ensures Total(Filter(s, p), kind) == Total(Filter(s, q), kind) + Total(Filter(s, r), kind)
  {
    FilterSplit(s, p, q, r);
    TotalPermutation(Filter(s, p), Filter(s, q) + Filter(s, r), kind);
    TotalAppend(Filter(s, q), Filter(s, r), kind);
  }
}
