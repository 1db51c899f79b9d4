/** Sums over the elements whose integer key falls in a range, and the
    running sums a day-by-day chart draws. The key is left abstract here
    (the charts use the local day of a transaction's date), so the proofs
    see only comparisons of keys. */
module KeyRanges {
  import opened Sequences
  import opened Sorting

  /** The predicate `x => lo <= key(x) <= hi`. */
  function KeyIn<T>(key: T -> int, lo: int, hi: int): T -> bool
  {
    (x: T) => lo <= key(x) <= hi
  }

  /** The predicate `x => key(x) < k`. */
  function KeyBelow<T>(key: T -> int, k: int): T -> bool
  {
    (x: T) => key(x) < k
  }

  /** The predicate `x => key(x) <= k`. */
  function KeyAtMost<T>(key: T -> int, k: int): T -> bool
  {
    (x: T) => key(x) <= k
  }

  /** Sum of `f` over the elements whose key lies in `[lo, hi]`. */
  function RangeSum<T>(s: seq<T>, f: T -> int, key: T -> int, lo: int, hi: int): int
  {
    SumOf(Filter(s, KeyIn(key, lo, hi)), f)
  }

  /** Sum of `f` over the elements with key `k`. */
  function KeySum<T>(s: seq<T>, f: T -> int, key: T -> int, k: int): int
  {
    SumOf(Filter(s, HasKey(key, k)), f)
  }

  /** A one-key range is that key. */
  lemma RangeSumSingle<T>(s: seq<T>, f: T -> int, key: T -> int, k: int)
    ensures RangeSum(s, f, key, k, k) == KeySum(s, f, key, k)
  {
    FilterCongruent(s, KeyIn(key, k, k), HasKey(key, k));
  }

  /** A range sum splits off its lowest key. */
  lemma RangeSumFirst<T>(s: seq<T>, f: T -> int, key: T -> int, lo: int, hi: int)
    requires lo <= hi
    ensures RangeSum(s, f, key, lo, hi) == KeySum(s, f, key, lo) + RangeSum(s, f, key, lo + 1, hi)
  {
    SumOfSplit(s, KeyIn(key, lo, hi), HasKey(key, lo), KeyIn(key, lo + 1, hi), f);
  }

  /** A range sum splits off its highest key. */
  lemma RangeSumLast<T>(s: seq<T>, f: T -> int, key: T -> int, lo: int, hi: int)
    requires lo <= hi
    ensures RangeSum(s, f, key, lo, hi) == RangeSum(s, f, key, lo, hi - 1) + KeySum(s, f, key, hi)
  {
    SumOfSplit(s, KeyIn(key, lo, hi), KeyIn(key, lo, hi - 1), HasKey(key, hi), f);
  }

  /** Everything up to `hi` is everything below `lo` plus the range. */
  lemma AtMostSplit<T>(s: seq<T>, f: T -> int, key: T -> int, lo: int, hi: int)
    requires lo <= hi + 1
    ensures SumOf(Filter(s, KeyAtMost(key, hi)), f)
         == SumOf(Filter(s, KeyBelow(key, lo)), f) + RangeSum(s, f, key, lo, hi)
  {
    SumOfSplit(s, KeyAtMost(key, hi), KeyBelow(key, lo), KeyIn(key, lo, hi), f);
  }

  /** Everything up to `k` is everything up to `k - 1` plus key `k`. */
  lemma AtMostStep<T>(s: seq<T>, f: T -> int, key: T -> int, k: int)
    ensures SumOf(Filter(s, KeyAtMost(key, k)), f)
         == SumOf(Filter(s, KeyAtMost(key, k - 1)), f) + KeySum(s, f, key, k)
  {
    SumOfSplit(s, KeyAtMost(key, k), KeyAtMost(key, k - 1), HasKey(key, k), f);
  }

  /** Everything below `k` is everything up to `k - 1`. */
  lemma BelowIsAtMostPrevious<T>(s: seq<T>, f: T -> int, key: T -> int, k: int)
    ensures SumOf(Filter(s, KeyBelow(key, k)), f) == SumOf(Filter(s, KeyAtMost(key, k - 1)), f)
  {
    FilterCongruent(s, KeyBelow(key, k), KeyAtMost(key, k - 1));
  }

  /** Sum of the per-key sums over `count` keys from `lo`. */
  function KeySums<T>(s: seq<T>, f: T -> int, key: T -> int, lo: int, count: nat): (r: seq<int>)
    ensures |r| == count
    ensures forall i :: 0 <= i < count ==> r[i] == KeySum(s, f, key, lo + i)
    decreases count
  {
    if count == 0 then [] else [KeySum(s, f, key, lo)] + KeySums(s, f, key, lo + 1, count - 1)
  }

  /** Sum of a sequence of integers. */
  function Sum(xs: seq<int>): int
  {
    if xs == [] then 0 else xs[0] + Sum(xs[1..])
  }

  /** Adding up the per-key sums of consecutive keys gives the range sum. */
  lemma {:induction false} KeySumsAddUp<T>(s: seq<T>, f: T -> int, key: T -> int, lo: int, count: nat)
    decreases count
    ensures Sum(KeySums(s, f, key, lo, count)) == RangeSum(s, f, key, lo, lo + count - 1)
  {
    if count == 0 {
      FilterDropsAll(s, KeyIn(key, lo, lo - 1));
    } else {
      var hi := lo + count - 1;
      var xs := KeySums(s, f, key, lo, count);
      var rest := KeySums(s, f, key, lo + 1, count - 1);
      assert xs[1..] == rest;
      KeySumsAddUp(s, f, key, lo + 1, count - 1);
      assert Sum(rest) == RangeSum(s, f, key, lo + 1, hi);
      RangeSumFirst(s, f, key, lo, hi);
      assert Sum(xs) == KeySum(s, f, key, lo) + Sum(rest);
    }
  }

  /** A sum of a selection is unchanged by reordering the input. */
  lemma RangeSumPermutation<T>(a: seq<T>, b: seq<T>, f: T -> int, p: T -> bool)
    requires multiset(a) == multiset(b)
    ensures SumOf(Filter(a, p), f) == SumOf(Filter(b, p), f)
  {
    FilterPermutation(a, b, p);
    SumOfPermutation(Filter(a, p), Filter(b, p), f);
  }

  /** Running totals by key from `first`: starting from `running`, the sum
      over every key below `first`, each of `count` keys adds its own sum
      and the total is recorded. Entry `i` is the sum over every key up to
      `first + i`. */
  method RunningTotals<T>(s: seq<T>, f: T -> int, key: T -> int, running: int, first: int, count: nat)
    returns (totals: seq<int>)
    requires running == SumOf(Filter(s, KeyAtMost(key, first - 1)), f)
    ensures |totals| == count
    ensures forall i :: 0 <= i < count ==> totals[i] == SumOf(Filter(s, KeyAtMost(key, first + i)), f)
  {
    var total := running;
    totals := [];
    var n := 0;
    while n < count
      invariant n == |totals| <= count
      invariant total == SumOf(Filter(s, KeyAtMost(key, first + n - 1)), f)
      invariant forall i :: 0 <= i < n ==> totals[i] == SumOf(Filter(s, KeyAtMost(key, first + i)), f)
    {
      AtMostStep(s, f, key, first + n);
      total := total + KeySum(s, f, key, first + n);
      totals := totals + [total];
      n := n + 1;
    }
  }
}
