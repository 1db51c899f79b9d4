/** A stable sort by an integer key, the behaviour of
    `Array.prototype.sort` with a comparator `(a, b) => key(a) - key(b)`
    (the language requires that sort to be stable). */
module Sorting {
  import opened Sequences

  ghost predicate SortedBy<T>(s: seq<T>, key: T -> int)
  {
    forall i, j :: 0 <= i < j < |s| ==> key(s[i]) <= key(s[j])
  }

  /** The predicate `x => key(x) == k`. */
  function HasKey<T>(key: T -> int, k: int): T -> bool
  {
    (x: T) => key(x) == k
  }

  /** The elements whose key is `k`, in order. */
  function WithKey<T>(s: seq<T>, key: T -> int, k: int): seq<T>
  {
    Filter(s, HasKey(key, k))
  }

  /** Puts `x` after the last element whose key does not exceed `key(x)`. */
  function Insert<T>(s: seq<T>, x: T, key: T -> int): (r: seq<T>)
    ensures multiset(r) == multiset(s) + multiset{x}
  {
    if s == [] || key(s[|s| - 1]) <= key(x) then s + [x]
    else
      var init := s[..|s| - 1];
      assert s == init + [s[|s| - 1]];
      Insert(init, x, key) + [s[|s| - 1]]
  }

  /** Past a last element with a larger key, `Insert` goes on into the
      prefix. */
  lemma InsertPast<T>(s: seq<T>, x: T, key: T -> int)
    requires s != [] && key(x) < key(s[|s| - 1])
    ensures Insert(s, x, key) == Insert(s[..|s| - 1], x, key) + [s[|s| - 1]]
  {
  }

  /** A common bound on the keys of `s` and of `x` bounds the keys after
      inserting. */
  lemma InsertBounded<T>(s: seq<T>, x: T, key: T -> int, b: int)
    requires forall i :: 0 <= i < |s| ==> key(s[i]) <= b
    requires key(x) <= b
    ensures forall i :: 0 <= i < |Insert(s, x, key)| ==> key(Insert(s, x, key)[i]) <= b
  {
    var r := Insert(s, x, key);
    forall i | 0 <= i < |r|
      ensures key(r[i]) <= b
    {
      assert r[i] in multiset(r);
      assert r[i] in multiset(s) || r[i] == x;
      if r[i] != x {
        var j :| 0 <= j < |s| && s[j] == r[i];
      }
    }
  }

  /** A sorted sequence stays sorted when an element with a key at least
      every other key is appended. */
  lemma SortedSnoc<T>(s: seq<T>, y: T, key: T -> int)
    requires SortedBy(s, key)
    requires forall i :: 0 <= i < |s| ==> key(s[i]) <= key(y)
    ensures SortedBy(s + [y], key)
  {
  }

  /** Inserting into a sorted sequence keeps it sorted. */
  lemma {:induction false} InsertSorted<T>(s: seq<T>, x: T, key: T -> int)
    requires SortedBy(s, key)
    ensures SortedBy(Insert(s, x, key), key)
  {
    if s == [] || key(s[|s| - 1]) <= key(x) {
      SortedSnoc(s, x, key);
    } else {
      var init := s[..|s| - 1];
      var last := s[|s| - 1];
      assert SortedBy(init, key);
      assert forall i :: 0 <= i < |init| ==> key(init[i]) <= key(last);
      InsertSorted(init, x, key);
      InsertBounded(init, x, key, key(last));
      InsertPast(s, x, key);
      SortedSnoc(Insert(init, x, key), last, key);
    }
  }

  /** Insertion sort: sorts the prefix, then inserts the last element. The
      result is a permutation of the input; `SortSorted` shows it is
      ordered by key. */
  function Sort<T>(s: seq<T>, key: T -> int): (r: seq<T>)
    ensures multiset(r) == multiset(s)
    ensures |r| == |s|
  {
    if s == [] then []
    else
      var init := s[..|s| - 1];
      assert s == init + [s[|s| - 1]];
      assert |multiset(Insert(Sort(init, key), s[|s| - 1], key))| == |s|;
      Insert(Sort(init, key), s[|s| - 1], key)
  }

  /** The result of `Sort` is ordered by key. */
  lemma {:induction false} SortSorted<T>(s: seq<T>, key: T -> int)
    ensures SortedBy(Sort(s, key), key)
  {
    if s != [] {
      var init := s[..|s| - 1];
      SortSorted(init, key);
      InsertSorted(Sort(init, key), s[|s| - 1], key);
    }
  }

  /** Inserting `x` appends it to the elements of its own key and leaves
      the elements of every other key untouched. */
  lemma {:induction false} InsertStable<T>(s: seq<T>, x: T, key: T -> int, k: int)
    ensures WithKey(Insert(s, x, key), key, k)
         == WithKey(s, key, k) + (if key(x) == k then [x] else [])
  {
    var p := HasKey(key, k);
    FilterSingleton(x, p);
    if s == [] || key(s[|s| - 1]) <= key(x) {
      assert Insert(s, x, key) == s + [x];
      FilterAppend(s, [x], p);
    } else {
      var init := s[..|s| - 1];
      var last := s[|s| - 1];
      assert s == init + [last];
      assert Insert(s, x, key) == Insert(init, x, key) + [last];
      InsertStable(init, x, key, k);
      FilterSingleton(last, p);
      FilterAppend(Insert(init, x, key), [last], p);
      FilterAppend(init, [last], p);
    }
  }

  /** Stability: for every key, the elements with that key keep their
      input order. */
  lemma {:induction false} SortStable<T>(s: seq<T>, key: T -> int, k: int)
    ensures WithKey(Sort(s, key), key, k) == WithKey(s, key, k)
  {
    if s != [] {
      var init := s[..|s| - 1];
      var last := s[|s| - 1];
      assert s == init + [last];
      SortStable(init, key, k);
      InsertStable(Sort(init, key), last, key, k);
      FilterAppend(init, [last], HasKey(key, k));
    }
  }

  /** A sequence already in key order is left as it is. */
  lemma {:induction false} SortOfSorted<T>(s: seq<T>, key: T -> int)
    requires SortedBy(s, key)
    ensures Sort(s, key) == s
  {
    if s != [] {
      var init := s[..|s| - 1];
      var last := s[|s| - 1];
      assert s == init + [last];
      assert SortedBy(init, key);
      SortOfSorted(init, key);
      assert forall i :: 0 <= i < |init| ==> key(init[i]) <= key(last);
      InsertLargest(init, last, key);
    }
  }

  /** Sorting again by the same key changes nothing. */
  lemma SortIdempotent<T>(s: seq<T>, key: T -> int)
    ensures Sort(Sort(s, key), key) == Sort(s, key)
  {
    SortSorted(s, key);
    SortOfSorted(Sort(s, key), key);
  }

  /** With every key equal (the comparator that always answers 0) the
      order is left unchanged. */
  lemma SortConstantKey<T>(s: seq<T>, key: T -> int)
    requires forall x :: key(x) == 0
    ensures Sort(s, key) == s
  {
    SortOfSorted(s, key);
  }
  /** Dropping an element the filter rejects before or after inserting it
      gives the same selection. */
  lemma {:induction false} InsertFilterDrop<T>(s: seq<T>, x: T, key: T -> int, p: T -> bool)
    requires !p(x)
    ensures Filter(Insert(s, x, key), p) == Filter(s, p)
  {
    FilterSingleton(x, p);
    if s == [] || key(s[|s| - 1]) <= key(x) {
      FilterAppend(s, [x], p);
    } else {
      var init := s[..|s| - 1];
      var last := s[|s| - 1];
      assert s == init + [last];
      InsertFilterDrop(init, x, key, p);
      FilterAppend(Insert(init, x, key), [last], p);
      FilterAppend(init, [last], p);
    }
  }

  /** Inserting an element whose key bounds every other key appends it. */
  lemma InsertLargest<T>(s: seq<T>, x: T, key: T -> int)
    requires forall i :: 0 <= i < |s| ==> key(s[i]) <= key(x)
    ensures Insert(s, x, key) == s + [x]
  {
  }

  /** A bound on every key survives filtering. */
  lemma FilterBounded<T>(s: seq<T>, p: T -> bool, key: T -> int, b: int)
    requires forall i :: 0 <= i < |s| ==> key(s[i]) <= b
    ensures forall i :: 0 <= i < |Filter(s, p)| ==> key(Filter(s, p)[i]) <= b
  {
    forall i | 0 <= i < |Filter(s, p)|
      ensures key(Filter(s, p)[i]) <= b
    {
      FilterFrom(s, p, i);
    }
  }

  /** On a sorted sequence, inserting an element the filter keeps commutes
      with the filter. */
  lemma {:induction false} InsertFilterKeep<T>(s: seq<T>, x: T, key: T -> int, p: T -> bool)
    requires SortedBy(s, key)
    requires p(x)
    ensures Filter(Insert(s, x, key), p) == Insert(Filter(s, p), x, key)
  {
    FilterSingleton(x, p);
    if s == [] || key(s[|s| - 1]) <= key(x) {
      InsertLargest(s, x, key);
      FilterAppend(s, [x], p);
      FilterBounded(s, p, key, key(x));
      InsertLargest(Filter(s, p), x, key);
    } else {
      var init := s[..|s| - 1];
      var last := s[|s| - 1];
      assert s == init + [last];
      assert SortedBy(init, key);
      InsertFilterKeep(init, x, key, p);
      InsertAfter(init, x, key, p, last);
    }
  }

  /** The step of `InsertFilterKeep` past a last element whose key exceeds
      the inserted one. */
  lemma InsertAfter<T>(init: seq<T>, x: T, key: T -> int, p: T -> bool, last: T)
    requires key(x) < key(last)
    requires Filter(Insert(init, x, key), p) == Insert(Filter(init, p), x, key)
    ensures Filter(Insert(init + [last], x, key), p) == Insert(Filter(init + [last], p), x, key)
  {
    var s := init + [last];
    assert s[..|s| - 1] == init && s[|s| - 1] == last;
    InsertPast(s, x, key);
    FilterSingleton(last, p);
    FilterAppend(Insert(init, x, key), [last], p);
    FilterAppend(init, [last], p);
    if p(last) {
      var kept := Filter(init, p) + [last];
      assert Filter(s, p) == kept;
      assert kept[..|kept| - 1] == Filter(init, p) && kept[|kept| - 1] == last;
      InsertPast(kept, x, key);
    } else {
      assert Filter(s, p) == Filter(init, p);
    }
  }

  /** Filtering commutes with the stable sort: sorting then filtering is
      filtering then sorting. */
  lemma {:induction false} SortFilter<T>(s: seq<T>, key: T -> int, p: T -> bool)
    ensures Filter(Sort(s, key), p) == Sort(Filter(s, p), key)
  {
    if s != [] {
      var init := s[..|s| - 1];
      var last := s[|s| - 1];
      assert s == init + [last];
      SortFilter(init, key, p);
      FilterAppend(init, [last], p);
      FilterSingleton(last, p);
      if p(last) {
        var kept := Filter(init, p) + [last];
        assert Filter(s, p) == kept;
        assert kept[..|kept| - 1] == Filter(init, p);
        SortSorted(init, key);
        InsertFilterKeep(Sort(init, key), last, key, p);
      } else {
        assert Filter(s, p) == Filter(init, p);
        InsertFilterDrop(Sort(init, key), last, key, p);
      }
    }
  }
}
