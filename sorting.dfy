/** Python's stable sort by a key (`list.sort(key=…)`, `sorted(…, key=…)`),
    as an insertion sort that files each element after every earlier one
    whose key is not larger. A descending sort (`reverse=True`) is the
    stable ascending sort on the negated key. */
module Sorting {
  import opened Ranking

  predicate SortedBy<T>(s: seq<T>, key: T -> Rank) {
    forall i, j | 0 <= i < j < |s| :: !Below(key(s[j]), key(s[i]))
  }

  /** Files `x` into the sorted `s` after every element whose key is not
      larger than `key(x)`. */
  function InsertBy<T>(x: T, s: seq<T>, key: T -> Rank): (r: seq<T>)
    ensures |r| == |s| + 1
    ensures multiset(r) == multiset(s) + multiset{x}
  {
    if s == [] then [x]
    else
      assert s == s[..|s| - 1] + [s[|s| - 1]];
      if Below(key(x), key(s[|s| - 1])) then InsertBy(x, s[..|s| - 1], key) + [s[|s| - 1]]
      else s + [x]
  }

  function SortBy<T>(xs: seq<T>, key: T -> Rank): (r: seq<T>)
    ensures |r| == |xs|
    ensures multiset(r) == multiset(xs)
  {
    if xs == [] then []
    else
      assert xs == xs[..|xs| - 1] + [xs[|xs| - 1]];
      InsertBy(xs[|xs| - 1], SortBy(xs[..|xs| - 1], key), key)
  }

  function Keys<T>(xs: seq<T>, key: T -> Rank): (ks: seq<Rank>)
    ensures |ks| == |xs|
    ensures forall i | 0 <= i < |xs| :: ks[i] == key(xs[i])
  {
    seq(|xs|, i requires 0 <= i < |xs| => key(xs[i]))
  }

  /** Filing an element in keeps every key under a common upper bound. */
  lemma {:induction false} InsertBounded<T>(x: T, s: seq<T>, key: T -> Rank, b: Rank)
    requires !Below(b, key(x))
    requires forall i | 0 <= i < |s| :: !Below(b, key(s[i]))
    ensures forall i | 0 <= i < |s| + 1 :: !Below(b, key(InsertBy(x, s, key)[i]))
    decreases |s|
  {
    if s != [] && Below(key(x), key(s[|s| - 1])) {
      InsertBounded(x, s[..|s| - 1], key, b);
    }
  }

  /** Filing an element into a sorted list keeps it sorted. */
  lemma {:induction false} InsertSorted<T>(x: T, s: seq<T>, key: T -> Rank)
    requires SortedBy(s, key)
    ensures SortedBy(InsertBy(x, s, key), key)
    decreases |s|
  {
    if s != [] && Below(key(x), key(s[|s| - 1])) {
      var p := s[..|s| - 1];
      InsertSorted(x, p, key);
      InsertBounded(x, p, key, key(s[|s| - 1]));
    }
  }

  /** The head of the result is `x` exactly when `x` undercuts the old head. */
  lemma {:induction false} InsertHead<T>(x: T, s: seq<T>, key: T -> Rank)
    requires SortedBy(s, key)
    requires s != []
    ensures InsertBy(x, s, key)[0] == if Below(key(x), key(s[0])) then x else s[0]
    decreases |s|
  {
    if Below(key(x), key(s[|s| - 1])) && |s| > 1 {
      InsertHead(x, s[..|s| - 1], key);
    }
  }

  /** The sort orders its output by key. */
  lemma {:induction false} SortBySorted<T>(xs: seq<T>, key: T -> Rank)
    ensures SortedBy(SortBy(xs, key), key)
    decreases |xs|
  {
    if xs != [] {
      SortBySorted(xs[..|xs| - 1], key);
      InsertSorted(xs[|xs| - 1], SortBy(xs[..|xs| - 1], key), key);
    }
  }

  /** Stability at the head: the first element of the sorted list is the
      first element of least key. */
  lemma {:induction false} SortByHead<T>(xs: seq<T>, key: T -> Rank)
    requires xs != []
    ensures SortBy(xs, key)[0] == xs[FirstMin(Keys(xs, key))]
    decreases |xs|
  {
    var n := |xs| - 1;
    var p := xs[..n];
    assert xs == p + [xs[n]];
    if n == 0 {
      assert SortBy(xs, key) == InsertBy(xs[0], [], key);
    } else {
      var s := SortBy(p, key);
      var ks := Keys(p, key);
      var m := FirstMin(ks);
      SortByHead(p, key);
      SortBySorted(p, key);
      InsertHead(xs[n], s, key);
      assert SortBy(xs, key) == InsertBy(xs[n], s, key);
      assert key(s[0]) == ks[m];
      assert Keys(xs, key) == ks + [key(xs[n])];
      FirstMinSnoc(ks, key(xs[n]));
      if Below(key(xs[n]), ks[m]) {
        assert FirstMin(Keys(xs, key)) == n;
      } else {
        assert FirstMin(Keys(xs, key)) == m;
        assert xs[m] == p[m];
      }
    }
  }
}
