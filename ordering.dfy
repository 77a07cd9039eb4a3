/** Newest-first ordering by an integer key, as `Array.prototype.sort` produces it with the
    comparator `(a, b) => key(b) - key(a)`: the sort is stable, so elements with equal keys keep
    the order in which they were collected. The engine's own sorting algorithm is not part of
    this model; `SortNewestFirst` is an insertion sort whose result is the one stable sort
    admits, and the lemmas below are the sort's contract. */
module Ordering {

  ghost predicate NewestFirst<T>(s: seq<T>, key: T -> int) {
    forall i, j :: 0 <= i < j < |s| ==> key(s[i]) >= key(s[j])
  }

  /** Places `x` after every element of `s` whose key is at least `key(x)`. */
  function InsertNewestFirst<T>(s: seq<T>, x: T, key: T -> int): seq<T>
  {
    if |s| == 0 || key(s[|s| - 1]) >= key(x) then s + [x]
    else InsertNewestFirst(s[..|s| - 1], x, key) + [s[|s| - 1]]
  }

  function SortNewestFirst<T>(s: seq<T>, key: T -> int): seq<T>
  {
    if |s| == 0 then []
    else InsertNewestFirst(SortNewestFirst(s[..|s| - 1], key), s[|s| - 1], key)
  }

  /** The elements of `s` whose key is `k`, in the order of `s`. */
  function WithKey<T>(s: seq<T>, key: T -> int, k: int): seq<T>
  {
    if |s| == 0 then []
    else WithKey(s[..|s| - 1], key, k) + (if key(s[|s| - 1]) == k then [s[|s| - 1]] else [])
  }

  lemma {:induction false} InsertPermutes<T>(s: seq<T>, x: T, key: T -> int)
    ensures multiset(InsertNewestFirst(s, x, key)) == multiset(s) + multiset{x}
  {
    if |s| > 0 && key(s[|s| - 1]) < key(x) {
      var init := s[..|s| - 1];
      InsertPermutes(init, x, key);
      assert s == init + [s[|s| - 1]];
    }
  }

  lemma {:induction false} InsertKeepsOrder<T>(s: seq<T>, x: T, key: T -> int)
    requires NewestFirst(s, key)
    ensures NewestFirst(InsertNewestFirst(s, x, key), key)
  {
    if |s| > 0 && key(s[|s| - 1]) < key(x) {
      var init, last := s[..|s| - 1], s[|s| - 1];
      InsertKeepsOrder(init, x, key);
      InsertPermutes(init, x, key);
      var mid := InsertNewestFirst(init, x, key);
      forall i | 0 <= i < |mid| ensures key(mid[i]) >= key(last) {
        assert mid[i] in multiset(mid);
        if mid[i] != x {
          assert mid[i] in multiset(init);
          var j :| 0 <= j < |init| && init[j] == mid[i];
          assert s[j] == init[j];
        }
      }
    }
  }

  lemma {:induction false} InsertKeepsTies<T>(s: seq<T>, x: T, key: T -> int, k: int)
    ensures WithKey(InsertNewestFirst(s, x, key), key, k)
         == WithKey(s, key, k) + (if key(x) == k then [x] else [])
  {
    if |s| == 0 || key(s[|s| - 1]) >= key(x) {
      assert (s + [x])[..|s|] == s;
    } else {
      var init, last := s[..|s| - 1], s[|s| - 1];
      var mid := InsertNewestFirst(init, x, key);
      InsertKeepsTies(init, x, key, k);
      assert (mid + [last])[..|mid|] == mid;
    }
  }

  /** The sorted sequence is a permutation of its input. */
  lemma {:induction false} SortPermutes<T>(s: seq<T>, key: T -> int)
    ensures multiset(SortNewestFirst(s, key)) == multiset(s)
  {
    if |s| > 0 {
      SortPermutes(s[..|s| - 1], key);
      InsertPermutes(SortNewestFirst(s[..|s| - 1], key), s[|s| - 1], key);
      assert s == s[..|s| - 1] + [s[|s| - 1]];
    }
  }

  /** The sorted sequence has non-increasing keys. */
  lemma {:induction false} SortOrders<T>(s: seq<T>, key: T -> int)
    ensures NewestFirst(SortNewestFirst(s, key), key)
  {
    if |s| > 0 {
      SortOrders(s[..|s| - 1], key);
      InsertKeepsOrder(SortNewestFirst(s[..|s| - 1], key), s[|s| - 1], key);
    }
  }

  /** Stability: for every key value, the elements carrying it appear in input order. */
  lemma {:induction false} SortIsStable<T>(s: seq<T>, key: T -> int, k: int)
    ensures WithKey(SortNewestFirst(s, key), key, k) == WithKey(s, key, k)
  {
    if |s| > 0 {
      SortIsStable(s[..|s| - 1], key, k);
      InsertKeepsTies(SortNewestFirst(s[..|s| - 1], key), s[|s| - 1], key, k);
    }
  }

  lemma SortLength<T>(s: seq<T>, key: T -> int)
    ensures |SortNewestFirst(s, key)| == |s|
  {
    SortPermutes(s, key);
    assert |multiset(SortNewestFirst(s, key))| == |multiset(s)|;
  }
}
