/**
  A stable sort by an integer key.

  The leaderboard sorts runs with `Array.prototype.sort` and a comparator that
  returns `key(a) - key(b)`; the reward table sorts tally entries with
  `key(b) - key(a)`. Since ECMAScript 2019 that sort is stable, and a comparator
  that is a difference of integer keys is consistent, so the result is the
  unique stable ordering by the key. This module defines that ordering once, as
  an insertion sort, and proves it sorted, a permutation and stable.
 */
module Sorting {

  /** `s` is non-decreasing under `key`. */
  predicate SortedBy<T>(s: seq<T>, key: T -> int) {
    forall i, j :: 0 <= i < j < |s| ==> key(s[i]) <= key(s[j])
  }

  /** The elements of `s` whose key is `k`, in their order in `s`. */
  function WithKey<T>(s: seq<T>, key: T -> int, k: int): (r: seq<T>)
    ensures |r| <= |s|
    ensures forall x :: x in r ==> x in s && key(x) == k
  {
    if s == [] then []
    else (if key(s[0]) == k then [s[0]] else []) + WithKey(s[1..], key, k)
  }

  /** Inserts `x` in front of the first element whose key is not smaller. */
  function Insert<T>(x: T, s: seq<T>, key: T -> int): (r: seq<T>)
    ensures |r| == |s| + 1
  {
    if s == [] || key(x) <= key(s[0]) then [x] + s
    else [s[0]] + Insert(x, s[1..], key)
  }

  /** Insertion adds exactly `x`. */
  lemma {:induction false} InsertPermutes<T>(x: T, s: seq<T>, key: T -> int)
    ensures multiset(Insert(x, s, key)) == multiset(s) + multiset{x}
  {
    if s != [] && key(x) > key(s[0]) {
      InsertPermutes(x, s[1..], key);
      assert s == [s[0]] + s[1..];
    }
  }

  /** Insertion into a sorted list keeps it sorted. */
  lemma {:induction false} InsertSorted<T>(x: T, s: seq<T>, key: T -> int)
    requires SortedBy(s, key)
    ensures SortedBy(Insert(x, s, key), key)
  {
    if s != [] && key(x) > key(s[0]) {
      var rest := Insert(x, s[1..], key);
      InsertSorted(x, s[1..], key);
      InsertPermutes(x, s[1..], key);
      forall j | 0 <= j < |rest|
        ensures key(s[0]) <= key(rest[j])
      {
        assert rest[j] in multiset(rest);
        if rest[j] != x {
          assert rest[j] in multiset(s[1..]);
          assert rest[j] in s[1..];
        }
      }
    }
  }

  /** The stable ascending sort of `s` by `key`. */
  function SortBy<T>(s: seq<T>, key: T -> int): (r: seq<T>)
    ensures SortedBy(r, key)
    ensures multiset(r) == multiset(s)
    ensures |r| == |s|
  {
    if s == [] then []
    else
      var rest := SortBy(s[1..], key);
      InsertSorted(s[0], rest, key);
      InsertPermutes(s[0], rest, key);
      assert s == [s[0]] + s[1..];
      Insert(s[0], rest, key)
  }

  /** Every element of `s` sits somewhere in its sorted order. */
  lemma SortByHas<T>(s: seq<T>, key: T -> int, k: nat)
    requires k < |s|
    ensures exists j :: 0 <= j < |SortBy(s, key)| && SortBy(s, key)[j] == s[k]
  {
    assert s[k] in multiset(SortBy(s, key));
  }

  /** Filtering a list that starts with `h`. */
  lemma WithKeyCons<T>(h: T, t: seq<T>, key: T -> int, k: int)
    ensures WithKey([h] + t, key, k) == (if key(h) == k then [h] else []) + WithKey(t, key, k)
  {
    assert ([h] + t)[0] == h && ([h] + t)[1..] == t;
  }

  /** Inserting `x` puts it in front of every element of equal key. */
  lemma {:induction false} InsertStable<T>(x: T, s: seq<T>, key: T -> int, k: int)
    ensures WithKey(Insert(x, s, key), key, k)
         == (if key(x) == k then [x] else []) + WithKey(s, key, k)
  {
    if s == [] || key(x) <= key(s[0]) {
      WithKeyCons(x, s, key, k);
    } else {
      var mine := if key(x) == k then [x] else [];
      var head := if key(s[0]) == k then [s[0]] else [];
      var tail := WithKey(s[1..], key, k);
      var rest := Insert(x, s[1..], key);
      assert Insert(x, s, key) == [s[0]] + rest;
      InsertStable(x, s[1..], key, k);
      WithKeyCons(s[0], rest, key, k);
      assert WithKey([s[0]] + rest, key, k) == head + (mine + tail);
      WithKeyCons(s[0], s[1..], key, k);
      assert s == [s[0]] + s[1..];
      assert WithKey(s, key, k) == head + tail;
      SwapEmpty(head, mine, tail);
    }
  }

  /** Two lists of which one is empty can be put in either order. */
  lemma SwapEmpty<T>(head: seq<T>, mine: seq<T>, tail: seq<T>)
    requires head == [] || mine == []
    ensures head + (mine + tail) == mine + (head + tail)
  {
    if head == [] {
      assert mine + ([] + tail) == mine + tail;
    } else {
      assert head + ([] + tail) == head + tail;
    }
  }

  /** Stability: for every key, the elements with that key keep their
      relative input order. */
  lemma {:induction false} SortStable<T>(s: seq<T>, key: T -> int, k: int)
    ensures WithKey(SortBy(s, key), key, k) == WithKey(s, key, k)
  {
    if s != [] {
      SortStable(s[1..], key, k);
      InsertStable(s[0], SortBy(s[1..], key), key, k);
    }
  }

  /** Filtering by key distributes over concatenation. */
  lemma {:induction false} WithKeyAppend<T>(a: seq<T>, b: seq<T>, key: T -> int, k: int)
    ensures WithKey(a + b, key, k) == WithKey(a, key, k) + WithKey(b, key, k)
  {
    if a == [] {
      assert a + b == b;
    } else {
      assert (a + b)[0] == a[0];
      assert (a + b)[1..] == a[1..] + b;
      WithKeyAppend(a[1..], b, key, k);
    }
  }

  /** Locating an element of key `k` inside `WithKey`: the elements of that
      key in front of it are exactly those in front of it in `s`. */
  lemma WithKeyAt<T>(s: seq<T>, key: T -> int, k: int, f: nat)
    requires f < |s| && key(s[f]) == k
    ensures var w := WithKey(s, key, k);
            var g := |WithKey(s[..f], key, k)|;
            g < |w| && w[g] == s[f] && w[..g] == WithKey(s[..f], key, k)
  {
    var front := WithKey(s[..f], key, k);
    assert s == s[..f] + ([s[f]] + s[f + 1..]);
    WithKeyAppend(s[..f], [s[f]] + s[f + 1..], key, k);
    assert WithKey([s[f]] + s[f + 1..], key, k) == [s[f]] + WithKey(s[f + 1..], key, k);
    var w := front + ([s[f]] + WithKey(s[f + 1..], key, k));
    assert w[|front|] == s[f] && w[..|front|] == front;
  }
}
