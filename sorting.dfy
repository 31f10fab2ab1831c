/**
 * The standard library sorts the programs call: `Vec::sort` on integers and
 * `sort_by` with a key comparison. Both are stable; here they are one stable
 * insertion sort by an integer key.
 */
module Sorting {

  /** `s` is in non-decreasing order of `key`. */
  predicate SortedBy<T>(s: seq<T>, key: T -> int)
  {
    forall i, j :: 0 <= i < j < |s| ==> key(s[i]) <= key(s[j])
  }

  function Identity(x: int): int
  {
    x
  }

  /** Integers in non-decreasing order. */
  predicate Sorted(s: seq<int>)
  {
    SortedBy(s, Identity)
  }

  /** `x` inserted into sorted `s` after every element whose key is not greater. */
  function InsertBy<T>(x: T, s: seq<T>, key: T -> int): (r: seq<T>)
    requires SortedBy(s, key)
    ensures SortedBy(r, key)
    ensures multiset(r) == multiset(s) + multiset{x}
  {
    if s == [] then [x]
    else if key(s[|s| - 1]) <= key(x) then
      SortedAppend(s, x, key);
      s + [x]
    else
      var init, last := s[..|s| - 1], s[|s| - 1];
      assert s == init + [last];
      var r := InsertBy(x, init, key);
      BoundedByElements(r, init, x, key, key(last));
      SortedAppend(r, last, key);
      r + [last]
  }

  /** Appending an element whose key is at least every key keeps a sequence sorted. */
  lemma SortedAppend<T>(s: seq<T>, x: T, key: T -> int)
    requires SortedBy(s, key)
    requires forall i :: 0 <= i < |s| ==> key(s[i]) <= key(x)
    ensures SortedBy(s + [x], key)
  {
    var r := s + [x];
    forall i, j | 0 <= i < j < |r| ensures key(r[i]) <= key(r[j]) {
      assert r[i] == s[i];
      if j < |s| {
        assert r[j] == s[j];
      }
    }
  }

  /** A bound on the keys of `s` and on `x` bounds the keys of any arrangement of them. */
  lemma BoundedByElements<T>(r: seq<T>, s: seq<T>, x: T, key: T -> int, bound: int)
    requires multiset(r) == multiset(s) + multiset{x}
    requires (forall i :: 0 <= i < |s| ==> key(s[i]) <= bound) && key(x) <= bound
    ensures forall i :: 0 <= i < |r| ==> key(r[i]) <= bound
  {
    forall i | 0 <= i < |r| ensures key(r[i]) <= bound {
      assert r[i] in multiset(r);
      if r[i] != x {
        assert r[i] in multiset(s);
        var k :| 0 <= k < |s| && s[k] == r[i];
      }
    }
  }

  /** The elements of `s`, stably sorted by `key`. */
  function SortBy<T>(s: seq<T>, key: T -> int): (r: seq<T>)
    ensures SortedBy(r, key)
    ensures multiset(r) == multiset(s)
  {
    if s == [] then []
    else
      assert s == s[..|s| - 1] + [s[|s| - 1]];
      InsertBy(s[|s| - 1], SortBy(s[..|s| - 1], key), key)
  }

  /** The least element of a sorted sequence is its first. */
  lemma SortedFirstIsLeast(s: seq<int>, x: int)
    requires Sorted(s) && x in multiset(s)
    ensures s[0] <= x
  {
    var k :| 0 <= k < |s| && s[k] == x;
    if k > 0 {
      assert Identity(s[0]) <= Identity(s[k]);
    }
  }

  lemma SortedTail(s: seq<int>)
    requires Sorted(s) && s != []
    ensures Sorted(s[1..])
  {
    forall i, j | 0 <= i < j < |s[1..]| ensures Identity(s[1..][i]) <= Identity(s[1..][j]) {
      assert s[1..][i] == s[i + 1] && s[1..][j] == s[j + 1];
    }
  }

  /** Two non-empty sorted sequences with the same elements start alike. */
  lemma SortedSameFirst(x: seq<int>, y: seq<int>)
    requires Sorted(x) && Sorted(y) && x != []
    requires multiset(x) == multiset(y)
    ensures y != [] && x[0] == y[0]
  {
    assert x[0] in multiset(x);
    assert y != [];
    assert y[0] in multiset(y);
    SortedFirstIsLeast(y, x[0]);
    SortedFirstIsLeast(x, y[0]);
  }

  /** Two sorted sequences of integers with the same elements are equal: sorting has one answer. */
  lemma {:induction false} SortedPermutationUnique(x: seq<int>, y: seq<int>)
    requires Sorted(x) && Sorted(y)
    requires multiset(x) == multiset(y)
    ensures x == y
  {
    if x == [] {
      assert |multiset(y)| == 0;
    } else {
      SortedSameFirst(x, y);
      assert x == [x[0]] + x[1..] && y == [y[0]] + y[1..];
      assert multiset(x) == multiset{x[0]} + multiset(x[1..]);
      assert multiset(y) == multiset{y[0]} + multiset(y[1..]);
      assert multiset(x[1..]) == multiset(x) - multiset{x[0]};
      assert multiset(y[1..]) == multiset(y) - multiset{y[0]};
      SortedTail(x);
      SortedTail(y);
      SortedPermutationUnique(x[1..], y[1..]);
    }
  }
}
