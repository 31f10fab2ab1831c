/**
 * chapter13/merge-array: two ways of combining two integer vectors into one
 * sorted vector. `solve1` concatenates and sorts; `solve2` merges by repeatedly
 * taking the smaller head, the one of `b` on a tie.
 */
module MergeArray {
  import opened Sorting

  /** The merge that `solve2` performs, one head at a time. */
  function Merge(a: seq<int>, b: seq<int>): seq<int>
    decreases |a| + |b|
  {
    if a == [] then b
    else if b == [] then a
    else if a[0] < b[0] then [a[0]] + Merge(a[1..], b)
    else [b[0]] + Merge(a, b[1..])
  }

  /** The merge holds exactly the elements of both inputs. */
  lemma {:induction false} MergePermutation(a: seq<int>, b: seq<int>)
    ensures multiset(Merge(a, b)) == multiset(a) + multiset(b)
    decreases |a| + |b|
  {
    if a != [] && b != [] {
      if a[0] < b[0] {
        MergePermutation(a[1..], b);
        assert a == [a[0]] + a[1..];
      } else {
        MergePermutation(a, b[1..]);
        assert b == [b[0]] + b[1..];
      }
    }
  }

  /** Every element of a sorted sequence is at least its first. */
  lemma SortedHead(s: seq<int>, k: nat)
    requires Sorted(s) && k < |s|
    ensures s[0] <= s[k]
  {
    if k > 0 {
      assert Identity(s[0]) <= Identity(s[k]);
    }
  }

  /** A head no greater than all of a sorted tail keeps it sorted. */
  lemma SortedCons(x: int, s: seq<int>)
    requires Sorted(s)
    requires forall k :: 0 <= k < |s| ==> x <= s[k]
    ensures Sorted([x] + s)
  {
    var r := [x] + s;
    forall i, j | 0 <= i < j < |r| ensures Identity(r[i]) <= Identity(r[j]) {
      if i > 0 {
        assert r[i] == s[i - 1] && r[j] == s[j - 1];
        assert Identity(s[i - 1]) <= Identity(s[j - 1]);
      } else {
        assert r[j] == s[j - 1];
      }
    }
  }

  /** Merging two sorted sequences gives a sorted sequence. */
  lemma {:induction false} MergeSorted(a: seq<int>, b: seq<int>)
    requires Sorted(a) && Sorted(b)
    ensures Sorted(Merge(a, b))
    decreases |a| + |b|
  {
    if a != [] && b != [] {
      var r := Merge(a, b);
      if a[0] < b[0] {
        SortedTail(a);
        MergeSorted(a[1..], b);
        MergePermutation(a[1..], b);
        var t := Merge(a[1..], b);
        forall k | 0 <= k < |t| ensures a[0] <= t[k] {
          assert t[k] in multiset(a[1..]) + multiset(b);
          if t[k] in multiset(a[1..]) {
            var m :| 0 <= m < |a[1..]| && a[1..][m] == t[k];
            SortedHead(a, m + 1);
          } else {
            var m :| 0 <= m < |b| && b[m] == t[k];
            SortedHead(b, m);
          }
        }
        SortedCons(a[0], t);
      } else {
        SortedTail(b);
        MergeSorted(a, b[1..]);
        MergePermutation(a, b[1..]);
        var t := Merge(a, b[1..]);
        forall k | 0 <= k < |t| ensures b[0] <= t[k] {
          assert t[k] in multiset(a) + multiset(b[1..]);
          if t[k] in multiset(a) {
            var m :| 0 <= m < |a| && a[m] == t[k];
            SortedHead(a, m);
          } else {
            var m :| 0 <= m < |b[1..]| && b[1..][m] == t[k];
            SortedHead(b, m + 1);
          }
        }
        SortedCons(b[0], t);
      }
    }
  }

  /** `solve1`: both vectors pushed into one, then sorted. */
  method Solve1(a: seq<int>, b: seq<int>) returns (ans: seq<int>)
    ensures Sorted(ans)
    ensures multiset(ans) == multiset(a) + multiset(b)
  {
    var n, m := |a|, |b|;
    ans := [];
    for i := 0 to n
      invariant ans == a[..i]
    {
      ans := ans + [a[i]];
    }
    for i := 0 to m
      invariant ans == a + b[..i]
    {
      ans := ans + [b[i]];
    }
    assert ans == a + b;
    ans := SortBy(ans, Identity);
  }

  /** The merge of the remainders starts with the head of `a` when that is smaller, or `b` is used up. */
  lemma MergeTakesA(done: seq<int>, a: seq<int>, b: seq<int>, i: nat, j: nat)
    requires i < |a| && j <= |b|
    requires j == |b| || a[i] < b[j]
    ensures Merge(a[i..], b[j..]) == [a[i]] + Merge(a[i + 1..], b[j..])
    ensures done + Merge(a[i..], b[j..]) == (done + [a[i]]) + Merge(a[i + 1..], b[j..])
  {
    assert a[i..] == [a[i]] + a[i + 1..];
    if j == |b| {
      assert b[j..] == [];
    }
  }

  /** The merge of the remainders starts with the head of `b` on a tie or when `a` is used up. */
  lemma MergeTakesB(done: seq<int>, a: seq<int>, b: seq<int>, i: nat, j: nat)
    requires i <= |a| && j < |b|
    requires i == |a| || !(a[i] < b[j])
    ensures Merge(a[i..], b[j..]) == [b[j]] + Merge(a[i..], b[j + 1..])
    ensures done + Merge(a[i..], b[j..]) == (done + [b[j]]) + Merge(a[i..], b[j + 1..])
  {
    assert b[j..] == [b[j]] + b[j + 1..];
    if i == |a| {
      assert a[i..] == [];
    }
  }

  /** `solve2`: the two-index merge loop. */
  method Solve2(a: seq<int>, b: seq<int>) returns (ans: seq<int>)
    ensures ans == Merge(a, b)
  {
    var n, m := |a|, |b|;
    ans := [];
    var i, j := 0, 0;
    assert a[0..] == a && b[0..] == b;
    assert ans + Merge(a, b) == Merge(a, b);
    while i < n || j < m
      invariant 0 <= i <= n && 0 <= j <= m
      invariant ans + Merge(a[i..], b[j..]) == Merge(a, b)
      decreases n - i + m - j
    {
      if i == n {
        MergeTakesB(ans, a, b, i, j);
        ans := ans + [b[j]];
        j := j + 1;
      } else if j == m {
        MergeTakesA(ans, a, b, i, j);
        ans := ans + [a[i]];
        i := i + 1;
      } else if a[i] < b[j] {
        MergeTakesA(ans, a, b, i, j);
        ans := ans + [a[i]];
        i := i + 1;
      } else {
        MergeTakesB(ans, a, b, i, j);
        ans := ans + [b[j]];
        j := j + 1;
      }
    }
    assert a[i..] == [] && b[j..] == [];
  }

  /** For sorted inputs the two solutions agree: the merge is the sorted concatenation. */
  lemma MergeIsSortedConcatenation(a: seq<int>, b: seq<int>)
    requires Sorted(a) && Sorted(b)
    ensures Merge(a, b) == SortBy(a + b, Identity)
  {
    MergeSorted(a, b);
    MergePermutation(a, b);
    assert multiset(a + b) == multiset(a) + multiset(b);
    SortedPermutationUnique(Merge(a, b), SortBy(a + b, Identity));
  }

  /** For sorted inputs it does not matter which vector comes first. */
  lemma MergeSymmetric(a: seq<int>, b: seq<int>)
    requires Sorted(a) && Sorted(b)
    ensures Merge(a, b) == Merge(b, a)
  {
    MergeSorted(a, b);
    MergeSorted(b, a);
    MergePermutation(a, b);
    MergePermutation(b, a);
    SortedPermutationUnique(Merge(a, b), Merge(b, a));
  }

  /** Each element no greater than the next makes a sorted sequence. */
  lemma {:induction false} SortedByNeighbours(s: seq<int>)
    requires forall i :: 0 <= i < |s| - 1 ==> s[i] <= s[i + 1]
    ensures Sorted(s)
  {
    if |s| > 1 {
      SortedByNeighbours(s[1..]);
      forall k | 0 <= k < |s[1..]| ensures s[0] <= s[1..][k] {
        assert Identity(s[1..][0]) <= Identity(s[1..][k]) || k == 0;
      }
      assert s == [s[0]] + s[1..];
      SortedCons(s[0], s[1..]);
    }
  }

  /** The expected vector of the two unit tests: the inputs' elements, sorted. */
  lemma ExpectedIsSorted(a: seq<int>, b: seq<int>, expected: seq<int>)
    requires a == [1, 2, 4, 5, 8] && b == [2, 3, 4, 5, 6, 7]
    requires expected == [1, 2, 2, 3, 4, 4, 5, 5, 6, 7, 8]
    ensures Sorted(a) && Sorted(b) && Sorted(expected)
    ensures multiset(expected) == multiset(a) + multiset(b)
  {
    SortedByNeighbours(a);
    SortedByNeighbours(b);
    SortedByNeighbours(expected);
    MergeExample();
    MergePermutation(a, b);
  }

  /** `solve2` on the vectors of its unit test. */
  lemma MergeExample()
    ensures Merge([1, 2, 4, 5, 8], [2, 3, 4, 5, 6, 7]) == [1, 2, 2, 3, 4, 4, 5, 5, 6, 7, 8]
  {
    assert Merge([8], []) == [8];
    assert Merge([8], [7]) == [7] + Merge([8], []);
    assert Merge([8], [6, 7]) == [6] + Merge([8], [7]);
    assert Merge([5, 8], [6, 7]) == [5] + Merge([8], [6, 7]);
    assert Merge([5, 8], [5, 6, 7]) == [5] + Merge([5, 8], [6, 7]);
    assert Merge([4, 5, 8], [5, 6, 7]) == [4] + Merge([5, 8], [5, 6, 7]);
    assert Merge([4, 5, 8], [4, 5, 6, 7]) == [4] + Merge([4, 5, 8], [5, 6, 7]);
    assert Merge([4, 5, 8], [3, 4, 5, 6, 7]) == [3] + Merge([4, 5, 8], [4, 5, 6, 7]);
    assert Merge([2, 4, 5, 8], [3, 4, 5, 6, 7]) == [2] + Merge([4, 5, 8], [3, 4, 5, 6, 7]);
    assert Merge([2, 4, 5, 8], [2, 3, 4, 5, 6, 7]) == [2] + Merge([2, 4, 5, 8], [3, 4, 5, 6, 7]);
    assert Merge([1, 2, 4, 5, 8], [2, 3, 4, 5, 6, 7]) == [1] + Merge([2, 4, 5, 8], [2, 3, 4, 5, 6, 7]);
  }

  /** `solve1` on the vectors of its unit test. */
  lemma SortExample()
    ensures SortBy([1, 2, 4, 5, 8] + [2, 3, 4, 5, 6, 7], Identity) == [1, 2, 2, 3, 4, 4, 5, 5, 6, 7, 8]
  {
    var a, b, expected := [1, 2, 4, 5, 8], [2, 3, 4, 5, 6, 7], [1, 2, 2, 3, 4, 4, 5, 5, 6, 7, 8];
    ExpectedIsSorted(a, b, expected);
    assert multiset(a + b) == multiset(a) + multiset(b);
    SortedPermutationUnique(SortBy(a + b, Identity), expected);
  }
}
