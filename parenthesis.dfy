/**
 * chapter13/parenthesis: deciding whether a character vector is a correct
 * sequence of parentheses. Every character other than `(` is read as `)`.
 */
module Parenthesis {

  /** Opened minus closed after reading `s`: `(` opens, any other character closes. */
  function Depth(s: string): int
  {
    if s == [] then 0 else Depth(s[..|s| - 1]) + (if s[|s| - 1] == '(' then 1 else -1)
  }

  /** No prefix closes more than it opened. */
  predicate NeverNegative(s: string)
  {
    forall k :: 0 <= k <= |s| ==> Depth(s[..k]) >= 0
  }

  /** A correct sequence of parentheses: no prefix goes below zero and all are closed at the end. */
  predicate Balanced(s: string)
  {
    NeverNegative(s) && Depth(s) == 0
  }

  /** `solve`: one left-to-right pass counting unmatched `(`. */
  method Solve(s: seq<char>) returns (ok: bool)
    ensures ok == Balanced(s)
  {
    var n := |s|;
    var left := 0;
    for i := 0 to n
      invariant left == Depth(s[..i])
      invariant forall k :: 0 <= k <= i ==> Depth(s[..k]) >= 0
    {
      assert s[..i + 1][..i] == s[..i];
      if s[i] == '(' {
        left := left + 1;
      } else {
        if left == 0 {
          assert Depth(s[..i + 1]) < 0;
          return false;
        } else {
          left := left - 1;
        }
      }
    }
    assert s[..n] == s;
    if left == 0 {
      return true;
    } else {
      return false;
    }
  }

  /** Depth adds up over concatenation. */
  lemma {:induction false} DepthConcat(s: string, t: string)
    ensures Depth(s + t) == Depth(s) + Depth(t)
  {
    if t == [] {
      assert s + t == s;
    } else {
      var t' := t[..|t| - 1];
      assert (s + t)[..|s + t| - 1] == s + t';
      DepthConcat(s, t');
    }
  }

  /** Two correct sequences side by side form a correct sequence. */
  lemma BalancedConcat(s: string, t: string)
    requires Balanced(s) && Balanced(t)
    ensures Balanced(s + t)
  {
    forall k | 0 <= k <= |s + t| ensures Depth((s + t)[..k]) >= 0 {
      if k <= |s| {
        assert (s + t)[..k] == s[..k];
      } else {
        assert (s + t)[..k] == s + t[..k - |s|];
        DepthConcat(s, t[..k - |s|]);
      }
    }
    DepthConcat(s, t);
  }

  /** A correct sequence wrapped in a pair of parentheses is a correct sequence. */
  lemma BalancedWrap(s: string)
    requires Balanced(s)
    ensures Balanced("(" + s + ")")
  {
    var w := "(" + s + ")";
    forall k | 0 <= k <= |w| ensures Depth(w[..k]) >= 0 {
      if 1 <= k <= |s| + 1 {
        assert w[..k] == "(" + s[..k - 1];
        DepthConcat("(", s[..k - 1]);
      } else if k == |w| {
        assert w[..k] == w;
        DepthConcat("(" + s, ")");
        DepthConcat("(", s);
      }
    }
    assert w[..|w|] == w;
    DepthConcat("(" + s, ")");
    DepthConcat("(", s);
  }

  /** A correct sequence has even length. */
  lemma {:induction false} DepthParity(s: string)
    ensures (Depth(s) + |s|) % 2 == 0
  {
    if s != [] {
      DepthParity(s[..|s| - 1]);
    }
  }

  /** The vector of the unit test is correct; a closing parenthesis first is not. */
  lemma SolveExamples()
    ensures Balanced("")
    ensures Balanced("()()()()()")
    ensures !Balanced(")(")
  {
    assert Balanced("()") by {
      var p := "()";
      assert p[..0] == [] && p[..1] == "(" && p[..2] == p;
      assert p[..1][..0] == [];
    }
    BalancedConcat("()", "()");
    BalancedConcat("()" + "()", "()");
    BalancedConcat("()" + "()" + "()", "()");
    BalancedConcat("()" + "()" + "()" + "()", "()");
    assert "()" + "()" + "()" + "()" + "()" == "()()()()()";
    assert ")("[..1] == ")";
    assert ")("[..1][..0] == [];
  }
}
