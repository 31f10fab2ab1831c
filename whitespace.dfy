/**
 * Splitting a line on whitespace, as both calculators do with
 * `line.split(char::is_whitespace)`: every whitespace character ends a piece,
 * so consecutive separators give empty pieces, and an empty line gives one
 * empty piece.
 */
module Whitespace {

  /** The characters with the Unicode White_Space property (Rust's `char::is_whitespace`). */
  predicate IsWhitespace(c: char)
  {
    || ('\U{0009}' <= c <= '\U{000D}')
    || c == '\U{0020}'
    || c == '\U{0085}'
    || c == '\U{00A0}'
    || c == '\U{1680}'
    || ('\U{2000}' <= c <= '\U{200A}')
    || c == '\U{2028}'
    || c == '\U{2029}'
    || c == '\U{202F}'
    || c == '\U{205F}'
    || c == '\U{3000}'
  }

  predicate NoWhitespace(s: string)
  {
    forall i :: 0 <= i < |s| ==> !IsWhitespace(s[i])
  }

  /** Number of whitespace characters in `s`. */
  function WhitespaceCount(s: string): nat
  {
    if s == [] then 0 else (if IsWhitespace(s[0]) then 1 else 0) + WhitespaceCount(s[1..])
  }

  /** The pieces of `str::split(char::is_whitespace)`, in order. */
  function Pieces(s: string): (r: seq<string>)
    ensures |r| >= 1
    ensures forall i :: 0 <= i < |r| ==> NoWhitespace(r[i])
  {
    if s == [] then [[]]
    else if IsWhitespace(s[0]) then [[]] + Pieces(s[1..])
    else
      var rest := Pieces(s[1..]);
      [[s[0]] + rest[0]] + rest[1..]
  }

  /** The pieces joined back with single spaces. */
  function JoinSpaces(words: seq<string>): string
    requires |words| >= 1
  {
    if |words| == 1 then words[0] else words[0] + " " + JoinSpaces(words[1..])
  }

  /** There is one more piece than there are separators. */
  lemma {:induction false} PiecesCount(s: string)
    ensures |Pieces(s)| == WhitespaceCount(s) + 1
  {
    if s != [] {
      PiecesCount(s[1..]);
    }
  }

  /** When the only whitespace is the space character, joining the pieces gives the line back. */
  lemma {:induction false} JoinPieces(s: string)
    requires forall i :: 0 <= i < |s| && IsWhitespace(s[i]) ==> s[i] == ' '
    ensures JoinSpaces(Pieces(s)) == s
  {
    if s != [] {
      assert forall i :: 0 <= i < |s[1..]| && IsWhitespace(s[1..][i]) ==> s[1..][i] == ' ' by {
        forall i | 0 <= i < |s[1..]| && IsWhitespace(s[1..][i]) ensures s[1..][i] == ' ' {
          assert s[1..][i] == s[i + 1];
        }
      }
      JoinPieces(s[1..]);
      if IsWhitespace(s[0]) {
        JoinEmptyFirst(Pieces(s[1..]));
      } else {
        JoinGrownFirst(s[0], Pieces(s[1..]));
      }
      assert s == [s[0]] + s[1..];
    }
  }

  /** An empty first piece contributes only its separator. */
  lemma JoinEmptyFirst(rest: seq<string>)
    requires |rest| >= 1
    ensures JoinSpaces([[]] + rest) == " " + JoinSpaces(rest)
  {
    assert ([[]] + rest)[1..] == rest;
  }

  /** A character put in front of the first piece stands in front of the joined line. */
  lemma JoinGrownFirst(c: char, rest: seq<string>)
    requires |rest| >= 1
    ensures JoinSpaces([[c] + rest[0]] + rest[1..]) == [c] + JoinSpaces(rest)
  {
    var r := [[c] + rest[0]] + rest[1..];
    if |rest| > 1 {
      assert r[1..] == rest[1..];
      assert JoinSpaces(r) == ([c] + rest[0]) + " " + JoinSpaces(rest[1..]);
    }
  }

  /** Splitting a word without whitespace followed by a separator and more text. */
  lemma {:induction false} PiecesOfWordThenSeparator(w: string, c: char, t: string)
    requires NoWhitespace(w) && IsWhitespace(c)
    ensures Pieces(w + [c] + t) == [w] + Pieces(t)
  {
    if w == [] {
      assert w + [c] + t == [c] + t;
      assert ([c] + t)[1..] == t;
    } else {
      assert (w + [c] + t)[1..] == w[1..] + [c] + t;
      PiecesOfWordThenSeparator(w[1..], c, t);
      assert [w[0]] + w[1..] == w;
    }
  }

  /** A word without whitespace is a single piece. */
  lemma {:induction false} PiecesOfWord(w: string)
    requires NoWhitespace(w)
    ensures Pieces(w) == [w]
  {
    if w != [] {
      PiecesOfWord(w[1..]);
      assert [w[0]] + w[1..] == w;
    }
  }

  /** Splitting words joined by single spaces gives the words back, empty words included. */
  lemma {:induction false} PiecesOfJoin(words: seq<string>)
    requires |words| >= 1
    requires forall i :: 0 <= i < |words| ==> NoWhitespace(words[i])
    ensures Pieces(JoinSpaces(words)) == words
  {
    if |words| == 1 {
      PiecesOfWord(words[0]);
    } else {
      PiecesOfJoin(words[1..]);
      PiecesOfWordThenSeparator(words[0], ' ', JoinSpaces(words[1..]));
      assert [words[0]] + words[1..] == words;
    }
  }

  /** The whitespace characters of `s`, in order: the separators the split cuts at. */
  function Separators(s: string): (r: string)
    ensures |r| == WhitespaceCount(s)
    ensures forall i :: 0 <= i < |r| ==> IsWhitespace(r[i])
  {
    if s == [] then []
    else (if IsWhitespace(s[0]) then [s[0]] else []) + Separators(s[1..])
  }

  /** Pieces with the separators put back between them. */
  function JoinWith(pieces: seq<string>, seps: string): string
    requires |pieces| == |seps| + 1
  {
    if seps == [] then pieces[0] else pieces[0] + [seps[0]] + JoinWith(pieces[1..], seps[1..])
  }

  /** Putting the line's own separators back between its pieces gives the line back, whatever the whitespace. */
  lemma {:induction false} JoinPiecesWith(s: string)
    ensures |Pieces(s)| == |Separators(s)| + 1
    ensures JoinWith(Pieces(s), Separators(s)) == s
  {
    PiecesCount(s);
    if s != [] {
      JoinPiecesWith(s[1..]);
      var rest, seps := Pieces(s[1..]), Separators(s[1..]);
      if IsWhitespace(s[0]) {
        assert Pieces(s) == [[]] + rest && Separators(s) == [s[0]] + seps;
        assert ([[]] + rest)[1..] == rest;
        assert ([s[0]] + seps)[1..] == seps;
      } else {
        assert Separators(s) == seps;
        JoinWithGrownFirst(s[0], rest, seps);
      }
      assert s == [s[0]] + s[1..];
    }
  }

  /** A character put in front of the first piece stands in front of the rebuilt line. */
  lemma JoinWithGrownFirst(c: char, rest: seq<string>, seps: string)
    requires |rest| == |seps| + 1
    ensures JoinWith([[c] + rest[0]] + rest[1..], seps) == [c] + JoinWith(rest, seps)
  {
    var r := [[c] + rest[0]] + rest[1..];
    if seps != [] {
      assert r[1..] == rest[1..];
      assert JoinWith(r, seps) == ([c] + rest[0]) + [seps[0]] + JoinWith(rest[1..], seps[1..]);
    }
  }

  /** Splitting words without whitespace joined by any separators gives the words back. */
  lemma {:induction false} PiecesOfJoinWith(words: seq<string>, seps: string)
    requires |words| == |seps| + 1
    requires forall i :: 0 <= i < |words| ==> NoWhitespace(words[i])
    requires forall i :: 0 <= i < |seps| ==> IsWhitespace(seps[i])
    ensures Pieces(JoinWith(words, seps)) == words
  {
    if seps == [] {
      PiecesOfWord(words[0]);
    } else {
      PiecesOfJoinWith(words[1..], seps[1..]);
      PiecesOfWordThenSeparator(words[0], seps[0], JoinWith(words[1..], seps[1..]));
      assert [words[0]] + words[1..] == words;
    }
  }
}
