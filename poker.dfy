/**
 * chapter4: a one-round poker game. A 52-card deck is built, shuffled, five
 * cards are drawn from its end, the chosen cards are replaced from the deck,
 * and the hand is classified by a flush test and a count of equal-rank pairs.
 *
 * The shuffle is not modelled: the game takes the shuffled deck as input. The
 * choice of cards to replace, read from standard input in the source, is the
 * parameter `numbers`.
 */
module Poker {
  import opened Sorting

  datatype Suit = Club | Diamond | Heart | Spade

  datatype Card = Card(suit: Suit, rank: int)

  /** The suits in the order the deck is built. */
  const Suits: seq<Suit> := [Club, Diamond, Heart, Spade]

  function RankOf(c: Card): int
  {
    c.rank
  }

  /** No card occurs twice. */
  predicate Distinct(s: seq<Card>)
  {
    forall i, j :: 0 <= i < j < |s| ==> s[i] != s[j]
  }

  // ---------------------------------------------------------------- the deck

  /** The deck in construction order: the suits in turn, each with ranks 1 to 13. */
  function FullDeck(): (d: seq<Card>)
    ensures |d| == 52
  {
    seq(52, k requires 0 <= k < 52 => Card(Suits[k / 13], k % 13 + 1))
  }

  function SuitIndex(suit: Suit): (k: nat)
    ensures k < 4 && Suits[k] == suit
  {
    match suit
    case Club => 0
    case Diamond => 1
    case Heart => 2
    case Spade => 3
  }

  /** Every suit and rank from 1 to 13 is in the deck, and nothing else. */
  lemma FullDeckComplete(c: Card)
    ensures c in FullDeck() <==> 1 <= c.rank <= 13
  {
    if 1 <= c.rank <= 13 {
      var k := 13 * SuitIndex(c.suit) + c.rank - 1;
      assert k / 13 == SuitIndex(c.suit) && k % 13 == c.rank - 1;
      assert FullDeck()[k] == c;
    }
  }

  /** The 52 cards of the deck are all different. */
  lemma FullDeckDistinct()
    ensures Distinct(FullDeck())
  {
    var d := FullDeck();
    forall i, j | 0 <= i < j < |d| ensures d[i] != d[j] {
      if i / 13 == j / 13 {
        assert i % 13 != j % 13;
      } else {
        assert Suits[i / 13] != Suits[j / 13];
      }
    }
  }

  /** Deck construction: the nested loops over suits and ranks, pushing one card at a time. */
  method BuildDeck() returns (deck: seq<Card>)
    ensures deck == FullDeck()
  {
    deck := [];
    var suits := [Club, Diamond, Heart, Spade];
    for s := 0 to 4
      invariant deck == FullDeck()[..13 * s]
    {
      var suit := suits[s];
      for rank := 1 to 14
        invariant deck == FullDeck()[..13 * s + rank - 1]
      {
        var k := 13 * s + rank - 1;
        assert k / 13 == s && k % 13 == rank - 1;
        assert FullDeck()[..k + 1] == FullDeck()[..k] + [Card(suit, rank)];
        deck := deck + [Card(suit, rank)];
      }
    }
  }

  // ------------------------------------------------------------- the hand

  /** The five cards at the end of the deck, in the order they are popped. */
  function Drawn(deck: seq<Card>): (r: seq<Card>)
    requires |deck| >= 5
    ensures |r| == 5 && forall c :: c in r ==> c in deck
  {
    seq(5, k requires 0 <= k < 5 => deck[|deck| - 1 - k])
  }

  /** Five `deck.pop().unwrap()` calls: the last card of the deck is drawn first. */
  method DrawHand(deck: seq<Card>) returns (hand: seq<Card>, rest: seq<Card>)
    requires |deck| >= 5
    ensures hand == Drawn(deck)
    ensures |hand| == 5 && rest == deck[..|deck| - 5]
    ensures forall k :: 0 <= k < 5 ==> hand[k] == deck[|deck| - 1 - k]
    ensures multiset(hand) + multiset(rest) == multiset(deck)
  {
    hand, rest := [], deck;
    for n := 0 to 5
      invariant rest == deck[..|deck| - n]
      invariant |hand| == n && forall k :: 0 <= k < n ==> hand[k] == deck[|deck| - 1 - k]
      invariant multiset(hand) + multiset(rest) == multiset(deck)
    {
      assert rest == rest[..|rest| - 1] + [rest[|rest| - 1]];
      hand := hand + [rest[|rest| - 1]];
      rest := rest[..|rest| - 1];
    }
  }

  /** `sort_by` on rank. */
  function SortByRank(hand: seq<Card>): (r: seq<Card>)
    ensures SortedBy(r, RankOf)
    ensures multiset(r) == multiset(hand) && |r| == |hand|
  {
    assert |multiset(SortBy(hand, RankOf))| == |multiset(hand)|;
    SortBy(hand, RankOf)
  }

  /** Card numbers as typed by the player: each names a position 1 to `size` of the hand. */
  predicate ValidNumbers(numbers: seq<nat>, size: nat)
  {
    forall k :: 0 <= k < |numbers| ==> 1 <= numbers[k] <= size
  }

  /** The hand and deck after `hand[number - 1] = deck.pop().unwrap()` for each number in turn. */
  function Replaced(hand: seq<Card>, deck: seq<Card>, numbers: seq<nat>): (r: (seq<Card>, seq<Card>))
    requires ValidNumbers(numbers, |hand|) && |numbers| <= |deck|
    ensures |r.0| == |hand| && r.1 == deck[..|deck| - |numbers|]
    ensures forall i :: 0 <= i < |hand| && (forall k :: 0 <= k < |numbers| ==> numbers[k] != i + 1) ==> r.0[i] == hand[i]
    ensures forall i :: 0 <= i < |hand| ==> r.0[i] == hand[i] || r.0[i] in deck
    decreases |numbers|
  {
    if numbers == [] then (hand, deck)
    else
      var r := Replaced(hand[numbers[0] - 1 := deck[|deck| - 1]], deck[..|deck| - 1], numbers[1..]);
      assert forall k :: 0 <= k < |numbers[1..]| ==> numbers[1..][k] == numbers[k + 1];
      assert deck[..|deck| - 1][..|deck| - 1 - |numbers[1..]|] == deck[..|deck| - |numbers|];
      r
  }

  /**
   * The position the `k`-th number names holds the `k`-th card popped from the
   * deck, unless a later number replaces it again.
   */
  lemma {:induction false} ReplacedPlacesPoppedCards(hand: seq<Card>, deck: seq<Card>, numbers: seq<nat>, k: nat)
    requires ValidNumbers(numbers, |hand|) && |numbers| <= |deck|
    requires k < |numbers| && LastChoice(numbers, k)
    ensures Replaced(hand, deck, numbers).0[numbers[k] - 1] == deck[|deck| - 1 - k]
    decreases |numbers|
  {
    var h, d, later := hand[numbers[0] - 1 := deck[|deck| - 1]], deck[..|deck| - 1], numbers[1..];
    assert forall j :: 0 <= j < |later| ==> later[j] == numbers[j + 1];
    assert Replaced(hand, deck, numbers) == Replaced(h, d, later);
    if k == 0 {
      assert forall j :: 0 <= j < |later| ==> later[j] != numbers[0] by {
        forall j | 0 <= j < |later| ensures later[j] != numbers[0] {
          assert numbers[j + 1] != numbers[0];
        }
      }
    } else {
      assert LastChoice(later, k - 1) by {
        forall j | k - 1 < j < |later| ensures later[j] != later[k - 1] {
          assert numbers[j + 1] != numbers[k];
        }
      }
      ReplacedPlacesPoppedCards(h, d, later, k - 1);
      assert d[|d| - 1 - (k - 1)] == deck[|deck| - 1 - k];
    }
  }

  /** No later number names the same position as the `k`-th: its card stays there. */
  predicate LastChoice(numbers: seq<nat>, k: nat)
    requires k < |numbers|
  {
    forall j :: k < j < |numbers| ==> numbers[j] != numbers[k]
  }

  /** One replacement takes the popped card out of the deck and the replaced card out of play. */
  lemma ReplaceOneCards(hand: seq<Card>, deck: seq<Card>, k: nat)
    requires k < |hand| && deck != []
    ensures multiset(hand[k := deck[|deck| - 1]] + deck[..|deck| - 1]) + multiset{hand[k]} == multiset(hand + deck)
  {
    var c := deck[|deck| - 1];
    assert hand == hand[..k] + [hand[k]] + hand[k + 1..];
    assert hand[k := c] == hand[..k] + [c] + hand[k + 1..];
    assert deck == deck[..|deck| - 1] + [c];
  }

  /** Replacing never duplicates a card: a hand and deck without duplicates stay without them. */
  lemma {:induction false} ReplacedKeepsDistinct(hand: seq<Card>, deck: seq<Card>, numbers: seq<nat>)
    requires ValidNumbers(numbers, |hand|) && |numbers| <= |deck|
    requires Distinct(hand + deck)
    ensures Distinct(Replaced(hand, deck, numbers).0 + Replaced(hand, deck, numbers).1)
    decreases |numbers|
  {
    if numbers != [] {
      var k := numbers[0] - 1;
      var h, d := hand[k := deck[|deck| - 1]], deck[..|deck| - 1];
      ReplaceOneKeepsDistinct(hand, deck, k);
      assert ValidNumbers(numbers[1..], |h|) by {
        assert forall j :: 0 <= j < |numbers[1..]| ==> numbers[1..][j] == numbers[j + 1];
      }
      ReplacedKeepsDistinct(h, d, numbers[1..]);
    }
  }

  /** One replacement keeps hand and deck without duplicates. */
  lemma ReplaceOneKeepsDistinct(hand: seq<Card>, deck: seq<Card>, k: nat)
    requires k < |hand| && deck != []
    requires Distinct(hand + deck)
    ensures Distinct(hand[k := deck[|deck| - 1]] + deck[..|deck| - 1])
  {
    ReplaceOneCards(hand, deck, k);
    SubCollectionDistinct(hand + deck, hand[k := deck[|deck| - 1]] + deck[..|deck| - 1]);
  }

  /** Without duplicates, every card occurs at most once. */
  lemma {:induction false} DistinctCounts(s: seq<Card>)
    requires Distinct(s)
    ensures forall x :: multiset(s)[x] <= 1
  {
    if s != [] {
      var init, last := s[..|s| - 1], s[|s| - 1];
      assert s == init + [last];
      assert Distinct(init);
      DistinctCounts(init);
      assert last !in init;
    }
  }

  /** Every card occurring at most once means there are no duplicates. */
  lemma CountsDistinct(s: seq<Card>)
    requires forall x :: multiset(s)[x] <= 1
    ensures Distinct(s)
  {
    forall i, j | 0 <= i < j < |s| ensures s[i] != s[j] {
      SameCardTwice(s, i, j);
    }
  }

  /** A card at two positions occurs at least twice. */
  lemma SameCardTwice(s: seq<Card>, i: nat, j: nat)
    requires i < j < |s|
    ensures s[i] == s[j] ==> multiset(s)[s[i]] >= 2
  {
    if s[i] == s[j] {
      assert s == s[..j] + s[j..];
      assert s[i] in multiset(s[..j]) && s[j] in multiset(s[j..]);
    }
  }

  /** The replacement loop, over the chosen numbers in input order. */
  method ReplaceCards(hand: seq<Card>, deck: seq<Card>, numbers: seq<nat>) returns (newHand: seq<Card>, newDeck: seq<Card>)
    requires ValidNumbers(numbers, |hand|) && |numbers| <= |deck|
    ensures (newHand, newDeck) == Replaced(hand, deck, numbers)
  {
    newHand, newDeck := hand, deck;
    assert numbers[0..] == numbers;
    for t := 0 to |numbers|
      invariant |newHand| == |hand| && |newDeck| == |deck| - t
      invariant ValidNumbers(numbers[t..], |newHand|)
      invariant Replaced(newHand, newDeck, numbers[t..]) == Replaced(hand, deck, numbers)
    {
      assert numbers[t..][0] == numbers[t] && numbers[t..][1..] == numbers[t + 1..];
      newHand := newHand[numbers[t] - 1 := newDeck[|newDeck| - 1]];
      newDeck := newDeck[..|newDeck| - 1];
    }
  }

  // ------------------------------------------------------------ the score

  /** The flush test: every card has the suit of the first. */
  predicate IsFlush(hand: seq<Card>)
    requires |hand| > 0
  {
    forall i :: 0 <= i < |hand| ==> hand[i].suit == hand[0].suit
  }

  /** Comparing with the first card is comparing every two cards. */
  lemma FlushPairwise(hand: seq<Card>)
    requires |hand| > 0
    ensures IsFlush(hand) <==> forall i, j :: 0 <= i < |hand| && 0 <= j < |hand| ==> hand[i].suit == hand[j].suit
  {
  }

  /** The flush test does not depend on the order of the hand, so sorting does not change it. */
  lemma FlushOrderFree(a: seq<Card>, b: seq<Card>)
    requires |a| > 0 && multiset(a) == multiset(b)
    ensures |b| > 0 && (IsFlush(a) <==> IsFlush(b))
  {
    assert a[0] in multiset(b);
    assert |b| > 0;
    assert b[0] in multiset(a);
    if IsFlush(a) {
      forall i | 0 <= i < |b| ensures b[i].suit == b[0].suit {
        assert b[i] in multiset(a);
      }
    }
    if IsFlush(b) {
      forall i | 0 <= i < |a| ensures a[i].suit == a[0].suit {
        assert a[i] in multiset(b);
      }
    }
  }

  /** The number of positions `b` with `i < b < j` holding the rank of position `i`. */
  function RankMatches(hand: seq<Card>, i: nat, j: nat): nat
    requires i < |hand| && j <= |hand|
    decreases j
  {
    if j <= i + 1 then 0
    else RankMatches(hand, i, j - 1) + (if hand[j - 1].rank == hand[i].rank then 1 else 0)
  }

  /** The pairs counted by rows `0 .. i - 1` of the nested counting loop. */
  function RowsBefore(hand: seq<Card>, i: nat): nat
    requires i <= |hand|
  {
    if i == 0 then 0 else RowsBefore(hand, i - 1) + RankMatches(hand, i - 1, |hand|)
  }

  /** The `count` of the nested loop: every row of the loop, summed. */
  function PairCount(hand: seq<Card>): nat
  {
    RowsBefore(hand, |hand|)
  }

  /** The index pairs `(a, b)` with `a < i` and `a < b` whose cards have equal rank. */
  ghost function PairsBefore(hand: seq<Card>, i: nat): set<(int, int)>
    requires i <= |hand|
  {
    set a, b | 0 <= a < i && a < b < |hand| && hand[a].rank == hand[b].rank :: (a, b)
  }

  ghost function RowPairs(hand: seq<Card>, i: nat, j: nat): set<(int, int)>
    requires i < |hand| && j <= |hand|
  {
    set b | i < b < j && hand[b].rank == hand[i].rank :: (i, b)
  }

  lemma {:induction false} RowPairsCount(hand: seq<Card>, i: nat, j: nat)
    requires i < |hand| && j <= |hand|
    ensures |RowPairs(hand, i, j)| == RankMatches(hand, i, j)
    decreases j
  {
    if j <= i + 1 {
      assert RowPairs(hand, i, j) == {};
    } else {
      RowPairsCount(hand, i, j - 1);
      if hand[j - 1].rank == hand[i].rank {
        assert RowPairs(hand, i, j) == RowPairs(hand, i, j - 1) + {(i, j - 1)};
        assert (i, j - 1) !in RowPairs(hand, i, j - 1);
      } else {
        assert RowPairs(hand, i, j) == RowPairs(hand, i, j - 1);
      }
    }
  }

  lemma {:induction false} PairsBeforeCount(hand: seq<Card>, i: nat)
    requires i <= |hand|
    ensures |PairsBefore(hand, i)| == RowsBefore(hand, i)
  {
    if i == 0 {
      assert PairsBefore(hand, i) == {};
    } else {
      PairsBeforeCount(hand, i - 1);
      RowPairsCount(hand, i - 1, |hand|);
      PairsBeforeSplit(hand, i);
    }
  }

  /** Row `i - 1` adds its pairs to those of the rows before it, and shares none with them. */
  lemma PairsBeforeSplit(hand: seq<Card>, i: nat)
    requires 0 < i <= |hand|
    ensures |PairsBefore(hand, i)| == |PairsBefore(hand, i - 1)| + |RowPairs(hand, i - 1, |hand|)|
  {
    var before, row := PairsBefore(hand, i - 1), RowPairs(hand, i - 1, |hand|);
    forall p | p in PairsBefore(hand, i) ensures p in before + row {
      if p.0 < i - 1 {
        assert p in before;
      } else {
        assert p in row;
      }
    }
    forall p | p in row ensures p !in before {
      assert p.0 == i - 1;
    }
    assert PairsBefore(hand, i) == before + row;
  }

  /** `count` is the number of index pairs `i < j` whose cards have equal rank. */
  lemma PairCountIsEqualRankPairs(hand: seq<Card>)
    ensures PairCount(hand) == |set a, b | 0 <= a < b < |hand| && hand[a].rank == hand[b].rank :: (a, b)|
  {
    PairsBeforeCount(hand, |hand|);
    assert PairsBefore(hand, |hand|) == set a, b | 0 <= a < b < |hand| && hand[a].rank == hand[b].rank :: (a, b);
  }

  /** The nested pair-counting loops; the outer one stops before the last card, whose row is empty. */
  method CountPairs(hand: seq<Card>) returns (count: nat)
    requires |hand| >= 1
    ensures count == PairCount(hand)
  {
    count := 0;
    for i := 0 to |hand| - 1
      invariant count == RowsBefore(hand, i)
    {
      for j := i + 1 to |hand|
        invariant count == RowsBefore(hand, i) + RankMatches(hand, i, j)
      {
        if hand[i].rank == hand[j].rank {
          count := count + 1;
        }
      }
    }
    assert RankMatches(hand, |hand| - 1, |hand|) == 0;
  }

  /** A flush of different cards has no two cards of equal rank. */
  lemma {:induction false} DistinctFlushHasNoPair(hand: seq<Card>, i: nat)
    requires |hand| > 0 && IsFlush(hand) && Distinct(hand)
    requires i <= |hand|
    ensures RowsBefore(hand, i) == 0
  {
    if i > 0 {
      DistinctFlushHasNoPair(hand, i - 1);
      NoMatchesInRow(hand, i - 1, |hand|);
    }
  }

  lemma {:induction false} NoMatchesInRow(hand: seq<Card>, i: nat, j: nat)
    requires |hand| > 0 && IsFlush(hand) && Distinct(hand)
    requires i < |hand| && j <= |hand|
    ensures RankMatches(hand, i, j) == 0
    decreases j
  {
    if j > i + 1 {
      NoMatchesInRow(hand, i, j - 1);
      assert hand[j - 1] != hand[i];
    }
  }

  /** The hands the game announces, in priority order. */
  datatype Role = Flush | ThreeCard | TwoPair | OnePair | NoRole

  /** The announcement: flush first, then by the pair count. */
  function Classify(flush: bool, count: nat): Role
  {
    if flush then Flush
    else if count >= 3 then ThreeCard
    else if count == 2 then TwoPair
    else if count == 1 then OnePair
    else NoRole
  }

  function Same(hand: seq<Card>, a: nat, b: nat): nat
    requires a < |hand| && b < |hand|
  {
    if hand[a].rank == hand[b].rank then 1 else 0
  }

  /** For five cards the count is the sum over the ten pairs of positions. */
  lemma PairCountFive(h: seq<Card>)
    requires |h| == 5
    ensures PairCount(h) == Same(h, 0, 1) + Same(h, 0, 2) + Same(h, 0, 3) + Same(h, 0, 4)
                          + Same(h, 1, 2) + Same(h, 1, 3) + Same(h, 1, 4)
                          + Same(h, 2, 3) + Same(h, 2, 4) + Same(h, 3, 4)
  {
    assert RankMatches(h, 0, 5) == Same(h, 0, 1) + Same(h, 0, 2) + Same(h, 0, 3) + Same(h, 0, 4) by {
      assert RankMatches(h, 0, 2) == Same(h, 0, 1);
      assert RankMatches(h, 0, 3) == RankMatches(h, 0, 2) + Same(h, 0, 2);
      assert RankMatches(h, 0, 4) == RankMatches(h, 0, 3) + Same(h, 0, 3);
    }
    assert RankMatches(h, 1, 5) == Same(h, 1, 2) + Same(h, 1, 3) + Same(h, 1, 4) by {
      assert RankMatches(h, 1, 3) == Same(h, 1, 2);
      assert RankMatches(h, 1, 4) == RankMatches(h, 1, 3) + Same(h, 1, 3);
    }
    assert RankMatches(h, 2, 5) == Same(h, 2, 3) + Same(h, 2, 4) by {
      assert RankMatches(h, 2, 4) == Same(h, 2, 3);
    }
    assert RankMatches(h, 3, 5) == Same(h, 3, 4);
    assert RankMatches(h, 4, 5) == 0;
    assert RowsBefore(h, 1) == RankMatches(h, 0, 5);
    assert RowsBefore(h, 2) == RowsBefore(h, 1) + RankMatches(h, 1, 5);
    assert RowsBefore(h, 3) == RowsBefore(h, 2) + RankMatches(h, 2, 5);
    assert RowsBefore(h, 4) == RowsBefore(h, 3) + RankMatches(h, 3, 5);
    assert PairCount(h) == RowsBefore(h, 4) + RankMatches(h, 4, 5);
  }

  /** Three of a kind: three pairs. */
  lemma ThreeOfAKindExample(h: seq<Card>)
    requires h == [Card(Club, 2), Card(Diamond, 2), Card(Heart, 2), Card(Club, 5), Card(Spade, 9)]
    ensures PairCount(h) == 3 && Classify(IsFlush(h), PairCount(h)) == ThreeCard
  {
    PairCountFive(h);
    assert h[1].suit != h[0].suit;
  }

  /** A full house has four pairs and is announced as three of a kind. */
  lemma FullHouseExample(h: seq<Card>)
    requires h == [Card(Club, 2), Card(Diamond, 2), Card(Heart, 2), Card(Club, 5), Card(Spade, 5)]
    ensures PairCount(h) == 4 && Classify(IsFlush(h), PairCount(h)) == ThreeCard
  {
    PairCountFive(h);
    assert h[1].suit != h[0].suit;
  }

  /** Four of a kind has six pairs and is announced as three of a kind. */
  lemma FourOfAKindExample(h: seq<Card>)
    requires h == [Card(Club, 2), Card(Diamond, 2), Card(Heart, 2), Card(Spade, 2), Card(Spade, 5)]
    ensures PairCount(h) == 6 && Classify(IsFlush(h), PairCount(h)) == ThreeCard
  {
    PairCountFive(h);
    assert h[1].suit != h[0].suit;
  }

  lemma TwoPairExample(h: seq<Card>)
    requires h == [Card(Club, 2), Card(Diamond, 2), Card(Heart, 5), Card(Club, 5), Card(Spade, 9)]
    ensures PairCount(h) == 2 && Classify(IsFlush(h), PairCount(h)) == TwoPair
  {
    PairCountFive(h);
    assert h[1].suit != h[0].suit;
  }

  lemma OnePairExample(h: seq<Card>)
    requires h == [Card(Club, 2), Card(Diamond, 2), Card(Heart, 4), Card(Club, 5), Card(Spade, 9)]
    ensures PairCount(h) == 1 && Classify(IsFlush(h), PairCount(h)) == OnePair
  {
    PairCountFive(h);
    assert h[1].suit != h[0].suit;
  }

  /** A flush is announced as such whatever its ranks. */
  lemma FlushExample(h: seq<Card>)
    requires h == [Card(Club, 2), Card(Club, 3), Card(Club, 7), Card(Club, 10), Card(Club, 13)]
    ensures PairCount(h) == 0 && Classify(IsFlush(h), PairCount(h)) == Flush
  {
    PairCountFive(h);
  }

  /**
   * The game after the shuffle: draw five, sort, replace the chosen cards,
   * sort again, and announce the hand.
   */
  method Play(deck: seq<Card>, numbers: seq<nat>) returns (hand: seq<Card>, left: seq<Card>, role: Role)
    requires multiset(deck) == multiset(FullDeck())
    requires ValidNumbers(numbers, 5) && |numbers| <= 47
    ensures |deck| == 52 && var after := Replaced(SortByRank(Drawn(deck)), deck[..47], numbers);
      hand == SortByRank(after.0) && left == after.1
    ensures |hand| == 5 && SortedBy(hand, RankOf) && Distinct(hand)
    ensures forall c :: c in hand ==> c in deck
    ensures role == Classify(IsFlush(hand), PairCount(hand))
  {
    ShuffledDeck(deck);
    var drawn, rest := DrawHand(deck);
    var sorted := SortByRank(drawn);
    RearrangedCards(deck, sorted, rest);
    var replaced;
    replaced, left := ReplaceCards(sorted, rest, numbers);
    ReplacedKeepsDistinct(sorted, rest, numbers);
    hand := SortByRank(replaced);
    FinalCards(sorted, rest, replaced, left, hand);
    var flush := IsFlush(hand);
    var count := CountPairs(hand);
    role := Classify(flush, count);
  }

  /** A shuffled deck has the 52 cards of the full deck, all different. */
  lemma ShuffledDeck(deck: seq<Card>)
    requires multiset(deck) == multiset(FullDeck())
    ensures |deck| == 52 && Distinct(deck)
  {
    assert |multiset(deck)| == |multiset(FullDeck())|;
    FullDeckDistinct();
    SubCollectionDistinct(FullDeck(), deck);
  }

  /** The sorted draw and the rest of the deck are the deck's cards, without duplicates. */
  lemma RearrangedCards(deck: seq<Card>, hand: seq<Card>, rest: seq<Card>)
    requires Distinct(deck) && multiset(hand) + multiset(rest) == multiset(deck)
    ensures Distinct(hand + rest)
    ensures forall c :: c in hand + rest ==> c in deck
  {
    assert multiset(hand + rest) == multiset(deck);
    SubCollectionDistinct(deck, hand + rest);
    forall c | c in hand + rest ensures c in deck {
      assert c in multiset(hand + rest);
    }
  }

  /** The final hand has different cards, each from the hand or deck before the replacement. */
  lemma FinalCards(hand: seq<Card>, deck: seq<Card>, replaced: seq<Card>, left: seq<Card>, final: seq<Card>)
    requires Distinct(replaced + left) && multiset(final) == multiset(replaced)
    requires forall i :: 0 <= i < |replaced| ==> replaced[i] in hand + deck
    ensures Distinct(final)
    ensures forall c :: c in final ==> c in hand + deck
  {
    assert multiset(replaced) <= multiset(replaced + left);
    SubCollectionDistinct(replaced + left, final);
    forall c | c in final ensures c in hand + deck {
      assert c in multiset(replaced);
    }
  }

  /** Taking some of the cards of a collection without duplicates gives one without duplicates. */
  lemma SubCollectionDistinct(a: seq<Card>, b: seq<Card>)
    requires Distinct(a) && multiset(b) <= multiset(a)
    ensures Distinct(b)
  {
    DistinctCounts(a);
    assert forall x :: multiset(b)[x] <= multiset(a)[x];
    CountsDistinct(b);
  }
}
