# rust-book1-learn, modelled in Dafny

This project models the exercise programs of sc2hool8win/rust-book1-learn and
proves properties of them.

- **Calendar** (`calendar.dfy`, chapter 8): a study-session calendar. A new schedule gets the next id. It is refused when its time range meets a stored one.
  Schedules are deleted by id. The calendar is a class whose `schedules` field the two operations update.
- **Calculator 5-4** (`calculator54.dfy`): a line-at-a-time calculator.
  - A line is a single binary operation `left op right` on numbers and memory reads `memX`.
  - Or it is a memory write `memX+` / `memX-`, which adds the previous result to slot `X` or subtracts it.
- **Calculator 5-5** (`calculator55.dfy`, `calculator55_grammar.dfy`): the same calculator with a tokenizer and a recursive-descent evaluator.
  - `*` and `/` bind tighter than `+` and `-`.
  - Both levels fold from the left, and parentheses nest.
  - The grammar file proves the evaluator right against expression trees.
- **Shared pieces**:
  - `whitespace.dfy`: splitting a line with `split(char::is_whitespace)`.
  - `slots.dfy`: the memory slots, a `HashMap<String, f64>` updated through the entry API.
  - `console.dfy`: what one line of the read-eval-print loop produces.
- **Poker** (`poker.dfy`, chapter 4):
  - Builds the 52-card deck, draws five cards from its end and sorts them by rank.
  - Replaces the cards the player names, then announces a flush or the number of equal-rank pairs.
- **Merge** (`merge_array.dfy`, chapter 13): two ways to combine two integer vectors.
  - `solve1` concatenates and sorts; `solve2` merges.
  - `sorting.dfy` stands for the standard library's stable sort.
- **Parenthesis** (`parenthesis.dfy`, chapter 13): the one-pass test of whether a character vector is a correct sequence of parentheses.
- **Bookshelf** (`library.dfy`, chapter 7): a shelf of books with exact and partial title search.

How the model is built:

- Each loop of the source is a Dafny method with its loop. Most methods are proved equal to a specification function, and the properties are proved about those functions.
  - `MergeArray.Solve1` is proved sorted and a permutation of its inputs.
  - `Poker.DrawHand` and `Poker.Play` are tied to the functions `Drawn`, `SortByRank`, `Replaced` and `Classify`, and state the properties of the hand directly.
- Values of type `f64` are reals.
- In the calculators a panic is an explicit outcome: an index out of range, a failing `unwrap`, `assert_eq!` or `unreachable!()`.
  The calendar's operations have no reachable panic: `last().unwrap()` runs only on a non-empty list.
  The poker game's panics (a card number outside 1 to 5, an empty deck) are excluded by preconditions instead.
- In calculator 5-5 a division by zero gives the non-finite value None. Evaluation carries it to the end of the line, so a later syntax error still panics.
  Calculator 5-4 performs a single operation per line, so there a division by zero is the outcome NotFinite.
- Parsing a number is the parameter `number: string -> Option<real>`. It returns None where `str::parse` fails.

## Model

| member | source | states |
|---|---|---|
| Calendar.Intersects | chapter8/src/main.rs:22-24 | the overlap test of two half-open ranges; its meaning is stated by the three lemmas below |
| Calendar.IntersectsSymmetric | chapter8/src/main.rs:22-24 | the overlap test does not depend on which schedule is asked |
| Calendar.IntersectsIffSharedInstant | chapter8/src/main.rs:22-24 | for ranges with start before end, two schedules intersect exactly when some instant lies in both half-open ranges; ranges that only touch do not intersect |
| Calendar.SharedInstantIntersects | chapter8/src/main.rs:22-24 | two schedules covering a common instant intersect, with no condition on the ranges |
| Calendar.IntersectsExamples | chapter8/src/main.rs:184-211 | the six parameterised cases of the overlap test against 19:00-20:00: two disjoint, four intersecting |
| Calendar.NextId | chapter8/src/main.rs:128-132 | the id a new schedule gets; `NextIdIsFresh`, `DeleteKeepsNextId` and `DeletingLastReusesId` state what it guarantees |
| Calendar.Conflicts | chapter8/src/main.rs:140-145 | some stored schedule intersects the new one; `AddedOutcome` and `AddedKeepsDisjoint` use it |
| Calendar.Added | chapter8/src/main.rs:121-151 | the outcome and new list of `add_schedule`; `AddSchedule` computes it and the lemmas below state its properties |
| Calendar.NextIdIsFresh | chapter8/src/main.rs:128-132 | with increasing ids, the id given to a new schedule is larger than every stored id |
| Calendar.AddedOutcome | chapter8/src/main.rs:121-151 | a schedule meeting a stored one is refused and nothing changes; otherwise it is appended with the next id and everything before stays |
| Calendar.AddedKeepsIdsIncreasing | chapter8/src/main.rs:128-148 | adding keeps ids strictly increasing, hence unique |
| Calendar.AddedKeepsDisjoint | chapter8/src/main.rs:140-148 | adding keeps the stored schedules pairwise non-intersecting |
| Calendar.FirstIndexOf | chapter8/src/main.rs:155-160 | the index found holds the id and no earlier one does; none is found exactly when no schedule has the id |
| Calendar.Deleted | chapter8/src/main.rs:153-162 | the list after `delete_schedule`; `DeleteSchedule` computes it and the lemmas below state its properties |
| Calendar.DeletedOutcome | chapter8/src/main.rs:153-162 | deleting a present id removes exactly the first schedule with it; a missing id changes nothing |
| Calendar.DeletedKeepsIdsIncreasing | chapter8/src/main.rs:153-162 | deleting keeps ids strictly increasing |
| Calendar.DeletedKeepsDisjoint | chapter8/src/main.rs:153-162 | deleting keeps the schedules pairwise non-intersecting |
| Calendar.DeletedIdIsGone | chapter8/src/main.rs:153-162 | with unique ids, no schedule carries the deleted id afterwards |
| Calendar.DeleteKeepsNextId | chapter8/src/main.rs:335-365 | deleting any schedule but the last leaves the next id as it was: after deleting id 0 the next add gets id 3 |
| Calendar.DeletingLastReusesId | chapter8/src/main.rs:128-132 | when the last two ids are consecutive, deleting the last schedule makes the next add hand out its id again |
| Calendar.CalendarTestsExample | chapter8/src/main.rs:213-365 | the add, delete and add-after-delete unit tests give the expected lists, and deleting id 2 reports success |
| Calendar.Calendar.AddSchedule | chapter8/src/main.rs:121-151 | the loop over stored schedules returns whether the schedule was stored and leaves the list that `Added` describes |
| Calendar.Calendar.DeleteSchedule | chapter8/src/main.rs:153-162 | returns true exactly when some schedule had the id; the new list is the one `Deleted` describes |
| Whitespace.IsWhitespace | chapter5/calculator-5-4/src/main.rs:18 | the characters `char::is_whitespace` accepts: the Unicode White_Space property, listed code point by code point |
| Whitespace.Pieces | chapter5/calculator-5-4/src/main.rs:18 | splitting gives at least one piece, and no piece contains whitespace |
| Whitespace.PiecesCount | chapter5/calculator-5-4/src/main.rs:18 | there is one piece more than there are whitespace characters, so consecutive separators give empty pieces |
| Whitespace.JoinPieces | chapter5/calculator-5-4/src/main.rs:18 | when every separator is a space, joining the pieces with spaces gives the line back |
| Whitespace.Separators | chapter5/calculator-5-4/src/main.rs:18 | the whitespace characters of a line, in order: one per whitespace character, each of them whitespace |
| Whitespace.JoinPiecesWith | chapter5/calculator-5-4/src/main.rs:18 | there is one piece more than separators, and joining the pieces with the line's own separators gives the line back |
| Whitespace.PiecesOfJoinWith | chapter5/calculator-5-4/src/main.rs:18 | words without whitespace joined by any whitespace characters split back into those words |
| Whitespace.PiecesOfJoin | chapter5/calculator-5-5/src/main.rs:118-120 | splitting words joined by single spaces gives the words back |
| Whitespace.PiecesOfWord | chapter5/calculator-5-5/src/main.rs:118-120 | a word without whitespace is one piece |
| Whitespace.PiecesOfWordThenSeparator | chapter5/calculator-5-5/src/main.rs:118-120 | a word followed by a whitespace character splits off as the first piece |
| Slots.Lookup | chapter5/calculator-5-5/src/main.rs:75-77 | the value of a slot, 0 for a slot never written; `LookupAccumulated` states how it changes |
| Slots.Accumulated | chapter5/calculator-5-5/src/main.rs:60-73 | adding to a slot creates it if vacant; its new value is its old reading plus the amount; no other slot changes |
| Slots.LookupAccumulated | chapter5/calculator-5-5/src/main.rs:60-77 | reading after an add sees the added slot moved by the amount and every other slot as before |
| Calculator55.ParseToken | chapter5/calculator-5-5/src/main.rs:94-116 | parsing fails exactly for a piece that is no operator, does not start with `mem`, and is no number; a number token carries the parsed value |
| Calculator55.ParseText | chapter5/calculator-5-5/src/main.rs:94-116 | every non-number token is parsed back from its spelling, so printing then parsing is the identity |
| Calculator55.TextOfParsed | chapter5/calculator-5-5/src/main.rs:94-116 | a piece parsed to a non-number token is exactly that token's spelling, so parsing then printing is the identity |
| Calculator55.ParseAll | chapter5/calculator-5-5/src/main.rs:118-120 | on success there is one token per piece, in order, each the parse of its piece; on failure some piece does not parse |
| Calculator55.ParseSingle | chapter5/calculator-5-5/src/main.rs:118-120 | a single piece tokenises to its single token |
| Calculator55.SplitJoined | chapter5/calculator-5-5/src/main.rs:118-120 | a line of token spellings separated by single spaces tokenises to those tokens |
| Calculator55.SplitTokens | chapter5/calculator-5-5/src/main.rs:118-120 | tokenising a line is parsing its whitespace pieces; `ParseAll` states the piece-by-piece result and `SplitJoined` its round trip |
| Calculator55.Memory.constructor | chapter5/calculator-5-5/src/main.rs:54-58 | a new memory has no slots |
| Calculator55.Memory.Add | chapter5/calculator-5-5/src/main.rs:60-73 | the slots become the accumulated map, and the result is the slot's new total |
| Calculator55.Memory.Get | chapter5/calculator-5-5/src/main.rs:75-77 | the stored value, or 0 for a slot never written |
| Calculator55.Primary | chapter5/calculator-5-5/src/main.rs:174-198 | a successful primary consumes at least one token and stays within the list |
| Calculator55.MultiplicativeTail | chapter5/calculator-5-5/src/main.rs:156-170 | the loop never moves backwards or past the end |
| Calculator55.Multiplicative | chapter5/calculator-5-5/src/main.rs:152-172 | a successful term consumes at least one token |
| Calculator55.AdditiveTail | chapter5/calculator-5-5/src/main.rs:134-148 | the loop never moves backwards or past the end |
| Calculator55.Additive | chapter5/calculator-5-5/src/main.rs:130-150 | a successful expression consumes at least one token |
| Calculator55.Expression | chapter5/calculator-5-5/src/main.rs:123-128 | success means every token was consumed; tokens left over panic |
| Calculator55.EvalExpression | chapter5/calculator-5-5/src/main.rs:123-128 | the method computes the outcome `Expression` specifies |
| Calculator55.EvalAdditiveExpression | chapter5/calculator-5-5/src/main.rs:130-150 | the `+`/`-` loop computes the outcome `Additive` specifies |
| Calculator55.EvalMultiplicativeExpression | chapter5/calculator-5-5/src/main.rs:152-172 | the `*`/`/` loop computes the outcome `Multiplicative` specifies; a zero divisor makes the value non-finite |
| Calculator55.EvalPrimaryExpression | chapter5/calculator-5-5/src/main.rs:174-198 | the method computes the outcome `Primary` specifies: a parenthesised expression, a number or a memory read; anything else panics |
| Calculator55.Respond | chapter5/calculator-5-5/src/main.rs:10-43 | an empty line, and only an empty line, stops; slots are never lost; a line that writes memory leaves the previous result alone and prints; a line that changes the previous result leaves memory alone and prints the new result |
| Calculator55.RespondTokens | chapter5/calculator-5-5/src/main.rs:21-43 | a tokenised line never stops the loop; slots are never lost; a memory write leaves the previous result alone and prints; a new previous result leaves memory alone and is printed |
| Calculator55.WriteThenRead | chapter5/calculator-5-5/src/main.rs:21-41 | `memX+` prints the slot's new total, and a later line `memX` prints that total and stores it as the previous result |
| Calculator55.ProcessLine | chapter5/calculator-5-5/src/main.rs:10-43 | one pass of the loop in `main` produces the reply, memory and previous result that `Respond` specifies |
| Calculator55.ProcessTokens | chapter5/calculator-5-5/src/main.rs:21-43 | a tokenised line, a memory write or an evaluation, produces what `RespondTokens` specifies |
| Calculator55Grammar.PrimaryOfPrinted | chapter5/calculator-5-5/src/main.rs:174-198 | a printed primary evaluates to the tree's value and ends just past its tokens |
| Calculator55Grammar.MultiplicativeSpine | chapter5/calculator-5-5/src/main.rs:156-170 | the `*`/`/` loop folds a left-nested chain of terms from the left |
| Calculator55Grammar.MultiplicativeOfPrinted | chapter5/calculator-5-5/src/main.rs:152-172 | a printed term evaluates to the tree's value when no `*`/`/` follows it |
| Calculator55Grammar.AdditiveSpine | chapter5/calculator-5-5/src/main.rs:134-148 | the `+`/`-` loop folds a left-nested chain of terms from the left |
| Calculator55Grammar.AdditiveOfPrinted | chapter5/calculator-5-5/src/main.rs:130-150 | a printed expression evaluates to the tree's value when no operator follows it |
| Calculator55Grammar.ExpressionOfPrinted | chapter5/calculator-5-5/src/main.rs:123-128 | every expression tree, printed with parentheses only where precedence needs them, evaluates to its value, a non-finite value when it divides by zero |
| Calculator55Grammar.PrecedenceExample | chapter5/calculator-5-5/src/main.rs:130-172 | `1 + 2 * 3` is 7 |
| Calculator55Grammar.LeftAssociativeExample | chapter5/calculator-5-5/src/main.rs:130-150 | `8 - 3 - 2` is 3 |
| Calculator55Grammar.ParenthesesExample | chapter5/calculator-5-5/src/main.rs:174-184 | `( 1 + 2 ) * 3` is 9 |
| Calculator55Grammar.DivisionByZeroExample | chapter5/calculator-5-5/src/main.rs:152-198 | `1 / 0` is non-finite, but with a stray `)` or `+` after it, or an unclosed `(` before it, the line still panics |
| Calculator54.WriteSlot | chapter5/calculator-5-4/src/main.rs:69 | a write token is `mem`, the slot name, and the sign |
| Calculator54.ReadSlot | chapter5/calculator-5-4/src/main.rs:85 | a read token is `mem` followed by the slot name |
| Calculator54.SlotNames | chapter5/calculator-5-4/src/main.rs:68-92 | `memX+`, `memX-` and `memX` name the same slot `X` |
| Calculator54.Memory.constructor | chapter5/calculator-5-4/src/main.rs:62-66 | a new memory has no slots |
| Calculator54.Memory.Add | chapter5/calculator-5-4/src/main.rs:68-82 | the slot named by the write token accumulates the amount; the result is its new total |
| Calculator54.Memory.Get | chapter5/calculator-5-4/src/main.rs:84-92 | the value of the slot named by the read token, or 0 for a slot never written |
| Calculator54.EvalToken | chapter5/calculator-5-4/src/main.rs:95-101 | a `mem` token reads its slot; any other token is the number it parses to, or fails |
| Calculator54.EvalExpression | chapter5/calculator-5-4/src/main.rs:103-114 | it panics exactly on an unknown operator, is NotFinite exactly on division by zero, and a quotient times the divisor gives the dividend |
| Calculator54.Written | chapter5/calculator-5-4/src/main.rs:21-30 | a memory write leaves the previous result alone, adds the previous result to the slot for `+` and subtracts it for `-`, and prints the slot's new total |
| Calculator54.Evaluated | chapter5/calculator-5-4/src/main.rs:32-50 | the memory is unchanged; the line prints a value exactly when both operands evaluate and the operation succeeds, and that value is the operation's result |
| Calculator54.Respond | chapter5/calculator-5-4/src/main.rs:10-51 | an empty line, and only an empty line, stops; slots are never lost; a memory write leaves the previous result alone and prints; a line that changes the previous result leaves memory alone and prints the new result |
| Calculator54.ThreePieces | chapter5/calculator-5-4/src/main.rs:18 | three words without whitespace separated by single spaces split into those three pieces |
| Calculator54.ExpressionLine | chapter5/calculator-5-4/src/main.rs:17-50 | a line `left op right` that is no memory write panics when an operand fails to evaluate, and otherwise prints and keeps the operation's result, or reports it non-finite or panics as the operation does; the memory is left alone |
| Calculator54.WriteThenRead | chapter5/calculator-5-4/src/main.rs:21-35 | `memX+` prints the slot's new total, and a later line `memX + 0` prints that total and stores it as the previous result |
| Calculator54.ProcessLine | chapter5/calculator-5-4/src/main.rs:10-51 | one pass of the loop in `main` produces the reply, memory and previous result that `Respond` specifies |
| Calculator54.ReadToken | chapter5/calculator-5-4/src/main.rs:95-101 | `eval_token` on the memory object, reading `mem` tokens through `Memory.Get`, gives what `EvalToken` specifies |
| Calculator54.EvaluateTokens | chapter5/calculator-5-4/src/main.rs:32-50 | a line that is no memory write produces the reply and previous result that `Evaluated` specifies |
| Poker.FullDeck | chapter4/src/main.rs:18-26 | the deck as built: 52 cards; the two lemmas below say which cards |
| Poker.FullDeckComplete | chapter4/src/main.rs:18-26 | a card is in the deck exactly when its rank is between 1 and 13, for every suit |
| Poker.FullDeckDistinct | chapter4/src/main.rs:18-26 | the 52 cards of the deck are all different |
| Poker.BuildDeck | chapter4/src/main.rs:18-26 | the nested loops build the deck suit by suit, ranks 1 to 13 |
| Poker.Drawn | chapter4/src/main.rs:38-41 | the five cards popped from the end of the deck, last card first; all of them come from the deck |
| Poker.DrawHand | chapter4/src/main.rs:38-41 | the loop draws `Drawn`: five cards off the end of the deck, last card first; the deck keeps the rest; no card is gained or lost |
| Poker.SortByRank | chapter4/src/main.rs:44 | the sorted hand is in rank order and holds the same cards |
| Poker.Replaced | chapter4/src/main.rs:64-66 | the hand keeps its size and the deck loses one card from its end per number; positions not named keep their card; every card in the new hand was in the hand or the deck |
| Poker.ReplacedPlacesPoppedCards | chapter4/src/main.rs:64-66 | the position a number names last holds the card popped for that number: the k-th number gets the k-th card from the end of the deck |
| Poker.ReplaceOneCards | chapter4/src/main.rs:65 | one replacement keeps every card but the one replaced |
| Poker.ReplacedKeepsDistinct | chapter4/src/main.rs:64-66 | replacing never duplicates a card across hand and deck |
| Poker.ReplaceCards | chapter4/src/main.rs:64-66 | the loop over the numbers produces the hand and deck that `Replaced` specifies |
| Poker.IsFlush | chapter4/src/main.rs:78-79 | every card has the suit of the first; `FlushPairwise` and `FlushOrderFree` state its meaning |
| Poker.FlushPairwise | chapter4/src/main.rs:78-79 | comparing every card with the first is comparing every two cards |
| Poker.FlushOrderFree | chapter4/src/main.rs:69-79 | the flush test does not depend on card order, so sorting does not change it |
| Poker.PairCount | chapter4/src/main.rs:82-89 | the count of the nested loop; `PairCountIsEqualRankPairs` states what it counts |
| Poker.PairCountIsEqualRankPairs | chapter4/src/main.rs:82-89 | the count is the number of position pairs `i < j` with equal ranks |
| Poker.CountPairs | chapter4/src/main.rs:82-89 | the nested loops compute that count; the outer loop stopping before the last card loses nothing |
| Poker.PairCountFive | chapter4/src/main.rs:82-89 | for five cards the count is the sum over the ten position pairs |
| Poker.DistinctFlushHasNoPair | chapter4/src/main.rs:78-89 | a flush of different cards has no equal-rank pair, so putting the flush first hides no pair |
| Poker.Classify | chapter4/src/main.rs:91-101 | the announcement in priority order: a flush, then three or more pairs, two pairs, one pair, none; the examples below exercise it |
| Poker.ThreeOfAKindExample | chapter4/src/main.rs:91-101 | three of a kind counts 3 and is announced as three of a kind |
| Poker.FullHouseExample | chapter4/src/main.rs:91-101 | a full house counts 4 and is announced as three of a kind |
| Poker.FourOfAKindExample | chapter4/src/main.rs:91-101 | four of a kind counts 6 and is announced as three of a kind |
| Poker.TwoPairExample | chapter4/src/main.rs:91-101 | two pairs count 2 and are announced as two pairs |
| Poker.OnePairExample | chapter4/src/main.rs:91-101 | one pair counts 1 and is announced as one pair |
| Poker.FlushExample | chapter4/src/main.rs:91-101 | five cards of one suit are announced as a flush |
| Poker.Play | chapter4/src/main.rs:38-101 | from a shuffled full deck: the final hand is the sorted draw with the named cards replaced, sorted again, and the deck is what the replacements leave; the hand has five different cards from the deck, in rank order, and the announcement is its classification |
| Sorting.InsertBy | chapter13/merge-array/src/main.rs:26 | inserting into a sorted sequence keeps it sorted and adds exactly the one element |
| Sorting.SortBy | chapter13/merge-array/src/main.rs:26 | the result is sorted by the key and a permutation of the input |
| Sorting.SortedPermutationUnique | chapter13/merge-array/src/main.rs:26 | two sorted integer sequences with the same elements are equal, so sorting has one answer |
| MergeArray.Merge | chapter13/merge-array/src/main.rs:47-75 | the merge of two sequences, taking from `b` on a tie; `Solve2` computes it and the lemmas below state its properties |
| MergeArray.MergePermutation | chapter13/merge-array/src/main.rs:30-78 | the merge holds exactly the elements of both inputs |
| MergeArray.MergeSorted | chapter13/merge-array/src/main.rs:30-78 | merging sorted inputs gives a sorted result |
| MergeArray.MergeTakesA | chapter13/merge-array/src/main.rs:54-66 | when `b` is used up or the head of `a` is smaller, the merge continues with the head of `a` |
| MergeArray.MergeTakesB | chapter13/merge-array/src/main.rs:48-74 | when `a` is used up or on a tie, the merge continues with the head of `b` |
| MergeArray.Solve1 | chapter13/merge-array/src/main.rs:7-28 | the result is sorted and holds exactly the elements of both inputs |
| MergeArray.Solve2 | chapter13/merge-array/src/main.rs:30-78 | the two-index loop computes the merge |
| MergeArray.MergeIsSortedConcatenation | chapter13/merge-array/src/main.rs:7-78 | for sorted inputs `solve2` gives what `solve1` gives |
| MergeArray.MergeSymmetric | chapter13/merge-array/src/main.rs:30-78 | for sorted inputs the order of the two vectors does not matter |
| MergeArray.ExpectedIsSorted | chapter13/merge-array/src/main.rs:84-94 | the test inputs and the expected vector are sorted, and the expected vector holds exactly the inputs' elements |
| MergeArray.MergeExample | chapter13/merge-array/src/main.rs:90-94 | `solve2` on the unit test's vectors gives the expected vector |
| MergeArray.SortExample | chapter13/merge-array/src/main.rs:84-88 | `solve1` on the unit test's vectors gives the expected vector |
| Parenthesis.Solve | chapter13/parenthesis/src/main.rs:7-35 | the answer is true exactly when no prefix closes more than it opened and all are closed at the end |
| Parenthesis.DepthConcat | chapter13/parenthesis/src/main.rs:14-27 | the count of unmatched `(` adds up over concatenation |
| Parenthesis.BalancedConcat | chapter13/parenthesis/src/main.rs:7-35 | two correct sequences side by side form a correct sequence |
| Parenthesis.BalancedWrap | chapter13/parenthesis/src/main.rs:7-35 | a correct sequence wrapped in a pair of parentheses is correct |
| Parenthesis.DepthParity | chapter13/parenthesis/src/main.rs:14-34 | the final count has the parity of the length, so a correct sequence has even length |
| Parenthesis.SolveExamples | chapter13/parenthesis/src/main.rs:41-45 | the unit test's vector is correct; a closing parenthesis first is not |
| Library.Contains | chapter7/my_library/src/library/bookshelf.rs:55 | `str::contains`: the fragment occurs at some position of the text; `ContainsItself` and `EmptyFragmentFindsAll` use it |
| Library.Matches | chapter7/my_library/src/library/bookshelf.rs:45-57 | the two filter closures: equal title, or a title containing the fragment |
| Library.Filter | chapter7/my_library/src/library/bookshelf.rs:45-57 | the result is no longer than the shelf |
| Library.FilterMembers | chapter7/my_library/src/library/bookshelf.rs:45-57 | a book is found exactly when it stands on the shelf and matches |
| Library.FilterCount | chapter7/my_library/src/library/bookshelf.rs:45-57 | a matching book is returned as many times as it stands on the shelf, any other book not at all |
| Library.FilterConcat | chapter7/my_library/src/library/bookshelf.rs:45-57 | searching keeps shelf order |
| Library.FilterAppend | chapter7/my_library/src/library/bookshelf.rs:26-28 | a book added to the shelf is found after the earlier results, if it matches |
| Library.ContainsItself | chapter7/my_library/src/library/bookshelf.rs:55 | every title contains itself |
| Library.ExactWithinPartial | chapter7/my_library/src/library/bookshelf.rs:45-57 | the exact search is the partial search for the same text narrowed to equal titles |
| Library.EmptyFragmentFindsAll | chapter7/my_library/src/library/bookshelf.rs:52-57 | the partial search for the empty text returns the whole shelf |
| Library.Bookshelf.constructor | chapter7/my_library/src/library/bookshelf.rs:17-23 | a new shelf is empty |
| Library.Bookshelf.AddBook | chapter7/my_library/src/library/bookshelf.rs:26-28 | the book goes at the end and the books already there stay |
| Library.Bookshelf.SearchBooksExact | chapter7/my_library/src/library/bookshelf.rs:45-50 | returns exactly the shelf's books whose title equals the query, each as often as it stands on the shelf |
| Library.Bookshelf.SearchBooksPartial | chapter7/my_library/src/library/bookshelf.rs:52-57 | returns exactly the shelf's books whose title contains the query, each as often as it stands on the shelf |

## Left out

- Floating point: `f64` is modelled as real numbers, so rounding, infinities and NaN are not modelled.
- Division by zero in calculator 5-5 gives the non-finite value None, and every later operation keeps it non-finite. The source computes with the infinity or NaN, which a later step can turn finite again (`1 / ( 1 / 0 )` is 0). Which infinity, or NaN, results is not modelled.
- After a line that does not panic but whose result is non-finite (the reply NonFinite), the model keeps the previous result. The source stores the infinity or NaN as `prev_result`.
- Number parsing (`str::parse::<f64>`) is the parameter `number`; its grammar is not modelled.
- Input and output are left out: reading lines from standard input, `println!`, and the calendar's JSON file and command line (`main`, `read_calendar`, `save_calendar`, `show_list`). Each calculator's loop is modelled one line at a time, by `Respond` and `ProcessLine`.
- Panics are not distinguished from each other. An index past the end, a failing `unwrap`, `assert_eq!` and `unreachable!()` are all one outcome.
- Calculator 5-4 evaluates `match tokens[1]` a second time in `main` and discards the result. It can only panic where `eval_expression` already did, so the model evaluates once.
- Byte versus character slicing: the slot names are cut after the three ASCII bytes of `mem` and before an ASCII sign, so `[3..]` on characters gives the same names.
- Calendar ids are natural numbers: `u64` overflow of `last id + 1` is not modelled.
- Calendar times: chrono's `NaiveDateTime` is an integer, and `add_schedule` does not check that a schedule starts before it ends, so neither does the model.
- Calendar ids: when the last two ids are consecutive, deleting the last schedule makes the next add hand out its id again (`DeletingLastReusesId`). In general the next id is the last stored id plus one, so an id above the new last one can come back after deletions.
- Poker shuffle: `shuffle` with `thread_rng` is left out; `Play` takes any permutation of the full deck.
- Poker input: parsing the chosen numbers from standard input is left out; `numbers` is a parameter.
- Poker panics: a number outside 1 to 5, which panics on the index or on `number - 1`, is excluded by a precondition, and so is running out of deck (47 cards remain after the draw).
- Poker: `count >= 3` also covers a full house (4) and four of a kind (6); all three are announced as three of a kind, as the examples show. Straights are not recognised by the source, and so not by the model.
- Poker.CountPairs: the precondition is a non-empty hand, because `hand.len() - 1` underflows on an empty one; the game always has five cards.
- Poker: the `i32` rank and count never leave 1..13 and 0..10, so no overflow is modelled.
- Parenthesis: the `i32` counter `left` is an unbounded integer. Overflow after 2^31 unmatched `(` is not modelled.
- Sorting: `Vec::sort` and `sort_by` are both one stable insertion sort on an integer key. Stability holds by construction but is not stated as a property.
- Merge: `i32` elements are integers; merging only compares, so there is no overflow.
- Bookshelf: `search_books` uses a fuzzy matcher (`SkimMatcherV2`) and is left out, together with the `matcher` field.
- Bookshelf: `Vec<&Book>` results are modelled as sequences of book values, so the references into the shelf are not modelled. `str::contains` is substring search on characters.
- Bookshelf: `book.rs` is not part of this model; `Book` is a title and an author, as the test builds it.
- Not modelled at all: the chapter 12 thumbnailers (threads, channels, rayon and image files), calculator 5-2, and the remote-crate example.
