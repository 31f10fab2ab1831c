/**
 * chapter7/my_library: a bookshelf that books are appended to and searched by
 * title, either for an exact title or for a title containing a fragment.
 */
module Library {

  /** A book, as built by `Book::new(title, author)`. */
  datatype Book = Book(title: string, author: string)

  /** `str::contains`: `fragment` occurs somewhere in `text`. */
  predicate Contains(text: string, fragment: string)
  {
    exists i :: 0 <= i <= |text| && fragment <= text[i..]
  }

  /** The two title filters of the shelf. */
  datatype Query = Exact(title: string) | Partial(fragment: string)

  predicate Matches(book: Book, query: Query)
  {
    match query
    case Exact(title) => book.title == title
    case Partial(fragment) => Contains(book.title, fragment)
  }

  /** `iter().filter(..).collect()`: the books that match, in shelf order. */
  function Filter(books: seq<Book>, query: Query): (r: seq<Book>)
    ensures |r| <= |books|
  {
    if books == [] then []
    else (if Matches(books[0], query) then [books[0]] else []) + Filter(books[1..], query)
  }

  /** A matching book is found as many times as it stands on the shelf; any other book not at all. */
  lemma {:induction false} FilterCount(books: seq<Book>, query: Query, b: Book)
    ensures multiset(Filter(books, query))[b] == if Matches(b, query) then multiset(books)[b] else 0
  {
    if books != [] {
      FilterCount(books[1..], query, b);
      assert books == [books[0]] + books[1..];
      FilterHead(books, query);
    }
  }

  /** The books found are exactly the shelf's matching books. */
  lemma FilterMembers(books: seq<Book>, query: Query, b: Book)
    ensures b in Filter(books, query) <==> b in books && Matches(b, query)
  {
    FilterCount(books, query, b);
    assert b in Filter(books, query) <==> b in multiset(Filter(books, query));
    assert b in books <==> b in multiset(books);
  }

  /** Filtering keeps shelf order: it distributes over concatenation. */
  lemma {:induction false} FilterConcat(a: seq<Book>, b: seq<Book>, query: Query)
    ensures Filter(a + b, query) == Filter(a, query) + Filter(b, query)
  {
    if a != [] {
      var head := if Matches(a[0], query) then [a[0]] else [];
      assert (a + b)[0] == a[0] && (a + b)[1..] == a[1..] + b;
      FilterHead(a + b, query);
      FilterHead(a, query);
      FilterConcat(a[1..], b, query);
      assert head + (Filter(a[1..], query) + Filter(b, query)) == (head + Filter(a[1..], query)) + Filter(b, query);
    } else {
      assert a + b == b;
    }
  }

  /** The first book is kept or dropped, then the rest is filtered. */
  lemma FilterHead(books: seq<Book>, query: Query)
    requires books != []
    ensures Filter(books, query) == (if Matches(books[0], query) then [books[0]] else []) + Filter(books[1..], query)
  {
  }

  /** A book appended to the shelf is found after everything found before it, if it matches. */
  lemma FilterAppend(books: seq<Book>, book: Book, query: Query)
    ensures Filter(books + [book], query) == Filter(books, query) + (if Matches(book, query) then [book] else [])
  {
    FilterConcat(books, [book], query);
    assert [book][1..] == [];
  }

  /** Every title contains itself. */
  lemma ContainsItself(text: string)
    ensures Contains(text, text)
  {
    assert text <= text[0..];
  }

  /** The exact search returns the partial search's results for the same text, narrowed to equal titles. */
  lemma {:induction false} ExactWithinPartial(books: seq<Book>, title: string)
    ensures Filter(Filter(books, Partial(title)), Exact(title)) == Filter(books, Exact(title))
  {
    if books != [] {
      if books[0].title == title {
        ContainsItself(title);
      }
      ExactWithinPartial(books[1..], title);
      var head := if Matches(books[0], Partial(title)) then [books[0]] else [];
      FilterConcat(head, Filter(books[1..], Partial(title)), Exact(title));
      if head != [] {
        assert head[1..] == [];
      }
    }
  }

  /** The empty fragment is contained in every title, so the partial search with it returns the whole shelf. */
  lemma {:induction false} EmptyFragmentFindsAll(books: seq<Book>)
    ensures Filter(books, Partial("")) == books
  {
    if books != [] {
      assert "" <= books[0].title[0..];
      EmptyFragmentFindsAll(books[1..]);
      assert books == [books[0]] + books[1..];
    }
  }

  /** `struct Bookshelf` without its fuzzy matcher. */
  class Bookshelf {
    var books: seq<Book>

    /** `Bookshelf::new`: an empty shelf. */
    constructor ()
      ensures books == []
    {
      books := [];
    }

    /** `add_book`: the book goes at the end; the books already there stay as they are. */
    method AddBook(book: Book)
      modifies this
      ensures books == old(books) + [book]
    {
      books := books + [book];
    }

    /** `search_books_exact`: the books whose title is `titleQuery`, in shelf order. */
    function SearchBooksExact(titleQuery: string): (r: seq<Book>)
      reads this
      ensures forall b :: b in r <==> b in books && b.title == titleQuery
      ensures forall b :: b in r ==> multiset(r)[b] == multiset(books)[b]
    {
      forall b
        ensures b in Filter(books, Exact(titleQuery)) <==> b in books && Matches(b, Exact(titleQuery))
        ensures multiset(Filter(books, Exact(titleQuery)))[b] == if Matches(b, Exact(titleQuery)) then multiset(books)[b] else 0
      {
        FilterCount(books, Exact(titleQuery), b);
        FilterMembers(books, Exact(titleQuery), b);
      }
      Filter(books, Exact(titleQuery))
    }

    /** `search_books_partial`: the books whose title contains `titleQuery`, in shelf order. */
    function SearchBooksPartial(titleQuery: string): (r: seq<Book>)
      reads this
      ensures forall b :: b in r <==> b in books && Contains(b.title, titleQuery)
      ensures forall b :: b in r ==> multiset(r)[b] == multiset(books)[b]
    {
      forall b
        ensures b in Filter(books, Partial(titleQuery)) <==> b in books && Matches(b, Partial(titleQuery))
        ensures multiset(Filter(books, Partial(titleQuery)))[b] == if Matches(b, Partial(titleQuery)) then multiset(books)[b] else 0
      {
        FilterCount(books, Partial(titleQuery), b);
        FilterMembers(books, Partial(titleQuery), b);
      }
      Filter(books, Partial(titleQuery))
    }
  }
}
