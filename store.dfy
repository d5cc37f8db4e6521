/**
 * The in-memory inventory engine (class `Store`, src/store/Store.java):
 * books by id, a stock ledger, and title and author indices, all updated in
 * place, plus the counter that hands out ids.
 */
module Stores {
  import opened Books
  import opened Indices
  import opened Purchases

  /** Which field of a book an index is keyed by. */
  datatype Field = TitleField | AuthorField

  function KeyOf(e: BookEntry, f: Field): Text
  {
    match f
    case TitleField => e.title
    case AuthorField => e.author
  }

  /**
   * The index is exact for the stored books: a bucket lists, each once, the
   * stored ids whose field equals its key, and every stored id is listed in
   * the bucket of its own field.
   */
  ghost predicate IndexExact(index: map<Text, seq<int>>, books: map<int, BookEntry>, f: Field)
  {
    && (forall key, i :: key in index && 0 <= i < |index[key]| ==>
          index[key][i] in books && KeyOf(books[index[key][i]], f) == key)
    && (forall key :: key in index ==> Distinct(index[key]))
    && (forall k :: k in books ==> KeyOf(books[k], f) in index && k in index[KeyOf(books[k], f)])
  }

  /** The stored ids with this exact title and author. */
  ghost function Twins(books: map<int, BookEntry>, title: Text, author: Text): set<int>
  {
    set k | k in books && books[k].title == title && books[k].author == author
  }

  /** The ids a search for `s` collects: the title bucket and the author bucket of `s`. */
  function Hits(titleIndex: map<Text, seq<int>>, authorIndex: map<Text, seq<int>>, s: Text): set<int>
  {
    (if s in titleIndex then Elems(titleIndex[s]) else {}) + (if s in authorIndex then Elems(authorIndex[s]) else {})
  }

  /** The stored ids whose title or whose author is exactly `s`. */
  ghost function Matching(books: map<int, BookEntry>, s: Text): set<int>
  {
    set k | k in books && (books[k].title == s || books[k].author == s)
  }

  /**
   * With exact indices, `add`'s intersection of the author bucket with the
   * title bucket lists each stored book of that title and author once; when
   * either bucket is missing there is no such book.
   */
  lemma MatchesAreTwins(books: map<int, BookEntry>, titleIndex: map<Text, seq<int>>,
                        authorIndex: map<Text, seq<int>>, title: Text, author: Text)
    requires IndexExact(titleIndex, books, TitleField) && IndexExact(authorIndex, books, AuthorField)
    ensures author in authorIndex && title in titleIndex ==>
      var m := Intersect(authorIndex[author], titleIndex[title]);
      Distinct(m) && Elems(m) == Twins(books, title, author) && |m| == |Twins(books, title, author)|
    ensures !(author in authorIndex && title in titleIndex) ==> Twins(books, title, author) == {}
  {
    if author in authorIndex && title in titleIndex {
      var m := Intersect(authorIndex[author], titleIndex[title]);
      forall k | k in Twins(books, title, author) ensures k in Elems(m) {
        assert KeyOf(books[k], TitleField) == title && KeyOf(books[k], AuthorField) == author;
      }
      forall k | k in Elems(m) ensures k in Twins(books, title, author) {
        var i :| 0 <= i < |authorIndex[author]| && authorIndex[author][i] == k;
        var j :| 0 <= j < |titleIndex[title]| && titleIndex[title][j] == k;
        assert KeyOf(books[k], AuthorField) == author && KeyOf(books[k], TitleField) == title;
      }
      DistinctCardinality(m);
    } else {
      forall k | k in books ensures !(books[k].title == title && books[k].author == author) {
        assert KeyOf(books[k], TitleField) in titleIndex && KeyOf(books[k], AuthorField) in authorIndex;
      }
    }
  }

  /** With exact indices, a search collects exactly the books titled or authored `s`. */
  lemma HitsAreMatching(books: map<int, BookEntry>, titleIndex: map<Text, seq<int>>,
                        authorIndex: map<Text, seq<int>>, s: Text)
    requires IndexExact(titleIndex, books, TitleField) && IndexExact(authorIndex, books, AuthorField)
    ensures Hits(titleIndex, authorIndex, s) == Matching(books, s)
  {
    forall k | k in Matching(books, s) ensures k in Hits(titleIndex, authorIndex, s) {
      assert k in titleIndex[KeyOf(books[k], TitleField)] && k in authorIndex[KeyOf(books[k], AuthorField)];
    }
    forall k | k in Hits(titleIndex, authorIndex, s) ensures k in Matching(books, s) {
      if s in titleIndex && k in titleIndex[s] {
        var i :| 0 <= i < |titleIndex[s]| && titleIndex[s][i] == k;
        assert KeyOf(books[k], TitleField) == s;
      } else {
        var i :| 0 <= i < |authorIndex[s]| && authorIndex[s][i] == k;
        assert KeyOf(books[k], AuthorField) == s;
      }
    }
  }

  /** Storing a book under a fresh id and appending that id to its bucket keeps an index exact. */
  lemma AppendKeepsExact(index: map<Text, seq<int>>, books: map<int, BookEntry>, f: Field, e: BookEntry)
    requires IndexExact(index, books, f)
    requires e.id !in books
    ensures IndexExact(IndexAppend(index, KeyOf(e, f), e.id), books[e.id := e], f)
  {
  }

  /** The invariant of the store's tables, given the ledger's key set. */
  ghost predicate Consistent(books: map<int, BookEntry>, stockKeys: set<int>, titleIndex: map<Text, seq<int>>,
                             authorIndex: map<Text, seq<int>>, nextId: int)
  {
    && 1 <= nextId
    && books.Keys == stockKeys
    && (forall k :: k in books ==> 1 <= k < nextId && books[k].id == k)
    && IndexExact(titleIndex, books, TitleField)
    && IndexExact(authorIndex, books, AuthorField)
  }

  /**
   * Storing a new book under the next id, with a ledger row and an entry in
   * both indices, keeps the tables consistent; the id was not in use.
   */
  lemma InsertKeepsConsistent(books: map<int, BookEntry>, stock: map<int, int>, titleIndex: map<Text, seq<int>>,
                              authorIndex: map<Text, seq<int>>, nextId: int, e: BookEntry, amount: int)
    requires Consistent(books, stock.Keys, titleIndex, authorIndex, nextId)
    requires e.id == nextId
    ensures e.id !in books
    ensures Consistent(books[e.id := e], stock[e.id := amount].Keys, IndexAppend(titleIndex, e.title, e.id),
                       IndexAppend(authorIndex, e.author, e.id), nextId + 1)
  {
    AppendKeepsExact(titleIndex, books, TitleField, e);
    AppendKeepsExact(authorIndex, books, AuthorField, e);
  }

  /** No two stored books share both title and author. */
  ghost predicate UniqueTA(books: map<int, BookEntry>)
  {
    forall j, k :: j in books && k in books && j != k ==>
      !(books[j].title == books[k].title && books[j].author == books[k].author)
  }

  /**
   * With unique title/author pairs, at most one stored book has a given
   * title and author: `add`'s intersection never holds two or more ids.
   */
  lemma AtMostOneTwin(books: map<int, BookEntry>, title: Text, author: Text)
    requires UniqueTA(books)
    ensures |Twins(books, title, author)| <= 1
  {
    var tw := Twins(books, title, author);
    if tw != {} {
      var k := Witness(tw);
      forall j | j in tw ensures j == k {
        assert books[j].title == books[k].title && books[j].author == books[k].author;
      }
      assert tw == {k};
    }
  }

  /** Storing a book whose title and author no stored book has keeps the pairs unique. */
  lemma InsertKeepsUnique(books: map<int, BookEntry>, e: BookEntry)
    requires UniqueTA(books)
    requires e.id !in books && Twins(books, e.title, e.author) == {}
    ensures UniqueTA(books[e.id := e])
  {
    var books' := books[e.id := e];
    forall j, k | j in books' && k in books' && j != k
      ensures !(books'[j].title == books'[k].title && books'[j].author == books'[k].author)
    {
      if j == e.id {
        assert k !in Twins(books, e.title, e.author);
      } else if k == e.id {
        assert j !in Twins(books, e.title, e.author);
      }
    }
  }

  /** What `add` reports to its caller; a `NullPointerException` leaves everything as it was. */
  datatype AddResult = Returned(value: bool) | NullPointerException

  class Store {
    var books: map<int, BookEntry>
    var bookStock: map<int, int>
    var titleIndex: map<Text, seq<int>>
    var authorIndex: map<Text, seq<int>>
    /** The id the next new book gets. */
    var id: int

    /**
     * The tables agree: the ledger has a row for exactly the stored books,
     * each book is stored under its own id, all ids lie in [1, id), and both
     * indices are exact. Stock may be negative: `add` does not check it.
     */
    ghost predicate Valid()
      reads this
    {
      Consistent(books, bookStock.Keys, titleIndex, authorIndex, id)
    }

    /** No two stored books share both title and author; `add` keeps it so. */
    ghost predicate UniqueTitleAuthor()
      reads this
    {
      UniqueTA(books)
    }

    ghost predicate StockNonNegative()
      reads this
    {
      forall k :: k in bookStock ==> bookStock[k] >= 0
    }

    /**
     * The single stored id with this title and author, if there is exactly
     * one: what `add` finds when it intersects the two buckets.
     */
    ghost function Twin(title: Text, author: Text): (t: Option<int>)
      requires Valid()
      reads this
      ensures t.Some? <==> |Twins(books, title, author)| == 1
      ensures t.Some? ==> Twins(books, title, author) == {t.value} && t.value in books
    {
      MatchesAreTwins(books, titleIndex, authorIndex, title, author);
      if author in authorIndex && title in titleIndex then
        var m := Intersect(authorIndex[author], titleIndex[title]);
        if |m| == 1 then
          assert Elems(m) == {m[0]};
          Some(m[0])
        else None
      else None
    }

    /** `add` refuses: exactly one stored book has the title and author, at another price object. */
    ghost predicate Rejects(book: Book)
      requires Valid()
      reads this, book
    {
      var t := Twin(book.title, book.author);
      t.Some? && books[t.value].price != book.price
    }

    /** `add` merges: exactly one stored book has the title and author, at the same price object. */
    ghost predicate Merges(book: Book)
      requires Valid()
      reads this, book
    {
      var t := Twin(book.title, book.author);
      t.Some? && books[t.value].price == book.price
    }

    constructor ()
      ensures Valid() && StockNonNegative() && UniqueTitleAuthor()
      ensures books == map[] && bookStock == map[] && titleIndex == map[] && authorIndex == map[]
      ensures id == 1
    {
      books := map[];
      bookStock := map[];
      titleIndex := map[];
      authorIndex := map[];
      id := 1;
    }

    /** Every stored book, each once, in no particular order. */
    method List() returns (r: seq<BookEntry>)
      requires Valid()
      ensures |r| == |books| && Distinct(r)
      ensures forall e :: e in r ==> e.id in books && e == books[e.id]
      ensures forall k :: k in books ==> books[k] in r
    {
      r := Collect(books.Keys);
      assert |books.Keys| == |books|;
    }

    /**
     * Exact, case-sensitive search on the raw string: the stored books whose
     * id is in the title bucket or the author bucket of `s`, each once, in no
     * particular order. `HitsAreMatching` says which books those are.
     */
    method Search(s: Text) returns (r: seq<BookEntry>)
      requires Valid()
      ensures Distinct(r) && |r| == |Hits(titleIndex, authorIndex, s)|
      ensures forall e :: e in r ==> e.id in Hits(titleIndex, authorIndex, s) && e == books[e.id]
      ensures forall k :: k in Hits(titleIndex, authorIndex, s) ==> k in books && books[k] in r
      ensures s !in titleIndex && s !in authorIndex ==> r == []
    {
      var aggregated: set<int> := {};
      if s in titleIndex {
        aggregated := aggregated + Elems(titleIndex[s]);
      }
      if s in authorIndex {
        aggregated := aggregated + Elems(authorIndex[s]);
      }
      assert aggregated == Hits(titleIndex, authorIndex, s) && aggregated <= books.Keys by {
        HitsAreMatching(books, titleIndex, authorIndex, s);
      }
      r := Collect(aggregated);
    }

    /** The stored books with the given ids, each once, in no particular order. */
    method Collect(ids: set<int>) returns (r: seq<BookEntry>)
      requires ids <= books.Keys
      requires forall k :: k in books ==> books[k].id == k
      ensures |r| == |ids| && Distinct(r)
      ensures forall e :: e in r ==> e.id in ids && e == books[e.id]
      ensures forall k :: k in ids ==> books[k] in r
    {
      r := [];
      var rest := ids;
      while rest != {}
        invariant rest <= ids
        invariant |r| + |rest| == |ids|
        invariant Distinct(r)
        invariant forall e :: e in r ==> e.id in ids && e.id !in rest && e == books[e.id]
        invariant forall k :: k in ids && k !in rest ==> books[k] in r
        decreases |rest|
      {
        ghost var w := Witness(rest);
        var k :| k in rest;
        r := r + [books[k]];
        rest := rest - {k};
      }
    }

    /**
     * Appends the book's id to the bucket of its title and to the bucket of
     * its author, creating a bucket that is missing; nothing else changes.
     */
    method AddToIndices(book: Book)
      modifies this
      ensures titleIndex == IndexAppend(old(titleIndex), book.title, book.id)
      ensures authorIndex == IndexAppend(old(authorIndex), book.author, book.id)
      ensures books == old(books) && bookStock == old(bookStock) && id == old(id)
    {
      var bookId := book.GetId();
      var title := book.GetTitle();
      var author := book.GetAuthor();
      if title in titleIndex {
        titleIndex := titleIndex[title := titleIndex[title] + [bookId]];
      } else {
        titleIndex := titleIndex[title := [bookId]];
      }
      if author in authorIndex {
        authorIndex := authorIndex[author := authorIndex[author] + [bookId]];
      } else {
        authorIndex := authorIndex[author := [bookId]];
      }
    }

    /**
     * Adds a new book or more stock of a stored one. With exactly one stored
     * book of the same title and author: a different price object is refused,
     * the same one adds `amount` to the ledger row of the CALLER's book id (a
     * missing row throws). Otherwise the book is stored under a fresh id.
     */
    method Add(book: Book, amount: int) returns (r: AddResult)
      requires Valid()
      modifies this, book
      ensures Valid()
      ensures book.title == old(book.title) && book.author == old(book.author) && book.price == old(book.price)
      ensures old(Rejects(book)) ==>
        r == Returned(false) && unchanged(this) && book.id == old(book.id)
      ensures old(Merges(book)) && old(book.id) !in old(bookStock) ==>
        r == NullPointerException && unchanged(this) && book.id == old(book.id)
      ensures old(Merges(book)) && old(book.id) in old(bookStock) ==>
        && r == Returned(true) && book.id == old(book.id)
        && bookStock == old(bookStock)[book.id := old(bookStock)[book.id] + amount]
        && books == old(books) && titleIndex == old(titleIndex) && authorIndex == old(authorIndex)
        && id == old(id)
      ensures old(Twin(book.title, book.author)).None? ==>
        && r == Returned(true) && book.id == old(id) && id == old(id) + 1
        && book.id !in old(books) && |books| == |old(books)| + 1
        && books == old(books)[book.id := book.Entry()]
        && bookStock == old(bookStock)[book.id := amount]
        && titleIndex == IndexAppend(old(titleIndex), book.title, book.id)
        && authorIndex == IndexAppend(old(authorIndex), book.author, book.id)
      ensures old(StockNonNegative()) && amount >= 0 ==> StockNonNegative()
      ensures old(UniqueTitleAuthor()) ==> UniqueTitleAuthor()
    {
      var known := false;
      if book.GetAuthor() in authorIndex && book.GetTitle() in titleIndex {
        var intersect := Intersect(authorIndex[book.GetAuthor()], titleIndex[book.GetTitle()]);
        if |intersect| == 1 {
          assert Twin(book.title, book.author) == Some(intersect[0]);
          if books[intersect[0]].price != book.GetPrice() {
            return Returned(false);
          } else {
            known := true;
          }
        }
      }

      if known {
        if book.GetId() !in bookStock {
          return NullPointerException;
        }
        Restock(book.GetId(), amount);
      } else {
        assert Twin(book.title, book.author) == None;
        ghost var unique := UniqueTitleAuthor();
        ghost var before := books;
        if unique {
          AtMostOneTwin(books, book.title, book.author);
        }
        AddNew(book, amount);
        if unique {
          InsertKeepsUnique(before, book.Entry());
        }
      }
      return Returned(true);
    }

    /** The restocking branch of `add`: `amount` more units on the ledger row of `bookId`. */
    method Restock(bookId: int, amount: int)
      requires Valid() && bookId in bookStock
      modifies this`bookStock
      ensures Valid()
      ensures bookStock == old(bookStock)[bookId := old(bookStock)[bookId] + amount]
      ensures old(StockNonNegative()) && amount >= 0 ==> StockNonNegative()
    {
      var newStock := bookStock[bookId] + amount;
      bookStock := bookStock[bookId := newStock];
    }

    /**
     * The creating branch of `add`: the book gets the next id, is stored with
     * `amount` units and is indexed by title and author; the counter moves on.
     */
    method AddNew(book: Book, amount: int)
      requires Valid()
      modifies this, book
      ensures Valid()
      ensures book.id == old(id) && id == old(id) + 1 && book.id !in old(books)
      ensures book.title == old(book.title) && book.author == old(book.author) && book.price == old(book.price)
      ensures books == old(books)[book.id := book.Entry()]
      ensures bookStock == old(bookStock)[book.id := amount]
      ensures titleIndex == IndexAppend(old(titleIndex), book.title, book.id)
      ensures authorIndex == IndexAppend(old(authorIndex), book.author, book.id)
      ensures old(StockNonNegative()) && amount >= 0 ==> StockNonNegative()
    {
      book.SetId(id);
      InsertKeepsConsistent(books, bookStock, titleIndex, authorIndex, id, book.Entry(), amount);
      ghost var stock := bookStock;
      books := books[id := book.Entry()];
      bookStock := bookStock[id := amount];
      AddToIndices(book);
      id := id + 1;
      assert old(StockNonNegative()) && amount >= 0 ==> StockNonNegative() by {
        assert bookStock == stock[book.id := amount];
      }
    }

    /**
     * Buys one copy per item, in order, each against the ledger as the
     * earlier items left it; returns one status code per item. Only ledger
     * values change, so the tables stay consistent.
     */
    method Buy(items: array<Book>) returns (ret: array<int>)
      requires Valid()
      modifies this
      ensures Valid()
      ensures fresh(ret) && ret.Length == items.Length
      ensures ret[..] == BuyRun(old(bookStock), old(IdsOf(items[..]))).codes
      ensures bookStock == BuyRun(old(bookStock), old(IdsOf(items[..]))).stock
      ensures books == old(books) && titleIndex == old(titleIndex) && authorIndex == old(authorIndex)
      ensures id == old(id) && bookStock.Keys == old(bookStock).Keys
      ensures forall i :: 0 <= i < ret.Length ==> (ret[i] == NOT_FOUND <==> old(items[i].id) !in old(bookStock))
      ensures old(StockNonNegative()) ==> StockNonNegative()
      ensures old(UniqueTitleAuthor()) ==> UniqueTitleAuthor()
    {
      ghost var ids := IdsOf(items[..]);
      ret := new int[items.Length];
      BuyEach(items, ret);
      assert Valid() by {
        assert bookStock.Keys == old(bookStock).Keys;
      }
      assert forall j :: 0 <= j < ret.Length ==> (ret[j] == NOT_FOUND <==> old(items[j].id) !in old(bookStock)) by {
        BuyCodes(old(bookStock), ids);
      }
      assert old(StockNonNegative()) ==> StockNonNegative() by {
        StockStaysNonNegative(old(bookStock), ids, |ids|);
      }
    }

    /** The loop of `buy`: one check-and-decrement per item, its code written to `ret`. */
    method BuyEach(items: array<Book>, ret: array<int>)
      requires ret.Length == items.Length
      modifies this`bookStock, ret
      ensures ret[..] == BuyRun(old(bookStock), old(IdsOf(items[..]))).codes
      ensures bookStock == BuyRun(old(bookStock), old(IdsOf(items[..]))).stock
    {
      ghost var ids := IdsOf(items[..]);
      ghost var start := bookStock;
      for i := 0 to items.Length
        invariant ret[..i] == BuyPrefix(start, ids, i).codes
        invariant bookStock == BuyPrefix(start, ids, i).stock
      {
        var curId := items[i].GetId();
        assert curId == ids[i];
        var code := BuyOne(curId);
        ret[i] := code;
        assert ret[..i + 1] == ret[..i] + [code];
      }
      assert ret[..items.Length] == ret[..];
    }

    /**
     * One step of `buy`: a known id with at least one unit loses one and
     * reports 0; a known id without stock reports 1; an unknown id reports 2.
     */
    method BuyOne(curId: int) returns (code: int)
      modifies this`bookStock
      ensures code == Code(old(bookStock), curId)
      ensures bookStock == Decrement(old(bookStock), curId)
    {
      if curId in bookStock {
        var curStock := bookStock[curId];
        if curStock >= 1 {
          bookStock := bookStock[curId := curStock - 1];
          code := PURCHASED;
        } else {
          code := OUT_OF_STOCK;
        }
      } else {
        code := NOT_FOUND;
      }
    }
  }
}
