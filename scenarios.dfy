/**
 * The store's own test scenarios (src/test/StoreTest.java) replayed on the
 * model, plus the three outcomes of `add` for a book that is already stored.
 */
module Scenarios {
  import opened Books
  import opened Purchases
  import opened Stores

  /** The first line of `setUp`'s adds: book 1, one unit, into an empty store. */
  method SetUpFirst() returns (store: Store, book1: Book)
    ensures fresh(store) && fresh(book1) && store.Valid() && store.StockNonNegative()
    ensures book1.id == 1 && book1.title == Some("title_1") && book1.author == Some("author_1")
    ensures store.books == map[1 := book1.Entry()]
    ensures store.bookStock == map[1 := 1]
    ensures store.id == 2
  {
    store := new Store();
    var p1 := new Price("10");
    book1 := new Book(Some("title_1"), Some("author_1"), p1);
    book1.SetId(1);
    assert Twins(store.books, book1.title, book1.author) == {};
    var r1 := store.Add(book1, 1);
  }

  /** Then book 2, two units: a new title and a new author, so it gets id 2. */
  method SetUpSecond() returns (store: Store, book1: Book, book2: Book)
    ensures fresh(store) && fresh(book1) && fresh(book2) && store.Valid() && store.StockNonNegative()
    ensures book1.id == 1 && book1.title == Some("title_1") && book1.author == Some("author_1")
    ensures book2.id == 2 && book2.title == Some("title_2") && book2.author == Some("author_2")
    ensures store.books == map[1 := book1.Entry(), 2 := book2.Entry()]
    ensures store.bookStock == map[1 := 1, 2 := 2]
    ensures store.id == 3
  {
    store, book1 := SetUpFirst();
    var p2 := new Price("15");
    book2 := new Book(Some("title_2"), Some("author_2"), p2);
    book2.SetId(2);
    assert Twins(store.books, book2.title, book2.author) == {} by {
      assert store.books.Keys == {1};
    }
    var r2 := store.Add(book2, 2);
  }

  /**
   * `setUp`: then book 3, no units. Its title is book 2's and its author
   * book 1's, but no stored book has both, so it gets id 3.
   */
  method SetUp() returns (store: Store, book1: Book, book2: Book, book3: Book)
    ensures fresh(store) && fresh(book1) && fresh(book2) && fresh(book3) && store.Valid() && store.StockNonNegative()
    ensures book1.id == 1 && book1.title == Some("title_1") && book1.author == Some("author_1")
    ensures book2.id == 2 && book2.title == Some("title_2") && book2.author == Some("author_2")
    ensures book3.id == 3 && book3.title == Some("title_2") && book3.author == Some("author_1")
    ensures store.books == map[1 := book1.Entry(), 2 := book2.Entry(), 3 := book3.Entry()]
    ensures store.bookStock == map[1 := 1, 2 := 2, 3 := 0]
    ensures store.id == 4
  {
    store, book1, book2 := SetUpSecond();
    var p3 := new Price("5");
    book3 := new Book(Some("title_2"), Some("author_1"), p3);
    book3.SetId(3);
    assert Twins(store.books, book3.title, book3.author) == {} by {
      assert store.books.Keys == {1, 2};
    }
    var r3 := store.Add(book3, 0);
  }

  /** The purchase `testBuyBook` makes, on values: stock 1, 2, 0 for ids 1, 2, 3; ids 1, 2, 3, 0 bought. */
  lemma SetUpPurchase()
    ensures BuyRun(map[1 := 1, 2 := 2, 3 := 0], [1, 2, 3, 0])
         == Purchase(map[1 := 0, 2 := 1, 3 := 0], [PURCHASED, PURCHASED, OUT_OF_STOCK, NOT_FOUND])
  {
    var stock := map[1 := 1, 2 := 2, 3 := 0];
    var ids := [1, 2, 3, 0];
    var after1 := map[1 := 0, 2 := 2, 3 := 0];
    var after2 := map[1 := 0, 2 := 1, 3 := 0];
    assert Decrement(stock, 1) == after1;
    assert BuyPrefix(stock, ids, 1) == Purchase(after1, [PURCHASED]);
    assert Decrement(after1, 2) == after2;
    assert BuyPrefix(stock, ids, 2) == Purchase(after2, [PURCHASED, PURCHASED]);
    assert BuyPrefix(stock, ids, 3) == Purchase(after2, [PURCHASED, PURCHASED, OUT_OF_STOCK]);
  }

  /**
   * `testBuyBook`: buying books 1, 2, 3 and a book that was never added
   * (id 0) gives codes 0, 0, 1, 2: book 3 was stocked with 0 units.
   */
  method BuyBookScenario() returns (codes: seq<int>, stock: map<int, int>)
    ensures codes == [PURCHASED, PURCHASED, OUT_OF_STOCK, NOT_FOUND]
    ensures stock == map[1 := 0, 2 := 1, 3 := 0]
  {
    var store, book1, book2, book3 := SetUp();
    var unknown := new Price("4");
    var nonExistent := new Book(Some("title"), Some("author"), unknown);
    var items := new Book[4] [book1, book2, book3, nonExistent];
    assert IdsOf(items[..]) == [1, 2, 3, 0];
    SetUpPurchase();
    var ret := store.Buy(items);
    codes := ret[..];
    stock := store.bookStock;
  }

  /** `testAddBook`: adding a new title grows the listing by one. */
  method AddBookScenario() returns (before: nat, after: nat)
    ensures before == 3 && after == before + 1
  {
    var store, book1, book2, book3 := SetUp();
    var all := store.List();
    before := |all|;
    var p := new Price("25");
    var newBook := new Book(Some("new_title"), Some("new_author"), p);
    assert Twins(store.books, newBook.title, newBook.author) == {} by {
      assert store.books.Keys == {1, 2, 3};
    }
    assert store.Twin(newBook.title, newBook.author) == None;
    var r := store.Add(newBook, 5);
    all := store.List();
    after := |all|;
  }

  /** Adding stored book 1 again, same object: its own row gains the units. */
  method AddSameBookScenario() returns (r: AddResult, stock: map<int, int>)
    ensures r == Returned(true)
    ensures stock == map[1 := 4, 2 := 2, 3 := 0]
  {
    var store, book1, book2, book3 := SetUp();
    assert Twins(store.books, book1.title, book1.author) == {1} by {
      assert store.books.Keys == {1, 2, 3};
    }
    assert store.Merges(book1) && book1.id in store.bookStock;
    ghost var before := store.bookStock;
    r := store.Add(book1, 3);
    assert store.bookStock == before[1 := 1 + 3];
    stock := store.bookStock;
  }

  /**
   * A new object with book 1's title, author and price object matches
   * book 1, but `add` restocks the row of the new object's own id, 0, which
   * the ledger does not have: the lookup throws.
   */
  method AddCopyScenario() returns (r: AddResult)
    ensures r == NullPointerException
  {
    var store, book1, book2, book3 := SetUp();
    var copy := new Book(book1.title, book1.author, book1.price);
    assert Twins(store.books, copy.title, copy.author) == {1} by {
      assert store.books.Keys == {1, 2, 3};
    }
    assert store.Merges(copy) && copy.id !in store.bookStock;
    r := store.Add(copy, 5);
  }

  /** Book 1's title and author with another price object: refused. */
  method AddRepricedScenario() returns (r: AddResult)
    ensures r == Returned(false)
  {
    var store, book1, book2, book3 := SetUp();
    var otherPrice := new Price("10");
    var repriced := new Book(book1.title, book1.author, otherPrice);
    assert Twins(store.books, repriced.title, repriced.author) == {1} by {
      assert store.books.Keys == {1, 2, 3};
    }
    assert store.Rejects(repriced);
    r := store.Add(repriced, 5);
  }

  /**
   * Searching the `setUp` store for the empty string: no title or author is
   * "", so nothing is found, although the test file's `testListAll` expects
   * every book.
   */
  method SearchEmptyScenario() returns (found: seq<BookEntry>)
    ensures found == []
  {
    var store, book1, book2, book3 := SetUp();
    HitsAreMatching(store.books, store.titleIndex, store.authorIndex, Some(""));
    assert Matching(store.books, Some("")) == {} by {
      assert store.books.Keys == {1, 2, 3};
    }
    found := store.Search(Some(""));
  }
}
