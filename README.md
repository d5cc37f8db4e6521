# Bookstore inventory engine, modelled in Dafny

This project models the in-memory inventory engine of a small Java
bookstore: the class `Store` (src/store/Store.java) and the book record
`Book` (src/store/Book.java). It proves properties of the model.

A `Store` keeps four tables and a counter:

- `books`: id → book;
- `bookStock`: id → units in stock;
- `titleIndex` and `authorIndex`: a title or an author → the list of ids filed under it;
- `id`: the next id to hand out, starting at 1.

Both source files change state in place, so both are Dafny classes:

- `Book` has mutable fields, setters and getters.
- `Store` has `map` fields. Its methods reassign those fields and name what they change in `modifies` clauses.

Inside the store, a book is kept as a `BookEntry` value: its id, title, author and price at the moment it was stored.

Files:

- `book.dfy` (module `Books`):
  - `Text`, a nullable Java string (`None` is `null`);
  - `Price`, a `BigDecimal` that the store only compares by reference;
  - the `Book` class and its `BookEntry` snapshot.
- `indices.dfy` (module `Indices`): the list operations on index buckets. These are the `retainAll` intersection of `add` and the bucket append of `AddToIndices`.
- `purchases.dfy` (module `Purchases`): what `buy` computes, stated on values. `BuyPrefix`/`BuyRun` process the items in order against the ledger as earlier items left it, and the lemmas are proved about that definition.
- `store.dfy` (module `Stores`):
  - the `Store` class and its invariant `Valid`. The ledger and the book table have the same keys, each book is stored under its own id, every id is in `[1, id)`, and both indices are exact.
  - `Add`, `AddToIndices`, `Buy`, `List` and `Search`.
- `scenarios.dfy` (module `Scenarios`):
  - the store's own test scenarios (src/test/StoreTest.java) replayed on the model;
  - the three outcomes of adding a book that is already stored.

Behaviours of the code that the model keeps as written:

- **Search is exact.** `list(String)` looks the raw string up in both indices. It is case-sensitive and does no partial or JSON matching.
  - The test file expects JSON queries, case-insensitive matching and "empty string lists everything". The code does none of this, and the model follows the code. For example, `Search(Some(""))` on the test store returns nothing (`SearchEmptyScenario`).
- **The price check compares references** (Store.java:122). `Price` is a class, so `!=` on it is identity.
- **Merging restocks the caller's id, not the matched one** (Store.java:132-133).
  - A fresh `Book` with a stored title, author and price object still has id 0. Adding it throws, because the ledger has no row 0 (`AddCopyScenario`).
  - The model returns `NullPointerException` for that case and leaves the store unchanged.
- **Only an intersection of exactly one id merges or rejects.** With none, `add` stores a new book. `Add` states its cases through `Twin`: the single stored id with the same title and author, if there is exactly one. The code would also store a new book for two or more ids, but that case never arises from `add` and `buy` alone: the store starts empty, `add` only stores a book whose title and author no stored book has, and `buy` never changes the books. `UniqueTitleAuthor` states this, and the constructor, `Add` and `Buy` keep it (`AtMostOneTwin`, `InsertKeepsUnique`).
- `add` does not check that `amount` is non-negative. Non-negative stock is therefore a separate predicate, `StockNonNegative`. `Add` keeps it when `amount >= 0`, and `Buy` always keeps it.

## Model

| member | source | states |
|---|---|---|
| Books.Book.Empty | src/store/Book.java:11-13 | the no-argument constructor leaves id 0 and title, author and price null |
| Books.Book.constructor | src/store/Book.java:15-19 | title, author and price are stored as given; the id keeps its default 0 |
| Books.Book.SetId | src/store/Book.java:21-27 | `GetId` then returns the new id; title, author and price are unchanged |
| Books.Book.SetTitle | src/store/Book.java:29-35 | `GetTitle` then returns the new title; the other three fields are unchanged |
| Books.Book.SetAuthor | src/store/Book.java:37-43 | `GetAuthor` then returns the new author; the other three fields are unchanged |
| Books.Book.SetPrice | src/store/Book.java:45-51 | `GetPrice` then returns the new price; the other three fields are unchanged |
| Books.Book.ToString | src/store/Book.java:53-56 | "Title: ", the title, ", Author: ", the author, ", Price: ", the price, each readable at its offset, with "null" for an unset field; the length is 26 plus the three field lengths |
| Books.IdsOf | src/store/Store.java:153 | one id per item, in order, each the item's `getId` |
| Indices.Intersect | src/store/Store.java:117-118 | an element is in the result iff it is in both lists; the result is no longer than the first list; it has no repetitions when the first list has none |
| Indices.IntersectCounts | src/store/Store.java:117-118 | each element of the first list that occurs in the second is kept as often as the first list has it, and every other element not at all |
| Indices.IndexAppend | src/store/Store.java:185-201 | the bucket of the key gains the id at its end, and a missing bucket is created holding just the id; every other bucket is unchanged; the key set gains the key |
| Purchases.BuyPrefix | src/store/Store.java:152-169 | after n items there are n codes, and the ledger's key set is unchanged |
| Purchases.CodesStable | src/store/Store.java:152-169 | a later item never changes an earlier item's code |
| Purchases.CodeAt | src/store/Store.java:153-168 | item i is judged against the ledger left by items 0 .. i-1 |
| Purchases.BuyCodes | src/store/Store.java:150-168 | every code is 0, 1 or 2: 2 iff the id has no ledger row; 1 iff it has one with fewer than 1 unit left at that point; 0 iff a unit was left |
| Purchases.StockAfterBuy | src/store/Store.java:156-163 | each id's stock drops by exactly the number of its items coded 0 |
| Purchases.BoughtDependsOnPrefix | src/store/Store.java:160-163 | helper for `StockAfterBuy`: the count of items coded 0 over the first n items depends only on their codes |
| Purchases.StockStaysNonNegative | src/store/Store.java:157-163 | an entry that starts non-negative never goes below 0 and never grows |
| Purchases.PurchaseIffUnitLeft | src/store/Store.java:152-166 | item i is bought iff its id is known and its starting stock, less the copies the earlier items bought, is at least 1 |
| Stores.MatchesAreTwins | src/store/Store.java:114-120 | with exact indices, the intersection lists each stored book of that title and author exactly once; when either key is missing there is no such book |
| Stores.HitsAreMatching | src/store/Store.java:85-95 | with exact indices, the union of the two buckets of `s` is exactly the set of stored ids whose title or author is `s` |
| Stores.AppendKeepsExact | src/store/Store.java:177-202 | storing a book under an unused id and appending that id to its bucket keeps an index exact |
| Stores.InsertKeepsConsistent | src/store/Store.java:134-139 | storing a book under the next id, with a ledger row and both index entries, keeps the store consistent; that id was unused |
| Stores.AtMostOneTwin | src/store/Store.java:114-120 | when no two stored books share both title and author, at most one stored id has a given title and author, so the intersection never holds two or more ids |
| Stores.InsertKeepsUnique | src/store/Store.java:134-139 | storing a book under an unused id whose title and author no stored book has keeps every title and author pair unique |
| Stores.Store.Twin | src/store/Store.java:114-120 | the result is some id iff exactly one stored book has that title and author, and then it is that book's id |
| Stores.Store.constructor | src/store/Store.java:21-29 | all four tables are empty, the counter is 1, the invariant holds, and no two books share title and author |
| Stores.Store.List | src/store/Store.java:79-82 | every stored book exactly once, so the length equals the number of books |
| Stores.Store.Search | src/store/Store.java:84-105 | the stored books whose id is in the title bucket or the author bucket of `s`, each once; the result is empty when `s` is in neither index |
| Stores.Store.Collect | src/store/Store.java:97-102 | the stored books with the given ids, each exactly once |
| Stores.Store.AddToIndices | src/store/Store.java:177-202 | both indices gain the book's id in the bucket of its title and of its author; the other tables and the counter are unchanged |
| Stores.Store.Add | src/store/Store.java:108-142 | keeps the invariant and leaves the book's title, author and price alone. One stored twin at another price object: false, nothing changes. At the same price object: the caller's id gets `amount` more units, or, if the ledger has no row for that id, an exception and nothing changes. Otherwise: the book gets the counter as its id and is stored with `amount` units and both index entries, the counter grows by 1, the book count by 1, and true is returned. Non-negative stock is kept when `amount >= 0`, and title and author pairs stay unique when they were |
| Stores.Store.Restock | src/store/Store.java:131-133 | only the ledger row of the given id changes, and it gains `amount`; the invariant holds |
| Stores.Store.AddNew | src/store/Store.java:134-140 | the book gets the old counter as id, which was unused; the book, its stock and both index entries are added; the counter grows by 1; the invariant holds |
| Stores.Store.Buy | src/store/Store.java:144-175 | one code per item, equal to the in-order purchase run on the old ledger; the ledger becomes that run's ledger; books, indices, counter and ledger keys are unchanged; a code is 2 iff the item's id had no row; the invariant, non-negative stock and unique title and author pairs are kept |
| Stores.Store.BuyEach | src/store/Store.java:152-171 | the loop writes the codes of the in-order purchase run and leaves its ledger |
| Stores.Store.BuyOne | src/store/Store.java:153-169 | one item: its code is the code of its id against the current ledger, and the ledger loses one unit of it when one was there |
| Scenarios.SetUpFirst | src/test/StoreTest.java:15-23 | the first book added to an empty store gets id 1 and one unit |
| Scenarios.SetUpSecond | src/test/StoreTest.java:15-24 | the second book gets id 2 and two units |
| Scenarios.SetUp | src/test/StoreTest.java:15-26 | after the three adds the books have ids 1, 2, 3 with stock 1, 2, 0 and the counter is 4 |
| Scenarios.SetUpPurchase | src/test/StoreTest.java:122-131 | the run over stock 1, 2, 0 and ids 1, 2, 3, 0 gives codes 0, 0, 1, 2 and stock 0, 1, 0 |
| Scenarios.BuyBookScenario | src/test/StoreTest.java:122-131 | buying the three test books and an unknown book gives 0, 0, 1, 2 |
| Scenarios.AddBookScenario | src/test/StoreTest.java:109-120 | adding a new title and author grows the listing from 3 to 4 |
| Scenarios.AddSameBookScenario | src/store/Store.java:120-133 | re-adding a stored book object restocks its own row |
| Scenarios.AddCopyScenario | src/store/Store.java:131-133 | a new object matching a stored book throws, because its id is 0 |
| Scenarios.SearchEmptyScenario | src/store/Store.java:84-105 | searching the test store for the empty string finds no book, where the test file expects every book |
| Scenarios.AddRepricedScenario | src/store/Store.java:120-123 | a stored title and author with another price object is refused |

## Left out

- The `Store(String)` constructor and `getBooksFromUrl` (Store.java:31-77): network I/O, locale-dependent `BigDecimal` parsing, `System.exit` and console output.
- Console output in `buy` (Store.java:170, 172). It has no effect on the results.
- src/frontend/StoreFront.java (Swing UI, JSON queries, cart totals) is not part of this model. src/store/BookList.java only declares the three operations that `Store` models.
- `BigDecimal` arithmetic. A price is an opaque object with a display text, and the store only compares prices by reference.
- Stores.Store.Add: the counter and stock are mathematical integers. Java `int` wrap-around on `id++` (Store.java:139) and on the restock sum (Store.java:132) is not modelled.
- Stores.Store.Add: the store keeps a snapshot of the book. The Java store keeps the caller's object, so a caller who later calls a setter on a stored book changes the store and can break its indices. That aliasing is not modelled.
- Stores.Store.List: returns snapshots rather than the stored objects, and promises no order, since `HashMap` iteration order is unspecified.
- Stores.Store.Search: promises no order, since `HashSet` iteration order is unspecified.
- A `null` book passed to `add`, or a `null` element in the array given to `buy`, would throw in Java. The model's `Book` references are non-null.
- `Code`, `Decrement`, `BuyRun` and `Bought` in `Purchases` are plain definitions without contracts. What `buy` promises is stated as lemmas about them and in `Buy`'s postconditions.
- The getters `GetId`, `GetTitle`, `GetAuthor` and `GetPrice` are plain reads of their field. The setter postconditions state what each getter returns.
