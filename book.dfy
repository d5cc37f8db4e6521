/** The book record of the store (src/store/Book.java) and the value types it is made of. */
module Books {

  datatype Option<+T> = None | Some(value: T)

  /** A Java `String` reference: `None` stands for `null`. */
  type Text = Option<string>

  /** How Java's string concatenation renders a possibly-null string. */
  function Show(t: Text): string
  {
    match t
    case None => "null"
    case Some(s) => s
  }

  /**
   * A `BigDecimal` price. The store only ever compares prices with `!=`,
   * which in Java compares references; a Dafny class gives exactly that
   * identity comparison. `text` is what the value's `toString` prints.
   */
  class Price {
    const text: string

    constructor (text: string)
      ensures this.text == text
    {
      this.text := text;
    }
  }

  function PriceText(p: Price?): string
  {
    if p == null then "null" else p.text
  }

  /** A snapshot of a book's four fields, as the store keeps it. */
  datatype BookEntry = BookEntry(id: int, title: Text, author: Text, price: Price?)

  /** A mutable book record; every field starts at Java's default (0 or null). */
  class Book {
    var id: int
    var title: Text
    var author: Text
    var price: Price?

    /** The no-argument constructor: all four fields keep their defaults. */
    constructor Empty()
      ensures id == 0 && title == None && author == None && price == null
    {
      id := 0;
      title := None;
      author := None;
      price := null;
    }

    /** Stores title, author and price as given; the id keeps its default 0. */
    constructor (title: Text, author: Text, price: Price?)
      ensures this.title == title && this.author == author && this.price == price
      ensures id == 0
    {
      id := 0;
      this.title := title;
      this.author := author;
      this.price := price;
    }

    function GetId(): int
      reads this
    {
      id
    }

    function GetTitle(): Text
      reads this
    {
      title
    }

    function GetAuthor(): Text
      reads this
    {
      author
    }

    function GetPrice(): Price?
      reads this
    {
      price
    }

    /** The four fields as a value. */
    function Entry(): (e: BookEntry)
      reads this
      ensures e.id == GetId() && e.title == GetTitle() && e.author == GetAuthor() && e.price == GetPrice()
    {
      BookEntry(id, title, author, price)
    }

    method SetId(id: int)
      modifies this
      ensures GetId() == id
      ensures title == old(title) && author == old(author) && price == old(price)
    {
      this.id := id;
    }

    method SetTitle(title: Text)
      modifies this
      ensures GetTitle() == title
      ensures id == old(id) && author == old(author) && price == old(price)
    {
      this.title := title;
    }

    method SetAuthor(author: Text)
      modifies this
      ensures GetAuthor() == author
      ensures id == old(id) && title == old(title) && price == old(price)
    {
      this.author := author;
    }

    method SetPrice(price: Price?)
      modifies this
      ensures GetPrice() == price
      ensures id == old(id) && title == old(title) && author == old(author)
    {
      this.price := price;
    }

    /**
     * "Title: <title>, Author: <author>, Price: <price>", with `null` for an
     * unset field. Each field can be read back at its fixed offset.
     */
    function ToString(): (s: string)
      reads this
      ensures |s| == 26 + |Show(title)| + |Show(author)| + |PriceText(price)|
      ensures s[..7] == "Title: " && s[7..7 + |Show(title)|] == Show(title)
      ensures s[7 + |Show(title)|..17 + |Show(title)|] == ", Author: "
      ensures s[17 + |Show(title)|..17 + |Show(title)| + |Show(author)|] == Show(author)
      ensures s[|s| - 9 - |PriceText(price)|..|s| - |PriceText(price)|] == ", Price: "
      ensures s[|s| - |PriceText(price)|..] == PriceText(price)
    {
      var head := "Title: " + Show(title) + ", Author: " + Show(author);
      assert head[..7] == "Title: " && head[7..7 + |Show(title)|] == Show(title);
      assert head[7 + |Show(title)|..17 + |Show(title)|] == ", Author: ";
      head + ", Price: " + PriceText(price)
    }
  }

  /** The ids of the given books, in order (what `buy` reads with `getId`). */
  function IdsOf(items: seq<Book>): (ids: seq<int>)
    reads items
    ensures |ids| == |items|
    ensures forall i :: 0 <= i < |items| ==> ids[i] == items[i].GetId()
  {
    if items == [] then [] else [items[0].GetId()] + IdsOf(items[1..])
  }
}
