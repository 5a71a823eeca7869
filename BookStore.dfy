/** The in-memory book catalogue of the Express server: one ordered list of
    books, four route handlers acting on it. Each handler answers with an
    HTTP status code and a JSON payload. */
module BookStore {
  import opened Wrappers
  import JsBuiltins

  datatype Book = Book(id: string, title: string, author: string, publicationDate: string)

  /** The fields read from a POST /books request body; `None` is a field the
      body does not have. */
  datatype BookRequest = BookRequest(title: Option<string>, author: Option<string>, publicationDate: Option<string>)

  /** The JSON payload of a reply. */
  datatype Payload =
    | BookList(books: seq<Book>)
    | BookJson(book: Book)
    | ErrorJson(error: string)
    | MessageJson(message: string)

  datatype Reply = Reply(status: int, payload: Payload)

  /** A reply together with the catalogue the handler leaves behind. */
  datatype Outcome = Outcome(reply: Reply, books: seq<Book>)

  const TitleAuthorRequired := "Title and author are required"
  const PublicationDateRequired := "Publication Date is required"
  const BookNotFound := "Book not found"
  const BookDeleted := "Book deleted successfully"

  /** JavaScript truthiness of a body field: missing and "" are falsy. */
  predicate Truthy(field: Option<string>) {
    field.Some? && field.value != ""
  }

  ghost predicate HasId(books: seq<Book>, id: string) {
    exists i :: 0 <= i < |books| && books[i].id == id
  }

  ghost predicate DistinctIds(books: seq<Book>) {
    forall i, j :: 0 <= i < j < |books| ==> books[i].id != books[j].id
  }

  /** `books.findIndex(b => b.id === id)`: the first position holding `id`, or -1. */
  function FindIndex(books: seq<Book>, id: string): (i: int)
    ensures -1 <= i < |books|
    ensures i >= 0 ==> books[i].id == id && forall j :: 0 <= j < i ==> books[j].id != id
    ensures i == -1 <==> !HasId(books, id)
  {
    if books == [] then -1
    else if books[0].id == id then 0
    else
      var i := FindIndex(books[1..], id);
      if i == -1 then -1 else i + 1
  }

  /** GET /books. */
  function ListBooks(books: seq<Book>): (r: Reply)
    ensures r.status == 200 && r.payload.BookList? && r.payload.books == books
  {
    Reply(200, BookList(books))
  }

  /** POST /books: validate the body, then append a new book carrying the
      freshly generated `newId`. */
  function CreateBook(books: seq<Book>, req: BookRequest, newId: string): (o: Outcome)
    ensures !Truthy(req.title) || !Truthy(req.author) ==>
              o == Outcome(Reply(400, ErrorJson(TitleAuthorRequired)), books)
    ensures Truthy(req.title) && Truthy(req.author) && !Truthy(req.publicationDate) ==>
              o == Outcome(Reply(400, ErrorJson(PublicationDateRequired)), books)
    ensures o.reply.status == 201 <==>
              Truthy(req.title) && Truthy(req.author) && Truthy(req.publicationDate)
    ensures o.reply.status == 201 ==>
              && o.reply.payload.BookJson?
              && o.reply.payload.book == Book(newId, req.title.value, req.author.value, req.publicationDate.value)
              && |o.books| == |books| + 1
              && o.books[..|books|] == books
              && o.books[|books|] == o.reply.payload.book
  {
    if !Truthy(req.title) || !Truthy(req.author) then
      Outcome(Reply(400, ErrorJson(TitleAuthorRequired)), books)
    else if !Truthy(req.publicationDate) then
      Outcome(Reply(400, ErrorJson(PublicationDateRequired)), books)
    else
      var book := Book(newId, req.title.value, req.author.value, req.publicationDate.value);
      Outcome(Reply(201, BookJson(book)), books + [book])
  }

  /** GET /books/:id. */
  function GetBook(books: seq<Book>, id: string): (r: Reply)
    ensures r.status == 404 <==> !HasId(books, id)
    ensures r.status == 404 ==> r.payload == ErrorJson(BookNotFound)
    ensures r.status != 404 ==>
              && r.status == 200 && r.payload.BookJson? && r.payload.book.id == id
              && exists i :: 0 <= i < |books| && books[i] == r.payload.book
                             && forall j :: 0 <= j < i ==> books[j].id != id
  {
    var i := FindIndex(books, id);
    if i == -1 then Reply(404, ErrorJson(BookNotFound)) else Reply(200, BookJson(books[i]))
  }

  /** DELETE /books/:id: `books.splice(index, 1)` at the first match. */
  function DeleteBook(books: seq<Book>, id: string): (o: Outcome)
    ensures !HasId(books, id) ==> o == Outcome(Reply(404, ErrorJson(BookNotFound)), books)
    ensures HasId(books, id) ==>
              var i := FindIndex(books, id);
              && o.reply == Reply(200, MessageJson(BookDeleted))
              && |o.books| == |books| - 1
              && o.books == books[..i] + books[i + 1..]
  {
    var i := FindIndex(books, id);
    if i == -1 then Outcome(Reply(404, ErrorJson(BookNotFound)), books)
    else
      var rest := JsBuiltins.SpliceOne(books, i);
      assert rest == rest[..i] + rest[i..];
      Outcome(Reply(200, MessageJson(BookDeleted)), rest)
  }

  /** A book created with a fresh id keeps the ids pairwise distinct. */
  lemma CreateKeepsIdsDistinct(books: seq<Book>, req: BookRequest, newId: string)
    requires DistinctIds(books) && !HasId(books, newId)
    ensures DistinctIds(CreateBook(books, req, newId).books)
  {
  }

  /** Deleting keeps the ids pairwise distinct. */
  lemma DeleteKeepsIdsDistinct(books: seq<Book>, id: string)
    requires DistinctIds(books)
    ensures DistinctIds(DeleteBook(books, id).books)
  {
    var o := DeleteBook(books, id);
    if HasId(books, id) {
      var k := FindIndex(books, id);
      forall i, j | 0 <= i < j < |o.books| ensures o.books[i].id != o.books[j].id {
        RemovedAt(books, k, i);
        RemovedAt(books, k, j);
      }
    }
  }

  /** Position `m` of a sequence with position `k` removed. */
  lemma RemovedAt<T>(s: seq<T>, k: nat, m: nat)
    requires k < |s| && m < |s| - 1
    ensures (s[..k] + s[k + 1..])[m] == s[if m < k then m else m + 1]
  {
  }

  /** With distinct ids, the deleted id is gone: deleting it again is a 404. */
  lemma DeleteTwiceNotFound(books: seq<Book>, id: string)
    requires DistinctIds(books) && HasId(books, id)
    ensures DeleteBook(books, id).reply.status == 200
    ensures DeleteBook(DeleteBook(books, id).books, id).reply == Reply(404, ErrorJson(BookNotFound))
  {
  }

  /** A book just created is what GET /books/:id returns for its id. */
  lemma CreateThenGet(books: seq<Book>, req: BookRequest, newId: string)
    requires !HasId(books, newId)
    requires Truthy(req.title) && Truthy(req.author) && Truthy(req.publicationDate)
    ensures var o := CreateBook(books, req, newId);
            GetBook(o.books, newId) == Reply(200, BookJson(Book(newId, req.title.value, req.author.value, req.publicationDate.value)))
  {
  }

  /** The catalogue the server holds, with one method per route. */
  class Catalogue {
    var books: seq<Book>

    /** `let books = []` at start-up. */
    constructor ()
      ensures books == []
    {
      books := [];
    }

    /** GET /books: the current catalogue, in insertion order. */
    method List() returns (r: Reply)
      ensures r == ListBooks(books)
    {
      r := Reply(200, BookList(books));
    }

    /** POST /books; `newId` is the value `uuidv4()` produced. */
    method Create(req: BookRequest, newId: string) returns (r: Reply)
      modifies this
      ensures Outcome(r, books) == CreateBook(old(books), req, newId)
      ensures DistinctIds(old(books)) && !HasId(old(books), newId) ==> DistinctIds(books)
    {
      if !Truthy(req.title) || !Truthy(req.author) {
        return Reply(400, ErrorJson(TitleAuthorRequired));
      }
      if !Truthy(req.publicationDate) {
        return Reply(400, ErrorJson(PublicationDateRequired));
      }
      var book := Book(newId, req.title.value, req.author.value, req.publicationDate.value);
      if DistinctIds(books) && !HasId(books, newId) {
        CreateKeepsIdsDistinct(books, req, newId);
      }
      books := books + [book];
      r := Reply(201, BookJson(book));
    }

    /** The linear scan behind `books.find` and `books.findIndex`. */
    method IndexOf(id: string) returns (i: int)
      ensures i == FindIndex(books, id)
    {
      i := 0;
      while i < |books|
        invariant 0 <= i <= |books|
        invariant forall j :: 0 <= j < i ==> books[j].id != id
      {
        if books[i].id == id {
          return;
        }
        i := i + 1;
      }
      i := -1;
    }

    /** GET /books/:id. */
    method Get(id: string) returns (r: Reply)
      ensures r == GetBook(books, id)
    {
      var i := IndexOf(id);
      if i == -1 {
        return Reply(404, ErrorJson(BookNotFound));
      }
      r := Reply(200, BookJson(books[i]));
    }

    /** DELETE /books/:id. */
    method Delete(id: string) returns (r: Reply)
      modifies this
      ensures Outcome(r, books) == DeleteBook(old(books), id)
      ensures DistinctIds(old(books)) ==> DistinctIds(books)
    {
      var i := IndexOf(id);
      if i == -1 {
        return Reply(404, ErrorJson(BookNotFound));
      }
      if DistinctIds(books) {
        DeleteKeepsIdsDistinct(books, id);
      }
      books := JsBuiltins.SpliceOne(books, i);
      r := Reply(200, MessageJson(BookDeleted));
    }
  }

  /** Creating with a falsy field on an empty catalogue is a 400 that leaves
      the list empty. */
  method ValidationScenario()
  {
    var c := new Catalogue();
    var r := c.Create(BookRequest(Some(""), Some("author"), Some("2020-01-01")), "x");
    assert r == Reply(400, ErrorJson(TitleAuthorRequired)) && c.books == [];
    r := c.Create(BookRequest(Some("T"), Some("A"), Some("")), "x");
    assert r == Reply(400, ErrorJson(PublicationDateRequired)) && c.books == [];
    r := c.Get("anything");
    assert r.status == 404;
  }

  /** Create A, B, C on an empty catalogue: the list holds them in that order. */
  method OrderScenario() returns (c: Catalogue)
    ensures fresh(c)
    ensures c.books == [Book("1", "A", "Ann", "2020"), Book("2", "B", "Bob", "2021"), Book("3", "C", "Cat", "2022")]
  {
    c := new Catalogue();
    var bookA, bookB, bookC := Book("1", "A", "Ann", "2020"), Book("2", "B", "Bob", "2021"), Book("3", "C", "Cat", "2022");
    var r := c.Create(BookRequest(Some("A"), Some("Ann"), Some("2020")), "1");
    assert c.books == [bookA];
    r := c.Create(BookRequest(Some("B"), Some("Bob"), Some("2021")), "2");
    assert c.books == [bookA, bookB];
    r := c.Create(BookRequest(Some("C"), Some("Cat"), Some("2022")), "3");
    assert c.books == [bookA, bookB, bookC];
    r := c.List();
    assert r.payload == BookList([bookA, bookB, bookC]);
  }

  /** On the catalogue the creates above build, deleting B leaves A, C, and a
      second delete of B is a 404. */
  method DeleteScenario()
  {
    var c := OrderScenario();
    var bookA, bookC := Book("1", "A", "Ann", "2020"), Book("3", "C", "Cat", "2022");
    assert FindIndex(c.books, "2") == 1;
    var r := c.Delete("2");
    assert r.status == 200 && c.books == [bookA, bookC];
    assert FindIndex(c.books, "2") == -1;
    r := c.Delete("2");
    assert r.status == 404;
  }
}
