/** The library tracker: an ordered list of books and an index from borrower name to the
    id of the book they hold, both held in memory and changed by the request handlers for
    `/books`, `/borrow` and `/return`. */
module LibraryTracker {
  import opened Common
  import opened Text

  // ---------------------------------------------------------------- records

  /** A book's `borrowedBy`: `null`, `undefined` (lent without a `user` parameter), or a name. */
  datatype Holder = NoOne | Undefined | User(name: string)

  datatype Book = Book(id: int, title: string, author: string, year: int, isBorrowed: bool, borrowedBy: Holder)

  /** The fields a POST body supplies. */
  datatype BookInput = BookInput(title: string, author: string, year: int)

  /** A PUT body: every field it carries overrides the stored one; `borrowedBy` may be
      `null` (`Some(None)`) or a name. */
  datatype BookPatch = BookPatch(
    id: Option<int>, title: Option<string>, author: Option<string>, year: Option<int>,
    isBorrowed: Option<bool>, borrowedBy: Option<Option<string>>)

  datatype Payload =
    | BookList(books: seq<Book>)
    | OneBook(book: Book)
    | Message(message: string)

  datatype Response =
    | Reply(status: int, payload: Payload)  // a JSON body with that status
    | NoContent                              // 204 and an empty body
    | NoReply                                // nothing is sent: the client is left waiting
    | Thrown(status: int)                    // the handler throws before anything is sent

  const BookNotFound := Reply(404, Message("Book not found"))
  const AlreadyBorrowed := Reply(400, Message("Book is already borrowed"))
  const NotBorrowed := Reply(400, Message("Book is not borrowed"))
  const NotFound := Reply(404, Message("Not Found"))

  /** The not-found branch of /books/{id} sets a 404 header and then calls `end` on the
      request, which has no such method: the `TypeError` escapes the request listener, so
      the 404 is never sent and the service stops. */
  const ItemMissing := Thrown(404)

  // ---------------------------------------------------------------- predicates

  /** How JavaScript turns a holder into text, both as an object key and inside a message. */
  function HolderText(h: Holder): string {
    match h
    case NoOne => "null"
    case Undefined => "undefined"
    case User(name) => name
  }

  /** The `user` query parameter as stored in `borrowedBy`. */
  function HolderOf(user: Option<string>): Holder {
    match user
    case None => Undefined
    case Some(name) => User(name)
  }

  function IdIs(id: Option<int>): Book -> bool {
    (b: Book) => id == Some(b.id)
  }

  predicate Absent(books: seq<Book>, id: Option<int>) {
    forall b :: b in books ==> !IdIs(id)(b)
  }

  /** The search test, for an already lower-cased search text. */
  function MatchesSearch(search: string): Book -> bool {
    (b: Book) => Contains(Lower(b.title), search) || Contains(Lower(b.author), search)
  }

  /** `{ ...b, ...patch }`. */
  function Merge(b: Book, patch: BookPatch): Book {
    Book(
      patch.id.GetOr(b.id), patch.title.GetOr(b.title), patch.author.GetOr(b.author),
      patch.year.GetOr(b.year), patch.isBorrowed.GetOr(b.isBorrowed),
      match patch.borrowedBy
      case None => b.borrowedBy
      case Some(None) => NoOne
      case Some(Some(name)) => User(name))
  }

  /** The two fields a successful borrow sets. */
  function Lend(b: Book, user: Option<string>): Book {
    b.(isBorrowed := true, borrowedBy := HolderOf(user))
  }

  /** The two fields a successful return clears. */
  function Release(b: Book): Book {
    b.(isBorrowed := false, borrowedBy := NoOne)
  }

  /** A book is lent exactly when it names its borrower. */
  predicate LoanRecorded(b: Book) {
    b.isBorrowed <==> b.borrowedBy.User?
  }

  predicate LoansRecorded(books: seq<Book>) {
    forall b :: b in books ==> LoanRecorded(b)
  }

  /** Every index entry points at a lent book whose holder is that key. */
  predicate IndexSound(books: seq<Book>, users: map<string, int>) {
    forall u :: u in users ==> exists b :: b in books && b.id == users[u] && b.isBorrowed && HolderText(b.borrowedBy) == u
  }

  /** No two positions hold books with the same id. */
  predicate IdsUnique(books: seq<Book>) {
    forall i, j :: 0 <= i < j < |books| ==> books[i].id != books[j].id
  }

  /** Every lent book is the one the index names for its holder. */
  predicate IndexComplete(books: seq<Book>, users: map<string, int>) {
    forall b :: b in books && b.isBorrowed ==> HolderText(b.borrowedBy) in users && users[HolderText(b.borrowedBy)] == b.id
  }

  // ---------------------------------------------------------------- properties of the pure parts

  /** A non-empty search keeps exactly the books whose lower-cased title or author contains
      the lower-cased search text. */
  lemma SearchKeepsExactly(books: seq<Book>, search: string, b: Book)
    ensures b in Filter(MatchesSearch(Lower(search)), books) <==>
      b in books &&
      ((exists i :: OccursAt(Lower(b.title), Lower(search), i)) ||
       (exists i :: OccursAt(Lower(b.author), Lower(search), i)))
  {
    FilterMember(MatchesSearch(Lower(search)), books, b);
    ContainsIffOccurs(Lower(b.title), Lower(search));
    ContainsIffOccurs(Lower(b.author), Lower(search));
  }

  /** A borrow with a user name and every return keep a book's loan recorded; a borrow
      without one does not. */
  lemma TransitionsRecordLoans(b: Book, name: string)
    ensures LoanRecorded(Lend(b, Some(name)))
    ensures LoanRecorded(Release(b))
    ensures !LoanRecorded(Lend(b, None))
  {
  }

  /** A second borrow by the same name overwrites the index entry: the first book is still
      lent to that name, but the index no longer leads to it. */
  lemma SecondBorrowHidesFirst(first: Book, second: Book, name: string)
    requires first.id != second.id
    ensures var books := [Lend(first, Some(name)), Lend(second, Some(name))];
      var users := map[name := first.id][name := second.id];
      IndexSound(books, users) && !IndexComplete(books, users)
  {
    var books := [Lend(first, Some(name)), Lend(second, Some(name))];
    assert books[1] in books;
    assert books[0] in books;
  }

  // ---------------------------------------------------------------- the store

  class LibraryStore {
    var books: seq<Book>
    var users: map<string, int>

    /** Start-up: the saved books when their file exists; the index always starts empty. */
    constructor Start(savedBooks: Option<seq<Book>>)
      ensures books == savedBooks.GetOr([])
      ensures users == map[]
    {
      books := savedBooks.GetOr([]);
      users := map[];
    }

    /** GET /books: all books, or those the search text finds, in stored order. */
    method List(searchQuery: Option<string>) returns (r: Response)
      ensures !Truthy(searchQuery) ==> r == Reply(200, BookList(books))
      ensures Truthy(searchQuery) ==>
        r == Reply(200, BookList(Filter(MatchesSearch(Lower(searchQuery.value)), books)))
    {
      var search := if searchQuery.Some? && searchQuery.value != "" then Some(Lower(searchQuery.value)) else None;
      var filtered := books;
      if search.Some? && search.value != "" {
        filtered := Filter(MatchesSearch(search.value), books);
      }
      r := Reply(200, BookList(filtered));
    }

    /** POST /books: a new available book at the end. */
    method Create(input: BookInput, freshId: int) returns (r: Response)
      modifies this
      ensures users == old(users)
      ensures var b := Book(freshId, input.title, input.author, input.year, false, NoOne);
        books == old(books) + [b] && r == Reply(201, OneBook(b))
      ensures LoansRecorded(old(books)) ==> LoansRecorded(books)
      ensures IndexSound(old(books), users) ==> IndexSound(books, users)
      ensures IndexComplete(old(books), users) ==> IndexComplete(books, users)
      ensures IdsUnique(old(books)) && Absent(old(books), Some(freshId)) ==> IdsUnique(books)
    {
      assert forall k :: 0 <= k < |books| ==> books[k] in books;
      var b := Book(freshId, input.title, input.author, input.year, false, NoOne);
      books := books + [b];
      r := Reply(201, OneBook(b));
      forall u | u in users && IndexSound(old(books), users)
        ensures exists c :: c in books && c.id == users[u] && c.isBorrowed && HolderText(c.borrowedBy) == u
      {
        var c :| c in old(books) && c.id == users[u] && c.isBorrowed && HolderText(c.borrowedBy) == u;
        assert c in books;
      }
    }

    /** GET /books/{id}. */
    method Get(idSegment: string) returns (r: Response)
      ensures Absent(books, ParseInt(idSegment)) ==> r == ItemMissing
      ensures forall i :: IsFirstMatch(IdIs(ParseInt(idSegment)), books, i) ==> r == Reply(200, OneBook(books[i]))
    {
      var index := FindFirst(IdIs(ParseInt(idSegment)), books);
      if index.None? {
        r := ItemMissing;
        return;
      }
      r := Reply(200, OneBook(books[index.value]));
    }

    /** PUT /books/{id}: the body is merged over the book; no response is sent. */
    method Update(idSegment: string, patch: BookPatch) returns (r: Response)
      modifies this
      ensures users == old(users)
      ensures Absent(old(books), ParseInt(idSegment)) ==> r == ItemMissing && books == old(books)
      ensures forall i :: IsFirstMatch(IdIs(ParseInt(idSegment)), old(books), i) ==>
        r == NoReply && books == old(books)[i := Merge(old(books)[i], patch)]
    {
      var index := FindFirst(IdIs(ParseInt(idSegment)), books);
      if index.None? {
        r := ItemMissing;
        return;
      }
      var i := index.value;
      books := books[i := Merge(books[i], patch)];
      r := NoReply;
      forall j | IsFirstMatch(IdIs(ParseInt(idSegment)), old(books), j) ensures j == i {
        FirstMatchUnique(IdIs(ParseInt(idSegment)), old(books), i, j);
      }
    }

    /** DELETE /books/{id}. */
    method Delete(idSegment: string) returns (r: Response)
      modifies this
      ensures users == old(users)
      ensures Absent(old(books), ParseInt(idSegment)) ==> r == ItemMissing && books == old(books)
      ensures forall i :: IsFirstMatch(IdIs(ParseInt(idSegment)), old(books), i) ==>
        r == NoContent && books == RemoveAt(old(books), i)
      ensures LoansRecorded(old(books)) ==> LoansRecorded(books)
      ensures IndexComplete(old(books), users) ==> IndexComplete(books, users)
    {
      var index := FindFirst(IdIs(ParseInt(idSegment)), books);
      if index.None? {
        r := ItemMissing;
        return;
      }
      var i := index.value;
      ghost var before := books;
      books := RemoveAt(books, i);
      r := NoContent;
      forall j | IsFirstMatch(IdIs(ParseInt(idSegment)), before, j) ensures j == i {
        FirstMatchUnique(IdIs(ParseInt(idSegment)), before, i, j);
      }
      forall b | b in books ensures b in before {
        assert multiset(books)[b] > 0;
      }
    }

    /** Any other method on /books/{id}: the lookup still throws, a hit answers nothing. */
    method Probe(idSegment: string) returns (r: Response)
      ensures Absent(books, ParseInt(idSegment)) <==> r == ItemMissing
      ensures !Absent(books, ParseInt(idSegment)) <==> r == NoReply
    {
      var index := FindFirst(IdIs(ParseInt(idSegment)), books);
      r := if index.None? then ItemMissing else NoReply;
    }

    /** /borrow/{id}?user=name: an available book becomes lent to `user`, and the index
        maps the user to it. */
    method Borrow(idSegment: string, user: Option<string>) returns (r: Response)
      modifies this
      ensures Absent(old(books), ParseInt(idSegment)) ==>
        r == BookNotFound && books == old(books) && users == old(users)
      ensures forall i :: IsFirstMatch(IdIs(ParseInt(idSegment)), old(books), i) ==>
        if old(books)[i].isBorrowed then r == AlreadyBorrowed && books == old(books) && users == old(users)
        else
          && books == old(books)[i := Lend(old(books)[i], user)]
          && users == old(users)[HolderText(HolderOf(user)) := old(books)[i].id]
          && r == Reply(200, Message("Book borrowed by " + HolderText(HolderOf(user))))
      ensures user.Some? && LoansRecorded(old(books)) ==> LoansRecorded(books)
      ensures IndexSound(old(books), old(users)) ==> IndexSound(books, users)
    {
      var index := FindFirst(IdIs(ParseInt(idSegment)), books);
      if index.None? {
        r := BookNotFound;
        return;
      }
      var i := index.value;
      if books[i].isBorrowed {
        r := AlreadyBorrowed;
        return;
      }
      ghost var before, beforeUsers := books, users;
      var key := HolderText(HolderOf(user));
      books := books[i := Lend(books[i], user)];
      users := users[key := books[i].id];
      r := Reply(200, Message("Book borrowed by " + key));
      forall j | IsFirstMatch(IdIs(ParseInt(idSegment)), before, j) ensures j == i {
        FirstMatchUnique(IdIs(ParseInt(idSegment)), before, i, j);
      }
      LentElsewhereStays(before, i, Lend(before[i], user));
      if user.Some? && LoansRecorded(before) {
        forall b | b in books ensures LoanRecorded(b) {
          var k :| 0 <= k < |books| && books[k] == b;
          if k != i { assert before[k] in before; }
        }
      }
      if IndexSound(before, beforeUsers) {
        assert books[i] in books;
      }
    }

    /** /return/{id}: a lent book becomes available again, and its holder's key leaves the index. */
    method Return(idSegment: string) returns (r: Response)
      modifies this
      ensures Absent(old(books), ParseInt(idSegment)) ==>
        r == BookNotFound && books == old(books) && users == old(users)
      ensures forall i :: IsFirstMatch(IdIs(ParseInt(idSegment)), old(books), i) ==>
        if !old(books)[i].isBorrowed then r == NotBorrowed && books == old(books) && users == old(users)
        else
          && books == old(books)[i := Release(old(books)[i])]
          && users == old(users) - {HolderText(old(books)[i].borrowedBy)}
          && r == Reply(200, Message("Book returned by " + HolderText(old(books)[i].borrowedBy)))
      ensures LoansRecorded(old(books)) ==> LoansRecorded(books)
      ensures IndexSound(old(books), old(users)) ==> IndexSound(books, users)
      ensures IndexComplete(old(books), old(users)) && IdsUnique(old(books)) ==> IndexComplete(books, users)
    {
      var index := FindFirst(IdIs(ParseInt(idSegment)), books);
      if index.None? {
        r := BookNotFound;
        return;
      }
      var i := index.value;
      if !books[i].isBorrowed {
        r := NotBorrowed;
        return;
      }
      ghost var before := books;
      var key := HolderText(books[i].borrowedBy);
      books := books[i := Release(books[i])];
      users := users - {key};
      r := Reply(200, Message("Book returned by " + key));
      forall j | IsFirstMatch(IdIs(ParseInt(idSegment)), before, j) ensures j == i {
        FirstMatchUnique(IdIs(ParseInt(idSegment)), before, i, j);
      }
      LentElsewhereStays(before, i, Release(before[i]));
      if LoansRecorded(before) {
        forall b | b in books ensures LoanRecorded(b) {
          var k :| 0 <= k < |books| && books[k] == b;
          if k != i { assert before[k] in before; }
        }
      }
      if IndexComplete(before, old(users)) && IdsUnique(before) {
        ReturnKeepsComplete(before, old(users), i);
      }
    }

    /** Borrowing an available book and then returning it gives back the books exactly as
        they were, and takes the borrower's key out of the index. */
    method ReturnUndoesBorrow(idSegment: string, user: Option<string>) returns (lent: Response, returned: Response)
      requires !Absent(books, ParseInt(idSegment))
      requires forall i :: IsFirstMatch(IdIs(ParseInt(idSegment)), books, i) ==>
        !books[i].isBorrowed && books[i].borrowedBy == NoOne
      modifies this
      ensures lent == Reply(200, Message("Book borrowed by " + HolderText(HolderOf(user))))
      ensures returned == Reply(200, Message("Book returned by " + HolderText(HolderOf(user))))
      ensures books == old(books)
      ensures users == old(users) - {HolderText(HolderOf(user))}
    {
      var matches := IdIs(ParseInt(idSegment));
      var found := FindFirst(matches, books);
      var i := found.value;
      ghost var books0, users0 := books, users;
      assert IsFirstMatch(matches, books0, i);
      lent := Borrow(idSegment, user);
      LendKeepsFirstMatch(matches, books0, i, user);
      returned := Return(idSegment);
      LendThenRelease(books0, users0, i, user);
    }
  }

  /** Under unique ids, a complete index stays complete when the book at `i` is returned:
      no other lent book can share its holder's key. */
  lemma ReturnKeepsComplete(books: seq<Book>, users: map<string, int>, i: nat)
    requires i < |books| && books[i].isBorrowed
    requires IndexComplete(books, users) && IdsUnique(books)
    ensures IndexComplete(books[i := Release(books[i])], users - {HolderText(books[i].borrowedBy)})
  {
    var after := books[i := Release(books[i])];
    var key := HolderText(books[i].borrowedBy);
    assert books[i] in books;
    forall b | b in after && b.isBorrowed
      ensures HolderText(b.borrowedBy) in users - {key} && (users - {key})[HolderText(b.borrowedBy)] == b.id
    {
      var k :| 0 <= k < |after| && after[k] == b;
      assert k != i;
      assert books[k] in books;
    }
  }

  /** Lending the first match keeps it the first match. */
  lemma LendKeepsFirstMatch(matches: Book -> bool, books: seq<Book>, i: nat, user: Option<string>)
    requires IsFirstMatch(matches, books, i) && forall b: Book :: matches(b) == matches(Lend(b, user))
    ensures IsFirstMatch(matches, books[i := Lend(books[i], user)], i)
  {
  }

  /** Releasing a book just lent restores the books, and the index loses only the key. */
  lemma LendThenRelease(books: seq<Book>, users: map<string, int>, i: nat, user: Option<string>)
    requires i < |books| && !books[i].isBorrowed && books[i].borrowedBy == NoOne
    ensures var lent := books[i := Lend(books[i], user)];
      lent[i := Release(lent[i])] == books
    ensures var key := HolderText(HolderOf(user));
      users[key := books[i].id] - {key} == users - {key}
  {
    var lent := books[i := Lend(books[i], user)];
    assert lent[i := Release(lent[i])][i] == books[i];
  }

  /** Replacing the book at `i` keeps every book lent under a different key. */
  lemma LentElsewhereStays(books: seq<Book>, i: nat, replacement: Book)
    requires i < |books|
    ensures forall b :: b in books && b.isBorrowed && HolderText(b.borrowedBy) != HolderText(books[i].borrowedBy) ==>
      b in books[i := replacement]
    ensures forall b :: b in books && b != books[i] ==> b in books[i := replacement]
  {
    forall b | b in books && b != books[i] ensures b in books[i := replacement] {
      var k :| 0 <= k < |books| && books[k] == b;
      assert books[i := replacement][k] == b;
    }
  }

  // ---------------------------------------------------------------- the router

  datatype Route =
    | Preflight
    | ListBooks
    | CreateBook
    | BookItem(verb: HttpMethod, idSegment: string)
    | BorrowBook(idSegment: string)
    | ReturnBook(idSegment: string)
    | Unanswered      // /books with a method it has no branch for: nothing is sent
    | NoRoute         // 404 "Not Found"

  /** Dispatch on the method and the path, in the order the handler tests them. */
  function RouteOf(verb: HttpMethod, path: string): Route {
    if verb == Options then Preflight
    else if path == "/books" then
      if verb == Get then ListBooks else if verb == Post then CreateBook else Unanswered
    else if StartsWith(path, "/books/") then BookItem(verb, ItemSegment(path))
    else if StartsWith(path, "/borrow/") then BorrowBook(ItemSegment(path))
    else if StartsWith(path, "/return/") then ReturnBook(ItemSegment(path))
    else NoRoute
  }

  /** Every path other than the four known ones is answered 404. */
  lemma UnknownPathIsNotFound(verb: HttpMethod, path: string)
    requires verb != Options && path != "/books"
    requires !StartsWith(path, "/books/") && !StartsWith(path, "/borrow/") && !StartsWith(path, "/return/")
    ensures RouteOf(verb, path) == NoRoute
  {
  }

  /** Borrowing does not look at the method: any method but OPTIONS on /borrow/{id} lends
      the book, and the id written in decimal is read back. */
  lemma BorrowIgnoresMethod(verb: HttpMethod, id: int)
    requires verb != Options
    ensures RouteOf(verb, "/borrow/" + Render(id)) == BorrowBook(ItemSegment("/borrow/" + Render(id)))
    ensures ParseInt(ItemSegment("/borrow/" + Render(id))) == Some(id)
  {
    var path := "/borrow/" + Render(id);
    assert path[..8] == "/borrow/";
    assert path != "/books" by { assert path[3] != "/books"[3]; }
    assert !StartsWith(path, "/books/") by { assert path[3] != "/books/"[3]; }
    assert path == "/" + "borrow" + "/" + Render(id);
    RenderedIdSegment("borrow", id);
  }

  // ---------------------------------------------------------------- a session

  /** Add a book, lend it to alice, refuse it to bob, and take it back from alice. */
  method LendingScenario() {
    var store := new LibraryStore.Start(None);
    var id := 7;
    var created := store.Create(BookInput("A", "B", 2020), id);
    var b := Book(id, "A", "B", 2020, false, NoOne);
    assert created == Reply(201, OneBook(b));
    ParseIntRender(id);
    assert IsFirstMatch(IdIs(ParseInt(Render(id))), store.books, 0);
    var lent := store.Borrow(Render(id), Some("alice"));
    assert store.books == [Lend(b, Some("alice"))];
    assert "Book borrowed by " + HolderText(HolderOf(Some("alice"))) == "Book borrowed by alice";
    assert lent == Reply(200, Message("Book borrowed by alice"));
    assert IsFirstMatch(IdIs(ParseInt(Render(id))), store.books, 0);
    var refused := store.Borrow(Render(id), Some("bob"));
    assert refused == AlreadyBorrowed;
    assert IsFirstMatch(IdIs(ParseInt(Render(id))), store.books, 0);
    assert HolderText(store.books[0].borrowedBy) == "alice";
    var returned := store.Return(Render(id));
    assert "Book returned by " + "alice" == "Book returned by alice";
    assert returned == Reply(200, Message("Book returned by alice"));
    assert store.books == [b];
    assert store.users == map[];
  }
}
