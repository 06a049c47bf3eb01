# Expense and library trackers in Dafny

This project models two small in-memory REST services written for Node.js.

- **Expense tracker** (`Expense-project/index.js`). It keeps an ordered list of expenses and an ordered list of category names. It serves:
  - `/expenses`, with list by category and month, create, get, update and delete;
  - `/categories`, with list, create, and delete that cascades to the expenses in the category;
  - `/statistics?month=`, which returns a total and a per-category sum.
- **Library tracker** (`Library-project/index.js`). It keeps an ordered list of books and a `users` index from borrower name to book id. It serves:
  - `/books`, with case-insensitive search, create, get, update and delete;
  - a two-state borrow/return machine on `/borrow/{id}?user=` and `/return/{id}`, which also updates the index.

Modules:

- `Common`:
  - `Option`, standing for JavaScript's `undefined`/`null`;
  - the HTTP verbs;
  - the array builtins the handlers use: `filter` is `Filter`; `findIndex`, `find` and `indexOf` are `FindFirst`; `splice(i, 1)` is `RemoveAt`.
- `Text`: the string builtins.
  - `startsWith`;
  - `split('/')` and the path segment it yields;
  - ASCII `toLowerCase`;
  - `includes`;
  - `parseInt` on decimal text.
- `ExpenseTracker`:
  - the `ExpenseStore` class, whose `expenses` and `categories` fields the handler methods update in place;
  - the pure filters;
  - the statistics sums;
  - the `forEach` that tallies `byCategory`, as a loop proved against the sum function;
  - the route classifier.
- `LibraryTracker`:
  - the `LibraryStore` class, with fields `books` and `users`;
  - the search filter;
  - the borrow and return transitions, with the invariants they keep on the index;
  - the route classifier.

Each handler is a method that takes the parsed request and returns a `Response`:

- `Reply(status, payload)`;
- `NoContent`, for 204;
- `NoReply`, where the source sends nothing;
- for the library only, `Thrown(404)`. The not-found branch of `/books/{id}` sets a 404 header and then calls `end` on the request object, which has no such method. The resulting `TypeError` escapes the request listener: the 404 is never sent and the service process stops.

The fresh id that `Date.now()` supplies is a parameter. Nothing requires it to be new. The contracts instead say that ids stay unique *when* the id is new.

Quirks of the code that the model reproduces:

- **PUT /expenses/{id}.** It rejects only a truthy category that is not in the list, so an empty category passes (`EmptyCategoryPassesCheck`).
- **GET /statistics.** It rejects only a falsy month: missing, empty, not a number, or 0. Month 13 is accepted and matches nothing (`MonthOutOfRangeMatchesNothing`).
- **Ids.** A PUT body may carry `id` and overwrite it, so ids can repeat (`UpdateCanDuplicateIds`).
- **/books/{id} not found.** The handler throws instead of answering 404 (`Thrown(404)`).
- **Borrowing twice under one name.** The second borrow overwrites the index entry, so the index no longer leads to the first book (`SecondBorrowHidesFirst`).

## Model

| member | source | states |
|---|---|---|
| Common.Filter | Expense-project/index.js:45 | the result is no longer than the input, and every kept element is an input element satisfying the predicate |
| Common.FilterConcat | Expense-project/index.js:45 | filtering distributes over concatenation, so kept elements stay in their original relative order |
| Common.FilterCount | Expense-project/index.js:148 | each element satisfying the predicate is kept as many times as it occurs, every other element is dropped |
| Common.FilterMember | Library-project/index.js:39-42 | an element is in the filtered list exactly when it is in the list and satisfies the predicate |
| Common.FilterThenFilter | Expense-project/index.js:44-54 | two filters applied one after another keep what their conjunction keeps |
| Common.FilterKeepsAll | Expense-project/index.js:41 | a filter whose predicate always holds returns the list unchanged |
| Common.FindFirst | Expense-project/index.js:83 | `findIndex` finds a position exactly when some element matches, the position found is the first match, and there is none exactly when no element matches |
| Common.FirstMatchUnique | Library-project/index.js:97 | the first matching position is unique |
| Common.RemoveAt | Expense-project/index.js:109 | `splice(i, 1)` shortens the list by one, keeps the elements before `i` in place and shifts those after it down by one, and removes exactly one occurrence of the element at `i` |
| Common.RemoveAtDistinct | Expense-project/index.js:149 | removing a position of a duplicate-free list removes that value altogether and keeps the list duplicate-free |
| Text.Split | Expense-project/index.js:82 | `split('/')` yields at least one piece and no piece contains the separator |
| Text.JoinSplit | Expense-project/index.js:82 | joining the pieces of a split with the separator gives back the original text |
| Text.SplitAfterHead | Expense-project/index.js:138 | a separator-free head splits off as the first piece |
| Text.SplitHead | Expense-project/index.js:138 | the first piece is a prefix of the text, followed by the separator when shorter |
| Text.ItemSegmentAfterPrefix | Expense-project/index.js:138 | the segment taken from `/name/rest` is the text of `rest` up to its first slash |
| Text.RenderedIdSegment | Library-project/index.js:66 | an integer written in decimal after `/name/` is read back by `parseInt` from the path segment |
| Text.ContainsIffOccurs | Library-project/index.js:40-41 | `includes` answers yes exactly when the search text occurs at some position |
| Text.LeadingDigits | Expense-project/index.js:52 | `parseInt` reads the longest run of leading digits and stops at the first non-digit |
| Text.Decimal | Expense-project/index.js:82 | the decimal rendering of a natural number is non-empty and consists of digits only |
| Text.DigitsValueOfDecimal | Expense-project/index.js:82 | the digits of a rendered number evaluate back to that number |
| Text.LeadingDigitsOfDigits | Expense-project/index.js:82 | a text made only of digits is read in full |
| Text.ParseIntRender | Expense-project/index.js:82-83 | `parseInt` of a rendered integer, sign included, is that integer, so an id written into a path is found again |
| ExpenseTracker.MonthOf | Expense-project/index.js:51-52 | a month is read exactly from the texts of the ECMAScript date time string format it covers (`YYYY`, `YYYY-MM` or `YYYY-MM-DD` with month 01-12 and day 01-31, optionally followed by `THH:mm[:ss[.sss]]` and `Z`): January for a year alone, otherwise the `MM` field, always between 1 and 12; any other text is an invalid date whose month matches nothing |
| ExpenseTracker.IsoStringMonth | Expense-project/index.js:51-52 | every 24-character text of the form `toISOString()` writes, `YYYY-MM-DDTHH:mm:ss.sssZ`, is read in the month its `MM` field names |
| ExpenseTracker.YearAloneIsJanuary | Expense-project/index.js:51-52 | every four-digit year written alone is read as January |
| ExpenseTracker.MonthOutOfRangeMatchesNothing | Expense-project/index.js:159-169 | a month below 1 or above 12 passes the falsy check but selects no expense |
| ExpenseTracker.TotalConcat | Expense-project/index.js:171 | the total of two lists joined is the sum of their totals |
| ExpenseTracker.NoneOfCategory | Expense-project/index.js:174-175 | a category no expense names selects no expense, so its sum is empty |
| ExpenseTracker.CategoryTotalsOfNone | Expense-project/index.js:171 | with no expenses, every category sum is zero |
| ExpenseTracker.CategoryTotalsSplit | Expense-project/index.js:173-178 | the category sums of a list split into those of its first expense and those of the rest |
| ExpenseTracker.CategoryTotalsOne | Expense-project/index.js:173-178 | one expense contributes its amount to its own category's sum and nothing to the others |
| ExpenseTracker.TotalSplitsByCategory | Expense-project/index.js:171-178 | the total equals the sum of the per-category totals over any duplicate-free list of categories covering every expense |
| ExpenseTracker.SumOverCategoryTotals | Expense-project/index.js:173-178 | summing a per-category total map over a list of its keys gives the category sums over that list |
| ExpenseTracker.TallyStep | Expense-project/index.js:173-178 | appending one expense adds its category to the categories present and its amount to that category's sum only |
| ExpenseTracker.TalliesOfNone | Expense-project/index.js:172 | the empty `byCategory` tallies the empty prefix |
| ExpenseTracker.TallyStepKeeps | Expense-project/index.js:173-178 | one round of the `forEach` turns a tally of a prefix into a tally of the prefix and the next expense |
| ExpenseTracker.TallyStepAt | Expense-project/index.js:173-178 | the same round, at position `i` of the month's expenses |
| ExpenseTracker.AddToTally | Expense-project/index.js:174-177 | the callback adds the expense's category as a key, adds its amount to that entry (starting from zero when the entry is absent or zero), and leaves other entries unchanged |
| ExpenseTracker.TallyByCategory | Expense-project/index.js:172-178 | `byCategory` has a key exactly for each category occurring in the month's expenses, holding the sum of that category's amounts |
| ExpenseTracker.ExpenseStore.Start | Expense-project/index.js:6-21 | at start-up the saved lists are used, otherwise no expenses and the four default categories |
| ExpenseTracker.ExpenseStore.List | Expense-project/index.js:40-57 | GET /expenses returns, in stored order, the expenses matching the category when it is truthy and the month when it is truthy |
| ExpenseTracker.ExpenseStore.Create | Expense-project/index.js:58-79 | a category outside the list gives 400 with no change, otherwise exactly the new record is appended and returned with 201, keeping every expense's category known and (for a new id) ids unique |
| ExpenseTracker.ExpenseStore.Get | Expense-project/index.js:81-92 | an absent id gives 404, otherwise the first record with that id is returned |
| ExpenseTracker.ExpenseStore.Update | Expense-project/index.js:81-107 | an absent id gives 404 and a truthy unknown category 400, both with no change, otherwise only the first matching record changes, to the body merged over it, and is returned |
| ExpenseTracker.ExpenseStore.Delete | Expense-project/index.js:81-113 | an absent id gives 404 with no change, otherwise exactly the first matching record is removed and 204 sent, keeping categories known and ids unique |
| ExpenseTracker.ExpenseStore.Probe | Expense-project/index.js:81-114 | any other verb on an existing id gets no reply, on an absent id 404 |
| ExpenseTracker.ExpenseStore.ListCategories | Expense-project/index.js:118-120 | GET /categories returns the list as it is |
| ExpenseTracker.ExpenseStore.CreateCategory | Expense-project/index.js:121-136 | an existing name gives 400 with no change, otherwise the name is appended and echoed with 201, so the list never gains a duplicate |
| ExpenseTracker.ExpenseStore.DeleteCategory | Expense-project/index.js:137-155 | an absent name gives 404 with no change, otherwise the name leaves the list, every expense in it is removed, every other expense is kept in order, and 204 is sent |
| ExpenseTracker.ExpenseStore.ProbeCategory | Expense-project/index.js:137-155 | any other verb on a known name gets no reply, on an unknown name 404 |
| ExpenseTracker.ExpenseStore.MonthlyStatistics | Expense-project/index.js:158-182 | a falsy month gives 400, otherwise `total` is the sum of the month's amounts, `byCategory` has a key exactly for each category occurring that month holding its sum, and its values add up to `total` |
| ExpenseTracker.UnknownPathIsNotFound | Expense-project/index.js:184-187 | every path outside the known ones, and /statistics with a verb other than GET, is answered 404 |
| ExpenseTracker.ExpensePathNamesId | Expense-project/index.js:81-83 | `/expenses/` followed by an id in decimal reaches the item route with that id |
| ExpenseTracker.CategoryWithSlashUnreachable | Expense-project/index.js:137-139 | the raw segment stops at a slash, so a category whose name holds a slash cannot be addressed |
| ExpenseTracker.EmptyCategoryPassesCheck | Expense-project/index.js:98-103 | an empty category passes the PUT check and leaves an expense whose category is in no list |
| ExpenseTracker.UpdateCanDuplicateIds | Expense-project/index.js:103 | a PUT body carrying another record's id makes ids non-unique |
| LibraryTracker.SearchKeepsExactly | Library-project/index.js:35-43 | a search keeps exactly the books whose lower-cased title or author contains the lower-cased search text at some position |
| LibraryTracker.TransitionsRecordLoans | Library-project/index.js:111-137 | a borrow with a user and every return keep "lent exactly when a borrower is named", a borrow without a user breaks it |
| LibraryTracker.SecondBorrowHidesFirst | Library-project/index.js:111-113 | a second borrow by the same name overwrites the index entry, so the index stays sound but no longer leads to the first book |
| LibraryTracker.ReturnKeepsComplete | Library-project/index.js:134-139 | with unique ids, returning a book keeps a complete index complete |
| LibraryTracker.LibraryStore.Start | Library-project/index.js:6-15 | at start-up the saved books are used, otherwise none, and the index is empty |
| LibraryTracker.LibraryStore.List | Library-project/index.js:34-45 | an absent or empty search returns all books, otherwise the books the lower-cased search finds, in stored order |
| LibraryTracker.LibraryStore.Create | Library-project/index.js:46-64 | exactly one available book with the given title, author and year and no borrower is appended and returned with 201, preserving loan recording and index soundness and completeness |
| LibraryTracker.LibraryStore.Get | Library-project/index.js:65-77 | an absent id throws after only setting the 404 header, so nothing is sent; otherwise the first book with that id is returned |
| LibraryTracker.LibraryStore.Update | Library-project/index.js:65-86 | an absent id throws with no change, otherwise only the first matching book changes, to the body merged over it, and nothing is sent |
| LibraryTracker.LibraryStore.Delete | Library-project/index.js:65-93 | an absent id throws with no change, otherwise exactly the first matching book is removed and 204 sent, keeping loan recording and index completeness |
| LibraryTracker.LibraryStore.Probe | Library-project/index.js:65-93 | any other verb on an existing id gets no reply, on an absent id it throws |
| LibraryTracker.LibraryStore.Borrow | Library-project/index.js:94-117 | an absent id gives 404 and a lent book 400, both with no change, otherwise only that book becomes lent to the user, the index maps the user's key to its id, and the message names the user; loan recording (with a user) and index soundness are kept |
| LibraryTracker.LibraryStore.Return | Library-project/index.js:118-143 | an absent id gives 404 and an available book 400, both with no change, otherwise only that book becomes available, the former holder's key leaves the index, and the message names the holder; loan recording, index soundness and (with unique ids) completeness are kept |
| LibraryTracker.LibraryStore.ReturnUndoesBorrow | Library-project/index.js:111-139 | borrowing an available, unheld book and then returning it leaves the books exactly as they were, removes the borrower's key from the index, and both messages name that borrower |
| LibraryTracker.UnknownPathIsNotFound | Library-project/index.js:144-147 | every path outside the four known ones is answered 404 |
| LibraryTracker.BorrowIgnoresMethod | Library-project/index.js:94-97 | any verb but OPTIONS on `/borrow/` and an id in decimal reaches the borrow route with that id |

## Left out

- The HTTP server, `url.parse`, the CORS headers, the OPTIONS reply and `listen` are not modelled. The route classifiers only say which handler an OPTIONS request reaches.
- Request bodies are not streamed or parsed. Each handler takes the parsed body as a record, so malformed JSON, missing fields, and fields of other JSON types (`null`, numbers where strings are expected, extra keys) are outside the model.
- File persistence is not modelled, neither the start-up reads nor the writes after each mutation. The constructors take the saved lists as optional parameters.
- Ids come from `Date.now()`, which is a clock. The fresh id is a parameter.
- `new Date(date).getMonth()` depends on the local time zone, and a date-time without `Z` is read in local time. `MonthOf` reads every date as in UTC.
- `ExpenseTracker.MonthOf`: treats as invalid the date time strings with an explicit offset (`+09:00`) or with hour 24, because these can move the date into another month and the model does not do calendar arithmetic.
- `ExpenseTracker.MonthOf`: treats as invalid the date time strings with an expanded year (`+002024-03-10`), where `Date` reads the month as usual; the model simply does not parse the six-digit signed year.
- `ExpenseTracker.MonthOf`: treats as invalid the texts outside the ECMAScript date time string format (`Mar 10 2024`, `2024/03/10`), because for those the standard leaves parsing to the implementation.
- `ExpenseTracker.MonthOf`: does not check a day against its month's length (`2024-02-30`), where `Date` may roll over into the next month or refuse the date.
- `Text.ParseInt`: does not model leading whitespace or the `0x` prefix.
- `Text.ParseInt`: is exact for every number of digits, while `parseInt` returns a double and stops being exact beyond 2^53. The model's ids are unbounded integers, so a segment such as `9007199254740993` finds id 9007199254740993 in the model, while `parseInt` rounds it to 9007199254740992 and finds that id instead.
- `toLowerCase` is modelled on ASCII letters only. Unicode case mapping is not modelled.
- Amounts and years are integers. JavaScript numbers are doubles, and floating-point sums are not modelled.
- Concurrency is not modelled. The PUT handlers compute the index before the body arrives, so a request handled in between could move the record. The model runs each handler as one step.
- `ExpenseTracker.AddToTally`: does not model categories named after members `byCategory` inherits from `Object.prototype` (`constructor`, `toString`, `valueOf`, `hasOwnProperty`, `isPrototypeOf`, `propertyIsEnumerable`, `toLocaleString`, `__defineGetter__`, `__defineSetter__`, `__lookupGetter__`, `__lookupSetter__`). For those, `!byCategory[c]` reads the inherited function, which is truthy, so the entry is not reset to 0, and `+=` appends the amount to the function's text (`"function Object() { [native code] }5000"`). A `map<string, int>` cannot hold that text.
- `ExpenseTracker.TallyByCategory`: for the same inherited names, the source's entry is that text and not the category's sum; the model's entry is the sum.
- `ExpenseTracker.ExpenseStore.MonthlyStatistics`: for a month with an expense in one of those inherited names, the source's `byCategory` holds a text for it and its values do not add up to `total`; the model's contract gives the sum and the equality for every name. POST /categories accepts such names.
- `byCategory` and the `users` index are plain objects, so the key `__proto__` behaves differently there. In particular `users["__proto__"] = id` is ignored, while `LibraryTracker.LibraryStore.Borrow` adds that key like any other. Such keys, and the key order of the JSON output, are not modelled.
- `Thrown(404)` ends the service process, so in the source the in-memory `users` index is lost and a restart begins again from `Start` with an empty index. The model does not stop the store after `Thrown`: a later call still sees the same books and index.
- Repeated query parameters are not modelled. They arrive as arrays.
- Persisting the `users` index is not modelled, because the source never persists it.
