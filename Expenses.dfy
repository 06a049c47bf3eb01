/** The expense tracker: an ordered list of expenses and an ordered list of category names,
    held in memory and changed by the request handlers for `/expenses`, `/categories` and
    `/statistics`. */
module ExpenseTracker {
  import opened Common
  import opened Text

  // ---------------------------------------------------------------- records

  datatype Expense = Expense(id: int, amount: int, category: string, date: string, description: string)

  /** The fields a POST body supplies. */
  datatype ExpenseInput = ExpenseInput(amount: int, category: string, date: string, description: string)

  /** A PUT body: every field it carries, `id` included, overrides the stored one. */
  datatype ExpensePatch = ExpensePatch(
    id: Option<int>, amount: Option<int>, category: Option<string>,
    date: Option<string>, description: Option<string>)

  /** The JSON bodies the service sends. */
  datatype Payload =
    | ExpenseList(expenses: seq<Expense>)
    | OneExpense(expense: Expense)
    | CategoryList(categories: seq<string>)
    | CategoryEcho(category: string)
    | Statistics(total: int, byCategory: map<string, int>)
    | Message(message: string)

  datatype Response =
    | Reply(status: int, payload: Payload)  // a JSON body with that status
    | NoContent                              // 204 and an empty body
    | NoReply                                // nothing is sent: the client is left waiting

  const DefaultCategories: seq<string> := ["식비", "교통비", "주거비", "기타"]

  const InvalidCategory := Reply(400, Message("Invalid category"))
  const ExpenseNotFound := Reply(404, Message("Expense not found"))
  const CategoryExists := Reply(400, Message("Category already exists"))
  const CategoryNotFound := Reply(404, Message("Category not found"))
  const MonthRequired := Reply(400, Message("Month query parameter is required"))
  const NotFound := Reply(404, Message("Not Found"))

  // ---------------------------------------------------------------- queries and predicates

  /** A date-only form of the ECMAScript date time string format: `YYYY`, `YYYY-MM` or
      `YYYY-MM-DD`, with a month from 01 to 12 and a day from 01 to 31. */
  predicate IsDateForm(d: string) {
    && (|d| == 4 || |d| == 7 || |d| == 10)
    && AllDigits(d[..4])
    && (|d| >= 7 ==> d[4] == '-' && AllDigits(d[5..7]) && 1 <= DigitsValue(d[5..7]) <= 12)
    && (|d| == 10 ==> d[7] == '-' && AllDigits(d[8..10]) && 1 <= DigitsValue(d[8..10]) <= 31)
  }

  /** A time form of that format, `THH:mm`, `THH:mm:ss` or `THH:mm:ss.sss`, optionally
      followed by `Z`, with the hour from 00 to 23. */
  predicate IsTimeForm(t: string) {
    var core := if |t| > 0 && t[|t| - 1] == 'Z' then t[..|t| - 1] else t;
    && (|core| == 6 || |core| == 9 || |core| == 13)
    && core[0] == 'T' && AllDigits(core[1..3]) && core[3] == ':' && AllDigits(core[4..6])
    && DigitsValue(core[1..3]) <= 23 && DigitsValue(core[4..6]) <= 59
    && (|core| >= 9 ==> core[6] == ':' && AllDigits(core[7..9]) && DigitsValue(core[7..9]) <= 59)
    && (|core| == 13 ==> core[9] == '.' && AllDigits(core[10..13]))
  }

  /** `date` is a date form of length `k`, alone or followed by a time form. */
  predicate DateThenTime(date: string, k: nat) {
    k <= |date| && IsDateForm(date[..k]) && (k == |date| || IsTimeForm(date[k..]))
  }

  /** A date `Date` is required to parse: a date form, alone or followed by a time form. */
  predicate IsoDateShape(date: string) {
    DateThenTime(date, 4) || DateThenTime(date, 7) || DateThenTime(date, 10)
  }

  /** `new Date(date).getMonth() + 1`, read in UTC: January for a year alone, otherwise the
      `MM` field; `None` stands for an invalid date, whose month equals no number. */
  function MonthOf(date: string): (m: Option<int>)
    ensures m.Some? <==> IsoDateShape(date)
    ensures m.Some? ==> 1 <= m.value <= 12
    ensures DateThenTime(date, 4) ==> m == Some(1)
    ensures DateThenTime(date, 7) ==> m == Some(DigitsValue(date[..7][5..7]))
    ensures DateThenTime(date, 10) ==> m == Some(DigitsValue(date[..10][5..7]))
  {
    if DateThenTime(date, 4) then Some(1)
    else if DateThenTime(date, 7) || DateThenTime(date, 10) then
      MonthField(date, if DateThenTime(date, 7) then 7 else 10);
      Some(DigitsValue(date[..7][5..7]))
    else None
  }

  /** A date form with a month keeps it in positions 5 and 6. */
  lemma MonthField(date: string, k: nat)
    requires k == 7 || k == 10
    requires DateThenTime(date, k)
    ensures date[..k][5..7] == date[..7][5..7]
    ensures AllDigits(date[..7][5..7]) && 1 <= DigitsValue(date[..7][5..7]) <= 12
  {
    assert date[..k][5..7] == date[..7][5..7];
  }

  function CategoryIs(c: string): Expense -> bool {
    (e: Expense) => e.category == c
  }

  function CategoryIsNot(c: string): Expense -> bool {
    (e: Expense) => e.category != c
  }

  /** The month test of the list and statistics filters; a `NaN` month matches nothing. */
  function MonthIs(month: Option<int>): Expense -> bool {
    (e: Expense) => month.Some? && MonthOf(e.date) == month
  }

  /** The id test of `findIndex`; a `NaN` id matches nothing. */
  function IdIs(id: Option<int>): Expense -> bool {
    (e: Expense) => id == Some(e.id)
  }

  /** What GET /expenses keeps: the category test if `category` is truthy, and the month
      test if `month` is truthy, both at once. */
  function MatchesQuery(categoryQuery: Option<string>, monthQuery: Option<string>): Expense -> bool {
    (e: Expense) =>
      (!Truthy(categoryQuery) || e.category == categoryQuery.value) &&
      (!Truthy(monthQuery) || MonthIs(ParseInt(monthQuery.value))(e))
  }

  /** No expense has the (parsed) id. */
  predicate Absent(es: seq<Expense>, id: Option<int>) {
    forall e :: e in es ==> !IdIs(id)(e)
  }

  /** Every expense names a category of the list. */
  predicate CategoriesKnown(es: seq<Expense>, categories: seq<string>) {
    forall e :: e in es ==> e.category in categories
  }

  predicate IdsUnique(es: seq<Expense>) {
    forall i, j :: 0 <= i < j < |es| ==> es[i].id != es[j].id
  }

  /** The PUT check: it fires only for a truthy category that is not in the list. */
  predicate RejectsCategory(patch: ExpensePatch, categories: seq<string>) {
    patch.category.Some? && patch.category.value != "" && patch.category.value !in categories
  }

  /** `{ ...e, ...patch }`. */
  function Merge(e: Expense, patch: ExpensePatch): Expense {
    Expense(
      patch.id.GetOr(e.id), patch.amount.GetOr(e.amount), patch.category.GetOr(e.category),
      patch.date.GetOr(e.date), patch.description.GetOr(e.description))
  }

  /** The month the statistics handler works on: `None` when `month` is missing, empty,
      not a number or zero (every falsy value); any other number, 13 included, is kept. */
  function StatsMonth(monthQuery: Option<string>): Option<int> {
    if !Truthy(monthQuery) then None
    else
      match ParseInt(monthQuery.value)
      case None => None
      case Some(m) => if m == 0 then None else Some(m)
  }

  /** A month outside 1 to 12 is accepted but matches no expense. */
  lemma {:induction false} MonthOutOfRangeMatchesNothing(es: seq<Expense>, month: int)
    requires month < 1 || month > 12
    ensures Filter(MonthIs(Some(month)), es) == []
  {
    if es != [] {
      MonthOutOfRangeMatchesNothing(es[1..], month);
    }
  }

  // ---------------------------------------------------------------- sums

  /** `reduce((sum, exp) => sum + exp.amount, 0)`. */
  function Total(es: seq<Expense>): int {
    if es == [] then 0 else es[0].amount + Total(es[1..])
  }

  lemma {:induction false} TotalConcat(a: seq<Expense>, b: seq<Expense>)
    ensures Total(a + b) == Total(a) + Total(b)
  {
    if a == [] {
      assert a + b == b;
    } else {
      assert (a + b)[0] == a[0];
      assert (a + b)[1..] == a[1..] + b;
      TotalConcat(a[1..], b);
    }
  }

  function CategoriesOf(es: seq<Expense>): set<string> {
    set e | e in es :: e.category
  }

  /** A category that no expense names selects nothing. */
  lemma NoneOfCategory(es: seq<Expense>, c: string)
    requires c !in CategoriesOf(es)
    ensures Filter(CategoryIs(c), es) == []
  {
  }

  /** The sum, over the categories `ks`, of each category's total. */
  function CategoryTotals(es: seq<Expense>, ks: seq<string>): int {
    if ks == [] then 0 else Total(Filter(CategoryIs(ks[0]), es)) + CategoryTotals(es, ks[1..])
  }

  lemma {:induction false} CategoryTotalsOfNone(ks: seq<string>)
    ensures CategoryTotals([], ks) == 0
  {
    if ks != [] {
      CategoryTotalsOfNone(ks[1..]);
    }
  }

  lemma {:induction false} CategoryTotalsSplit(e: Expense, rest: seq<Expense>, ks: seq<string>)
    ensures CategoryTotals([e] + rest, ks) == CategoryTotals([e], ks) + CategoryTotals(rest, ks)
  {
    if ks != [] {
      CategoryTotalsSplit(e, rest, ks[1..]);
      var p := CategoryIs(ks[0]);
      FilterConcat(p, [e], rest);
      TotalConcat(Filter(p, [e]), Filter(p, rest));
    }
  }

  lemma {:induction false} CategoryTotalsOne(e: Expense, ks: seq<string>)
    requires Distinct(ks)
    ensures CategoryTotals([e], ks) == if e.category in ks then e.amount else 0
  {
    if ks != [] {
      CategoryTotalsOne(e, ks[1..]);
      assert [e][1..] == [];
      assert Total(Filter(CategoryIs(ks[0]), [e])) == if e.category == ks[0] then e.amount else 0;
      if ks[0] == e.category {
        assert e.category !in ks[1..] by {
          forall k | 0 <= k < |ks[1..]| ensures ks[1..][k] != ks[0] {
            assert ks[1..][k] == ks[k + 1];
          }
        }
      }
    }
  }

  /** The total splits into the category totals over any duplicate-free list of categories
      that covers every expense. */
  lemma {:induction false} TotalSplitsByCategory(es: seq<Expense>, ks: seq<string>)
    requires Distinct(ks)
    requires forall e :: e in es ==> e.category in ks
    ensures Total(es) == CategoryTotals(es, ks)
  {
    if es == [] {
      CategoryTotalsOfNone(ks);
    } else {
      assert es == [es[0]] + es[1..];
      TotalSplitsByCategory(es[1..], ks);
      CategoryTotalsSplit(es[0], es[1..], ks);
      CategoryTotalsOne(es[0], ks);
    }
  }

  /** `ks` lists every key of `m` exactly once. */
  predicate Enumerates(ks: seq<string>, m: map<string, int>) {
    Distinct(ks) && (forall k :: k in ks ==> k in m) && (forall k :: k in m ==> k in ks)
  }

  /** The sum of `m`'s values at the keys `ks`. */
  function SumOver(m: map<string, int>, ks: seq<string>): int
    requires forall k :: k in ks ==> k in m
  {
    if ks == [] then 0 else m[ks[0]] + SumOver(m, ks[1..])
  }

  lemma {:induction false} SumOverCategoryTotals(m: map<string, int>, es: seq<Expense>, ks: seq<string>)
    requires forall k :: k in ks ==> k in m
    requires forall c :: c in m ==> m[c] == Total(Filter(CategoryIs(c), es))
    ensures SumOver(m, ks) == CategoryTotals(es, ks)
  {
    if ks != [] {
      SumOverCategoryTotals(m, es, ks[1..]);
    }
  }

  /** Appending one expense adds its amount to its own category's total and to no other. */
  lemma TallyStep(prefix: seq<Expense>, e: Expense, c: string)
    ensures CategoriesOf(prefix + [e]) == CategoriesOf(prefix) + {e.category}
    ensures Total(Filter(CategoryIs(c), prefix + [e])) ==
      Total(Filter(CategoryIs(c), prefix)) + (if e.category == c then e.amount else 0)
  {
    FilterConcat(CategoryIs(c), prefix, [e]);
    TotalConcat(Filter(CategoryIs(c), prefix), Filter(CategoryIs(c), [e]));
    assert Total(Filter(CategoryIs(c), [e])) == if e.category == c then e.amount else 0;
    var before := CategoriesOf(prefix);
    var after := CategoriesOf(prefix + [e]);
    forall k | k in after ensures k in before + {e.category} {
      var x :| x in prefix + [e] && x.category == k;
      if x != e { assert x in prefix; }
    }
    forall k | k in before ensures k in after {
      var x :| x in prefix && x.category == k;
      assert x in prefix + [e];
    }
    assert e in prefix + [e];
  }

  /** `byCategory` holds, for each category that occurs in `es` and for no other, the sum
      of that category's amounts. */
  predicate Tallies(byCategory: map<string, int>, es: seq<Expense>) {
    && byCategory.Keys == CategoriesOf(es)
    && forall c :: c in byCategory ==> byCategory[c] == Total(Filter(CategoryIs(c), es))
  }

  lemma TalliesOfNone(ms: seq<Expense>)
    ensures Tallies(map[], ms[..0])
  {
    assert ms[..0] == [];
    assert CategoriesOf([]) == {};
  }

  /** One round of the `forEach`, on the expense `e` after `prefix`. */
  lemma TallyStepKeeps(before: map<string, int>, after: map<string, int>, prefix: seq<Expense>, e: Expense)
    requires Tallies(before, prefix)
    requires after.Keys == before.Keys + {e.category}
    requires after[e.category] == (if e.category in before then before[e.category] else 0) + e.amount
    requires forall c :: c in before && c != e.category ==> after[c] == before[c]
    ensures Tallies(after, prefix + [e])
  {
    if e.category !in before {
      NoneOfCategory(prefix, e.category);
    }
    TallyStep(prefix, e, e.category);
    forall c | c in after
      ensures after[c] == Total(Filter(CategoryIs(c), prefix + [e]))
    {
      TallyStep(prefix, e, c);
    }
  }

  /** The same round, at position `i` of the whole list. */
  lemma TallyStepAt(before: map<string, int>, after: map<string, int>, ms: seq<Expense>, i: nat)
    requires i < |ms| && Tallies(before, ms[..i])
    requires after.Keys == before.Keys + {ms[i].category}
    requires after[ms[i].category] == (if ms[i].category in before then before[ms[i].category] else 0) + ms[i].amount
    requires forall c :: c in before && c != ms[i].category ==> after[c] == before[c]
    ensures Tallies(after, ms[..i + 1])
  {
    var prefix, e := ms[..i], ms[i];
    assert ms[..i + 1] == prefix + [e];
    TallyStepKeeps(before, after, prefix, e);
  }

  /** The `forEach` callback: an entry that is absent or zero is first set to zero, then the
      expense's amount is added to it. */
  method AddToTally(byCategory: map<string, int>, e: Expense) returns (updated: map<string, int>)
    ensures updated.Keys == byCategory.Keys + {e.category}
    ensures updated[e.category] == (if e.category in byCategory then byCategory[e.category] else 0) + e.amount
    ensures forall c :: c in byCategory && c != e.category ==> updated[c] == byCategory[c]
  {
    updated := byCategory;
    if e.category !in updated || updated[e.category] == 0 {
      updated := updated[e.category := 0];
    }
    updated := updated[e.category := updated[e.category] + e.amount];
  }

  /** The `forEach` that builds `byCategory`: a key for each category that occurs, holding
      the sum of that category's amounts. */
  method TallyByCategory(ms: seq<Expense>) returns (byCategory: map<string, int>)
    ensures byCategory.Keys == CategoriesOf(ms)
    ensures forall c :: c in byCategory ==> byCategory[c] == Total(Filter(CategoryIs(c), ms))
  {
    byCategory := map[];
    TalliesOfNone(ms);
    for i := 0 to |ms|
      invariant Tallies(byCategory, ms[..i])
    {
      ghost var before := byCategory;
      byCategory := AddToTally(byCategory, ms[i]);
      TallyStepAt(before, byCategory, ms, i);
    }
    assert ms[..|ms|] == ms;
  }

  // ---------------------------------------------------------------- the store

  class ExpenseStore {
    var expenses: seq<Expense>
    var categories: seq<string>

    /** Start-up: the saved lists when their files exist, otherwise no expenses and the
        four default categories. */
    constructor Start(savedExpenses: Option<seq<Expense>>, savedCategories: Option<seq<string>>)
      ensures expenses == savedExpenses.GetOr([])
      ensures categories == savedCategories.GetOr(DefaultCategories)
    {
      expenses := savedExpenses.GetOr([]);
      categories := savedCategories.GetOr(DefaultCategories);
    }

    /** GET /expenses: the expenses the query keeps, in stored order. */
    method List(categoryQuery: Option<string>, monthQuery: Option<string>) returns (r: Response)
      ensures r == Reply(200, ExpenseList(Filter(MatchesQuery(categoryQuery, monthQuery), expenses)))
    {
      var filtered := expenses;
      if Truthy(categoryQuery) {
        filtered := Filter(CategoryIs(categoryQuery.value), filtered);
      }
      if Truthy(monthQuery) {
        filtered := Filter(MonthIs(ParseInt(monthQuery.value)), filtered);
      }
      var keep := MatchesQuery(categoryQuery, monthQuery);
      if Truthy(categoryQuery) && Truthy(monthQuery) {
        FilterThenFilter(CategoryIs(categoryQuery.value), MonthIs(ParseInt(monthQuery.value)), keep, expenses);
      } else if Truthy(categoryQuery) {
        FilterExt(CategoryIs(categoryQuery.value), keep, expenses);
      } else if Truthy(monthQuery) {
        FilterExt(MonthIs(ParseInt(monthQuery.value)), keep, expenses);
      } else {
        FilterKeepsAll(keep, expenses);
      }
      r := Reply(200, ExpenseList(filtered));
    }

    /** POST /expenses. */
    method Create(input: ExpenseInput, freshId: int) returns (r: Response)
      modifies this
      ensures categories == old(categories)
      ensures input.category !in categories ==> r == InvalidCategory && expenses == old(expenses)
      ensures input.category in categories ==>
        var e := Expense(freshId, input.amount, input.category, input.date, input.description);
        expenses == old(expenses) + [e] && r == Reply(201, OneExpense(e))
      ensures CategoriesKnown(old(expenses), categories) ==> CategoriesKnown(expenses, categories)
      ensures IdsUnique(old(expenses)) && Absent(old(expenses), Some(freshId)) ==> IdsUnique(expenses)
    {
      if input.category !in categories {
        r := InvalidCategory;
        return;
      }
      var e := Expense(freshId, input.amount, input.category, input.date, input.description);
      assert forall k :: 0 <= k < |expenses| ==> expenses[k] in expenses;
      expenses := expenses + [e];
      r := Reply(201, OneExpense(e));
    }

    /** GET /expenses/{id}. */
    method Get(idSegment: string) returns (r: Response)
      ensures Absent(expenses, ParseInt(idSegment)) ==> r == ExpenseNotFound
      ensures forall i :: IsFirstMatch(IdIs(ParseInt(idSegment)), expenses, i) ==>
        r == Reply(200, OneExpense(expenses[i]))
    {
      var index := FindFirst(IdIs(ParseInt(idSegment)), expenses);
      if index.None? {
        r := ExpenseNotFound;
        return;
      }
      r := Reply(200, OneExpense(expenses[index.value]));
    }

    /** PUT /expenses/{id}. */
    method Update(idSegment: string, patch: ExpensePatch) returns (r: Response)
      modifies this
      ensures categories == old(categories)
      ensures Absent(old(expenses), ParseInt(idSegment)) ==> r == ExpenseNotFound && expenses == old(expenses)
      ensures forall i :: IsFirstMatch(IdIs(ParseInt(idSegment)), old(expenses), i) ==>
        if RejectsCategory(patch, categories) then r == InvalidCategory && expenses == old(expenses)
        else expenses == old(expenses)[i := Merge(old(expenses)[i], patch)] && r == Reply(200, OneExpense(expenses[i]))
      ensures CategoriesKnown(old(expenses), categories) && patch.category != Some("") ==>
        CategoriesKnown(expenses, categories)
    {
      var index := FindFirst(IdIs(ParseInt(idSegment)), expenses);
      if index.None? {
        r := ExpenseNotFound;
        return;
      }
      var i := index.value;
      if RejectsCategory(patch, categories) {
        r := InvalidCategory;
        return;
      }
      expenses := expenses[i := Merge(expenses[i], patch)];
      r := Reply(200, OneExpense(expenses[i]));
      forall j | IsFirstMatch(IdIs(ParseInt(idSegment)), old(expenses), j) ensures j == i {
        FirstMatchUnique(IdIs(ParseInt(idSegment)), old(expenses), i, j);
      }
    }

    /** DELETE /expenses/{id}. */
    method Delete(idSegment: string) returns (r: Response)
      modifies this
      ensures categories == old(categories)
      ensures Absent(old(expenses), ParseInt(idSegment)) ==> r == ExpenseNotFound && expenses == old(expenses)
      ensures forall i :: IsFirstMatch(IdIs(ParseInt(idSegment)), old(expenses), i) ==>
        r == NoContent && expenses == RemoveAt(old(expenses), i)
      ensures CategoriesKnown(old(expenses), categories) ==> CategoriesKnown(expenses, categories)
      ensures IdsUnique(old(expenses)) ==> IdsUnique(expenses)
    {
      var index := FindFirst(IdIs(ParseInt(idSegment)), expenses);
      if index.None? {
        r := ExpenseNotFound;
        return;
      }
      var i := index.value;
      ghost var before := expenses;
      expenses := RemoveAt(expenses, i);
      r := NoContent;
      forall j | IsFirstMatch(IdIs(ParseInt(idSegment)), before, j) ensures j == i {
        FirstMatchUnique(IdIs(ParseInt(idSegment)), before, i, j);
      }
      forall e | e in expenses ensures e in before {
        assert multiset(expenses)[e] > 0;
      }
      forall a, b | 0 <= a < b < |expenses| && IdsUnique(before)
        ensures expenses[a].id != expenses[b].id
      {
        var a' := if a < i then a else a + 1;
        var b' := if b < i then b else b + 1;
        assert expenses[a] == before[a'] && expenses[b] == before[b'];
      }
    }

    /** Any other verb on /expenses/{id}: the lookup still answers 404, a hit answers nothing. */
    method Probe(idSegment: string) returns (r: Response)
      ensures Absent(expenses, ParseInt(idSegment)) <==> r == ExpenseNotFound
      ensures !Absent(expenses, ParseInt(idSegment)) <==> r == NoReply
    {
      var index := FindFirst(IdIs(ParseInt(idSegment)), expenses);
      r := if index.None? then ExpenseNotFound else NoReply;
    }

    /** GET /categories. */
    method ListCategories() returns (r: Response)
      ensures r == Reply(200, CategoryList(categories))
    {
      r := Reply(200, CategoryList(categories));
    }

    /** POST /categories. */
    method CreateCategory(name: string) returns (r: Response)
      modifies this
      ensures expenses == old(expenses)
      ensures name in old(categories) ==> r == CategoryExists && categories == old(categories)
      ensures name !in old(categories) ==> r == Reply(201, CategoryEcho(name)) && categories == old(categories) + [name]
      ensures Distinct(old(categories)) ==> Distinct(categories)
      ensures CategoriesKnown(expenses, old(categories)) ==> CategoriesKnown(expenses, categories)
    {
      if name in categories {
        r := CategoryExists;
        return;
      }
      categories := categories + [name];
      r := Reply(201, CategoryEcho(name));
    }

    /** DELETE /categories/{name}: the category goes, and so does every expense in it. */
    method DeleteCategory(name: string) returns (r: Response)
      modifies this
      ensures name !in old(categories) ==>
        r == CategoryNotFound && categories == old(categories) && expenses == old(expenses)
      ensures forall i :: IsFirstMatch(Is(name), old(categories), i) ==>
        r == NoContent && categories == RemoveAt(old(categories), i) &&
        expenses == Filter(CategoryIsNot(name), old(expenses))
      ensures name in old(categories) ==> forall e :: e in expenses ==> e.category != name
      ensures name in old(categories) ==>
        forall e :: e in old(expenses) && e.category != name ==> e in expenses
      ensures Distinct(old(categories)) ==> Distinct(categories) && name !in categories
      ensures CategoriesKnown(old(expenses), old(categories)) ==> CategoriesKnown(expenses, categories)
    {
      var index := FindFirst(Is(name), categories);
      if index.None? {
        r := CategoryNotFound;
        return;
      }
      var i := index.value;
      ghost var before := categories;
      ghost var kept := expenses;
      expenses := Filter(CategoryIsNot(name), expenses);
      categories := RemoveAt(categories, i);
      r := NoContent;
      forall j | IsFirstMatch(Is(name), before, j) ensures j == i {
        FirstMatchUnique(Is(name), before, i, j);
      }
      forall e | e in kept && e.category != name ensures e in expenses {
        FilterMember(CategoryIsNot(name), kept, e);
      }
      if Distinct(before) {
        RemoveAtDistinct(before, i);
      }
      forall c | c in before && c != name ensures c in categories {
        var k :| 0 <= k < |before| && before[k] == c;
        if k < i { assert categories[k] == c; } else { assert k > i && categories[k - 1] == c; }
      }
    }

    /** Any other verb on /categories/{name}. */
    method ProbeCategory(name: string) returns (r: Response)
      ensures name !in categories <==> r == CategoryNotFound
      ensures name in categories <==> r == NoReply
    {
      var index := FindFirst(Is(name), categories);
      r := if index.None? then CategoryNotFound else NoReply;
    }

    /** GET /statistics: the month's total and its split by category. */
    method MonthlyStatistics(monthQuery: Option<string>) returns (r: Response)
      ensures StatsMonth(monthQuery).None? ==> r == MonthRequired
      ensures StatsMonth(monthQuery).Some? ==>
        var monthly := Filter(MonthIs(StatsMonth(monthQuery)), expenses);
        r.Reply? && r.status == 200 && r.payload.Statistics? &&
        r.payload.total == Total(monthly) &&
        r.payload.byCategory.Keys == CategoriesOf(monthly) &&
        (forall c :: c in r.payload.byCategory ==>
          r.payload.byCategory[c] == Total(Filter(CategoryIs(c), monthly))) &&
        (forall ks :: Enumerates(ks, r.payload.byCategory) ==>
          SumOver(r.payload.byCategory, ks) == r.payload.total)
    {
      var month := StatsMonth(monthQuery);
      if month.None? {
        r := MonthRequired;
        return;
      }
      var monthly := Filter(MonthIs(month), expenses);
      var total := Total(monthly);
      var byCategory := TallyByCategory(monthly);
      forall ks | Enumerates(ks, byCategory)
        ensures SumOver(byCategory, ks) == total
      {
        SumOverCategoryTotals(byCategory, monthly, ks);
        TotalSplitsByCategory(monthly, ks);
      }
      r := Reply(200, Statistics(total, byCategory));
    }
  }

  // ---------------------------------------------------------------- the router

  datatype Route =
    | Preflight
    | ListExpenses
    | CreateExpense
    | ExpenseItem(verb: HttpMethod, idSegment: string)
    | ListCategoryNames
    | CreateCategoryName
    | CategoryItem(verb: HttpMethod, name: string)
    | MonthlyStatisticsRoute
    | Unanswered      // a known path with a verb it has no branch for: nothing is sent
    | NoRoute         // 404 "Not Found"

  /** Dispatch on the verb and the path, in the order the handler tests them. */
  function RouteOf(verb: HttpMethod, path: string): Route {
    if verb == Options then Preflight
    else if path == "/expenses" then
      if verb == Get then ListExpenses else if verb == Post then CreateExpense else Unanswered
    else if StartsWith(path, "/expenses/") then ExpenseItem(verb, ItemSegment(path))
    else if path == "/categories" then
      if verb == Get then ListCategoryNames else if verb == Post then CreateCategoryName else Unanswered
    else if StartsWith(path, "/categories/") then CategoryItem(verb, ItemSegment(path))
    else if path == "/statistics" && verb == Get then MonthlyStatisticsRoute
    else NoRoute
  }

  /** Every path other than the five known ones, and /statistics with a verb other
      than GET, is answered 404. */
  lemma UnknownPathIsNotFound(verb: HttpMethod, path: string)
    requires verb != Options
    requires path != "/expenses" && path != "/categories"
    requires !StartsWith(path, "/expenses/") && !StartsWith(path, "/categories/")
    requires path != "/statistics" || verb != Get
    ensures RouteOf(verb, path) == NoRoute
  {
  }

  /** A record is reachable at /expenses/ followed by its id written in decimal. */
  lemma ExpensePathNamesId(verb: HttpMethod, id: int)
    requires verb != Options
    ensures RouteOf(verb, "/expenses/" + Render(id)).ExpenseItem?
    ensures ParseInt(RouteOf(verb, "/expenses/" + Render(id)).idSegment) == Some(id)
  {
    var path := "/expenses/" + Render(id);
    assert path[..10] == "/expenses/";
    assert path != "/expenses" by { assert |path| > |"/expenses"|; }
    assert path == "/" + "expenses" + "/" + Render(id);
    RenderedIdSegment("expenses", id);
  }

  /** The segment is not URL-decoded and stops at a slash, so a category whose name holds a
      slash can never be addressed by DELETE /categories/{name}. */
  lemma CategoryWithSlashUnreachable(verb: HttpMethod, rest: string, name: string)
    requires verb != Options && '/' in name
    ensures RouteOf(verb, "/categories/" + rest) != CategoryItem(verb, name)
  {
    assert "/categories/" + rest == "/" + "categories" + "/" + rest;
    ItemSegmentAfterPrefix("categories", rest);
  }

  // ---------------------------------------------------------------- quirks

  /** The PUT check lets an empty category through, leaving an expense whose category is
      in no list. */
  lemma EmptyCategoryPassesCheck(e: Expense, categories: seq<string>)
    requires "" !in categories
    ensures !RejectsCategory(ExpensePatch(None, None, Some(""), None, None), categories)
    ensures !CategoriesKnown([Merge(e, ExpensePatch(None, None, Some(""), None, None))], categories)
  {
    var merged := Merge(e, ExpensePatch(None, None, Some(""), None, None));
    assert merged in [merged];
  }

  /** PUT can copy another record's id, so ids stop being unique. */
  lemma UpdateCanDuplicateIds(a: Expense, b: Expense)
    requires a.id != b.id
    ensures IdsUnique([a, b])
    ensures !IdsUnique([a, b][0 := Merge(a, ExpensePatch(Some(b.id), None, None, None, None))])
  {
    var es := [a, b][0 := Merge(a, ExpensePatch(Some(b.id), None, None, None, None))];
    assert es[0].id == es[1].id;
  }

  // ---------------------------------------------------------------- a session

  /** The scenario's date is a date form in March. */
  lemma MarchTenth()
    ensures IsDateForm("2024-03-10")
    ensures MonthOf("2024-03-10") == Some(3)
  {
    var date := "2024-03-10";
    assert date[0] == '2' && date[1] == '0' && date[2] == '2' && date[3] == '4' && date[4] == '-';
    assert date[5] == '0' && date[6] == '3' && date[7] == '-' && date[8] == '1' && date[9] == '0';
    assert AllDigits(date[..4]);
    assert date[5..7] == ['0', '3'];
    assert date[8..10] == ['1', '0'];
    TwoDigits('0', '3');
    TwoDigits('1', '0');
    assert date[..10] == date && IsDateForm(date);
    assert DateThenTime(date, 10);
    assert date[4..][0] == '-' && date[4..][|date[4..]| - 1] == '0';
    assert !IsTimeForm(date[4..]);
    assert date[7..][0] == '-' && date[7..][|date[7..]| - 1] == '0';
    assert !IsTimeForm(date[7..]);
    assert date[..10][5..7] == date[5..7];
  }

  /** The scenario's month parameter. */
  lemma MonthThree()
    ensures ParseInt("3") == Some(3)
  {
    var s := "3";
    assert s[0] == '3' && s[1..] == [];
    assert LeadingDigits(s) == ['3'];
    assert ['3'][..0] == [];
  }

  /** Every text `toISOString()` writes, `YYYY-MM-DDTHH:mm:ss.sssZ`, is read in the month
      it names. */
  lemma IsoStringMonth(date: string)
    requires |date| == 24 && IsDateForm(date[..10]) && IsTimeForm(date[10..])
    ensures AllDigits(date[5..7])
    ensures MonthOf(date) == Some(DigitsValue(date[5..7]))
  {
    assert date[..10][5..7] == date[5..7];
    assert DateThenTime(date, 10);
  }

  /** A year written alone, `YYYY`, is read as January. */
  lemma YearAloneIsJanuary(year: string)
    requires |year| == 4 && AllDigits(year)
    ensures MonthOf(year) == Some(1)
  {
    assert year[..4] == year;
  }

  /** Add a category, spend in it in March, and ask for March's statistics. */
  method StatisticsScenario() {
    var store := new ExpenseStore.Start(None, None);
    var added := store.CreateCategory("문화비");
    assert added == Reply(201, CategoryEcho("문화비"));
    var created := store.Create(ExpenseInput(5000, "문화비", "2024-03-10", "영화"), 1710000000000);
    var e := Expense(1710000000000, 5000, "문화비", "2024-03-10", "영화");
    assert store.expenses == [e];
    MarchTenth();
    MonthThree();
    var stats := store.MonthlyStatistics(Some("3"));
    assert Filter(MonthIs(Some(3)), [e]) == [e];
    assert Filter(CategoryIs("문화비"), [e]) == [e];
    assert stats.payload.total == 5000;
    assert stats.payload.byCategory == map["문화비" := 5000];
  }
}
