/**
 * frontend/src/components/Expenses.jsx: the expense list page. It fetches every
 * expense, shows the total and a per-category summary, filters the table by
 * category, date and title, offers the categories present in a sorted drop-down,
 * and deletes rows.
 *
 * The page's own state is a class; the values it renders are functions of that state.
 */
module ExpensesView {
  import opened Wrappers
  import opened JsStrings
  import opened Mongo
  import opened Dates
  import opened Http
  import opened ClientJson
  import opened Api
  import ExpenseRoutes
  import ExpenseSchema

  // ---------------------------------------------------------------- selecting

  /** `items.filter(keep)`. */
  function Select(items: seq<ExpenseItem>, keep: ExpenseItem -> bool): (r: seq<ExpenseItem>)
    ensures |r| <= |items|
    ensures forall x :: x in r <==> x in items && keep(x)
  {
    if items == [] then []
    else
      var rest := Select(items[1..], keep);
      assert forall x :: x in items <==> x == items[0] || x in items[1..];
      (if keep(items[0]) then [items[0]] else []) + rest
  }

  /** Filtering keeps the order: it distributes over concatenation. */
  lemma {:induction false} SelectAppend(a: seq<ExpenseItem>, b: seq<ExpenseItem>, keep: ExpenseItem -> bool)
    ensures Select(a + b, keep) == Select(a, keep) + Select(b, keep)
  {
    if a == [] {
      assert a + b == b;
    } else {
      assert (a + b)[0] == a[0];
      assert (a + b)[1..] == a[1..] + b;
      SelectAppend(a[1..], b, keep);
    }
  }

  /** Filtering with a test every item passes returns the list itself. */
  lemma {:induction false} SelectAll(items: seq<ExpenseItem>, keep: ExpenseItem -> bool)
    requires forall i :: 0 <= i < |items| ==> keep(items[i])
    ensures Select(items, keep) == items
  {
    if items != [] {
      SelectAll(items[1..], keep);
      assert items == [items[0]] + items[1..];
    }
  }

  /** Filtering with a test no item passes returns the empty list. */
  lemma {:induction false} SelectNone(items: seq<ExpenseItem>, keep: ExpenseItem -> bool)
    requires forall i :: 0 <= i < |items| ==> !keep(items[i])
    ensures Select(items, keep) == []
  {
    if items != [] {
      SelectNone(items[1..], keep);
    }
  }

  /** Two tests that agree on every item select the same items. */
  lemma {:induction false} SelectAgree(items: seq<ExpenseItem>, keep: ExpenseItem -> bool, keep': ExpenseItem -> bool)
    requires forall i :: 0 <= i < |items| ==> keep(items[i]) == keep'(items[i])
    ensures Select(items, keep) == Select(items, keep')
  {
    if items != [] {
      SelectAgree(items[1..], keep, keep');
    }
  }

  // ---------------------------------------------------------------- totals

  /** `expenses.reduce((total, expense) => total + expense.amount, 0)`. */
  function Total(items: seq<ExpenseItem>): int {
    if items == [] then 0 else Total(items[..|items| - 1]) + items[|items| - 1].amount
  }

  /** The sum of the amounts of the expenses in category `c`. */
  function CategoryTotal(items: seq<ExpenseItem>, c: string): int {
    if items == [] then 0
    else CategoryTotal(items[..|items| - 1], c) + (if items[|items| - 1].category == c then items[|items| - 1].amount else 0)
  }

  /** The categories present in the list. */
  function Categories(items: seq<ExpenseItem>): set<string> {
    if items == [] then {} else Categories(items[..|items| - 1]) + {items[|items| - 1].category}
  }

  lemma {:induction false} CategoriesPresent(items: seq<ExpenseItem>, c: string)
    ensures c in Categories(items) <==> exists i :: 0 <= i < |items| && items[i].category == c
  {
    if items != [] {
      var init := items[..|items| - 1];
      CategoriesPresent(init, c);
      assert forall i :: 0 <= i < |init| ==> init[i] == items[i];
    }
  }

  // ---------------------------------------------------------------- the category summary

  /** The summary object: category keys in insertion order, each with its running sum. */
  type Summary = seq<(string, int)>

  /** `summary[c]`. */
  function Lookup(s: Summary, c: string): Option<int> {
    if s == [] then None else if s[0].0 == c then Some(s[0].1) else Lookup(s[1..], c)
  }

  /** `Object.keys(summary)` as a set. */
  function KeySet(s: Summary): set<string> {
    if s == [] then {} else {s[0].0} + KeySet(s[1..])
  }

  predicate DistinctKeys(s: Summary) {
    s == [] || (s[0].0 !in KeySet(s[1..]) && DistinctKeys(s[1..]))
  }

  /** The sum of `Object.values(summary)`. */
  function SumValues(s: Summary): int {
    if s == [] then 0 else s[0].1 + SumValues(s[1..])
  }

  /** One step of the `forEach`: a new key starts at 0, then the amount is added to the key's entry. */
  function AddAmount(s: Summary, c: string, amount: int): Summary {
    if s == [] then [(c, amount)]
    else if s[0].0 == c then [(c, s[0].1 + amount)] + s[1..]
    else [s[0]] + AddAmount(s[1..], c, amount)
  }

  /** `getCategoryWiseSummary()`. */
  function Summarize(items: seq<ExpenseItem>): Summary {
    if items == [] then []
    else AddAmount(Summarize(items[..|items| - 1]), items[|items| - 1].category, items[|items| - 1].amount)
  }

  lemma {:induction false} AddAmountLookup(s: Summary, c: string, amount: int, k: string)
    ensures Lookup(AddAmount(s, c, amount), k) == if k == c then Some(Lookup(s, c).GetOr(0) + amount) else Lookup(s, k)
  {
    if s != [] && s[0].0 != c {
      var t := AddAmount(s, c, amount);
      assert t[0] == s[0];
      assert t[1..] == AddAmount(s[1..], c, amount);
      if s[0].0 != k {
        AddAmountLookup(s[1..], c, amount, k);
        assert Lookup(t, k) == Lookup(t[1..], k);
      }
    } else if s != [] {
      var t := AddAmount(s, c, amount);
      assert t[0] == (c, s[0].1 + amount);
      assert t[1..] == s[1..];
    }
  }

  lemma {:induction false} AddAmountKeys(s: Summary, c: string, amount: int)
    ensures KeySet(AddAmount(s, c, amount)) == KeySet(s) + {c}
    ensures DistinctKeys(s) ==> DistinctKeys(AddAmount(s, c, amount))
    ensures SumValues(AddAmount(s, c, amount)) == SumValues(s) + amount
  {
    if s != [] {
      if s[0].0 == c {
        assert ([(c, s[0].1 + amount)] + s[1..])[1..] == s[1..];
      } else {
        AddAmountKeys(s[1..], c, amount);
        assert ([s[0]] + AddAmount(s[1..], c, amount))[1..] == AddAmount(s[1..], c, amount);
      }
    }
  }

  /** The summary's keys are exactly the categories present, each once, and its values add up to the total. */
  lemma {:induction false} SummaryShape(items: seq<ExpenseItem>)
    ensures KeySet(Summarize(items)) == Categories(items)
    ensures DistinctKeys(Summarize(items))
    ensures SumValues(Summarize(items)) == Total(items)
  {
    if items != [] {
      var init := items[..|items| - 1];
      var last := items[|items| - 1];
      SummaryShape(init);
      AddAmountKeys(Summarize(init), last.category, last.amount);
    }
  }

  /** Each category present maps to the sum of its amounts; any other key is absent. */
  lemma {:induction false} SummaryValues(items: seq<ExpenseItem>, c: string)
    ensures Lookup(Summarize(items), c) == if c in Categories(items) then Some(CategoryTotal(items, c)) else None
  {
    if items != [] {
      var init := items[..|items| - 1];
      var last := items[|items| - 1];
      SummaryValues(init, c);
      AddAmountLookup(Summarize(init), last.category, last.amount, c);
      if c !in Categories(init) {
        CategoryTotalAbsent(init, c);
      }
    }
  }

  lemma {:induction false} CategoryTotalAbsent(items: seq<ExpenseItem>, c: string)
    requires c !in Categories(items)
    ensures CategoryTotal(items, c) == 0
  {
    if items != [] {
      CategoryTotalAbsent(items[..|items| - 1], c);
    }
  }

  /** The `forEach` loop of `getCategoryWiseSummary`. */
  method CategoryWiseSummary(items: seq<ExpenseItem>) returns (summary: Summary)
    ensures summary == Summarize(items)
  {
    summary := [];
    for i := 0 to |items|
      invariant summary == Summarize(items[..i])
    {
      assert items[..i + 1][..i] == items[..i];
      summary := AddAmount(summary, items[i].category, items[i].amount);
    }
    assert items[..|items|] == items;
  }

  // ---------------------------------------------------------------- filters

  /** The three filter inputs; `date` holds the value of a date input. */
  datatype Filters = Filters(category: string, date: string, title: string)

  const NoFilters := Filters("", "", "")

  /** The title search: empty, or a substring of the title once both are lower-cased. */
  predicate TitleMatches(title: string, search: string) {
    search == "" || Includes(ToLower(title), ToLower(search))
  }

  /** The page's test as written: the date filter compares `toLocaleDateString('en-IN')` with the date input's value. */
  predicate MatchesAsWritten(e: ExpenseItem, f: Filters) {
    && (f.category == "" || e.category == f.category)
    && (f.date == "" || LocaleDate(e.date) == f.date)
    && TitleMatches(e.title, f.title)
  }

  /** The test as intended: the date filter compares the `yyyy-MM-dd` text a date input holds. */
  predicate Matches(e: ExpenseItem, f: Filters) {
    && (f.category == "" || e.category == f.category)
    && (f.date == "" || FormatDate(e.date) == f.date)
    && TitleMatches(e.title, f.title)
  }

  function FilteredAsWritten(items: seq<ExpenseItem>, f: Filters): seq<ExpenseItem> {
    Select(items, e => MatchesAsWritten(e, f))
  }

  /** `getFilteredExpenses()` with the date comparison corrected. */
  function Filtered(items: seq<ExpenseItem>, f: Filters): seq<ExpenseItem> {
    Select(items, e => Matches(e, f))
  }

  /**
   * The filtered list keeps exactly the items matching every non-empty criterion, in
   * their order; with every criterion empty it is the whole list.
   */
  lemma FilteredProperties(items: seq<ExpenseItem>, more: seq<ExpenseItem>, f: Filters)
    ensures forall x :: x in Filtered(items, f) <==> x in items && Matches(x, f)
    ensures |Filtered(items, f)| <= |items|
    ensures Filtered(items + more, f) == Filtered(items, f) + Filtered(more, f)
    ensures Filtered(items, NoFilters) == items
  {
    SelectAppend(items, more, e => Matches(e, f));
    SelectAll(items, e => Matches(e, NoFilters));
  }

  /**
   * The page's own filter keeps exactly the items passing its test, in their order,
   * and differs from the corrected one only when a date is picked.
   */
  lemma FilteredAsWrittenProperties(items: seq<ExpenseItem>, more: seq<ExpenseItem>, f: Filters)
    ensures forall x :: x in FilteredAsWritten(items, f) <==> x in items && MatchesAsWritten(x, f)
    ensures FilteredAsWritten(items + more, f) == FilteredAsWritten(items, f) + FilteredAsWritten(more, f)
    ensures f.date == "" ==> FilteredAsWritten(items, f) == Filtered(items, f)
  {
    SelectAppend(items, more, e => MatchesAsWritten(e, f));
    if f.date == "" {
      SelectAgree(items, e => MatchesAsWritten(e, f), e => Matches(e, f));
    }
  }

  lemma IncludesLower(s: string, sub: string)
    requires Includes(s, sub)
    ensures Includes(ToLower(s), ToLower(sub))
  {
    var i :| 0 <= i <= |s| - |sub| && sub <= s[i..];
    forall k | 0 <= k < |sub|
      ensures ToLower(sub)[k] == ToLower(s)[i..][k]
    {
      assert sub[k] == s[i..][k] == s[i + k];
    }
    assert ToLower(sub) <= ToLower(s)[i..];
  }

  /** The title search ignores case on both sides, and a title containing the search text as typed matches it. */
  lemma TitleMatchIgnoresCase(title: string, search: string)
    ensures TitleMatches(title, search) <==> TitleMatches(ToLower(title), ToLower(search))
    ensures Includes(title, search) ==> TitleMatches(title, search)
  {
    ToLowerIsLower(title);
    ToLowerIsLower(search);
    if Includes(title, search) {
      IncludesLower(title, search);
    }
  }

  /** As written, any date picked in the date filter hides every expense. */
  lemma DateFilterHidesAll(items: seq<ExpenseItem>, f: Filters, picked: ValidDate)
    requires f.date == FormatDate(picked)
    ensures FilteredAsWritten(items, f) == []
  {
    forall i | 0 <= i < |items|
      ensures !MatchesAsWritten(items[i], f)
    {
      LocaleDateNeverFormatted(items[i].date, picked);
    }
    SelectNone(items, e => MatchesAsWritten(e, f));
  }

  /** With the corrected comparison, picking a date keeps exactly the expenses on that date. */
  lemma DateFilterSelectsDay(items: seq<ExpenseItem>, picked: ValidDate)
    ensures forall x :: x in Filtered(items, Filters("", FormatDate(picked), "")) <==> x in items && x.date == picked
  {
    forall x | x in items && FormatDate(x.date) == FormatDate(picked)
      ensures x.date == picked
    {
      FormatDateInjective(x.date, picked);
    }
  }

  // ---------------------------------------------------------------- the category drop-down

  predicate StrictlySorted(s: seq<string>) {
    forall i, j :: 0 <= i < j < |s| ==> LexLess(s[i], s[j])
  }

  /** Places `x` into a sorted list unless it is already there. */
  function InsertSorted(s: seq<string>, x: string): (r: seq<string>)
    ensures forall y :: y in r <==> y in s || y == x
    ensures StrictlySorted(s) ==> StrictlySorted(r)
  {
    if s == [] then [x]
    else if x == s[0] then s
    else if LexLess(x, s[0]) then
      assert StrictlySorted(s) ==> forall j :: 0 <= j < |s| ==> LexLess(x, s[j]) by {
        if StrictlySorted(s) {
          forall j | 0 < j < |s| ensures LexLess(x, s[j]) { LexTransitive(x, s[0], s[j]); }
        }
      }
      [x] + s
    else
      var rest := InsertSorted(s[1..], x);
      assert forall y :: y in s <==> y == s[0] || y in s[1..];
      LexTotal(x, s[0]);
      assert StrictlySorted(s) ==> forall y :: y in rest ==> LexLess(s[0], y) by {
        if StrictlySorted(s) {
          forall y | y in rest ensures LexLess(s[0], y) {
            if y != x {
              var j :| 0 <= j < |s[1..]| && s[1..][j] == y;
              assert s[j + 1] == y;
            }
          }
        }
      }
      [s[0]] + rest
  }

  /** `Array.from(new Set(expenses.map(exp => exp.category))).sort()`. */
  function UniqueCategories(items: seq<ExpenseItem>): (r: seq<string>)
    ensures StrictlySorted(r)
    ensures forall c :: c in r <==> c in Categories(items)
  {
    if items == [] then []
    else InsertSorted(UniqueCategories(items[..|items| - 1]), items[|items| - 1].category)
  }

  /** A strictly sorted list has no repeated entry. */
  lemma SortedNoDuplicates(s: seq<string>)
    requires StrictlySorted(s)
    ensures forall i, j :: 0 <= i < |s| && 0 <= j < |s| && i != j ==> s[i] != s[j]
  {
    forall i, j | 0 <= i < |s| && 0 <= j < |s| && i != j
      ensures s[i] != s[j]
    {
      if i < j { LexIrreflexive(s[i]); } else { LexIrreflexive(s[j]); }
    }
  }

  // ---------------------------------------------------------------- fetching and deleting

  /** The list the page keeps once the list request settles (corrected: anything but an array is an empty list). */
  function FetchedList(current: seq<ExpenseItem>, result: FetchResult): seq<ExpenseItem> {
    match result
    case Returned(_, ExpenseArray(items)) => items
    case Returned(_, Object(_, _, _, _)) => []
    case _ => current   // no response, a rejected `json()` or a network error: the catch only logs
  }

  /** As written, `setExpenses(data)` stores whatever the body parsed to. */
  function FetchedAsWritten(current: Json, result: FetchResult): Json {
    match result
    case Returned(_, data) => if data.NotJson? then current else data
    case _ => current
  }

  /** The render computes `expenses.reduce(...)` first, which throws unless the state is an array. */
  predicate RenderThrows(state: Json) {
    !state.ExpenseArray?
  }

  /** As written, the empty collection's 404 body replaces the list and the next render throws. */
  lemma EmptyCollectionCrashes(newId: ObjectId, data: Json)
    requires Decodes(ExpenseRoutes.Serve([], newId, ExpenseRoutes.ViewExpenses).response.value.body, data)
    ensures ExpenseRoutes.Serve([], newId, ExpenseRoutes.ViewExpenses).response == Some(ExpenseRoutes.NoExpenses)
    ensures RenderThrows(FetchedAsWritten(ExpenseArray([]), FetchOutcome(Answered(ExpenseRoutes.NoExpenses.status, data))))
  {
  }

  /** Corrected, the same reply leaves an empty list and the page shows its empty state; a list reply shows every document in order. */
  lemma FetchedListFromServer(docs: seq<ExpenseSchema.Document>, newId: ObjectId, data: Json, current: seq<ExpenseItem>)
    requires var r := ExpenseRoutes.Serve(docs, newId, ExpenseRoutes.ViewExpenses).response.value;
             Decodes(r.body, data)
    ensures var r := ExpenseRoutes.Serve(docs, newId, ExpenseRoutes.ViewExpenses).response.value;
            var list := FetchedList(current, FetchOutcome(Answered(r.status, data)));
            && (docs == [] ==> list == [])
            && |list| == |docs|
            && forall i :: 0 <= i < |docs| ==> ItemOf(docs[i], list[i])
  {
  }

  /** The list left after deleting `id`: every other row, in order. */
  function Remaining(items: seq<ExpenseItem>, id: ObjectId): seq<ExpenseItem> {
    Select(items, (e: ExpenseItem) => e.id != id)
  }

  lemma RemainingProperties(items: seq<ExpenseItem>, more: seq<ExpenseItem>, id: ObjectId)
    ensures forall x :: x in Remaining(items, id) <==> x in items && x.id != id
    ensures Remaining(items + more, id) == Remaining(items, id) + Remaining(more, id)
    ensures (forall i :: 0 <= i < |items| ==> items[i].id != id) ==> Remaining(items, id) == items
  {
    SelectAppend(items, more, (e: ExpenseItem) => e.id != id);
    if forall i :: 0 <= i < |items| ==> items[i].id != id {
      SelectAll(items, (e: ExpenseItem) => e.id != id);
    }
  }

  /** The page's state. */
  class ExpensesPage {
    var expenses: seq<ExpenseItem>
    var loading: bool
    var filters: Filters

    constructor ()
      ensures expenses == [] && loading && filters == NoFilters
    {
      expenses := [];
      loading := true;
      filters := NoFilters;
    }

    /** What the table shows. */
    function Visible(): seq<ExpenseItem>
      reads this
    {
      Filtered(expenses, filters)
    }

    /** The end of `fetchExpenses`: the list is replaced (corrected) and the spinner stops on every path. */
    method FinishFetch(result: FetchResult)
      modifies this
      ensures expenses == FetchedList(old(expenses), result)
      ensures !loading && filters == old(filters)
    {
      match result {
        case Returned(_, data) =>
          if data.ExpenseArray? {
            expenses := data.items;
          } else if data.Object? {
            expenses := [];
          }
        case _ =>
      }
      loading := false;
    }

    /** `handleClearFilters`: after it the table shows every expense. */
    method ClearFilters()
      modifies this
      ensures filters == NoFilters && expenses == old(expenses) && loading == old(loading)
      ensures Visible() == expenses
    {
      filters := NoFilters;
      FilteredProperties(expenses, [], filters);
    }

    /** `handleDelete(id)` once the user answered the prompt and the request settled. */
    method HandleDelete(id: ObjectId, confirmed: bool, result: FetchResult)
      modifies this
      ensures expenses == if confirmed && result.Returned? && Ok(result.status) then Remaining(old(expenses), id)
                          else old(expenses)
      ensures filters == old(filters) && loading == old(loading)
    {
      if !confirmed {
        return;
      }
      if result.Returned? && Ok(result.status) {
        expenses := Remaining(expenses, id);
      }
    }
  }
}
