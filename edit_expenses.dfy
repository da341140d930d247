/**
 * frontend/src/components/EditExpenses.jsx: the edit form. On mount it loads the
 * expense named in the URL into the form; `handleSubmit` checks the form and sends
 * the update. Both requests are split at their `await` like the add form's.
 */
module EditExpensesPage {
  import opened Wrappers
  import opened JsStrings
  import opened Mongo
  import opened Dates
  import opened Http
  import opened ClientJson
  import opened Api
  import opened ExpenseForm
  import ExpenseRoutes
  import ExpenseSchema

  const CategoryRequired := "Please enter a category"
  const FetchFailed := "Failed to fetch expense"
  const FetchError := "Error fetching expense. Please try again."
  const Updated := "Expense updated successfully!"
  const UpdateFailed := "Failed to update expense"
  const UpdateError := "Error updating expense. Please try again."

  /**
   * The edit page's `getFormattedDate`: a date string is read with `new Date`, and an
   * invalid one falls back to today. `None` when it throws (the value is absent).
   */
  function EditDate(value: DateValue, today: ValidDate): Option<string> {
    match value
    case NoDate => None
    case DateText(parsed) => Some(FormatDate(if parsed.Some? then parsed.value else today))
  }

  /** The formatted text reads back as the stored date, or as today for an invalid one. */
  lemma EditDateRoundTrip(value: DateValue, today: ValidDate)
    requires value.DateText?
    ensures EditDate(value, today).Some?
    ensures ParseDate(EditDate(value, today).value) == Some(if value.parsed.Some? then value.parsed.value else today)
  {
    var d := if value.parsed.Some? then value.parsed.value else today;
    FormatDateRoundTrip(d);
  }

  /** The form `setFormData` builds from `data.expense`; `None` when building it throws. */
  function FormFromFetch(fields: ExpenseFields, today: ValidDate): Option<FormData> {
    match EditDate(fields.date, today)
    case None => None
    case Some(date) => Some(FormData(fields.title, Value(fields.amount), fields.category, date))
  }

  /** The form and error the load leaves: the fetched fields on success, else a message. */
  function AfterFetch(form: FormData, error: string, result: FetchResult, today: ValidDate): (FormData, string) {
    match result
    case Returned(status, data) =>
      if data.NotJson? then (form, FetchError)
      else if !Ok(status) then (form, ErrorText(data, FetchFailed))
      else if data.Object? && data.expense.Some? && FormFromFetch(data.expense.value, today).Some? then
        (FormFromFetch(data.expense.value, today).value, error)
      else (form, FetchError)   // reading a field of `data.expense` throws
    case _ => (form, FetchError)  // `response` is undefined or `fetch` rejected
  }

  /** Loading a stored expense that has every field puts them in the form, its date as `yyyy-MM-dd`. */
  lemma LoadsStoredExpense(docs: seq<ExpenseSchema.Document>, newId: ObjectId, k: nat, data: Json,
                           form: FormData, error: string, today: ValidDate)
    requires ExpenseRoutes.DistinctIds(docs) && k < |docs|
    requires var e := docs[k].expense;
             e.title.Some? && e.amount.Some? && e.category.Some? && e.date.Some? && e.date.value.Wf() && e.date.value.year >= 0
    requires Decodes(ExpenseRoutes.Serve(docs, newId, ExpenseRoutes.GetExpense(Some(docs[k].id))).response.value.body, data)
    ensures var e := docs[k].expense;
            AfterFetch(form, error, FetchOutcome(Answered(200, data)), today)
            == (FormData(e.title.value, Value(e.amount.value), e.category.value, FormatDate(e.date.value)), error)
  {
    ExpenseRoutes.FindAt(docs, k);
  }

  /** An id the collection lacks answers 404 without an `error` field, so the page shows its own message. */
  lemma MissingExpenseMessage(docs: seq<ExpenseSchema.Document>, newId: ObjectId, id: ObjectId, data: Json,
                              form: FormData, error: string, today: ValidDate)
    requires forall i :: 0 <= i < |docs| ==> docs[i].id != id
    requires Decodes(ExpenseRoutes.Serve(docs, newId, ExpenseRoutes.GetExpense(Some(id))).response.value.body, data)
    ensures ExpenseRoutes.Serve(docs, newId, ExpenseRoutes.GetExpense(Some(id))).response == Some(ExpenseRoutes.ExpenseNotFound)
    ensures AfterFetch(form, error, FetchOutcome(Answered(404, data)), today) == (form, FetchFailed)
  {
  }

  class EditExpenses {
    const id: Option<string>
    var form: FormData
    var loading: bool
    var submitLoading: bool
    var error: string
    var success: string

    constructor (id: Option<string>, today: ValidDate)
      ensures this.id == id && form == EmptyForm(today)
      ensures loading && !submitLoading && error == "" && success == ""
    {
      this.id := id;
      form := EmptyForm(today);
      loading := true;
      submitLoading := false;
      error := "";
      success := "";
    }

    /** The mount effect requests the expense only when the URL has an id; otherwise the page stays loading. */
    function FetchesOnMount(): bool
      reads this
    {
      Truthy(id)
    }

    /** `fetchExpense` after its request settled; loading ends on every path. */
    method FinishFetch(result: FetchResult, today: ValidDate)
      modifies this
      ensures (form, error) == AfterFetch(old(form), old(error), result, today)
      ensures !loading && submitLoading == old(submitLoading) && success == old(success)
    {
      match result {
        case Returned(status, data) =>
          if data.NotJson? {
            error := FetchError;
          } else if !Ok(status) {
            error := ErrorText(data, FetchFailed);
          } else if data.Object? && data.expense.Some? && FormFromFetch(data.expense.value, today).Some? {
            form := FormFromFetch(data.expense.value, today).value;
          } else {
            error := FetchError;
          }
        case _ =>
          error := FetchError;
      }
      loading := false;
    }

    /** `handleInputChange`. */
    method HandleInputChange(input: Input)
      modifies this
      ensures form == WithInput(old(form), input)
      ensures loading == old(loading) && submitLoading == old(submitLoading) && error == old(error) && success == old(success)
    {
      form := WithInput(form, input);
    }

    /** `handleSubmit` up to the request. */
    method BeginSubmit() returns (payload: Option<Payload>)
      modifies this
      ensures form == old(form) && success == old(success) && loading == old(loading)
      ensures Validate(form, CategoryRequired).Some? ==>
                error == Validate(form, CategoryRequired).value && payload.None? && submitLoading == old(submitLoading)
      ensures Validate(form, CategoryRequired).None? ==>
                error == "" && submitLoading && form.amount.Value? && payload == Some(PayloadOf(form))
    {
      var failure := Validate(form, CategoryRequired);
      if failure.Some? {
        error := failure.value;
        return None;
      }
      error := "";
      submitLoading := true;
      payload := Some(PayloadOf(form));
    }

    /** `handleSubmit` after the request: the form is kept on success; submitLoading always ends. */
    method FinishSubmit(result: FetchResult)
      modifies this
      ensures !submitLoading && form == old(form) && loading == old(loading)
      ensures result.Returned? && !result.data.NotJson? && Ok(result.status) ==>
                success == Updated && error == old(error)
      ensures result.Returned? && !result.data.NotJson? && !Ok(result.status) ==>
                error == ErrorText(result.data, UpdateFailed) && success == old(success)
      ensures !(result.Returned? && !result.data.NotJson?) ==> error == UpdateError && success == old(success)
    {
      if !(result.Returned? && !result.data.NotJson?) {
        error := UpdateError;
      } else if Ok(result.status) {
        success := Updated;
      } else {
        error := ErrorText(result.data, UpdateFailed);
      }
      submitLoading := false;
    }
  }
}
