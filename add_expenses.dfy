/**
 * frontend/src/components/AddExpenses.jsx: the add form. `handleSubmit` is split at
 * its `await`: `BeginSubmit` runs the checks and starts the request, `FinishSubmit`
 * handles how the request settled and runs the `finally`.
 */
module AddExpensesPage {
  import opened Wrappers
  import opened Dates
  import opened ClientJson
  import opened Api
  import opened ExpenseForm

  const CategoryRequired := "Please select a category"
  const Added := "Expense added successfully!"
  const AddFailed := "Failed to add expense"
  const AddError := "Error adding expense. Please try again."

  /** The request settled with a parsed body: `response.json()` resolved. */
  predicate HasBody(result: FetchResult) {
    result.Returned? && !result.data.NotJson?
  }

  class AddExpenses {
    var form: FormData
    var loading: bool
    var error: string
    var success: string

    constructor (today: ValidDate)
      ensures form == EmptyForm(today) && !loading && error == "" && success == ""
    {
      form := EmptyForm(today);
      loading := false;
      error := "";
      success := "";
    }

    /** `handleInputChange`. */
    method HandleInputChange(input: Input)
      modifies this
      ensures form == WithInput(old(form), input)
      ensures loading == old(loading) && error == old(error) && success == old(success)
    {
      form := WithInput(form, input);
    }

    /** `handleSubmit` up to the request: the first failed check sets its message and nothing is sent. */
    method BeginSubmit() returns (payload: Option<Payload>)
      modifies this
      ensures form == old(form) && success == old(success)
      ensures Validate(form, CategoryRequired).Some? ==>
                error == Validate(form, CategoryRequired).value && payload.None? && loading == old(loading)
      ensures Validate(form, CategoryRequired).None? ==>
                error == "" && loading && form.amount.Value? && payload == Some(PayloadOf(form))
    {
      var failure := Validate(form, CategoryRequired);
      if failure.Some? {
        error := failure.value;
        return None;
      }
      error := "";
      loading := true;
      payload := Some(PayloadOf(form));
    }

    /** `handleSubmit` after the request: success resets the form, a refusal shows the server's error, a failure the generic one; loading always ends. */
    method FinishSubmit(result: FetchResult, today: ValidDate)
      modifies this
      ensures !loading
      ensures HasBody(result) && Ok(result.status) ==>
                success == Added && form == EmptyForm(today) && error == old(error)
      ensures HasBody(result) && !Ok(result.status) ==>
                error == ErrorText(result.data, AddFailed) && form == old(form) && success == old(success)
      ensures !HasBody(result) ==> error == AddError && form == old(form) && success == old(success)
    {
      if !HasBody(result) {
        // `response` is undefined or its body is not JSON: the catch
        error := AddError;
      } else if Ok(result.status) {
        success := Added;
        form := EmptyForm(today);
      } else {
        error := ErrorText(result.data, AddFailed);
      }
      loading := false;
    }
  }
}
