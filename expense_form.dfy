/**
 * The form the add and edit pages share (frontend/src/components/AddExpenses.jsx and
 * frontend/src/components/EditExpenses.jsx): its four fields, `handleInputChange`,
 * the checks `handleSubmit` makes before sending, and the JSON it sends.
 */
module ExpenseForm {
  import opened Wrappers
  import opened JsStrings
  import opened Dates

  /** The number input: empty, or the number it holds (what `parseFloat` reads from it). */
  datatype Amount = Blank | Value(n: int)

  datatype FormData = FormData(title: string, amount: Amount, category: string, date: string)

  /** A fresh form: empty fields and today's date as `yyyy-MM-dd`. */
  function EmptyForm(today: ValidDate): FormData {
    FormData("", Blank, "", FormatDate(today))
  }

  /** A change event: the input's `name` and its new `value`. */
  datatype Input = TitleInput(text: string) | AmountInput(amount: Amount) | CategoryInput(text: string) | DateInput(text: string)

  /** `setFormData(prev => ({ ...prev, [name]: value }))`. */
  function WithInput(form: FormData, input: Input): FormData {
    match input
    case TitleInput(t) => form.(title := t)
    case AmountInput(a) => form.(amount := a)
    case CategoryInput(c) => form.(category := c)
    case DateInput(d) => form.(date := d)
  }

  /** A change event sets the named field to its value and leaves the other three alone. */
  lemma InputChangesOneField(form: FormData, input: Input)
    ensures var r := WithInput(form, input);
            && r.title == (if input.TitleInput? then input.text else form.title)
            && r.amount == (if input.AmountInput? then input.amount else form.amount)
            && r.category == (if input.CategoryInput? then input.text else form.category)
            && r.date == (if input.DateInput? then input.text else form.date)
  {
  }

  const TitleRequired := "Title is required"
  const InvalidAmount := "Please enter a valid amount"
  const DateRequired := "Please select a date"

  /** A positive amount: `!amount || amount <= 0` rejects the empty input, zero and negatives. */
  predicate ValidAmount(a: Amount) {
    a.Value? && a.n > 0
  }

  /**
   * The first check that fails, in the order `handleSubmit` makes them; the category
   * message differs between the two pages. `!title.trim()` holds exactly for a blank
   * title (`Trim`'s contract), which is how the first check is written here.
   */
  function Validate(form: FormData, categoryMessage: string): Option<string> {
    if IsBlank(form.title) then Some(TitleRequired)
    else if !ValidAmount(form.amount) then Some(InvalidAmount)
    else if form.category == "" then Some(categoryMessage)
    else if form.date == "" then Some(DateRequired)
    else None
  }

  /**
   * The checks run in order and the first failure wins: a blank title (spaces only
   * count as blank), then an amount that is empty or not positive, then an empty
   * category, then an empty date. A form passing all four sends.
   */
  lemma ValidationOrder(form: FormData, categoryMessage: string)
    ensures categoryMessage != TitleRequired ==>
              (Trim(form.title) == "" <==> Validate(form, categoryMessage) == Some(TitleRequired))
    ensures Validate(form, categoryMessage).None? <==>
              !IsBlank(form.title) && ValidAmount(form.amount) && form.category != "" && form.date != ""
    ensures IsBlank(form.title) ==> Validate(form, categoryMessage) == Some(TitleRequired)
    ensures !IsBlank(form.title) && !ValidAmount(form.amount) ==> Validate(form, categoryMessage) == Some(InvalidAmount)
    ensures !IsBlank(form.title) && ValidAmount(form.amount) && form.category == ""
            ==> Validate(form, categoryMessage) == Some(categoryMessage)
    ensures !IsBlank(form.title) && ValidAmount(form.amount) && form.category != "" && form.date == ""
            ==> Validate(form, categoryMessage) == Some(DateRequired)
  {
  }

  /** A fresh form never passes: its title is empty. */
  lemma EmptyFormRejected(today: ValidDate, categoryMessage: string)
    ensures Validate(EmptyForm(today), categoryMessage) == Some(TitleRequired)
  {
  }

  /** The JSON body sent: the title as typed (untrimmed), the amount as a number, the category and the date text. */
  datatype Payload = Payload(title: string, amount: int, category: string, date: string)

  function PayloadOf(form: FormData): Payload
    requires form.amount.Value?
  {
    Payload(form.title, form.amount.n, form.category, form.date)
  }
}
