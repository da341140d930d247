/**
 * What the React pages receive from the backend: the parsed JSON of a reply, and the
 * outcome of a `fetch` call. A field the pages read that the JSON lacks is `None`
 * (JavaScript's `undefined`).
 */
module ClientJson {
  import opened Wrappers
  import opened JsStrings
  import opened Mongo
  import opened Dates
  import opened ExpenseSchema
  import opened Http

  /** An expense as the list pages use it: every field present. */
  datatype ExpenseItem = ExpenseItem(id: ObjectId, title: string, amount: int, category: string, date: ValidDate)

  /**
   * The `date` of a fetched expense: absent, or a string that `new Date(...)`
   * either reads as a date or rejects (an invalid date).
   */
  datatype DateValue = NoDate | DateText(parsed: Option<ValidDate>)

  /** `data.expense` as the edit form reads it. */
  datatype ExpenseFields = ExpenseFields(title: string, amount: int, category: string, date: DateValue)

  /** The result of `response.json()`. */
  datatype Json =
    | ExpenseArray(items: seq<ExpenseItem>)
    | Object(error: Option<string>, token: Option<string>, user: Option<string>, expense: Option<ExpenseFields>)
    | NotJson                                            // the body is not JSON: `response.json()` rejects

  /** `fetch` either rejects (network failure) or yields a status and a body. */
  datatype ServerReply = NetworkFailure | Answered(status: int, data: Json)

  /** `response.ok`. */
  predicate Ok(status: int) {
    200 <= status <= 299
  }

  /** `data.error || fallback`: an array or unparsable body has no `error`. */
  function ErrorText(data: Json, fallback: string): (message: string)
    ensures data.Object? && Truthy(data.error) ==> message == data.error.value
    ensures !(data.Object? && Truthy(data.error)) ==> message == fallback
  {
    if data.Object? && Truthy(data.error) then data.error.value else fallback
  }

  /** A listed document read by the pages: its fields as stored. */
  predicate ItemOf(doc: Document, item: ExpenseItem) {
    && item.id == doc.id
    && doc.expense.title == Some(item.title)
    && doc.expense.amount == Some(item.amount)
    && doc.expense.category == Some(item.category)
    && doc.expense.date.Some? && doc.expense.date.value == item.date
  }

  /** A fetched document as the edit form reads `data.expense`. */
  predicate FieldsOf(doc: Document, fields: ExpenseFields) {
    && doc.expense.title == Some(fields.title)
    && doc.expense.amount == Some(fields.amount)
    && doc.expense.category == Some(fields.category)
    && (doc.expense.date.None? ==> fields.date == NoDate)
    && (doc.expense.date.Some? ==>
          fields.date.DateText? && fields.date.parsed.Some? && fields.date.parsed.value == doc.expense.date.value)
  }

  /** How a backend body looks once parsed: an array for the list, an object for everything else. */
  predicate Decodes(body: Body, data: Json) {
    match body
    case ExpenseListBody(docs) =>
      data.ExpenseArray? && |data.items| == |docs| && forall i :: 0 <= i < |docs| ==> ItemOf(docs[i], data.items[i])
    case ErrorBody(e, _) => data.Object? && data.error == Some(e)
    case ExpenseBody(doc) =>
      data.Object? && data.error.None? && data.expense.Some? && FieldsOf(doc, data.expense.value)
    case AuthBody(_, token, _) => data.Object? && data.error.None? && data.token == Some(token) && data.user.Some?
    case _ => data.Object? && data.error.None?
  }

  /** Only the list body parses to an array. */
  lemma DecodesArray(body: Body, data: Json)
    requires Decodes(body, data)
    ensures data.ExpenseArray? <==> body.ExpenseListBody?
    ensures body.ErrorBody? ==> ErrorText(data, "") == body.error
  {
  }
}
