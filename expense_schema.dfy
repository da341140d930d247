/**
 * backend/model/expenseSchema.js: the shape of an expense document. Its `null: false`
 * and `autoincrement` options are not validators, so every field may be absent.
 */
module ExpenseSchema {
  import opened Wrappers
  import opened Dates
  import Mongo

  datatype Expense = Expense(
    title: Option<string>,
    amount: Option<int>,
    category: Option<string>,
    date: Option<CalendarDate>)

  /** A stored expense with the `_id` the store gave it. */
  datatype Document = Document(id: Mongo.ObjectId, expense: Expense)

  function DocumentId(d: Document): Mongo.ObjectId {
    d.id
  }

  /** A request body or update that names none of the four fields. */
  const NoFields := Expense(None, None, None, None)
}
