/** The JSON bodies and status codes the backend routes answer with. */
module Http {
  import opened Wrappers
  import opened Mongo
  import opened ExpenseSchema

  /** The user fields a response may reveal: never the password. */
  datatype PublicUser = PublicUser(id: ObjectId, username: string, emailId: string, fullName: Option<string>)

  datatype Body =
    | ErrorBody(error: string, redirectTo: Option<string>)      // { error, redirectTo? }
    | MessageBody(success: bool, message: string)              // { success, message }
    | NoticeBody(message: string)                              // { message }
    | AuthBody(message: string, token: string, user: PublicUser) // { success: true, message, token, user }
    | ProfileBody(user: PublicUser, createdAt: int)             // { success: true, user: {..., createdAt} }
    | ExpenseBody(expense: Document)                           // { success: true, expense }
    | ExpenseListBody(expenses: seq<Document>)                 // the array of all documents

  datatype Response = Response(status: int, body: Body)

  const InternalError := Response(500, ErrorBody("Internal server error", None))
}
