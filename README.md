# Expense tracker: a Dafny model

ExpenseTrackerApp is a small full-stack expense tracker. An Express backend keeps users and expenses in MongoDB:

- `backend/routes/authRoutes.js` registers users, logs them in and reports the current user.
- `backend/middleware/auth.js` hashes passwords, issues and verifies bearer tokens, and guards routes.
- `backend/model/userSchema.js` declares the user document, which trims its text fields, lower-cases the e-mail, and enforces required fields, length limits and uniqueness.
- `backend/routes/expenseRoutes.js` lists, creates, reads, updates and deletes expense documents behind the guard.

A React frontend talks to the backend:

- `frontend/src/lib/api.js` adds the bearer header and logs the browser out on a 401.
- `frontend/src/App.jsx` holds the authenticated flag and the protected routes.
- `frontend/src/components/Login.jsx` is the login/register form, which stores the token it gets back.
- `frontend/src/components/Expenses.jsx` is the list page: total, per-category summary, filters, sorted category drop-down and delete.
- `frontend/src/components/Chart.jsx` builds the pie series (amount per category) and the bar series (amount per expense).
- `frontend/src/components/AddExpenses.jsx` and `EditExpenses.jsx` are the expense forms, with their validation and submit life cycle.

## How the model is built

- **Backend handlers are functions and stores are classes.** Each backend handler is a function from the current collection and the request to a response and the new collection. Examples are `AuthRoutes.RegisterOutcome`, `AuthRoutes.Login` and `ExpenseRoutes.Serve`. The collections themselves are classes whose methods update them in place: `AuthRoutes.UserStore` and `ExpenseRoutes.ExpenseTable`. Each method is proved against its handler function.
- **Request/response pairs are objects.** The request/response pair a middleware works on is the class `AuthMiddleware.Exchange`. It records `req.userId`, the response sent and how often `next()` was called.
- **Each React page is a class.** Its fields are the page's `useState` variables. Its methods are the event handlers, each taken at the point where its `await`ed request has settled: `BeginSubmit` runs up to the request and `FinishSubmit` handles the outcome. What the page renders is given by functions of that state.
- **The browser is a class.** `Api.Browser` holds `localStorage` and `window.location.href`.
- **JavaScript built-ins are modelled on `seq<char>`.** The module `JsStrings` covers `trim` (with the full ECMAScript white-space set), `toLowerCase`, `split`, `String(n)` and `padStart`. A string's `.length` is the length of its UTF-16 encoding (`JsLength`), and the default `sort` compares UTF-16 code units (`LexLess`). The bytes bcrypt hashes are the string's UTF-8 encoding (`Utf8`).
- **JSON has a closed form.** `ClientJson.Json` is the parsed reply as the pages read it. A request's `password` field is `AuthRoutes.BodyValue`: a string, or another JSON value of which the routes see only its truthiness and whether `.length < 6` holds.
- **bcrypt and JWT are deterministic stand-ins** (`AuthMiddleware.HashPassword` and `AuthMiddleware.GenerateToken`). They keep the properties the routes rely on:
  - a hash accepts exactly the passwords that share the first 72 UTF-8 bytes of its own, so below 72 bytes it accepts only its own password;
  - a hash is never the plaintext;
  - different salts give different hashes;
  - a token verifies exactly as the user it was issued to, under the secret it was signed with.
- **Randomness and time are parameters.** This covers the bcrypt salt, `Math.random()` draws, the current date and `Date.now()` timestamps.
- **Expense validation uses `IsBlank`.** `ExpenseForm.Validate` tests `!title.trim()` as "the title is blank". `ExpenseForm.ValidationOrder` proves that this is the same as `Trim(title) == ""`.
- **Operations and the lemmas that state them.** Functions that only compute carry no contract of their own. Their properties are proved in lemmas, and those lemmas have the rows in the table below:
  - `AuthMiddleware.HashPassword` and `ComparePassword` (auth.js:13-21): `HashThenCompare`, `HashAcceptsExactly`, `ShortPasswordsExact`, `LongPasswordPrefix`, `SaltsDiffer`, `HashIsNotPlaintext`.
  - `AuthMiddleware.GenerateToken` and `VerifyToken` (auth.js:8-10, 35-43): `TokenFields`, `VerifyGenerated`, `VerifyExactlyGenerated`, `TokenHasNoSpace`.
  - `AuthRoutes.RegisterOutcome` (authRoutes.js:7-65): `RegisterValidation`, `RegisterNonStringPassword`, `RegisterDuplicate`, `PaddedUsernameReportedAsEmail`, `RegisterCreated`, `RegisterSuccess`, `RegisterRejectedUnchanged`, `RegisterAppendsAtMostOne`, `RegisterKeepsInvariant`, `RegisterKeepsIdsFresh`.
  - `AuthRoutes.Login` (authRoutes.js:68-106): `LoginNoEnumeration`, `NonStringPasswordRevealsAccount`, `FailedLoginAnswers`, `LoginSuccess`, `LoginAccepts`, `RegisterThenLogin`, `RegisterThenLoginShadowed`.
  - `AuthRoutes.CheckedLogin`, the login with a type check on the password (see "## Findings"): `CheckedLoginNoEnumeration`. The login page posts only string passwords, and for those the two routes answer alike, so the page's lemmas hold for both.
  - `AuthRoutes.MeRoute` (authRoutes.js:115-138): `Me`, `RegisterThenMe`, `MeWithToken`.
  - `ExpenseRoutes.Serve` and `Dispatch` (expenseRoutes.js:7-87): `GuardedRoutes`, `ViewAll`, `AddInserts`, `GetReadsOnly`, `PutOverwrites`, `PutAbsent`, `DeleteRemoves`, `DeleteMissing`, `ServeKeepsDistinct`.
  - `Api.AuthHeaders` and `FetchOutcome` (api.js:2-29): `AuthHeadersShape`, `FetchOutcomeCases`, `HeaderCarriesToken`, `MissingTokenLogsOut`, `RejectedTokenKeepsSession`.
  - `Dates.FormatDate` and `LocaleDate` (AddExpenses.jsx:10-15, Expenses.jsx:61): `FormatDateCharacters`, `FormatDateSplits`, `FormatDateRoundTrip`, `ParseDateFormats`, `FormatDateInjective`, `LocaleDateNeverFormatted`.
  - `ExpenseForm.Validate` (AddExpenses.jsx:41-56): `ValidationOrder`, `EmptyFormRejected`.
  - `ExpensesView.Summarize` and `Total` (Expenses.jsx:41-53): `AddAmountLookup`, `AddAmountKeys`, `SummaryShape`, `SummaryValues`, `CategoryTotalAbsent`, and the loop `CategoryWiseSummary`.
  - `ExpensesView.Filtered` (Expenses.jsx:58-65): `FilteredProperties`, `FilteredAsWrittenProperties`, `TitleMatchIgnoresCase`, `DateFilterHidesAll`, `DateFilterSelectsDay`.
  - `ExpensesView.FetchedList` (Expenses.jsx:17-31): `FetchedListFromServer`, `EmptyCollectionCrashes`.
  - `EditExpensesPage.EditDate` and `AfterFetch` (EditExpenses.jsx:11-72): `EditDateRoundTrip`, `LoadsStoredExpense`, `MissingExpenseMessage`.
  - `LoginPage.RequestFor` and `StoredAfterAuth` (Login.jsx:33-57): `RequestMatchesMode`, `EmptyFieldRefused`, `LoginStoresAdmittedToken`.
  - `AppShell.ProtectedRoute` (App.jsx:13-21): `UnauthorizedLogsOut`, `StoredTokenOpensPages`.

## Model

| member | source | states |
|---|---|---|
| JsStrings.TrimStart | backend/model/userSchema.js:9 | the result is a suffix of the input with no leading white space, and everything dropped is white space (the full ECMAScript set: Zs spaces, line terminators, BOM) |
| JsStrings.TrimEnd | backend/model/userSchema.js:9 | the result is a prefix with no trailing white space, and everything dropped is white space (the same set) |
| JsStrings.Trim | frontend/src/components/AddExpenses.jsx:41 | trimming is empty exactly when the input is all white space; the result is trimmed and no longer than the input |
| JsStrings.TrimSlice | frontend/src/components/AddExpenses.jsx:42 | `trim()` is a contiguous slice of the input, and what it removes at both ends is white space |
| JsStrings.TrimIdempotent | backend/model/userSchema.js:9 | trimming twice is trimming once |
| JsStrings.ToLower | backend/model/userSchema.js:18 | ASCII lower-casing keeps the length and maps each character by itself |
| JsStrings.ToLowerIsLower | frontend/src/components/Expenses.jsx:62 | the result is lower case, and lower-casing is idempotent |
| JsStrings.Split | backend/middleware/auth.js:26 | `split` yields at least one part, and no part contains the separator |
| JsStrings.SplitThree | backend/middleware/auth.js:26 | three separator-free fields joined by the separator split back into exactly those fields |
| JsStrings.SplitJoin | backend/middleware/auth.js:26 | splitting a join of separator-free parts returns the parts |
| JsStrings.JoinSplit | backend/middleware/auth.js:26 | joining the parts of a split returns the original text |
| JsStrings.DigitsAreDigits | frontend/src/components/AddExpenses.jsx:11-14 | `String(n)` of a natural number is a non-empty string of decimal digits |
| JsStrings.ParseDigits | frontend/src/components/AddExpenses.jsx:11-14 | reading back the decimal text of `n` gives `n` |
| JsStrings.DigitsInjective | backend/middleware/auth.js:8-10 | different numbers have different decimal texts |
| JsStrings.PadStart2 | frontend/src/components/AddExpenses.jsx:12-13 | `padStart(2, '0')` keeps the text as its suffix and fills only with zeros up to width 2 |
| JsStrings.DecimalDigits | frontend/src/components/EditExpenses.jsx:24 | a digit string without a leading zero is the decimal text of its value |
| JsStrings.JsLengthBounds | backend/routes/authRoutes.js:16 | `.length` counts UTF-16 code units: between the number of characters and twice that, and equal to it without characters above U+FFFF |
| JsStrings.AstralLength | backend/routes/authRoutes.js:16 | three characters above U+FFFF have `.length` 6 |
| JsStrings.Utf16Injective | frontend/src/components/Expenses.jsx:72 | different strings have different UTF-16 encodings |
| JsStrings.Utf8Injective | backend/middleware/auth.js:15 | different strings have different UTF-8 encodings |
| JsStrings.LexIrreflexive | frontend/src/components/Expenses.jsx:72 | the default sort order (UTF-16 code units) never puts a string before itself |
| JsStrings.LexTransitive | frontend/src/components/Expenses.jsx:72 | the sort order is transitive |
| JsStrings.LexTotal | frontend/src/components/Expenses.jsx:72 | any two different strings are ordered one way or the other, since different strings have different UTF-16 encodings |
| JsStrings.LexAsymmetric | frontend/src/components/Expenses.jsx:72 | the sort order is asymmetric |
| JsStrings.UnitsTransitive | frontend/src/components/Expenses.jsx:72 | the code-unit order is transitive |
| JsStrings.UnitsTotal | frontend/src/components/Expenses.jsx:72 | any two different code-unit sequences are ordered one way or the other |
| JsStrings.SurrogatesSortLow | frontend/src/components/Expenses.jsx:72 | a character above U+FFFF sorts before U+FF01, as its surrogate units are smaller |
| Dates.TwoDigitsPadded | frontend/src/components/AddExpenses.jsx:12-13 | that text is `String(n).padStart(2, '0')` |
| Dates.TwoDigitsExact | frontend/src/components/AddExpenses.jsx:12-13 | the two digits read back as `n` |
| Dates.TwoDigitsOfText | frontend/src/components/EditExpenses.jsx:25-26 | two digits read as a number below 100 and written back give the same text |
| Dates.ParseDate | backend/model/expenseSchema.js:9 | a `yyyy-MM-dd` date value (four year digits, two month digits, two day digits) read as a date is a valid calendar date with a year in 0..9999 |
| Dates.FormatDateCharacters | frontend/src/components/AddExpenses.jsx:10-15 | `getFormattedDate` produces only digits and dashes, never a slash |
| Dates.FormatDateSplits | frontend/src/components/AddExpenses.jsx:10-15 | the formatted date splits on `-` into year, two-digit month and two-digit day |
| Dates.FormatDateRoundTrip | frontend/src/components/EditExpenses.jsx:11-28 | parsing the formatted date gives back the date, for every date with a four-digit year |
| Dates.ParseDateFormats | frontend/src/components/EditExpenses.jsx:11-28 | a `yyyy-MM-dd` text with a four-digit year that reads as a date is written back as the same text |
| Dates.FormatDateInjective | frontend/src/components/AddExpenses.jsx:10-15 | different dates are formatted differently |
| Dates.LocaleDateNeverFormatted | frontend/src/components/Expenses.jsx:61 | the `en-IN` locale text contains a slash, so it never equals any `yyyy-MM-dd` text |
| AuthMiddleware.JwtSecret | backend/middleware/auth.js:4 | the secret is the environment value when set and non-empty, else the built-in default, and never empty |
| AuthMiddleware.BcryptKey | backend/middleware/auth.js:15 | the key bcrypt hashes is the UTF-8 encoding of the password, cut to its first 72 bytes |
| AuthMiddleware.Code | backend/middleware/auth.js:13-16 | the digest of a byte string is positive |
| AuthMiddleware.CodeInjective | backend/middleware/auth.js:13-21 | different byte strings have different digests |
| AuthMiddleware.HashThenCompare | backend/middleware/auth.js:13-21 | `comparePassword(p, hashPassword(p))` holds |
| AuthMiddleware.HashAcceptsExactly | backend/middleware/auth.js:19-21 | a hash accepts a password if and only if its first 72 UTF-8 bytes are those of the hashed one |
| AuthMiddleware.ShortPasswordsExact | backend/middleware/auth.js:19-21 | below 72 UTF-8 bytes, a hash accepts exactly the password it was made from |
| AuthMiddleware.LongPasswordPrefix | backend/middleware/auth.js:19-21 | from 72 UTF-8 bytes on, a hash also accepts the password with anything appended |
| AuthMiddleware.SaltsDiffer | backend/middleware/auth.js:13-16 | the same password under two salts gives two different hashes |
| AuthMiddleware.HashIsNotPlaintext | backend/middleware/auth.js:13-16 | a hash always differs from the password it was made from |
| AuthMiddleware.TokenFields | backend/middleware/auth.js:8-10 | a token has exactly three dot-separated fields: header, user id, signature |
| AuthMiddleware.VerifyGenerated | backend/middleware/auth.js:8-10 | a generated token verifies as the user it names |
| AuthMiddleware.VerifyExactlyGenerated | backend/middleware/auth.js:35-43 | a token verifies as a user if and only if it is the token generated for that user under that secret |
| AuthMiddleware.TokenHasNoSpace | backend/middleware/auth.js:8-10 | a token is non-empty and contains no space |
| AuthMiddleware.BearerToken | backend/middleware/auth.js:26 | `authHeader && authHeader.split(' ')[1]` yields a non-empty, space-free token or nothing |
| AuthMiddleware.Authenticate | backend/middleware/auth.js:24-46 | no token gives 401; a token that fails to verify gives 403; the request is let through exactly when the token verifies, and then as the user it verifies as |
| AuthMiddleware.OptionalIdentity | backend/middleware/auth.js:49-61 | an identity is set exactly when a token is present and verifies |
| AuthMiddleware.SchemeIgnored | backend/middleware/auth.js:26 | any first word before the space is accepted in place of `Bearer` |
| AuthMiddleware.DoubleSpaceRejected | backend/middleware/auth.js:26-33 | a header with two spaces before the token is answered 401 |
| AuthMiddleware.GeneratedTokenAdmitted | backend/middleware/auth.js:24-46 | a header carrying a generated token lets the request through as its user |
| AuthMiddleware.Exchange.constructor | backend/middleware/auth.js:24 | a fresh request has no user, no response and no `next()` call |
| AuthMiddleware.Exchange.AuthenticateToken | backend/middleware/auth.js:24-46 | either sets `req.userId` and calls `next()` once, or sends the 401/403 response and does neither |
| AuthMiddleware.Exchange.OptionalAuth | backend/middleware/auth.js:49-61 | always calls `next()` exactly once and never responds; sets the user only for a valid token |
| UserSchema.NewUserNormalised | backend/model/userSchema.js:4-32 | a user built by the register route is well formed exactly when it passes the schema validators |
| UserSchema.CastsAreNormal | backend/model/userSchema.js:9-18 | the username and e-mail setters give trimmed (and, for the e-mail, lower-case) values and applying them twice is applying them once |
| UserSchema.InsertKeepsInvariant | backend/model/userSchema.js:8-16 | saving a well-formed user that collides with none keeps usernames and e-mails unique and every field normalised |
| UserSchema.LowerKeepsTrimmed | backend/model/userSchema.js:17-18 | lower-casing a trimmed e-mail keeps it trimmed |
| UserSchema.TrimmedIsFixed | backend/model/userSchema.js:9 | a trimmed value is unchanged by trimming |
| AuthRoutes.FindByUsernameOrEmailFinds | backend/routes/authRoutes.js:21-23 | `findOne({$or: ...})` returns a stored user matching the (cast) username or e-mail, and nothing exactly when none matches |
| Mongo.FindById | backend/routes/authRoutes.js:117 | `findById` (on users here, on expenses at expenseRoutes.js:40) returns the stored document with that id, and nothing exactly when there is none |
| AuthRoutes.RegisterRefusal | backend/routes/authRoutes.js:12-31 | when register refuses nothing up front, all three fields are truthy and `password.length < 6` fails; a string password is then at least 6 UTF-16 code units long |
| AuthRoutes.RegisterValidation | backend/routes/authRoutes.js:12-18 | a falsy field gives the 400 "required" reply; with all fields truthy, the short-password reply comes exactly when `password.length < 6` holds, for a string exactly when it is under 6 UTF-16 code units |
| AuthRoutes.RegisterNonStringPassword | backend/routes/authRoutes.js:16-34 | a truthy non-string password that passes the length test gets the duplicate reply if a user matches, else 500 because hashing rejects it; nothing is stored |
| AuthRoutes.RegisterDuplicate | backend/routes/authRoutes.js:21-31 | a user matching the cast username or e-mail gives 400, with "Username already exists" when its username equals the username as sent, else "Email already exists" |
| AuthRoutes.PaddedUsernameReportedAsEmail | backend/routes/authRoutes.js:21-31 | a username that matches only once trimmed is reported as "Email already exists" |
| AuthRoutes.RegisterSaveCollidesNever | backend/routes/authRoutes.js:21-44 | with fresh ids, a registration that passes the duplicate check never collides at `save()` |
| AuthRoutes.RegisterSuccess | backend/routes/authRoutes.js:34-59 | on 201 exactly one user is appended; its password is a hash accepting the given password and differing from it; its full name defaults to the username; the token verifies as it |
| AuthRoutes.RegisterCreated | backend/routes/authRoutes.js:21-59 | a 201 means no stored user had that username or e-mail, and the reply carries the token and public view of the user built from the body |
| AuthRoutes.RegisterKeepsInvariant | backend/routes/authRoutes.js:7-65 | register keeps usernames and e-mails unique and normalised |
| AuthRoutes.RegisterRejectedUnchanged | backend/routes/authRoutes.js:12-31 | any reply other than 201 leaves the user collection unchanged |
| AuthRoutes.RegisterAppendsAtMostOne | backend/routes/authRoutes.js:37-44 | register adds at most one user, carrying the new id |
| AuthRoutes.RegisterKeepsIdsFresh | backend/routes/authRoutes.js:37-44 | with every stored id below the next id, that stays true after register with the counter advanced |
| AuthRoutes.LoginNoEnumeration | backend/routes/authRoutes.js:78-91 | an unknown user gets 401 "Invalid username or password" whatever the password; a known user with a wrong string password gets the same reply; a known user with a non-string password gets 500 |
| AuthRoutes.NonStringPasswordRevealsAccount | backend/routes/authRoutes.js:73-91 | as written, a truthy non-string password gets 500 when the user exists and 401 when it does not, so the reply tells them apart |
| AuthRoutes.FailedLoginAnswers | backend/routes/authRoutes.js:73-110 | a failed login answers 400, 401 or 500, and 500 only for a truthy non-string password |
| AuthRoutes.CheckedLoginNoEnumeration | backend/routes/authRoutes.js:73-91 | corrected: with a type check on the password, any two stores in which a login fails give it the same reply (400 or 401), and for a string password the reply is the route's as written |
| AuthRoutes.LoginSuccess | backend/routes/authRoutes.js:68-106 | `Login` answers 200 exactly when the password is a string, a user matches the cast username or e-mail and the password compares; the token then verifies as that user |
| AuthRoutes.LoginAccepts | backend/routes/authRoutes.js:94-106 | a found user whose password compares is logged in with a token for that user |
| AuthRoutes.LoginFinds | backend/routes/authRoutes.js:78-106 | once the lookup lands on a user, a string password gets 401 unless it compares against that user's hash, and otherwise 200 with that user's token and profile |
| AuthRoutes.RegisterThenLogin | backend/routes/authRoutes.js:7-106 | a user just registered can log in with the same username and password and gets a token for the new id, provided no earlier user's e-mail equals the new username (cast as an e-mail) |
| AuthRoutes.RegisterThenLoginShadowed | backend/routes/authRoutes.js:21-91 | when an earlier user's e-mail equals the new username, register still succeeds, but login finds that earlier user and checks the password against its hash: 401 unless it matches, and on a match it logs in the earlier user |
| AuthRoutes.Me | backend/routes/authRoutes.js:115-138 | `/me` answers 404 exactly when the user is gone, otherwise 200 with that user's public view and creation time |
| AuthRoutes.LogoutRoute | backend/routes/authRoutes.js:141-146 | logout answers "Logged out successfully" after the guard, and the guard's 401/403 otherwise |
| AuthRoutes.RegisterThenMe | backend/routes/authRoutes.js:47-59 | the token returned by register opens `/me` on the new user |
| AuthRoutes.MeWithToken | backend/routes/authRoutes.js:115-132 | a stored user presenting its generated token gets its own profile |
| AuthRoutes.UserStore.constructor | backend/model/userSchema.js:31 | the collection starts empty and valid |
| AuthRoutes.UserStore.Register | backend/routes/authRoutes.js:7-65 | the reply and the new collection are those of the register route; the next id advances exactly on 201; the store stays unique, normalised and with fresh ids |
| AuthRoutes.UserStore.Create | backend/routes/authRoutes.js:33-59 | once the checks have passed, the reply and collection are those of the register route, and the next id advances exactly on 201 |
| AuthRoutes.UserStore.Save | backend/routes/authRoutes.js:44 | `user.save()` succeeds exactly when the validators (lengths in UTF-16 code units) pass and nothing collides, and then appends the user |
| AuthRoutes.UserStore.HandleMe | backend/routes/authRoutes.js:115-138 | the guarded `/me` request gets the route's reply |
| AuthRoutes.UserStore.HandleLogout | backend/routes/authRoutes.js:141-146 | the guarded logout request gets the route's reply |
| ExpenseRoutes.MergeProperties | backend/routes/expenseRoutes.js:56-58 | an update overwrites exactly the fields it carries; an empty update changes nothing; applying it twice is applying it once |
| ExpenseRoutes.Update | backend/routes/expenseRoutes.js:56-58 | `findByIdAndUpdate` changes only documents with that id, merging the update into each |
| ExpenseRoutes.Delete | backend/routes/expenseRoutes.js:75 | `findByIdAndDelete` keeps exactly the documents with another id |
| ExpenseRoutes.DeleteAt | backend/routes/expenseRoutes.js:75 | with distinct ids, deleting a document's id removes that document only, keeping the order |
| ExpenseRoutes.DeleteAbsent | backend/routes/expenseRoutes.js:75-79 | deleting an id no document has changes nothing |
| ExpenseRoutes.DeleteKeepsDistinct | backend/routes/expenseRoutes.js:75 | deleting keeps ids distinct |
| ExpenseRoutes.GuardedRoutes | backend/routes/expenseRoutes.js:7-87 | every route except `GET /add-expense` sits behind the guard; a rejected token gets the guard's reply and changes nothing; `GET /add-expense` never answers |
| ExpenseRoutes.ViewAll | backend/routes/expenseRoutes.js:7-19 | the list answers 404 exactly when the collection is empty, otherwise 200 with every document; it reads nothing of the user |
| ExpenseRoutes.AddInserts | backend/routes/expenseRoutes.js:25-35 | adding stores the body under a fresh id, answers 201 with it, keeps ids distinct and makes it findable |
| ExpenseRoutes.GetReadsOnly | backend/routes/expenseRoutes.js:37-51 | reading changes nothing: a malformed id gives 500, a missing one 404, a stored one 200 with that document |
| ExpenseRoutes.FindAt | backend/routes/expenseRoutes.js:40 | with distinct ids, finding a document's id returns that document |
| ExpenseRoutes.PutOverwrites | backend/routes/expenseRoutes.js:53-70 | updating a stored id merges the body into that document only and answers 200 with the new document |
| ExpenseRoutes.PutAbsent | backend/routes/expenseRoutes.js:59-62 | updating a missing id answers 404 and changes nothing |
| ExpenseRoutes.DeleteRemoves | backend/routes/expenseRoutes.js:72-87 | deleting a stored id removes exactly that document and answers 200 with it |
| ExpenseRoutes.DeleteMissing | backend/routes/expenseRoutes.js:76-79 | deleting a missing id answers 404 and changes nothing |
| ExpenseRoutes.ServeKeepsDistinct | backend/routes/expenseRoutes.js:7-87 | with a fresh id for inserts, every route keeps document ids distinct |
| ExpenseRoutes.ExpenseTable.constructor | backend/model/expenseSchema.js:4-10 | the collection starts empty and valid |
| ExpenseRoutes.ExpenseTable.View | backend/routes/expenseRoutes.js:7-19 | answers as the list route and changes nothing |
| ExpenseRoutes.ExpenseTable.Add | backend/routes/expenseRoutes.js:25-35 | answers and updates the collection as the add route, consuming one fresh id |
| ExpenseRoutes.ExpenseTable.GetEdit | backend/routes/expenseRoutes.js:37-51 | answers as the read route and changes nothing |
| ExpenseRoutes.ExpenseTable.PutEdit | backend/routes/expenseRoutes.js:53-70 | answers and updates the collection as the update route |
| ExpenseRoutes.ExpenseTable.DeleteById | backend/routes/expenseRoutes.js:72-87 | answers and updates the collection as the delete route |
| ExpenseRoutes.ExpenseTable.Handle | backend/routes/expenseRoutes.js:7-87 | a request passes the guard and then the route, and ends with the reply and collection of `Dispatch` |
| ClientJson.DecodesArray | frontend/src/components/Expenses.jsx:22-24 | only the list reply parses to an array; an error reply's message is what the pages show |
| Api.AuthHeadersShape | frontend/src/lib/api.js:2-8 | headers always carry the JSON content type, and carry `Bearer <token>` exactly when a non-empty token is stored |
| Api.MergedOptionsShape | frontend/src/lib/api.js:12-18 | the caller's options are kept and the caller's own headers win over the default ones |
| Api.FetchOutcomeCases | frontend/src/lib/api.js:11-29 | a 401 resolves to `undefined`, a network failure rejects, and every other reply is returned unchanged |
| Api.Browser.constructor | frontend/src/lib/api.js:3 | the browser starts with the given storage and location |
| Api.Browser.AuthenticatedFetch | frontend/src/lib/api.js:11-29 | a 401 removes the token and the user and goes to `/login`; any other reply leaves storage and location alone |
| Api.HeaderCarriesToken | frontend/src/lib/api.js:6 | the guard reads back exactly the stored token from the header built for it |
| Api.StoredTokenAdmitted | frontend/src/lib/api.js:2-8 | a stored backend token passes the guard as the user it was issued to |
| Api.MissingTokenLogsOut | frontend/src/lib/api.js:2-26 | for any storage without a token and any guarded route, no authorization header is sent, the backend answers 401 without touching the collection, and the fetch resolves to `undefined` (the logout branch) |
| Api.RejectedTokenKeepsSession | frontend/src/lib/api.js:6-28 | a stored token that fails to verify gets the 403 reply with the collection unchanged, and the fetch returns that reply instead of logging out |
| AppShell.UnauthorizedLogsOut | frontend/src/App.jsx:13-21 | after a 401 the protected pages and the default route lead to `/login` |
| AppShell.StoredTokenOpensPages | frontend/src/App.jsx:13-21 | a stored non-empty token opens the protected pages and is sent as the bearer header |
| AppShell.App.constructor | frontend/src/App.jsx:24 | the app starts unauthenticated |
| AppShell.App.SyncWithStorage | frontend/src/App.jsx:26-39 | the flag becomes "a non-empty token is stored" |
| AppShell.App.HandleLogin | frontend/src/App.jsx:41-43 | the flag becomes true |
| AppShell.App.HandleLogout | frontend/src/App.jsx:45-49 | the token and user are removed, the flag becomes false and the protected pages redirect |
| LoginPage.RequestMatchesMode | frontend/src/components/Login.jsx:33-36 | login mode posts only username and password to `/login`; register mode posts the whole form to `/register` |
| LoginPage.EmptyFieldRefused | frontend/src/components/Login.jsx:33-36 | a login with an empty username or password gets the backend's "required" reply |
| LoginPage.LoginStoresAdmittedToken | frontend/src/components/Login.jsx:48-57 | after a successful login the stored token opens the pages and passes the guard as a stored user |
| LoginPage.LoginForm.constructor | frontend/src/components/Login.jsx:7-15 | the form starts empty, in login mode, not loading, with no error |
| LoginPage.LoginForm.HandleInputChange | frontend/src/components/Login.jsx:19-25 | one field changes and nothing else |
| LoginPage.LoginForm.ToggleMode | frontend/src/components/Login.jsx:69-78 | the mode flips, and the form and error are cleared |
| LoginPage.LoginForm.BeginSubmit | frontend/src/components/Login.jsx:27-36 | clears the error, starts loading and yields the endpoint and payload of the current mode |
| LoginPage.LoginForm.FinishSubmit | frontend/src/components/Login.jsx:46-66 | success stores the token and user and marks the app authenticated; a refused reply shows its error; a failure shows the network message; loading always stops |
| ExpenseForm.InputChangesOneField | frontend/src/components/AddExpenses.jsx:29-35 | an input event changes the named field only |
| ExpenseForm.ValidationOrder | frontend/src/components/AddExpenses.jsx:41-56 | the form passes exactly when the title is not blank, the amount is positive, and a category and date are set; otherwise the first failing check's message is given |
| ExpenseForm.EmptyFormRejected | frontend/src/components/AddExpenses.jsx:17-22 | the initial form is refused for its missing title |
| AddExpensesPage.AddExpenses.constructor | frontend/src/components/AddExpenses.jsx:17-25 | the form starts empty with today's date, no messages, not loading |
| AddExpensesPage.AddExpenses.HandleInputChange | frontend/src/components/AddExpenses.jsx:29-35 | the form takes the input; nothing else changes |
| AddExpensesPage.AddExpenses.BeginSubmit | frontend/src/components/AddExpenses.jsx:37-70 | an invalid form shows its message and sends nothing; a valid one clears the error, starts loading and sends the form with a numeric amount |
| AddExpensesPage.AddExpenses.FinishSubmit | frontend/src/components/AddExpenses.jsx:72-93 | success shows the message and resets the form; a refused reply shows its error; a failure shows the generic error; loading always stops |
| EditExpensesPage.EditDateRoundTrip | frontend/src/components/EditExpenses.jsx:11-28 | a stored date string loads into the date input as text that reads back as that date, or as today's for an invalid one |
| EditExpensesPage.LoadsStoredExpense | frontend/src/components/EditExpenses.jsx:44-57 | fetching a stored expense fills the form with its title, amount, category and formatted date |
| EditExpensesPage.MissingExpenseMessage | frontend/src/components/EditExpenses.jsx:59 | a missing expense gets the backend 404 and shows "Failed to fetch expense" with the form unchanged |
| EditExpensesPage.EditExpenses.constructor | frontend/src/components/EditExpenses.jsx:30-39 | the form starts empty and loading, with the route's id |
| EditExpensesPage.EditExpenses.FinishFetch | frontend/src/components/EditExpenses.jsx:44-72 | the form and error are those of the fetch outcome, and loading stops |
| EditExpensesPage.EditExpenses.HandleInputChange | frontend/src/components/EditExpenses.jsx:74-80 | the form takes the input; nothing else changes |
| EditExpensesPage.EditExpenses.BeginSubmit | frontend/src/components/EditExpenses.jsx:82-104 | an invalid form shows its message; a valid one clears the error, starts submitting and sends the form with a numeric amount |
| EditExpensesPage.EditExpenses.FinishSubmit | frontend/src/components/EditExpenses.jsx:106-132 | success shows "updated"; a refused reply shows its error; a failure shows the generic error; submitting always stops |
| ExpensesView.Select | frontend/src/components/Expenses.jsx:59 | `filter` keeps exactly the items passing the test, never more items |
| ExpensesView.SelectAppend | frontend/src/components/Expenses.jsx:59 | filtering keeps the order: it distributes over concatenation |
| ExpensesView.SelectAll | frontend/src/components/Expenses.jsx:59 | a test every item passes keeps the whole list |
| ExpensesView.SelectNone | frontend/src/components/Expenses.jsx:59 | a test no item passes gives the empty list |
| ExpensesView.CategoriesPresent | frontend/src/components/Expenses.jsx:71 | a category is present exactly when some expense has it |
| ExpensesView.AddAmountLookup | frontend/src/components/Expenses.jsx:46-51 | one summary step adds the amount to that category, starting from 0, and leaves other keys alone |
| ExpensesView.AddAmountKeys | frontend/src/components/Expenses.jsx:46-51 | one summary step adds the category to the keys, keeps keys distinct and adds the amount to the sum |
| ExpensesView.SummaryShape | frontend/src/components/Expenses.jsx:44-53 | the summary's keys are exactly the categories present, each once, and its values sum to the total |
| ExpensesView.SummaryValues | frontend/src/components/Expenses.jsx:44-53 | each present category maps to the sum of its amounts, and any other key is absent |
| ExpensesView.CategoryTotalAbsent | frontend/src/components/Expenses.jsx:44-53 | an absent category totals 0 |
| ExpensesView.CategoryWiseSummary | frontend/src/components/Expenses.jsx:44-53 | the `forEach` loop computes the summary |
| ExpensesView.FilteredProperties | frontend/src/components/Expenses.jsx:58-65 | corrected date test: the filtered list keeps exactly the items matching every set criterion, in order; with no criteria it is the whole list |
| ExpensesView.FilteredAsWrittenProperties | frontend/src/components/Expenses.jsx:58-65 | as written, the filtered list keeps exactly the items passing the as-written test, distributes over concatenation, and equals the corrected one when no date is picked |
| ExpensesView.IncludesLower | frontend/src/components/Expenses.jsx:62 | a substring stays a substring after lower-casing both |
| ExpensesView.TitleMatchIgnoresCase | frontend/src/components/Expenses.jsx:62 | the title search ignores case, and a title containing the search as typed matches |
| ExpensesView.DateFilterHidesAll | frontend/src/components/Expenses.jsx:61 | as written, any picked date hides every expense |
| ExpensesView.DateFilterSelectsDay | frontend/src/components/Expenses.jsx:61 | corrected, a picked date keeps exactly the expenses on that day |
| ExpensesView.InsertSorted | frontend/src/components/Expenses.jsx:72 | inserting keeps a strictly sorted list sorted and adds exactly the new value |
| ExpensesView.UniqueCategories | frontend/src/components/Expenses.jsx:70-73 | the drop-down is strictly sorted by UTF-16 code units and lists exactly the categories present |
| ExpensesView.SortedNoDuplicates | frontend/src/components/Expenses.jsx:71-72 | a strictly sorted list has no repeats |
| ExpensesView.EmptyCollectionCrashes | frontend/src/components/Expenses.jsx:17-31 | as written, the empty collection's 404 body replaces the list and the total's `reduce` throws |
| ExpensesView.FetchedListFromServer | frontend/src/components/Expenses.jsx:17-31 | corrected, the page's list is the server's documents one for one, and empty for the empty collection |
| ExpensesView.RemainingProperties | frontend/src/components/Expenses.jsx:91-93 | after a delete the list keeps every other row in order, and is unchanged when no row had the id |
| ExpensesView.ExpensesPage.constructor | frontend/src/components/Expenses.jsx:9-13 | the page starts with an empty list, loading, no filters |
| ExpensesView.ExpensesPage.FinishFetch | frontend/src/components/Expenses.jsx:17-31 | the list becomes the fetched one (corrected) and loading stops on every path |
| ExpensesView.ExpensesPage.ClearFilters | frontend/src/components/Expenses.jsx:75-79 | the filters are cleared and the table shows every expense |
| ExpensesView.ExpensesPage.HandleDelete | frontend/src/components/Expenses.jsx:85-98 | a confirmed, successful delete removes that row; anything else keeps the list |
| ChartView.CategoryData | frontend/src/components/Chart.jsx:44-54 | the pie's labels and amounts are the keys and values of the category summary |
| ChartView.LabelsAreKeys | frontend/src/components/Chart.jsx:53 | a category is a pie label exactly when it is a key of the summary |
| ChartView.SumOfValues | frontend/src/components/Chart.jsx:54 | the amounts add up to the summary's total |
| ChartView.DistinctLabels | frontend/src/components/Chart.jsx:53 | the pie's labels are pairwise distinct |
| ChartView.PieSeries | frontend/src/components/Chart.jsx:41-54 | the pie labels are exactly the categories present, each once; each amount is its category's total; the amounts sum to the page total |
| ChartView.BarSeries | frontend/src/components/Chart.jsx:126-130 | the bars are the expenses one for one, and their heights sum to the total |
| ChartView.Component | frontend/src/components/Chart.jsx:58-60 | `Math.floor(Math.random() * 255)` lies in 0..254 |
| ChartView.Colours | frontend/src/components/Chart.jsx:57-69 | one colour per category, each component in 0..254 |

## Left out

- Password hashing and tokens are deterministic stand-ins, not bcrypt and JWT. The model keeps their contract (see above) but not the cryptography, the cost factor or token expiry (`7d`). A token therefore never expires in the model.
- Salts, the current date, `Date.now()` timestamps and `Math.random()` draws are parameters.
- FindByUsernameOrEmail, Login, LoginSuccess, RegisterDuplicate, RegisterThenLoginShadowed: MongoDB does not specify which document `findOne` returns when several match and no sort is given. With the unique indexes, the `$or` may run as two index scans and return the username clause's match first. The model resolves the choice as the first match in insertion order. When two different users match one request, the server may pick the other one. For register, that changes which duplicate message is sent. For login, it changes whose hash is checked and who is logged in.
- Persistence, network I/O and concurrency are left out: requests are handled one at a time. Two simultaneous registrations racing past `findOne` are not modelled.
- Mongoose is modelled as far as the routes use it:
  - the user schema's validators, trimming and lower-casing on save;
  - the same setters applied to the `findOne` filters, as Mongoose 5 and later cast queries. The Mongoose version is not among the source files; earlier versions, which compare the raw values, are not modelled;
  - `findById` with a malformed id, modelled as a cast error answered with 500.
  - `runValidators` on updates and other database errors are not modelled.
- JSON values the pages read are strings, integers and the shapes in `ClientJson.Json`. Other JSON values are not modelled.
- RegisterRefusal, RegisterValidation, RegisterDuplicate, LoginSuccess, LoginNoEnumeration: stated for string identifiers only. In `RegisterBody` and `LoginBody` the password may be any JSON or extended-urlencoded value (`BodyValue`), but `username`, `emailId` and `fullName` are strings or missing. A non-string identifier, such as a number, an array, or an object holding a query operator like `{"$ne": null}`, is cast or read as a filter by Mongoose; that is not modelled.
- Amounts are integers. `parseFloat`, floating-point sums and `toFixed` formatting are not modelled.
- ToLower, ToLowerIsLower, TitleMatchIgnoresCase: `toLowerCase` covers ASCII letters only. JavaScript's Unicode case mapping is not modelled. That mapping can also change the length: U+0130 lower-cases to two code units, so "keeps the length" does not hold for it. `sort` compares UTF-16 code units, as JavaScript does.
- `toLocaleDateString('en-IN')` is modelled only as a day/month/year text with slashes. Negative years and the exact locale format are not modelled.
- LoadsStoredExpense and FieldsOf read a stored date as the calendar date it was entered as. Time zones are not modelled: west of UTC, `new Date` on the stored UTC-midnight value gives the previous local day, so the edit form would show (and save back) the day before.
- ParseDate and ValidDate accept only four-digit years (1000 to 9999 for a formatted date) and any day from 1 to 31 in every month. Other years, `new Date`'s other accepted text forms, and the roll-over of a day such as 31 April are not modelled.
- FieldsOf and ItemOf require every listed or edited document to carry all four fields. The add route stores any body, and what the pages show for a document missing a field is not modelled.
- `navigate`, `setTimeout`, `console` logging and `window.confirm` are left out. The user's answer to the confirm prompt is a parameter.
- The `storage` event listener in `App.jsx` is modelled by `AppShell.App.SyncWithStorage`, called explicitly.
- The `PUT` route calls `res.redirect` after `res.json` (expenseRoutes.js:64-65). Once a reply was sent, setting the `Location` header throws ERR_HTTP_HEADERS_SENT. The catch then calls `res.status(500).json`, which throws the same error again when it sets `Content-Type` (expenseRoutes.js:66-68). Under Express 4 nothing catches the handler's rejected promise, and Node 15 or later ends the process on an unhandled rejection. Only the JSON reply is modelled; the error after it and the process exit are not.
- The expense schema's `exp_id` field is not modelled.
- The HTML constraint attributes of the login form are not modelled: `required` (Login.jsx:115, 133, 169), `minLength={6}` (Login.jsx:170) and `type='email'` (Login.jsx:126). Each stops the browser from running `handleSubmit`. So the empty fields of EmptyFieldRefused, a password under 6 characters, and a malformed e-mail reach the backend only in a request sent directly, not from the page.
- `Object.keys` and `Object.values` order integer-like keys first. The model keeps insertion order for every key.
- The Chart page fetches the list with the same code as the Expenses page. That fetch is modelled once, on the Expenses page, and the Chart page is modelled as functions of the list.
- Chart.js rendering and canvas handling are not modelled, beyond `ChartView.DrawsChart`, the early-return guard.
- `GET /add-expense` never answers. The model gives it no response and leaves the collection unchanged.
- Header, Footer and the backend `app.js` wiring are not part of this model.
- HashAcceptsExactly: bcryptjs appends a NUL byte to the key and repeats the key to fill 72 bytes, so a password containing a NUL character can share its key with a shorter one ("a\u0000a" and "a"). The model keys on the UTF-8 bytes alone, and passwords containing NUL are not modelled.
- ShortPasswordsExact: stated for every password below 72 bytes, which holds of bcrypt only for passwords without a NUL character (see the line above).
- HashIsNotPlaintext states only that a hash differs from its password. A real bcrypt hash also has a fixed length of 60, which the stand-in does not have.
- AddAmountLookup: treats the `{}` summary as a plain map, so a category named after an `Object.prototype` member starts from 0. In JavaScript "constructor" starts from the inherited function and yields a string. Such categories are not modelled.
- AddAmountKeys: a "__proto__" category is added as a key here, while JavaScript ignores the assignment. Such categories are not modelled.
- SummaryShape: the keys are exactly the categories present only when no category is an `Object.prototype` member name.
- SummaryValues: the value of a category named "constructor" is a string in JavaScript, not its total.
- CategoryWiseSummary: proved equal to `Summarize`, so it shares the two limits above.
- PieSeries: the pie labels and amounts inherit the same limits for `Object.prototype` member names.
- BcryptKey: the key is the first 72 bytes of the UTF-8 encoding; the NUL terminator and the key repetition of bcryptjs are not modelled.

## Findings

| source | as written | input that shows it | evidently intended | confidence | as-written member | corrected member |
|---|---|---|---|---|---|---|
| frontend/src/components/Expenses.jsx:17-31 | the list page stores whatever the list request's body parsed to; with an empty collection the backend answers 404 with an object, so `expenses.reduce` throws at render (Chart.jsx:278 shares the code) | an empty expense collection | a non-array reply is treated as an empty list and the empty state is shown | not executed | ExpensesView.EmptyCollectionCrashes | ExpensesView.FetchedListFromServer |
| backend/routes/authRoutes.js:73-91 | a truthy password that is not a string passes the presence check; it is compared only when a user is found, and then bcrypt's `compare` rejects it and the catch answers 500, while an unknown user gets 401 | `{"username": "alice", "password": 1}` with and without a stored user "alice" | a failed login answers the same whether or not the identifier exists | not executed | AuthRoutes.NonStringPasswordRevealsAccount | AuthRoutes.CheckedLoginNoEnumeration |
| frontend/src/components/Expenses.jsx:61 | the date filter compares `toLocaleDateString('en-IN')` (day/month/year with slashes) with the date input's `yyyy-MM-dd` value | any expense and any picked date | a picked date keeps the expenses on that day | not executed | ExpensesView.DateFilterHidesAll | ExpensesView.DateFilterSelectsDay |
