/**
 * backend/routes/authRoutes.js: `/register`, `/login`, `/me` and `/logout` over the
 * users collection.
 *
 * The store is a sequence in insertion order. MongoDB leaves unspecified which document
 * `findOne` returns when several match; the model resolves that choice as the first
 * match in insertion order.
 * Mongoose (version 5 on) runs a query filter's values through the setters of the
 * paths they are compared with, so the duplicate check and the login lookup compare
 * the trimmed username and the trimmed, lower-cased email with the stored documents,
 * which went through the same setters. The duplicate message, however, compares the
 * stored username with the RAW request value.
 */
module AuthRoutes {
  import opened Wrappers
  import opened JsStrings
  import opened Mongo
  import opened Http
  import opened UserSchema
  import opened AuthMiddleware

  /**
   * A password field as the body parsers deliver it: a string, or any other value
   * (`express.json()` gives numbers, booleans, `null`, arrays and objects; the extended
   * urlencoded parser gives arrays and objects). Of another value the handlers use only
   * its truthiness and whether `value.length < 6` holds (true for an array of fewer than
   * six elements, false for a number, whose `.length` is `undefined`).
   */
  datatype BodyValue = Text(text: string) | NonText(truthy: bool, short: bool)

  /** `!!value` for a body field that may be missing. */
  predicate TruthyValue(v: Option<BodyValue>) {
    v.Some? && match v.value case Text(s) => s != "" case NonText(truthy, _) => truthy
  }

  /** `password.length < 6`: UTF-16 code units for a string. */
  predicate TooShort(v: BodyValue) {
    match v
    case Text(s) => JsLength(s) < MinPasswordLength
    case NonText(_, short) => short
  }

  /** The JSON fields `/register` reads; a missing field is `None`. */
  datatype RegisterBody = RegisterBody(
    username: Option<string>, emailId: Option<string>, password: Option<BodyValue>, fullName: Option<string>)

  /** The JSON fields `/login` reads: `username` holds a username or an email. */
  datatype LoginBody = LoginBody(username: Option<string>, password: Option<BodyValue>)

  const MissingFields := Response(400, ErrorBody("Username, email, and password are required", None))
  const PasswordTooShort := Response(400, ErrorBody("Password must be at least 6 characters long", None))
  const UsernameTaken := Response(400, ErrorBody("Username already exists", None))
  const EmailTaken := Response(400, ErrorBody("Email already exists", None))
  const LoginFieldsMissing := Response(400, ErrorBody("Username and password are required", None))
  const InvalidCredentials := Response(401, ErrorBody("Invalid username or password", None))
  const UserNotFound := Response(404, ErrorBody("User not found", None))
  const LoggedOut := Response(200, MessageBody(true, "Logged out successfully"))

  /** `User.findOne({ $or: [{ username }, { emailId }] })` on already cast values: the first stored user matching either. */
  function FindByUsernameOrEmail(users: seq<User>, username: string, emailId: string): Option<User> {
    if users == [] then None
    else if users[0].username == username || users[0].emailId == emailId then Some(users[0])
    else FindByUsernameOrEmail(users[1..], username, emailId)
  }

  /** The lookup finds a stored user matching either value, and finds none exactly when no stored user matches. */
  lemma {:induction false} FindByUsernameOrEmailFinds(users: seq<User>, username: string, emailId: string)
    ensures var found := FindByUsernameOrEmail(users, username, emailId);
            found.Some? ==> found.value in users && (found.value.username == username || found.value.emailId == emailId)
    ensures FindByUsernameOrEmail(users, username, emailId).None?
            <==> forall i :: 0 <= i < |users| ==> users[i].username != username && users[i].emailId != emailId
  {
    if users != [] && users[0].username != username && users[0].emailId != emailId {
      FindByUsernameOrEmailFinds(users[1..], username, emailId);
      assert forall i :: 1 <= i < |users| ==> users[i] == users[1..][i - 1];
    }
  }

  // ---------------------------------------------------------------- /register

  datatype RegisterResult = RegisterResult(response: Response, users: seq<User>)

  /** The document `/register` builds: `fullName` falls back to the username when falsy. */
  function RegisteredUser(body: RegisterBody, newId: ObjectId, salt: char, now: int): User
    requires Truthy(body.username) && Truthy(body.emailId) && body.password.Some? && body.password.value.Text?
  {
    var username := body.username.value;
    NewUser(newId, username, body.emailId.value, HashPassword(body.password.value.text, salt),
            Some(if Truthy(body.fullName) then body.fullName.value else username), now)
  }

  /**
   * The early returns of `/register`, in order: a missing field, a password shorter than
   * six UTF-16 code units, then a stored user with the username or the email. `None` means the handler goes on to
   * hash the password, then build and save the document.
   */
  function RegisterRefusal(users: seq<User>, body: RegisterBody): (refusal: Option<Response>)
    ensures refusal.None? ==> Truthy(body.username) && Truthy(body.emailId) && TruthyValue(body.password)
                              && !TooShort(body.password.value)
    ensures refusal.None? && body.password.value.Text? ==> JsLength(body.password.value.text) >= MinPasswordLength
  {
    if !Truthy(body.username) || !Truthy(body.emailId) || !TruthyValue(body.password) then Some(MissingFields)
    else if TooShort(body.password.value) then Some(PasswordTooShort)
    else
      match FindByUsernameOrEmail(users, CastUsername(body.username.value), CastEmail(body.emailId.value))
      case Some(existing) => Some(if existing.username == body.username.value then UsernameTaken else EmailTaken)
      case None => None
  }

  /**
   * What `/register` answers and what the users collection holds afterwards, for a
   * new document id `newId`, the salt bcrypt draws, the clock `now` and the secret.
   */
  function RegisterOutcome(users: seq<User>, newId: ObjectId, body: RegisterBody, salt: char, now: int, secret: string)
    : RegisterResult
  {
    match RegisterRefusal(users, body)
    case Some(refusal) => RegisterResult(refusal, users)
    case None =>
      // bcrypt's hash rejects anything but a string ("Illegal arguments"), and the catch answers 500
      if body.password.value.NonText? then RegisterResult(InternalError, users)
      else
        var u := RegisteredUser(body, newId, salt, now);
        if !PassesValidators(u) || Collides(users, u) then RegisterResult(InternalError, users)
        else RegisterResult(Response(201, AuthBody("User registered successfully", GenerateToken(newId, secret), Public(u))),
                            users + [u])
  }

  /** The four ways `/register` ends: an early return, a rejected hash, a failed `save()`, or a saved document. */
  lemma RegisterSteps(users: seq<User>, newId: ObjectId, body: RegisterBody, salt: char, now: int, secret: string)
    ensures var refusal := RegisterRefusal(users, body);
            refusal.Some? ==> RegisterOutcome(users, newId, body, salt, now, secret) == RegisterResult(refusal.value, users)
    ensures RegisterRefusal(users, body).None? && body.password.value.NonText? ==>
              RegisterOutcome(users, newId, body, salt, now, secret) == RegisterResult(InternalError, users)
    ensures RegisterRefusal(users, body).None? && body.password.value.Text? ==>
              var u := RegisteredUser(body, newId, salt, now);
              RegisterOutcome(users, newId, body, salt, now, secret)
              == if !PassesValidators(u) || Collides(users, u) then RegisterResult(InternalError, users)
                 else RegisterResult(Response(201, AuthBody("User registered successfully", GenerateToken(newId, secret), Public(u))),
                                     users + [u])
  {
  }

  /** Input checks come first and in order: a missing field, then a short password; neither touches the store. */
  lemma RegisterValidation(users: seq<User>, newId: ObjectId, body: RegisterBody, salt: char, now: int, secret: string)
    ensures !Truthy(body.username) || !Truthy(body.emailId) || !TruthyValue(body.password)
            ==> RegisterOutcome(users, newId, body, salt, now, secret) == RegisterResult(MissingFields, users)
    ensures Truthy(body.username) && Truthy(body.emailId) && TruthyValue(body.password)
            ==> (RegisterOutcome(users, newId, body, salt, now, secret) == RegisterResult(PasswordTooShort, users)
                 <==> TooShort(body.password.value))
    ensures Truthy(body.username) && Truthy(body.emailId) && TruthyValue(body.password) && body.password.value.Text?
            ==> (RegisterOutcome(users, newId, body, salt, now, secret) == RegisterResult(PasswordTooShort, users)
                 <==> JsLength(body.password.value.text) < MinPasswordLength)
  {
  }

  /**
   * A password that is not a string and passes the length test (a number, `true`, an
   * object, a long array) gets past validation; unless the duplicate check answers
   * first, bcrypt rejects it and the answer is 500. Nothing is stored.
   */
  lemma RegisterNonStringPassword(users: seq<User>, newId: ObjectId, body: RegisterBody, salt: char, now: int, secret: string)
    requires Truthy(body.username) && Truthy(body.emailId) && TruthyValue(body.password)
    requires body.password.value.NonText? && !TooShort(body.password.value)
    ensures var r := RegisterOutcome(users, newId, body, salt, now, secret);
            && r.users == users
            && (FindByUsernameOrEmail(users, CastUsername(body.username.value), CastEmail(body.emailId.value)).None?
                ==> r.response == InternalError)
            && (FindByUsernameOrEmail(users, CastUsername(body.username.value), CastEmail(body.emailId.value)).Some?
                ==> r.response in {UsernameTaken, EmailTaken})
  {
  }

  /**
   * When some stored user has the (set) username or email, the answer is 400 and the
   * store is unchanged; the message names the username exactly when the user found has
   * the username exactly as sent.
   */
  lemma RegisterDuplicate(users: seq<User>, newId: ObjectId, body: RegisterBody, salt: char, now: int, secret: string)
    requires Truthy(body.username) && Truthy(body.emailId) && TruthyValue(body.password)
    requires !TooShort(body.password.value)
    requires FindByUsernameOrEmail(users, CastUsername(body.username.value), CastEmail(body.emailId.value)).Some?
    ensures var existing := FindByUsernameOrEmail(users, CastUsername(body.username.value), CastEmail(body.emailId.value)).value;
            RegisterOutcome(users, newId, body, salt, now, secret)
            == RegisterResult(if existing.username == body.username.value then UsernameTaken else EmailTaken, users)
    ensures RegisterOutcome(users, newId, body, salt, now, secret).response.status == 400
  {
  }

  /**
   * A username that differs from a stored one only by surrounding white space is found
   * by the duplicate check, but the message compares the raw value and reports the
   * email as taken.
   */
  lemma PaddedUsernameReportedAsEmail(users: seq<User>, newId: ObjectId, body: RegisterBody, salt: char, now: int, secret: string)
    requires Truthy(body.username) && Truthy(body.emailId) && TruthyValue(body.password)
    requires !TooShort(body.password.value)
    requires users != [] && users[0].username == CastUsername(body.username.value) != body.username.value
    ensures RegisterOutcome(users, newId, body, salt, now, secret) == RegisterResult(EmailTaken, users)
  {
  }

  /**
   * Once the duplicate check has passed, the built document collides with no stored one
   * when its id is fresh: the check compares the same set values the document stores.
   * So `save()` can fail only on a validator.
   */
  lemma RegisterSaveCollidesNever(users: seq<User>, newId: ObjectId, body: RegisterBody, salt: char, now: int)
    requires IdsBelow(users, newId)
    requires RegisterRefusal(users, body).None? && body.password.value.Text?
    ensures !Collides(users, RegisteredUser(body, newId, salt, now))
  {
    FindByUsernameOrEmailFinds(users, CastUsername(body.username.value), CastEmail(body.emailId.value));
  }

  /**
   * A 201 answer adds exactly one document: its password is the bcrypt hash (never the
   * plaintext, and accepted for the plaintext), its fullName is the trimmed
   * `fullName || username`, the token verifies to its id and the answer projects it.
   * Every other answer leaves the store as it was.
   */
  lemma RegisterSuccess(users: seq<User>, newId: ObjectId, body: RegisterBody, salt: char, now: int, secret: string)
    ensures var r := RegisterOutcome(users, newId, body, salt, now, secret);
            r.response.status != 201 ==> r.users == users
    ensures var r := RegisterOutcome(users, newId, body, salt, now, secret);
            r.response.status == 201 ==>
              && Truthy(body.username) && Truthy(body.emailId) && TruthyValue(body.password) && body.password.value.Text?
              && |r.users| == |users| + 1 && r.users[..|users|] == users
              && var u := r.users[|users|];
                 && u.id == newId
                 && u.password == HashPassword(body.password.value.text, salt)
                 && u.password != body.password.value.text
                 && ComparePassword(body.password.value.text, u.password)
                 && u.fullName == Some(Trim(if Truthy(body.fullName) then body.fullName.value else body.username.value))
                 && r.response.body.AuthBody?
                 && VerifyToken(r.response.body.token, secret) == Some(u.id)
                 && r.response.body.user == Public(u)
  {
    var r := RegisterOutcome(users, newId, body, salt, now, secret);
    if r.response.status == 201 {
      RegisterCreated(users, newId, body, salt, now, secret);
      var u := RegisteredUser(body, newId, salt, now);
      assert r.users == users + [u];
      assert r.response.body == AuthBody("User registered successfully", GenerateToken(newId, secret), Public(u));
      var password := body.password.value.text;
      HashIsNotPlaintext(password, salt);
      HashThenCompare(password, salt);
      VerifyGenerated(newId, secret);
      assert r.users[..|users|] == users && r.users[|users|] == u;
    } else {
      RegisterRejectedUnchanged(users, newId, body, salt, now, secret);
    }
  }

  /** `/register` keeps the store invariant (validators, setters, unique indexes) when the new id is fresh. */
  lemma RegisterKeepsInvariant(users: seq<User>, newId: ObjectId, body: RegisterBody, salt: char, now: int, secret: string)
    requires StoreInvariant(users)
    ensures StoreInvariant(RegisterOutcome(users, newId, body, salt, now, secret).users)
  {
    if RegisterOutcome(users, newId, body, salt, now, secret).response.status == 201 {
      RegisterCreated(users, newId, body, salt, now, secret);
      NewUserNormalised(newId, body.username.value, body.emailId.value, HashPassword(body.password.value.text, salt),
                        Some(if Truthy(body.fullName) then body.fullName.value else body.username.value), now);
      InsertKeepsInvariant(users, RegisteredUser(body, newId, salt, now));
    } else {
      RegisterRejectedUnchanged(users, newId, body, salt, now, secret);
    }
  }

  /** Every answer but 201 leaves the store as it was. */
  lemma RegisterRejectedUnchanged(users: seq<User>, newId: ObjectId, body: RegisterBody, salt: char, now: int, secret: string)
    ensures var r := RegisterOutcome(users, newId, body, salt, now, secret);
            r.response.status != 201 ==> r.users == users
  {
  }

  // ---------------------------------------------------------------- /login

  /** What `/login` answers; it only reads the store. */
  function Login(users: seq<User>, body: LoginBody, secret: string): Response {
    if !Truthy(body.username) || !TruthyValue(body.password) then LoginFieldsMissing
    else
      var name := body.username.value;
      match FindByUsernameOrEmail(users, CastUsername(name), CastEmail(name))
      case None => InvalidCredentials
      case Some(u) =>
        match body.password.value
        // bcrypt's compare rejects anything but a string, and the catch answers 500
        case NonText(_, _) => InternalError
        case Text(password) =>
          if !ComparePassword(password, u.password) then InvalidCredentials
          else Response(200, AuthBody("Login successful", GenerateToken(u.id, secret), Public(u)))
  }

  /**
   * For a string password, an unknown identifier and a wrong password get the very same
   * answer. A password of another type is compared only once a user is found, and that
   * comparison fails with 500: the answer then tells whether the identifier exists.
   */
  lemma LoginNoEnumeration(users: seq<User>, body: LoginBody, secret: string)
    requires Truthy(body.username) && TruthyValue(body.password)
    ensures var name := body.username.value;
            FindByUsernameOrEmail(users, CastUsername(name), CastEmail(name)).None?
            ==> Login(users, body, secret) == InvalidCredentials
    ensures var name := body.username.value;
            var found := FindByUsernameOrEmail(users, CastUsername(name), CastEmail(name));
            found.Some? && body.password.value.Text? && !ComparePassword(body.password.value.text, found.value.password)
            ==> Login(users, body, secret) == InvalidCredentials
    ensures var name := body.username.value;
            var found := FindByUsernameOrEmail(users, CastUsername(name), CastEmail(name));
            found.Some? && body.password.value.NonText?
            ==> Login(users, body, secret) == InternalError
  {
  }

  /**
   * The account-enumeration leak: with a truthy password that is not a string (say
   * `{"username": "alice", "password": 1}`), a store holding the named user answers 500
   * and a store without it answers 401.
   */
  lemma NonStringPasswordRevealsAccount(u: User, body: LoginBody, secret: string)
    requires Truthy(body.username) && u.username == CastUsername(body.username.value)
    requires TruthyValue(body.password) && body.password.value.NonText?
    ensures Login([u], body, secret) == InternalError
    ensures Login([], body, secret) == InvalidCredentials
    ensures Login([u], body, secret) != Login([], body, secret)
  {
  }

  /**
   * `/login` with the evidently intended type check in front: a password that is not a
   * string is answered like a wrong one, before any lookup.
   */
  function CheckedLogin(users: seq<User>, body: LoginBody, secret: string): Response {
    if Truthy(body.username) && TruthyValue(body.password) && body.password.value.NonText? then InvalidCredentials
    else Login(users, body, secret)
  }

  /**
   * With the type check, a failed login says nothing about the store: for every body, two
   * stores in which it fails give the same answer. Where the password is a string (all
   * the login page ever sends), the checked route answers as the route as written.
   */
  lemma CheckedLoginNoEnumeration(users: seq<User>, others: seq<User>, body: LoginBody, secret: string)
    ensures CheckedLogin(users, body, secret).status != 200 && CheckedLogin(others, body, secret).status != 200
            ==> CheckedLogin(users, body, secret) == CheckedLogin(others, body, secret)
    ensures CheckedLogin(users, body, secret).status != 200
            ==> CheckedLogin(users, body, secret) in {LoginFieldsMissing, InvalidCredentials}
    ensures body.password.None? || body.password.value.Text?
            ==> CheckedLogin(users, body, secret) == Login(users, body, secret)
  {
    FailedLoginAnswers(users, body, secret);
    FailedLoginAnswers(others, body, secret);
  }

  /** The answers `/login` fails with: 500 only for a password that is not a string. */
  lemma FailedLoginAnswers(users: seq<User>, body: LoginBody, secret: string)
    ensures Login(users, body, secret).status != 200
            ==> Login(users, body, secret) in {LoginFieldsMissing, InvalidCredentials, InternalError}
    ensures Login(users, body, secret) == InternalError
            ==> Truthy(body.username) && TruthyValue(body.password) && body.password.value.NonText?
  {
  }

  /**
   * Login succeeds exactly when the identifier, trimmed (and lower-cased when read as an
   * email), names a stored user whose hash accepts the password; the token then
   * verifies to that user's id.
   */
  lemma LoginSuccess(users: seq<User>, body: LoginBody, secret: string)
    ensures Login(users, body, secret).status == 200 <==>
            && Truthy(body.username) && TruthyValue(body.password) && body.password.value.Text?
            && var found := FindByUsernameOrEmail(users, CastUsername(body.username.value), CastEmail(body.username.value));
               found.Some? && ComparePassword(body.password.value.text, found.value.password)
    ensures var r := Login(users, body, secret);
            r.status == 200 ==>
              && r.body.AuthBody?
              && exists u :: u in users && r.body.user == Public(u) && VerifyToken(r.body.token, secret) == Some(u.id)
                             && (u.username == CastUsername(body.username.value) || u.emailId == CastEmail(body.username.value))
  {
    var r := Login(users, body, secret);
    if r.status == 200 {
      var name := body.username.value;
      FindByUsernameOrEmailFinds(users, CastUsername(name), CastEmail(name));
      var u := FindByUsernameOrEmail(users, CastUsername(name), CastEmail(name)).value;
      VerifyGenerated(u.id, secret);
      assert u in users && r.body.user == Public(u);
    }
  }

  /**
   * Registering and then logging in with the same username and the same password
   * succeeds with a token for the new id, provided no earlier user has that username,
   * read as an email, as their email.
   */
  lemma RegisterThenLogin(users: seq<User>, newId: ObjectId, body: RegisterBody, salt: char, now: int, secret: string)
    requires RegisterOutcome(users, newId, body, salt, now, secret).response.status == 201
    requires forall i :: 0 <= i < |users| ==> users[i].emailId != CastEmail(body.username.value)
    ensures var after := RegisterOutcome(users, newId, body, salt, now, secret).users;
            var r := Login(after, LoginBody(body.username, body.password), secret);
            r.status == 200 && r.body.AuthBody? && VerifyToken(r.body.token, secret) == Some(newId)
  {
    RegisterCreated(users, newId, body, salt, now, secret);
    var u := RegisteredUser(body, newId, salt, now);
    var name := body.username.value;
    FirstMatchAfter(users, u, CastUsername(name), CastEmail(name));
    HashThenCompare(body.password.value.text, salt);
    LoginAccepts(users + [u], u, body.username, body.password.value.text, secret);
  }

  /**
   * The other case: when an earlier user's email is the new username (the duplicate check
   * compares usernames with usernames and emails with emails only, so both register),
   * the login lookup finds that earlier user first. The new user's password is then
   * checked against the earlier user's hash: 401 unless it happens to match, and on a
   * match the earlier user is logged in.
   */
  lemma RegisterThenLoginShadowed(users: seq<User>, newId: ObjectId, body: RegisterBody, password: string, salt: char, now: int,
                                  secret: string, k: nat)
    requires RegisterOutcome(users, newId, body, salt, now, secret).response.status == 201
    requires body.password == Some(Text(password))  // a 201 implies a string password; this names it
    requires k < |users| && users[k].emailId == CastEmail(body.username.value)
    ensures var name := body.username.value;
            var after := RegisterOutcome(users, newId, body, salt, now, secret).users;
            var found := FindByUsernameOrEmail(after, CastUsername(name), CastEmail(name));
            && found.Some? && found.value in users && found.value.emailId == CastEmail(name)
            && var r := Login(after, LoginBody(body.username, body.password), secret);
               && (!ComparePassword(password, found.value.password) ==> r == InvalidCredentials)
               && (ComparePassword(password, found.value.password)
                   ==> r == Response(200, AuthBody("Login successful", GenerateToken(found.value.id, secret), Public(found.value))))
  {
    RegisterCreated(users, newId, body, salt, now, secret);
    var name := body.username.value;
    var u := RegisteredUser(body, newId, salt, now);
    var after := users + [u];
    assert RegisterOutcome(users, newId, body, salt, now, secret).users == after;
    FindByUsernameOrEmailFinds(users, CastUsername(name), CastEmail(name));
    assert users[k].username != CastUsername(name);
    var w := FindByUsernameOrEmail(users, CastUsername(name), CastEmail(name)).value;
    assert w.emailId == CastEmail(name) by {
      var i :| 0 <= i < |users| && users[i] == w;
      assert users[i].username != CastUsername(name);
    }
    FirstMatchKept(users, u, CastUsername(name), CastEmail(name));
    LoginFinds(after, w, body.username, password, secret);
  }

  /** Once the lookup lands on `w`, the login answer depends only on `w`'s hash. */
  lemma LoginFinds(users: seq<User>, w: User, username: Option<string>, password: string, secret: string)
    requires Truthy(username) && password != ""
    requires FindByUsernameOrEmail(users, CastUsername(username.value), CastEmail(username.value)) == Some(w)
    ensures var r := Login(users, LoginBody(username, Some(Text(password))), secret);
            && (!ComparePassword(password, w.password) ==> r == InvalidCredentials)
            && (ComparePassword(password, w.password)
                ==> r == Response(200, AuthBody("Login successful", GenerateToken(w.id, secret), Public(w))))
  {
    var body := LoginBody(username, Some(Text(password)));
    assert Truthy(body.username) && TruthyValue(body.password);
  }

  /** Appending a document does not change a search that already succeeds. */
  lemma {:induction false} FirstMatchKept(users: seq<User>, u: User, username: string, emailId: string)
    requires FindByUsernameOrEmail(users, username, emailId).Some?
    ensures FindByUsernameOrEmail(users + [u], username, emailId) == FindByUsernameOrEmail(users, username, emailId)
  {
    if users[0].username != username && users[0].emailId != emailId {
      assert (users + [u])[1..] == users[1..] + [u];
      FirstMatchKept(users[1..], u, username, emailId);
    }
  }

  /** The 201 branch of `/register`, spelled out. */
  lemma RegisterCreated(users: seq<User>, newId: ObjectId, body: RegisterBody, salt: char, now: int, secret: string)
    requires RegisterOutcome(users, newId, body, salt, now, secret).response.status == 201
    ensures Truthy(body.username) && Truthy(body.emailId) && TruthyValue(body.password) && body.password.value.Text?
    ensures forall i :: 0 <= i < |users| ==>
              users[i].username != CastUsername(body.username.value) && users[i].emailId != CastEmail(body.emailId.value)
    ensures var u := RegisteredUser(body, newId, salt, now);
            && u.username == CastUsername(body.username.value)
            && u.password == HashPassword(body.password.value.text, salt)
            && u.id == newId
            && PassesValidators(u) && !Collides(users, u)
            && RegisterOutcome(users, newId, body, salt, now, secret)
               == RegisterResult(Response(201, AuthBody("User registered successfully", GenerateToken(newId, secret), Public(u))),
                                 users + [u])
  {
    FindByUsernameOrEmailFinds(users, CastUsername(body.username.value), CastEmail(body.emailId.value));
  }

  /** `/register` either leaves the store as it was or appends one document carrying the new id. */
  lemma RegisterAppendsAtMostOne(users: seq<User>, newId: ObjectId, body: RegisterBody, salt: char, now: int, secret: string)
    ensures var r := RegisterOutcome(users, newId, body, salt, now, secret);
            r.users == users || (|r.users| == |users| + 1 && r.users == users + [r.users[|users|]] && r.users[|users|].id == newId)
  {
    if RegisterOutcome(users, newId, body, salt, now, secret).response.status == 201 {
      RegisterCreated(users, newId, body, salt, now, secret);
    } else {
      RegisterRejectedUnchanged(users, newId, body, salt, now, secret);
    }
  }

  /** Every id in the store is below `bound`. */
  predicate IdsBelow(users: seq<User>, bound: int) {
    forall i :: 0 <= i < |users| ==> users[i].id < bound
  }

  lemma IdsBelowAppend(users: seq<User>, u: User, bound: int)
    requires IdsBelow(users, bound) && u.id < bound
    ensures IdsBelow(users + [u], bound)
  {
    forall i | 0 <= i < |users + [u]|
      ensures (users + [u])[i].id < bound
    {
      if i < |users| { assert (users + [u])[i] == users[i]; }
    }
  }

  /** `/register` keeps the stored ids below the next fresh id, which advances by one when a user is created. */
  lemma RegisterKeepsIdsFresh(users: seq<User>, newId: ObjectId, body: RegisterBody, salt: char, now: int, secret: string)
    requires IdsBelow(users, newId)
    ensures IdsBelow(RegisterOutcome(users, newId, body, salt, now, secret).users, newId + 1)
  {
    var r := RegisterOutcome(users, newId, body, salt, now, secret).users;
    RegisterAppendsAtMostOne(users, newId, body, salt, now, secret);
    assert IdsBelow(users, newId + 1);
    if r != users {
      IdsBelowAppend(users, r[|users|], newId + 1);
    }
  }

  /** A lookup that lands on `u` with a password its hash accepts logs `u` in. */
  lemma LoginAccepts(users: seq<User>, u: User, username: Option<string>, password: string, secret: string)
    requires Truthy(username) && password != ""
    requires FindByUsernameOrEmail(users, CastUsername(username.value), CastEmail(username.value)) == Some(u)
    requires ComparePassword(password, u.password)
    ensures var r := Login(users, LoginBody(username, Some(Text(password))), secret);
            r.status == 200 && r.body.AuthBody? && VerifyToken(r.body.token, secret) == Some(u.id)
  {
    VerifyGenerated(u.id, secret);
  }

  /** A search that misses the old store finds the appended document when it matches. */
  lemma {:induction false} FirstMatchAfter(users: seq<User>, u: User, username: string, emailId: string)
    requires forall i :: 0 <= i < |users| ==> users[i].username != username && users[i].emailId != emailId
    requires u.username == username
    ensures FindByUsernameOrEmail(users + [u], username, emailId) == Some(u)
  {
    if users != [] {
      assert (users + [u])[1..] == users[1..] + [u];
      FirstMatchAfter(users[1..], u, username, emailId);
    }
  }

  // ---------------------------------------------------------------- /me and /logout

  /** The `/me` handler once the guard has attached `userId`. */
  function Me(users: seq<User>, userId: ObjectId): (r: Response)
    ensures r == UserNotFound <==> FindById(users, UserId, userId).None?
    ensures r != UserNotFound ==> exists u :: u in users && u.id == userId && r == Response(200, ProfileBody(Public(u), u.createdAt))
  {
    match FindById(users, UserId, userId)
    case None => UserNotFound
    case Some(u) => Response(200, ProfileBody(Public(u), u.createdAt))
  }

  /** `GET /me` behind `authenticateToken`. */
  function MeRoute(users: seq<User>, header: Option<string>, secret: string): Response {
    match Authenticate(header, secret)
    case Rejected(r) => r
    case Next(id) => Me(users, id)
  }

  /** `POST /logout` behind `authenticateToken`: it answers 200 for every request the guard lets through. */
  function LogoutRoute(header: Option<string>, secret: string): (r: Response)
    ensures Authenticate(header, secret).Next? ==> r == LoggedOut
    ensures Authenticate(header, secret).Rejected? ==> r == Authenticate(header, secret).response && r.status in {401, 403}
  {
    match Authenticate(header, secret)
    case Rejected(r) => r
    case Next(_) => LoggedOut
  }

  /** The token `/register` hands out, sent back as `Bearer <token>`, reaches `/me` and returns the new user's profile. */
  lemma RegisterThenMe(users: seq<User>, newId: ObjectId, body: RegisterBody, salt: char, now: int, secret: string)
    requires forall i :: 0 <= i < |users| ==> users[i].id != newId
    requires RegisterOutcome(users, newId, body, salt, now, secret).response.status == 201
    ensures var r := RegisterOutcome(users, newId, body, salt, now, secret);
            && |r.users| == |users| + 1 && r.response.body.AuthBody?
            && var u := r.users[|users|];
               MeRoute(r.users, Some("Bearer " + r.response.body.token), secret)
               == Response(200, ProfileBody(Public(u), u.createdAt))
  {
    RegisterCreated(users, newId, body, salt, now, secret);
    MeAfterAppend(users, RegisteredUser(body, newId, salt, now), secret);
  }

  lemma MeAfterAppend(users: seq<User>, u: User, secret: string)
    requires forall i :: 0 <= i < |users| ==> users[i].id != u.id
    ensures MeRoute(users + [u], Some("Bearer " + GenerateToken(u.id, secret)), secret)
            == Response(200, ProfileBody(Public(u), (users + [u])[|users|].createdAt))
  {
    FindByIdAppended(users, UserId, u);
    MeWithToken(users + [u], u, secret);
    assert (users + [u])[|users|] == u;
  }

  /** A token generated for a stored user's id, sent as `Bearer <token>`, returns that user's profile. */
  lemma MeWithToken(users: seq<User>, u: User, secret: string)
    requires FindById(users, UserId, u.id) == Some(u)
    ensures MeRoute(users, Some("Bearer " + GenerateToken(u.id, secret)), secret)
            == Response(200, ProfileBody(Public(u), u.createdAt))
  {
    var t := GenerateToken(u.id, secret);
    GeneratedTokenAdmitted("Bearer", u.id, secret);
    assert "Bearer " + t == "Bearer" + " " + t;
    assert Authenticate(Some("Bearer " + t), secret) == Next(u.id);
  }

  // ---------------------------------------------------------------- the collection

  /** The users collection, with the next fresh `_id`. */
  class UserStore {
    var users: seq<User>
    var nextId: ObjectId

    ghost predicate Valid()
      reads this
    {
      StoreInvariant(users) && IdsBelow(users, nextId)
    }

    constructor ()
      ensures Valid() && users == []
    {
      users := [];
      nextId := 0;
    }

    /** `POST /register`: the early returns, then the document built with the hashed password and `save()`. */
    method Register(body: RegisterBody, salt: char, now: int, secret: string) returns (response: Response)
      requires Valid()
      modifies this
      ensures Valid()
      ensures RegisterResult(response, users) == RegisterOutcome(old(users), old(nextId), body, salt, now, secret)
      ensures nextId == old(nextId) + (if response.status == 201 then 1 else 0)
    {
      var refusal := RegisterRefusal(users, body);
      if refusal.Some? || body.password.value.NonText? {
        // an early return, or hashPassword rejecting a non-string (the handler's catch answers 500)
        RegisterSteps(users, nextId, body, salt, now, secret);
        response := if refusal.Some? then refusal.value else InternalError;
        return;
      }
      response := Create(body, salt, now, secret);
    }

    /** The rest of `POST /register` once the checks have passed: hash, build the document, `save()`, answer 201. */
    method Create(body: RegisterBody, salt: char, now: int, secret: string) returns (response: Response)
      requires Valid() && RegisterRefusal(users, body).None? && body.password.value.Text?
      modifies this
      ensures Valid()
      ensures RegisterResult(response, users) == RegisterOutcome(old(users), old(nextId), body, salt, now, secret)
      ensures nextId == old(nextId) + (if response.status == 201 then 1 else 0)
    {
      RegisterSteps(users, nextId, body, salt, now, secret);
      var newUser := RegisteredUser(body, nextId, salt, now);
      NewUserNormalised(nextId, body.username.value, body.emailId.value, HashPassword(body.password.value.text, salt),
                        Some(if Truthy(body.fullName) then body.fullName.value else body.username.value), now);
      var saved := Save(newUser);
      if !saved {
        // save() threw a validation or duplicate-key error; the handler's catch answers 500
        return InternalError;
      }
      response := Response(201, AuthBody("User registered successfully", GenerateToken(newUser.id, secret), Public(newUser)));
    }

    /**
     * `user.save()` for a document built with the next id: it throws (nothing is
     * stored) when a validator fails or a unique index would be violated, and inserts
     * the document otherwise.
     */
    method Save(u: User) returns (saved: bool)
      requires Valid() && u.id == nextId && (PassesValidators(u) ==> WellFormed(u))
      modifies this
      ensures Valid()
      ensures saved <==> PassesValidators(u) && !Collides(old(users), u)
      ensures saved ==> users == old(users) + [u] && nextId == old(nextId) + 1
      ensures !saved ==> users == old(users) && nextId == old(nextId)
    {
      if !PassesValidators(u) || Collides(users, u) {
        return false;
      }
      InsertKeepsInvariant(users, u);
      IdsBelowAppend(users, u, nextId + 1);
      users := users + [u];
      nextId := nextId + 1;
      saved := true;
    }

    /** `GET /me`: the guard runs first; the handler answers only if `next()` was called. */
    method HandleMe(ex: Exchange, secret: string)
      requires ex.response.None? && ex.nextCalls == 0
      modifies ex
      ensures ex.response == Some(MeRoute(users, ex.authorization, secret))
    {
      ex.AuthenticateToken(secret);
      if ex.nextCalls > 0 {
        ex.response := Some(Me(users, ex.userId.value));
      }
    }

    /** `POST /logout`. */
    method HandleLogout(ex: Exchange, secret: string)
      requires ex.response.None? && ex.nextCalls == 0
      modifies ex
      ensures ex.response == Some(LogoutRoute(ex.authorization, secret))
    {
      ex.AuthenticateToken(secret);
      if ex.nextCalls > 0 {
        ex.response := Some(LoggedOut);
      }
    }
  }
}
