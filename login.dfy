/**
 * frontend/src/components/Login.jsx: one form for signing in and signing up. The mode
 * decides the endpoint and the JSON sent; a successful reply stores the token and the
 * user and tells the shell.
 */
module LoginPage {
  import opened Wrappers
  import opened JsStrings
  import opened Mongo
  import opened Http
  import opened UserSchema
  import opened AuthMiddleware
  import opened AuthRoutes
  import opened ClientJson
  import opened Api
  import opened AppShell

  datatype Credentials = Credentials(username: string, emailId: string, password: string, fullName: string)

  const EmptyCredentials := Credentials("", "", "", "")

  datatype CredentialInput =
    UsernameInput(text: string) | EmailInput(text: string) | PasswordInput(text: string) | FullNameInput(text: string)

  /** `handleInputChange`. */
  function WithCredential(form: Credentials, input: CredentialInput): Credentials {
    match input
    case UsernameInput(t) => form.(username := t)
    case EmailInput(t) => form.(emailId := t)
    case PasswordInput(t) => form.(password := t)
    case FullNameInput(t) => form.(fullName := t)
  }

  /** What is posted: the login body carries only the username and the password, the register body the whole form. */
  datatype AuthRequest = LoginRequest(login: LoginBody) | RegisterRequest(register: RegisterBody)

  function Endpoint(isLogin: bool): string {
    if isLogin then "/login" else "/register"
  }

  function RequestFor(isLogin: bool, form: Credentials): AuthRequest {
    if isLogin then LoginRequest(LoginBody(Some(form.username), Some(Text(form.password))))
    else RegisterRequest(RegisterBody(Some(form.username), Some(form.emailId), Some(Text(form.password)), Some(form.fullName)))
  }

  /** The endpoint and the request agree with the mode; neither the email nor the full name leaves the page when signing in. */
  lemma RequestMatchesMode(isLogin: bool, form: Credentials, other: Credentials)
    ensures Endpoint(isLogin) == "/login" <==> RequestFor(isLogin, form).LoginRequest?
    ensures isLogin && form.username == other.username && form.password == other.password
            ==> RequestFor(isLogin, form) == RequestFor(isLogin, other)
    ensures !isLogin ==> RequestFor(isLogin, form).register
                         == RegisterBody(Some(form.username), Some(form.emailId), Some(Text(form.password)), Some(form.fullName))
  {
  }

  /** An empty field reaches the backend as a falsy value and is refused with 400 before any lookup. */
  lemma EmptyFieldRefused(users: seq<User>, form: Credentials, secret: string)
    requires form.username == "" || form.password == ""
    ensures Login(users, RequestFor(true, form).login, secret) == LoginFieldsMissing
  {
  }

  /** `data.token` and `data.user` (the latter as its JSON text); `undefined` for anything but an object. */
  function TokenOf(data: Json): Option<string> {
    if data.Object? then data.token else None
  }

  function UserOf(data: Json): Option<string> {
    if data.Object? then data.user else None
  }

  /** `localStorage.setItem` of both values: a missing one is stored as the text "undefined". */
  function StoredAfterAuth(storage: map<string, string>, data: Json): map<string, string> {
    storage["token" := StoredText(TokenOf(data))]["user" := StoredText(UserOf(data))]
  }

  /** The stored token is `data.token` as `setItem` writes it. */
  lemma StoredToken(storage: map<string, string>, data: Json)
    ensures "token" in StoredAfterAuth(storage, data)
    ensures StoredAfterAuth(storage, data)["token"] == StoredText(TokenOf(data))
  {
    assert |"token"| != |"user"|;
  }

  /**
   * After a successful backend login the stored token opens the protected pages and
   * passes the guard as the user who logged in.
   */
  lemma LoginStoresAdmittedToken(users: seq<User>, body: LoginBody, secret: string, data: Json, storage: map<string, string>)
    requires Login(users, body, secret).status == 200
    requires Decodes(Login(users, body, secret).body, data)
    ensures var stored := StoredAfterAuth(storage, data);
            && ProtectedRoute(stored) == RenderPage
            && exists u :: u in users && Authenticate(Some(AuthHeaders(stored)["Authorization"]), secret) == Next(u.id)
  {
    LoginSuccess(users, body, secret);
    var r := Login(users, body, secret);
    var token := r.body.token;
    assert TokenOf(data) == Some(token);
    var u :| u in users && VerifyToken(token, secret) == Some(u.id);
    VerifyExactlyGenerated(token, secret, u.id);
    TokenHasNoSpace(u.id, secret);
    var stored := StoredAfterAuth(storage, data);
    StoredToken(storage, data);
    StoredTokenAdmitted(stored, u.id, secret);
  }

  class LoginForm {
    var isLogin: bool
    var form: Credentials
    var loading: bool
    var error: string

    constructor ()
      ensures isLogin && form == EmptyCredentials && !loading && error == ""
    {
      isLogin := true;
      form := EmptyCredentials;
      loading := false;
      error := "";
    }

    method HandleInputChange(input: CredentialInput)
      modifies this
      ensures form == WithCredential(old(form), input)
      ensures isLogin == old(isLogin) && loading == old(loading) && error == old(error)
    {
      form := WithCredential(form, input);
    }

    /** `toggleMode`: the other mode, no error, an empty form. */
    method ToggleMode()
      modifies this
      ensures isLogin == !old(isLogin) && error == "" && form == EmptyCredentials && loading == old(loading)
    {
      isLogin := !isLogin;
      error := "";
      form := EmptyCredentials;
    }

    /** `handleSubmit` up to the request: no checks on this page; the endpoint and body follow the mode. */
    method BeginSubmit() returns (endpoint: string, request: AuthRequest)
      modifies this
      ensures error == "" && loading && isLogin == old(isLogin) && form == old(form)
      ensures endpoint == Endpoint(isLogin) && request == RequestFor(isLogin, form)
    {
      error := "";
      loading := true;
      endpoint := Endpoint(isLogin);
      request := RequestFor(isLogin, form);
    }

    /**
     * `handleSubmit` after the request: an ok reply stores the token and the user and
     * signs the shell in; otherwise the server's error, or the network message when
     * the request or `json()` rejected. Loading ends on every path.
     */
    method FinishSubmit(reply: ServerReply, browser: Browser, app: App?)
      modifies this, browser, app
      ensures !loading && isLogin == old(isLogin) && form == old(form)
      ensures browser.location == old(browser.location)
      ensures reply.Answered? && !reply.data.NotJson? && Ok(reply.status) ==>
                && browser.storage == StoredAfterAuth(old(browser.storage), reply.data)
                && error == old(error)
                && (app != null ==> app.isAuthenticated)
      ensures reply.Answered? && !reply.data.NotJson? && !Ok(reply.status) ==>
                && error == ErrorText(reply.data, "Authentication failed")
                && browser.storage == old(browser.storage)
                && (app != null ==> app.isAuthenticated == old(app.isAuthenticated))
      ensures !(reply.Answered? && !reply.data.NotJson?) ==>
                && error == "Network error. Please try again."
                && browser.storage == old(browser.storage)
                && (app != null ==> app.isAuthenticated == old(app.isAuthenticated))
    {
      if !(reply.Answered? && !reply.data.NotJson?) {
        error := "Network error. Please try again.";
      } else if Ok(reply.status) {
        browser.storage := browser.storage["token" := StoredText(TokenOf(reply.data))];
        browser.storage := browser.storage["user" := StoredText(UserOf(reply.data))];
        if app != null {
          app.HandleLogin();
        }
      } else {
        error := ErrorText(reply.data, "Authentication failed");
      }
      loading := false;
    }
  }
}
