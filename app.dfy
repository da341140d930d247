/**
 * frontend/src/App.jsx: the router shell. It keeps `isAuthenticated` in step with the
 * stored token, guards the expense pages with `ProtectedRoute`, and picks where `/`
 * leads.
 */
module AppShell {
  import opened Wrappers
  import opened JsStrings
  import opened ClientJson
  import opened Api

  /** `!!localStorage.getItem('token')`. */
  predicate HasToken(storage: map<string, string>) {
    Truthy(GetItem(storage, "token"))
  }

  datatype RouteView = RedirectToLogin | RenderPage

  /** `ProtectedRoute`: it reads the storage itself, not `isAuthenticated`. */
  function ProtectedRoute(storage: map<string, string>): RouteView {
    if HasToken(storage) then RenderPage else RedirectToLogin
  }

  /** The `/` route. */
  function DefaultRedirect(isAuthenticated: bool): string {
    if isAuthenticated then "/expenses/view-expense" else "/login"
  }

  /**
   * A 401 from any authenticated call logs the browser out: the protected pages then
   * redirect to the login page, and a remounted shell is signed out and sends `/`
   * there too. Any other reply leaves the protected pages as they were.
   */
  lemma UnauthorizedLogsOut(storage: map<string, string>, reply: ServerReply)
    ensures reply.Answered? && reply.status == 401 ==>
              && ProtectedRoute(storage - {"token", "user"}) == RedirectToLogin
              && DefaultRedirect(HasToken(storage - {"token", "user"})) == "/login"
    ensures !(reply.Answered? && reply.status == 401) ==> FetchOutcome(reply) != Undefined
  {
  }

  /** A stored non-empty token opens the protected pages, and the `Authorization` header carries it. */
  lemma StoredTokenOpensPages(storage: map<string, string>, token: string)
    requires token != ""
    ensures ProtectedRoute(storage["token" := token]) == RenderPage
    ensures AuthHeaders(storage["token" := token])["Authorization"] == "Bearer " + token
  {
  }

  class App {
    const browser: Browser
    var isAuthenticated: bool

    constructor (browser: Browser)
      ensures this.browser == browser && !isAuthenticated
    {
      this.browser := browser;
      isAuthenticated := false;
    }

    /** The mount effect, and the `storage` listener it installs: both re-read the token. */
    method SyncWithStorage()
      modifies this
      ensures isAuthenticated == HasToken(browser.storage)
    {
      isAuthenticated := HasToken(browser.storage);
    }

    /** `handleLogin`. */
    method HandleLogin()
      modifies this
      ensures isAuthenticated
    {
      isAuthenticated := true;
    }

    /** `handleLogout`: the token and the user are removed and the shell is signed out. */
    method HandleLogout()
      modifies this, browser
      ensures browser.storage == old(browser.storage) - {"token", "user"}
      ensures browser.location == old(browser.location)
      ensures !isAuthenticated && ProtectedRoute(browser.storage) == RedirectToLogin
    {
      browser.storage := browser.storage - {"token"};
      browser.storage := browser.storage - {"user"};
      isAuthenticated := false;
    }
  }
}
