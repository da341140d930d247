/**
 * frontend/src/lib/api.js: the request headers every authenticated call carries,
 * and `authenticatedFetch`, which logs the user out when the backend answers 401.
 */
module Api {
  import opened Wrappers
  import opened JsStrings
  import opened Mongo
  import opened Http
  import opened AuthMiddleware
  import opened ClientJson
  import opened ExpenseSchema
  import ExpenseRoutes

  /** `localStorage.getItem(key)`: `None` for `null`. */
  function GetItem(storage: map<string, string>, key: string): Option<string> {
    if key in storage then Some(storage[key]) else None
  }

  /** `getAuthHeaders()`: always a JSON content type; a bearer token only when a non-empty one is stored. */
  function AuthHeaders(storage: map<string, string>): map<string, string> {
    var base := map["Content-Type" := "application/json"];
    var token := GetItem(storage, "token");
    if Truthy(token) then base["Authorization" := "Bearer " + token.value] else base
  }

  lemma AuthHeadersShape(storage: map<string, string>)
    ensures var h := AuthHeaders(storage);
            && "Content-Type" in h && h["Content-Type"] == "application/json"
            && ("Authorization" in h <==> "token" in storage && storage["token"] != "")
            && ("Authorization" in h ==> h["Authorization"] == "Bearer " + storage["token"])
            && h.Keys <= {"Content-Type", "Authorization"}
  {
  }

  /** The options `authenticatedFetch` passes on: the caller's, with the headers merged so that the caller's own headers win. */
  /** `verb` is the `method` option. */
  datatype RequestOptions = RequestOptions(verb: string, body: Option<string>, headers: map<string, string>)

  function MergedOptions(storage: map<string, string>, options: RequestOptions): RequestOptions {
    options.(headers := AuthHeaders(storage) + options.headers)
  }

  lemma MergedOptionsShape(storage: map<string, string>, options: RequestOptions)
    ensures var merged := MergedOptions(storage, options);
            && merged.verb == options.verb && merged.body == options.body
            && merged.headers.Keys == AuthHeaders(storage).Keys + options.headers.Keys
            && (forall k :: k in options.headers ==> merged.headers[k] == options.headers[k])
            && (forall k :: k in AuthHeaders(storage) && k !in options.headers ==> merged.headers[k] == AuthHeaders(storage)[k])
  {
  }

  /** What `authenticatedFetch` resolves to: the response, `undefined` after a 401, or a rejection when `fetch` rejects. */
  datatype FetchResult = Threw | Undefined | Returned(status: int, data: Json)

  function FetchOutcome(reply: ServerReply): FetchResult {
    match reply
    case NetworkFailure => Threw
    case Answered(status, data) => if status == 401 then Undefined else Returned(status, data)
  }

  /** A 401 reply is the only one that resolves to `undefined`; every other reply comes back unchanged. */
  lemma FetchOutcomeCases(reply: ServerReply)
    ensures FetchOutcome(reply) == Undefined <==> reply.Answered? && reply.status == 401
    ensures FetchOutcome(reply) == Threw <==> reply.NetworkFailure?
    ensures reply.Answered? && reply.status != 401 ==> FetchOutcome(reply) == Returned(reply.status, reply.data)
  {
  }

  /** The browser state the frontend touches: `localStorage` and `window.location.href`. */
  class Browser {
    var storage: map<string, string>
    var location: string

    constructor (storage: map<string, string>, location: string)
      ensures this.storage == storage && this.location == location
    {
      this.storage := storage;
      this.location := location;
    }

    /**
     * `authenticatedFetch(url, options)` once `fetch` has produced `reply`: a 401 clears
     * the token and the user and sends the browser to the login page.
     */
    method AuthenticatedFetch(reply: ServerReply) returns (result: FetchResult)
      modifies this
      ensures result == FetchOutcome(reply)
      ensures reply.Answered? && reply.status == 401 ==>
                storage == old(storage) - {"token", "user"} && location == "/login"
      ensures !(reply.Answered? && reply.status == 401) ==>
                storage == old(storage) && location == old(location)
    {
      if reply.NetworkFailure? {
        return Threw;
      }
      if reply.status == 401 {
        storage := storage - {"token"};
        storage := storage - {"user"};
        location := "/login";
        return Undefined;
      }
      result := Returned(reply.status, reply.data);
    }
  }

  /** `Authorization` header parsing inverts header building: the stored token reaches the guard unchanged when it has no space. */
  lemma HeaderCarriesToken(storage: map<string, string>)
    requires "token" in storage && storage["token"] != "" && ' ' !in storage["token"]
    ensures BearerToken(Some(AuthHeaders(storage)["Authorization"])) == Some(storage["token"])
  {
    var t := storage["token"];
    assert AuthHeaders(storage)["Authorization"] == "Bearer" + [' '] + t;
    SplitAfter("Bearer", ' ', t);
    SplitWhole(t, ' ');
  }

  /** A token issued by the backend and stored by the login page passes the guard as the user it was issued to. */
  lemma StoredTokenAdmitted(storage: map<string, string>, userId: ObjectId, secret: string)
    requires "token" in storage && storage["token"] == GenerateToken(userId, secret)
    ensures Authenticate(Some(AuthHeaders(storage)["Authorization"]), secret) == Next(userId)
  {
    TokenHasNoSpace(userId, secret);
    HeaderCarriesToken(storage);
    VerifyGenerated(userId, secret);
  }

  /** The `Authorization` header as the backend reads it from a request carrying `headers`. */
  function AuthorizationOf(headers: map<string, string>): Option<string> {
    if "Authorization" in headers then Some(headers["Authorization"]) else None
  }

  /**
   * Without a stored token, a call to any guarded backend route is answered 401
   * "Access token required" and changes no expense; `authenticatedFetch` then resolves
   * to `undefined`, the step after which the browser is logged out.
   */
  lemma MissingTokenLogsOut(storage: map<string, string>, docs: seq<Document>, newId: ObjectId,
                            route: ExpenseRoutes.Route, secret: string, data: Json)
    requires !Truthy(GetItem(storage, "token"))
    requires ExpenseRoutes.Guarded(route)
    ensures AuthorizationOf(AuthHeaders(storage)) == None
    ensures ExpenseRoutes.Dispatch(docs, newId, route, AuthorizationOf(AuthHeaders(storage)), secret)
            == ExpenseRoutes.Served(Some(TokenRequired), docs)
    ensures FetchOutcome(Answered(TokenRequired.status, data)) == Undefined
  {
    AuthHeadersShape(storage);
  }

  /**
   * A stored token that does not verify is answered 403 on every guarded route, which
   * `authenticatedFetch` hands back unchanged: the browser stays logged in.
   */
  lemma RejectedTokenKeepsSession(storage: map<string, string>, docs: seq<Document>, newId: ObjectId,
                                  route: ExpenseRoutes.Route, secret: string, data: Json)
    requires Truthy(GetItem(storage, "token")) && ' ' !in storage["token"]
    requires VerifyToken(storage["token"], secret).None?
    requires ExpenseRoutes.Guarded(route)
    ensures ExpenseRoutes.Dispatch(docs, newId, route, AuthorizationOf(AuthHeaders(storage)), secret)
            == ExpenseRoutes.Served(Some(TokenRejected), docs)
    ensures FetchOutcome(Answered(TokenRejected.status, data)) == Returned(403, data)
  {
    HeaderCarriesToken(storage);
  }
}
