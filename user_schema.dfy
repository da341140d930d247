/**
 * backend/model/userSchema.js: the user document, the setters Mongoose applies when a
 * document is built (trim, lowercase), the validators `save()` runs (required,
 * minlength, maxlength), the unique indexes, and the timestamps.
 */
module UserSchema {
  import opened Wrappers
  import opened JsStrings
  import opened Mongo
  import opened Http

  const MinUsernameLength := 3
  const MaxUsernameLength := 30
  const MinPasswordLength := 6

  datatype User = User(
    id: ObjectId,
    username: string,
    emailId: string,
    password: string,          // the stored (hashed) password
    fullName: Option<string>,
    createdAt: int,
    updatedAt: int)

  function UserId(u: User): ObjectId {
    u.id
  }

  /**
   * The setters of the `username` path (trim) and of the `emailId` path (trim, then
   * lower-case). Mongoose applies them when a document is built and, since version 5,
   * to the values a query filter compares with those paths.
   */
  function CastUsername(s: string): string {
    Trim(s)
  }

  function CastEmail(s: string): string {
    ToLower(Trim(s))
  }

  /** Setting an already set value changes nothing, and a set value is in the normal form documents keep. */
  lemma CastsAreNormal(s: string)
    ensures IsTrimmed(CastUsername(s)) && CastUsername(CastUsername(s)) == CastUsername(s)
    ensures IsTrimmed(CastEmail(s)) && IsLowerCase(CastEmail(s)) && CastEmail(CastEmail(s)) == CastEmail(s)
  {
    TrimIdempotent(s);
    var t := Trim(s);
    LowerKeepsTrimmed(t);
    ToLowerIsLower(t);
    TrimmedIsFixed(ToLower(t));
  }

  /** `new User({...})` at time `now`: the setters trim every string field and lower-case the email. */
  function NewUser(id: ObjectId, username: string, emailId: string, password: string,
                   fullName: Option<string>, now: int): User
  {
    User(id, CastUsername(username), CastEmail(emailId), password,
         if fullName.Some? then Some(Trim(fullName.value)) else None, now, now)
  }

  /**
   * The validators `save()` runs: required (non-empty) fields and the length bounds,
   * which count UTF-16 code units as JavaScript's `length` does.
   */
  predicate PassesValidators(u: User) {
    && u.username != "" && MinUsernameLength <= JsLength(u.username) <= MaxUsernameLength
    && u.emailId != ""
    && u.password != "" && JsLength(u.password) >= MinPasswordLength
  }

  /** Every stored document: validated, with its setters applied and its timestamps in order. */
  predicate WellFormed(u: User) {
    && PassesValidators(u)
    && IsTrimmed(u.username)
    && IsTrimmed(u.emailId) && IsLowerCase(u.emailId)
    && (u.fullName.Some? ==> IsTrimmed(u.fullName.value))
    && u.createdAt <= u.updatedAt
  }

  /** The unique indexes on `username` and `emailId`, and distinct `_id`s. */
  predicate Distinct(users: seq<User>) {
    forall i, j :: 0 <= i < j < |users| ==>
      users[i].id != users[j].id && users[i].username != users[j].username && users[i].emailId != users[j].emailId
  }

  predicate StoreInvariant(users: seq<User>) {
    (forall i :: 0 <= i < |users| ==> WellFormed(users[i])) && Distinct(users)
  }

  /** Whether inserting `u` would violate one of the unique indexes. */
  predicate Collides(users: seq<User>, u: User) {
    exists i :: 0 <= i < |users| && (users[i].id == u.id || users[i].username == u.username || users[i].emailId == u.emailId)
  }

  /** The projection the routes answer with. */
  function Public(u: User): (p: PublicUser)
    ensures p.id == u.id && p.username == u.username && p.emailId == u.emailId && p.fullName == u.fullName
  {
    PublicUser(u.id, u.username, u.emailId, u.fullName)
  }

  /** Lower-casing changes no white space, so a trimmed string stays trimmed. */
  lemma LowerKeepsTrimmed(s: string)
    requires IsTrimmed(s)
    ensures IsTrimmed(ToLower(s))
  {
    if s != "" {
      assert ToLower(s)[0] == LowerChar(s[0]);
      assert ToLower(s)[|s| - 1] == LowerChar(s[|s| - 1]);
    }
  }

  /** A trimmed string has nothing left to trim. */
  lemma TrimmedIsFixed(s: string)
    requires IsTrimmed(s)
    ensures Trim(s) == s
  {
  }

  /** The setters leave nothing for the validators' normal form to fix: a built document is well formed exactly when it passes the validators. */
  lemma NewUserNormalised(id: ObjectId, username: string, emailId: string, password: string,
                          fullName: Option<string>, now: int)
    ensures WellFormed(NewUser(id, username, emailId, password, fullName, now))
        <==> PassesValidators(NewUser(id, username, emailId, password, fullName, now))
  {
    var u := NewUser(id, username, emailId, password, fullName, now);
    var t := Trim(emailId);
    assert u.emailId == ToLower(t);
    LowerKeepsTrimmed(t);
    ToLowerIsLower(t);
    assert IsTrimmed(u.username);
    assert u.fullName.Some? ==> IsTrimmed(u.fullName.value);
    assert u.createdAt <= u.updatedAt;
  }

  /** Inserting a well-formed document that collides with nothing keeps the store invariant. */
  lemma InsertKeepsInvariant(users: seq<User>, u: User)
    requires StoreInvariant(users) && WellFormed(u) && !Collides(users, u)
    ensures StoreInvariant(users + [u])
  {
    var s := users + [u];
    forall i | 0 <= i < |s|
      ensures WellFormed(s[i])
    {
      if i < |users| { assert s[i] == users[i]; }
    }
    forall i, j | 0 <= i < j < |s|
      ensures s[i].id != s[j].id && s[i].username != s[j].username && s[i].emailId != s[j].emailId
    {
      assert s[i] == users[i];
      if j == |users| {
        assert s[j] == u;
        assert !(users[i].id == u.id || users[i].username == u.username || users[i].emailId == u.emailId);
      } else {
        assert s[j] == users[j];
      }
    }
  }
}
