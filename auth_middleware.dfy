/**
 * backend/middleware/auth.js: the signing secret, the password hasher, the token
 * signer and verifier, and the two guards `authenticateToken` and `optionalAuth`.
 *
 * bcrypt and jsonwebtoken are libraries; they are modelled by deterministic,
 * non-cryptographic stand-ins that keep the properties the routes rely on: a hash
 * carries its salt, is never the plaintext and is accepted by the comparison for
 * exactly the passwords that share the first 72 bytes of UTF-8 with the one it was
 * made from; a token verifies, under the same secret, to exactly the user id it was
 * signed for, and contains no space.
 */
module AuthMiddleware {
  import opened Wrappers
  import opened JsStrings
  import opened Mongo
  import opened Http

  const DefaultSecret := "your-secret-key-change-in-production"

  /** `JWT_SECRET`: the environment's value when it is set and non-empty, the built-in default otherwise. */
  function JwtSecret(env: Option<string>): (secret: string)
    ensures secret != ""
    ensures Truthy(env) ==> secret == env.value
    ensures !Truthy(env) ==> secret == DefaultSecret
  {
    if Truthy(env) then env.value else DefaultSecret
  }

  // ---------------------------------------------------------------- passwords (bcrypt stand-in)

  /** Hashes made with 10 salt rounds announce the algorithm and the cost in their first seven characters. */
  const HashPrefix := "$2a$10$"

  /** bcrypt reads at most this many bytes of the password. */
  const KeyLimit := 72

  /** The bytes bcrypt hashes: the password's UTF-8, cut off after 72 bytes. */
  function BcryptKey(password: string): (key: seq<Byte>)
    ensures |key| <= KeyLimit && |key| <= |Utf8(password)|
    ensures key == Utf8(password)[..|key|]
    ensures |key| == KeyLimit || key == Utf8(password)
  {
    var bytes := Utf8(password);
    if |bytes| <= KeyLimit then bytes else bytes[..KeyLimit]
  }

  /** Numbering of byte strings in base 256 behind a leading 1. */
  function Code(bytes: seq<Byte>): (c: nat)
    ensures c >= 1
  {
    if bytes == [] then 1 else Code(bytes[..|bytes| - 1]) * 0x100 + bytes[|bytes| - 1]
  }

  lemma {:induction false} CodeInjective(a: seq<Byte>, b: seq<Byte>)
    requires Code(a) == Code(b)
    ensures a == b
    decreases |a|
  {
    if a != [] && b != [] {
      var a', b' := a[..|a| - 1], b[..|b| - 1];
      CodeInjective(a', b');
      assert a == a' + [a[|a| - 1]] && b == b' + [b[|b| - 1]];
    }
  }

  /** Where the check character of a hash with this salt sits among the hash's UTF-8 bytes. */
  function CheckOffset(salt: char): nat {
    |HashPrefix| + |Utf8Char(salt)|
  }

  /**
   * A character chosen to differ from the key's byte at the check offset. It is what
   * makes a stored hash provably differ from the password it was made from, which
   * real bcrypt gives with overwhelming probability only.
   */
  function CheckChar(key: seq<Byte>, salt: char): char {
    if CheckOffset(salt) < |key| && key[CheckOffset(salt)] == '1' as int then '2' else '1'
  }

  /** `hashPassword(password)` with the salt bcrypt would draw at random. */
  function HashPassword(password: string, salt: char): string {
    var key := BcryptKey(password);
    HashPrefix + [salt, CheckChar(key, salt)] + Digits(Code(key))
  }

  /** `comparePassword(plain, hashed)`: re-hash with the salt stored in `hashed` and compare. */
  predicate ComparePassword(plain: string, hashed: string) {
    |hashed| > |HashPrefix| && hashed == HashPassword(plain, hashed[|HashPrefix|])
  }

  /** A password is accepted by its own hash, whatever the salt. */
  lemma HashThenCompare(password: string, salt: char)
    ensures ComparePassword(password, HashPassword(password, salt))
  {
    assert HashPassword(password, salt)[|HashPrefix|] == salt;
  }

  /** A hash accepts exactly the passwords whose first 72 UTF-8 bytes are those of the one it was made from. */
  lemma HashAcceptsExactly(password: string, other: string, salt: char)
    ensures ComparePassword(other, HashPassword(password, salt)) <==> BcryptKey(other) == BcryptKey(password)
  {
    var h := HashPassword(password, salt);
    HashThenCompare(password, salt);
    if ComparePassword(other, h) {
      assert h[|HashPrefix|] == salt;
      var h' := HashPassword(other, salt);
      assert h[9..] == Digits(Code(BcryptKey(password)));
      assert h'[9..] == Digits(Code(BcryptKey(other)));
      DigitsInjective(Code(BcryptKey(password)), Code(BcryptKey(other)));
      CodeInjective(BcryptKey(password), BcryptKey(other));
    }
  }

  /** A password shorter than 72 bytes is accepted by its hash and by no other password. */
  lemma ShortPasswordsExact(password: string, other: string, salt: char)
    requires |Utf8(password)| < KeyLimit
    ensures ComparePassword(other, HashPassword(password, salt)) <==> other == password
  {
    HashAcceptsExactly(password, other, salt);
    if BcryptKey(other) == BcryptKey(password) {
      Utf8Injective(other, password);
    }
  }

  /** Whatever follows the first 72 bytes of a password is ignored. */
  lemma LongPasswordPrefix(password: string, extra: string, salt: char)
    requires |Utf8(password)| >= KeyLimit
    ensures ComparePassword(password + extra, HashPassword(password, salt))
  {
    Utf8Append(password, extra);
    assert BcryptKey(password + extra) == Utf8(password)[..KeyLimit] == BcryptKey(password);
    HashAcceptsExactly(password, password + extra, salt);
  }

  /** Hashing the same password with two salts gives two different stored values. */
  lemma SaltsDiffer(password: string, salt1: char, salt2: char)
    requires salt1 != salt2
    ensures HashPassword(password, salt1) != HashPassword(password, salt2)
  {
    assert HashPassword(password, salt1)[7] == salt1;
    assert HashPassword(password, salt2)[7] == salt2;
  }

  /** The stored hash is never the plaintext. */
  lemma HashIsNotPlaintext(password: string, salt: char)
    ensures HashPassword(password, salt) != password
  {
    var key := BcryptKey(password);
    var c := CheckChar(key, salt);
    var h := HashPassword(password, salt);
    var k := CheckOffset(salt);
    var head, tail := HashPrefix + [salt], [c] + Digits(Code(key));
    assert h == head + tail;
    Utf8Append(head, tail);
    Utf8Append(HashPrefix, [salt]);
    AsciiUtf8Length(HashPrefix);
    assert Utf8([salt]) == Utf8Char(salt);
    assert |Utf8(head)| == k;
    assert Utf8(tail)[0] == c as int;
    assert k < |BcryptKey(h)| && BcryptKey(h)[k] == c as int;
    assert k < |key| ==> key[k] != c as int;
  }

  // ---------------------------------------------------------------- tokens (jsonwebtoken stand-in)

  /** The base64url JSON header of an HS256 token. */
  const TokenHeader := "eyJhbGciOiJIUzI1NiIsInR5cCI6IkpXVCJ9"

  /** The signature over the payload `{ userId }` with the secret. */
  function Signature(userId: ObjectId, secret: string): nat {
    (Code(Utf8(secret)) * 31 + userId) % 1_000_000_007
  }

  /** `generateToken(userId)`: header, payload and signature, separated by dots. */
  function GenerateToken(userId: ObjectId, secret: string): string {
    TokenHeader + "." + Digits(userId) + "." + Digits(Signature(userId, secret))
  }

  /** `jwt.verify(token, secret)`: the decoded `userId`, or `None` for any error. */
  function VerifyToken(token: string, secret: string): Option<ObjectId> {
    var parts := Split(token, '.');
    if |parts| == 3 && parts[0] == TokenHeader then
      match ParseNat(parts[1])
      case Some(id) => if token == GenerateToken(id, secret) then Some(id) else None
      case None => None
    else None
  }

  lemma TokenFields(userId: ObjectId, secret: string)
    ensures Split(GenerateToken(userId, secret), '.')
         == [TokenHeader, Digits(userId), Digits(Signature(userId, secret))]
  {
    var id, sig := Digits(userId), Digits(Signature(userId, secret));
    assert '.' !in TokenHeader;
    DigitsAreDigits(userId);
    DigitsAreDigits(Signature(userId, secret));
    NonDigitAbsent(id, '.');
    NonDigitAbsent(sig, '.');
    SplitThree(TokenHeader, id, sig, '.');
    assert GenerateToken(userId, secret) == TokenHeader + ['.'] + id + ['.'] + sig;
  }

  /** A token verifies, under its own secret, to the id it was generated for. */
  lemma VerifyGenerated(userId: ObjectId, secret: string)
    ensures VerifyToken(GenerateToken(userId, secret), secret) == Some(userId)
  {
    TokenFields(userId, secret);
    ParseDigits(userId);
  }

  /** A token verifies to an id exactly when it is the token generated for that id. */
  lemma VerifyExactlyGenerated(token: string, secret: string, userId: ObjectId)
    ensures VerifyToken(token, secret) == Some(userId) <==> token == GenerateToken(userId, secret)
  {
    if token == GenerateToken(userId, secret) {
      VerifyGenerated(userId, secret);
    }
  }

  /** Generated tokens are non-empty and contain no space, so they survive a `Bearer <token>` header. */
  lemma TokenHasNoSpace(userId: ObjectId, secret: string)
    ensures GenerateToken(userId, secret) != ""
    ensures ' ' !in GenerateToken(userId, secret)
  {
    var id, sig := Digits(userId), Digits(Signature(userId, secret));
    assert ' ' !in TokenHeader;
    DigitsAreDigits(userId);
    DigitsAreDigits(Signature(userId, secret));
    NonDigitAbsent(id, ' ');
    NonDigitAbsent(sig, ' ');
    assert GenerateToken(userId, secret) == TokenHeader + "." + id + "." + sig;
  }

  // ---------------------------------------------------------------- the guards

  /** `authHeader && authHeader.split(' ')[1]`, `None` for every falsy outcome. */
  function BearerToken(header: Option<string>): (token: Option<string>)
    ensures token.Some? ==> token.value != "" && ' ' !in token.value
  {
    if !Truthy(header) then None
    else
      var fields := Split(header.value, ' ');
      if |fields| >= 2 && fields[1] != "" then Some(fields[1]) else None
  }

  const TokenRequired := Response(401, ErrorBody("Access token required", Some("/login")))
  const TokenRejected := Response(403, ErrorBody("Invalid or expired token", Some("/login")))

  datatype GuardOutcome = Next(userId: ObjectId) | Rejected(response: Response)

  /** The decision `authenticateToken` takes on a request's Authorization header. */
  function Authenticate(header: Option<string>, secret: string): (outcome: GuardOutcome)
    ensures BearerToken(header).None? ==> outcome == Rejected(TokenRequired)
    ensures BearerToken(header).Some? && VerifyToken(BearerToken(header).value, secret).None? ==>
              outcome == Rejected(TokenRejected)
    ensures outcome.Next? <==>
              BearerToken(header).Some? && VerifyToken(BearerToken(header).value, secret).Some?
    ensures outcome.Next? ==> VerifyToken(BearerToken(header).value, secret) == Some(outcome.userId)
  {
    match BearerToken(header)
    case None => Rejected(TokenRequired)
    case Some(token) =>
      match VerifyToken(token, secret)
      case None => Rejected(TokenRejected)
      case Some(id) => Next(id)
  }

  /** The identity `optionalAuth` attaches: only a present token that verifies. */
  function OptionalIdentity(header: Option<string>, secret: string): (userId: Option<ObjectId>)
    ensures userId.Some? <==> BearerToken(header).Some? && VerifyToken(BearerToken(header).value, secret).Some?
  {
    match BearerToken(header)
    case None => None
    case Some(token) => VerifyToken(token, secret)
  }

  /** The scheme word is never looked at: any `<word> <token>` header yields the token. */
  lemma SchemeIgnored(word: string, token: string)
    requires ' ' !in word && ' ' !in token && token != ""
    ensures BearerToken(Some(word + " " + token)) == Some(token)
  {
    var parts := [word, token];
    assert FreeOf(parts, ' ');
    assert Join(parts, ' ') == word + " " + token;
    SplitJoin(parts, ' ');
  }

  /** Two spaces after the scheme leave an empty second field, so the request counts as having no token. */
  lemma DoubleSpaceRejected(word: string, rest: string, secret: string)
    requires ' ' !in word
    ensures Authenticate(Some(word + "  " + rest), secret) == Rejected(TokenRequired)
  {
    assert word + "  " + rest == word + [' '] + ([' '] + rest);
    SplitAfter(word, ' ', [' '] + rest);
    assert ([' '] + rest)[1..] == rest;
    assert Split([' '] + rest, ' ')[0] == "";
  }

  /** A token generated for `userId`, sent under any scheme word, lets the request through as `userId`. */
  lemma GeneratedTokenAdmitted(word: string, userId: ObjectId, secret: string)
    requires ' ' !in word
    ensures Authenticate(Some(word + " " + GenerateToken(userId, secret)), secret) == Next(userId)
  {
    TokenHasNoSpace(userId, secret);
    SchemeIgnored(word, GenerateToken(userId, secret));
    VerifyGenerated(userId, secret);
  }

  /**
   * One request passing through a middleware: the header it carries, the `userId`
   * attached to it, the response sent (if any) and how often `next()` was called.
   */
  class Exchange {
    const authorization: Option<string>
    var userId: Option<ObjectId>
    var response: Option<Response>
    var nextCalls: nat

    constructor (authorization: Option<string>)
      ensures this.authorization == authorization
      ensures userId == None && response == None && nextCalls == 0
    {
      this.authorization := authorization;
      userId := None;
      response := None;
      nextCalls := 0;
    }

    /** `authenticateToken`: respond 401 or 403 and stop, or attach the decoded id and call `next()` once. */
    method AuthenticateToken(secret: string)
      modifies this
      ensures match Authenticate(authorization, secret)
        case Next(id) => userId == Some(id) && nextCalls == old(nextCalls) + 1 && response == old(response)
        case Rejected(r) => userId == old(userId) && nextCalls == old(nextCalls) && response == Some(r)
    {
      var token := BearerToken(authorization);
      if token.None? {
        response := Some(TokenRequired);
        return;
      }
      var decoded := VerifyToken(token.value, secret);
      if decoded.None? {
        response := Some(TokenRejected);
        return;
      }
      userId := decoded;
      nextCalls := nextCalls + 1;
    }

    /** `optionalAuth`: attach the id when a token is present and verifies, and call `next()` in every case. */
    method OptionalAuth(secret: string)
      modifies this
      ensures nextCalls == old(nextCalls) + 1 && response == old(response)
      ensures userId == if OptionalIdentity(authorization, secret).Some?
                        then OptionalIdentity(authorization, secret) else old(userId)
    {
      var token := BearerToken(authorization);
      if token.Some? {
        var decoded := VerifyToken(token.value, secret);
        if decoded.Some? {
          userId := decoded;
        }
      }
      nextCalls := nextCalls + 1;
    }
  }
}
