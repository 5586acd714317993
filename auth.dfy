/**
 * The pure part of the authentication flow: password hashing as an abstract
 * pair of functions, the claims an access token carries, how they are built
 * at login and how they are checked on every request.
 */
module Auth {
  import opened Wrappers
  import opened Http

  /**
   * The password hasher. `hash(password, salt)` is the stored digest for a
   * freshly drawn salt; `verify(password, digest)` is the library's check.
   */
  datatype Hasher = Hasher(hash: (string, nat) -> string, verify: (string, string) -> bool)

  /** What the hashing library guarantees: a password verifies against its own digest. */
  ghost predicate Sound(hasher: Hasher)
  {
    forall password, salt :: hasher.verify(password, hasher.hash(password, salt))
  }

  /**
   * A decoded token payload. Each claim may be missing. `exp` is the expiry as
   * a timestamp in seconds.
   */
  datatype Payload = Payload(sub: Option<string>, id: Option<int>, role: Option<string>, exp: Option<int>)

  /** The caller identity handed to every protected handler. */
  datatype Identity = Identity(username: string, id: int, role: Option<string>)

  /** The login endpoint's answer: the token and its type. */
  datatype TokenResponse = TokenResponse(accessToken: Payload, tokenType: string)

  /** The lifetime of a login token, in seconds: fifteen minutes. */
  const AccessTokenLifetime: int := 15 * 60

  /**
   * The claims a token is signed over: subject, user id, role and an expiry
   * `expireDelta` seconds after `now`. Such a payload passes the claims check
   * and yields the same identity back.
   */
  function CreateAccessToken(username: string, userId: int, role: string, expireDelta: int, now: int): (p: Payload)
    ensures p.exp == Some(now + expireDelta)
    ensures GetCurrentUser(Some(p)) == Ok(Identity(username, userId, Some(role)))
  {
    Payload(Some(username), Some(userId), Some(role), Some(now + expireDelta))
  }

  /**
   * The claims check on a request. `decoded` is None when decoding fails
   * (bad signature, expired, malformed). A payload without a subject or an id
   * is refused; the role may be missing.
   */
  function GetCurrentUser(decoded: Option<Payload>): (r: Result<Identity>)
    ensures r.Err? <==> decoded.None? || decoded.value.sub.None? || decoded.value.id.None?
    ensures r.Err? ==> r.error == CouldNotValidate
    ensures r.Ok? ==>
              && r.value.username == decoded.value.sub.value
              && r.value.id == decoded.value.id.value
              && r.value.role == decoded.value.role
  {
    match decoded
    case None => Err(CouldNotValidate)
    case Some(payload) =>
      if payload.sub.None? || payload.id.None? then Err(CouldNotValidate)
      else Ok(Identity(payload.sub.value, payload.id.value, payload.role))
  }
}
