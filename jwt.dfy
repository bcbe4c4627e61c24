/** Token issuance: jwt.NewToken builds the claim set of a JSON Web Token
    (RFC 7519) for a user and an application and signs it with HMAC-SHA256
    (section 3.2 of RFC 7518) under the application's secret.

    The claim set is modelled exactly. The compact serialization, base64url
    and HMAC are not: a signature is a symbolic term over the key, the header
    and the claims, so a token verifies under a key exactly when it was
    signed with that key. */
module Jwt {
  import opened Errors
  import opened Models

  /** A JSON claim value: the four claims are numbers or strings. */
  datatype Claim = Number(n: int) | Text(s: string)

  type Claims = map<string, Claim>

  /** The JOSE header; jwt.New(jwt.SigningMethodHS256) fills in both. */
  datatype Header = Header(alg: string, typ: string)

  const Hs256Header := Header("HS256", "JWT")

  /** An HMAC-SHA256 tag, symbolic: equal tags have equal key, header and
      claims. */
  datatype Mac = Hs256(key: string, header: Header, claims: Claims)

  /** A token string; Empty is "", returned beside an error. */
  datatype Token = Empty | Signed(header: Header, claims: Claims, signature: Mac)

  const NanosPerSecond := 1_000_000_000

  /** time.Time.Unix() of an instant given in nanoseconds since the epoch:
      the whole second the instant falls in (rounding down, also before
      the epoch). */
  function Unix(t: int): (s: int)
    ensures s * NanosPerSecond <= t < (s + 1) * NanosPerSecond
  {
    t / NanosPerSecond
  }

  /** The claims NewToken puts in a fresh MapClaims: uid, email, app_id and
      exp = time.Now().Add(duration).Unix(), with the clock reading `now`
      (nanoseconds) passed in. */
  function NewClaims(user: User, app: App, duration: int, now: int): (c: Claims)
    ensures c.Keys == {"uid", "email", "app_id", "exp"}
    ensures c["uid"] == Number(user.id) && c["email"] == Text(user.email) && c["app_id"] == Number(app.id)
    ensures c["exp"].Number?
    ensures c["exp"].n * NanosPerSecond <= now + duration < (c["exp"].n + 1) * NanosPerSecond
  {
    map["uid" := Number(user.id),
        "email" := Text(user.email),
        "app_id" := Number(app.id),
        "exp" := Number(Unix(now + duration))]
  }

  /** token.SignedString(key); `signFault` says that the signing library
      failed, which it reports as an error and "". */
  function SignedString(header: Header, claims: Claims, key: string, signFault: bool): (r: Ret<Token>)
    ensures r.Ok() <==> !signFault
    ensures !r.Ok() ==> r == Ret(Empty, Some(Sentinel(Other)))
  {
    if signFault then Ret(Empty, Some(Sentinel(Other)))
    else Ret(Signed(header, claims, Hs256(key, header, claims)), None)
  }

  /** What a holder of `key` recovers from a token (jwt.Parse with a key
      function returning `key`): the claims when the token is an HS256
      token whose signature was made with `key`, and nothing otherwise. */
  function Verify(token: Token, key: string): (r: Option<Claims>)
    ensures r.Some? ==> token.Signed? && r.value == token.claims
    ensures r.Some? ==> token.signature.key == key && token.header.alg == "HS256"
    ensures token.Signed? && token.signature.key != key ==> r == None
  {
    if token.Signed? && token.header.alg == "HS256"
       && token.signature == Hs256(key, token.header, token.claims)
    then Some(token.claims)
    else None
  }

  /** jwt.NewToken(user, app, duration) at clock reading `now`. */
  function NewToken(user: User, app: App, duration: int, now: int, signFault: bool): (r: Ret<Token>)
    ensures r.Ok() <==> !signFault
    ensures !r.Ok() ==> r == Ret(Empty, Some(Sentinel(Other)))
  {
    var claims := NewClaims(user, app, duration, now);
    SignedString(Hs256Header, claims, app.secret, signFault)
  }

  /** The token NewToken issues verifies under the application's secret and
      carries exactly the four claims: the user's id and email, the
      application's id, and the expiry second of now + duration. */
  lemma NewTokenClaims(user: User, app: App, duration: int, now: int)
    ensures var r := NewToken(user, app, duration, now, false);
      && r.Ok()
      && Verify(r.value, app.secret).Some?
      && var c := Verify(r.value, app.secret).value;
      && c.Keys == {"uid", "email", "app_id", "exp"}
      && c["uid"] == Number(user.id)
      && c["email"] == Text(user.email)
      && c["app_id"] == Number(app.id)
      && c["exp"].Number?
      && c["exp"].n * NanosPerSecond <= now + duration < (c["exp"].n + 1) * NanosPerSecond
  {
  }

  /** Each application's tokens are bound to its own secret: under any
      other key they verify to nothing. */
  lemma NewTokenRejectsOtherKey(user: User, app: App, duration: int, now: int, key: string)
    requires key != app.secret
    ensures Verify(NewToken(user, app, duration, now, false).value, key) == None
  {
  }

  /** The exp claim a verifier reads from the issued token lies within one
      second of the expiry it computes from its own clock, read at most a
      second after issuance. */
  lemma ExpWithinOneSecond(user: User, app: App, duration: int, now: int, later: int)
    requires now <= later <= now + NanosPerSecond
    ensures var c := Verify(NewToken(user, app, duration, now, false).value, app.secret);
      && c.Some? && "exp" in c.value && c.value["exp"].Number?
      && c.value["exp"].n <= Unix(later + duration) <= c.value["exp"].n + 1
  {
    NewTokenClaims(user, app, duration, now);
  }
}
