/**
 * The administrator session authority of `lib/admin-auth.ts`: the credential
 * check against the configured pair, the 24-hour signed session token
 * (claims `iat` and `exp` of section 4.1.6 and 4.1.4 of RFC 7519, signed with
 * HMAC SHA-256 as in section 3.2 of RFC 7518), and the `admin-session` cookie
 * (attributes of section 4.1.2 of RFC 6265) held in the client's cookie jar.
 *
 * The signature is symbolic: `Mac(key, alg, claims)` stands for the HMAC of
 * the encoded header and claims under `key`, and two MACs are equal only when
 * they were made from the same key, algorithm and claims. That equality is the
 * unforgeability the real primitive provides; the hashing itself is not
 * modelled. The clock is a parameter: `Date.now()` readings in milliseconds.
 */
module AdminAuth {
  import opened Common

  const AdminCookieName: string := "admin-session"

  /** `24 * 60 * 60`: the lifetime of a token and the `maxAge` of its cookie, in seconds. */
  const SessionLifetime: int := 24 * 60 * 60

  const FallbackSecret: string := "fallback-secret-key"

  /** The process environment the authority reads. */
  datatype Config = Config(
    adminUsername: Option<string>,   // ADMIN_USERNAME
    adminPassword: Option<string>,   // ADMIN_PASSWORD
    nodeEnv: Option<string>,         // NODE_ENV
    nextAuthSecret: Option<string>)  // NEXTAUTH_SECRET

  /** `process.env.NEXTAUTH_SECRET || "fallback-secret-key"` */
  function SigningKey(cfg: Config): string
  {
    if Truthy(cfg.nextAuthSecret) then cfg.nextAuthSecret.value else FallbackSecret
  }

  /** Both configured credentials are present and non-empty. */
  predicate Configured(cfg: Config)
  {
    Truthy(cfg.adminUsername) && Truthy(cfg.adminPassword)
  }

  /** The deployment modes in which the password is compared as plain text. */
  predicate PlainTextMode(cfg: Config)
  {
    cfg.nodeEnv == Some("development") || cfg.nodeEnv == Some("production")
  }

  /** What `bcrypt.compare(password, hash)` yields: a verdict, or an exception. */
  datatype BcryptOutcome = Compared(equal: bool) | Threw

  /**
   * `verifyAdminCredentials`. `bcrypt` is the password-hash comparison, treated
   * as an oracle; it is consulted only outside the plain-text modes.
   */
  function VerifyAdminCredentials(cfg: Config, username: string, password: string,
                                  bcrypt: (string, string) -> BcryptOutcome): (ok: bool)
    ensures ok ==> Configured(cfg) && username == cfg.adminUsername.value
    ensures PlainTextMode(cfg) ==>
      (ok <==> Configured(cfg) && username == cfg.adminUsername.value && password == cfg.adminPassword.value)
    ensures !PlainTextMode(cfg) ==>
      (ok <==> Configured(cfg) && username == cfg.adminUsername.value
                && bcrypt(password, cfg.adminPassword.value) == Compared(true))
  {
    if !Truthy(cfg.adminUsername) || !Truthy(cfg.adminPassword) then false
    else if username != cfg.adminUsername.value then false
    else if PlainTextMode(cfg) then password == cfg.adminPassword.value
    else
      match bcrypt(password, cfg.adminPassword.value)
      case Compared(equal) => equal
      case Threw => false
  }

  /** Misconfiguration fails closed: with either credential unset or empty, nothing is accepted. */
  lemma MisconfiguredRejectsAll(cfg: Config, username: string, password: string,
                                bcrypt: (string, string) -> BcryptOutcome)
    requires !Configured(cfg)
    ensures !VerifyAdminCredentials(cfg, username, password, bcrypt)
  {
  }

  /**
   * A username that differs from the configured one in any character (a
   * case variant included) is rejected whatever the password and whatever
   * the hash oracle would say.
   */
  lemma WrongUsernameRejected(cfg: Config, username: string, password: string,
                              bcrypt: (string, string) -> BcryptOutcome, k: nat)
    requires Configured(cfg)
    requires |username| == |cfg.adminUsername.value|
    requires k < |username| && username[k] != cfg.adminUsername.value[k]
    ensures !VerifyAdminCredentials(cfg, username, password, bcrypt)
  {
    assert username != cfg.adminUsername.value;
  }

  /** In the plain-text modes exactly the configured pair is accepted. */
  lemma PlainTextAcceptsOnlyConfiguredPair(cfg: Config, username: string, password: string,
                                           bcrypt: (string, string) -> BcryptOutcome)
    requires Configured(cfg) && PlainTextMode(cfg)
    ensures VerifyAdminCredentials(cfg, username, password, bcrypt)
        <==> username == cfg.adminUsername.value && password == cfg.adminPassword.value
  {
  }

  /** Outside the plain-text modes an exception of the hash comparison means rejection. */
  lemma BcryptExceptionRejects(cfg: Config, username: string, password: string,
                               bcrypt: (string, string) -> BcryptOutcome)
    requires !PlainTextMode(cfg) && Configured(cfg)
    requires bcrypt(password, cfg.adminPassword.value) == Threw
    ensures !VerifyAdminCredentials(cfg, username, password, bcrypt)
  {
  }

  // ---------------------------------------------------------------------------
  // The session token
  // ---------------------------------------------------------------------------

  /** The claims of an administrator token. `isAdmin` is always true in tokens this module issues. */
  datatype AdminSession = AdminSession(username: string, isAdmin: bool, iat: int, exp: int)

  /**
   * The payload built by `createAdminSession`: `iat` and `exp` come from two
   * separate `Date.now()` readings, `nowMs1` and then `nowMs2`.
   */
  function CreatePayload(username: string, nowMs1: nat, nowMs2: nat): (p: AdminSession)
    ensures p.username == username && p.isAdmin
    ensures p.iat * 1000 <= nowMs1 < p.iat * 1000 + 1000
    ensures (p.exp - SessionLifetime) * 1000 <= nowMs2 < (p.exp - SessionLifetime) * 1000 + 1000
  {
    AdminSession(username, true, nowMs1 / 1000, nowMs2 / 1000 + SessionLifetime)
  }

  /**
   * The token lives 24 hours: `exp - iat` is 86400 seconds, or 86401 when the
   * two clock readings fall on either side of a second boundary.
   */
  lemma PayloadLifetime(username: string, nowMs1: nat, nowMs2: nat)
    requires nowMs1 <= nowMs2 < nowMs1 + 1000
    ensures var p := CreatePayload(username, nowMs1, nowMs2);
      p.exp - p.iat == SessionLifetime || p.exp - p.iat == SessionLifetime + 1
    ensures nowMs1 / 1000 == nowMs2 / 1000 ==>
      CreatePayload(username, nowMs1, nowMs2).exp - CreatePayload(username, nowMs1, nowMs2).iat == SessionLifetime
  {
    var p := CreatePayload(username, nowMs1, nowMs2);
    assert p.iat <= nowMs2 / 1000 <= p.iat + 1;
  }

  /** A signature segment: the MAC a key holder computes, or any other bytes. */
  datatype Signature = Mac(key: string, alg: string, claims: AdminSession) | Bytes(raw: seq<int>)

  /**
   * A cookie value. `Jws` is a well-formed compact token (header algorithm,
   * claims, signature); `Raw` is any other string, including the empty one.
   */
  datatype Token = Jws(alg: string, claims: AdminSession, signature: Signature) | Raw(text: string)

  /** `!token`: the cookie value is the empty string. */
  predicate IsEmptyToken(t: Token)
  {
    t == Raw("")
  }

  /** The HMAC algorithms `jwtVerify` accepts for a symmetric key. */
  predicate HmacAlg(alg: string)
  {
    alg == "HS256" || alg == "HS384" || alg == "HS512"
  }

  /** `new SignJWT(payload).setProtectedHeader({ alg: "HS256" }).sign(key)` */
  function Sign(key: string, claims: AdminSession): (t: Token)
    ensures t.Jws? && t.alg == "HS256" && t.claims == claims
  {
    Jws("HS256", claims, Mac(key, "HS256", claims))
  }

  /** `createAdminSession` */
  function CreateAdminSession(key: string, username: string, nowMs1: nat, nowMs2: nat): Token
  {
    Sign(key, CreatePayload(username, nowMs1, nowMs2))
  }

  /**
   * `verifyAdminSession`: `jwtVerify` checks the signature and that the
   * current time (in whole seconds) is before `exp`; every failure becomes
   * `None`. Neither `isAdmin` nor `username` is inspected.
   */
  function VerifyAdminSession(token: Token, key: string, nowSec: int): (r: Option<AdminSession>)
    ensures r.Some? <==>
      token.Jws? && HmacAlg(token.alg) && token.signature == Mac(key, token.alg, token.claims)
      && nowSec < token.claims.exp
    ensures r.Some? ==> r.value == token.claims
  {
    match token
    case Raw(_) => None
    case Jws(alg, claims, signature) =>
      if HmacAlg(alg) && signature == Mac(key, alg, claims) && nowSec < claims.exp then Some(claims) else None
  }

  /** Round trip: under the same key, a freshly issued token verifies to its own payload. */
  lemma IssuedTokenVerifies(key: string, username: string, nowMs1: nat, nowMs2: nat, nowSec: int)
    requires nowSec < nowMs2 / 1000 + SessionLifetime
    ensures VerifyAdminSession(CreateAdminSession(key, username, nowMs1, nowMs2), key, nowSec)
         == Some(AdminSession(username, true, nowMs1 / 1000, nowMs2 / 1000 + SessionLifetime))
  {
  }

  /** Expiry: once the clock reaches `exp` the token is rejected. */
  lemma ExpiredTokenRejected(token: Token, key: string, nowSec: int)
    requires token.Jws? && nowSec >= token.claims.exp
    ensures VerifyAdminSession(token, key, nowSec) == None
  {
  }

  /** A token issued 86401 seconds ago has expired, whatever the key. */
  lemma DayOldTokenRejected(key: string, username: string, nowSec: nat)
    requires nowSec >= SessionLifetime + 1
    ensures var issuedMs := (nowSec - SessionLifetime - 1) * 1000;
      VerifyAdminSession(CreateAdminSession(key, username, issuedMs, issuedMs), key, nowSec) == None
  {
    var issuedMs := (nowSec - SessionLifetime - 1) * 1000;
    assert issuedMs / 1000 == nowSec - SessionLifetime - 1;
  }

  /** Tampering: a token whose signature is not the key's MAC of its claims is rejected. */
  lemma TamperedTokenRejected(alg: string, claims: AdminSession, signature: Signature, key: string, nowSec: int)
    requires signature != Mac(key, alg, claims)
    ensures VerifyAdminSession(Jws(alg, claims, signature), key, nowSec) == None
  {
  }

  /** Changing the claims of a signed token (say, extending `exp`) without re-signing is caught. */
  lemma AlteredClaimsRejected(key: string, claims: AdminSession, altered: AdminSession, nowSec: int)
    requires altered != claims
    ensures VerifyAdminSession(Jws("HS256", altered, Sign(key, claims).signature), key, nowSec) == None
  {
  }

  /** A token signed under another key never verifies. */
  lemma OtherKeyRejected(key: string, otherKey: string, claims: AdminSession, nowSec: int)
    requires otherKey != key
    ensures VerifyAdminSession(Sign(otherKey, claims), key, nowSec) == None
  {
  }

  /** The verifier does not look at `isAdmin` or `username`: any signed, unexpired claims pass. */
  lemma VerifierIgnoresRole(key: string, username: string, iat: int, exp: int, nowSec: int)
    requires nowSec < exp
    ensures VerifyAdminSession(Sign(key, AdminSession(username, false, iat, exp)), key, nowSec)
         == Some(AdminSession(username, false, iat, exp))
  {
  }

  // ---------------------------------------------------------------------------
  // The cookie
  // ---------------------------------------------------------------------------

  datatype SameSite = Lax | Strict | NoRestriction

  datatype Cookie = Cookie(value: Token, httpOnly: bool, secure: bool, sameSite: SameSite, maxAge: int, path: string)

  /** The cookie `setAdminSession` writes for `token`. */
  function SessionCookie(cfg: Config, token: Token): (c: Cookie)
    ensures c.value == token && c.httpOnly && c.sameSite == Lax && c.path == "/"
    ensures c.maxAge == SessionLifetime
    ensures c.secure <==> cfg.nodeEnv == Some("production")
  {
    Cookie(token, true, cfg.nodeEnv == Some("production"), Lax, 24 * 60 * 60, "/")
  }

  /**
   * `getAdminSession` over a cookie jar: no cookie (or an empty value) means
   * no session, and the verifier is consulted only when a value is present.
   */
  function SessionFromJar(jar: map<string, Cookie>, key: string, nowSec: int): (r: Option<AdminSession>)
    ensures AdminCookieName !in jar ==> r == None
    ensures r.Some? ==> AdminCookieName in jar && VerifyAdminSession(jar[AdminCookieName].value, key, nowSec) == r
    ensures AdminCookieName in jar && IsEmptyToken(jar[AdminCookieName].value) ==> r == None
    ensures AdminCookieName in jar && !IsEmptyToken(jar[AdminCookieName].value) ==>
      r == VerifyAdminSession(jar[AdminCookieName].value, key, nowSec)
  {
    if AdminCookieName !in jar || IsEmptyToken(jar[AdminCookieName].value) then None
    else VerifyAdminSession(jar[AdminCookieName].value, key, nowSec)
  }

  /** Once the cookie is removed, no session is found. */
  lemma ClearedJarHasNoSession(jar: map<string, Cookie>, key: string, nowSec: int)
    ensures SessionFromJar(jar - {AdminCookieName}, key, nowSec) == None
  {
  }

  /** Right after `setAdminSession`, and for the token's lifetime, the session is found. */
  lemma SetJarHasSession(jar: map<string, Cookie>, cfg: Config, username: string,
                         nowMs1: nat, nowMs2: nat, nowSec: int)
    requires nowSec < nowMs2 / 1000 + SessionLifetime
    ensures var token := CreateAdminSession(SigningKey(cfg), username, nowMs1, nowMs2);
      SessionFromJar(jar[AdminCookieName := SessionCookie(cfg, token)], SigningKey(cfg), nowSec)
        == Some(CreatePayload(username, nowMs1, nowMs2))
  {
  }

  /** The client's cookie jar, as seen through Next.js's `cookies()` store. */
  class CookieStore {
    var jar: map<string, Cookie>

    constructor (initial: map<string, Cookie>)
      ensures jar == initial
    {
      jar := initial;
    }

    /** `setAdminSession(username)`: issue a token and store it; other cookies are untouched. */
    method SetAdminSession(cfg: Config, username: string, nowMs1: nat, nowMs2: nat)
      modifies this
      ensures jar == old(jar)[AdminCookieName :=
        SessionCookie(cfg, CreateAdminSession(SigningKey(cfg), username, nowMs1, nowMs2))]
    {
      var token := CreateAdminSession(SigningKey(cfg), username, nowMs1, nowMs2);
      jar := jar[AdminCookieName := SessionCookie(cfg, token)];
    }

    /** `clearAdminSession`: delete the cookie; other cookies are untouched. */
    method ClearAdminSession()
      modifies this
      ensures jar == old(jar) - {AdminCookieName}
    {
      jar := jar - {AdminCookieName};
    }

    /** `getAdminSession` */
    method GetAdminSession(cfg: Config, nowSec: int) returns (session: Option<AdminSession>)
      ensures session == SessionFromJar(jar, SigningKey(cfg), nowSec)
      ensures session.Some? ==> AdminCookieName in jar && !IsEmptyToken(jar[AdminCookieName].value)
    {
      if AdminCookieName !in jar {
        return None;
      }
      var token := jar[AdminCookieName].value;
      if IsEmptyToken(token) {
        return None;
      }
      session := VerifyAdminSession(token, SigningKey(cfg), nowSec);
    }
  }
}
