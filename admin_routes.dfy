/**
 * `POST /api/admin/login` of `app/api/admin/login/route.ts`: the 400/401/500
 * decision and the issuing of the session cookie.
 */
module AdminLoginRoute {
  import opened Common
  import opened AdminAuth

  /** The fields of the parsed JSON body; an absent field is `None`. */
  datatype LoginBody = LoginBody(username: Option<string>, password: Option<string>)

  /**
   * The decision of the handler. `body` is `None` when `request.json()`
   * throws; `storeFault` says whether writing the cookie throws. The second
   * component is the user whose session cookie is written.
   */
  function LoginDecision(cfg: Config, body: Option<LoginBody>, bcrypt: (string, string) -> BcryptOutcome,
                         storeFault: bool): (r: (Reply, Option<string>))
    ensures r.0.status == 400 <==> body.Some? && (!Truthy(body.value.username) || !Truthy(body.value.password))
    ensures r.0.status == 401 <==>
      body.Some? && Truthy(body.value.username) && Truthy(body.value.password)
      && !VerifyAdminCredentials(cfg, body.value.username.value, body.value.password.value, bcrypt)
    ensures r.0.status == 200 <==>
      body.Some? && Truthy(body.value.username) && Truthy(body.value.password)
      && VerifyAdminCredentials(cfg, body.value.username.value, body.value.password.value, bcrypt) && !storeFault
    ensures r.0.status in {200, 400, 401, 500}
    ensures r.0.error.None? <==> r.0.status == 200
    ensures r.1.Some? <==> r.0.status == 200
    ensures r.1.Some? ==> Truthy(body.value.username) && r.1.value == body.value.username.value
  {
    match body
    case None => (Reply(500, Some("Internal server error")), None)
    case Some(LoginBody(username, password)) =>
      if !Truthy(username) || !Truthy(password) then
        (Reply(400, Some("Username and password are required")), None)
      else if !VerifyAdminCredentials(cfg, username.value, password.value, bcrypt) then
        (Reply(401, Some("Invalid credentials")), None)
      else if storeFault then
        (Reply(500, Some("Internal server error")), None)
      else
        (Reply(200, None), Some(username.value))
  }

  /**
   * A missing or empty field gives 400 before the credential check: the
   * outcome does not depend on the password-hash oracle or the configuration.
   */
  lemma MissingFieldIgnoresCredentials(cfg1: Config, cfg2: Config, body: LoginBody,
                                       bcrypt1: (string, string) -> BcryptOutcome,
                                       bcrypt2: (string, string) -> BcryptOutcome, storeFault: bool)
    requires !Truthy(body.username) || !Truthy(body.password)
    ensures LoginDecision(cfg1, Some(body), bcrypt1, storeFault) == LoginDecision(cfg2, Some(body), bcrypt2, storeFault)
    ensures LoginDecision(cfg1, Some(body), bcrypt1, storeFault).0.status == 400
  {
  }

  /** With the credentials unset or empty, a complete body is answered 401, not 500. */
  lemma MisconfigurationIs401(cfg: Config, body: LoginBody, bcrypt: (string, string) -> BcryptOutcome, storeFault: bool)
    requires !Configured(cfg)
    requires Truthy(body.username) && Truthy(body.password)
    ensures LoginDecision(cfg, Some(body), bcrypt, storeFault) == (Reply(401, Some("Invalid credentials")), None)
  {
    MisconfiguredRejectsAll(cfg, body.username.value, body.password.value, bcrypt);
  }

  /** `POST` against the client's cookie jar. */
  method Post(store: CookieStore, cfg: Config, body: Option<LoginBody>, bcrypt: (string, string) -> BcryptOutcome,
              storeFault: bool, nowMs1: nat, nowMs2: nat) returns (reply: Reply)
    modifies store
    ensures reply == LoginDecision(cfg, body, bcrypt, storeFault).0
    ensures reply.status == 200 ==> store.jar == old(store.jar)[AdminCookieName :=
      SessionCookie(cfg, CreateAdminSession(SigningKey(cfg), body.value.username.value, nowMs1, nowMs2))]
    ensures reply.status != 200 ==> store.jar == old(store.jar)
  {
    var decision := LoginDecision(cfg, body, bcrypt, storeFault);
    reply := decision.0;
    if decision.1.Some? {
      store.SetAdminSession(cfg, decision.1.value, nowMs1, nowMs2);
    }
  }

  /** A successful login leaves a cookie in the jar that `getAdminSession` accepts for the next 24 hours. */
  lemma LoginThenSession(jar: map<string, Cookie>, cfg: Config, body: LoginBody,
                         bcrypt: (string, string) -> BcryptOutcome, nowMs1: nat, nowMs2: nat, nowSec: int)
    requires LoginDecision(cfg, Some(body), bcrypt, false).0.status == 200
    requires nowSec < nowMs2 / 1000 + SessionLifetime
    ensures var token := CreateAdminSession(SigningKey(cfg), body.username.value, nowMs1, nowMs2);
      SessionFromJar(jar[AdminCookieName := SessionCookie(cfg, token)], SigningKey(cfg), nowSec)
        == Some(AdminSession(body.username.value, true, nowMs1 / 1000, nowMs2 / 1000 + SessionLifetime))
  {
    SetJarHasSession(jar, cfg, body.username.value, nowMs1, nowMs2, nowSec);
  }
}

/** `POST /api/admin/logout` of `app/api/admin/logout/route.ts`. */
module AdminLogoutRoute {
  import opened Common
  import opened AdminAuth

  /**
   * The status of the reply and the cookie jar afterwards; `storeFault` says
   * whether deleting the cookie throws.
   */
  function LogoutEffect(jar: map<string, Cookie>, storeFault: bool): (r: (nat, map<string, Cookie>))
    ensures r.0 == 200 <==> !storeFault
    ensures r.0 == 500 <==> storeFault
    ensures !storeFault ==> AdminCookieName !in r.1 && forall name :: name in jar && name != AdminCookieName ==> name in r.1 && r.1[name] == jar[name]
    ensures !storeFault ==> forall name :: name in r.1 ==> name in jar
    ensures storeFault ==> r.1 == jar
  {
    if storeFault then (500, jar) else (200, jar - {AdminCookieName})
  }

  /** No session is required, and logging out twice is the same as logging out once. */
  lemma LogoutIdempotent(jar: map<string, Cookie>)
    ensures LogoutEffect(LogoutEffect(jar, false).1, false) == LogoutEffect(jar, false)
  {
    assert LogoutEffect(jar, false).1 - {AdminCookieName} == jar - {AdminCookieName};
  }

  /** After a logout no session is found, whatever the jar held and whatever the clock says. */
  lemma NoSessionAfterLogout(jar: map<string, Cookie>, key: string, nowSec: int)
    ensures SessionFromJar(LogoutEffect(jar, false).1, key, nowSec) == None
  {
  }

  method Post(store: CookieStore, storeFault: bool) returns (status: nat)
    modifies store
    ensures (status, store.jar) == LogoutEffect(old(store.jar), storeFault)
  {
    if storeFault {
      return 500;
    }
    store.ClearAdminSession();
    status := 200;
  }
}
