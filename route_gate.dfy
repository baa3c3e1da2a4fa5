/**
 * `requireAdminAuth` of `lib/middleware-utils.ts`: the two-branch decision on
 * the request's `admin-session` cookie.
 */
module MiddlewareUtils {
  import opened Common
  import opened AdminAuth

  const LoginPath: string := "/admin/login"

  /** The responses the gate can produce: a redirect, or `NextResponse.next()` to continue. */
  datatype GateResponse = Redirect(location: string) | Next

  /** `request.cookies.get("admin-session")?.value` is present and not the empty string. */
  predicate HasToken(cookies: map<string, Token>)
  {
    AdminCookieName in cookies && !IsEmptyToken(cookies[AdminCookieName])
  }

  /**
   * `requireAdminAuth`: `None` (the source's `null`) lets the request
   * continue; otherwise the redirect to the login page is returned.
   */
  function RequireAdminAuth(cookies: map<string, Token>, key: string, nowSec: int): (r: Option<GateResponse>)
    ensures r.None? <==> HasToken(cookies) && VerifyAdminSession(cookies[AdminCookieName], key, nowSec).Some?
    ensures r.Some? ==> r.value == Redirect(LoginPath)
  {
    if !HasToken(cookies) then Some(Redirect(LoginPath))
    else if VerifyAdminSession(cookies[AdminCookieName], key, nowSec).None? then Some(Redirect(LoginPath))
    else None
  }

  /** A request that carries no cookie at all is redirected. */
  lemma NoCookieRedirects(cookies: map<string, Token>, key: string, nowSec: int)
    requires AdminCookieName !in cookies
    ensures RequireAdminAuth(cookies, key, nowSec) == Some(Redirect(LoginPath))
  {
  }

  /**
   * A missing token and a token that fails verification give the same
   * response, so a client cannot tell one cause from the other.
   */
  lemma FailureCausesIndistinguishable(missing: map<string, Token>, invalid: map<string, Token>,
                                       key: string, nowSec: int)
    requires !HasToken(missing)
    requires HasToken(invalid) && VerifyAdminSession(invalid[AdminCookieName], key, nowSec).None?
    ensures RequireAdminAuth(missing, key, nowSec) == RequireAdminAuth(invalid, key, nowSec)
  {
  }

  /** A token this site issued, carried back before it expires, lets the request through. */
  lemma IssuedTokenPasses(cookies: map<string, Token>, key: string, username: string,
                          nowMs1: nat, nowMs2: nat, nowSec: int)
    requires nowSec < nowMs2 / 1000 + SessionLifetime
    requires AdminCookieName in cookies && cookies[AdminCookieName] == CreateAdminSession(key, username, nowMs1, nowMs2)
    ensures RequireAdminAuth(cookies, key, nowSec) == None
  {
    IssuedTokenVerifies(key, username, nowMs1, nowMs2, nowSec);
  }
}

/** The edge middleware of `middleware.ts`: which paths are gated, and the dispatch. */
module Middleware {
  import opened Common
  import opened AdminAuth
  import opened MiddlewareUtils

  /** `pathname.startsWith("/admin") && !pathname.startsWith("/admin/login")` */
  predicate Gated(pathname: string)
  {
    StartsWith(pathname, "/admin") && !StartsWith(pathname, LoginPath)
  }

  /** `middleware(request)` */
  function HandleRequest(pathname: string, cookies: map<string, Token>, key: string, nowSec: int): (r: GateResponse)
    ensures !Gated(pathname) ==> r == Next
    ensures Gated(pathname) ==> (r == Next <==> RequireAdminAuth(cookies, key, nowSec).None?)
    ensures Gated(pathname) && r != Next ==> r == RequireAdminAuth(cookies, key, nowSec).value
  {
    if Gated(pathname) then
      match RequireAdminAuth(cookies, key, nowSec)
      case Some(authResponse) => authResponse
      case None => Next
    else Next
  }

  /**
   * The `matcher` of the exported `config`: Next.js runs the middleware only
   * on `/admin` and the paths below `/admin/`.
   */
  predicate Matched(pathname: string)
  {
    pathname == "/admin" || StartsWith(pathname, "/admin/")
  }

  /** Every path below `/admin/login` (including `/admin/login`) is exempt, so the login page cannot redirect to itself. */
  lemma LoginPagesExempt(pathname: string, cookies: map<string, Token>, key: string, nowSec: int)
    requires StartsWith(pathname, LoginPath)
    ensures !Gated(pathname)
    ensures HandleRequest(pathname, cookies, key, nowSec) == Next
  {
  }

  /**
   * The test is a raw prefix: `/administrator` and `/admin-panel` are gated by
   * the predicate, and `/admin/loginx` is exempt.
   */
  lemma RawPrefixTest()
    ensures Gated("/administrator") && Gated("/admin-panel") && Gated("/admin") && Gated("/admin/events")
    ensures !Gated("/admin/loginx") && !Gated("/admin/login/") && !Gated("/events")
  {
    assert "/administrator"[..6] == "/admin";
    assert "/admin-panel"[..6] == "/admin";
    assert "/admin/events"[..6] == "/admin";
    assert "/admin/events"[..12][7] != LoginPath[7];
    assert "/admin/loginx"[..12] == LoginPath;
    assert "/admin/login/"[..12] == LoginPath;
    assert "/events"[..6][1] != "/admin"[1];
  }

  /** Every path the matcher hands to the middleware starts with `/admin`, so it is gated unless it is a login path. */
  lemma MatchedPathsGatedUnlessLogin(pathname: string)
    requires Matched(pathname)
    ensures Gated(pathname) <==> !StartsWith(pathname, LoginPath)
  {
    if pathname != "/admin" {
      assert pathname[..6] == pathname[..7][..6];
    }
  }

  /** `/administrator` is gated by the predicate, but the matcher never hands it to the middleware. */
  lemma AdministratorNotMatched()
    ensures Gated("/administrator") && !Matched("/administrator")
  {
    assert "/administrator"[..6] == "/admin";
    assert "/administrator"[..7][6] != "/admin/"[6];
  }
}
