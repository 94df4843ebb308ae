/**
 * The route guard (middleware.ts): a request under the admin area without
 * an `access_token` cookie is redirected to the login page, which is told
 * where the visitor came from; every other request passes.
 */
module Middleware {
  import opened Strings

  const AdminPrefix: string := "/admin"
  const LoginPath: string := "/login"
  const CookieName: string := "access_token"

  /** `NextResponse.next()`, or a redirect to `location?from=<from>`. */
  datatype Decision = Next | Redirect(location: string, from: string)

  /**
   * The decision for a request path and its cookies (by name). Only the
   * presence of the cookie is tested: a cookie object is truthy even with an
   * empty value.
   */
  function Decide(pathname: string, cookies: map<string, string>): (r: Decision)
    ensures r.Redirect? <==> StartsWith(pathname, AdminPrefix) && CookieName !in cookies
    ensures r.Redirect? ==> r.location == LoginPath && r.from == pathname
  {
    if StartsWith(pathname, AdminPrefix) && CookieName !in cookies
    then Redirect(LoginPath, pathname)
    else Next
  }

  /** The cookie's value never matters, only whether it is there. */
  lemma CookieValueIgnored(pathname: string, cookies: map<string, string>, value: string)
    ensures Decide(pathname, cookies[CookieName := value]) == Decide(pathname, cookies[CookieName := ""])
  {
  }

  /** Cookies other than `access_token` never matter. */
  lemma OtherCookiesIgnored(pathname: string, cookies: map<string, string>, name: string, value: string)
    requires name != CookieName
    ensures Decide(pathname, cookies[name := value]) == Decide(pathname, cookies)
  {
  }

  /**
   * The test is a plain prefix test: any path that extends `/admin`, such
   * as `/administrator`, is guarded as well.
   */
  lemma PlainPrefixGuarded(rest: string, cookies: map<string, string>)
    requires CookieName !in cookies
    ensures Decide(AdminPrefix + rest, cookies) == Redirect(LoginPath, AdminPrefix + rest)
  {
    assert (AdminPrefix + rest)[..|AdminPrefix|] == AdminPrefix;
  }
}
