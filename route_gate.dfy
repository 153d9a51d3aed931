/**
 * The Next.js `middleware` that gates browser navigation on the `token`
 * cookie: signed-out visitors are sent from the dashboard to the login page,
 * signed-in ones from the login and register pages to the dashboard. The
 * cookie is only checked for presence, never verified.
 */
module RouteGate {
  import opened Wrappers
  import opened Ascii

  datatype Decision = Next | Redirect(target: string)

  const LoginPath: string := "/login"
  const RegisterPath: string := "/register"
  const DashboardPath: string := "/dashboard"

  /** `request.cookies.get("token")?.value` is truthy. */
  predicate HasToken(cookie: Option<string>) {
    cookie.Some? && cookie.value != ""
  }

  /** The redirect decision of `middleware(request)`. */
  function Middleware(cookie: Option<string>, pathname: string): (d: Decision)
    ensures d == Redirect(LoginPath) <==> !HasToken(cookie) && StartsWith(pathname, DashboardPath)
    ensures d == Redirect(DashboardPath) <==> HasToken(cookie) && (pathname == LoginPath || pathname == RegisterPath)
    ensures d.Redirect? ==> d.target == LoginPath || d.target == DashboardPath
    ensures d.Redirect? ==> d.target != pathname
  {
    if !HasToken(cookie) && StartsWith(pathname, DashboardPath) then Redirect(LoginPath)
    else if HasToken(cookie) && (pathname == LoginPath || pathname == RegisterPath) then Redirect(DashboardPath)
    else Next
  }

  /** `config.matcher`: `/dashboard/:path*`, `/login` and `/register`. */
  predicate InScope(pathname: string) {
    || pathname == DashboardPath
    || StartsWith(pathname, DashboardPath + "/")
    || pathname == LoginPath
    || pathname == RegisterPath
  }

  /** What a navigation meets: the middleware on matched paths, nothing elsewhere. */
  function Navigate(cookie: Option<string>, pathname: string): (d: Decision)
    ensures !InScope(pathname) ==> d == Next
    ensures InScope(pathname) ==> d == Middleware(cookie, pathname)
  {
    if InScope(pathname) then Middleware(cookie, pathname) else Next
  }

  /** Following a redirect never leads to a second one. */
  lemma NoRedirectLoop(cookie: Option<string>, pathname: string)
    requires Navigate(cookie, pathname).Redirect?
    ensures Navigate(cookie, Navigate(cookie, pathname).target) == Next
  {
  }

  /**
   * The only paths where the matcher changes the middleware's answer start
   * with "/dashboard" without being "/dashboard" or below it (such as
   * "/dashboards"): there a signed-out visitor is not redirected.
   */
  lemma MatcherNarrowsDashboardPrefix(cookie: Option<string>, pathname: string)
    ensures Navigate(cookie, pathname) != Middleware(cookie, pathname) <==>
      && !HasToken(cookie) && StartsWith(pathname, DashboardPath)
      && pathname != DashboardPath && !StartsWith(pathname, DashboardPath + "/")
  {
    if StartsWith(pathname, DashboardPath + "/") {
      assert pathname[..|DashboardPath|] == (DashboardPath + "/")[..|DashboardPath|];
    }
  }
}
