/** The route guard of frontend/src/components/ProtectedRoute.jsx. The
    authentication state is reduced to what the guard reads: whether it is
    still loading, whether a token and a user are present, and whether the
    user is an admin. */
module ProtectedRoute {

  datatype Auth = Auth(loading: bool, hasToken: bool, hasUser: bool, isAdmin: bool)

  /** What the guard renders: a spinner, a redirect (to the login page with
      the path to come back to, or home), or the protected page. */
  datatype View = Spinner | Redirect(to: string, from: string) | Render

  /** The decision chain: loading first, then authentication (token and
      user both present), then the admin requirement. */
  function Guard(a: Auth, requireAdmin: bool, pathname: string): (v: View)
    ensures a.loading ==> v == Spinner
    ensures !a.loading && !(a.hasToken && a.hasUser) ==> v == Redirect("/login", pathname)
    ensures v == Redirect("/", "") <==>
      !a.loading && a.hasToken && a.hasUser && requireAdmin && !a.isAdmin
    ensures v == Render <==>
      !a.loading && a.hasToken && a.hasUser && (requireAdmin ==> a.isAdmin)
  {
    if a.loading then Spinner
    else if !(a.hasToken && a.hasUser) then Redirect("/login", pathname)
    else if requireAdmin && !a.isAdmin then Redirect("/", "")
    else Render
  }

  /** Authentication is checked before the admin flag: a visitor without a
      session is sent to log in even on an admin page, whatever the flag
      says. */
  lemma LoginBeforeAdmin(a: Auth, pathname: string)
    requires !a.loading && !(a.hasToken && a.hasUser)
    ensures Guard(a, true, pathname) == Guard(a, false, pathname) == Redirect("/login", pathname)
  {
  }

  /** Every page an admin may see, a signed-in user may see only if it is
      not admin-only; everything a user may see, an admin may see too. */
  lemma AdminSeesMore(a: Auth, requireAdmin: bool, pathname: string)
    ensures Guard(a, requireAdmin, pathname) == Render ==> Guard(a.(isAdmin := true), requireAdmin, pathname) == Render
    ensures Guard(a, requireAdmin, pathname) == Render && !a.isAdmin ==> !requireAdmin
  {
  }
}
