/**
 * The route guard on protected pages: a read-only check of the session that
 * either lets the navigation through or redirects to the login page with the
 * requested path as the return target. URI-component encoding is a function
 * the caller supplies.
 */
module RouteGuard {
  import opened Wrappers
  import AuthStore

  /** The prefix of every redirect the guard issues. */
  const LoginRedirectPrefix := "/login?redirect="

  /** The guard's decision: `None` lets the navigation proceed, `Some(target)` redirects. */
  function Guard(auth: AuthStore.State, fullPath: string, encode: string -> string): (r: Option<string>)
    ensures r.None? <==> AuthStore.IsAuthenticated(auth)
    ensures r.Some? ==> r.value == LoginRedirectPrefix + encode(fullPath)
  {
    if AuthStore.IsAuthenticated(auth) then None
    else Some(LoginRedirectPrefix + encode(fullPath))
  }

  /** Whether the guard redirects depends on nothing but `isAuthenticated`. */
  lemma DecisionIgnoresTarget(a: AuthStore.State, b: AuthStore.State, p: string, q: string,
                              encode: string -> string)
    requires AuthStore.IsAuthenticated(a) == AuthStore.IsAuthenticated(b)
    ensures Guard(a, p, encode).None? == Guard(b, q, encode).None?
  {
  }

  /** The requested path can be recovered from the redirect, by stripping the fixed prefix. */
  lemma RedirectCarriesTarget(auth: AuthStore.State, fullPath: string, encode: string -> string)
    requires !AuthStore.IsAuthenticated(auth)
    ensures var r := Guard(auth, fullPath, encode);
            r.Some? && r.value[..|LoginRedirectPrefix|] == LoginRedirectPrefix
            && r.value[|LoginRedirectPrefix|..] == encode(fullPath)
  {
  }
}
