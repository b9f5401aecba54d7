/** The role guard placed around protected routes. */
module ProtectedRoute {
  import opened Common
  import opened AuthContext

  /** What the guard renders: a redirect, or the nested route. */
  datatype Outcome = Navigate(to: string) | Outlet

  const LoginPath: string := "/login"
  const HomePath: string := "/"

  function Guard(user: Option<User>, allowedRoles: seq<string>): (r: Outcome)
    ensures r == Navigate(LoginPath) <==> user.None?
    ensures r == Navigate(HomePath) <==> user.Some? && user.value.role !in allowedRoles
    ensures r == Outlet <==> user.Some? && user.value.role in allowedRoles
  {
    if user.None? then Navigate(LoginPath)
    else if user.value.role !in allowedRoles then Navigate(HomePath)
    else Outlet
  }

  /** Widening the allowed roles never turns an admitted user away, and
      two role lists with the same members always give the same outcome. */
  lemma GuardAllowedRoles(user: Option<User>, allowedRoles: seq<string>, wider: seq<string>)
    requires forall r :: r in allowedRoles ==> r in wider
    ensures Guard(user, allowedRoles) == Outlet ==> Guard(user, wider) == Outlet
    ensures Guard(user, wider) == Navigate(HomePath) ==> Guard(user, allowedRoles) == Navigate(HomePath)
    ensures (forall r :: r in wider ==> r in allowedRoles) ==> Guard(user, allowedRoles) == Guard(user, wider)
  {
  }

  /** Signing out sends every protected route to the login page, and a
      user restored from the store is judged by that user's role alone. */
  lemma GuardAfterSession(store: Store, u: User, allowedRoles: seq<string>)
    ensures Guard(StoredUser(LogoutStore(store)), allowedRoles) == Navigate(LoginPath)
    ensures Guard(StoredUser(LoginStore(store, u)), allowedRoles) ==
            if u.role in allowedRoles then Outlet else Navigate(HomePath)
  {
    LogoutForgetsUser(store);
    LoginThenReload(store, u);
  }
}
