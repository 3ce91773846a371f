/**
 * The route guard (frontend/src/components/Auth/ProtectedRoute.jsx): given
 * the store's `isAuthenticated` value, the signed-in user and the route's
 * required role, decide between a loading spinner, a redirect to the login
 * page, a redirect to the dashboard, or rendering the protected page.
 */
module ProtectedRoute {
  import opened Wrappers
  import opened Js
  import AuthStore

  datatype Decision = Loading | RedirectLogin | RedirectDashboard | Render

  /** `user?.role`. */
  function RoleOf(user: Option<Record>): (r: Value) {
    GetOpt(user, "role")
  }

  /** The guard; `requiredRole` defaults to `null` at the call sites that omit it. */
  function Guard(isAuthenticated: Value, user: Option<Record>, requiredRole: Value): (d: Decision)
    ensures d == Loading <==> isAuthenticated == Undefined
    ensures d == RedirectDashboard ==> Truthy(isAuthenticated) && Truthy(requiredRole) && RoleOf(user) != requiredRole
    ensures d == Render ==> Truthy(isAuthenticated)
  {
    if isAuthenticated == Undefined then Loading
    else if !Truthy(isAuthenticated) then RedirectLogin
    else if Truthy(requiredRole) && RoleOf(user) != requiredRole then RedirectDashboard
    else Render
  }

  /** Every falsy flag other than `undefined` (false, null, 0, "") sends the visitor to the login page. */
  lemma FalsyRedirectsToLogin(isAuthenticated: Value, user: Option<Record>, requiredRole: Value)
    ensures Guard(isAuthenticated, user, requiredRole) == RedirectLogin
        <==> isAuthenticated != Undefined && !Truthy(isAuthenticated)
  {
  }

  /** The role check is reached only by authenticated visitors, and a missing user never has the role. */
  lemma RoleMismatchRedirectsToDashboard(isAuthenticated: Value, user: Option<Record>, requiredRole: Value)
    requires Truthy(isAuthenticated) && Truthy(requiredRole)
    ensures Guard(isAuthenticated, user, requiredRole) == RedirectDashboard <==> RoleOf(user) != requiredRole
    ensures user.None? ==> Guard(isAuthenticated, user, requiredRole) == RedirectDashboard
  {
  }

  /** Without a required role, an authenticated visitor always gets the page. */
  lemma NoRoleRenders(isAuthenticated: Value, user: Option<Record>, requiredRole: Value)
    requires Truthy(isAuthenticated) && !Truthy(requiredRole)
    ensures Guard(isAuthenticated, user, requiredRole) == Render
  {
  }

  /** The guard as the store drives it: `isAuthenticated` read from the store's state. */
  function GuardState(st: AuthStore.AuthState, requiredRole: Value): (d: Decision) {
    Guard(Bool(st.isAuthenticated), st.user, requiredRole)
  }

  /**
   * The store only ever holds a boolean flag, so the loading branch is
   * unreachable from it: every store state leads to a redirect or the page.
   */
  lemma StoreNeverLoading(st: AuthStore.AuthState, requiredRole: Value)
    ensures GuardState(st, requiredRole) != Loading
    ensures GuardState(st, requiredRole) == RedirectLogin <==> !st.isAuthenticated
  {
  }

  /** Right after `login`, an unrestricted route renders, and a role route renders iff the user has the role. */
  lemma LoginThenGuard(s: AuthStore.Session, userData: Option<Record>, tokens: AuthStore.Tokens, requiredRole: Value)
    ensures !Truthy(requiredRole) ==> GuardState(AuthStore.Login(s, userData, tokens).state, requiredRole) == Render
    ensures Truthy(requiredRole) ==>
      (GuardState(AuthStore.Login(s, userData, tokens).state, requiredRole) == Render <==> RoleOf(userData) == requiredRole)
  {
  }

  /** After `logout`, every protected route redirects to the login page. */
  lemma LogoutThenGuard(s: AuthStore.Session, requiredRole: Value)
    ensures GuardState(AuthStore.Logout(s).state, requiredRole) == RedirectLogin
  {
  }

  /** The admin panel's route (`requiredRole="admin"`) renders exactly for authenticated admins. */
  lemma AdminRoute(st: AuthStore.AuthState)
    ensures GuardState(st, Str("admin")) == Render <==> st.isAuthenticated && RoleOf(st.user) == Str("admin")
  {
  }

  /**
   * `updateUser` changes what a guarded route decides only through the
   * user's `role`: without a `role` field the decision is unchanged, and with
   * one the user's role becomes that value.
   */
  lemma UpdateUserThenGuard(s: AuthStore.Session, userData: Option<Record>, requiredRole: Value)
    ensures "role" !in Spread(userData) ==>
      GuardState(AuthStore.UpdateUser(s, userData).state, requiredRole) == GuardState(s.state, requiredRole)
    ensures "role" in Spread(userData) ==>
      RoleOf(AuthStore.UpdateUser(s, userData).state.user) == Spread(userData)["role"]
  {
  }
}
