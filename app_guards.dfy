/** The client's route guards (`App.jsx`): while the session check runs
    every guarded route shows the loading view; afterwards the admin pages
    need the admin or superadmin role and the role manager needs superadmin.
    The signed-in user is reduced to its role. */
module AppGuards {
  import opened Common

  /** What a guarded route renders. */
  datatype View = AuthLoading | RedirectHome | Children

  /** The roles `requireAdmin` lets through. */
  const ADMIN_ROLES: seq<string> := ["admin", "superadmin"]

  /** `requireAuthCheck`. */
  function RequireAuthCheck(isCheckingAuth: bool, child: View): (v: View)
    ensures isCheckingAuth ==> v == AuthLoading
    ensures !isCheckingAuth ==> v == child
  {
    if isCheckingAuth then AuthLoading else child
  }

  /** `requireAdmin`; `authRole` is None when nobody is signed in. */
  function RequireAdmin(isCheckingAuth: bool, authRole: Option<string>): View {
    RequireAuthCheck(isCheckingAuth,
      if authRole.None? || authRole.value !in ADMIN_ROLES then RedirectHome else Children)
  }

  /** `requireSuperAdmin`. */
  function RequireSuperAdmin(isCheckingAuth: bool, authRole: Option<string>): View {
    RequireAuthCheck(isCheckingAuth,
      if authRole.None? || authRole.value != "superadmin" then RedirectHome else Children)
  }

  /** During the session check neither guard decides anything. */
  lemma CheckingShowsLoading(authRole: Option<string>)
    ensures RequireAdmin(true, authRole) == AuthLoading
    ensures RequireSuperAdmin(true, authRole) == AuthLoading
  {
  }

  /** After the check, the admin pages open exactly for admins and
      superadmins, and everyone else is sent home. */
  lemma AdminGuard(authRole: Option<string>)
    ensures RequireAdmin(false, authRole) == Children <==>
      authRole == Some("admin") || authRole == Some("superadmin")
    ensures RequireAdmin(false, authRole) != Children ==> RequireAdmin(false, authRole) == RedirectHome
  {
  }

  /** The role manager opens exactly for superadmins. */
  lemma SuperAdminGuard(authRole: Option<string>)
    ensures RequireSuperAdmin(false, authRole) == Children <==> authRole == Some("superadmin")
    ensures RequireSuperAdmin(false, authRole) != Children ==> RequireSuperAdmin(false, authRole) == RedirectHome
  {
  }

  /** Whoever passes the superadmin guard passes the admin guard. */
  lemma SuperAdminIsAdmin(isCheckingAuth: bool, authRole: Option<string>)
    ensures RequireSuperAdmin(isCheckingAuth, authRole) == Children ==>
      RequireAdmin(isCheckingAuth, authRole) == Children
  {
  }
}
