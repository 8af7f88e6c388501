/** The client-side route guard of frontend/src/components/ProtectedRoute.js:
    which of three things a protected page renders, decided from the auth
    context's flags in a fixed order. The context itself (how it learns
    the user and the role) is outside the model; its answers are inputs. */
module ProtectedRoute {

  /** What the guard renders: the loading placeholder, a replace-navigation
      to another path, or the protected page itself. */
  datatype View = Spinner | Redirect(to: string) | Children

  /** The auth context's `loading` flag and the answers of its
      `isAuthenticated()`, `isAdmin()` and `isStaff()`. */
  datatype AuthState = AuthState(loading: bool, authenticated: bool, admin: bool, staff: bool)

  /** The two props; both default to false. */
  datatype Requirements = Requirements(requireAdmin: bool, requireStaff: bool)

  const NoRequirements := Requirements(false, false)

  /** The guard's decision: loading first, then login, then the admin
      requirement, then the staff requirement. */
  function Decide(s: AuthState, req: Requirements): (v: View)
    ensures s.loading ==> v == Spinner
    ensures !s.loading && !s.authenticated ==> v == Redirect("/login")
    ensures v == Children <==>
              !s.loading && s.authenticated && (req.requireAdmin ==> s.admin) && (req.requireStaff ==> s.staff)
    ensures !s.loading && s.authenticated && v != Children ==> v == Redirect("/dashboard")
  {
    if s.loading then Spinner
    else if !s.authenticated then Redirect("/login")
    else if req.requireAdmin && !s.admin then Redirect("/dashboard")
    else if req.requireStaff && !s.staff then Redirect("/dashboard")
    else Children
  }

  /** With the props left at their defaults, every signed-in user sees the
      page once loading is over, whatever the role. */
  lemma DefaultsAdmitEverySignedInUser(s: AuthState)
    requires !s.loading && s.authenticated
    ensures Decide(s, NoRequirements) == Children
  {
  }

  /** Asking for more never lets more through: a page refused under some
      requirements is refused under any that add to them, and with the same
      view. */
  lemma StrongerRequirementsRefuseMore(s: AuthState, weak: Requirements, strong: Requirements)
    requires weak.requireAdmin ==> strong.requireAdmin
    requires weak.requireStaff ==> strong.requireStaff
    ensures Decide(s, weak) != Children ==> Decide(s, strong) == Decide(s, weak)
  {
  }

  /** The guard never sends a signed-in user to the login page, and never
      sends anyone anywhere while loading. */
  lemma RedirectTargets(s: AuthState, req: Requirements)
    ensures Decide(s, req) == Redirect("/login") <==> !s.loading && !s.authenticated
    ensures Decide(s, req).Redirect? ==> !s.loading
  {
  }
}
