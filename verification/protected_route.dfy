/** The route guard (src/components/ProtectedRoute.tsx): what a guarded
    route renders, decided from the auth slice alone. */
module ProtectedRoute {
  import opened Common
  import opened Types
  import AuthSlice

  datatype View = Spinner | Redirect(to: string) | Children

  /** The guard: a spinner while the auth slice is loading, whoever is
      signed in; otherwise a redirect to "/login" without an account and the
      guarded children with one. Exactly one of the three for every input. */
  function Guard(isLoading: bool, user: Option<User>): (v: View)
    ensures v.Spinner? <==> isLoading
    ensures v.Redirect? <==> !isLoading && user.None?
    ensures v.Children? <==> !isLoading && user.Some?
    ensures v.Redirect? ==> v.to == "/login"
  {
    if isLoading then Spinner
    else if user.None? then Redirect("/login")
    else Children
  }

  function GuardOf(s: AuthSlice.State): View {
    Guard(s.isLoading, s.data)
  }

  /** How the guard follows the auth slice: any auth operation in flight
      shows the spinner; a completed sign-out sends the visitor to the
      login page; a completed sign-in of any kind shows the guarded page; a
      failed attempt leaves the visitor where the prior account puts them. */
  lemma GuardFollowsAuth(s: AuthSlice.State, a: AuthSlice.Action)
    ensures a.Pending? ==> GuardOf(AuthSlice.Reduce(s, a)) == Spinner
    ensures a.SignedOut? ==> GuardOf(AuthSlice.Reduce(s, a)) == Redirect("/login")
    ensures a.Registered? || a.SignedIn? || a.SignedInWithGoogle? ==>
      GuardOf(AuthSlice.Reduce(s, a)) == Children
    ensures a.Rejected? ==>
      GuardOf(AuthSlice.Reduce(s, a)) == (if s.data.Some? then Children else Redirect("/login"))
  {
  }

  /** After a successful sign-in of any kind the guarded page shows; after
      a sign-in whose profile is missing, a signed-out visitor is still sent
      to the login page. */
  lemma SignInOpensGuardedPages(s: AuthSlice.State, p: AuthSlice.Principal, stored: Read<User>,
                                save: Write<()>, now: nat)
    ensures stored.Found? || (stored.Missing? && save.Written?) ==>
      GuardOf(AuthSlice.Attempt(s, AuthSlice.SignInWithGoogle,
                                AuthSlice.GoogleSignInResult(p, stored, save, now))) == Children
    ensures stored.Found? ==>
      GuardOf(AuthSlice.Attempt(s, AuthSlice.SignIn, AuthSlice.SignInResult(stored))) == Children
    ensures stored.Missing? && s.data.None? ==>
      GuardOf(AuthSlice.Attempt(s, AuthSlice.SignIn, AuthSlice.SignInResult(stored))) == Redirect("/login")
  {
  }
}
