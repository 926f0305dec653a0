/** The auth slice (src/features/auth/authSlice.ts): the signed-in account,
    and the pure parts of the sign-up and sign-in thunks — the account
    records they synthesise and their not-found branches. */
module AuthSlice {
  import opened Common
  import opened Types
  import Lifecycle

  type State = Lifecycle.Slice<Option<User>>

  const Initial: State := Lifecycle.Slice(None, false, None)

  datatype Thunk = RegisterUser | SignIn | SignInWithGoogle | SignOut

  datatype Action =
    | SetUser(user: Option<User>)
    | ClearError
    | Pending(thunk: Thunk)
    | Rejected(thunk: Thunk, message: string)
    | Registered(account: User)
    | SignedIn(account: User)
    | SignedInWithGoogle(account: User)
    | SignedOut

  /** The slice reducer. Every `pending` clears the error except
      `signOut.pending`, which only raises the loading flag. */
  function Reduce(s: State, a: Action): (t: State)
    ensures a.Pending? ==> t.isLoading && t.data == s.data
    ensures a.Pending? && a.thunk != SignOut ==> t.error == None
    ensures a == Action.Pending(SignOut) ==> t.error == s.error
    ensures a.Rejected? ==> !t.isLoading && t.error == Some(a.message) && t.data == s.data
    ensures (a.Registered? || a.SignedIn? || a.SignedInWithGoogle?) ==>
      !t.isLoading && t.data == Some(a.account) && t.error == s.error
    ensures a.SignedOut? ==> !t.isLoading && t.data == None && t.error == s.error
    ensures a.SetUser? ==> t.data == a.user && t.isLoading == s.isLoading && t.error == s.error
    ensures a.ClearError? ==> t.error == None && t.data == s.data && t.isLoading == s.isLoading
  {
    match a
    case SetUser(u) => s.(data := u)
    case ClearError => Lifecycle.ClearError(s)
    case Pending(SignOut) => s.(isLoading := true)
    case Pending(_) => Lifecycle.Start(s)
    case Rejected(_, m) => Lifecycle.Fail(s, m)
    case Registered(u) => Lifecycle.Settle(s, Some(u))
    case SignedIn(u) => Lifecycle.Settle(s, Some(u))
    case SignedInWithGoogle(u) => Lifecycle.Settle(s, Some(u))
    case SignedOut => Lifecycle.Settle(s, None)
  }

  /** A failed sign-out attempt keeps the account signed in, and a failed
      sign-in attempt keeps whoever was signed in before. */
  lemma FailedAttemptKeepsUser(s: State, th: Thunk, m: string)
    ensures Reduce(Reduce(s, Action.Pending(th)), Rejected(th, m)).data == s.data
    ensures Reduce(Reduce(s, Action.Pending(th)), Rejected(th, m)).error == Some(m)
  {
  }

  /** Because `signOut.pending` keeps the error, an error from an earlier
      attempt is still shown while signing out, and after a successful
      sign-out. */
  lemma SignOutKeepsStaleError(s: State)
    ensures Reduce(Reduce(s, Action.Pending(SignOut)), SignedOut).error == s.error
    ensures Reduce(Reduce(s, Action.Pending(SignOut)), SignedOut).data == None
  {
  }

  /** What the auth provider reports about the principal: its uid and the
      nullable profile fields. */
  datatype Principal = Principal(
    uid: string,
    email: Option<string>,
    displayName: Option<string>,
    photoURL: Option<string>)

  /** JavaScript's `x || ''` on a nullable string. */
  function OrEmpty(x: Option<string>): string {
    x.GetOr("")
  }

  /** The account `registerUser` writes: keyed by the new uid, with the
      display name and role the form supplied, and an empty string for a
      missing email or photo. */
  function RegisteredAccount(p: Principal, displayName: string, userType: UserType, now: nat): (u: User)
    ensures u.id == p.uid && u.displayName == displayName && u.userType == userType
    ensures u.email == (if p.email.Some? then p.email.value else "")
    ensures u.photoURL == Some(if p.photoURL.Some? then p.photoURL.value else "")
    ensures u.createdAt == now
  {
    User(p.uid, OrEmpty(p.email), displayName, Some(OrEmpty(p.photoURL)), userType, now)
  }

  /** The account `signInWithGoogle` writes for a principal with no stored
      account: keyed by the uid, and always a customer. */
  function GoogleAccount(p: Principal, now: nat): (u: User)
    ensures u.id == p.uid && u.userType == Customer
    ensures u.email == (if p.email.Some? then p.email.value else "")
    ensures u.displayName == (if p.displayName.Some? then p.displayName.value else "")
    ensures u.photoURL == Some(if p.photoURL.Some? then p.photoURL.value else "")
    ensures u.createdAt == now
  {
    User(p.uid, OrEmpty(p.email), OrEmpty(p.displayName), Some(OrEmpty(p.photoURL)), Customer, now)
  }

  /** `signIn` after the credentials were accepted: the stored account
      fulfils as stored; none rejects with "User data not found". */
  function SignInResult(stored: Read<User>): (r: Result<User>)
    ensures r.Ok? <==> stored.Found?
    ensures r.Ok? ==> r.value == stored.data
    ensures stored.Missing? ==> r == Err("User data not found")
    ensures stored.ReadFailed? ==> r == Err(stored.message)
  {
    ReadOrReject(stored, "User data not found")
  }

  /** `signInWithGoogle` after the popup succeeded: the stored account if
      there is one; otherwise a synthesised customer account, once it has
      been written. */
  function GoogleSignInResult(p: Principal, stored: Read<User>, save: Write<()>, now: nat): (r: Result<User>)
    ensures stored.Found? ==> r == Ok(stored.data)
    ensures stored.Missing? && save.Written? ==> r == Ok(GoogleAccount(p, now))
    ensures stored.Missing? && save.WriteFailed? ==> r == Err(save.message)
    ensures stored.ReadFailed? ==> r == Err(stored.message)
    ensures r.Ok? && !stored.Found? ==> r.value.userType == Customer && r.value.id == p.uid
  {
    match stored
    case Found(u) => Ok(u)
    case ReadFailed(m) => Err(m)
    case Missing =>
      match save
      case WriteFailed(m) => Err(m)
      case Written(_) => Ok(GoogleAccount(p, now))
  }

  /** How a settled auth thunk reaches the reducer: its `fulfilled` action,
      or `rejected` with the message. */
  function Outcome(th: Thunk, r: Result<User>): Action {
    match r
    case Err(m) => Rejected(th, m)
    case Ok(u) =>
      match th
      case RegisterUser => Registered(u)
      case SignIn => SignedIn(u)
      case SignInWithGoogle => SignedInWithGoogle(u)
      case SignOut => SignedOut
  }

  /** One attempt of `th` from `s`, settling with `r`. */
  function Attempt(s: State, th: Thunk, r: Result<User>): State {
    Reduce(Reduce(s, Action.Pending(th)), Outcome(th, r))
  }

  /** A registration signs in the account just written: keyed by the new
      uid, with the role the form chose. */
  lemma RegistrationSignsIn(s: State, p: Principal, displayName: string, userType: UserType, now: nat)
    ensures var t := Attempt(s, RegisterUser, Ok(RegisteredAccount(p, displayName, userType, now)));
      && !t.isLoading && t.error == None && t.data.Some?
      && t.data.value.id == p.uid && t.data.value.userType == userType
      && t.data.value.displayName == displayName
  {
  }

  /** `signIn` with accepted credentials: a stored profile is signed in; a
      missing one keeps whoever was signed in before — nobody, from a
      signed-out state — and shows "User data not found". */
  lemma SignInReaches(s: State, stored: Read<User>)
    ensures var t := Attempt(s, SignIn, SignInResult(stored));
      && !t.isLoading
      && (stored.Found? ==> t.data == Some(stored.data) && t.error == None)
      && (stored.Missing? ==> t.data == s.data && t.error == Some("User data not found"))
      && (stored.ReadFailed? ==> t.data == s.data && t.error == Some(stored.message))
  {
  }

  /** A first Google sign-in, once the new profile is saved, signs in a
      customer keyed by the provider's uid; a failed save signs nobody new
      in and shows the failure. A returning user gets the stored profile. */
  lemma GoogleSignInReaches(s: State, p: Principal, stored: Read<User>, save: Write<()>, now: nat)
    ensures var t := Attempt(s, SignInWithGoogle, GoogleSignInResult(p, stored, save, now));
      && !t.isLoading
      && (stored.Found? ==> t.data == Some(stored.data) && t.error == None)
      && (stored.Missing? && save.Written? ==>
            t.data == Some(GoogleAccount(p, now)) && t.data.value.userType == Customer
            && t.data.value.id == p.uid && t.error == None)
      && (stored.Missing? && save.WriteFailed? ==> t.data == s.data && t.error == Some(save.message))
  {
  }
}
