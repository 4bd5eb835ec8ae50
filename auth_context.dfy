/**
 * The session: a reducer over the authentication state, the mock decision of `login` and
 * `register`, and the session object whose operations dispatch to the reducer.
 */
module AuthContext {
  import opened Common
  import opened Types
  import opened ToastContext

  /** Before the stored session has been checked: nobody is signed in and loading is under way. */
  const InitialAuthState := AuthState(None, false, true, None)

  /** `UnknownAuthAction` stands for an action object of any other type. */
  datatype AuthAction =
    | LoginStart
    | LoginSuccess(user: User)
    | LoginFailure(message: string)
    | RegisterStart
    | RegisterSuccess(user: User)
    | RegisterFailure(message: string)
    | Logout
    | UnknownAuthAction

  function AuthReducer(s: AuthState, a: AuthAction): (r: AuthState)
    ensures (a.LoginStart? || a.RegisterStart?) ==>
      r.isLoading && r.error == None && r.user == s.user && r.isAuthenticated == s.isAuthenticated
    ensures (a.LoginSuccess? || a.RegisterSuccess?) ==>
      r.isAuthenticated && r.user == Some(a.user) && !r.isLoading && r.error == None
    ensures (a.LoginFailure? || a.RegisterFailure?) ==>
      !r.isAuthenticated && !r.isLoading && r.error == Some(a.message) && r.user == s.user
    ensures a.Logout? ==>
      !r.isAuthenticated && r.user == None && r.isLoading == s.isLoading && r.error == s.error
    ensures a.UnknownAuthAction? ==> r == s
  {
    match a
    case LoginStart => s.(isLoading := true, error := None)
    case RegisterStart => s.(isLoading := true, error := None)
    case LoginSuccess(u) => s.(isLoading := false, isAuthenticated := true, user := Some(u), error := None)
    case RegisterSuccess(u) => s.(isLoading := false, isAuthenticated := true, user := Some(u), error := None)
    case LoginFailure(msg) => s.(isLoading := false, isAuthenticated := false, error := Some(msg))
    case RegisterFailure(msg) => s.(isLoading := false, isAuthenticated := false, error := Some(msg))
    case Logout => s.(isAuthenticated := false, user := None)
    case UnknownAuthAction => s
  }

  /** `email.split('@')[0]`: the text before the first `@`, or the whole e-mail when there is none. */
  function NameFromEmail(email: string): (name: string)
    ensures name <= email
    ensures '@' !in name
    ensures |name| < |email| ==> email[|name|] == '@'
    ensures '@' !in email ==> name == email
  {
    if |email| == 0 || email[0] == '@' then []
    else
      var tail := NameFromEmail(email[1..]);
      assert [email[0]] + tail <= [email[0]] + email[1..];
      assert email == [email[0]] + email[1..];
      [email[0]] + tail
  }

  /** When the first `@` is at `at`, the derived name is exactly the characters before it. */
  lemma {:induction false} NameIsLocalPart(email: string, at: nat)
    requires at < |email| && email[at] == '@'
    requires forall i :: 0 <= i < at ==> email[i] != '@'
    ensures NameFromEmail(email) == email[..at]
    decreases at
  {
    if at > 0 {
      NameIsLocalPart(email[1..], at - 1);
      assert email[..at] == [email[0]] + email[1..][..at - 1];
    }
  }

  /** The outcome of the mock back end. */
  datatype AuthOutcome = Accepted(user: User) | Rejected(message: string)

  /** `login`'s decision: any non-empty e-mail and password are accepted. */
  function LoginDecision(email: string, password: string): (r: AuthOutcome)
    ensures r.Accepted? <==> email != "" && password != ""
    ensures r.Accepted? ==> r.user == User("1", email, NameFromEmail(email))
    ensures r.Rejected? ==> r.message == "Invalid credentials"
  {
    if email != "" && password != "" then Accepted(User("1", email, NameFromEmail(email)))
    else Rejected("Invalid credentials")
  }

  /** `register`'s decision: e-mail, password and name must all be non-empty; the name is kept verbatim. */
  function RegisterDecision(email: string, password: string, name: string): (r: AuthOutcome)
    ensures r.Accepted? <==> email != "" && password != "" && name != ""
    ensures r.Accepted? ==> r.user == User("1", email, name)
    ensures r.Rejected? ==> r.message == "Please fill all required fields"
  {
    if email != "" && password != "" && name != "" then Accepted(User("1", email, name))
    else Rejected("Please fill all required fields")
  }

  /** The state once `login` has finished: LOGIN_START, then LOGIN_SUCCESS or LOGIN_FAILURE. */
  function LoginTransition(s: AuthState, email: string, password: string): (r: AuthState)
    ensures r.isAuthenticated <==> email != "" && password != ""
    ensures !r.isLoading
    ensures r.isAuthenticated ==> r.user == Some(User("1", email, NameFromEmail(email))) && r.error == None
    ensures !r.isAuthenticated ==> r.user == s.user && r.error == Some("Invalid credentials")
  {
    var started := AuthReducer(s, LoginStart);
    match LoginDecision(email, password)
    case Accepted(u) => AuthReducer(started, LoginSuccess(u))
    case Rejected(msg) => AuthReducer(started, LoginFailure(msg))
  }

  /** The state once `register` has finished: REGISTER_START, then REGISTER_SUCCESS or REGISTER_FAILURE. */
  function RegisterTransition(s: AuthState, email: string, password: string, name: string): (r: AuthState)
    ensures r.isAuthenticated <==> email != "" && password != "" && name != ""
    ensures !r.isLoading
    ensures r.isAuthenticated ==> r.user == Some(User("1", email, name)) && r.error == None
    ensures !r.isAuthenticated ==> r.user == s.user && r.error == Some("Please fill all required fields")
  {
    var started := AuthReducer(s, RegisterStart);
    match RegisterDecision(email, password, name)
    case Accepted(u) => AuthReducer(started, RegisterSuccess(u))
    case Rejected(msg) => AuthReducer(started, RegisterFailure(msg))
  }

  /** The session held by the provider. */
  class AuthSession {
    var user: Option<User>
    var isAuthenticated: bool
    var isLoading: bool
    var error: Option<string>

    function State(): AuthState
      reads this
    {
      AuthState(user, isAuthenticated, isLoading, error)
    }

    constructor ()
      ensures State() == InitialAuthState
    {
      user, isAuthenticated, isLoading, error := None, false, true, None;
    }

    method Dispatch(action: AuthAction)
      modifies this
      ensures State() == AuthReducer(old(State()), action)
    {
      var next := AuthReducer(State(), action);
      user, isAuthenticated, isLoading, error := next.user, next.isAuthenticated, next.isLoading, next.error;
    }

    method Login(email: string, password: string, toasts: ToastQueue, toastId: string)
      modifies this, toasts
      ensures State() == LoginTransition(old(State()), email, password)
      ensures toasts.toasts == old(toasts.toasts) +
        [if isAuthenticated then Toast(toastId, Success, "Login successful!")
         else Toast(toastId, Error, "Invalid credentials")]
    {
      Dispatch(LoginStart);
      var outcome := LoginDecision(email, password);
      match outcome {
        case Accepted(u) =>
          Dispatch(LoginSuccess(u));
          toasts.ShowToast(Success, "Login successful!", toastId);
        case Rejected(msg) =>
          Dispatch(LoginFailure(msg));
          toasts.ShowToast(Error, msg, toastId);
      }
    }

    method Register(email: string, password: string, name: string, toasts: ToastQueue, toastId: string)
      modifies this, toasts
      ensures State() == RegisterTransition(old(State()), email, password, name)
      ensures toasts.toasts == old(toasts.toasts) +
        [if isAuthenticated then Toast(toastId, Success, "Registration successful!")
         else Toast(toastId, Error, "Please fill all required fields")]
    {
      Dispatch(RegisterStart);
      var outcome := RegisterDecision(email, password, name);
      match outcome {
        case Accepted(u) =>
          Dispatch(RegisterSuccess(u));
          toasts.ShowToast(Success, "Registration successful!", toastId);
        case Rejected(msg) =>
          Dispatch(RegisterFailure(msg));
          toasts.ShowToast(Error, msg, toastId);
      }
    }

    method Logout(toasts: ToastQueue, toastId: string)
      modifies this, toasts
      ensures State() == AuthReducer(old(State()), AuthAction.Logout)
      ensures toasts.toasts == old(toasts.toasts) + [Toast(toastId, Info, "You have been logged out")]
    {
      Dispatch(AuthAction.Logout);
      toasts.ShowToast(Info, "You have been logged out", toastId);
    }
  }
}
