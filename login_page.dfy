/** The sign-in form: its field rules, where it sends the user, and its submit handler. */
module LoginPage {
  import opened Common
  import opened Types
  import opened FormRules
  import opened ToastContext
  import opened AuthContext

  datatype LoginForm = LoginForm(email: string, password: string)

  /** What a submit does to the page: stay on the form, or navigate to a path. */
  datatype PageResult = StayOnForm | NavigateTo(path: string)

  predicate LoginFormValid(form: LoginForm) {
    EmailError(form.email).None? && PasswordError(form.password).None?
  }

  /** `location.state?.from?.pathname || '/'`: the page the user came from, else the dashboard. */
  function RedirectTarget(from: Option<string>): (path: string)
    ensures from.Some? && from.value != "" ==> path == from.value
    ensures from.None? || from.value == "" ==> path == "/"
    ensures path != ""
  {
    if from.Some? && from.value != "" then from.value else "/"
  }

  /**
   * A form that passes the rules always signs in, and the user's name is the e-mail's non-empty
   * local part: the characters before its only `@`.
   */
  lemma ValidLoginSignsIn(s: AuthState, form: LoginForm)
    requires LoginFormValid(form)
    ensures var r := LoginTransition(s, form.email, form.password);
      r.isAuthenticated && r.user.Some? && r.user.value.email == form.email
    ensures var name := LoginTransition(s, form.email, form.password).user.value.name;
      0 < |name| < |form.email| && name == form.email[..|name|] && form.email[|name|] == '@'
      && AllLocal(name)
  {
    MatchesEmailSound(form.email);
    var at, dot :| SplitAt(form.email, at, dot);
    SplitAtIsUnique(form.email, at, dot);
    NameIsLocalPart(form.email, at);
  }

  /**
   * The form library calls `onSubmit` only for a valid form; `onSubmit` awaits `login` and then
   * navigates to the redirect target (its `catch` is never reached: `login` does not throw).
   */
  method Submit(auth: AuthSession, form: LoginForm, from: Option<string>, toasts: ToastQueue,
                toastId: string) returns (result: PageResult)
    modifies auth, toasts
    ensures !LoginFormValid(form) ==>
      result == StayOnForm && auth.State() == old(auth.State()) && toasts.toasts == old(toasts.toasts)
    ensures LoginFormValid(form) ==>
      result == NavigateTo(RedirectTarget(from))
      && auth.State() == LoginTransition(old(auth.State()), form.email, form.password)
      && auth.isAuthenticated
      && toasts.toasts == old(toasts.toasts) + [Toast(toastId, Success, "Login successful!")]
  {
    if !LoginFormValid(form) {
      return StayOnForm;
    }
    ghost var before := auth.State();
    ValidLoginSignsIn(before, form);
    auth.Login(form.email, form.password, toasts, toastId);
    result := NavigateTo(RedirectTarget(from));
  }
}
