/** The registration form: its field rules and its submit handler. */
module RegisterPage {
  import opened Common
  import opened Types
  import opened FormRules
  import opened ToastContext
  import opened AuthContext
  import opened LoginPage

  datatype RegisterForm = RegisterForm(name: string, email: string, password: string, confirmPassword: string)

  function NameError(name: string): (err: Option<string>)
    ensures err == None <==> Utf16Length(name) >= 2
    ensures name == "" ==> err == Some("Name is required")
  {
    TextRules(name, "Name is required", 2, "Name must be at least 2 characters")
  }

  /** `required`, then `validate`: the confirmation must equal the password typed above it. */
  function ConfirmPasswordError(confirmPassword: string, password: string): (err: Option<string>)
    ensures err == None <==> confirmPassword != "" && confirmPassword == password
    ensures confirmPassword == "" ==> err == Some("Please confirm your password")
    ensures confirmPassword != "" && confirmPassword != password ==> err == Some("Passwords do not match")
  {
    if confirmPassword == "" then Some("Please confirm your password")
    else if confirmPassword != password then Some("Passwords do not match")
    else None
  }

  predicate RegisterFormValid(form: RegisterForm) {
    && NameError(form.name).None?
    && EmailError(form.email).None?
    && PasswordError(form.password).None?
    && ConfirmPasswordError(form.confirmPassword, form.password).None?
  }

  /** A form that passes the rules always registers, keeping the name exactly as typed. */
  lemma ValidRegistrationSignsIn(s: AuthState, form: RegisterForm)
    requires RegisterFormValid(form)
    ensures form.confirmPassword == form.password && Utf16Length(form.password) >= 6
    ensures RegisterDecision(form.email, form.password, form.name) == Accepted(User("1", form.email, form.name))
    ensures var r := RegisterTransition(s, form.email, form.password, form.name);
      r.isAuthenticated && r.user == Some(User("1", form.email, form.name))
  {
  }

  /** The form library calls `onSubmit` only for a valid form; `onSubmit` awaits `register`, then goes to "/". */
  method Submit(auth: AuthSession, form: RegisterForm, toasts: ToastQueue, toastId: string)
    returns (result: PageResult)
    modifies auth, toasts
    ensures !RegisterFormValid(form) ==>
      result == StayOnForm && auth.State() == old(auth.State()) && toasts.toasts == old(toasts.toasts)
    ensures RegisterFormValid(form) ==>
      result == NavigateTo("/")
      && auth.State() == RegisterTransition(old(auth.State()), form.email, form.password, form.name)
      && auth.user == Some(User("1", form.email, form.name))
      && toasts.toasts == old(toasts.toasts) + [Toast(toastId, Success, "Registration successful!")]
  {
    if !RegisterFormValid(form) {
      return StayOnForm;
    }
    ghost var before := auth.State();
    ValidRegistrationSignsIn(before, form);
    auth.Register(form.email, form.password, form.name, toasts, toastId);
    result := NavigateTo("/");
  }
}
