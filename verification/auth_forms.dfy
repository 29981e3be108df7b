/** The sign-in and registration forms: which submissions reach the
    backend, where a signed-in visitor is sent, and which error text is
    shown when the backend refuses. */
module AuthForms {
  import opened Wrappers
  import opened Types
  import opened AuthStore

  /** A submit either stops with a message or sends the payload. */
  datatype Submission<P> = Rejected(message: string) | Submitted(payload: P)

  const FillAllFields := "Please fill in all fields"

  // ---- Sign-in ----

  datatype LoginForm = LoginForm(email: string, password: string)

  /** `location.state?.from?.pathname ?? "/home"` */
  function LoginTarget(fromPathname: Option<string>): (r: string)
    ensures fromPathname.Some? ==> r == fromPathname.value
    ensures fromPathname.None? ==> r == "/home"
  {
    fromPathname.GetOr("/home")
  }

  /** A visitor already signed in is sent on to the page that asked for
      the sign-in, or home. */
  function LoginRedirect(isAuthenticated: bool, fromPathname: Option<string>): (r: Option<string>)
    ensures r.Some? <==> isAuthenticated
    ensures r.Some? && fromPathname.Some? ==> r.value == fromPathname.value
    ensures r.Some? && fromPathname.None? ==> r.value == "/home"
  {
    if isAuthenticated then Some(LoginTarget(fromPathname)) else None
  }

  /** `handleSubmit`: both fields must be non-empty. */
  function LoginSubmit(form: LoginForm): (r: Submission<LoginForm>)
    ensures r.Submitted? <==> form.email != "" && form.password != ""
    ensures r.Submitted? ==> r.payload == form
    ensures r.Rejected? ==> r.message == FillAllFields
  {
    if form.email == "" || form.password == "" then Rejected(FillAllFields) else Submitted(form)
  }

  /** `err.response?.data?.message ?? "Login failed"` */
  function LoginErrorText(serverMessage: Option<string>): (r: string)
    ensures serverMessage.Some? ==> r == serverMessage.value
    ensures serverMessage.None? ==> r == "Login failed"
  {
    serverMessage.GetOr("Login failed")
  }

  /** `onSuccess`: store the session, then go to the redirect target. */
  function LoginSucceeded(s: Session, resp: AuthResponse, fromPathname: Option<string>): (r: (Session, string))
    ensures r.0.state.isAuthenticated && r.0.state.user == Some(resp.user) && r.0.state.token == Some(resp.token)
    ensures LoginRedirect(r.0.state.isAuthenticated, fromPathname) == Some(r.1)
  {
    (SetAuth(s, resp.user, resp.token), LoginTarget(fromPathname))
  }

  // ---- Registration ----

  datatype RegisterForm = RegisterForm(name: string, email: string, password: string, rePassword: string)

  const PasswordsDiffer := "Passwords do not match"

  /** `handleSubmit`: the password confirmation is checked first, then that
      name, email and password are filled in. */
  function RegisterSubmit(form: RegisterForm): (r: Submission<RegisterForm>)
    ensures form.password != form.rePassword ==> r == Rejected(PasswordsDiffer)
    ensures form.password == form.rePassword && (form.name == "" || form.email == "" || form.password == "") ==>
              r == Rejected(FillAllFields)
    ensures r.Submitted? <==>
              form.password == form.rePassword && form.name != "" && form.email != "" && form.password != ""
    ensures r.Submitted? ==> r.payload == form
  {
    if form.password != form.rePassword then Rejected(PasswordsDiffer)
    else if form.name == "" || form.email == "" || form.password == "" then Rejected(FillAllFields)
    else Submitted(form)
  }

  /** An empty form whose two password fields differ is refused for the
      mismatch, not for the empty fields. */
  lemma MismatchReportedFirst(rePassword: string)
    requires rePassword != ""
    ensures RegisterSubmit(RegisterForm("", "", "", rePassword)) == Rejected(PasswordsDiffer)
  {
  }

  /** The backend's error body: a message and a field-to-error object.
      The object is given as its entries in the order `Object.values` lists
      them (integer-like keys first, ascending, then the other keys in
      insertion order); an entry's value may be `null` or missing. */
  datatype ErrorBody = ErrorBody(message: Option<string>, errors: Option<seq<(string, Option<string>)>>)

  /** `onError`: the first field error when the errors object has entries
      (`first ?? "Registration failed"` when that entry is `null`), else the
      server message, else "Registration failed". */
  function RegisterErrorText(body: Option<ErrorBody>): (r: string)
    ensures body.Some? && body.value.errors.Some? && |body.value.errors.value| > 0 ==>
              r == (if body.value.errors.value[0].1.Some? then body.value.errors.value[0].1.value
                    else "Registration failed")
    ensures (body.None? || body.value.errors.None? || |body.value.errors.value| == 0) ==>
              r == (if body.Some? && body.value.message.Some? then body.value.message.value else "Registration failed")
  {
    if body.Some? && body.value.errors.Some? && |body.value.errors.value| > 0 then
      body.value.errors.value[0].1.GetOr("Registration failed")
    else if body.Some? then body.value.message.GetOr("Registration failed")
    else "Registration failed"
  }

  /** A visitor already signed in is sent home. */
  function RegisterRedirect(isAuthenticated: bool): (r: Option<string>)
    ensures r.Some? <==> isAuthenticated
    ensures r.Some? ==> r.value == "/home"
  {
    if isAuthenticated then Some("/home") else None
  }

  /** `onSuccess`: store the session, then go home. */
  function RegisterSucceeded(s: Session, resp: AuthResponse): (r: (Session, string))
    ensures r.0.state.isAuthenticated && r.0.state.user == Some(resp.user) && r.0.state.token == Some(resp.token)
    ensures r.1 == "/home" && RegisterRedirect(r.0.state.isAuthenticated) == Some(r.1)
  {
    (SetAuth(s, resp.user, resp.token), "/home")
  }
}
