// The account pages: sign-up (frontend/src/routes/signup.tsx), password reset
// (frontend/src/routes/reset-password.tsx), password change
// (frontend/src/components/UserSettings/ChangePassword.tsx) and log-in
// (frontend/src/routes/login.tsx). E-mail syntax is the form library's own
// check, given here as `isEmail`.
module AuthForms {
  import opened Prelude
  import opened Utf8
  import FormRules
  import UserModel

  datatype Issue = EmailInvalid | NameRequired | PasswordRequired | PasswordTooShort
    | CurrentRequired | CurrentTooShort | ConfirmRequired | PasswordMismatch

  /** `confirm_password` must be non-empty and, by the refinement, equal
      to the password. */
  function ConfirmIssues(password: string, confirm: string): (r: seq<Issue>)
    ensures r == [] <==> confirm != [] && confirm == password
  {
    Utf16LenBounds(confirm);
    When(Utf16Len(confirm) < 1, ConfirmRequired) + When(password != confirm, PasswordMismatch)
  }

  // ---- sign-up ----

  datatype SignupForm = SignupForm(email: string, fullName: string, password: string, confirmPassword: string)

  datatype SignupBody = SignupBody(email: string, fullName: string, password: string)

  function SignupIssues(f: SignupForm, isEmail: string -> bool): seq<Issue>
  {
    When(!isEmail(f.email), EmailInvalid) + When(Utf16Len(f.fullName) < 1, NameRequired) +
    FormRules.MinIssues(f.password, 8, PasswordRequired, PasswordTooShort) +
    ConfirmIssues(f.password, f.confirmPassword)
  }

  /** Sign-up is accepted exactly when the address is well formed, a name is
      given, and a password of at least 8 code units is repeated. */
  lemma SignupIssuesIff(f: SignupForm, isEmail: string -> bool)
    ensures SignupIssues(f, isEmail) == [] <==>
      isEmail(f.email) && f.fullName != [] && Utf16Len(f.password) >= 8 && f.confirmPassword == f.password
  {
    Utf16LenBounds(f.fullName);
    Utf16LenBounds(f.password);
  }

  /** `onSubmit`: nothing while a sign-up is pending, otherwise the form
      without its confirmation. */
  function SignupSubmit(f: SignupForm, pending: bool): (r: Option<SignupBody>)
    ensures r.None? <==> pending
    ensures r.Some? ==> r.value.email == f.email && r.value.fullName == f.fullName && r.value.password == f.password
  {
    if pending then None else Some(SignupBody(f.email, f.fullName, f.password))
  }

  /** An accepted sign-up with short ASCII fields registers an account the
      backend accepts, with the name given, unless the backend's own e-mail
      validator refuses the address the form library let through. */
  lemma SignupMeetsBackend(f: SignupForm, isEmail: string -> bool, emailOk: string -> bool)
    requires SignupIssues(f, isEmail) == []
    requires IsAscii(f.password) && |f.password| <= 128
    requires |f.email| <= UserModel.MaxEmail && |f.fullName| <= UserModel.MaxFullName
    ensures var b := SignupSubmit(f, false).value;
      UserModel.UserRegisterValid(UserModel.UserRegister(b.email, b.password, Some(b.fullName)), emailOk) <==>
      emailOk(f.email)
  {
    SignupIssuesIff(f, isEmail);
    FormRules.AsciiFormPasswordPassesBackend(f.password);
  }

  // ---- password reset ----

  /** The `token` search parameter as the router hands it over. */
  datatype SearchValue = Str(s: string) | NotText | Missing

  /** `z.string().catch("")`: anything but a string becomes empty. */
  function TokenOf(v: SearchValue): (t: string)
    ensures v.Str? ==> t == v.s
    ensures !v.Str? ==> t == ""
  {
    match v
    case Str(s) => s
    case NotText => ""
    case Missing => ""
  }

  /** `beforeLoad`: a signed-in visitor goes home, a visitor without a
      token to the log-in page; `None` renders the page. */
  function ResetRedirect(loggedIn: bool, v: SearchValue): (r: Option<string>)
    ensures loggedIn ==> r == Some("/")
    ensures !loggedIn ==> (r.None? <==> TokenOf(v) != "")
    ensures !loggedIn && r.Some? ==> r.value == "/login"
  {
    if FormRules.GuestOnly(loggedIn).Some? then FormRules.GuestOnly(loggedIn)
    else if TokenOf(v) == "" then Some("/login")
    else None
  }

  datatype ResetForm = ResetForm(newPassword: string, confirmPassword: string)

  datatype ResetBody = ResetBody(newPassword: string, token: string)

  function ResetIssues(f: ResetForm): seq<Issue>
  {
    FormRules.MinIssues(f.newPassword, 8, PasswordRequired, PasswordTooShort) +
    ConfirmIssues(f.newPassword, f.confirmPassword)
  }

  /** The reset form is accepted exactly when the new password has at least
      8 code units and is repeated. */
  lemma ResetIssuesIff(f: ResetForm)
    ensures ResetIssues(f) == [] <==> Utf16Len(f.newPassword) >= 8 && f.confirmPassword == f.newPassword
  {
    Utf16LenBounds(f.newPassword);
  }

  /** `onSubmit`: the new password and the page's token, nothing else. */
  function ResetSubmit(f: ResetForm, v: SearchValue): (b: ResetBody)
    ensures b.newPassword == f.newPassword && b.token == TokenOf(v)
  {
    ResetBody(f.newPassword, TokenOf(v))
  }

  /** Whenever the page is shown, the body carries a non-empty token, the
      very string from the address. */
  lemma RenderedResetHasToken(loggedIn: bool, v: SearchValue, f: ResetForm)
    requires ResetRedirect(loggedIn, v).None?
    ensures !loggedIn && v.Str? && v.s != ""
    ensures ResetSubmit(f, v).token == v.s
  {
  }

  // ---- password change ----

  datatype ChangeForm = ChangeForm(currentPassword: string, newPassword: string, confirmPassword: string)

  function ChangeIssues(f: ChangeForm): seq<Issue>
  {
    FormRules.MinIssues(f.currentPassword, 8, CurrentRequired, CurrentTooShort) +
    FormRules.MinIssues(f.newPassword, 8, PasswordRequired, PasswordTooShort) +
    ConfirmIssues(f.newPassword, f.confirmPassword)
  }

  /** The change is accepted exactly when both passwords have at least 8
      code units and the new one is repeated. */
  lemma ChangeIssuesIff(f: ChangeForm)
    ensures ChangeIssues(f) == [] <==>
      Utf16Len(f.currentPassword) >= 8 && Utf16Len(f.newPassword) >= 8 && f.confirmPassword == f.newPassword
  {
  }

  /** What the backend reads from the whole form object, which is sent as
      it stands: the confirmation is ignored. */
  function ToUpdatePassword(f: ChangeForm): (u: UserModel.UpdatePassword)
    ensures u.currentPassword == f.currentPassword && u.newPassword == f.newPassword
  {
    UserModel.UpdatePassword(f.currentPassword, f.newPassword)
  }

  /** An accepted change with short ASCII passwords is one the backend
      accepts; every current password the backend stored passes the form's
      rule for it. */
  lemma ChangeMeetsBackend(f: ChangeForm)
    requires ChangeIssues(f) == []
    requires IsAscii(f.currentPassword) && |f.currentPassword| <= 128
    requires IsAscii(f.newPassword) && |f.newPassword| <= 128
    ensures UserModel.UpdatePasswordValid(ToUpdatePassword(f))
  {
    ChangeIssuesIff(f);
    FormRules.AsciiFormPasswordPassesBackend(f.currentPassword);
    FormRules.AsciiFormPasswordPassesBackend(f.newPassword);
  }

  // ---- log-in ----

  datatype LoginForm = LoginForm(username: string, password: string)

  function LoginIssues(f: LoginForm, isEmail: string -> bool): seq<Issue>
  {
    When(!isEmail(f.username), EmailInvalid) + FormRules.MinIssues(f.password, 8, PasswordRequired, PasswordTooShort)
  }

  /** `onSubmit`: nothing while a log-in is pending, otherwise the form as
      entered. */
  function LoginSubmit(f: LoginForm, pending: bool): (r: Option<LoginForm>)
    ensures r.None? <==> pending
    ensures r.Some? ==> r.value == f
  {
    if pending then None else Some(f)
  }

  /** A password the backend accepted at sign-up never trips the log-in
      form's length rule; only the address can. */
  lemma StoredPasswordLogsIn(f: LoginForm, isEmail: string -> bool)
    requires UserModel.PasswordOk(f.password)
    ensures LoginIssues(f, isEmail) == [] <==> isEmail(f.username)
  {
    FormRules.BackendPasswordPassesForm(f.password);
  }
}
