// The administrator's user dialogs: editing (frontend/src/components/Admin/EditUser.tsx)
// and adding (frontend/src/components/Admin/AddUser.tsx) a user. E-mail
// syntax is the form library's own check, given here as `isEmail`.
module AdminUserForms {
  import opened Prelude
  import opened Utf8
  import Q = VmRequestRoutes
  import FormRules
  import UserModel

  datatype Issue = EmailInvalid | PasswordRequired | PasswordTooShort | ConfirmRequired | PasswordMismatch

  // ---- editing a user ----

  /** The edit form; every field but the e-mail may be unset. */
  datatype EditForm = EditForm(
    email: string, fullName: Option<string>, password: Option<string>, confirmPassword: Option<string>,
    isSuperuser: Option<bool>, isActive: Option<bool>)

  /** The user being edited, as the list returns it. */
  datatype Listed = Listed(email: string, fullName: Option<string>, isSuperuser: bool, isActive: bool)

  /** `defaultValues`: the user's own fields, a null name left unset, the
      password fields unset. */
  function EditDefaults(u: Listed): (f: EditForm)
    ensures f.email == u.email && f.fullName == u.fullName
    ensures f.isSuperuser == Some(u.isSuperuser) && f.isActive == Some(u.isActive)
    ensures f.password.None? && f.confirmPassword.None?
  {
    EditForm(u.email, u.fullName, None, None, Some(u.isSuperuser), Some(u.isActive))
  }

  /** The schema: a password is optional, may be empty, and otherwise needs
      8 code units; the refinement asks a non-empty one to be repeated. */
  function EditIssues(f: EditForm, isEmail: string -> bool): seq<Issue>
  {
    When(!isEmail(f.email), EmailInvalid) +
    When(Q.TextSet(f.password) && Utf16Len(f.password.value) < 8, PasswordTooShort) +
    When(Q.TextSet(f.password) && f.confirmPassword != f.password, PasswordMismatch)
  }

  /** The edit form is accepted exactly when the e-mail is well formed and
      the password is left unset or empty, or has 8 code units and is
      repeated in the confirmation; an empty password passes whatever the
      confirmation holds. */
  lemma EditIssuesIff(f: EditForm, isEmail: string -> bool)
    ensures EditIssues(f, isEmail) == [] <==>
      isEmail(f.email) &&
      (f.password.None? || f.password.value == "" ||
       (Utf16Len(f.password.value) >= 8 && f.confirmPassword == f.password))
    ensures isEmail(f.email) && !Q.TextSet(f.password) ==> EditIssues(f, isEmail) == []
  {
  }

  /** An unchanged form of a user with a well-formed address is accepted. */
  lemma EditDefaultsAccepted(u: Listed, isEmail: string -> bool)
    requires isEmail(u.email)
    ensures EditIssues(EditDefaults(u), isEmail) == []
  {
  }

  /** A field value of the JSON body. */
  datatype Value = Text(text: string) | Flag(flag: bool)

  /** The form object as a JSON object: an unset field has no key. */
  function Fields(f: EditForm): (m: map<string, Value>)
    ensures "email" in m && m["email"] == Text(f.email)
    ensures "password" in m <==> f.password.Some?
    ensures "password" in m ==> m["password"] == Text(f.password.value)
    ensures "full_name" in m <==> f.fullName.Some?
    ensures "full_name" in m ==> m["full_name"] == Text(f.fullName.value)
    ensures "confirm_password" in m <==> f.confirmPassword.Some?
  {
    map["email" := Text(f.email)] +
    (if f.fullName.Some? then map["full_name" := Text(f.fullName.value)] else map[]) +
    (if f.password.Some? then map["password" := Text(f.password.value)] else map[]) +
    (if f.confirmPassword.Some? then map["confirm_password" := Text(f.confirmPassword.value)] else map[]) +
    (if f.isSuperuser.Some? then map["is_superuser" := Flag(f.isSuperuser.value)] else map[]) +
    (if f.isActive.Some? then map["is_active" := Flag(f.isActive.value)] else map[])
  }

  /** `onSubmit`: the confirmation is split off, then an empty password is
      deleted from what remains. */
  method EditSubmit(f: EditForm) returns (body: map<string, Value>)
    ensures "confirm_password" !in body
    ensures "password" in body <==> Q.TextSet(f.password)
    ensures "password" in body ==> body["password"] == Text(f.password.value)
    ensures forall k :: k in body ==> k in Fields(f) && body[k] == Fields(f)[k]
    ensures forall k :: k in Fields(f) && k != "confirm_password" && k != "password" ==> k in body
  {
    body := Fields(f) - {"confirm_password"};
    if !Q.TextSet(f.password) {
      body := body - {"password"};
    }
  }

  /** The backend's update model read from the body. */
  function ToUserUpdate(body: map<string, Value>): UserModel.UserUpdate
  {
    UserModel.UserUpdate(
      if "email" in body && body["email"].Text? then Some(body["email"].text) else None,
      if "is_active" in body && body["is_active"].Flag? then body["is_active"].flag else true,
      if "is_superuser" in body && body["is_superuser"].Flag? then body["is_superuser"].flag else false,
      if "full_name" in body && body["full_name"].Text? then Some(body["full_name"].text) else None,
      if "password" in body && body["password"].Text? then Some(body["password"].text) else None)
  }

  /** An accepted edit with short ASCII fields meets the backend's update
      rules, unless its e-mail validator refuses the address: a password
      reaches it only when one was typed, and then it has the backend's length. */
  lemma EditMeetsBackend(f: EditForm, isEmail: string -> bool, emailOk: string -> bool, body: map<string, Value>)
    requires EditIssues(f, isEmail) == []
    requires Q.TextSet(f.password) ==> IsAscii(f.password.value) && |f.password.value| <= 128
    requires |f.email| <= UserModel.MaxEmail && UserModel.FullNameOk(f.fullName)
    requires "confirm_password" !in body && ("password" in body <==> Q.TextSet(f.password))
    requires forall k :: k in body ==> k in Fields(f) && body[k] == Fields(f)[k]
    requires forall k :: k in Fields(f) && k != "confirm_password" && k != "password" ==> k in body
    ensures UserModel.UserUpdateValid(ToUserUpdate(body), emailOk) <==> emailOk(f.email)
    ensures ToUserUpdate(body).password.Some? <==> Q.TextSet(f.password)
  {
    EditIssuesIff(f, isEmail);
    assert "email" in body && body["email"] == Text(f.email);
    if Q.TextSet(f.password) {
      FormRules.AsciiFormPasswordPassesBackend(f.password.value);
      assert body["password"] == Text(f.password.value);
    }
    if "full_name" in body {
      assert body["full_name"] == Text(f.fullName.value);
    } else {
      assert f.fullName.None?;
    }
  }

  // ---- adding a user ----

  datatype AddForm = AddForm(
    email: string, fullName: string, password: string, confirmPassword: string,
    isSuperuser: bool, isActive: bool)

  /** `defaultValues`: empty texts, neither a superuser nor active. */
  const AddDefaults: AddForm := AddForm("", "", "", "", false, false)

  function AddIssues(f: AddForm, isEmail: string -> bool): seq<Issue>
  {
    When(!isEmail(f.email), EmailInvalid) +
    FormRules.MinIssues(f.password, 8, PasswordRequired, PasswordTooShort) +
    When(Utf16Len(f.confirmPassword) < 1, ConfirmRequired) +
    When(f.password != f.confirmPassword, PasswordMismatch)
  }

  /** The add form is accepted exactly when the e-mail is well formed and
      the password has at least 8 code units and is repeated. */
  lemma AddIssuesIff(f: AddForm, isEmail: string -> bool)
    ensures AddIssues(f, isEmail) == [] <==>
      isEmail(f.email) && Utf16Len(f.password) >= 8 && f.confirmPassword == f.password
  {
    Utf16LenBounds(f.password);
  }

  /** The defaults are never accepted, and a user added without touching the
      switches is inactive, unlike the backend's own default. */
  lemma AddDefaultsRefused(isEmail: string -> bool)
    ensures AddIssues(AddDefaults, isEmail) != []
    ensures PasswordRequired in AddIssues(AddDefaults, isEmail) && ConfirmRequired in AddIssues(AddDefaults, isEmail)
    ensures !AddDefaults.isActive && UserModel.NewUserBase(AddDefaults.email).isActive
  {
  }

  /** What the backend reads from the whole form object, which is sent as
      it stands, confirmation included: the extra key is ignored. */
  function ToUserCreate(f: AddForm): (u: UserModel.UserCreate)
    ensures u.password == f.password && u.base.email == f.email
    ensures u.base.isActive == f.isActive && u.base.isSuperuser == f.isSuperuser
    ensures u.base.fullName == Some(f.fullName)
  {
    UserModel.UserCreate(UserModel.UserBase(f.email, f.isActive, f.isSuperuser, Some(f.fullName)), f.password)
  }

  /** An accepted form with short ASCII fields creates a user the backend
      accepts, unless its e-mail validator refuses the address. */
  lemma AddMeetsBackend(f: AddForm, isEmail: string -> bool, emailOk: string -> bool)
    requires AddIssues(f, isEmail) == []
    requires IsAscii(f.password) && |f.password| <= 128
    requires |f.email| <= UserModel.MaxEmail && |f.fullName| <= UserModel.MaxFullName
    ensures UserModel.UserCreateValid(ToUserCreate(f), emailOk) <==> emailOk(f.email)
  {
    AddIssuesIff(f, isEmail);
    FormRules.AsciiFormPasswordPassesBackend(f.password);
  }
}
