// Field rules of the user schemas (backend/app/models/user.py). Lengths are
// counted in characters, as pydantic counts a Python str. The address syntax
// `EmailStr` demands is pydantic's e-mail validator, given here as `emailOk`.
module UserModel {
  import opened Prelude

  const MaxEmail: nat := 255
  const MaxFullName: nat := 255
  const MinPassword: nat := 8
  const MaxPassword: nat := 128

  predicate PasswordOk(p: string)
  {
    MinPassword <= |p| <= MaxPassword
  }

  predicate FullNameOk(n: Option<string>)
  {
    n.None? || |n.value| <= MaxFullName
  }

  /** `UserBase`: email, flags and full name. */
  datatype UserBase = UserBase(email: string, isActive: bool, isSuperuser: bool, fullName: Option<string>)

  /** A user created with only an email gets these flags. */
  function NewUserBase(email: string): UserBase
  {
    UserBase(email, true, false, None)
  }

  predicate UserBaseValid(u: UserBase, emailOk: string -> bool)
  {
    emailOk(u.email) && |u.email| <= MaxEmail && FullNameOk(u.fullName)
  }

  datatype UserCreate = UserCreate(base: UserBase, password: string)
  datatype UserRegister = UserRegister(email: string, password: string, fullName: Option<string>)
  datatype UserUpdate = UserUpdate(email: Option<string>, isActive: bool, isSuperuser: bool,
                                   fullName: Option<string>, password: Option<string>)
  datatype UpdatePassword = UpdatePassword(currentPassword: string, newPassword: string)

  predicate UserCreateValid(u: UserCreate, emailOk: string -> bool)
  {
    UserBaseValid(u.base, emailOk) && PasswordOk(u.password)
  }

  predicate UserRegisterValid(u: UserRegister, emailOk: string -> bool)
  {
    emailOk(u.email) && |u.email| <= MaxEmail && PasswordOk(u.password) && FullNameOk(u.fullName)
  }

  /** Every field is optional, but a supplied one keeps its rule. */
  predicate UserUpdateValid(u: UserUpdate, emailOk: string -> bool)
  {
    (u.email.None? || (emailOk(u.email.value) && |u.email.value| <= MaxEmail)) && FullNameOk(u.fullName) &&
    (u.password.None? || PasswordOk(u.password.value))
  }

  predicate UpdatePasswordValid(u: UpdatePassword)
  {
    PasswordOk(u.currentPassword) && PasswordOk(u.newPassword)
  }

  /** Defaults of a new user: active and not a superuser. */
  lemma NewUserDefaults(email: string, emailOk: string -> bool)
    ensures NewUserBase(email).isActive && !NewUserBase(email).isSuperuser
    ensures UserBaseValid(NewUserBase(email), emailOk) <==> emailOk(email) && |email| <= MaxEmail
  {
  }

  /** Self-registration and admin creation apply the same password rule, and
      an update either leaves the password alone or applies the same rule. */
  lemma PasswordRuleShared(email: string, p: string, name: Option<string>, flags: bool, emailOk: string -> bool)
    ensures UserRegisterValid(UserRegister(email, p, name), emailOk) ==> PasswordOk(p)
    ensures UserCreateValid(UserCreate(UserBase(email, flags, flags, name), p), emailOk) <==>
            UserRegisterValid(UserRegister(email, p, name), emailOk)
    ensures UserUpdateValid(UserUpdate(None, flags, flags, name, Some(p)), emailOk) <==> PasswordOk(p) && FullNameOk(name)
    ensures UserUpdateValid(UserUpdate(None, flags, flags, name, None), emailOk) <==> FullNameOk(name)
  {
  }

  /** Both passwords of a change are checked, and each needs 8 to 128 characters. */
  lemma UpdatePasswordBounds(u: UpdatePassword)
    requires UpdatePasswordValid(u)
    ensures 8 <= |u.currentPassword| <= 128 && 8 <= |u.newPassword| <= 128
    ensures !UpdatePasswordValid(UpdatePassword(u.currentPassword, u.newPassword[..7]))
  {
  }
}
