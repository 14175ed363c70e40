/**
 * Mass assignment on the user model. `create` and `update` with an attribute
 * array write only the columns in the fillable list and silently drop the
 * rest; assigning a property directly and saving writes any column.
 * `verification_status` is not fillable, so every mass-assigned write of it
 * is lost, while the admin screens, which assign it directly, do change it.
 */
module UserModel {
  import opened Wrappers
  import opened Schema

  /** An attribute array: for each column, the value given for it, or None when the array has no such key. */
  datatype Attrs = Attrs(
    name: Option<Option<string>>, email: Option<Option<string>>, phone: Option<Option<string>>,
    password: Option<Option<Hash>>, otpCode: Option<Option<string>>, otpExpiresAt: Option<Option<int>>,
    isPhoneVerified: Option<bool>, verificationStatus: Option<Option<string>>,
    permissions: Option<map<string, bool>>)

  /** The empty attribute array. */
  const NoAttrs := Attrs(None, None, None, None, None, None, None, None, None)

  /** The model's `$fillable` list. */
  const Fillable: set<string> :=
    {"name", "email", "phone", "password", "otp_code", "otp_expires_at", "is_phone_verified", "permissions"}

  /** A new, unsaved user: every nullable column null, `is_phone_verified` at its default false, no permissions. */
  function Blank(createdAt: int): (u: User)
    ensures !u.isPhoneVerified && u.verificationStatus.None? && u.createdAt == createdAt
  {
    User(None, None, None, None, None, None, false, None, map[], createdAt)
  }

  /** One column after the write: the given value when it is written, else the current one. */
  function Column<T>(given: Option<T>, column: string, current: T, onlyFillable: bool): T {
    if given.Some? && (!onlyFillable || column in Fillable) then given.value else current
  }

  function Write(u: User, a: Attrs, onlyFillable: bool): User {
    User(
      Column(a.name, "name", u.name, onlyFillable),
      Column(a.email, "email", u.email, onlyFillable),
      Column(a.phone, "phone", u.phone, onlyFillable),
      Column(a.password, "password", u.password, onlyFillable),
      Column(a.otpCode, "otp_code", u.otpCode, onlyFillable),
      Column(a.otpExpiresAt, "otp_expires_at", u.otpExpiresAt, onlyFillable),
      Column(a.isPhoneVerified, "is_phone_verified", u.isPhoneVerified, onlyFillable),
      Column(a.verificationStatus, "verification_status", u.verificationStatus, onlyFillable),
      Column(a.permissions, "permissions", u.permissions, onlyFillable),
      u.createdAt)
  }

  /** Direct assignment (`$user->column = ...; save()`): every given column is written. */
  function ForceFill(u: User, a: Attrs): User {
    Write(u, a, false)
  }

  /** Eloquent `fill` (`create`, `update`): only the given columns that are fillable are written. */
  function Fill(u: User, a: Attrs): User {
    Write(u, a, true)
  }

  /** Mass assignment never changes `verification_status`, whatever the array says. */
  lemma FillKeepsVerificationStatus(u: User, a: Attrs)
    ensures Fill(u, a).verificationStatus == u.verificationStatus
  {
    assert "verification_status" !in Fillable;
  }

  /** Mass assignment is direct assignment of the array without its `verification_status` key. */
  lemma FillIsForceFillWithoutStatus(u: User, a: Attrs)
    ensures Fill(u, a) == ForceFill(u, a.(verificationStatus := None))
  {
    assert "verification_status" !in Fillable;
  }

  /** Direct assignment of `verification_status` does take effect. */
  lemma ForceFillSetsStatus(u: User, status: Option<string>)
    ensures ForceFill(u, NoAttrs.(verificationStatus := Some(status))) == u.(verificationStatus := status)
  {
  }
}
