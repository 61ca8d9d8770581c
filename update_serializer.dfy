/** Profile-update validators (api/serializers/update_serializer.py). Every field is
    optional; an empty value, or one equal to what the user being updated already has,
    is accepted without further checks. Otherwise the account-creation rules apply. */
module UpdateSerializer {
  import opened Results
  import opened Models
  import opened Validation
  import PasswordUtils
  import UserSerializer

  const ConfirmRequired := "Confirm password is required when password is provided"
  const PasswordRequired := "Password is required when confirm password is provided"
  const PasswordsDiffer := "Passwords do not match"

  /** `validate_username`; `instance` is the user being updated, if any. */
  function ValidateUsername(value: string, instance: Option<User>, taken: set<string>): (r: Validated<string>)
    ensures value == "" || (instance.Some? && instance.value.username == value) ==> r == Valid(value)
    ensures value != "" && !(instance.Some? && instance.value.username == value) ==>
      r == UserSerializer.ValidateUsername(value, taken)
    ensures r.Valid? ==> r.value == value
  {
    if value == "" || (instance.Some? && instance.value.username == value) then Valid(value)
    else UserSerializer.ValidateUsername(value, taken)
  }

  /** Keeping one's own username passes even though that name is taken. */
  lemma OwnUsernameAccepted(u: User, taken: set<string>)
    requires u.username in taken
    ensures ValidateUsername(u.username, Some(u), taken) == Valid(u.username)
    ensures u.username != "" ==> UserSerializer.ValidateUsername(u.username, taken).Invalid?
  {
  }

  /** `validate_email`: a non-empty, changed address is refused exactly when taken. */
  function ValidateEmail(value: string, instance: Option<User>, taken: set<string>): (r: Validated<string>)
    ensures r.Valid? ==> r.value == value
    ensures r.Invalid? <==> value != "" && !(instance.Some? && instance.value.email == value) && value in taken
    ensures r.Invalid? ==> r.detail == [UserSerializer.EmailTaken]
  {
    if value == "" || (instance.Some? && instance.value.email == value) then Valid(value)
    else UserSerializer.ValidateEmail(value, taken)
  }

  /** `validate_password`: `verify` is `verify_password(value, instance.password)`. An
      empty value or the current password is accepted; otherwise the strength check
      decides, and its error list is the detail. */
  function ValidatePassword(value: string, instance: Option<User>, verify: PasswordUtils.Verifier): (r: Validated<string>)
    ensures r.Valid? ==> r.value == value
    ensures r.Invalid? <==>
      value != "" && !(instance.Some? && verify(value, instance.value.password)) &&
      PasswordUtils.StrengthErrors(value) != []
    ensures r.Invalid? ==> r.detail == PasswordUtils.StrengthErrors(value)
  {
    if value == "" || (instance.Some? && verify(value, instance.value.password)) then Valid(value)
    else UserSerializer.ValidatePassword(value)
  }

  /** `attrs.get(key)` is truthy: present and non-empty. */
  predicate Given(attrs: map<string, string>, key: string) {
    key in attrs && attrs[key] != ""
  }

  /** `validate`: the password and its confirmation come together and agree, or neither
      is given; accepted data is returned unchanged. */
  function Validate(attrs: map<string, string>): (r: Validated<map<string, string>>)
    ensures r.Valid? <==>
      (Given(attrs, "password") <==> Given(attrs, "confirm_password")) &&
      (Given(attrs, "password") ==> attrs["password"] == attrs["confirm_password"])
    ensures r.Valid? ==> r.value == attrs
    ensures Given(attrs, "password") && !Given(attrs, "confirm_password") ==> r == Invalid([ConfirmRequired])
    ensures Given(attrs, "confirm_password") && !Given(attrs, "password") ==> r == Invalid([PasswordRequired])
    ensures (Given(attrs, "password") && Given(attrs, "confirm_password") &&
             attrs["password"] != attrs["confirm_password"]) ==> r == Invalid([PasswordsDiffer])
  {
    var password := Given(attrs, "password");
    var confirm := Given(attrs, "confirm_password");
    if password && !confirm then Invalid([ConfirmRequired])
    else if confirm && !password then Invalid([PasswordRequired])
    else if password && confirm && attrs["password"] != attrs["confirm_password"] then Invalid([PasswordsDiffer])
    else Valid(attrs)
  }

  /** An update that names neither password field passes the cross-field check. */
  lemma NoPasswordUpdateAccepted(attrs: map<string, string>)
    requires "password" !in attrs && "confirm_password" !in attrs
    ensures Validate(attrs) == Valid(attrs)
  {
  }
}
