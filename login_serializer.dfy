/** Login validators (api/serializers/login_serializer.py). The user table is a map
    from email address to user; `verify` is `verify_password`. */
module LoginSerializer {
  import opened Models
  import opened Validation
  import PasswordUtils

  const UserNotFound := "User not found"

  /** A value of the validated data: a field's string, or the user `validate` adds. */
  datatype Field = Str(s: string) | UserField(user: User)

  /** `validate_email`: the address must belong to some user. */
  function ValidateEmail(value: string, users: map<string, User>): (r: Validated<string>)
    ensures r.Valid? <==> value in users
    ensures r.Valid? ==> r.value == value
    ensures r.Invalid? ==> r.detail == [UserNotFound]
  {
    if value !in users then Invalid([UserNotFound]) else Valid(value)
  }

  /** `validate`: both fields are required, so both are present as strings. An unknown
      address and a wrong password are refused with the same message; on success the
      data comes back with "user" set to the matched user. */
  function Validate(data: map<string, Field>, users: map<string, User>, verify: PasswordUtils.Verifier):
    (r: Validated<map<string, Field>>)
    requires "email" in data && data["email"].Str?
    requires "password" in data && data["password"].Str?
    ensures r.Valid? <==>
      data["email"].s in users && verify(data["password"].s, users[data["email"].s].password)
    ensures r.Invalid? ==> r == Invalid([UserNotFound])
    ensures r.Valid? ==> r.value == data["user" := UserField(users[data["email"].s])]
  {
    var email := data["email"].s;
    var password := data["password"].s;
    if email !in users then Invalid([UserNotFound])
    else if !verify(password, users[email].password) then Invalid([UserNotFound])
    else Valid(data["user" := UserField(users[email])])
  }

  /** The two failure causes cannot be told apart from the outcome. */
  lemma FailuresIndistinguishable(
    data1: map<string, Field>, data2: map<string, Field>, users: map<string, User>, verify: PasswordUtils.Verifier)
    requires "email" in data1 && data1["email"].Str? && "password" in data1 && data1["password"].Str?
    requires "email" in data2 && data2["email"].Str? && "password" in data2 && data2["password"].Str?
    requires data1["email"].s !in users
    requires data2["email"].s in users && !verify(data2["password"].s, users[data2["email"].s].password)
    ensures Validate(data1, users, verify) == Validate(data2, users, verify)
  {
  }

  /** A successful login leaves every other key of the data as it was. */
  lemma OtherKeysUnchanged(data: map<string, Field>, users: map<string, User>, verify: PasswordUtils.Verifier, k: string)
    requires "email" in data && data["email"].Str? && "password" in data && data["password"].Str?
    requires Validate(data, users, verify).Valid?
    requires k != "user"
    ensures k in Validate(data, users, verify).value <==> k in data
    ensures k in data ==> Validate(data, users, verify).value[k] == data[k]
  {
  }
}
