/** Account-creation validators (api/serializers/user_serializer.py) and the
    serializer's field policy. Database `exists` queries become the sets of usernames
    and emails already taken. */
module UserSerializer {
  import opened Ascii
  import opened Models
  import opened Validation
  import PasswordUtils

  const MinUsernameLength := 3
  const MaxUsernameLength := 30

  const UsernameTooShort := "Username must be at least 3 characters long"
  const UsernameTooLong := "Username must be less than 30 characters long"
  const UsernameNotAlnum := "Username must be alphanumeric"
  const UsernameReserved := "Username cannot be 'admin'"
  const UsernameTaken := "Username already exists"
  const EmailTaken := "Email already exists"

  /** The username checks, in the order they are tried. */
  datatype UsernameCheck = LongEnough | ShortEnough | Alphanumeric | NotAdmin | Unused

  const UsernameChecks := [LongEnough, ShortEnough, Alphanumeric, NotAdmin, Unused]

  predicate Passes(check: UsernameCheck, value: string, taken: set<string>) {
    match check
    case LongEnough => |value| >= MinUsernameLength
    case ShortEnough => |value| <= MaxUsernameLength
    case Alphanumeric => IsAlnum(value)
    case NotAdmin => Lower(value) != "admin"
    case Unused => value !in taken
  }

  function Message(check: UsernameCheck): string {
    match check
    case LongEnough => UsernameTooShort
    case ShortEnough => UsernameTooLong
    case Alphanumeric => UsernameNotAlnum
    case NotAdmin => UsernameReserved
    case Unused => UsernameTaken
  }

  /** Check `i` is the first one in `UsernameChecks` that `value` fails. */
  predicate FirstFailure(i: int, value: string, taken: set<string>) {
    0 <= i < |UsernameChecks| && !Passes(UsernameChecks[i], value, taken) &&
    forall j :: 0 <= j < i ==> Passes(UsernameChecks[j], value, taken)
  }

  /** `validate_username`: accepted unchanged when every check passes; otherwise the
      first failing check, in `UsernameChecks` order, gives the one message. */
  function ValidateUsername(value: string, taken: set<string>): (r: Validated<string>)
    ensures r.Valid? <==> forall i :: 0 <= i < |UsernameChecks| ==> Passes(UsernameChecks[i], value, taken)
    ensures r.Valid? ==> r.value == value
    ensures r.Invalid? ==> exists i :: FirstFailure(i, value, taken) && r.detail == [Message(UsernameChecks[i])]
  {
    if |value| < MinUsernameLength then
      assert !Passes(UsernameChecks[0], value, taken);
      Invalid([UsernameTooShort])
    else if |value| > MaxUsernameLength then
      assert !Passes(UsernameChecks[1], value, taken);
      Invalid([UsernameTooLong])
    else if !IsAlnum(value) then
      assert !Passes(UsernameChecks[2], value, taken);
      Invalid([UsernameNotAlnum])
    else if Lower(value) == "admin" then
      assert !Passes(UsernameChecks[3], value, taken);
      Invalid([UsernameReserved])
    else if value in taken then
      assert !Passes(UsernameChecks[4], value, taken);
      Invalid([UsernameTaken])
    else
      Valid(value)
  }

  /** The accepted usernames, written out. 30 characters is accepted although the
      message speaks of "less than 30". */
  lemma UsernameAcceptance(value: string, taken: set<string>)
    ensures ValidateUsername(value, taken).Valid? <==>
      3 <= |value| <= 30 && IsAlnum(value) && Lower(value) != "admin" && value !in taken
  {
  }

  /** "admin" is refused in any letter case: "Admin", "ADMIN", "aDmIn", ... */
  lemma {:induction false} AdminRefusedAnyCase(value: string, taken: set<string>)
    requires |value| == 5
    requires forall i :: 0 <= i < 5 ==> value[i] == "admin"[i] || value[i] as int + 32 == "admin"[i] as int
    ensures ValidateUsername(value, taken) == Invalid([UsernameReserved])
  {
    LowerMatches(value, "admin");
    forall i | 0 <= i < |value| ensures IsAlnumChar(value[i]) {
      assert IsLower(value[i]) || IsUpper(value[i]);
    }
  }

  /** `validate_email`: refused exactly when the address is already taken. */
  function ValidateEmail(value: string, taken: set<string>): (r: Validated<string>)
    ensures r.Valid? <==> value !in taken
    ensures r.Valid? ==> r.value == value
    ensures r.Invalid? ==> r.detail == [EmailTaken]
  {
    if value in taken then Invalid([EmailTaken]) else Valid(value)
  }

  /** `validate_password`: refused exactly when the strength check fails, carrying its
      error list. */
  function ValidatePassword(value: string): (r: Validated<string>)
    ensures r.Valid? <==> PasswordUtils.StrengthErrors(value) == []
    ensures r.Valid? ==> r.value == value
    ensures r.Invalid? ==> r.detail == PasswordUtils.StrengthErrors(value) && |r.detail| >= 1
  {
    var errors := PasswordUtils.StrengthErrors(value);
    if errors != [] then Invalid(errors) else Valid(value)
  }

  /** The serializer's declared fields and its write-only and read-only ones. */
  const Fields := ["id", "email", "username", "password", "created_at", "updated_at", "is_active"]
  const ReadOnlyFields := {"id", "created_at", "updated_at", "is_active"}
  const WriteOnlyFields := {"password"}

  datatype FieldValue = IntValue(i: int) | TextValue(s: string) | BoolValue(b: bool)

  /** The serialized form of a user: every declared field except the write-only one. */
  function Represent(u: User): (out: map<string, FieldValue>)
    ensures out.Keys == (set f | f in Fields && f !in WriteOnlyFields)
    ensures "password" !in out
    ensures out["email"] == TextValue(u.email) && out["username"] == TextValue(u.username)
  {
    assert "password" != "id" && "password" != "email" && "password" != "username";
    assert "password" != "created_at" && "password" != "updated_at" && "password" != "is_active";
    map[
      "id" := IntValue(u.id),
      "email" := TextValue(u.email),
      "username" := TextValue(u.username),
      "created_at" := IntValue(u.createdAt),
      "updated_at" := IntValue(u.updatedAt),
      "is_active" := BoolValue(u.isActive)]
  }

  /** What the serializer takes from request data: declared fields that are not
      read-only; anything else in the input is ignored. */
  function WritableInput(input: map<string, string>): (w: map<string, string>)
    ensures forall f :: f in w <==> f in input && f in Fields && f !in ReadOnlyFields
    ensures forall f :: f in w ==> w[f] == input[f]
    ensures "password" in input ==> "password" in w
  {
    map f | f in input && f in Fields && f !in ReadOnlyFields :: input[f]
  }
}
