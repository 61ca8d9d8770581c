/** Password helpers (api/utils/password_utils.py): hashing with a pepper taken from
    the environment, and the strength check that lists every rule a password breaks. */
module PasswordUtils {
  import opened Ascii

  const PepperVariable := "PASSWORD_PEPPER"

  /** Django's `make_password` and `check_password`, left abstract. */
  type MakePassword = string -> string
  type CheckPassword = (string, string) -> bool

  /** `verify_password(plain, hashed)` with its pepper and hasher already chosen, as the
      serializers call it. */
  type Verifier = (string, string) -> bool

  /** `_get_pepper`: `os.environ.get("PASSWORD_PEPPER", "")`. */
  function GetPepper(env: map<string, string>): (pepper: string)
    ensures PepperVariable in env ==> pepper == env[PepperVariable]
    ensures PepperVariable !in env ==> pepper == ""
  {
    if PepperVariable in env then env[PepperVariable] else ""
  }

  /** `hash_password` and `verify_password` both append the pepper. Stored hashes are
      not made here: the user repository calls `make_password` on the bare password, so
      with a non-empty pepper `verify_password` rejects them. */
  function HashPassword(make: MakePassword, env: map<string, string>, plain: string): string {
    make(plain + GetPepper(env))
  }

  function VerifyPassword(check: CheckPassword, env: map<string, string>, plain: string, hashed: string): bool {
    check(plain + GetPepper(env), hashed)
  }

  const MinLength := 8
  const SpecialCharacters := "!@#$%^&*()_+-=[]{}|;:,.<>?"

  // The three "must contain" messages share one stem.
  const MustContain := "Password must contain at least one "
  const TooShort := "Password must be at least 8 characters long"
  const NoDigit := MustContain + "digit"
  const NoUpper := MustContain + "uppercase letter"
  const NoLower := MustContain + "lowercase letter"
  const NoSpecial := "La password deve contenere " + "almeno un carattere speciale"

  /** The messages in the order the rules are tried. */
  const RuleMessages := [TooShort, NoDigit, NoUpper, NoLower, NoSpecial]

  datatype CharClass = Digit | Upper | Lower | Special

  predicate InClass(c: char, k: CharClass) {
    match k
    case Digit => IsDigit(c)
    case Upper => IsUpper(c)
    case Lower => IsLower(c)
    case Special => c in SpecialCharacters
  }

  /** `any(<class test> for char in p)`. */
  predicate HasAny(p: string, k: CharClass) {
    exists i :: 0 <= i < |p| && InClass(p[i], k)
  }

  /** Position of a rule message in `RuleMessages`; 5 for any other string. */
  function Rank(m: string): nat {
    if m == TooShort then 0
    else if m == NoDigit then 1
    else if m == NoUpper then 2
    else if m == NoLower then 3
    else if m == NoSpecial then 4
    else 5
  }

  /** Strictly increasing rank: rule order, and no message twice. */
  predicate InRuleOrder(errors: seq<string>) {
    forall i, j :: 0 <= i < j < |errors| ==> Rank(errors[i]) < Rank(errors[j])
  }

  lemma {:induction false} RanksOfMessages()
    ensures forall k :: 0 <= k < |RuleMessages| ==> Rank(RuleMessages[k]) == k
  {
    assert TooShort[14] == 'b' && NoDigit[14] == 'c' && NoUpper[14] == 'c' && NoLower[14] == 'c';
    assert NoDigit[35] == 'd' && NoUpper[35] == 'u' && NoLower[35] == 'l';
    assert NoSpecial[0] == 'L' && TooShort[0] == 'P' && MustContain[0] == 'P';
  }

  function Flag(broken: bool, message: string): seq<string> {
    if broken then [message] else []
  }

  /** The error list `is_password_strong` builds, one rule after another. */
  function StrengthErrors(p: string): seq<string> {
    Flag(|p| < MinLength, TooShort) +
    Flag(!HasAny(p, Digit), NoDigit) +
    Flag(!HasAny(p, Upper), NoUpper) +
    Flag(!HasAny(p, Lower), NoLower) +
    Flag(!HasAny(p, Special), NoSpecial)
  }

  /** Each message is in the list exactly when its rule is broken. */
  lemma {:induction false} StrengthErrorsMembership(p: string)
    ensures TooShort in StrengthErrors(p) <==> |p| < MinLength
    ensures NoDigit in StrengthErrors(p) <==> !HasAny(p, Digit)
    ensures NoUpper in StrengthErrors(p) <==> !HasAny(p, Upper)
    ensures NoLower in StrengthErrors(p) <==> !HasAny(p, Lower)
    ensures NoSpecial in StrengthErrors(p) <==> !HasAny(p, Special)
    ensures forall m :: m in StrengthErrors(p) ==> m in RuleMessages
  {
    RanksOfMessages();
    assert RuleMessages[0] == TooShort && RuleMessages[1] == NoDigit && RuleMessages[2] == NoUpper;
    assert RuleMessages[3] == NoLower && RuleMessages[4] == NoSpecial;
  }

  /** Appending a message ranked above everything so far keeps the rule order. */
  lemma AppendInOrder(errors: seq<string>, broken: bool, m: string)
    requires InRuleOrder(errors)
    requires forall x :: x in errors ==> Rank(x) < Rank(m)
    ensures InRuleOrder(errors + Flag(broken, m))
    ensures forall x :: x in errors + Flag(broken, m) ==> Rank(x) <= Rank(m)
  {
  }

  /** The messages come in rule order with none repeated, so there are at most five. */
  lemma {:induction false} StrengthErrorsOrdered(p: string)
    ensures InRuleOrder(StrengthErrors(p))
    ensures |StrengthErrors(p)| <= |RuleMessages|
  {
    RanksOfMessages();
    assert RuleMessages[0] == TooShort && RuleMessages[1] == NoDigit && RuleMessages[2] == NoUpper;
    assert RuleMessages[3] == NoLower && RuleMessages[4] == NoSpecial;
    var e0 := Flag(|p| < MinLength, TooShort);
    AppendInOrder(e0, !HasAny(p, Digit), NoDigit);
    var e1 := e0 + Flag(!HasAny(p, Digit), NoDigit);
    AppendInOrder(e1, !HasAny(p, Upper), NoUpper);
    var e2 := e1 + Flag(!HasAny(p, Upper), NoUpper);
    AppendInOrder(e2, !HasAny(p, Lower), NoLower);
    var e3 := e2 + Flag(!HasAny(p, Lower), NoLower);
    AppendInOrder(e3, !HasAny(p, Special), NoSpecial);
  }

  /** One pass of `any(...)`: stops at the first character of class `k`. */
  method AnyOf(p: string, k: CharClass) returns (found: bool)
    ensures found <==> HasAny(p, k)
  {
    found := false;
    var i := 0;
    while i < |p| && !found
      invariant 0 <= i <= |p|
      invariant found ==> HasAny(p, k)
      invariant !found ==> forall j :: 0 <= j < i ==> !InClass(p[j], k)
    {
      found := InClass(p[i], k);
      i := i + 1;
    }
  }

  /** `is_password_strong`: appends one message per broken rule; strong exactly when
      nothing was appended. */
  method IsPasswordStrong(p: string) returns (strong: bool, errors: seq<string>)
    ensures errors == StrengthErrors(p)
    ensures strong <==> errors == []
  {
    errors := [];
    if |p| < MinLength {
      errors := errors + [TooShort];
    }
    ghost var expected := Flag(|p| < MinLength, TooShort);
    assert errors == expected;
    var hasDigit := AnyOf(p, Digit);
    if !hasDigit {
      errors := errors + [NoDigit];
    }
    expected := expected + Flag(!HasAny(p, Digit), NoDigit);
    assert errors == expected;
    var hasUpper := AnyOf(p, Upper);
    if !hasUpper {
      errors := errors + [NoUpper];
    }
    expected := expected + Flag(!HasAny(p, Upper), NoUpper);
    assert errors == expected;
    var hasLower := AnyOf(p, Lower);
    if !hasLower {
      errors := errors + [NoLower];
    }
    expected := expected + Flag(!HasAny(p, Lower), NoLower);
    assert errors == expected;
    var hasSpecial := AnyOf(p, Special);
    if !hasSpecial {
      errors := errors + [NoSpecial];
    }
    expected := expected + Flag(!HasAny(p, Special), NoSpecial);
    assert errors == expected;
    strong := |errors| == 0;
  }

  /** Strong exactly when every rule holds. */
  lemma StrongIffAllRules(p: string)
    ensures StrengthErrors(p) == [] <==>
      |p| >= MinLength && HasAny(p, Digit) && HasAny(p, Upper) && HasAny(p, Lower) && HasAny(p, Special)
  {
  }

  /** The password the account-creation test signs up with passes every rule. */
  lemma {:induction false} SamplePasswordIsStrong()
    ensures StrengthErrors("StrongPassword123!") == []
  {
    var p := "StrongPassword123!";
    assert InClass(p[14], Digit);
    assert InClass(p[0], Upper);
    assert InClass(p[1], Lower);
    assert InClass(p[17], Special);
  }
}
