/** The password policy and the guards around hashing and verification
    (backend/app/core/security.py). The bcrypt hash and check are
    parameters: `hasher` computes a digest, and `checker` answers whether a
    password matches a digest, or `None` when it raises on a malformed one. */
module Security {
  import opened Wrappers
  import opened Text
  import opened Patterns

  const PasswordMinLength: nat := 8

  const TooShortMessage: string := "ValueError: password must contain at least 8 characters"
  const NoLowercaseMessage: string := "ValueError: password must include a lowercase letter"
  const NoUppercaseMessage: string := "ValueError: password must include an uppercase letter"
  const NoDigitMessage: string := "ValueError: password must include a digit"

  /** `validate_password_strength`: length, then a lowercase letter, an
      uppercase letter and a digit, each searched for in turn. */
  function ValidatePasswordStrength(password: string): (r: Result<string>)
    ensures r.Ok? ==> r.value == password
    ensures |password| < PasswordMinLength ==> r == Err(TooShortMessage)
  {
    if |password| < PasswordMinLength then Err(TooShortMessage)
    else if Search(password, IsLower).None? then Err(NoLowercaseMessage)
    else if Search(password, IsUpper).None? then Err(NoUppercaseMessage)
    else if Search(password, IsDigit).None? then Err(NoDigitMessage)
    else Ok(password)
  }

  predicate HasChar(s: string, cls: char -> bool)
  {
    exists i :: 0 <= i < |s| && cls(s[i])
  }

  /** The accepted passwords are exactly those of at least eight characters
      with a lowercase letter, an uppercase letter and a digit; a refused one
      is refused for the first requirement it misses. */
  lemma PasswordAccepted(password: string)
    ensures ValidatePasswordStrength(password).Ok? <==>
      |password| >= 8 && HasChar(password, IsLower) && HasChar(password, IsUpper) && HasChar(password, IsDigit)
    ensures |password| >= 8 && !HasChar(password, IsLower) ==>
      ValidatePasswordStrength(password) == Err(NoLowercaseMessage)
    ensures |password| >= 8 && HasChar(password, IsLower) && !HasChar(password, IsUpper) ==>
      ValidatePasswordStrength(password) == Err(NoUppercaseMessage)
    ensures |password| >= 8 && HasChar(password, IsLower) && HasChar(password, IsUpper) && !HasChar(password, IsDigit) ==>
      ValidatePasswordStrength(password) == Err(NoDigitMessage)
  {
  }

  /** The passwords the security tests use: a strong one is accepted. */
  lemma StrongPasswordExample()
    ensures ValidatePasswordStrength("StrongPass1") == Ok("StrongPass1")
  {
    var p := "StrongPass1";
    assert IsLower(p[1]) && IsUpper(p[0]) && IsDigit(p[10]);
  }

  /** A five-letter password is too short. */
  lemma ShortPasswordExample()
    ensures ValidatePasswordStrength("short") == Err(TooShortMessage)
  {
  }

  /** A password without an uppercase letter. */
  lemma NoUppercaseExample()
    ensures ValidatePasswordStrength("alllowercase1") == Err(NoUppercaseMessage)
  {
    var p := "alllowercase1";
    assert IsLower(p[0]);
    forall i | 0 <= i < |p| ensures !IsUpper(p[i]) {}
  }

  /** A password without a lowercase letter. */
  lemma NoLowercaseExample()
    ensures ValidatePasswordStrength("NOLOWERCASE1") == Err(NoLowercaseMessage)
  {
    var p := "NOLOWERCASE1";
    assert p == "NOLOWERCASE" + "1";
    forall i | 0 <= i < |p| ensures !IsLower(p[i]) {
      assert IsUpper(p[i]) || IsDigit(p[i]);
    }
  }

  /** A password without a digit. */
  lemma NoDigitExample()
    ensures ValidatePasswordStrength("NoDigits") == Err(NoDigitMessage)
  {
    var p := "NoDigits";
    assert IsLower(p[1]) && IsUpper(p[0]);
    forall i | 0 <= i < |p| ensures !IsDigit(p[i]) {}
  }

  /** `hash_password`: the password is validated before it is hashed. */
  function HashPassword(password: string, hasher: string -> string): (r: Result<string>)
    ensures r.Err? <==> ValidatePasswordStrength(password).Err?
    ensures r.Err? ==> r == ValidatePasswordStrength(password)
    ensures r.Ok? ==> r.value == hasher(password)
  {
    var validated :- ValidatePasswordStrength(password);
    Ok(hasher(validated))
  }

  /** A weak password is refused whatever the hasher. */
  lemma WeakPasswordNeverHashed(password: string, hasher1: string -> string, hasher2: string -> string)
    requires ValidatePasswordStrength(password).Err?
    ensures HashPassword(password, hasher1) == HashPassword(password, hasher2)
  {
  }

  /** `verify_password`: an empty digest never matches, and a digest the
      checker cannot read does not either. */
  function VerifyPassword(password: string, passwordHash: string, checker: (string, string) -> Option<bool>): (r: bool)
    ensures passwordHash == [] ==> !r
    ensures r <==> passwordHash != [] && checker(password, passwordHash) == Some(true)
  {
    if passwordHash == [] then false
    else match checker(password, passwordHash)
      case None => false
      case Some(matches) => matches
  }

  /** The empty digest is refused without consulting the checker. */
  lemma EmptyHashIgnoresChecker(password: string, checker: (string, string) -> Option<bool>)
    ensures !VerifyPassword(password, "", checker)
  {
  }
}
