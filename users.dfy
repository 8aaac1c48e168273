/** The account-name and password-hash validators of the user document
    (backend/app/models/user.py). */
module Users {
  import opened Wrappers
  import opened Text
  import opened Patterns

  const UsernameMinLength: nat := 3
  const UsernameMaxLength: nat := 50

  const UsernameLengthMessage: string := "ValueError: username must be between 3 and 50 characters long"
  const UsernameCharsetMessage: string := "ValueError: username may only contain letters, numbers, and underscores"
  const EmptyHashMessage: string := "ValueError: password hash cannot be empty"

  /** The class `[A-Za-z0-9_]`. */
  predicate IsUsernameChar(c: char)
  {
    IsAlpha(c) || IsDigit(c) || c == '_'
  }

  /** `validate_username`: the length check first, then the pattern. */
  function ValidateUsername(username: string): (r: Result<string>)
    ensures r.Ok? ==> r.value == username
    ensures !(UsernameMinLength <= |username| <= UsernameMaxLength) ==> r == Err(UsernameLengthMessage)
  {
    if !(UsernameMinLength <= |username| <= UsernameMaxLength) then Err(UsernameLengthMessage)
    else if !FullMatchPlus(username, IsUsernameChar) then Err(UsernameCharsetMessage)
    else Ok(username)
  }

  /** The accepted names are exactly those of 3 to 50 characters, each a
      letter, a digit or an underscore; a name of acceptable length with
      another character is refused for its characters. */
  lemma UsernameAccepted(username: string)
    ensures ValidateUsername(username).Ok? <==>
      3 <= |username| <= 50 && forall i :: 0 <= i < |username| ==> IsUsernameChar(username[i])
    ensures 3 <= |username| <= 50 && (exists i :: 0 <= i < |username| && !IsUsernameChar(username[i])) ==>
      ValidateUsername(username) == Err(UsernameCharsetMessage)
  {
    FullMatchPlusAll(username, IsUsernameChar);
  }

  /** The names the user-document tests use: two letters are too few. */
  lemma ShortUsernameExample()
    ensures ValidateUsername("ab") == Err(UsernameLengthMessage)
  {
  }

  /** An `@` is not a name character. */
  lemma CharsetUsernameExample()
    ensures ValidateUsername("user@name") == Err(UsernameCharsetMessage)
  {
    var u := "user@name";
    assert !IsUsernameChar(u[4]);
    UsernameAccepted(u);
  }

  /** Fifty-one characters are too many. */
  lemma LongUsernameExample()
    ensures ValidateUsername(Repeat('a', 51)) == Err(UsernameLengthMessage)
  {
  }

  /** Letters and an underscore are accepted. */
  lemma GoodUsernameExample()
    ensures ValidateUsername("test_user") == Ok("test_user")
  {
    var u := "test_user";
    assert u == "test" + "_" + "user";
    forall i | 0 <= i < |u| ensures IsUsernameChar(u[i]) {
      assert IsLower(u[i]) || u[i] == '_';
    }
    UsernameAccepted(u);
  }

  /** `validate_password_hash`: an empty hash is refused. */
  function ValidatePasswordHash(passwordHash: string): (r: Result<string>)
    ensures r.Ok? <==> passwordHash != []
    ensures r.Ok? ==> r.value == passwordHash
    ensures r.Err? ==> r.why == EmptyHashMessage
  {
    if passwordHash == [] then Err(EmptyHashMessage) else Ok(passwordHash)
  }
}
