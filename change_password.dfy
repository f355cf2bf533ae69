/** The password rules and the submit guards of the change-password form
    (src/components/ChangePassword.tsx). */
module ChangePassword {
  import opened Wrappers

  /** The four character classes the strength rules look for: `[a-z]`, `[A-Z]`, `\d` and
      `[@$!%*?&_\-.+=]`. */
  datatype CharClass = Lowercase | Uppercase | Digit | Special

  predicate InClass(c: char, cls: CharClass) {
    match cls
    case Lowercase => 'a' <= c <= 'z'
    case Uppercase => 'A' <= c <= 'Z'
    case Digit => '0' <= c <= '9'
    case Special => c in "@$!%*?&_-.+="
  }

  /** `/[...]/.test(s)` */
  function HasClass(s: string, cls: CharClass): (r: bool)
    ensures r <==> exists i :: 0 <= i < |s| && InClass(s[i], cls)
  {
    if s == [] then false
    else if InClass(s[0], cls) then true
    else
      var r := HasClass(s[1..], cls);
      assert r ==> exists i :: 0 <= i < |s| && InClass(s[i], cls) by {
        if r {
          var i :| 0 <= i < |s[1..]| && InClass(s[1..][i], cls);
          assert s[i + 1] == s[1..][i];
        }
      }
      assert (exists i :: 0 <= i < |s| && InClass(s[i], cls)) ==> r by {
        if exists i :: 0 <= i < |s| && InClass(s[i], cls) {
          var i :| 0 <= i < |s| && InClass(s[i], cls);
          assert i > 0 && s[1..][i - 1] == s[i];
        }
      }
      r
  }

  /** What `validatePasswordStrength` returns. */
  datatype Strength = Strength(isValid: bool, minLength: bool, hasLowercase: bool, hasUppercase: bool,
                               hasDigit: bool, hasSpecialChar: bool)

  /** A password is valid exactly when it has at least 8 characters and a character of each class;
      each flag reports one criterion only. */
  function ValidatePasswordStrength(password: string): (r: Strength)
    ensures r.minLength <==> |password| >= 8
    ensures r.hasLowercase <==> exists i :: 0 <= i < |password| && 'a' <= password[i] <= 'z'
    ensures r.hasUppercase <==> exists i :: 0 <= i < |password| && 'A' <= password[i] <= 'Z'
    ensures r.hasDigit <==> exists i :: 0 <= i < |password| && '0' <= password[i] <= '9'
    ensures r.hasSpecialChar <==> exists i :: 0 <= i < |password| && password[i] in "@$!%*?&_-.+="
    ensures r.isValid <==> r.minLength && r.hasLowercase && r.hasUppercase && r.hasDigit && r.hasSpecialChar
  {
    var minLength := |password| >= 8;
    var hasLowercase := HasClass(password, Lowercase);
    var hasUppercase := HasClass(password, Uppercase);
    var hasDigit := HasClass(password, Digit);
    var hasSpecialChar := HasClass(password, Special);
    Strength(minLength && hasLowercase && hasUppercase && hasDigit && hasSpecialChar,
             minLength, hasLowercase, hasUppercase, hasDigit, hasSpecialChar)
  }

  /** Adding characters to a valid password keeps it valid. */
  lemma ExtendingKeepsValid(password: string, more: string)
    requires ValidatePasswordStrength(password).isValid
    ensures ValidatePasswordStrength(password + more).isValid
  {
    var p := password + more;
    forall cls: CharClass ensures HasClass(password, cls) ==> HasClass(p, cls) {
      if HasClass(password, cls) {
        var i :| 0 <= i < |password| && InClass(password[i], cls);
        assert p[i] == password[i];
      }
    }
  }

  /** A password meeting every rule is accepted; one too short, or one with no uppercase letter, is
      not, and its flags say which rule failed. */
  lemma ExampleStrengths()
    ensures ValidatePasswordStrength("Passw0rd!").isValid
    ensures !ValidatePasswordStrength("Pa0!").isValid && !ValidatePasswordStrength("Pa0!").minLength
    ensures !ValidatePasswordStrength("password1!").isValid && !ValidatePasswordStrength("password1!").hasUppercase
  {
    assert "Passw0rd!"[1] == 'a' && "Passw0rd!"[0] == 'P' && "Passw0rd!"[5] == '0' && "Passw0rd!"[8] == '!';
    assert "Pa0!"[1] == 'a';
    var p := "password1!";
    forall i | 0 <= i < |p| ensures !('A' <= p[i] <= 'Z') {
    }
  }

  /** The request the form sends once the guards pass. */
  datatype ChangeRequest = ChangeRequest(currentPassword: string, newPassword: string, newPasswordConfirmation: string)

  /** What pressing submit does, before any network call. */
  datatype SubmitOutcome =
    | Rejected(message: string)  // an error shown under the form, nothing sent
    | LoginRequired(message: string)  // no token: the error is shown and the user is sent to /login
    | Send(request: ChangeRequest)

  const FieldsRequired := "All fields are required"
  const Mismatch := "New password and confirmation do not match"
  const TooWeak := "Password does not meet strength requirements"
  const NotLoggedIn := "You must be logged in to change password"
  const ChangeFailed := "Failed to change password"

  /** `!token`: no token, or an empty one. */
  predicate HasToken(token: Option<string>) {
    token.Some? && token.value != ""
  }

  /** The guard chain of `handleSubmit`. */
  function Submit(current: string, newPassword: string, confirmation: string, token: Option<string>): (r: SubmitOutcome)
    ensures r == Rejected(FieldsRequired) <==> current == "" || newPassword == "" || confirmation == ""
    ensures r == Rejected(Mismatch) <==>
      current != "" && newPassword != "" && confirmation != "" && newPassword != confirmation
    ensures r == Rejected(TooWeak) <==>
      current != "" && newPassword != "" && newPassword == confirmation
      && !ValidatePasswordStrength(newPassword).isValid
    ensures r.Rejected? ==> r.message in {FieldsRequired, Mismatch, TooWeak}
    ensures r.LoginRequired? ==> r.message == NotLoggedIn
    ensures r.LoginRequired? || r.Send? <==>
      current != "" && newPassword != "" && newPassword == confirmation
      && ValidatePasswordStrength(newPassword).isValid
    ensures r.Send? <==>
      current != "" && newPassword == confirmation && ValidatePasswordStrength(newPassword).isValid
      && HasToken(token)
    ensures r.Send? ==> r.request == ChangeRequest(current, newPassword, confirmation)
  {
    if current == "" || newPassword == "" || confirmation == "" then Rejected(FieldsRequired)
    else if newPassword != confirmation then Rejected(Mismatch)
    else if !ValidatePasswordStrength(newPassword).isValid then Rejected(TooWeak)
    else if !HasToken(token) then LoginRequired(NotLoggedIn)
    else Send(ChangeRequest(current, newPassword, confirmation))
  }

  /** The submit button: disabled while loading, or while a typed new password is invalid. */
  function SubmitDisabled(loading: bool, newPassword: string): (r: bool)
    ensures r <==> loading || (newPassword != "" && !ValidatePasswordStrength(newPassword).isValid)
  {
    loading || (|newPassword| > 0 && !ValidatePasswordStrength(newPassword).isValid)
  }

  /** `err.response?.errors?.[0]?.message || err.message || 'Failed to change password'`: missing or
      empty texts fall through. */
  function FailureMessage(firstErrorMessage: Option<string>, message: Option<string>): (r: string)
    ensures r != ""
    ensures firstErrorMessage.Some? && firstErrorMessage.value != "" ==> r == firstErrorMessage.value
    ensures !(firstErrorMessage.Some? && firstErrorMessage.value != "") && message.Some? && message.value != "" ==>
      r == message.value
    ensures !(firstErrorMessage.Some? && firstErrorMessage.value != "") && !(message.Some? && message.value != "") ==>
      r == ChangeFailed
  {
    if firstErrorMessage.Some? && firstErrorMessage.value != "" then firstErrorMessage.value
    else if message.Some? && message.value != "" then message.value
    else ChangeFailed
  }
}
