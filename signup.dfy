// The sign-up form of src/pages/Signup.jsx: the name and e-mail checks, run in order
// with the first failure shown, and the sign-in under the trimmed name once they pass.

module Signup {
  import opened Wrappers
  import opened JsText
  import AuthContext

  const EnterName := "Please enter your name"
  const EnterEmail := "Please enter your email address"
  const InvalidEmail := "Please enter a valid email address"

  /** `s.includes(c)` for a one-character needle is membership. */
  lemma ContainsChar(s: string, c: char)
    ensures Contains(s, [c]) <==> c in s
  {
    if Contains(s, [c]) {
      var i :| OccursAt(s, [c], i);
      assert s[i] == s[i..i + 1][0] == c;
    }
    if c in s {
      var i :| 0 <= i < |s| && s[i] == c;
      assert OccursAt(s, [c], i);
    }
  }

  /** The validation chain: the message of the first check that fails, or none. */
  function Validate(name: string, email: string): Option<string> {
    if Trim(name) == "" then Some(EnterName)
    else if Trim(email) == "" then Some(EnterEmail)
    else if !Contains(email, "@") || !Contains(email, ".") then Some(InvalidEmail)
    else None
  }

  /** Each message appears exactly when its check is the first to fail: a blank name; a
      name with a blank e-mail; a name and an e-mail lacking '@' or '.'. */
  lemma ValidateFirstFailureWins(name: string, email: string)
    ensures Validate(name, email) == Some(EnterName) <==> IsBlank(name)
    ensures Validate(name, email) == Some(EnterEmail) <==> !IsBlank(name) && IsBlank(email)
    ensures Validate(name, email) == Some(InvalidEmail) <==>
      !IsBlank(name) && !IsBlank(email) && ('@' !in email || '.' !in email)
    ensures Validate(name, email).None? <==>
      !IsBlank(name) && !IsBlank(email) && '@' in email && '.' in email
  {
    BlankIffAllSpace(name);
    BlankIffAllSpace(email);
    ContainsChar(email, '@');
    ContainsChar(email, '.');
  }

  /** The form's state, over the provider it signs in with. */
  class SignupForm {
    var name: string
    var email: string
    var error: string
    var isSubmitting: bool
    const auth: AuthContext.AuthProvider

    constructor (auth: AuthContext.AuthProvider)
      ensures name == "" && email == "" && error == "" && !isSubmitting && this.auth == auth
    {
      name, email, error, isSubmitting := "", "", "", false;
      this.auth := auth;
    }

    /** The name field's onChange: sets the name and clears any error shown. */
    method ChangeName(value: string)
      modifies this
      ensures name == value && email == old(email) && error == "" && isSubmitting == old(isSubmitting)
    {
      name := value;
      if error != "" {
        error := "";
      }
    }

    /** The e-mail field's onChange: sets the e-mail and clears any error shown. */
    method ChangeEmail(value: string)
      modifies this
      ensures email == value && name == old(name) && error == "" && isSubmitting == old(isSubmitting)
    {
      email := value;
      if error != "" {
        error := "";
      }
    }

    /** handleSubmit: the first failed check's message and nothing else; otherwise the
        error is cleared, the user signs in under the trimmed name at `now` (which cannot
        be refused, the name being non-blank) and the page moves on (`navigated`). */
    method HandleSubmit(now: string) returns (navigated: bool)
      modifies this, auth
      ensures Validate(old(name), old(email)).Some? ==>
        && error == Validate(old(name), old(email)).value && !navigated
        && auth.user == old(auth.user) && auth.isLoading == old(auth.isLoading) && auth.storage == old(auth.storage)
      ensures Validate(old(name), old(email)).None? ==>
        error == "" && navigated && auth.user == Some(AuthContext.User(Trim(old(name)), now))
        && auth.isLoading == old(auth.isLoading) && auth.storage == old(auth.storage)
      ensures Validate(old(name), old(email)).Some? ==> isSubmitting == old(isSubmitting)
      ensures Validate(old(name), old(email)).None? ==> !isSubmitting
      ensures name == old(name) && email == old(email)
    {
      navigated := false;
      var invalid := Validate(name, email);
      if invalid.Some? {
        error := invalid.value;
        return;
      }
      isSubmitting := true;
      error := "";
      var trimmed := Trim(name);
      TrimIdempotent(name);
      BlankIffAllSpace(trimmed);
      var failure := auth.Login(Some(trimmed), now);
      assert failure.None?;
      navigated := true;
      isSubmitting := false;
    }
  }
}
