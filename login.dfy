/** The login form: its four-step validation and the gate and loading flag
    around the call to `login`. The `login` call itself belongs to the
    authentication service; `BeginSubmit` returns the arguments it is called
    with and `FinishSubmit` takes its outcome. */
module Login {
  import opened Wrappers
  import opened Text

  const EmailMissing: string := "Bitte geben Sie Ihre E-Mail-Adresse ein"
  const EmailInvalid: string := "Bitte geben Sie eine gültige E-Mail-Adresse ein"
  const PasswordMissing: string := "Bitte geben Sie Ihr Passwort ein"
  const PasswordShort: string := "Das Passwort muss mindestens 6 Zeichen lang sein"
  const LoginFailed: string := "Login fehlgeschlagen. Bitte versuchen Sie es erneut."
  const DashboardRoute: string := "/dashboard"
  const MinPasswordLength: nat := 6

  /** A character of the class `[^\s@]`. */
  predicate Plain(c: char)
  {
    !IsSpace(c) && c != '@'
  }

  predicate AllPlain(s: string)
  {
    forall k :: 0 <= k < |s| ==> Plain(s[k])
  }

  /** `/^[^\s@]+@[^\s@]+\.[^\s@]+$/.test(e)`: some `@` at `i` and `.` at `j`
      cut `e` into three non-empty runs of `[^\s@]`. */
  predicate EmailPattern(e: string)
  {
    exists i, j | 0 <= i < j < |e| :: SplitsAt(e, i, j)
  }

  /** `e[..i]`, `e[i + 1..j]` and `e[j + 1..]` are non-empty runs of
      `[^\s@]`, with `@` at `i` and `.` at `j`. */
  predicate SplitsAt(e: string, i: int, j: int)
  {
    && 0 < i && i + 1 < j && j + 1 < |e|
    && e[i] == '@' && e[j] == '.'
    && AllPlain(e[..i]) && AllPlain(e[i + 1..j]) && AllPlain(e[j + 1..])
  }

  /** What the pattern means: no whitespace, exactly one `@` with something
      before it, and a `.` after it that is neither the first nor the last
      character of the domain. */
  ghost predicate WellFormedEmail(e: string)
  {
    && (forall k :: 0 <= k < |e| ==> !IsSpace(e[k]))
    && exists i :: (
      && 0 < i < |e| && e[i] == '@'
      && (forall k :: 0 <= k < |e| && e[k] == '@' ==> k == i)
      && (exists j :: i + 1 < j < |e| - 1 && e[j] == '.'))
  }

  lemma EmailPatternMeaning(e: string)
    ensures EmailPattern(e) <==> WellFormedEmail(e)
  {
    if EmailPattern(e) {
      PatternIsWellFormed(e);
    }
    if WellFormedEmail(e) {
      WellFormedMatchesPattern(e);
    }
  }

  lemma PatternIsWellFormed(e: string)
    requires EmailPattern(e)
    ensures WellFormedEmail(e)
  {
    var i, j :| 0 <= i < j < |e| && SplitsAt(e, i, j);
    forall k | 0 <= k < |e| && k != i && k != j ensures Plain(e[k]) {
      if k < i {
        assert e[..i][k] == e[k];
      } else if k < j {
        assert e[i + 1..j][k - i - 1] == e[k];
      } else {
        assert e[j + 1..][k - j - 1] == e[k];
      }
    }
    assert i + 1 < j < |e| - 1 && e[j] == '.';
  }

  lemma WellFormedMatchesPattern(e: string)
    requires WellFormedEmail(e)
    ensures EmailPattern(e)
  {
    var i :| 0 < i < |e| && e[i] == '@'
      && (forall k :: 0 <= k < |e| && e[k] == '@' ==> k == i)
      && (exists j :: i + 1 < j < |e| - 1 && e[j] == '.');
    var j :| i + 1 < j < |e| - 1 && e[j] == '.';
    PlainSlice(e, i, 0, i);
    PlainSlice(e, i, i + 1, j);
    PlainSlice(e, i, j + 1, |e|);
    assert e[0..i] == e[..i] && e[j + 1..|e|] == e[j + 1..];
    assert SplitsAt(e, i, j);
  }

  /** A slice without whitespace that avoids the only `@` is a run of
      `[^\s@]`. */
  lemma PlainSlice(e: string, at: int, lo: int, hi: int)
    requires 0 <= lo <= hi <= |e| && !(lo <= at < hi)
    requires forall k :: 0 <= k < |e| ==> !IsSpace(e[k])
    requires forall k :: 0 <= k < |e| && e[k] == '@' ==> k == at
    ensures AllPlain(e[lo..hi])
  {
    forall k | 0 <= k < hi - lo ensures Plain(e[lo..hi][k]) {
      assert e[lo..hi][k] == e[lo + k];
    }
  }

  /** A well-formed address has no whitespace to trim. */
  lemma WellFormedIsTrimmed(e: string)
    ensures WellFormedEmail(e) ==> Trim(e) == e
  {
    if WellFormedEmail(e) {
      TrimOfTrimmed(e);
    }
  }

  /** The message of the first failing check of `validateForm`, or `None`
      when all four pass. */
  function FormError(email: string, password: string): (r: Option<string>)
    ensures r.Some? ==> r.value != []
  {
    if Trim(email) == [] then Some(EmailMissing)
    else if !EmailPattern(email) then Some(EmailInvalid)
    else PasswordError(password)
  }

  /** The last two checks of `validateForm`, on the password alone. */
  function PasswordError(password: string): (r: Option<string>)
    ensures r.None? <==> |password| >= MinPasswordLength
  {
    if password == [] then Some(PasswordMissing)
    else if |password| < MinPasswordLength then Some(PasswordShort)
    else None
  }

  /** The form is accepted exactly when the address is well formed and the
      password has at least six characters (the blank-email and
      empty-password checks are subsumed); otherwise the error is that of the
      first failing check. */
  lemma FormErrorMeaning(email: string, password: string)
    ensures FormError(email, password).None? <==> WellFormedEmail(email) && |password| >= MinPasswordLength
    ensures Trim(email) == [] ==> FormError(email, password) == Some(EmailMissing)
    ensures Trim(email) != [] && !WellFormedEmail(email) ==> FormError(email, password) == Some(EmailInvalid)
    ensures WellFormedEmail(email) && password == [] ==> FormError(email, password) == Some(PasswordMissing)
    ensures WellFormedEmail(email) && 0 < |password| < MinPasswordLength ==> FormError(email, password) == Some(PasswordShort)
  {
    EmailPatternMeaning(email);
    WellFormedIsTrimmed(email);
    if WellFormedEmail(email) {
      assert FormError(email, password) == PasswordError(password);
    }
  }

  /** The blank-email check only changes the message: a blank email would
      fail the pattern as well. */
  lemma BlankEmailFailsPattern(email: string)
    requires Trim(email) == []
    ensures !EmailPattern(email)
  {
    EmailPatternMeaning(email);
    WellFormedIsTrimmed(email);
  }

  /** The pattern is tested on the untrimmed text: a valid address with a
      space in front passes the blank check and is then rejected as invalid. */
  lemma PaddedEmailRejected(email: string, password: string)
    requires EmailPattern(email)
    ensures FormError(" " + email, password) == Some(EmailInvalid)
  {
    LeadingSpaceFailsPattern(email);
    LeadingSpaceTrimmed(email);
  }

  lemma LeadingSpaceFailsPattern(email: string)
    ensures !EmailPattern(" " + email)
  {
    var padded := " " + email;
    forall i | 0 < i <= |padded| ensures !AllPlain(padded[..i]) {
      assert padded[..i][0] == ' ';
    }
  }

  lemma LeadingSpaceTrimmed(email: string)
    requires EmailPattern(email)
    ensures Trim(" " + email) == email != []
  {
    PatternIsWellFormed(email);
    WellFormedIsTrimmed(email);
    SpaceThenTrimmed(email);
  }

  /** `err.message || 'Login fehlgeschlagen…'`. */
  function FailureMessage(message: string): (r: string)
    ensures r != []
    ensures message != [] ==> r == message
    ensures message == [] ==> r == LoginFailed
  {
    if message != [] then message else LoginFailed
  }

  class LoginForm {
    var email: string
    var password: string
    var error: string
    var isLoading: bool

    constructor()
      ensures email == [] && password == [] && error == [] && !isLoading
    {
      email, password, error, isLoading := [], [], [], false;
    }

    /** The e-mail input's `onChange`. */
    method SetEmail(value: string)
      modifies this
      ensures email == value
      ensures password == old(password) && error == old(error) && isLoading == old(isLoading)
    {
      email := value;
    }

    /** The password input's `onChange`. */
    method SetPassword(value: string)
      modifies this
      ensures password == value
      ensures email == old(email) && error == old(error) && isLoading == old(isLoading)
    {
      password := value;
    }

    /** `validateForm`: sets the error of the first failing check; when all
        pass, the error is left as it was. */
    method ValidateForm() returns (ok: bool)
      modifies this
      ensures ok <==> FormError(email, password).None?
      ensures ok ==> error == old(error)
      ensures !ok ==> error == FormError(email, password).value
      ensures email == old(email) && password == old(password) && isLoading == old(isLoading)
    {
      var e, p := email, password;
      var failure: Option<string>;
      if Trim(e) == [] {
        failure := Some(EmailMissing);
      } else if !EmailPattern(e) {
        failure := Some(EmailInvalid);
      } else {
        assert FormError(e, p) == PasswordError(p);
        if p == [] {
          failure := Some(PasswordMissing);
        } else if |p| < MinPasswordLength {
          failure := Some(PasswordShort);
        } else {
          failure := None;
        }
      }
      assert failure == FormError(e, p);
      error := if failure.Some? then failure.value else error;
      return failure.None?;
    }

    /** `handleSubmit` up to the `await`: the error is cleared, and `login` is
        called with the form's e-mail and password, loading switched on, only
        when the validation passes. */
    method BeginSubmit() returns (login: Option<(string, string)>)
      modifies this
      ensures login.Some? <==> FormError(email, password).None?
      ensures login.Some? ==> login.value == (email, password) && isLoading && error == []
      ensures login.None? ==> error == FormError(email, password).value && isLoading == old(isLoading)
      ensures email == old(email) && password == old(password)
    {
      error := [];
      var ok := ValidateForm();
      if !ok {
        return None;
      }
      isLoading := true;
      return Some((email, password));
    }

    /** `handleSubmit` after the `await`: on success the page navigates to
        the dashboard; on failure the thrown message, or the default, becomes
        the error; loading ends either way. */
    method FinishSubmit(outcome: Result<(), string>) returns (navigateTo: Option<string>)
      modifies this
      ensures !isLoading
      ensures outcome.Success? ==> navigateTo == Some(DashboardRoute) && error == old(error)
      ensures outcome.Failure? ==> navigateTo.None? && error == FailureMessage(outcome.error)
      ensures email == old(email) && password == old(password)
    {
      match outcome {
        case Success(_) =>
          navigateTo := Some(DashboardRoute);
        case Failure(message) =>
          error := FailureMessage(message);
          navigateTo := None;
      }
      isLoading := false;
    }
  }
}
