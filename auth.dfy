/** The sign-in page: the form checks, the per-field error map, and the
    two modes (sign in, forgot password) the page switches between. */
module Auth {
  import opened Wrappers
  import opened Toasts
  import JsString

  // ---------------------------------------------------------------------
  // The email pattern `^[A-Z0-9._%+-]+@[A-Z0-9.-]+\.[A-Z]{2,}$` with the
  // `i` flag. Without the `u` flag, case-insensitive matching only folds
  // ASCII letters onto ASCII letters, so a letter here is `A-Z` or `a-z`.

  predicate IsLetter(c: char) {
    'A' <= c <= 'Z' || 'a' <= c <= 'z'
  }

  /** `[A-Z0-9._%+-]` */
  predicate LocalChar(c: char) {
    IsLetter(c) || JsString.IsDigit(c) || c == '.' || c == '_' || c == '%' || c == '+' || c == '-'
  }

  /** `[A-Z0-9.-]` */
  predicate DomainChar(c: char) {
    IsLetter(c) || JsString.IsDigit(c) || c == '.' || c == '-'
  }

  /** `[A-Z0-9._%+-]+` */
  predicate LocalPart(s: string) {
    |s| > 0 && forall i :: 0 <= i < |s| ==> LocalChar(s[i])
  }

  /** `[A-Z0-9.-]+` */
  predicate DomainPart(s: string) {
    |s| > 0 && forall i :: 0 <= i < |s| ==> DomainChar(s[i])
  }

  /** `[A-Z]{2,}` */
  predicate TopLevelPart(s: string) {
    |s| >= 2 && forall i :: 0 <= i < |s| ==> IsLetter(s[i])
  }

  /** The language of the pattern: a local part, `@`, a domain part, `.`
      and a top-level part of two or more letters, covering the whole
      string. */
  ghost predicate EmailPattern(s: string) {
    exists i, j :: 0 <= i < j < |s| && s[i] == '@' && s[j] == '.' &&
      LocalPart(s[..i]) && DomainPart(s[i + 1..j]) && TopLevelPart(s[j + 1..])
  }

  /** The first position of `c` in `s`. */
  function FirstIndex(s: string, c: char): (r: Option<nat>)
    ensures r.None? <==> c !in s
    ensures r.Some? ==> r.value < |s| && s[r.value] == c && c !in s[..r.value]
  {
    if |s| == 0 then None
    else if s[0] == c then Some(0)
    else
      match FirstIndex(s[1..], c)
      case None => None
      case Some(k) =>
        assert s[..k + 1] == [s[0]] + s[1..][..k];
        Some(k + 1)
  }

  /** The last position of `c` in `s`. */
  function LastIndex(s: string, c: char): (r: Option<nat>)
    ensures r.None? <==> c !in s
    ensures r.Some? ==> r.value < |s| && s[r.value] == c && c !in s[r.value + 1..]
  {
    if |s| == 0 then None
    else if s[|s| - 1] == c then Some(|s| - 1)
    else
      var init := s[..|s| - 1];
      assert s == init + [s[|s| - 1]];
      LastIndex(init, c)
  }

  /** The pattern test as a scan: the only `@` the pattern can use is the
      first one (the local part has none) and the only `.` before the
      top-level part is the last one (the top-level part has none). */
  function IsValidEmail(s: string): bool {
    match FirstIndex(s, '@')
    case None => false
    case Some(i) =>
      LocalPart(s[..i]) &&
      match LastIndex(s, '.')
      case None => false
      case Some(j) => i < j && DomainPart(s[i + 1..j]) && TopLevelPart(s[j + 1..])
  }

  /** An `@` with only local characters before it is the first `@`. */
  lemma FirstAtOfPattern(s: string, i: nat)
    requires i < |s| && s[i] == '@' && LocalPart(s[..i])
    ensures FirstIndex(s, '@') == Some(i)
  {
    assert s[i] in s;
  }

  /** A `.` with only letters after it is the last `.`. */
  lemma LastDotOfPattern(s: string, j: nat)
    requires j < |s| && s[j] == '.' && TopLevelPart(s[j + 1..])
    ensures LastIndex(s, '.') == Some(j)
  {
    assert s[j] in s;
  }

  /** The scan accepts exactly the strings of the pattern. */
  lemma IsValidEmailMatchesPattern(s: string)
    ensures IsValidEmail(s) <==> EmailPattern(s)
  {
    if IsValidEmail(s) {
      ValidEmailInPattern(s);
    }
    if EmailPattern(s) {
      PatternIsValidEmail(s);
    }
  }

  /** What the scan accepts, the pattern matches, at the first `@` and the
      last `.`. */
  lemma ValidEmailInPattern(s: string)
    requires IsValidEmail(s)
    ensures EmailPattern(s)
  {
    var i := FirstIndex(s, '@').value;
    var j := LastIndex(s, '.').value;
    assert 0 <= i < j < |s| && s[i] == '@' && s[j] == '.';
  }

  /** What the pattern matches, the scan accepts. */
  lemma PatternIsValidEmail(s: string)
    requires EmailPattern(s)
    ensures IsValidEmail(s)
  {
    var i, j :| 0 <= i < j < |s| && s[i] == '@' && s[j] == '.' &&
      LocalPart(s[..i]) && DomainPart(s[i + 1..j]) && TopLevelPart(s[j + 1..]);
    FirstAtOfPattern(s, i);
    LastDotOfPattern(s, j);
  }

  /** A string with no `@` has none inside any of its slices. */
  lemma NoCharInParts(s: string, c: char, i: nat)
    requires i < |s| && s[i] == c && c !in s[..i] && c !in s[i + 1..]
    ensures multiset(s)[c] == 1
  {
    assert s == s[..i] + [c] + s[i + 1..];
    assert multiset(s) == multiset(s[..i]) + multiset{c} + multiset(s[i + 1..]);
  }

  /** An accepted address has exactly one `@`, and after its last `.` two or
      more letters. */
  lemma ValidEmailShape(s: string)
    requires IsValidEmail(s)
    ensures multiset(s)['@'] == 1
    ensures LastIndex(s, '.').Some?
    ensures TopLevelPart(s[LastIndex(s, '.').value + 1..])
  {
    var i := FirstIndex(s, '@').value;
    var j := LastIndex(s, '.').value;
    NoAtInDomain(s[i + 1..j]);
    NoAtInTopLevel(s[j + 1..]);
    NotInAround(s, '@', i, j);
    NoCharInParts(s, '@', i);
  }

  /** A character missing from both sides of position `j`, and not at `j`,
      is missing from everything after position `i`. */
  lemma NotInAround(s: string, c: char, i: nat, j: nat)
    requires i < j < |s| && s[j] != c && c !in s[i + 1..j] && c !in s[j + 1..]
    ensures c !in s[i + 1..]
  {
    assert s[i + 1..] == s[i + 1..j] + [s[j]] + s[j + 1..];
  }

  lemma NoAtInDomain(t: string)
    requires DomainPart(t)
    ensures '@' !in t
  {
  }

  lemma NoAtInTopLevel(t: string)
    requires TopLevelPart(t)
    ensures '@' !in t
  {
  }

  // ---------------------------------------------------------------------
  // Form checks

  datatype Mode = SignIn | Forgot

  /** The keys of the error record. */
  datatype Field = Email | Password

  /** The email check of `validateForm`. */
  function EmailError(email: string): (r: Option<string>)
    ensures r.None? <==> IsValidEmail(email)
    ensures email == "" ==> r == Some("Email is required")
    ensures email != "" && !IsValidEmail(email) ==> r == Some("Please enter a valid email address")
  {
    if email == "" then Some("Email is required")
    else if !IsValidEmail(email) then Some("Please enter a valid email address")
    else None
  }

  /** The password check of `validateForm`, skipped when resetting. */
  function PasswordError(mode: Mode, password: string): (r: Option<string>)
    ensures mode == Forgot ==> r == None
    ensures mode == SignIn ==> (r.None? <==> |password| >= 6)
    ensures mode == SignIn && password == "" ==> r == Some("Password is required")
    ensures mode == SignIn && 0 < |password| < 6 ==> r == Some("Password must be at least 6 characters")
  {
    if mode == Forgot then None
    else if password == "" then Some("Password is required")
    else if |password| < 6 then Some("Password must be at least 6 characters")
    else None
  }

  /** The form may be sent: a well-formed address and, when signing in, a
      password of six or more characters. */
  predicate FormValid(email: string, password: string, mode: Mode) {
    IsValidEmail(email) && (mode == Forgot || |password| >= 6)
  }

  /** The error record `validateForm` leaves: one entry per failed check. */
  function FormErrors(email: string, password: string, mode: Mode): (r: map<Field, string>)
    ensures r.Keys <= {Email, Password}
    ensures r == map[] <==> FormValid(email, password, mode)
  {
    var withEmail := if EmailError(email).Some? then map[Email := EmailError(email).value] else map[];
    if PasswordError(mode, password).Some? then
      var r := withEmail[Password := PasswordError(mode, password).value];
      assert Password in r;
      r
    else
      assert EmailError(email).Some? ==> Email in withEmail;
      withEmail
  }

  /** Each field's entry is the message of its own check, and resetting a
      password never reports a password error. */
  lemma FormErrorsMessages(email: string, password: string, mode: Mode)
    ensures var errors := FormErrors(email, password, mode);
      && (Email in errors <==> !IsValidEmail(email))
      && (Email in errors ==> errors[Email] == EmailError(email).value)
      && (Password in errors <==> mode == SignIn && |password| < 6)
      && (Password in errors ==> errors[Password] == PasswordError(mode, password).value)
      && (mode == Forgot ==> Password !in errors)
  {
  }

  /** What submitting asks of the authentication service. */
  datatype Request = SignInRequest(email: string, password: string) | ResetRequest(email: string)

  /** `error.message || "An error occurred"`: a missing or empty message is
      replaced. */
  function ErrorText(message: string): (r: string)
    ensures r != ""
    ensures message != "" ==> r == message
  {
    if message == "" then "An error occurred" else message
  }

  /** The footer link of each mode: its label and the mode it switches to. */
  function ModeLink(mode: Mode): (r: (string, Mode))
    ensures r.1 != mode
  {
    match mode
    case SignIn => ("Forgot your password?", Forgot)
    case Forgot => ("Back to sign in", SignIn)
  }

  /** The password input is rendered only when signing in. */
  predicate PasswordShown(mode: Mode) {
    mode != Forgot
  }

  // ---------------------------------------------------------------------
  // The page state

  class AuthPage {
    var mode: Mode
    var loading: bool
    var email: string
    var password: string
    var errors: map<Field, string>

    constructor ()
      ensures mode == SignIn && !loading && email == "" && password == "" && errors == map[]
    {
      mode, loading := SignIn, false;
      email, password := "", "";
      errors := map[];
    }

    /** The message an input shows: a present, non-empty entry. */
    predicate ShowsError(field: Field)
      reads this
    {
      field in errors && errors[field] != ""
    }

    /** `validateForm`: builds a fresh error record check by check, stores
        it, and reports whether it is empty. */
    method ValidateForm() returns (valid: bool)
      modifies this
      ensures errors == FormErrors(email, password, mode)
      ensures valid <==> FormValid(email, password, mode)
      ensures mode == old(mode) && loading == old(loading)
      ensures email == old(email) && password == old(password)
    {
      var newErrors: map<Field, string> := map[];
      if email == "" {
        newErrors := newErrors[Email := "Email is required"];
      } else if !IsValidEmail(email) {
        newErrors := newErrors[Email := "Please enter a valid email address"];
      }
      if mode != Forgot {
        if password == "" {
          newErrors := newErrors[Password := "Password is required"];
        } else if |password| < 6 {
          newErrors := newErrors[Password := "Password must be at least 6 characters"];
        }
      }
      errors := newErrors;
      valid := |newErrors| == 0;
    }

    /** `handleInputChange(field)`: stores the typed value and blanks that
        field's error if one is shown; other entries, and which keys are
        present, stay as they were. */
    method HandleInputChange(field: Field, value: string)
      modifies this
      ensures field == Email ==> email == value && password == old(password)
      ensures field == Password ==> password == value && email == old(email)
      ensures errors.Keys == old(errors).Keys
      ensures field in errors ==> errors[field] == ""
      ensures forall f :: f in errors && f != field ==> errors[f] == old(errors)[f]
      ensures !ShowsError(field)
      ensures mode == old(mode) && loading == old(loading)
    {
      if field == Email {
        email := value;
      } else {
        password := value;
      }
      if field in errors && errors[field] != "" {
        errors := errors[field := ""];
      }
    }

    /** `handleSubmit`. The form is checked first; when it fails nothing is
        sent and `loading` is untouched. Otherwise the request of the mode is
        sent (`outcome` is its result): a sign-in that succeeds greets and
        goes to the dashboard, a reset that succeeds returns to signing in,
        and a failure shows its message. `loading` ends false. */
    method HandleSubmit(outcome: Result<(), string>)
      returns (request: Option<Request>, toast: Option<Toast>, route: Option<string>)
      modifies this
      ensures errors == FormErrors(old(email), old(password), old(mode))
      ensures email == old(email) && password == old(password)
      ensures request.None? <==> !FormValid(old(email), old(password), old(mode))
      ensures request.None? ==>
        toast == None && route == None && mode == old(mode) && loading == old(loading)
      ensures request.Some? ==> !loading
      ensures request.Some? && old(mode) == SignIn ==>
        && request == Some(SignInRequest(old(email), old(password)))
        && mode == SignIn
        && (outcome.Ok? ==> toast == Some(Success("Welcome back!")) && route == Some("/dashboard"))
        && (outcome.Err? ==> toast == Some(Failure(ErrorText(outcome.error))) && route == None)
      ensures request.Some? && old(mode) == Forgot ==>
        && request == Some(ResetRequest(old(email)))
        && route == None
        && (outcome.Ok? ==> toast == Some(Success("Password reset email sent!")) && mode == SignIn)
        && (outcome.Err? ==> toast == Some(Failure(ErrorText(outcome.error))) && mode == Forgot)
    {
      var valid := ValidateForm();
      if !valid {
        return None, None, None;
      }
      loading := true;
      route := None;
      if mode == SignIn {
        request := Some(SignInRequest(email, password));
        if outcome.Ok? {
          toast := Some(Success("Welcome back!"));
          route := Some("/dashboard");
        } else {
          toast := Some(Failure(ErrorText(outcome.error)));
        }
      } else {
        request := Some(ResetRequest(email));
        if outcome.Ok? {
          toast := Some(Success("Password reset email sent!"));
          mode := SignIn;
        } else {
          toast := Some(Failure(ErrorText(outcome.error)));
        }
      }
      loading := false;
    }

    /** The footer button: "Forgot your password?" when signing in, "Back
        to sign in" when resetting; it only switches the mode. */
    method FollowModeLink()
      modifies this
      ensures mode == ModeLink(old(mode)).1 && mode != old(mode)
      ensures loading == old(loading) && errors == old(errors)
      ensures email == old(email) && password == old(password)
    {
      mode := ModeLink(mode).1;
    }
  }
}
