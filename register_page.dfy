/** The registration page's own `validate(form)`: it fills an error object
    in sequence, takes the name's length untrimmed, and checks the password
    in a fixed order, reporting only the first problem. */
module RegisterPage {
  import opened Common
  import opened Text
  import opened PasswordPolicy
  import opened EmailShape
  import opened FormFields
  import opened BackendRules

  const NAME_SHORT: string := "Name must be at least 20 characters"
  const NAME_LONG: string := "Name must be at most 60 characters"
  const ADDRESS_LONG: string := "Address must be at most 400 characters"
  const EMAIL_INVALID: string := "Invalid email address"
  const PASSWORD_LENGTH: string := "Password must be 8\U{2013}16 characters"
  const PASSWORD_UPPER: string := "Password must include at least one uppercase letter"
  const PASSWORD_SPECIAL: string := "Password must include at least one special character"

  datatype Form = Form(name: string, email: string, address: string, password: string)

  function PasswordMessage(p: PasswordProblem): string {
    match p
    case BadLength => PASSWORD_LENGTH
    case NoUpper => PASSWORD_UPPER
    case NoSpecial => PASSWORD_SPECIAL
  }

  /** What the page lets through to the request. */
  predicate Accepted(form: Form) {
    && 20 <= |form.name| <= 60
    && |form.address| <= 400
    && EmailShaped(form.email)
    && PageProblem(form.password) == None
  }

  method Validate(form: Form) returns (errors: map<Field, string>)
    ensures Name in errors <==> !(20 <= |form.name| <= 60)
    ensures Name in errors ==> errors[Name] == (if |form.name| > 60 then NAME_LONG else NAME_SHORT)
    ensures Address in errors <==> |form.address| > 400
    ensures Address in errors ==> errors[Address] == ADDRESS_LONG
    ensures Email in errors <==> !MatchesEmailPattern(form.email)
    ensures Email in errors ==> errors[Email] == EMAIL_INVALID
    ensures Password in errors <==> PageProblem(form.password) != None
    ensures Password in errors ==> errors[Password] == PasswordMessage(PageProblem(form.password).value)
    ensures errors == map[] <==> Accepted(form)
  {
    PatternIsShape(form.email);
    errors := map[];
    if |form.name| < 20 {
      errors := errors[Name := NAME_SHORT];
    }
    if |form.name| > 60 {
      errors := errors[Name := NAME_LONG];
    }
    if |form.address| > 400 {
      errors := errors[Address := ADDRESS_LONG];
    }
    if !MatchesEmailPattern(form.email) {
      errors := errors[Email := EMAIL_INVALID];
    }
    var pw := form.password;
    if |pw| < 8 || |pw| > 16 {
      errors := errors[Password := PASSWORD_LENGTH];
    } else if !HasChar(pw, IsUpper) {
      errors := errors[Password := PASSWORD_UPPER];
    } else if !HasChar(pw, c => c in PAGE_SPECIALS) {
      errors := errors[Password := PASSWORD_SPECIAL];
    }
    assert errors == map[] <==> errors.Keys == {};
  }

  /** On a name that neither starts nor ends with whitespace the page and
      the backend agree. */
  lemma NameAgreesWhenTrimmed(name: string)
    requires name == [] || (!IsWhitespace(name[0]) && !IsWhitespace(name[|name| - 1]))
    ensures 20 <= |name| <= 60 <==> NameErrors(name) == []
  {
    TrimStartOfTrimmed(name);
    TrimEndOfTrimmed(name);
  }

  /** Nineteen letters and a trailing space pass the page's untrimmed
      length check and fail the backend's trimmed one. */
  lemma PaddedNameOnlyRefusedByBackend()
    ensures var n := seq(19, _ => 'a') + " ";
      20 <= |n| <= 60 && NameErrors(n) != []
  {
    var core := seq(19, _ => 'a');
    var n := core + " ";
    assert TrimStart(n) == n by {
      assert !IsWhitespace(n[0]);
    }
    assert n[..|n| - 1] == core;
    assert TrimEnd(n) == TrimEnd(core);
    assert !IsWhitespace(core[|core| - 1]);
    TrimEndOfTrimmed(core);
  }

  /** A form the page accepts passes the backend's password rule when the
      password has no line terminator; a line terminator passes the page
      and fails the backend. */
  lemma AcceptedPasswordPassesBackend(form: Form)
    requires Accepted(form)
    ensures NoLineTerminator(form.password) <==> PasswordErrors(form.password) == []
  {
    PagesAgreeWithRegex(form.password);
    RegexIsPolicy(form.password);
  }
}
