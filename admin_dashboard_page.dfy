/** The admin dashboard's `validateForm` for a new user: the same checks as
    the registration page, in the same order and with shorter messages,
    and an address checked only when present. */
module AdminDashboardPage {
  import opened Common
  import opened Text
  import opened PasswordPolicy
  import opened EmailShape
  import opened FormFields
  import opened SortState

  const NAME_MIN: string := "Min 20 characters"
  const NAME_MAX: string := "Max 60 characters"
  const ADDRESS_MAX: string := "Max 400 characters"
  const EMAIL_INVALID: string := "Invalid email"
  const PASSWORD_LENGTH: string := "Password 8\U{2013}16 chars"
  const PASSWORD_UPPER: string := "Need uppercase"
  const PASSWORD_SPECIAL: string := "Need special char"

  datatype UserForm = UserForm(name: string, email: string, address: string, password: string, role: string)

  function PasswordMessage(p: PasswordProblem): string {
    match p
    case BadLength => PASSWORD_LENGTH
    case NoUpper => PASSWORD_UPPER
    case NoSpecial => PASSWORD_SPECIAL
  }

  predicate Accepted(form: UserForm) {
    && 20 <= |form.name| <= 60
    && |form.address| <= 400
    && EmailShaped(form.email)
    && PageProblem(form.password) == None
  }

  method ValidateForm(form: UserForm) returns (errors: map<Field, string>)
    ensures Name in errors <==> !(20 <= |form.name| <= 60)
    ensures Name in errors ==> errors[Name] == (if |form.name| > 60 then NAME_MAX else NAME_MIN)
    ensures Address in errors <==> |form.address| > 400
    ensures Address in errors ==> errors[Address] == ADDRESS_MAX
    ensures Email in errors <==> !MatchesEmailPattern(form.email)
    ensures Email in errors ==> errors[Email] == EMAIL_INVALID
    ensures Password in errors <==> PageProblem(form.password) != None
    ensures Password in errors ==> errors[Password] == PasswordMessage(PageProblem(form.password).value)
    ensures errors == map[] <==> Accepted(form)
  {
    PatternIsShape(form.email);
    errors := map[];
    if |form.name| < 20 {
      errors := errors[Name := NAME_MIN];
    }
    if |form.name| > 60 {
      errors := errors[Name := NAME_MAX];
    }
    if form.address != [] && |form.address| > 400 {
      errors := errors[Address := ADDRESS_MAX];
    }
    if !MatchesEmailPattern(form.email) {
      errors := errors[Email := EMAIL_INVALID];
    }
    var pw := form.password;
    if |pw| < 8 || |pw| > 16 {
      errors := errors[Password := PASSWORD_LENGTH];
    } else if !HasChar(pw, IsUpper) {
      errors := errors[Password := PASSWORD_UPPER];
    } else if !HasChar(pw, c => c in PAGE_SPECIALS) {
      errors := errors[Password := PASSWORD_SPECIAL];
    }
    assert errors == map[] <==> errors.Keys == {};
  }

  /** The dashboard's own `handleSort` is the shared toggle; its state
      starts at `createdAt`, newest first. */
  method NewControl() returns (c: SortControl)
    ensures fresh(c)
    ensures c.State() == ADMIN_DASHBOARD_INITIAL
  {
    c := new SortControl(ADMIN_DASHBOARD_INITIAL.sortBy, ADMIN_DASHBOARD_INITIAL.sortOrder);
  }
}
