/** The password-change page's own `validatePassword`: the length, then an
    upper-case letter, then a special character, returning the first
    problem's message or null; only null sends the request. */
module ChangePasswordPage {
  import opened Common
  import opened Text
  import opened PasswordPolicy
  import opened BackendRules

  const LENGTH_MSG: string := "Password must be 8\U{2013}16 characters"
  const UPPER_MSG: string := "Must include at least one uppercase letter"
  const SPECIAL_MSG: string := "Must include at least one special character"

  function ValidatePassword(pw: string): (r: Option<string>)
    ensures r == None <==> 8 <= |pw| <= 16 && HasChar(pw, IsUpper) && HasChar(pw, c => c in PAGE_SPECIALS)
    ensures !(8 <= |pw| <= 16) ==> r == Some(LENGTH_MSG)
    ensures 8 <= |pw| <= 16 && !HasChar(pw, IsUpper) ==> r == Some(UPPER_MSG)
    ensures 8 <= |pw| <= 16 && HasChar(pw, IsUpper) && !HasChar(pw, c => c in PAGE_SPECIALS) ==> r == Some(SPECIAL_MSG)
  {
    match PageProblem(pw)
    case None => None
    case Some(BadLength) => Some(LENGTH_MSG)
    case Some(NoUpper) => Some(UPPER_MSG)
    case Some(NoSpecial) => Some(SPECIAL_MSG)
  }

  /** The page sends exactly the passwords the backend's password-change
      rule accepts, except those holding a line terminator, which the page
      sends and the backend refuses. */
  lemma SentExactlyWhenBackendAccepts(pw: string)
    ensures NoLineTerminator(pw) ==> (ValidatePassword(pw) == None <==> UpdatePasswordErrors(pw) == [])
    ensures !NoLineTerminator(pw) ==> UpdatePasswordErrors(pw) != []
  {
    PagesAgreeWithRegex(pw);
    RegexIsPolicy(pw);
  }
}
