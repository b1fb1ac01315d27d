/** The frontend's shared validators: `validateRegister`, which fills an
    error object field by field, and `validatePassword`. A field the form
    leaves empty is the empty string. */
module ClientValidators {
  import opened Common
  import opened Text
  import opened PasswordPolicy
  import opened EmailShape
  import opened BackendRules
  import opened FormFields

  const NAME_SHORT: string := "Name must be at least 20 characters"
  const NAME_LONG: string := "Name must be at most 60 characters"
  const EMAIL_INVALID: string := "Enter a valid email address"
  const ADDRESS_LONG: string := "Address must be at most 400 characters"
  const PASSWORD_INVALID: string :=
    "Password: 8\U{2013}16 chars, at least one uppercase letter and one special character"

  /** What `validateRegister` accepts: a trimmed name of 20 to 60
      characters, an email of the pattern's shape, an untrimmed address of
      at most 400 characters and a password of the policy. */
  predicate RegisterAccepted(name: string, email: string, address: string, password: string) {
    && 20 <= |Trim(name)| <= 60
    && EmailShaped(email)
    && |address| <= 400
    && PolicyHolds(password)
  }

  /** `RegisterAccepted` in the terms the page's code tests. */
  lemma AcceptedIffPatterns(name: string, email: string, address: string, password: string)
    ensures RegisterAccepted(name, email, address, password) <==>
      20 <= |Trim(name)| <= 60 && MatchesEmailPattern(email) && |address| <= 400 && MatchesPasswordRegex(password)
  {
    PatternIsShape(email);
    RegexIsPolicy(password);
  }

  method ValidateRegister(name: string, email: string, address: string, password: string)
    returns (e: map<Field, string>)
    ensures Name in e <==> !(20 <= |Trim(name)| <= 60)
    ensures Name in e ==> e[Name] == (if |Trim(name)| > 60 then NAME_LONG else NAME_SHORT)
    ensures Email in e <==> !MatchesEmailPattern(email)
    ensures Email in e ==> e[Email] == EMAIL_INVALID
    ensures Address in e <==> |address| > 400
    ensures Address in e ==> e[Address] == ADDRESS_LONG
    ensures Password in e <==> !MatchesPasswordRegex(password)
    ensures Password in e ==> e[Password] == PASSWORD_INVALID
    ensures e == map[] <==> RegisterAccepted(name, email, address, password)
  {
    var short := name == [] || |Trim(name)| < 20;
    var long := name != [] && |Trim(name)| > 60;
    var badEmail := email == [] || !MatchesEmailPattern(email);
    var badAddress := address != [] && |address| > 400;
    var badPassword := password == [] || !MatchesPasswordRegex(password);
    e := map[];
    if short {
      e := e[Name := NAME_SHORT];
    }
    if long {
      e := e[Name := NAME_LONG];
    }
    if badEmail {
      e := e[Email := EMAIL_INVALID];
    }
    if badAddress {
      e := e[Address := ADDRESS_LONG];
    }
    if badPassword {
      e := e[Password := PASSWORD_INVALID];
    }
    if short || long || badEmail || badAddress || badPassword {
      assert Name in e || Email in e || Address in e || Password in e;
    }
    AcceptedIffPatterns(name, email, address, password);
  }

  /** `validatePassword(pw)`: null exactly for a password of the policy. */
  function ValidatePassword(pw: string): (r: Option<string>)
    ensures r == None <==> PolicyHolds(pw)
    ensures r != None ==> r == Some(PASSWORD_INVALID)
  {
    RegexIsPolicy(pw);
    if pw == [] || !MatchesPasswordRegex(pw) then Some(PASSWORD_INVALID) else None
  }

  /** A form the frontend accepts passes the backend's registration rules,
      given that the backend's email check accepts the email; the frontend
      is the stricter on the address, whose length it takes untrimmed. */
  lemma AcceptedFormPassesBackend(name: string, email: string, address: string, password: string,
                                  isEmail: string -> bool)
    requires RegisterAccepted(name, email, address, password) && isEmail(Trim(email))
    ensures RegisterErrors(name, email, Some(address), password, isEmail) == []
  {
    RegisterPasses(name, email, Some(address), password, isEmail);
  }

  /** An address of 400 characters and a trailing space is refused by the
      frontend and accepted by the backend, which trims it first. */
  lemma PaddedAddressOnlyRefusedByFrontend()
    ensures var a := seq(400, _ => 'a') + " ";
      |a| > 400 && AddressErrors(Some(a)) == []
  {
    var core := seq(400, _ => 'a');
    var a := core + " ";
    assert TrimStart(a) == a by {
      assert !IsWhitespace(a[0]);
    }
    assert a[..|a| - 1] == core;
    assert TrimEnd(a) == TrimEnd(core);
    assert !IsWhitespace(core[|core| - 1]);
    TrimEndOfTrimmed(core);
  }
}
