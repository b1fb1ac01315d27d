/** The password policy as each part of the system states it: the backend's
    `PASSWORD_REGEX` (shared by the frontend's `PW_RE`), the Nest DTO's
    lookahead-only pattern with separate length limits, and the pages'
    three separate tests. The regular expressions are given their matching
    semantics: `.` matches any character but a line terminator, and
    `(?=.*[X])` at the start of the input asks for a character of class X
    reached without crossing a line terminator. */
module PasswordPolicy {
  import opened Common
  import opened Text

  /** The class `[!@#$%^&*()\-_=+\[\]{};':"\\|,.<>\/?]` of the backend and
      the frontend utilities. */
  const REGEX_SPECIALS: string := "!@#$%^&*()-_=+[]{};':\"\\|,.<>/?"

  /** The class `[!@#$%^&*()_+\-=\[\]{};':"\\|,.<>\/?]` of the Nest DTO and
      the pages. */
  const PAGE_SPECIALS: string := "!@#$%^&*()_+-=[]{};':\"\\|,.<>/?"

  /** Both spellings list the same thirty characters. */
  lemma SpecialClassesAgree()
    ensures forall c :: c in REGEX_SPECIALS <==> c in PAGE_SPECIALS
    ensures |REGEX_SPECIALS| == |PAGE_SPECIALS| == 30
  {
  }

  predicate IsUpper(c: char) {
    'A' <= c <= 'Z'
  }

  predicate IsSpecial(c: char) {
    c in REGEX_SPECIALS
  }

  /** Some character of `s` is in the class. */
  predicate HasChar(s: string, cls: char -> bool) {
    exists i :: 0 <= i < |s| && cls(s[i])
  }

  /** `(?=.*[X])` at the start of `s`. */
  predicate Lookahead(s: string, cls: char -> bool) {
    exists i :: 0 <= i < |s| && cls(s[i]) && NoLineTerminator(s[..i])
  }

  /** `^(?=.*[A-Z])(?=.*[S]).{8,16}$`, the backend's `PASSWORD_REGEX` and the
      frontend's `PW_RE`. */
  predicate MatchesPasswordRegex(s: string) {
    && Lookahead(s, IsUpper)
    && Lookahead(s, IsSpecial)
    && 8 <= |s| <= 16 && NoLineTerminator(s)
  }

  /** The policy in words: 8 to 16 characters, none a line terminator, at
      least one upper-case letter and at least one special character. */
  predicate PolicyHolds(s: string) {
    8 <= |s| <= 16 && NoLineTerminator(s) && HasChar(s, IsUpper) && HasChar(s, IsSpecial)
  }

  lemma LookaheadWithoutTerminators(s: string, cls: char -> bool)
    requires NoLineTerminator(s)
    ensures Lookahead(s, cls) <==> HasChar(s, cls)
  {
    if HasChar(s, cls) {
      var i :| 0 <= i < |s| && cls(s[i]);
      assert NoLineTerminator(s[..i]);
    }
  }

  /** The regular expression accepts exactly the passwords the policy
      describes. */
  lemma RegexIsPolicy(s: string)
    ensures MatchesPasswordRegex(s) <==> PolicyHolds(s)
  {
    if NoLineTerminator(s) {
      LookaheadWithoutTerminators(s, IsUpper);
      LookaheadWithoutTerminators(s, IsSpecial);
    }
  }

  /** The Nest DTO: `MinLength(8)`, `MaxLength(16)` and the lookaheads
      `^(?=.*[A-Z])(?=.*[S])` without the anchored length. */
  predicate DtoAccepts(s: string) {
    8 <= |s| <= 16 && Lookahead(s, IsUpper) && Lookahead(s, c => c in PAGE_SPECIALS)
  }

  /** The DTO accepts every password the Express backend accepts, and on
      passwords without line terminators the two agree. */
  lemma DtoAgreesWithRegex(s: string)
    ensures MatchesPasswordRegex(s) ==> DtoAccepts(s)
    ensures NoLineTerminator(s) ==> (DtoAccepts(s) <==> MatchesPasswordRegex(s))
  {
    SpecialClassesAgree();
    if Lookahead(s, IsSpecial) {
      var i :| 0 <= i < |s| && IsSpecial(s[i]) && NoLineTerminator(s[..i]);
      assert s[i] in PAGE_SPECIALS;
    }
    if Lookahead(s, c => c in PAGE_SPECIALS) {
      var i :| 0 <= i < |s| && s[i] in PAGE_SPECIALS && NoLineTerminator(s[..i]);
      assert IsSpecial(s[i]);
    }
  }

  /** A line break after the required characters passes the DTO but not
      the Express backend. */
  lemma DtoAcceptsLineBreak()
    ensures DtoAccepts("Abcdefg!\n") && !MatchesPasswordRegex("Abcdefg!\n")
  {
    var s := "Abcdefg!\n";
    assert IsUpper(s[0]) && NoLineTerminator(s[..0]);
    assert s[7] == '!' && s[7] in PAGE_SPECIALS && NoLineTerminator(s[..7]);
    assert IsLineTerminator(s[8]);
  }

  /** The pages' order of checks: the length, then `/[A-Z]/`, then the
      special class, each matched anywhere in the string. */
  datatype PasswordProblem = BadLength | NoUpper | NoSpecial

  function PageProblem(s: string): (p: Option<PasswordProblem>)
    ensures p == None <==> 8 <= |s| <= 16 && HasChar(s, IsUpper) && HasChar(s, c => c in PAGE_SPECIALS)
    ensures p == Some(BadLength) <==> !(8 <= |s| <= 16)
    ensures p == Some(NoUpper) <==> 8 <= |s| <= 16 && !HasChar(s, IsUpper)
    ensures p == Some(NoSpecial) <==> 8 <= |s| <= 16 && HasChar(s, IsUpper) && !HasChar(s, c => c in PAGE_SPECIALS)
  {
    if |s| < 8 || |s| > 16 then Some(BadLength)
    else if !HasChar(s, IsUpper) then Some(NoUpper)
    else if !HasChar(s, c => c in PAGE_SPECIALS) then Some(NoSpecial)
    else None
  }

  /** Without line terminators the pages accept exactly the passwords the
      backend accepts; a line terminator anywhere is accepted by the pages
      and refused by the backend. */
  lemma PagesAgreeWithRegex(s: string)
    ensures NoLineTerminator(s) ==> (PageProblem(s) == None <==> MatchesPasswordRegex(s))
    ensures !NoLineTerminator(s) ==> !MatchesPasswordRegex(s)
  {
    SpecialClassesAgree();
    RegexIsPolicy(s);
    if HasChar(s, IsSpecial) {
      var i :| 0 <= i < |s| && IsSpecial(s[i]);
      assert s[i] in PAGE_SPECIALS;
    }
    if HasChar(s, c => c in PAGE_SPECIALS) {
      var i :| 0 <= i < |s| && s[i] in PAGE_SPECIALS;
      assert IsSpecial(s[i]);
    }
  }
}
