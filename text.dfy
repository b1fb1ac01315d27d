/** String operations the services and validators rely on, in the terms of
    the runtimes that perform them: JavaScript's `String.prototype.trim` and
    `\s`, ASCII case folding (SQLite's NOCASE collation and LIKE operator),
    substring containment (`LIKE '%x%'`) and code-point ordering (SQLite's
    BINARY collation). */
module Text {

  /** JavaScript LineTerminator: what `.` in a regular expression does not match. */
  predicate IsLineTerminator(c: char) {
    c == '\n' || c == '\r' || c == '\U{2028}' || c == '\U{2029}'
  }

  /** JavaScript WhiteSpace or LineTerminator: the class `\s` and what `trim()` removes. */
  predicate IsWhitespace(c: char) {
    || IsLineTerminator(c)
    || c == ' ' || c == '\t' || c == '\U{000B}' || c == '\U{000C}'
    || c == '\U{00A0}' || c == '\U{FEFF}' || c == '\U{1680}'
    || ('\U{2000}' <= c <= '\U{200A}')
    || c == '\U{202F}' || c == '\U{205F}' || c == '\U{3000}'
  }

  predicate NoLineTerminator(s: string) {
    forall i :: 0 <= i < |s| ==> !IsLineTerminator(s[i])
  }

  /** Drops the leading whitespace: the result is a suffix of `s`, everything
      dropped is whitespace and the result does not start with whitespace. */
  function TrimStart(s: string): (r: string)
    ensures |r| <= |s| && r == s[|s| - |r|..]
    ensures forall i :: 0 <= i < |s| - |r| ==> IsWhitespace(s[i])
    ensures r == [] || !IsWhitespace(r[0])
  {
    if s != [] && IsWhitespace(s[0]) then
      var r := TrimStart(s[1..]);
      assert s[1..][|s| - 1 - |r|..] == s[|s| - |r|..];
      r
    else s
  }

  /** Drops the trailing whitespace: the result is a prefix of `s`, everything
      dropped is whitespace and the result does not end with whitespace. */
  function TrimEnd(s: string): (r: string)
    ensures |r| <= |s| && r == s[..|r|]
    ensures forall i :: |r| <= i < |s| ==> IsWhitespace(s[i])
    ensures r == [] || !IsWhitespace(r[|r| - 1])
  {
    if s != [] && IsWhitespace(s[|s| - 1]) then
      var r := TrimEnd(s[..|s| - 1]);
      assert s[..|s| - 1][..|r|] == s[..|r|];
      r
    else s
  }

  /** `r` is the slice of `s` at index `k`, with only whitespace before and
      after it. */
  predicate SliceAmidWhitespace(s: string, r: string, k: int) {
    && 0 <= k <= |s| - |r| && r == s[k..k + |r|]
    && (forall i :: 0 <= i < k ==> IsWhitespace(s[i]))
    && (forall i :: k + |r| <= i < |s| ==> IsWhitespace(s[i]))
  }

  /** `s.trim()`: a slice of `s` that only whitespace surrounds, and that
      neither starts nor ends with whitespace. */
  function Trim(s: string): (r: string)
    ensures |r| <= |s|
    ensures exists k :: SliceAmidWhitespace(s, r, k)
    ensures r == [] || (!IsWhitespace(r[0]) && !IsWhitespace(r[|r| - 1]))
  {
    var t := TrimStart(s);
    var r := TrimEnd(t);
    var k := |s| - |t|;
    assert r == s[k..k + |r|];
    assert SliceAmidWhitespace(s, r, k);
    r
  }

  lemma TrimStartOfTrimmed(s: string)
    requires s == [] || !IsWhitespace(s[0])
    ensures TrimStart(s) == s
  {
  }

  lemma TrimEndOfTrimmed(s: string)
    requires s == [] || !IsWhitespace(s[|s| - 1])
    ensures TrimEnd(s) == s
  {
  }

  /** Trimming twice is trimming once. */
  lemma TrimIdempotent(s: string)
    ensures Trim(Trim(s)) == Trim(s)
  {
    var t := Trim(s);
    TrimStartOfTrimmed(t);
    TrimEndOfTrimmed(t);
  }

  /** A string of whitespace only trims to the empty string. */
  lemma {:induction false} TrimAllWhitespace(s: string)
    requires forall i :: 0 <= i < |s| ==> IsWhitespace(s[i])
    ensures Trim(s) == []
  {
    if s != [] {
      TrimAllWhitespace(s[1..]);
      assert TrimStart(s) == TrimStart(s[1..]);
    }
  }

  /** ASCII upper case to lower case, every other character unchanged: the
      folding of SQLite's NOCASE collation and its LIKE operator. */
  function LowerChar(c: char): char {
    if 'A' <= c <= 'Z' then (c as int + 32) as char else c
  }

  function ToLower(s: string): (r: string)
    ensures |r| == |s|
  {
    seq(|s|, i requires 0 <= i < |s| => LowerChar(s[i]))
  }

  /** Lower-casing is idempotent, so a lower-cased email stays equal under NOCASE. */
  lemma ToLowerIdempotent(s: string)
    ensures ToLower(ToLower(s)) == ToLower(s)
  {
  }

  predicate IsAscii(s: string) {
    forall i :: 0 <= i < |s| ==> s[i] as int < 128
  }

  /** What the model relies on of JavaScript's `toLowerCase`, which stands
      as the parameter `lowerCase`: it folds ASCII text exactly as `ToLower`
      does, and no result holds an ASCII capital. It lowers letters beyond
      ASCII as well; which ones, and to what, is the parameter's business. */
  ghost predicate LowersLikeJavaScript(lowerCase: string -> string) {
    && (forall s | IsAscii(s) :: lowerCase(s) == ToLower(s))
    && (forall s :: ToLower(lowerCase(s)) == lowerCase(s))
  }

  lemma LoweredHasNoAsciiCapital(lowerCase: string -> string, s: string)
    requires LowersLikeJavaScript(lowerCase)
    ensures ToLower(lowerCase(s)) == lowerCase(s)
  {
  }

  lemma LoweredAsciiIsFolded(lowerCase: string -> string, s: string)
    requires LowersLikeJavaScript(lowerCase) && IsAscii(s)
    ensures lowerCase(s) == ToLower(s)
  {
  }

  /** ASCII folding alone meets those properties. */
  lemma AsciiFoldingLowersLikeJavaScript()
    ensures LowersLikeJavaScript(ToLower)
  {
    forall s: string
      ensures ToLower(ToLower(s)) == ToLower(s)
    {
      ToLowerIdempotent(s);
    }
  }

  /** Equality under SQLite's NOCASE collation. */
  predicate NocaseEq(a: string, b: string) {
    ToLower(a) == ToLower(b)
  }

  /** Strings whose first characters fold apart are not NOCASE-equal. */
  lemma NocaseHeadsDiffer(a: string, b: string)
    requires a != [] && b != [] && LowerChar(a[0]) != LowerChar(b[0])
    ensures !NocaseEq(a, b)
  {
    assert ToLower(a)[0] != ToLower(b)[0];
  }

  lemma NocaseEqOfLower(s: string)
    ensures NocaseEq(ToLower(s), s)
  {
    ToLowerIdempotent(s);
  }

  predicate IsPrefix(p: string, s: string) {
    |p| <= |s| && s[..|p|] == p
  }

  /** `sub` occurs in `s` starting at index `i`. */
  predicate OccursAt(s: string, sub: string, i: int) {
    0 <= i <= |s| - |sub| && s[i..i + |sub|] == sub
  }

  /** Substring containment: what `LIKE '%sub%'` tests when `sub` holds no
      wildcard character. */
  predicate Contains(s: string, sub: string)
    decreases |s|
  {
    IsPrefix(sub, s) || (|s| > |sub| && Contains(s[1..], sub))
  }

  lemma OccursAtTail(s: string, sub: string, i: int)
    requires s != [] && 0 <= i
    ensures OccursAt(s[1..], sub, i) <==> OccursAt(s, sub, i + 1)
  {
    if 0 <= i <= |s| - 1 - |sub| {
      assert s[1..][i..i + |sub|] == s[i + 1..i + 1 + |sub|];
    }
  }

  /** `Contains` holds exactly when `sub` occurs at some index of `s`. */
  lemma {:induction false} ContainsIff(s: string, sub: string)
    ensures Contains(s, sub) <==> exists i :: OccursAt(s, sub, i)
    decreases |s|
  {
    if IsPrefix(sub, s) {
      assert OccursAt(s, sub, 0);
    } else if |s| <= |sub| {
      assert forall i :: OccursAt(s, sub, i) ==> i == 0;
    } else {
      ContainsIff(s[1..], sub);
      if Contains(s[1..], sub) {
        var i :| OccursAt(s[1..], sub, i);
        OccursAtTail(s, sub, i);
      }
      if exists i :: OccursAt(s, sub, i) {
        var i :| OccursAt(s, sub, i);
        assert i != 0;
        OccursAtTail(s, sub, i - 1);
      }
    }
  }

  /** The empty pattern is contained in every string. */
  lemma ContainsEmpty(s: string)
    ensures Contains(s, [])
  {
    assert IsPrefix([], s);
  }

  /** Case-insensitive (ASCII) containment: SQLite's LIKE and PostgreSQL's ILIKE. */
  predicate ContainsNocase(s: string, sub: string) {
    Contains(ToLower(s), ToLower(sub))
  }

  /** Code-point lexicographic order: SQLite's BINARY collation on UTF-8 text. */
  predicate LexLe(a: string, b: string)
    decreases |a|
  {
    a == [] || (b != [] && (a[0] < b[0] || (a[0] == b[0] && LexLe(a[1..], b[1..]))))
  }

  lemma {:induction false} LexLeReflexive(a: string)
    ensures LexLe(a, a)
    decreases |a|
  {
    if a != [] { LexLeReflexive(a[1..]); }
  }

  lemma {:induction false} LexLeTotal(a: string, b: string)
    ensures LexLe(a, b) || LexLe(b, a)
    decreases |a|
  {
    if a != [] && b != [] && a[0] == b[0] { LexLeTotal(a[1..], b[1..]); }
  }

  lemma {:induction false} LexLeTransitive(a: string, b: string, c: string)
    requires LexLe(a, b) && LexLe(b, c)
    ensures LexLe(a, c)
    decreases |a|
  {
    if a != [] && b != [] && c != [] && a[0] == b[0] == c[0] {
      LexLeTransitive(a[1..], b[1..], c[1..]);
    }
  }

  lemma {:induction false} LexLeAntisymmetric(a: string, b: string)
    requires LexLe(a, b) && LexLe(b, a)
    ensures a == b
    decreases |a|
  {
    if a != [] && b != [] {
      LexLeAntisymmetric(a[1..], b[1..]);
    }
  }

  /** Three-way comparison in code-point order: the model of `localeCompare`. */
  function LexCmp(a: string, b: string): (r: int)
    ensures r == 0 <==> a == b
    ensures r < 0 ==> LexLe(a, b)
    ensures r > 0 ==> LexLe(b, a)
  {
    if a == b then 0
    else if LexLe(a, b) then -1
    else LexLeTotal(a, b); 1
  }
}
