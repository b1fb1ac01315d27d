/** The frontend's email pattern `^[^\s@]+@[^\s@]+\.[^\s@]+$`: a local part,
    `@`, and a domain with a dot strictly inside it, none of the three
    pieces empty and none holding whitespace or `@`. */
module EmailShape {
  import opened Text

  /** A character of the class `[^\s@]`. */
  predicate Plain(c: char) {
    c != '@' && !IsWhitespace(c)
  }

  /** `[^\s@]+` matches all of `s`. */
  predicate PlainRun(s: string) {
    |s| > 0 && forall k :: 0 <= k < |s| ==> Plain(s[k])
  }

  /** The pattern matches `s`: it splits at an `@` at `i` and a `.` at `j`
      into three runs of the class. */
  predicate SplitsAt(s: string, i: int, j: int) {
    0 <= i < j < |s| && s[i] == '@' && s[j] == '.'
    && PlainRun(s[..i]) && PlainRun(s[i + 1..j]) && PlainRun(s[j + 1..])
  }

  predicate MatchesEmailPattern(s: string) {
    exists i, j | 0 <= i < j < |s| :: SplitsAt(s, i, j)
  }

  /** The pattern in words: no whitespace, exactly one `@` and not at the
      start, and a `.` after the character following the `@` and before the
      last character. */
  predicate EmailShaped(s: string) {
    && (forall k :: 0 <= k < |s| ==> !IsWhitespace(s[k]))
    && exists i :: 0 < i < |s| && s[i] == '@'
         && (forall k :: 0 <= k < |s| && k != i ==> s[k] != '@')
         && exists j :: i + 1 < j < |s| - 1 && s[j] == '.'
  }

  lemma RunIndex(s: string, a: int, b: int, k: int)
    requires 0 <= a <= k < b <= |s| && PlainRun(s[a..b])
    ensures Plain(s[k])
  {
    assert s[k] == s[a..b][k - a];
  }

  /** The pattern matches exactly the strings of that shape. */
  lemma PatternIsShape(s: string)
    ensures MatchesEmailPattern(s) <==> EmailShaped(s)
  {
    if MatchesEmailPattern(s) {
      var i, j :| 0 <= i < j < |s| && SplitsAt(s, i, j);
      forall k | 0 <= k < |s| && k != i && k != j
        ensures Plain(s[k])
      {
        if k < i { RunIndex(s, 0, i, k); }
        else if k < j { RunIndex(s, i + 1, j, k); }
        else { RunIndex(s, j + 1, |s|, k); }
      }
      assert |s[..i]| > 0 && |s[i + 1..j]| > 0 && |s[j + 1..]| > 0;
      assert i + 1 < j < |s| - 1;
    }
    if EmailShaped(s) {
      var i :| 0 < i < |s| && s[i] == '@' && (forall k :: 0 <= k < |s| && k != i ==> s[k] != '@')
               && exists j :: i + 1 < j < |s| - 1 && s[j] == '.';
      var j :| i + 1 < j < |s| - 1 && s[j] == '.';
      assert forall k :: 0 <= k < |s| && k != i ==> Plain(s[k]);
      assert PlainRun(s[..i]);
      assert PlainRun(s[i + 1..j]);
      assert PlainRun(s[j + 1..]);
      assert SplitsAt(s, i, j);
    }
  }

  /** Two examples: a plain address matches; one with a second `@` does not. */
  lemma PatternExamples()
    ensures MatchesEmailPattern("a@b.co")
    ensures !MatchesEmailPattern("a@b@c.de")
  {
    var s := "a@b.co";
    assert PlainRun(s[..1]) && PlainRun(s[2..3]) && PlainRun(s[4..]);
    assert SplitsAt(s, 1, 3);
    var t := "a@b@c.de";
    assert t[1] == '@' && t[3] == '@';
    PatternIsShape(t);
  }
}
