/** The account rules shared by the server schema and the two client forms:
    the email pattern `^[^\s@]+@[^\s@]+\.[^\s@]+$` and the password-strength rule. */
module Validation {
  import opened Wrappers
  import opened Text

  const EmailFormatMessage := "Please enter a valid email address"
  const ServerPasswordMessage := "Password must be at least 8 characters long and contain both letters and numbers"

  /** JavaScript's `\s` class: the ECMAScript WhiteSpace and LineTerminator characters. */
  predicate IsRegexWhitespace(c: char)
  {
    c == '\t' || c == '\n' || c == '\U{B}' || c == '\U{C}' || c == '\r' || c == ' '
    || c == '\U{A0}' || c == '\U{1680}' || ('\U{2000}' <= c <= '\U{200A}')
    || c == '\U{2028}' || c == '\U{2029}' || c == '\U{202F}' || c == '\U{205F}'
    || c == '\U{3000}' || c == '\U{FEFF}'
  }

  /** The class `[^\s@]`. */
  predicate IsPatternChar(c: char)
  {
    !IsRegexWhitespace(c) && c != '@'
  }

  predicate IsAsciiLetter(c: char)
  {
    ('A' <= c <= 'Z') || ('a' <= c <= 'z')
  }

  predicate IsAsciiDigit(c: char)
  {
    '0' <= c <= '9'
  }

  /** What the regular expression accepts: `s` splits as `a@b.c` with `a`, `b`, `c`
      non-empty runs of `[^\s@]` (the literal `.` sits at `j`, the `@` at `i`). */
  ghost predicate MatchesEmailRegex(s: string)
  {
    exists i, j :: 0 < i && i + 1 < j && j + 1 < |s| && s[i] == '@' && s[j] == '.'
      && (forall k :: 0 <= k < |s| && k != i ==> IsPatternChar(s[k]))
  }

  predicate HasNoWhitespace(s: string)
  {
    forall k :: 0 <= k < |s| ==> !IsRegexWhitespace(s[k])
  }

  /** The email check, stated as four plain conditions: no whitespace, exactly one `@`,
      not at the start, and a `.` after the `@` that is neither the first nor the last
      character of the domain. */
  predicate IsValidEmail(s: string)
  {
    HasNoWhitespace(s) && Count(s, '@') == 1 &&
    match IndexOf(s, '@')
    case None => false
    case Some(i) =>
      var domain := s[i + 1..];
      i > 0 && |domain| >= 3 && '.' in domain[1..|domain| - 1]
  }

  /** The four conditions accept exactly the strings the regular expression accepts. */
  lemma EmailCheckMatchesRegex(s: string)
    ensures IsValidEmail(s) <==> MatchesEmailRegex(s)
  {
    if IsValidEmail(s) {
      var i := IndexOf(s, '@').value;
      var domain := s[i + 1..];
      var k :| 0 <= k < |domain[1..|domain| - 1]| && domain[1..|domain| - 1][k] == '.';
      var j := i + 2 + k;
      assert s[j] == '.';
      forall p | 0 <= p < |s| && p != i
        ensures IsPatternChar(s[p])
      {
        if s[p] == '@' { CountOneElsewhere(s, '@', i, p); }
      }
      assert MatchesEmailRegex(s);
    }
    if MatchesEmailRegex(s) {
      var i, j :| 0 < i && i + 1 < j && j + 1 < |s| && s[i] == '@' && s[j] == '.'
        && (forall k :: 0 <= k < |s| && k != i ==> IsPatternChar(s[k]));
      CountExactlyOne(s, '@', i);
      IndexOfUnique(s, '@', i);
      var domain := s[i + 1..];
      assert domain[1..|domain| - 1][j - i - 2] == '.';
    }
  }

  predicate HasAsciiLetter(s: string)
  {
    exists k :: 0 <= k < |s| && IsAsciiLetter(s[k])
  }

  predicate HasAsciiDigit(s: string)
  {
    exists k :: 0 <= k < |s| && IsAsciiDigit(s[k])
  }

  /** `password.length >= 8 && /[A-Za-z]/.test(password) && /[0-9]/.test(password)`;
      the length is JavaScript's, in UTF-16 code units. */
  predicate IsStrongPassword(p: string)
  {
    JsLength(p) >= 8 && HasAsciiLetter(p) && HasAsciiDigit(p)
  }

  /** For an ASCII password the JavaScript length is the plain length, so it is strong
      exactly when it has eight or more characters, a letter and a digit. */
  lemma {:induction false} AsciiLength(p: string)
    requires forall k :: 0 <= k < |p| ==> p[k] as int < 128
    ensures JsLength(p) == |p|
    ensures IsStrongPassword(p) <==> |p| >= 8 && HasAsciiLetter(p) && HasAsciiDigit(p)
  {
    if p != [] { AsciiLength(p[1..]); }
  }

  /** Two sample passwords: six characters are too few, `longenough1` passes. */
  lemma PasswordExamples()
    ensures !IsStrongPassword("short1")
    ensures IsStrongPassword("longenough1")
  {
    var short, long := "short1", "longenough1";
    assert |short| == 6 && |long| == 11;
    assert JsLength(short) == 6;
    assert JsLength(long) == 11;
    assert IsAsciiLetter(long[0]) && IsAsciiDigit(long[10]);
  }
}
