/**
 * The two regular expressions of the sign-up rules, stated over characters
 * with JavaScript's matching semantics.
 *
 *  - the password rule `^(?=.*[a-z])(?=.*[A-Z])(?=.*\d)(?=.*[@$!%*?&])`, used
 *    verbatim both by the server route and by the client form;
 *  - the client's email rule `^[^\s@]+@[^\s@]+\.[^\s@]+$`.
 */
module Patterns {
  import opened JsStrings

  /** The character classes the password lookaheads ask for. */
  datatype CharClass = Lower | Upper | Digit | Special

  predicate InClass(c: char, cls: CharClass) {
    match cls
    case Lower => 'a' <= c <= 'z'
    case Upper => 'A' <= c <= 'Z'
    case Digit => '0' <= c <= '9'
    case Special => c in "@$!%*?&"
  }

  /** `(?=.*[C])` tried at position 0: since `.` stops at a line terminator,
      a character of the class must occur before the first line terminator. */
  predicate Lookahead(s: string, cls: CharClass) {
    exists i :: 0 <= i < |s| && InClass(s[i], cls) &&
      forall k :: 0 <= k < i ==> !IsLineTerminator(s[k])
  }

  /** The password pattern: all four lookaheads succeed at the start. */
  predicate StrongPassword(s: string) {
    Lookahead(s, Lower) && Lookahead(s, Upper) && Lookahead(s, Digit) && Lookahead(s, Special)
  }

  predicate Contains(s: string, cls: CharClass) {
    exists i :: 0 <= i < |s| && InClass(s[i], cls)
  }

  /** A password matching the pattern holds a lowercase letter, an uppercase
      letter, a digit and one of `@$!%*?&`; on a single line the converse holds too. */
  lemma StrongPasswordClasses(s: string)
    ensures StrongPassword(s) ==>
      Contains(s, Lower) && Contains(s, Upper) && Contains(s, Digit) && Contains(s, Special)
    ensures (forall k :: 0 <= k < |s| ==> !IsLineTerminator(s[k])) ==>
      (StrongPassword(s) <==>
        Contains(s, Lower) && Contains(s, Upper) && Contains(s, Digit) && Contains(s, Special))
  {
  }

  /** The lookaheads stop at a line break: a password whose letters, digit and
      symbol all follow a newline is refused although it holds every class. */
  lemma LineBreakDefeatsLookahead()
    ensures var s := "\nAa1!";
      Contains(s, Lower) && Contains(s, Upper) && Contains(s, Digit) && Contains(s, Special) &&
      !StrongPassword(s)
  {
    var s := "\nAa1!";
    assert InClass(s[2], Lower) && InClass(s[1], Upper) && InClass(s[3], Digit) && InClass(s[4], Special);
    assert !InClass(s[0], Lower) && IsLineTerminator(s[0]);
  }

  /** A character allowed by `[^\s@]`. */
  predicate EmailChar(c: char) {
    !IsWhitespace(c) && c != '@'
  }

  predicate EmailChars(s: string) {
    forall k :: 0 <= k < |s| ==> EmailChar(s[k])
  }

  /** `/^[^\s@]+@[^\s@]+\.[^\s@]+$/.test(s)`: a split into one or more allowed
      characters, '@', one or more allowed characters, '.', one or more allowed
      characters (the '.' being itself allowed, any '.' of the domain may serve). */
  predicate EmailPattern(s: string) {
    exists i, j :: 0 < i && i + 1 < j && j + 1 < |s| && s[i] == '@' && s[j] == '.' &&
      EmailChars(s[..i]) && EmailChars(s[i + 1..j]) && EmailChars(s[j + 1..])
  }

  /** What the email pattern accepts, stated without the regular expression:
      no whitespace, exactly one '@' with text before it, and a '.' after the
      '@' that is neither the first nor the last character of that part. */
  predicate EmailShape(s: string) {
    && NoWhitespace(s)
    && exists i :: 0 < i < |s| && s[i] == '@' &&
         (forall k :: 0 <= k < |s| && k != i ==> s[k] != '@') &&
         (exists j :: i + 1 < j < |s| - 1 && s[j] == '.')
  }

  lemma EmailPatternIffShape(s: string)
    ensures EmailPattern(s) <==> EmailShape(s)
  {
    if EmailPattern(s) {
      EmailPatternHasShape(s);
    }
    if EmailShape(s) {
      EmailShapeMatchesPattern(s);
    }
  }

  lemma EmailPatternHasShape(s: string)
    requires EmailPattern(s)
    ensures EmailShape(s)
  {
    var i, j :| 0 < i && i + 1 < j && j + 1 < |s| && s[i] == '@' && s[j] == '.' &&
      EmailChars(s[..i]) && EmailChars(s[i + 1..j]) && EmailChars(s[j + 1..]);
    forall k | 0 <= k < |s| && k != i ensures EmailChar(s[k]) {
      if k < i { assert s[k] == s[..i][k]; }
      else if k < j { assert s[k] == s[i + 1..j][k - i - 1]; }
      else if k > j { assert s[k] == s[j + 1..][k - j - 1]; }
    }
    assert NoWhitespace(s);
  }

  lemma EmailShapeMatchesPattern(s: string)
    requires EmailShape(s)
    ensures EmailPattern(s)
  {
    var i :| 0 < i < |s| && s[i] == '@' &&
       (forall k :: 0 <= k < |s| && k != i ==> s[k] != '@') &&
       (exists j :: i + 1 < j < |s| - 1 && s[j] == '.');
    var j :| i + 1 < j < |s| - 1 && s[j] == '.';
    forall k | 0 <= k < |s| && k != i ensures EmailChar(s[k]) {
    }
    var local, host, top := s[..i], s[i + 1..j], s[j + 1..];
    assert EmailChars(local) && EmailChars(host) && EmailChars(top);
  }
}
