/** The password-strength rule, read off its regular expression
    `^(?=.*[a-z])(?=.*[A-Z])(?=.*\d)(?=.*[@$!%*?#&])[A-Za-z\d@$!%*?#&]{8,}$` (no flags). */
module Passwords {

  /** The four character classes the expression looks ahead for. */
  datatype CharClass = Lower | Upper | Digit | Special

  predicate InClass(c: char, k: CharClass) {
    match k
    case Lower => 'a' <= c <= 'z'
    case Upper => 'A' <= c <= 'Z'
    case Digit => '0' <= c <= '9'
    case Special => c == '@' || c == '$' || c == '!' || c == '%' || c == '*' || c == '?' || c == '#' || c == '&'
  }

  /** The set `[A-Za-z\d@$!%*?#&]`. */
  predicate Allowed(c: char) {
    InClass(c, Lower) || InClass(c, Upper) || InClass(c, Digit) || InClass(c, Special)
  }

  /** The characters `.` does not match without the `s` flag. */
  predicate IsLineTerminator(c: char) {
    c == '\n' || c == '\r' || c == '\U{2028}' || c == '\U{2029}'
  }

  /** `(?=.*[k])` at the start of `p`: a character of class `k` preceded only by
      characters `.` matches. */
  predicate LooksAhead(p: string, k: CharClass) {
    exists i :: 0 <= i < |p| && InClass(p[i], k) && forall j :: 0 <= j < i ==> !IsLineTerminator(p[j])
  }

  /** `[A-Za-z\d@$!%*?#&]{8,}$` from the start: `$` without the `m` flag is the end of input. */
  predicate RunMatches(p: string) {
    |p| >= 8 && forall i :: 0 <= i < |p| ==> Allowed(p[i])
  }

  predicate Contains(p: string, k: CharClass) {
    exists i :: 0 <= i < |p| && InClass(p[i], k)
  }

  /** `isStrongPassword`: the expression, anchored by `^`, can only match at index 0.
      It accepts exactly the passwords of at least eight allowed characters holding a
      lowercase letter, an uppercase letter, a digit and one of `@$!%*?#&`. */
  function IsStrongPassword(p: string): (strong: bool)
    ensures strong <==>
      && |p| >= 8
      && (forall i :: 0 <= i < |p| ==> Allowed(p[i]))
      && Contains(p, Lower) && Contains(p, Upper) && Contains(p, Digit) && Contains(p, Special)
  {
    LooksAhead(p, Lower) && LooksAhead(p, Upper) && LooksAhead(p, Digit) && LooksAhead(p, Special)
    && RunMatches(p)
  }
}
