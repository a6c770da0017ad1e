/**
 * The password rule of user creation, the regular expression
 *   ^(?=.*[a-z])(?=.*[A-Z])(?=.*\d)(?=.*[^\da-zA-Z]).{8,12}$
 * read with JavaScript's semantics (no `s`, `m` or `u` flag), and the same
 * rule stated as a plain policy.
 */
module Password {

  /** `.` without the `s` flag matches every character except these four. */
  predicate IsLineTerminator(c: char)
  {
    c == '\n' || c == '\r' || c == '\U{2028}' || c == '\U{2029}'
  }

  predicate IsLower(c: char) { 'a' <= c <= 'z' }
  predicate IsUpper(c: char) { 'A' <= c <= 'Z' }
  predicate IsDigit(c: char) { '0' <= c <= '9' }

  /** The four character classes of the lookaheads: `[a-z]`, `[A-Z]`,
      `\d` and `[^\da-zA-Z]`. */
  datatype Class = Lower | Upper | Digit | NonAlphanumeric

  predicate InClass(c: char, k: Class)
  {
    match k
    case Lower => IsLower(c)
    case Upper => IsUpper(c)
    case Digit => IsDigit(c)
    case NonAlphanumeric => !IsDigit(c) && !IsLower(c) && !IsUpper(c)
  }

  /** `(?=.*K)` at the start of p: some character of class K is preceded
      only by characters that `.` matches. */
  predicate Lookahead(p: string, k: Class)
  {
    exists i | 0 <= i < |p| :: InClass(p[i], k) && forall j | 0 <= j < i :: !IsLineTerminator(p[j])
  }

  /** `.{lo,hi}$` at the start of p: the whole of p is lo to hi characters
      that `.` matches. */
  predicate DotsToEnd(p: string, lo: nat, hi: nat)
  {
    lo <= |p| <= hi && forall j | 0 <= j < |p| :: !IsLineTerminator(p[j])
  }

  /** `password.match(...)` is not null. */
  predicate Matches(p: string): (r: bool)
    ensures r ==> 8 <= |p| <= 12
    ensures r ==> forall j | 0 <= j < |p| :: !IsLineTerminator(p[j])
    ensures r ==> exists i | 0 <= i < |p| :: IsLower(p[i])
    ensures r ==> exists i | 0 <= i < |p| :: IsUpper(p[i])
    ensures r ==> exists i | 0 <= i < |p| :: IsDigit(p[i])
    ensures r ==> exists i | 0 <= i < |p| :: !IsDigit(p[i]) && !IsLower(p[i]) && !IsUpper(p[i])
  {
    && Lookahead(p, Lower)
    && Lookahead(p, Upper)
    && Lookahead(p, Digit)
    && Lookahead(p, NonAlphanumeric)
    && DotsToEnd(p, 8, 12)
  }

  predicate Has(p: string, k: Class)
  {
    exists i | 0 <= i < |p| :: InClass(p[i], k)
  }

  /** The rule in words: 8 to 12 characters on one line, with a lower-case
      letter, an upper-case letter, a digit and a character that is none of
      these. */
  predicate Policy(p: string)
  {
    && 8 <= |p| <= 12
    && (forall j | 0 <= j < |p| :: !IsLineTerminator(p[j]))
    && Has(p, Lower) && Has(p, Upper) && Has(p, Digit) && Has(p, NonAlphanumeric)
  }

  /** A lookahead over a line with no terminator is plain containment. */
  lemma LookaheadOnOneLine(p: string, k: Class)
    requires forall j | 0 <= j < |p| :: !IsLineTerminator(p[j])
    ensures Lookahead(p, k) <==> Has(p, k)
  {
  }

  lemma MatchesIsPolicy(p: string)
    ensures Matches(p) <==> Policy(p)
  {
  }

  /** A line terminator anywhere rejects the password, whatever else it holds. */
  lemma LineTerminatorRejects(p: string, i: nat)
    requires i < |p| && IsLineTerminator(p[i])
    ensures !Matches(p)
  {
  }

  lemma AcceptedExample()
    ensures Matches("Senha123!")
  {
    var p := "Senha123!";
    assert InClass(p[1], Lower) && InClass(p[0], Upper) && InClass(p[5], Digit) && InClass(p[8], NonAlphanumeric);
    assert forall j | 0 <= j < |p| :: !IsLineTerminator(p[j]);
  }

  /** A password without an upper-case letter never matches, and the same
      for each of the other three classes. */
  lemma MissingClassRejects(p: string, k: Class)
    requires !Has(p, k)
    ensures !Matches(p)
  {
    MatchesIsPolicy(p);
  }

  lemma NoUpperCaseExample()
    ensures !Matches("senha123!")
  {
  }

  lemma LengthExamples()
    ensures !Matches("Sen1!")
    ensures !Matches("Senha12345678!")
  {
  }
}
