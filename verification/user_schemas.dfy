/**
 * The input and record rules the tRPC demo server declares with its schema
 * library (trpc-demo/src/server.ts), stated as predicates on strings. The
 * library's email-format check is not visible, so it is a parameter
 * `isEmail` wherever it is needed.
 */
module UserSchemas {
  import JsValues

  /** `z.string().min(2).max(50)`: the rule for a user's name. */
  predicate NameOk(name: string) {
    2 <= |name| <= 50
  }

  /** `z.string().min(8).max(100)`: the length rule every stored password meets. */
  predicate PasswordLengthOk(password: string) {
    8 <= |password| <= 100
  }

  predicate IsLower(c: char) { 'a' <= c <= 'z' }

  predicate IsUpper(c: char) { 'A' <= c <= 'Z' }

  /** The class `[@$!%*?&]`. */
  predicate IsSpecial(c: char) { c in "@$!%*?&" }

  /** The class `[A-Za-z\d@$!%*?&]`. */
  predicate InPasswordAlphabet(c: char) {
    IsLower(c) || IsUpper(c) || JsValues.IsDigit(c) || IsSpecial(c)
  }

  /** The characters the pattern's `.` does not match. */
  predicate IsLineTerminator(c: char) {
    c == '\n' || c == '\r' || c == '\U{2028}' || c == '\U{2029}'
  }

  /** The lookahead `(?=.*[...])` at the start of `s`: a character of the class before any line break. */
  predicate LookaheadFinds(s: string, inClass: char -> bool) {
    exists i :: 0 <= i < |s| && inClass(s[i]) && forall j :: 0 <= j < i ==> !IsLineTerminator(s[j])
  }

  /**
   * The regular expression
   * `^(?=.*[a-z])(?=.*[A-Z])(?=.*\d)(?=.*[@$!%*?&])[A-Za-z\d@$!%*?&]{8,}$`
   * read as written: four lookaheads from the start, then eight or more
   * alphabet characters running to the end of the input.
   */
  predicate PasswordRegexMatches(p: string) {
    && LookaheadFinds(p, IsLower)
    && LookaheadFinds(p, IsUpper)
    && LookaheadFinds(p, JsValues.IsDigit)
    && LookaheadFinds(p, IsSpecial)
    && |p| >= 8
    && forall i :: 0 <= i < |p| ==> InPasswordAlphabet(p[i])
  }

  predicate Contains(s: string, inClass: char -> bool) {
    exists i :: 0 <= i < |s| && inClass(s[i])
  }

  /** The password rule in words: length 8 to 100, one of each of the four classes, nothing outside the alphabet. */
  predicate StrongPassword(p: string) {
    && 8 <= |p| <= 100
    && Contains(p, IsLower)
    && Contains(p, IsUpper)
    && Contains(p, JsValues.IsDigit)
    && Contains(p, IsSpecial)
    && forall i :: 0 <= i < |p| ==> InPasswordAlphabet(p[i])
  }

  /** Since no alphabet character is a line break, the lookaheads only ask that each class occurs. */
  lemma PasswordRegexIsStrongPassword(p: string)
    ensures PasswordLengthOk(p) && PasswordRegexMatches(p) <==> StrongPassword(p)
  {
  }

  /**
   * The password check of `createUser`'s input schema: length 8 to 100 and
   * the pattern, decided in one pass over the characters.
   */
  method CheckPassword(p: string) returns (ok: bool)
    ensures ok <==> StrongPassword(p)
  {
    if !(8 <= |p| <= 100) {
      return false;
    }
    var lower, upper, digit, special := false, false, false, false;
    var i := 0;
    while i < |p|
      invariant 0 <= i <= |p|
      invariant forall j :: 0 <= j < i ==> InPasswordAlphabet(p[j])
      invariant lower <==> Contains(p[..i], IsLower)
      invariant upper <==> Contains(p[..i], IsUpper)
      invariant digit <==> Contains(p[..i], JsValues.IsDigit)
      invariant special <==> Contains(p[..i], IsSpecial)
    {
      var c := p[i];
      if !InPasswordAlphabet(c) {
        return false;
      }
      assert p[..i + 1] == p[..i] + [c];
      lower := lower || IsLower(c);
      upper := upper || IsUpper(c);
      digit := digit || JsValues.IsDigit(c);
      special := special || IsSpecial(c);
      i := i + 1;
    }
    assert p[..i] == p;
    ok := lower && upper && digit && special;
  }
}
