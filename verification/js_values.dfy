/** The few JavaScript value semantics the handlers rely on. */
module JsValues {
  import opened Wrappers

  /** JavaScript truthiness of a string that may be absent: `undefined`, `null` and "" are falsy. */
  predicate Truthy(s: Option<string>)
    ensures Truthy(s) <==> s.Some? && |s.value| > 0
  {
    s.Some? && s.value != ""
  }

  /** The expression `s || fallback` for a string that may be absent. */
  function OrElse(s: Option<string>, fallback: string): (r: string)
    ensures Truthy(s) ==> r == s.value
    ensures !Truthy(s) ==> r == fallback
    ensures fallback != "" ==> r != ""
  {
    if Truthy(s) then s.value else fallback
  }

  predicate IsDigit(c: char) {
    '0' <= c <= '9'
  }

  predicate AllDigits(s: string) {
    forall i :: 0 <= i < |s| ==> IsDigit(s[i])
  }

  function DigitChar(d: nat): (c: char)
    requires d < 10
    ensures IsDigit(c)
  {
    ('0' as int + d) as char
  }

  function DigitValue(c: char): (d: nat)
    requires IsDigit(c)
    ensures d < 10 && DigitChar(d) == c
  {
    c as int - '0' as int
  }

  /** `n.toString()` for a non-negative integer number: its shortest decimal numeral. */
  function NumberToString(n: nat): (s: string)
    ensures |s| > 0 && AllDigits(s)
    ensures |s| > 1 ==> s[0] != '0'
    decreases n
  {
    if n < 10 then [DigitChar(n)]
    else NumberToString(n / 10) + [DigitChar(n % 10)]
  }

  /** The value of a decimal numeral: the reference that `NumberToString` is checked against. */
  function DecimalValue(s: string): nat
    requires AllDigits(s)
  {
    if |s| == 0 then 0
    else DecimalValue(s[..|s| - 1]) * 10 + DigitValue(s[|s| - 1])
  }

  /** Reading back the numeral `toString` writes gives the original number. */
  lemma {:induction false} DecimalRoundTrip(n: nat)
    ensures DecimalValue(NumberToString(n)) == n
  {
    if n >= 10 {
      var s := NumberToString(n / 10);
      var t := s + [DigitChar(n % 10)];
      assert t[..|t| - 1] == s;
      DecimalRoundTrip(n / 10);
    }
  }

  /** Distinct numbers have distinct decimal strings. */
  lemma NumberToStringInjective(a: nat, b: nat)
    ensures NumberToString(a) == NumberToString(b) <==> a == b
  {
    DecimalRoundTrip(a);
    DecimalRoundTrip(b);
  }
}
