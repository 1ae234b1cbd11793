/**
 * The string helpers of the language walkthrough
 * (typescript-basics-with-api/demo.ts): `identity`, `padLeft`, the
 * `numberRegexp` pattern and the `ZipCodeValidator`.
 */
module Demo {
  import opened Wrappers
  import JsArray
  import opened JsValues

  /** `identity<T>`: hands back its argument. */
  function Identity<T>(arg: T): (r: T)
    ensures r == arg
  {
    arg
  }

  /** `padLeft`'s second argument: a count of spaces or a literal prefix. */
  datatype Padding = Count(n: nat) | Prefix(text: string)

  /**
   * `padLeft`: a count n pads with `Array(n + 1).join(" ")`, which throws a
   * RangeError once n + 1 exceeds the largest array length; a string is put
   * in front as is.
   */
  function PadLeft(value: string, padding: Padding): (r: Result<string, JsArray.RangeError>)
    ensures padding.Count? ==> (r.Ok? <==> padding.n < JsArray.MAX_ARRAY_LENGTH)
    ensures padding.Count? && r.Ok? ==> r.value == JsArray.Spaces(padding.n) + value
    ensures padding.Prefix? ==> r == Ok(padding.text + value)
  {
    match padding
    case Count(n) =>
      (match JsArray.NewArray(n + 1)
       case Err(e) => Err(e)
       case Ok(holes) =>
         JsArray.JoinHoles(n);
         Ok(JsArray.Join(holes, " ") + value))
    case Prefix(text) => Ok(text + value)
  }

  /** A successful result ends with `value` and is longer by the padding's width. */
  lemma PadLeftShape(value: string, padding: Padding)
    requires PadLeft(value, padding).Ok?
    ensures var r := PadLeft(value, padding).value;
      |r| == |value| + (if padding.Count? then padding.n else |padding.text|)
      && r[|r| - |value|..] == value
  {
  }

  /** Only spaces come before `value` when the padding is a count; a count of 0 changes nothing. */
  lemma PadLeftCountIsSpaces(value: string, n: nat)
    requires n < JsArray.MAX_ARRAY_LENGTH
    ensures var r := PadLeft(value, Count(n)).value;
      forall i :: 0 <= i < n ==> r[i] == ' '
    ensures PadLeft(value, Count(0)) == Ok(value)
  {
    assert JsArray.Spaces(0) + value == value;
  }

  /** `numberRegexp.test(s)` for `/^[0-9]+$/`: one digit, then the end of the input or another match. */
  function NumberRegexpTest(s: string): (b: bool)
    ensures b <==> |s| > 0 && AllDigits(s)
  {
    |s| > 0 && IsDigit(s[0]) && (|s| == 1 || NumberRegexpTest(s[1..]))
  }

  /** `ZipCodeValidator.isAcceptable`. */
  function IsAcceptableZipCode(s: string): (b: bool)
    ensures b <==> |s| == 5 && AllDigits(s)
  {
    |s| == 5 && NumberRegexpTest(s)
  }
}
