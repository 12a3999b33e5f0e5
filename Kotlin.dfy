/**
 * The parts of Kotlin's runtime whose behaviour the application depends on:
 * the exceptions it turns into failures, `Double.toInt()`, `Int.toString()`
 * and `CharSequence.isBlank()`.
 */
module Kotlin {
  import opened Wrappers

  /** The failures that reach a `Result.failure(...)` in the repository. */
  datatype Exception =
    | Transport(message: Option<string>)      // thrown by the HTTP client; its message may be null
    | IndexOutOfBounds(index: nat, size: nat) // `List.get(index)` on a list of that size
    | ApiError(code: int)                     // `Exception("API error: <code>")`
    | NoPlacesFound                           // `Exception("Inga platser hittades")`

  /** `Throwable.message`. */
  function Message(e: Exception): (m: Option<string>)
    ensures e.Transport? ==> m == e.message
    ensures !e.Transport? ==> m.Some? && |m.value| > 0
  {
    match e
    case Transport(msg) => msg
    case IndexOutOfBounds(i, n) =>
      Some("Index " + IntToString(i) + " out of bounds for length " + IntToString(n))
    case ApiError(code) => Some("API error: " + IntToString(code))
    case NoPlacesFound => Some("Inga platser hittades")
  }

  const IntMax: int := 0x7fff_ffff
  const IntMin: int := -0x8000_0000

  /** Rounding toward zero. */
  function Truncate(x: real): (n: int)
    ensures 0.0 <= x ==> 0 <= n && n as real <= x < n as real + 1.0
    ensures x < 0.0 ==> n <= 0 && n as real - 1.0 < x <= n as real
  {
    if x >= 0.0 then x.Floor else -((-x).Floor)
  }

  /**
   * `Double.toInt()`: rounds toward zero and saturates at the bounds of a
   * 32-bit `Int`.
   */
  function DoubleToInt(x: real): (n: int)
    ensures IntMin <= n <= IntMax
    ensures IntMin as real < x < IntMax as real ==> n == Truncate(x)
    ensures x >= IntMax as real ==> n == IntMax
    ensures x <= IntMin as real ==> n == IntMin
  {
    if x >= IntMax as real then IntMax
    else if x <= IntMin as real then IntMin
    else Truncate(x)
  }

  /** An ASCII decimal digit (`\d` in a Java regular expression). */
  predicate IsDigit(c: char) {
    '0' as int <= c as int <= '9' as int
  }

  function DigitChar(d: nat): (c: char)
    requires d < 10
    ensures IsDigit(c) && (c as int) - ('0' as int) == d
  {
    ['0', '1', '2', '3', '4', '5', '6', '7', '8', '9'][d]
  }

  /** Decimal digits of `n`, most significant first, without leading zeros. */
  function NatToString(n: nat): (s: string)
    ensures |s| > 0 && (forall i :: 0 <= i < |s| ==> IsDigit(s[i]))
    ensures |s| > 1 ==> s[0] != '0'
    ensures DigitsValue(s) == n
    decreases n
  {
    if n < 10 then [DigitChar(n)]
    else
      var prefix := NatToString(n / 10);
      DigitsValueAppend(prefix, DigitChar(n % 10));
      prefix + [DigitChar(n % 10)]
  }

  /** The number a string of decimal digits denotes. */
  function DigitsValue(s: string): nat
    requires forall i :: 0 <= i < |s| ==> IsDigit(s[i])
  {
    if s == [] then 0
    else
      assert IsDigit(s[|s| - 1]);
      10 * DigitsValue(s[..|s| - 1]) + ((s[|s| - 1] as int) - ('0' as int))
  }

  lemma DigitsValueAppend(s: string, c: char)
    requires forall i :: 0 <= i < |s| ==> IsDigit(s[i])
    requires IsDigit(c)
    ensures DigitsValue(s + [c]) == 10 * DigitsValue(s) + ((c as int) - ('0' as int))
  {
    assert (s + [c])[..|s + [c]| - 1] == s;
  }

  /** `Int.toString()`: a leading '-' for negative numbers, then the digits. */
  function IntToString(n: int): (s: string)
    ensures n >= 0 ==> s == NatToString(n)
    ensures n < 0 ==> s == "-" + NatToString(-n)
  {
    if n >= 0 then NatToString(n) else "-" + NatToString(-n)
  }

  /** Different numbers print differently, so the code in "API error: <code>" identifies the status. */
  lemma {:induction false} IntToStringInjective(a: int, b: int)
    requires IntToString(a) == IntToString(b)
    ensures a == b
  {
    var sa, sb := IntToString(a), IntToString(b);
    if a >= 0 && b >= 0 {
      assert DigitsValue(NatToString(a)) == DigitsValue(NatToString(b));
    } else if a < 0 && b < 0 {
      assert sa[1..] == NatToString(-a) && sb[1..] == NatToString(-b);
    }
  }

  /** A few renderings, such as the HTTP statuses the weather service answers with. */
  lemma {:induction false} IntToStringSamples()
    ensures IntToString(0) == "0"
    ensures IntToString(404) == "404"
    ensures IntToString(-7) == "-7"
  {
    assert NatToString(40) == "40" by { assert NatToString(4) == "4"; }
  }

  /**
   * `Char.isWhitespace()` on the JVM: `Character.isWhitespace` or
   * `Character.isSpaceChar`, written out as code points.
   */
  predicate IsWhitespace(c: char) {
    var u := c as int;
    (9 <= u <= 13) || (0x1C <= u <= 0x20) || u == 0xA0 || u == 0x1680
    || (0x2000 <= u <= 0x200A) || u == 0x2028 || u == 0x2029
    || u == 0x202F || u == 0x205F || u == 0x3000
  }

  /** `CharSequence.isBlank()`: empty or whitespace only. */
  predicate IsBlank(s: string) {
    forall i :: 0 <= i < |s| ==> IsWhitespace(s[i])
  }

  /** `trimStart()`: the string from its first non-whitespace character on. */
  function TrimStart(s: string): (t: string)
    ensures |t| <= |s| && t == s[|s| - |t|..]
    ensures t != [] ==> !IsWhitespace(t[0])
    ensures forall i :: 0 <= i < |s| - |t| ==> IsWhitespace(s[i])
  {
    if s == [] || !IsWhitespace(s[0]) then s
    else
      var t := TrimStart(s[1..]);
      assert forall i :: 0 < i < |s| ==> s[i] == s[1..][i - 1];
      t
  }

  /** A string is blank exactly when nothing is left of it once leading whitespace is trimmed. */
  lemma {:induction false} BlankIffTrimmedEmpty(s: string)
    ensures IsBlank(s) <==> TrimStart(s) == []
  {
    if s != [] && IsWhitespace(s[0]) {
      BlankIffTrimmedEmpty(s[1..]);
      assert forall i :: 0 < i < |s| ==> s[i] == s[1..][i - 1];
      if IsBlank(s[1..]) {
        forall i | 0 <= i < |s| ensures IsWhitespace(s[i]) {
          if i > 0 { assert s[i] == s[1..][i - 1]; }
        }
      }
    }
  }

  /** Spaces, tabs and line breaks are blank; a letter or a digit is not. */
  lemma {:induction false} BlankSamples(c: char)
    requires IsDigit(c) || ('a' <= c <= 'z') || ('A' <= c <= 'Z')
    ensures IsBlank("") && IsBlank(" \t\n") && IsBlank([' ', (0x3000 as char)])
    ensures !IsWhitespace(c) && !IsBlank([' ', c, ' '])
  {
    assert [' ', c, ' '][1] == c;
  }
}
