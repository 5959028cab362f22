/** JavaScript's `Number.parseInt` with no radix argument, over unbounded
    integers, with `NaN` kept as a value of its own. */
module JsNumber {
  import opened Wrappers
  import opened Text

  /** A JavaScript number as the application uses it: an integer or `NaN`. */
  datatype Num = Int(value: int) | NaN {

    /** `a + b`: `NaN` if either side is `NaN`. */
    function Plus(other: Num): (r: Num)
      ensures r.Int? <==> Int? && other.Int?
      ensures r.Int? ==> r.value == value + other.value
    {
      if Int? && other.Int? then Int(value + other.value) else NaN
    }

    /** `a * b`: `NaN` if either side is `NaN`. */
    function Times(other: Num): (r: Num)
      ensures r.Int? <==> Int? && other.Int?
      ensures r.Int? ==> r.value == value * other.value
    {
      if Int? && other.Int? then Int(value * other.value) else NaN
    }
  }

  /** The white-space and line-terminator characters `parseInt` skips at the
      start: tab, vertical tab, form feed, the byte-order mark, the line
      terminators, and every space separator of Unicode category Zs. */
  predicate IsSpace(c: char) {
    || c == '\t' || c == '\n' || c == '\r' || c == '\U{000B}' || c == '\U{000C}'
    || c == '\U{FEFF}' || c == '\U{2028}' || c == '\U{2029}'
    || IsSpaceSeparator(c)
  }

  /** The characters of Unicode general category Zs. */
  predicate IsSpaceSeparator(c: char) {
    || c == ' ' || c == '\U{00A0}' || c == '\U{1680}' || '\U{2000}' <= c <= '\U{200A}'
    || c == '\U{202F}' || c == '\U{205F}' || c == '\U{3000}'
  }

  /** The string without its leading white space. */
  function TrimStart(s: string): (r: string)
    ensures |r| <= |s| && r == s[|s| - |r|..]
    ensures r == [] || !IsSpace(r[0])
    ensures forall i :: 0 <= i < |s| - |r| ==> IsSpace(s[i])
  {
    if s != [] && IsSpace(s[0]) then
      var r := TrimStart(s[1..]);
      assert forall i :: 1 <= i < |s| - |r| ==> s[i] == s[1..][i - 1];
      r
    else s
  }

  /** The value of `c` as a digit in base `radix` (10 or 16), if it is one. */
  function DigitIn(c: char, radix: nat): (r: Option<nat>)
    requires radix == 10 || radix == 16
    ensures r.Some? ==> r.value < radix
    ensures radix == 10 ==> (r.Some? <==> IsDigit(c))
    ensures radix == 10 && IsDigit(c) ==> r == Some(DigitValue(c))
  {
    if IsDigit(c) then Some(DigitValue(c))
    else if radix == 16 && 'a' <= c <= 'f' then Some(c as int - 'a' as int + 10)
    else if radix == 16 && 'A' <= c <= 'F' then Some(c as int - 'A' as int + 10)
    else None
  }

  predicate AllDigitsIn(s: string, radix: nat)
    requires radix == 10 || radix == 16
  {
    forall i :: 0 <= i < |s| ==> DigitIn(s[i], radix).Some?
  }

  /** The longest prefix of `s` made of digits in base `radix`. */
  function LeadingDigits(s: string, radix: nat): (r: string)
    requires radix == 10 || radix == 16
    ensures r <= s
    ensures AllDigitsIn(r, radix)
    ensures |r| < |s| ==> DigitIn(s[|r|], radix).None?
  {
    if s != [] && DigitIn(s[0], radix).Some? then [s[0]] + LeadingDigits(s[1..], radix) else []
  }

  /** The value of a string of base-`radix` digits, most significant first. */
  function ValueIn(s: string, radix: nat): nat
    requires radix == 10 || radix == 16
    requires AllDigitsIn(s, radix)
  {
    if s == [] then 0
    else ValueIn(s[..|s| - 1], radix) * radix + DigitIn(s[|s| - 1], radix).value
  }

  /** In base 10 this is the value `Text.DigitsValue` gives. */
  lemma {:induction false} ValueInDecimal(s: string)
    requires AllDigits(s)
    ensures AllDigitsIn(s, 10)
    ensures ValueIn(s, 10) == DigitsValue(s)
  {
    if s != [] {
      ValueInDecimal(s[..|s| - 1]);
    }
  }

  /** The characters after an optional sign, with that sign. */
  function SplitSign(s: string): (r: (int, string))
    ensures r.0 == 1 || r.0 == -1
    ensures r.1 == s || (s != [] && r.1 == s[1..] && (s[0] == '+' || s[0] == '-'))
  {
    if s != [] && s[0] == '-' then (-1, s[1..])
    else if s != [] && s[0] == '+' then (1, s[1..])
    else (1, s)
  }

  predicate HasHexPrefix(s: string) {
    |s| >= 2 && s[0] == '0' && (s[1] == 'x' || s[1] == 'X')
  }

  /** `Number.parseInt(s)`: leading white space and one sign are skipped, a
      `0x`/`0X` prefix switches to base 16, and the longest run of digits
      that follows is the value; no digit at all gives `NaN`. */
  function ParseInt(s: string): (r: Num)
    ensures r.NaN? <==> (
      var body := SplitSign(TrimStart(s)).1;
      LeadingDigits(if HasHexPrefix(body) then body[2..] else body,
                    if HasHexPrefix(body) then 16 else 10) == [])
  {
    var (sign, body) := SplitSign(TrimStart(s));
    var radix := if HasHexPrefix(body) then 16 else 10;
    var digits := LeadingDigits(if radix == 16 then body[2..] else body, radix);
    if digits == [] then NaN else Int(sign * ValueIn(digits, radix))
  }

  /** A plain run of decimal digits parses to its decimal value. */
  lemma ParseIntDigits(s: string)
    requires s != [] && AllDigits(s)
    ensures ParseInt(s) == Int(DigitsValue(s))
  {
    assert TrimStart(s) == s by {
      DigitNotSpace(s[0]);
    }
    assert SplitSign(s) == (1, s);
    assert !HasHexPrefix(s) by {
      if |s| >= 2 {
        assert IsDigit(s[1]);
      }
    }
    LeadingAllDigits(s);
    ValueInDecimal(s);
  }

  /** A white-space character in front of the text does not change what
      `parseInt` reads, whichever space separator it is. */
  lemma ParseIntSkipsSpace(c: char, s: string)
    requires IsSpace(c)
    ensures ParseInt([c] + s) == ParseInt(s)
  {
    TrimStartSkipsSpace(c, s);
  }

  lemma TrimStartSkipsSpace(c: char, s: string)
    requires IsSpace(c)
    ensures TrimStart([c] + s) == TrimStart(s)
  {
    assert ([c] + s)[1..] == s;
  }

  lemma DigitNotSpace(c: char)
    requires IsDigit(c)
    ensures !IsSpace(c)
  {
  }

  lemma {:induction false} LeadingAllDigits(s: string)
    requires AllDigits(s)
    ensures LeadingDigits(s, 10) == s
  {
    if s != [] {
      LeadingAllDigits(s[1..]);
    }
  }

  /** Rendering a non-negative integer in decimal and parsing it back gives
      the integer. */
  lemma ParseIntOfString(n: nat)
    ensures ParseInt(NatToString(n)) == Int(n)
  {
    ParseIntDigits(NatToString(n));
    NatToStringValue(n);
  }
}
