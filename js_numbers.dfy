/**
 * The two JavaScript number/string conversions the core depends on:
 * rendering an integer in decimal (`${n}`, `n.toString()`) and
 * `parseInt(value, 10)`, which reads an optional sign and the longest
 * run of decimal digits after leading white space.
 */
module JsNumbers {
  import opened Wrappers
  import opened Text

  predicate IsDigit(c: char) {
    '0' <= c <= '9'
  }

  function DigitChar(d: nat): (c: char)
    requires d < 10
    ensures IsDigit(c)
  {
    (48 + d) as char
  }

  function DigitValue(c: char): (d: nat)
    requires IsDigit(c)
    ensures d < 10 && DigitChar(d) == c
  {
    c as int - 48
  }

  function Pow10(k: nat): (r: nat)
    ensures r >= 1
  {
    if k == 0 then 1 else 10 * Pow10(k - 1)
  }

  /** The decimal digits of `n`, most significant first, with no leading zero. */
  function Digits(n: nat): (s: string)
    ensures |s| >= 1
    ensures forall i :: 0 <= i < |s| ==> IsDigit(s[i])
    ensures |s| > 1 ==> s[0] != '0'
    decreases n
  {
    if n < 10 then [DigitChar(n)] else Digits(n / 10) + [DigitChar(n % 10)]
  }

  /** The decimal rendering of an integer, as a template literal or `toString()` yields it. */
  function DecimalString(n: int): (s: string)
    ensures |s| >= 1
    ensures s[0] == '-' <==> n < 0
  {
    if n < 0 then "-" + Digits(-n) else Digits(n)
  }

  /** The value of a string of decimal digits, read most significant first. */
  function DigitsValue(s: string): nat
    requires forall i :: 0 <= i < |s| ==> IsDigit(s[i])
    decreases |s|
  {
    if s == [] then 0 else 10 * DigitsValue(s[..|s| - 1]) + DigitValue(s[|s| - 1])
  }

  /** The white space `parseInt` skips: ECMAScript's WhiteSpace and LineTerminator characters. */
  predicate IsJsWhitespace(c: char) {
    c in {'\t', '\n', '\U{0B}', '\U{0C}', '\r', ' ', '\U{A0}', '\U{1680}', '\U{2028}', '\U{2029}',
          '\U{202F}', '\U{205F}', '\U{3000}', '\U{FEFF}'}
    || '\U{2000}' <= c <= '\U{200A}'
  }

  /** Some character of `s` is a decimal digit. */
  predicate HasDigit(s: string) {
    exists i :: 0 <= i < |s| && IsDigit(s[i])
  }

  /**
   * `parseInt(s, 10)`: `None` stands for `NaN`. Leading white space is skipped,
   * one `+` or `-` is read, then the longest run of digits; anything after it is ignored.
   */
  function ParseInt(s: string): (r: Option<int>)
    ensures r.Some? ==> HasDigit(s)
  {
    var w := Span(s, IsJsWhitespace);
    var t := s[w..];
    var negative := |t| > 0 && t[0] == '-';
    var body := if |t| > 0 && (t[0] == '-' || t[0] == '+') then t[1..] else t;
    var n := Span(body, IsDigit);
    if n == 0 then None
    else
      assert IsDigit(s[w + |t| - |body|]);
      var v: int := DigitsValue(body[..n]);
      Some(if negative then -v else v)
  }

  /** Reading back the digits of `n` gives `n`. */
  lemma {:induction false} DigitsValueOfDigits(n: nat)
    ensures DigitsValue(Digits(n)) == n
    decreases n
  {
    if n >= 10 {
      var s := Digits(n);
      DigitsValueOfDigits(n / 10);
      assert s[..|s| - 1] == Digits(n / 10);
    }
  }

  /**
   * `parseInt` inverts the decimal rendering, also when the rendering is followed
   * by text that does not start with a digit (`parseInt("3abc", 10) == 3`).
   */
  lemma ParseIntOfDecimal(n: int, suffix: string)
    requires suffix == [] || !IsDigit(suffix[0])
    ensures ParseInt(DecimalString(n) + suffix) == Some(n)
  {
    var s := DecimalString(n) + suffix;
    var m: nat := if n < 0 then -n else n;
    var digits := Digits(m);
    assert IsDigit(digits[0]);
    assert s[0] == if n < 0 then '-' else digits[0];
    assert !IsJsWhitespace(s[0]);
    assert Span(s, IsJsWhitespace) == 0;
    assert s[0..] == s;
    var body := if n < 0 then s[1..] else s;
    assert body == digits + suffix;
    SpanOfRun(digits, suffix, IsDigit);
    assert Span(body, IsDigit) == |digits|;
    assert body[..|digits|] == digits;
    DigitsValueOfDigits(m);
    assert DigitsValue(body[..|digits|]) == m;
  }

  /** The leading digit of `n` is `d` when `d * 10^k <= n < (d + 1) * 10^k`. */
  lemma {:induction false} LeadingDigit(n: nat, k: nat, d: nat)
    requires 1 <= d <= 9
    requires d * Pow10(k) <= n < (d + 1) * Pow10(k)
    ensures |Digits(n)| == k + 1 && Digits(n)[0] == DigitChar(d)
    decreases k
  {
    if k > 0 {
      var p := Pow10(k - 1);
      var x := d * p;
      assert Pow10(k) == 10 * p;
      MulTen(d, p);
      MulTen(d + 1, p);
      assert (d + 1) * p == x + p;
      var m := n / 10;
      assert n == 10 * m + n % 10;
      assert 10 * x <= n < 10 * (x + p);
      assert x <= m < x + p;
      LeadingDigit(m, k - 1, d);
    }
  }

  lemma MulTen(a: nat, b: nat)
    ensures a * (10 * b) == 10 * (a * b)
  {
  }

  /** Every positive number has a leading digit `d` at some magnitude `k`. */
  lemma {:induction false} Magnitude(n: nat) returns (k: nat, d: nat)
    requires n >= 1
    ensures 1 <= d <= 9
    ensures d * Pow10(k) <= n < (d + 1) * Pow10(k)
    decreases n
  {
    if n < 10 {
      k, d := 0, n;
    } else {
      var k', d' := Magnitude(n / 10);
      var p := Pow10(k');
      k, d := k' + 1, d';
      assert n == 10 * (n / 10) + n % 10;
      assert d * Pow10(k) == 10 * (d' * p);
      assert (d + 1) * Pow10(k) == 10 * ((d' + 1) * p);
    }
  }
}
