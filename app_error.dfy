/**
 * `AppError`: an error carrying an HTTP status code, a message, an optional
 * name, and a `status` word derived from the decimal rendering of the code.
 */
module Errors {
  import opened Wrappers
  import opened JsNumbers

  /** `"fail"` when the decimal rendering of the code starts with `'4'`, `"error"` otherwise. */
  function Status(statusCode: int): (r: string)
    ensures r == "fail" || r == "error"
    ensures r == "fail" ==> statusCode > 0
  {
    if DecimalString(statusCode)[0] == '4' then "fail" else "error"
  }

  /** The code's most significant decimal digit is a 4: `4 * 10^k <= code < 5 * 10^k` for some `k`. */
  ghost predicate LeadsWithFour(statusCode: int) {
    exists k: nat :: 4 * Pow10(k) <= statusCode < 5 * Pow10(k)
  }

  /** `status` is `"fail"` exactly for the codes whose leading decimal digit is 4 (400-499, 4, 40-49, 4000-4999, ...). */
  lemma {:induction false} StatusIsFailIff(statusCode: int)
    ensures Status(statusCode) == "fail" <==> LeadsWithFour(statusCode)
    ensures Status(statusCode) == "fail" || Status(statusCode) == "error"
  {
    if Status(statusCode) == "fail" {
      var n: nat := statusCode;
      assert n != 0;
      var k, d := Magnitude(n);
      LeadingDigit(n, k, d);
      assert DigitChar(d) == '4';
      assert d == 4;
      assert 4 * Pow10(k) <= statusCode < 5 * Pow10(k);
    } else if LeadsWithFour(statusCode) {
      var k: nat :| 4 * Pow10(k) <= statusCode < 5 * Pow10(k);
      LeadingDigit(statusCode, k, 4);
      assert false;
    }
  }

  /** The codes the controllers and middlewares raise: every 4xx is `"fail"`, 500 is `"error"`. */
  lemma StatusOfHttpCodes()
    ensures Status(400) == "fail" && Status(401) == "fail"
    ensures Status(403) == "fail" && Status(404) == "fail"
    ensures Status(500) == "error"
  {
    assert LeadsWithFour(400) && LeadsWithFour(401) && LeadsWithFour(403) && LeadsWithFour(404) by {
      assert Pow10(2) == 100;
    }
    StatusIsFailIff(400);
    StatusIsFailIff(401);
    StatusIsFailIff(403);
    StatusIsFailIff(404);
    assert DecimalString(500)[0] == '5' by {
      LeadingDigit(500, 2, 5);
    }
  }

  /** Only the first character counts: 4 and 4000 are `"fail"`, and a negative code renders with `'-'` first. */
  lemma StatusLooksAtFirstCharacterOnly(negative: int)
    requires negative < 0
    ensures Status(4) == "fail" && Status(4000) == "fail"
    ensures Status(negative) == "error"
  {
    assert Pow10(3) == 1000;
    StatusIsFailIff(4000);
    assert LeadsWithFour(4000);
    assert LeadsWithFour(4) by {
      assert 4 * Pow10(0) <= 4 < 5 * Pow10(0);
    }
    StatusIsFailIff(4);
  }

  /** An application error, as the `AppError` constructor builds it. */
  class AppError {
    var message: string
    var statusCode: int
    var status: string
    var isOperational: bool
    var errName: Option<string>

    constructor (message: string, statusCode: int, errName: Option<string>)
      ensures this.message == message && this.statusCode == statusCode
      ensures this.errName == errName
      ensures status == Status(statusCode)
      ensures status == "fail" <==> LeadsWithFour(statusCode)
      ensures isOperational
    {
      this.statusCode := statusCode;
      this.status := Status(statusCode);
      this.isOperational := true;
      this.errName := errName;
      this.message := message;
      StatusIsFailIff(statusCode);
    }
  }
}
