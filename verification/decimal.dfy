/** Decimal rendering of the raw ids in a mapping token (Swift string
    interpolation of an unsigned integer) and the matching parser. */
module Decimal {
  import opened Types

  predicate IsDigit(c: char) {
    '0' <= c <= '9'
  }

  function DigitChar(d: nat): (c: char)
    requires d < 10
    ensures IsDigit(c)
  {
    (48 + d) as char
  }

  function DigitValue(c: char): (d: nat)
    requires IsDigit(c)
    ensures d < 10 && DigitChar(d) == c
  {
    c as int - 48
  }

  predicate AllDigits(s: string) {
    forall i :: 0 <= i < |s| ==> IsDigit(s[i])
  }

  /** The shortest decimal numeral of n, as `\(n)` prints it: no leading
      zero, except for 0 itself. */
  function Dec(n: nat): (r: string)
    ensures |r| >= 1 && AllDigits(r)
    ensures (n < 10) == (|r| == 1)
    ensures r[0] == '0' <==> n == 0
    decreases n
  {
    if n < 10 then [DigitChar(n)] else Dec(n / 10) + [DigitChar(n % 10)]
  }

  /** Reads a non-empty string of decimal digits; anything else is None. */
  function ParseDec(s: string): (r: Option<nat>)
    ensures r.Some? <==> (|s| >= 1 && AllDigits(s))
    decreases |s|
  {
    if |s| == 0 || !IsDigit(s[|s| - 1]) then None
    else if |s| == 1 then Some(DigitValue(s[0]))
    else
      match ParseDec(s[..|s| - 1])
      case None => None
      case Some(v) => Some(v * 10 + DigitValue(s[|s| - 1]))
  }

  /** Every numeral the wizard prints reads back as the number it came from. */
  lemma {:induction false} ParseDecRoundTrip(n: nat)
    ensures ParseDec(Dec(n)) == Some(n)
    decreases n
  {
    if n >= 10 {
      ParseDecRoundTrip(n / 10);
      var r := Dec(n);
      assert r[..|r| - 1] == Dec(n / 10);
      assert DigitValue(r[|r| - 1]) == n % 10;
    }
  }
}
