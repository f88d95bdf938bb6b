/** Decimal rendering of numbers as text: the zero-padded fields that
    strftime writes (%Y, %m, %H, %M, %S) and the digit strings that
    pandas' astype(str) writes for an identifier column. */
module Text {

  predicate IsDigit(c: char) { '0' <= c <= '9' }

  function DigitChar(n: nat): (c: char)
    requires n < 10
    ensures IsDigit(c) && c as int - '0' as int == n
  {
    ('0' as int + n) as char
  }

  function DigitValue(c: char): int { c as int - '0' as int }

  function Pow10(width: nat): (p: nat)
    ensures p >= 1
  {
    if width == 0 then 1 else 10 * Pow10(width - 1)
  }

  /** The value of a string of decimal digits, most significant first. */
  function DigitsValue(s: string): int
  {
    if s == [] then 0 else 10 * DigitsValue(s[..|s| - 1]) + DigitValue(s[|s| - 1])
  }

  predicate AllDigits(s: string) { forall i :: 0 <= i < |s| ==> IsDigit(s[i]) }

  /** n written with exactly `width` decimal digits, zero-padded on the left. */
  function Padded(n: nat, width: nat): (s: string)
    requires n < Pow10(width)
    ensures |s| == width && AllDigits(s)
    ensures DigitsValue(s) == n
  {
    if width == 0 then []
    else
      var prefix := Padded(n / 10, width - 1);
      var s := prefix + [DigitChar(n % 10)];
      assert s[..|s| - 1] == prefix;
      s
  }

  /** Decimal text of a natural number without leading zeros. */
  function NatText(n: nat): (s: string)
    ensures |s| >= 1 && AllDigits(s)
    ensures DigitsValue(s) == n
    decreases n
  {
    if n < 10 then [DigitChar(n)]
    else
      var prefix := NatText(n / 10);
      var s := prefix + [DigitChar(n % 10)];
      assert s[..|s| - 1] == prefix;
      s
  }

  /** Decimal text of an integer, with a leading '-' when negative (Python's str(int)). */
  function IntText(v: int): (s: string)
    ensures |s| >= 1
    ensures v >= 0 ==> AllDigits(s) && DigitsValue(s) == v
    ensures v < 0 ==> s[0] == '-' && AllDigits(s[1..]) && DigitsValue(s[1..]) == -v
  {
    if v >= 0 then NatText(v) else "-" + NatText(-v)
  }
}
