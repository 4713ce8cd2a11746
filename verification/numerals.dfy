/** Decimal numerals: Python's `str(int)` and the zero-padded fixed-width
    fields (`%02d`, `%04d`) of ISO dates, with the readings that invert them. */
module Numerals {

  predicate IsDigit(c: char) { '0' <= c <= '9' }

  predicate AllDigits(s: string) {
    forall i :: 0 <= i < |s| ==> IsDigit(s[i])
  }

  function DigitChar(d: nat): (c: char)
    requires d < 10
    ensures IsDigit(c)
  {
    ('0' as int + d) as char
  }

  function DigitValue(c: char): (d: nat)
    requires IsDigit(c)
    ensures d < 10 && DigitChar(d) == c
  {
    c as int - '0' as int
  }

  function Pow10(n: nat): (r: nat)
    ensures 0 < r
  {
    if n == 0 then 1 else 10 * Pow10(n - 1)
  }

  /** The number a string of decimal digits denotes (leading zeros allowed). */
  function DigitsValue(s: string): nat
    requires AllDigits(s)
    decreases |s|
  {
    if |s| == 0 then 0
    else 10 * DigitsValue(s[..|s| - 1]) + DigitValue(s[|s| - 1])
  }

  /** The `width` lowest decimal digits of `n`, zero-padded on the left:
      Python's `"%0<width>d" % n` for `n < 10^width`. */
  function FixedDigits(n: nat, width: nat): (r: string)
    ensures |r| == width && AllDigits(r)
    decreases width
  {
    if width == 0 then ""
    else FixedDigits(n / 10, width - 1) + [DigitChar(n % 10)]
  }

  /** Reading a fixed-width field back gives the number that was written. */
  lemma {:induction false} FixedDigitsValue(n: nat, width: nat)
    requires n < Pow10(width)
    ensures DigitsValue(FixedDigits(n, width)) == n
    decreases width
  {
    if width > 0 {
      var r := FixedDigits(n, width);
      FixedDigitsValue(n / 10, width - 1);
      assert r[..width - 1] == FixedDigits(n / 10, width - 1);
    }
  }

  /** Writing the value of a digit string in its own width gives it back. */
  lemma {:induction false} DigitsValueFixed(s: string)
    requires AllDigits(s)
    ensures FixedDigits(DigitsValue(s), |s|) == s
    decreases |s|
  {
    if |s| > 0 {
      var init := s[..|s| - 1];
      var v := DigitsValue(s);
      DigitsValueFixed(init);
      assert v / 10 == DigitsValue(init) && v % 10 == DigitValue(s[|s| - 1]);
      assert s == init + [s[|s| - 1]];
    }
  }

  /** Python's `str(n)` for a natural number: digits only, no leading zero,
      and the digits read back as `n`. */
  function NatToString(n: nat): (r: string)
    ensures 0 < |r| && AllDigits(r)
    ensures 1 < |r| ==> r[0] != '0'
    ensures DigitsValue(r) == n
    decreases n
  {
    if n < 10 then [DigitChar(n)]
    else
      var init := NatToString(n / 10);
      var r := init + [DigitChar(n % 10)];
      assert r[..|r| - 1] == init;
      r
  }

  /** Python's `str(i)`: a minus sign before the digits of a negative number. */
  function IntToString(i: int): (r: string)
    ensures 0 <= i ==> 0 < |r| && AllDigits(r) && DigitsValue(r) == i && (1 < |r| ==> r[0] != '0')
    ensures i < 0 ==> 1 < |r| && r[0] == '-' && r[1] != '0'
    ensures i < 0 ==> AllDigits(r[1..]) && DigitsValue(r[1..]) == -i
    ensures '\n' !in r
  {
    if 0 <= i then NatToString(i)
    else
      var digits := NatToString(-i);
      assert ("-" + digits)[1..] == digits;
      "-" + digits
  }
}
