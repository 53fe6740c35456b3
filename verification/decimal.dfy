/** Decimal digit strings: the text the keypad builds, the zero-padded
    timestamp fields of a capture's file name, and the user id printed into it. */
module Decimal {

  predicate IsDigit(c: char) {
    '0' <= c <= '9'
  }

  predicate AllDigits(s: string) {
    forall i :: 0 <= i < |s| ==> IsDigit(s[i])
  }

  type Digit = d: nat | d < 10

  function DigitChar(d: Digit): (c: char)
    ensures IsDigit(c)
    ensures DigitValue(c) == d
  {
    (48 + d) as char
  }

  function DigitValue(c: char): Digit
    requires IsDigit(c)
  {
    (c as int - 48) as Digit
  }

  function Pow10(n: nat): (p: nat)
    ensures p >= 1
  {
    if n == 0 then 1 else 10 * Pow10(n - 1)
  }

  /** The number a digit string spells, most significant digit first; the empty string spells 0. */
  function NatOf(s: string): nat
    requires AllDigits(s)
  {
    if |s| == 0 then 0 else 10 * NatOf(s[..|s| - 1]) + DigitValue(s[|s| - 1])
  }

  lemma NatOfBound(s: string)
    requires AllDigits(s)
    ensures NatOf(s) < Pow10(|s|)
  {
  }

  /** `n` printed in exactly `width` digits with leading zeros, as strftime prints `%m`, `%d`, `%H`, ... */
  function Pad(n: nat, width: nat): (s: string)
    requires n < Pow10(width)
    ensures |s| == width && AllDigits(s)
  {
    if width == 0 then "" else Pad(n / 10, width - 1) + [DigitChar(n % 10)]
  }

  /** `n` printed in decimal without leading zeros, as Python's `str(n)` for a non-negative int. */
  function NatToString(n: nat): (s: string)
    ensures |s| > 0 && AllDigits(s)
  {
    if n < 10 then [DigitChar(n)] else NatToString(n / 10) + [DigitChar(n % 10)]
  }

  lemma NatOfSnoc(s: string, c: char)
    requires AllDigits(s) && IsDigit(c)
    ensures AllDigits(s + [c])
    ensures NatOf(s + [c]) == 10 * NatOf(s) + DigitValue(c)
  {
    assert (s + [c])[..|s|] == s;
  }

  /** Reading back a padded field gives the number that was printed. */
  lemma {:induction false} PadRoundTrip(n: nat, width: nat)
    requires n < Pow10(width)
    ensures NatOf(Pad(n, width)) == n
  {
    if width > 0 {
      PadRoundTrip(n / 10, width - 1);
      NatOfSnoc(Pad(n / 10, width - 1), DigitChar(n % 10));
    }
  }

  /** Reading back a printed number gives the number. */
  lemma {:induction false} NatToStringRoundTrip(n: nat)
    ensures NatOf(NatToString(n)) == n
  {
    if n >= 10 {
      NatToStringRoundTrip(n / 10);
      NatOfSnoc(NatToString(n / 10), DigitChar(n % 10));
    } else {
      assert NatToString(n) == [] + [DigitChar(n)];
      NatOfSnoc([], DigitChar(n));
    }
  }
}
