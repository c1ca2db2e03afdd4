/** Decimal rendering of integers as Python does it: `str(n)` and the
    zero-padded format specifications `02d` and `03d`. */
module Decimal {

  predicate IsDigit(c: char) {
    '0' <= c <= '9'
  }

  predicate AllDigits(s: string) {
    forall i :: 0 <= i < |s| ==> IsDigit(s[i])
  }

  function DigitChar(d: nat): (c: char)
    requires d < 10
    ensures IsDigit(c) && c as int - '0' as int == d
  {
    ('0' as int + d) as char
  }

  function Pow10(k: nat): (p: nat)
    ensures p >= 1
  {
    if k == 0 then 1 else 10 * Pow10(k - 1)
  }

  /** The number a string of decimal digits denotes (leading zeros allowed). */
  function DigitsValue(s: string): nat
    requires AllDigits(s)
    decreases |s|
  {
    if s == [] then 0
    else DigitsValue(s[..|s| - 1]) * 10 + (s[|s| - 1] as int - '0' as int)
  }

  /** `s` is a run of decimal digits that reads as `n`. */
  predicate Denotes(s: string, n: int) {
    AllDigits(s) && DigitsValue(s) == n
  }

  /** `str(n)` for a non-negative integer: digits only, no leading zero,
      and reading the digits back gives `n`. */
  function NatToString(n: nat): (s: string)
    ensures |s| >= 1 && AllDigits(s)
    ensures |s| == 1 || s[0] != '0'
    ensures DigitsValue(s) == n
    decreases n
  {
    if n < 10 then [DigitChar(n)]
    else
      var prefix := NatToString(n / 10);
      var s := prefix + [DigitChar(n % 10)];
      assert s[..|s| - 1] == prefix;
      s
  }

  /** `str(n)` has at most `k` digits exactly when `n < 10^k`. */
  lemma {:induction false} NatToStringLength(n: nat, k: nat)
    requires k >= 1
    ensures |NatToString(n)| <= k <==> n < Pow10(k)
    decreases n
  {
    if k >= 2 {
      assert Pow10(k) == 10 * Pow10(k - 1);
      assert Pow10(k - 1) >= 10 by {
        assert Pow10(k - 1) == 10 * Pow10(k - 2);
      }
    }
    if n >= 10 && k >= 2 {
      NatToStringLength(n / 10, k - 1);
    }
  }

  function Zeros(k: nat): (s: string)
    ensures |s| == k && forall i :: 0 <= i < k ==> s[i] == '0'
  {
    seq(k, _ => '0')
  }

  /** Leading zeros do not change the value of a digit string. */
  lemma {:induction false} LeadingZeros(k: nat, t: string)
    requires AllDigits(t)
    ensures AllDigits(Zeros(k) + t) && DigitsValue(Zeros(k) + t) == DigitsValue(t)
    decreases |t|
  {
    if t == [] {
      assert Zeros(k) + t == Zeros(k);
      ZerosValue(k);
    } else {
      var u := Zeros(k) + t;
      assert u[..|u| - 1] == Zeros(k) + t[..|t| - 1];
      LeadingZeros(k, t[..|t| - 1]);
    }
  }

  lemma {:induction false} ZerosValue(k: nat)
    ensures AllDigits(Zeros(k)) && DigitsValue(Zeros(k)) == 0
  {
    if k > 0 {
      assert Zeros(k)[..k - 1] == Zeros(k - 1);
      ZerosValue(k - 1);
    }
  }

  /** `format(n, "0{width}d")` for `n >= 0`: zeros on the left up to
      `width` characters, never truncated, and the value is kept. */
  function ZeroPad(n: nat, width: nat): (s: string)
    ensures AllDigits(s) && DigitsValue(s) == n
    ensures |s| == if width > |NatToString(n)| then width else |NatToString(n)|
    ensures s[|s| - |NatToString(n)|..] == NatToString(n)
  {
    var digits := NatToString(n);
    if |digits| < width then
      LeadingZeros(width - |digits|, digits);
      Zeros(width - |digits|) + digits
    else digits
  }

  /** The padded field is exactly `width` wide whenever `n` fits in it,
      and wider (nothing is cut off) when it does not. */
  lemma ZeroPadWidth(n: nat, width: nat)
    requires width >= 1
    ensures n < Pow10(width) <==> |ZeroPad(n, width)| == width
    ensures n >= Pow10(width) ==> |ZeroPad(n, width)| > width
  {
    NatToStringLength(n, width);
  }

  /** A number below `10^width` fills its field exactly. */
  lemma PadFits(n: nat, width: nat)
    requires width >= 1 && n < Pow10(width)
    ensures |ZeroPad(n, width)| == width && Denotes(ZeroPad(n, width), n)
  {
    ZeroPadWidth(n, width);
  }

  lemma Pow10Values()
    ensures Pow10(2) == 100 && Pow10(3) == 1000
  {
  }

  /** `format(i, "0{width}d")` for any integer: a negative number keeps its
      `-` in front and the zeros go between sign and digits. */
  function FormatInt(i: int, width: nat): (s: string)
    ensures |s| >= width && |s| >= 1
    ensures i >= 0 ==> AllDigits(s) && DigitsValue(s) == i
    ensures i < 0 ==> s[0] == '-' && AllDigits(s[1..]) && DigitsValue(s[1..]) == -i
  {
    if i < 0 then
      var s := "-" + ZeroPad(-i, if width > 0 then width - 1 else 0);
      assert s[1..] == ZeroPad(-i, if width > 0 then width - 1 else 0);
      s
    else ZeroPad(i, width)
  }

  /** For a non-negative integer the format is the plain zero padding. */
  lemma FormatNonNegative(i: int, width: nat)
    requires i >= 0
    ensures FormatInt(i, width) == ZeroPad(i, width)
  {
  }
}
