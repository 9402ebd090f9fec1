/** Printing natural numbers in decimal, plain and zero-padded. */
module Decimal {
  const ZERO := '0'

  function Digit(d: nat): char
    requires d < 10
  {
    ZERO + d as char
  }

  function DigitValue(c: char): int { c as int - ZERO as int }

  function Digits(n: nat): (s: string)
    ensures |s| > 0 && forall i :: 0 <= i < |s| ==> '0' <= s[i] <= '9'
  {
    if n < 10 then [Digit(n)] else Digits(n / 10) + [Digit(n % 10)]
  }

  function Zeros(k: nat): (s: string)
    ensures |s| == k && forall i :: 0 <= i < k ==> s[i] == '0'
  {
    seq(k, _ => '0')
  }

  /** `f"{n:0{width}d}"`: at least `width` characters, more when the number needs them. */
  function Padded(n: nat, width: nat): string {
    var s := Digits(n);
    if |s| < width then Zeros(width - |s|) + s else s
  }

  /** The number a digit string denotes. */
  function Value(s: string): int {
    if s == "" then 0 else 10 * Value(s[..|s| - 1]) + DigitValue(s[|s| - 1])
  }

  lemma {:induction false} ValueOfDigits(n: nat)
    ensures Value(Digits(n)) == n
  {
    if n < 10 {
      assert Digits(n)[..0] == "";
    } else {
      ValueOfDigits(n / 10);
      assert Digits(n)[..|Digits(n)| - 1] == Digits(n / 10);
    }
  }

  lemma {:induction false} LeadingZeros(k: nat, s: string)
    ensures Value(Zeros(k) + s) == Value(s)
  {
    if s == "" {
      assert Zeros(k) + s == Zeros(k);
      if k > 0 {
        assert Zeros(k)[..k - 1] == Zeros(k - 1) + "";
        LeadingZeros(k - 1, "");
        assert Zeros(k - 1) + "" == Zeros(k - 1);
      }
    } else {
      LeadingZeros(k, s[..|s| - 1]);
      assert (Zeros(k) + s)[..k + |s| - 1] == Zeros(k) + s[..|s| - 1];
    }
  }

  /** Padding loses nothing, so padded printing is injective, numbers wider than the padding included. */
  lemma ValueOfPadded(n: nat, width: nat)
    ensures Value(Padded(n, width)) == n
  {
    ValueOfDigits(n);
    LeadingZeros(if |Digits(n)| < width then width - |Digits(n)| else 0, Digits(n));
  }

  /** The last two digits: the final characters of a number of at least two digits. */
  lemma LastTwoDigits(n: nat)
    requires n >= 10
    ensures var s := Digits(n); |s| >= 2 && s[|s| - 2..] == [Digit(n / 10 % 10), Digit(n % 10)]
  {
    var s := Digits(n);
    assert s == Digits(n / 10) + [Digit(n % 10)];
  }
}
