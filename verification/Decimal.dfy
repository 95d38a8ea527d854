/** Decimal numerals: how the program prints a number and reads it back. */
module Decimal {

  predicate IsDigit(c: char) {
    '0' <= c <= '9'
  }

  predicate AllDigits(s: string) {
    forall i :: 0 <= i < |s| ==> IsDigit(s[i])
  }

  function DigitChar(d: nat): (c: char)
    requires d < 10
    ensures IsDigit(c) && (c as int) - ('0' as int) == d
  {
    '0' + (d as char)
  }

  function Digits(n: nat): (s: string)
    ensures |s| > 0 && AllDigits(s)
  {
    if n < 10 then [DigitChar(n)] else Digits(n / 10) + [DigitChar(n % 10)]
  }

  /** The number that a run of digits denotes; leading zeros do not count. */
  function Value(s: string): nat
    requires AllDigits(s)
  {
    if s == "" then 0 else Value(s[..|s| - 1]) * 10 + ((s[|s| - 1] as int) - ('0' as int))
  }

  function Zeros(n: nat): (s: string)
    ensures |s| == n && AllDigits(s)
  {
    seq(n, _ => '0')
  }

  /** `n` printed with at least `width` digits. */
  function Padded(n: nat, width: nat): (s: string)
    ensures |s| > 0 && AllDigits(s)
  {
    var s := Digits(n);
    if |s| < width then Zeros(width - |s|) + s else s
  }

  lemma {:induction false} ValueOfDigits(n: nat)
    ensures Value(Digits(n)) == n
  {
    if n >= 10 {
      ValueOfDigits(n / 10);
      assert Digits(n)[..|Digits(n)| - 1] == Digits(n / 10);
    }
  }

  lemma {:induction false} LeadingZeros(k: nat, s: string)
    requires AllDigits(s)
    ensures AllDigits(Zeros(k) + s) && Value(Zeros(k) + s) == Value(s)
  {
    if s != "" {
      LeadingZeros(k, s[..|s| - 1]);
      assert (Zeros(k) + s)[..k + |s| - 1] == Zeros(k) + s[..|s| - 1];
    } else if k > 0 {
      LeadingZeros(k - 1, "");
      assert Zeros(k) + "" == Zeros(k);
      assert Zeros(k)[..k - 1] == Zeros(k - 1) + "";
    }
  }

  lemma ValueOfPadded(n: nat, width: nat)
    ensures Value(Padded(n, width)) == n
  {
    ValueOfDigits(n);
    if |Digits(n)| < width { LeadingZeros(width - |Digits(n)|, Digits(n)); }
  }

  lemma ZerosMore(n: nat)
    ensures Zeros(n + 1) == Zeros(n) + "0"
  {}

  /** One more digit behind a number that is padded. */
  lemma PaddedMore(v: nat, d: nat, n: nat)
    requires d < 10 && n > 0 && |Digits(v)| <= n
    ensures Padded(10 * v + d, n + 1) == Padded(v, n) + [DigitChar(d)]
  {
    if v == 0 {
      ZerosMore(n - 1);
      assert Digits(d) == [DigitChar(d)];
    } else {
      assert Digits(10 * v + d) == Digits(v) + [DigitChar(d)];
    }
  }

  lemma {:induction false} DigitsFit(s: string)
    requires s != "" && AllDigits(s)
    ensures |Digits(Value(s))| <= |s|
  {
    var n := |s| - 1;
    assert IsDigit(s[n]);
    if n > 0 { DigitsFit(s[..n]); } else { assert s[..0] == ""; }
  }

  /** Every run of digits is its number, padded to the length of the run. */
  lemma {:induction false} PaddedOfValue(s: string)
    requires s != "" && AllDigits(s)
    ensures Padded(Value(s), |s|) == s
  {
    hide Padded, Digits;
    var n := |s| - 1;
    assert s == s[..n] + [s[n]] && IsDigit(s[n]);
    if n > 0 {
      PaddedOfValue(s[..n]);
      DigitsFit(s[..n]);
      PaddedMore(Value(s[..n]), (s[n] as int) - ('0' as int), n);
    } else {
      PaddedDigit(s[0]);
      assert s[..0] == "";
    }
  }

  lemma PaddedDigit(c: char)
    requires IsDigit(c)
    ensures Padded((c as int) - ('0' as int), 1) == [c]
  {}

  lemma DigitsInjective(m: nat, n: nat)
    requires Digits(m) == Digits(n)
    ensures m == n
  {
    ValueOfDigits(m);
    ValueOfDigits(n);
  }

  function PowerOfTen(k: nat): (p: nat)
    ensures p > 0
  {
    if k == 0 then 1 else 10 * PowerOfTen(k - 1)
  }

  lemma {:induction false} DigitsShort(n: nat, k: nat)
    requires k > 0 && n < PowerOfTen(k)
    ensures |Digits(n)| <= k
  {
    if n >= 10 {
      assert k > 1;
      DigitsShort(n / 10, k - 1);
    }
  }

  lemma {:induction false} DigitsLong(n: nat, k: nat)
    requires n >= PowerOfTen(k)
    ensures |Digits(n)| > k
  {
    if k > 0 { DigitsLong(n / 10, k - 1); }
  }
}
