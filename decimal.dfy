/** The two pieces of JavaScript's string library the readout relies on:
    `String(n)` for a non-negative integer n (its plain decimal form) and
    `String.prototype.padStart`. A decimal parser is the partner that the
    round-trip lemmas are stated against. */
module Decimal {

  predicate IsDigit(c: char) {
    '0' <= c <= '9'
  }

  predicate AllDigits(s: string) {
    forall i :: 0 <= i < |s| ==> IsDigit(s[i])
  }

  function DigitChar(d: nat): (c: char)
    requires d < 10
    ensures IsDigit(c)
  {
    (('0' as int) + d) as char
  }

  function DigitValue(c: char): (d: nat)
    requires IsDigit(c)
    ensures d < 10
  {
    (c as int) - ('0' as int)
  }

  lemma DigitRoundTrip(d: nat)
    requires d < 10
    ensures DigitValue(DigitChar(d)) == d
  {
  }

  function Pow10(k: nat): (p: nat)
    ensures p >= 1
  {
    if k == 0 then 1 else 10 * Pow10(k - 1)
  }

  /** Number of digits of n written in base ten, without leading zeros. */
  function NumDigits(n: nat): (k: nat)
    ensures k >= 1
    ensures n < Pow10(k)
    ensures k > 1 ==> Pow10(k - 1) <= n
  {
    if n < 10 then 1 else 1 + NumDigits(n / 10)
  }

  /** `String(n)` for a non-negative integer n. */
  function ToDecimal(n: nat): (s: string)
    ensures |s| == NumDigits(n)
    ensures AllDigits(s)
    ensures (s[0] == '0') <==> n == 0
  {
    if n < 10 then [DigitChar(n)] else ToDecimal(n / 10) + [DigitChar(n % 10)]
  }

  /** Reads a string of decimal digits as a number; leading zeros are allowed. */
  function ParseDecimal(s: string): (n: nat)
    requires AllDigits(s)
    ensures n < Pow10(|s|)
  {
    if s == [] then 0 else ParseDecimal(s[..|s| - 1]) * 10 + DigitValue(s[|s| - 1])
  }

  lemma {:induction false} ParseToDecimal(n: nat)
    ensures ParseDecimal(ToDecimal(n)) == n
  {
    var s := ToDecimal(n);
    if n < 10 {
      DigitRoundTrip(n);
    } else {
      ParseToDecimal(n / 10);
      assert s[..|s| - 1] == ToDecimal(n / 10);
      DigitRoundTrip(n % 10);
    }
  }

  /** Two naturals with the same decimal form are equal. */
  lemma ToDecimalInjective(m: nat, n: nat)
    requires ToDecimal(m) == ToDecimal(n)
    ensures m == n
  {
    ParseToDecimal(m);
    ParseToDecimal(n);
  }

  /** Leading zeros do not change the value read. */
  lemma {:induction false} ParseIgnoresLeadingZero(s: string)
    requires AllDigits(s)
    ensures AllDigits(['0'] + s) && ParseDecimal(['0'] + s) == ParseDecimal(s)
  {
    var t := ['0'] + s;
    assert AllDigits(t) by {
      forall i | 0 <= i < |t| ensures IsDigit(t[i]) {
        if i > 0 { assert t[i] == s[i - 1]; }
      }
    }
    if s != [] {
      var init := s[..|s| - 1];
      assert AllDigits(init) by {
        forall i | 0 <= i < |init| ensures IsDigit(init[i]) { assert init[i] == s[i]; }
      }
      ParseIgnoresLeadingZero(init);
      assert t[..|t| - 1] == ['0'] + init;
      assert t[|t| - 1] == s[|s| - 1];
    }
  }

  /** The first k characters of `pad` repeated, as `padStart` uses for its filler. */
  function Filler(pad: string, k: nat): (r: string)
    requires pad != ""
    ensures |r| == k
    ensures forall i :: 0 <= i < k ==> r[i] == pad[i % |pad|]
  {
    seq(k, i requires 0 <= i < k => pad[i % |pad|])
  }

  function Max(a: int, b: int): int {
    if a < b then b else a
  }

  /** `s.padStart(targetLength, pad)`: s is returned as it is when it is at least
      targetLength long or pad is empty; otherwise the filler is put in front.
      Its contract gives the length; PadStartParts gives the contents. */
  function PadStart(s: string, targetLength: int, pad: string): (r: string)
    ensures pad != "" ==> |r| == Max(|s|, targetLength)
    ensures pad == "" ==> r == s
  {
    if targetLength <= |s| || pad == "" then s else Filler(pad, targetLength - |s|) + s
  }

  /** The padded string ends with s, and everything `padStart` puts in front
      of s is taken from pad, cycling through it from its first character. */
  lemma PadStartParts(s: string, targetLength: int, pad: string)
    ensures var r := PadStart(s, targetLength, pad);
      && |s| <= |r|
      && r[|r| - |s|..] == s
      && forall i :: 0 <= i < |r| - |s| ==> pad != "" && r[i] == pad[i % |pad|]
  {
  }
}
