/** Decimal numerals: printing with zero padding, parsing a signed 64-bit number. */
module Decimal {
  import opened Wrappers

  const I64_MIN: int := -0x8000_0000_0000_0000
  const I64_MAX: int := 0x7FFF_FFFF_FFFF_FFFF

  predicate FitsI64(n: int) { I64_MIN <= n <= I64_MAX }

  predicate IsDigit(c: char) { '0' <= c <= '9' }

  predicate AllDigits(s: string) {
    forall k :: 0 <= k < |s| ==> IsDigit(s[k])
  }

  function DigitChar(d: nat): (c: char)
    requires d < 10
    ensures IsDigit(c)
  {
    '0' + d as char
  }

  function DigitValue(c: char): nat
    requires IsDigit(c)
  {
    (c - '0') as nat
  }

  /** The shortest decimal numeral. */
  function Digits(n: nat): (s: string)
    ensures s != "" && AllDigits(s)
  {
    if n < 10 then [DigitChar(n)] else Digits(n / 10) + [DigitChar(n % 10)]
  }

  function ValueOf(s: string): nat
    requires AllDigits(s)
  {
    if s == "" then 0 else ValueOf(s[..|s| - 1]) * 10 + DigitValue(s[|s| - 1])
  }

  lemma {:induction false} ValueOfDigits(n: nat)
    ensures ValueOf(Digits(n)) == n
  {
    if n >= 10 {
      ValueOfDigits(n / 10);
      assert Digits(n)[..|Digits(n)| - 1] == Digits(n / 10);
    }
  }

  lemma DigitsInjective(m: nat, n: nat)
    requires Digits(m) == Digits(n)
    ensures m == n
  {
    ValueOfDigits(m);
    ValueOfDigits(n);
  }

  function Zeros(k: nat): (s: string)
    ensures |s| == k && AllDigits(s)
  {
    if k == 0 then "" else Zeros(k - 1) + "0"
  }

  lemma {:induction false} ValueOfZeros(k: nat)
    ensures ValueOf(Zeros(k)) == 0
  {
    if k > 0 {
      ValueOfZeros(k - 1);
      assert Zeros(k)[..k - 1] == Zeros(k - 1);
    }
  }

  lemma {:induction false} LeadingZeros(k: nat, s: string)
    requires AllDigits(s)
    ensures AllDigits(Zeros(k) + s) && ValueOf(Zeros(k) + s) == ValueOf(s)
  {
    if s == "" {
      ValueOfZeros(k);
      assert Zeros(k) + s == Zeros(k);
    } else {
      LeadingZeros(k, s[..|s| - 1]);
      assert (Zeros(k) + s)[..|Zeros(k) + s| - 1] == Zeros(k) + s[..|s| - 1];
    }
  }

  /** A numeral padded with zeros to a width that counts the sign. */
  function Padded(n: int, width: nat): string {
    var digits := Digits(if n < 0 then -n else n);
    var taken := |digits| + (if n < 0 then 1 else 0);
    (if n < 0 then "-" else "") + Zeros(if taken < width then width - taken else 0) + digits
  }

  /** An optional sign and at least one digit, within the 64-bit range. */
  function ParseI64(s: string): (r: Option<int>)
    ensures r.Some? ==> FitsI64(r.value)
  {
    var body := if s != "" && (s[0] == '+' || s[0] == '-') then s[1..] else s;
    if body == "" || !AllDigits(body) then None
    else
      var n: int := if s[0] == '-' then 0 - ValueOf(body) else ValueOf(body);
      if FitsI64(n) then Some(n) else None
  }

  lemma ParseDigits(s: string)
    requires s != "" && AllDigits(s)
    ensures ParseI64(s) == if ValueOf(s) <= I64_MAX then Some(ValueOf(s)) else None
  {
    assert IsDigit(s[0]);
  }

  /** A non-empty digit string that parses to `n`. */
  predicate IsNumeral(s: string, n: int) {
    s != "" && AllDigits(s) && ParseI64(s) == Some(n)
  }

  lemma PaddedNat(n: nat, width: nat) returns (zeros: nat)
    ensures Padded(n, width) == Zeros(zeros) + Digits(n)
  {
    zeros := if |Digits(n)| < width then width - |Digits(n)| else 0;
    assert "" + Zeros(zeros) == Zeros(zeros);
  }

  /** Printing a natural number and parsing it back. */
  lemma PaddedRoundTrip(n: nat, width: nat)
    requires n <= I64_MAX
    ensures IsNumeral(Padded(n, width), n)
  {
    var zeros := PaddedNat(n, width);
    LeadingZeros(zeros, Digits(n));
    ValueOfDigits(n);
    ParseDigits(Zeros(zeros) + Digits(n));
  }

  lemma {:induction false} DigitsWidth(n: nat)
    ensures n < 100 ==> |Digits(n)| <= 2
    ensures n < 1000 ==> |Digits(n)| <= 3
  {
    if n >= 10 { DigitsWidth(n / 10); }
  }

  /** Two- and three-digit fields have their fixed width. */
  lemma PaddedWidth(n: nat)
    ensures n < 100 ==> |Padded(n, 2)| == 2
    ensures n < 1000 ==> |Padded(n, 3)| == 3
  {
    DigitsWidth(n);
  }
}
