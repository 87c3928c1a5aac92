/** Decimal text of row ids: the digit runs the `#` wildcard of the URI
    matcher accepts, their value as a SQL integer literal, and the text
    `String.valueOf(long)` produces for an id. */
module Decimal {

  predicate IsDigit(c: char) {
    '0' <= c <= '9'
  }

  /** A non-empty run of ASCII decimal digits. */
  predicate IsDigits(s: string) {
    |s| > 0 && forall i :: 0 <= i < |s| ==> IsDigit(s[i])
  }

  /** Digits without a redundant leading zero: the form `Long.toString` writes. */
  predicate Canonical(s: string) {
    IsDigits(s) && (s[0] == '0' ==> |s| == 1)
  }

  function DigitValue(c: char): (d: nat)
    requires IsDigit(c)
    ensures d < 10
  {
    c as int - '0' as int
  }

  function DigitChar(d: nat): (c: char)
    requires d < 10
    ensures IsDigit(c) && DigitValue(c) == d
  {
    ('0' as int + d) as char
  }

  /** The value of a digit string read most significant digit first, as
      SQLite reads the literal in `_id=<digits>`; leading zeros are allowed. */
  function ParseDecimal(s: string): (n: nat)
    requires forall i :: 0 <= i < |s| ==> IsDigit(s[i])
    ensures |s| > 0 && s[0] != '0' ==> n > 0
    decreases |s|
  {
    if |s| == 0 then 0
    else 10 * ParseDecimal(s[..|s| - 1]) + DigitValue(s[|s| - 1])
  }

  /** The shortest decimal text of `n`. */
  function DecimalString(n: nat): (s: string)
    ensures Canonical(s)
    decreases n
  {
    if n < 10 then [DigitChar(n)]
    else DecimalString(n / 10) + [DigitChar(n % 10)]
  }

  /** `String.valueOf(long)`: a minus sign before the digits of a negative value. */
  function SignedDecimal(x: int): (s: string)
    ensures x >= 0 <==> IsDigits(s)
    ensures x < 0 ==> |s| > 1 && s[0] == '-' && Canonical(s[1..])
  {
    if x < 0 then
      var s := "-" + DecimalString(-x);
      assert !IsDigit(s[0]);
      s
    else DecimalString(x)
  }

  lemma {:induction false} ParseOfDecimalString(n: nat)
    ensures ParseDecimal(DecimalString(n)) == n
    decreases n
  {
    var s := DecimalString(n);
    if n >= 10 {
      ParseOfDecimalString(n / 10);
      assert s[..|s| - 1] == DecimalString(n / 10);
      assert s[|s| - 1] == DigitChar(n % 10);
    }
  }

  lemma {:induction false} DecimalStringOfParse(s: string)
    requires Canonical(s)
    ensures DecimalString(ParseDecimal(s)) == s
    decreases |s|
  {
    if |s| == 1 {
      assert DigitChar(DigitValue(s[0])) == s[0];
    } else {
      var prefix := s[..|s| - 1];
      var d := DigitValue(s[|s| - 1]);
      assert prefix[0] == s[0];
      DecimalStringOfParse(prefix);
      var n := ParseDecimal(s);
      assert n == 10 * ParseDecimal(prefix) + d;
      assert n / 10 == ParseDecimal(prefix) && n % 10 == d;
      assert DigitChar(d) == s[|s| - 1];
      assert s == prefix + [s[|s| - 1]];
    }
  }

  /** A leading zero does not change the value of a digit string. */
  lemma {:induction false} LeadingZeroIgnored(s: string)
    requires forall i :: 0 <= i < |s| ==> IsDigit(s[i])
    ensures ParseDecimal("0" + s) == ParseDecimal(s)
    decreases |s|
  {
    if |s| > 0 {
      var t := "0" + s;
      assert t[..|t| - 1] == "0" + s[..|s| - 1];
      assert t[|t| - 1] == s[|s| - 1];
      LeadingZeroIgnored(s[..|s| - 1]);
    }
  }

  /** `k` zero characters. */
  function Zeros(k: nat): (z: string)
    ensures |z| == k && forall i :: 0 <= i < k ==> z[i] == '0'
  {
    seq(k, _ => '0')
  }

  /** Any number of leading zeros before the decimal text of `n` still reads
      as `n`: the digit runs other than the canonical one that denote `n`. */
  lemma {:induction false} LeadingZerosIgnored(k: nat, n: nat)
    ensures IsDigits(Zeros(k) + DecimalString(n))
    ensures ParseDecimal(Zeros(k) + DecimalString(n)) == n
    decreases k
  {
    var s := Zeros(k) + DecimalString(n);
    if k == 0 {
      assert s == DecimalString(n);
      ParseOfDecimalString(n);
    } else {
      var rest := Zeros(k - 1) + DecimalString(n);
      assert s == "0" + rest;
      LeadingZerosIgnored(k - 1, n);
      LeadingZeroIgnored(rest);
    }
  }

  /** Canonical digit strings and naturals are in one-to-one correspondence. */
  lemma DecimalStringCharacterised(n: nat, s: string)
    ensures s == DecimalString(n) <==> Canonical(s) && ParseDecimal(s) == n
  {
    if s == DecimalString(n) {
      ParseOfDecimalString(n);
    }
    if Canonical(s) && ParseDecimal(s) == n {
      DecimalStringOfParse(s);
    }
  }

  lemma DecimalStringInjective(a: nat, b: nat)
    ensures DecimalString(a) == DecimalString(b) ==> a == b
  {
    ParseOfDecimalString(a);
    ParseOfDecimalString(b);
  }

  lemma SignedDecimalInjective(a: int, b: int)
    ensures SignedDecimal(a) == SignedDecimal(b) ==> a == b
  {
    if SignedDecimal(a) == SignedDecimal(b) {
      if a < 0 && b < 0 {
        assert SignedDecimal(a)[1..] == DecimalString(-a);
        assert SignedDecimal(b)[1..] == DecimalString(-b);
        DecimalStringInjective(-a, -b);
      } else if a >= 0 && b >= 0 {
        DecimalStringInjective(a, b);
      }
    }
  }
}
