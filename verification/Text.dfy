/**
 Decimal text of integers: strconv.Itoa, strconv.FormatInt and the %d verb on the
 writing side, strconv.ParseInt(_, 10, 64) on the reading side.
 */
module Text {
  import opened Wrappers

  const INT64_BOUND := 0x8000_0000_0000_0000

  predicate IsDigit(c: char) {
    '0' <= c <= '9'
  }

  predicate AllDigits(s: string) {
    forall i | 0 <= i < |s| :: IsDigit(s[i])
  }

  function Digit(d: nat): (c: char)
    requires d < 10
    ensures IsDigit(c)
  {
    '0' + d as char
  }

  function DigitValue(c: char): (d: nat)
    requires IsDigit(c)
    ensures d < 10
  {
    (c - '0') as nat
  }

  function NatText(n: nat): (s: string)
    ensures s != ""
  {
    if n < 10 then [Digit(n)] else NatText(n / 10) + [Digit(n % 10)]
  }

  function IntText(n: int): (s: string) {
    if n < 0 then "-" + NatText(-n) else NatText(n)
  }

  /** The number written by a sequence of digits, most significant first. */
  function NatValue(s: string): (n: nat)
    requires AllDigits(s)
  {
    if s == "" then 0 else 10 * NatValue(s[..|s| - 1]) + DigitValue(s[|s| - 1])
  }

  function Pow10(n: nat): (p: nat)
    ensures p > 0
  {
    if n == 0 then 1 else 10 * Pow10(n - 1)
  }

  /** strings.TrimRight(s, "0"). */
  function TrimZeros(s: string): string {
    if s != "" && s[|s| - 1] == '0' then TrimZeros(s[..|s| - 1]) else s
  }

  /** strconv.ParseInt(s, 10, 64): an optional sign, at least one digit, in the int64 range. */
  function ParseInt(s: string): (n: Option<int>) {
    var signed := s != "" && (s[0] == '-' || s[0] == '+');
    var digits := if signed then s[1..] else s;
    if digits == "" || !AllDigits(digits) then None
    else
      var magnitude: int := NatValue(digits);
      var value := if signed && s[0] == '-' then -magnitude else magnitude;
      if -INT64_BOUND <= value < INT64_BOUND then Some(value) else None
  }

  lemma {:induction false} NatTextDigits(n: nat)
    ensures |NatText(n)| > 0 && AllDigits(NatText(n))
  {
    if n >= 10 {
      NatTextDigits(n / 10);
    }
  }

  lemma {:induction false} NatTextValue(n: nat)
    ensures AllDigits(NatText(n)) && NatValue(NatText(n)) == n
  {
    NatTextDigits(n);
    if n >= 10 {
      NatTextValue(n / 10);
      assert NatText(n)[..|NatText(n)| - 1] == NatText(n / 10);
    } else {
      assert NatText(n)[..0] == "";
    }
  }

  /** Reading back what Itoa wrote gives the same int64. */
  lemma ParseIntText(n: int)
    requires -INT64_BOUND <= n < INT64_BOUND
    ensures ParseInt(IntText(n)) == Some(n)
  {
    var m := if n < 0 then -n else n;
    NatTextDigits(m);
    NatTextValue(m);
    assert n < 0 ==> IntText(n)[1..] == NatText(m);
    assert IsDigit(NatText(m)[0]);
  }

  /** Only an int64 is read, and only from a text with digits in it. */
  lemma ParseIntReadsInt64(s: string)
    ensures ParseInt(s).Some? ==>
              && -0x8000_0000_0000_0000 <= ParseInt(s).value < 0x8000_0000_0000_0000
              && s != "" && s != "-" && s != "+" && IsDigit(s[|s| - 1])
  {
  }

  /** A sign only for negative numbers, then digits without leading zeros. */
  lemma IntTextCanonical(n: int)
    ensures n >= 0 ==> AllDigits(IntText(n)) && IntText(n) != "" && (IntText(n)[0] == '0' ==> IntText(n) == "0" && n == 0)
    ensures n < 0 ==> IntText(n)[0] == '-' && IntText(n)[1..] == IntText(-n)
  {
    if n >= 0 {
      NatTextDigits(n);
      NoLeadingZero(n);
    }
  }

  lemma {:induction false} NoLeadingZero(n: nat)
    ensures NatText(n)[0] == '0' ==> n == 0
  {
    if n >= 10 {
      NoLeadingZero(n / 10);
    }
  }

  lemma IntTextInjective(a: int, b: int)
    requires IntText(a) == IntText(b)
    ensures a == b
  {
    var m, n := if a < 0 then -a else a, if b < 0 then -b else b;
    NatTextDigits(m);
    NatTextDigits(n);
    assert IsDigit(NatText(m)[0]) && IsDigit(NatText(n)[0]);
    if a < 0 {
      assert IntText(a)[1..] == NatText(m);
    }
    if b < 0 {
      assert IntText(b)[1..] == NatText(n);
    }
    NatTextValue(m);
    NatTextValue(n);
  }

  // ----- Powers of ten -----

  lemma TimesMonotone(a: nat, b: nat, c: nat)
    requires a <= b
    ensures a * c <= b * c
  {
    assert (b - a) * c >= 0;
  }

  lemma {:induction false} Pow10Sum(a: nat, b: nat)
    ensures Pow10(a + b) == Pow10(a) * Pow10(b)
  {
    if a > 0 {
      Pow10Sum(a - 1, b);
      assert Pow10(a) == 10 * Pow10(a - 1);
    }
  }

  lemma Pow10Grows(a: nat, b: nat)
    requires a <= b
    ensures Pow10(a) <= Pow10(b)
  {
    Pow10Sum(a, b - a);
    TimesMonotone(1, Pow10(b - a), Pow10(a));
  }
}
