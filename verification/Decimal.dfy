/**
 The check that a price fits NUMERIC(precision, scale), made by counting digits of its text,
 against the arithmetic it stands for. A price is its plain decimal text: an optional sign,
 digits, and a point with more digits if there are any.
 */
module Decimal {
  import opened Text

  /** strings.TrimLeft(s, "0"). */
  function TrimLeftZeros(s: string): string {
    if s != "" && s[0] == '0' then TrimLeftZeros(s[1..]) else s
  }

  function CountIntegerDigits(integerPart: string): nat {
    |TrimLeftZeros(integerPart)|
  }

  function CountFractionalDigits(fractionalPart: string): nat {
    |TrimZeros(fractionalPart)|
  }

  /** strings.SplitN(s, ".", 2): what lies before and behind the first point, if there is one. */
  function SplitAtPoint(s: string): (parts: seq<string>)
    ensures |parts| == 1 || |parts| == 2
  {
    if s == "" then [""]
    else if s[0] == '.' then ["", s[1..]]
    else
      var rest := SplitAtPoint(s[1..]);
      [[s[0]] + rest[0]] + rest[1..]
  }

  /** strings.TrimPrefix(s, "-"). */
  function Unsigned(text: string): string {
    if text != "" && text[0] == '-' then text[1..] else text
  }

  predicate FitsNumeric(text: string, maxPrecision: int, maxScale: int) {
    var parts := SplitAtPoint(Unsigned(text));
    var integerDigits := CountIntegerDigits(parts[0]);
    var fractionalDigits := if |parts| == 2 then CountFractionalDigits(parts[1]) else 0;
    var maxIntegerDigits := maxPrecision - maxScale;
    integerDigits <= maxIntegerDigits && fractionalDigits <= maxScale
  }

  /** A decimal text: its absolute value is NatValue(whole + fraction) / 10^|fraction|. */
  datatype Decimal = Decimal(negative: bool, whole: string, point: bool, fraction: string)

  predicate WellFormed(d: Decimal) {
    AllDigits(d.whole) && AllDigits(d.fraction) && (d.fraction != "" ==> d.point)
  }

  function TextOf(d: Decimal): string {
    (if d.negative then "-" else "") + d.whole + (if d.point then "." + d.fraction else "")
  }

  function Numerator(d: Decimal): nat
    requires WellFormed(d)
  {
    NatValue(d.whole + d.fraction)
  }

  /** m / 10^scale is the value of d, up to its sign. */
  predicate Scales(m: nat, d: Decimal, scale: nat)
    requires WellFormed(d)
  {
    m * Pow10(|d.fraction|) == Numerator(d) * Pow10(scale)
  }

  /** The value times 10^scale is a whole number, and the value is below 10^(precision - scale). */
  ghost predicate WithinNumeric(d: Decimal, precision: nat, scale: nat)
    requires WellFormed(d) && scale <= precision
  {
    && (exists m: nat :: Scales(m, d, scale))
    && Numerator(d) < Pow10(precision - scale) * Pow10(|d.fraction|)
  }

  /** NUMERIC(precision, scale) holds m / 10^scale for every whole m of at most precision digits. */
  ghost predicate StoredExactly(d: Decimal, precision: nat, scale: nat)
    requires WellFormed(d)
  {
    exists m: nat :: Scales(m, d, scale) && m < Pow10(precision)
  }

  // ----- The text -----

  lemma {:induction false} SplitDigits(digits: string, rest: string)
    requires AllDigits(digits) && (rest == "" || rest[0] == '.')
    ensures SplitAtPoint(digits + rest) == if rest == "" then [digits] else [digits, rest[1..]]
  {
    if digits == "" {
      assert digits + rest == rest;
    } else {
      SplitDigits(digits[1..], rest);
      assert (digits + rest)[1..] == digits[1..] + rest;
      assert digits == [digits[0]] + digits[1..];
    }
  }

  lemma SignStripped(d: Decimal)
    requires WellFormed(d)
    ensures Unsigned(TextOf(d)) == d.whole + (if d.point then "." + d.fraction else "")
  {
    var raw := d.whole + (if d.point then "." + d.fraction else "");
    if d.negative {
      assert TextOf(d) == "-" + raw;
    } else {
      assert TextOf(d) == raw;
      assert d.whole != "" ==> raw[0] == d.whole[0];
    }
  }

  lemma FitsByDigits(d: Decimal, precision: int, scale: int)
    requires WellFormed(d)
    ensures FitsNumeric(TextOf(d), precision, scale)
            <==> CountIntegerDigits(d.whole) <= precision - scale && CountFractionalDigits(d.fraction) <= scale
  {
    var rest := if d.point then "." + d.fraction else "";
    SignStripped(d);
    SplitDigits(d.whole, rest);
    assert d.point ==> rest[1..] == d.fraction;
  }

  // ----- Digits and powers of ten -----

  lemma LastDigit(whole: string, s: string)
    requires AllDigits(whole) && AllDigits(s) && s != ""
    ensures NatValue(whole + s) == 10 * NatValue(whole + s[..|s| - 1]) + DigitValue(s[|s| - 1])
  {
    assert (whole + s)[..|whole + s| - 1] == whole + s[..|s| - 1];
  }

  lemma TimesTen(v: nat, x: nat, p: nat)
    requires v == x * p
    ensures 10 * v == x * (10 * p)
  {
  }

  lemma {:induction false} NatValueConcat(a: string, b: string)
    requires AllDigits(a) && AllDigits(b)
    ensures NatValue(a + b) == NatValue(a) * Pow10(|b|) + NatValue(b)
  {
    if b == "" {
      assert a + b == a;
    } else {
      var n := |b| - 1;
      NatValueConcat(a, b[..n]);
      LastDigit(a, b);
      TimesTen(NatValue(a) * Pow10(n), NatValue(a), Pow10(n));
      assert Pow10(|b|) == 10 * Pow10(n);
    }
  }

  lemma {:induction false} NatValueBelow(s: string)
    requires AllDigits(s)
    ensures NatValue(s) < Pow10(|s|)
  {
    if s != "" {
      NatValueBelow(s[..|s| - 1]);
    }
  }

  lemma {:induction false} TrimLeftKeepsValue(s: string)
    requires AllDigits(s)
    ensures AllDigits(TrimLeftZeros(s)) && NatValue(TrimLeftZeros(s)) == NatValue(s)
    ensures TrimLeftZeros(s) != "" ==> TrimLeftZeros(s)[0] != '0'
  {
    if s != "" && s[0] == '0' {
      TrimLeftKeepsValue(s[1..]);
      NatValueConcat([s[0]], s[1..]);
      assert [s[0]] + s[1..] == s;
      assert [s[0]][..0] == "";
      assert NatValue([s[0]]) == 0;
    }
  }

  lemma {:induction false} LeadingDigit(s: string)
    requires AllDigits(s) && s != "" && s[0] != '0'
    ensures NatValue(s) >= Pow10(|s| - 1)
  {
    var n := |s| - 1;
    if n == 0 {
      assert s[..0] == "";
    } else {
      LeadingDigit(s[..n]);
      assert Pow10(n) == 10 * Pow10(n - 1);
    }
  }

  /** The digits without leading zeros are counted right: at most k of them exactly below 10^k. */
  lemma DigitsBound(s: string, k: nat)
    requires AllDigits(s)
    ensures |TrimLeftZeros(s)| <= k <==> NatValue(s) < Pow10(k)
  {
    TrimLeftKeepsValue(s);
    var t := TrimLeftZeros(s);
    if |t| <= k {
      NatValueBelow(t);
      Pow10Grows(|t|, k);
    } else {
      LeadingDigit(t);
      Pow10Grows(k, |t| - 1);
    }
  }

  /** Trimming zeros from a fraction divides by a power of ten, until the last digit is not zero. */
  lemma {:induction false} TrimRightDivides(whole: string, s: string)
    requires AllDigits(whole) && AllDigits(s)
    ensures |TrimZeros(s)| <= |s| && AllDigits(TrimZeros(s))
    ensures NatValue(whole + s) == NatValue(whole + TrimZeros(s)) * Pow10(|s| - |TrimZeros(s)|)
    ensures TrimZeros(s) != "" ==> NatValue(whole + TrimZeros(s)) % 10 != 0
  {
    if s != "" {
      var n := |s| - 1;
      LastDigit(whole, s);
      if s[n] == '0' {
        TrimRightDivides(whole, s[..n]);
        var t := TrimZeros(s[..n]);
        TimesTen(NatValue(whole + s[..n]), NatValue(whole + t), Pow10(n - |t|));
        assert Pow10(|s| - |t|) == 10 * Pow10(n - |t|);
      }
    }
  }

  // ----- The check is arithmetic -----

  /** The value times 10^scale is whole exactly when at most scale digits of the fraction are left. */
  lemma WholeWhenScaled(d: Decimal, scale: nat)
    requires WellFormed(d)
    ensures |TrimZeros(d.fraction)| <= scale <==> exists m: nat :: Scales(m, d, scale)
  {
    if |TrimZeros(d.fraction)| <= scale {
      var m := ScaledNumerator(d, scale);
    } else {
      forall m: nat ensures !Scales(m, d, scale) {
        NeverScales(d, scale, m);
      }
    }
  }

  lemma ScaledNumerator(d: Decimal, scale: nat) returns (m: nat)
    requires WellFormed(d) && |TrimZeros(d.fraction)| <= scale
    ensures Scales(m, d, scale)
  {
    var f, g := |d.fraction|, |TrimZeros(d.fraction)|;
    TrimRightDivides(d.whole, d.fraction);
    var n := NatValue(d.whole + TrimZeros(d.fraction));
    Pow10Sum(f - g, g);
    Pow10Sum(g, scale - g);
    var a, b, c := Pow10(scale - g), Pow10(f - g), Pow10(g);
    assert Pow10(f) == b * c && Pow10(scale) == c * a && Numerator(d) == n * b;
    m := n * a;
    Regroup(n, a, b, c);
  }

  lemma NeverScales(d: Decimal, scale: nat, m: nat)
    requires WellFormed(d) && |TrimZeros(d.fraction)| > scale
    ensures !Scales(m, d, scale)
  {
    var f, g := |d.fraction|, |TrimZeros(d.fraction)|;
    TrimRightDivides(d.whole, d.fraction);
    var n := NatValue(d.whole + TrimZeros(d.fraction));
    Pow10Sum(f - g, g);
    Pow10Sum(scale, g - scale);
    var a, b := Pow10(f - g), Pow10(scale);
    assert Pow10(f) == a * (b * Pow10(g - scale)) && Numerator(d) == n * a;
    NotWhole(m, n, a, b, g - scale);
  }

  lemma Regroup(n: nat, a: nat, b: nat, c: nat)
    ensures n * a * (b * c) == n * b * (c * a)
  {
    assert n * a * (b * c) == n * (a * (b * c));
    assert n * b * (c * a) == n * (b * (c * a));
    assert a * (b * c) == b * (c * a) by {
      assert a * (b * c) == (b * c) * a;
    }
  }

  lemma NotWhole(m: nat, n: nat, a: nat, b: nat, k: nat)
    requires n % 10 != 0 && a > 0 && b > 0 && k > 0
    ensures m * (a * (b * Pow10(k))) != n * a * b
  {
    var c := a * b;
    assert c > 0;
    assert m * (a * (b * Pow10(k))) == (m * Pow10(k)) * c by {
      assert a * (b * Pow10(k)) == Pow10(k) * c;
    }
    assert n * a * b == n * c;
    assert m * Pow10(k) == 10 * (m * Pow10(k - 1)) by {
      assert Pow10(k) == 10 * Pow10(k - 1);
    }
    if (m * Pow10(k)) * c == n * c {
      Cancel(m * Pow10(k), n, c);
    }
  }

  lemma Cancel(x: int, y: int, c: nat)
    requires c > 0 && x * c == y * c
    ensures x == y
  {
    assert (x - y) * c == 0;
  }

  /** The value is below 10^k exactly when its whole part is. */
  lemma WholePartBound(d: Decimal, k: nat)
    requires WellFormed(d)
    ensures NatValue(d.whole) < Pow10(k) <==> Numerator(d) < Pow10(k) * Pow10(|d.fraction|)
  {
    NatValueConcat(d.whole, d.fraction);
    NatValueBelow(d.fraction);
    BoundByWhole(NatValue(d.whole), Pow10(k), Pow10(|d.fraction|), NatValue(d.fraction));
  }

  lemma BoundByWhole(w: nat, p: nat, u: nat, r: nat)
    requires r < u
    ensures w < p <==> w * u + r < p * u
  {
    if w < p {
      TimesMonotone(w + 1, p, u);
      assert (w + 1) * u == w * u + u;
    } else {
      TimesMonotone(p, w, u);
    }
  }

  /**
   With any leading and trailing zeros, the check holds exactly when the value times 10^scale is a
   whole number and the value is below 10^(precision - scale).
   */
  lemma FitsIsArithmetic(d: Decimal, precision: int, scale: int)
    requires WellFormed(d)
    ensures FitsNumeric(TextOf(d), precision, scale) <==> 0 <= scale <= precision && WithinNumeric(d, precision, scale)
  {
    FitsByDigits(d, precision, scale);
    if 0 <= scale <= precision {
      CountsAreArithmetic(d, precision, scale);
    }
  }

  lemma CountsAreArithmetic(d: Decimal, precision: nat, scale: nat)
    requires WellFormed(d) && scale <= precision
    ensures CountIntegerDigits(d.whole) <= precision - scale && CountFractionalDigits(d.fraction) <= scale
            <==> WithinNumeric(d, precision, scale)
  {
    WholeWhenScaled(d, scale);
    DigitsBound(d.whole, precision - scale);
    WholePartBound(d, precision - scale);
  }

  /** An accepted price is stored without loss in NUMERIC(precision, scale), and no other one could be. */
  lemma AcceptedIsStoredExactly(d: Decimal, precision: nat, scale: nat)
    requires WellFormed(d) && scale <= precision
    ensures FitsNumeric(TextOf(d), precision, scale) <==> StoredExactly(d, precision, scale)
  {
    FitsIsArithmetic(d, precision, scale);
    forall m: nat | Scales(m, d, scale)
      ensures m < Pow10(precision) <==> Numerator(d) < Pow10(precision - scale) * Pow10(|d.fraction|)
    {
      ScaledBound(d, precision, scale, m);
    }
  }

  lemma ScaledBound(d: Decimal, precision: nat, scale: nat, m: nat)
    requires WellFormed(d) && scale <= precision && Scales(m, d, scale)
    ensures m < Pow10(precision) <==> Numerator(d) < Pow10(precision - scale) * Pow10(|d.fraction|)
  {
    Pow10Sum(precision - scale, scale);
    BoundScaled(m, Numerator(d), Pow10(precision - scale), Pow10(scale), Pow10(|d.fraction|));
  }

  lemma BoundScaled(m: nat, n: nat, k: nat, s: nat, f: nat)
    requires m * f == n * s && s > 0 && f > 0
    ensures m < k * s <==> n < k * f
  {
    assert (k * s) * f == (k * f) * s;
    TimesStrict(m, k * s, f);
    TimesStrict(n, k * f, s);
  }

  lemma TimesStrict(a: nat, b: nat, c: nat)
    requires c > 0
    ensures a < b <==> a * c < b * c
  {
    if a < b {
      TimesMonotone(a + 1, b, c);
      assert (a + 1) * c == a * c + c;
    } else {
      TimesMonotone(b, a, c);
    }
  }
}
