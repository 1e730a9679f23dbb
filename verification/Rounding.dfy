/** Whole numbers rounded to 14 significant digits, half to even, as %.14g writes them. */
module Rounding {
  import opened Text

  function Abs(n: int): nat {
    if n < 0 then -n else n
  }

  /** The unit of the last of 14 significant digits. */
  function Unit(n: nat): (unit: nat)
    ensures unit > 0
  {
    if |NatText(n)| > 14 then Pow10(|NatText(n)| - 14) else 1
  }

  /** How many units n rounds to, half to even. */
  function Count(n: nat, unit: nat): (count: nat)
    requires unit > 0
    ensures n / unit <= count <= n / unit + 1
  {
    if 2 * (n % unit) > unit || (2 * (n % unit) == unit && n / unit % 2 == 1) then n / unit + 1 else n / unit
  }

  function ToMultiple(n: nat, unit: nat): nat
    requires unit > 0
  {
    Count(n, unit) * unit
  }

  function RoundedNat(n: nat): nat {
    ToMultiple(n, Unit(n))
  }

  function Rounded(n: int): int {
    if n < 0 then -(RoundedNat(Abs(n)) as int) else RoundedNat(n)
  }

  /** At most 14 significant digits. */
  predicate FourteenDigits(n: int) {
    Abs(n) % Unit(Abs(n)) == 0
  }

  // ----- Multiples -----

  lemma NextMultiple(a: nat, b: nat, c: nat)
    requires a < b
    ensures a * c + c <= b * c
  {
    TimesMonotone(a + 1, b, c);
    assert (a + 1) * c == a * c + c;
  }

  lemma QuotientRemainder(n: nat, q: nat, r: nat, unit: nat)
    requires unit > 0 && r < unit && n == q * unit + r
    ensures n / unit == q && n % unit == r
  {
    var q', r' := n / unit, n % unit;
    assert n == q' * unit + r';
    if q < q' {
      NextMultiple(q, q', unit);
    } else if q' < q {
      NextMultiple(q', q, unit);
    }
  }

  lemma QuotientAtLeast(n: nat, p: nat, unit: nat)
    requires unit > 0 && p * unit <= n
    ensures p <= n / unit
  {
    var q := n / unit;
    assert n == q * unit + n % unit;
    if q < p {
      NextMultiple(q, p, unit);
    }
  }

  lemma CountOfMultiple(p: nat, unit: nat)
    requires unit > 0
    ensures p * unit % unit == 0 && Count(p * unit, unit) == p
  {
    QuotientRemainder(p * unit, p, 0, unit);
  }

  lemma CountMonotone(a: nat, b: nat, unit: nat)
    requires unit > 0 && a <= b
    ensures Count(a, unit) <= Count(b, unit)
  {
    var q := a / unit;
    assert a == q * unit + a % unit && b == b / unit * unit + b % unit;
    QuotientAtLeast(b, q, unit);
  }

  lemma MultipleMonotone(a: nat, b: nat, unit: nat)
    requires unit > 0 && a <= b
    ensures ToMultiple(a, unit) <= ToMultiple(b, unit)
  {
    CountMonotone(a, b, unit);
    TimesMonotone(Count(a, unit), Count(b, unit), unit);
  }

  lemma MultipleStays(p: nat, unit: nat)
    requires unit > 0
    ensures p * unit % unit == 0 && ToMultiple(p * unit, unit) == p * unit
  {
    CountOfMultiple(p, unit);
  }

  // ----- Digits -----

  lemma {:induction false} NatTextBounds(n: nat)
    ensures n < Pow10(|NatText(n)|)
    ensures n > 0 ==> Pow10(|NatText(n)| - 1) <= n
  {
    if n >= 10 {
      NatTextBounds(n / 10);
    } else {
      assert Pow10(1) == 10 * Pow10(0);
    }
  }

  /** The unit of n divides every power of ten that is not below n's first digit. */
  lemma UnitDividesPower(n: nat, d: nat) returns (p: nat)
    requires |NatText(n)| - 1 <= d
    ensures p * Unit(n) == Pow10(d)
  {
    if |NatText(n)| > 14 {
      var e := |NatText(n)| - 14;
      p := Pow10(d - e);
      Pow10Sum(d - e, e);
    } else {
      p := Pow10(d);
    }
  }

  lemma MoreDigits(a: nat, b: nat)
    requires a <= b
    ensures |NatText(a)| <= |NatText(b)|
  {
    NatTextBounds(a);
    NatTextBounds(b);
    var c, d := |NatText(a)| - 1, |NatText(b)|;
    if d <= c {
      Pow10Grows(d, c);
    }
  }

  /** Rounding stays within the powers of ten around a number. */
  lemma RoundedBounds(n: nat)
    requires n > 0
    ensures Pow10(|NatText(n)| - 1) <= RoundedNat(n) <= Pow10(|NatText(n)|)
  {
    NatTextBounds(n);
    var p := UnitDividesPower(n, |NatText(n)| - 1);
    var q := UnitDividesPower(n, |NatText(n)|);
    MultipleStays(p, Unit(n));
    MultipleStays(q, Unit(n));
    MultipleMonotone(p * Unit(n), n, Unit(n));
    MultipleMonotone(n, q * Unit(n), Unit(n));
  }

  lemma RoundedNatMonotone(a: nat, b: nat)
    requires a <= b
    ensures RoundedNat(a) <= RoundedNat(b)
  {
    MoreDigits(a, b);
    if |NatText(a)| == |NatText(b)| {
      MultipleMonotone(a, b, Unit(a));
    } else if a > 0 {
      RoundedBounds(a);
      RoundedBounds(b);
      Pow10Grows(|NatText(a)|, |NatText(b)| - 1);
    } else {
      assert RoundedNat(0) == 0;
    }
  }

  lemma LengthOf(n: nat, d: nat)
    requires d > 0 && Pow10(d - 1) <= n < Pow10(d)
    ensures |NatText(n)| == d
  {
    NatTextBounds(n);
    var length, before := |NatText(n)|, d - 1;
    var above := length - 1;
    if length <= before {
      Pow10Grows(length, before);
    } else if d <= above {
      Pow10Grows(d, above);
    }
  }

  lemma FourteenDigitsStay(n: nat)
    ensures n % Unit(n) == 0 <==> RoundedNat(n) == n
  {
    var unit := Unit(n);
    assert n == n / unit * unit + n % unit;
    CountOfMultiple(Count(n, unit), unit);
    if n % unit == 0 {
      CountOfMultiple(n / unit, unit);
    }
  }

  /** What was rounded has at most 14 significant digits. */
  lemma RoundedNatStays(n: nat)
    ensures RoundedNat(RoundedNat(n)) == RoundedNat(n)
  {
    var r, d, unit := RoundedNat(n), |NatText(n)|, Unit(n);
    if n == 0 {
      assert r == 0;
    } else {
      RoundedBounds(n);
      if r < Pow10(d) {
        LengthOf(r, d);
        MultipleStays(Count(n, unit), unit);
      } else {
        assert Pow10(d + 1) == 10 * Pow10(d);
        LengthOf(r, d + 1);
        var p := UnitDividesPower(r, d);
        MultipleStays(p, Unit(r));
      }
    }
  }

  lemma RoundedMonotone(a: int, b: int)
    requires a <= b
    ensures Rounded(a) <= Rounded(b)
  {
    if a < 0 && b < 0 {
      RoundedNatMonotone(-b, -a);
    } else if a >= 0 {
      RoundedNatMonotone(a, b);
    }
  }

  lemma RoundedStays(n: int)
    ensures Rounded(Rounded(n)) == Rounded(n)
  {
    RoundedNatStays(Abs(n));
    if n < 0 && RoundedNat(-n) == 0 {
      assert RoundedNat(0) == 0;
    }
  }

  /** Exactly the numbers of at most 14 significant digits are kept. */
  lemma KeptExactly(n: int)
    ensures FourteenDigits(n) <==> Rounded(n) == n
  {
    FourteenDigitsStay(Abs(n));
  }

  // ----- What rounding means -----

  /** Below 10^14 the unit is 1; else it is the power of ten that leaves 14 digits in front of it. */
  lemma UnitLeavesFourteenDigits(n: nat)
    ensures n < 100_000_000_000_000 ==> Unit(n) == 1
    ensures n >= 100_000_000_000_000 ==>
              10_000_000_000_000 * Unit(n) <= n < 100_000_000_000_000 * Unit(n) && exists k: nat :: Unit(n) == Pow10(k)
  {
    var digits := |NatText(n)|;
    NatTextBounds(n);
    FourteenIsThis();
    if n < 100_000_000_000_000 {
      if digits > 14 {
        Pow10Grows(14, digits - 1);
      }
    } else {
      if digits <= 14 {
        Pow10Grows(digits, 14);
      }
      Pow10Sum(14, digits - 14);
      Pow10Sum(13, digits - 14);
    }
  }

  lemma FourteenIsThis()
    ensures Pow10(13) == 10_000_000_000_000 && Pow10(14) == 100_000_000_000_000
  {
    assert Pow10(3) == 1000 by {
      assert Pow10(1) == 10 * Pow10(0) && Pow10(2) == 10 * Pow10(1) && Pow10(3) == 10 * Pow10(2);
    }
    Pow10Sum(3, 3);
    Pow10Sum(6, 6);
    assert Pow10(13) == 10 * Pow10(12) && Pow10(14) == 10 * Pow10(13);
  }

  /** The rounded number is the nearest multiple of the unit, of two equally near ones the even multiple. */
  lemma RoundsToNearest(n: nat) returns (count: nat)
    ensures RoundedNat(n) == count * Unit(n)
    ensures 2 * Distance(n, RoundedNat(n)) <= Unit(n)
    ensures 2 * Distance(n, RoundedNat(n)) == Unit(n) ==> count % 2 == 0
  {
    var unit := Unit(n);
    count := Count(n, unit);
    var q := n / unit;
    assert n == q * unit + n % unit;
    assert (q + 1) * unit == q * unit + unit;
  }

  function Distance(a: nat, b: nat): nat {
    if a < b then b - a else a - b
  }

  /** The sign does not matter. */
  lemma RoundsSymmetrically(n: int)
    ensures Rounded(-n) == -Rounded(n)
    ensures n >= 0 ==> Rounded(n) == RoundedNat(n)
  {
  }
}
