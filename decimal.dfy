/** `java.math.BigDecimal`, exactly: an unscaled integer and a scale, the
    value being `unscaled * 10^-scale`. Only the operations the services
    use are modelled: `add`, `subtract`, `negate`, `abs`, `compareTo`,
    `setScale(k, RoundingMode.HALF_UP)`, `stripTrailingZeros`,
    `toBigInteger` and `toString`. */
module Decimals {
  import opened Wrappers
  import opened Text

  datatype Decimal = Decimal(unscaled: int, scale: int)

  /** `BigDecimal.ZERO`. */
  const ZERO: Decimal := Decimal(0, 0)

  function Pow10(n: nat): (r: nat)
    ensures r >= 1
  {
    if n == 0 then 1 else 10 * Pow10(n - 1)
  }

  lemma {:induction false} Pow10Add(a: nat, b: nat)
    ensures Pow10(a + b) == Pow10(a) * Pow10(b)
    decreases a
  {
    if a > 0 {
      Pow10Add(a - 1, b);
      assert Pow10(a + b) == 10 * Pow10(a - 1 + b);
    }
  }

  function Max(a: int, b: int): int {
    if a >= b then a else b
  }

  /** `BigDecimal.valueOf(long)`. */
  function OfLong(n: int): Decimal {
    Decimal(n, 0)
  }

  /** The unscaled value `d` has when written at scale `m >= d.scale`. */
  function UnitsAt(d: Decimal, m: int): int
    requires m >= d.scale
  {
    d.unscaled * Pow10(m - d.scale)
  }

  lemma UnitsAtRescale(d: Decimal, m1: int, m2: int)
    requires d.scale <= m1 <= m2
    ensures UnitsAt(d, m2) == UnitsAt(d, m1) * Pow10(m2 - m1)
  {
    Pow10Add(m1 - d.scale, m2 - m1);
    assert Pow10(m2 - d.scale) == Pow10(m1 - d.scale) * Pow10(m2 - m1);
    calc {
      UnitsAt(d, m2);
      d.unscaled * (Pow10(m1 - d.scale) * Pow10(m2 - m1));
      (d.unscaled * Pow10(m1 - d.scale)) * Pow10(m2 - m1);
    }
  }

  /** `a.compareTo(b)`: -1, 0 or 1 by numeric value, whatever the scales. */
  function CompareTo(a: Decimal, b: Decimal): (c: int)
    ensures -1 <= c <= 1
  {
    var m := Max(a.scale, b.scale);
    if UnitsAt(a, m) < UnitsAt(b, m) then -1
    else if UnitsAt(a, m) == UnitsAt(b, m) then 0
    else 1
  }

  /** Numeric equality (`compareTo == 0`); `equals` would also compare scales. */
  predicate SameValue(a: Decimal, b: Decimal) {
    CompareTo(a, b) == 0
  }

  /** `compareTo(BigDecimal.ZERO) > 0` is the sign of the unscaled value. */
  lemma CompareToZero(d: Decimal)
    ensures CompareTo(d, ZERO) > 0 <==> d.unscaled > 0
    ensures CompareTo(d, ZERO) < 0 <==> d.unscaled < 0
  {
    var m := Max(d.scale, 0);
    assert UnitsAt(ZERO, m) == 0 * Pow10(m);
    MultiplyPreservesOrder(0, d.unscaled, Pow10(m - d.scale));
    MultiplyPreservesOrder(d.unscaled, 0, Pow10(m - d.scale));
  }

  lemma SameValueAt(a: Decimal, b: Decimal, m: int)
    requires m >= a.scale && m >= b.scale
    ensures SameValue(a, b) <==> UnitsAt(a, m) == UnitsAt(b, m)
    ensures CompareTo(a, b) < 0 <==> UnitsAt(a, m) < UnitsAt(b, m)
  {
    var k := Max(a.scale, b.scale);
    UnitsAtRescale(a, k, m);
    UnitsAtRescale(b, k, m);
    var p := Pow10(m - k);
    assert UnitsAt(a, m) == UnitsAt(a, k) * p;
    assert UnitsAt(b, m) == UnitsAt(b, k) * p;
    MultiplyPreservesOrder(UnitsAt(a, k), UnitsAt(b, k), p);
  }

  lemma MultiplyPreservesOrder(x: int, y: int, p: int)
    requires p >= 1
    ensures x < y <==> x * p < y * p
    ensures x == y <==> x * p == y * p
  {
    if x < y {
      MultiplyAtLeast(y - x, p);
      assert y * p - x * p == (y - x) * p;
    } else if y < x {
      MultiplyAtLeast(x - y, p);
      assert x * p - y * p == (x - y) * p;
    }
  }

  lemma {:induction false} MultiplyAtLeast(x: int, p: int)
    requires x >= 1 && p >= 0
    ensures x * p >= p
    decreases x
  {
    if x > 1 {
      MultiplyAtLeast(x - 1, p);
      assert x * p == (x - 1) * p + p;
    }
  }

  /** `a.add(b)`: exact, at the larger of the two scales. */
  function Add(a: Decimal, b: Decimal): (r: Decimal)
    ensures r.scale == Max(a.scale, b.scale)
  {
    var m := Max(a.scale, b.scale);
    Decimal(UnitsAt(a, m) + UnitsAt(b, m), m)
  }

  /** `a.negate()`. */
  function Negate(d: Decimal): (r: Decimal)
    ensures r.scale == d.scale && r.unscaled == -d.unscaled
  {
    Decimal(-d.unscaled, d.scale)
  }

  /** `a.subtract(b)`: exact, at the larger of the two scales. */
  function Subtract(a: Decimal, b: Decimal): (r: Decimal)
    ensures r.scale == Max(a.scale, b.scale)
  {
    var m := Max(a.scale, b.scale);
    Decimal(UnitsAt(a, m) - UnitsAt(b, m), m)
  }

  /** Subtracting is adding the negation. */
  lemma SubtractIsAddNegate(a: Decimal, b: Decimal)
    ensures Subtract(a, b) == Add(a, Negate(b))
  {
    var m := Max(a.scale, b.scale);
    assert UnitsAt(Negate(b), m) == -UnitsAt(b, m);
  }

  /** `a.abs()`. */
  function Abs(d: Decimal): (r: Decimal)
    ensures r.scale == d.scale && r.unscaled >= 0
    ensures r.unscaled == d.unscaled || r.unscaled == -d.unscaled
  {
    Decimal(if d.unscaled < 0 then -d.unscaled else d.unscaled, d.scale)
  }

  /** Addition is exact: read at any common scale, the units add up. */
  lemma AddValue(a: Decimal, b: Decimal, m: int)
    requires m >= a.scale && m >= b.scale
    ensures UnitsAt(Add(a, b), m) == UnitsAt(a, m) + UnitsAt(b, m)
  {
    var k := Max(a.scale, b.scale);
    UnitsAtRescale(a, k, m);
    UnitsAtRescale(b, k, m);
    var p := Pow10(m - k);
    assert UnitsAt(Add(a, b), m) == (UnitsAt(a, k) + UnitsAt(b, k)) * p;
  }

  lemma SubtractValue(a: Decimal, b: Decimal, m: int)
    requires m >= a.scale && m >= b.scale
    ensures UnitsAt(Subtract(a, b), m) == UnitsAt(a, m) - UnitsAt(b, m)
  {
    AddValue(a, Negate(b), m);
  }

  /** Adding and then subtracting the same amount gives back the value. */
  lemma AddThenSubtract(a: Decimal, b: Decimal)
    ensures SameValue(Subtract(Add(a, b), b), a)
  {
    var m := Max(a.scale, b.scale);
    SubtractValue(Add(a, b), b, m);
    AddValue(a, b, m);
    SameValueAt(Subtract(Add(a, b), b), a, m);
  }

  /** `stream.reduce(BigDecimal.ZERO, BigDecimal::add)`: a left fold. */
  function Sum(ds: seq<Decimal>): (r: Decimal)
    ensures r.scale >= 0
    ensures forall i :: 0 <= i < |ds| ==> r.scale >= ds[i].scale
    decreases |ds|
  {
    if |ds| == 0 then ZERO else Add(Sum(ds[..|ds| - 1]), ds[|ds| - 1])
  }

  /** The fold has the largest scale of its amounts (zero for none). */
  lemma {:induction false} SumScaleAtMost(ds: seq<Decimal>, m: int)
    requires m >= 0 && forall i :: 0 <= i < |ds| ==> m >= ds[i].scale
    ensures Sum(ds).scale <= m
    decreases |ds|
  {
    if |ds| > 0 {
      SumScaleAtMost(ds[..|ds| - 1], m);
    }
  }

  /** The integer sum of the units at scale `m`. */
  function SumUnitsAt(ds: seq<Decimal>, m: int): int
    requires forall i :: 0 <= i < |ds| ==> m >= ds[i].scale
    decreases |ds|
  {
    if |ds| == 0 then 0 else SumUnitsAt(ds[..|ds| - 1], m) + UnitsAt(ds[|ds| - 1], m)
  }

  /** The fold is the exact sum of the amounts. */
  lemma {:induction false} SumValue(ds: seq<Decimal>, m: int)
    requires m >= Sum(ds).scale
    ensures UnitsAt(Sum(ds), m) == SumUnitsAt(ds, m)
    decreases |ds|
  {
    if |ds| > 0 {
      var init := ds[..|ds| - 1];
      SumValue(init, m);
      AddValue(Sum(init), ds[|ds| - 1], m);
    }
  }

  // ---------------------------------------------------------------------
  // setScale(k, RoundingMode.HALF_UP)
  // ---------------------------------------------------------------------

  /** A magnitude divided by `p`, rounded to the nearest integer with ties
      upwards. */
  function RoundHalfUp(mag: nat, p: nat): nat
    requires p >= 1
  {
    if 2 * (mag % p) >= p then mag / p + 1 else mag / p
  }

  /** The rounded quotient is the nearest multiple of `p`, a tie going up. */
  lemma RoundHalfUpNearest(mag: nat, p: nat)
    requires p >= 1
    ensures var m: int := RoundHalfUp(mag, p);
      2 * (m * p - mag) <= p && 2 * (mag - m * p) < p
  {
    var q := mag / p;
    var rem := mag % p;
    assert mag == q * p + rem && 0 <= rem < p;
    if 2 * rem >= p {
      assert (q + 1) * p == q * p + p;
    }
  }

  /** `d.setScale(k, RoundingMode.HALF_UP)`: exact when the scale grows;
      otherwise the magnitude is divided by `10^(scale - k)`, rounded to the
      nearest integer with ties away from zero, and the sign restored. */
  function SetScaleHalfUp(d: Decimal, k: int): (r: Decimal)
    ensures r.scale == k
  {
    if k >= d.scale then Decimal(UnitsAt(d, k), k)
    else
      var m: int := RoundHalfUp(if d.unscaled < 0 then -d.unscaled else d.unscaled, Pow10(d.scale - k));
      Decimal(if d.unscaled < 0 then -m else m, k)
  }

  /** Rescaling to a larger scale, or to the same one, loses nothing. */
  lemma SetScaleExact(d: Decimal, k: int)
    requires k >= d.scale
    ensures SameValue(SetScaleHalfUp(d, k), d)
    ensures k == d.scale ==> SetScaleHalfUp(d, k) == d
  {
    SameValueAt(SetScaleHalfUp(d, k), d, k);
  }

  /** HALF_UP rounding to fewer places: the result has the sign of the input
      (or is zero) and, read at the input's scale, lies within half a unit
      of the last kept place; a tie is rounded away from zero. */
  lemma SetScaleHalfUpNearest(d: Decimal, k: int)
    requires k < d.scale
    ensures var r := SetScaleHalfUp(d, k);
      (d.unscaled >= 0 ==> r.unscaled >= 0) && (d.unscaled <= 0 ==> r.unscaled <= 0)
    ensures var r := SetScaleHalfUp(d, k);
      d.unscaled >= 0 ==>
        2 * (UnitsAt(r, d.scale) - d.unscaled) <= Pow10(d.scale - k) &&
        2 * (d.unscaled - UnitsAt(r, d.scale)) < Pow10(d.scale - k)
    ensures var r := SetScaleHalfUp(d, k);
      d.unscaled < 0 ==>
        2 * (d.unscaled - UnitsAt(r, d.scale)) <= Pow10(d.scale - k) &&
        2 * (UnitsAt(r, d.scale) - d.unscaled) < Pow10(d.scale - k)
  {
    var r := SetScaleHalfUp(d, k);
    var p := Pow10(d.scale - k);
    var mag: nat := if d.unscaled < 0 then -d.unscaled else d.unscaled;
    var m: int := RoundHalfUp(mag, p);
    RoundHalfUpNearest(mag, p);
    if d.unscaled < 0 {
      assert UnitsAt(r, d.scale) == -(m * p);
    } else {
      assert UnitsAt(r, d.scale) == m * p;
    }
  }

  /** Rounding an already rounded value to the same scale changes nothing. */
  lemma SetScaleIdempotent(d: Decimal, k: int)
    ensures SetScaleHalfUp(SetScaleHalfUp(d, k), k) == SetScaleHalfUp(d, k)
  {
    SetScaleExact(SetScaleHalfUp(d, k), k);
  }

  // ---------------------------------------------------------------------
  // stripTrailingZeros, toBigInteger, toString
  // ---------------------------------------------------------------------

  /** Whether the value is an integer. */
  predicate IsWhole(d: Decimal) {
    d.scale <= 0 || d.unscaled % Pow10(d.scale) == 0
  }

  /** `d.stripTrailingZeros()`: zero becomes `BigDecimal.ZERO`; otherwise
      trailing zero digits are dropped from the unscaled value, one scale
      step each (the scale may become negative). */
  function StripTrailingZeros(d: Decimal): (r: Decimal)
    decreases if d.unscaled < 0 then -d.unscaled else d.unscaled
  {
    if d.unscaled == 0 then ZERO
    else if d.unscaled % 10 == 0 then
      assert d.unscaled == 10 * (d.unscaled / 10);
      StripTrailingZeros(Decimal(d.unscaled / 10, d.scale - 1))
    else d
  }

  lemma ModOfTenfold(x: int, p: nat)
    requires p >= 1
    ensures (10 * x) % (10 * p) == 10 * (x % p)
  {
    var q := x / p;
    var r := x % p;
    assert x == q * p + r && 0 <= r < p;
    assert 10 * x == q * (10 * p) + 10 * r;
    DivModUnique(10 * x, 10 * p, q, 10 * r);
  }

  lemma DivModUnique(a: int, b: int, q: int, r: int)
    requires b >= 1 && a == q * b + r && 0 <= r < b
    ensures a % b == r && a / b == q
  {
    var q0 := a / b;
    var r0 := a % b;
    assert a == q0 * b + r0 && 0 <= r0 < b;
    assert (q - q0) * b == r0 - r;
    if q > q0 {
      MultiplyAtLeast(q - q0, b);
    } else if q < q0 {
      MultiplyAtLeast(q0 - q, b);
    }
  }

  /** A decimal with no factor of ten left in its unscaled value is whole
      only at a non-positive scale. */
  lemma NotWholeWithoutTrailingZero(d: Decimal)
    requires d.unscaled % 10 != 0 && d.scale >= 1
    ensures !IsWhole(d)
  {
    var p := Pow10(d.scale - 1);
    assert Pow10(d.scale) == 10 * p;
    if d.unscaled % (10 * p) == 0 {
      var k := d.unscaled / (10 * p);
      assert d.unscaled == (k * p) * 10;
      DivModUnique(d.unscaled, 10, k * p, 0);
    }
  }

  /** `stripTrailingZeros().scale() <= 0` tests whether the value is whole. */
  lemma {:induction false} StripTrailingZerosWhole(d: Decimal)
    ensures StripTrailingZeros(d).scale <= 0 <==> IsWhole(d)
    ensures SameValue(StripTrailingZeros(d), d)
    decreases if d.unscaled < 0 then -d.unscaled else d.unscaled
  {
    if d.unscaled == 0 {
      var m := Max(d.scale, 0);
      assert UnitsAt(ZERO, m) == 0 && UnitsAt(d, m) == 0;
    } else if d.unscaled % 10 == 0 {
      var x := d.unscaled / 10;
      assert d.unscaled == 10 * x;
      var e := Decimal(x, d.scale - 1);
      StripTrailingZerosWhole(e);
      if d.scale >= 1 {
        var p := Pow10(d.scale - 1);
        assert Pow10(d.scale) == 10 * p;
        ModOfTenfold(x, p);
        if d.scale == 1 {
          assert x % 1 == 0;
        }
      }
      assert UnitsAt(d, d.scale) == UnitsAt(e, d.scale) by {
        assert UnitsAt(e, d.scale) == x * 10;
      }
      SameValueAt(d, e, d.scale);
      SameValueTransitive(StripTrailingZeros(e), e, d);
    } else {
      if d.scale >= 1 {
        NotWholeWithoutTrailingZero(d);
      }
      SameValueReflexive(d);
    }
  }

  lemma SameValueReflexive(a: Decimal)
    ensures SameValue(a, a)
  {
  }

  lemma SameValueTransitive(a: Decimal, b: Decimal, c: Decimal)
    requires SameValue(a, b) && SameValue(b, c)
    ensures SameValue(a, c)
  {
    var m := Max(Max(a.scale, b.scale), c.scale);
    SameValueAt(a, b, m);
    SameValueAt(b, c, m);
    SameValueAt(a, c, m);
  }

  /** `d.toBigInteger()`: the integer part, truncated toward zero. */
  function ToBigInteger(d: Decimal): int {
    if d.scale <= 0 then d.unscaled * Pow10(-d.scale)
    else
      var mag := (if d.unscaled < 0 then -d.unscaled else d.unscaled) / Pow10(d.scale);
      if d.unscaled < 0 then -mag else mag
  }

  /** The integer part of a whole value is the value itself. */
  lemma ToBigIntegerOfWhole(d: Decimal)
    requires IsWhole(d)
    ensures SameValue(OfLong(ToBigInteger(d)), d)
  {
    var n := ToBigInteger(d);
    if d.scale <= 0 {
      SameValueAt(OfLong(n), d, 0);
    } else {
      var p := Pow10(d.scale);
      var mag := if d.unscaled < 0 then -d.unscaled else d.unscaled;
      assert mag % p == 0 by {
        if d.unscaled < 0 {
          var k := d.unscaled / p;
          assert d.unscaled == k * p;
          DivModUnique(mag, p, -k, 0);
        }
      }
      assert mag == (mag / p) * p;
      assert UnitsAt(OfLong(n), d.scale) == n * p;
      SameValueAt(OfLong(n), d, d.scale);
    }
  }

  function Zeros(n: nat): (s: string)
    ensures |s| == n && AllDigits(s)
  {
    if n == 0 then "" else "0" + Zeros(n - 1)
  }

  /** Digits with a point inserted `k` places from the right, padded with
      zeros on the left so that at least one digit precedes the point. */
  function PlainDigits(digits: string, k: nat): string
    requires k >= 1
  {
    if |digits| > k then digits[..|digits| - k] + "." + digits[|digits| - k..]
    else "0." + Zeros(k - |digits|) + digits
  }

  /** `d.toString()`, Java's canonical representation: the plain digits
      with a decimal point when the scale is positive and the adjusted
      exponent is at least -6; otherwise one digit, the remaining digits
      after a point, and an exponent `E+n` / `E-n`. */
  function ToString(d: Decimal): (s: string)
    ensures |s| >= 1
  {
    var digits := NatToString(if d.unscaled < 0 then -d.unscaled else d.unscaled);
    var sign := if d.unscaled < 0 then "-" else "";
    var adjusted := (|digits| - 1) - d.scale;
    if d.scale == 0 then sign + digits
    else if d.scale > 0 && adjusted >= -6 then sign + PlainDigits(digits, d.scale)
    else
      sign + digits[..1] + (if |digits| > 1 then "." + digits[1..] else "")
      + "E" + (if adjusted >= 0 then "+" else "") + IntToString(adjusted)
  }

  /** At scale 0 the representation is the integer's. */
  lemma ToStringOfInteger(n: int)
    ensures ToString(OfLong(n)) == IntToString(n)
  {
  }

  // ---------------------------------------------------------------------
  // Reading the plain representation back
  // ---------------------------------------------------------------------

  lemma DigitsValueSnoc(s: string, c: char)
    requires AllDigits(s) && IsDigit(c)
    ensures AllDigits(s + [c])
    ensures DigitsValue(s + [c]) == DigitsValue(s) * 10 + ((c as int) - ('0' as int))
  {
    assert (s + [c])[..|s|] == s;
  }

  lemma {:induction false} DigitsValueAppend(a: string, b: string)
    requires AllDigits(a) && AllDigits(b)
    ensures AllDigits(a + b)
    ensures DigitsValue(a + b) == DigitsValue(a) * Pow10(|b|) + DigitsValue(b)
    decreases |b|
  {
    if b == [] {
      assert a + b == a;
    } else {
      var b' := b[..|b| - 1];
      var c := b[|b| - 1];
      assert b == b' + [c];
      assert a + b == (a + b') + [c];
      DigitsValueAppend(a, b');
      DigitsValueSnoc(a + b', c);
      DigitsValueSnoc(b', c);
      var x := DigitsValue(a);
      var p := Pow10(|b'|);
      var y := DigitsValue(b');
      var e := (c as int) - ('0' as int);
      assert Pow10(|b|) == p * 10;
      Regroup(x, p, y, e);
    }
  }

  lemma Regroup(x: int, p: int, y: int, e: int)
    ensures (x * p + y) * 10 + e == x * (p * 10) + (y * 10 + e)
  {
  }

  lemma {:induction false} DigitsValueOfZeros(n: nat)
    ensures DigitsValue(Zeros(n)) == 0
    decreases n
  {
    if n > 0 {
      assert Zeros(n) == Zeros(n - 1) + "0" by {
        ZerosSnoc(n);
      }
      assert Zeros(n)[..n - 1] == Zeros(n - 1);
      DigitsValueOfZeros(n - 1);
    }
  }

  lemma {:induction false} ZerosSnoc(n: nat)
    requires n > 0
    ensures Zeros(n) == Zeros(n - 1) + "0"
    decreases n
  {
    if n > 1 {
      ZerosSnoc(n - 1);
      assert Zeros(n) == "0" + (Zeros(n - 2) + "0");
    }
  }

  /** The digits of the magnitude, as `toString` prints them. */
  function MagnitudeDigits(d: Decimal): (s: string)
    ensures |s| >= 1 && AllDigits(s)
  {
    NatToString(if d.unscaled < 0 then -d.unscaled else d.unscaled)
  }

  lemma AroundPoint(a: string, b: string)
    ensures var body := a + "." + b;
      body[..|a|] == a && body[|a|] == '.' && body[|a| + 1..] == b
  {
  }

  /** Leading zeros do not change the value of a digit string. */
  lemma PaddedValue(digits: string, m: nat)
    requires AllDigits(digits)
    ensures AllDigits("0" + (Zeros(m) + digits))
    ensures DigitsValue("0" + (Zeros(m) + digits)) == DigitsValue(digits)
  {
    assert "0" + (Zeros(m) + digits) == Zeros(m + 1) + digits;
    DigitsValueAppend(Zeros(m + 1), digits);
    DigitsValueOfZeros(m + 1);
  }

  lemma PlainDigitsParts(digits: string, k: nat) returns (a: string, b: string)
    requires k >= 1 && AllDigits(digits)
    ensures PlainDigits(digits, k) == a + "." + b && |a| >= 1 && |b| == k
    ensures AllDigits(a) && AllDigits(b) && AllDigits(a + b)
    ensures DigitsValue(a + b) == DigitsValue(digits)
  {
    var n := |digits|;
    if n > k {
      a, b := digits[..n - k], digits[n - k..];
      SplitDigits(digits, n - k);
    } else {
      a, b := "0", Zeros(k - n) + digits;
      PaddedParts(digits, k);
    }
  }

  lemma PaddedParts(digits: string, k: nat)
    requires 1 <= k && |digits| <= k && AllDigits(digits)
    ensures var b := Zeros(k - |digits|) + digits;
      PlainDigits(digits, k) == "0" + "." + b && |b| == k && AllDigits(b) &&
      AllDigits("0" + b) && DigitsValue("0" + b) == DigitsValue(digits)
  {
    var b := Zeros(k - |digits|) + digits;
    assert "0." + Zeros(k - |digits|) + digits == "0" + "." + b;
    PaddedValue(digits, k - |digits|);
  }

  lemma SplitDigits(digits: string, i: nat)
    requires i <= |digits| && AllDigits(digits)
    ensures AllDigits(digits[..i]) && AllDigits(digits[i..])
    ensures digits[..i] + digits[i..] == digits
  {
  }

  lemma PlainDigitsSpell(digits: string, k: nat)
    requires k >= 1 && AllDigits(digits)
    ensures var body := PlainDigits(digits, k);
      |body| >= k + 2 && body[|body| - k - 1] == '.' &&
      AllDigits(body[..|body| - k - 1]) && AllDigits(body[|body| - k..]) &&
      DigitsValue(body[..|body| - k - 1] + body[|body| - k..]) == DigitsValue(digits)
  {
    var a, b := PlainDigitsParts(digits, k);
    AroundPoint(a, b);
    var body := a + "." + b;
    assert |body| == |a| + k + 1;
    assert body[..|body| - k - 1] == body[..|a|];
    assert body[|body| - k..] == body[|a| + 1..];
  }

  /** With a scale from 1 to 6, `toString` is plain notation: an optional
      minus sign, then the integer digits, a point and exactly `scale`
      fraction digits, which together spell the magnitude of the unscaled
      value. */
  lemma ToStringPlain(d: Decimal)
    requires 1 <= d.scale <= 6
    ensures var body := PlainDigits(MagnitudeDigits(d), d.scale);
      var k := d.scale;
      ToString(d) == (if d.unscaled < 0 then "-" else "") + body &&
      |body| >= k + 2 && body[|body| - k - 1] == '.' &&
      AllDigits(body[..|body| - k - 1]) && AllDigits(body[|body| - k..]) &&
      DigitsValue(body[..|body| - k - 1] + body[|body| - k..]) ==
        (if d.unscaled < 0 then -d.unscaled else d.unscaled)
  {
    ToStringPlainShape(d);
    MagnitudeValue(d);
    PlainDigitsSpell(MagnitudeDigits(d), d.scale);
  }

  /** The same, as the two digit strings around the point. */
  lemma ToStringPlainParts(d: Decimal) returns (a: string, b: string)
    requires 1 <= d.scale <= 6
    ensures ToString(d) == (if d.unscaled < 0 then "-" else "") + (a + "." + b)
    ensures |a| >= 1 && |b| == d.scale && AllDigits(a) && AllDigits(b) && AllDigits(a + b)
    ensures DigitsValue(a + b) == if d.unscaled < 0 then -d.unscaled else d.unscaled
  {
    ToStringPlainShape(d);
    MagnitudeValue(d);
    a, b := PlainDigitsParts(MagnitudeDigits(d), d.scale);
  }

  lemma MagnitudeValue(d: Decimal)
    ensures DigitsValue(MagnitudeDigits(d)) == if d.unscaled < 0 then -d.unscaled else d.unscaled
  {
    DigitsValueOfNatToString(if d.unscaled < 0 then -d.unscaled else d.unscaled);
  }

  lemma ToStringPlainShape(d: Decimal)
    requires 1 <= d.scale <= 6
    ensures ToString(d) == (if d.unscaled < 0 then "-" else "") + PlainDigits(MagnitudeDigits(d), d.scale)
  {
  }

  /** At scale 0 and below `toBigInteger().toString()` has no decimal point. */
  lemma IntToStringHasNoPoint(n: int)
    ensures '.' !in IntToString(n)
  {
    IntToStringChars(n);
  }

  // ---------------------------------------------------------------------
  // Sums over amounts that may be null
  // ---------------------------------------------------------------------

  /** `filter(amount -> amount != null)`: the non-null amounts, in order. */
  function NonNull(xs: seq<Option<Decimal>>): (r: seq<Decimal>)
    ensures |r| <= |xs|
    ensures forall d :: d in r ==> Some(d) in xs
    decreases |xs|
  {
    if xs == [] then []
    else
      var init := xs[..|xs| - 1];
      var last := xs[|xs| - 1];
      assert forall d :: Some(d) in init ==> Some(d) in xs;
      NonNull(init) + (if last.Some? then [last.value] else [])
  }

  /** The amounts with a null read as zero. */
  function ZeroFilled(xs: seq<Option<Decimal>>): (r: seq<Decimal>)
    ensures |r| == |xs|
    ensures forall i :: 0 <= i < |xs| ==> r[i] == xs[i].GetOr(ZERO)
  {
    seq(|xs|, i requires 0 <= i < |xs| => xs[i].GetOr(ZERO))
  }

  /** Every non-null amount has a scale of at most `m`. */
  predicate ScalesAtMost(xs: seq<Option<Decimal>>, m: int) {
    forall i :: 0 <= i < |xs| ==> xs[i].Some? ==> m >= xs[i].value.scale
  }

  lemma {:induction false} NonNullScales(xs: seq<Option<Decimal>>, m: int)
    requires ScalesAtMost(xs, m) && m >= 0
    ensures forall i :: 0 <= i < |NonNull(xs)| ==> m >= NonNull(xs)[i].scale
    ensures forall i :: 0 <= i < |ZeroFilled(xs)| ==> m >= ZeroFilled(xs)[i].scale
    decreases |xs|
  {
    if xs != [] {
      var init := xs[..|xs| - 1];
      assert ScalesAtMost(init, m);
      NonNullScales(init, m);
    }
  }

  /** A null amount counts for nothing: the sum of the non-null amounts
      is the sum with nulls read as zero. */
  lemma {:induction false} NonNullSum(xs: seq<Option<Decimal>>, m: int)
    requires ScalesAtMost(xs, m) && m >= 0
    ensures forall i :: 0 <= i < |NonNull(xs)| ==> m >= NonNull(xs)[i].scale
    ensures forall i :: 0 <= i < |ZeroFilled(xs)| ==> m >= ZeroFilled(xs)[i].scale
    ensures SumUnitsAt(NonNull(xs), m) == SumUnitsAt(ZeroFilled(xs), m)
    decreases |xs|
  {
    NonNullScales(xs, m);
    if xs != [] {
      var init := xs[..|xs| - 1];
      assert ScalesAtMost(init, m);
      NonNullSum(init, m);
      var last := xs[|xs| - 1];
      NonNullScales(init, m);
      ZeroFilledSnoc(xs);
      NullOrAmountStep(NonNull(init), ZeroFilled(init), last, m);
    }
  }

  lemma ZeroFilledSnoc(xs: seq<Option<Decimal>>)
    requires xs != []
    ensures ZeroFilled(xs) == ZeroFilled(xs[..|xs| - 1]) + [xs[|xs| - 1].GetOr(ZERO)]
  {
    var init := xs[..|xs| - 1];
    assert forall i :: 0 <= i < |init| ==> init[i] == xs[i];
  }

  /** One more amount adds the same to the sum of the non-null amounts as
      to the zero-filled sum. */
  lemma NullOrAmountStep(a: seq<Decimal>, z: seq<Decimal>, last: Option<Decimal>, m: int)
    requires m >= 0 && (last.Some? ==> m >= last.value.scale)
    requires forall i :: 0 <= i < |a| ==> m >= a[i].scale
    requires forall i :: 0 <= i < |z| ==> m >= z[i].scale
    requires SumUnitsAt(a, m) == SumUnitsAt(z, m)
    ensures var tail := if last.Some? then [last.value] else [];
      SumUnitsAt(a + tail, m) == SumUnitsAt(z + [last.GetOr(ZERO)], m)
  {
    var tail := if last.Some? then [last.value] else [];
    var zs := z + [last.GetOr(ZERO)];
    assert zs[..|zs| - 1] == z;
    SumUnitsAtAppend(a, tail, m);
    assert UnitsAt(ZERO, m) == 0;
  }

  lemma SumUnitsAtAppend(a: seq<Decimal>, tail: seq<Decimal>, m: int)
    requires |tail| <= 1
    requires forall i :: 0 <= i < |a| ==> m >= a[i].scale
    requires forall i :: 0 <= i < |tail| ==> m >= tail[i].scale
    ensures SumUnitsAt(a + tail, m) == SumUnitsAt(a, m) + (if tail == [] then 0 else UnitsAt(tail[0], m))
  {
    if tail != [] {
      assert (a + tail)[..|a + tail| - 1] == a;
    } else {
      assert a + tail == a;
    }
  }
}
