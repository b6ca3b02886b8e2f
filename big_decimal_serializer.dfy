/** The Jackson serialiser applied to the `BigDecimal` fields of the
    business objects: it writes the absolute value rounded to two places. */
module BigDecimalSerializer {
  import opened Wrappers
  import opened Text
  import opened Decimals

  /** `convertToPositiveFormatAndRound`: `value.abs().setScale(2, HALF_UP)`. */
  function ConvertToPositiveFormatAndRound(value: Decimal): (r: Decimal)
    ensures r.scale == 2 && r.unscaled >= 0
  {
    SetScaleHalfUp(Abs(value), 2)
  }

  /** The token the serialiser emits: `writeNull()` or `writeNumber(v)`. */
  datatype JsonToken = JsonNull | JsonNumber(value: Decimal)

  /** `serialize(value, gen, provider)`. */
  function Serialize(value: Option<Decimal>): (t: JsonToken)
    ensures t.JsonNull? <==> value.None?
    ensures t.JsonNumber? ==> t.value.scale == 2 && t.value.unscaled >= 0
  {
    if value.Some? then JsonNumber(ConvertToPositiveFormatAndRound(value.value)) else JsonNull
  }

  /** The written number is the magnitude of the input, exact when the input
      has at most two decimals and otherwise within half a cent of it; the
      sign of the input makes no difference. */
  lemma SerializeIsRoundedMagnitude(v: Decimal)
    ensures Serialize(Some(v)) == Serialize(Some(Negate(v)))
    ensures v.scale <= 2 ==> SameValue(ConvertToPositiveFormatAndRound(v), Abs(v))
    ensures v.scale > 2 ==>
      var diff := UnitsAt(ConvertToPositiveFormatAndRound(v), v.scale) - Abs(v).unscaled;
      -(Pow10(v.scale - 2) as int) < 2 * diff <= Pow10(v.scale - 2)
  {
    assert Abs(Negate(v)) == Abs(v);
    if v.scale <= 2 {
      SetScaleExact(Abs(v), 2);
    } else {
      SetScaleHalfUpNearest(Abs(v), 2);
    }
  }

  /** Serialising an already serialised value writes the same number. */
  lemma ConvertIdempotent(v: Decimal)
    ensures ConvertToPositiveFormatAndRound(ConvertToPositiveFormatAndRound(v)) ==
            ConvertToPositiveFormatAndRound(v)
  {
    var r := ConvertToPositiveFormatAndRound(v);
    assert Abs(r) == r;
    SetScaleExact(r, 2);
  }

  /** The text of the written number: digits, a point and two decimals, never
      a sign or an exponent, spelling the rounded magnitude. */
  lemma SerializedText(v: Decimal)
    ensures var r := ConvertToPositiveFormatAndRound(v);
      var s := ToString(r);
      |s| >= 4 && s[|s| - 3] == '.' && '-' !in s &&
      AllDigits(s[..|s| - 3]) && AllDigits(s[|s| - 2..]) &&
      DigitsValue(s[..|s| - 3] + s[|s| - 2..]) == r.unscaled
  {
    PlainTwoPlaces(ConvertToPositiveFormatAndRound(v));
  }

  /** The text of a non-negative amount at scale 2. */
  lemma PlainTwoPlaces(r: Decimal)
    requires r.scale == 2 && r.unscaled >= 0
    ensures var s := ToString(r);
      |s| >= 4 && s[|s| - 3] == '.' && '-' !in s &&
      AllDigits(s[..|s| - 3]) && AllDigits(s[|s| - 2..]) &&
      DigitsValue(s[..|s| - 3] + s[|s| - 2..]) == r.unscaled
  {
    var a, b := ToStringPlainParts(r);
    assert ToString(r) == a + "." + b by {
      assert "" + (a + "." + b) == a + "." + b;
    }
    TwoPlacesText(a, b);
  }

  /** Digits, a point and two more digits: the shape and the value. */
  lemma TwoPlacesText(a: string, b: string)
    requires |a| >= 1 && |b| == 2 && AllDigits(a) && AllDigits(b) && AllDigits(a + b)
    ensures var s := a + "." + b;
      |s| >= 4 && s[|s| - 3] == '.' && '-' !in s &&
      AllDigits(s[..|s| - 3]) && AllDigits(s[|s| - 2..]) &&
      s[..|s| - 3] + s[|s| - 2..] == a + b
  {
    var s := a + "." + b;
    AroundPoint(a, b);
    assert s[..|s| - 3] == a && s[|s| - 2..] == b;
    NoSignAroundPoint(s, 2);
  }

  /** Digits, a point and `k` more digits carry no minus sign. */
  lemma NoSignAroundPoint(s: string, k: nat)
    requires |s| >= k + 2 && s[|s| - k - 1] == '.'
    requires AllDigits(s[..|s| - k - 1]) && AllDigits(s[|s| - k..])
    ensures '-' !in s
  {
    forall i | 0 <= i < |s|
      ensures s[i] != '-'
    {
      if i < |s| - k - 1 {
        assert s[i] == s[..|s| - k - 1][i];
      } else if i > |s| - k - 1 {
        assert s[i] == s[|s| - k..][i - (|s| - k)];
      }
    }
  }
}
