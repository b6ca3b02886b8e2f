/** `calculateTotalAccount`, which suppliers and customers share: the yearly
    total of four quarterly amounts, any of which may be null. */
module QuarterTotals {
  import opened Wrappers
  import opened Decimals

  /** The four quarterly amounts of a supplier (payable) or a customer
      (receivable). */
  datatype Quarters = Quarters(first: Option<Decimal>, second: Option<Decimal>, third: Option<Decimal>, fourth: Option<Decimal>)
  {
    /** The amounts in quarter order, as the services list them. */
    function Listed(): (r: seq<Option<Decimal>>)
      ensures |r| == 4
    {
      [first, second, third, fourth]
    }
  }

  /** `calculateTotalAccount(list)`: the non-null amounts added from zero,
      then set to scale 3 with HALF_UP rounding. */
  function CalculateTotalAccount(list: seq<Option<Decimal>>): (r: Decimal)
    ensures r.scale == 3
  {
    SetScaleHalfUp(Sum(NonNull(list)), 3)
  }

  /** Amounts with at most three decimals are added exactly: the total, in
      thousandths, is the sum of the amounts with null read as zero. */
  lemma TotalAccountExact(list: seq<Option<Decimal>>)
    requires ScalesAtMost(list, 3)
    ensures forall i :: 0 <= i < |ZeroFilled(list)| ==> 3 >= ZeroFilled(list)[i].scale
    ensures CalculateTotalAccount(list).unscaled == SumUnitsAt(ZeroFilled(list), 3)
  {
    NonNullSum(list, 3);
    SumScaleAtMost(NonNull(list), 3);
    SumValue(NonNull(list), 3);
  }

  /** A list with no amount at all totals `0.000`. */
  lemma AllNullTotalIsZero(list: seq<Option<Decimal>>)
    requires forall i :: 0 <= i < |list| ==> list[i].None?
    ensures CalculateTotalAccount(list) == Decimal(0, 3)
  {
    assert ScalesAtMost(list, 3);
    TotalAccountExact(list);
    ZeroSum(list, 3);
  }

  lemma {:induction false} ZeroSum(list: seq<Option<Decimal>>, m: int)
    requires m >= 0 && forall i :: 0 <= i < |list| ==> list[i].None?
    ensures forall i :: 0 <= i < |ZeroFilled(list)| ==> m >= ZeroFilled(list)[i].scale
    ensures SumUnitsAt(ZeroFilled(list), m) == 0
    decreases |list|
  {
    if list != [] {
      var init := list[..|list| - 1];
      ZeroSum(init, m);
      var zs := ZeroFilled(list);
      assert zs[..|zs| - 1] == ZeroFilled(init);
      assert zs[|zs| - 1] == ZERO;
    }
  }

  /** `List.of(a, b, c, d)`, which throws a NullPointerException on a null
      element. */
  function ListOf(xs: seq<Option<Decimal>>): (r: Result<seq<Option<Decimal>>>)
    ensures r.Ok? <==> forall i :: 0 <= i < |xs| ==> xs[i].Some?
    ensures r.Ok? ==> r.value == xs
  {
    if forall i :: 0 <= i < |xs| ==> xs[i].Some? then Ok(xs) else Throws
  }

  /** Whether all four quarters carry an amount. */
  predicate AllGiven(q: Quarters) {
    q.first.Some? && q.second.Some? && q.third.Some? && q.fourth.Some?
  }

  /** The total as the supplier service and the customer batch import
      compute it: `calculateTotalAccount(List.of(q1, q2, q3, q4))`. It
      throws unless all four quarters are given, and is then the corrected
      total below. */
  function TotalOfListOf(q: Quarters): (r: Result<Decimal>)
    ensures r.Ok? <==> AllGiven(q)
    ensures r.Ok? ==> r.value == QuarterTotal(q) && r.value.scale == 3
  {
    var listed := ListOf(q.Listed());
    assert listed.Ok? ==> AllGiven(q) by {
      if listed.Ok? {
        assert q.Listed()[0].Some? && q.Listed()[1].Some? && q.Listed()[2].Some? && q.Listed()[3].Some?;
      }
    }
    match listed
    case Ok(list) => Ok(CalculateTotalAccount(list))
    case Throws => Throws
  }

  /** `List.of` throws before the null filter of `calculateTotalAccount`
      can act: a single null quarter makes the as-written total throw,
      while the total intended for it counts that quarter as nothing. */
  lemma ListOfDefeatsNullFilter(q: Quarters)
    requires q.first.None? || q.second.None? || q.third.None? || q.fourth.None?
    ensures TotalOfListOf(q).Throws?
  {
    var xs := q.Listed();
    var i := if q.first.None? then 0 else if q.second.None? then 1 else if q.third.None? then 2 else 3;
    assert xs[i].None?;
  }

  /** The input that shows it: a first quarter of 5 and three nulls, which
      throws as written and totals `5.000` as intended. */
  lemma OneQuarterCounterexample()
    ensures TotalOfListOf(Quarters(Some(Decimal(5, 0)), None, None, None)).Throws?
    ensures QuarterTotal(Quarters(Some(Decimal(5, 0)), None, None, None)) == Decimal(5000, 3)
  {
    var q := Quarters(Some(Decimal(5, 0)), None, None, None);
    ListOfDefeatsNullFilter(q);
    var xs := q.Listed();
    assert ScalesAtMost(xs, 3);
    var zs := ZeroFilled(xs);
    assert Pow10(3) == 1000 by {
      assert Pow10(0) == 1;
    }
    var five := Decimal(5, 0);
    assert UnitsAt(five, 3) == 5000 && UnitsAt(ZERO, 3) == 0;
    assert [five][..0] == [];
    assert SumUnitsAt([five], 3) == 5000;
    assert [five, ZERO][..1] == [five];
    assert SumUnitsAt([five, ZERO], 3) == 5000;
    assert [five, ZERO, ZERO][..2] == [five, ZERO];
    assert SumUnitsAt([five, ZERO, ZERO], 3) == 5000;
    assert zs == [five, ZERO, ZERO, ZERO];
    assert zs[..3] == [five, ZERO, ZERO];
    assert SumUnitsAt(zs, 3) == 5000;
  }

  /** Without nulls the two agree. */
  lemma ListOfAgreesWithoutNulls(q: Quarters)
    requires q.first.Some? && q.second.Some? && q.third.Some? && q.fourth.Some?
    ensures TotalOfListOf(q) == Ok(CalculateTotalAccount(q.Listed()))
  {
  }

  /** The corrected total: the non-null quarters summed, as
      `calculateTotalAccount` is written to do. */
  function QuarterTotal(q: Quarters): (r: Decimal)
    ensures r.scale == 3
    ensures ScalesAtMost(q.Listed(), 3) ==> r.unscaled == SumUnitsAt(ZeroFilled(q.Listed()), 3)
  {
    var list := q.Listed();
    if ScalesAtMost(list, 3) then TotalAccountExact(list); CalculateTotalAccount(list)
    else CalculateTotalAccount(list)
  }
}
