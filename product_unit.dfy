/** `ProductUnitServiceImpl`: multi-unit definitions ("box = 12 pieces"),
    the compute-unit string that names them and must be unique among live
    units, and the ratio text the unit list shows. */
module ProductUnits {
  import opened Wrappers
  import opened Responses
  import opened Decimals
  import opened Text
  import opened Tables

  /** `StringBuilder.append` and string `+` of a possibly null string. */
  function JavaText(s: Option<string>): string {
    if s.None? then "null" else s.value
  }

  /** `StringBuilder.append` of a possibly null `BigDecimal`. */
  function DecimalText(d: Option<Decimal>): string {
    if d.None? then "null" else ToString(d.value)
  }

  datatype UnitRequest = UnitRequest(
    id: Option<int>, basicUnit: Option<string>,
    otherUnit: Option<string>, otherUnitTwo: Option<string>, otherUnitThree: Option<string>,
    ratio: Option<Decimal>, ratioTwo: Option<Decimal>, ratioThree: Option<Decimal>, status: Option<int>)

  datatype Unit = Unit(
    computeUnit: string, basicUnit: Option<string>,
    otherUnit: Option<string>, otherUnitTwo: Option<string>, otherUnitThree: Option<string>,
    ratio: Option<Decimal>, ratioTwo: Option<Decimal>, ratioThree: Option<Decimal>, status: Option<int>, deleteFlag: int)

  datatype UnitStatus = UnitStatus(id: Option<int>, status: Option<int>)

  /** One `/(other=ratio basic)` segment of a compute unit. */
  function Segment(other: Option<string>, ratio: Option<Decimal>, basic: Option<string>): string {
    "/(" + JavaText(other) + "=" + DecimalText(ratio) + JavaText(basic) + ")"
  }

  /** `buildComputeUnit`: the basic unit, its first segment, and the second
      and third segments when those units are given. */
  function ComputeUnit(u: UnitRequest): string {
    JavaText(u.basicUnit) + Segment(u.otherUnit, u.ratio, u.basicUnit)
    + OptionalSegment(u.otherUnitTwo, u.ratioTwo, u.basicUnit)
    + OptionalSegment(u.otherUnitThree, u.ratioThree, u.basicUnit)
  }

  /** A second or third segment is written only when its unit is given. */
  function OptionalSegment(other: Option<string>, ratio: Option<Decimal>, basic: Option<string>): (s: string)
    ensures other.None? <==> s == ""
  {
    if other.Some? then Segment(other, ratio, basic) else ""
  }

  /** A compute unit starts with the basic unit and its first segment, and
      giving a second or third unit always lengthens it, so a unit with an
      extra segment never clashes with the same unit without it. */
  lemma ComputeUnitShape(u: UnitRequest)
    ensures var s := ComputeUnit(u); var head := JavaText(u.basicUnit) + Segment(u.otherUnit, u.ratio, u.basicUnit);
      |s| >= |head| && s[..|head|] == head
    ensures u.otherUnitTwo.Some? ==> |ComputeUnit(u)| > |ComputeUnit(u.(otherUnitTwo := None))|
    ensures u.otherUnitThree.Some? ==> |ComputeUnit(u)| > |ComputeUnit(u.(otherUnitThree := None))|
  {
    var head := JavaText(u.basicUnit) + Segment(u.otherUnit, u.ratio, u.basicUnit);
    var two := OptionalSegment(u.otherUnitTwo, u.ratioTwo, u.basicUnit);
    var three := OptionalSegment(u.otherUnitThree, u.ratioThree, u.basicUnit);
    assert ComputeUnit(u) == head + two + three;
    assert (head + two + three)[..|head|] == head;
    assert ComputeUnit(u.(otherUnitTwo := None)) == head + "" + three;
    assert ComputeUnit(u.(otherUnitThree := None)) == head + two + "";
  }

  /** The ratio as the list prints it: at 3 places HALF_UP, with no point
      when the rounded value is whole. */
  function FormatRatio(ratio: Decimal): string {
    var scaled := SetScaleHalfUp(ratio, 3);
    if StripTrailingZeros(scaled).scale <= 0 then IntToString(ToBigInteger(scaled)) else ToString(scaled)
  }

  /** `formatBigDecimal`: null without a ratio, else `other=ratio basic`. */
  function FormatBigDecimal(ratio: Option<Decimal>, otherUnit: Option<string>, basicUnit: Option<string>): (r: Option<string>)
    ensures r.None? <==> ratio.None?
  {
    if ratio.None? then None else Some(JavaText(otherUnit) + "=" + FormatRatio(ratio.value) + JavaText(basicUnit))
  }

  /** A ratio that rounds to a whole number prints as that integer, without
      a decimal point. */
  lemma FormatRatioWhole(ratio: Decimal)
    requires IsWhole(SetScaleHalfUp(ratio, 3))
    ensures var n := ToBigInteger(SetScaleHalfUp(ratio, 3));
      FormatRatio(ratio) == IntToString(n) && '.' !in FormatRatio(ratio) &&
      SameValue(OfLong(n), SetScaleHalfUp(ratio, 3))
  {
    var scaled := SetScaleHalfUp(ratio, 3);
    StripTrailingZerosWhole(scaled);
    ToBigIntegerOfWhole(scaled);
    IntToStringHasNoPoint(ToBigInteger(scaled));
  }

  /** Any other ratio prints with exactly three digits after the point,
      which with the digits before it spell the rounded value. */
  lemma FormatRatioFraction(ratio: Decimal)
    requires !IsWhole(SetScaleHalfUp(ratio, 3))
    ensures var s := FormatRatio(ratio); var n := SetScaleHalfUp(ratio, 3).unscaled;
      |s| >= 5 && s[|s| - 4] == '.' && AllDigits(s[|s| - 3..]) &&
      (n >= 0 ==> AllDigits(s[..|s| - 4]) && DigitsValue(s[..|s| - 4] + s[|s| - 3..]) == n) &&
      (n < 0 ==> s[0] == '-' && AllDigits(s[1..|s| - 4]) && DigitsValue(s[1..|s| - 4] + s[|s| - 3..]) == -n)
  {
    var scaled := SetScaleHalfUp(ratio, 3);
    StripTrailingZerosWhole(scaled);
    assert FormatRatio(ratio) == ToString(scaled);
    var a, b := ToStringPlainParts(scaled);
    ThreePlacesText(scaled.unscaled < 0, a, b);
  }

  /** An optional sign, digits, a point and three more digits. */
  lemma ThreePlacesText(neg: bool, a: string, b: string)
    requires |a| >= 1 && |b| == 3 && AllDigits(a) && AllDigits(b)
    ensures var s := (if neg then "-" else "") + (a + "." + b);
      |s| >= 5 && s[|s| - 4] == '.' && AllDigits(s[|s| - 3..]) &&
      (!neg ==> AllDigits(s[..|s| - 4]) && s[..|s| - 4] + s[|s| - 3..] == a + b) &&
      (neg ==> s[0] == '-' && AllDigits(s[1..|s| - 4]) && s[1..|s| - 4] + s[|s| - 3..] == a + b)
  {
    var body := a + "." + b;
    AroundPoint(a, b);
    assert |body| == |a| + 4;
    if neg {
      var s := "-" + body;
      assert |s| == |a| + 5 && s[0] == '-';
      assert s[1..|s| - 4] == body[..|a|];
      assert s[|s| - 3..] == body[|a| + 1..];
      assert s[|s| - 4] == body[|a|];
    } else {
      var s := "" + body;
      assert s == body;
      assert s[..|s| - 4] == body[..|a|];
      assert s[|s| - 3..] == body[|a| + 1..];
    }
  }

  /** `exists(computeUnit = .. and not deleted [and id <> request id])`:
      whether the request would duplicate a live unit's compute unit. */
  predicate Conflict(units: map<int, Unit>, req: UnitRequest) {
    exists k :: k in units && units[k].deleteFlag == NOT_DELETED && units[k].computeUnit == ComputeUnit(req) &&
      (req.id.None? || k != req.id.value)
  }

  /** No two live units share a compute unit. */
  ghost predicate UniqueComputeUnits(units: map<int, Unit>) {
    forall a, b ::
      (a in units && b in units && a != b && units[a].deleteFlag == NOT_DELETED && units[b].deleteFlag == NOT_DELETED) ==>
      units[a].computeUnit != units[b].computeUnit
  }

  /** `buildProductUnit`: the row a request describes (the table's default
      marks it live). */
  function Built(req: UnitRequest): Unit {
    Unit(ComputeUnit(req), req.basicUnit, req.otherUnit, req.otherUnitTwo, req.otherUnitThree,
      req.ratio, req.ratioTwo, req.ratioThree, req.status, NOT_DELETED)
  }

  /** `updateById(entity)`: the non-null columns overwrite the stored row. */
  function Merged(stored: Unit, u: Unit): Unit {
    Unit(u.computeUnit,
      if u.basicUnit.Some? then u.basicUnit else stored.basicUnit,
      if u.otherUnit.Some? then u.otherUnit else stored.otherUnit,
      if u.otherUnitTwo.Some? then u.otherUnitTwo else stored.otherUnitTwo,
      if u.otherUnitThree.Some? then u.otherUnitThree else stored.otherUnitThree,
      if u.ratio.Some? then u.ratio else stored.ratio,
      if u.ratioTwo.Some? then u.ratioTwo else stored.ratioTwo,
      if u.ratioThree.Some? then u.ratioThree else stored.ratioThree,
      if u.status.Some? then u.status else stored.status,
      stored.deleteFlag)
  }

  /** `saveOrUpdate(entity)`: an update of the stored row under that id, or
      an insert. */
  function Saved(units: map<int, Unit>, id: int, u: Unit): Unit {
    if id in units then Merged(units[id], u) else u
  }

  /** The id a save writes under: the request's, or a generated one. */
  function UnitId(req: UnitRequest, freshId: int): int {
    if req.id.Some? then req.id.value else freshId
  }

  /** A save that passed the uniqueness check keeps compute units unique. */
  lemma SaveKeepsComputeUnitsUnique(units: map<int, Unit>, req: UnitRequest, freshId: int)
    requires UniqueComputeUnits(units) && !Conflict(units, req) && freshId !in units
    ensures UniqueComputeUnits(units[UnitId(req, freshId) := Saved(units, UnitId(req, freshId), Built(req))])
  {
    var id := UnitId(req, freshId);
    var after := units[id := Saved(units, id, Built(req))];
    assert after[id].computeUnit == ComputeUnit(req);
    forall a, b | a in after && b in after && a != b &&
      after[a].deleteFlag == NOT_DELETED && after[b].deleteFlag == NOT_DELETED
      ensures after[a].computeUnit != after[b].computeUnit
    {
      if a == id {
        assert b in units && b != id;
      } else if b == id {
        assert a in units && a != id;
      }
    }
  }

  /** Saving a unit again with its own compute unit is no conflict. */
  lemma ResaveIsNoConflict(units: map<int, Unit>, req: UnitRequest, id: int)
    requires UniqueComputeUnits(units) && req.id == Some(id) && id in units
    requires units[id].deleteFlag == NOT_DELETED && units[id].computeUnit == ComputeUnit(req)
    ensures !Conflict(units, req)
  {
  }

  /** The success and error constants of a save. */
  function SaveEnum(lang: Lang, isAdd: bool, ok: bool): CodeEnum {
    var name := "PRODUCT_UNIT_" + (if isAdd then "ADD" else "UPDATE") + (if ok then "_SUCCESS" else "_ERROR");
    Localized(lang, CodeEnum(name), CodeEnum(name + "_EN"))
  }

  class UnitService {
    var units: map<int, Unit>

    constructor(units: map<int, Unit>)
      ensures this.units == units
    {
      this.units := units;
    }

    /** `saveOrUpdate`, which reports the row written. */
    method SaveOrUpdate(id: int, u: Unit) returns (ok: bool)
      modifies this
      ensures units == old(units)[id := Saved(old(units), id, u)] && ok
    {
      units := units[id := Saved(units, id, u)];
      ok := true;
    }

    /** `addOrUpdateProductUnit`: a null request is refused, a duplicate
        compute unit is refused without writing, and otherwise the unit is
        saved under its own or a generated id. */
    method AddOrUpdateProductUnit(req: Option<UnitRequest>, freshId: int, lang: Lang) returns (r: Response<string>)
      requires freshId !in units
      modifies this
      ensures req.None? ==> r == ResponseMsg(PARAMETER_NULL) && units == old(units)
      ensures req.Some? && Conflict(old(units), req.value) ==>
        r == ResponseMsg(Localized(lang, CodeEnum("PRODUCT_COMPUTE_UNIT_EXIST"), CodeEnum("PRODUCT_COMPUTE_UNIT_EXIST_EN"))) &&
        units == old(units)
      ensures req.Some? && !Conflict(old(units), req.value) ==>
        var id := UnitId(req.value, freshId);
        units == old(units)[id := Saved(old(units), id, Built(req.value))] &&
        r == ResponseMsg(SaveEnum(lang, req.value.id.None?, true))
    {
      if req.None? {
        r := ResponseMsg(PARAMETER_NULL);
        return;
      }
      var u := req.value;
      var unitId := UnitId(u, freshId);
      if Conflict(units, u) {
        r := ResponseMsg(Localized(lang, CodeEnum("PRODUCT_COMPUTE_UNIT_EXIST"), CodeEnum("PRODUCT_COMPUTE_UNIT_EXIST_EN")));
        return;
      }
      var result := SaveOrUpdate(unitId, Built(u));
      r := ResponseMsg(SaveEnum(lang, u.id.None?, result));
    }

    /** `deleteProductUnit`: a null or empty list is refused; otherwise the
        listed rows are removed, and removing none is an error. */
    method DeleteProductUnit(ids: Option<seq<int>>, lang: Lang) returns (r: Response<string>)
      modifies this
      ensures ids.None? || |ids.value| == 0 ==> r == ResponseMsg(PARAMETER_NULL) && units == old(units)
      ensures ids.Some? && |ids.value| > 0 ==>
        units == old(units) - IdSet(ids.value) &&
        var ok := exists k :: k in old(units) && k in IdSet(ids.value);
        r == ResponseMsg(Localized(lang,
          CodeEnum(if ok then "PRODUCT_UNIT_DELETE_SUCCESS" else "PRODUCT_UNIT_DELETE_ERROR"),
          CodeEnum(if ok then "PRODUCT_UNIT_DELETE_SUCCESS_EN" else "PRODUCT_UNIT_DELETE_ERROR_EN")))
    {
      if ids.None? || |ids.value| == 0 {
        r := ResponseMsg(PARAMETER_NULL);
        return;
      }
      var idSet := IdSet(ids.value);
      var ok := exists k :: k in units && k in idSet;
      units := units - idSet;
      r := ResponseMsg(Localized(lang,
        CodeEnum(if ok then "PRODUCT_UNIT_DELETE_SUCCESS" else "PRODUCT_UNIT_DELETE_ERROR"),
        CodeEnum(if ok then "PRODUCT_UNIT_DELETE_SUCCESS_EN" else "PRODUCT_UNIT_DELETE_ERROR_EN")));
    }

    /** `updateUnitStatus`: a null request is refused; otherwise the row
        with that id takes the status, and matching no row is an error. */
    method UpdateUnitStatus(dto: Option<UnitStatus>, lang: Lang) returns (r: Response<string>)
      modifies this
      ensures dto.None? ==> r == ResponseMsg(PARAMETER_NULL) && units == old(units)
      ensures dto.Some? ==>
        var matched := dto.value.id.Some? && dto.value.id.value in old(units);
        units == (if matched && dto.value.status.Some?
          then old(units)[dto.value.id.value := old(units)[dto.value.id.value].(status := dto.value.status)]
          else old(units)) &&
        r == ResponseMsg(Localized(lang,
          CodeEnum(if matched then "UPDATE_PRODUCT_UNIT_STATUS_SUCCESS" else "UPDATE_PRODUCT_UNIT_STATUS_ERROR"),
          CodeEnum(if matched then "UPDATE_PRODUCT_UNIT_STATUS_SUCCESS_EN" else "UPDATE_PRODUCT_UNIT_STATUS_ERROR_EN")))
    {
      if dto.None? {
        r := ResponseMsg(PARAMETER_NULL);
        return;
      }
      var d := dto.value;
      var matched := d.id.Some? && d.id.value in units;
      if matched && d.status.Some? {
        units := units[d.id.value := units[d.id.value].(status := d.status)];
      }
      r := ResponseMsg(Localized(lang,
        CodeEnum(if matched then "UPDATE_PRODUCT_UNIT_STATUS_SUCCESS" else "UPDATE_PRODUCT_UNIT_STATUS_ERROR"),
        CodeEnum(if matched then "UPDATE_PRODUCT_UNIT_STATUS_SUCCESS_EN" else "UPDATE_PRODUCT_UNIT_STATUS_ERROR_EN")));
    }
  }
}
