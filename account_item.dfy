/** The row shaping of the account-item detail endpoint
    (`AccountItemController.getDetailList`): each detail row is copied into
    a JSON object, with a default bill number and the amount's sign taken
    from the type of the account head. */
module AccountItem {
  import opened Wrappers
  import opened Text
  import opened Decimals

  /** `AccountItemVo4List`, as the detail service returns it. */
  datatype AccountItemVo = AccountItemVo(
    accountId: Option<int>, accountName: Option<string>,
    inOutItemId: Option<int>, inOutItemName: Option<string>,
    billNumber: Option<string>,
    needDebt: Option<Decimal>, finishDebt: Option<Decimal>,
    eachAmount: Option<Decimal>, remark: Option<string>)

  /** One JSON object of the `rows` array. */
  datatype ItemRow = ItemRow(
    accountId: Option<int>, accountName: Option<string>,
    inOutItemId: Option<int>, inOutItemName: Option<string>,
    billNumber: string,
    needDebt: Option<Decimal>, finishDebt: Option<Decimal>,
    eachAmount: Option<Decimal>, remark: Option<string>)

  /** `BaseResponseInfo.data`: the `{total, rows}` object, or the failure text. */
  datatype DetailData = Outer(total: int, rows: seq<ItemRow>) | FailureText(text: string)

  datatype ResponseInfo = ResponseInfo(code: int, data: DetailData)

  const CODE_OK := 200
  const CODE_FAILED := 500
  const FETCH_FAILED := "获取数据失败"
  const BILL_NUMBER_DEFAULT := "QiChu"

  /** How the head's type string compares with `TYPE_MONEY_IN` and
      `TYPE_MONEY_OUT`; their values are parameters here. */
  datatype HeadKind = MoneyIn | MoneyOut | OtherKind

  function KindOf(headType: Option<string>, typeMoneyIn: string, typeMoneyOut: string): (k: HeadKind)
    ensures k == MoneyIn <==> headType == Some(typeMoneyIn)
    ensures k == MoneyOut <==> headType == Some(typeMoneyOut) && typeMoneyIn != typeMoneyOut
  {
    if headType == Some(typeMoneyIn) then MoneyIn
    else if headType == Some(typeMoneyOut) then MoneyOut
    else OtherKind
  }

  /** The `eachAmount` put into a row, or `Throws` when a null amount is
      subtracted from or compared with zero. */
  function EachAmount(kind: HeadKind, amount: Option<Decimal>): Result<Option<Decimal>> {
    match kind
    case MoneyIn => Ok(amount)
    case MoneyOut =>
      if amount.None? then Throws else Ok(Some(Subtract(ZERO, amount.value)))
    case OtherKind =>
      if amount.None? then Throws
      else if CompareTo(amount.value, ZERO) == -1 then Ok(Some(Subtract(ZERO, amount.value)))
      else Ok(Some(amount.value))
  }

  /** The sign rule: money-in amounts are copied, money-out amounts negated,
      and any other type shows the absolute value; a null amount passes
      through only for money-in. */
  lemma EachAmountSignRule(kind: HeadKind, x: Decimal)
    ensures kind == MoneyIn ==> EachAmount(kind, Some(x)) == Ok(Some(x)) && EachAmount(kind, None) == Ok(None)
    ensures kind != MoneyIn ==> EachAmount(kind, None) == Throws
    ensures EachAmount(kind, Some(x)).Ok? && EachAmount(kind, Some(x)).value.Some?
    ensures kind == MoneyOut ==> SameValue(EachAmount(kind, Some(x)).value.value, Negate(x))
    ensures kind == OtherKind ==>
      SameValue(EachAmount(kind, Some(x)).value.value, Abs(x)) &&
      EachAmount(kind, Some(x)).value.value.unscaled >= 0
  {
    ZeroMinusIsNegate(x);
    if kind == OtherKind {
      CompareToZero(x);
      if x.unscaled < 0 {
        assert Abs(x) == Negate(x);
        CompareToZero(Subtract(ZERO, x));
      } else {
        assert Abs(x) == x;
        SameValueReflexive(x);
      }
    }
  }

  /** `BigDecimal.ZERO.subtract(x)` has the value of `x.negate()`, with a
      non-negative scale. */
  lemma ZeroMinusIsNegate(x: Decimal)
    ensures SameValue(Subtract(ZERO, x), Negate(x))
    ensures Subtract(ZERO, x).unscaled > 0 <==> x.unscaled < 0
  {
    var m := Max(x.scale, 0);
    var p := Pow10(m - x.scale);
    var r := Subtract(ZERO, x);
    assert UnitsAt(ZERO, m) == 0 by {
      assert 0 * Pow10(m) == 0;
    }
    assert r.unscaled == -(x.unscaled * p);
    assert UnitsAt(r, m) == r.unscaled by {
      assert r.unscaled * 1 == r.unscaled;
    }
    NegatedUnits(x.unscaled, p);
    assert UnitsAt(Negate(x), m) == -(x.unscaled * p);
    SameValueAt(r, Negate(x), m);
    MultiplySign(x.unscaled, p);
  }

  lemma NegatedUnits(a: int, p: int)
    ensures -a * p == -(a * p)
  {
  }

  lemma MultiplySign(a: int, p: int)
    requires p >= 1
    ensures a < 0 <==> a * p < 0
  {
    if a < 0 {
      assert a * p <= a * 1;
    } else {
      assert a * p >= 0;
    }
  }

  /** What `getDetailList` promises of one row: every field copied, the bill
      number defaulted, and the amount shaped by the sign rule. */
  predicate ShapedFrom(row: ItemRow, vo: AccountItemVo, kind: HeadKind) {
    row.accountId == vo.accountId && row.accountName == vo.accountName &&
    row.inOutItemId == vo.inOutItemId && row.inOutItemName == vo.inOutItemName &&
    row.billNumber == (if HasLength(vo.billNumber) then vo.billNumber.value else BILL_NUMBER_DEFAULT) &&
    row.needDebt == vo.needDebt && row.finishDebt == vo.finishDebt &&
    EachAmount(kind, vo.eachAmount) == Ok(row.eachAmount) &&
    row.remark == vo.remark
  }

  /** The body of the row loop: the row copied, the bill number defaulted
      and the amount shaped, or `Throws` where the amount is null. */
  method ShapeRow(ai: AccountItemVo, kind: HeadKind) returns (r: Result<ItemRow>)
    ensures r.Ok? <==> EachAmount(kind, ai.eachAmount).Ok?
    ensures r.Ok? ==> ShapedFrom(r.value, ai, kind)
  {
    var billNumber := if HasLength(ai.billNumber) then ai.billNumber.value else BILL_NUMBER_DEFAULT;
    var eachAmount: Option<Decimal>;
    match kind {
      case MoneyIn =>
        eachAmount := ai.eachAmount;
      case MoneyOut =>
        if ai.eachAmount.None? {
          return Throws;
        }
        eachAmount := Some(Subtract(ZERO, ai.eachAmount.value));
      case OtherKind =>
        if ai.eachAmount.None? {
          return Throws;
        }
        eachAmount := Some(if CompareTo(ai.eachAmount.value, ZERO) == -1
                           then Subtract(ZERO, ai.eachAmount.value) else ai.eachAmount.value);
    }
    r := Ok(ItemRow(ai.accountId, ai.accountName, ai.inOutItemId, ai.inOutItemName, billNumber,
                    ai.needDebt, ai.finishDebt, eachAmount, ai.remark));
  }

  /** `getDetailList(headerId)`. `details` is what the detail service returns
      for the header and `head` the account head the head service returns
      (`None` when there is none, otherwise its type). A null `headerId`, a
      missing head or a row whose amount cannot be shaped makes the method
      throw inside its `try`, which answers 500. */
  method GetDetailList(headerId: Option<int>, details: seq<AccountItemVo>, head: Option<Option<string>>,
                       typeMoneyIn: string, typeMoneyOut: string)
    returns (res: ResponseInfo)
    ensures res.code == CODE_OK || res == ResponseInfo(CODE_FAILED, FailureText(FETCH_FAILED))
    ensures headerId.None? ==> res.code == CODE_FAILED
    ensures headerId == Some(0) ==> res == ResponseInfo(CODE_OK, Outer(0, []))
    ensures res.code == CODE_OK <==>
      headerId.Some? &&
      (headerId.value == 0 ||
       (head.Some? &&
        forall j :: 0 <= j < |details| ==>
          EachAmount(KindOf(head.value, typeMoneyIn, typeMoneyOut), details[j].eachAmount).Ok?))
    ensures res.code == CODE_OK && headerId.value != 0 ==>
      res.data.Outer? && res.data.total == |res.data.rows| == |details| &&
      forall j :: 0 <= j < |details| ==>
        ShapedFrom(res.data.rows[j], details[j], KindOf(head.value, typeMoneyIn, typeMoneyOut))
  {
    if headerId.None? {
      return ResponseInfo(CODE_FAILED, FailureText(FETCH_FAILED));
    }
    var dataList: seq<AccountItemVo> := [];
    var headType: Option<string> := None;
    if headerId.value != 0 {
      dataList := details;
      if head.None? {
        return ResponseInfo(CODE_FAILED, FailureText(FETCH_FAILED));
      }
      headType := head.value;
    }
    var total := |dataList|;
    var kind := KindOf(headType, typeMoneyIn, typeMoneyOut);
    var dataArray: seq<ItemRow> := [];
    var i := 0;
    while i < |dataList|
      invariant 0 <= i <= |dataList|
      invariant |dataArray| == i
      invariant forall j :: 0 <= j < i ==> ShapedFrom(dataArray[j], dataList[j], kind)
      invariant forall j :: 0 <= j < i ==> EachAmount(kind, dataList[j].eachAmount).Ok?
    {
      var item := ShapeRow(dataList[i], kind);
      if item.Throws? {
        return ResponseInfo(CODE_FAILED, FailureText(FETCH_FAILED));
      }
      dataArray := dataArray + [item.value];
      i := i + 1;
    }
    return ResponseInfo(CODE_OK, Outer(total, dataArray));
  }
}
