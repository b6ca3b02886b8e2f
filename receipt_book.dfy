/** The receipt bookkeeping of `ReceiptPurchaseServiceImpl` and
    `ReceiptSaleServiceImpl`: the four receipt flows (purchase storage,
    purchase refund, sale shipment, sale refund) share one shape, which
    differs only in the direction money moves, the stock type applied and
    the names of the result constants. */
module Receipts {
  import opened Wrappers
  import opened Responses
  import opened Decimals
  import opened JavaInts
  import opened ReceiptCommon
  import opened ProductStock
  import opened Tables

  // ---------------------------------------------------------------------
  // Requests and flows
  // ---------------------------------------------------------------------

  /** A row of the request's `tableData`: the columns the bookkeeping reads. */
  datatype LineItem = LineItem(barcode: Option<string>, warehouseId: Option<int>, productNumber: int, amount: Option<Decimal>)

  /** The request DTO of an add-or-update: `amount` is `thisPaymentAmount`,
      `thisRefundAmount` or `thisCollectAmount`, `relatedPersonId` the
      supplier or the customer, `operatorIds` the users a create notifies. */
  datatype ReceiptRequest = ReceiptRequest(
    id: Option<int>, relatedPersonId: Option<int>, receiptNumber: Option<string>, accountId: Option<int>,
    amount: Option<Decimal>, arrearsAmount: Option<Decimal>, status: Option<int>, tableData: seq<LineItem>,
    operatorIds: Option<seq<int>>)

  /** A receipt flow: the stem of its result constants, `+1` when its money
      enters the account and `-1` when it leaves, and the stock type its rows
      apply (1 adds goods, 2 removes them). */
  datatype Flow = Flow(stem: string, direction: int, stockType: int)

  const PURCHASE_STORAGE := Flow("PURCHASE_RECEIPT", -1, 1)
  const PURCHASE_REFUND := Flow("PURCHASE_REFUND", 1, 2)
  const SALE_SHIPMENTS := Flow("SALE_SHIPMENTS", 1, 2)
  const SALE_REFUND := Flow("SALE_REFUND", -1, 1)

  predicate ValidFlow(f: Flow) {
    f == PURCHASE_STORAGE || f == PURCHASE_REFUND || f == SALE_SHIPMENTS || f == SALE_REFUND
  }

  /** The stock type that undoes the flow's own. */
  function ReverseType(f: Flow): (t: int)
    requires ValidFlow(f)
    ensures (f.stockType == 1 && t == 2) || (f.stockType == 2 && t == 1)
  {
    3 - f.stockType
  }

  /** `ADD_<stem>_SUCCESS`, `UPDATE_<stem>_ERROR`, ... with the `_EN`
      constant for every language but Chinese. */
  function ResultEnum(f: Flow, lang: Lang, isUpdate: bool, ok: bool): CodeEnum {
    var name := (if isUpdate then "UPDATE_" else "ADD_") + f.stem + (if ok then "_SUCCESS" else "_ERROR");
    Localized(lang, CodeEnum(name), CodeEnum(name + "_EN"))
  }

  /** The constants the delete entry points pass: the English error of the
      purchase storage delete is spelt `DELETE_PURCHASE_RECEIPT_ERRORS_EN`. */
  function DeleteEnum(f: Flow, lang: Lang, ok: bool): CodeEnum {
    var name := "DELETE_" + f.stem + (if ok then "_SUCCESS" else "_ERROR");
    var en := if f == PURCHASE_STORAGE && !ok then name + "S_EN" else name + "_EN";
    Localized(lang, CodeEnum(name), CodeEnum(en))
  }

  // ---------------------------------------------------------------------
  // Money
  // ---------------------------------------------------------------------

  /** The `changeAmount` a main stores: the amount, negated for the flows
      whose money leaves the account; a null amount stores null. */
  function ChangeAmount(f: Flow, amount: Option<Decimal>): Option<Decimal> {
    if amount.None? then None
    else if f.direction == -1 then Some(Negate(amount.value))
    else amount
  }

  /** The same column as the source computes it: `amount.negate()` is
      evaluated before the null test, so a null amount throws in the flows
      that negate. */
  function ChangeAmountAsWritten(f: Flow, amount: Option<Decimal>): Result<Option<Decimal>> {
    if f.direction == -1 && amount.None? then Throws
    else Ok(ChangeAmount(f, amount))
  }

  /** The two agree whenever the source does not throw, and the source
      throws exactly for a null amount in a negating flow. */
  lemma ChangeAmountAsWrittenThrows(f: Flow, amount: Option<Decimal>)
    ensures ChangeAmountAsWritten(f, amount).Throws? <==> f.direction == -1 && amount.None?
    ensures ChangeAmountAsWritten(f, amount).Ok? ==> ChangeAmountAsWritten(f, amount).value == ChangeAmount(f, amount)
    ensures ChangeAmount(f, amount).None? <==> amount.None?
  {
  }

  /** A purchase storage saved without a payment amount: the source throws,
      the corrected column stays null. */
  lemma StorageWithoutPayment()
    ensures ChangeAmountAsWritten(PURCHASE_STORAGE, None) == Throws
    ensures ChangeAmountAsWritten(SALE_REFUND, None) == Throws
    ensures ChangeAmount(PURCHASE_STORAGE, None) == None
  {
  }

  /** The account moves by `amount`: `add` for incoming money, `subtract`
      for outgoing money. */
  function Move(f: Flow, balance: Decimal, amount: Decimal): Decimal {
    if f.direction == 1 then Add(balance, amount) else Subtract(balance, amount)
  }

  /** The inverse move, as the source writes the restore of the previous rows. */
  function Unmove(f: Flow, balance: Decimal, amount: Decimal): Decimal {
    if f.direction == 1 then Subtract(balance, amount) else Add(balance, amount)
  }

  lemma MoveValue(f: Flow, balance: Decimal, amount: Decimal, m: int)
    requires ValidFlow(f) && m >= balance.scale && m >= amount.scale
    ensures Move(f, balance, amount).scale <= m
    ensures UnitsAt(Move(f, balance, amount), m) == UnitsAt(balance, m) + f.direction * UnitsAt(amount, m)
  {
    if f.direction == 1 {
      AddValue(balance, amount, m);
    } else {
      SubtractValue(balance, amount, m);
    }
  }

  lemma ChangeValue(f: Flow, amount: Decimal, m: int)
    requires ValidFlow(f) && m >= amount.scale
    ensures ChangeAmount(f, Some(amount)).Some? && ChangeAmount(f, Some(amount)).value.scale == amount.scale
    ensures UnitsAt(ChangeAmount(f, Some(amount)).value, m) == f.direction * UnitsAt(amount, m)
  {
  }

  /** The account moves by exactly the `changeAmount` the main stores. */
  lemma MoveIsStoredChange(f: Flow, balance: Decimal, amount: Decimal)
    requires ValidFlow(f)
    ensures SameValue(Move(f, balance, amount), Add(balance, ChangeAmount(f, Some(amount)).value))
  {
    var m := Max(balance.scale, amount.scale);
    MoveValue(f, balance, amount, m);
    ChangeValue(f, amount, m);
    AddValue(balance, ChangeAmount(f, Some(amount)).value, m);
    SameValueAt(Move(f, balance, amount), Add(balance, ChangeAmount(f, Some(amount)).value), m);
  }

  /** `account.currentAmount` per account id. */
  type Accounts = map<int, Option<Decimal>>

  /** `accountService.getById(accountId) != null`; a null id finds nothing. */
  predicate HasAccount(accounts: Accounts, accountId: Option<int>) {
    accountId.Some? && accountId.value in accounts
  }

  /** The accounts after a create: the request's account moves by the
      amount when both exist; a null stored balance makes the move throw. */
  function AccountsAfterCreate(f: Flow, accounts: Accounts, accountId: Option<int>, amount: Option<Decimal>): (r: Result<Accounts>)
    ensures r.Throws? <==> HasAccount(accounts, accountId) && amount.Some? && accounts[accountId.value].None?
    ensures r.Ok? ==> r.value.Keys == accounts.Keys
    ensures r.Ok? ==> forall k :: k in accounts && (!HasAccount(accounts, accountId) || k != accountId.value || amount.None?) ==>
      r.value[k] == accounts[k]
    ensures r.Ok? && HasAccount(accounts, accountId) && amount.Some? ==>
      r.value[accountId.value] == Some(Move(f, accounts[accountId.value].value, amount.value))
  {
    if HasAccount(accounts, accountId) && amount.Some? then
      var cur := accounts[accountId.value];
      if cur.None? then Throws else Ok(accounts[accountId.value := Some(Move(f, cur.value, amount.value))])
    else Ok(accounts)
  }

  /** The balance after an update: the change the main stored before the
      update is undone and the new amount, when there is one, applied. */
  function UpdatedBalance(f: Flow, balance: Decimal, storedChange: Option<Decimal>, amount: Option<Decimal>): Decimal {
    var restored := Subtract(balance, storedChange.GetOr(ZERO));
    if amount.Some? then Move(f, restored, amount.value) else restored
  }

  /** The accounts after an update as evidently intended: the request's
      account, when it exists, takes the corrected balance; a null stored
      balance throws. */
  function IntendedAccountsAfterUpdate(f: Flow, accounts: Accounts, accountId: Option<int>, storedChange: Option<Decimal>, amount: Option<Decimal>): (r: Result<Accounts>)
    ensures r.Throws? <==> HasAccount(accounts, accountId) && accounts[accountId.value].None?
    ensures r.Ok? ==> r.value.Keys == accounts.Keys
    ensures r.Ok? ==> forall k :: k in accounts && (!HasAccount(accounts, accountId) || k != accountId.value) ==>
      r.value[k] == accounts[k]
    ensures r.Ok? && HasAccount(accounts, accountId) ==>
      r.value[accountId.value] == Some(UpdatedBalance(f, accounts[accountId.value].value, storedChange, amount))
  {
    if HasAccount(accounts, accountId) then
      var cur := accounts[accountId.value];
      if cur.None? then Throws
      else Ok(accounts[accountId.value := Some(UpdatedBalance(f, cur.value, storedChange, amount))])
    else Ok(accounts)
  }

  /** An update undoes the create it follows: the balance ends as if only
      the updated amount had ever been applied. */
  lemma UpdateUndoesCreate(f: Flow, balance: Decimal, created: Decimal, amount: Option<Decimal>)
    requires ValidFlow(f)
    ensures SameValue(
      UpdatedBalance(f, Move(f, balance, created), ChangeAmount(f, Some(created)), amount),
      if amount.Some? then Move(f, balance, amount.value) else balance)
  {
    var m0 := Max(balance.scale, created.scale);
    var m := if amount.Some? then Max(m0, amount.value.scale) else m0;
    var moved := Move(f, balance, created);
    var stored := ChangeAmount(f, Some(created)).value;
    MoveValue(f, balance, created, m);
    ChangeValue(f, created, m);
    var restored := Subtract(moved, stored);
    SubtractValue(moved, stored, m);
    assert UnitsAt(restored, m) == UnitsAt(balance, m);
    if amount.Some? {
      MoveValue(f, restored, amount.value, m);
      MoveValue(f, balance, amount.value, m);
      SameValueAt(Move(f, restored, amount.value), Move(f, balance, amount.value), m);
    } else {
      SameValueAt(restored, balance, m);
    }
  }

  /** The account after an update of an unchanged request is the account
      after its create. */
  lemma UpdateOfSameAmountKeepsBalance(f: Flow, balance: Decimal, amount: Decimal)
    requires ValidFlow(f)
    ensures SameValue(UpdatedBalance(f, Move(f, balance, amount), ChangeAmount(f, Some(amount)), Some(amount)), Move(f, balance, amount))
  {
    UpdateUndoesCreate(f, balance, amount, Some(amount));
  }

  /** The update balance as the storage, shipment and sale refund flows
      write it: the previous rows' totals are reduced with `add` (a null
      total throws), moved back, and the new amount applied. */
  function UpdateBalanceAsWritten(f: Flow, balance: Decimal, beforeTotals: seq<Option<Decimal>>, amount: Option<Decimal>): (r: Result<Decimal>)
    ensures r.Ok? <==> AllPresent(beforeTotals)
  {
    var total := RowsTotal(beforeTotals);
    if total.Throws? then Throws
    else
      var restored := Unmove(f, balance, total.value);
      Ok(if amount.Some? then Move(f, restored, amount.value) else restored)
  }

  /** `map(totalAmount).reduce(ZERO, add)` over the previous rows: a null
      total throws. */
  function RowsTotal(totals: seq<Option<Decimal>>): (r: Result<Decimal>)
    ensures r.Ok? <==> AllPresent(totals)
  {
    if AllPresent(totals) then Ok(Sum(Values(totals))) else Throws
  }

  /** The update balance as the purchase refund flow writes it: the refund
      is subtracted (a null refund throws) and the previous rows' totals are
      added back. */
  function RefundUpdateBalanceAsWritten(balance: Decimal, beforeTotals: seq<Option<Decimal>>, refund: Option<Decimal>): (r: Result<Decimal>)
    ensures r.Ok? <==> AllPresent(beforeTotals) && refund.Some?
  {
    var total := RowsTotal(beforeTotals);
    if total.Throws? then Throws
    else if refund.None? then Throws
    else
      var refunded := Subtract(balance, refund.value);
      Ok(Add(refunded, total.value))
  }

  /** The totals of the previous rows, as `map(getTotalAmount)` reads them. */
  function TotalsOf(rows: seq<ReceiptSub>): (r: seq<Option<Decimal>>)
    ensures |r| == |rows| && forall i :: 0 <= i < |rows| ==> r[i] == rows[i].totalAmount
  {
    seq(|rows|, i requires 0 <= i < |rows| => rows[i].totalAmount)
  }

  /** The update balance the flow's own code computes. */
  function UpdateBalanceOf(f: Flow, balance: Decimal, beforeTotals: seq<Option<Decimal>>, amount: Option<Decimal>): (r: Result<Decimal>)
    ensures r.Ok? <==> AllPresent(beforeTotals) && (f == PURCHASE_REFUND ==> amount.Some?)
  {
    if f == PURCHASE_REFUND then RefundUpdateBalanceAsWritten(balance, beforeTotals, amount)
    else UpdateBalanceAsWritten(f, balance, beforeTotals, amount)
  }

  /** The accounts after an update as the source moves them: the request's
      account, when it exists, takes the flow's update balance, computed
      from the previous rows' totals; a null stored balance, a null
      previous-row total or, in the purchase refund, a null refund throws. */
  function AccountsAfterUpdate(f: Flow, accounts: Accounts, accountId: Option<int>, beforeTotals: seq<Option<Decimal>>, amount: Option<Decimal>): (r: Result<Accounts>)
    ensures r.Throws? <==> (HasAccount(accounts, accountId) &&
      (accounts[accountId.value].None? || !AllPresent(beforeTotals) || (f == PURCHASE_REFUND && amount.None?)))
    ensures r.Ok? ==> r.value.Keys == accounts.Keys
    ensures r.Ok? ==> forall k :: k in accounts && (!HasAccount(accounts, accountId) || k != accountId.value) ==>
      r.value[k] == accounts[k]
    ensures r.Ok? && HasAccount(accounts, accountId) ==>
      r.value[accountId.value] == Some(UpdateBalanceOf(f, accounts[accountId.value].value, beforeTotals, amount).value)
  {
    if HasAccount(accounts, accountId) then
      var cur := accounts[accountId.value];
      if cur.None? then Throws
      else
        var balance := UpdateBalanceOf(f, cur.value, beforeTotals, amount);
        if balance.Throws? then Throws else Ok(accounts[accountId.value := Some(balance.value)])
    else Ok(accounts)
  }

  /** With no previous row and an amount given, the source's update balance
      has the value of the corrected one: both restore nothing, then move by
      the amount. */
  lemma UpdateBalanceWithoutRows(f: Flow, balance: Decimal, amount: Decimal)
    requires ValidFlow(f) && f != PURCHASE_REFUND
    ensures UpdateBalanceOf(f, balance, [], Some(amount)).Ok?
    ensures SameValue(UpdateBalanceOf(f, balance, [], Some(amount)).value, UpdatedBalance(f, balance, None, Some(amount)))
  {
    var m := Max(balance.scale, Max(amount.scale, 0));
    assert AllPresent([]) && Values([]) == [];
    var zero := Sum([]);
    assert zero == ZERO;
    assert UnitsAt(ZERO, m) == 0;
    var restored1 := Unmove(f, balance, zero);
    var restored2 := Subtract(balance, ZERO);
    if f.direction == 1 {
      SubtractValue(balance, zero, m);
    } else {
      AddValue(balance, zero, m);
    }
    SubtractValue(balance, ZERO, m);
    MoveValue(f, restored1, amount, m);
    MoveValue(f, restored2, amount, m);
    SameValueAt(Move(f, restored1, amount), Move(f, restored2, amount), m);
  }

  /** The goods total of a receipt with one row is that row's total. */
  lemma SumOfOneRow(d: Decimal)
    requires d.scale >= 0
    ensures RowsTotal([Some(d)]) == Ok(d)
  {
    assert AllPresent([Some(d)]);
    assert Values([Some(d)]) == [d];
    assert [d][..0] == [];
    assert Sum([d]) == Add(ZERO, d);
    assert Pow10(0) == 1;
    assert UnitsAt(ZERO, d.scale) == 0;
    assert UnitsAt(d, d.scale) == d.unscaled;
  }

  /** A purchase of 100 paid 60 from an empty account leaves it at -60. */
  lemma StorageCreateBalance()
    ensures Move(PURCHASE_STORAGE, ZERO, Decimal(60, 0)) == Decimal(-60, 0)
  {
    assert Pow10(0) == 1;
  }

  /** Saving that purchase again unchanged, the source moves the account
      back by the goods total (100), not by the payment, and leaves it at
      -20. */
  lemma StorageUpdateAsWritten()
    ensures UpdateBalanceAsWritten(PURCHASE_STORAGE, Decimal(-60, 0), [Some(Decimal(100, 0))], Some(Decimal(60, 0))) == Ok(Decimal(-20, 0))
  {
    UpdateOneRow(PURCHASE_STORAGE, Decimal(-60, 0), Decimal(100, 0), Some(Decimal(60, 0)));
    StorageArithmetic(Decimal(-60, 0), Decimal(100, 0), Decimal(60, 0));
  }

  /** With one previous row the source's update moves the balance back by
      that row's total, whatever the stored payment was. */
  lemma UpdateOneRow(f: Flow, balance: Decimal, d: Decimal, amount: Option<Decimal>)
    requires d.scale >= 0
    ensures UpdateBalanceAsWritten(f, balance, [Some(d)], amount) ==
      Ok(if amount.Some? then Move(f, Unmove(f, balance, d), amount.value) else Unmove(f, balance, d))
  {
    SumOfOneRow(d);
  }

  lemma StorageArithmetic(b: Decimal, h: Decimal, p: Decimal)
    requires b == Decimal(-60, 0) && h == Decimal(100, 0) && p == Decimal(60, 0)
    ensures Move(PURCHASE_STORAGE, Unmove(PURCHASE_STORAGE, b, h), p) == Decimal(-20, 0)
  {
    assert Pow10(0) == 1;
  }

  /** The corrected update leaves it at -60, as the create did. */
  lemma StorageUpdateCorrected()
    ensures UpdatedBalance(PURCHASE_STORAGE, Decimal(-60, 0), ChangeAmount(PURCHASE_STORAGE, Some(Decimal(60, 0))), Some(Decimal(60, 0))) == Decimal(-60, 0)
  {
    assert Pow10(0) == 1;
  }

  /** A purchase refund of 100 paid into an empty account leaves it at 100. */
  lemma RefundCreateBalance()
    ensures Move(PURCHASE_REFUND, ZERO, Decimal(100, 0)) == Decimal(100, 0)
  {
    assert Pow10(0) == 1;
  }

  /** Updating that refund (goods worth 100) to a refund of 30, the source
      subtracts the 30 and adds the goods back: 170. */
  lemma RefundUpdateAsWritten()
    ensures RefundUpdateBalanceAsWritten(Decimal(100, 0), [Some(Decimal(100, 0))], Some(Decimal(30, 0))) == Ok(Decimal(170, 0))
  {
    RefundOneRow(Decimal(100, 0), Decimal(100, 0), Decimal(30, 0));
    RefundArithmetic(Decimal(100, 0), Decimal(30, 0));
  }

  /** With one previous row the source's refund update is the balance less
      the new refund plus the row's total, whatever the stored refund was. */
  lemma RefundOneRow(balance: Decimal, d: Decimal, refund: Decimal)
    requires d.scale >= 0
    ensures RefundUpdateBalanceAsWritten(balance, [Some(d)], Some(refund)) == Ok(Add(Subtract(balance, refund), d))
  {
    SumOfOneRow(d);
  }

  lemma RefundArithmetic(h: Decimal, t: Decimal)
    requires h == Decimal(100, 0) && t == Decimal(30, 0)
    ensures Add(Subtract(h, t), h) == Decimal(170, 0)
  {
    assert Pow10(0) == 1;
  }

  /** Undoing the 100 and applying the 30 leaves 30. */
  lemma RefundUpdateCorrected()
    ensures UpdatedBalance(PURCHASE_REFUND, Decimal(100, 0), ChangeAmount(PURCHASE_REFUND, Some(Decimal(100, 0))), Some(Decimal(30, 0))) == Decimal(30, 0)
  {
    assert Pow10(0) == 1;
  }

  /** `totalCollectAmount` of the shipment list: `arrearsAmount.add(changeAmount)`. */
  function TotalCollectAmount(m: ReceiptMain): (r: Result<Decimal>)
    ensures r.Ok? <==> m.arrearsAmount.Some? && m.changeAmount.Some?
    ensures r.Ok? ==> SameValue(Subtract(r.value, m.changeAmount.value), m.arrearsAmount.value)
  {
    if m.arrearsAmount.None? || m.changeAmount.None? then Throws
    else
      AddThenSubtract(m.arrearsAmount.value, m.changeAmount.value);
      Ok(Add(m.arrearsAmount.value, m.changeAmount.value))
  }

  // ---------------------------------------------------------------------
  // Main and sub rows
  // ---------------------------------------------------------------------

  /** The main written by a create; the table's default marks it live. */
  function CreatedMain(f: Flow, req: ReceiptRequest): ReceiptMain {
    ReceiptMain(req.relatedPersonId, req.receiptNumber, req.accountId, ChangeAmount(f, req.amount),
      req.arrearsAmount, req.status, NOT_DELETED)
  }

  /** The update's `set` clauses: supplier or customer, change, arrears and
      status only when the request carries them; the account always. */
  function UpdatedMain(f: Flow, m: ReceiptMain, req: ReceiptRequest): ReceiptMain {
    m.(relatedPersonId := if req.relatedPersonId.Some? then req.relatedPersonId else m.relatedPersonId,
       changeAmount := if req.amount.Some? then ChangeAmount(f, req.amount) else m.changeAmount,
       arrearsAmount := if req.arrearsAmount.Some? then req.arrearsAmount else m.arrearsAmount,
       status := if req.status.Some? then req.status else m.status,
       accountId := req.accountId)
  }

  /** Applying the same update twice is applying it once, and an update
      neither renames nor revives a receipt. */
  lemma UpdatedMainIdempotent(f: Flow, m: ReceiptMain, req: ReceiptRequest)
    ensures UpdatedMain(f, UpdatedMain(f, m, req), req) == UpdatedMain(f, m, req)
    ensures UpdatedMain(f, m, req).receiptNumber == m.receiptNumber
    ensures UpdatedMain(f, m, req).deleteFlag == m.deleteFlag
    ensures req.amount.None? ==> UpdatedMain(f, m, req).changeAmount == m.changeAmount
  {
  }

  /** The ids among `keys` of the subs of `mainId`, in the same order. */
  function SubIdsOf(subs: map<int, ReceiptSub>, keys: seq<int>, mainId: int): (r: seq<int>)
    requires forall i :: 0 <= i < |keys| ==> keys[i] in subs
    ensures forall j :: 0 <= j < |r| ==> r[j] in subs && subs[r[j]].mainId == mainId
    ensures forall i :: 0 <= i < |keys| && subs[keys[i]].mainId == mainId ==> keys[i] in r
    decreases |keys|
  {
    if |keys| == 0 then []
    else
      var init := SubIdsOf(subs, keys[..|keys| - 1], mainId);
      var k := keys[|keys| - 1];
      if subs[k].mainId == mainId then init + [k] else init
  }

  /** `lambdaQuery().eq(mainId, id).list()`: every sub of the main, deleted
      or not, in id order. */
  function SubsOf(subs: map<int, ReceiptSub>, mainId: int): (rows: seq<ReceiptSub>)
    ensures forall i :: 0 <= i < |rows| ==> rows[i].mainId == mainId && rows[i] in subs.Values
    ensures forall k :: k in subs && subs[k].mainId == mainId ==> subs[k] in rows
  {
    var keys := AscendingKeys(subs.Keys);
    var ids := SubIdsOf(subs, keys, mainId);
    var rows := seq(|ids|, i requires 0 <= i < |ids| => subs[ids[i]]);
    assert forall k :: k in subs && subs[k].mainId == mainId ==> subs[k] in rows by {
      forall k | k in subs && subs[k].mainId == mainId
        ensures subs[k] in rows
      {
        var i :| 0 <= i < |keys| && keys[i] == k;
        var j :| 0 <= j < |ids| && ids[j] == k;
        assert rows[j] == subs[k];
      }
    }
    rows
  }

  /** `lambdaUpdate().eq(mainId, id).remove()`: a physical delete. */
  function WithoutSubsOf(subs: map<int, ReceiptSub>, mainId: int): (r: map<int, ReceiptSub>)
    ensures forall k :: k in r <==> k in subs && subs[k].mainId != mainId
    ensures forall k :: k in r ==> r[k] == subs[k]
  {
    map k | k in subs && subs[k].mainId != mainId :: subs[k]
  }

  /** The sub rows built from the request's table, one per line, in order. */
  function NewSubs(mainId: int, items: seq<LineItem>): (rows: seq<ReceiptSub>)
    ensures |rows| == |items|
    ensures forall i :: 0 <= i < |items| ==> rows[i].mainId == mainId && rows[i].totalAmount == items[i].amount
  {
    seq(|items|, i requires 0 <= i < |items| =>
      ReceiptSub(mainId, items[i].barcode, items[i].warehouseId, items[i].productNumber, items[i].amount, NOT_DELETED))
  }

  /** Ids from the id generator: pairwise distinct and not yet used. */
  predicate FreshIds(subs: map<int, ReceiptSub>, ids: seq<int>) {
    Distinct(ids) && forall i :: 0 <= i < |ids| ==> ids[i] !in subs
  }

  /** `saveBatch(rows)` under the generated ids. */
  function InsertAll(subs: map<int, ReceiptSub>, ids: seq<int>, rows: seq<ReceiptSub>): (r: map<int, ReceiptSub>)
    requires |ids| == |rows|
    decreases |ids|
  {
    if |ids| == 0 then subs
    else InsertAll(subs, ids[..|ids| - 1], rows[..|rows| - 1])[ids[|ids| - 1] := rows[|rows| - 1]]
  }

  /** A batch under fresh ids keeps every row there was and adds exactly the
      new ones. */
  lemma InsertAllAdds(subs: map<int, ReceiptSub>, ids: seq<int>, rows: seq<ReceiptSub>)
    requires |ids| == |rows| && FreshIds(subs, ids)
    ensures forall k :: k in InsertAll(subs, ids, rows) <==> k in subs || k in ids
    ensures forall k :: k in subs ==> InsertAll(subs, ids, rows)[k] == subs[k]
    ensures forall j :: 0 <= j < |ids| ==> InsertAll(subs, ids, rows)[ids[j]] == rows[j]
  {
    InsertAllKeys(subs, ids, rows);
    InsertAllKeeps(subs, ids, rows);
    InsertAllRows(subs, ids, rows);
  }

  lemma {:induction false} InsertAllKeys(subs: map<int, ReceiptSub>, ids: seq<int>, rows: seq<ReceiptSub>)
    requires |ids| == |rows|
    ensures forall k :: k in InsertAll(subs, ids, rows) <==> k in subs || k in ids
    decreases |ids|
  {
    if |ids| > 0 {
      var n := |ids| - 1;
      InsertAllKeys(subs, ids[..n], rows[..n]);
      assert ids == ids[..n] + [ids[n]];
    }
  }

  lemma {:induction false} InsertAllKeeps(subs: map<int, ReceiptSub>, ids: seq<int>, rows: seq<ReceiptSub>)
    requires |ids| == |rows| && FreshIds(subs, ids)
    ensures forall k :: k in subs ==> k in InsertAll(subs, ids, rows) && InsertAll(subs, ids, rows)[k] == subs[k]
    decreases |ids|
  {
    if |ids| > 0 {
      var n := |ids| - 1;
      assert FreshIds(subs, ids[..n]) by {
        forall i | 0 <= i < n ensures ids[..n][i] == ids[i] { }
      }
      InsertAllKeeps(subs, ids[..n], rows[..n]);
    }
  }

  lemma {:induction false} InsertAllRows(subs: map<int, ReceiptSub>, ids: seq<int>, rows: seq<ReceiptSub>)
    requires |ids| == |rows| && Distinct(ids)
    ensures forall j :: 0 <= j < |ids| ==> ids[j] in InsertAll(subs, ids, rows) && InsertAll(subs, ids, rows)[ids[j]] == rows[j]
    decreases |ids|
  {
    if |ids| > 0 {
      var n := |ids| - 1;
      assert Distinct(ids[..n]) by {
        forall i | 0 <= i < n ensures ids[..n][i] == ids[i] { }
      }
      InsertAllRows(subs, ids[..n], rows[..n]);
      forall j | 0 <= j < n
        ensures InsertAll(subs, ids, rows)[ids[j]] == rows[j]
      {
        assert ids[..n][j] == ids[j] && rows[..n][j] == rows[j];
      }
    }
  }

  // ---------------------------------------------------------------------
  // The whole add-or-update
  // ---------------------------------------------------------------------

  /** What a receipt service stores: its mains and subs, the accounts and
      the stock quantities. */
  datatype Books = Books(mains: map<int, ReceiptMain>, subs: map<int, ReceiptSub>, accounts: Accounts, quantity: map<Slot, int>)

  /** The books after a call and the envelope it returns. */
  datatype Outcome = Outcome(books: Books, response: Response<string>)

  /** An update of main `id` as the source performs it: the previous rows'
      stock is reversed, the main's `set` clauses applied (the negating
      flows evaluate `amount.negate()` first, so a null amount throws), the
      rows replaced, the new rows' stock applied with the two-pass stock
      update and the account moved by the flow's update balance; an
      exception rolls everything back. */
  function UpdateOutcome(f: Flow, lang: Lang, b: Books, skuOf: map<string, int>, req: ReceiptRequest, id: int, subIds: seq<int>): Result<Outcome>
    requires ValidFlow(f) && AllInts(b.quantity) && |subIds| == |req.tableData|
  {
    var before := SubsOf(b.subs, id);
    if ChangeAmountAsWritten(f, req.amount).Throws? then Throws
    else
      var accounts1 := AccountsAfterUpdate(f, b.accounts, req.accountId, TotalsOf(before), req.amount);
      if accounts1.Throws? then Throws
      else Ok(Outcome(Books(MainsAfterUpdate(f, b.mains, req, id), SubsAfterUpdate(b.subs, req, id, subIds), accounts1.value,
          StockAfterUpdate(f, skuOf, b.quantity, b.subs, req, id)),
        ResponseMsg(ResultEnum(f, lang, true, id in b.mains && |req.tableData| > 0))))
  }

  /** The same update as evidently intended: a null amount leaves the change
      alone, the account is moved back by the change the main stored, and
      the stock update applies every row. */
  function IntendedUpdateOutcome(f: Flow, lang: Lang, b: Books, skuOf: map<string, int>, req: ReceiptRequest, id: int, subIds: seq<int>): Result<Outcome>
    requires ValidFlow(f) && AllInts(b.quantity) && |subIds| == |req.tableData|
  {
    var stored := if id in b.mains then b.mains[id].changeAmount else None;
    var accounts1 := IntendedAccountsAfterUpdate(f, b.accounts, req.accountId, stored, req.amount);
    if accounts1.Throws? then Throws
    else Ok(Outcome(Books(MainsAfterUpdate(f, b.mains, req, id), SubsAfterUpdate(b.subs, req, id, subIds), accounts1.value,
        IntendedRestock(f, skuOf, b.quantity, SubsOf(b.subs, id), NewSubs(id, req.tableData))),
      ResponseMsg(ResultEnum(f, lang, true, id in b.mains && |req.tableData| > 0))))
  }

  /** The mains after an update: `updateById` changes the main when it exists. */
  function MainsAfterUpdate(f: Flow, mains: map<int, ReceiptMain>, req: ReceiptRequest, id: int): map<int, ReceiptMain> {
    if id in mains then mains[id := UpdatedMain(f, mains[id], req)] else mains
  }

  /** The subs after an update: the main's rows are removed and the new rows
      saved under fresh ids. */
  function SubsAfterUpdate(subs: map<int, ReceiptSub>, req: ReceiptRequest, id: int, subIds: seq<int>): map<int, ReceiptSub>
    requires |subIds| == |req.tableData|
  {
    InsertAll(WithoutSubsOf(subs, id), subIds, NewSubs(id, req.tableData))
  }

  /** The stock after an update: the previous rows are reversed, when there
      are any, and the new rows applied, both by the two-pass stock update. */
  function StockAfterUpdate(f: Flow, skuOf: map<string, int>, q: map<Slot, int>, subs: map<int, ReceiptSub>, req: ReceiptRequest, id: int): (r: map<Slot, int>)
    requires ValidFlow(f) && AllInts(q)
    ensures r.Keys == q.Keys && AllInts(r)
  {
    Restock(f, skuOf, q, SubsOf(subs, id), NewSubs(id, req.tableData))
  }

  function Restock(f: Flow, skuOf: map<string, int>, q: map<Slot, int>, before: seq<ReceiptSub>, rows: seq<ReceiptSub>): (r: map<Slot, int>)
    requires ValidFlow(f) && AllInts(q)
    ensures r.Keys == q.Keys && AllInts(r)
  {
    var q1 := if |before| > 0 then QuantityAsWritten(skuOf, q, before, ReverseType(f)) else q;
    QuantityAsWritten(skuOf, q1, rows, f.stockType)
  }

  /** The same reverse-and-apply with the corrected stock update. */
  function IntendedRestock(f: Flow, skuOf: map<string, int>, q: map<Slot, int>, before: seq<ReceiptSub>, rows: seq<ReceiptSub>): (r: map<Slot, int>)
    requires ValidFlow(f) && AllInts(q)
    ensures r.Keys == q.Keys && AllInts(r)
  {
    var q1 := if |before| > 0 then ApplyRows(skuOf, q, before, ReverseType(f)) else q;
    ApplyRows(skuOf, q1, rows, f.stockType)
  }

  /** A create under the fresh id `id`, as the source performs it: the main
      is built with `amount.negate()` (a null amount throws in the negating
      flows), the rows saved and applied with the two-pass stock update, the
      account moved, and the operators notified by iterating `operatorIds`,
      which throws when the request carries none. */
  function CreateOutcome(f: Flow, lang: Lang, b: Books, skuOf: map<string, int>, req: ReceiptRequest, id: int, subIds: seq<int>): Result<Outcome>
    requires ValidFlow(f) && AllInts(b.quantity) && |subIds| == |req.tableData|
  {
    var rows := NewSubs(id, req.tableData);
    if ChangeAmountAsWritten(f, req.amount).Throws? then Throws
    else
      var accounts1 := AccountsAfterCreate(f, b.accounts, req.accountId, req.amount);
      if accounts1.Throws? || req.operatorIds.None? then Throws
      else Ok(Outcome(Books(b.mains[id := CreatedMain(f, req)], InsertAll(b.subs, subIds, rows), accounts1.value,
        QuantityAsWritten(skuOf, b.quantity, rows, f.stockType)),
        ResponseMsg(ResultEnum(f, lang, false, |req.tableData| > 0))))
  }

  /** The same create as evidently intended: a null amount stores a null
      change, the stock update applies every row, and no operator list
      means no one to notify. */
  function IntendedCreateOutcome(f: Flow, lang: Lang, b: Books, skuOf: map<string, int>, req: ReceiptRequest, id: int, subIds: seq<int>): Result<Outcome>
    requires ValidFlow(f) && AllInts(b.quantity) && |subIds| == |req.tableData|
  {
    var rows := NewSubs(id, req.tableData);
    var accounts1 := AccountsAfterCreate(f, b.accounts, req.accountId, req.amount);
    if accounts1.Throws? then Throws
    else Ok(Outcome(Books(b.mains[id := CreatedMain(f, req)], InsertAll(b.subs, subIds, rows), accounts1.value,
      ApplyRows(skuOf, b.quantity, rows, f.stockType)),
      ResponseMsg(ResultEnum(f, lang, false, |req.tableData| > 0))))
  }

  /** An update past its negate step, written out step by step. */
  lemma UpdateOutcomeSteps(f: Flow, lang: Lang, b: Books, skuOf: map<string, int>, req: ReceiptRequest, id: int, subIds: seq<int>)
    requires ValidFlow(f) && AllInts(b.quantity) && |subIds| == |req.tableData|
    requires ChangeAmountAsWritten(f, req.amount).Ok?
    ensures var before := SubsOf(b.subs, id);
      var accounts1 := AccountsAfterUpdate(f, b.accounts, req.accountId, TotalsOf(before), req.amount);
      var q1 := if |before| > 0 then QuantityAsWritten(skuOf, b.quantity, before, ReverseType(f)) else b.quantity;
      UpdateOutcome(f, lang, b, skuOf, req, id, subIds) ==
      if accounts1.Throws? then Throws
      else Ok(Outcome(Books(MainsAfterUpdate(f, b.mains, req, id), SubsAfterUpdate(b.subs, req, id, subIds), accounts1.value,
          QuantityAsWritten(skuOf, q1, NewSubs(id, req.tableData), f.stockType)),
        ResponseMsg(ResultEnum(f, lang, true, id in b.mains && |req.tableData| > 0))))
  {
  }

  /** `addOrUpdate...`: an update when the request carries an id. */
  function AddOrUpdateOutcome(f: Flow, lang: Lang, b: Books, skuOf: map<string, int>, req: ReceiptRequest, freshId: int, subIds: seq<int>): Result<Outcome>
    requires ValidFlow(f) && AllInts(b.quantity) && |subIds| == |req.tableData|
  {
    if req.id.Some? then UpdateOutcome(f, lang, b, skuOf, req, req.id.value, subIds)
    else CreateOutcome(f, lang, b, skuOf, req, freshId, subIds)
  }

  /** An update throws exactly when a negating flow gets no amount, or when
      the request's account exists and its balance is null, a previous row
      has a null total, or a purchase refund gets no refund; otherwise it
      reports success exactly when the main existed and the request carried
      rows. */
  lemma UpdateOutcomeResult(f: Flow, lang: Lang, b: Books, skuOf: map<string, int>, req: ReceiptRequest, id: int, subIds: seq<int>)
    requires ValidFlow(f) && AllInts(b.quantity) && |subIds| == |req.tableData|
    ensures UpdateOutcome(f, lang, b, skuOf, req, id, subIds).Throws? <==>
      (f.direction == -1 && req.amount.None?) ||
      (HasAccount(b.accounts, req.accountId) &&
        (b.accounts[req.accountId.value].None? || !AllPresent(TotalsOf(SubsOf(b.subs, id))) ||
         (f == PURCHASE_REFUND && req.amount.None?)))
    ensures UpdateOutcome(f, lang, b, skuOf, req, id, subIds).Ok? ==>
      UpdateOutcome(f, lang, b, skuOf, req, id, subIds).value.response ==
      ResponseMsg(ResultEnum(f, lang, true, id in b.mains && |req.tableData| > 0))
  {
    ChangeAmountAsWrittenThrows(f, req.amount);
  }

  /** A create throws exactly when a negating flow gets no amount, when it
      would move an account with a null balance, or when the request names
      no operators; otherwise it succeeds exactly when the request carried
      rows. */
  lemma CreateOutcomeResult(f: Flow, lang: Lang, b: Books, skuOf: map<string, int>, req: ReceiptRequest, id: int, subIds: seq<int>)
    requires ValidFlow(f) && AllInts(b.quantity) && |subIds| == |req.tableData|
    ensures CreateOutcome(f, lang, b, skuOf, req, id, subIds).Throws? <==>
      (f.direction == -1 && req.amount.None?) ||
      (HasAccount(b.accounts, req.accountId) && req.amount.Some? && b.accounts[req.accountId.value].None?) ||
      req.operatorIds.None?
    ensures CreateOutcome(f, lang, b, skuOf, req, id, subIds).Ok? ==>
      CreateOutcome(f, lang, b, skuOf, req, id, subIds).value.response == ResponseMsg(ResultEnum(f, lang, false, |req.tableData| > 0))
  {
    ChangeAmountAsWrittenThrows(f, req.amount);
  }

  /** A create that carries an amount and operators, with at most one row,
      is the intended create. */
  lemma CreateAgreesWithIntended(f: Flow, lang: Lang, b: Books, skuOf: map<string, int>, req: ReceiptRequest, id: int, subIds: seq<int>)
    requires ValidFlow(f) && AllInts(b.quantity) && |subIds| == |req.tableData|
    requires req.amount.Some? && req.operatorIds.Some? && |req.tableData| <= 1
    ensures CreateOutcome(f, lang, b, skuOf, req, id, subIds) == IntendedCreateOutcome(f, lang, b, skuOf, req, id, subIds)
  {
    AsWrittenAgreesOnOneRow(skuOf, b.quantity, NewSubs(id, req.tableData), f.stockType);
  }

  /** Two account tables that agree up to the scale of each balance. */
  predicate SameBalances(x: Accounts, y: Accounts) {
    x.Keys == y.Keys &&
    forall k :: k in x ==> (x[k].None? <==> y[k].None?) && (x[k].Some? ==> SameValue(x[k].value, y[k].value))
  }

  /** With no previous row and an amount given, the source moves the
      accounts as the corrected update does. */
  lemma AccountsAgreeWithoutRows(f: Flow, accounts: Accounts, accountId: Option<int>, amount: Decimal)
    requires ValidFlow(f) && f != PURCHASE_REFUND
    ensures var r := AccountsAfterUpdate(f, accounts, accountId, [], Some(amount));
      var i := IntendedAccountsAfterUpdate(f, accounts, accountId, None, Some(amount));
      (r.Ok? <==> i.Ok?) && (r.Ok? ==> SameBalances(r.value, i.value))
  {
    assert AllPresent([]);
    if HasAccount(accounts, accountId) && accounts[accountId.value].Some? {
      UpdateBalanceWithoutRows(f, accounts[accountId.value].value, amount);
    }
  }

  /** The first save of the rows of a main with no rows yet, carrying an
      amount and at most one row and not a purchase refund, is the intended
      update, up to the scale of the account's new balance. */
  lemma UpdateAgreesWithIntended(f: Flow, lang: Lang, b: Books, skuOf: map<string, int>, req: ReceiptRequest, id: int, subIds: seq<int>)
    requires ValidFlow(f) && f != PURCHASE_REFUND && AllInts(b.quantity) && |subIds| == |req.tableData|
    requires SubsOf(b.subs, id) == [] && (id in b.mains ==> b.mains[id].changeAmount.None?)
    requires req.amount.Some? && |req.tableData| <= 1
    ensures var r := UpdateOutcome(f, lang, b, skuOf, req, id, subIds);
      var i := IntendedUpdateOutcome(f, lang, b, skuOf, req, id, subIds);
      (r.Ok? <==> i.Ok?) &&
      (r.Ok? ==>
        r.value.response == i.value.response && r.value.books.mains == i.value.books.mains &&
        r.value.books.subs == i.value.books.subs && r.value.books.quantity == i.value.books.quantity &&
        SameBalances(r.value.books.accounts, i.value.books.accounts))
  {
    UpdateWithoutRows(f, lang, b, skuOf, req, id, subIds);
    AccountsAgreeWithoutRows(f, b.accounts, req.accountId, req.amount.value);
  }

  /** The source's update of a main with no rows yet, carrying an amount
      and at most one row: the corrected stock, and the accounts moved with
      no previous-row total. */
  lemma UpdateWithoutRows(f: Flow, lang: Lang, b: Books, skuOf: map<string, int>, req: ReceiptRequest, id: int, subIds: seq<int>)
    requires ValidFlow(f) && AllInts(b.quantity) && |subIds| == |req.tableData|
    requires SubsOf(b.subs, id) == [] && req.amount.Some? && |req.tableData| <= 1
    ensures var accR := AccountsAfterUpdate(f, b.accounts, req.accountId, [], req.amount);
      UpdateOutcome(f, lang, b, skuOf, req, id, subIds) ==
      if accR.Throws? then Throws
      else Ok(Outcome(Books(MainsAfterUpdate(f, b.mains, req, id), SubsAfterUpdate(b.subs, req, id, subIds), accR.value,
          IntendedRestock(f, skuOf, b.quantity, [], NewSubs(id, req.tableData))),
        ResponseMsg(ResultEnum(f, lang, true, id in b.mains && |req.tableData| > 0))))
  {
    StockWithoutRows(f, skuOf, b.quantity, b.subs, req, id);
    ChangeAmountAsWrittenThrows(f, req.amount);
    assert TotalsOf([]) == [];
  }

  /** The stock of that update: with nothing to reverse and at most one
      row, the two-pass stock update is the corrected one. */
  lemma StockWithoutRows(f: Flow, skuOf: map<string, int>, q: map<Slot, int>, subs: map<int, ReceiptSub>, req: ReceiptRequest, id: int)
    requires ValidFlow(f) && AllInts(q) && SubsOf(subs, id) == [] && |req.tableData| <= 1
    ensures StockAfterUpdate(f, skuOf, q, subs, req, id) == IntendedRestock(f, skuOf, q, [], NewSubs(id, req.tableData))
  {
    AsWrittenAgreesOnOneRow(skuOf, q, NewSubs(id, req.tableData), f.stockType);
  }

  /** With the corrected stock update, the stock after an update is the
      stock before the receipt's previous rows were applied, with only the
      new rows applied to it. */
  lemma UpdateReplacesStock(f: Flow, skuOf: map<string, int>, q0: map<Slot, int>, before: seq<ReceiptSub>, rows: seq<ReceiptSub>)
    requires ValidFlow(f) && AllInts(q0)
    ensures IntendedRestock(f, skuOf, ApplyRows(skuOf, q0, before, f.stockType), before, rows) == ApplyRows(skuOf, q0, rows, f.stockType)
  {
    if |before| > 0 {
      ReapplyReplaces(skuOf, q0, before, rows, f.stockType, ReverseType(f));
    } else {
      assert ApplyRows(skuOf, q0, before, f.stockType) == q0;
    }
  }

  /** As written it does not: a purchase storage with lines of one sku in
      warehouses 10 (+5) and 20 (+3), saved again with no lines, leaves
      warehouse 10 at 7 where it started at 0. */
  lemma UpdateDoesNotReplaceStockAsWritten()
    ensures
      var skuOf := map["a" := 1];
      var q := map[(1, 10) := 0, (1, 20) := 7];
      var rows := [Line("a", 10, 5), Line("a", 20, 3)];
      Restock(PURCHASE_STORAGE, skuOf, QuantityAsWritten(skuOf, q, rows, 1), rows, [])[(1, 10)] == 7 &&
      q[(1, 10)] == 0
  {
    var skuOf := map["a" := 1];
    var q := map[(1, 10) := 0, (1, 20) := 7];
    var rows := [Line("a", 10, 5), Line("a", 20, 3)];
    ReverseDoesNotRestoreAsWritten();
    var q1 := QuantityAsWritten(skuOf, QuantityAsWritten(skuOf, q, rows, 1), rows, 2);
    AsWrittenAgreesOnOneRow(skuOf, q1, [], 1);
  }

  /** An update touches main `id`, its subs and the request's account only:
      every other main and account is as it was, every sub of another main
      is kept, and the subs of `id` are exactly the new rows. */
  lemma UpdateIsLocal(f: Flow, lang: Lang, b: Books, skuOf: map<string, int>, req: ReceiptRequest, id: int, subIds: seq<int>)
    requires ValidFlow(f) && AllInts(b.quantity) && |subIds| == |req.tableData| && FreshIds(b.subs, subIds)
    ensures var r := UpdateOutcome(f, lang, b, skuOf, req, id, subIds);
      r.Ok? ==>
        r.value.books.mains.Keys == b.mains.Keys &&
        (forall k :: k in b.mains && k != id ==> r.value.books.mains[k] == b.mains[k]) &&
        (forall k :: k in b.accounts && (!HasAccount(b.accounts, req.accountId) || k != req.accountId.value) ==>
          r.value.books.accounts[k] == b.accounts[k]) &&
        (forall k :: k in b.subs && b.subs[k].mainId != id ==> k in r.value.books.subs && r.value.books.subs[k] == b.subs[k]) &&
        (forall j :: 0 <= j < |subIds| ==> subIds[j] in r.value.books.subs && r.value.books.subs[subIds[j]] == NewSubs(id, req.tableData)[j]) &&
        (forall k :: k in r.value.books.subs && r.value.books.subs[k].mainId == id ==> k in subIds)
  {
    var r := UpdateOutcome(f, lang, b, skuOf, req, id, subIds);
    if r.Ok? {
      UpdateOutcomeSteps(f, lang, b, skuOf, req, id, subIds);
      SubsAfterUpdateLocal(b.subs, req, id, subIds);
    }
  }

  /** The subs after an update: those of other mains kept, the main's own
      replaced by the new rows. */
  lemma SubsAfterUpdateLocal(subs: map<int, ReceiptSub>, req: ReceiptRequest, id: int, subIds: seq<int>)
    requires |subIds| == |req.tableData| && FreshIds(subs, subIds)
    ensures var r := SubsAfterUpdate(subs, req, id, subIds);
      (forall k :: k in subs && subs[k].mainId != id ==> k in r && r[k] == subs[k]) &&
      (forall j :: 0 <= j < |subIds| ==> subIds[j] in r && r[subIds[j]] == NewSubs(id, req.tableData)[j]) &&
      (forall k :: k in r && r[k].mainId == id ==> k in subIds)
  {
    var rows := NewSubs(id, req.tableData);
    var base := WithoutSubsOf(subs, id);
    assert FreshIds(base, subIds);
    InsertAllAdds(base, subIds, rows);
  }

  /** A create adds main `id` with its rows and touches no other main or sub. */
  lemma CreateIsLocal(f: Flow, lang: Lang, b: Books, skuOf: map<string, int>, req: ReceiptRequest, id: int, subIds: seq<int>)
    requires ValidFlow(f) && AllInts(b.quantity) && |subIds| == |req.tableData| && FreshIds(b.subs, subIds)
    ensures var r := CreateOutcome(f, lang, b, skuOf, req, id, subIds);
      r.Ok? ==>
        r.value.books.mains.Keys == b.mains.Keys + {id} &&
        r.value.books.mains[id] == CreatedMain(f, req) &&
        (forall k :: k in b.mains && k != id ==> r.value.books.mains[k] == b.mains[k]) &&
        (forall k :: k in b.subs ==> k in r.value.books.subs && r.value.books.subs[k] == b.subs[k]) &&
        (forall j :: 0 <= j < |subIds| ==> subIds[j] in r.value.books.subs && r.value.books.subs[subIds[j]] == NewSubs(id, req.tableData)[j])
  {
    InsertAllAdds(b.subs, subIds, NewSubs(id, req.tableData));
  }

  // ---------------------------------------------------------------------
  // The service
  // ---------------------------------------------------------------------

  /** One receipt service: its main and sub tables, the account table it
      moves money in and the stock table its rows move goods in. */
  class ReceiptBook {
    const flow: Flow
    var mains: map<int, ReceiptMain>
    var subs: map<int, ReceiptSub>
    var accounts: Accounts
    const stock: StockTable

    ghost predicate Valid()
      reads this, stock
    {
      ValidFlow(flow) && stock.Valid()
    }

    /** The books as the specification functions see them. */
    function Snapshot(): Books
      reads this, stock
    {
      Books(mains, subs, accounts, stock.quantity)
    }

    constructor(flow: Flow, mains: map<int, ReceiptMain>, subs: map<int, ReceiptSub>, accounts: Accounts, stock: StockTable)
      requires ValidFlow(flow) && stock.Valid()
      ensures Valid()
      ensures this.flow == flow && this.mains == mains && this.subs == subs && this.accounts == accounts && this.stock == stock
    {
      this.flow := flow;
      this.mains := mains;
      this.subs := subs;
      this.accounts := accounts;
      this.stock := stock;
    }

    /** `delete...`: an empty id list is refused; otherwise the listed mains
        and their subs are flagged deleted, and the call succeeds when both
        updates matched a row. */
    method DeleteReceipts(ids: seq<int>, lang: Lang) returns (r: Response<string>)
      requires Valid()
      modifies this
      ensures Valid() && accounts == old(accounts)
      ensures |ids| == 0 ==> r == ResponseMsg(PARAMETER_NULL) && mains == old(mains) && subs == old(subs)
      ensures |ids| > 0 ==>
        mains == FlagMainsDeleted(old(mains), IdSet(ids)) && subs == FlagSubsDeleted(old(subs), IdSet(ids)) &&
        r == ResponseMsg(DeleteEnum(flow, lang, AnyMainIn(old(mains), IdSet(ids)) && AnySubOf(old(subs), IdSet(ids))))
    {
      if |ids| == 0 {
        r := ResponseMsg(PARAMETER_NULL);
        return;
      }
      var idSet := IdSet(ids);
      var mainResult := AnyMainIn(mains, idSet);
      mains := FlagMainsDeleted(mains, idSet);
      var subResult := AnySubOf(subs, idSet);
      subs := FlagSubsDeleted(subs, idSet);
      r := ResponseMsg(DeleteEnum(flow, lang, mainResult && subResult));
    }

    /** `update...Status`: an empty id list or a null status is refused;
        otherwise the listed mains take the status, and the call succeeds
        when a row matched. */
    method UpdateReceiptStatus(ids: seq<int>, status: Option<int>, lang: Lang) returns (r: Response<string>)
      requires Valid()
      modifies this
      ensures Valid() && subs == old(subs) && accounts == old(accounts)
      ensures |ids| == 0 || status.None? ==> r == ResponseMsg(PARAMETER_NULL) && mains == old(mains)
      ensures |ids| > 0 && status.Some? ==>
        mains == SetMainsStatus(old(mains), IdSet(ids), status.value) &&
        r == ResponseMsg(ResultEnum(flow, lang, true, AnyMainIn(old(mains), IdSet(ids))))
    {
      if |ids| == 0 || status.None? {
        r := ResponseMsg(PARAMETER_NULL);
        return;
      }
      var idSet := IdSet(ids);
      var updated := AnyMainIn(mains, idSet);
      mains := SetMainsStatus(mains, idSet, status.value);
      r := ResponseMsg(ResultEnum(flow, lang, true, updated));
    }

    /** `saveBatch(rows)`: each row is saved under its generated id; an empty
        batch saves nothing and reports failure. */
    method SaveBatch(ids: seq<int>, rows: seq<ReceiptSub>) returns (saved: bool)
      requires |ids| == |rows|
      modifies this
      ensures mains == old(mains) && accounts == old(accounts)
      ensures subs == InsertAll(old(subs), ids, rows)
      ensures saved <==> |rows| > 0
    {
      var i := 0;
      while i < |rows|
        invariant 0 <= i <= |rows|
        invariant mains == old(mains) && accounts == old(accounts)
        invariant subs == InsertAll(old(subs), ids[..i], rows[..i])
      {
        assert ids[..i + 1][..i] == ids[..i] && rows[..i + 1][..i] == rows[..i];
        subs := subs[ids[i] := rows[i]];
        i := i + 1;
      }
      assert ids[..i] == ids && rows[..i] == rows;
      saved := |rows| > 0;
    }

    /** Puts the tables back as they were: the transaction's rollback. */
    method Rollback(b: Books)
      requires stock.Valid() && AllInts(b.quantity)
      modifies this, stock
      ensures stock.Valid() && stock.skuOfBarcode == old(stock.skuOfBarcode)
      ensures mains == b.mains && subs == b.subs && accounts == b.accounts && stock.quantity == b.quantity
    {
      mains := b.mains;
      subs := b.subs;
      accounts := b.accounts;
      stock.quantity := b.quantity;
    }

    /** The first step of an update: the stock of the main's previous rows,
        when there are any, is reversed; the rows are returned. */
    method ReverseRows(id: int) returns (before: seq<ReceiptSub>)
      requires Valid()
      modifies stock
      ensures Valid() && stock.skuOfBarcode == old(stock.skuOfBarcode)
      ensures before == SubsOf(subs, id)
      ensures stock.quantity ==
        if |before| > 0 then QuantityAsWritten(stock.skuOfBarcode, old(stock.quantity), before, ReverseType(flow)) else old(stock.quantity)
    {
      before := SubsOf(subs, id);
      if |before| > 0 {
        stock.UpdateProductStockAsWritten(before, ReverseType(flow));
      }
    }

    /** The rows part of an update: the main's rows are replaced and the
        new rows' stock applied. */
    method ReplaceRows(req: ReceiptRequest, id: int, subIds: seq<int>) returns (saved: bool)
      requires Valid() && |subIds| == |req.tableData|
      modifies this, stock
      ensures Valid() && stock.skuOfBarcode == old(stock.skuOfBarcode)
      ensures mains == old(mains) && accounts == old(accounts)
      ensures subs == SubsAfterUpdate(old(subs), req, id, subIds)
      ensures stock.quantity == QuantityAsWritten(stock.skuOfBarcode, old(stock.quantity), NewSubs(id, req.tableData), flow.stockType)
      ensures saved <==> |req.tableData| > 0
    {
      subs := WithoutSubsOf(subs, id);
      var rows := NewSubs(id, req.tableData);
      saved := SaveBatch(subIds, rows);
      stock.UpdateProductStockAsWritten(rows, flow.stockType);
    }

    /** The update branch of `addOrUpdate...` for main `id`, the rows saved
        under `subIds`. An exception rolls the whole transaction back. */
    method UpdateReceipt(req: ReceiptRequest, id: int, subIds: seq<int>, lang: Lang) returns (r: Result<Response<string>>)
      requires Valid() && |subIds| == |req.tableData|
      modifies this, stock
      ensures Valid() && stock.skuOfBarcode == old(stock.skuOfBarcode)
      ensures var o := UpdateOutcome(flow, lang, old(Snapshot()), stock.skuOfBarcode, req, id, subIds);
        (o.Throws? ==> r.Throws? && Snapshot() == old(Snapshot())) &&
        (o.Ok? ==> r == Ok(o.value.response) && Snapshot() == o.value.books)
    {
      var b0 := Snapshot();
      var before := ReverseRows(id);
      if ChangeAmountAsWritten(flow, req.amount).Throws? {
        Rollback(b0);
        r := Throws;
        return;
      }
      r := FinishUpdate(req, id, subIds, lang, b0, before);
    }

    /** The rest of an update once the stock of the previous rows `before`
        has been reversed from the books `b0`: the main's `set` clauses, the
        rows and the account. */
    method FinishUpdate(req: ReceiptRequest, id: int, subIds: seq<int>, lang: Lang, b0: Books, before: seq<ReceiptSub>)
      returns (r: Result<Response<string>>)
      requires Valid() && |subIds| == |req.tableData| && AllInts(b0.quantity)
      requires mains == b0.mains && subs == b0.subs && accounts == b0.accounts && before == SubsOf(b0.subs, id)
      requires stock.quantity ==
        if |before| > 0 then QuantityAsWritten(stock.skuOfBarcode, b0.quantity, before, ReverseType(flow)) else b0.quantity
      requires ChangeAmountAsWritten(flow, req.amount).Ok?
      modifies this, stock
      ensures Valid() && stock.skuOfBarcode == old(stock.skuOfBarcode)
      ensures var o := UpdateOutcome(flow, lang, b0, stock.skuOfBarcode, req, id, subIds);
        (o.Throws? ==> r.Throws? && Snapshot() == b0) &&
        (o.Ok? ==> r == Ok(o.value.response) && Snapshot() == o.value.books)
    {
      UpdateOutcomeSteps(flow, lang, b0, stock.skuOfBarcode, req, id, subIds);
      var updated := id in mains;
      mains := MainsAfterUpdate(flow, mains, req, id);
      var saved := ReplaceRows(req, id, subIds);
      var moved := AccountsAfterUpdate(flow, accounts, req.accountId, TotalsOf(before), req.amount);
      if moved.Throws? {
        Rollback(b0);
        r := Throws;
        return;
      }
      accounts := moved.value;
      r := Ok(ResponseMsg(ResultEnum(flow, lang, true, updated && saved)));
    }

    /** The create branch of `addOrUpdate...` under the generated main id
        `id`, the rows saved under `subIds`. An exception rolls the whole
        transaction back. */
    method CreateReceipt(req: ReceiptRequest, id: int, subIds: seq<int>, lang: Lang) returns (r: Result<Response<string>>)
      requires Valid() && |subIds| == |req.tableData|
      modifies this, stock
      ensures Valid() && stock.skuOfBarcode == old(stock.skuOfBarcode)
      ensures var o := CreateOutcome(flow, lang, old(Snapshot()), stock.skuOfBarcode, req, id, subIds);
        (o.Throws? ==> r.Throws? && Snapshot() == old(Snapshot())) &&
        (o.Ok? ==> r == Ok(o.value.response) && Snapshot() == o.value.books)
    {
      if ChangeAmountAsWritten(flow, req.amount).Throws? {
        r := Throws;
        return;
      }
      var b0 := Snapshot();
      mains := mains[id := CreatedMain(flow, req)];
      var rows := NewSubs(id, req.tableData);
      var saved := SaveBatch(subIds, rows);
      stock.UpdateProductStockAsWritten(rows, flow.stockType);
      var moved := AccountsAfterCreate(flow, accounts, req.accountId, req.amount);
      if moved.Throws? || req.operatorIds.None? {
        Rollback(b0);
        r := Throws;
        return;
      }
      accounts := moved.value;
      r := Ok(ResponseMsg(ResultEnum(flow, lang, false, saved)));
    }

    /** `addOrUpdate...`: an update when the request carries an id, a create
        under `freshId` otherwise. */
    method AddOrUpdate(req: ReceiptRequest, freshId: int, subIds: seq<int>, lang: Lang) returns (r: Result<Response<string>>)
      requires Valid() && |subIds| == |req.tableData|
      modifies this, stock
      ensures Valid() && stock.skuOfBarcode == old(stock.skuOfBarcode)
      ensures var o := AddOrUpdateOutcome(flow, lang, old(Snapshot()), stock.skuOfBarcode, req, freshId, subIds);
        (o.Throws? ==> r.Throws? && Snapshot() == old(Snapshot())) &&
        (o.Ok? ==> r == Ok(o.value.response) && Snapshot() == o.value.books)
    {
      if req.id.Some? {
        r := UpdateReceipt(req, req.id.value, subIds, lang);
      } else {
        r := CreateReceipt(req, freshId, subIds, lang);
      }
    }
  }
}
