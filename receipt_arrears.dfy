/** The arrears pages of the purchase and the sale receipt services: for
    every receipt still owing money, how much of it financial receipts
    (payments to suppliers, collections from customers) have settled. */
module ReceiptArrears {
  import opened Wrappers
  import opened Decimals
  import opened Tables
  import opened ReceiptCommon
  import opened Responses

  /** The columns of `FinancialMain` the arrears pages read. */
  datatype FinancialMain = FinancialMain(relatedPersonId: Option<int>, status: Option<int>, deleteFlag: int)

  /** The columns of `FinancialSub` the arrears pages read: `otherReceipt`
      is the number of the receipt the line settles. */
  datatype FinancialSub = FinancialSub(
    financialMainId: int, otherReceipt: Option<string>, receivedPrepaidArrears: Option<Decimal>, deleteFlag: int)

  /** MyBatis-Plus `Page<T>`: the records and the counters the query reported. */
  datatype Page<T> = Page(records: seq<T>, total: int, current: int, size: int)

  /** A row of `PurchaseArrearsVO` / `SaleArrearsVO`: `settled` is the
      prepaid (purchase) or received (sale) amount, `outstanding` the payment
      (purchase) or receivable (sale) arrears; a field never set is null. */
  datatype ArrearsRow = ArrearsRow(
    id: int, receiptNumber: Option<string>, thisReceiptArrears: Decimal,
    settled: Option<Decimal>, outstanding: Option<Decimal>)

  /** `eq(column, value)`: SQL `column = NULL` matches no row. */
  predicate EqNonNull<T(==)>(column: Option<T>, value: Option<T>) {
    value.Some? && column == value
  }

  /** What the page query guarantees of every record it returns: not
      deleted and `arrearsAmount > 0`. */
  predicate IsArrearsRecord(m: ReceiptMain) {
    m.deleteFlag == NOT_DELETED && m.arrearsAmount.Some? && CompareTo(m.arrearsAmount.value, ZERO) > 0
  }

  predicate ArrearsPage(mains: map<int, ReceiptMain>, records: seq<int>) {
    forall i :: 0 <= i < |records| ==> records[i] in mains && IsArrearsRecord(mains[records[i]])
  }

  // ---------------------------------------------------------------------
  // Which financial receipts count
  // ---------------------------------------------------------------------

  /** The purchase page keeps a supplier's payments that are not deleted;
      the sale page keeps a customer's collections whose *status* equals
      `NOT_DELETED`. */
  predicate Selected(fm: FinancialMain, person: Option<int>, bySale: bool) {
    EqNonNull(fm.relatedPersonId, person) &&
    if bySale then fm.status == Some(NOT_DELETED) else fm.deleteFlag == NOT_DELETED
  }

  /** The ids among `keys` of the selected financial mains, in the same order. */
  function SelectMains(fmains: map<int, FinancialMain>, keys: seq<int>, person: Option<int>, bySale: bool): (r: seq<int>)
    requires forall i :: 0 <= i < |keys| ==> keys[i] in fmains
    ensures forall j :: 0 <= j < |r| ==> r[j] in fmains && Selected(fmains[r[j]], person, bySale)
    ensures forall i :: 0 <= i < |keys| && Selected(fmains[keys[i]], person, bySale) ==> keys[i] in r
    ensures forall j :: 0 <= j < |r| ==> r[j] in keys
    ensures StrictlyIncreasing(keys) ==> StrictlyIncreasing(r)
    decreases |keys|
  {
    if |keys| == 0 then []
    else
      var init := SelectMains(fmains, keys[..|keys| - 1], person, bySale);
      var k := keys[|keys| - 1];
      assert forall j :: 0 <= j < |init| ==> init[j] in keys[..|keys| - 1];
      if Selected(fmains[k], person, bySale) then init + [k] else init
  }

  /** `financialMainService.lambdaQuery()....list()`, in id order. */
  function FinanceMainList(fmains: map<int, FinancialMain>, person: Option<int>, bySale: bool): (r: seq<int>)
    ensures forall j :: 0 <= j < |r| ==> r[j] in fmains && Selected(fmains[r[j]], person, bySale)
    ensures forall k :: k in fmains && Selected(fmains[k], person, bySale) ==> k in r
    ensures StrictlyIncreasing(r)
  {
    SelectMains(fmains, AscendingKeys(fmains.Keys), person, bySale)
  }

  /** The settled amounts of the live lines of financial main `fmId` that
      name `receiptNumber`, in id order. */
  function SettledAmounts(fsubs: map<int, FinancialSub>, keys: seq<int>, fmId: int, receiptNumber: Option<string>): (r: seq<Option<Decimal>>)
    requires forall i :: 0 <= i < |keys| ==> keys[i] in fsubs
    decreases |keys|
  {
    if |keys| == 0 then []
    else
      var init := SettledAmounts(fsubs, keys[..|keys| - 1], fmId, receiptNumber);
      var s := fsubs[keys[|keys| - 1]];
      if s.financialMainId == fmId && EqNonNull(s.otherReceipt, receiptNumber) && s.deleteFlag == NOT_DELETED
      then init + [s.receivedPrepaidArrears] else init
  }

  /** `calculateArrearsAmount(financeSubList, getReceivedPrepaidArrears)`. */
  function SettledBy(fsubs: map<int, FinancialSub>, fmId: int, receiptNumber: Option<string>): (r: Decimal)
    ensures r.scale == 2
  {
    ArrearsAmount(SettledAmounts(fsubs, AscendingKeys(fsubs.Keys), fmId, receiptNumber))
  }

  // ---------------------------------------------------------------------
  // Purchase arrears: everything settled is netted
  // ---------------------------------------------------------------------

  /** `prepaidArrears`: `BigDecimal.ZERO` plus what each selected payment settled. */
  function Prepaid(fsubs: map<int, FinancialSub>, fmIds: seq<int>, receiptNumber: Option<string>): (r: Decimal)
    ensures r.scale >= 0
    decreases |fmIds|
  {
    if |fmIds| == 0 then ZERO
    else Add(Prepaid(fsubs, fmIds[..|fmIds| - 1], receiptNumber), SettledBy(fsubs, fmIds[|fmIds| - 1], receiptNumber))
  }

  /** `prepaidArrears` for one record: over the supplier's live payments. */
  function PrepaidOf(fmains: map<int, FinancialMain>, fsubs: map<int, FinancialSub>, m: ReceiptMain): Decimal {
    Prepaid(fsubs, FinanceMainList(fmains, m.relatedPersonId, false), m.receiptNumber)
  }

  /** The VO a record becomes, with `paymentArrears = arrears - prepaid`. */
  function PurchaseRow(id: int, m: ReceiptMain, prepaid: Decimal): (row: ArrearsRow)
    requires IsArrearsRecord(m)
  {
    ArrearsRow(id, m.receiptNumber, m.arrearsAmount.value, Some(prepaid), Some(Subtract(m.arrearsAmount.value, prepaid)))
  }

  predicate StillOwing(row: ArrearsRow) {
    row.outstanding.Some? && CompareTo(row.outstanding.value, ZERO) > 0
  }

  /** The VO of every record of a page, before the owing filter. */
  function RecordRows(mains: map<int, ReceiptMain>, fmains: map<int, FinancialMain>, fsubs: map<int, FinancialSub>, records: seq<int>): (rows: seq<ArrearsRow>)
    requires ArrearsPage(mains, records)
    ensures |rows| == |records|
    ensures forall i :: 0 <= i < |records| ==>
      rows[i] == PurchaseRow(records[i], mains[records[i]], PrepaidOf(fmains, fsubs, mains[records[i]]))
  {
    seq(|records|, i requires 0 <= i < |records| =>
      PurchaseRow(records[i], mains[records[i]], PrepaidOf(fmains, fsubs, mains[records[i]])))
  }

  /** The rows that still owe something, in page order. */
  function OwingRows(rows: seq<ArrearsRow>): (r: seq<ArrearsRow>)
    decreases |rows|
  {
    if |rows| == 0 then []
    else
      var init := OwingRows(rows[..|rows| - 1]);
      var row := rows[|rows| - 1];
      if StillOwing(row) then init + [row] else init
  }

  /** `OwingRows` keeps exactly the rows that still owe something. */
  lemma {:induction false} OwingRowsKeepsOwing(rows: seq<ArrearsRow>)
    ensures forall j :: 0 <= j < |OwingRows(rows)| ==> OwingRows(rows)[j] in rows && StillOwing(OwingRows(rows)[j])
    ensures forall i :: 0 <= i < |rows| && StillOwing(rows[i]) ==> rows[i] in OwingRows(rows)
    decreases |rows|
  {
    if |rows| > 0 {
      var init := rows[..|rows| - 1];
      OwingRowsKeepsOwing(init);
      assert forall i :: 0 <= i < |init| ==> init[i] == rows[i];
      assert rows == init + [rows[|rows| - 1]];
    }
  }

  /** The purchase arrears rows of a page: a record is listed only while
      something is still owed on it. */
  function PurchaseArrearsRows(mains: map<int, ReceiptMain>, fmains: map<int, FinancialMain>, fsubs: map<int, FinancialSub>, records: seq<int>): (rows: seq<ArrearsRow>)
    requires ArrearsPage(mains, records)
  {
    OwingRows(RecordRows(mains, fmains, fsubs, records))
  }

  /** A row whose outstanding figure is its arrears net of what was settled. */
  predicate Netted(row: ArrearsRow) {
    row.settled.Some? && row.outstanding == Some(Subtract(row.thisReceiptArrears, row.settled.value))
  }

  /** Every listed row is the row of a record of the page, is netted and
      owes something. */
  lemma PurchaseRowsOwe(mains: map<int, ReceiptMain>, fmains: map<int, FinancialMain>, fsubs: map<int, FinancialSub>, records: seq<int>)
    requires ArrearsPage(mains, records)
    ensures forall row :: row in PurchaseArrearsRows(mains, fmains, fsubs, records) ==>
      row in RecordRows(mains, fmains, fsubs, records) && Netted(row) && StillOwing(row)
  {
    OwingRowsKeepsOwing(RecordRows(mains, fmains, fsubs, records));
    RecordRowsNetted(mains, fmains, fsubs, records);
  }

  /** Every record of the page that still owes something is listed. */
  lemma PurchaseOwingListed(mains: map<int, ReceiptMain>, fmains: map<int, FinancialMain>, fsubs: map<int, FinancialSub>, records: seq<int>)
    requires ArrearsPage(mains, records)
    ensures forall i :: 0 <= i < |records| && StillOwing(RecordRows(mains, fmains, fsubs, records)[i]) ==>
      RecordRows(mains, fmains, fsubs, records)[i] in PurchaseArrearsRows(mains, fmains, fsubs, records)
  {
    OwingRowsKeepsOwing(RecordRows(mains, fmains, fsubs, records));
  }

  lemma RecordRowsNetted(mains: map<int, ReceiptMain>, fmains: map<int, FinancialMain>, fsubs: map<int, FinancialSub>, records: seq<int>)
    requires ArrearsPage(mains, records)
    ensures forall row :: row in RecordRows(mains, fmains, fsubs, records) ==> Netted(row)
  {
    var all := RecordRows(mains, fmains, fsubs, records);
    assert forall i :: 0 <= i < |all| ==> Netted(all[i]);
  }

  /** Extending a page by one record extends its record rows by that record's row. */
  lemma RecordRowsSnoc(mains: map<int, ReceiptMain>, fmains: map<int, FinancialMain>, fsubs: map<int, FinancialSub>, records: seq<int>, i: int)
    requires ArrearsPage(mains, records) && 0 <= i < |records|
    ensures RecordRows(mains, fmains, fsubs, records[..i + 1]) ==
      RecordRows(mains, fmains, fsubs, records[..i]) + [PurchaseRow(records[i], mains[records[i]], PrepaidOf(fmains, fsubs, mains[records[i]]))]
  {
    var ext := records[..i + 1];
    var pre := records[..i];
    var a := RecordRows(mains, fmains, fsubs, ext);
    var b := RecordRows(mains, fmains, fsubs, pre) + [PurchaseRow(records[i], mains[records[i]], PrepaidOf(fmains, fsubs, mains[records[i]]))];
    assert |a| == |b|;
    forall j | 0 <= j < |a|
      ensures a[j] == b[j]
    {
      if j < i {
        assert ext[j] == pre[j];
      } else {
        assert ext[j] == records[i];
      }
    }
  }

  /** The inner loop of `getPurchaseArrearsPage`: `prepaidArrears` starts at
      zero and adds what each payment settled on the receipt. */
  method AccumulatePrepaid(fsubs: map<int, FinancialSub>, financeMainList: seq<int>, receiptNumber: Option<string>) returns (prepaidArrears: Decimal)
    ensures prepaidArrears == Prepaid(fsubs, financeMainList, receiptNumber)
  {
    prepaidArrears := ZERO;
    var j := 0;
    while j < |financeMainList|
      invariant 0 <= j <= |financeMainList|
      invariant prepaidArrears == Prepaid(fsubs, financeMainList[..j], receiptNumber)
    {
      assert financeMainList[..j + 1][..j] == financeMainList[..j];
      prepaidArrears := Add(prepaidArrears, SettledBy(fsubs, financeMainList[j], receiptNumber));
      j := j + 1;
    }
    assert financeMainList[..j] == financeMainList;
  }

  /** `getPurchaseArrearsPage`, after the page query: accumulates each
      record's prepaid figure over the supplier's payments and keeps the
      record only while something is still owed; the page counters are
      copied. */
  method PurchaseArrearsPage(mains: map<int, ReceiptMain>, fmains: map<int, FinancialMain>, fsubs: map<int, FinancialSub>, queryResult: Page<int>)
    returns (r: Response<Page<ArrearsRow>>)
    requires ArrearsPage(mains, queryResult.records)
    ensures r == ResponseData(Page(PurchaseArrearsRows(mains, fmains, fsubs, queryResult.records),
      queryResult.total, queryResult.current, queryResult.size))
  {
    var records := queryResult.records;
    var voList: seq<ArrearsRow> := [];
    var i := 0;
    while i < |records|
      invariant 0 <= i <= |records|
      invariant voList == OwingRows(RecordRows(mains, fmains, fsubs, records[..i]))
    {
      var item := mains[records[i]];
      var financeMainList := FinanceMainList(fmains, item.relatedPersonId, false);
      var prepaidArrears := AccumulatePrepaid(fsubs, financeMainList, item.receiptNumber);
      var vo := PurchaseRow(records[i], item, prepaidArrears);
      RecordRowsSnoc(mains, fmains, fsubs, records, i);
      if StillOwing(vo) {
        voList := voList + [vo];
      }
      i := i + 1;
    }
    assert records[..i] == records;
    r := ResponseData(Page(voList, queryResult.total, queryResult.current, queryResult.size));
  }

  // ---------------------------------------------------------------------
  // Sale arrears: the last collection iterated wins
  // ---------------------------------------------------------------------

  /** `receivedArrears` after the loop: set on every pass, so the last
      selected collection's figure survives; null when there is none. */
  function Received(fsubs: map<int, FinancialSub>, fmIds: seq<int>, receiptNumber: Option<string>): (r: Option<Decimal>)
    ensures r.None? <==> |fmIds| == 0
  {
    if |fmIds| == 0 then None else Some(SettledBy(fsubs, fmIds[|fmIds| - 1], receiptNumber))
  }

  /** The VO a sale record becomes: `receivableArrears = arrears - received`,
      both null when no collection was iterated. */
  function SaleRow(id: int, m: ReceiptMain, received: Option<Decimal>): (row: ArrearsRow)
    requires IsArrearsRecord(m)
  {
    ArrearsRow(id, m.receiptNumber, m.arrearsAmount.value, received,
      if received.Some? then Some(Subtract(m.arrearsAmount.value, received.value)) else None)
  }

  /** `receivedArrears` for one record: over the customer's collections. */
  function ReceivedOf(fmains: map<int, FinancialMain>, fsubs: map<int, FinancialSub>, m: ReceiptMain): Option<Decimal> {
    Received(fsubs, FinanceMainList(fmains, m.relatedPersonId, true), m.receiptNumber)
  }

  /** The sale arrears rows of a page: one per record, with no filter. */
  function SaleArrearsRows(mains: map<int, ReceiptMain>, fmains: map<int, FinancialMain>, fsubs: map<int, FinancialSub>, records: seq<int>): (rows: seq<ArrearsRow>)
    requires ArrearsPage(mains, records)
    ensures |rows| == |records|
    ensures forall i :: 0 <= i < |records| ==>
      rows[i] == SaleRow(records[i], mains[records[i]], ReceivedOf(fmains, fsubs, mains[records[i]]))
  {
    seq(|records|, i requires 0 <= i < |records| =>
      SaleRow(records[i], mains[records[i]], ReceivedOf(fmains, fsubs, mains[records[i]])))
  }

  /** Over a list in id order, the figure kept is the one of the greatest id. */
  lemma ReceivedIsLatest(fsubs: map<int, FinancialSub>, fmIds: seq<int>, receiptNumber: Option<string>)
    requires StrictlyIncreasing(fmIds)
    ensures Received(fsubs, fmIds, receiptNumber).Some? ==>
      |fmIds| > 0 && (forall j :: 0 <= j < |fmIds| ==> fmIds[j] <= fmIds[|fmIds| - 1]) &&
      Received(fsubs, fmIds, receiptNumber) == Some(SettledBy(fsubs, fmIds[|fmIds| - 1], receiptNumber))
  {
  }

  /** A sale record's received figure is what the selected collection with
      the greatest id settled, and is null exactly when the customer has no
      selected collection. */
  lemma SaleReceivedFromLatestCollection(fmains: map<int, FinancialMain>, fsubs: map<int, FinancialSub>, m: ReceiptMain)
    ensures ReceivedOf(fmains, fsubs, m).None? <==> forall k :: k in fmains ==> !Selected(fmains[k], m.relatedPersonId, true)
    ensures ReceivedOf(fmains, fsubs, m).Some? ==>
      exists latest :: latest in fmains && Selected(fmains[latest], m.relatedPersonId, true) &&
        (forall k :: k in fmains && Selected(fmains[k], m.relatedPersonId, true) ==> k <= latest) &&
        ReceivedOf(fmains, fsubs, m) == Some(SettledBy(fsubs, latest, m.receiptNumber))
  {
    var ids := FinanceMainList(fmains, m.relatedPersonId, true);
    ReceivedIsLatest(fsubs, ids, m.receiptNumber);
    if |ids| > 0 {
      var latest := ids[|ids| - 1];
      forall k | k in fmains && Selected(fmains[k], m.relatedPersonId, true)
        ensures k <= latest
      {
        assert k in ids;
      }
    }
  }

  /** The inner loop of `getSaleArrearsPage`: every pass overwrites the
      received and receivable figures of the row. */
  method OverwriteReceived(fsubs: map<int, FinancialSub>, financeMainList: seq<int>, id: int, item: ReceiptMain) returns (vo: ArrearsRow)
    requires IsArrearsRecord(item)
    ensures vo == SaleRow(id, item, Received(fsubs, financeMainList, item.receiptNumber))
  {
    vo := SaleRow(id, item, None);
    var j := 0;
    while j < |financeMainList|
      invariant 0 <= j <= |financeMainList|
      invariant vo == SaleRow(id, item, Received(fsubs, financeMainList[..j], item.receiptNumber))
    {
      var receivedArrears := SettledBy(fsubs, financeMainList[j], item.receiptNumber);
      vo := vo.(settled := Some(receivedArrears), outstanding := Some(Subtract(item.arrearsAmount.value, receivedArrears)));
      j := j + 1;
    }
    assert financeMainList[..j] == financeMainList;
  }

  /** `getSaleArrearsPage`, after the page query: each record's received
      figure is overwritten on every pass over the customer's collections;
      every record is listed. */
  method SaleArrearsPage(mains: map<int, ReceiptMain>, fmains: map<int, FinancialMain>, fsubs: map<int, FinancialSub>, queryResult: Page<int>)
    returns (r: Response<Page<ArrearsRow>>)
    requires ArrearsPage(mains, queryResult.records)
    ensures r == ResponseData(Page(SaleArrearsRows(mains, fmains, fsubs, queryResult.records),
      queryResult.total, queryResult.current, queryResult.size))
  {
    var records := queryResult.records;
    var voList: seq<ArrearsRow> := [];
    var i := 0;
    while i < |records|
      invariant 0 <= i <= |records|
      invariant |voList| == i
      invariant forall k :: 0 <= k < i ==>
        voList[k] == SaleRow(records[k], mains[records[k]], ReceivedOf(fmains, fsubs, mains[records[k]]))
    {
      var item := mains[records[i]];
      var financeMainList := FinanceMainList(fmains, item.relatedPersonId, true);
      var vo := OverwriteReceived(fsubs, financeMainList, records[i], item);
      voList := voList + [vo];
      i := i + 1;
    }
    assert voList == SaleArrearsRows(mains, fmains, fsubs, records);
    r := ResponseData(Page(voList, queryResult.total, queryResult.current, queryResult.size));
  }
}
