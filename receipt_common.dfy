/** What the purchase and the sale receipt services share: the
    comma-separated id lists stored in receipt columns, the line-item sums,
    the shape of a main receipt and of its sub rows, and the soft delete
    and status updates over them. Both services declare these helpers with
    identical bodies. */
module ReceiptCommon {
  import opened Wrappers
  import opened Text
  import opened Decimals
  import opened JavaInts
  import opened Tables

  // ---------------------------------------------------------------------
  // Comma-separated id lists
  // ---------------------------------------------------------------------

  function IdStrings(ids: seq<int>): (r: seq<string>)
    ensures |r| == |ids|
    ensures forall k :: 0 <= k < |ids| ==> r[k] == IntToString(ids[k])
  {
    seq(|ids|, k requires 0 <= k < |ids| => IntToString(ids[k]))
  }

  /** `parseIdsToString(ids)`: the ids joined with `,`, or `""` for a null
      or empty list. */
  function ParseIdsToString(ids: Option<seq<int>>): (s: string)
    ensures s == "" <==> ids.None? || |ids.value| == 0
  {
    if ids.Some? && |ids.value| > 0 then Join(IdStrings(ids.value), ",") else ""
  }

  /** `map(Long::valueOf)` over the pieces: the first piece that is not a
      `long` throws NumberFormatException. */
  function ParseAll(pieces: seq<string>): (r: Result<seq<int>>)
    ensures r.Ok? ==> |r.value| == |pieces|
    ensures r.Ok? ==> forall k :: 0 <= k < |pieces| ==> ParseLong(pieces[k]) == Some(r.value[k])
    ensures r.Throws? ==> exists k :: 0 <= k < |pieces| && ParseLong(pieces[k]).None?
    decreases |pieces|
  {
    if |pieces| == 0 then Ok([])
    else
      var head := ParseLong(pieces[0]);
      var tail := ParseAll(pieces[1..]);
      if head.None? then Throws
      else if tail.Throws? then Throws
      else
        assert forall k :: 1 <= k < |pieces| ==> pieces[k] == pieces[1..][k - 1];
        Ok([head.value] + tail.value)
  }

  /** `parseStringToIds(s)`: `[]` for a null or empty string, otherwise the
      pieces of `s.split(",")` read with `Long.valueOf`. */
  function ParseStringToIds(s: Option<string>): (r: Result<seq<int>>)
    ensures s.None? || s == Some("") ==> r == Ok([])
    ensures r.Ok? ==> forall k :: 0 <= k < |r.value| ==> IsLong(r.value[k])
  {
    if s.None? || s.value == "" then Ok([]) else ParseAll(JavaSplit(s.value, ','))
  }

  /** `parseAndCollectLongList(s)`: guarded by `StringUtils.hasLength` and
      read with `Long.parseLong`, which decides exactly as
      `parseStringToIds` does. */
  function ParseAndCollectLongList(s: Option<string>): (r: Result<seq<int>>)
    ensures r == ParseStringToIds(s)
  {
    if HasLength(s) then ParseAll(JavaSplit(s.value, ',')) else Ok([])
  }

  lemma ParseAllIdStrings(ids: seq<int>)
    requires forall k :: 0 <= k < |ids| ==> IsLong(ids[k])
    ensures ParseAll(IdStrings(ids)) == Ok(ids)
    decreases |ids|
  {
    if |ids| > 0 {
      ParseOfIntToString(ids[0], LONG_MIN, LONG_MAX);
      assert IdStrings(ids)[1..] == IdStrings(ids[1..]);
      ParseAllIdStrings(ids[1..]);
      assert ids == [ids[0]] + ids[1..];
    }
  }

  /** An id list survives being stored as a string and read back. */
  lemma IdsRoundTrip(ids: seq<int>)
    requires forall k :: 0 <= k < |ids| ==> IsLong(ids[k])
    ensures ParseStringToIds(Some(ParseIdsToString(Some(ids)))) == Ok(ids)
    ensures ParseAndCollectLongList(Some(ParseIdsToString(Some(ids)))) == Ok(ids)
  {
    if |ids| > 0 {
      var pieces := IdStrings(ids);
      forall k | 0 <= k < |pieces|
        ensures ',' !in pieces[k] && pieces[k] != ""
      {
        IntToStringChars(ids[k]);
      }
      JavaSplitJoin(pieces, ',');
      ParseAllIdStrings(ids);
    }
  }

  // ---------------------------------------------------------------------
  // Line-item sums
  // ---------------------------------------------------------------------

  predicate AllPresent(xs: seq<Option<Decimal>>) {
    forall k :: 0 <= k < |xs| ==> xs[k].Some?
  }

  function Values(xs: seq<Option<Decimal>>): (r: seq<Decimal>)
    requires AllPresent(xs)
    ensures |r| == |xs| && forall k :: 0 <= k < |xs| ==> r[k] == xs[k].value
  {
    seq(|xs|, k requires 0 <= k < |xs| => xs[k].value)
  }

  /** `calculateTotalAmount(rows, mapper)` over the mapped amounts: summed
      from `BigDecimal.ZERO` and rounded to two places HALF_UP; a null amount
      makes `BigDecimal::add` throw. */
  function TotalAmount(amounts: seq<Option<Decimal>>): (r: Result<Decimal>)
    ensures r.Ok? <==> AllPresent(amounts)
    ensures r.Ok? ==> r.value.scale == 2
  {
    if AllPresent(amounts) then Ok(SetScaleHalfUp(Sum(Values(amounts)), 2)) else Throws
  }

  /** Amounts with at most two decimals are totalled exactly. */
  lemma TotalAmountExact(amounts: seq<Option<Decimal>>)
    requires AllPresent(amounts)
    requires forall k :: 0 <= k < |amounts| ==> amounts[k].value.scale <= 2
    ensures TotalAmount(amounts).Ok?
    ensures UnitsAt(TotalAmount(amounts).value, 2) == SumUnitsAt(Values(amounts), 2)
  {
    var vs := Values(amounts);
    SumScaleBound(vs, 2);
    SetScaleExact(Sum(vs), 2);
    SumValue(vs, 2);
    SameValueAt(SetScaleHalfUp(Sum(vs), 2), Sum(vs), 2);
  }

  /** The fold's scale is the largest scale among 0 and the amounts. */
  lemma {:induction false} SumScaleBound(ds: seq<Decimal>, m: int)
    requires m >= 0 && forall k :: 0 <= k < |ds| ==> ds[k].scale <= m
    ensures Sum(ds).scale <= m
    decreases |ds|
  {
    if |ds| > 0 {
      SumScaleBound(ds[..|ds| - 1], m);
    }
  }

  function ZeroForNull(xs: seq<Option<Decimal>>): (r: seq<Option<Decimal>>)
    ensures |r| == |xs| && AllPresent(r)
    ensures forall k :: 0 <= k < |xs| ==> r[k] == Some(xs[k].GetOr(ZERO))
  {
    seq(|xs|, k requires 0 <= k < |xs| => Some(xs[k].GetOr(ZERO)))
  }

  /** `calculateArrearsAmount(rows, mapper)`: like the total, but a null
      amount counts as zero. */
  function ArrearsAmount(amounts: seq<Option<Decimal>>): (r: Decimal)
    ensures r.scale == 2
  {
    SetScaleHalfUp(Sum(Values(ZeroForNull(amounts))), 2)
  }

  /** The arrears figure is the line-item total once nulls are read as zero. */
  lemma ArrearsAmountIsTotal(amounts: seq<Option<Decimal>>)
    ensures TotalAmount(ZeroForNull(amounts)) == Ok(ArrearsAmount(amounts))
  {
  }

  /** Adding `BigDecimal.ZERO` to a fold changes nothing, not even the scale. */
  lemma AddZero(d: Decimal)
    requires d.scale >= 0
    ensures Add(d, ZERO) == d
  {
    assert UnitsAt(ZERO, d.scale) == 0 * Pow10(d.scale);
  }

  /** A null amount contributes nothing to the arrears total. */
  lemma ArrearsAmountSkipsNull(amounts: seq<Option<Decimal>>)
    ensures ArrearsAmount(amounts + [None]) == ArrearsAmount(amounts)
  {
    var vs := Values(ZeroForNull(amounts));
    var ws := Values(ZeroForNull(amounts + [None]));
    assert ws[..|ws| - 1] == vs;
    assert ws[|ws| - 1] == ZERO;
    AddZero(Sum(vs));
  }

  /** With no null amount the arrears total is the line-item total. */
  lemma ArrearsAmountWithoutNulls(amounts: seq<Option<Decimal>>)
    requires AllPresent(amounts)
    ensures TotalAmount(amounts) == Ok(ArrearsAmount(amounts))
  {
    assert ZeroForNull(amounts) == amounts;
  }

  /** `calculateProductNumber(rows)`: `IntStream.sum` of the quantities,
      wrapping on overflow. */
  function ProductNumber(numbers: seq<int>): (n: int)
    ensures IsInt(n)
    decreases |numbers|
  {
    if |numbers| == 0 then 0 else Add32(ProductNumber(numbers[..|numbers| - 1]), numbers[|numbers| - 1])
  }

  function IntSum(numbers: seq<int>): int
    decreases |numbers|
  {
    if |numbers| == 0 then 0 else IntSum(numbers[..|numbers| - 1]) + numbers[|numbers| - 1]
  }

  /** The quantity total is the plain sum, wrapped once to an `int`. */
  lemma {:induction false} ProductNumberIsWrappedSum(numbers: seq<int>)
    ensures ProductNumber(numbers) == Wrap(IntSum(numbers))
    decreases |numbers|
  {
    if |numbers| > 0 {
      var init := numbers[..|numbers| - 1];
      ProductNumberIsWrappedSum(init);
      WrapAdd(IntSum(init), numbers[|numbers| - 1]);
    }
  }

  // ---------------------------------------------------------------------
  // Receipt rows and their soft delete and status updates
  // ---------------------------------------------------------------------

  /** The columns of a main receipt (`ReceiptPurchaseMain`,
      `ReceiptSaleMain`) that the modelled operations read or write;
      `relatedPersonId` is the supplier or the customer. */
  datatype ReceiptMain = ReceiptMain(
    relatedPersonId: Option<int>, receiptNumber: Option<string>, accountId: Option<int>,
    changeAmount: Option<Decimal>, arrearsAmount: Option<Decimal>,
    status: Option<int>, deleteFlag: int)

  /** The columns of a receipt line (`ReceiptPurchaseSub`, `ReceiptSaleSub`). */
  datatype ReceiptSub = ReceiptSub(
    mainId: int, productBarcode: Option<string>, warehouseId: Option<int>,
    productNumber: int, totalAmount: Option<Decimal>, deleteFlag: int)

  /** `lambdaUpdate().in(id, ids).set(deleteFlag, DELETED)` on the mains. */
  function FlagMainsDeleted(mains: map<int, ReceiptMain>, ids: set<int>): (r: map<int, ReceiptMain>)
    ensures r.Keys == mains.Keys
    ensures forall k :: k in mains ==>
      r[k] == if k in ids then mains[k].(deleteFlag := DELETED) else mains[k]
  {
    map k | k in mains :: if k in ids then mains[k].(deleteFlag := DELETED) else mains[k]
  }

  /** `lambdaUpdate().in(mainId, ids).set(deleteFlag, DELETED)` on the subs. */
  function FlagSubsDeleted(subs: map<int, ReceiptSub>, mainIds: set<int>): (r: map<int, ReceiptSub>)
    ensures r.Keys == subs.Keys
    ensures forall k :: k in subs ==>
      r[k] == if subs[k].mainId in mainIds then subs[k].(deleteFlag := DELETED) else subs[k]
  {
    map k | k in subs :: if subs[k].mainId in mainIds then subs[k].(deleteFlag := DELETED) else subs[k]
  }

  /** `lambdaUpdate().in(id, ids).set(status, status)` on the mains. */
  function SetMainsStatus(mains: map<int, ReceiptMain>, ids: set<int>, status: int): (r: map<int, ReceiptMain>)
    ensures r.Keys == mains.Keys
    ensures forall k :: k in mains ==>
      r[k] == if k in ids then mains[k].(status := Some(status)) else mains[k]
  {
    map k | k in mains :: if k in ids then mains[k].(status := Some(status)) else mains[k]
  }

  /** `update()` reports true when the `WHERE` clause matched a row. */
  predicate AnyMainIn(mains: map<int, ReceiptMain>, ids: set<int>) {
    exists k :: k in mains && k in ids
  }

  predicate AnySubOf(subs: map<int, ReceiptSub>, mainIds: set<int>) {
    exists k :: k in subs && subs[k].mainId in mainIds
  }

  /** Soft delete is idempotent and keeps every row: the rows flagged are
      exactly the listed mains and the subs that belong to them. */
  lemma SoftDeleteKeepsRows(mains: map<int, ReceiptMain>, subs: map<int, ReceiptSub>, ids: set<int>)
    ensures FlagMainsDeleted(FlagMainsDeleted(mains, ids), ids) == FlagMainsDeleted(mains, ids)
    ensures FlagSubsDeleted(FlagSubsDeleted(subs, ids), ids) == FlagSubsDeleted(subs, ids)
    ensures forall k :: k in mains ==>
      (FlagMainsDeleted(mains, ids)[k].deleteFlag == DELETED <==> k in ids || mains[k].deleteFlag == DELETED)
    ensures forall k :: k in subs ==>
      (FlagSubsDeleted(subs, ids)[k].deleteFlag == DELETED <==> subs[k].mainId in ids || subs[k].deleteFlag == DELETED)
  {
    var m1 := FlagMainsDeleted(mains, ids);
    assert FlagMainsDeleted(m1, ids) == m1;
    var s1 := FlagSubsDeleted(subs, ids);
    assert FlagSubsDeleted(s1, ids) == s1;
  }
}
