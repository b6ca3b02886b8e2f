/** The `product_stock` table as the receipt services see it through
    `productStockMapper`, and `updateProductStock(rows, stockType)`, which
    both receipt services declare with the same body. */
module ProductStock {
  import opened Wrappers
  import opened JavaInts
  import opened Tables
  import opened ReceiptCommon

  /** A stock row's key: product sku id and warehouse id. */
  type Slot = (int, int)

  predicate AllInts(q: map<Slot, int>) {
    forall p :: p in q ==> IsInt(q[p])
  }

  /** `getProductSkuByBarCode(barcode, warehouseId)`: the stock row of the sku
      that carries the barcode, in that warehouse; no row when either is null. */
  function Locate(skuOf: map<string, int>, q: map<Slot, int>, row: ReceiptSub): (p: Option<Slot>)
    ensures p.Some? <==> (row.productBarcode.Some? && row.productBarcode.value in skuOf &&
                          row.warehouseId.Some? && (skuOf[row.productBarcode.value], row.warehouseId.value) in q)
    ensures p.Some? ==> p.value == (skuOf[row.productBarcode.value], row.warehouseId.value)
  {
    if row.productBarcode.Some? && row.productBarcode.value in skuOf && row.warehouseId.Some?
      && (skuOf[row.productBarcode.value], row.warehouseId.value) in q
    then Some((skuOf[row.productBarcode.value], row.warehouseId.value))
    else None
  }

  /** Only which rows exist matters to the lookup, not their quantities. */
  lemma LocateDependsOnKeys(skuOf: map<string, int>, q1: map<Slot, int>, q2: map<Slot, int>, row: ReceiptSub)
    requires q1.Keys == q2.Keys
    ensures Locate(skuOf, q1, row) == Locate(skuOf, q2, row)
  {
  }

  /** `stockType` 1 adds the row's quantity, 2 subtracts it, anything else
      leaves the stored figure. */
  function Sign(stockType: int): (s: int)
    ensures s == 1 || s == -1 || s == 0
  {
    if stockType == 1 then 1 else if stockType == 2 then -1 else 0
  }

  /** `stockNumber += productNumber` / `stockNumber -= productNumber` on `int`s. */
  function Adjusted(stored: int, stockType: int, n: int): (v: int)
    requires IsInt(stored)
    ensures v == Wrap(stored + Sign(stockType) * n)
  {
    if stockType == 1 then Add32(stored, n)
    else if stockType == 2 then Sub32(stored, n)
    else WrapOfInt(stored); stored
  }

  // ---------------------------------------------------------------------
  // As written
  // ---------------------------------------------------------------------

  /** The first pass: each located row puts its sku's new figure into
      `stockMap`, computed from the stored stock of the row's own warehouse;
      a later row with the same sku replaces the earlier figure. */
  function StockMapAsWritten(skuOf: map<string, int>, q: map<Slot, int>, rows: seq<ReceiptSub>, stockType: int): (m: map<int, int>)
    requires AllInts(q)
    ensures forall k :: k in m ==> IsInt(m[k])
    decreases |rows|
  {
    if |rows| == 0 then map[]
    else
      var m := StockMapAsWritten(skuOf, q, rows[..|rows| - 1], stockType);
      var row := rows[|rows| - 1];
      match Locate(skuOf, q, row)
      case None => m
      case Some(p) => m[p.0 := Adjusted(q[p], stockType, row.productNumber)]
  }

  function RowWarehouses(rows: seq<ReceiptSub>): (w: set<int>)
    ensures forall h :: h in w <==> exists i :: 0 <= i < |rows| && rows[i].warehouseId == Some(h)
  {
    set i | 0 <= i < |rows| && rows[i].warehouseId.Some? :: rows[i].warehouseId.value
  }

  /** The second pass: for every row and every `stockMap` entry, the stock of
      that sku in the row's warehouse is set to the entry's figure. */
  function QuantityAsWritten(skuOf: map<string, int>, q: map<Slot, int>, rows: seq<ReceiptSub>, stockType: int): (r: map<Slot, int>)
    requires AllInts(q)
    ensures r.Keys == q.Keys && AllInts(r)
  {
    var sm := StockMapAsWritten(skuOf, q, rows, stockType);
    var whs := RowWarehouses(rows);
    map p | p in q :: if p.0 in sm && p.1 in whs then sm[p.0] else q[p]
  }

  // ---------------------------------------------------------------------
  // Corrected: every row moves its own slot, and the moves accumulate
  // ---------------------------------------------------------------------

  function ApplyRow(skuOf: map<string, int>, q: map<Slot, int>, row: ReceiptSub, stockType: int): (r: map<Slot, int>)
    requires AllInts(q)
    ensures r.Keys == q.Keys && AllInts(r)
  {
    match Locate(skuOf, q, row)
    case None => q
    case Some(p) => q[p := Adjusted(q[p], stockType, row.productNumber)]
  }

  function ApplyRows(skuOf: map<string, int>, q: map<Slot, int>, rows: seq<ReceiptSub>, stockType: int): (r: map<Slot, int>)
    requires AllInts(q)
    ensures r.Keys == q.Keys && AllInts(r)
    decreases |rows|
  {
    if |rows| == 0 then q
    else ApplyRow(skuOf, ApplyRows(skuOf, q, rows[..|rows| - 1], stockType), rows[|rows| - 1], stockType)
  }

  /** The total quantity of the rows that land on slot `p`. */
  function SlotTotal(skuOf: map<string, int>, q: map<Slot, int>, rows: seq<ReceiptSub>, p: Slot): int
    decreases |rows|
  {
    if |rows| == 0 then 0
    else
      var row := rows[|rows| - 1];
      SlotTotal(skuOf, q, rows[..|rows| - 1], p) + (if Locate(skuOf, q, row) == Some(p) then row.productNumber else 0)
  }

  /** Each slot ends at its stored figure plus, or minus, the total quantity
      of the rows that land on it, wrapped to an `int`; every other slot
      keeps its figure. */
  lemma {:induction false} ApplyRowsSlot(skuOf: map<string, int>, q: map<Slot, int>, rows: seq<ReceiptSub>, stockType: int, p: Slot)
    requires AllInts(q) && p in q
    ensures ApplyRows(skuOf, q, rows, stockType)[p] == Wrap(q[p] + Sign(stockType) * SlotTotal(skuOf, q, rows, p))
    decreases |rows|
  {
    if |rows| == 0 {
      WrapOfInt(q[p]);
    } else {
      var init := rows[..|rows| - 1];
      var row := rows[|rows| - 1];
      var mid := ApplyRows(skuOf, q, init, stockType);
      ApplyRowsSlot(skuOf, q, init, stockType, p);
      LocateDependsOnKeys(skuOf, mid, q, row);
      var s := Sign(stockType);
      var before := SlotTotal(skuOf, q, init, p);
      if Locate(skuOf, q, row) == Some(p) {
        WrapAdd(q[p] + s * before, s * row.productNumber);
        assert s * before + s * row.productNumber == s * (before + row.productNumber);
      }
    }
  }

  /** Reversing a set of rows with the opposite stock type restores every
      slot, overflow or not. */
  lemma ApplyThenReverse(skuOf: map<string, int>, q: map<Slot, int>, rows: seq<ReceiptSub>, stockType: int, reverseType: int)
    requires AllInts(q)
    requires (stockType == 1 && reverseType == 2) || (stockType == 2 && reverseType == 1)
    ensures ApplyRows(skuOf, ApplyRows(skuOf, q, rows, stockType), rows, reverseType) == q
  {
    var mid := ApplyRows(skuOf, q, rows, stockType);
    var last := ApplyRows(skuOf, mid, rows, reverseType);
    forall p | p in q
      ensures last[p] == q[p]
    {
      SlotRestored(skuOf, q, rows, stockType, reverseType, p);
    }
  }

  /** One slot of `ApplyThenReverse`. */
  lemma SlotRestored(skuOf: map<string, int>, q: map<Slot, int>, rows: seq<ReceiptSub>, stockType: int, reverseType: int, p: Slot)
    requires AllInts(q) && p in q
    requires (stockType == 1 && reverseType == 2) || (stockType == 2 && reverseType == 1)
    ensures ApplyRows(skuOf, ApplyRows(skuOf, q, rows, stockType), rows, reverseType)[p] == q[p]
  {
    var mid := ApplyRows(skuOf, q, rows, stockType);
    ApplyRowsSlot(skuOf, q, rows, stockType, p);
    ApplyRowsSlot(skuOf, mid, rows, reverseType, p);
    SlotTotalDependsOnKeys(skuOf, mid, q, rows, p);
    var t := SlotTotal(skuOf, q, rows, p);
    OppositeSigns(stockType, reverseType, t);
    WrapBack(q[p], Sign(stockType) * t, Sign(reverseType) * t);
  }

  lemma OppositeSigns(stockType: int, reverseType: int, t: int)
    requires (stockType == 1 && reverseType == 2) || (stockType == 2 && reverseType == 1)
    ensures Sign(stockType) * t + Sign(reverseType) * t == 0
  {
  }

  /** Adding `x` and then `y` with wrap-around, where `x + y == 0`, gives back an `int`. */
  lemma WrapBack(a: int, x: int, y: int)
    requires IsInt(a) && x + y == 0
    ensures Wrap(Wrap(a + x) + y) == a
  {
    WrapAdd(a + x, y);
    assert a + x + y == a;
    WrapOfInt(a);
  }

  lemma {:induction false} SlotTotalDependsOnKeys(skuOf: map<string, int>, q1: map<Slot, int>, q2: map<Slot, int>, rows: seq<ReceiptSub>, p: Slot)
    requires q1.Keys == q2.Keys
    ensures SlotTotal(skuOf, q1, rows, p) == SlotTotal(skuOf, q2, rows, p)
    decreases |rows|
  {
    if |rows| > 0 {
      SlotTotalDependsOnKeys(skuOf, q1, q2, rows[..|rows| - 1], p);
      LocateDependsOnKeys(skuOf, q1, q2, rows[|rows| - 1]);
    }
  }

  /** A receipt update restores the previous rows and applies the new ones:
      the stock ends exactly as if only the new rows had ever been applied. */
  lemma ReapplyReplaces(skuOf: map<string, int>, q: map<Slot, int>, previous: seq<ReceiptSub>, current: seq<ReceiptSub>, stockType: int, reverseType: int)
    requires AllInts(q)
    requires (stockType == 1 && reverseType == 2) || (stockType == 2 && reverseType == 1)
    ensures ApplyRows(skuOf, ApplyRows(skuOf, ApplyRows(skuOf, q, previous, stockType), previous, reverseType), current, stockType)
         == ApplyRows(skuOf, q, current, stockType)
  {
    ApplyThenReverse(skuOf, q, previous, stockType, reverseType);
  }

  /** A stock type other than 1 and 2 leaves the stock as it is. */
  lemma OtherTypeChangesNothing(skuOf: map<string, int>, q: map<Slot, int>, rows: seq<ReceiptSub>, stockType: int)
    requires AllInts(q) && stockType != 1 && stockType != 2
    ensures ApplyRows(skuOf, q, rows, stockType) == q
  {
    forall p | p in q
      ensures ApplyRows(skuOf, q, rows, stockType)[p] == q[p]
    {
      ApplyRowsSlot(skuOf, q, rows, stockType, p);
      WrapOfInt(q[p]);
    }
  }

  // ---------------------------------------------------------------------
  // Where the two differ
  // ---------------------------------------------------------------------

  function Line(barcode: string, warehouse: int, n: int): ReceiptSub {
    ReceiptSub(0, Some(barcode), Some(warehouse), n, None, NOT_DELETED)
  }

  /** Two skus in two warehouses, one row each: as written, sku 1's figure
      from warehouse 10 overwrites its stock in warehouse 20 (7 becomes 5),
      and sku 2's figure overwrites warehouse 10 (4 becomes 3). */
  lemma CrossWarehouseOverwrite()
    ensures
      var skuOf := map["a" := 1, "b" := 2];
      var q := map[(1, 10) := 0, (1, 20) := 7, (2, 10) := 4, (2, 20) := 0];
      var rows := [Line("a", 10, 5), Line("b", 20, 3)];
      QuantityAsWritten(skuOf, q, rows, 1)[(1, 20)] == 5 &&
      QuantityAsWritten(skuOf, q, rows, 1)[(2, 10)] == 3 &&
      ApplyRows(skuOf, q, rows, 1)[(1, 20)] == 7 &&
      ApplyRows(skuOf, q, rows, 1)[(2, 10)] == 4
  {
    var skuOf := map["a" := 1, "b" := 2];
    var q := map[(1, 10) := 0, (1, 20) := 7, (2, 10) := 4, (2, 20) := 0];
    var rows := [Line("a", 10, 5), Line("b", 20, 3)];
    assert rows[..1] == [Line("a", 10, 5)] && rows[..1][..0] == [];
    assert Locate(skuOf, q, rows[0]) == Some((1, 10)) && Locate(skuOf, q, rows[1]) == Some((2, 20));
    WrapOfInt(5);
    WrapOfInt(3);
    assert StockMapAsWritten(skuOf, q, rows[..1], 1) == map[1 := 5];
    assert StockMapAsWritten(skuOf, q, rows, 1) == map[1 := 5, 2 := 3];
    assert 10 in RowWarehouses(rows) && 20 in RowWarehouses(rows) by {
      assert rows[0].warehouseId == Some(10) && rows[1].warehouseId == Some(20);
    }
  }

  /** The same slot twice: as written the second row's figure is computed
      from the stored 10 again, so 10 + 5 + 3 ends at 13 instead of 18. */
  lemma RepeatedSlotLosesUpdate()
    ensures
      var skuOf := map["a" := 1];
      var q := map[(1, 10) := 10];
      var rows := [Line("a", 10, 5), Line("a", 10, 3)];
      QuantityAsWritten(skuOf, q, rows, 1)[(1, 10)] == 13 &&
      ApplyRows(skuOf, q, rows, 1)[(1, 10)] == 18
  {
    var skuOf := map["a" := 1];
    var q := map[(1, 10) := 10];
    var rows := [Line("a", 10, 5), Line("a", 10, 3)];
    assert rows[..1] == [Line("a", 10, 5)] && rows[..1][..0] == [];
    assert Locate(skuOf, q, rows[0]) == Some((1, 10)) && Locate(skuOf, q, rows[1]) == Some((1, 10));
    WrapOfInt(15);
    WrapOfInt(13);
    assert StockMapAsWritten(skuOf, q, rows[..1], 1) == map[1 := 15];
    assert StockMapAsWritten(skuOf, q, rows, 1) == map[1 := 13];
    assert 10 in RowWarehouses(rows) by {
      assert rows[0].warehouseId == Some(10);
    }
  }

  /** Applying and then reversing two rows of one sku in two warehouses:
      as written, both warehouses end at the sku's last figure, so the
      first warehouse is left at 7 instead of its original 0, while the
      corrected update restores it. */
  lemma ReverseDoesNotRestoreAsWritten()
    ensures
      var skuOf := map["a" := 1];
      var q := map[(1, 10) := 0, (1, 20) := 7];
      var rows := [Line("a", 10, 5), Line("a", 20, 3)];
      QuantityAsWritten(skuOf, QuantityAsWritten(skuOf, q, rows, 1), rows, 2)[(1, 10)] == 7 &&
      ApplyRows(skuOf, ApplyRows(skuOf, q, rows, 1), rows, 2)[(1, 10)] == 0
  {
    var skuOf := map["a" := 1];
    var q := map[(1, 10) := 0, (1, 20) := 7];
    var rows := [Line("a", 10, 5), Line("a", 20, 3)];
    assert rows[..1] == [Line("a", 10, 5)] && rows[..1][..0] == [];
    assert 10 in RowWarehouses(rows) && 20 in RowWarehouses(rows) by {
      assert rows[0].warehouseId == Some(10) && rows[1].warehouseId == Some(20);
    }
    assert Locate(skuOf, q, rows[0]) == Some((1, 10)) && Locate(skuOf, q, rows[1]) == Some((1, 20));
    WrapOfInt(5);
    WrapOfInt(10);
    assert StockMapAsWritten(skuOf, q, rows[..1], 1) == map[1 := 5];
    assert StockMapAsWritten(skuOf, q, rows, 1) == map[1 := 10];
    var mid := QuantityAsWritten(skuOf, q, rows, 1);
    assert mid == map[(1, 10) := 10, (1, 20) := 10];
    assert Locate(skuOf, mid, rows[0]) == Some((1, 10)) && Locate(skuOf, mid, rows[1]) == Some((1, 20));
    WrapOfInt(7);
    assert StockMapAsWritten(skuOf, mid, rows[..1], 2) == map[1 := 5];
    assert StockMapAsWritten(skuOf, mid, rows, 2) == map[1 := 7];
    ApplyThenReverse(skuOf, q, rows, 1, 2);
  }

  /** With no row, or a single one, the two passes do what the corrected
      update does. */
  lemma AsWrittenAgreesOnOneRow(skuOf: map<string, int>, q: map<Slot, int>, rows: seq<ReceiptSub>, stockType: int)
    requires AllInts(q) && |rows| <= 1
    ensures QuantityAsWritten(skuOf, q, rows, stockType) == ApplyRows(skuOf, q, rows, stockType)
  {
    if |rows| == 1 {
      var row := rows[0];
      assert rows[..0] == [];
      assert RowWarehouses(rows) == if row.warehouseId.Some? then {row.warehouseId.value} else {};
      assert StockMapAsWritten(skuOf, q, rows[..0], stockType) == map[];
      var sm := StockMapAsWritten(skuOf, q, rows, stockType);
      assert ApplyRows(skuOf, q, rows, stockType) == ApplyRow(skuOf, q, row, stockType);
      match Locate(skuOf, q, row)
      case None =>
        assert sm == map[];
      case Some(p0) =>
        assert sm == map[p0.0 := Adjusted(q[p0], stockType, row.productNumber)];
        assert RowWarehouses(rows) == {p0.1};
    }
  }

  /** The stock after the second pass has written the entries for the
      warehouses `whs`, and for warehouse `wh` the entries of the skus in
      `done`. */
  function Overwritten(q0: map<Slot, int>, sm: map<int, int>, whs: set<int>, wh: Option<int>, done: set<int>): (r: map<Slot, int>)
    ensures r.Keys == q0.Keys
  {
    map p | p in q0 :: if p.0 in sm && (p.1 in whs || (wh == Some(p.1) && p.0 in done)) then sm[p.0] else q0[p]
  }

  lemma OverwriteOne(q0: map<Slot, int>, sm: map<int, int>, whs: set<int>, wh: Option<int>, done: set<int>, key: int)
    requires key in sm
    ensures var cur := Overwritten(q0, sm, whs, wh, done);
      Overwritten(q0, sm, whs, wh, done + {key}) ==
        if wh.Some? && (key, wh.value) in cur then cur[(key, wh.value) := sm[key]] else cur
  {
  }

  /** The `forEach` over the entries, visited in `keys` order. */
  method WriteEach(q0: map<Slot, int>, stockMap: map<int, int>, warehouseId: Option<int>, keys: seq<int>)
    returns (q: map<Slot, int>)
    requires forall t :: 0 <= t < |keys| ==> keys[t] in stockMap
    requires forall k :: k in stockMap ==> k in keys
    ensures q == Overwritten(q0, stockMap, {}, warehouseId, stockMap.Keys)
  {
    q := q0;
    ghost var done: set<int> := {};
    var j := 0;
    while j < |keys|
      invariant 0 <= j <= |keys|
      invariant done <= stockMap.Keys && forall t :: 0 <= t < j ==> keys[t] in done
      invariant q == Overwritten(q0, stockMap, {}, warehouseId, done)
    {
      var key := keys[j];
      OverwriteOne(q0, stockMap, {}, warehouseId, done, key);
      if warehouseId.Some? && (key, warehouseId.value) in q {
        q := q[(key, warehouseId.value) := stockMap[key]];
      }
      done := done + {key};
      j := j + 1;
    }
    forall k | k in stockMap.Keys
      ensures k in done
    {
      var t :| 0 <= t < |keys| && keys[t] == k;
    }
  }

  /** Writing one more row's warehouse on top of the rows before it. */
  lemma OverwriteCompose(q0: map<Slot, int>, sm: map<int, int>, whs: set<int>, wh: Option<int>)
    ensures Overwritten(Overwritten(q0, sm, whs, None, {}), sm, {}, wh, sm.Keys) ==
      Overwritten(q0, sm, if wh.Some? then whs + {wh.value} else whs, None, {})
  {
  }

  lemma RowWarehousesSnoc(rows: seq<ReceiptSub>, i: int)
    requires 0 <= i < |rows|
    ensures RowWarehouses(rows[..i + 1]) ==
      if rows[i].warehouseId.Some? then RowWarehouses(rows[..i]) + {rows[i].warehouseId.value} else RowWarehouses(rows[..i])
  {
    assert forall k :: 0 <= k < i ==> rows[..i + 1][k] == rows[..i][k];
    assert rows[..i + 1][i] == rows[i];
  }

  // ---------------------------------------------------------------------
  // The table
  // ---------------------------------------------------------------------

  class StockTable {
    /** `product_sku`: the sku id of each barcode. */
    var skuOfBarcode: map<string, int>
    /** `product_stock.current_stock_quantity` per (sku, warehouse). */
    var quantity: map<Slot, int>

    ghost predicate Valid()
      reads this
    {
      AllInts(quantity)
    }

    constructor(skuOfBarcode: map<string, int>, quantity: map<Slot, int>)
      requires AllInts(quantity)
      ensures Valid()
      ensures this.skuOfBarcode == skuOfBarcode && this.quantity == quantity
    {
      this.skuOfBarcode := skuOfBarcode;
      this.quantity := quantity;
    }

    /** `updateProductStock(rows, stockType)` as the source writes it: the
        first pass fills `stockMap`, the second writes it out. */
    method UpdateProductStockAsWritten(rows: seq<ReceiptSub>, stockType: int)
      requires Valid()
      modifies this
      ensures Valid() && skuOfBarcode == old(skuOfBarcode)
      ensures quantity == QuantityAsWritten(skuOfBarcode, old(quantity), rows, stockType)
    {
      var stockMap := StockMapOf(rows, stockType);
      WriteStockMap(rows, stockMap);
      assert quantity == QuantityAsWritten(skuOfBarcode, old(quantity), rows, stockType);
    }

    /** The first `forEach`: each row's sku gets the row's adjusted figure. */
    method StockMapOf(rows: seq<ReceiptSub>, stockType: int) returns (stockMap: map<int, int>)
      requires Valid()
      ensures stockMap == StockMapAsWritten(skuOfBarcode, quantity, rows, stockType)
    {
      stockMap := map[];
      var i := 0;
      while i < |rows|
        invariant 0 <= i <= |rows|
        invariant stockMap == StockMapAsWritten(skuOfBarcode, quantity, rows[..i], stockType)
      {
        assert rows[..i + 1][..i] == rows[..i];
        var stock := Locate(skuOfBarcode, quantity, rows[i]);
        if stock.Some? {
          var stockNumber := Adjusted(quantity[stock.value], stockType, rows[i].productNumber);
          stockMap := stockMap[stock.value.0 := stockNumber];
        }
        i := i + 1;
      }
      assert rows[..|rows|] == rows;
    }

    /** The second `forEach`: every entry of `stockMap` is written into the
        warehouse of every row. */
    method WriteStockMap(rows: seq<ReceiptSub>, stockMap: map<int, int>)
      modifies this
      ensures skuOfBarcode == old(skuOfBarcode)
      ensures quantity == Overwritten(old(quantity), stockMap, RowWarehouses(rows), None, {})
    {
      var q0 := quantity;
      var i := 0;
      while i < |rows|
        invariant 0 <= i <= |rows| && skuOfBarcode == old(skuOfBarcode)
        invariant quantity == Overwritten(q0, stockMap, RowWarehouses(rows[..i]), None, {})
      {
        ghost var before := quantity;
        WriteEntries(rows[i].warehouseId, stockMap);
        OverwriteCompose(q0, stockMap, RowWarehouses(rows[..i]), rows[i].warehouseId);
        RowWarehousesSnoc(rows, i);
        i := i + 1;
      }
      assert rows[..|rows|] == rows;
    }

    /** `stockMap.forEach(...)` for one row: each entry updates the stock of
        its sku in that warehouse; a null warehouse id matches no row. */
    method WriteEntries(warehouseId: Option<int>, stockMap: map<int, int>)
      modifies this
      ensures skuOfBarcode == old(skuOfBarcode)
      ensures quantity == Overwritten(old(quantity), stockMap, {}, warehouseId, stockMap.Keys)
    {
      quantity := WriteEach(quantity, stockMap, warehouseId, AscendingKeys(stockMap.Keys));
    }

    /** `updateProductStock(rows, stockType)` with every row moving the stock
      of its own sku in its own warehouse, one after the other. */
    method UpdateProductStock(rows: seq<ReceiptSub>, stockType: int)
      requires Valid()
      modifies this
      ensures Valid() && skuOfBarcode == old(skuOfBarcode)
      ensures quantity == ApplyRows(skuOfBarcode, old(quantity), rows, stockType)
    {
      var q0 := quantity;
      var i := 0;
      while i < |rows|
        invariant 0 <= i <= |rows| && skuOfBarcode == old(skuOfBarcode)
        invariant quantity == ApplyRows(skuOfBarcode, q0, rows[..i], stockType)
      {
        assert rows[..i + 1][..i] == rows[..i];
        var stock := Locate(skuOfBarcode, quantity, rows[i]);
        if stock.Some? {
          quantity := quantity[stock.value := Adjusted(quantity[stock.value], stockType, rows[i].productNumber)];
        }
        i := i + 1;
      }
      assert rows[..|rows|] == rows;
    }
  }
}
