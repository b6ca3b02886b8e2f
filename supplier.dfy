/** `SupplierServiceImpl`: suppliers with four quarterly payables and their
    yearly total, a filtered list and page, single and batch creation,
    update, deletion and status changes. */
module Suppliers {
  import opened Wrappers
  import opened Responses
  import opened Text
  import opened Tables
  import opened Decimals
  import opened QuarterTotals
  import opened BatchImports

  /** A stored supplier. The contact details the service copies without
      looking at them (address, email, fax, bank, tax number, remark) are
      not modelled. */
  datatype Supplier = Supplier(
    supplierName: Option<string>, contact: Option<string>, contactNumber: Option<string>, phoneNumber: Option<string>,
    status: Option<int>, sort: Option<int>, payments: Quarters, totalAccountPayment: Option<Decimal>,
    taxRate: Option<Decimal>, audit: Audit, deleteFlag: int)

  /** The add and update requests; the quarterly payments arrive as
      `Double` and are given here already converted. */
  datatype SupplierRequest = SupplierRequest(
    id: Option<int>, supplierName: Option<string>, contact: Option<string>, contactNumber: Option<string>,
    phoneNumber: Option<string>, status: Option<int>, sort: Option<int>, payments: Quarters, taxRate: Option<int>)

  /** The list and page query; dates are on the clock's scale. */
  datatype SupplierQuery = SupplierQuery(
    supplierName: Option<string>, contact: Option<string>, contactNumber: Option<string>, phoneNumber: Option<string>,
    startDate: Option<int>, endDate: Option<int>, page: Option<int>, pageSize: Option<int>)

  datatype StatusRequest = StatusRequest(ids: Option<seq<int>>, status: Option<int>)

  /** A row of the list: the supplier's id and columns. */
  datatype SupplierView = SupplierView(id: int, supplier: Supplier)

  function SupplierEnum(lang: Lang, stem: string, ok: bool): CodeEnum {
    var name := stem + (if ok then "_SUCCESS" else "_ERROR");
    Localized(lang, CodeEnum(name), CodeEnum(name + "_EN"))
  }

  /** `BigDecimal.valueOf(Double.valueOf(taxRate))`: the integer rate with one
      decimal place. */
  function TaxRateOf(t: int): (r: Decimal)
    ensures r.scale == 1 && SameValue(r, OfLong(t))
  {
    SameValueAt(Decimal(t * 10, 1), OfLong(t), 1);
    Decimal(t * 10, 1)
  }

  /** The entity `addSupplier` and `updateSupplier` fill from a request
      before stamping it: every column copied and the yearly total computed
      through `List.of`. Unboxing a null tax rate throws, and so does
      `List.of` on a null quarter; a null request leaves all four quarters
      null and throws there. */
  function Entity(q: Option<SupplierRequest>): (r: Result<Supplier>)
    ensures r.Ok? <==> q.Some? && q.value.taxRate.Some? && AllGiven(q.value.payments)
    ensures r.Ok? ==> r.value.totalAccountPayment == Some(QuarterTotal(r.value.payments))
    ensures r.Ok? ==> (r.value.payments == q.value.payments && r.value.supplierName == q.value.supplierName &&
      r.value.contact == q.value.contact && r.value.status == q.value.status && r.value.sort == q.value.sort &&
      r.value.taxRate == Some(TaxRateOf(q.value.taxRate.value)))
  {
    match q
    case None => Throws
    case Some(s) =>
      if s.taxRate.None? then Throws
      else match TotalOfListOf(s.payments)
        case Throws => Throws
        case Ok(total) =>
          Ok(Supplier(s.supplierName, s.contact, s.contactNumber, s.phoneNumber, s.status, s.sort, s.payments,
            Some(total), Some(TaxRateOf(s.taxRate.value)), Audit(None, None, None, None), NOT_DELETED))
  }

  /** `updateById(entity)`: the entity's non-null columns overwrite the
      stored ones; the update stamps are always written. */
  function UpdatedOver(s: Supplier, e: Supplier, userId: int, now: int): Supplier {
    s.(supplierName := if e.supplierName.Some? then e.supplierName else s.supplierName,
       contact := if e.contact.Some? then e.contact else s.contact,
       contactNumber := if e.contactNumber.Some? then e.contactNumber else s.contactNumber,
       phoneNumber := if e.phoneNumber.Some? then e.phoneNumber else s.phoneNumber,
       status := if e.status.Some? then e.status else s.status,
       sort := if e.sort.Some? then e.sort else s.sort,
       payments := Quarters(
         if e.payments.first.Some? then e.payments.first else s.payments.first,
         if e.payments.second.Some? then e.payments.second else s.payments.second,
         if e.payments.third.Some? then e.payments.third else s.payments.third,
         if e.payments.fourth.Some? then e.payments.fourth else s.payments.fourth),
       totalAccountPayment := if e.totalAccountPayment.Some? then e.totalAccountPayment else s.totalAccountPayment,
       taxRate := if e.taxRate.Some? then e.taxRate else s.taxRate,
       audit := UpdatedBy(s.audit, userId, now))
  }

  /** A stored total agrees with the stored quarters. */
  predicate TotalConsistent(s: Supplier) {
    s.totalAccountPayment == Some(QuarterTotal(s.payments))
  }

  /** An update that goes through gave all four quarters, so the total it
      writes is consistent with the quarters the row then holds. */
  lemma UpdateKeepsTotalConsistent(s: Supplier, q: SupplierRequest, userId: int, now: int)
    requires Entity(Some(q)).Ok?
    ensures TotalConsistent(UpdatedOver(s, Entity(Some(q)).value, userId, now))
  {
    var e := Entity(Some(q)).value;
    assert UpdatedOver(s, e, userId, now).payments == q.payments;
  }

  /** An add or update that leaves a quarter out throws at `List.of`, and
      the service then writes nothing: the first quarter 5 with three nulls
      is saved by neither. */
  lemma MissingQuarterThrows(q: SupplierRequest)
    requires !AllGiven(q.payments)
    ensures Entity(Some(q)).Throws?
    ensures Entity(Some(q.(payments := Quarters(Some(Decimal(5, 0)), None, None, None)))).Throws?
    ensures Entity(None).Throws?
  {
  }

  // ---------------------------------------------------------------------
  // Lists
  // ---------------------------------------------------------------------

  /** The query's `like` and date conditions, each added only when given. */
  predicate MatchesQuery(s: Supplier, q: Option<SupplierQuery>) {
    q.None? ||
    (LikeFilter(s.supplierName, q.value.supplierName) && LikeFilter(s.contact, q.value.contact) &&
     LikeFilter(s.contactNumber, q.value.contactNumber) && LikeFilter(s.phoneNumber, q.value.phoneNumber) &&
     WithinDates(s.audit.createTime, q.value.startDate, q.value.endDate))
  }

  /** Whether the enabled-supplier list selects a supplier. */
  predicate Listed(s: Supplier, q: Option<SupplierQuery>) {
    MatchesQuery(s, q) && s.status == Some(STATUS_NORMAL) && s.deleteFlag == NOT_DELETED
  }

  /** The order `getSupplierList` reads: each selected supplier once, by
      ascending sort. */
  ghost predicate ListOrder(t: map<int, Supplier>, q: Option<SupplierQuery>, order: seq<int>) {
    Distinct(order) &&
    (forall i :: 0 <= i < |order| ==> order[i] in t) &&
    (forall k :: k in order <==> k in t && Listed(t[k], q)) &&
    (forall i, j :: 0 <= i < j < |order| && order[i] in t && order[j] in t ==>
      SortsBefore(t[order[i]].sort, t[order[j]].sort))
  }

  /** The order the page query reads before paging: each live supplier the
      query matches once, newest first. */
  ghost predicate PageOrder(t: map<int, Supplier>, q: Option<SupplierQuery>, order: seq<int>) {
    Distinct(order) &&
    (forall i :: 0 <= i < |order| ==> order[i] in t) &&
    (forall k :: k in order <==> k in t && MatchesQuery(t[k], q) && t[k].deleteFlag == NOT_DELETED) &&
    (forall i, j :: 0 <= i < j < |order| && order[i] in t && order[j] in t ==>
      NotOlder(t[order[i]].audit.createTime, t[order[j]].audit.createTime))
  }

  function PagingOfQuery(q: Option<SupplierQuery>): Paging {
    PagingOf(if q.Some? then q.value.page else None, if q.Some? then q.value.pageSize else None)
  }

  // ---------------------------------------------------------------------
  // Batch import
  // ---------------------------------------------------------------------

  /** `supplierName + "|" + contact`, a null rendered as `null`. */
  function SupplierKey(s: Supplier): string {
    StringValueOf(s.supplierName) + "|" + StringValueOf(s.contact)
  }

  /** The key does not tell the columns apart: a `|` inside a name or a
      contact, or the text `null`, lets two different suppliers share it,
      and the later one is then skipped. */
  lemma SupplierKeyAmbiguous(s: Supplier)
    requires s.supplierName.None? && s.contact == Some("x")
    ensures SupplierKey(s) == SupplierKey(s.(supplierName := Some("null")))
    ensures SupplierKey(s.(supplierName := Some("a|b"), contact := Some("c"))) ==
            SupplierKey(s.(supplierName := Some("a"), contact := Some("b|c")))
  {
    assert "a|b" + "|" + "c" == "a" + "|" + "b|c";
  }

  /** The stored suppliers `eq(supplierName, n).eq(contact, c)` selects; a
      null value matches no row. */
  function Matching(t: map<int, Supplier>, s: Supplier): (r: set<int>)
    ensures forall k :: k in r <==> (k in t && s.supplierName.Some? && s.contact.Some? &&
      t[k].supplierName == s.supplierName && t[k].contact == s.contact)
  {
    set k | k in t && s.supplierName.Some? && s.contact.Some? &&
      t[k].supplierName == s.supplierName && t[k].contact == s.contact
  }

  function ImportKeys(rs: seq<Supplier>): (r: seq<string>)
    ensures |r| == |rs| && forall j :: 0 <= j < |rs| ==> r[j] == SupplierKey(rs[j])
  {
    seq(|rs|, j requires 0 <= j < |rs| => SupplierKey(rs[j]))
  }

  function ImportLookups(t: map<int, Supplier>, rs: seq<Supplier>): (r: seq<Result<bool>>)
    ensures |r| == |rs| && forall j :: 0 <= j < |rs| ==> r[j] == SelectOne(|Matching(t, rs[j])|)
  {
    seq(|rs|, j requires 0 <= j < |rs| => SelectOne(|Matching(t, rs[j])|))
  }

  /** The entity an imported row becomes: every column copied, the total
      computed through `List.of`, the creation stamped; a null quarter
      throws. */
  function Imported(s: Supplier, userId: int, now: int): (r: Result<Supplier>)
    ensures r.Ok? <==> AllGiven(s.payments)
    ensures r.Ok? ==> TotalConsistent(r.value) && r.value.supplierName == s.supplierName && r.value.contact == s.contact
    ensures r.Ok? ==> r.value.payments == s.payments && r.value.audit.createBy == Some(userId) && r.value.audit.createTime == Some(now)
  {
    match TotalOfListOf(s.payments)
    case Throws => Throws
    case Ok(total) => Ok(s.(totalAccountPayment := Some(total), audit := s.audit.(createBy := Some(userId), createTime := Some(now))))
  }

  /** The entities of the picked rows, in order; the first with a null
      quarter throws. */
  function Imports(rs: seq<Supplier>, picked: seq<nat>, userId: int, now: int): (r: Result<seq<Supplier>>)
    requires forall j :: 0 <= j < |picked| ==> picked[j] < |rs|
    ensures r.Ok? <==> forall j :: 0 <= j < |picked| ==> AllGiven(rs[picked[j]].payments)
    ensures r.Ok? ==> |r.value| == |picked| && forall j :: 0 <= j < |picked| ==> Ok(r.value[j]) == Imported(rs[picked[j]], userId, now)
  {
    var built := seq(|picked|, j requires 0 <= j < |picked| => Imported(rs[picked[j]], userId, now));
    assert forall j :: 0 <= j < |picked| ==> (built[j].Ok? <==> AllGiven(rs[picked[j]].payments));
    AllBuilt(built)
  }

  /** What a successful import saves: no two rows with the same key, none
      with a stored namesake, every total consistent. */
  lemma ImportedRowsAreNew(t: map<int, Supplier>, rs: seq<Supplier>, userId: int, now: int)
    requires Kept(ImportKeys(rs), ImportLookups(t, rs)).Ok?
    requires Imports(rs, Kept(ImportKeys(rs), ImportLookups(t, rs)).value, userId, now).Ok?
    ensures var saved := Imports(rs, Kept(ImportKeys(rs), ImportLookups(t, rs)).value, userId, now).value;
      (forall i, j :: 0 <= i < j < |saved| ==> SupplierKey(saved[i]) != SupplierKey(saved[j])) &&
      (forall j :: 0 <= j < |saved| ==> Matching(t, saved[j]) == {} && TotalConsistent(saved[j]))
  {
    var keys := ImportKeys(rs);
    var lookups := ImportLookups(t, rs);
    KeptShape(keys, lookups);
    var ks := Kept(keys, lookups).value;
    var saved := Imports(rs, ks, userId, now).value;
    forall j | 0 <= j < |saved|
      ensures Matching(t, saved[j]) == {} && SupplierKey(saved[j]) == keys[ks[j]]
    {
      assert lookups[ks[j]] == Ok(false);
      assert Matching(t, saved[j]) == Matching(t, rs[ks[j]]);
    }
  }

  /** A single new row with a null quarter fails the whole import: a row
      whose key no earlier row has and which has no stored namesake is
      picked, and building its entity throws. */
  lemma NullQuarterFailsImport(t: map<int, Supplier>, rs: seq<Supplier>, i: nat, userId: int, now: int)
    requires Kept(ImportKeys(rs), ImportLookups(t, rs)).Ok?
    requires i < |rs| && !AllGiven(rs[i].payments) && Matching(t, rs[i]) == {}
    requires forall j :: 0 <= j < i ==> SupplierKey(rs[j]) != SupplierKey(rs[i])
    ensures Imports(rs, Kept(ImportKeys(rs), ImportLookups(t, rs)).value, userId, now).Throws?
  {
    var keys := ImportKeys(rs);
    var lookups := ImportLookups(t, rs);
    KeptShape(keys, lookups);
    FirstOccurrenceKept(keys, lookups, i);
    var ks := Kept(keys, lookups).value;
    var j :| 0 <= j < |ks| && ks[j] == i;
    assert !AllGiven(rs[ks[j]].payments);
  }

  class SupplierService {
    var suppliers: map<int, Supplier>

    constructor(suppliers: map<int, Supplier>)
      ensures this.suppliers == suppliers
    {
      this.suppliers := suppliers;
    }

    /** The list rows of `keys`, in order. */
    method ViewsOf(keys: seq<int>) returns (views: seq<SupplierView>)
      requires forall i :: 0 <= i < |keys| ==> keys[i] in suppliers
      ensures |views| == |keys|
      ensures forall i :: 0 <= i < |keys| ==> views[i] == SupplierView(keys[i], suppliers[keys[i]])
    {
      views := [];
      var i := 0;
      while i < |keys|
        invariant 0 <= i <= |keys|
        invariant |views| == i
        invariant forall j :: 0 <= j < i ==> views[j] == SupplierView(keys[j], suppliers[keys[j]])
      {
        views := views + [SupplierView(keys[i], suppliers[keys[i]])];
        i := i + 1;
      }
    }

    /** `getSupplierPageList`: the page of the newest-first live suppliers
        the query matches; `QUERY_DATA_EMPTY` for an empty page. */
    method GetSupplierPageList(q: Option<SupplierQuery>, order: seq<int>) returns (r: Response<seq<SupplierView>>)
      requires PageOrder(suppliers, q, order)
      ensures var page := PageSlice(order, PagingOfQuery(q));
        (page == [] ==> r == ResponseMsg(QUERY_DATA_EMPTY)) &&
        (page != [] ==> (r.data.Some? && r == ResponseData(r.data.value) && |r.data.value| == |page| &&
          forall i :: 0 <= i < |page| ==> r.data.value[i] == SupplierView(page[i], suppliers[page[i]])))
      ensures r.data.Some? ==> forall i :: 0 <= i < |r.data.value| ==>
        r.data.value[i].supplier.deleteFlag == NOT_DELETED && MatchesQuery(r.data.value[i].supplier, q)
    {
      var page := PageSlice(order, PagingOfQuery(q));
      if page == [] {
        return ResponseMsg(QUERY_DATA_EMPTY);
      }
      assert forall i :: 0 <= i < |page| ==> page[i] in order;
      var views := ViewsOf(page);
      r := ResponseData(views);
    }

    /** `getSupplierList`: the enabled live suppliers the query matches, by
        ascending sort. */
    method GetSupplierList(q: Option<SupplierQuery>, order: seq<int>) returns (r: Response<seq<SupplierView>>)
      requires ListOrder(suppliers, q, order)
      ensures r.data.Some? && r == ResponseData(r.data.value) && |r.data.value| == |order|
      ensures forall i :: 0 <= i < |order| ==> r.data.value[i] == SupplierView(order[i], suppliers[order[i]])
      ensures forall i :: 0 <= i < |order| ==> Listed(r.data.value[i].supplier, q)
      ensures forall k :: k in suppliers && Listed(suppliers[k], q) ==> exists i :: 0 <= i < |order| && r.data.value[i].id == k
      ensures forall i, j :: 0 <= i < j < |order| ==> SortsBefore(r.data.value[i].supplier.sort, r.data.value[j].supplier.sort)
    {
      var views := ViewsOf(order);
      r := ResponseData(views);
    }

    /** `addSupplier`: the supplier saved under a fresh id with its total
        and creation stamps; a null tax rate throws. */
    method AddSupplier(q: Option<SupplierRequest>, freshId: int, userId: int, now: int, lang: Lang) returns (r: Result<Response<string>>)
      requires freshId !in suppliers
      modifies this
      ensures Entity(q).Throws? ==> r.Throws? && suppliers == old(suppliers)
      ensures Entity(q).Ok? ==>
        suppliers == old(suppliers)[freshId := Entity(q).value.(audit := CreatedBy(userId, now))] &&
        r == Ok(ResponseMsg(SupplierEnum(lang, "ADD_SUPPLIER", true)))
      ensures Entity(q).Ok? ==> TotalConsistent(suppliers[freshId])
    {
      var e := Entity(q);
      if e.Throws? {
        return Throws;
      }
      suppliers := suppliers[freshId := e.value.(audit := CreatedBy(userId, now))];
      r := Ok(ResponseMsg(SupplierEnum(lang, "ADD_SUPPLIER", true)));
    }

    /** `updateSupplier`: `updateById` writes the request's non-null
        columns and the total over the stored supplier; a null or unknown
        id updates nothing and reports the error. */
    method UpdateSupplier(q: Option<SupplierRequest>, userId: int, now: int, lang: Lang) returns (r: Result<Response<string>>)
      modifies this
      ensures Entity(q).Throws? ==> r.Throws? && suppliers == old(suppliers)
      ensures Entity(q).Ok? ==>
        var found := q.Some? && q.value.id.Some? && q.value.id.value in old(suppliers);
        (found ==> suppliers == old(suppliers)[q.value.id.value := UpdatedOver(old(suppliers)[q.value.id.value], Entity(q).value, userId, now)]) &&
        (!found ==> suppliers == old(suppliers)) &&
        r == Ok(ResponseMsg(SupplierEnum(lang, "UPDATE_SUPPLIER", found)))
    {
      var e := Entity(q);
      if e.Throws? {
        return Throws;
      }
      var found := q.Some? && q.value.id.Some? && q.value.id.value in suppliers;
      if found {
        var id := q.value.id.value;
        suppliers := suppliers[id := UpdatedOver(suppliers[id], e.value, userId, now)];
      }
      r := Ok(ResponseMsg(SupplierEnum(lang, "UPDATE_SUPPLIER", found)));
    }

    /** `deleteSupplier`: a null or empty list is refused; otherwise the
        listed suppliers are removed, and removing none is an error. */
    method DeleteSupplier(ids: Option<seq<int>>, lang: Lang) returns (r: Response<string>)
      modifies this
      ensures ids.None? || |ids.value| == 0 ==> r == ResponseMsg(PARAMETER_NULL) && suppliers == old(suppliers)
      ensures ids.Some? && |ids.value| > 0 ==>
        suppliers == old(suppliers) - IdSet(ids.value) &&
        r == ResponseMsg(SupplierEnum(lang, "DELETE_SUPPLIER", AnyKeyIn(old(suppliers), IdSet(ids.value))))
    {
      if ids.None? || |ids.value| == 0 {
        return ResponseMsg(PARAMETER_NULL);
      }
      var idSet := IdSet(ids.value);
      var removed := AnyKeyIn(suppliers, idSet);
      suppliers := suppliers - idSet;
      r := ResponseMsg(SupplierEnum(lang, "DELETE_SUPPLIER", removed));
    }

    /** `updateSupplierStatus`: a null request is refused; otherwise the
        listed suppliers take the status (when one is given) and the update
        stamps, and matching none is an error. A null id list matches none. */
    method UpdateSupplierStatus(dto: Option<StatusRequest>, userId: int, now: int, lang: Lang) returns (r: Response<string>)
      modifies this
      ensures dto.None? ==> r == ResponseMsg(PARAMETER_NULL) && suppliers == old(suppliers)
      ensures dto.Some? ==>
        var ids := IdSet(dto.value.ids.GetOr([]));
        suppliers == (map k | k in old(suppliers) :: if k in ids then
          old(suppliers)[k].(status := if dto.value.status.Some? then dto.value.status else old(suppliers)[k].status,
                             audit := UpdatedBy(old(suppliers)[k].audit, userId, now))
          else old(suppliers)[k]) &&
        r == ResponseMsg(SupplierEnum(lang, "UPDATE_SUPPLIER_STATUS", AnyKeyIn(old(suppliers), ids)))
    {
      if dto.None? {
        return ResponseMsg(PARAMETER_NULL);
      }
      var ids := IdSet(dto.value.ids.GetOr([]));
      var status := dto.value.status;
      var matched := AnyKeyIn(suppliers, ids);
      suppliers := map k | k in suppliers :: if k in ids then
        suppliers[k].(status := if status.Some? then status else suppliers[k].status,
                      audit := UpdatedBy(suppliers[k].audit, userId, now))
        else suppliers[k];
      r := ResponseMsg(SupplierEnum(lang, "UPDATE_SUPPLIER_STATUS", matched));
    }

    /** `batchAddSupplier`: the rows are deduplicated on their key against
        each other and the store, and the survivors saved under fresh ids;
        saving an empty batch reports false. A throwing lookup, or a kept
        row with a null quarter, throws before anything is saved. */
    method BatchAddSupplier(rows: Option<seq<Supplier>>, freshIds: seq<int>, userId: int, now: int) returns (r: Result<bool>)
      requires |freshIds| >= |rows.GetOr([])| && Distinct(freshIds)
      requires forall j :: 0 <= j < |freshIds| ==> freshIds[j] !in suppliers
      modifies this
      ensures var rs := rows.GetOr([]);
        var kept := Kept(ImportKeys(rs), ImportLookups(old(suppliers), rs));
        (kept.Throws? ==> r.Throws? && suppliers == old(suppliers)) &&
        (kept.Ok? && Imports(rs, kept.value, userId, now).Throws? ==> r.Throws? && suppliers == old(suppliers)) &&
        (kept.Ok? && Imports(rs, kept.value, userId, now).Ok? ==> (r == Ok(|kept.value| > 0) &&
          suppliers == BatchInserted(old(suppliers), freshIds[..|kept.value|], Imports(rs, kept.value, userId, now).value)))
    {
      var rs := rows.GetOr([]);
      var kept := SelectKept(ImportKeys(rs), ImportLookups(suppliers, rs));
      if kept.Throws? {
        return Throws;
      }
      var entities := Imports(rs, kept.value, userId, now);
      if entities.Throws? {
        return Throws;
      }
      if |kept.value| == 0 {
        return Ok(false);
      }
      suppliers := BatchInserted(suppliers, freshIds[..|kept.value|], entities.value);
      r := Ok(true);
    }
  }
}
