/** `CustomerServiceImpl`: customers with four quarterly receivables and
    their yearly total, saved from a request whose null columns take
    defaults, deleted, enabled or disabled, and imported in batches. */
module Customers {
  import opened Wrappers
  import opened Responses
  import opened Tables
  import opened Decimals
  import opened QuarterTotals
  import opened BatchImports
  import opened Text

  /** A stored customer. */
  datatype Customer = Customer(
    customerName: Option<string>, contact: Option<string>, phoneNumber: Option<string>, email: Option<string>,
    fax: Option<string>, address: Option<string>, taxNumber: Option<string>, bankName: Option<string>,
    accountNumber: Option<string>, remark: Option<string>,
    receivables: Quarters, totalAccountReceivable: Option<Decimal>, taxRate: Option<Decimal>,
    status: Option<int>, sort: Option<int>, audit: Audit, deleteFlag: int)

  /** `AddOrUpdateCustomerDTO`. Its own `totalAccountReceivable` is never
      read, so it is not carried. */
  datatype CustomerRequest = CustomerRequest(
    id: Option<int>, customerName: Option<string>, contact: Option<string>, phoneNumber: Option<string>,
    email: Option<string>, fax: Option<string>, address: Option<string>, taxNumber: Option<string>,
    bankName: Option<string>, accountNumber: Option<string>, remark: Option<string>,
    receivables: Quarters, taxRate: Option<Decimal>, status: Option<int>, sort: Option<int>)

  function CustomerEnum(lang: Lang, stem: string, ok: bool): CodeEnum {
    var name := stem + (if ok then "_SUCCESS" else "_ERROR");
    Localized(lang, CodeEnum(name), CodeEnum(name + "_EN"))
  }

  /** The quarters with each null amount replaced by `BigDecimal.ZERO`. */
  function ZeroFilledQuarters(q: Quarters): (r: Quarters)
    ensures forall i :: 0 <= i < 4 ==> r.Listed()[i] == Some(q.Listed()[i].GetOr(ZERO))
  {
    Quarters(Some(q.first.GetOr(ZERO)), Some(q.second.GetOr(ZERO)), Some(q.third.GetOr(ZERO)), Some(q.fourth.GetOr(ZERO)))
  }

  /** The entity `addOrUpdateCustomer` fills from a request before stamping
      it: null texts become `""`, null amounts zero, a null status or sort
      `0`, and the total is computed from the zero-filled quarters. The
      delete flag is the column's default `0`. */
  function Built(req: CustomerRequest): Customer {
    var quarters := ZeroFilledQuarters(req.receivables);
    Customer(
      Some(req.customerName.GetOr("")), Some(req.contact.GetOr("")), Some(req.phoneNumber.GetOr("")),
      Some(req.email.GetOr("")), Some(req.fax.GetOr("")), Some(req.address.GetOr("")),
      Some(req.taxNumber.GetOr("")), Some(req.bankName.GetOr("")), Some(req.accountNumber.GetOr("")),
      Some(req.remark.GetOr("")),
      quarters, Some(CalculateTotalAccount(quarters.Listed())), Some(req.taxRate.GetOr(ZERO)),
      Some(req.status.GetOr(0)), Some(req.sort.GetOr(0)), Audit(None, None, None, None), NOT_DELETED)
  }

  /** Each column of the built entity is the request's value when given and
      the default otherwise; no column is left null. */
  lemma BuiltDefaults(req: CustomerRequest)
    ensures var c := Built(req);
      (req.customerName.Some? ==> c.customerName == req.customerName) &&
      (req.customerName.None? ==> c.customerName == Some("")) &&
      (req.contact.Some? ==> c.contact == req.contact) && (req.contact.None? ==> c.contact == Some("")) &&
      (req.email.None? ==> c.email == Some("")) && (req.remark.None? ==> c.remark == Some("")) &&
      (req.taxRate.None? ==> c.taxRate == Some(ZERO)) &&
      (req.status.None? ==> c.status == Some(0)) && (req.sort.None? ==> c.sort == Some(0)) &&
      (req.sort.Some? ==> c.sort == req.sort) &&
      c.phoneNumber.Some? && c.fax.Some? && c.address.Some? && c.taxNumber.Some? && c.bankName.Some? &&
      c.accountNumber.Some? && c.totalAccountReceivable.Some? &&
      (forall i :: 0 <= i < 4 ==> c.receivables.Listed()[i].Some?)
  {
  }

  /** The stored total agrees with the stored quarters. */
  predicate TotalConsistent(c: Customer) {
    c.totalAccountReceivable == Some(QuarterTotal(c.receivables))
  }

  /** The total of a request counts a null quarter as zero: in thousandths
      it is the sum of the given quarters (those with at most three
      decimals), at scale 3. */
  lemma BuiltTotalCountsNullAsZero(req: CustomerRequest)
    requires ScalesAtMost(req.receivables.Listed(), 3)
    ensures TotalConsistent(Built(req))
    ensures Built(req).totalAccountReceivable.value.scale == 3
    ensures Built(req).totalAccountReceivable.value.unscaled == SumUnitsAt(ZeroFilled(req.receivables.Listed()), 3)
  {
    var filled := ZeroFilledQuarters(req.receivables).Listed();
    assert ZeroFilled(filled) == ZeroFilled(req.receivables.Listed());
    assert ScalesAtMost(filled, 3);
    TotalAccountExact(filled);
  }

  /** The id a save writes under: a fresh one for a request without an id. */
  function CustomerId(req: CustomerRequest, freshId: int): int {
    if req.id.None? then freshId else req.id.value
  }

  /** `saveOrUpdate(entity)` after the stamps: a request without an id
      inserts with the creation stamps; one with an id stamps the update and
      either overwrites every column of the stored row, whose creation
      stamps and delete flag stay, or inserts under that id when no row has
      it. */
  function Saved(t: map<int, Customer>, req: CustomerRequest, id: int, userId: int, now: int): Customer {
    var e := Built(req);
    if req.id.None? then e.(audit := CreatedBy(userId, now))
    else if id in t then e.(audit := UpdatedBy(t[id].audit, userId, now), deleteFlag := t[id].deleteFlag)
    else e.(audit := Audit(None, None, Some(userId), Some(now)))
  }

  /** Whatever the save met, the row written has a total consistent with
      its quarters, and keeps every stored creation stamp. */
  lemma SavedIsConsistent(t: map<int, Customer>, req: CustomerRequest, id: int, userId: int, now: int)
    ensures TotalConsistent(Saved(t, req, id, userId, now))
    ensures req.id.Some? && id in t ==>
      Saved(t, req, id, userId, now).audit.createTime == t[id].audit.createTime &&
      Saved(t, req, id, userId, now).audit.createBy == t[id].audit.createBy
    ensures req.id.None? ==> Saved(t, req, id, userId, now).audit == CreatedBy(userId, now)
  {
  }

  /** The answer of `addOrUpdateCustomer` for a save that reported `ok`. */
  function SaveResponse(lang: Lang, isAdd: bool, ok: bool): (r: Response<string>)
    ensures !ok ==> r == Fail()
    ensures ok && isAdd ==> r == ResponseMsg(Localized(lang, CodeEnum("ADD_CUSTOMER_SUCCESS"), CodeEnum("ADD_CUSTOMER_SUCCESS_EN")))
    ensures ok && !isAdd ==> r == ResponseMsg(Localized(lang, CodeEnum("UPDATE_CUSTOMER_SUCCESS"), CodeEnum("UPDATE_CUSTOMER_SUCCESS_EN")))
  {
    if ok && isAdd then ResponseMsg(Localized(lang, CodeEnum("ADD_CUSTOMER_SUCCESS"), CodeEnum("ADD_CUSTOMER_SUCCESS_EN")))
    else if ok then ResponseMsg(Localized(lang, CodeEnum("UPDATE_CUSTOMER_SUCCESS"), CodeEnum("UPDATE_CUSTOMER_SUCCESS_EN")))
    else Fail()
  }

  // ---------------------------------------------------------------------
  // Batch import
  // ---------------------------------------------------------------------

  /** `customerName + "|" + contact`, a null rendered as `null`. */
  function CustomerKey(c: Customer): string {
    StringValueOf(c.customerName) + "|" + StringValueOf(c.contact)
  }

  /** The stored customers `eq(customerName, n).eq(contact, c)` selects; a
      null value matches no row. */
  function Matching(t: map<int, Customer>, c: Customer): (r: set<int>)
    ensures forall k :: k in r <==> (k in t && c.customerName.Some? && c.contact.Some? &&
      t[k].customerName == c.customerName && t[k].contact == c.contact)
  {
    set k | k in t && c.customerName.Some? && c.contact.Some? &&
      t[k].customerName == c.customerName && t[k].contact == c.contact
  }

  function ImportKeys(rs: seq<Customer>): (r: seq<string>)
    ensures |r| == |rs| && forall j :: 0 <= j < |rs| ==> r[j] == CustomerKey(rs[j])
  {
    seq(|rs|, j requires 0 <= j < |rs| => CustomerKey(rs[j]))
  }

  function ImportLookups(t: map<int, Customer>, rs: seq<Customer>): (r: seq<Result<bool>>)
    ensures |r| == |rs| && forall j :: 0 <= j < |rs| ==> r[j] == SelectOne(|Matching(t, rs[j])|)
  {
    seq(|rs|, j requires 0 <= j < |rs| => SelectOne(|Matching(t, rs[j])|))
  }

  /** The entity an imported row becomes: every column copied, the total
      computed through `List.of`, the creation stamped; a null quarter
      throws. */
  function Imported(c: Customer, userId: int, now: int): (r: Result<Customer>)
    ensures r.Ok? <==> AllGiven(c.receivables)
    ensures r.Ok? ==> TotalConsistent(r.value) && r.value.customerName == c.customerName && r.value.contact == c.contact
    ensures r.Ok? ==> r.value.receivables == c.receivables && r.value.audit.createBy == Some(userId) && r.value.audit.createTime == Some(now)
  {
    match TotalOfListOf(c.receivables)
    case Throws => Throws
    case Ok(total) => Ok(c.(totalAccountReceivable := Some(total), audit := c.audit.(createBy := Some(userId), createTime := Some(now))))
  }

  /** The entities of the picked rows, in order; the first with a null
      quarter throws. */
  function Imports(rs: seq<Customer>, picked: seq<nat>, userId: int, now: int): (r: Result<seq<Customer>>)
    requires forall j :: 0 <= j < |picked| ==> picked[j] < |rs|
    ensures r.Ok? <==> forall j :: 0 <= j < |picked| ==> AllGiven(rs[picked[j]].receivables)
    ensures r.Ok? ==> |r.value| == |picked| && forall j :: 0 <= j < |picked| ==> Ok(r.value[j]) == Imported(rs[picked[j]], userId, now)
  {
    var built := seq(|picked|, j requires 0 <= j < |picked| => Imported(rs[picked[j]], userId, now));
    assert forall j :: 0 <= j < |picked| ==> (built[j].Ok? <==> AllGiven(rs[picked[j]].receivables));
    AllBuilt(built)
  }

  /** What a successful import saves: no two rows with the same key, none
      with a stored namesake, every total consistent. */
  lemma ImportedRowsAreNew(t: map<int, Customer>, rs: seq<Customer>, userId: int, now: int)
    requires Kept(ImportKeys(rs), ImportLookups(t, rs)).Ok?
    requires Imports(rs, Kept(ImportKeys(rs), ImportLookups(t, rs)).value, userId, now).Ok?
    ensures var saved := Imports(rs, Kept(ImportKeys(rs), ImportLookups(t, rs)).value, userId, now).value;
      (forall i, j :: 0 <= i < j < |saved| ==> CustomerKey(saved[i]) != CustomerKey(saved[j])) &&
      (forall j :: 0 <= j < |saved| ==> Matching(t, saved[j]) == {} && TotalConsistent(saved[j]))
  {
    var keys := ImportKeys(rs);
    var lookups := ImportLookups(t, rs);
    KeptShape(keys, lookups);
    var ks := Kept(keys, lookups).value;
    var saved := Imports(rs, ks, userId, now).value;
    forall j | 0 <= j < |saved|
      ensures Matching(t, saved[j]) == {} && CustomerKey(saved[j]) == keys[ks[j]]
    {
      assert lookups[ks[j]] == Ok(false);
      assert Matching(t, saved[j]) == Matching(t, rs[ks[j]]);
    }
  }

  /** A single new row with a null quarter fails the whole import: a row
      whose key no earlier row has and which has no stored namesake is
      picked, and building its entity throws. */
  lemma NullQuarterFailsImport(t: map<int, Customer>, rs: seq<Customer>, i: nat, userId: int, now: int)
    requires Kept(ImportKeys(rs), ImportLookups(t, rs)).Ok?
    requires i < |rs| && !AllGiven(rs[i].receivables) && Matching(t, rs[i]) == {}
    requires forall j :: 0 <= j < i ==> CustomerKey(rs[j]) != CustomerKey(rs[i])
    ensures Imports(rs, Kept(ImportKeys(rs), ImportLookups(t, rs)).value, userId, now).Throws?
  {
    var keys := ImportKeys(rs);
    var lookups := ImportLookups(t, rs);
    KeptShape(keys, lookups);
    FirstOccurrenceKept(keys, lookups, i);
    var ks := Kept(keys, lookups).value;
    var j :| 0 <= j < |ks| && ks[j] == i;
    assert !AllGiven(rs[ks[j]].receivables);
  }

  class CustomerService {
    var customers: map<int, Customer>

    constructor(customers: map<int, Customer>)
      ensures this.customers == customers
    {
      this.customers := customers;
    }

    /** `saveOrUpdate`, which reports the row written. */
    method SaveOrUpdate(id: int, c: Customer) returns (ok: bool)
      modifies this
      ensures customers == old(customers)[id := c] && ok
    {
      customers := customers[id := c];
      ok := true;
    }

    /** `addOrUpdateCustomer`: the request's customer, defaults filled in
        and total computed, saved under a fresh id (a create) or its own (an
        update); the answer names which. */
    method AddOrUpdateCustomer(req: CustomerRequest, freshId: int, userId: int, now: int, lang: Lang) returns (r: Response<string>)
      requires freshId !in customers
      modifies this
      ensures var id := CustomerId(req, freshId);
        customers == old(customers)[id := Saved(old(customers), req, id, userId, now)]
      ensures TotalConsistent(customers[CustomerId(req, freshId)])
      ensures r == SaveResponse(lang, req.id.None?, true)
    {
      var isAdd := req.id.None?;
      var id := CustomerId(req, freshId);
      SavedIsConsistent(customers, req, id, userId, now);
      var saveResult := SaveOrUpdate(id, Saved(customers, req, id, userId, now));
      r := SaveResponse(lang, isAdd, saveResult);
    }

    /** `deleteCustomer`: a null or empty list is refused; otherwise the
        listed customers are removed, and removing none is an error. */
    method DeleteCustomer(ids: Option<seq<int>>, lang: Lang) returns (r: Response<string>)
      modifies this
      ensures ids.None? || |ids.value| == 0 ==> r == ResponseMsg(PARAMETER_NULL) && customers == old(customers)
      ensures ids.Some? && |ids.value| > 0 ==>
        customers == old(customers) - IdSet(ids.value) &&
        r == ResponseMsg(CustomerEnum(lang, "DELETE_CUSTOMER", AnyKeyIn(old(customers), IdSet(ids.value))))
    {
      if ids.None? || |ids.value| == 0 {
        return ResponseMsg(PARAMETER_NULL);
      }
      var idSet := IdSet(ids.value);
      var removed := AnyKeyIn(customers, idSet);
      customers := customers - idSet;
      r := ResponseMsg(CustomerEnum(lang, "DELETE_CUSTOMER", removed));
    }

    /** `updateCustomerStatus`: a null or empty list or a null status is
        refused; otherwise the listed customers take the status, and
        matching none is an error. */
    method UpdateCustomerStatus(ids: Option<seq<int>>, status: Option<int>, lang: Lang) returns (r: Response<string>)
      modifies this
      ensures ids.None? || |ids.value| == 0 || status.None? ==>
        r == ResponseMsg(PARAMETER_NULL) && customers == old(customers)
      ensures ids.Some? && |ids.value| > 0 && status.Some? ==>
        customers == (map k | k in old(customers) ::
          if k in IdSet(ids.value) then old(customers)[k].(status := status) else old(customers)[k]) &&
        r == ResponseMsg(CustomerEnum(lang, "UPDATE_CUSTOMER_STATUS", AnyKeyIn(old(customers), IdSet(ids.value))))
    {
      if ids.None? || |ids.value| == 0 || status.None? {
        return ResponseMsg(PARAMETER_NULL);
      }
      var idSet := IdSet(ids.value);
      var matched := AnyKeyIn(customers, idSet);
      customers := map k | k in customers :: if k in idSet then customers[k].(status := status) else customers[k];
      r := ResponseMsg(CustomerEnum(lang, "UPDATE_CUSTOMER_STATUS", matched));
    }

    /** `batchAddCustomer`: the rows are deduplicated on their key against
        each other and the store, and the survivors saved under fresh ids;
        saving an empty batch reports false. A throwing lookup, or a kept
        row with a null quarter, rolls everything back. */
    method BatchAddCustomer(rows: Option<seq<Customer>>, freshIds: seq<int>, userId: int, now: int) returns (r: Result<bool>)
      requires |freshIds| >= |rows.GetOr([])| && Distinct(freshIds)
      requires forall j :: 0 <= j < |freshIds| ==> freshIds[j] !in customers
      modifies this
      ensures var rs := rows.GetOr([]);
        var kept := Kept(ImportKeys(rs), ImportLookups(old(customers), rs));
        (kept.Throws? ==> r.Throws? && customers == old(customers)) &&
        (kept.Ok? && Imports(rs, kept.value, userId, now).Throws? ==> r.Throws? && customers == old(customers)) &&
        (kept.Ok? && Imports(rs, kept.value, userId, now).Ok? ==> (r == Ok(|kept.value| > 0) &&
          customers == BatchInserted(old(customers), freshIds[..|kept.value|], Imports(rs, kept.value, userId, now).value)))
    {
      var rs := rows.GetOr([]);
      var kept := SelectKept(ImportKeys(rs), ImportLookups(customers, rs));
      if kept.Throws? {
        return Throws;
      }
      var entities := Imports(rs, kept.value, userId, now);
      if entities.Throws? {
        return Throws;
      }
      if |kept.value| == 0 {
        return Ok(false);
      }
      customers := BatchInserted(customers, freshIds[..|kept.value|], entities.value);
      r := Ok(true);
    }
  }
}
