/** `MemberServiceImpl`: members and their advance-payment balance, saved
    from a request, deleted, enabled or disabled, imported in batches,
    looked up by id and topped up by the advance-charge receipts. */
module Members {
  import opened Wrappers
  import opened Responses
  import opened Tables
  import opened Decimals
  import opened BatchImports
  import opened Text

  /** A stored member. */
  datatype Member = Member(
    memberNumber: Option<string>, memberName: Option<string>, phoneNumber: Option<string>, email: Option<string>,
    remark: Option<string>, advancePayment: Option<Decimal>, status: Option<int>, sort: Option<int>,
    audit: Audit, deleteFlag: int)

  /** `AddOrUpdateMemberDTO`. */
  datatype MemberRequest = MemberRequest(
    id: Option<int>, memberNumber: Option<string>, memberName: Option<string>, phoneNumber: Option<string>,
    email: Option<string>, advancePayment: Option<Decimal>, status: Option<int>, remark: Option<string>,
    sort: Option<int>)

  function MemberEnum(lang: Lang, stem: string, ok: bool): CodeEnum {
    var name := stem + (if ok then "_SUCCESS" else "_ERROR");
    Localized(lang, CodeEnum(name), CodeEnum(name + "_EN"))
  }

  /** The entity `addOrUpdateMember` fills from a request: number, name and
      status as given (null included), null texts `""`, a null balance zero
      and a null sort `0`. The delete flag is the column's default `0`. */
  function Built(req: MemberRequest): Member {
    Member(req.memberNumber, req.memberName, Some(req.phoneNumber.GetOr("")), Some(req.email.GetOr("")),
      Some(req.remark.GetOr("")), Some(req.advancePayment.GetOr(ZERO)), req.status, Some(req.sort.GetOr(0)),
      Audit(None, None, None, None), NOT_DELETED)
  }

  /** `saveOrUpdate(entity)` after the stamps: a request without an id
      inserts under a generated id with the creation stamps; one with an id
      stamps the update and either writes the entity's non-null columns
      over the stored row or, when no row has that id, inserts under it. */
  function Saved(t: map<int, Member>, req: MemberRequest, id: int, userId: int, now: int): Member {
    var e := Built(req);
    if req.id.None? then e.(audit := CreatedBy(userId, now))
    else if id in t then
      var s := t[id];
      e.(memberNumber := if e.memberNumber.Some? then e.memberNumber else s.memberNumber,
         memberName := if e.memberName.Some? then e.memberName else s.memberName,
         status := if e.status.Some? then e.status else s.status,
         audit := UpdatedBy(s.audit, userId, now), deleteFlag := s.deleteFlag)
    else e.(audit := Audit(None, None, Some(userId), Some(now)))
  }

  function MemberId(req: MemberRequest, freshId: int): int {
    if req.id.None? then freshId else req.id.value
  }

  /** What a save writes: the defaults for the texts, balance and sort;
      the stored number, name and status where the request has none. */
  lemma SavedDefaults(t: map<int, Member>, req: MemberRequest, id: int, userId: int, now: int)
    ensures var m := Saved(t, req, id, userId, now);
      (req.phoneNumber.None? ==> m.phoneNumber == Some("")) &&
      (req.email.None? ==> m.email == Some("")) &&
      (req.remark.None? ==> m.remark == Some("")) &&
      (req.sort.None? ==> m.sort == Some(0)) &&
      (req.memberName.Some? ==> m.memberName == req.memberName) &&
      (req.id.Some? && id in t && req.memberName.None? ==> m.memberName == t[id].memberName) &&
      (req.id.Some? && id in t && req.status.None? ==> m.status == t[id].status) &&
      (req.id.None? ==> m.status == req.status && m.audit == CreatedBy(userId, now))
  {
  }

  /** An update that does not restate the balance sets it to zero: the
      request's null balance becomes `BigDecimal.ZERO`, a non-null column
      that `updateById` writes. */
  lemma UpdateWithoutBalanceClearsIt(t: map<int, Member>, req: MemberRequest, userId: int, now: int)
    requires req.id.Some? && req.id.value in t && req.advancePayment.None?
    ensures Saved(t, req, req.id.value, userId, now).advancePayment == Some(ZERO)
  {
  }

  /** The answer of `addOrUpdateMember` for a save that reported `ok`. */
  function SaveResponse(lang: Lang, isAdd: bool, ok: bool): (r: Response<string>)
    ensures !ok ==> r == Fail()
    ensures ok && isAdd ==> r == ResponseMsg(Localized(lang, CodeEnum("ADD_MEMBER_SUCCESS"), CodeEnum("ADD_MEMBER_SUCCESS_EN")))
    ensures ok && !isAdd ==> r == ResponseMsg(Localized(lang, CodeEnum("UPDATE_MEMBER_INFO_SUCCESS"), CodeEnum("UPDATE_MEMBER_INFO_SUCCESS_EN")))
  {
    if ok && isAdd then ResponseMsg(Localized(lang, CodeEnum("ADD_MEMBER_SUCCESS"), CodeEnum("ADD_MEMBER_SUCCESS_EN")))
    else if ok then ResponseMsg(Localized(lang, CodeEnum("UPDATE_MEMBER_INFO_SUCCESS"), CodeEnum("UPDATE_MEMBER_INFO_SUCCESS_EN")))
    else Fail()
  }

  /** The topped-up balance: the stored one, null read as zero, plus the
      amount, exactly. */
  function ToppedUp(balance: Option<Decimal>, amount: Decimal): (r: Decimal)
    ensures r.scale == Max(balance.GetOr(ZERO).scale, amount.scale)
    ensures forall m :: m >= balance.GetOr(ZERO).scale && m >= amount.scale ==>
      UnitsAt(r, m) == UnitsAt(balance.GetOr(ZERO), m) + UnitsAt(amount, m)
    ensures CompareTo(amount, ZERO) > 0 ==> CompareTo(r, balance.GetOr(ZERO)) > 0
  {
    TopUpValue(balance.GetOr(ZERO), amount);
    Add(balance.GetOr(ZERO), amount)
  }

  lemma TopUpValue(b: Decimal, amount: Decimal)
    ensures forall m :: m >= b.scale && m >= amount.scale ==>
      UnitsAt(Add(b, amount), m) == UnitsAt(b, m) + UnitsAt(amount, m)
    ensures CompareTo(amount, ZERO) > 0 ==> CompareTo(Add(b, amount), b) > 0
  {
    var r := Add(b, amount);
    forall m | m >= b.scale && m >= amount.scale
      ensures UnitsAt(r, m) == UnitsAt(b, m) + UnitsAt(amount, m)
    {
      AddValue(b, amount, m);
    }
    if CompareTo(amount, ZERO) > 0 {
      var k := Max(r.scale, 0);
      SameValueAt(amount, ZERO, k);
      assert UnitsAt(ZERO, k) == 0;
      AddValue(b, amount, k);
      SameValueAt(r, b, k);
    }
  }

  /** The guards of `updateAdvanceChargeAmount`: a member id and a positive
      amount are given, and the member exists. */
  predicate CanTopUp(members: map<int, Member>, memberId: Option<int>, amount: Option<Decimal>) {
    memberId.Some? && amount.Some? && CompareTo(amount.value, ZERO) > 0 && memberId.value in members
  }

  /** The members after `id`'s balance is topped up by `amount`: that
      member's balance grows by exactly the amount, every other column and
      every other member stay. */
  function Credited(members: map<int, Member>, id: int, amount: Decimal): (r: map<int, Member>)
    requires id in members
    ensures r.Keys == members.Keys
    ensures forall k :: k in members && k != id ==> r[k] == members[k]
    ensures r[id] == members[id].(advancePayment := r[id].advancePayment) && r[id].advancePayment.Some?
    ensures r[id].advancePayment.value.scale == Max(members[id].advancePayment.GetOr(ZERO).scale, amount.scale)
    ensures var before := members[id].advancePayment.GetOr(ZERO);
      forall m :: m >= before.scale && m >= amount.scale ==>
        UnitsAt(r[id].advancePayment.value, m) == UnitsAt(before, m) + UnitsAt(amount, m)
  {
    members[id := members[id].(advancePayment := Some(ToppedUp(members[id].advancePayment, amount)))]
  }

  // ---------------------------------------------------------------------
  // Batch import
  // ---------------------------------------------------------------------

  /** `memberNumber + "|" + memberName`, a null rendered as `null`. */
  function MemberKey(m: Member): string {
    StringValueOf(m.memberNumber) + "|" + StringValueOf(m.memberName)
  }

  /** The stored members `eq(memberName, n).eq(memberNumber, k)` selects;
      a null value matches no row. */
  function Matching(t: map<int, Member>, m: Member): (r: set<int>)
    ensures forall k :: k in r <==> (k in t && m.memberName.Some? && m.memberNumber.Some? &&
      t[k].memberName == m.memberName && t[k].memberNumber == m.memberNumber)
  {
    set k | k in t && m.memberName.Some? && m.memberNumber.Some? &&
      t[k].memberName == m.memberName && t[k].memberNumber == m.memberNumber
  }

  function ImportKeys(rs: seq<Member>): (r: seq<string>)
    ensures |r| == |rs| && forall j :: 0 <= j < |rs| ==> r[j] == MemberKey(rs[j])
  {
    seq(|rs|, j requires 0 <= j < |rs| => MemberKey(rs[j]))
  }

  function ImportLookups(t: map<int, Member>, rs: seq<Member>): (r: seq<Result<bool>>)
    ensures |r| == |rs| && forall j :: 0 <= j < |rs| ==> r[j] == SelectOne(|Matching(t, rs[j])|)
  {
    seq(|rs|, j requires 0 <= j < |rs| => SelectOne(|Matching(t, rs[j])|))
  }

  /** The entity an imported row becomes: every column copied, the
      creation stamped. */
  function Imported(m: Member, userId: int, now: int): (r: Member)
    ensures r.memberNumber == m.memberNumber && r.memberName == m.memberName && r.advancePayment == m.advancePayment
    ensures r.audit.createBy == Some(userId) && r.audit.createTime == Some(now)
  {
    m.(audit := m.audit.(createBy := Some(userId), createTime := Some(now)))
  }

  function Imports(rs: seq<Member>, picked: seq<nat>, userId: int, now: int): (r: seq<Member>)
    requires forall j :: 0 <= j < |picked| ==> picked[j] < |rs|
    ensures |r| == |picked| && forall j :: 0 <= j < |picked| ==> r[j] == Imported(rs[picked[j]], userId, now)
  {
    seq(|picked|, j requires 0 <= j < |picked| => Imported(rs[picked[j]], userId, now))
  }

  /** What a successful import saves: no two rows with the same key and
      none with a stored namesake. */
  lemma ImportedRowsAreNew(t: map<int, Member>, rs: seq<Member>, userId: int, now: int)
    requires Kept(ImportKeys(rs), ImportLookups(t, rs)).Ok?
    ensures var saved := Imports(rs, Kept(ImportKeys(rs), ImportLookups(t, rs)).value, userId, now);
      (forall i, j :: 0 <= i < j < |saved| ==> MemberKey(saved[i]) != MemberKey(saved[j])) &&
      (forall j :: 0 <= j < |saved| ==> Matching(t, saved[j]) == {})
  {
    var keys := ImportKeys(rs);
    var lookups := ImportLookups(t, rs);
    KeptShape(keys, lookups);
    var ks := Kept(keys, lookups).value;
    var saved := Imports(rs, ks, userId, now);
    forall j | 0 <= j < |saved|
      ensures Matching(t, saved[j]) == {}
    {
      assert lookups[ks[j]] == Ok(false);
      assert Matching(t, saved[j]) == Matching(t, rs[ks[j]]);
    }
  }

  class MemberService {
    var members: map<int, Member>

    constructor(members: map<int, Member>)
      ensures this.members == members
    {
      this.members := members;
    }

    /** `getMemberById`: null for a null id or an unknown member. */
    function GetMemberById(memberId: Option<int>): (r: Option<Member>)
      reads this
      ensures r.Some? <==> memberId.Some? && memberId.value in members
      ensures r.Some? ==> r.value == members[memberId.value]
    {
      if memberId.None? || memberId.value !in members then None else Some(members[memberId.value])
    }

    /** `updateAdvanceChargeAmount`: a null member or amount, an amount
        that is not positive, or an unknown member changes nothing and
        answers false; otherwise the member's balance grows by the amount
        and nothing else changes. */
    method UpdateAdvanceChargeAmount(memberId: Option<int>, amount: Option<Decimal>) returns (ok: bool)
      modifies this
      ensures ok <==> CanTopUp(old(members), memberId, amount)
      ensures !ok ==> members == old(members)
      ensures ok ==> members == Credited(old(members), memberId.value, amount.value)
    {
      if memberId.None? || amount.None? || CompareTo(amount.value, ZERO) <= 0 {
        return false;
      }
      var member := GetMemberById(memberId);
      if member.None? {
        return false;
      }
      var id := memberId.value;
      members := Credited(members, id, amount.value);
      ok := true;
    }

    /** `saveOrUpdate`, which reports the row written. */
    method SaveOrUpdate(id: int, m: Member) returns (ok: bool)
      modifies this
      ensures members == old(members)[id := m] && ok
    {
      members := members[id := m];
      ok := true;
    }

    /** `addOrUpdateMember`: the request's member, defaults filled in,
        saved under a generated id (a create) or its own (an update); the
        answer names which. */
    method AddOrUpdateMember(req: MemberRequest, freshId: int, userId: int, now: int, lang: Lang) returns (r: Response<string>)
      requires freshId !in members
      modifies this
      ensures var id := MemberId(req, freshId);
        members == old(members)[id := Saved(old(members), req, id, userId, now)]
      ensures r == SaveResponse(lang, req.id.None?, true)
    {
      var isAdd := req.id.None?;
      var id := MemberId(req, freshId);
      var saveResult := SaveOrUpdate(id, Saved(members, req, id, userId, now));
      r := SaveResponse(lang, isAdd, saveResult);
    }

    /** `deleteBatchMember`: a null or empty list is refused; otherwise the
        listed members are removed, and removing none is an error. */
    method DeleteBatchMember(ids: Option<seq<int>>, lang: Lang) returns (r: Response<string>)
      modifies this
      ensures ids.None? || |ids.value| == 0 ==> r == ResponseMsg(PARAMETER_NULL) && members == old(members)
      ensures ids.Some? && |ids.value| > 0 ==>
        members == old(members) - IdSet(ids.value) &&
        r == ResponseMsg(MemberEnum(lang, "DELETE_MEMBER", AnyKeyIn(old(members), IdSet(ids.value))))
    {
      if ids.None? || |ids.value| == 0 {
        return ResponseMsg(PARAMETER_NULL);
      }
      var idSet := IdSet(ids.value);
      var removed := AnyKeyIn(members, idSet);
      members := members - idSet;
      r := ResponseMsg(MemberEnum(lang, "DELETE_MEMBER", removed));
    }

    /** `updateMemberStatus`: a null or empty list is refused; otherwise the
        listed members take the status, a null one included, and matching
        none is an error. */
    method UpdateMemberStatus(ids: Option<seq<int>>, status: Option<int>, lang: Lang) returns (r: Response<string>)
      modifies this
      ensures ids.None? || |ids.value| == 0 ==> r == ResponseMsg(PARAMETER_NULL) && members == old(members)
      ensures ids.Some? && |ids.value| > 0 ==>
        members == (map k | k in old(members) ::
          if k in IdSet(ids.value) then old(members)[k].(status := status) else old(members)[k]) &&
        r == ResponseMsg(MemberEnum(lang, "UPDATE_MEMBER_STATUS", AnyKeyIn(old(members), IdSet(ids.value))))
    {
      if ids.None? || |ids.value| == 0 {
        return ResponseMsg(PARAMETER_NULL);
      }
      var idSet := IdSet(ids.value);
      var matched := AnyKeyIn(members, idSet);
      members := map k | k in members :: if k in idSet then members[k].(status := status) else members[k];
      r := ResponseMsg(MemberEnum(lang, "UPDATE_MEMBER_STATUS", matched));
    }

    /** `batchAddMember`: the rows are deduplicated on their key against
        each other and the store, and the survivors saved under fresh ids;
        saving an empty batch reports false, and a throwing lookup rolls
        everything back. */
    method BatchAddMember(rows: Option<seq<Member>>, freshIds: seq<int>, userId: int, now: int) returns (r: Result<bool>)
      requires |freshIds| >= |rows.GetOr([])| && Distinct(freshIds)
      requires forall j :: 0 <= j < |freshIds| ==> freshIds[j] !in members
      modifies this
      ensures var rs := rows.GetOr([]);
        var kept := Kept(ImportKeys(rs), ImportLookups(old(members), rs));
        (kept.Throws? ==> r.Throws? && members == old(members)) &&
        (kept.Ok? ==> (r == Ok(|kept.value| > 0) &&
          members == BatchInserted(old(members), freshIds[..|kept.value|], Imports(rs, kept.value, userId, now))))
    {
      var rs := rows.GetOr([]);
      var kept := SelectKept(ImportKeys(rs), ImportLookups(members, rs));
      if kept.Throws? {
        return Throws;
      }
      if |kept.value| == 0 {
        return Ok(false);
      }
      members := BatchInserted(members, freshIds[..|kept.value|], Imports(rs, kept.value, userId, now));
      r := Ok(true);
    }
  }
}
