/** `AdvanceChargeServiceImpl`: the advance-charge receipts ("收预付款")
    with which a member pays money in ahead. A receipt is a financial main
    row and one sub row per account line; saving one credits the member's
    advance-payment balance through the member service. */
module AdvanceCharges {
  import opened Wrappers
  import opened Responses
  import opened Tables
  import opened Decimals
  import opened ReceiptCommon
  import opened Members
  import opened Text

  /** The `type` of every advance-charge receipt. */
  const ADVANCE_CHARGE_TYPE: string := "收预付款"

  /** `CommonConstants.UNAUDITED`, the status of a receipt not yet
      reviewed. The constants class is not part of this model; the value
      `0` is assumed. */
  const UNAUDITED: int := 0

  /** The columns of `FinancialMain` an advance charge reads or writes.
      `kind` is the `type` column; the receipt date is kept as the text
      it was parsed from. */
  datatype FinancialMain = FinancialMain(
    relatedPersonId: Option<int>, operatorId: Option<int>, kind: Option<string>,
    changeAmount: Option<Decimal>, totalAmount: Option<Decimal>, receiptNumber: Option<string>,
    receiptSource: Option<int>, receiptDate: Option<string>, fileId: Option<string>, status: Option<int>,
    remark: Option<string>, audit: Audit, deleteFlag: int)

  /** The columns of `FinancialSub`: one account line of a receipt. */
  datatype FinancialSub = FinancialSub(
    mainId: int, accountId: Option<int>, singleAmount: Option<Decimal>, remark: Option<string>, deleteFlag: int)

  /** `AdvanceChargeDataBO`: a line of the request's table. */
  datatype ChargeLine = ChargeLine(accountId: Option<int>, amount: Option<Decimal>, remark: Option<string>)

  /** `AddOrUpdateAdvanceChargeDTO`; the uploaded files are given by name. */
  datatype ChargeRequest = ChargeRequest(
    id: Option<int>, memberId: Option<int>, receiptDate: Option<string>, receiptNumber: Option<string>,
    financialPersonnelId: Option<int>, tableData: Option<seq<ChargeLine>>, totalAmount: Option<Decimal>,
    remark: Option<string>, files: Option<seq<string>>, review: Option<int>)

  /** `QueryAdvanceChargeDTO`: `financialPersonnelId` filters the operator
      column, `operatorId` the creator. */
  datatype ChargeQuery = ChargeQuery(
    financialPersonnelId: Option<int>, receiptNumber: Option<string>, status: Option<int>,
    operatorId: Option<int>, remark: Option<string>, startDate: Option<int>, endDate: Option<int>,
    page: Option<int>, pageSize: Option<int>)

  /** `AdvanceChargeVO`. */
  datatype ChargeView = ChargeView(
    id: int, receiptNumber: Option<string>, receiptDate: Option<string>, operator: Option<string>,
    financialPersonnel: Option<string>, memberName: Option<string>, totalAmount: Option<Decimal>,
    collectedAmount: Decimal, status: Option<int>, remark: Option<string>)

  function ChargeEnum(lang: Lang, stem: string, ok: bool): CodeEnum {
    var name := stem + (if ok then "_SUCCESS" else "_ERROR");
    Localized(lang, CodeEnum(name), CodeEnum(name + "_EN"))
  }

  // ---------------------------------------------------------------------
  // Saving a receipt
  // ---------------------------------------------------------------------

  /** The request guard: a member and a non-empty receipt date. */
  predicate Admissible(req: ChargeRequest) {
    req.memberId.Some? && req.receiptDate.Some? && req.receiptDate.value != ""
  }

  /** Whether the request has account lines to save. */
  predicate HasLines(req: ChargeRequest) {
    req.tableData.Some? && |req.tableData.value| > 0
  }

  /** The ids of the attachments the receipt names after the save: the
      fresh ids of the uploaded files, and only for an update that sends
      files; a creation never keeps its files. */
  function FileIdList(req: ChargeRequest, freshFileIds: seq<int>): (r: seq<int>)
    requires req.files.Some? ==> |freshFileIds| >= |req.files.value|
    ensures req.id.None? || req.files.None? ==> r == []
    ensures req.id.Some? && req.files.Some? ==> r == freshFileIds[..|req.files.value|]
  {
    if req.id.Some? && req.files.Some? then freshFileIds[..|req.files.value|] else []
  }

  /** Reading the stored attachment ids of the receipt being updated, which
      the update does with `Long.valueOf` over the comma-separated text
      before it deletes those files; a malformed text throws. Only an
      update that sends files, of a receipt that exists, reads them. */
  function OldFileIds(mains: map<int, FinancialMain>, req: ChargeRequest): (r: Result<seq<int>>)
    ensures !(req.id.Some? && req.files.Some? && req.id.value in mains) ==> r == Ok([])
  {
    if req.id.Some? && req.files.Some? && req.id.value in mains then ParseStringToIds(mains[req.id.value].fileId)
    else Ok([])
  }

  /** The main row the builder assembles: the member as related person,
      the financial personnel as operator, the request total as both the
      change and the total amount, `receiptSource` 0, the attachment ids
      joined with `,`, the review status or `UNAUDITED`, the current user
      as creator, and the creation or update stamps. */
  function Assembled(req: ChargeRequest, fileIds: seq<int>, userId: int, now: int): (m: FinancialMain)
    ensures m.kind == Some(ADVANCE_CHARGE_TYPE) && m.relatedPersonId == req.memberId
    ensures m.changeAmount == req.totalAmount && m.totalAmount == req.totalAmount
    ensures m.status == Some(req.review.GetOr(UNAUDITED))
    ensures m.audit.createBy == Some(userId)
    ensures m.fileId == Some(ParseIdsToString(Some(fileIds)))
  {
    FinancialMain(req.memberId, req.financialPersonnelId, Some(ADVANCE_CHARGE_TYPE), req.totalAmount, req.totalAmount,
      req.receiptNumber, Some(0), req.receiptDate, Some(ParseIdsToString(Some(fileIds))),
      Some(req.review.GetOr(UNAUDITED)), req.remark,
      if req.id.None? then Audit(Some(userId), Some(now), None, None) else Audit(Some(userId), None, Some(userId), Some(now)),
      NOT_DELETED)
  }

  /** `saveOrUpdate(main)`: a new id inserts the row; an existing one takes
      its non-null columns, and keeps its creation time and delete flag. */
  function SavedMain(mains: map<int, FinancialMain>, id: int, m: FinancialMain): FinancialMain {
    if id !in mains then m
    else
      var s := mains[id];
      FinancialMain(
        if m.relatedPersonId.Some? then m.relatedPersonId else s.relatedPersonId,
        if m.operatorId.Some? then m.operatorId else s.operatorId,
        m.kind,
        if m.changeAmount.Some? then m.changeAmount else s.changeAmount,
        if m.totalAmount.Some? then m.totalAmount else s.totalAmount,
        if m.receiptNumber.Some? then m.receiptNumber else s.receiptNumber,
        m.receiptSource,
        if m.receiptDate.Some? then m.receiptDate else s.receiptDate,
        m.fileId, m.status,
        if m.remark.Some? then m.remark else s.remark,
        Audit(m.audit.createBy, s.audit.createTime, m.audit.updateBy, m.audit.updateTime),
        s.deleteFlag)
  }

  /** `toFinancialSubList(tableData, mainId)`: one sub row per line, in
      order, each under the main id with the line's account, amount and
      remark. */
  function SubList(lines: seq<ChargeLine>, mainId: int): (r: seq<FinancialSub>)
    ensures |r| == |lines|
    ensures forall i :: 0 <= i < |lines| ==>
      r[i].mainId == mainId && r[i].accountId == lines[i].accountId &&
      r[i].singleAmount == lines[i].amount && r[i].remark == lines[i].remark && r[i].deleteFlag == NOT_DELETED
  {
    seq(|lines|, i requires 0 <= i < |lines| => FinancialSub(mainId, lines[i].accountId, lines[i].amount, lines[i].remark, NOT_DELETED))
  }

  /** The sub rows without those of `mainId` (`removeByIds` of the lines
      of the receipt being updated, whatever their delete flag). */
  function SubsWithout(subs: map<int, FinancialSub>, mainId: int): (r: map<int, FinancialSub>)
    ensures forall k :: k in r <==> k in subs && subs[k].mainId != mainId
    ensures forall k :: k in r ==> r[k] == subs[k]
  {
    map k | k in subs && subs[k].mainId != mainId :: subs[k]
  }

  /** The stored attachment text survives the round trip the update makes
      through it: the ids a save joins are the ids the next update reads. */
  lemma FileIdsRoundTrip(req: ChargeRequest, fileIds: seq<int>, userId: int, now: int, mains: map<int, FinancialMain>, id: int)
    requires forall k :: 0 <= k < |fileIds| ==> IsLong(fileIds[k])
    ensures ParseStringToIds(SavedMain(mains, id, Assembled(req, fileIds, userId, now)).fileId) == Ok(fileIds)
  {
    IdsRoundTrip(fileIds);
  }

  /** An update that sends no files clears the receipt's attachments: the
      empty id list is written as `""`, a non-null column. */
  lemma UpdateWithoutFilesClearsThem(mains: map<int, FinancialMain>, req: ChargeRequest, freshFileIds: seq<int>, userId: int, now: int)
    requires req.id.Some? && req.files.None?
    ensures SavedMain(mains, req.id.value, Assembled(req, FileIdList(req, freshFileIds), userId, now)).fileId == Some("")
  {
  }

  /** An update rewrites the creator: `createBy` is always the current
      user, a non-null column that the update writes over the stored one. */
  lemma UpdateRewritesCreator(mains: map<int, FinancialMain>, req: ChargeRequest, fileIds: seq<int>, userId: int, now: int)
    requires req.id.Some? && req.id.value in mains
    ensures var saved := SavedMain(mains, req.id.value, Assembled(req, fileIds, userId, now));
      saved.audit.createBy == Some(userId) && saved.audit.createTime == mains[req.id.value].audit.createTime &&
      saved.deleteFlag == mains[req.id.value].deleteFlag
  {
  }

  // ---------------------------------------------------------------------
  // Views
  // ---------------------------------------------------------------------

  /** `getById` on another service: nothing for a null id or an unknown
      row, otherwise the row's name (which may itself be null). */
  function NameOf(names: map<int, Option<string>>, id: Option<int>): (r: Option<Option<string>>)
    ensures r.Some? <==> id.Some? && id.value in names
  {
    if id.Some? && id.value in names then Some(names[id.value]) else None
  }

  /** `toAdvanceChargeVO`: a missing operator, financial personnel or
      member shows as `""`, and a null change amount as zero collected. */
  function ToChargeView(id: int, m: FinancialMain, member: Option<Member>, operator: Option<Option<string>>,
                        person: Option<Option<string>>): (v: ChargeView)
    ensures v.id == id && v.receiptNumber == m.receiptNumber && v.totalAmount == m.totalAmount
    ensures member.None? ==> v.memberName == Some("")
    ensures member.Some? ==> v.memberName == member.value.memberName
    ensures operator.None? ==> v.operator == Some("")
    ensures person.None? ==> v.financialPersonnel == Some("")
    ensures v.collectedAmount == m.changeAmount.GetOr(ZERO)
    ensures m.changeAmount.None? ==> v.collectedAmount == ZERO
  {
    ChargeView(id, m.receiptNumber, m.receiptDate, if operator.Some? then operator.value else Some(""),
      if person.Some? then person.value else Some(""),
      if member.Some? then member.value.memberName else Some(""),
      m.totalAmount, m.changeAmount.GetOr(ZERO), m.status, m.remark)
  }

  /** The query's conditions, each added only when given. */
  predicate MatchesQuery(m: FinancialMain, q: Option<ChargeQuery>) {
    q.None? ||
    ((q.value.financialPersonnelId.None? || m.operatorId == q.value.financialPersonnelId) &&
     (q.value.receiptNumber.None? || m.receiptNumber == q.value.receiptNumber) &&
     (q.value.status.None? || m.status == q.value.status) &&
     (q.value.operatorId.None? || m.audit.createBy == q.value.operatorId) &&
     LikeFilter(m.remark, q.value.remark) &&
     WithinDates(m.audit.createTime, q.value.startDate, q.value.endDate))
  }

  /** Whether the page query selects a main row. */
  predicate Listed(m: FinancialMain, q: Option<ChargeQuery>) {
    MatchesQuery(m, q) && m.kind == Some(ADVANCE_CHARGE_TYPE) && m.deleteFlag == NOT_DELETED
  }

  /** The order the page query reads before paging: each selected receipt
      once, newest first. */
  ghost predicate PageOrder(mains: map<int, FinancialMain>, q: Option<ChargeQuery>, order: seq<int>) {
    Distinct(order) &&
    (forall i :: 0 <= i < |order| ==> order[i] in mains) &&
    (forall k :: k in order <==> k in mains && Listed(mains[k], q)) &&
    (forall i, j :: 0 <= i < j < |order| && order[i] in mains && order[j] in mains ==>
      NotOlder(mains[order[i]].audit.createTime, mains[order[j]].audit.createTime))
  }

  function PagingOfQuery(q: Option<ChargeQuery>): Paging {
    PagingOf(if q.Some? then q.value.page else None, if q.Some? then q.value.pageSize else None)
  }

  // ---------------------------------------------------------------------
  // Deleting receipts
  // ---------------------------------------------------------------------

  /** `updateBatchById` of the listed ids with `deleteFlag = DELETED`. */
  function FlagChargesDeleted(mains: map<int, FinancialMain>, ids: set<int>): (r: map<int, FinancialMain>)
    ensures r.Keys == mains.Keys
    ensures forall k :: k in mains ==> r[k] == if k in ids then mains[k].(deleteFlag := DELETED) else mains[k]
  {
    map k | k in mains :: if k in ids then mains[k].(deleteFlag := DELETED) else mains[k]
  }

  /** The sub rows of the listed mains, found by `in(financialMainId, ids)`
      and flagged `DELETED` by id. */
  function FlagLinesDeleted(subs: map<int, FinancialSub>, ids: set<int>): (r: map<int, FinancialSub>)
    ensures r.Keys == subs.Keys
    ensures forall k :: k in subs ==> r[k] == if subs[k].mainId in ids then subs[k].(deleteFlag := DELETED) else subs[k]
  {
    map k | k in subs :: if subs[k].mainId in ids then subs[k].(deleteFlag := DELETED) else subs[k]
  }

  predicate AnyLineOf(subs: map<int, FinancialSub>, ids: set<int>) {
    exists k :: k in subs && subs[k].mainId in ids
  }

  /** The delete is soft and idempotent: no row disappears, and a second
      delete of the same ids changes nothing. */
  lemma SoftDeleteIdempotent(mains: map<int, FinancialMain>, subs: map<int, FinancialSub>, ids: set<int>)
    ensures FlagChargesDeleted(FlagChargesDeleted(mains, ids), ids) == FlagChargesDeleted(mains, ids)
    ensures FlagLinesDeleted(FlagLinesDeleted(subs, ids), ids) == FlagLinesDeleted(subs, ids)
    ensures forall k :: k in subs ==>
      (FlagLinesDeleted(subs, ids)[k].deleteFlag == DELETED <==> subs[k].mainId in ids || subs[k].deleteFlag == DELETED)
  {
    var m1 := FlagChargesDeleted(mains, ids);
    assert FlagChargesDeleted(m1, ids) == m1;
    var s1 := FlagLinesDeleted(subs, ids);
    assert FlagLinesDeleted(s1, ids) == s1;
  }

  class AdvanceChargeService {
    var mains: map<int, FinancialMain>
    var subs: map<int, FinancialSub>
    const memberService: MemberService

    constructor(mains: map<int, FinancialMain>, subs: map<int, FinancialSub>, memberService: MemberService)
      ensures this.mains == mains && this.subs == subs && this.memberService == memberService
    {
      this.mains := mains;
      this.subs := subs;
      this.memberService := memberService;
    }

    /** `addOrUpdateAdvanceCharge`. A request without a member or a
        receipt date is refused. An update first removes the receipt's old
        lines and, when it sends files, reads the old attachment ids (a
        malformed list throws and rolls everything back). Without lines
        the answer is `QUERY_DATA_EMPTY`, the old lines staying removed.
        Otherwise the main row is saved, the lines are saved under fresh
        ids, and the member is credited the request total; the answer is
        `ADD_ADVANCE_SUCCESS` when the credit went through, for an update
        too, and `ADD_ADVANCE_ERROR`, with the rows still saved, when it
        did not. */
    method AddOrUpdateAdvanceCharge(req: ChargeRequest, freshMainId: int, freshSubIds: seq<int>, freshFileIds: seq<int>,
                                    userId: int, now: int, lang: Lang) returns (r: Result<Response<string>>)
      requires freshMainId !in mains
      requires req.tableData.Some? ==> |freshSubIds| >= |req.tableData.value|
      requires Distinct(freshSubIds) && forall j :: 0 <= j < |freshSubIds| ==> freshSubIds[j] !in subs
      requires req.files.Some? ==> |freshFileIds| >= |req.files.value|
      modifies this, memberService
      ensures !Admissible(req) ==>
        r == Ok(ResponseMsg(PARAMETER_NULL)) && mains == old(mains) && subs == old(subs) &&
        memberService.members == old(memberService.members)
      ensures Admissible(req) && OldFileIds(old(mains), req).Throws? ==>
        r.Throws? && mains == old(mains) && subs == old(subs) && memberService.members == old(memberService.members)
      ensures Admissible(req) && OldFileIds(old(mains), req).Ok? ==>
        var cleared := if req.id.Some? then SubsWithout(old(subs), req.id.value) else old(subs);
        (!HasLines(req) ==>
          r == Ok(ResponseMsg(QUERY_DATA_EMPTY)) && mains == old(mains) && subs == cleared &&
          memberService.members == old(memberService.members)) &&
        (HasLines(req) ==>
          var mainId := req.id.GetOr(freshMainId);
          var lines := req.tableData.value;
          var credited := CanTopUp(old(memberService.members), req.memberId, req.totalAmount);
          mains == old(mains)[mainId := SavedMain(old(mains), mainId, Assembled(req, FileIdList(req, freshFileIds), userId, now))] &&
          subs == BatchInserted(cleared, freshSubIds[..|lines|], SubList(lines, mainId)) &&
          (credited ==> memberService.members == Credited(old(memberService.members), req.memberId.value, req.totalAmount.value)) &&
          (!credited ==> memberService.members == old(memberService.members)) &&
          r == Ok(ResponseMsg(ChargeEnum(lang, "ADD_ADVANCE", credited))))
    {
      if !Admissible(req) {
        return Ok(ResponseMsg(PARAMETER_NULL));
      }
      // Under the transaction a throw undoes the removal below; the read
      // that can throw is made first, which leaves the same state.
      var oldFiles := OldFileIds(mains, req);
      if oldFiles.Throws? {
        return Throws;
      }
      if req.id.Some? {
        subs := SubsWithout(subs, req.id.value);
      }
      var fileIdList := FileIdList(req, freshFileIds);
      if !HasLines(req) {
        return Ok(ResponseMsg(QUERY_DATA_EMPTY));
      }
      var mainId := req.id.GetOr(freshMainId);
      mains := mains[mainId := SavedMain(mains, mainId, Assembled(req, fileIdList, userId, now))];
      var lines := req.tableData.value;
      subs := BatchInserted(subs, freshSubIds[..|lines|], SubList(lines, mainId));
      var isMemberUpdated := memberService.UpdateAdvanceChargeAmount(req.memberId, req.totalAmount);
      r := Ok(ResponseMsg(ChargeEnum(lang, "ADD_ADVANCE", isMemberUpdated)));
    }

    /** The views of the page's receipts, in order, each with its member,
        creator and financial personnel looked up. */
    method ViewsOf(page: seq<int>, users: map<int, Option<string>>, operators: map<int, Option<string>>) returns (views: seq<ChargeView>)
      requires forall i :: 0 <= i < |page| ==> page[i] in mains
      ensures |views| == |page|
      ensures forall i :: 0 <= i < |page| ==> views[i] == ToChargeView(page[i], mains[page[i]],
        memberService.GetMemberById(mains[page[i]].relatedPersonId),
        NameOf(users, mains[page[i]].audit.createBy), NameOf(operators, mains[page[i]].operatorId))
    {
      views := [];
      var i := 0;
      while i < |page|
        invariant 0 <= i <= |page|
        invariant |views| == i
        invariant forall j :: 0 <= j < i ==> views[j] == ToChargeView(page[j], mains[page[j]],
          memberService.GetMemberById(mains[page[j]].relatedPersonId),
          NameOf(users, mains[page[j]].audit.createBy), NameOf(operators, mains[page[j]].operatorId))
      {
        var m := mains[page[i]];
        var member := memberService.GetMemberById(m.relatedPersonId);
        views := views + [ToChargeView(page[i], m, member, NameOf(users, m.audit.createBy), NameOf(operators, m.operatorId))];
        i := i + 1;
      }
    }

    /** `getAdvanceChargePageList`: the page of the newest-first live
        advance charges the query matches, `QUERY_DATA_EMPTY` for an empty
        page. */
    method GetAdvanceChargePageList(q: Option<ChargeQuery>, order: seq<int>, users: map<int, Option<string>>,
                                    operators: map<int, Option<string>>) returns (resp: Response<seq<ChargeView>>)
      requires PageOrder(mains, q, order)
      ensures var page := PageSlice(order, PagingOfQuery(q));
        (page == [] ==> resp == ResponseMsg(QUERY_DATA_EMPTY)) &&
        (page != [] ==> (resp.data.Some? && resp == ResponseData(resp.data.value) && |resp.data.value| == |page| &&
          forall i :: 0 <= i < |page| ==> (page[i] in mains && Listed(mains[page[i]], q) &&
            resp.data.value[i] == ToChargeView(page[i], mains[page[i]],
              memberService.GetMemberById(mains[page[i]].relatedPersonId),
              NameOf(users, mains[page[i]].audit.createBy), NameOf(operators, mains[page[i]].operatorId)))))
    {
      var page := PageSlice(order, PagingOfQuery(q));
      if page == [] {
        return ResponseMsg(QUERY_DATA_EMPTY);
      }
      assert forall i :: 0 <= i < |page| ==> page[i] in order;
      var views := ViewsOf(page, users, operators);
      resp := ResponseData(views);
    }

    /** `deleteAdvanceChargeById`: a null or empty list is refused;
        otherwise the listed receipts and all their lines are flagged
        deleted. `updateBatchById` of the mains reports true for any
        non-empty list, so the answer is the success exactly when some
        line belonged to a listed receipt. */
    method DeleteAdvanceChargeById(ids: Option<seq<int>>, lang: Lang) returns (r: Response<string>)
      modifies this
      ensures ids.None? || |ids.value| == 0 ==> r == ResponseMsg(PARAMETER_NULL) && mains == old(mains) && subs == old(subs)
      ensures ids.Some? && |ids.value| > 0 ==>
        mains == FlagChargesDeleted(old(mains), IdSet(ids.value)) &&
        subs == FlagLinesDeleted(old(subs), IdSet(ids.value)) &&
        r == ResponseMsg(ChargeEnum(lang, "DELETE_ADVANCE", AnyLineOf(old(subs), IdSet(ids.value))))
    {
      if ids.None? || |ids.value| == 0 {
        return ResponseMsg(PARAMETER_NULL);
      }
      var idSet := IdSet(ids.value);
      mains := FlagChargesDeleted(mains, idSet);
      var isSubDeleted := AnyLineOf(subs, idSet);
      subs := FlagLinesDeleted(subs, idSet);
      r := ResponseMsg(ChargeEnum(lang, "DELETE_ADVANCE", isSubDeleted));
    }
  }

  /** Saving the same receipt again credits the member again: an update
      tops the balance up by the full request total, not by a difference
      from the total saved before. */
  lemma ResaveCreditsAgain(members: map<int, Member>, req: ChargeRequest)
    requires CanTopUp(members, req.memberId, req.totalAmount)
    ensures var id := req.memberId.value;
      var once := Credited(members, id, req.totalAmount.value);
      CanTopUp(once, req.memberId, req.totalAmount) &&
      CompareTo(Credited(once, id, req.totalAmount.value)[id].advancePayment.value, once[id].advancePayment.GetOr(ZERO)) > 0
  {
    var id := req.memberId.value;
    var once := Credited(members, id, req.totalAmount.value);
    assert ToppedUp(once[id].advancePayment, req.totalAmount.value) == Credited(once, id, req.totalAmount.value)[id].advancePayment.value;
  }
}
