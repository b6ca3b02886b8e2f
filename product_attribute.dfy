/** `ProductAttributeServiceImpl` (Java): product attributes such as
    "colour" with a `|`-separated list of values, whose names are unique
    among the live attributes. */
module ProductAttributes {
  import opened Wrappers
  import opened Responses
  import opened Text
  import opened Tables

  datatype Attribute = Attribute(
    attributeName: Option<string>, attributeValue: Option<string>, remark: Option<string>,
    sort: Option<int>, audit: Audit, deleteFlag: int)

  /** The request; its `sort` is text, so the bean copy, which only copies
      properties of matching types, never carries it into the row. */
  datatype AttributeRequest = AttributeRequest(
    id: Option<int>, attributeName: Option<string>, attributeValue: Option<string>,
    remark: Option<string>, sort: Option<string>)

  /** `ProductAttributeQueryDTO`: a name filter and the page asked for. */
  datatype AttributeQuery = AttributeQuery(attributeName: Option<string>, page: Option<int>, pageSize: Option<int>)

  /** A `ProductAttributeVO` of the page: the row's id and its columns. */
  datatype AttributeView = AttributeView(id: int, attribute: Attribute)

  /** One entry of `getAttributeValuesById`. */
  datatype AttributeNameView = AttributeNameView(name: Option<string>, value: string)

  /** `name = ? and delete_flag = 0 [and id <> ?]` finds a row: a null name
      matches nothing in SQL. */
  predicate NameTaken(attrs: map<int, Attribute>, name: Option<string>, except: Option<int>) {
    name.Some? &&
    exists k :: k in attrs && attrs[k].deleteFlag == NOT_DELETED && attrs[k].attributeName == name &&
      (except.None? || k != except.value)
  }

  /** No two live attributes share a name. */
  ghost predicate UniqueLiveNames(attrs: map<int, Attribute>) {
    forall a, b ::
      (a in attrs && b in attrs && a != b && attrs[a].deleteFlag == NOT_DELETED && attrs[b].deleteFlag == NOT_DELETED &&
       attrs[a].attributeName.Some?) ==>
      attrs[a].attributeName != attrs[b].attributeName
  }

  /** The row an insert writes: the request's columns, no sort, the create
      stamps, and the table's default delete flag. */
  function Inserted(q: AttributeRequest, userId: int, now: int): Attribute {
    Attribute(q.attributeName, q.attributeValue, q.remark, None, CreatedBy(userId, now), NOT_DELETED)
  }

  /** `updateById`: the request's non-null columns and the update stamps
      overwrite the stored row. */
  function Updated(stored: Attribute, q: AttributeRequest, userId: int, now: int): Attribute {
    Attribute(
      if q.attributeName.Some? then q.attributeName else stored.attributeName,
      if q.attributeValue.Some? then q.attributeValue else stored.attributeValue,
      if q.remark.Some? then q.remark else stored.remark,
      stored.sort, UpdatedBy(stored.audit, userId, now), stored.deleteFlag)
  }

  /** The table after a save that passed the name check. */
  function AfterSave(attrs: map<int, Attribute>, q: AttributeRequest, freshId: int, userId: int, now: int): map<int, Attribute> {
    if q.id.None? then attrs[freshId := Inserted(q, userId, now)]
    else if q.id.value in attrs then attrs[q.id.value := Updated(attrs[q.id.value], q, userId, now)]
    else attrs
  }

  /** A save that passed the name check keeps live names unique, whether it
      inserts or updates. */
  lemma SaveKeepsNamesUnique(attrs: map<int, Attribute>, q: AttributeRequest, freshId: int, userId: int, now: int)
    requires UniqueLiveNames(attrs) && freshId !in attrs && !NameTaken(attrs, q.attributeName, q.id)
    ensures UniqueLiveNames(AfterSave(attrs, q, freshId, userId, now))
  {
    var after := AfterSave(attrs, q, freshId, userId, now);
    if (q.id.Some? && q.id.value in attrs) || q.id.None? {
      var id := if q.id.Some? then q.id.value else freshId;
      assert after == attrs[id := after[id]];
      forall a, b | a in after && b in after && a != b && after[a].deleteFlag == NOT_DELETED &&
        after[b].deleteFlag == NOT_DELETED && after[a].attributeName.Some?
        ensures after[a].attributeName != after[b].attributeName
      {
        if a == id {
          assert b in attrs;
          if q.attributeName.None? {
            assert after[a].attributeName == attrs[a].attributeName;
            assert attrs[a].deleteFlag == after[a].deleteFlag;
          }
        } else if b == id {
          assert a in attrs;
          if q.attributeName.None? && q.id.Some? {
            assert after[b].attributeName == attrs[b].attributeName;
            assert attrs[b].deleteFlag == after[b].deleteFlag;
          }
        }
      }
    }
  }

  /** Saving an attribute again under its own name is no conflict. */
  lemma ResaveIsNoConflict(attrs: map<int, Attribute>, q: AttributeRequest, id: int)
    requires UniqueLiveNames(attrs) && q.id == Some(id) && id in attrs
    requires attrs[id].deleteFlag == NOT_DELETED && attrs[id].attributeName == q.attributeName
    ensures !NameTaken(attrs, q.attributeName, q.id)
  {
  }

  /** A name used by a live attribute blocks every other row from
      taking it, on insert and on update alike. */
  lemma TakenNameBlocks(attrs: map<int, Attribute>, k: int, q: AttributeRequest)
    requires k in attrs && attrs[k].deleteFlag == NOT_DELETED && attrs[k].attributeName.Some?
    requires q.attributeName == attrs[k].attributeName && q.id != Some(k)
    ensures NameTaken(attrs, q.attributeName, q.id)
  {
  }

  /** The success and error constants of a save. */
  function SaveEnum(lang: Lang, isAdd: bool, ok: bool): CodeEnum {
    var name := (if isAdd then "ADD" else "UPDATE") + "_PRODUCT_ATTRIBUTE" + (if ok then "_SUCCESS" else "_ERROR");
    Localized(lang, CodeEnum(name), CodeEnum(name + "_EN"))
  }

  function NameExist(lang: Lang): CodeEnum {
    Localized(lang, CodeEnum("PRODUCT_ATTRIBUTE_NAME_EXIST"), CodeEnum("PRODUCT_ATTRIBUTE_NAME_EXIST_EN"))
  }

  function DeleteEnum(lang: Lang, ok: bool): CodeEnum {
    var name := "DELETE_PRODUCT_ATTRIBUTE" + (if ok then "_SUCCESS" else "_ERROR");
    Localized(lang, CodeEnum(name), CodeEnum(name + "_EN"))
  }

  /** The live attributes a name filter selects (all live ones without a
      filter); a null name never matches a `LIKE`. */
  function Matching(attrs: map<int, Attribute>, filter: Option<string>): (r: set<int>)
    ensures forall k :: k in r <==> (k in attrs && attrs[k].deleteFlag == NOT_DELETED &&
      (filter.Some? ==> attrs[k].attributeName.Some? && Contains(attrs[k].attributeName.value, filter.value)))
  {
    set k | k in attrs && attrs[k].deleteFlag == NOT_DELETED &&
      (filter.Some? ==> attrs[k].attributeName.Some? && Contains(attrs[k].attributeName.value, filter.value))
  }

  /** The name filter of a query; a null query filters nothing. */
  function FilterOf(query: Option<AttributeQuery>): Option<string> {
    if query.None? then None else query.value.attributeName
  }

  /** The page of a query: page 1 of 10 rows unless it says otherwise. */
  function PagingOfQuery(query: Option<AttributeQuery>): Paging {
    PagingOf(if query.Some? then query.value.page else None, if query.Some? then query.value.pageSize else None)
  }

  /** The order `selectPage` reads before paging: each attribute `Matching`
      selects once, newest first (`orderByDesc(createTime)`). */
  ghost predicate ListOrder(attrs: map<int, Attribute>, filter: Option<string>, order: seq<int>) {
    Distinct(order) &&
    (forall i :: 0 <= i < |order| ==> order[i] in attrs) &&
    (forall k :: k in order <==> k in Matching(attrs, filter)) &&
    (forall i, j :: 0 <= i < j < |order| && order[i] in attrs && order[j] in attrs ==>
      NotOlder(attrs[order[i]].audit.createTime, attrs[order[j]].audit.createTime))
  }

  /** The views of the rows under `ids`, in that order. */
  function ViewsOf(attrs: map<int, Attribute>, ids: seq<int>): (r: seq<AttributeView>)
    requires forall i :: 0 <= i < |ids| ==> ids[i] in attrs
    ensures |r| == |ids| && forall i :: 0 <= i < |ids| ==> r[i] == AttributeView(ids[i], attrs[ids[i]])
  {
    seq(|ids|, i requires 0 <= i < |ids| => AttributeView(ids[i], attrs[ids[i]]))
  }

  /** A page of such an order holds attributes the filter selects, each
      once, newest first. */
  lemma PageOfListOrder(attrs: map<int, Attribute>, filter: Option<string>, order: seq<int>, p: Paging)
    requires ListOrder(attrs, filter, order)
    ensures var page := PageSlice(order, p);
      (forall i :: 0 <= i < |page| ==> page[i] in attrs && page[i] in Matching(attrs, filter)) &&
      forall i, j :: 0 <= i < j < |page| ==>
        page[i] != page[j] && NotOlder(attrs[page[i]].audit.createTime, attrs[page[j]].audit.createTime)
  {
    var page := PageSlice(order, p);
    assert forall i :: 0 <= i < |page| ==> page[i] in order;
    if p.size >= 0 {
      var off := PageOffset(p);
      forall i, j | 0 <= i < j < |page|
        ensures page[i] != page[j] && NotOlder(attrs[page[i]].audit.createTime, attrs[page[j]].audit.createTime)
      {
        assert page[i] == order[off + i] && page[j] == order[off + j];
      }
    }
  }

  /** The page `productAttributeList` answers for `order`: its window of
      live attributes the filter selects, newest first, each as its row. */
  function AttributePage(attrs: map<int, Attribute>, query: Option<AttributeQuery>, order: seq<int>): (r: seq<AttributeView>)
    requires ListOrder(attrs, FilterOf(query), order)
    ensures var page := PageSlice(order, PagingOfQuery(query));
      |r| == |page| && forall i :: 0 <= i < |page| ==> r[i] == AttributeView(page[i], attrs[page[i]])
    ensures forall i :: 0 <= i < |r| ==> r[i].id in Matching(attrs, FilterOf(query)) && r[i].attribute == attrs[r[i].id]
    ensures forall i, j :: 0 <= i < j < |r| ==> r[i].id != r[j].id && NotOlder(r[i].attribute.audit.createTime, r[j].attribute.audit.createTime)
  {
    PageOfListOrder(attrs, FilterOf(query), order, PagingOfQuery(query));
    ViewsOf(attrs, PageSlice(order, PagingOfQuery(query)))
  }

  /** One entry per value, each named with the attribute's name. */
  function Named(name: Option<string>, values: seq<string>): (r: seq<AttributeNameView>)
    ensures |r| == |values|
    ensures forall i :: 0 <= i < |r| ==> r[i] == AttributeNameView(name, values[i])
  {
    seq(|values|, i requires 0 <= i < |values| => AttributeNameView(name, values[i]))
  }

  /** The values the entries carry, in order. */
  function ValuesOf(vs: seq<AttributeNameView>): (r: seq<string>)
    ensures |r| == |vs|
    ensures forall i :: 0 <= i < |r| ==> r[i] == vs[i].value
  {
    seq(|vs|, i requires 0 <= i < |vs| => vs[i].value)
  }

  class AttributeService {
    var attributes: map<int, Attribute>

    constructor(attributes: map<int, Attribute>)
      ensures this.attributes == attributes
    {
      this.attributes := attributes;
    }

    /** `addOrUpdateProductAttribute`: a null request is refused; a name
        held by another live attribute is refused without writing;
        otherwise the row is inserted under a generated id or updated. */
    method AddOrUpdateProductAttribute(req: Option<AttributeRequest>, freshId: int, userId: int, now: int, lang: Lang)
      returns (r: Response<string>)
      requires freshId !in attributes
      modifies this
      ensures req.None? ==> r == ResponseMsg(PARAMETER_NULL) && attributes == old(attributes)
      ensures req.Some? && NameTaken(old(attributes), req.value.attributeName, req.value.id) ==>
        r == ResponseMsg(NameExist(lang)) && attributes == old(attributes)
      ensures req.Some? && !NameTaken(old(attributes), req.value.attributeName, req.value.id) ==>
        attributes == AfterSave(old(attributes), req.value, freshId, userId, now) &&
        r == ResponseMsg(SaveEnum(lang, req.value.id.None?, req.value.id.None? || req.value.id.value in old(attributes)))
    {
      if req.None? {
        return ResponseMsg(PARAMETER_NULL);
      }
      var q := req.value;
      if q.id.None? {
        if NameTaken(attributes, q.attributeName, None) {
          return ResponseMsg(NameExist(lang));
        }
        attributes := attributes[freshId := Inserted(q, userId, now)];
        return ResponseMsg(SaveEnum(lang, true, true));
      }
      if NameTaken(attributes, q.attributeName, q.id) {
        return ResponseMsg(NameExist(lang));
      }
      var updated := q.id.value in attributes;
      if updated {
        attributes := attributes[q.id.value := Updated(attributes[q.id.value], q, userId, now)];
      }
      r := ResponseMsg(SaveEnum(lang, false, updated));
    }

    /** `batchDeleteProductAttribute`: a null or empty list is refused;
        otherwise the rows are removed outright, and removing none is an
        error. */
    method BatchDeleteProductAttribute(ids: Option<seq<int>>, lang: Lang) returns (r: Response<string>)
      modifies this
      ensures ids.None? || ids.value == [] ==> r == ResponseMsg(PARAMETER_NULL) && attributes == old(attributes)
      ensures ids.Some? && ids.value != [] ==>
        attributes == old(attributes) - IdSet(ids.value) &&
        r == ResponseMsg(DeleteEnum(lang, AnyKeyIn(old(attributes), IdSet(ids.value))))
    {
      if ids.None? || ids.value == [] {
        return ResponseMsg(PARAMETER_NULL);
      }
      var removed := AnyKeyIn(attributes, IdSet(ids.value));
      attributes := attributes - IdSet(ids.value);
      r := ResponseMsg(DeleteEnum(lang, removed));
    }

    /** `getAttributeValuesById`: nothing for a null id, a missing row or
        a null or empty value; otherwise one entry per `|`-separated value,
        as Java's `split` gives them. */
    function GetAttributeValuesById(id: Option<int>): (r: seq<AttributeNameView>)
      reads this
      ensures id.None? || id.value !in attributes ==> r == []
      ensures id.Some? && id.value in attributes ==>
        var a := attributes[id.value];
        (a.attributeValue.None? || a.attributeValue.value == "" ==> r == []) &&
        (a.attributeValue.Some? && a.attributeValue.value != "" ==>
          ValuesOf(r) == JavaSplit(a.attributeValue.value, '|') &&
          forall i :: 0 <= i < |r| ==> r[i].name == a.attributeName && '|' !in r[i].value)
    {
      if id.None? || id.value !in attributes then []
      else
        var a := attributes[id.value];
        if a.attributeValue.None? || a.attributeValue.value == "" then []
        else Named(a.attributeName, JavaSplit(a.attributeValue.value, '|'))
    }

    /** `productAttributeList`: the requested page (1 of 10 rows for a null
        query) of the live attributes the name filter selects, newest first;
        `order` is that result before paging. */
    function ProductAttributeList(query: Option<AttributeQuery>, order: seq<int>): (r: Response<seq<AttributeView>>)
      reads this
      requires ListOrder(attributes, FilterOf(query), order)
      ensures r == ResponseData(AttributePage(attributes, query, order))
      ensures query.None? ==> r.data.value == AttributePage(attributes, Some(AttributeQuery(None, Some(1), Some(10))), order)
    {
      ResponseData(AttributePage(attributes, query, order))
    }
  }

  /** Values stored as a `|`-join of non-empty pieces come back as exactly
      those pieces. */
  lemma ValuesRoundTrip(s: AttributeService, id: int, pieces: seq<string>)
    requires id in s.attributes && |pieces| >= 1
    requires forall k :: 0 <= k < |pieces| ==> '|' !in pieces[k] && pieces[k] != ""
    requires s.attributes[id].attributeValue == Some(Join(pieces, "|"))
    ensures ValuesOf(s.GetAttributeValuesById(Some(id))) == pieces
  {
    JavaSplitJoin(pieces, '|');
    assert Join(pieces, "|") != "" by {
      JoinNonEmpty(pieces, "|");
    }
  }

  lemma JoinNonEmpty(xs: seq<string>, sep: string)
    requires |xs| >= 1 && xs[0] != ""
    ensures Join(xs, sep) != ""
  {
    if |xs| > 1 {
      assert |Join(xs, sep)| >= |xs[0]|;
    }
  }
}
