/** `ProductCategoryServiceImpl` (Java): product categories in a parent and
    child hierarchy. Categories carry no uniqueness rule on their names. */
module ProductCategories {
  import opened Wrappers
  import opened Responses
  import opened Text
  import opened Tables

  datatype Category = Category(
    tenantId: Option<int>, categoryName: Option<string>, categoryNumber: Option<string>,
    parentId: Option<int>, sort: Option<int>, remark: Option<string>, audit: Audit, deleteFlag: int)

  datatype CategoryRequest = CategoryRequest(
    id: Option<int>, categoryName: Option<string>, categoryNumber: Option<string>,
    parentId: Option<int>, sort: Option<int>, remark: Option<string>)

  /** A row of the category list: the category and its parent's name. */
  datatype CategoryView = CategoryView(id: int, category: Category, parentName: Option<string>)

  /** What a lookup by name answers: the empty category the guard returns,
      the one row found, or null. */
  datatype CategoryLookup = EmptyCategory | Found(id: int, row: Category) | NoCategory

  /** The order the list query returns: every live category once, newest
      first. */
  ghost predicate NewestFirst(cats: map<int, Category>, order: seq<int>) {
    Distinct(order) &&
    (forall k :: k in order <==> k in cats && cats[k].deleteFlag == NOT_DELETED) &&
    (forall i, j :: 0 <= i < j < |order| && order[i] in cats && order[j] in cats ==>
      NotOlder(cats[order[i]].audit.createTime, cats[order[j]].audit.createTime))
  }

  /** The list row of category `k`: its parent's name when the parent row
      exists (deleted or not), null otherwise. */
  function ViewOf(cats: map<int, Category>, k: int): (v: CategoryView)
    requires k in cats
    ensures v.id == k && v.category == cats[k]
    ensures v.parentName.Some? ==>
      cats[k].parentId.Some? && cats[k].parentId.value in cats && cats[cats[k].parentId.value].categoryName == v.parentName
    ensures cats[k].parentId.Some? && cats[k].parentId.value in cats ==>
      v.parentName == cats[cats[k].parentId.value].categoryName
  {
    var p := cats[k].parentId;
    CategoryView(k, cats[k], if p.Some? && p.value in cats then cats[p.value].categoryName else None)
  }

  /** The row a create writes: `sort` defaults to 0, the tenant is stamped
      as creator and owner. */
  function Created(q: CategoryRequest, tenantId: int, now: int): Category {
    Category(Some(tenantId), q.categoryName, q.categoryNumber, q.parentId, Some(q.sort.GetOr(0)), q.remark,
      CreatedBy(tenantId, now), NOT_DELETED)
  }

  /** The update, which sets the text columns that have text, the parent
      and sort when given, and always the update stamps. */
  function PartiallyUpdated(c: Category, q: CategoryRequest, tenantId: int, now: int): Category {
    c.(categoryName := if HasText(q.categoryName) then q.categoryName else c.categoryName,
       categoryNumber := if HasText(q.categoryNumber) then q.categoryNumber else c.categoryNumber,
       parentId := if q.parentId.Some? then q.parentId else c.parentId,
       sort := if q.sort.Some? then q.sort else c.sort,
       remark := if HasText(q.remark) then q.remark else c.remark,
       audit := UpdatedBy(c.audit, tenantId, now))
  }

  /** An update that names no column only restamps the row, and applying
      the same update twice is the same as once. */
  lemma PartialUpdateProperties(c: Category, q: CategoryRequest, tenantId: int, now: int)
    ensures !HasText(q.categoryName) && !HasText(q.categoryNumber) && q.parentId.None? && q.sort.None? && !HasText(q.remark) ==>
      PartiallyUpdated(c, q, tenantId, now) == c.(audit := UpdatedBy(c.audit, tenantId, now))
    ensures PartiallyUpdated(PartiallyUpdated(c, q, tenantId, now), q, tenantId, now) == PartiallyUpdated(c, q, tenantId, now)
    ensures PartiallyUpdated(c, q, tenantId, now).deleteFlag == c.deleteFlag &&
      PartiallyUpdated(c, q, tenantId, now).tenantId == c.tenantId &&
      PartiallyUpdated(c, q, tenantId, now).audit.createTime == c.audit.createTime
  {
  }

  function SaveEnum(lang: Lang, isAdd: bool, ok: bool): CodeEnum {
    var name := (if isAdd then "ADD" else "UPDATE") + "_PRODUCT_CATEGORY" + (if ok then "_SUCCESS" else "_ERROR");
    Localized(lang, CodeEnum(name), CodeEnum(name + "_EN"))
  }

  function DeleteEnum(lang: Lang, ok: bool): CodeEnum {
    var name := "DELETE_PRODUCT_CATEGORY" + (if ok then "_SUCCESS" else "_ERROR");
    Localized(lang, CodeEnum(name), CodeEnum(name + "_EN"))
  }

  /** The table after flagging `ids` deleted. */
  function SoftDeleted(cats: map<int, Category>, ids: set<int>): (r: map<int, Category>)
    ensures r.Keys == cats.Keys
    ensures forall k :: k in r ==> r[k] == if k in ids then cats[k].(deleteFlag := DELETED) else cats[k]
  {
    map k | k in cats :: if k in ids then cats[k].(deleteFlag := DELETED) else cats[k]
  }

  /** `eq(categoryName, name).one()`: no delete-flag filter; none is null,
      several throw. */
  function OneByName(cats: map<int, Category>, name: Option<string>): (r: Result<CategoryLookup>)
    ensures r.Ok? ==> !r.value.EmptyCategory?
    ensures r.Ok? && r.value.Found? ==> r.value.id in cats && cats[r.value.id] == r.value.row && r.value.row.categoryName == name
    ensures r == Ok(NoCategory) <==> name.None? || forall k :: k in cats ==> cats[k].categoryName != name
    ensures r.Throws? ==> exists a, b :: a in cats && b in cats && a != b && cats[a].categoryName == name && cats[b].categoryName == name
  {
    if name.None? then Ok(NoCategory)
    else
      var hits := set k | k in cats && cats[k].categoryName == name;
      assert forall k :: k in cats && cats[k].categoryName == name ==> k in hits;
      if |hits| == 0 then Ok(NoCategory)
      else if |hits| > 1 then
        var keys := AscendingKeys(hits);
        assert keys[0] in hits && keys[1] in hits && keys[0] != keys[1];
        Throws
      else
        var k := AscendingKeys(hits)[0];
        Ok(Found(k, cats[k]))
  }

  class CategoryService {
    var categories: map<int, Category>

    constructor(categories: map<int, Category>)
      ensures this.categories == categories
    {
      this.categories := categories;
    }

    /** `productCategoryList`: one row per live category, in the query's
        order, each with its parent's name. */
    method ProductCategoryList(order: seq<int>) returns (r: seq<CategoryView>)
      requires NewestFirst(categories, order)
      ensures |r| == |order|
      ensures forall i :: 0 <= i < |r| ==> order[i] in categories && r[i] == ViewOf(categories, order[i])
    {
      r := [];
      var i := 0;
      while i < |order|
        invariant 0 <= i <= |order|
        invariant |r| == i
        invariant forall j :: 0 <= j < i ==> order[j] in categories && r[j] == ViewOf(categories, order[j])
      {
        assert order[i] in order;
        r := r + [ViewOf(categories, order[i])];
        i := i + 1;
      }
    }

    /** `addOrUpdateProductCategory`: a null request is refused; a request
        without id creates a category; otherwise the row with that id gets
        the partial update, and matching none is an error. */
    method AddOrUpdateProductCategory(req: Option<CategoryRequest>, freshId: int, tenantId: int, now: int, lang: Lang)
      returns (r: Response<string>)
      requires freshId !in categories
      modifies this
      ensures req.None? ==> r == ResponseMsg(PARAMETER_NULL) && categories == old(categories)
      ensures req.Some? && req.value.id.None? ==>
        categories == old(categories)[freshId := Created(req.value, tenantId, now)] && r == ResponseMsg(SaveEnum(lang, true, true))
      ensures req.Some? && req.value.id.Some? ==> var id := req.value.id.value;
        (id in old(categories) ==>
          categories == old(categories)[id := PartiallyUpdated(old(categories)[id], req.value, tenantId, now)]) &&
        (id !in old(categories) ==> categories == old(categories)) &&
        r == ResponseMsg(SaveEnum(lang, false, id in old(categories)))
    {
      if req.None? {
        return ResponseMsg(PARAMETER_NULL);
      }
      var q := req.value;
      if q.id.None? {
        categories := categories[freshId := Created(q, tenantId, now)];
        return ResponseMsg(SaveEnum(lang, true, true));
      }
      var id := q.id.value;
      var updated := id in categories;
      if updated {
        categories := categories[id := PartiallyUpdated(categories[id], q, tenantId, now)];
      }
      r := ResponseMsg(SaveEnum(lang, false, updated));
    }

    /** `deleteProductCategory`: a null or empty list is refused; otherwise
        exactly the listed rows are flagged deleted. */
    method DeleteProductCategory(ids: Option<seq<int>>, lang: Lang) returns (r: Response<string>)
      modifies this
      ensures ids.None? || ids.value == [] ==> r == ResponseMsg(PARAMETER_NULL) && categories == old(categories)
      ensures ids.Some? && ids.value != [] ==>
        categories == SoftDeleted(old(categories), IdSet(ids.value)) &&
        r == ResponseMsg(DeleteEnum(lang, AnyKeyIn(old(categories), IdSet(ids.value))))
    {
      if ids.None? || ids.value == [] {
        return ResponseMsg(PARAMETER_NULL);
      }
      var matched := AnyKeyIn(categories, IdSet(ids.value));
      categories := SoftDeleted(categories, IdSet(ids.value));
      r := ResponseMsg(DeleteEnum(lang, matched));
    }

    /** `getProductCategoryByName`: a null or empty name gives an empty
        category; any other name is looked up exactly. */
    function GetProductCategoryByName(name: Option<string>): (r: Result<CategoryLookup>)
      reads this
      ensures !HasLength(name) ==> r == Ok(EmptyCategory)
      ensures HasLength(name) ==> r == OneByName(categories, name)
    {
      if !HasLength(name) then Ok(EmptyCategory) else OneByName(categories, name)
    }
  }

  /** A deleted category leaves the list: no order the list query can
      return after the delete holds it. */
  lemma DeletedLeavesList(cats: map<int, Category>, ids: seq<int>, order: seq<int>)
    requires NewestFirst(SoftDeleted(cats, IdSet(ids)), order)
    ensures forall k :: k in ids ==> k !in order
  {
  }

  /** Every category a name lookup finds, deleted ones included, carries
      that name; a unique name is always found. */
  lemma LookupFindsUniqueName(cats: map<int, Category>, name: string, k: int)
    requires k in cats && cats[k].categoryName == Some(name)
    requires forall j :: j in cats && j != k ==> cats[j].categoryName != Some(name)
    ensures OneByName(cats, Some(name)) == Ok(Found(k, cats[k]))
  {
    var hits := set j | j in cats && cats[j].categoryName == Some(name);
    assert k in hits;
    assert forall j :: j in hits ==> j == k;
    assert hits == {k};
    assert AscendingKeys({k}) == [k];
  }
}
