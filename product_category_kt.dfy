/** `ProductCategoryServiceImpl` (Kotlin): the same category table, with the
    Kotlin variants' null handling and their inverted name guard. Deleting
    follows the Java rules and is modelled once, by
    `ProductCategories.CategoryService`. */
module ProductCategoriesKt {
  import opened Wrappers
  import opened Responses
  import opened Text
  import opened Tables
  import opened ProductCategories

  /** A category whose parent id names no row: the list dereferences the
      missing parent. */
  predicate Orphan(cats: map<int, Category>, k: int)
    requires k in cats
  {
    cats[k].parentId.Some? && cats[k].parentId.value !in cats
  }

  /** The row a create writes: `sort` passes through, null included. */
  function CreatedKt(q: CategoryRequest, tenantId: int, now: int): (c: Category)
    ensures c == Created(q, tenantId, now).(sort := q.sort)
  {
    Category(Some(tenantId), q.categoryName, q.categoryNumber, q.parentId, q.sort, q.remark,
      CreatedBy(tenantId, now), NOT_DELETED)
  }

  class KtCategoryService {
    var categories: map<int, Category>

    constructor(categories: map<int, Category>)
      ensures this.categories == categories
    {
      this.categories := categories;
    }

    /** `productCategoryList`: the Java list, except that a category whose
        parent row is missing throws. */
    method ProductCategoryList(order: seq<int>) returns (r: Result<seq<CategoryView>>)
      requires NewestFirst(categories, order)
      ensures r.Throws? <==> exists i :: 0 <= i < |order| && order[i] in categories && Orphan(categories, order[i])
      ensures r.Ok? ==> (|r.value| == |order| &&
        forall i :: 0 <= i < |order| ==> order[i] in categories && r.value[i] == ViewOf(categories, order[i]))
    {
      var views: seq<CategoryView> := [];
      var i := 0;
      while i < |order|
        invariant 0 <= i <= |order|
        invariant |views| == i
        invariant forall j :: 0 <= j < i ==>
          order[j] in categories && !Orphan(categories, order[j]) && views[j] == ViewOf(categories, order[j])
      {
        assert order[i] in order;
        if Orphan(categories, order[i]) {
          return Throws;
        }
        views := views + [ViewOf(categories, order[i])];
        i := i + 1;
      }
      r := Ok(views);
    }

    /** `addOrUpdateProductCategory`: the parameter is non-null; a request
        without id creates a category with its sort as given, and otherwise
        the row with that id gets the Java partial update. */
    method AddOrUpdateProductCategory(q: CategoryRequest, freshId: int, tenantId: int, now: int, lang: Lang)
      returns (r: Response<string>)
      requires freshId !in categories
      modifies this
      ensures q.id.None? ==>
        categories == old(categories)[freshId := CreatedKt(q, tenantId, now)] && r == ResponseMsg(SaveEnum(lang, true, true))
      ensures q.id.Some? ==>
        (q.id.value in old(categories) ==>
          categories == old(categories)[q.id.value := PartiallyUpdated(old(categories)[q.id.value], q, tenantId, now)]) &&
        (q.id.value !in old(categories) ==> categories == old(categories)) &&
        r == ResponseMsg(SaveEnum(lang, false, q.id.value in old(categories)))
    {
      if q.id.None? {
        categories := categories[freshId := CreatedKt(q, tenantId, now)];
        return ResponseMsg(SaveEnum(lang, true, true));
      }
      var updated := q.id.value in categories;
      if updated {
        categories := categories[q.id.value := PartiallyUpdated(categories[q.id.value], q, tenantId, now)];
      }
      r := ResponseMsg(SaveEnum(lang, false, updated));
    }

    /** `getProductCategoryByName`: a name with length gives the empty
        category; a null or empty name is looked up, and a lookup that
        finds nothing fails the non-null return type. */
    function GetProductCategoryByName(name: Option<string>): (r: Result<CategoryLookup>)
      reads this
      ensures HasLength(name) ==> r == Ok(EmptyCategory)
      ensures !HasLength(name) ==> r != Ok(EmptyCategory) && r != Ok(NoCategory)
      ensures name.None? ==> r == Throws
    {
      if HasLength(name) then Ok(EmptyCategory)
      else
        var found := OneByName(categories, name);
        if found == Ok(NoCategory) then Throws else found
    }
  }

  /** The guard is the Java guard inverted: on every name exactly one of the
      two variants answers with the empty category, and wherever the Java
      one looks a name up, the Kotlin one does not. */
  lemma NameGuardInverted(j: CategoryService, k: KtCategoryService, name: Option<string>)
    ensures (j.GetProductCategoryByName(name) == Ok(EmptyCategory)) != (k.GetProductCategoryByName(name) == Ok(EmptyCategory))
    ensures HasLength(name) ==> j.GetProductCategoryByName(name) == OneByName(j.categories, name)
  {
  }
}
