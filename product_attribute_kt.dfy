/** `ProductAttributeServiceImpl` (Kotlin): the same attribute table, with
    the null handling of the Kotlin variants. Saving follows the Java rules
    and is modelled once, by `ProductAttributes.AttributeService`. */
module ProductAttributesKt {
  import opened Wrappers
  import opened Responses
  import opened Text
  import opened Tables
  import opened ProductAttributes

  class KtAttributeService {
    var attributes: map<int, Attribute>

    constructor(attributes: map<int, Attribute>)
      ensures this.attributes == attributes
    {
      this.attributes := attributes;
    }

    /** `productAttributeList`: a null query builds no page and answers an
        empty one; otherwise the requested page of the live attributes its
        name filter selects, newest first, as in the Java service. */
    function ProductAttributeList(query: Option<AttributeQuery>, order: seq<int>): (r: Response<seq<AttributeView>>)
      reads this
      requires query.Some? ==> ListOrder(attributes, FilterOf(query), order)
      ensures r.code == Some(CodeOf(SUCCESS)) && r.msg == None && r.data.Some?
      ensures query.None? ==> r.data.value == []
      ensures query.Some? ==> r.data.value == AttributePage(attributes, query, order)
    {
      if query.None? then ResponseData([]) else ResponseData(AttributePage(attributes, query, order))
    }

    /** `batchDeleteProductAttribute`: only a null list is refused; any
        other list, the empty one included, goes to the delete, and
        removing no row is an error. */
    method BatchDeleteProductAttribute(ids: Option<seq<int>>, lang: Lang) returns (r: Response<string>)
      modifies this
      ensures ids.None? ==> r == ResponseMsg(PARAMETER_NULL) && attributes == old(attributes)
      ensures ids.Some? ==>
        attributes == old(attributes) - IdSet(ids.value) &&
        r == ResponseMsg(DeleteEnum(lang, AnyKeyIn(old(attributes), IdSet(ids.value))))
      ensures ids == Some([]) ==> r == ResponseMsg(DeleteEnum(lang, false))
    {
      if ids.None? {
        return ResponseMsg(PARAMETER_NULL);
      }
      var removed := AnyKeyIn(attributes, IdSet(ids.value));
      attributes := attributes - IdSet(ids.value);
      r := ResponseMsg(DeleteEnum(lang, removed));
    }

    /** `getAttributeValuesById`: nothing for a null id, a missing row or a
        null value; otherwise Kotlin's `split`, which keeps empty pieces, so
        the values joined with `|` give back the stored text. */
    function GetAttributeValuesById(id: Option<int>): (r: seq<AttributeNameView>)
      reads this
      ensures id.None? || id.value !in attributes ==> r == []
      ensures id.Some? && id.value in attributes ==>
        var a := attributes[id.value];
        (a.attributeValue.None? ==> r == []) &&
        (a.attributeValue.Some? ==>
          |r| >= 1 && Join(ValuesOf(r), "|") == a.attributeValue.value &&
          forall i :: 0 <= i < |r| ==> r[i].name == a.attributeName && '|' !in r[i].value)
    {
      if id.None? || id.value !in attributes then []
      else
        var a := attributes[id.value];
        if a.attributeValue.None? then []
        else
          var values := SplitKeepingEmpty(a.attributeValue.value, '|');
          JoinSplit(a.attributeValue.value, '|');
          assert ValuesOf(Named(a.attributeName, values)) == values;
          Named(a.attributeName, values)
    }
  }

  /** Where the variants part: an empty value gives the Java service no
      entry and the Kotlin service one empty entry. */
  lemma EmptyValueDiffers(j: AttributeService, k: KtAttributeService, id: int, a: Attribute)
    requires id in j.attributes && id in k.attributes && j.attributes[id] == a && k.attributes[id] == a
    requires a.attributeValue == Some("")
    ensures j.GetAttributeValuesById(Some(id)) == []
    ensures k.GetAttributeValuesById(Some(id)) == [AttributeNameView(a.attributeName, "")]
  {
    assert IndexOf("", '|') == 0;
    assert SplitKeepingEmpty("", '|') == [""];
  }

  /** A trailing `|` is dropped by Java's split but kept by Kotlin's. */
  lemma TrailingPipeDiffers(j: AttributeService, k: KtAttributeService, id: int, a: Attribute)
    requires id in j.attributes && id in k.attributes && j.attributes[id] == a && k.attributes[id] == a
    requires a.attributeValue == Some("v|")
    ensures ValuesOf(j.GetAttributeValuesById(Some(id))) == ["v"]
    ensures ValuesOf(k.GetAttributeValuesById(Some(id))) == ["v", ""]
  {
    SplitsOfTrailingPipe();
    var values := SplitKeepingEmpty("v|", '|');
    assert ValuesOf(Named(a.attributeName, values)) == values;
  }

  lemma SplitsOfTrailingPipe()
    ensures SplitKeepingEmpty("v|", '|') == ["v", ""]
    ensures JavaSplit("v|", '|') == ["v"]
  {
    var s := "v|";
    assert IndexOf(s, '|') == 1;
    assert s[..1] == "v" && s[2..] == "";
    assert IndexOf("", '|') == 0;
    assert SplitKeepingEmpty("", '|') == [""];
    assert '|' in s;
    assert DropTrailingEmpty(["v", ""]) == ["v"] by {
      assert ["v", ""][..1] == ["v"];
    }
  }
}
