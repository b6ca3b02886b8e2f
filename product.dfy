/** `ProductServiceImpl`: the request checks of `addOrUpdateProduct`, the
    product row and price rows (SKUs) it writes, the stock figure the
    product list shows, and the guards of the detail, delete and status
    operations. */
module Products {
  import opened Wrappers
  import opened Responses
  import opened Text
  import opened Tables
  import opened Decimals

  datatype Product = Product(
    name: Option<string>, model: Option<string>, standard: Option<string>, color: Option<string>,
    unit: Option<string>, remark: Option<string>,
    enableBatchNumber: Option<int>, enableSerialNumber: Option<int>,
    status: int, deleteFlag: int, audit: Audit)

  /** A price row (`ProductStockKeepUnit`) of a product. */
  datatype Sku = Sku(productId: int, barCode: Option<string>, deleteFlag: int)

  /** A stock row of a SKU in one warehouse. */
  datatype StockRow = StockRow(skuId: Option<int>, currentStock: Option<Decimal>, deleteFlag: int)

  datatype PriceRequest = PriceRequest(priceId: Option<int>, barCode: Option<string>)

  /** `AddOrUpdateProductDTO`; of its stock list only the length is read
      here. */
  datatype ProductRequest = ProductRequest(
    productId: Option<int>, name: Option<string>, model: Option<string>, standard: Option<string>,
    color: Option<string>, unit: Option<string>, remark: Option<string>,
    enableBatchNumber: Option<string>, enableSerialNumber: Option<string>,
    priceList: seq<PriceRequest>, stockListSize: nat)

  /** A row of the product list: the product, the barcode of its first
      SKU and the stock of that SKU. */
  datatype ProductView = ProductView(id: int, product: Product, barCode: Option<string>, stock: Option<Decimal>)

  /** The product detail with its live SKUs. */
  datatype ProductDetail = ProductDetail(id: int, product: Product, prices: seq<Sku>)

  // ---------------------------------------------------------------------
  // getStringValue
  // ---------------------------------------------------------------------

  /** `getStringValue`: null when the text trims to nothing, else the text. */
  function GetStringValue(s: Option<string>): (r: Option<string>)
    ensures r.None? <==> s.None? || TrimsToEmpty(s.value)
    ensures r.Some? ==> r == s && HasLength(r)
  {
    if s.None? || TrimsToEmpty(s.value) then None else s
  }

  /** Cleaning twice is cleaning once. */
  lemma GetStringValueIdempotent(s: Option<string>)
    ensures GetStringValue(GetStringValue(s)) == GetStringValue(s)
  {
  }

  /** `trim` and Spring's `hasText` disagree at both ends: an ideographic
      space survives the cleaning though it has no text, and a NUL is
      cleaned away though `hasText` sees text in it. */
  lemma TrimIsNotHasText()
    ensures GetStringValue(Some("\U{3000}")) == Some("\U{3000}") && !HasText(Some("\U{3000}"))
    ensures GetStringValue(Some("\U{0000}")) == None && HasText(Some("\U{0000}"))
  {
    assert IsJavaWhitespace("\U{3000}"[0]);
    assert !IsJavaWhitespace("\U{0000}"[0]);
  }

  // ---------------------------------------------------------------------
  // Barcode checks
  // ---------------------------------------------------------------------

  /** The request's barcodes with the nulls dropped, in order. */
  function BarCodes(prices: seq<PriceRequest>): (r: seq<string>)
    ensures |r| <= |prices|
    ensures forall b :: b in r <==> exists i :: 0 <= i < |prices| && prices[i].barCode == Some(b)
    decreases |prices|
  {
    if prices == [] then []
    else
      var init := prices[..|prices| - 1];
      var last := prices[|prices| - 1];
      assert forall i :: 0 <= i < |init| ==> init[i] == prices[i];
      BarCodes(init) + (if last.barCode.Some? then [last.barCode.value] else [])
  }

  /** `distinct().count() != size()`. */
  predicate Repeats(xs: seq<string>) {
    |(set x | x in xs)| != |xs|
  }

  lemma {:induction false} DistinctCountBound(xs: seq<string>)
    ensures |(set x | x in xs)| <= |xs|
    decreases |xs|
  {
    if xs != [] {
      var init := xs[..|xs| - 1];
      DistinctCountBound(init);
      assert (set x | x in xs) == (set x | x in init) + {xs[|xs| - 1]};
    }
  }

  /** The count test is exactly "some barcode occurs twice". */
  lemma {:induction false} RepeatsIffDuplicate(xs: seq<string>)
    ensures Repeats(xs) <==> exists i, j :: 0 <= i < j < |xs| && xs[i] == xs[j]
    decreases |xs|
  {
    if xs != [] {
      var init := xs[..|xs| - 1];
      var last := xs[|xs| - 1];
      RepeatsIffDuplicate(init);
      assert (set x | x in xs) == (set x | x in init) + {last};
      assert forall i :: 0 <= i < |init| ==> init[i] == xs[i];
      if last in init {
        DistinctCountBound(init);
        var i :| 0 <= i < |init| && init[i] == last;
        assert xs[i] == xs[|xs| - 1];
      } else {
        assert (set x | x in xs) - {last} == (set x | x in init);
        if exists i, j :: 0 <= i < j < |xs| && xs[i] == xs[j] {
          var i, j :| 0 <= i < j < |xs| && xs[i] == xs[j];
          assert j < |init|;
        }
      }
    }
  }

  /** The store query: a row, live or not, carrying one of the barcodes
      under another product (any product when the request has no id). */
  predicate BarCodeExists(skus: map<int, Sku>, codes: seq<string>, productId: Option<int>) {
    exists k :: k in skus && skus[k].barCode.Some? && skus[k].barCode.value in codes &&
      (productId.Some? ==> skus[k].productId != productId.value)
  }

  /** The guard before any check: no prices, no name and no unit. */
  predicate NothingGiven(q: ProductRequest) {
    q.priceList == [] && !HasLength(q.name) && !HasLength(q.unit)
  }

  function ProductEnum(lang: Lang, name: string): CodeEnum {
    Localized(lang, CodeEnum(name), CodeEnum(name + "_EN"))
  }

  /** The refusal of `addOrUpdateProduct`'s checks, if any: the null check
      first, then repeated barcodes in the request before barcodes already
      stored. */
  function Refusal(q: ProductRequest, skus: map<int, Sku>, lang: Lang): (r: Option<CodeEnum>)
    ensures r.None? <==>
      !NothingGiven(q) && !Repeats(BarCodes(q.priceList)) && !BarCodeExists(skus, BarCodes(q.priceList), q.productId)
    ensures NothingGiven(q) ==> r == Some(PARAMETER_NULL)
    ensures !NothingGiven(q) && Repeats(BarCodes(q.priceList)) ==>
      r == Some(ProductEnum(lang, "PRODUCT_BAR_CODE_NOT_DUPLICATED"))
    ensures !NothingGiven(q) && !Repeats(BarCodes(q.priceList)) && BarCodeExists(skus, BarCodes(q.priceList), q.productId) ==>
      r == Some(ProductEnum(lang, "PRODUCT_BAR_CODE_EXIST"))
  {
    if NothingGiven(q) then Some(PARAMETER_NULL)
    else if q.priceList == [] then None
    else
      var codes := BarCodes(q.priceList);
      if codes == [] then None
      else if Repeats(codes) then Some(ProductEnum(lang, "PRODUCT_BAR_CODE_NOT_DUPLICATED"))
      else if BarCodeExists(skus, codes, q.productId) then Some(ProductEnum(lang, "PRODUCT_BAR_CODE_EXIST"))
      else None
  }

  /** No two products share a barcode (the store check looks at every row,
      deleted ones included). */
  ghost predicate BarCodesUnique(skus: map<int, Sku>) {
    forall a, b :: a in skus && b in skus && skus[a].barCode.Some? && skus[a].barCode == skus[b].barCode ==>
      skus[a].productId == skus[b].productId
  }

  // ---------------------------------------------------------------------
  // The rows the save writes
  // ---------------------------------------------------------------------

  /** `Integer.valueOf` of a flag given with length; a text that is no
      `int` throws. */
  function FlagValue(s: Option<string>): Result<Option<int>> {
    if !HasLength(s) then Ok(None)
    else match ParseInt(s.value)
      case Some(v) => Ok(Some(v))
      case None => Throws
  }

  /** The product row the builder makes: cleaned text, enabled, live and
      stamped as created by the user now; a flag that is no number throws. */
  function Built(q: ProductRequest, userId: int, now: int): (r: Result<Product>)
    ensures r.Ok? <==> FlagValue(q.enableBatchNumber).Ok? && FlagValue(q.enableSerialNumber).Ok?
    ensures r.Ok? ==> (r.value.status == STATUS_NORMAL && r.value.deleteFlag == NOT_DELETED &&
      r.value.audit == CreatedBy(userId, now) && r.value.name == GetStringValue(q.name))
  {
    match (FlagValue(q.enableBatchNumber), FlagValue(q.enableSerialNumber))
    case (Ok(batch), Ok(serial)) =>
      Ok(Product(GetStringValue(q.name), GetStringValue(q.model), GetStringValue(q.standard),
        GetStringValue(q.color), GetStringValue(q.unit), GetStringValue(q.remark), batch, serial,
        STATUS_NORMAL, NOT_DELETED, CreatedBy(userId, now)))
    case _ => Throws
  }

  /** `saveOrUpdate`: a new id inserts the row; an existing one takes the
      row's non-null columns (`updateById`). */
  function SavedOver(prior: Option<Product>, p: Product): (r: Product)
    ensures r.status == p.status && r.deleteFlag == p.deleteFlag
    ensures prior.None? ==> r == p
    ensures prior.Some? && p.name.Some? ==> r.name == p.name
    ensures prior.Some? && p.name.None? ==> r.name == prior.value.name
  {
    if prior.None? then p
    else
      var o := prior.value;
      Product(
        if p.name.Some? then p.name else o.name,
        if p.model.Some? then p.model else o.model,
        if p.standard.Some? then p.standard else o.standard,
        if p.color.Some? then p.color else o.color,
        if p.unit.Some? then p.unit else o.unit,
        if p.remark.Some? then p.remark else o.remark,
        if p.enableBatchNumber.Some? then p.enableBatchNumber else o.enableBatchNumber,
        if p.enableSerialNumber.Some? then p.enableSerialNumber else o.enableSerialNumber,
        p.status, p.deleteFlag,
        o.audit.(createBy := p.audit.createBy, createTime := p.audit.createTime))
  }

  /** The ids of the new price rows: the given id, or a fresh one. */
  function SkuIds(prices: seq<PriceRequest>, newIds: seq<int>): (r: seq<int>)
    requires |newIds| == |prices|
    ensures |r| == |prices|
    ensures forall i :: 0 <= i < |prices| ==> r[i] == prices[i].priceId.GetOr(newIds[i])
  {
    seq(|prices|, i requires 0 <= i < |prices| => prices[i].priceId.GetOr(newIds[i]))
  }

  /** The table after the product's live price rows are removed. */
  function WithoutLiveSkus(skus: map<int, Sku>, productId: int): (r: map<int, Sku>)
    ensures forall k :: k in r <==> k in skus && !(skus[k].productId == productId && skus[k].deleteFlag == NOT_DELETED)
    ensures forall k :: k in r ==> r[k] == skus[k]
  {
    map k | k in skus && !(skus[k].productId == productId && skus[k].deleteFlag == NOT_DELETED) :: skus[k]
  }

  /** `saveBatch` of the new price rows: an id already taken, or given
      twice, makes the insert throw. */
  predicate InsertCollides(t: map<int, Sku>, ids: seq<int>) {
    !Distinct(ids) || exists i :: 0 <= i < |ids| && ids[i] in t
  }

  /** The table with the new price rows of the product inserted. */
  function InsertedSkus(t: map<int, Sku>, ids: seq<int>, prices: seq<PriceRequest>, productId: int): (r: map<int, Sku>)
    requires |ids| == |prices| && Distinct(ids)
    ensures forall k :: k in r <==> k in t || k in ids
    ensures forall i :: 0 <= i < |ids| ==> ids[i] in r
    ensures forall i :: 0 <= i < |ids| ==> r[ids[i]] == Sku(productId, prices[i].barCode, NOT_DELETED)
    ensures forall k :: k in t && k !in ids ==> r[k] == t[k]
  {
    t + AddedSkus(ids, prices, productId)
  }

  /** The new price rows by id. */
  function AddedSkus(ids: seq<int>, prices: seq<PriceRequest>, productId: int): (r: map<int, Sku>)
    requires |ids| == |prices| && Distinct(ids)
    ensures r.Keys == set k | k in ids
    ensures forall i :: 0 <= i < |ids| ==> ids[i] in r && r[ids[i]] == Sku(productId, prices[i].barCode, NOT_DELETED)
    decreases |ids|
  {
    if ids == [] then map[]
    else
      assert Distinct(ids[1..]) && ids[0] !in ids[1..];
      AddedSkus(ids[1..], prices[1..], productId)[ids[0] := Sku(productId, prices[0].barCode, NOT_DELETED)]
  }

  /** A save that passes the checks keeps barcodes unique across products. */
  lemma SaveKeepsBarCodesUnique(skus: map<int, Sku>, q: ProductRequest, id: int, ids: seq<int>, lang: Lang)
    requires BarCodesUnique(skus)
    requires Refusal(q, skus, lang).None?
    requires q.productId.Some? ==> id == q.productId.value
    requires q.productId.None? ==> forall k :: k in skus ==> skus[k].productId != id
    requires |ids| == |q.priceList| && Distinct(ids)
    ensures BarCodesUnique(InsertedSkus(WithoutLiveSkus(skus, id), ids, q.priceList, id))
  {
    var rest := WithoutLiveSkus(skus, id);
    var after := InsertedSkus(rest, ids, q.priceList, id);
    var codes := BarCodes(q.priceList);
    forall a, b | a in after && b in after && after[a].barCode.Some? && after[a].barCode == after[b].barCode
      ensures after[a].productId == after[b].productId
    {
      if a in ids && b !in ids {
        var i :| 0 <= i < |ids| && ids[i] == a;
        assert q.priceList[i].barCode == after[a].barCode;
        assert after[a].barCode.value in codes;
        assert !BarCodeExists(skus, codes, q.productId);
      } else if b in ids && a !in ids {
        var j :| 0 <= j < |ids| && ids[j] == b;
        assert q.priceList[j].barCode == after[b].barCode;
        assert after[b].barCode.value in codes;
        assert !BarCodeExists(skus, codes, q.productId);
      }
    }
  }

  // ---------------------------------------------------------------------
  // The stock figure of the product list
  // ---------------------------------------------------------------------

  /** The product's live price rows, in key order. */
  function LiveSkuKeys(skus: map<int, Sku>, productId: int): (r: seq<int>)
    ensures forall k :: k in r <==> k in skus && skus[k].productId == productId && skus[k].deleteFlag == NOT_DELETED
  {
    AscendingKeys(set k | k in skus && skus[k].productId == productId && skus[k].deleteFlag == NOT_DELETED)
  }

  /** The current quantities of a SKU's live stock rows, in key order. */
  function CurrentStocks(stocks: map<int, StockRow>, skuId: int): (r: seq<Option<Decimal>>)
    ensures |r| == |(set k | k in stocks && stocks[k].skuId == Some(skuId) && stocks[k].deleteFlag == NOT_DELETED)|
  {
    var keys := AscendingKeys(set k | k in stocks && stocks[k].skuId == Some(skuId) && stocks[k].deleteFlag == NOT_DELETED);
    seq(|keys|, i requires 0 <= i < |keys| => stocks[keys[i]].currentStock)
  }

  function StockOf(stocks: map<int, StockRow>, skuId: int): (r: Option<Decimal>)
    ensures r.None? <==> CurrentStocks(stocks, skuId) == []
  {
    var current := CurrentStocks(stocks, skuId);
    if current == [] then None else Some(Sum(NonNull(current)))
  }

  /** The listed stock counts every live stock row of the first SKU, a
      null quantity as zero. */
  lemma StockOfIsSum(stocks: map<int, StockRow>, skuId: int, m: int)
    requires StockOf(stocks, skuId).Some?
    requires m >= StockOf(stocks, skuId).value.scale
    requires m >= 0 && ScalesAtMost(CurrentStocks(stocks, skuId), m)
    ensures UnitsAt(StockOf(stocks, skuId).value, m) == SumUnitsAt(ZeroFilled(CurrentStocks(stocks, skuId)), m)
  {
    var current := CurrentStocks(stocks, skuId);
    NonNullSum(current, m);
    SumValue(NonNull(current), m);
  }

  class ProductService {
    var products: map<int, Product>
    var skus: map<int, Sku>
    var stocks: map<int, StockRow>

    constructor(products: map<int, Product>, skus: map<int, Sku>, stocks: map<int, StockRow>)
      ensures this.products == products && this.skus == skus && this.stocks == stocks
    {
      this.products := products;
      this.skus := skus;
      this.stocks := stocks;
    }

    /** `addOrUpdateProduct`: a refused request changes nothing; otherwise
        the product row is saved under the given or a fresh id, its live
        price rows are replaced by the request's, and the outcome is
        reported as a success only when both the price and the stock batch
        were non-empty. An unparsable flag or a taken price id throws and
        the transaction rolls back. */
    method AddOrUpdateProduct(q: ProductRequest, freshId: int, freshSkuIds: seq<int>, userId: int, now: int, lang: Lang)
      returns (r: Result<Response<string>>)
      requires freshId !in products && |freshSkuIds| == |q.priceList|
      modifies this
      ensures stocks == old(stocks)
      ensures Refusal(q, old(skus), lang).Some? ==>
        r == Ok(ResponseMsg(Refusal(q, old(skus), lang).value)) && products == old(products) && skus == old(skus)
      ensures Refusal(q, old(skus), lang).None? ==>
        var id := q.productId.GetOr(freshId);
        var ids := SkuIds(q.priceList, freshSkuIds);
        var rest := WithoutLiveSkus(old(skus), id);
        if Built(q, userId, now).Throws? || InsertCollides(rest, ids) then
          r == Throws && products == old(products) && skus == old(skus)
        else
          products == old(products)[id := SavedOver(if id in old(products) then Some(old(products)[id]) else None, Built(q, userId, now).value)] &&
          skus == InsertedSkus(rest, ids, q.priceList, id) &&
          r == Ok(ResponseMsg(ProductEnum(lang,
            (if q.productId.None? then "PRODUCT_ADD" else "PRODUCT_UPDATE") +
            (if q.priceList != [] && q.stockListSize > 0 then "_SUCCESS" else "_ERROR"))))
    {
      var refusal := Refusal(q, skus, lang);
      if refusal.Some? {
        return Ok(ResponseMsg(refusal.value));
      }
      var id := q.productId.GetOr(freshId);
      var built := Built(q, userId, now);
      var ids := SkuIds(q.priceList, freshSkuIds);
      var rest := WithoutLiveSkus(skus, id);
      if built.Throws? || InsertCollides(rest, ids) {
        return Throws;
      }
      products := products[id := SavedOver(if id in products then Some(products[id]) else None, built.value)];
      skus := InsertedSkus(rest, ids, q.priceList, id);
      var ok := q.priceList != [] && q.stockListSize > 0;
      r := Ok(ResponseMsg(ProductEnum(lang,
        (if q.productId.None? then "PRODUCT_ADD" else "PRODUCT_UPDATE") + (if ok then "_SUCCESS" else "_ERROR"))));
    }

    /** One row of `getProductInfo`: the barcode of the first live SKU and
        the stock of that SKU, both null without one. */
    function ViewOf(k: int): (v: ProductView)
      reads this
      requires k in products
      ensures v.id == k && v.product == products[k]
      ensures LiveSkuKeys(skus, k) == [] ==> v.barCode.None? && v.stock.None?
      ensures LiveSkuKeys(skus, k) != [] ==>
        v.barCode == skus[LiveSkuKeys(skus, k)[0]].barCode && v.stock == StockOf(stocks, LiveSkuKeys(skus, k)[0])
    {
      var keys := LiveSkuKeys(skus, k);
      if keys == [] then ProductView(k, products[k], None, None)
      else ProductView(k, products[k], skus[keys[0]].barCode, StockOf(stocks, keys[0]))
    }

    /** `getProductInfo` over the page of products the query returned. */
    function ProductInfo(page: seq<int>): (r: Response<seq<ProductView>>)
      reads this
      requires forall i :: 0 <= i < |page| ==> page[i] in products
      ensures r.data.Some? && |r.data.value| == |page|
      ensures forall i :: 0 <= i < |page| ==> r.data.value[i] == ViewOf(page[i])
    {
      ResponseData(seq(|page|, i reads this requires 0 <= i < |page| && page[i] in products => ViewOf(page[i])))
    }

    /** `getProductInfoDetail`: a null id is refused, a missing product is
        QUERY_DATA_EMPTY, otherwise the product with its live SKUs. */
    function GetProductInfoDetail(productId: Option<int>): (r: Response<ProductDetail>)
      reads this
      ensures productId.None? ==> r == ResponseMsg(PARAMETER_NULL)
      ensures productId.Some? && productId.value !in products ==> r == ResponseMsg(QUERY_DATA_EMPTY)
      ensures productId.Some? && productId.value in products ==>
        r.data.Some? && r.data.value.id == productId.value && r.data.value.product == products[productId.value] &&
        |r.data.value.prices| == |LiveSkuKeys(skus, productId.value)| &&
        forall i :: 0 <= i < |r.data.value.prices| ==> r.data.value.prices[i] == skus[LiveSkuKeys(skus, productId.value)[i]]
    {
      if productId.None? then ResponseMsg(PARAMETER_NULL)
      else if productId.value !in products then ResponseMsg(QUERY_DATA_EMPTY)
      else
        var id := productId.value;
        var keys := LiveSkuKeys(skus, id);
        var t := skus;
        ResponseData(ProductDetail(id, products[id], seq(|keys|, i requires 0 <= i < |keys| => t[keys[i]])))
    }

    /** `deleteProduct`: null or empty ids are refused; otherwise the
        products, their live SKUs and those SKUs' live stock rows are
        removed, and the outcome is whether a product row went. */
    method DeleteProduct(productIds: Option<seq<int>>, lang: Lang) returns (r: Response<string>)
      modifies this
      ensures productIds.None? || productIds.value == [] ==>
        r == ResponseMsg(PARAMETER_NULL) && products == old(products) && skus == old(skus) && stocks == old(stocks)
      ensures productIds.Some? && productIds.value != [] ==>
        var ids := IdSet(productIds.value);
        var gone := set k | k in old(skus) && old(skus)[k].productId in ids && old(skus)[k].deleteFlag == NOT_DELETED;
        products == (map k | k in old(products) && k !in ids :: old(products)[k]) &&
        skus == (map k | k in old(skus) && k !in gone :: old(skus)[k]) &&
        stocks == (map k | k in old(stocks) && !(old(stocks)[k].skuId.Some? && old(stocks)[k].skuId.value in gone &&
          old(stocks)[k].deleteFlag == NOT_DELETED) :: old(stocks)[k]) &&
        r == ResponseMsg(ProductEnum(lang, if AnyKeyIn(old(products), ids) then "PRODUCT_DELETE_SUCCESS" else "PRODUCT_DELETE_ERROR"))
    {
      if productIds.None? || productIds.value == [] {
        return ResponseMsg(PARAMETER_NULL);
      }
      var ids := IdSet(productIds.value);
      var gone := set k | k in skus && skus[k].productId in ids && skus[k].deleteFlag == NOT_DELETED;
      var removed := AnyKeyIn(products, ids);
      skus := map k | k in skus && k !in gone :: skus[k];
      stocks := map k | k in stocks && !(stocks[k].skuId.Some? && stocks[k].skuId.value in gone && stocks[k].deleteFlag == NOT_DELETED) :: stocks[k];
      products := map k | k in products && k !in ids :: products[k];
      r := ResponseMsg(ProductEnum(lang, if removed then "PRODUCT_DELETE_SUCCESS" else "PRODUCT_DELETE_ERROR"));
    }

    /** `updateProductStatus`: null or empty ids or a null status are
        refused; otherwise the live listed products take the status. */
    method UpdateProductStatus(productIds: Option<seq<int>>, status: Option<int>, lang: Lang) returns (r: Response<string>)
      modifies this
      ensures skus == old(skus) && stocks == old(stocks) && products.Keys == old(products).Keys
      ensures productIds.None? || productIds.value == [] || status.None? ==>
        r == ResponseMsg(PARAMETER_NULL) && products == old(products)
      ensures productIds.Some? && productIds.value != [] && status.Some? ==>
        var ids := IdSet(productIds.value);
        (forall k :: k in products ==>
          products[k] == (if k in ids && old(products)[k].deleteFlag == NOT_DELETED
            then old(products)[k].(status := status.value) else old(products)[k])) &&
        r == ResponseMsg(ProductEnum(lang,
          if exists k :: k in old(products) && k in ids && old(products)[k].deleteFlag == NOT_DELETED
          then "PRODUCT_STATUS_UPDATE_SUCCESS" else "PRODUCT_STATUS_UPDATE_ERROR"))
    {
      if productIds.None? || productIds.value == [] || status.None? {
        return ResponseMsg(PARAMETER_NULL);
      }
      var ids := IdSet(productIds.value);
      var matched := exists k :: k in products && k in ids && products[k].deleteFlag == NOT_DELETED;
      products := map k | k in products :: if k in ids && products[k].deleteFlag == NOT_DELETED
        then products[k].(status := status.value) else products[k];
      r := ResponseMsg(ProductEnum(lang, if matched then "PRODUCT_STATUS_UPDATE_SUCCESS" else "PRODUCT_STATUS_UPDATE_ERROR"));
    }
  }

  /** A barcode saved under a product blocks every other product's
      request that carries it: the store check sees the new row. */
  lemma SavedBarCodeBlocksOthers(skus: map<int, Sku>, q: ProductRequest, id: int, ids: seq<int>,
                                 q2: ProductRequest, b: string, lang: Lang)
    requires |ids| == |q.priceList| && Distinct(ids)
    requires b in BarCodes(q.priceList) && b in BarCodes(q2.priceList)
    requires !NothingGiven(q2) && q2.productId != Some(id)
    ensures Refusal(q2, InsertedSkus(WithoutLiveSkus(skus, id), ids, q.priceList, id), lang).Some?
  {
    var after := InsertedSkus(WithoutLiveSkus(skus, id), ids, q.priceList, id);
    var i :| 0 <= i < |q.priceList| && q.priceList[i].barCode == Some(b);
    assert after[ids[i]].barCode == Some(b) && after[ids[i]].productId == id;
    assert BarCodeExists(after, BarCodes(q2.priceList), q2.productId);
  }
}
