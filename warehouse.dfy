/** `WarehouseServiceImpl`: warehouses, of which at most one live warehouse
    is the default one. */
module Warehouses {
  import opened Wrappers
  import opened Responses
  import opened Decimals
  import opened Tables

  /** `CommonConstants.IS_DEFAULT` / `NOT_DEFAULT`; only their being
      different matters here. */
  const IS_DEFAULT: int := 1
  const NOT_DEFAULT: int := 0

  datatype Warehouse = Warehouse(
    name: Option<string>, manager: Option<string>, address: Option<string>,
    price: Option<Decimal>, truckage: Option<Decimal>, kind: Option<int>, status: Option<int>,
    remark: Option<string>, sort: Option<int>, isDefault: Option<int>, deleteFlag: int)

  datatype WarehouseRequest = WarehouseRequest(
    id: Option<int>, name: Option<string>, manager: Option<string>, address: Option<string>,
    price: Option<Decimal>, truckage: Option<Decimal>, kind: Option<int>, status: Option<int>,
    remark: Option<string>, sort: Option<int>, isDefault: Option<int>)

  /** `WarehouseVO`: the id and the columns the list reads copy. */
  datatype WarehouseView = WarehouseView(
    id: int, name: Option<string>, manager: Option<string>, address: Option<string>,
    price: Option<Decimal>, truckage: Option<Decimal>, kind: Option<int>, status: Option<int>,
    remark: Option<string>, sort: Option<int>, isDefault: Option<int>)

  function ViewOf(id: int, w: Warehouse): WarehouseView {
    WarehouseView(id, w.name, w.manager, w.address, w.price, w.truckage, w.kind, w.status, w.remark, w.sort, w.isDefault)
  }

  /** The views of the rows under `keys`, in that order. */
  function ViewsAt(ws: map<int, Warehouse>, keys: seq<int>): (v: seq<WarehouseView>)
    requires forall i :: 0 <= i < |keys| ==> keys[i] in ws
    ensures |v| == |keys| && forall i :: 0 <= i < |keys| ==> v[i].id == keys[i] && v[i] == ViewOf(keys[i], ws[keys[i]])
  {
    seq(|keys|, i requires 0 <= i < |keys| => ViewOf(keys[i], ws[keys[i]]))
  }

  /** The rows `list()` reads: it has no filter, so every stored row,
      flagged deleted or not, is copied into a view, in key order. */
  function Views(ws: map<int, Warehouse>): (v: seq<WarehouseView>)
    ensures |v| == |ws|
    ensures forall i, j :: 0 <= i < j < |v| ==> v[i].id < v[j].id
    ensures forall i :: 0 <= i < |v| ==> v[i].id in ws && v[i] == ViewOf(v[i].id, ws[v[i].id])
    ensures forall k :: k in ws ==> exists i :: 0 <= i < |v| && v[i].id == k
  {
    var keys := AscendingKeys(ws.Keys);
    ViewsAtCover(ws, keys);
    ViewsAtOrdered(ws, keys);
    ViewsAt(ws, keys)
  }

  /** Keys listed in ascending order give views in ascending id order. */
  lemma ViewsAtOrdered(ws: map<int, Warehouse>, keys: seq<int>)
    requires forall i :: 0 <= i < |keys| ==> keys[i] in ws
    requires StrictlyIncreasing(keys)
    ensures forall i, j :: 0 <= i < j < |ViewsAt(ws, keys)| ==> ViewsAt(ws, keys)[i].id < ViewsAt(ws, keys)[j].id
  {
  }

  /** Every key listed has its view. */
  lemma ViewsAtCover(ws: map<int, Warehouse>, keys: seq<int>)
    requires forall i :: 0 <= i < |keys| ==> keys[i] in ws
    requires forall k :: k in ws ==> k in keys
    ensures forall k :: k in ws ==> exists i :: 0 <= i < |ViewsAt(ws, keys)| && ViewsAt(ws, keys)[i].id == k
  {
    var views := ViewsAt(ws, keys);
    forall k | k in ws
      ensures exists i :: 0 <= i < |views| && views[i].id == k
    {
      var i :| 0 <= i < |keys| && keys[i] == k;
      assert views[i].id == k;
    }
  }

  /** A lookup that answers `new Warehouse()` instead of null. */
  datatype Lookup = EmptyWarehouse | Found(id: int, row: Warehouse)

  predicate IsLiveDefault(w: Warehouse) {
    w.isDefault == Some(IS_DEFAULT) && w.deleteFlag == NOT_DELETED
  }

  /** The rows `eq(isDefault, IS_DEFAULT).eq(deleteFlag, NOT_DELETED)` matches. */
  function LiveDefaults(ws: map<int, Warehouse>): set<int> {
    set k | k in ws && IsLiveDefault(ws[k])
  }

  ghost predicate AtMostOneDefault(ws: map<int, Warehouse>) {
    forall a, b :: a in LiveDefaults(ws) && b in LiveDefaults(ws) ==> a == b
  }

  /** Every live default marked `NOT_DEFAULT`. */
  function Cleared(ws: map<int, Warehouse>): map<int, Warehouse> {
    map k | k in ws :: if IsLiveDefault(ws[k]) then ws[k].(isDefault := Some(NOT_DEFAULT)) else ws[k]
  }

  /** `updateDefaultAccount(id)` after its `one()` found at most one
      default: that default is cleared and warehouse `id`, when it exists,
      marked default. */
  function DefaultMoved(ws: map<int, Warehouse>, id: int): map<int, Warehouse> {
    var cleared := Cleared(ws);
    if id in cleared then cleared[id := cleared[id].(isDefault := Some(IS_DEFAULT))] else cleared
  }

  /** Moving the default keeps every warehouse and leaves the target, when
      it is live, the one live default. */
  lemma DefaultMovedIsTheOnlyDefault(ws: map<int, Warehouse>, id: int)
    ensures DefaultMoved(ws, id).Keys == ws.Keys
    ensures LiveDefaults(DefaultMoved(ws, id)) <= {id}
    ensures id in ws && ws[id].deleteFlag == NOT_DELETED ==> LiveDefaults(DefaultMoved(ws, id)) == {id}
  {
    var moved := DefaultMoved(ws, id);
    assert Cleared(ws).Keys == ws.Keys;
    forall k | k in LiveDefaults(moved)
      ensures k == id
    {
    }
    if id in ws && ws[id].deleteFlag == NOT_DELETED {
      assert IsLiveDefault(moved[id]);
    }
  }

  /** The row a request describes: null price and truckage become zero. */
  function Built(req: WarehouseRequest): Warehouse {
    Warehouse(req.name, req.manager, req.address, Some(req.price.GetOr(ZERO)), Some(req.truckage.GetOr(ZERO)),
      req.kind, req.status, req.remark, req.sort, req.isDefault, NOT_DELETED)
  }

  /** `saveOrUpdate(entity)`: the non-null columns overwrite the stored row,
      or the row is inserted. */
  function Saved(ws: map<int, Warehouse>, id: int, w: Warehouse): Warehouse {
    if id !in ws then w
    else
      var s := ws[id];
      Warehouse(
        if w.name.Some? then w.name else s.name,
        if w.manager.Some? then w.manager else s.manager,
        if w.address.Some? then w.address else s.address,
        w.price, w.truckage,
        if w.kind.Some? then w.kind else s.kind,
        if w.status.Some? then w.status else s.status,
        if w.remark.Some? then w.remark else s.remark,
        if w.sort.Some? then w.sort else s.sort,
        if w.isDefault.Some? then w.isDefault else s.isDefault,
        s.deleteFlag)
  }

  function WarehouseId(req: WarehouseRequest, freshId: int): int {
    if req.id.Some? then req.id.value else freshId
  }

  /** The table after `addOrUpdateWarehouse`: the default moves first when
      the request asks to be the default (`one()` throws on several
      defaults), then the row is saved. */
  function AfterSave(ws: map<int, Warehouse>, req: WarehouseRequest, freshId: int): Result<map<int, Warehouse>> {
    var id := WarehouseId(req, freshId);
    if req.isDefault == Some(IS_DEFAULT) && |LiveDefaults(ws)| > 1 then Throws
    else
      var moved := if req.isDefault == Some(IS_DEFAULT) then DefaultMoved(ws, id) else ws;
      Ok(moved[id := Saved(moved, id, Built(req))])
  }

  /** A save never makes a second live default. */
  lemma SaveKeepsAtMostOneDefault(ws: map<int, Warehouse>, req: WarehouseRequest, freshId: int)
    requires AtMostOneDefault(ws)
    ensures AfterSave(ws, req, freshId).Ok?
    ensures AtMostOneDefault(AfterSave(ws, req, freshId).value)
  {
    var id := WarehouseId(req, freshId);
    AtMostOneElement(LiveDefaults(ws));
    var moved := if req.isDefault == Some(IS_DEFAULT) then DefaultMoved(ws, id) else ws;
    if req.isDefault == Some(IS_DEFAULT) {
      DefaultMovedIsTheOnlyDefault(ws, id);
    }
    var after := moved[id := Saved(moved, id, Built(req))];
    assert LiveDefaults(after) <= LiveDefaults(moved) + {id};
    if req.isDefault != Some(IS_DEFAULT) && id in LiveDefaults(after) {
      // The saved row keeps its stored flags, so it was the default before.
      assert id in LiveDefaults(ws);
    }
    assert LiveDefaults(after) <= LiveDefaults(moved) + {id};
    AtMostOneElement(LiveDefaults(moved));
    forall a, b | a in LiveDefaults(after) && b in LiveDefaults(after)
      ensures a == b
    {
      if a != id {
        assert a in LiveDefaults(moved);
      }
      if b != id {
        assert b in LiveDefaults(moved);
      }
    }
  }

  /** A request to be the default leaves the saved warehouse, when live,
      the one live default. */
  lemma SaveAsDefaultIsTheDefault(ws: map<int, Warehouse>, req: WarehouseRequest, freshId: int)
    requires req.isDefault == Some(IS_DEFAULT) && AfterSave(ws, req, freshId).Ok?
    ensures var after := AfterSave(ws, req, freshId).value; var id := WarehouseId(req, freshId);
      after[id].deleteFlag == NOT_DELETED ==> LiveDefaults(after) == {id}
  {
    var id := WarehouseId(req, freshId);
    DefaultMovedIsTheOnlyDefault(ws, id);
  }

  /** Deleting warehouses or changing their status never adds a default. */
  lemma DeleteAndStatusKeepDefaults(ws: map<int, Warehouse>, ids: set<int>, status: Option<int>)
    ensures LiveDefaults(ws - ids) == LiveDefaults(ws) - ids
    ensures LiveDefaults(map k | k in ws :: if k in ids then ws[k].(status := status) else ws[k]) == LiveDefaults(ws)
  {
    var restatused := map k | k in ws :: if k in ids then ws[k].(status := status) else ws[k];
    forall k | k in ws
      ensures k in LiveDefaults(restatused) <==> k in LiveDefaults(ws)
    {
      assert restatused[k].isDefault == ws[k].isDefault && restatused[k].deleteFlag == ws[k].deleteFlag;
    }
  }

  function SaveEnum(lang: Lang, isAdd: bool): CodeEnum {
    var name := if isAdd then "ADD_WAREHOUSE_SUCCESS" else "UPDATE_WAREHOUSE_INFO_SUCCESS";
    Localized(lang, CodeEnum(name), CodeEnum(name + "_EN"))
  }

  /** `getWarehouseByName`: a null or empty name, or no live warehouse of
      that name, gives an empty warehouse; several throw (`one()`). */
  function WarehouseByName(ws: map<int, Warehouse>, name: Option<string>): (r: Result<Lookup>)
    ensures r.Ok? && r.value.Found? ==>
      (r.value.id in ws && ws[r.value.id] == r.value.row &&
       name.Some? && r.value.row.name == name && r.value.row.deleteFlag == NOT_DELETED)
    ensures r.Ok? && r.value.EmptyWarehouse? && name.Some? && |name.value| > 0 ==>
      forall k :: k in ws && ws[k].deleteFlag == NOT_DELETED ==> ws[k].name != name
    ensures r.Throws? ==> name.Some? && |name.value| > 0
  {
    if name.None? || |name.value| == 0 then Ok(EmptyWarehouse)
    else
      var hits := set k | k in ws && ws[k].name == name && ws[k].deleteFlag == NOT_DELETED;
      assert forall k :: k in ws && ws[k].name == name && ws[k].deleteFlag == NOT_DELETED ==> k in hits;
      if |hits| == 0 then Ok(EmptyWarehouse)
      else if |hits| > 1 then Throws
      else
        var k := AscendingKeys(hits)[0];
        Ok(Found(k, ws[k]))
  }

  class WarehouseService {
    var warehouses: map<int, Warehouse>

    constructor(warehouses: map<int, Warehouse>)
      ensures this.warehouses == warehouses
    {
      this.warehouses := warehouses;
    }

    /** `updateDefaultAccount(id)`; `thrown` when `one()` found several
        defaults, and then nothing changed. */
    method UpdateDefaultAccount(id: int) returns (thrown: bool)
      modifies this
      ensures thrown <==> |LiveDefaults(old(warehouses))| > 1
      ensures thrown ==> warehouses == old(warehouses)
      ensures !thrown ==> warehouses == DefaultMoved(old(warehouses), id)
    {
      var defaults := LiveDefaults(warehouses);
      if |defaults| > 1 {
        return true;
      }
      ghost var ws0 := warehouses;
      if |defaults| == 1 {
        var d := AscendingKeys(defaults)[0];
        AtMostOneElement(defaults);
        warehouses := warehouses[d := warehouses[d].(isDefault := Some(NOT_DEFAULT))];
        assert forall k :: k in ws0 && IsLiveDefault(ws0[k]) ==> k in defaults;
        assert warehouses == Cleared(ws0);
      } else {
        assert forall k :: k in ws0 && IsLiveDefault(ws0[k]) ==> k in defaults;
        assert warehouses == Cleared(ws0);
      }
      if id in warehouses {
        warehouses := warehouses[id := warehouses[id].(isDefault := Some(IS_DEFAULT))];
      }
      thrown := false;
    }

    /** `addOrUpdateWarehouse`: a null request fails; an exception rolls the
        transaction back. */
    method AddOrUpdateWarehouse(req: Option<WarehouseRequest>, freshId: int, lang: Lang) returns (r: Result<Response<string>>)
      modifies this
      ensures req.None? ==> r == Ok(Fail()) && warehouses == old(warehouses)
      ensures req.Some? ==> var after := AfterSave(old(warehouses), req.value, freshId);
        (after.Throws? ==> r.Throws? && warehouses == old(warehouses)) &&
        (after.Ok? ==> warehouses == after.value && r == Ok(ResponseMsg(SaveEnum(lang, req.value.id.None?))))
    {
      if req.None? {
        r := Ok(Fail());
        return;
      }
      var q := req.value;
      var id := WarehouseId(q, freshId);
      var w := Built(q);
      if w.isDefault == Some(IS_DEFAULT) {
        var thrown := UpdateDefaultAccount(id);
        if thrown {
          r := Throws;
          return;
        }
      }
      warehouses := warehouses[id := Saved(warehouses, id, w)];
      r := Ok(ResponseMsg(SaveEnum(lang, q.id.None?)));
    }

    /** `deleteBatch`: a null or empty list is refused; otherwise the rows
        are removed, and removing none is an error. */
    method DeleteBatch(ids: Option<seq<int>>, lang: Lang) returns (r: Response<string>)
      modifies this
      ensures ids.None? || |ids.value| == 0 ==> r == ResponseMsg(PARAMETER_NULL) && warehouses == old(warehouses)
      ensures ids.Some? && |ids.value| > 0 ==>
        warehouses == old(warehouses) - IdSet(ids.value) &&
        var name := if AnyKeyIn(old(warehouses), IdSet(ids.value)) then "DELETE_WAREHOUSE_SUCCESS" else "DELETE_WAREHOUSE_ERROR";
        r == ResponseMsg(Localized(lang, CodeEnum(name), CodeEnum(name + "_EN")))
    {
      if ids.None? || |ids.value| == 0 {
        r := ResponseMsg(PARAMETER_NULL);
        return;
      }
      var idSet := IdSet(ids.value);
      var removed := AnyKeyIn(warehouses, idSet);
      warehouses := warehouses - idSet;
      var name := if removed then "DELETE_WAREHOUSE_SUCCESS" else "DELETE_WAREHOUSE_ERROR";
      r := ResponseMsg(Localized(lang, CodeEnum(name), CodeEnum(name + "_EN")));
    }

    /** `updateBatchStatus`: a null or empty list or a null status is
        refused; otherwise the listed rows take the status. */
    method UpdateBatchStatus(ids: Option<seq<int>>, status: Option<int>, lang: Lang) returns (r: Response<string>)
      modifies this
      ensures ids.None? || |ids.value| == 0 || status.None? ==> r == ResponseMsg(PARAMETER_NULL) && warehouses == old(warehouses)
      ensures ids.Some? && |ids.value| > 0 && status.Some? ==>
        warehouses == (map k | k in old(warehouses) :: if k in ids.value then old(warehouses)[k].(status := status) else old(warehouses)[k]) &&
        var name := if AnyKeyIn(old(warehouses), IdSet(ids.value)) then "UPDATE_WAREHOUSE_STATUS_SUCCESS" else "UPDATE_WAREHOUSE_STATUS_ERROR";
        r == ResponseMsg(Localized(lang, CodeEnum(name), CodeEnum(name + "_EN")))
    {
      if ids.None? || |ids.value| == 0 || status.None? {
        r := ResponseMsg(PARAMETER_NULL);
        return;
      }
      var idSet := IdSet(ids.value);
      var updated := AnyKeyIn(warehouses, idSet);
      warehouses := map k | k in warehouses :: if k in ids.value then warehouses[k].(status := status) else warehouses[k];
      var name := if updated then "UPDATE_WAREHOUSE_STATUS_SUCCESS" else "UPDATE_WAREHOUSE_STATUS_ERROR";
      r := ResponseMsg(Localized(lang, CodeEnum(name), CodeEnum(name + "_EN")));
    }

    /** `getWarehouse` and `getWarehouseList`: every stored row as a view,
        with the SUCCESS code. */
    function WarehouseList(): (r: Response<seq<WarehouseView>>)
      reads this
      ensures r.code == Some(CodeOf(SUCCESS)) && r.msg == None && r.data == Some(Views(warehouses))
    {
      ResponseData(Views(warehouses))
    }

    /** `getDefaultWarehouse`: the live default, `QUERY_DATA_EMPTY` when
        there is none; several throw (`one()`). */
    function DefaultWarehouse(): (r: Result<Response<Warehouse>>)
      reads this
      ensures r.Ok? && r.value.data.Some? ==> IsLiveDefault(r.value.data.value) && r.value.data.value in warehouses.Values
      ensures r.Ok? && r.value.data.None? <==> LiveDefaults(warehouses) == {}
      ensures r.Throws? <==> |LiveDefaults(warehouses)| > 1
    {
      var defaults := LiveDefaults(warehouses);
      if |defaults| == 0 then Ok(ResponseMsg(QUERY_DATA_EMPTY))
      else if |defaults| > 1 then Throws
      else
        var k := AscendingKeys(defaults)[0];
        Ok(ResponseData(warehouses[k]))
    }
  }
}
