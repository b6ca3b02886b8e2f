/** `SysRoleServiceImpl`: roles, and the menu permissions of a role, which
    are stored as one string of bracketed menu ids such as `"[1][2][3]"`. */
module Roles {
  import opened Wrappers
  import opened Responses
  import opened Text
  import opened JavaInts
  import opened Tables

  /** The platform administrator's role id, which `roleList` never shows. */
  const PLATFORM_ADMIN: int := 0

  datatype Role = Role(
    name: Option<string>, kind: Option<string>, priceLimit: Option<int>,
    status: Option<int>, description: Option<string>, deleteFlag: int)

  datatype RoleRequest = RoleRequest(
    id: Option<int>, name: Option<string>, kind: Option<string>, priceLimit: Option<int>,
    status: Option<int>, description: Option<string>)

  /** A `sys_role_menu_rel` row: the menu-id string granted to a role. */
  datatype RoleMenuRel = RoleMenuRel(roleId: int, menuId: string)

  /** A role as `RoleVO` shows it. */
  datatype RoleView = RoleView(id: int, role: Role, menuIds: seq<int>)

  // ---------------------------------------------------------------------
  // The menu-id string
  // ---------------------------------------------------------------------

  function Bracketed(id: int): (s: string)
    ensures |s| >= 3 && s[0] == '[' && s[|s| - 1] == ']'
  {
    "[" + IntToString(id) + "]"
  }

  /** `menuIds.stream().map(id -> "[" + id + "]").collect(joining(""))`. */
  function MenuIdString(ids: seq<int>): (s: string)
    ensures s == "" <==> ids == []
    ensures s != "" ==> s[|s| - 1] == ']'
    decreases |ids|
  {
    if ids == [] then "" else Bracketed(ids[0]) + MenuIdString(ids[1..])
  }

  /** Two results appended; an exception in either propagates. */
  function Then(a: Result<seq<int>>, b: Result<seq<int>>): (r: Result<seq<int>>)
    ensures r.Ok? <==> a.Ok? && b.Ok?
    ensures r.Ok? ==> r.value == a.value + b.value
  {
    if a.Ok? && b.Ok? then Ok(a.value + b.value) else Throws
  }

  /** `Integer.parseInt` of each digit run; a run beyond `int` throws. */
  function ParseRuns(runs: seq<string>): (r: Result<seq<int>>)
    ensures r.Ok? ==> |r.value| == |runs|
    decreases |runs|
  {
    if runs == [] then Ok([])
    else
      var head := ParseInt(runs[0]);
      var tail := ParseRuns(runs[1..]);
      if head.Some? && tail.Ok? then Ok([head.value] + tail.value) else Throws
  }

  lemma {:induction false} ParseRunsAppend(a: seq<string>, b: seq<string>)
    ensures ParseRuns(a + b) == Then(ParseRuns(a), ParseRuns(b))
    decreases |a|
  {
    if a == [] {
      assert a + b == b;
      if ParseRuns(b).Ok? {
        assert [] + ParseRuns(b).value == ParseRuns(b).value;
      }
    } else {
      assert (a + b)[0] == a[0];
      assert (a + b)[1..] == a[1..] + b;
      ParseRunsAppend(a[1..], b);
      var head := ParseInt(a[0]);
      var tail := ParseRuns(a[1..]);
      if head.Some? && tail.Ok? && ParseRuns(b).Ok? {
        assert ParseRuns(a) == Ok([head.value] + tail.value);
        assert ParseRuns(a + b) == Ok([head.value] + (tail.value + ParseRuns(b).value));
        assert [head.value] + (tail.value + ParseRuns(b).value) == ([head.value] + tail.value) + ParseRuns(b).value;
      }
    }
  }

  /** The menu ids a relation string grants, as `rolePageList` reads them:
      every maximal run of digits, parsed as an `int`. */
  function MenuIdsOf(s: string): Result<seq<int>> {
    ParseRuns(DigitRuns(s))
  }

  /** The results of several strings appended in order; the first
      exception propagates. */
  function Concat(parts: seq<Result<seq<int>>>): Result<seq<int>>
    decreases |parts|
  {
    if parts == [] then Ok([]) else Then(parts[0], Concat(parts[1..]))
  }

  lemma {:induction false} ConcatAppend(a: seq<Result<seq<int>>>, p: Result<seq<int>>)
    ensures Concat(a + [p]) == Then(Concat(a), p)
    decreases |a|
  {
    if a == [] {
      assert a + [p] == [p];
      assert [p][1..] == [];
      if p.Ok? {
        assert p.value + [] == [] + p.value;
      }
    } else {
      assert (a + [p])[0] == a[0];
      assert (a + [p])[1..] == a[1..] + [p];
      ConcatAppend(a[1..], p);
      var head := a[0];
      var tail := Concat(a[1..]);
      if head.Ok? && tail.Ok? && p.Ok? {
        assert head.value + (tail.value + p.value) == (head.value + tail.value) + p.value;
      }
    }
  }

  /** Once a prefix throws, so does the whole list. */
  lemma {:induction false} ConcatRest(parts: seq<Result<seq<int>>>, i: nat)
    requires i <= |parts| && Concat(parts[..i]).Throws?
    ensures Concat(parts).Throws?
    decreases |parts| - i
  {
    if i < |parts| {
      ConcatAppend(parts[..i], parts[i]);
      assert parts[..i + 1] == parts[..i] + [parts[i]];
      ConcatRest(parts, i + 1);
    } else {
      assert parts[..i] == parts;
    }
  }

  /** One more part read. */
  lemma ConcatStep(parts: seq<Result<seq<int>>>, i: nat)
    requires i < |parts|
    ensures Concat(parts[..i + 1]) == Then(Concat(parts[..i]), parts[i])
    ensures Concat(parts[..i]).Ok? && parts[i].Throws? ==> Concat(parts).Throws?
  {
    ConcatAppend(parts[..i], parts[i]);
    assert parts[..i + 1] == parts[..i] + [parts[i]];
    if Concat(parts[..i + 1]).Throws? {
      ConcatRest(parts, i + 1);
    }
  }

  lemma ConcatSingle(p: Result<seq<int>>)
    ensures Concat([p]) == p
  {
    assert [p][1..] == [];
    if p.Ok? {
      assert p.value + [] == p.value;
    }
  }

  /** What the matcher reads from each string. */
  function Parts(strs: seq<string>): (r: seq<Result<seq<int>>>)
    ensures |r| == |strs| && forall i :: 0 <= i < |strs| ==> r[i] == MenuIdsOf(strs[i])
  {
    seq(|strs|, i requires 0 <= i < |strs| => MenuIdsOf(strs[i]))
  }

  /** The menu ids of all of a role's relation strings, in order. */
  function MenuIdsOfAll(strs: seq<string>): Result<seq<int>> {
    Concat(Parts(strs))
  }

  /** A digit string followed by a non-digit is one whole run. */
  lemma {:induction false} DigitPrefixOfDigits(d: string, t: string)
    requires AllDigits(d) && |t| > 0 && !IsDigit(t[0])
    ensures DigitPrefixLength(d + t) == |d|
    decreases |d|
  {
    if d == [] {
      assert d + t == t;
    } else {
      assert (d + t)[0] == d[0];
      assert (d + t)[1..] == d[1..] + t;
      DigitPrefixOfDigits(d[1..], t);
    }
  }

  /** The runs of a one-element list parse to the one value, or throw. */
  lemma ParseOneRun(x: string)
    ensures ParseRuns([x]) == if ParseInt(x).Some? then Ok([ParseInt(x).value]) else Throws
  {
    assert [x][0] == x && [x][1..] == [];
    if ParseInt(x).Some? {
      assert [ParseInt(x).value] + [] == [ParseInt(x).value];
    }
  }

  lemma DigitRunsOfBracketed(id: int)
    requires id >= 0
    ensures DigitRuns(Bracketed(id)) == [IntToString(id)]
  {
    var d := IntToString(id);
    var x := d + "]";
    assert Bracketed(id)[1..] == x;
    DigitPrefixOfDigits(d, "]");
    assert x[..|d|] == d;
    assert x[|d|..] == "]";
    assert DigitRuns("]") == [];
  }

  /** Decoding a permission string gives back exactly the ids it was
      written from, for ids that are non-negative `int`s. */
  lemma {:induction false} DecodeEncode(ids: seq<int>)
    requires forall k :: 0 <= k < |ids| ==> 0 <= ids[k] <= INT_MAX
    ensures MenuIdsOf(MenuIdString(ids)) == Ok(ids)
    decreases |ids|
  {
    if ids != [] {
      var head := Bracketed(ids[0]);
      var rest := MenuIdString(ids[1..]);
      DigitRunsAppend(head, rest);
      DigitRunsOfBracketed(ids[0]);
      ParseRunsAppend([IntToString(ids[0])], DigitRuns(rest));
      ParseOfIntToString(ids[0], INT_MIN, INT_MAX);
      ParseOneRun(IntToString(ids[0]));
      DecodeEncode(ids[1..]);
      assert [ids[0]] + ids[1..] == ids;
    }
  }

  // ---------------------------------------------------------------------
  // Roles and their relations as tables
  // ---------------------------------------------------------------------

  /** The menu strings of a role's relation rows listed in `keys`. */
  function StringsOf(rels: map<int, RoleMenuRel>, keys: seq<int>, roleId: int): (r: seq<string>)
    requires forall k :: 0 <= k < |keys| ==> keys[k] in rels
    ensures |r| <= |keys|
    decreases |keys|
  {
    if keys == [] then []
    else (if rels[keys[0]].roleId == roleId then [rels[keys[0]].menuId] else []) + StringsOf(rels, keys[1..], roleId)
  }

  /** `selectList(eq(roleId, ...))`: a role's relation strings in key order. */
  function RelStrings(rels: map<int, RoleMenuRel>, roleId: int): seq<string> {
    StringsOf(rels, AscendingKeys(rels.Keys), roleId)
  }

  lemma {:induction false} StringsOfSingle(rels: map<int, RoleMenuRel>, keys: seq<int>, roleId: int, only: int)
    requires forall k :: 0 <= k < |keys| ==> keys[k] in rels
    requires Distinct(keys) && only in keys
    requires forall k :: 0 <= k < |keys| && keys[k] != only ==> rels[keys[k]].roleId != roleId
    requires rels[only].roleId == roleId
    ensures StringsOf(rels, keys, roleId) == [rels[only].menuId]
    decreases |keys|
  {
    if keys[0] == only {
      StringsOfNone(rels, keys[1..], roleId);
    } else {
      assert only in keys[1..];
      StringsOfSingle(rels, keys[1..], roleId, only);
    }
  }

  lemma {:induction false} StringsOfNone(rels: map<int, RoleMenuRel>, keys: seq<int>, roleId: int)
    requires forall k :: 0 <= k < |keys| ==> keys[k] in rels && rels[keys[k]].roleId != roleId
    ensures StringsOf(rels, keys, roleId) == []
    decreases |keys|
  {
    if keys != [] {
      StringsOfNone(rels, keys[1..], roleId);
    }
  }

  /** The relation rows after `rolePermission`: the role's old rows are
      removed and one row holding the new string is inserted. */
  function Regranted(rels: map<int, RoleMenuRel>, roleId: int, ids: seq<int>, freshRelId: int): map<int, RoleMenuRel> {
    (map k | k in rels && rels[k].roleId != roleId :: rels[k])[freshRelId := RoleMenuRel(roleId, MenuIdString(ids))]
  }

  /** After `rolePermission` the fresh row is the role's only row. */
  lemma RegrantedRows(rels: map<int, RoleMenuRel>, roleId: int, ids: seq<int>, freshRelId: int)
    ensures var after := Regranted(rels, roleId, ids, freshRelId);
      freshRelId in after && after[freshRelId] == RoleMenuRel(roleId, MenuIdString(ids)) &&
      forall k :: k in after && k != freshRelId ==> after[k].roleId != roleId
    ensures forall k :: k in rels && rels[k].roleId != roleId && k != freshRelId ==>
      k in Regranted(rels, roleId, ids, freshRelId) && Regranted(rels, roleId, ids, freshRelId)[k] == rels[k]
  {
  }

  /** After granting `ids`, reading the role's menus gives back `ids`. */
  lemma PermissionThenDecode(rels: map<int, RoleMenuRel>, roleId: int, ids: seq<int>, freshRelId: int)
    requires forall k :: 0 <= k < |ids| ==> 0 <= ids[k] <= INT_MAX
    ensures MenuIdsOfAll(RelStrings(Regranted(rels, roleId, ids, freshRelId), roleId)) == Ok(ids)
  {
    RegrantedStrings(rels, roleId, ids, freshRelId);
    var s := MenuIdString(ids);
    DecodeEncode(ids);
    assert Parts([s]) == [MenuIdsOf(s)];
    ConcatSingle(MenuIdsOf(s));
  }

  /** After `rolePermission` the role has the one fresh string. */
  lemma RegrantedStrings(rels: map<int, RoleMenuRel>, roleId: int, ids: seq<int>, freshRelId: int)
    ensures RelStrings(Regranted(rels, roleId, ids, freshRelId), roleId) == [MenuIdString(ids)]
  {
    var after := Regranted(rels, roleId, ids, freshRelId);
    RegrantedRows(rels, roleId, ids, freshRelId);
    var keys := AscendingKeys(after.Keys);
    assert Distinct(keys);
    StringsOfSingle(after, keys, roleId, freshRelId);
  }

  /** `roleList`: a live role other than the platform administrator. */
  predicate Listed(id: int, r: Role) {
    r.deleteFlag == NOT_DELETED && id != PLATFORM_ADMIN
  }

  /** The ids of a list of views, in order. */
  function IdsOf(vs: seq<RoleView>): (r: seq<int>)
    ensures |r| == |vs| && forall i :: 0 <= i < |vs| ==> r[i] == vs[i].id
  {
    seq(|vs|, i requires 0 <= i < |vs| => vs[i].id)
  }

  /** The views `roleList` builds from the rows at `keys`, in order. */
  function ListedViews(roles: map<int, Role>, keys: seq<int>): (r: seq<RoleView>)
    requires forall i :: 0 <= i < |keys| ==> keys[i] in roles
    decreases |keys|
  {
    if keys == [] then []
    else
      var k := keys[|keys| - 1];
      ListedViews(roles, keys[..|keys| - 1]) + (if Listed(k, roles[k]) then [RoleView(k, roles[k], [])] else [])
  }

  lemma ListedViewsStep(roles: map<int, Role>, keys: seq<int>, i: nat)
    requires i < |keys| && forall j :: 0 <= j < |keys| ==> keys[j] in roles
    ensures ListedViews(roles, keys[..i + 1]) ==
      ListedViews(roles, keys[..i]) + (if Listed(keys[i], roles[keys[i]]) then [RoleView(keys[i], roles[keys[i]], [])] else [])
  {
    assert keys[..i + 1][..i] == keys[..i];
  }

  /** `roleList` shows exactly the listed roles among `keys`. */
  lemma {:induction false} ListedViewsIds(roles: map<int, Role>, keys: seq<int>)
    requires forall i :: 0 <= i < |keys| ==> keys[i] in roles
    ensures forall k :: k in IdsOf(ListedViews(roles, keys)) <==> k in keys && Listed(k, roles[k])
    decreases |keys|
  {
    if keys != [] {
      var init := keys[..|keys| - 1];
      var k := keys[|keys| - 1];
      ListedViewsIds(roles, init);
      var r0 := ListedViews(roles, init);
      var r := ListedViews(roles, keys);
      assert forall x :: x in keys <==> x in init || x == k;
      if Listed(k, roles[k]) {
        assert IdsOf(r) == IdsOf(r0) + [k];
      } else {
        assert r == r0;
      }
    }
  }

  /** Each view of `roleList` is the stored row, without menu ids. */
  lemma {:induction false} ListedViewsRows(roles: map<int, Role>, keys: seq<int>)
    requires forall i :: 0 <= i < |keys| ==> keys[i] in roles
    ensures forall v :: v in ListedViews(roles, keys) ==> v.id in roles && v == RoleView(v.id, roles[v.id], [])
    decreases |keys|
  {
    if keys != [] {
      var init := keys[..|keys| - 1];
      var k := keys[|keys| - 1];
      assert k in roles;
      ListedViewsRows(roles, init);
      var r0 := ListedViews(roles, init);
      var r := ListedViews(roles, keys);
      if Listed(k, roles[k]) {
        assert r == r0 + [RoleView(k, roles[k], [])];
      } else {
        assert r == r0;
      }
    }
  }

  /** `roleList` keeps the key order. */
  lemma {:induction false} ListedViewsOrdered(roles: map<int, Role>, keys: seq<int>)
    requires forall i :: 0 <= i < |keys| ==> keys[i] in roles
    requires StrictlyIncreasing(keys)
    ensures StrictlyIncreasing(IdsOf(ListedViews(roles, keys)))
    decreases |keys|
  {
    if keys != [] {
      var init := keys[..|keys| - 1];
      var k := keys[|keys| - 1];
      ListedViewsOrdered(roles, init);
      ListedViewsIds(roles, init);
      var r0 := ListedViews(roles, init);
      var r := ListedViews(roles, keys);
      assert forall i :: 0 <= i < |init| ==> init[i] < k;
      if Listed(k, roles[k]) {
        assert IdsOf(r) == IdsOf(r0) + [k];
        assert forall i :: 0 <= i < |r0| ==> IdsOf(r0)[i] in IdsOf(r0);
      } else {
        assert r == r0;
      }
    }
  }

  /** `roleList` shows exactly the live roles other than the platform
      administrator, each once and in key order, as stored. */
  lemma RoleListShows(roles: map<int, Role>)
    ensures var r := ListedViews(roles, AscendingKeys(roles.Keys));
      (forall k :: k in IdsOf(r) <==> k in roles && Listed(k, roles[k])) &&
      (forall v :: v in r ==> v.id in roles && v == RoleView(v.id, roles[v.id], [])) &&
      StrictlyIncreasing(IdsOf(r))
  {
    var keys := AscendingKeys(roles.Keys);
    ListedViewsIds(roles, keys);
    ListedViewsRows(roles, keys);
    ListedViewsOrdered(roles, keys);
  }

  /** The conditions `rolePageList` adds to its query. */
  predicate MatchesFilter(r: Role, name: Option<string>, status: Option<int>) {
    r.deleteFlag == NOT_DELETED && (name.Some? ==> r.name == name) && (status.Some? ==> r.status == status)
  }

  function RoleEnum(lang: Lang, stem: string, ok: bool): CodeEnum {
    var name := stem + (if ok then "_SUCCESS" else "_ERROR");
    Localized(lang, CodeEnum(name), CodeEnum(name + "_EN"))
  }

  /** One row of the role page with its decoded menu ids, or the matcher's
      failure. */
  function PageView(roles: map<int, Role>, rels: map<int, RoleMenuRel>, k: int): Result<RoleView>
    requires k in roles
  {
    match MenuIdsOfAll(RelStrings(rels, k))
    case Ok(ids) => Ok(RoleView(k, roles[k], ids))
    case Throws => Throws
  }

  /** The matcher loop over a role's relation strings. */
  method ReadMenuIds(strs: seq<string>) returns (r: Result<seq<int>>)
    ensures r == MenuIdsOfAll(strs)
  {
    ghost var parts := Parts(strs);
    var ids: seq<int> := [];
    var i := 0;
    while i < |strs|
      invariant 0 <= i <= |strs|
      invariant Concat(parts[..i]) == Ok(ids)
    {
      var found := MatchAll(strs[i]);
      ConcatStep(parts, i);
      if found.Throws? {
        return Throws;
      }
      ids := ids + found.value;
      i := i + 1;
    }
    assert parts[..i] == parts;
    r := Ok(ids);
  }

  /** The `roleList` loop over the selected rows. */
  method ListViews(roles: map<int, Role>, keys: seq<int>) returns (r: seq<RoleView>)
    requires forall i :: 0 <= i < |keys| ==> keys[i] in roles
    ensures r == ListedViews(roles, keys)
  {
    r := [];
    var i := 0;
    while i < |keys|
      invariant 0 <= i <= |keys|
      invariant r == ListedViews(roles, keys[..i])
    {
      var k := keys[i];
      ListedViewsStep(roles, keys, i);
      if Listed(k, roles[k]) {
        r := r + [RoleView(k, roles[k], [])];
      }
      i := i + 1;
    }
    assert keys[..i] == keys;
  }

  class RoleService {
    var roles: map<int, Role>
    var rels: map<int, RoleMenuRel>

    constructor(roles: map<int, Role>, rels: map<int, RoleMenuRel>)
      ensures this.roles == roles && this.rels == rels
    {
      this.roles := roles;
      this.rels := rels;
    }

    /** `roleList`: the live roles except the platform administrator, in
        key order. */
    method RoleList() returns (r: seq<RoleView>)
      ensures r == ListedViews(roles, AscendingKeys(roles.Keys))
    {
      r := ListViews(roles, AscendingKeys(roles.Keys));
    }

    /** The menu ids of a role: the digit runs of its relation rows, read
        with a matcher loop; a run beyond `int` throws. */
    method RoleMenuIds(roleId: int) returns (r: Result<seq<int>>)
      ensures r == MenuIdsOfAll(RelStrings(rels, roleId))
    {
      r := ReadMenuIds(RelStrings(rels, roleId));
    }

    /** One row of the page: the role with its menu ids. */
    method PageRow(k: int) returns (r: Result<RoleView>)
      requires k in roles
      ensures r == PageView(roles, rels, k)
    {
      var ids := RoleMenuIds(k);
      if ids.Throws? {
        return Throws;
      }
      r := Ok(RoleView(k, roles[k], ids.value));
    }

    /** `rolePageList` over the rows `selectPage` returned for the filter:
        an empty page is an empty result, not an error; otherwise every row
        carries its decoded menu ids, and one undecodable row fails all. */
    method RolePageList(name: Option<string>, status: Option<int>, page: seq<int>) returns (r: Result<seq<RoleView>>)
      requires forall i :: 0 <= i < |page| ==> page[i] in roles && MatchesFilter(roles[page[i]], name, status)
      ensures page == [] ==> r == Ok([])
      ensures r.Ok? <==> forall i :: 0 <= i < |page| ==> PageView(roles, rels, page[i]).Ok?
      ensures r.Ok? ==> |r.value| == |page| && forall i :: 0 <= i < |page| ==> Ok(r.value[i]) == PageView(roles, rels, page[i])
    {
      ghost var rs, rl := roles, rels;
      var views: seq<RoleView> := [];
      var i := 0;
      while i < |page|
        invariant 0 <= i <= |page|
        invariant |views| == i
        invariant forall j :: 0 <= j < i ==> Ok(views[j]) == PageView(rs, rl, page[j])
      {
        var row := PageRow(page[i]);
        if row.Throws? {
          return Throws;
        }
        views := views + [row.value];
        i := i + 1;
      }
      r := Ok(views);
    }

    /** `updateStatus`: a null or blank id or a null status is refused;
        otherwise the matching role takes the status. */
    method UpdateStatus(id: Option<string>, status: Option<int>, lang: Lang) returns (r: Response<string>)
      modifies this
      ensures rels == old(rels)
      ensures id.None? || IsBlank(id.value) || status.None? ==> r == ResponseMsg(PARAMETER_NULL) && roles == old(roles)
      ensures id.Some? && !IsBlank(id.value) && status.Some? ==>
        roles == (map k | k in old(roles) :: if IdMatches(k, id.value) then old(roles)[k].(status := status) else old(roles)[k]) &&
        r == ResponseMsg(RoleEnum(lang, "UPDATE_ROLE_STATUS", exists k :: k in old(roles) && IdMatches(k, id.value)))
    {
      if id.None? || IsBlank(id.value) || status.None? {
        return ResponseMsg(PARAMETER_NULL);
      }
      var matched := exists k :: k in roles && IdMatches(k, id.value);
      roles := map k | k in roles :: if IdMatches(k, id.value) then roles[k].(status := status) else roles[k];
      r := ResponseMsg(RoleEnum(lang, "UPDATE_ROLE_STATUS", matched));
    }

    /** `deleteRole`: a null or blank id is refused; otherwise the role is
        only flagged deleted. */
    method DeleteRole(id: Option<string>, lang: Lang) returns (r: Response<string>)
      modifies this
      ensures rels == old(rels) && roles.Keys == old(roles).Keys
      ensures id.None? || IsBlank(id.value) ==> r == ResponseMsg(PARAMETER_NULL) && roles == old(roles)
      ensures id.Some? && !IsBlank(id.value) ==>
        roles == (map k | k in old(roles) :: if IdMatches(k, id.value) then old(roles)[k].(deleteFlag := DELETED) else old(roles)[k]) &&
        r == ResponseMsg(RoleEnum(lang, "DELETE_ROLE", exists k :: k in old(roles) && IdMatches(k, id.value)))
    {
      if id.None? || IsBlank(id.value) {
        return ResponseMsg(PARAMETER_NULL);
      }
      var matched := exists k :: k in roles && IdMatches(k, id.value);
      roles := map k | k in roles :: if IdMatches(k, id.value) then roles[k].(deleteFlag := DELETED) else roles[k];
      r := ResponseMsg(RoleEnum(lang, "DELETE_ROLE", matched));
    }

    /** `addOrUpdateRole`: a null request is refused; without an id a role
        is inserted under a fresh id, with one every column is overwritten
        (null included). */
    method AddOrUpdateRole(req: Option<RoleRequest>, freshId: int, lang: Lang) returns (r: Response<string>)
      requires freshId !in roles
      modifies this
      ensures rels == old(rels)
      ensures req.None? ==> r == ResponseMsg(PARAMETER_NULL) && roles == old(roles)
      ensures req.Some? && req.value.id.None? ==>
        roles == old(roles)[freshId := Role(req.value.name, req.value.kind, req.value.priceLimit, req.value.status, req.value.description, NOT_DELETED)] &&
        r == ResponseMsg(RoleEnum(lang, "ADD_ROLE", true))
      ensures req.Some? && req.value.id.Some? ==> var id := req.value.id.value;
        (id in old(roles) ==> roles == old(roles)[id := Role(req.value.name, req.value.kind, req.value.priceLimit, req.value.status, req.value.description, old(roles)[id].deleteFlag)]) &&
        (id !in old(roles) ==> roles == old(roles)) &&
        r == ResponseMsg(RoleEnum(lang, "UPDATE_ROLE", id in old(roles)))
    {
      if req.None? {
        return ResponseMsg(PARAMETER_NULL);
      }
      var q := req.value;
      if q.id.None? {
        roles := roles[freshId := Role(q.name, q.kind, q.priceLimit, q.status, q.description, NOT_DELETED)];
        return ResponseMsg(RoleEnum(lang, "ADD_ROLE", true));
      }
      var id := q.id.value;
      var matched := id in roles;
      if matched {
        roles := roles[id := Role(q.name, q.kind, q.priceLimit, q.status, q.description, roles[id].deleteFlag)];
      }
      r := ResponseMsg(RoleEnum(lang, "UPDATE_ROLE", matched));
    }

    /** `rolePermission`: a null id or a null or empty menu list is
        refused; otherwise the role's relation rows are replaced by one
        holding the bracketed ids. */
    method RolePermission(roleId: Option<int>, menuIds: Option<seq<int>>, freshRelId: int, lang: Lang) returns (r: Response<string>)
      requires freshRelId !in rels
      modifies this
      ensures roles == old(roles)
      ensures roleId.None? || menuIds.None? || |menuIds.value| == 0 ==> r == ResponseMsg(PARAMETER_NULL) && rels == old(rels)
      ensures roleId.Some? && menuIds.Some? && |menuIds.value| > 0 ==>
        rels == Regranted(old(rels), roleId.value, menuIds.value, freshRelId) &&
        r == ResponseMsg(RoleEnum(lang, "ROLE_PERMISSION_MENU", true))
    {
      if roleId.None? || menuIds.None? || |menuIds.value| == 0 {
        return ResponseMsg(PARAMETER_NULL);
      }
      rels := map k | k in rels && rels[k].roleId != roleId.value :: rels[k];
      rels := rels[freshRelId := RoleMenuRel(roleId.value, MenuIdString(menuIds.value))];
      r := ResponseMsg(RoleEnum(lang, "ROLE_PERMISSION_MENU", true));
    }
  }

  /** `while (matcher.find()) menuList.add(Integer.parseInt(matcher.group()))`. */
  method MatchAll(s: string) returns (r: Result<seq<int>>)
    ensures r == MenuIdsOf(s)
  {
    var runs := DigitRuns(s);
    var found: seq<int> := [];
    var j := 0;
    while j < |runs|
      invariant 0 <= j <= |runs|
      invariant ParseRuns(runs[..j]) == Ok(found)
    {
      var n := ParseInt(runs[j]);
      ParseRunsAppend(runs[..j], [runs[j]]);
      assert runs[..j + 1] == runs[..j] + [runs[j]];
      ParseOneRun(runs[j]);
      if n.None? {
        ParseRunsAppend(runs[..j + 1], runs[j + 1..]);
        assert runs[..j + 1] + runs[j + 1..] == runs;
        return Throws;
      }
      found := found + [n.value];
      j := j + 1;
    }
    assert runs[..j] == runs;
    r := Ok(found);
  }
}
