/** `SysMenuServiceImpl`: menus, the administrator role's standing grant of
    every new menu, and the menu list a user's roles unlock. */
module Menus {
  import opened Wrappers
  import opened Responses
  import opened Text
  import opened JavaInts
  import opened Tables
  import opened Roles

  datatype Menu = Menu(
    name: Option<string>, title: Option<string>, icon: Option<string>, parentId: Option<int>,
    menuType: Option<int>, path: Option<string>, component: Option<string>, status: Option<int>,
    sort: Option<int>, hideMenu: Option<int>, ignoreKeepAlive: Option<int>, blank: Option<int>,
    deleteFlag: int)

  datatype MenuRequest = MenuRequest(
    id: Option<int>, name: Option<string>, title: Option<string>, icon: Option<string>,
    parentId: Option<int>, menuType: Option<int>, path: Option<string>, component: Option<string>,
    status: Option<int>, sort: Option<int>, hideMenu: Option<int>, ignoreKeepAlive: Option<int>,
    blank: Option<int>)

  /** A menu as `MenuVO` shows it. */
  datatype MenuView = MenuView(id: int, menu: Menu)

  /** The JSON object `menuList` returns: empty when the user has no role
      or the roles no relation row, otherwise `total` and `data`. */
  datatype MenuData = NoMenus | MenuData(total: int, data: seq<MenuView>)

  /** The row a request describes; `set(column, null)` writes null. */
  function Built(q: MenuRequest, deleteFlag: int): Menu {
    Menu(q.name, q.title, q.icon, q.parentId, q.menuType, q.path, q.component, q.status,
      q.sort, q.hideMenu, q.ignoreKeepAlive, q.blank, deleteFlag)
  }

  // ---------------------------------------------------------------------
  // The administrator's grant of a new menu
  // ---------------------------------------------------------------------

  /** The administrator's grant string as `addOrSaveMenu` reads it:
      `getById(0L)`, the relation row whose own key is 0, whatever role it
      belongs to; no row reads as nothing. */
  function AdminStringAsWritten(rels: map<int, RoleMenuRel>): string {
    if 0 in rels then rels[0].menuId else ""
  }

  /** The two readings agree when role 0's only relation row is the row
      keyed 0. */
  lemma AdminReadsAgree(rels: map<int, RoleMenuRel>)
    requires 0 in rels && rels[0].roleId == PLATFORM_ADMIN
    requires forall k :: k in rels && k != 0 ==> rels[k].roleId != PLATFORM_ADMIN
    ensures AdminStringAsWritten(rels) == AdminString(rels) == rels[0].menuId
  {
    var keys := AscendingKeys(rels.Keys);
    StringsOfSingle(rels, keys, PLATFORM_ADMIN, 0);
  }

  /** The administrator's grant string: the relation row of role 0 (the
      first in key order), or nothing. */
  function AdminString(rels: map<int, RoleMenuRel>): (s: string)
    ensures s != "" ==> exists k :: k in rels && rels[k].roleId == PLATFORM_ADMIN && rels[k].menuId == s
  {
    var strs := RelStrings(rels, PLATFORM_ADMIN);
    if strs == [] then "" else
      StringsOfMember(rels, AscendingKeys(rels.Keys), PLATFORM_ADMIN, 0);
      strs[0]
  }

  lemma {:induction false} StringsOfMember(rels: map<int, RoleMenuRel>, keys: seq<int>, roleId: int, i: nat)
    requires forall k :: 0 <= k < |keys| ==> keys[k] in rels
    requires i < |StringsOf(rels, keys, roleId)|
    ensures exists k :: k in rels && rels[k].roleId == roleId && rels[k].menuId == StringsOf(rels, keys, roleId)[i]
    decreases |keys|
  {
    var rest := StringsOf(rels, keys[1..], roleId);
    if rels[keys[0]].roleId == roleId {
      assert StringsOf(rels, keys, roleId) == [rels[keys[0]].menuId] + rest;
      if i == 0 {
        var k := keys[0];
        assert k in rels && rels[k].roleId == roleId && rels[k].menuId == StringsOf(rels, keys, roleId)[i];
      } else {
        StringsOfMember(rels, keys[1..], roleId, i - 1);
        assert StringsOf(rels, keys, roleId)[i] == rest[i - 1];
      }
    } else {
      assert StringsOf(rels, keys, roleId) == rest;
      StringsOfMember(rels, keys[1..], roleId, i);
    }
  }

  /** `set(menuId, s)` on every relation row of role 0. */
  function AdminRegranted(rels: map<int, RoleMenuRel>, s: string): map<int, RoleMenuRel> {
    map k | k in rels :: if rels[k].roleId == PLATFORM_ADMIN then rels[k].(menuId := s) else rels[k]
  }

  predicate HasAdminRow(rels: map<int, RoleMenuRel>) {
    exists k :: k in rels && rels[k].roleId == PLATFORM_ADMIN
  }

  /** A grant string that ends outside a digit run, as every string
      `rolePermission` writes does. */
  predicate WellEnded(s: string) {
    s == "" || !IsDigit(s[|s| - 1])
  }

  /** Appending a menu to a well-ended grant string adds exactly that id to
      the ids it decodes to. */
  lemma AppendGrantsOneMore(s: string, newId: int)
    requires WellEnded(s) && 0 <= newId <= INT_MAX
    ensures MenuIdsOf(s + Bracketed(newId)) == Then(MenuIdsOf(s), Ok([newId]))
    ensures WellEnded(s + Bracketed(newId))
  {
    DigitRunsAppend(s, Bracketed(newId));
    DigitRunsOfBracketed(newId);
    ParseRunsAppend(DigitRuns(s), [IntToString(newId)]);
    ParseOneRun(IntToString(newId));
    ParseOfIntToString(newId, INT_MIN, INT_MAX);
  }

  /** Every string `rolePermission` writes is well ended. */
  lemma MenuIdStringWellEnded(ids: seq<int>)
    ensures WellEnded(MenuIdString(ids))
  {
  }

  /** Read by the row's key, the administrator's old grant is lost as soon
      as its relation row has any other key (as after a `rolePermission`
      for role 0): adding menu 7 leaves the grant `"[7]"` instead of
      `"[1][7]"`. */
  lemma AdminGrantLostAsWritten()
    ensures var rels := map[5 := RoleMenuRel(PLATFORM_ADMIN, "[1]")];
      AdminStringAsWritten(rels) + Bracketed(7) == "[7]" &&
      AdminString(rels) + Bracketed(7) == "[1][7]"
  {
    var rels := map[5 := RoleMenuRel(PLATFORM_ADMIN, "[1]")];
    assert rels.Keys == {5};
    assert AscendingKeys({5}) == [5];
    assert RelStrings(rels, PLATFORM_ADMIN) == ["[1]"];
    assert IntToString(7) == "7";
  }

  // ---------------------------------------------------------------------
  // The menu list
  // ---------------------------------------------------------------------

  predicate NoRepeats(s: seq<string>) {
    forall i, j :: 0 <= i < j < |s| ==> s[i] != s[j]
  }

  /** The digit runs of all the strings, in order (the `flatMap`). */
  function AllRuns(strs: seq<string>): seq<string>
    decreases |strs|
  {
    if strs == [] then [] else DigitRuns(strs[0]) + AllRuns(strs[1..])
  }

  /** `Stream.distinct()`: the first occurrence of each element, in order. */
  function FirstOccurrences(xs: seq<string>): seq<string>
    decreases |xs|
  {
    if xs == [] then []
    else
      var d := FirstOccurrences(xs[..|xs| - 1]);
      if xs[|xs| - 1] in d then d else d + [xs[|xs| - 1]]
  }

  /** `distinct` keeps every element once and adds none. */
  lemma {:induction false} FirstOccurrencesSpec(xs: seq<string>)
    ensures NoRepeats(FirstOccurrences(xs))
    ensures forall x :: x in FirstOccurrences(xs) <==> x in xs
    decreases |xs|
  {
    if xs != [] {
      var init := xs[..|xs| - 1];
      FirstOccurrencesSpec(init);
      assert forall x :: x in xs <==> x in init || x == xs[|xs| - 1];
    }
  }

  /** The menu numbers a user's relation strings unlock. */
  function MenuNumbers(strs: seq<string>): seq<string> {
    FirstOccurrences(AllRuns(strs))
  }

  /** The ids an `in (numbers)` clause matches: the numeric value of each
      digit run. */
  function NumberValues(numbers: seq<string>): set<int> {
    set i | 0 <= i < |numbers| && AllDigits(numbers[i]) :: DigitsValue(numbers[i])
  }

  /** The relation strings of every role in `roleIds`, in key order. */
  function UserRelStrings(rels: map<int, RoleMenuRel>, keys: seq<int>, roleIds: seq<int>): (r: seq<string>)
    requires forall k :: 0 <= k < |keys| ==> keys[k] in rels
    decreases |keys|
  {
    if keys == [] then []
    else (if rels[keys[0]].roleId in roleIds then [rels[keys[0]].menuId] else []) + UserRelStrings(rels, keys[1..], roleIds)
  }

  /** The relation strings of the user's roles, in key order. */
  function UserStrings(rels: map<int, RoleMenuRel>, roleIds: seq<int>): seq<string> {
    UserRelStrings(rels, AscendingKeys(rels.Keys), roleIds)
  }

  /** The menu ids the user's relation strings unlock. */
  function Granted(rels: map<int, RoleMenuRel>, roleIds: seq<int>): set<int> {
    NumberValues(MenuNumbers(UserStrings(rels, roleIds)))
  }

  /** The live menus among `keys` whose id is granted, in key order. */
  function GrantedViews(menus: map<int, Menu>, keys: seq<int>, granted: set<int>): seq<MenuView>
    requires forall i :: 0 <= i < |keys| ==> keys[i] in menus
    decreases |keys|
  {
    if keys == [] then []
    else
      var k := keys[|keys| - 1];
      GrantedViews(menus, keys[..|keys| - 1], granted) +
        (if k in granted && menus[k].deleteFlag == NOT_DELETED then [MenuView(k, menus[k])] else [])
  }

  lemma {:induction false} GrantedViewsSpec(menus: map<int, Menu>, keys: seq<int>, granted: set<int>)
    requires forall i :: 0 <= i < |keys| ==> keys[i] in menus
    requires StrictlyIncreasing(keys)
    ensures forall v :: v in GrantedViews(menus, keys, granted) ==>
      v.id in keys && v.id in granted && v.menu == menus[v.id] && v.menu.deleteFlag == NOT_DELETED
    ensures forall k :: k in keys && k in granted && menus[k].deleteFlag == NOT_DELETED ==>
      MenuView(k, menus[k]) in GrantedViews(menus, keys, granted)
    ensures IdsIncreasing(GrantedViews(menus, keys, granted))
    decreases |keys|
  {
    if keys != [] {
      var init := keys[..|keys| - 1];
      var k := keys[|keys| - 1];
      GrantedViewsSpec(menus, init, granted);
      assert forall x :: x in keys <==> x in init || x == k;
      assert forall i :: 0 <= i < |init| ==> init[i] < k;
      var r0 := GrantedViews(menus, init, granted);
      assert forall v :: v in r0 ==> v.id < k;
    }
  }

  predicate IdsIncreasing(vs: seq<MenuView>) {
    forall i, j :: 0 <= i < j < |vs| ==> vs[i].id < vs[j].id
  }

  /** The sort a view is compared by; only read when every view has one. */
  function SortOf(v: MenuView): int {
    v.menu.sort.GetOr(0)
  }

  /** Ascending by sort, equal sorts in ascending id: what a stable sort
      of views listed in id order gives. */
  predicate SortedBySortThenId(vs: seq<MenuView>) {
    forall i, j :: 0 <= i < j < |vs| ==>
      SortOf(vs[i]) < SortOf(vs[j]) || (SortOf(vs[i]) == SortOf(vs[j]) && vs[i].id < vs[j].id)
  }

  /** One step of a stable insertion sort: `v` goes after every view whose
      sort is not greater. */
  function Insert(v: MenuView, s: seq<MenuView>): (r: seq<MenuView>)
    ensures multiset(r) == multiset(s) + multiset{v}
    ensures forall w :: w in r <==> w in s || w == v
    ensures |r| == |s| + 1
    decreases |s|
  {
    if s == [] || SortOf(s[|s| - 1]) <= SortOf(v) then s + [v]
    else
      assert s == s[..|s| - 1] + [s[|s| - 1]];
      Insert(v, s[..|s| - 1]) + [s[|s| - 1]]
  }

  /** In a sorted list every view sorts no later than the last one. */
  lemma SortedLast(s: seq<MenuView>, w: MenuView)
    requires SortedBySortThenId(s) && w in s && s != []
    ensures w == s[|s| - 1] || SortOf(w) < SortOf(s[|s| - 1]) || (SortOf(w) == SortOf(s[|s| - 1]) && w.id < s[|s| - 1].id)
  {
    var i :| 0 <= i < |s| && s[i] == w;
    if i < |s| - 1 {
      assert SortOf(s[i]) < SortOf(s[|s| - 1]) || (SortOf(s[i]) == SortOf(s[|s| - 1]) && s[i].id < s[|s| - 1].id);
    }
  }

  /** A sorted list with one more view after all of it stays sorted. */
  lemma AppendSorted(s: seq<MenuView>, v: MenuView)
    requires SortedBySortThenId(s)
    requires forall w :: w in s ==> SortOf(w) < SortOf(v) || (SortOf(w) == SortOf(v) && w.id < v.id)
    ensures SortedBySortThenId(s + [v])
  {
    var r := s + [v];
    forall i, j | 0 <= i < j < |r|
      ensures SortOf(r[i]) < SortOf(r[j]) || (SortOf(r[i]) == SortOf(r[j]) && r[i].id < r[j].id)
    {
      if j < |s| {
        assert r[i] == s[i] && r[j] == s[j];
      } else {
        assert r[i] in s;
      }
    }
  }

  lemma {:induction false} InsertSorted(v: MenuView, s: seq<MenuView>)
    requires SortedBySortThenId(s)
    requires forall w :: w in s ==> w.id < v.id
    ensures SortedBySortThenId(Insert(v, s))
    decreases |s|
  {
    if s == [] || SortOf(s[|s| - 1]) <= SortOf(v) {
      forall w | w in s
        ensures SortOf(w) < SortOf(v) || (SortOf(w) == SortOf(v) && w.id < v.id)
      {
        SortedLast(s, w);
      }
      AppendSorted(s, v);
    } else {
      var init := s[..|s| - 1];
      var last := s[|s| - 1];
      assert s == init + [last];
      assert SortedBySortThenId(init) by {
        forall i, j | 0 <= i < j < |init|
          ensures SortOf(init[i]) < SortOf(init[j]) || (SortOf(init[i]) == SortOf(init[j]) && init[i].id < init[j].id)
        {
          assert init[i] == s[i] && init[j] == s[j];
        }
      }
      assert forall w :: w in init ==> w in s;
      InsertSorted(v, init);
      var inner := Insert(v, init);
      forall w | w in inner
        ensures SortOf(w) < SortOf(last) || (SortOf(w) == SortOf(last) && w.id < last.id)
      {
        if w != v {
          var i :| 0 <= i < |init| && init[i] == w;
          assert s[i] == w;
        }
      }
      AppendSorted(inner, last);
    }
  }

  /** `menuVos.sort(comparingInt(MenuVO::getSort))` as a stable insertion. */
  function SortBySort(vs: seq<MenuView>): (r: seq<MenuView>)
    ensures |r| == |vs|
    decreases |vs|
  {
    if vs == [] then [] else Insert(vs[|vs| - 1], SortBySort(vs[..|vs| - 1]))
  }

  /** The sort is a stable permutation of views listed in id order. */
  lemma SortBySortSpec(vs: seq<MenuView>)
    requires IdsIncreasing(vs)
    ensures multiset(SortBySort(vs)) == multiset(vs)
    ensures SortedBySortThenId(SortBySort(vs))
    ensures forall v :: v in SortBySort(vs) <==> v in vs
  {
    SortBySortPermutes(vs);
    SortBySortSorted(vs);
  }

  lemma {:induction false} SortBySortPermutes(vs: seq<MenuView>)
    ensures multiset(SortBySort(vs)) == multiset(vs)
    ensures forall v :: v in SortBySort(vs) <==> v in vs
    decreases |vs|
  {
    if vs != [] {
      var init := vs[..|vs| - 1];
      SortBySortPermutes(init);
      assert vs == init + [vs[|vs| - 1]];
    }
  }

  lemma {:induction false} SortBySortSorted(vs: seq<MenuView>)
    requires IdsIncreasing(vs)
    ensures SortedBySortThenId(SortBySort(vs))
    decreases |vs|
  {
    if vs != [] {
      var init := vs[..|vs| - 1];
      var last := vs[|vs| - 1];
      SortBySortSorted(init);
      SortBySortPermutes(init);
      forall w | w in SortBySort(init)
        ensures w.id < last.id
      {
        var j :| 0 <= j < |init| && init[j] == w;
        assert vs[j] == w;
      }
      InsertSorted(last, SortBySort(init));
    }
  }

  /** `comparingInt` unboxes every sort it compares, and a sort of two or
      more views compares each of them. */
  predicate SortThrows(vs: seq<MenuView>) {
    |vs| >= 2 && exists i :: 0 <= i < |vs| && vs[i].menu.sort.None?
  }

  /** The answer for the views collected: the sort throws, or every view
      sorted with `total` its count. */
  function Listing(vs: seq<MenuView>): Result<Response<MenuData>> {
    if SortThrows(vs) then Throws else Ok(ResponseData(MenuData(|vs|, SortBySort(vs))))
  }

  class MenuService {
    var menus: map<int, Menu>
    var rels: map<int, RoleMenuRel>

    constructor(menus: map<int, Menu>, rels: map<int, RoleMenuRel>)
      ensures this.menus == menus && this.rels == rels
    {
      this.menus := menus;
      this.rels := rels;
    }

    /** `addOrSaveMenu`: a null request is refused. A new menu is inserted,
        the grant read from relation row 0 is extended by it and written
        into every relation row of role 0, and the call succeeds only if
        role 0 has a relation row; an update overwrites every column. */
    method AddOrSaveMenu(req: Option<MenuRequest>, freshId: int) returns (r: Response<string>)
      requires freshId !in menus
      modifies this
      ensures req.None? ==> r == ResponseMsg(PARAMETER_NULL) && menus == old(menus) && rels == old(rels)
      ensures req.Some? && req.value.id.None? ==>
        menus == old(menus)[freshId := Built(req.value, NOT_DELETED)] &&
        rels == AdminRegranted(old(rels), AdminStringAsWritten(old(rels)) + Bracketed(freshId)) &&
        r == ResponseMsg(CodeEnum(if HasAdminRow(old(rels)) then "ADD_MENU_SUCCESS" else "ADD_MENU_ERROR"))
      ensures req.Some? && req.value.id.Some? ==> var id := req.value.id.value;
        rels == old(rels) &&
        (id in old(menus) ==> menus == old(menus)[id := Built(req.value, old(menus)[id].deleteFlag)]) &&
        (id !in old(menus) ==> menus == old(menus)) &&
        r == ResponseMsg(CodeEnum(if id in old(menus) then "UPDATE_MENU_SUCCESS" else "UPDATE_MENU_ERROR"))
    {
      if req.None? {
        return ResponseMsg(PARAMETER_NULL);
      }
      var q := req.value;
      if q.id.None? {
        menus := menus[freshId := Built(q, NOT_DELETED)];
        var grant := AdminStringAsWritten(rels) + Bracketed(freshId);
        var updated := HasAdminRow(rels);
        rels := AdminRegranted(rels, grant);
        r := ResponseMsg(CodeEnum(if updated then "ADD_MENU_SUCCESS" else "ADD_MENU_ERROR"));
        return;
      }
      var id := q.id.value;
      var matched := id in menus;
      if matched {
        menus := menus[id := Built(q, menus[id].deleteFlag)];
      }
      r := ResponseMsg(CodeEnum(if matched then "UPDATE_MENU_SUCCESS" else "UPDATE_MENU_ERROR"));
    }

    /** `deleteMenu`: a null id is refused; otherwise the menu is only
        flagged deleted. */
    method DeleteMenu(id: Option<int>) returns (r: Response<string>)
      modifies this
      ensures rels == old(rels) && menus.Keys == old(menus).Keys
      ensures id.None? ==> r == ResponseMsg(PARAMETER_NULL) && menus == old(menus)
      ensures id.Some? && id.value in old(menus) ==>
        menus == old(menus)[id.value := old(menus)[id.value].(deleteFlag := DELETED)] && r == ResponseMsg(CodeEnum("DELETE_MENU_SUCCESS"))
      ensures id.Some? && id.value !in old(menus) ==> menus == old(menus) && r == ResponseMsg(CodeEnum("DELETE_MENU_ERROR"))
    {
      if id.None? {
        return ResponseMsg(PARAMETER_NULL);
      }
      if id.value in menus {
        menus := menus[id.value := menus[id.value].(deleteFlag := DELETED)];
        return ResponseMsg(CodeEnum("DELETE_MENU_SUCCESS"));
      }
      r := ResponseMsg(CodeEnum("DELETE_MENU_ERROR"));
    }

    /** `menuList` for the current user (`None` when nobody is signed in)
        and the roles that user holds. */
    method MenuList(userId: Option<int>, roleIds: seq<int>) returns (r: Result<Response<MenuData>>)
      ensures userId.None? ==> r == Ok(Fail())
      ensures userId.Some? && (roleIds == [] || UserStrings(rels, roleIds) == []) ==>
        r == Ok(ResponseData(NoMenus))
      ensures userId.Some? && roleIds != [] && UserStrings(rels, roleIds) != [] ==>
        r == Listing(GrantedViews(menus, AscendingKeys(menus.Keys), Granted(rels, roleIds)))
    {
      if userId.None? {
        return Ok(Fail());
      }
      if roleIds == [] {
        return Ok(ResponseData(NoMenus));
      }
      if UserStrings(rels, roleIds) == [] {
        return Ok(ResponseData(NoMenus));
      }
      var vs := CollectViews(menus, AscendingKeys(menus.Keys), Granted(rels, roleIds));
      if SortThrows(vs) {
        r := Throws;
      } else {
        var sorted := SortViews(vs);
        r := Ok(ResponseData(MenuData(|sorted|, sorted)));
      }
    }
  }

  /** The views `menuList` collects from the menus at `keys`, before sorting. */
  method CollectViews(menus: map<int, Menu>, keys: seq<int>, granted: set<int>) returns (vs: seq<MenuView>)
    requires forall i :: 0 <= i < |keys| ==> keys[i] in menus
    ensures vs == GrantedViews(menus, keys, granted)
  {
    vs := [];
    var i := 0;
    while i < |keys|
      invariant 0 <= i <= |keys|
      invariant vs == GrantedViews(menus, keys[..i], granted)
    {
      var k := keys[i];
      assert keys[..i + 1][..i] == keys[..i];
      if k in granted && menus[k].deleteFlag == NOT_DELETED {
        vs := vs + [MenuView(k, menus[k])];
      }
      i := i + 1;
    }
    assert keys[..i] == keys;
  }

  /** `menuVos.sort(...)`, one insertion per view. */
  method SortViews(vs: seq<MenuView>) returns (sorted: seq<MenuView>)
    ensures sorted == SortBySort(vs)
  {
    sorted := [];
    var i := 0;
    while i < |vs|
      invariant 0 <= i <= |vs|
      invariant sorted == SortBySort(vs[..i])
    {
      assert vs[..i + 1][..i] == vs[..i];
      sorted := Insert(vs[i], sorted);
      i := i + 1;
    }
    assert vs[..i] == vs;
  }

  /** What `menuList` returns: each granted live menu once, ordered by sort
      and then id, and `total` is the number of menus listed. */
  lemma MenuListShows(menus: map<int, Menu>, granted: set<int>)
    ensures var vs := GrantedViews(menus, AscendingKeys(menus.Keys), granted);
      var out := SortBySort(vs);
      (forall v :: v in out ==> v.id in menus && v.id in granted && v.menu == menus[v.id] && v.menu.deleteFlag == NOT_DELETED) &&
      (forall k :: k in menus && k in granted && menus[k].deleteFlag == NOT_DELETED ==> MenuView(k, menus[k]) in out) &&
      SortedBySortThenId(out) && |out| == |vs|
  {
    var keys := AscendingKeys(menus.Keys);
    GrantedViewsSpec(menus, keys, granted);
    var vs := GrantedViews(menus, keys, granted);
    SortBySortSpec(vs);
  }

  /** The menu numbers are the digit runs of the user's grants, each once. */
  lemma MenuNumbersSpec(strs: seq<string>)
    ensures NoRepeats(MenuNumbers(strs))
    ensures forall x :: x in MenuNumbers(strs) <==> x in AllRuns(strs)
  {
    FirstOccurrencesSpec(AllRuns(strs));
  }

  /** As written, adding a menu extends the administrator's menu ids by
      exactly the new id when role 0's only relation row is keyed 0: every
      row of role 0 then decodes to the old ids followed by the new one. */
  lemma AddMenuExtendsAdminGrantAsWritten(rels: map<int, RoleMenuRel>, newId: int)
    requires 0 in rels && rels[0].roleId == PLATFORM_ADMIN
    requires forall k :: k in rels && k != 0 ==> rels[k].roleId != PLATFORM_ADMIN
    requires WellEnded(rels[0].menuId) && 0 <= newId <= INT_MAX
    ensures var after := AdminRegranted(rels, AdminStringAsWritten(rels) + Bracketed(newId));
      after.Keys == rels.Keys &&
      MenuIdsOf(after[0].menuId) == Then(MenuIdsOf(rels[0].menuId), Ok([newId])) &&
      forall k :: k in rels && k != 0 ==> after[k] == rels[k]
  {
    AdminReadsAgree(rels);
    AppendGrantsOneMore(rels[0].menuId, newId);
  }

  /** With the grant read from role 0's own row, adding a menu extends the
      administrator's menu ids by exactly the new id. */
  lemma AddMenuExtendsAdminGrant(rels: map<int, RoleMenuRel>, newId: int)
    requires WellEnded(AdminString(rels)) && 0 <= newId <= INT_MAX
    ensures MenuIdsOf(AdminString(rels) + Bracketed(newId)) == Then(MenuIdsOf(AdminString(rels)), Ok([newId]))
    ensures forall k :: k in rels && rels[k].roleId == PLATFORM_ADMIN ==>
      AdminRegranted(rels, AdminString(rels) + Bracketed(newId))[k].menuId == AdminString(rels) + Bracketed(newId)
    ensures forall k :: k in rels && rels[k].roleId != PLATFORM_ADMIN ==>
      AdminRegranted(rels, AdminString(rels) + Bracketed(newId))[k] == rels[k]
  {
    AppendGrantsOneMore(AdminString(rels), newId);
  }
}
