/** `SysDepartmentServiceImpl`: departments, the users they hold, and the
    two-level department tree the screens show. */
module Departments {
  import opened Wrappers
  import opened Responses
  import opened Text
  import opened Tables

  datatype Department = Department(
    tenantId: Option<int>, parentId: Option<int>, name: Option<string>, number: Option<string>,
    status: Option<int>, leader: Option<string>, remark: Option<string>, sort: Option<string>,
    createTime: Option<int>, updateTime: Option<int>, deleteFlag: int)

  datatype UserDeptRel = UserDeptRel(tenantId: int, userId: int, deptId: int)

  datatype DeptRequest = DeptRequest(
    id: Option<int>, deptName: Option<string>, parentId: Option<int>, deptNumber: Option<string>,
    leader: Option<string>, status: Option<int>, remark: Option<string>, sort: Option<string>)

  /** A department as `DeptListVO` shows it. */
  datatype DeptView = DeptView(id: int, dept: Department)

  /** A node of the tree: a department and the departments under it. */
  datatype DeptNode = DeptNode(view: DeptView, children: seq<DeptView>)

  predicate Live(d: Department) {
    d.deleteFlag == NOT_DELETED
  }

  // ---------------------------------------------------------------------
  // The tree
  // ---------------------------------------------------------------------

  /** The live departments among `keys` whose parent is `parent`, in the
      order of `keys`. */
  function ChildViews(depts: map<int, Department>, keys: seq<int>, parent: int): seq<DeptView>
    requires forall i :: 0 <= i < |keys| ==> keys[i] in depts
    decreases |keys|
  {
    if keys == [] then []
    else
      var k := keys[|keys| - 1];
      ChildViews(depts, keys[..|keys| - 1], parent) +
        (if Live(depts[k]) && depts[k].parentId == Some(parent) then [DeptView(k, depts[k])] else [])
  }

  /** The children listed are exactly the live departments under the
      parent, each once, in key order. */
  lemma {:induction false} ChildViewsSpec(depts: map<int, Department>, keys: seq<int>, parent: int)
    requires forall i :: 0 <= i < |keys| ==> keys[i] in depts
    requires StrictlyIncreasing(keys)
    ensures forall v :: v in ChildViews(depts, keys, parent) ==>
      v.id in keys && v.dept == depts[v.id] && Live(v.dept) && v.dept.parentId == Some(parent)
    ensures forall k :: k in keys && Live(depts[k]) && depts[k].parentId == Some(parent) ==>
      DeptView(k, depts[k]) in ChildViews(depts, keys, parent)
    ensures forall i, j :: 0 <= i < j < |ChildViews(depts, keys, parent)| ==>
      ChildViews(depts, keys, parent)[i].id < ChildViews(depts, keys, parent)[j].id
    decreases |keys|
  {
    if keys != [] {
      var init := keys[..|keys| - 1];
      var k := keys[|keys| - 1];
      ChildViewsSpec(depts, init, parent);
      assert forall x :: x in keys <==> x in init || x == k;
      assert forall i :: 0 <= i < |init| ==> init[i] < k;
    }
  }

  /** The node department `k` contributes: with a name filter, its live
      parent holding it alone; without, the top-level department and all
      its children; otherwise none. */
  function NodeFor(depts: map<int, Department>, keys: seq<int>, k: int, filtered: bool): (r: seq<DeptNode>)
    requires forall j :: 0 <= j < |keys| ==> keys[j] in depts
    requires k in depts
    ensures |r| <= 1
  {
    if filtered then FilteredNode(depts, k) else TreeNode(depts, keys, k)
  }

  function FilteredNode(depts: map<int, Department>, k: int): seq<DeptNode>
    requires k in depts
  {
    var p := depts[k].parentId;
    if p.Some? && p.value in depts && Live(depts[p.value])
    then [DeptNode(DeptView(p.value, depts[p.value]), [DeptView(k, depts[k])])]
    else []
  }

  function TreeNode(depts: map<int, Department>, keys: seq<int>, k: int): seq<DeptNode>
    requires forall j :: 0 <= j < |keys| ==> keys[j] in depts
    requires k in depts
  {
    if depts[k].parentId.None?
    then [DeptNode(DeptView(k, depts[k]), ChildViews(depts, keys, k))]
    else []
  }

  /** `assemblePcNodesList`: the nodes of `order`'s departments, in order;
      `keys` is the order the query for children returns rows in. */
  function Assembled(depts: map<int, Department>, keys: seq<int>, order: seq<int>, filtered: bool): seq<DeptNode>
    requires forall j :: 0 <= j < |keys| ==> keys[j] in depts
    requires forall i :: 0 <= i < |order| ==> order[i] in depts
    decreases |order|
  {
    if order == [] then []
    else Assembled(depts, keys, order[..|order| - 1], filtered) + NodeFor(depts, keys, order[|order| - 1], filtered)
  }

  /** Each node of the assembly comes from one department of the order. */
  lemma {:induction false} AssembledSound(depts: map<int, Department>, keys: seq<int>, order: seq<int>, filtered: bool)
    requires forall j :: 0 <= j < |keys| ==> keys[j] in depts
    requires forall i :: 0 <= i < |order| ==> order[i] in depts
    ensures forall n :: n in Assembled(depts, keys, order, filtered) ==>
      exists i :: 0 <= i < |order| && n in NodeFor(depts, keys, order[i], filtered)
    decreases |order|
  {
    if order != [] {
      var init := order[..|order| - 1];
      AssembledSound(depts, keys, init, filtered);
      forall n | n in Assembled(depts, keys, order, filtered)
        ensures exists i :: 0 <= i < |order| && n in NodeFor(depts, keys, order[i], filtered)
      {
        if n in Assembled(depts, keys, init, filtered) {
          var i :| 0 <= i < |init| && n in NodeFor(depts, keys, init[i], filtered);
          assert order[i] == init[i];
        } else {
          assert n in NodeFor(depts, keys, order[|order| - 1], filtered);
        }
      }
    }
  }

  /** Each department of the order contributes its node to the assembly. */
  lemma {:induction false} AssembledComplete(depts: map<int, Department>, keys: seq<int>, order: seq<int>, filtered: bool, i: int)
    requires forall j :: 0 <= j < |keys| ==> keys[j] in depts
    requires forall j :: 0 <= j < |order| ==> order[j] in depts
    requires 0 <= i < |order|
    ensures forall n :: n in NodeFor(depts, keys, order[i], filtered) ==> n in Assembled(depts, keys, order, filtered)
    decreases |order|
  {
    var init := order[..|order| - 1];
    var here := NodeFor(depts, keys, order[i], filtered);
    assert Assembled(depts, keys, order, filtered) ==
      Assembled(depts, keys, init, filtered) + NodeFor(depts, keys, order[|order| - 1], filtered);
    if i < |init| {
      assert order[i] == init[i];
      AssembledComplete(depts, keys, init, filtered, i);
      assert forall n :: n in here ==> n in Assembled(depts, keys, init, filtered);
    } else {
      assert here == NodeFor(depts, keys, order[|order| - 1], filtered);
    }
  }

  /** `keys` lists every department once, in ascending order. */
  ghost predicate KeyOrder(depts: map<int, Department>, keys: seq<int>) {
    StrictlyIncreasing(keys) && forall k :: k in keys <==> k in depts
  }

  /** A department of the tree shape: top level, with exactly its live
      children. */
  ghost predicate IsTreeNode(depts: map<int, Department>, n: DeptNode) {
    n.view.id in depts && n.view.dept == depts[n.view.id] && n.view.dept.parentId.None? &&
    (forall c :: c in n.children ==>
      c.id in depts && c.dept == depts[c.id] && Live(c.dept) && c.dept.parentId == Some(n.view.id)) &&
    (forall k :: k in depts && Live(depts[k]) && depts[k].parentId == Some(n.view.id) ==>
      DeptView(k, depts[k]) in n.children)
  }

  lemma TreeNodeIsTreeNode(depts: map<int, Department>, keys: seq<int>, k: int)
    requires forall j :: 0 <= j < |keys| ==> keys[j] in depts
    requires KeyOrder(depts, keys)
    requires k in depts
    ensures forall n :: n in TreeNode(depts, keys, k) ==> IsTreeNode(depts, n) && n.view.id == k
    ensures depts[k].parentId.None? <==> TreeNode(depts, keys, k) != []
  {
    if depts[k].parentId.None? {
      ChildViewsSpec(depts, keys, k);
      var n := DeptNode(DeptView(k, depts[k]), ChildViews(depts, keys, k));
      assert TreeNode(depts, keys, k) == [n];
      assert IsTreeNode(depts, n);
    }
  }

  /** Without a name filter the tree holds exactly the top-level
      departments of the order, each with all its live children. */
  lemma TreeShape(depts: map<int, Department>, keys: seq<int>, order: seq<int>)
    requires forall j :: 0 <= j < |keys| ==> keys[j] in depts
    requires KeyOrder(depts, keys)
    requires forall i :: 0 <= i < |order| ==> order[i] in depts
    ensures forall n :: n in Assembled(depts, keys, order, false) ==> IsTreeNode(depts, n) && n.view.id in order
    ensures forall k :: k in order && depts[k].parentId.None? ==>
      exists n :: n in Assembled(depts, keys, order, false) && n.view.id == k
  {
    AssembledSound(depts, keys, order, false);
    forall n | n in Assembled(depts, keys, order, false)
      ensures IsTreeNode(depts, n) && n.view.id in order
    {
      var i :| 0 <= i < |order| && n in NodeFor(depts, keys, order[i], false);
      TreeNodeIsTreeNode(depts, keys, order[i]);
    }
    forall k | k in order && depts[k].parentId.None?
      ensures exists n :: n in Assembled(depts, keys, order, false) && n.view.id == k
    {
      var i :| 0 <= i < |order| && order[i] == k;
      TreeNodeIsTreeNode(depts, keys, k);
      var n := TreeNode(depts, keys, k)[0];
      assert n in NodeFor(depts, keys, order[i], false);
      AssembledComplete(depts, keys, order, false, i);
    }
  }

  /** A pair of the filtered shape: a live parent holding one department
      of the order. */
  ghost predicate IsFilteredNode(depts: map<int, Department>, order: seq<int>, n: DeptNode) {
    n.view.id in depts && n.view.dept == depts[n.view.id] && Live(n.view.dept) &&
    |n.children| == 1 && n.children[0].id in order && n.children[0].id in depts &&
    n.children[0].dept == depts[n.children[0].id] && n.children[0].dept.parentId == Some(n.view.id)
  }

  /** A department of the order whose parent exists and is live. */
  ghost predicate HasLiveParent(depts: map<int, Department>, k: int)
    requires k in depts
  {
    depts[k].parentId.Some? && depts[k].parentId.value in depts && Live(depts[depts[k].parentId.value])
  }

  /** With a name filter every node is a live parent holding exactly one
      department of the order, and each department with a live parent
      gives one. */
  lemma FilteredShape(depts: map<int, Department>, keys: seq<int>, order: seq<int>)
    requires forall j :: 0 <= j < |keys| ==> keys[j] in depts
    requires forall i :: 0 <= i < |order| ==> order[i] in depts
    ensures forall n :: n in Assembled(depts, keys, order, true) ==> IsFilteredNode(depts, order, n)
    ensures forall k :: k in order && HasLiveParent(depts, k) ==>
      exists n :: n in Assembled(depts, keys, order, true) && n.children == [DeptView(k, depts[k])]
  {
    AssembledSound(depts, keys, order, true);
    forall n | n in Assembled(depts, keys, order, true)
      ensures IsFilteredNode(depts, order, n)
    {
      var i :| 0 <= i < |order| && n in NodeFor(depts, keys, order[i], true);
    }
    forall k | k in order && HasLiveParent(depts, k)
      ensures exists n :: n in Assembled(depts, keys, order, true) && n.children == [DeptView(k, depts[k])]
    {
      var i :| 0 <= i < |order| && order[i] == k;
      var n := FilteredNode(depts, k)[0];
      assert n in NodeFor(depts, keys, order[i], true);
      AssembledComplete(depts, keys, order, true, i);
    }
  }

  /** The children the inner query lists, one by one. */
  method ChildrenOf(depts: map<int, Department>, keys: seq<int>, parent: int) returns (vs: seq<DeptView>)
    requires forall i :: 0 <= i < |keys| ==> keys[i] in depts
    ensures vs == ChildViews(depts, keys, parent)
  {
    vs := [];
    var i := 0;
    while i < |keys|
      invariant 0 <= i <= |keys|
      invariant vs == ChildViews(depts, keys[..i], parent)
    {
      var k := keys[i];
      assert keys[..i + 1][..i] == keys[..i];
      if Live(depts[k]) && depts[k].parentId == Some(parent) {
        vs := vs + [DeptView(k, depts[k])];
      }
      i := i + 1;
    }
    assert keys[..i] == keys;
  }

  /** The `assemblePcNodesList` loop over `order`, the children read in `keys` order. */
  method AssembleNodes(depts: map<int, Department>, keys: seq<int>, order: seq<int>, filtered: bool) returns (nodes: seq<DeptNode>)
    requires forall j :: 0 <= j < |keys| ==> keys[j] in depts
    requires forall i :: 0 <= i < |order| ==> order[i] in depts
    ensures nodes == Assembled(depts, keys, order, filtered)
  {
    nodes := [];
    var i := 0;
    while i < |order|
      invariant 0 <= i <= |order|
      invariant nodes == Assembled(depts, keys, order[..i], filtered)
    {
      var k := order[i];
      assert order[..i + 1][..i] == order[..i];
      if filtered {
        var p := depts[k].parentId;
        if p.Some? && p.value in depts && Live(depts[p.value]) {
          nodes := nodes + [DeptNode(DeptView(p.value, depts[p.value]), [DeptView(k, depts[k])])];
        }
      } else if depts[k].parentId.None? {
        var children := ChildrenOf(depts, keys, k);
        nodes := nodes + [DeptNode(DeptView(k, depts[k]), children)];
      }
      i := i + 1;
    }
    assert order[..i] == order;
  }

  /** The order `getDeptList`'s query returns: the tenant's live
      departments (of that name, when one with text is given), newest first. */
  ghost predicate DeptListOrder(depts: map<int, Department>, tenantId: int, deptName: Option<string>, order: seq<int>) {
    Distinct(order) && (forall i :: 0 <= i < |order| ==> order[i] in depts) &&
    (forall k :: k in order <==>
      (k in depts && Live(depts[k]) && depts[k].tenantId == Some(tenantId) && (HasText(deptName) ==> depts[k].name == deptName))) &&
    (forall i, j :: 0 <= i < j < |order| && order[i] in depts && order[j] in depts ==>
      NotOlder(depts[order[i]].createTime, depts[order[j]].createTime))
  }

  /** The departments a user belongs to. */
  function UserDeptIds(rels: map<int, UserDeptRel>, userId: int): (r: set<int>)
    ensures forall d :: d in r <==> exists k :: k in rels && rels[k].userId == userId && rels[k].deptId == d
  {
    set k | k in rels && rels[k].userId == userId :: rels[k].deptId
  }

  /** The create: the department's name doubles as its number. */
  function Created(q: DeptRequest, tenantId: int, now: int): (d: Department)
    ensures d.number == q.deptName && d.name == q.deptName && Live(d)
  {
    Department(Some(tenantId), q.parentId, q.deptName, q.deptName, q.status, q.leader, q.remark, q.sort,
      Some(now), None, NOT_DELETED)
  }

  /** The update: text columns with text, the other columns when given, and
      always the update time. */
  function PartiallyUpdated(d: Department, q: DeptRequest, now: int): Department {
    d.(name := if HasText(q.deptName) then q.deptName else d.name,
       number := if HasText(q.deptNumber) then q.deptNumber else d.number,
       parentId := if q.parentId.Some? then q.parentId else d.parentId,
       status := if q.status.Some? then q.status else d.status,
       leader := if HasText(q.leader) then q.leader else d.leader,
       remark := if HasText(q.remark) then q.remark else d.remark,
       sort := if q.sort.Some? then q.sort else d.sort,
       updateTime := Some(now))
  }

  /** Blank text and absent values leave their columns alone, the same
      update applied twice is the same as once, and the row stays live or
      deleted as it was. */
  lemma PartialUpdateProperties(d: Department, q: DeptRequest, now: int)
    ensures (!HasText(q.deptName) && !HasText(q.deptNumber) && q.parentId.None? && q.status.None? &&
      !HasText(q.leader) && !HasText(q.remark) && q.sort.None?) ==>
      PartiallyUpdated(d, q, now) == d.(updateTime := Some(now))
    ensures PartiallyUpdated(PartiallyUpdated(d, q, now), q, now) == PartiallyUpdated(d, q, now)
    ensures PartiallyUpdated(d, q, now).deleteFlag == d.deleteFlag && PartiallyUpdated(d, q, now).createTime == d.createTime
  {
  }

  /** `deleteDept`'s update: the department whose id the text names is
      flagged deleted, and no row is removed. */
  function DeletedById(depts: map<int, Department>, id: string): (r: map<int, Department>)
    ensures r.Keys == depts.Keys
    ensures forall k :: k in r ==>
      r[k] == (if IdMatches(k, id) then depts[k].(deleteFlag := DELETED) else depts[k])
  {
    map k | k in depts :: if IdMatches(k, id) then depts[k].(deleteFlag := DELETED) else depts[k]
  }

  /** A deleted department drops out of every tree as a child, and the
      others keep their place. */
  lemma DeletedLeavesTree(depts: map<int, Department>, keys: seq<int>, id: string, p: int)
    requires forall j :: 0 <= j < |keys| ==> keys[j] in depts
    requires StrictlyIncreasing(keys)
    ensures forall v :: v in ChildViews(DeletedById(depts, id), keys, p) ==> !IdMatches(v.id, id)
    ensures forall v :: v in ChildViews(depts, keys, p) && !IdMatches(v.id, id) ==>
      v in ChildViews(DeletedById(depts, id), keys, p)
  {
    var after := DeletedById(depts, id);
    ChildViewsSpec(depts, keys, p);
    ChildViewsSpec(after, keys, p);
  }

  function DeptEnum(lang: Lang, stem: string, ok: bool): CodeEnum {
    var name := stem + (if ok then "_SUCCESS" else "_ERROR");
    Localized(lang, CodeEnum(name), CodeEnum(name + "_EN"))
  }

  class DepartmentService {
    var departments: map<int, Department>
    var userDepts: map<int, UserDeptRel>

    constructor(departments: map<int, Department>, userDepts: map<int, UserDeptRel>)
      ensures this.departments == departments && this.userDepts == userDepts
    {
      this.departments := departments;
      this.userDepts := userDepts;
    }

    /** `assemblePcNodesList`: a non-null name selects the filtered shape. */
    method AssemblePcNodesList(order: seq<int>, deptName: Option<string>) returns (nodes: seq<DeptNode>)
      requires forall i :: 0 <= i < |order| ==> order[i] in departments
      ensures nodes == Assembled(departments, AscendingKeys(departments.Keys), order, deptName.Some?)
    {
      nodes := AssembleNodes(departments, AscendingKeys(departments.Keys), order, deptName.Some?);
    }

    /** `userDept`: the tree of the user's live departments, or
        QUERY_DATA_EMPTY when there are none. */
    method UserDept(userId: int) returns (r: Response<seq<DeptNode>>)
      ensures var mine := set k | k in departments && Live(departments[k]) && k in UserDeptIds(userDepts, userId);
        (mine == {} ==> r == ResponseMsg(QUERY_DATA_EMPTY)) &&
        (mine != {} ==> r == ResponseData(Assembled(departments, AscendingKeys(departments.Keys), AscendingKeys(mine), false)))
    {
      var mine := set k | k in departments && Live(departments[k]) && k in UserDeptIds(userDepts, userId);
      if mine == {} {
        return ResponseMsg(QUERY_DATA_EMPTY);
      }
      var nodes := AssemblePcNodesList(AscendingKeys(mine), None);
      r := ResponseData(nodes);
    }

    /** `getDeptList`: the tenant's departments as a tree, or as parent and
        child pairs when a name is given (blank included). */
    method GetDeptList(tenantId: int, deptName: Option<string>, order: seq<int>) returns (r: Response<seq<DeptNode>>)
      requires DeptListOrder(departments, tenantId, deptName, order)
      ensures r == ResponseData(Assembled(departments, AscendingKeys(departments.Keys), order, deptName.Some?))
    {
      var nodes := AssemblePcNodesList(order, deptName);
      r := ResponseData(nodes);
    }

    /** `addOrSaveDept`: a null request is refused; a create inserts the
        department and makes the creating tenant one of its users; an update
        writes the given columns of the row with that id. */
    method AddOrSaveDept(req: Option<DeptRequest>, freshId: int, freshRelId: int, tenantId: int, now: int, lang: Lang)
      returns (r: Response<string>)
      requires freshId !in departments && freshRelId !in userDepts
      modifies this
      ensures req.None? ==> r == ResponseMsg(PARAMETER_NULL) && departments == old(departments) && userDepts == old(userDepts)
      ensures req.Some? && req.value.id.None? ==>
        departments == old(departments)[freshId := Created(req.value, tenantId, now)] &&
        userDepts == old(userDepts)[freshRelId := UserDeptRel(tenantId, tenantId, freshId)] &&
        r == ResponseMsg(DeptEnum(lang, "ADD_DEPARTMENT", true))
      ensures req.Some? && req.value.id.Some? ==> var id := req.value.id.value;
        userDepts == old(userDepts) &&
        (id in old(departments) ==> departments == old(departments)[id := PartiallyUpdated(old(departments)[id], req.value, now)]) &&
        (id !in old(departments) ==> departments == old(departments)) &&
        r == ResponseMsg(DeptEnum(lang, "UPDATE_DEPARTMENT", id in old(departments)))
    {
      if req.None? {
        return ResponseMsg(PARAMETER_NULL);
      }
      var q := req.value;
      if q.id.None? {
        departments := departments[freshId := Created(q, tenantId, now)];
        userDepts := userDepts[freshRelId := UserDeptRel(tenantId, tenantId, freshId)];
        return ResponseMsg(DeptEnum(lang, "ADD_DEPARTMENT", true));
      }
      var id := q.id.value;
      var updated := id in departments;
      if updated {
        departments := departments[id := PartiallyUpdated(departments[id], q, now)];
      }
      r := ResponseMsg(DeptEnum(lang, "UPDATE_DEPARTMENT", updated));
    }

    /** `deleteDept`: a null or blank id is refused; otherwise the
        department is only flagged deleted. */
    method DeleteDept(id: Option<string>, lang: Lang) returns (r: Response<string>)
      modifies this
      ensures userDepts == old(userDepts) && departments.Keys == old(departments).Keys
      ensures id.None? || IsBlank(id.value) ==> r == ResponseMsg(PARAMETER_NULL) && departments == old(departments)
      ensures id.Some? && !IsBlank(id.value) ==>
        departments == DeletedById(old(departments), id.value) &&
        r == ResponseMsg(DeptEnum(lang, "DELETE_DEPARTMENT", exists k :: k in old(departments) && IdMatches(k, id.value)))
    {
      if id.None? || IsBlank(id.value) {
        return ResponseMsg(PARAMETER_NULL);
      }
      var matched := exists k :: k in departments && IdMatches(k, id.value);
      departments := DeletedById(departments, id.value);
      r := ResponseMsg(DeptEnum(lang, "DELETE_DEPARTMENT", matched));
    }
  }

  /** A new department joins the tree under its parent: after the create,
      the parent's node lists it among its children. */
  lemma CreatedJoinsParent(depts: map<int, Department>, q: DeptRequest, freshId: int, tenantId: int, now: int, p: int)
    requires freshId !in depts && p in depts && q.parentId == Some(p)
    ensures var after := depts[freshId := Created(q, tenantId, now)];
      DeptView(freshId, after[freshId]) in ChildViews(after, AscendingKeys(after.Keys), p)
  {
    var after := depts[freshId := Created(q, tenantId, now)];
    ChildViewsSpec(after, AscendingKeys(after.Keys), p);
  }
}
