/** The persistence layer as the services see it: a table is a map from
    primary key to row, and a query without `ORDER BY` returns its rows in
    ascending key order. */
module Tables {
  import opened Wrappers
  import opened Text

  predicate StrictlyIncreasing(s: seq<int>) {
    forall i, j :: 0 <= i < j < |s| ==> s[i] < s[j]
  }

  /** A non-empty set has an element (stated so that a `:|` can use it). */
  lemma NonEmptyHasElement(t: set<int>)
    requires t != {}
    ensures exists z :: z in t
  {
    if forall z :: z !in t {
      assert false;
    }
  }

  /** A set holds at most one element exactly when its size is at most one. */
  lemma AtMostOneElement(s: set<int>)
    ensures (forall a, b :: a in s && b in s ==> a == b) <==> |s| <= 1
  {
    if |s| > 1 {
      NonEmptyHasElement(s);
      var a :| a in s;
      assert |s - {a}| == |s| - 1;
      NonEmptyHasElement(s - {a});
      var b :| b in s - {a};
      assert a in s && b in s && a != b;
    } else if s != {} {
      NonEmptyHasElement(s);
      var x :| x in s;
      assert |s - {x}| == 0;
      assert s == {x};
    }
  }

  predicate IsMinimum(m: int, s: set<int>) {
    m in s && forall x :: x in s ==> m <= x
  }

  lemma {:induction false} MinimumExists(s: set<int>, y: int)
    requires y in s
    ensures exists m :: IsMinimum(m, s)
    decreases |s|
  {
    var t := s - {y};
    if t == {} {
      forall x | x in s
        ensures y <= x
      {
        assert x !in t;
      }
      assert IsMinimum(y, s);
    } else {
      NonEmptyHasElement(t);
      var z :| z in t;
      assert |t| < |s|;
      MinimumExists(t, z);
      var m :| IsMinimum(m, t);
      var least := if y < m then y else m;
      forall x | x in s
        ensures least <= x
      {
        if x != y {
          assert x in t;
        }
      }
      assert IsMinimum(least, s);
    }
  }

  lemma MinimumUnique(s: set<int>)
    ensures forall a, b :: IsMinimum(a, s) && IsMinimum(b, s) ==> a == b
  {
  }

  function Minimum(s: set<int>): (m: int)
    requires s != {}
    ensures IsMinimum(m, s)
  {
    NonEmptyHasElement(s);
    var y :| y in s;
    MinimumExists(s, y);
    MinimumUnique(s);
    var m :| IsMinimum(m, s);
    m
  }

  lemma PrependMinimum(s: set<int>, m: int, rest: seq<int>)
    requires IsMinimum(m, s)
    requires |rest| == |s - {m}| && StrictlyIncreasing(rest)
    requires forall i :: 0 <= i < |rest| ==> rest[i] in s - {m}
    requires forall x :: x in s - {m} ==> x in rest
    ensures var r := [m] + rest;
      |r| == |s| && StrictlyIncreasing(r) &&
      (forall i :: 0 <= i < |r| ==> r[i] in s) && (forall x :: x in s ==> x in r)
  {
    var r := [m] + rest;
    assert forall i :: 0 <= i < |rest| ==> m < rest[i];
    assert forall i :: 1 <= i < |r| ==> r[i] == rest[i - 1];
    assert forall x :: x in s ==> x == m || x in s - {m};
  }

  /** The keys of a table in the order a plain `SELECT` returns them. */
  function AscendingKeys(s: set<int>): (r: seq<int>)
    ensures |r| == |s|
    ensures forall i :: 0 <= i < |r| ==> r[i] in s
    ensures forall x :: x in s ==> x in r
    ensures StrictlyIncreasing(r)
    decreases |s|
  {
    if s == {} then []
    else
      var m := Minimum(s);
      var rest := AscendingKeys(s - {m});
      PrependMinimum(s, m, rest);
      [m] + rest
  }

  /** `CommonConstants.NOT_DELETED` / `DELETED`, the values of a row's
      delete flag. */
  const NOT_DELETED: int := 0
  const DELETED: int := 1

  /** `CommonConstants.STATUS_NORMAL`, an enabled row. */
  const STATUS_NORMAL: int := 0

  /** The audit columns every table carries: who created and last updated
      a row, and when (the clock as a number). */
  datatype Audit = Audit(createBy: Option<int>, createTime: Option<int>, updateBy: Option<int>, updateTime: Option<int>)

  /** The stamps of an insert by `userId` at `now`. */
  function CreatedBy(userId: int, now: int): Audit {
    Audit(Some(userId), Some(now), None, None)
  }

  /** An update by `userId` at `now` restamps only the update columns. */
  function UpdatedBy(a: Audit, userId: int, now: int): Audit {
    a.(updateBy := Some(userId), updateTime := Some(now))
  }

  /** The ids of an id list, as an `in (...)` clause matches them. */
  function IdSet(ids: seq<int>): (r: set<int>)
    ensures forall k :: k in r <==> k in ids
  {
    set i | 0 <= i < |ids| :: ids[i]
  }

  predicate Distinct(ids: seq<int>) {
    forall i, j :: 0 <= i < j < |ids| ==> ids[i] != ids[j]
  }

  /** Whether an `in (...)` update or delete over `ids` matches a row. */
  predicate AnyKeyIn<T>(t: map<int, T>, ids: set<int>) {
    exists k :: k in t && k in ids
  }

  /** `eq(id, text)`: a key matches an id given as text when the text is
      its decimal form. */
  predicate IdMatches(k: int, id: string) {
    IntToString(k) == id
  }

  /** `ORDER BY create_time DESC`: a newer row, or any row before one with
      a null time. */
  predicate NotOlder(a: Option<int>, b: Option<int>) {
    (a.None? ==> b.None?) && (a.Some? && b.Some? ==> a.value >= b.value)
  }

  /** `ORDER BY sort ASC`: a null sort, or one no larger (ascending order
      puts nulls first). */
  predicate SortsBefore(a: Option<int>, b: Option<int>) {
    (b.None? ==> a.None?) && (a.Some? && b.Some? ==> a.value <= b.value)
  }

  /** `like(column, f)`, added only when `f` is given; a null column never
      matches a `LIKE`. */
  predicate LikeFilter(column: Option<string>, f: Option<string>) {
    f.None? || (column.Some? && Contains(column.value, f.value))
  }

  /** `ge(create_time, start)` and `le(create_time, end)`, each added only
      when its bound is given; a null time fails any comparison. */
  predicate WithinDates(t: Option<int>, start: Option<int>, end: Option<int>) {
    (start.Some? ==> t.Some? && t.value >= start.value) &&
    (end.Some? ==> t.Some? && t.value <= end.value)
  }

  // ---------------------------------------------------------------------
  // Pages
  // ---------------------------------------------------------------------

  /** A MyBatis-Plus `Page(current, size)`. */
  datatype Paging = Paging(current: int, size: int)

  /** `new Page(Optional.ofNullable(dto).map(getPage).orElse(1),
      Optional.ofNullable(dto).map(getPageSize).orElse(10))`, given the
      query's page and size (both null when the query itself is). */
  function PagingOf(page: Option<int>, pageSize: Option<int>): (r: Paging)
    ensures page.None? ==> r.current == 1
    ensures pageSize.None? ==> r.size == 10
    ensures page.Some? ==> r.current == page.value
    ensures pageSize.Some? ==> r.size == pageSize.value
  {
    Paging(page.GetOr(1), pageSize.GetOr(10))
  }

  /** The position of the first row of a page: pages count from 1 and a
      page number below 1 reads as the first. */
  function PageOffset(p: Paging): (off: int)
    requires p.size >= 0
    ensures off >= 0
    ensures p.current <= 1 ==> off == 0
  {
    if p.current > 1 then (p.current - 1) * p.size else 0
  }

  /** The rows `selectPage` returns out of the ordered result `rows`: all of
      them for a negative size, otherwise the window of at most `size` rows
      starting at the page's offset. */
  function PageSlice(rows: seq<int>, p: Paging): (r: seq<int>)
    ensures p.size < 0 ==> r == rows
    ensures p.size >= 0 ==> |r| <= p.size
    ensures p.size >= 0 ==> (r == [] <==> p.size == 0 || PageOffset(p) >= |rows|)
    ensures p.size >= 0 ==> forall i :: 0 <= i < |r| ==> PageOffset(p) + i < |rows| && r[i] == rows[PageOffset(p) + i]
    ensures forall i :: 0 <= i < |r| ==> r[i] in rows
  {
    if p.size < 0 then rows
    else
      var off := PageOffset(p);
      if off >= |rows| then []
      else if off + p.size <= |rows| then rows[off..off + p.size]
      else rows[off..]
  }

  /** `saveBatch(rows)` under the ids `ids`, one row per id. */
  function BatchInserted<T>(t: map<int, T>, ids: seq<int>, rows: seq<T>): (r: map<int, T>)
    requires |ids| == |rows| && Distinct(ids)
    ensures r.Keys == t.Keys + IdSet(ids)
    ensures forall j :: 0 <= j < |ids| ==> r[ids[j]] == rows[j]
    ensures forall k :: k in t && k !in IdSet(ids) ==> r[k] == t[k]
  {
    t + map j | 0 <= j < |ids| :: ids[j] := rows[j]
  }
}
