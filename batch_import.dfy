/** The deduplication shared by the batch imports of suppliers, customers
    and members. The rows are visited in order. A row whose composite key
    (two columns joined with `|`) an earlier imported row already took is
    skipped without a lookup; otherwise the store is asked, with
    `selectOne`, for a row with the same two columns, and the row is
    imported when there is none. */
module BatchImports {
  import opened Wrappers

  /** What `selectOne` answers for one row: `Ok(true)` when exactly one
      stored row matches, `Ok(false)` when none does, `Throws` when several
      do (MyBatis's `TooManyResultsException`). */
  function SelectOne(matches: nat): (r: Result<bool>)
    ensures r == Ok(false) <==> matches == 0
    ensures r.Throws? <==> matches > 1
  {
    if matches == 0 then Ok(false) else if matches == 1 then Ok(true) else Throws
  }

  /** The entities the picked rows become, built one after the other: the
      first row whose entity throws ends the import with that exception. */
  function AllBuilt<T>(built: seq<Result<T>>): (r: Result<seq<T>>)
    ensures r.Ok? <==> forall j :: 0 <= j < |built| ==> built[j].Ok?
    ensures r.Ok? ==> |r.value| == |built| && forall j :: 0 <= j < |built| ==> r.value[j] == built[j].value
  {
    if forall j :: 0 <= j < |built| ==> built[j].Ok? then Ok(seq(|built|, j requires 0 <= j < |built| => built[j].value))
    else Throws
  }

  predicate Increasing(picked: seq<nat>) {
    forall i, j :: 0 <= i < j < |picked| ==> picked[i] < picked[j]
  }

  /** The keys of the picked rows: the import's `HashSet`. */
  function KeysAt(keys: seq<string>, picked: seq<nat>): (r: set<string>)
    requires forall j :: 0 <= j < |picked| ==> picked[j] < |keys|
    ensures forall k :: k in r <==> exists j :: 0 <= j < |picked| && keys[picked[j]] == k
  {
    set j | 0 <= j < |picked| :: keys[picked[j]]
  }

  /** The positions of the imported rows, given each row's key and what
      `selectOne` would answer for it; `Throws` when a lookup that is made
      throws. */
  function Kept(keys: seq<string>, lookups: seq<Result<bool>>): (r: Result<seq<nat>>)
    requires |keys| == |lookups|
    ensures r.Ok? ==> |r.value| <= |keys| && forall j :: 0 <= j < |r.value| ==> r.value[j] < |keys|
    decreases |keys|
  {
    if keys == [] then Ok([])
    else
      var n := |keys| - 1;
      match Kept(keys[..n], lookups[..n])
      case Throws => Throws
      case Ok(ks) =>
        if keys[n] in KeysAt(keys, ks) then Ok(ks)
        else match lookups[n]
          case Throws => Throws
          case Ok(found) => if found then Ok(ks) else Ok(ks + [n])
  }

  /** One more row: what `Kept` does with row `i` given the rows before it. */
  lemma KeptStep(keys: seq<string>, lookups: seq<Result<bool>>, i: nat)
    requires |keys| == |lookups| && i < |keys|
    ensures Kept(keys[..i + 1], lookups[..i + 1]) ==
      match Kept(keys[..i], lookups[..i])
      case Throws => Throws
      case Ok(ks) =>
        if keys[i] in KeysAt(keys, ks) then Ok(ks)
        else match lookups[i]
          case Throws => Throws
          case Ok(found) => if found then Ok(ks) else Ok(ks + [i])
  {
    assert keys[..i + 1][..i] == keys[..i] && lookups[..i + 1][..i] == lookups[..i];
    var prefix := Kept(keys[..i], lookups[..i]);
    if prefix.Ok? {
      assert KeysAt(keys[..i + 1], prefix.value) == KeysAt(keys, prefix.value);
    }
  }

  lemma KeysAtAppend(keys: seq<string>, picked: seq<nat>, i: nat)
    requires i < |keys| && forall j :: 0 <= j < |picked| ==> picked[j] < |keys|
    ensures KeysAt(keys, picked + [i]) == KeysAt(keys, picked) + {keys[i]}
  {
    var p := picked + [i];
    assert p[|picked|] == i;
    forall k | k in KeysAt(keys, p)
      ensures k in KeysAt(keys, picked) + {keys[i]}
    {
      var j :| 0 <= j < |p| && keys[p[j]] == k;
      if j < |picked| {
        assert p[j] == picked[j];
      }
    }
    forall k | k in KeysAt(keys, picked)
      ensures k in KeysAt(keys, p)
    {
      var j :| 0 <= j < |picked| && keys[picked[j]] == k;
      assert p[j] == picked[j];
    }
  }

  /** Once a lookup has thrown, the whole import throws. */
  lemma {:induction false} ThrowsPersists(keys: seq<string>, lookups: seq<Result<bool>>, i: nat)
    requires |keys| == |lookups| && i <= |keys|
    requires Kept(keys[..i], lookups[..i]).Throws?
    ensures Kept(keys, lookups).Throws?
    decreases |keys| - i
  {
    if i < |keys| {
      KeptStep(keys, lookups, i);
      ThrowsPersists(keys, lookups, i + 1);
    } else {
      assert keys[..i] == keys && lookups[..i] == lookups;
    }
  }

  /** The import loop: a `HashSet` of the keys taken so far, and a lookup
      only for a row whose key is not in it. `lookups[i]` is read only
      where the loop would call `selectOne`. */
  method SelectKept(keys: seq<string>, lookups: seq<Result<bool>>) returns (r: Result<seq<nat>>)
    requires |keys| == |lookups|
    ensures r == Kept(keys, lookups)
  {
    var seen: set<string> := {};
    var picked: seq<nat> := [];
    var i := 0;
    while i < |keys|
      invariant 0 <= i <= |keys|
      invariant Kept(keys[..i], lookups[..i]) == Ok(picked)
      invariant seen == KeysAt(keys, picked)
    {
      KeptStep(keys, lookups, i);
      if keys[i] !in seen {
        var found := lookups[i];
        if found.Throws? {
          ThrowsPersists(keys, lookups, i + 1);
          return Throws;
        }
        if !found.value {
          KeysAtAppend(keys, picked, i);
          picked := picked + [i];
          seen := seen + {keys[i]};
        }
      }
      i := i + 1;
    }
    assert keys[..|keys|] == keys && lookups[..|keys|] == lookups;
    r := Ok(picked);
  }

  /** The imported rows come in input order, none of them has a stored
      match, and no two share a key. */
  lemma KeptShape(keys: seq<string>, lookups: seq<Result<bool>>)
    requires |keys| == |lookups| && Kept(keys, lookups).Ok?
    ensures Increasing(Kept(keys, lookups).value)
    ensures forall j :: 0 <= j < |Kept(keys, lookups).value| ==> lookups[Kept(keys, lookups).value[j]] == Ok(false)
    ensures var ks := Kept(keys, lookups).value;
      forall i, j :: 0 <= i < j < |ks| ==> keys[ks[i]] != keys[ks[j]]
  {
    KeptIncreasing(keys, lookups);
    KeptUnmatched(keys, lookups);
    KeptDistinct(keys, lookups);
  }

  lemma {:induction false} KeptIncreasing(keys: seq<string>, lookups: seq<Result<bool>>)
    requires |keys| == |lookups| && Kept(keys, lookups).Ok?
    ensures Increasing(Kept(keys, lookups).value)
    decreases |keys|
  {
    if keys != [] {
      var n := |keys| - 1;
      KeptIncreasing(keys[..n], lookups[..n]);
    }
  }

  lemma {:induction false} KeptUnmatched(keys: seq<string>, lookups: seq<Result<bool>>)
    requires |keys| == |lookups| && Kept(keys, lookups).Ok?
    ensures forall j :: 0 <= j < |Kept(keys, lookups).value| ==> lookups[Kept(keys, lookups).value[j]] == Ok(false)
    decreases |keys|
  {
    if keys != [] {
      var n := |keys| - 1;
      KeptUnmatched(keys[..n], lookups[..n]);
      var ks := Kept(keys[..n], lookups[..n]).value;
      assert forall j :: 0 <= j < |ks| ==> lookups[..n][ks[j]] == lookups[ks[j]];
    }
  }

  lemma {:induction false} KeptDistinct(keys: seq<string>, lookups: seq<Result<bool>>)
    requires |keys| == |lookups| && Kept(keys, lookups).Ok?
    ensures var ks := Kept(keys, lookups).value;
      forall i, j :: 0 <= i < j < |ks| ==> keys[ks[i]] != keys[ks[j]]
    decreases |keys|
  {
    if keys != [] {
      var n := |keys| - 1;
      KeptDistinct(keys[..n], lookups[..n]);
      var ks := Kept(keys[..n], lookups[..n]).value;
      assert forall j :: 0 <= j < |ks| ==> keys[..n][ks[j]] == keys[ks[j]];
    }
  }

  /** The first occurrence of a key wins: a row without a stored match is
      imported unless an earlier imported row has its key. */
  lemma {:induction false} FirstOccurrenceKept(keys: seq<string>, lookups: seq<Result<bool>>, i: nat)
    requires |keys| == |lookups| && Kept(keys, lookups).Ok?
    requires i < |keys| && lookups[i] == Ok(false)
    ensures var ks := Kept(keys, lookups).value;
      (exists j :: 0 <= j < |ks| && ks[j] == i) <==>
      (forall j :: 0 <= j < |ks| && ks[j] < i ==> keys[ks[j]] != keys[i])
    decreases |keys|
  {
    var n := |keys| - 1;
    if i < n {
      FirstOccurrenceKept(keys[..n], lookups[..n], i);
      FirstOccurrenceEarlier(keys, lookups, i);
    } else {
      FirstOccurrenceLast(keys, lookups);
    }
  }

  /** The last row: imported exactly when no imported row before it has its key. */
  lemma FirstOccurrenceLast(keys: seq<string>, lookups: seq<Result<bool>>)
    requires |keys| == |lookups| && |keys| > 0 && Kept(keys, lookups).Ok?
    requires lookups[|keys| - 1] == Ok(false)
    ensures var i := |keys| - 1; var ks := Kept(keys, lookups).value;
      (exists j :: 0 <= j < |ks| && ks[j] == i) <==>
      (forall j :: 0 <= j < |ks| && ks[j] < i ==> keys[ks[j]] != keys[i])
  {
    var n := |keys| - 1;
    var ks := Kept(keys[..n], lookups[..n]).value;
    var all := Kept(keys, lookups).value;
    if keys[n] in KeysAt(keys, ks) {
      var j :| 0 <= j < |ks| && keys[ks[j]] == keys[n];
      assert all == ks && ks[j] < n;
    } else {
      assert all == ks + [n] && all[|ks|] == n;
      assert forall j :: 0 <= j < |all| && all[j] < n ==> j < |ks| && all[j] == ks[j];
    }
  }

  /** An earlier row: the answer for it is the one the prefix gives. */
  lemma FirstOccurrenceEarlier(keys: seq<string>, lookups: seq<Result<bool>>, i: nat)
    requires |keys| == |lookups| && Kept(keys, lookups).Ok?
    requires i < |keys| - 1
    requires var n := |keys| - 1; var ks := Kept(keys[..n], lookups[..n]).value;
      (exists j :: 0 <= j < |ks| && ks[j] == i) <==>
      (forall j :: 0 <= j < |ks| && ks[j] < i ==> keys[..n][ks[j]] != keys[..n][i])
    ensures var ks := Kept(keys, lookups).value;
      (exists j :: 0 <= j < |ks| && ks[j] == i) <==>
      (forall j :: 0 <= j < |ks| && ks[j] < i ==> keys[ks[j]] != keys[i])
  {
    var n := |keys| - 1;
    var ks := Kept(keys[..n], lookups[..n]).value;
    var all := Kept(keys, lookups).value;
    KeptExtendsPrefix(keys, lookups);
    if exists j :: 0 <= j < |all| && all[j] == i {
      var j :| 0 <= j < |all| && all[j] == i;
      assert j < |ks| && ks[j] == i;
    }
    if exists j :: 0 <= j < |ks| && ks[j] == i {
      var j :| 0 <= j < |ks| && ks[j] == i;
      assert all[j] == i;
    }
    assert forall j :: 0 <= j < |ks| ==> keys[..n][ks[j]] == keys[ks[j]];
    assert forall j :: 0 <= j < |all| && all[j] < i ==> j < |ks|;
  }

  /** The rows kept from all the keys are those kept from all but the last,
      possibly followed by the last. */
  lemma KeptExtendsPrefix(keys: seq<string>, lookups: seq<Result<bool>>)
    requires |keys| == |lookups| && |keys| > 0 && Kept(keys, lookups).Ok?
    ensures Kept(keys[..|keys| - 1], lookups[..|keys| - 1]).Ok?
    ensures var n := |keys| - 1;
      var ks := Kept(keys[..n], lookups[..n]).value; var all := Kept(keys, lookups).value;
      |ks| <= |all| <= |ks| + 1 && (forall j :: 0 <= j < |ks| ==> all[j] == ks[j]) &&
      (forall j :: |ks| <= j < |all| ==> all[j] == n)
  {
  }

  /** Every row without a stored match is represented: it, or an earlier
      row with its key, is imported. */
  lemma {:induction false} UnmatchedKeyImported(keys: seq<string>, lookups: seq<Result<bool>>, i: nat)
    requires |keys| == |lookups| && Kept(keys, lookups).Ok?
    requires i < |keys| && lookups[i] == Ok(false)
    ensures var ks := Kept(keys, lookups).value;
      exists j :: 0 <= j < |ks| && ks[j] <= i && keys[ks[j]] == keys[i]
    decreases |keys|
  {
    var n := |keys| - 1;
    var ks := Kept(keys[..n], lookups[..n]).value;
    var all := Kept(keys, lookups).value;
    assert forall j :: 0 <= j < |ks| ==> keys[..n][ks[j]] == keys[ks[j]] && all[j] == ks[j];
    if i < n {
      UnmatchedKeyImported(keys[..n], lookups[..n], i);
    } else if keys[n] in KeysAt(keys, ks) {
      var j :| 0 <= j < |ks| && keys[ks[j]] == keys[n];
    } else {
      assert all == ks + [n];
      assert all[|ks|] == n;
    }
  }

  /** Only a lookup can throw: when every answer is a plain yes or no the
      import goes through. */
  lemma {:induction false} KeptWithoutFailures(keys: seq<string>, lookups: seq<Result<bool>>)
    requires |keys| == |lookups|
    requires forall i :: 0 <= i < |lookups| ==> lookups[i].Ok?
    ensures Kept(keys, lookups).Ok?
    decreases |keys|
  {
    if keys != [] {
      var n := |keys| - 1;
      KeptWithoutFailures(keys[..n], lookups[..n]);
    }
  }
}
