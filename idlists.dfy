/**
 * Lists of entities identified by an integer id, as the registry classes keep them
 * (ArrayList<Category>, ArrayList<Program>, ...). `key` extracts the id (`getId()`);
 * Category, Dependency and (in the registry) Program compare equal exactly when their
 * ids are equal, so `list.contains(x)` is a test on ids and `list.remove(x)` removes the
 * first entry with x's id.
 */
module IdLists {
  import opened Wrappers

  /** The ids present in a list */
  function Keys<T(==)>(s: seq<T>, key: T -> int): set<int> {
    set x | x in s :: key(x)
  }

  /** The ids of a concatenation are the ids of both parts */
  lemma KeysAppend<T>(s: seq<T>, t: seq<T>, key: T -> int)
    ensures Keys(s + t, key) == Keys(s, key) + Keys(t, key)
  {
    assert forall x :: x in s + t <==> x in s || x in t;
  }

  lemma KeysOne<T>(x: T, key: T -> int)
    ensures Keys([x], key) == {key(x)}
  {
    assert x in [x];
  }

  /** No two entries share an id */
  predicate DistinctKeys<T(==)>(s: seq<T>, key: T -> int) {
    forall i, j :: 0 <= i < j < |s| ==> key(s[i]) != key(s[j])
  }

  /** The ids of a list, in order */
  function KeySeq<T>(s: seq<T>, key: T -> int): (r: seq<int>)
    ensures |r| == |s| && forall i :: 0 <= i < |s| ==> r[i] == key(s[i])
  {
    seq(|s|, i requires 0 <= i < |s| => key(s[i]))
  }

  lemma KeySeqKeys<T>(s: seq<T>, key: T -> int)
    ensures (set k | k in KeySeq(s, key)) == Keys(s, key)
  {
    var r := KeySeq(s, key);
    forall k | k in r ensures k in Keys(s, key) {
      var i :| 0 <= i < |r| && r[i] == k;
      assert s[i] in s;
    }
    forall x | x in s ensures key(x) in r {
      var i :| 0 <= i < |s| && s[i] == x;
      assert r[i] == key(x);
    }
  }

  /** The position of the first entry with the id, or |s| when there is none */
  function FirstIndex<T(==)>(s: seq<T>, key: T -> int, id: int): (i: nat)
    ensures i <= |s|
    ensures i < |s| ==> key(s[i]) == id
    ensures forall j :: 0 <= j < i ==> key(s[j]) != id
    ensures i == |s| <==> id !in Keys(s, key)
  {
    if s == [] then 0
    else if key(s[0]) == id then 0
    else
      var i := 1 + FirstIndex(s[1..], key, id);
      assert i < |s| ==> s[i] == s[1..][i - 1];
      assert i == |s| ==> forall x :: x in s ==> x == s[0] || x in s[1..];
      i
  }

  /** The early-return lookup loop: the first entry with the id, or null */
  function FindFirst<T(==)>(s: seq<T>, key: T -> int, id: int): (r: Option<T>)
    ensures r.None? <==> id !in Keys(s, key)
    ensures r.Some? ==> r.value in s && key(r.value) == id
    ensures r.Some? ==> exists i :: 0 <= i < |s| && s[i] == r.value && forall j :: 0 <= j < i ==> key(s[j]) != id
  {
    var i := FirstIndex(s, key, id);
    if i < |s| then Some(s[i]) else None
  }

  /** The iterator loop that calls `it.remove()` on the first entry with the id and stops */
  function RemoveFirst<T(==)>(s: seq<T>, key: T -> int, id: int): seq<T> {
    var i := FirstIndex(s, key, id);
    if i < |s| then s[..i] + s[i + 1..] else s
  }

  /** Removing an absent id leaves the list as it was; otherwise exactly the first match goes, the rest keep their order */
  lemma RemoveFirstShape<T>(s: seq<T>, key: T -> int, id: int)
    ensures id !in Keys(s, key) ==> RemoveFirst(s, key, id) == s
    ensures id in Keys(s, key) ==>
      exists i :: 0 <= i < |s| && key(s[i]) == id && (forall j :: 0 <= j < i ==> key(s[j]) != id)
        && FindFirst(s, key, id) == Some(s[i]) && RemoveFirst(s, key, id) == s[..i] + s[i + 1..]
    ensures |RemoveFirst(s, key, id)| == if id in Keys(s, key) then |s| - 1 else |s|
  {
    var i := FirstIndex(s, key, id);
    if i < |s| {
      assert key(s[i]) == id && FindFirst(s, key, id) == Some(s[i]);
    }
  }

  /** A lookup in a concatenation finds the first part's entry whenever the first part has the id */
  lemma FindFirstConcat<T>(a: seq<T>, b: seq<T>, key: T -> int, id: int)
    ensures FindFirst(a + b, key, id) == if id in Keys(a, key) then FindFirst(a, key, id) else FindFirst(b, key, id)
  {
    var t := a + b;
    assert forall j :: 0 <= j < |a| ==> t[j] == a[j];
    assert forall j :: 0 <= j < |b| ==> t[|a| + j] == b[j];
    var i := FirstIndex(a, key, id);
    if i < |a| {
      assert FirstIndex(t, key, id) == i;
    } else {
      var m := FirstIndex(b, key, id);
      if m < |b| {
        assert FirstIndex(t, key, id) == |a| + m;
      } else {
        assert Keys(t, key) == Keys(a, key) + Keys(b, key) by {
          forall x | x in t ensures x in a || x in b {
            var k :| 0 <= k < |t| && t[k] == x;
            if k >= |a| { assert t[k] == b[k - |a|]; }
          }
          forall x | x in b ensures x in t { var k :| 0 <= k < |b| && b[k] == x; assert t[|a| + k] == x; }
        }
      }
    }
  }

  /** After an append, a lookup finds the old first match if there was one, otherwise the new entry when its id matches */
  lemma FindFirstAppend<T>(s: seq<T>, x: T, key: T -> int, id: int)
    ensures FindFirst(s + [x], key, id) ==
      if id in Keys(s, key) then FindFirst(s, key, id) else if key(x) == id then Some(x) else None
  {
    var t := s + [x];
    assert forall j :: 0 <= j < |s| ==> t[j] == s[j];
    assert t[|s|] == x;
    var i := FirstIndex(s, key, id);
    if i < |s| {
      assert FirstIndex(t, key, id) == i;
    } else {
      assert forall j :: 0 <= j < |s| ==> key(t[j]) != id;
      if key(x) == id {
        assert FirstIndex(t, key, id) == |s|;
      } else {
        assert Keys(t, key) == Keys(s, key) + {key(x)};
      }
    }
  }

  /** Removing the id of an entry just appended under a new id undoes the append */
  lemma RemoveFirstAppendNew<T>(s: seq<T>, x: T, key: T -> int)
    requires key(x) !in Keys(s, key)
    ensures RemoveFirst(s + [x], key, key(x)) == s
  {
    var t := s + [x];
    assert forall j :: 0 <= j < |s| ==> t[j] == s[j];
    assert forall j :: 0 <= j < |s| ==> key(t[j]) != key(x);
    assert FirstIndex(t, key, key(x)) == |s|;
    assert t[..|s|] == s;
  }

  /** Keeps the entries whose id is not in ids, in order */
  function Without<T(==)>(s: seq<T>, key: T -> int, ids: set<int>): (r: seq<T>)
    ensures forall i :: 0 <= i < |r| ==> r[i] in s && key(r[i]) !in ids
    ensures forall i :: 0 <= i < |s| && key(s[i]) !in ids ==> s[i] in r
    ensures |r| <= |s|
  {
    if s == [] then []
    else (if key(s[0]) in ids then [] else [s[0]]) + Without(s[1..], key, ids)
  }

  lemma WithoutKeys<T>(s: seq<T>, key: T -> int, ids: set<int>)
    ensures Keys(Without(s, key, ids), key) == Keys(s, key) - ids
  {
  }

  lemma {:induction false} WithoutDistinct<T>(s: seq<T>, key: T -> int, ids: set<int>)
    requires DistinctKeys(s, key)
    ensures DistinctKeys(Without(s, key, ids), key)
  {
    if s != [] {
      WithoutDistinct(s[1..], key, ids);
      var rest := Without(s[1..], key, ids);
      forall x | x in rest ensures key(x) != key(s[0]) {
        var j :| 0 <= j < |s[1..]| && s[1..][j] == x;
        assert s[j + 1] == x;
      }
    }
  }

  /** Filtering twice is filtering once by both id sets */
  lemma {:induction false} WithoutWithout<T>(s: seq<T>, key: T -> int, a: set<int>, b: set<int>)
    ensures Without(Without(s, key, a), key, b) == Without(s, key, a + b)
  {
    if s != [] {
      WithoutWithout(s[1..], key, a, b);
      var head := if key(s[0]) in a then [] else [s[0]];
      assert Without(s, key, a) == head + Without(s[1..], key, a);
      WithoutAppend(head, Without(s[1..], key, a), key, b);
    }
  }

  lemma {:induction false} WithoutAppend<T>(s: seq<T>, t: seq<T>, key: T -> int, ids: set<int>)
    ensures Without(s + t, key, ids) == Without(s, key, ids) + Without(t, key, ids)
  {
    if s != [] {
      assert (s + t)[1..] == s[1..] + t;
      WithoutAppend(s[1..], t, key, ids);
    } else {
      assert s + t == t;
    }
  }

  /** With distinct ids, removing the first entry with an id removes every entry with it */
  lemma {:induction false} RemoveFirstIsWithout<T>(s: seq<T>, key: T -> int, id: int)
    requires DistinctKeys(s, key)
    ensures RemoveFirst(s, key, id) == Without(s, key, {id})
  {
    if s != [] {
      RemoveFirstCons(s, key, id);
      if key(s[0]) == id {
        forall x | x in s[1..] ensures key(x) !in {id} {
          var j :| 0 <= j < |s[1..]| && s[1..][j] == x;
          assert s[j + 1] == x;
        }
        WithoutNone(s[1..], key, {id});
      } else {
        RemoveFirstIsWithout(s[1..], key, id);
      }
    }
  }

  /** RemoveFirst unfolded one entry at a time */
  lemma RemoveFirstCons<T>(s: seq<T>, key: T -> int, id: int)
    requires s != []
    ensures RemoveFirst(s, key, id) == if key(s[0]) == id then s[1..] else [s[0]] + RemoveFirst(s[1..], key, id)
  {
    if key(s[0]) != id {
      var i := FirstIndex(s[1..], key, id);
      assert FirstIndex(s, key, id) == i + 1;
      if i < |s[1..]| {
        assert s[..i + 1] == [s[0]] + s[1..][..i];
        assert s[i + 2..] == s[1..][i + 1..];
      }
    }
  }

  /** Filtering out every id that occurs leaves nothing */
  lemma WithoutAll<T>(s: seq<T>, key: T -> int, ids: set<int>)
    requires forall x :: x in s ==> key(x) in ids
    ensures Without(s, key, ids) == []
  {
  }

  /** Filtering out ids that do not occur changes nothing */
  lemma {:induction false} WithoutNone<T>(s: seq<T>, key: T -> int, ids: set<int>)
    requires forall x :: x in s ==> key(x) !in ids
    ensures Without(s, key, ids) == s
  {
    if s != [] {
      assert s[0] in s;
      WithoutNone(s[1..], key, ids);
      assert [s[0]] + s[1..] == s;
    }
  }

  /** `for (x : xs) list.remove(x)` for a sequence of ids, each removal taking the first match */
  function RemoveEach<T(==)>(s: seq<T>, key: T -> int, ids: seq<int>): seq<T>
    decreases |ids|
  {
    if ids == [] then s else RemoveEach(RemoveFirst(s, key, ids[0]), key, ids[1..])
  }

  /** With distinct ids, removing each id in turn filters them all out, whatever their order */
  lemma {:induction false} RemoveEachIsWithout<T>(s: seq<T>, key: T -> int, ids: seq<int>)
    requires DistinctKeys(s, key)
    ensures RemoveEach(s, key, ids) == Without(s, key, set k | k in ids)
    decreases |ids|
  {
    if ids == [] {
      assert (set k | k in ids) == {};
      WithoutNone(s, key, {});
    } else {
      RemoveFirstIsWithout(s, key, ids[0]);
      WithoutDistinct(s, key, {ids[0]});
      RemoveEachIsWithout(Without(s, key, {ids[0]}), key, ids[1..]);
      WithoutWithout(s, key, {ids[0]}, set k | k in ids[1..]);
      assert (set k | k in ids) == {ids[0]} + (set k | k in ids[1..]);
    }
  }

  /**
   * The "add unless already contained" loop: each x of xs, in order, is appended to acc
   * unless an entry with its id is already there
   */
  function AppendMissing<T(==)>(acc: seq<T>, xs: seq<T>, key: T -> int): seq<T>
    decreases |xs|
  {
    if xs == [] then acc
    else AppendMissing(AppendStep(acc, xs[0], key), xs[1..], key)
  }

  /**
   * What AppendMissing builds: acc unchanged in front, then entries of xs whose ids were not
   * in acc; every id of acc and of xs is present and, when acc had no duplicate id, none is repeated
   */
  lemma AppendMissingSpec<T>(acc: seq<T>, xs: seq<T>, key: T -> int)
    ensures |AppendMissing(acc, xs, key)| >= |acc|
    ensures AppendMissing(acc, xs, key)[..|acc|] == acc
    ensures Keys(AppendMissing(acc, xs, key), key) == Keys(acc, key) + Keys(xs, key)
    ensures DistinctKeys(acc, key) ==> DistinctKeys(AppendMissing(acc, xs, key), key)
    ensures forall j :: |acc| <= j < |AppendMissing(acc, xs, key)| ==>
      AppendMissing(acc, xs, key)[j] in xs && key(AppendMissing(acc, xs, key)[j]) !in Keys(acc, key)
  {
    AppendMissingPrefix(acc, xs, key);
    AppendMissingKeys(acc, xs, key);
    if DistinctKeys(acc, key) {
      AppendMissingDistinct(acc, xs, key);
    }
  }

  /** The step AppendMissing takes for the first element of xs */
  function AppendStep<T(==)>(acc: seq<T>, x: T, key: T -> int): seq<T> {
    if key(x) in Keys(acc, key) then acc else acc + [x]
  }

  /** AppendMissing keeps acc in front and adds only entries of xs whose ids acc does not have */
  lemma {:induction false} AppendMissingPrefix<T>(acc: seq<T>, xs: seq<T>, key: T -> int)
    ensures |AppendMissing(acc, xs, key)| >= |acc|
    ensures AppendMissing(acc, xs, key)[..|acc|] == acc
    ensures forall j :: |acc| <= j < |AppendMissing(acc, xs, key)| ==>
      AppendMissing(acc, xs, key)[j] in xs && key(AppendMissing(acc, xs, key)[j]) !in Keys(acc, key)
    decreases |xs|
  {
    if xs != [] {
      var next := AppendStep(acc, xs[0], key);
      AppendMissingPrefix(next, xs[1..], key);
      var r := AppendMissing(acc, xs, key);
      assert r == AppendMissing(next, xs[1..], key);
      assert next[..|acc|] == acc;
      assert Keys(next, key) == Keys(acc, key) + (if next == acc then {} else {key(xs[0])});
      forall j | |acc| <= j < |r| ensures r[j] in xs && key(r[j]) !in Keys(acc, key) {
        if j < |next| {
          assert next != acc && r[j] == next[j] == xs[0];
        } else {
          assert r[j] in xs[1..];
        }
      }
    }
  }

  /** AppendMissing ends up with the ids of acc and of xs */
  lemma {:induction false} AppendMissingKeys<T>(acc: seq<T>, xs: seq<T>, key: T -> int)
    ensures Keys(AppendMissing(acc, xs, key), key) == Keys(acc, key) + Keys(xs, key)
    decreases |xs|
  {
    if xs != [] {
      var next := AppendStep(acc, xs[0], key);
      AppendMissingKeys(next, xs[1..], key);
      assert Keys(next, key) == Keys(acc, key) + {key(xs[0])};
      assert Keys(xs, key) == {key(xs[0])} + Keys(xs[1..], key) by {
        assert forall x :: x in xs <==> x == xs[0] || x in xs[1..];
      }
    }
  }

  /** AppendMissing adds no id twice */
  lemma {:induction false} AppendMissingDistinct<T>(acc: seq<T>, xs: seq<T>, key: T -> int)
    requires DistinctKeys(acc, key)
    ensures DistinctKeys(AppendMissing(acc, xs, key), key)
    decreases |xs|
  {
    if xs != [] {
      var next := AppendStep(acc, xs[0], key);
      assert DistinctKeys(next, key);
      AppendMissingDistinct(next, xs[1..], key);
    }
  }

  /** Filtering out the ids AppendMissing added undoes it */
  lemma AppendMissingWithout<T>(acc: seq<T>, xs: seq<T>, key: T -> int)
    requires DistinctKeys(acc, key)
    ensures Without(AppendMissing(acc, xs, key), key, Keys(xs, key) - Keys(acc, key)) == acc
  {
    var added := AppendMissing(acc, xs, key);
    var gone := Keys(xs, key) - Keys(acc, key);
    AppendMissingPrefix(acc, xs, key);
    var extra := added[|acc|..];
    assert added == acc + extra;
    forall x | x in extra ensures key(x) in gone {
      var j :| 0 <= j < |extra| && extra[j] == x;
      assert added[|acc| + j] == x;
    }
    WithoutAppend(acc, extra, key, gone);
    WithoutNone(acc, key, gone);
    WithoutAll(extra, key, gone);
    assert acc + [] == acc;
  }

  /** Running AppendMissing over a concatenation is running it over each part in turn */
  lemma {:induction false} AppendMissingConcat<T>(acc: seq<T>, xs: seq<T>, ys: seq<T>, key: T -> int)
    ensures AppendMissing(acc, xs + ys, key) == AppendMissing(AppendMissing(acc, xs, key), ys, key)
    decreases |xs|
  {
    if xs == [] {
      assert xs + ys == ys;
    } else {
      AppendMissingConcat(AppendStep(acc, xs[0], key), xs[1..], ys, key);
      assert (xs + ys)[0] == xs[0];
      assert (xs + ys)[1..] == xs[1..] + ys;
    }
  }

  /** Keeps the entries that satisfy keep, in order */
  function Filter<T(==)>(s: seq<T>, keep: T -> bool): (r: seq<T>)
    ensures forall i :: 0 <= i < |r| ==> r[i] in s && keep(r[i])
    ensures forall i :: 0 <= i < |s| && keep(s[i]) ==> s[i] in r
    ensures |r| <= |s|
  {
    if s == [] then [] else (if keep(s[0]) then [s[0]] else []) + Filter(s[1..], keep)
  }

  /** A filter every entry passes keeps the list as it is */
  lemma {:induction false} FilterAll<T>(s: seq<T>, keep: T -> bool)
    requires forall x :: x in s ==> keep(x)
    ensures Filter(s, keep) == s
  {
    if s != [] {
      assert s[0] in s;
      FilterAll(s[1..], keep);
      assert [s[0]] + s[1..] == s;
    }
  }

  /** Filtering one more element keeps it at the end exactly when it passes */
  lemma {:induction false} FilterSnoc<T>(s: seq<T>, x: T, keep: T -> bool)
    ensures Filter(s + [x], keep) == Filter(s, keep) + (if keep(x) then [x] else [])
  {
    if s == [] {
      assert s + [x] == [x];
      assert [x][1..] == [];
    } else {
      var head := if keep(s[0]) then [s[0]] else [];
      var tail := if keep(x) then [x] else [];
      FilterSnoc(s[1..], x, keep);
      assert (s + [x])[0] == s[0];
      assert (s + [x])[1..] == s[1..] + [x];
      calc {
        Filter(s + [x], keep);
        head + Filter(s[1..] + [x], keep);
        head + (Filter(s[1..], keep) + tail);
        { assert head + (Filter(s[1..], keep) + tail) == (head + Filter(s[1..], keep)) + tail; }
        Filter(s, keep) + tail;
      }
    }
  }

  /** AppendMissing over one more element takes one more AppendStep */
  lemma {:induction false} AppendMissingSnoc<T>(acc: seq<T>, xs: seq<T>, x: T, key: T -> int)
    ensures AppendMissing(acc, xs + [x], key) == AppendStep(AppendMissing(acc, xs, key), x, key)
    decreases |xs|
  {
    if xs == [] {
      assert xs + [x] == [x];
      assert [x][1..] == [];
    } else {
      AppendMissingSnoc(AppendStep(acc, xs[0], key), xs[1..], x, key);
      assert (xs + [x])[0] == xs[0];
      assert (xs + [x])[1..] == xs[1..] + [x];
    }
  }

  /** In a list without repeated ids, removing an entry's id removes that entry and nothing else */
  lemma RemoveFirstElements<T>(s: seq<T>, key: T -> int, x: T)
    requires DistinctKeys(s, key) && x in s
    ensures forall y :: y in RemoveFirst(s, key, key(x)) <==> y in s && y != x
  {
    var i := FirstIndex(s, key, key(x));
    var k :| 0 <= k < |s| && s[k] == x;
    assert i == k;
    var r := RemoveFirst(s, key, key(x));
    assert r == s[..i] + s[i + 1..];
    forall y ensures y in r <==> y in s && y != x {
      if y in r {
        var j :| 0 <= j < |r| && r[j] == y;
        if j < i {
          assert y == s[j];
        } else {
          assert y == s[j + 1];
        }
      }
      if y in s && y != x {
        var j :| 0 <= j < |s| && s[j] == y;
        if j < i {
          assert r[j] == y;
        } else {
          assert r[j - 1] == y;
        }
      }
    }
  }

  /** The early-return lookup loop of getCategory, getDependency and getProgram */
  method Find<T>(s: seq<T>, key: T -> int, id: int) returns (r: Option<T>)
    ensures r == FindFirst(s, key, id)
  {
    for i := 0 to |s|
      invariant forall j :: 0 <= j < i ==> key(s[j]) != id
    {
      if key(s[i]) == id {
        return Some(s[i]);
      }
    }
    return None;
  }

  /** The iterator loop of removeCategory, deleteProgram, ...: removes the first match and returns it */
  method Remove<T>(s: seq<T>, key: T -> int, id: int) returns (r: seq<T>, removed: Option<T>)
    ensures r == RemoveFirst(s, key, id)
    ensures removed == FindFirst(s, key, id)
  {
    for i := 0 to |s|
      invariant forall j :: 0 <= j < i ==> key(s[j]) != id
    {
      if key(s[i]) == id {
        return s[..i] + s[i + 1..], Some(s[i]);
      }
    }
    return s, None;
  }

  /** The `if (!list.contains(x)) list.add(x)` loop over xs, contains comparing ids */
  method AddMissing<T(==)>(acc: seq<T>, xs: seq<T>, key: T -> int) returns (r: seq<T>)
    ensures r == AppendMissing(acc, xs, key)
  {
    r := acc;
    for i := 0 to |xs|
      invariant r == AppendMissing(acc, xs[..i], key)
    {
      AppendMissingSnoc(acc, xs[..i], xs[i], key);
      assert xs[..i + 1] == xs[..i] + [xs[i]];
      if key(xs[i]) !in Keys(r, key) {
        r := r + [xs[i]];
      }
    }
    assert xs[..|xs|] == xs;
  }

  /** A loop that appends each entry passing keep to a fresh list */
  method Select<T(==)>(s: seq<T>, keep: T -> bool) returns (r: seq<T>)
    ensures r == Filter(s, keep)
  {
    r := [];
    for i := 0 to |s|
      invariant r == Filter(s[..i], keep)
    {
      FilterSnoc(s[..i], s[i], keep);
      assert s[..i + 1] == s[..i] + [s[i]];
      if keep(s[i]) {
        r := r + [s[i]];
      }
    }
    assert s[..|s|] == s;
  }

  /** A loop that skips entries failing keep and appends the others unless their id is listed */
  method AddMissingWhere<T(==)>(acc: seq<T>, s: seq<T>, keep: T -> bool, key: T -> int) returns (r: seq<T>)
    ensures r == AppendMissing(acc, Filter(s, keep), key)
  {
    r := acc;
    for i := 0 to |s|
      invariant r == AppendMissing(acc, Filter(s[..i], keep), key)
    {
      AddMissingWhereStep(acc, s, i, keep, key);
      if !keep(s[i]) {
        continue;
      }
      if key(s[i]) !in Keys(r, key) {
        r := r + [s[i]];
      }
    }
    assert s[..|s|] == s;
  }

  /** One step of AddMissingWhere: a skipped entry changes nothing, a kept one takes an AppendStep */
  lemma AddMissingWhereStep<T>(acc: seq<T>, s: seq<T>, i: nat, keep: T -> bool, key: T -> int)
    requires i < |s|
    ensures AppendMissing(acc, Filter(s[..i + 1], keep), key) ==
      if keep(s[i]) then AppendStep(AppendMissing(acc, Filter(s[..i], keep), key), s[i], key)
      else AppendMissing(acc, Filter(s[..i], keep), key)
  {
    FilterSnoc(s[..i], s[i], keep);
    assert s[..i + 1] == s[..i] + [s[i]];
    if keep(s[i]) {
      AppendMissingSnoc(acc, Filter(s[..i], keep), s[i], key);
    } else {
      assert Filter(s[..i], keep) + [] == Filter(s[..i], keep);
    }
  }

  /** One step of the loop deleting the keys of a list from a map held as a list */
  lemma WithoutStep<T>(s: seq<T>, key: T -> int, prefix: seq<T>, x: T, r: seq<T>)
    requires r == Without(s, key, Keys(prefix, key))
    ensures Without(r, key, {key(x)}) == Without(s, key, Keys(prefix + [x], key))
    ensures key(x) !in Keys(r, key) ==> r == Without(s, key, Keys(prefix + [x], key))
  {
    KeysAppend(prefix, [x], key);
    KeysOne(x, key);
    WithoutWithout(s, key, Keys(prefix, key), {key(x)});
    if key(x) !in Keys(r, key) {
      WithoutNone(r, key, {key(x)});
    }
  }
}
