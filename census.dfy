/**
 * Census helpers (objgraph.py:62-263): counting tracked objects by type name.
 *
 * The collector's `gc.get_objects()` becomes an explicit snapshot: a sequence
 * of tracked objects, each with its identity and its type's `__name__`.
 */
module Census {
  import opened RefGraph

  datatype Tracked = Tracked(id: Obj, typeName: string)

  /** A row of a census table: a type name and a number (a count or a delta). */
  type Row = (string, int)

  // ---------------------------------------------------------------------
  // count, by_type (objgraph.py:62-80, 230-246)
  // ---------------------------------------------------------------------

  /** `count(typename, objects)`. */
  function Count(t: string, objs: seq<Tracked>): (n: nat)
    ensures n <= |objs|
    ensures n == 0 <==> forall i :: 0 <= i < |objs| ==> objs[i].typeName != t
  {
    if objs == [] then 0
    else Count(t, objs[..|objs| - 1]) + (if objs[|objs| - 1].typeName == t then 1 else 0)
  }

  /** `by_type(typename, objects)`: the objects of that type, in order. */
  function ByType(t: string, objs: seq<Tracked>): (r: seq<Tracked>)
    ensures forall o :: o in r ==> o in objs && o.typeName == t
    ensures forall o :: o in objs && o.typeName == t ==> o in r
  {
    if objs == [] then []
    else
      var last := objs[|objs| - 1];
      ByType(t, objs[..|objs| - 1]) + (if last.typeName == t then [last] else [])
  }

  /**
   * `by_type` keeps the snapshot's order and multiplicity: it distributes
   * over concatenation and keeps a single object exactly when its type
   * name is `t`.
   */
  lemma {:induction false} ByTypeConcat(t: string, a: seq<Tracked>, b: seq<Tracked>)
    ensures ByType(t, a + b) == ByType(t, a) + ByType(t, b)
    ensures forall o :: ByType(t, [o]) == if o.typeName == t then [o] else []
    decreases |b|
  {
    if b == [] {
      assert a + b == a;
    } else {
      var init, o := b[..|b| - 1], b[|b| - 1];
      assert (a + b)[..|a + b| - 1] == a + init;
      assert (a + b)[|a + b| - 1] == o;
      ByTypeConcat(t, a, init);
      var tail := if o.typeName == t then [o] else [];
      AppendAssoc(ByType(t, a), ByType(t, init), tail);
    }
    forall o ensures ByType(t, [o]) == if o.typeName == t then [o] else [] {
      assert [o][..0] == [];
    }
  }

  /** `count(t) == len(by_type(t))` on the same snapshot. */
  lemma {:induction false} CountIsByTypeLength(t: string, objs: seq<Tracked>)
    ensures Count(t, objs) == |ByType(t, objs)|
  {
    if objs != [] {
      CountIsByTypeLength(t, objs[..|objs| - 1]);
    }
  }

  // ---------------------------------------------------------------------
  // typestats (objgraph.py:83-110)
  // ---------------------------------------------------------------------

  /** Sum of the values of a table. */
  ghost function MapSum(m: map<string, nat>): nat
    decreases |m.Keys|
  {
    if m == map[] then 0
    else
      var k :| k in m;
      assert (m - {k}).Keys == m.Keys - {k};
      m[k] + MapSum(m - {k})
  }

  lemma {:induction false} MapSumRemove(m: map<string, nat>, k: string)
    requires k in m
    ensures MapSum(m) == m[k] + MapSum(m - {k})
    decreases |m.Keys|
  {
    var k' :| k' in m && MapSum(m) == m[k'] + MapSum(m - {k'});
    if k' != k {
      assert (m - {k'}).Keys == m.Keys - {k'};
      assert (m - {k}).Keys == m.Keys - {k};
      MapSumRemove(m - {k'}, k);
      MapSumRemove(m - {k}, k');
      assert (m - {k'}) - {k} == (m - {k}) - {k'};
    }
  }

  lemma MapSumUpdate(m: map<string, nat>, k: string, v: nat)
    ensures MapSum(m[k := v]) == MapSum(m) - (if k in m then m[k] else 0) + v
  {
    MapSumRemove(m[k := v], k);
    assert m[k := v] - {k} == m - {k};
    if k in m {
      MapSumRemove(m, k);
    } else {
      assert m - {k} == m;
    }
  }

  /** The table `typestats` builds, one object at a time. */
  ghost function Stats(objs: seq<Tracked>): map<string, nat> {
    if objs == [] then map[]
    else
      var m := Stats(objs[..|objs| - 1]);
      var t := objs[|objs| - 1].typeName;
      m[t := (if t in m then m[t] else 0) + 1]
  }

  /** The table holds exactly the type names present, each with its count. */
  lemma {:induction false} StatsCounts(objs: seq<Tracked>)
    ensures forall t :: t in Stats(objs) <==> Count(t, objs) > 0
    ensures forall t :: t in Stats(objs) ==> Stats(objs)[t] == Count(t, objs)
  {
    if objs != [] {
      var init := objs[..|objs| - 1];
      StatsCounts(init);
      forall t ensures (t in Stats(objs) <==> Count(t, objs) > 0) && (t in Stats(objs) ==> Stats(objs)[t] == Count(t, objs)) {
        assert Count(t, objs) == Count(t, init) + (if objs[|objs| - 1].typeName == t then 1 else 0);
      }
    }
  }

  /** The counts in the table add up to the number of objects. */
  lemma {:induction false} StatsSum(objs: seq<Tracked>)
    ensures MapSum(Stats(objs)) == |objs|
  {
    if objs != [] {
      var init := objs[..|objs| - 1];
      StatsSum(init);
      var m := Stats(init);
      var t := objs[|objs| - 1].typeName;
      MapSumUpdate(m, t, (if t in m then m[t] else 0) + 1);
    }
  }

  /** `typestats(objects)`: one entry per type name present, holding its count. */
  method TypeStats(objs: seq<Tracked>) returns (stats: map<string, nat>)
    ensures forall t :: t in stats <==> Count(t, objs) > 0
    ensures forall t :: t in stats ==> stats[t] == Count(t, objs)
    ensures MapSum(stats) == |objs|
  {
    stats := map[];
    for i := 0 to |objs|
      invariant stats == Stats(objs[..i])
    {
      var name := objs[i].typeName;
      assert objs[..i + 1][..i] == objs[..i];
      if name !in stats {
        stats := stats[name := 0];
      }
      stats := stats[name := stats[name] + 1];
    }
    assert objs[..|objs|] == objs;
    StatsCounts(objs);
    StatsSum(objs);
  }

  // ---------------------------------------------------------------------
  // most_common_types (objgraph.py:113-138)
  // ---------------------------------------------------------------------

  /** The type names present, each once, in order of first occurrence. */
  function Names(objs: seq<Tracked>): (ns: seq<string>)
    ensures Distinct(ns)
    ensures forall t :: t in ns <==> Count(t, objs) > 0
  {
    if objs == [] then []
    else
      var init := Names(objs[..|objs| - 1]);
      var t := objs[|objs| - 1].typeName;
      if t in init then init else init + [t]
  }

  /** `typestats(objects).items()`. */
  function Items(objs: seq<Tracked>): (r: seq<Row>)
    ensures |r| == |Names(objs)|
    ensures forall i :: 0 <= i < |r| ==> r[i] == (Names(objs)[i], Count(Names(objs)[i], objs))
  {
    var ns := Names(objs);
    seq(|ns|, i requires 0 <= i < |ns| => (ns[i], Count(ns[i], objs)))
  }

  predicate SortedDesc(s: seq<Row>) {
    forall i, j :: 0 <= i < j < |s| ==> s[i].1 >= s[j].1
  }

  predicate DistinctNames(s: seq<Row>) {
    forall i, j :: 0 <= i < j < |s| ==> s[i].0 != s[j].0
  }

  /** Stable insertion of `x` into a list sorted by decreasing count. */
  function Insert(x: Row, s: seq<Row>): (r: seq<Row>)
    requires SortedDesc(s)
    ensures |r| == |s| + 1
    ensures r[0] == x || (s != [] && r[0] == s[0])
    ensures SortedDesc(r)
    ensures multiset(r) == multiset(s) + multiset{x}
  {
    if s == [] || x.1 >= s[0].1 then
      ConsSorted(x, s);
      [x] + s
    else
      var tail := Insert(x, s[1..]);
      assert s == [s[0]] + s[1..];
      ConsSorted(s[0], tail);
      [s[0]] + tail
  }

  /** A row no smaller than the head of a sorted table can go in front of it. */
  lemma ConsSorted(a: Row, t: seq<Row>)
    requires SortedDesc(t) && (t != [] ==> a.1 >= t[0].1)
    ensures SortedDesc([a] + t)
  {
    var r := [a] + t;
    forall i, j | 0 <= i < j < |r| ensures r[i].1 >= r[j].1 {
      assert r[j] == t[j - 1];
      if i > 0 {
        assert r[i] == t[i - 1];
      } else if j > 1 {
        assert t[0].1 >= t[j - 1].1;
      }
    }
  }

  /**
   * `sorted(items, key=count, reverse=True)`: a stable sort by decreasing
   * count.
   */
  function SortDesc(s: seq<Row>): (r: seq<Row>)
    ensures SortedDesc(r)
    ensures multiset(r) == multiset(s)
  {
    if s == [] then []
    else
      assert s == [s[0]] + s[1..];
      Insert(s[0], SortDesc(s[1..]))
  }

  /** `if limit: stats = stats[:limit]`, with Python's slice on a negative limit. */
  function Truncate<T>(s: seq<T>, limit: Option<int>): (r: seq<T>)
    ensures |r| <= |s| && r == s[..|r|]
  {
    if limit.None? || limit.value == 0 then s
    else if limit.value > 0 then s[..Min(limit.value, |s|)]
    else if |s| + limit.value >= 0 then s[..|s| + limit.value]
    else []
  }

  /** How many rows `Truncate` keeps out of `n`. */
  function KeptLength(n: nat, limit: Option<int>): nat {
    if limit.None? || limit.value == 0 then n
    else if limit.value > 0 then Min(limit.value, n)
    else if n + limit.value >= 0 then n + limit.value
    else 0
  }

  /** `most_common_types(limit, objects)`. */
  function MostCommonTypes(limit: Option<int>, objs: seq<Tracked>): (r: seq<Row>)
    ensures SortedDesc(r) && DistinctNames(r)
    ensures forall i :: 0 <= i < |r| ==> r[i].1 == Count(r[i].0, objs) > 0
    ensures |r| == KeptLength(|Names(objs)|, limit)
    ensures forall t :: Count(t, objs) > 0 && (forall i :: 0 <= i < |r| ==> r[i].0 != t) ==>
                          forall i :: 0 <= i < |r| ==> r[i].1 >= Count(t, objs)
    ensures limit.None? || limit == Some(0) ==>
              forall t :: Count(t, objs) > 0 ==> exists i :: 0 <= i < |r| && r[i].0 == t
  {
    var sorted := SortDesc(Items(objs));
    TruncatedRowsFacts(objs, sorted, limit);
    Truncate(sorted, limit)
  }

  lemma {:induction false} DistinctAtMostOnce<T>(s: seq<T>, x: T)
    requires Distinct(s)
    ensures multiset(s)[x] <= 1
  {
    if s != [] {
      var init := s[..|s| - 1];
      assert s == init + [s[|s| - 1]];
      DistinctAtMostOnce(init, x);
      if s[|s| - 1] == x {
        assert x !in init;
      }
    }
  }

  lemma TwoOccurrences<T>(s: seq<T>, i: int, j: int)
    requires 0 <= i < j < |s|
    ensures s[i] == s[j] ==> multiset(s)[s[i]] >= 2
  {
    assert s == s[..i] + [s[i]] + s[i + 1..j] + [s[j]] + s[j + 1..];
  }

  /** A permutation of a sequence without repeats has no repeats. */
  lemma DistinctPermutation<T>(a: seq<T>, b: seq<T>)
    requires Distinct(a) && multiset(a) == multiset(b)
    ensures Distinct(b)
  {
    forall i, j | 0 <= i < j < |b| ensures b[i] != b[j] {
      TwoOccurrences(b, i, j);
      DistinctAtMostOnce(a, b[i]);
    }
  }

  /** The rows of `typestats(objects).items()`, in any order. */
  predicate IsItemsPermutation(objs: seq<Tracked>, rows: seq<Row>) {
    multiset(rows) == multiset(Items(objs))
  }

  /** Every row of a permutation of the items is a present type with its count. */
  lemma PermutedRowsCount(objs: seq<Tracked>, rows: seq<Row>)
    requires IsItemsPermutation(objs, rows)
    ensures forall i :: 0 <= i < |rows| ==> rows[i].1 == Count(rows[i].0, objs) > 0
  {
    var items := Items(objs);
    var ns := Names(objs);
    forall i | 0 <= i < |rows| ensures rows[i].1 == Count(rows[i].0, objs) > 0 {
      assert rows[i] in multiset(items);
      var k :| 0 <= k < |items| && items[k] == rows[i];
      assert ns[k] in ns;
    }
  }

  /** A permutation of the items lists every present type. */
  lemma PermutedRowsComplete(objs: seq<Tracked>, rows: seq<Row>)
    requires IsItemsPermutation(objs, rows)
    ensures |rows| == |Names(objs)|
    ensures forall t :: Count(t, objs) > 0 ==> exists k :: 0 <= k < |rows| && rows[k] == (t, Count(t, objs))
  {
    var items := Items(objs);
    var ns := Names(objs);
    assert |multiset(rows)| == |multiset(items)|;
    forall t | Count(t, objs) > 0 ensures exists k :: 0 <= k < |rows| && rows[k] == (t, Count(t, objs)) {
      var k :| 0 <= k < |ns| && ns[k] == t;
      assert items[k] in multiset(rows);
    }
  }

  /** A permutation of the items names each type once. */
  lemma PermutedRowsDistinct(objs: seq<Tracked>, rows: seq<Row>)
    requires IsItemsPermutation(objs, rows)
    ensures DistinctNames(rows)
  {
    var items := Items(objs);
    var ns := Names(objs);
    assert Distinct(items) by {
      forall i, j | 0 <= i < j < |items| ensures items[i] != items[j] {
        assert items[i].0 == ns[i] && items[j].0 == ns[j];
      }
    }
    DistinctPermutation(items, rows);
    PermutedRowsCount(objs, rows);
  }

  lemma TruncateLength<T>(s: seq<T>, limit: Option<int>)
    ensures |Truncate(s, limit)| == KeptLength(|s|, limit)
  {
  }

  /** A type left out of the truncated table counts no more than any type kept; without a cut nothing is left out. */
  lemma TruncatedRowsRanked(objs: seq<Tracked>, sorted: seq<Row>, limit: Option<int>)
    requires SortedDesc(sorted) && IsItemsPermutation(objs, sorted)
    ensures var r := Truncate(sorted, limit);
      && (forall t :: Count(t, objs) > 0 && (forall i :: 0 <= i < |r| ==> r[i].0 != t) ==>
                        forall i :: 0 <= i < |r| ==> r[i].1 >= Count(t, objs))
      && (limit.None? || limit == Some(0) ==>
            forall t :: Count(t, objs) > 0 ==> exists i :: 0 <= i < |r| && r[i].0 == t)
  {
    PermutedRowsComplete(objs, sorted);
    TruncateLength(sorted, limit);
    var r := Truncate(sorted, limit);
    forall t | Count(t, objs) > 0 && (forall i :: 0 <= i < |r| ==> r[i].0 != t)
      ensures forall i :: 0 <= i < |r| ==> r[i].1 >= Count(t, objs)
    {
      var k :| 0 <= k < |sorted| && sorted[k] == (t, Count(t, objs));
      assert k >= |r|;
    }
    forall t | (limit.None? || limit == Some(0)) && Count(t, objs) > 0
      ensures exists i :: 0 <= i < |r| && r[i].0 == t
    {
      var k :| 0 <= k < |sorted| && sorted[k] == (t, Count(t, objs));
      assert r[k] == sorted[k];
    }
  }

  /** Keeping a prefix of the sorted rows keeps what `most_common_types` promises. */
  lemma TruncatedRowsFacts(objs: seq<Tracked>, sorted: seq<Row>, limit: Option<int>)
    requires SortedDesc(sorted) && IsItemsPermutation(objs, sorted)
    ensures var r := Truncate(sorted, limit);
      && SortedDesc(r) && DistinctNames(r)
      && (forall i :: 0 <= i < |r| ==> r[i].1 == Count(r[i].0, objs) > 0)
      && |r| == KeptLength(|Names(objs)|, limit)
      && (forall t :: Count(t, objs) > 0 && (forall i :: 0 <= i < |r| ==> r[i].0 != t) ==>
                        forall i :: 0 <= i < |r| ==> r[i].1 >= Count(t, objs))
      && (limit.None? || limit == Some(0) ==>
            forall t :: Count(t, objs) > 0 ==> exists i :: 0 <= i < |r| && r[i].0 == t)
  {
    PermutedRowsCount(objs, sorted);
    PermutedRowsComplete(objs, sorted);
    PermutedRowsDistinct(objs, sorted);
    TruncateLength(sorted, limit);
    TruncatedRowsRanked(objs, sorted, limit);
    var r := Truncate(sorted, limit);
    assert forall i :: 0 <= i < |r| ==> r[i] == sorted[i];
  }

  // ---------------------------------------------------------------------
  // at (objgraph.py:249-263)
  // ---------------------------------------------------------------------

  predicate UniqueIds(objs: seq<Tracked>) {
    forall i, j :: 0 <= i < j < |objs| ==> objs[i].id != objs[j].id
  }

  /** `at(addr)`: the first tracked object with that identity, if any. */
  method At(addr: Obj, objs: seq<Tracked>) returns (r: Option<Tracked>)
    ensures r.None? <==> forall i :: 0 <= i < |objs| ==> objs[i].id != addr
    ensures r.Some? ==> exists i :: 0 <= i < |objs| && objs[i] == r.value && r.value.id == addr &&
                                      forall j :: 0 <= j < i ==> objs[j].id != addr
    ensures UniqueIds(objs) ==> forall i :: 0 <= i < |objs| && objs[i].id == addr ==> r == Some(objs[i])
  {
    for i := 0 to |objs|
      invariant forall j :: 0 <= j < i ==> objs[j].id != addr
    {
      if objs[i].id == addr {
        return Some(objs[i]);
      }
    }
    return None;
  }

  // ---------------------------------------------------------------------
  // get_leaking_objects (objgraph.py:207-227)
  // ---------------------------------------------------------------------

  function Ids(objs: seq<Tracked>): set<Obj> {
    set i | 0 <= i < |objs| :: objs[i].id
  }

  /** Everything some object of the snapshot refers to. */
  ghost function Referenced(objs: seq<Tracked>, referents: EdgeFunc): set<Obj> {
    if objs == [] then {}
    else Referenced(objs[..|objs| - 1], referents) + Elems(Nbrs(referents, objs[|objs| - 1].id))
  }

  lemma {:induction false} ReferencedMeaning(objs: seq<Tracked>, referents: EdgeFunc, y: Obj)
    ensures y in Referenced(objs, referents) <==>
      exists p :: p in objs && y in Nbrs(referents, p.id)
  {
    if objs != [] {
      var init := objs[..|objs| - 1];
      ReferencedMeaning(init, referents, y);
      assert objs == init + [objs[|objs| - 1]];
      if exists p :: p in objs && y in Nbrs(referents, p.id) {
        var p :| p in objs && y in Nbrs(referents, p.id);
        if p != objs[|objs| - 1] {
          assert p in init;
        }
      }
    }
  }

  /** `[i for i in objects if id(i) in ids]`. */
  function KeepIds(objs: seq<Tracked>, ids: set<Obj>): (r: seq<Tracked>)
    ensures forall o :: o in r <==> o in objs && o.id in ids
  {
    if objs == [] then []
    else
      var init := objs[..|objs| - 1];
      var last := objs[|objs| - 1];
      assert objs == init + [last];
      KeepIds(init, ids) + (if last.id in ids then [last] else [])
  }

  /** `get_leaking_objects(objects)`: the objects nothing in the snapshot refers to. */
  method GetLeakingObjects(objs: seq<Tracked>, referents: EdgeFunc) returns (r: seq<Tracked>)
    ensures r == KeepIds(objs, Ids(objs) - Referenced(objs, referents))
    ensures forall o :: o in r <==> o in objs && forall p :: p in objs ==> o.id !in Nbrs(referents, p.id)
  {
    var ids := Ids(objs);
    for k := 0 to |objs|
      invariant ids == Ids(objs) - Referenced(objs[..k], referents)
    {
      assert objs[..k + 1][..k] == objs[..k];
      ids := ids - Elems(Nbrs(referents, objs[k].id));
    }
    assert objs[..|objs|] == objs;
    r := KeepIds(objs, ids);
    forall o ensures o in r <==> o in objs && forall p :: p in objs ==> o.id !in Nbrs(referents, p.id) {
      ReferencedMeaning(objs, referents, o.id);
      if o in objs {
        assert o.id in Ids(objs) by {
          var i :| 0 <= i < |objs| && objs[i] == o;
        }
      }
    }
  }

  // ---------------------------------------------------------------------
  // show_growth: the peak update (objgraph.py:189-200)
  // ---------------------------------------------------------------------

  /** `peak_stats.get(name, 0)`. */
  function Peak(peaks: map<string, nat>, t: string): nat {
    if t in peaks then peaks[t] else 0
  }

  /** Rows `(name, count - old peak)` for the names of `ns` whose count exceeds their peak. */
  function RaisedRows(peaks: map<string, nat>, objs: seq<Tracked>, ns: seq<string>): seq<Row> {
    if ns == [] then []
    else
      var r0 := RaisedRows(peaks, objs, ns[..|ns| - 1]);
      var t := ns[|ns| - 1];
      var c := Count(t, objs);
      if c > Peak(peaks, t) then r0 + [(t, c - Peak(peaks, t))] else r0
  }

  /** Every row names a type of `ns` with its positive increase over the old peak. */
  lemma {:induction false} RaisedRowsSound(peaks: map<string, nat>, objs: seq<Tracked>, ns: seq<string>)
    ensures forall i :: 0 <= i < |RaisedRows(peaks, objs, ns)| ==>
              && RaisedRows(peaks, objs, ns)[i].0 in ns
              && RaisedRows(peaks, objs, ns)[i].1 == Count(RaisedRows(peaks, objs, ns)[i].0, objs) - Peak(peaks, RaisedRows(peaks, objs, ns)[i].0) > 0
  {
    if ns != [] {
      var init := ns[..|ns| - 1];
      RaisedRowsSound(peaks, objs, init);
      var r0 := RaisedRows(peaks, objs, init);
      var r := RaisedRows(peaks, objs, ns);
      forall i | 0 <= i < |r|
        ensures r[i].0 in ns && r[i].1 == Count(r[i].0, objs) - Peak(peaks, r[i].0) > 0
      {
        if i < |r0| {
          assert r[i] == r0[i];
          assert r0[i].0 in init;
          assert init[..] == ns[..|ns| - 1];
        }
      }
    }
  }

  /** Every name whose count went above its peak gets a row. */
  lemma {:induction false} RaisedRowsComplete(peaks: map<string, nat>, objs: seq<Tracked>, ns: seq<string>, t: string)
    requires t in ns && Count(t, objs) > Peak(peaks, t)
    ensures exists i :: 0 <= i < |RaisedRows(peaks, objs, ns)| && RaisedRows(peaks, objs, ns)[i].0 == t
  {
    var init := ns[..|ns| - 1];
    var r0 := RaisedRows(peaks, objs, init);
    var r := RaisedRows(peaks, objs, ns);
    if t == ns[|ns| - 1] {
      assert r[|r| - 1].0 == t;
    } else {
      assert ns == init + [ns[|ns| - 1]];
      RaisedRowsComplete(peaks, objs, init, t);
      var i :| 0 <= i < |r0| && r0[i].0 == t;
      assert r[i] == r0[i];
    }
  }

  /** Distinct names give distinct rows. */
  lemma {:induction false} RaisedRowsDistinct(peaks: map<string, nat>, objs: seq<Tracked>, ns: seq<string>)
    requires Distinct(ns)
    ensures DistinctNames(RaisedRows(peaks, objs, ns))
  {
    if ns != [] {
      var init := ns[..|ns| - 1];
      var t := ns[|ns| - 1];
      RaisedRowsDistinct(peaks, objs, init);
      RaisedRowsSound(peaks, objs, init);
      var r0 := RaisedRows(peaks, objs, init);
      assert t !in init;
      forall i | 0 <= i < |r0| ensures r0[i].0 != t {
        assert r0[i].0 in init by {
          assert 0 <= i < |r0|;
        }
      }
    }
  }

  /**
   * `peak_stats` after the update loop over the names `ns`: the peak of each
   * name whose count exceeds its old peak becomes that count.
   */
  function RaisedPeaks(peaks: map<string, nat>, objs: seq<Tracked>, ns: seq<string>): map<string, nat> {
    if ns == [] then peaks
    else
      var m := RaisedPeaks(peaks, objs, ns[..|ns| - 1]);
      var t := ns[|ns| - 1];
      if Count(t, objs) > Peak(peaks, t) then m[t := Count(t, objs)] else m
  }

  /** A name the loop has not reached yet keeps its old peak. */
  lemma {:induction false} RaisedPeaksOutside(peaks: map<string, nat>, objs: seq<Tracked>, ns: seq<string>, t: string)
    requires t !in ns
    ensures Peak(RaisedPeaks(peaks, objs, ns), t) == Peak(peaks, t)
  {
    if ns != [] {
      assert forall u :: u in ns[..|ns| - 1] ==> u in ns;
      RaisedPeaksOutside(peaks, objs, ns[..|ns| - 1], t);
    }
  }

  /** Pointwise meaning of the update: exactly the names of `ns` that grew get their count. */
  lemma {:induction false} RaisedPeaksMeaning(peaks: map<string, nat>, objs: seq<Tracked>, ns: seq<string>, t: string)
    ensures var m := RaisedPeaks(peaks, objs, ns);
      && (t in m <==> t in peaks || (t in ns && Count(t, objs) > Peak(peaks, t)))
      && Peak(m, t) == if t in ns && Count(t, objs) > Peak(peaks, t) then Count(t, objs) else Peak(peaks, t)
  {
    if ns != [] {
      var init := ns[..|ns| - 1];
      assert ns == init + [ns[|ns| - 1]];
      RaisedPeaksMeaning(peaks, objs, init, t);
    }
  }

  /** The update only ever raises a peak, and leaves every peak at least the current count. */
  lemma PeaksNeverDecrease(peaks: map<string, nat>, objs: seq<Tracked>, t: string)
    ensures var m := RaisedPeaks(peaks, objs, Names(objs));
      Peak(m, t) >= Peak(peaks, t) && Peak(m, t) >= Count(t, objs)
  {
    RaisedPeaksMeaning(peaks, objs, Names(objs), t);
  }

  /** A second call on the same snapshot reports no growth. */
  lemma {:induction false} GrowthSettles(peaks: map<string, nat>, objs: seq<Tracked>, ns: seq<string>)
    ensures RaisedRows(RaisedPeaks(peaks, objs, Names(objs)), objs, ns) == []
  {
    if ns != [] {
      GrowthSettles(peaks, objs, ns[..|ns| - 1]);
      PeaksNeverDecrease(peaks, objs, ns[|ns| - 1]);
    }
  }

  /**
   * One iteration of the update loop, on the current table: the name's old
   * count is still its peak from before the call, because names are distinct.
   */
  lemma GrowthStep(peaks0: map<string, nat>, objs: seq<Tracked>, ns: seq<string>, i: nat,
                   peaks: map<string, nat>, raised: seq<Row>, count: nat, oldCount: nat)
    requires i < |ns| && Distinct(ns)
    requires peaks == RaisedPeaks(peaks0, objs, ns[..i])
    requires raised == RaisedRows(peaks0, objs, ns[..i])
    requires count == Count(ns[i], objs) && oldCount == Peak(peaks, ns[i])
    ensures (if count > oldCount then peaks[ns[i] := count] else peaks) == RaisedPeaks(peaks0, objs, ns[..i + 1])
    ensures (if count > oldCount then raised + [(ns[i], count - oldCount)] else raised) == RaisedRows(peaks0, objs, ns[..i + 1])
  {
    assert ns[..i + 1][..i] == ns[..i];
    assert ns[i] !in ns[..i];
    RaisedPeaksOutside(peaks0, objs, ns[..i], ns[i]);
  }

  /** The table kept between calls: `peak_stats`. */
  class GrowthTracker {
    var peaks: map<string, nat>

    constructor ()
      ensures peaks == map[]
    {
      peaks := map[];
    }

    /**
     * `show_growth(limit, peak_stats)` on the snapshot `objs`: raises the
     * peak of every type whose count went above it and returns the rows it
     * would print, largest increase first.
     */
    method ShowGrowth(limit: Option<int>, objs: seq<Tracked>) returns (deltas: seq<Row>)
      modifies this
      ensures peaks == RaisedPeaks(old(peaks), objs, Names(objs))
      ensures deltas == Truncate(SortDesc(RaisedRows(old(peaks), objs, Names(objs))), limit)
    {
      var stats := TypeStats(objs);
      var raised := RaisePeaks(objs, Names(objs), stats);
      deltas := Truncate(SortDesc(raised), limit);
    }

    /** The loop of `show_growth` over `typestats().items()`, name by name. */
    method RaisePeaks(objs: seq<Tracked>, names: seq<string>, stats: map<string, nat>) returns (raised: seq<Row>)
      requires Distinct(names)
      requires forall t :: t in names ==> t in stats && stats[t] == Count(t, objs)
      modifies this
      ensures peaks == RaisedPeaks(old(peaks), objs, names)
      ensures raised == RaisedRows(old(peaks), objs, names)
    {
      raised := [];
      for i := 0 to |names|
        invariant peaks == RaisedPeaks(old(peaks), objs, names[..i])
        invariant raised == RaisedRows(old(peaks), objs, names[..i])
      {
        var name := names[i];
        var count := stats[name];
        var oldCount := if name in peaks then peaks[name] else 0;
        GrowthStep(old(peaks), objs, names, i, peaks, raised, count, oldCount);
        if count > oldCount {
          raised := raised + [(name, count - oldCount)];
          peaks := peaks[name := count];
        }
      }
      assert names[..|names|] == names;
    }
  }
}
