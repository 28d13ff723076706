/**
 * The traversal of `show_graph` (objgraph.py:528-627) and its public
 * entry points `show_backrefs` (objgraph.py:318-372), `show_refs`
 * (objgraph.py:375-430) and `show_chain` (objgraph.py:433-459).
 *
 * A breadth-first walk from every root, each object dequeued once per time
 * it was queued. For each dequeued object the writer emits the lines
 * `Dot.NodeBlock` describes; the whole output is `Output`.
 */
module GraphWriter {
  import opened RefGraph
  import opened Labels
  import opened Colors
  import opened Dot

  /** `x` was dequeued at some point. */
  ghost predicate Seen(visits: seq<(Obj, nat)>, x: Obj) {
    exists k :: 0 <= k < |visits| && visits[k].0 == x
  }

  /**
   * `x` at depth `dx` was discovered by one of the first `bound` dequeued
   * objects: one that was expanded, took `x` as one of its first
   * `too_many` eligible neighbours, and sits one level up.
   */
  ghost predicate DiscoveredBy(edges: EdgeFunc, info: InfoTable, cfg: Config, swap: bool,
                               visits: seq<(Obj, nat)>, x: Obj, dx: nat, bound: nat) {
    exists j :: 0 <= j < |visits| && j < bound
      && Expands(info, cfg, swap, visits[j].0, visits[j].1)
      && x in Taken(cfg, Nbrs(edges, visits[j].0))
      && dx == visits[j].1 + 1
  }

  /** The rounds of one more dequeued object follow those already written. */
  lemma BlocksSnoc(edges: EdgeFunc, info: InfoTable, cfg: Config, swap: bool, visits: seq<(Obj, nat)>, v: (Obj, nat))
    ensures Blocks(edges, info, cfg, swap, visits + [v]) == Blocks(edges, info, cfg, swap, visits) + Round(edges, info, cfg, swap)(v)
  {
    assert (visits + [v])[..|visits|] == visits;
  }

  /** Everything `show_graph` writes, given the dequeued objects with their depths in order. */
  function Output(edges: EdgeFunc, info: InfoTable, cfg: Config, swap: bool,
                  objs: seq<Obj>, visits: seq<(Obj, nat)>): seq<Decl> {
    [Header] + RootMarks(objs) + Blocks(edges, info, cfg, swap, visits) + [Footer]
  }

  /**
   * What the sequence of dequeued objects of a finished walk satisfies:
   * depths within `max_depth`; the roots are dequeued first, in order, at
   * depth 0, and never again; every other object was discovered by an
   * earlier expanded object one level up, and is dequeued once; depths
   * never decrease; an object is no deeper than one level below any
   * expanded object that took it, so its depth is fixed by the first such
   * object; and every neighbour that got an edge is itself dequeued.
   */
  ghost predicate Traversal(edges: EdgeFunc, info: InfoTable, cfg: Config, swap: bool,
                            objs: seq<Obj>, visits: seq<(Obj, nat)>) {
    && (forall k :: 0 <= k < |visits| ==> visits[k].1 <= cfg.maxDepth)
    && (forall k :: 0 <= k < |visits| && visits[k].0 in objs ==> visits[k].1 == 0)
    && (forall k :: 0 <= k < |visits| ==>
          visits[k].0 in objs || DiscoveredBy(edges, info, cfg, swap, visits, visits[k].0, visits[k].1, k))
    && (forall i, j :: 0 <= i < j < |visits| && visits[i].0 == visits[j].0 ==> visits[i].0 in objs)
    && (forall x :: x in objs ==> Seen(visits, x))
    && (forall k, s ::
          (0 <= k < |visits| && Expands(info, cfg, swap, visits[k].0, visits[k].1)
           && s in Taken(cfg, Nbrs(edges, visits[k].0))) ==> Seen(visits, s))
    && |objs| <= |visits| && (forall i :: 0 <= i < |objs| ==> visits[i] == (objs[i], 0))
    && (forall k :: |objs| <= k < |visits| ==> visits[k].0 !in objs)
    && DepthsOrdered(visits)
    && NoDeeperThanTakers(edges, info, cfg, swap, visits)
  }

  /**
   * The order a finished walk dequeues in, first in, first out: the roots,
   * then every other object in the order the rounds before it discovered it.
   */
  ghost predicate InDiscoveryOrder(edges: EdgeFunc, info: InfoTable, cfg: Config, swap: bool,
                                   objs: seq<Obj>, visits: seq<(Obj, nat)>) {
    Objects(visits) == objs + Discovered(edges, info, cfg, swap, objs, visits)
  }

  /** The objects of the dequeued pairs, in order. */
  function Objects(visits: seq<(Obj, nat)>): (r: seq<Obj>)
    ensures |r| == |visits| && forall k :: 0 <= k < |visits| ==> r[k] == visits[k].0
  {
    if visits == [] then [] else Objects(visits[..|visits| - 1]) + [visits[|visits| - 1].0]
  }

  /**
   * The objects past the roots in the order the walk discovers them: each
   * expanded dequeued object contributes the neighbours it takes that are
   * neither roots nor discovered before, in the order it takes them.
   */
  ghost function Discovered(edges: EdgeFunc, info: InfoTable, cfg: Config, swap: bool,
                            objs: seq<Obj>, visits: seq<(Obj, nat)>): seq<Obj>
  {
    if visits == [] then []
    else
      var prev := Discovered(edges, info, cfg, swap, objs, visits[..|visits| - 1]);
      var v := visits[|visits| - 1];
      if Expands(info, cfg, swap, v.0, v.1) then prev + Fresh(Elems(objs) + Elems(prev), Taken(cfg, Nbrs(edges, v.0)))
      else prev
  }

  /** The dequeued depths never decrease. */
  ghost predicate DepthsOrdered(visits: seq<(Obj, nat)>) {
    forall i, j :: 0 <= i < j < |visits| ==> visits[i].1 <= visits[j].1
  }

  /** The `j`-th dequeued object was expanded and took `x` as a neighbour. */
  ghost predicate TakenBy(edges: EdgeFunc, info: InfoTable, cfg: Config, swap: bool,
                          visits: seq<(Obj, nat)>, j: int, x: Obj) {
    0 <= j < |visits| && Expands(info, cfg, swap, visits[j].0, visits[j].1)
    && x in Taken(cfg, Nbrs(edges, visits[j].0))
  }

  /** No dequeued object is more than one level below an expanded object that took it. */
  ghost predicate NoDeeperThanTakers(edges: EdgeFunc, info: InfoTable, cfg: Config, swap: bool,
                                     visits: seq<(Obj, nat)>) {
    forall k, j :: 0 <= k < |visits| && TakenBy(edges, info, cfg, swap, visits, j, visits[k].0) ==>
      visits[k].1 <= visits[j].1 + 1
  }

  // ---------------------------------------------------------------------
  // The neighbour loop (objgraph.py:593-612)
  // ---------------------------------------------------------------------

  /**
   * The objects of `taken` not in `known`, each once, in the order of
   * their first occurrence: the ones a loop over `taken` finds new.
   */
  ghost function Fresh(known: set<Obj>, taken: seq<Obj>): seq<Obj> {
    if taken == [] then []
    else
      var f := Fresh(known, taken[..|taken| - 1]);
      var x := taken[|taken| - 1];
      if x in known || x in f then f else f + [x]
  }

  /**
   * From (`depth`, `queue`) to (`depth'`, `queue'`) the tables only grew:
   * old entries keep their depth; every new entry is one of `taken`, at
   * depth `level`, appended once to the queue; every object of `taken`
   * is in the table.
   */
  ghost predicate Grows(depth: map<Obj, nat>, queue: seq<Obj>, taken: seq<Obj>, level: nat,
                        depth': map<Obj, nat>, queue': seq<Obj>) {
    && |queue'| >= |queue| && queue'[..|queue|] == queue
    && (forall x :: x in depth ==> x in depth' && depth'[x] == depth[x])
    && (forall x :: x in depth' && x !in depth ==> depth'[x] == level && x in taken && x in queue')
    && (forall i :: |queue| <= i < |queue'| ==> queue'[i] in depth' && queue'[i] !in depth)
    && (forall i, k :: |queue| <= i < k < |queue'| ==> queue'[i] != queue'[k])
    && (forall x :: x in taken ==> x in depth')
  }

  /** The queue grew by exactly the objects of `taken` the table did not hold yet, in the order taken. */
  ghost predicate GrowsFresh(depth: map<Obj, nat>, queue: seq<Obj>, taken: seq<Obj>, queue': seq<Obj>) {
    queue' == queue + Fresh(depth.Keys, taken)
  }

  /** The state of the neighbour loop: the neighbours given an edge, the number skipped, and the tables. */
  datatype Scan = Scan(taken: seq<Obj>, skipped: nat, depth: map<Obj, nat>, queue: seq<Obj>)

  /** The state of the neighbour loop after the neighbours `ns`, starting from (`depth`, `queue`). */
  ghost function ScanNeighbours(cfg: Config, level: nat, depth: map<Obj, nat>, queue: seq<Obj>, ns: seq<Obj>): Scan {
    if ns == [] then Scan([], 0, depth, queue)
    else
      var s := ScanNeighbours(cfg, level, depth, queue, ns[..|ns| - 1]);
      var x := ns[|ns| - 1];
      if !Passes(cfg, x) then s
      else if |s.taken| >= cfg.tooMany then s.(skipped := s.skipped + 1)
      else if x in s.depth then s.(taken := s.taken + [x])
      else Scan(s.taken + [x], s.skipped, s.depth[x := level], s.queue + [x])
  }

  /** Taking one more neighbour: it is in the table afterwards, queued if it was new. */
  lemma GrowsTake(depth: map<Obj, nat>, queue: seq<Obj>, taken: seq<Obj>, level: nat,
                  depth': map<Obj, nat>, queue': seq<Obj>, x: Obj)
    requires Grows(depth, queue, taken, level, depth', queue')
    ensures x in depth' ==> Grows(depth, queue, taken + [x], level, depth', queue')
    ensures x !in depth' ==> Grows(depth, queue, taken + [x], level, depth'[x := level], queue' + [x])
  {
    if x !in depth' {
      var queue'' := queue' + [x];
      assert queue''[..|queue|] == queue' [..|queue|];
      forall i | |queue| <= i < |queue''| ensures queue''[i] in depth'[x := level] && queue''[i] !in depth {
        if i < |queue'| {
          assert queue''[i] == queue'[i];
        }
      }
      forall i, k | |queue| <= i < k < |queue''| ensures queue''[i] != queue''[k] {
        assert queue''[i] == queue'[i];
        if k < |queue'| {
          assert queue''[k] == queue'[k];
        }
      }
    }
  }

  /** The loop takes the first `too_many` eligible neighbours, counts the rest, and only grows the tables. */
  lemma ScanMeaning(cfg: Config, level: nat, depth: map<Obj, nat>, queue: seq<Obj>, ns: seq<Obj>)
    ensures var s := ScanNeighbours(cfg, level, depth, queue, ns);
      && s.taken == Taken(cfg, ns) && s.skipped == Skipped(cfg, ns)
      && Grows(depth, queue, s.taken, level, s.depth, s.queue)
  {
    ScanTaken(cfg, level, depth, queue, ns);
    ScanGrows(cfg, level, depth, queue, ns);
  }

  /** The loop takes the first `too_many` eligible neighbours and counts the rest. */
  lemma {:induction false} ScanTaken(cfg: Config, level: nat, depth: map<Obj, nat>, queue: seq<Obj>, ns: seq<Obj>)
    ensures var s := ScanNeighbours(cfg, level, depth, queue, ns);
      s.taken == Taken(cfg, ns) && s.skipped == Skipped(cfg, ns)
  {
    if ns != [] {
      var init := ns[..|ns| - 1];
      var x := ns[|ns| - 1];
      ScanTaken(cfg, level, depth, queue, init);
      var s := ScanNeighbours(cfg, level, depth, queue, init);
      var e := Eligible(cfg, init);
      if Passes(cfg, x) {
        assert Eligible(cfg, ns) == e + [x];
        if |s.taken| >= cfg.tooMany {
          assert (e + [x])[..cfg.tooMany] == e[..cfg.tooMany];
        } else {
          assert (e + [x])[..|e| + 1] == e + [x];
        }
      } else {
        assert Eligible(cfg, ns) == e + [];
        assert e + [] == e;
      }
    }
  }

  /** The loop only grows the tables, by the neighbours it takes. */
  lemma {:induction false} ScanGrows(cfg: Config, level: nat, depth: map<Obj, nat>, queue: seq<Obj>, ns: seq<Obj>)
    ensures var s := ScanNeighbours(cfg, level, depth, queue, ns);
      Grows(depth, queue, s.taken, level, s.depth, s.queue)
  {
    if ns == [] {
      assert queue[..|queue|] == queue;
    } else {
      var init := ns[..|ns| - 1];
      var x := ns[|ns| - 1];
      ScanGrows(cfg, level, depth, queue, init);
      var s := ScanNeighbours(cfg, level, depth, queue, init);
      if Passes(cfg, x) && |s.taken| < cfg.tooMany {
        GrowsTake(depth, queue, s.taken, level, s.depth, s.queue, x);
      }
    }
  }

  /** The loop appends the fresh neighbours it takes, in the order it takes them. */
  lemma {:induction false} ScanFresh(cfg: Config, level: nat, depth: map<Obj, nat>, queue: seq<Obj>, ns: seq<Obj>)
    ensures var s := ScanNeighbours(cfg, level, depth, queue, ns);
      && GrowsFresh(depth, queue, s.taken, s.queue)
      && (forall x :: x in s.depth <==> x in depth || x in Fresh(depth.Keys, s.taken))
  {
    if ns == [] {
      assert queue + [] == queue;
    } else {
      var init := ns[..|ns| - 1];
      var x := ns[|ns| - 1];
      ScanFresh(cfg, level, depth, queue, init);
      var s := ScanNeighbours(cfg, level, depth, queue, init);
      FreshSnoc(depth.Keys, s.taken, x);
      if Passes(cfg, x) && |s.taken| < cfg.tooMany && x !in s.depth {
        var f := Fresh(depth.Keys, s.taken);
        ElemsSnoc(f, x);
        assert s.depth[x := level].Keys == s.depth.Keys + {x};
        AppendAssoc(queue, f, [x]);
      }
    }
  }

  lemma FreshSnoc(known: set<Obj>, taken: seq<Obj>, x: Obj)
    ensures Fresh(known, taken + [x]) ==
            if x in known || x in Fresh(known, taken) then Fresh(known, taken) else Fresh(known, taken) + [x]
  {
    assert (taken + [x])[..|taken|] == taken;
  }

  lemma ElemsSnoc<T>(s: seq<T>, x: T)
    ensures Elems(s + [x]) == Elems(s) + {x}
  {
  }

  lemma EdgeDeclsSnoc(info: InfoTable, swap: bool, target: Obj, taken: seq<Obj>, x: Obj)
    ensures EdgeDecls(info, swap, target, taken + [x]) == EdgeDecls(info, swap, target, taken) + [EdgeDecl(info, swap, target, x)]
  {
    assert (taken + [x])[..|taken|] == taken;
  }

  /**
   * The loop over `edge_func(target)`: skip ignored and filtered-out
   * neighbours, count the ones past `too_many` as skipped, write an edge
   * for each other one and queue it at depth `tdepth + 1` when it has no
   * depth yet.
   */
  method Expand(edges: EdgeFunc, info: InfoTable, cfg: Config, swap: bool, target: Obj, tdepth: nat,
                depth: map<Obj, nat>, queue: seq<Obj>)
    returns (decls: seq<Decl>, skipped: nat, depth': map<Obj, nat>, queue': seq<Obj>)
    ensures decls == EdgeDecls(info, swap, target, Taken(cfg, Nbrs(edges, target)))
    ensures skipped == Skipped(cfg, Nbrs(edges, target))
    ensures Grows(depth, queue, Taken(cfg, Nbrs(edges, target)), tdepth + 1, depth', queue')
    ensures GrowsFresh(depth, queue, Taken(cfg, Nbrs(edges, target)), queue')
  {
    var neighbours := Nbrs(edges, target);
    var n := 0;
    skipped := 0;
    decls := [];
    depth', queue' := depth, queue;
    ghost var taken: seq<Obj> := [];
    for j := 0 to |neighbours|
      invariant Scan(taken, skipped, depth', queue') == ScanNeighbours(cfg, tdepth + 1, depth, queue, neighbours[..j])
      invariant n == |taken| && decls == EdgeDecls(info, swap, target, taken)
    {
      var source := neighbours[j];
      assert neighbours[..j + 1][..j] == neighbours[..j];
      if source in cfg.extraIgnore {
        continue;
      }
      if cfg.filter.Some? && source !in cfg.filter.value {
        continue;
      }
      if n >= cfg.tooMany {
        skipped := skipped + 1;
        continue;
      }
      var srcnode, tgtnode := if swap then target else source, if swap then source else target;
      EdgeDeclsSnoc(info, swap, target, taken, source);
      decls := decls + [Edge(srcnode, tgtnode, EdgeLabel(info, srcnode, tgtnode))];
      taken := taken + [source];
      if source !in depth' {
        depth' := depth'[source := tdepth + 1];
        queue' := queue' + [source];
      }
      n := n + 1;
    }
    assert neighbours[..|neighbours|] == neighbours;
    ScanMeaning(cfg, tdepth + 1, depth, queue, neighbours);
    ScanFresh(cfg, tdepth + 1, depth, queue, neighbours);
  }

  // ---------------------------------------------------------------------
  // The loop invariant of the walk
  // ---------------------------------------------------------------------

  /**
   * Every root has depth 0; the queue holds objects with a depth; every
   * object with a depth is queued or was dequeued; every dequeued object was
   * dequeued at its depth.
   */
  ghost predicate Bookkept(objs: seq<Obj>, depth: map<Obj, nat>, queue: seq<Obj>, visits: seq<(Obj, nat)>) {
    && (forall i :: 0 <= i < |objs| ==> objs[i] in depth && depth[objs[i]] == 0)
    && (forall i :: 0 <= i < |queue| ==> queue[i] in depth)
    && (forall x :: x in depth ==> x in queue || Seen(visits, x))
    && (forall k :: 0 <= k < |visits| ==> visits[k].0 in depth && visits[k].1 == depth[visits[k].0])
  }

  /** Depths stay within `max_depth`, and every non-root with a depth was discovered one level below its discoverer. */
  ghost predicate Layered(edges: EdgeFunc, info: InfoTable, cfg: Config, swap: bool,
                          objs: seq<Obj>, depth: map<Obj, nat>, visits: seq<(Obj, nat)>) {
    && (forall x :: x in depth ==> depth[x] <= cfg.maxDepth)
    && (forall x :: x in depth ==> x in objs || DiscoveredBy(edges, info, cfg, swap, visits, x, depth[x], |visits|))
    && (forall k :: 0 <= k < |visits| ==>
          visits[k].0 in objs || DiscoveredBy(edges, info, cfg, swap, visits, visits[k].0, visits[k].1, k))
  }

  /** The neighbours taken by every expanded dequeued object have a depth, at most one level below it. */
  ghost predicate Closure(edges: EdgeFunc, info: InfoTable, cfg: Config, swap: bool,
                          depth: map<Obj, nat>, visits: seq<(Obj, nat)>) {
    forall k, s ::
      (0 <= k < |visits| && Expands(info, cfg, swap, visits[k].0, visits[k].1)
       && s in Taken(cfg, Nbrs(edges, visits[k].0))) ==> s in depth && depth[s] <= visits[k].1 + 1
  }

  /**
   * Breadth-first order: the dequeued depths never decrease, the queue is
   * sorted by depth and spans at most two levels, and nothing dequeued is
   * deeper than the head of the queue.
   */
  ghost predicate Ordered(depth: map<Obj, nat>, queue: seq<Obj>, visits: seq<(Obj, nat)>) {
    && (forall i :: 0 <= i < |queue| ==> queue[i] in depth)
    && (forall i, j :: 0 <= i < j < |visits| ==> visits[i].1 <= visits[j].1)
    && (forall i, j :: 0 <= i < j < |queue| ==> depth[queue[i]] <= depth[queue[j]] <= depth[queue[0]] + 1)
    && (|queue| > 0 ==> forall k :: 0 <= k < |visits| ==> visits[k].1 <= depth[queue[0]])
  }

  /**
   * The roots come first: the dequeued objects start with the roots in
   * order, the queue holds the roots not yet dequeued in front of anything
   * else, and nothing queued or dequeued after them is a root.
   */
  ghost predicate RootsFirst(objs: seq<Obj>, queue: seq<Obj>, visits: seq<(Obj, nat)>) {
    && |visits| + |queue| >= |objs|
    && (forall i :: 0 <= i < |visits| && i < |objs| ==> visits[i] == (objs[i], 0))
    && (forall i :: 0 <= i < |queue| && |visits| + i < |objs| ==> queue[i] == objs[|visits| + i])
    && (forall i :: 0 <= i < |queue| && |visits| + i >= |objs| ==> queue[i] !in objs)
    && (forall k :: |objs| <= k < |visits| ==> visits[k].0 !in objs)
  }

  /**
   * First in, first out: the objects dequeued so far, followed by the
   * queue, are the roots followed by the objects discovered so far, in the
   * order they were discovered.
   */
  ghost predicate Fifo(edges: EdgeFunc, info: InfoTable, cfg: Config, swap: bool, objs: seq<Obj>,
                       queue: seq<Obj>, visits: seq<(Obj, nat)>) {
    Objects(visits) + queue == objs + Discovered(edges, info, cfg, swap, objs, visits)
  }

  /** Only roots occur twice among the dequeued and queued objects together. */
  ghost predicate OnlyRootsTwice(objs: seq<Obj>, queue: seq<Obj>, visits: seq<(Obj, nat)>) {
    && (forall i, j :: 0 <= i < j < |visits| && visits[i].0 == visits[j].0 ==> visits[i].0 in objs)
    && (forall k, i :: 0 <= k < |visits| && 0 <= i < |queue| && visits[k].0 == queue[i] ==> queue[i] in objs)
    && (forall i, j :: 0 <= i < j < |queue| && queue[i] == queue[j] ==> queue[i] in objs)
  }

  /**
   * The invariant of the walk loop. Contracts that only hand it on write
   * `Walk(...) == true`: the verifier then keeps it as one fact instead of
   * one proof obligation per conjunct. Only `WalkInit` and `WalkStep`, which
   * establish it, state it plainly.
   */
  ghost predicate Walk(edges: EdgeFunc, info: InfoTable, cfg: Config, swap: bool, objs: seq<Obj>,
                       depth: map<Obj, nat>, queue: seq<Obj>, visits: seq<(Obj, nat)>, universe: set<Obj>) {
    && Bookkept(objs, depth, queue, visits)
    && Layered(edges, info, cfg, swap, objs, depth, visits)
    && Closure(edges, info, cfg, swap, depth, visits)
    && OnlyRootsTwice(objs, queue, visits)
    && Ordered(depth, queue, visits)
    && RootsFirst(objs, queue, visits)
    && depth.Keys <= universe
  }

  /** What a round adds to the table: the taken neighbours of `queue[0]` when it is expanded, nothing otherwise. */
  ghost predicate RoundGrows(edges: EdgeFunc, info: InfoTable, cfg: Config, swap: bool,
                             depth: map<Obj, nat>, queue: seq<Obj>, depth': map<Obj, nat>, queue': seq<Obj>)
    requires |queue| > 0 && queue[0] in depth
  {
    var t, d := queue[0], depth[queue[0]];
    Grows(depth, queue[1..], if Expands(info, cfg, swap, t, d) then Taken(cfg, Nbrs(edges, t)) else [], d + 1,
          depth', queue')
  }

  lemma DiscoveredWiden(edges: EdgeFunc, info: InfoTable, cfg: Config, swap: bool,
                        visits: seq<(Obj, nat)>, v: (Obj, nat), x: Obj, dx: nat, bound: nat, bound': nat)
    requires DiscoveredBy(edges, info, cfg, swap, visits, x, dx, bound) && bound <= bound'
    ensures DiscoveredBy(edges, info, cfg, swap, visits + [v], x, dx, bound')
  {
    var j :| 0 <= j < |visits| && j < bound
      && Expands(info, cfg, swap, visits[j].0, visits[j].1)
      && x in Taken(cfg, Nbrs(edges, visits[j].0))
      && dx == visits[j].1 + 1;
    var w := visits + [v];
    assert w[j] == visits[j];
    assert 0 <= j < |w| && j < bound' && Expands(info, cfg, swap, w[j].0, w[j].1)
      && x in Taken(cfg, Nbrs(edges, w[j].0)) && dx == w[j].1 + 1;
  }

  lemma BookkeptStep(objs: seq<Obj>, depth: map<Obj, nat>, queue: seq<Obj>, visits: seq<(Obj, nat)>,
                     taken: seq<Obj>, level: nat, depth': map<Obj, nat>, queue': seq<Obj>)
    requires Bookkept(objs, depth, queue, visits) && |queue| > 0
    requires Grows(depth, queue[1..], taken, level, depth', queue')
    ensures Bookkept(objs, depth', queue', visits + [(queue[0], depth[queue[0]])])
  {
    var rest := queue[1..];
    var visits' := visits + [(queue[0], depth[queue[0]])];
    forall i | 0 <= i < |queue'| ensures queue'[i] in depth' {
      if i < |rest| {
        assert queue'[i] == queue'[..|rest|][i] == queue[i + 1];
      }
    }
    forall x | x in depth' ensures x in queue' || Seen(visits', x) {
      if x in depth {
        if x in queue {
          var i :| 0 <= i < |queue| && queue[i] == x;
          if i == 0 {
            assert visits'[|visits|].0 == x;
          } else {
            assert queue'[i - 1] == queue'[..|rest|][i - 1] == rest[i - 1];
          }
        } else {
          var k :| 0 <= k < |visits| && visits[k].0 == x;
          assert visits'[k] == visits[k];
        }
      }
    }
    forall k | 0 <= k < |visits'| ensures visits'[k].0 in depth' && visits'[k].1 == depth'[visits'[k].0] {
      var x := visits'[k].0;
      if k < |visits| {
        assert visits'[k] == visits[k];
        assert x in depth && visits[k].1 == depth[x];
      } else {
        assert x == queue[0] && x in depth;
      }
    }
    forall i | 0 <= i < |objs| ensures objs[i] in depth' && depth'[objs[i]] == 0 {
      var x := objs[i];
      assert x in depth && depth[x] == 0;
    }
  }

  lemma LayeredStep(edges: EdgeFunc, info: InfoTable, cfg: Config, swap: bool, objs: seq<Obj>,
                    depth: map<Obj, nat>, queue: seq<Obj>, visits: seq<(Obj, nat)>,
                    depth': map<Obj, nat>, queue': seq<Obj>)
    requires Layered(edges, info, cfg, swap, objs, depth, visits) && |queue| > 0 && queue[0] in depth
    requires RoundGrows(edges, info, cfg, swap, depth, queue, depth', queue')
    ensures Layered(edges, info, cfg, swap, objs, depth', visits + [(queue[0], depth[queue[0]])])
  {
    var t, d := queue[0], depth[queue[0]];
    var v := (t, d);
    var visits' := visits + [v];
    forall x | x in depth'
      ensures depth'[x] <= cfg.maxDepth
      ensures x in objs || DiscoveredBy(edges, info, cfg, swap, visits', x, depth'[x], |visits'|)
    {
      if x in depth {
        if x !in objs {
          DiscoveredWiden(edges, info, cfg, swap, visits, v, x, depth[x], |visits|, |visits'|);
        }
      } else {
        var taken := if Expands(info, cfg, swap, t, d) then Taken(cfg, Nbrs(edges, t)) else [];
        assert x in taken && depth'[x] == d + 1;
        assert Expands(info, cfg, swap, t, d);
        assert visits'[|visits|] == v;
        assert x in Taken(cfg, Nbrs(edges, visits'[|visits|].0));
      }
    }
    forall k | 0 <= k < |visits'|
      ensures visits'[k].0 in objs || DiscoveredBy(edges, info, cfg, swap, visits', visits'[k].0, visits'[k].1, k)
    {
      if k < |visits| {
        assert visits'[k] == visits[k];
        if visits[k].0 !in objs {
          DiscoveredWiden(edges, info, cfg, swap, visits, v, visits[k].0, visits[k].1, k, k);
        }
      } else if t !in objs {
        DiscoveredWiden(edges, info, cfg, swap, visits, v, t, d, |visits|, |visits|);
      }
    }
  }

  lemma ClosureStep(edges: EdgeFunc, info: InfoTable, cfg: Config, swap: bool, objs: seq<Obj>,
                    depth: map<Obj, nat>, queue: seq<Obj>, visits: seq<(Obj, nat)>,
                    depth': map<Obj, nat>, queue': seq<Obj>)
    requires Closure(edges, info, cfg, swap, depth, visits) && |queue| > 0 && queue[0] in depth
    requires Bookkept(objs, depth, queue, visits) && Ordered(depth, queue, visits)
    requires RoundGrows(edges, info, cfg, swap, depth, queue, depth', queue')
    ensures Closure(edges, info, cfg, swap, depth', visits + [(queue[0], depth[queue[0]])])
  {
    ClosureHead(edges, info, cfg, swap, objs, depth, queue, visits, depth', queue');
    ClosureExtend(edges, info, cfg, swap, depth, visits, depth', (queue[0], depth[queue[0]]));
  }

  /**
   * Dequeuing `v` keeps the closure when the table keeps its entries and
   * gives the neighbours `v` takes, if expanded, a depth at most one below it.
   */
  lemma ClosureExtend(edges: EdgeFunc, info: InfoTable, cfg: Config, swap: bool,
                      depth: map<Obj, nat>, visits: seq<(Obj, nat)>, depth': map<Obj, nat>, v: (Obj, nat))
    requires Closure(edges, info, cfg, swap, depth, visits)
    requires forall x :: x in depth ==> x in depth' && depth'[x] == depth[x]
    requires Expands(info, cfg, swap, v.0, v.1) ==>
               forall s :: s in Taken(cfg, Nbrs(edges, v.0)) ==> s in depth' && depth'[s] <= v.1 + 1
    ensures Closure(edges, info, cfg, swap, depth', visits + [v])
  {
    var visits' := visits + [v];
    forall k, s | 0 <= k < |visits'| && Expands(info, cfg, swap, visits'[k].0, visits'[k].1)
                  && s in Taken(cfg, Nbrs(edges, visits'[k].0))
      ensures s in depth' && depth'[s] <= visits'[k].1 + 1
    {
      if k < |visits| {
        assert visits'[k] == visits[k];
      } else {
        assert visits'[k] == v;
      }
    }
  }

  /** The neighbours the dequeued object takes, if expanded, end up with a depth at most one below it. */
  lemma ClosureHead(edges: EdgeFunc, info: InfoTable, cfg: Config, swap: bool, objs: seq<Obj>,
                    depth: map<Obj, nat>, queue: seq<Obj>, visits: seq<(Obj, nat)>,
                    depth': map<Obj, nat>, queue': seq<Obj>)
    requires |queue| > 0 && queue[0] in depth
    requires Bookkept(objs, depth, queue, visits) && Ordered(depth, queue, visits)
    requires RoundGrows(edges, info, cfg, swap, depth, queue, depth', queue')
    ensures Expands(info, cfg, swap, queue[0], depth[queue[0]]) ==>
              forall s :: s in Taken(cfg, Nbrs(edges, queue[0])) ==> s in depth' && depth'[s] <= depth[queue[0]] + 1
  {
    var t, d := queue[0], depth[queue[0]];
    if Expands(info, cfg, swap, t, d) {
      forall s | s in Taken(cfg, Nbrs(edges, t)) ensures s in depth' && depth'[s] <= d + 1 {
        if s in depth {
          if s in queue {
            var i :| 0 <= i < |queue| && queue[i] == s;
            if i > 0 {
              assert depth[queue[i]] <= depth[queue[0]] + 1;
            }
          } else {
            var j :| 0 <= j < |visits| && visits[j].0 == s;
            assert visits[j].1 == depth[s] && visits[j].1 <= d;
          }
        }
      }
    }
  }

  lemma OrderedStep(depth: map<Obj, nat>, queue: seq<Obj>, visits: seq<(Obj, nat)>,
                    taken: seq<Obj>, depth': map<Obj, nat>, queue': seq<Obj>)
    requires Ordered(depth, queue, visits) && |queue| > 0
    requires Grows(depth, queue[1..], taken, depth[queue[0]] + 1, depth', queue')
    ensures Ordered(depth', queue', visits + [(queue[0], depth[queue[0]])])
  {
    var d := depth[queue[0]];
    var rest := queue[1..];
    var visits' := visits + [(queue[0], d)];
    forall i | 0 <= i < |queue'|
      ensures queue'[i] in depth' && d <= depth'[queue'[i]] <= d + 1
      ensures i < |rest| ==> queue'[i] == queue[i + 1]
    {
      if i < |rest| {
        assert queue'[i] == queue'[..|rest|][i] == rest[i] == queue[i + 1];
        var x := queue[i + 1];
        assert x in depth && depth[queue[0]] <= depth[x] <= depth[queue[0]] + 1;
      } else {
        var x := queue'[i];
        assert x in depth' && x !in depth;
      }
    }
    forall i, j | 0 <= i < j < |visits'| ensures visits'[i].1 <= visits'[j].1 {
      assert visits'[i] == visits[i];
      if j < |visits| {
        assert visits'[j] == visits[j];
      }
    }
    forall i, j | 0 <= i < j < |queue'|
      ensures depth'[queue'[i]] <= depth'[queue'[j]] <= depth'[queue'[0]] + 1
    {
      if j < |rest| {
        var x, y := queue[i + 1], queue[j + 1];
        assert depth[x] <= depth[y];
      } else {
        var y := queue'[j];
        assert y in depth' && y !in depth;
      }
    }
    if |queue'| > 0 {
      forall k | 0 <= k < |visits'| ensures visits'[k].1 <= depth'[queue'[0]] {
        if k < |visits| {
          assert visits'[k] == visits[k];
        }
      }
    }
  }

  lemma RootsFirstStep(objs: seq<Obj>, depth: map<Obj, nat>, queue: seq<Obj>, visits: seq<(Obj, nat)>,
                       taken: seq<Obj>, level: nat, depth': map<Obj, nat>, queue': seq<Obj>)
    requires RootsFirst(objs, queue, visits) && Bookkept(objs, depth, queue, visits) && |queue| > 0
    requires Grows(depth, queue[1..], taken, level, depth', queue')
    ensures RootsFirst(objs, queue', visits + [(queue[0], depth[queue[0]])])
  {
    var rest := queue[1..];
    var visits' := visits + [(queue[0], depth[queue[0]])];
    if |visits| < |objs| {
      var x := objs[|visits|];
      assert queue[0] == x;
      assert x in depth && depth[x] == 0;
    }
    forall i | 0 <= i < |visits'| && i < |objs| ensures visits'[i] == (objs[i], 0) {
      if i < |visits| {
        assert visits'[i] == visits[i];
      }
    }
    forall i | 0 <= i < |queue'|
      ensures |visits'| + i < |objs| ==> queue'[i] == objs[|visits'| + i]
      ensures |visits'| + i >= |objs| ==> queue'[i] !in objs
    {
      if i < |rest| {
        assert queue'[i] == queue'[..|rest|][i] == rest[i] == queue[i + 1];
      } else {
        var x := queue'[i];
        assert x !in depth;
        forall r | 0 <= r < |objs| ensures objs[r] != x {
          assert objs[r] in depth;
        }
      }
    }
    forall k | |objs| <= k < |visits'| ensures visits'[k].0 !in objs {
      if k < |visits| {
        assert visits'[k] == visits[k];
      }
    }
  }

  lemma UniqueStep(objs: seq<Obj>, depth: map<Obj, nat>, queue: seq<Obj>, visits: seq<(Obj, nat)>,
                   taken: seq<Obj>, level: nat, depth': map<Obj, nat>, queue': seq<Obj>)
    requires OnlyRootsTwice(objs, queue, visits) && Bookkept(objs, depth, queue, visits) && |queue| > 0
    requires Grows(depth, queue[1..], taken, level, depth', queue')
    ensures OnlyRootsTwice(objs, queue', visits + [(queue[0], depth[queue[0]])])
  {
    var rest := queue[1..];
    var visits' := visits + [(queue[0], depth[queue[0]])];
    forall i, j | 0 <= i < j < |visits'| && visits'[i].0 == visits'[j].0 ensures visits'[i].0 in objs {
      assert visits'[i] == visits[i];
      if j < |visits| {
        assert visits'[j] == visits[j];
      }
    }
    forall i | 0 <= i < |rest| ensures queue'[i] == queue[i + 1] {
      assert queue'[i] == queue'[..|rest|][i];
    }
    forall k, i | 0 <= k < |visits'| && 0 <= i < |queue'| && visits'[k].0 == queue'[i] ensures queue'[i] in objs {
      if k < |visits| {
        assert visits'[k] == visits[k];
      }
      assert visits'[k].0 in depth;
      if i < |rest| {
        assert queue'[i] == queue[i + 1];
      }
    }
    forall i, j | 0 <= i < j < |queue'| && queue'[i] == queue'[j] ensures queue'[i] in objs {
      if i < |rest| {
        assert queue'[i] == queue[i + 1] && queue'[i] in depth;
      }
    }
  }

  /** A round keeps the walk first in, first out: the queue grows by the fresh taken neighbours, in order. */
  lemma FifoStep(edges: EdgeFunc, info: InfoTable, cfg: Config, swap: bool, objs: seq<Obj>,
                 depth: map<Obj, nat>, queue: seq<Obj>, visits: seq<(Obj, nat)>, queue': seq<Obj>)
    requires Fifo(edges, info, cfg, swap, objs, queue, visits)
    requires depth.Keys == Elems(objs) + Elems(Discovered(edges, info, cfg, swap, objs, visits))
    requires |queue| > 0 && queue[0] in depth
    requires GrowsFresh(depth, queue[1..], if Expands(info, cfg, swap, queue[0], depth[queue[0]])
                                           then Taken(cfg, Nbrs(edges, queue[0])) else [], queue')
    ensures Fifo(edges, info, cfg, swap, objs, queue', visits + [(queue[0], depth[queue[0]])])
  {
    var t, d := queue[0], depth[queue[0]];
    var found := Discovered(edges, info, cfg, swap, objs, visits);
    var taken := if Expands(info, cfg, swap, t, d) then Taken(cfg, Nbrs(edges, t)) else [];
    DiscoveredSnoc(edges, info, cfg, swap, objs, visits, (t, d), depth.Keys);
    ObjectsSnoc(visits, (t, d));
    FifoShift(Objects(visits), queue, objs + found, Fresh(depth.Keys, taken));
  }

  /** One more dequeued object extends the discovered ones by the fresh neighbours it takes, if expanded. */
  lemma DiscoveredSnoc(edges: EdgeFunc, info: InfoTable, cfg: Config, swap: bool, objs: seq<Obj>,
                       visits: seq<(Obj, nat)>, v: (Obj, nat), known: set<Obj>)
    requires known == Elems(objs) + Elems(Discovered(edges, info, cfg, swap, objs, visits))
    ensures Discovered(edges, info, cfg, swap, objs, visits + [v]) ==
            Discovered(edges, info, cfg, swap, objs, visits)
              + Fresh(known, if Expands(info, cfg, swap, v.0, v.1) then Taken(cfg, Nbrs(edges, v.0)) else [])
  {
    assert (visits + [v])[..|visits|] == visits;
  }

  /**
   * The table holds exactly the objects dequeued or queued, so, first in
   * first out, exactly the roots and the discovered objects.
   */
  lemma KnownIsFound(objs: seq<Obj>, depth: map<Obj, nat>, queue: seq<Obj>, visits: seq<(Obj, nat)>, found: seq<Obj>)
    requires Bookkept(objs, depth, queue, visits) && Objects(visits) + queue == objs + found
    ensures depth.Keys == Elems(objs) + Elems(found)
  {
    var done := Objects(visits);
    ElemsConcat(done, queue);
    ElemsConcat(objs, found);
    forall x | x in depth.Keys ensures x in Elems(done) + Elems(queue) {
      if x !in queue {
        var k :| 0 <= k < |visits| && visits[k].0 == x;
        assert done[k] == x;
      }
    }
    forall x | x in Elems(done) + Elems(queue) ensures x in depth.Keys {
      if x in done {
        var k :| 0 <= k < |done| && done[k] == x;
        assert visits[k].0 in depth;
      } else {
        var i :| 0 <= i < |queue| && queue[i] == x;
      }
    }
  }

  lemma ObjectsSnoc(visits: seq<(Obj, nat)>, v: (Obj, nat))
    ensures Objects(visits + [v]) == Objects(visits) + [v.0]
  {
    assert (visits + [v])[..|visits|] == visits;
  }

  /** Moving the head of the queue to the dequeued objects and appending `f` to the queue. */
  lemma FifoShift(done: seq<Obj>, queue: seq<Obj>, all: seq<Obj>, f: seq<Obj>)
    requires |queue| > 0 && done + queue == all
    ensures (done + [queue[0]]) + (queue[1..] + f) == all + f
  {
    var q, rest := queue[0], queue[1..];
    assert queue == [q] + rest;
    AppendAssoc(done + [q], rest, f);
    AppendAssoc(done, [q], rest);
  }

  /** One round keeps the walk invariant, and either discovers something or shortens the queue. */
  lemma WalkStep(edges: EdgeFunc, info: InfoTable, cfg: Config, swap: bool, objs: seq<Obj>,
                 depth: map<Obj, nat>, queue: seq<Obj>, visits: seq<(Obj, nat)>, universe: set<Obj>,
                 depth': map<Obj, nat>, queue': seq<Obj>)
    requires Walk(edges, info, cfg, swap, objs, depth, queue, visits, universe) == true && Covers(edges, universe)
    requires |queue| > 0 && queue[0] in depth
    requires RoundGrows(edges, info, cfg, swap, depth, queue, depth', queue')
    ensures Walk(edges, info, cfg, swap, objs, depth', queue', visits + [(queue[0], depth[queue[0]])], universe)
    ensures depth.Keys <= depth'.Keys <= universe
    ensures depth'.Keys == depth.Keys ==> |queue'| < |queue|
  {
    var t, d := queue[0], depth[queue[0]];
    var taken := if Expands(info, cfg, swap, t, d) then Taken(cfg, Nbrs(edges, t)) else [];
    BookkeptStep(objs, depth, queue, visits, taken, d + 1, depth', queue');
    LayeredStep(edges, info, cfg, swap, objs, depth, queue, visits, depth', queue');
    ClosureStep(edges, info, cfg, swap, objs, depth, queue, visits, depth', queue');
    UniqueStep(objs, depth, queue, visits, taken, d + 1, depth', queue');
    OrderedStep(depth, queue, visits, taken, depth', queue');
    RootsFirstStep(objs, depth, queue, visits, taken, d + 1, depth', queue');
    FanOut(cfg, Nbrs(edges, t));
    assert Grows(depth, queue[1..], taken, d + 1, depth', queue');
    forall x | x in depth ensures x in depth' {
    }
    forall x | x in depth' ensures x in universe {
      if x !in depth {
        assert x in Nbrs(edges, t);
      }
    }
    if |queue'| > |queue| - 1 {
      assert queue'[|queue| - 1] in depth' && queue'[|queue| - 1] !in depth;
    }
  }

  /** The walk invariant right after the roots are queued. */
  lemma WalkInit(edges: EdgeFunc, info: InfoTable, cfg: Config, swap: bool, objs: seq<Obj>,
                 depth: map<Obj, nat>, universe: set<Obj>)
    requires forall x :: x in depth <==> x in objs
    requires forall x :: x in depth ==> depth[x] == 0
    requires depth.Keys <= universe
    ensures Walk(edges, info, cfg, swap, objs, depth, objs, [], universe)
  {
    forall i | 0 <= i < |objs| ensures objs[i] in depth && depth[objs[i]] == 0 {
      var x := objs[i];
      assert x in objs;
    }
  }
  /** Right after the roots are queued, nothing is dequeued or discovered yet. */
  lemma FifoInit(edges: EdgeFunc, info: InfoTable, cfg: Config, swap: bool, objs: seq<Obj>)
    ensures Fifo(edges, info, cfg, swap, objs, objs, [])
  {
    var none: seq<Obj> := [];
    assert none + objs == objs + none;
  }

  /** A walk whose queue ran dry is a complete traversal. */
  lemma WalkDone(edges: EdgeFunc, info: InfoTable, cfg: Config, swap: bool, objs: seq<Obj>,
                 depth: map<Obj, nat>, visits: seq<(Obj, nat)>, universe: set<Obj>)
    requires Walk(edges, info, cfg, swap, objs, depth, [], visits, universe) == true
    ensures Traversal(edges, info, cfg, swap, objs, visits)
  {
    forall x | x in objs ensures Seen(visits, x) {
      var i :| 0 <= i < |objs| && objs[i] == x;
    }
    ClosureDone(edges, info, cfg, swap, depth, visits);
  }

  /** With the queue empty, the dequeued objects are the roots and then the discovered ones. */
  lemma FifoDone(edges: EdgeFunc, info: InfoTable, cfg: Config, swap: bool, objs: seq<Obj>, visits: seq<(Obj, nat)>)
    requires Fifo(edges, info, cfg, swap, objs, [], visits)
    ensures InDiscoveryOrder(edges, info, cfg, swap, objs, visits)
  {
    assert Objects(visits) + [] == Objects(visits);
  }

  /** With the queue empty, every taken neighbour was dequeued, no deeper than one below its taker. */
  lemma ClosureDone(edges: EdgeFunc, info: InfoTable, cfg: Config, swap: bool,
                    depth: map<Obj, nat>, visits: seq<(Obj, nat)>)
    requires Closure(edges, info, cfg, swap, depth, visits)
    requires forall x :: x in depth ==> Seen(visits, x)
    requires forall k :: 0 <= k < |visits| ==> visits[k].0 in depth && visits[k].1 == depth[visits[k].0]
    ensures forall k, s ::
              (0 <= k < |visits| && Expands(info, cfg, swap, visits[k].0, visits[k].1)
               && s in Taken(cfg, Nbrs(edges, visits[k].0))) ==> Seen(visits, s)
    ensures NoDeeperThanTakers(edges, info, cfg, swap, visits)
  {
    forall k, s | 0 <= k < |visits| && Expands(info, cfg, swap, visits[k].0, visits[k].1)
                  && s in Taken(cfg, Nbrs(edges, visits[k].0))
      ensures Seen(visits, s)
    {
      assert s in depth;
    }
    forall k, j | 0 <= k < |visits| && TakenBy(edges, info, cfg, swap, visits, j, visits[k].0)
      ensures visits[k].1 <= visits[j].1 + 1
    {
      var x := visits[k].0;
      assert x in depth && depth[x] <= visits[j].1 + 1;
    }
  }

  /**
   * An object past the roots is dequeued one level below the first
   * expanded object that took it, however many take it later: its depth is
   * fixed on first discovery.
   */
  lemma DepthFromFirstTaker(edges: EdgeFunc, info: InfoTable, cfg: Config, swap: bool,
                            objs: seq<Obj>, visits: seq<(Obj, nat)>, k: nat)
    requires Traversal(edges, info, cfg, swap, objs, visits)
    requires k < |visits| && visits[k].0 !in objs
    ensures exists j :: 0 <= j < k && TakenBy(edges, info, cfg, swap, visits, j, visits[k].0)
              && visits[k].1 == visits[j].1 + 1
              && forall i :: 0 <= i < j ==> !TakenBy(edges, info, cfg, swap, visits, i, visits[k].0)
  {
    var x := visits[k].0;
    assert DiscoveredBy(edges, info, cfg, swap, visits, x, visits[k].1, k);
    var j0 :| 0 <= j0 < |visits| && j0 < k && Expands(info, cfg, swap, visits[j0].0, visits[j0].1)
              && x in Taken(cfg, Nbrs(edges, visits[j0].0)) && visits[k].1 == visits[j0].1 + 1;
    FirstTaker(edges, info, cfg, swap, visits, k, j0);
  }

  /** The first taker of the `k`-th dequeued object fixes its depth, given a taker one level up. */
  lemma FirstTaker(edges: EdgeFunc, info: InfoTable, cfg: Config, swap: bool,
                   visits: seq<(Obj, nat)>, k: nat, j0: nat)
    requires DepthsOrdered(visits) && NoDeeperThanTakers(edges, info, cfg, swap, visits)
    requires k < |visits| && j0 < k && TakenBy(edges, info, cfg, swap, visits, j0, visits[k].0)
    requires visits[k].1 == visits[j0].1 + 1
    ensures exists j :: 0 <= j < k && TakenBy(edges, info, cfg, swap, visits, j, visits[k].0)
              && visits[k].1 == visits[j].1 + 1
              && forall i :: 0 <= i < j ==> !TakenBy(edges, info, cfg, swap, visits, i, visits[k].0)
  {
    var x := visits[k].0;
    var j := FirstTakerOf(edges, info, cfg, swap, visits, x, j0);
    assert visits[j].1 <= visits[j0].1;
    assert visits[k].1 <= visits[j].1 + 1;
    assert 0 <= j < k && TakenBy(edges, info, cfg, swap, visits, j, x) && visits[k].1 == visits[j].1 + 1
      && forall i :: 0 <= i < j ==> !TakenBy(edges, info, cfg, swap, visits, i, x);
  }

  /** The first dequeued object, up to the `j0`-th, that took `x`. */
  lemma FirstTakerOf(edges: EdgeFunc, info: InfoTable, cfg: Config, swap: bool,
                     visits: seq<(Obj, nat)>, x: Obj, j0: nat) returns (j: nat)
    requires TakenBy(edges, info, cfg, swap, visits, j0, x)
    ensures j <= j0 && TakenBy(edges, info, cfg, swap, visits, j, x)
    ensures forall i :: 0 <= i < j ==> !TakenBy(edges, info, cfg, swap, visits, i, x)
  {
    j := 0;
    while !TakenBy(edges, info, cfg, swap, visits, j, x)
      invariant j <= j0 && forall i :: 0 <= i < j ==> !TakenBy(edges, info, cfg, swap, visits, i, x)
      decreases j0 - j
    {
      j := j + 1;
    }
  }

  /**
   * Object 3, a neighbour of root 1, cannot be dequeued at depth 2 through
   * object 2 once root 1 was expanded at depth 0 and took it.
   */
  lemma LateDepthRejected(edges: EdgeFunc, cfg: Config, visits: seq<(Obj, nat)>)
    requires edges == map[1 := [2, 3], 2 := [3], 3 := [4]] && cfg == Config(2, {}, None, 10, {}, None)
    requires visits == [(1, 0), (2, 1), (3, 2)]
    ensures !Traversal(edges, map[], cfg, true, [1], visits)
  {
    assert Nbrs(edges, 1) == [2, 3];
    TakenPair(cfg, 2, 3);
    assert TakenBy(edges, map[], cfg, true, visits, 0, visits[2].0) && visits[2].1 > visits[0].1 + 1;
    assert !NoDeeperThanTakers(edges, map[], cfg, true, visits);
  }

  /**
   * Root 1 takes 2 before 3, so 2 is queued first and dequeued first: the
   * same level dequeued as 3, then 2 is not first in, first out.
   */
  lemma SwappedLevelRejected(edges: EdgeFunc, cfg: Config, visits: seq<(Obj, nat)>)
    requires edges == map[1 := [2, 3]] && cfg == Config(1, {}, None, 10, {}, None)
    requires visits == [(1, 0), (3, 1), (2, 1)]
    ensures !InDiscoveryOrder(edges, map[], cfg, true, [1], visits)
  {
    var one: seq<(Obj, nat)> := [(1, 0)];
    var two := one + [(3, 1)];
    assert visits == two + [(2, 1)];
    RootTakesBoth(edges, cfg, one);
    DiscoveredSnoc(edges, map[], cfg, true, [1], one, (3, 1),
                   Elems([1]) + Elems(Discovered(edges, map[], cfg, true, [1], one)));
    DiscoveredSnoc(edges, map[], cfg, true, [1], two, (2, 1),
                   Elems([1]) + Elems(Discovered(edges, map[], cfg, true, [1], two)));
    assert Discovered(edges, map[], cfg, true, [1], visits) == [2, 3] + [] + [];
    assert Objects(visits)[1] == 3 && ([1] + [2, 3])[1] == 2;
  }

  /** In that example, root 1, expanded at depth 0, discovers 2 and then 3. */
  lemma RootTakesBoth(edges: EdgeFunc, cfg: Config, one: seq<(Obj, nat)>)
    requires edges == map[1 := [2, 3]] && cfg == Config(1, {}, None, 10, {}, None)
    requires one == [(1, 0)]
    ensures Discovered(edges, map[], cfg, true, [1], one) == [2, 3]
  {
    RootTakes(edges, cfg);
    DiscoveredFirst(edges, map[], cfg, true, [1], (1, 0));
    assert Expands(map[], cfg, true, 1, 0);
    assert 2 !in Elems([1]) && 3 !in Elems([1]);
    FreshPair(Elems([1]), 2, 3);
  }

  /** In that example, root 1 takes both its neighbours, 2 first. */
  lemma RootTakes(edges: EdgeFunc, cfg: Config)
    requires edges == map[1 := [2, 3]] && cfg == Config(1, {}, None, 10, {}, None)
    ensures Taken(cfg, Nbrs(edges, 1)) == [2, 3]
  {
    assert Nbrs(edges, 1) == [2, 3];
    TakenPair(cfg, 2, 3);
  }

  /** Two neighbours that both pass, with room for two, are both taken, in order. */
  lemma TakenPair(cfg: Config, a: Obj, b: Obj)
    requires Passes(cfg, a) && Passes(cfg, b) && cfg.tooMany >= 2
    ensures Taken(cfg, [a, b]) == [a, b]
  {
    assert [a, b][..1] == [a] && [a][..0] == [];
    assert Eligible(cfg, [a]) == [a];
    var e := Eligible(cfg, [a, b]);
    assert e == [a, b];
    assert Min(cfg.tooMany, |e|) == 2;
    assert e[..2] == e;
  }

  /** The first dequeued object discovers the fresh neighbours it takes, if expanded. */
  lemma DiscoveredFirst(edges: EdgeFunc, info: InfoTable, cfg: Config, swap: bool, objs: seq<Obj>, v: (Obj, nat))
    ensures Discovered(edges, info, cfg, swap, objs, [v])
            == if Expands(info, cfg, swap, v.0, v.1) then Fresh(Elems(objs), Taken(cfg, Nbrs(edges, v.0))) else []
  {
    var none: seq<(Obj, nat)> := [];
    assert Elems(objs) + Elems(Discovered(edges, info, cfg, swap, objs, none)) == Elems(objs);
    DiscoveredSnoc(edges, info, cfg, swap, objs, none, v, Elems(objs));
    assert none + [v] == [v];
  }

  /** Two distinct objects, neither known, are both fresh, in order. */
  lemma FreshPair(known: set<Obj>, a: Obj, b: Obj)
    requires a !in known && b !in known && a != b
    ensures Fresh(known, [a, b]) == [a, b]
  {
    var empty: seq<Obj> := [];
    FreshSnoc(known, empty, a);
    assert empty + [a] == [a];
    FreshSnoc(known, [a], b);
    assert [a] + [b] == [a, b];
  }

  /** Every edge in the output joins two objects whose labels are in the output too. */
  lemma OutputLabelled(edges: EdgeFunc, info: InfoTable, cfg: Config, swap: bool,
                       objs: seq<Obj>, visits: seq<(Obj, nat)>)
    requires Traversal(edges, info, cfg, swap, objs, visits)
    ensures forall e :: e in Output(edges, info, cfg, swap, objs, visits) && e.Edge? ==>
              && NodeLabel(e.src, ObjLabel(info, cfg, e.src)) in Output(edges, info, cfg, swap, objs, visits)
              && NodeLabel(e.dst, ObjLabel(info, cfg, e.dst)) in Output(edges, info, cfg, swap, objs, visits)
  {
    var blocks := Blocks(edges, info, cfg, swap, visits);
    var out := Output(edges, info, cfg, swap, objs, visits);
    assert out == [Header] + RootMarks(objs) + blocks + [Footer];
    forall e | e in out && e.Edge?
      ensures NodeLabel(e.src, ObjLabel(info, cfg, e.src)) in out && NodeLabel(e.dst, ObjLabel(info, cfg, e.dst)) in out
    {
      assert e !in RootMarks(objs);
      assert e in blocks;
      FlatMapMembers(Round(edges, info, cfg, swap), visits, e);
      var k :| 0 <= k < |visits| && e in Round(edges, info, cfg, swap)(visits[k]);
      NodeBlockEdges(edges, info, cfg, swap, visits[k].0, visits[k].1);
      var other := if swap then e.dst else e.src;
      assert Seen(visits, other);
      var j :| 0 <= j < |visits| && visits[j].0 == other;
      BlocksLabels(edges, info, cfg, swap, visits, k);
      BlocksLabels(edges, info, cfg, swap, visits, j);
    }
  }

  /**
   * Every edge in the output follows the edge function from the dequeued
   * object to a neighbour that passes the ignore set and the filter, and is
   * drawn the way references go: with `swap` (references) from the object
   * to its referent, without it (back-references) from the referrer to the
   * object, which then is not a proper module.
   */
  lemma OutputEdges(edges: EdgeFunc, info: InfoTable, cfg: Config, swap: bool,
                    objs: seq<Obj>, visits: seq<(Obj, nat)>)
    ensures forall e :: e in Output(edges, info, cfg, swap, objs, visits) && e.Edge? ==>
              && (swap ==> e.dst in Nbrs(edges, e.src) && Passes(cfg, e.dst))
              && (!swap ==> e.src in Nbrs(edges, e.dst) && Passes(cfg, e.src) && !Info(info, e.dst).isProperModule)
              && e.attrs == EdgeLabel(info, e.src, e.dst)
  {
    var blocks := Blocks(edges, info, cfg, swap, visits);
    var out := Output(edges, info, cfg, swap, objs, visits);
    assert out == [Header] + RootMarks(objs) + blocks + [Footer];
    forall e | e in out && e.Edge?
      ensures && (swap ==> e.dst in Nbrs(edges, e.src) && Passes(cfg, e.dst))
              && (!swap ==> e.src in Nbrs(edges, e.dst) && Passes(cfg, e.src) && !Info(info, e.dst).isProperModule)
              && e.attrs == EdgeLabel(info, e.src, e.dst)
    {
      assert e !in RootMarks(objs);
      assert e in blocks;
      FlatMapMembers(Round(edges, info, cfg, swap), visits, e);
      var k :| 0 <= k < |visits| && e in Round(edges, info, cfg, swap)(visits[k]);
      var v := visits[k];
      NodeBlockEdges(edges, info, cfg, swap, v.0, v.1);
      FanOut(cfg, Nbrs(edges, v.0));
    }
  }

  // ---------------------------------------------------------------------
  // One round and the whole walk (objgraph.py:546-627)
  // ---------------------------------------------------------------------

  /**
   * The fill colour of a dequeued object: a grey by depth, turned green for
   * a module and blue-ish, lighter, for a highlighted object.
   */
  method FillColour(info: InfoTable, cfg: Config, target: Obj, tdepth: nat) returns (c: Hsv)
    ensures c == NodeColor(info, cfg, target, tdepth)
  {
    var g := Gradient(Hsv(0.0, 0.0, 1.0), Hsv(0.0, 0.0, 0.3), tdepth, cfg.maxDepth);
    var h, s, v := g.h, g.s, g.v;
    if Info(info, target).isModule {
      h, s := 0.3, 1.0;
    }
    if target in cfg.highlight {
      h, s, v := 0.6, 0.6, 0.5 + v * 0.5;
    }
    c := Hsv(h, s, v);
  }

  /** The label, fill colour, white font and `__del__` lines of a dequeued object. */
  method EmitHead(target: Obj, text: string, c: Hsv, hasDel: bool) returns (decls: seq<Decl>)
    ensures decls == NodeHead(target, text, c, hasDel)
  {
    decls := [NodeLabel(target, text), FillColor(target, c)];
    if c.v < 0.5 {
      decls := decls + [WhiteFont(target)];
    }
    if hasDel {
      decls := decls + [DelEdge(target), DelNode(target)];
    }
  }

  /**
   * The edge and summary lines of a round: none when `target` is at
   * `max_depth` or is a module reached backwards, otherwise the neighbour
   * loop followed by the summary node of the skipped neighbours.
   */
  method WriteExpansion(edges: EdgeFunc, info: InfoTable, cfg: Config, swap: bool, target: Obj, tdepth: nat,
                        depth: map<Obj, nat>, queue: seq<Obj>)
    returns (decls: seq<Decl>, depth': map<Obj, nat>, queue': seq<Obj>)
    ensures decls == Expansion(edges, info, cfg, swap, target, tdepth)
    ensures Grows(depth, queue, if Expands(info, cfg, swap, target, tdepth) then Taken(cfg, Nbrs(edges, target)) else [],
                  tdepth + 1, depth', queue')
    ensures GrowsFresh(depth, queue, if Expands(info, cfg, swap, target, tdepth) then Taken(cfg, Nbrs(edges, target)) else [],
                       queue')
  {
    decls, depth', queue' := [], depth, queue;
    assert queue[..|queue|] == queue;
    if tdepth >= cfg.maxDepth {
      return;
    }
    if Info(info, target).isProperModule && !swap {
      return;
    }
    var skipped;
    decls, skipped, depth', queue' := Expand(edges, info, cfg, swap, target, tdepth, depth, queue);
    if skipped > 0 {
      var g := Gradient(Hsv(0.0, 1.0, 1.0), Hsv(0.0, 1.0, 0.3), tdepth + 1, cfg.maxDepth);
      decls := decls + [TooManyEdge(target, swap), TooManyNode(target, TooManyLabel(skipped, swap), g),
                        TooManyWhite(target)];
    } else {
      assert decls + [] == decls;
    }
  }

  /** Everything written for `target` at depth `tdepth`: its head lines, then its expansion. */
  method WriteRound(edges: EdgeFunc, info: InfoTable, cfg: Config, swap: bool, target: Obj, tdepth: nat,
                    depth: map<Obj, nat>, queue: seq<Obj>)
    returns (decls: seq<Decl>, depth': map<Obj, nat>, queue': seq<Obj>)
    ensures decls == NodeBlock(edges, info, cfg, swap, target, tdepth)
    ensures Grows(depth, queue, if Expands(info, cfg, swap, target, tdepth) then Taken(cfg, Nbrs(edges, target)) else [],
                  tdepth + 1, depth', queue')
    ensures GrowsFresh(depth, queue, if Expands(info, cfg, swap, target, tdepth) then Taken(cfg, Nbrs(edges, target)) else [],
                       queue')
  {
    var c := FillColour(info, cfg, target, tdepth);
    var head := EmitHead(target, ObjLabel(info, cfg, target), c, Info(info, target).hasDel);
    var tail;
    tail, depth', queue' := WriteExpansion(edges, info, cfg, swap, target, tdepth, depth, queue);
    decls := head + tail;
  }

  /**
   * What one round does to the table and the queue: the table grows by the
   * fresh taken neighbours of `queue[0]` (when it is expanded) one level
   * below it, and the rest of the queue grows by them in order.
   */
  ghost predicate Stepped(edges: EdgeFunc, info: InfoTable, cfg: Config, swap: bool,
                          depth: map<Obj, nat>, queue: seq<Obj>, depth': map<Obj, nat>, queue': seq<Obj>)
    requires |queue| > 0 && queue[0] in depth
  {
    && RoundGrows(edges, info, cfg, swap, depth, queue, depth', queue')
    && GrowsFresh(depth, queue[1..], if Expands(info, cfg, swap, queue[0], depth[queue[0]])
                                     then Taken(cfg, Nbrs(edges, queue[0])) else [], queue')
  }

  /** One turn of the loop: dequeue the head of the queue and write its round. */
  method Visit(edges: EdgeFunc, info: InfoTable, cfg: Config, swap: bool, depth: map<Obj, nat>, queue: seq<Obj>)
    returns (decls: seq<Decl>, depth': map<Obj, nat>, queue': seq<Obj>)
    requires |queue| > 0 && queue[0] in depth
    ensures decls == Round(edges, info, cfg, swap)((queue[0], depth[queue[0]]))
    ensures Stepped(edges, info, cfg, swap, depth, queue, depth', queue')
  {
    var target := queue[0];
    var tdepth := depth[target];
    decls, depth', queue' := WriteRound(edges, info, cfg, swap, target, tdepth, depth, queue[1..]);
  }

  /** The head of a non-empty queue has a depth. */
  lemma HeadQueued(edges: EdgeFunc, info: InfoTable, cfg: Config, swap: bool, objs: seq<Obj>,
                   depth: map<Obj, nat>, queue: seq<Obj>, visits: seq<(Obj, nat)>, universe: set<Obj>)
    requires Walk(edges, info, cfg, swap, objs, depth, queue, visits, universe) == true && |queue| > 0
    ensures queue[0] in depth
  {
  }

  /**
   * A round keeps the walk invariant and the first in, first out order,
   * and either discovers something or shortens the queue.
   */
  lemma Advance(edges: EdgeFunc, info: InfoTable, cfg: Config, swap: bool, objs: seq<Obj>,
                depth: map<Obj, nat>, queue: seq<Obj>, visits: seq<(Obj, nat)>, universe: set<Obj>,
                depth': map<Obj, nat>, queue': seq<Obj>)
    requires Walk(edges, info, cfg, swap, objs, depth, queue, visits, universe) == true && Covers(edges, universe)
    requires Fifo(edges, info, cfg, swap, objs, queue, visits) == true
    requires |queue| > 0 && queue[0] in depth
    requires Stepped(edges, info, cfg, swap, depth, queue, depth', queue') == true
    ensures Walk(edges, info, cfg, swap, objs, depth', queue', visits + [(queue[0], depth[queue[0]])], universe) == true
    ensures Fifo(edges, info, cfg, swap, objs, queue', visits + [(queue[0], depth[queue[0]])]) == true
    ensures |universe - depth'.Keys| < |universe - depth.Keys|
            || (|universe - depth'.Keys| == |universe - depth.Keys| && |queue'| < |queue|)
  {
    WalkStep(edges, info, cfg, swap, objs, depth, queue, visits, universe, depth', queue');
    KnownIsFound(objs, depth, queue, visits, Discovered(edges, info, cfg, swap, objs, visits));
    FifoStep(edges, info, cfg, swap, objs, depth, queue, visits, queue');
    if depth'.Keys != depth.Keys {
      Shrinks(universe, depth.Keys, depth'.Keys);
    }
  }

  /** The header, then every root marked red, queued and given depth 0. */
  method QueueRoots(objs: seq<Obj>) returns (out: seq<Decl>, depth: map<Obj, nat>, queue: seq<Obj>)
    ensures out == [Header] + RootMarks(objs) && queue == objs
    ensures forall x :: x in depth <==> x in objs
    ensures forall x :: x in depth ==> depth[x] == 0
  {
    out := [Header];
    queue := [];
    depth := map[];
    for i := 0 to |objs|
      invariant out == [Header] + RootMarks(objs[..i]) && queue == objs[..i]
      invariant forall x :: x in depth <==> x in objs[..i]
      invariant forall x :: x in depth ==> depth[x] == 0
    {
      assert objs[..i + 1][..i] == objs[..i];
      AppendAssoc([Header], RootMarks(objs[..i]), [RootMark(objs[i])]);
      out := out + [RootMark(objs[i])];
      depth := depth[objs[i] := 0];
      queue := queue + [objs[i]];
    }
    assert objs[..|objs|] == objs;
  }

  /**
   * `show_graph(objs, edge_func, swap_source_target, max_depth,
   * extra_ignore, filter, too_many, highlight, extra_info)` without the file
   * handling. `out` is the sequence of lines written, `nodes` the count it
   * reports, and `visits` the dequeued objects with their depths: the
   * output is the header, the root marks, one round per dequeued object in
   * order, and the footer, and the dequeued objects form a complete
   * breadth-first traversal, dequeued first in, first out.
   */
  method ShowGraph(edges: EdgeFunc, info: InfoTable, objs: seq<Obj>, swap: bool, cfg: Config)
    returns (out: seq<Decl>, nodes: nat, ghost visits: seq<(Obj, nat)>)
    ensures out == Output(edges, info, cfg, swap, objs, visits) && nodes == |visits|
    ensures Traversal(edges, info, cfg, swap, objs, visits)
    ensures InDiscoveryOrder(edges, info, cfg, swap, objs, visits)
    ensures forall e :: e in out && e.Edge? ==>
              NodeLabel(e.src, ObjLabel(info, cfg, e.src)) in out && NodeLabel(e.dst, ObjLabel(info, cfg, e.dst)) in out
    ensures forall e :: e in out && e.Edge? ==>
              && (swap ==> e.dst in Nbrs(edges, e.src) && Passes(cfg, e.dst))
              && (!swap ==> e.src in Nbrs(edges, e.dst) && Passes(cfg, e.src) && !Info(info, e.dst).isProperModule)
  {
    var depth;
    ghost var universe;
    out, nodes, visits, depth, universe := Drain(edges, info, objs, swap, cfg);
    out := out + [Footer];
    WalkDone(edges, info, cfg, swap, objs, depth, visits, universe);
    FifoDone(edges, info, cfg, swap, objs, visits);
    OutputLabelled(edges, info, cfg, swap, objs, visits);
    OutputEdges(edges, info, cfg, swap, objs, visits);
  }

  /** The header and the root marks, then one round per object dequeued until the queue runs dry. */
  method Drain(edges: EdgeFunc, info: InfoTable, objs: seq<Obj>, swap: bool, cfg: Config)
    returns (out: seq<Decl>, nodes: nat, ghost visits: seq<(Obj, nat)>,
             depth: map<Obj, nat>, ghost universe: set<Obj>)
    ensures out == [Header] + RootMarks(objs) + Blocks(edges, info, cfg, swap, visits) && nodes == |visits|
    ensures Walk(edges, info, cfg, swap, objs, depth, [], visits, universe) == true
    ensures Fifo(edges, info, cfg, swap, objs, [], visits) == true
  {
    var queue;
    out, depth, queue := QueueRoots(objs);
    universe := FiniteUniverse(edges, depth.Keys);
    WalkInit(edges, info, cfg, swap, objs, depth, universe);
    FifoInit(edges, info, cfg, swap, objs);
    nodes := 0;
    visits := [];
    ghost var head := out;
    while queue != []
      invariant Walk(edges, info, cfg, swap, objs, depth, queue, visits, universe) == true
      invariant Fifo(edges, info, cfg, swap, objs, queue, visits) == true
      invariant out == head + Blocks(edges, info, cfg, swap, visits) && nodes == |visits|
      decreases |universe - depth.Keys|, |queue|
    {
      ghost var v;
      out, depth, queue, v := Turn(edges, info, cfg, swap, objs, depth, queue, visits, universe, head, out);
      visits := visits + [v];
      nodes := nodes + 1;
    }
  }

  /**
   * One turn of the walk loop: dequeue the head `v` of the queue and write
   * its round. The walk invariant and the first in, first out order carry
   * over to the visits extended by `v`, and either the table grew or the
   * queue shrank.
   */
  method Turn(edges: EdgeFunc, info: InfoTable, cfg: Config, swap: bool, objs: seq<Obj>,
              depth: map<Obj, nat>, queue: seq<Obj>, ghost visits: seq<(Obj, nat)>, ghost universe: set<Obj>,
              ghost head: seq<Decl>, out: seq<Decl>)
    returns (out': seq<Decl>, depth': map<Obj, nat>, queue': seq<Obj>, ghost v: (Obj, nat))
    requires Walk(edges, info, cfg, swap, objs, depth, queue, visits, universe) == true && Covers(edges, universe)
    requires Fifo(edges, info, cfg, swap, objs, queue, visits) == true
    requires queue != [] && out == head + Blocks(edges, info, cfg, swap, visits)
    ensures queue[0] in depth && v == (queue[0], depth[queue[0]])
    ensures Walk(edges, info, cfg, swap, objs, depth', queue', visits + [v], universe) == true
    ensures Fifo(edges, info, cfg, swap, objs, queue', visits + [v]) == true
    ensures out' == head + Blocks(edges, info, cfg, swap, visits + [v])
    ensures |universe - depth'.Keys| < |universe - depth.Keys|
            || (|universe - depth'.Keys| == |universe - depth.Keys| && |queue'| < |queue|)
  {
    HeadQueued(edges, info, cfg, swap, objs, depth, queue, visits, universe);
    v := (queue[0], depth[queue[0]]);
    var decls;
    decls, depth', queue' := Visit(edges, info, cfg, swap, depth, queue);
    Advance(edges, info, cfg, swap, objs, depth, queue, visits, universe, depth', queue');
    BlocksSnoc(edges, info, cfg, swap, visits, v);
    AppendAssoc(head, Blocks(edges, info, cfg, swap, visits), decls);
    out' := out + decls;
  }

  /**
   * `show_backrefs(objs, max_depth, extra_ignore, filter, too_many,
   * highlight, extra_info)`: the walk over "the objects referring to x",
   * each edge drawn from a referrer to the object it refers to, never into
   * a proper module. The source's defaults are `max_depth=3` and
   * `too_many=10`.
   */
  method ShowBackrefs(referrers: EdgeFunc, info: InfoTable, objs: seq<Obj>, cfg: Config)
    returns (out: seq<Decl>, nodes: nat, ghost visits: seq<(Obj, nat)>)
    ensures out == Output(referrers, info, cfg, false, objs, visits) && nodes == |visits|
    ensures Traversal(referrers, info, cfg, false, objs, visits)
    ensures InDiscoveryOrder(referrers, info, cfg, false, objs, visits)
    ensures forall e :: e in out && e.Edge? ==>
              e.src in Nbrs(referrers, e.dst) && Passes(cfg, e.src) && !Info(info, e.dst).isProperModule
  {
    out, nodes, visits := ShowGraph(referrers, info, objs, false, cfg);
  }

  /**
   * `show_refs(objs, max_depth, extra_ignore, filter, too_many, highlight,
   * extra_info)`: the walk over "the objects x refers to", each edge drawn
   * from an object to its referent; modules are expanded too. The source's
   * defaults are `max_depth=3` and `too_many=10`.
   */
  method ShowRefs(referents: EdgeFunc, info: InfoTable, objs: seq<Obj>, cfg: Config)
    returns (out: seq<Decl>, nodes: nat, ghost visits: seq<(Obj, nat)>)
    ensures out == Output(referents, info, cfg, true, objs, visits) && nodes == |visits|
    ensures Traversal(referents, info, cfg, true, objs, visits)
    ensures InDiscoveryOrder(referents, info, cfg, true, objs, visits)
    ensures forall e :: e in out && e.Edge? ==> e.dst in Nbrs(referents, e.src) && Passes(cfg, e.dst)
  {
    out, nodes, visits := ShowGraph(referents, info, objs, true, cfg);
  }

  // ---------------------------------------------------------------------
  // show_chain (objgraph.py:433-459)
  // ---------------------------------------------------------------------

  /** The roots, the depth limit and the identities to keep that `show_chain` passes on. */
  datatype ChainView = ChainView(roots: seq<Obj>, maxDepth: nat, ids: set<Obj>)

  /** `[chain for chain in chains if chain]`. */
  function NonEmpty(chains: seq<seq<Obj>>): (r: seq<seq<Obj>>)
    ensures forall c :: c in r <==> c in chains && c != []
    ensures forall i :: 0 <= i < |r| ==> r[i] != []
  {
    if chains == [] then []
    else
      var c := chains[|chains| - 1];
      NonEmpty(chains[..|chains| - 1]) + (if c != [] then [c] else [])
  }

  /** `max(map(len, chains))`, with 0 for no chains. */
  function MaxLen(chains: seq<seq<Obj>>): (r: nat)
    ensures forall i :: 0 <= i < |chains| ==> |chains[i]| <= r
    ensures chains != [] ==> exists i :: 0 <= i < |chains| && |chains[i]| == r
  {
    if chains == [] then 0
    else
      var init := chains[..|chains| - 1];
      var m := MaxLen(init);
      var last := |chains[|chains| - 1]|;
      assert forall i :: 0 <= i < |init| ==> chains[i] == init[i];
      if m >= last then m else last
  }

  /** The end of a chain the graph starts from: its last element for back-references, its first otherwise. */
  function End(c: seq<Obj>, backrefs: bool): Obj
    requires c != []
  {
    if backrefs then c[|c| - 1] else c[0]
  }

  /** The identities of every object on some chain. */
  function ChainIds(chains: seq<seq<Obj>>): set<Obj> {
    set c, x | c in chains && x in c :: x
  }

  /**
   * The arguments `show_chain` computes: `None` when every chain is empty
   * (the source's `max` of an empty sequence raises there), otherwise the
   * chain ends as roots, the longest chain's length minus one as depth
   * limit, and the identities on the chains as filter.
   */
  function ShowChainArgs(chains: seq<seq<Obj>>, backrefs: bool): Option<ChainView> {
    var kept := NonEmpty(chains);
    if kept == [] then None
    else
      assert kept[0] in kept;
      var roots := seq(|kept|, i requires 0 <= i < |kept| => End(kept[i], backrefs));
      Some(ChainView(roots, MaxLen(kept) - 1, ChainIds(kept)))
  }

  /**
   * What `show_chain` hands on: nothing exactly when all chains are empty;
   * otherwise one root per non-empty chain, its end; a depth limit that
   * every chain fits in and the longest reaches; and a filter accepting
   * exactly the objects on the chains.
   */
  lemma ShowChainArgsMeaning(chains: seq<seq<Obj>>, backrefs: bool)
    ensures ShowChainArgs(chains, backrefs).None? <==> forall i :: 0 <= i < |chains| ==> chains[i] == []
    ensures ShowChainArgs(chains, backrefs).Some? ==>
              var v := ShowChainArgs(chains, backrefs).value;
              && |v.roots| == |NonEmpty(chains)|
              && (forall x :: x in v.roots <==> exists i :: 0 <= i < |chains| && chains[i] != [] && x == End(chains[i], backrefs))
              && (forall i :: 0 <= i < |chains| ==> |chains[i]| <= v.maxDepth + 1)
              && (exists i :: 0 <= i < |chains| && |chains[i]| == v.maxDepth + 1)
              && (forall x :: x in v.ids <==> exists i :: 0 <= i < |chains| && x in chains[i])
  {
    var kept := NonEmpty(chains);
    NoneKept(chains);
    if kept != [] {
      var v := ShowChainArgs(chains, backrefs).value;
      KeptEnds(chains, backrefs, v.roots);
      KeptLengths(chains);
      KeptIds(chains);
    }
  }

  /** No chain is kept exactly when every chain is empty. */
  lemma NoneKept(chains: seq<seq<Obj>>)
    ensures NonEmpty(chains) == [] <==> forall i :: 0 <= i < |chains| ==> chains[i] == []
  {
    if NonEmpty(chains) == [] {
      forall i | 0 <= i < |chains| ensures chains[i] == [] {
        var c := chains[i];
        assert c in chains;
      }
    } else {
      var c := NonEmpty(chains)[0];
      assert c in NonEmpty(chains);
      var i :| 0 <= i < |chains| && chains[i] == c;
    }
  }

  /** The ends of the kept chains are the ends of the non-empty chains. */
  lemma KeptEnds(chains: seq<seq<Obj>>, backrefs: bool, roots: seq<Obj>)
    requires |roots| == |NonEmpty(chains)|
    requires forall j :: 0 <= j < |roots| ==> roots[j] == End(NonEmpty(chains)[j], backrefs)
    ensures forall x :: x in roots <==> exists i :: 0 <= i < |chains| && chains[i] != [] && x == End(chains[i], backrefs)
  {
    var kept := NonEmpty(chains);
    forall x | x in roots
      ensures exists i :: 0 <= i < |chains| && chains[i] != [] && x == End(chains[i], backrefs)
    {
      var j :| 0 <= j < |roots| && roots[j] == x;
      var c := kept[j];
      assert c in kept;
      var i :| 0 <= i < |chains| && chains[i] == c;
    }
    forall i | 0 <= i < |chains| && chains[i] != [] ensures End(chains[i], backrefs) in roots {
      var c := chains[i];
      assert c in kept;
      var j :| 0 <= j < |kept| && kept[j] == c;
      assert roots[j] == End(c, backrefs);
    }
  }

  /** Every chain fits in the longest kept one, and some chain is that long. */
  lemma KeptLengths(chains: seq<seq<Obj>>)
    requires NonEmpty(chains) != []
    ensures forall i :: 0 <= i < |chains| ==> |chains[i]| <= MaxLen(NonEmpty(chains))
    ensures exists i :: 0 <= i < |chains| && |chains[i]| == MaxLen(NonEmpty(chains))
  {
    var kept := NonEmpty(chains);
    forall i | 0 <= i < |chains| ensures |chains[i]| <= MaxLen(kept) {
      var c := chains[i];
      if c != [] {
        assert c in kept;
        var j :| 0 <= j < |kept| && kept[j] == c;
      }
    }
    var j :| 0 <= j < |kept| && |kept[j]| == MaxLen(kept);
    var c := kept[j];
    assert c in kept;
    var i :| 0 <= i < |chains| && chains[i] == c;
  }

  /** The objects on the kept chains are the objects on all chains. */
  lemma KeptIds(chains: seq<seq<Obj>>)
    ensures forall x :: x in ChainIds(NonEmpty(chains)) <==> exists i :: 0 <= i < |chains| && x in chains[i]
  {
    var kept := NonEmpty(chains);
    forall x ensures x in ChainIds(kept) <==> exists i :: 0 <= i < |chains| && x in chains[i] {
      if x in ChainIds(kept) {
        var d :| d in kept && x in d;
        var i :| 0 <= i < |chains| && chains[i] == d;
      }
      if exists i :: 0 <= i < |chains| && x in chains[i] {
        var i :| 0 <= i < |chains| && x in chains[i];
        var d := chains[i];
        assert d in kept;
      }
    }
  }

  /**
   * `show_chain(*chains, backrefs=..., **kw)`: the back-reference graph
   * from the last element of every non-empty chain (or the reference graph
   * from the first, when `backrefs` is false), as deep as the longest chain
   * and keeping only objects on the chains. `kw` carries the remaining
   * keyword arguments; its depth limit and filter are replaced. `None` is
   * the error raised when no chain is non-empty. Every dequeued object lies
   * on one of the chains.
   */
  method ShowChain(referrers: EdgeFunc, referents: EdgeFunc, info: InfoTable, chains: seq<seq<Obj>>,
                   backrefs: bool, kw: Config)
    returns (out: Option<seq<Decl>>, ghost visits: seq<(Obj, nat)>)
    ensures out.None? <==> forall i :: 0 <= i < |chains| ==> chains[i] == []
    ensures out.None? <==> ShowChainArgs(chains, backrefs).None?
    ensures out.Some? ==>
              var v := ShowChainArgs(chains, backrefs).value;
              var cfg := kw.(maxDepth := v.maxDepth, filter := Some(v.ids));
              var edges := if backrefs then referrers else referents;
              && out.value == Output(edges, info, cfg, !backrefs, v.roots, visits)
              && Traversal(edges, info, cfg, !backrefs, v.roots, visits)
              && InDiscoveryOrder(edges, info, cfg, !backrefs, v.roots, visits)
    ensures forall k :: 0 <= k < |visits| ==> exists i :: 0 <= i < |chains| && visits[k].0 in chains[i]
  {
    ShowChainArgsMeaning(chains, backrefs);
    var args := ShowChainArgs(chains, backrefs);
    if args.None? {
      return None, [];
    }
    var v := args.value;
    var cfg := kw.(maxDepth := v.maxDepth, filter := Some(v.ids));
    var o, nodes;
    if backrefs {
      o, nodes, visits := ShowBackrefs(referrers, info, v.roots, cfg);
    } else {
      o, nodes, visits := ShowRefs(referents, info, v.roots, cfg);
    }
    out := Some(o);
    var edges := if backrefs then referrers else referents;
    RootsInIds(chains, backrefs);
    VisitsFiltered(edges, info, cfg, !backrefs, v.roots, visits, v.ids);
  }

  /** Every chain end drawn as a root is one of the chains' objects, so it passes the filter. */
  lemma RootsInIds(chains: seq<seq<Obj>>, backrefs: bool)
    requires ShowChainArgs(chains, backrefs).Some?
    ensures forall x :: x in ShowChainArgs(chains, backrefs).value.roots ==> x in ShowChainArgs(chains, backrefs).value.ids
  {
    ShowChainArgsMeaning(chains, backrefs);
    var v := ShowChainArgs(chains, backrefs).value;
    forall x | x in v.roots ensures x in v.ids {
      var i :| 0 <= i < |chains| && chains[i] != [] && x == End(chains[i], backrefs);
      assert x in chains[i];
    }
  }

  /**
   * With a filter set, a walk whose roots pass it dequeues nothing else:
   * every object past the roots was taken through the filter.
   */
  lemma VisitsFiltered(edges: EdgeFunc, info: InfoTable, cfg: Config, swap: bool,
                       objs: seq<Obj>, visits: seq<(Obj, nat)>, ids: set<Obj>)
    requires Traversal(edges, info, cfg, swap, objs, visits)
    requires cfg.filter == Some(ids) && forall x :: x in objs ==> x in ids
    ensures forall k :: 0 <= k < |visits| ==> visits[k].0 in ids
  {
    forall k | 0 <= k < |visits| ensures visits[k].0 in ids {
      var x := visits[k].0;
      if x !in objs {
        assert DiscoveredBy(edges, info, cfg, swap, visits, x, visits[k].1, k);
        var j :| 0 <= j < k && j < |visits|
          && Expands(info, cfg, swap, visits[j].0, visits[j].1)
          && x in Taken(cfg, Nbrs(edges, visits[j].0))
          && visits[k].1 == visits[j].1 + 1;
        FanOut(cfg, Nbrs(edges, visits[j].0));
      }
    }
  }
}
