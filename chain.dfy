/**
 * `find_chain` (objgraph.py:493-525) and its two public wrappers
 * `find_ref_chain` (objgraph.py:266-288) and `find_backref_chain`
 * (objgraph.py:291-314).
 *
 * A breadth-first search from `obj` along the edge function, skipping ignored
 * identities, that stops at the first dequeued object the predicate accepts.
 * The predicate becomes the set of identities it accepts.
 */
module Chain {
  import opened RefGraph

  /**
   * A walk the search may take: it starts at `obj`, every step follows the
   * edge function and never enters an ignored identity. (`obj` itself is
   * never checked against the ignore set.)
   */
  ghost predicate SearchPath(edges: EdgeFunc, ignore: set<Obj>, obj: Obj, p: seq<Obj>) {
    && |p| >= 1 && p[0] == obj
    && forall i :: 0 < i < |p| ==> p[i] in Nbrs(edges, p[i - 1]) && p[i] !in ignore
  }

  /**
   * The `depth` and `parent` tables describe a tree rooted at `obj`: every
   * other entry was discovered from its parent one level up, along an edge,
   * outside the ignore set, no deeper than `max_depth`.
   */
  ghost predicate Tree(edges: EdgeFunc, ignore: set<Obj>, obj: Obj, maxDepth: nat,
                       depth: map<Obj, nat>, parent: map<Obj, Option<Obj>>) {
    && obj in depth && depth[obj] == 0
    && depth.Keys == parent.Keys && parent[obj] == None
    && (forall x :: x in parent && parent[x].None? ==> x == obj)
    && (forall x :: x in parent && parent[x].Some? ==>
          && parent[x].value in depth
          && depth[x] == depth[parent[x].value] + 1
          && x in Nbrs(edges, parent[x].value)
          && x !in ignore)
    && (forall x :: x in depth ==> depth[x] <= maxDepth)
  }

  /**
   * Breadth-first layering: `visited` (the objects already dequeued) lies
   * at levels up to `level`, the queue holds the rest of `depth` without
   * repeats, in nondecreasing depth, within levels `level` and `level + 1`.
   */
  ghost predicate Frontier(depth: map<Obj, nat>, visited: set<Obj>, queue: seq<Obj>, level: nat) {
    && (forall i :: 0 <= i < |queue| ==>
          queue[i] in depth && queue[i] !in visited && level <= depth[queue[i]] <= level + 1)
    && (forall i, j :: 0 <= i < j < |queue| ==> queue[i] != queue[j] && depth[queue[i]] <= depth[queue[j]])
    && (forall x :: x in depth ==> x in visited || x in queue)
    && (forall v :: v in visited ==> v in depth && depth[v] <= level)
  }

  /** Every visited object above `max_depth` has had all its non-ignored neighbours discovered. */
  ghost predicate Closed(edges: EdgeFunc, ignore: set<Obj>, maxDepth: nat, depth: map<Obj, nat>, visited: set<Obj>) {
    forall v :: v in visited && v in depth && depth[v] < maxDepth ==> DiscoveredFrom(edges, ignore, depth, v)
  }

  /** Every non-ignored neighbour of `v` is in `depth`, at most one level below `v`. */
  ghost predicate DiscoveredFrom(edges: EdgeFunc, ignore: set<Obj>, depth: map<Obj, nat>, v: Obj)
    requires v in depth
  {
    forall y :: y in Nbrs(edges, v) && y !in ignore ==> y in depth && depth[y] <= depth[v] + 1
  }

  /**
   * Walking any search path from `obj`, the first object not yet visited is
   * in the queue no deeper than its position on the path. So either the
   * whole path is visited, or the queue is not empty and its head is no
   * deeper than the path is long.
   */
  lemma ReachedWithin(edges: EdgeFunc, ignore: set<Obj>, obj: Obj, maxDepth: nat,
                      depth: map<Obj, nat>, visited: set<Obj>, queue: seq<Obj>, level: nat, p: seq<Obj>)
    requires obj in depth && depth[obj] == 0
    requires Frontier(depth, visited, queue, level)
    requires Closed(edges, ignore, maxDepth, depth, visited)
    requires SearchPath(edges, ignore, obj, p) && |p| <= maxDepth + 1
    ensures p[|p| - 1] in visited || (|queue| > 0 && depth[queue[0]] <= |p| - 1)
  {
    var k := 0;
    while k < |p| - 1 && p[k] in visited
      invariant 0 <= k < |p|
      invariant p[k] in depth && depth[p[k]] <= k
    {
      var y := p[k + 1];
      assert y in Nbrs(edges, p[k]) && y !in ignore;
      assert depth[p[k]] < maxDepth;
      assert DiscoveredFrom(edges, ignore, depth, p[k]);
      assert y in depth;
      k := k + 1;
    }
    if p[k] !in visited {
      var m :| 0 <= m < |queue| && queue[m] == p[k];
      assert depth[queue[0]] <= depth[queue[m]];
    }
  }

  /**
   * What the discovery loop over the neighbours of `target` has done after
   * the first `j` of them: the queue only grew, the entries from before are
   * untouched, every new entry is a non-ignored neighbour of `target` with
   * depth `level + 1`, parent `target` and a place in the queue, the new part
   * of the queue holds no repeats, and each of the first `j` non-ignored
   * neighbours is in the table.
   */
  ghost predicate Extends(edges: EdgeFunc, ignore: set<Obj>, target: Obj, level: nat,
                          depth: map<Obj, nat>, parent: map<Obj, Option<Obj>>, queue: seq<Obj>, j: nat,
                          depth': map<Obj, nat>, parent': map<Obj, Option<Obj>>, queue': seq<Obj>) {
    && j <= |Nbrs(edges, target)|
    && depth.Keys == parent.Keys && depth'.Keys == parent'.Keys
    && |queue'| >= |queue| && queue'[..|queue|] == queue
    && (forall x :: x in depth ==> x in depth' && depth'[x] == depth[x] && parent'[x] == parent[x])
    && (forall x :: x in depth' && x !in depth ==>
          && depth'[x] == level + 1 && parent'[x] == Some(target)
          && x in Nbrs(edges, target) && x !in ignore && x in queue')
    && (forall i :: |queue| <= i < |queue'| ==> queue'[i] in depth' && queue'[i] !in depth)
    && (forall i, k :: |queue| <= i < k < |queue'| ==> queue'[i] != queue'[k])
    && (forall k :: 0 <= k < j && Nbrs(edges, target)[k] !in ignore ==> Nbrs(edges, target)[k] in depth')
  }

  /**
   * The discovery loop of `find_chain` for one dequeued object `target`:
   * every neighbour outside the ignore set and not yet in `depth` gets depth
   * `depth[target] + 1`, parent `target`, and joins the queue.
   */
  method Discover(edges: EdgeFunc, ignore: set<Obj>, target: Obj,
                  depth: map<Obj, nat>, parent: map<Obj, Option<Obj>>, queue: seq<Obj>)
    returns (depth': map<Obj, nat>, parent': map<Obj, Option<Obj>>, queue': seq<Obj>)
    requires target in depth && depth.Keys == parent.Keys
    ensures Extends(edges, ignore, target, depth[target], depth, parent, queue, |Nbrs(edges, target)|,
                    depth', parent', queue')
  {
    var tdepth := depth[target];
    var referrers := Nbrs(edges, target);
    depth', parent', queue' := depth, parent, queue;
    for j := 0 to |referrers|
      invariant Extends(edges, ignore, target, tdepth, depth, parent, queue, j, depth', parent', queue')
    {
      var source := referrers[j];
      if source in ignore {
        continue;
      }
      if source !in depth' {
        depth' := depth'[source := tdepth + 1];
        parent' := parent'[source := Some(target)];
        queue' := queue' + [source];
      }
    }
  }

  /** The new entries hang below `target`, so the tables still form a tree. */
  lemma ExtendsTree(edges: EdgeFunc, ignore: set<Obj>, obj: Obj, maxDepth: nat, target: Obj, level: nat,
                    depth: map<Obj, nat>, parent: map<Obj, Option<Obj>>, queue: seq<Obj>, j: nat,
                    depth': map<Obj, nat>, parent': map<Obj, Option<Obj>>, queue': seq<Obj>)
    requires Tree(edges, ignore, obj, maxDepth, depth, parent)
    requires target in depth && depth[target] == level < maxDepth
    requires Extends(edges, ignore, target, level, depth, parent, queue, j, depth', parent', queue')
    ensures Tree(edges, ignore, obj, maxDepth, depth', parent')
  {
    forall x | x in parent' && parent'[x].Some?
      ensures parent'[x].value in depth' && depth'[x] == depth'[parent'[x].value] + 1
    {
      if x in depth {
        assert parent[x].Some?;
      }
    }
  }

  /** The new entries are one level down and go to the back of the queue, so the layering holds. */
  lemma ExtendsFrontier(edges: EdgeFunc, ignore: set<Obj>, target: Obj, level: nat,
                        depth: map<Obj, nat>, parent: map<Obj, Option<Obj>>, queue: seq<Obj>, j: nat,
                        depth': map<Obj, nat>, parent': map<Obj, Option<Obj>>, queue': seq<Obj>,
                        visited: set<Obj>)
    requires Frontier(depth, visited, queue, level)
    requires Extends(edges, ignore, target, level, depth, parent, queue, j, depth', parent', queue')
    ensures Frontier(depth', visited, queue', level)
  {
    forall i | 0 <= i < |queue'|
      ensures queue'[i] in depth' && queue'[i] !in visited && level <= depth'[queue'[i]] <= level + 1
    {
      var x := queue'[i];
      if i < |queue| {
        assert x == queue'[..|queue|][i] == queue[i];
        assert x in depth && x !in visited && level <= depth[x] <= level + 1;
        assert x in depth' && depth'[x] == depth[x];
      } else {
        assert x in depth' && x !in depth;
        assert depth'[x] == level + 1;
        assert x !in visited;
      }
    }
    forall i, k | 0 <= i < k < |queue'|
      ensures queue'[i] != queue'[k] && depth'[queue'[i]] <= depth'[queue'[k]]
    {
      if k < |queue| {
        assert queue'[i] == queue'[..|queue|][i] == queue[i];
        assert queue'[k] == queue'[..|queue|][k] == queue[k];
      } else if i < |queue| {
        assert queue'[i] == queue'[..|queue|][i] == queue[i];
      }
    }
    forall x | x in depth' ensures x in visited || x in queue' {
      if x in depth && x !in visited {
        var i :| 0 <= i < |queue| && queue[i] == x;
        assert queue'[i] == queue'[..|queue|][i];
      }
    }
  }

  /** Once all neighbours of `target` are discovered, the visited set including `target` is closed. */
  lemma ExtendsClosed(edges: EdgeFunc, ignore: set<Obj>, maxDepth: nat, target: Obj, level: nat,
                      depth: map<Obj, nat>, parent: map<Obj, Option<Obj>>, queue: seq<Obj>,
                      depth': map<Obj, nat>, parent': map<Obj, Option<Obj>>, queue': seq<Obj>,
                      visited: set<Obj>)
    requires Frontier(depth, visited, queue, level)
    requires target in visited && depth[target] == level
    requires Closed(edges, ignore, maxDepth, depth, visited - {target})
    requires Extends(edges, ignore, target, level, depth, parent, queue, |Nbrs(edges, target)|, depth', parent', queue')
    ensures Closed(edges, ignore, maxDepth, depth', visited)
  {
    FrontierBound(depth, visited, queue, level);
    var referrers := Nbrs(edges, target);
    forall v | v in visited && v in depth' && depth'[v] < maxDepth
      ensures DiscoveredFrom(edges, ignore, depth', v)
    {
      if v == target {
        forall y | y in referrers && y !in ignore ensures y in depth' && depth'[y] <= depth'[v] + 1 {
          var k :| 0 <= k < |referrers| && referrers[k] == y;
        }
      } else {
        assert v in visited - {target} && depth[v] < maxDepth;
        assert DiscoveredFrom(edges, ignore, depth, v);
      }
    }
  }

  /**
   * After `Discover` has run for the dequeued `target`, the search
   * invariants hold again with `target` among the visited objects.
   */
  lemma Explored(edges: EdgeFunc, ignore: set<Obj>, obj: Obj, maxDepth: nat, target: Obj, level: nat,
                 depth: map<Obj, nat>, parent: map<Obj, Option<Obj>>, queue: seq<Obj>,
                 depth': map<Obj, nat>, parent': map<Obj, Option<Obj>>, queue': seq<Obj>,
                 visited: set<Obj>, universe: set<Obj>)
    requires Tree(edges, ignore, obj, maxDepth, depth, parent)
    requires Frontier(depth, visited, queue, level)
    requires Closed(edges, ignore, maxDepth, depth, visited - {target})
    requires target in visited && depth[target] == level < maxDepth
    requires Extends(edges, ignore, target, level, depth, parent, queue, |Nbrs(edges, target)|, depth', parent', queue')
    requires depth.Keys <= universe && Covers(edges, universe)
    ensures Tree(edges, ignore, obj, maxDepth, depth', parent')
    ensures Frontier(depth', visited, queue', level)
    ensures Closed(edges, ignore, maxDepth, depth', visited)
    ensures depth'.Keys <= universe
  {
    ExtendsTree(edges, ignore, obj, maxDepth, target, level, depth, parent, queue, |Nbrs(edges, target)|,
                depth', parent', queue');
    ExtendsFrontier(edges, ignore, target, level, depth, parent, queue, |Nbrs(edges, target)|,
                    depth', parent', queue', visited);
    ExtendsClosed(edges, ignore, maxDepth, target, level, depth, parent, queue, depth', parent', queue', visited);
    forall x | x in depth' ensures x in universe {
      if x !in depth {
        assert x in Nbrs(edges, target);
      }
    }
  }

  /** An object at depth `max_depth` is not expanded, and closure does not ask it to be. */
  lemma TooDeep(edges: EdgeFunc, ignore: set<Obj>, maxDepth: nat, target: Obj,
                depth: map<Obj, nat>, visited: set<Obj>)
    requires Closed(edges, ignore, maxDepth, depth, visited - {target})
    requires target in depth && depth[target] >= maxDepth
    ensures Closed(edges, ignore, maxDepth, depth, visited)
  {
    forall v | v in visited && v in depth && depth[v] < maxDepth
      ensures DiscoveredFrom(edges, ignore, depth, v)
    {
      assert v in visited - {target};
    }
  }

  /** Nothing discovered lies deeper than one level below the current one. */
  lemma FrontierBound(depth: map<Obj, nat>, visited: set<Obj>, queue: seq<Obj>, level: nat)
    requires Frontier(depth, visited, queue, level)
    ensures forall x :: x in depth ==> depth[x] <= level + 1
  {
    forall x | x in depth ensures depth[x] <= level + 1 {
      if x !in visited {
        var i :| 0 <= i < |queue| && queue[i] == x;
      }
    }
  }

  /** Dequeueing the head moves it to the visited set and makes its depth the current level. */
  lemma Pop(depth: map<Obj, nat>, visited: set<Obj>, queue: seq<Obj>, level: nat)
    requires Frontier(depth, visited, queue, level) && |queue| > 0
    ensures Frontier(depth, visited + {queue[0]}, queue[1..], depth[queue[0]])
  {
    var t := queue[0];
    forall x | x in depth ensures x in visited + {t} || x in queue[1..] {
      if x !in visited && x != t {
        var i :| 0 <= i < |queue| && queue[i] == x;
        assert queue[1..][i - 1] == x;
      }
    }
    forall i | 0 <= i < |queue[1..]| ensures queue[1..][i] !in visited + {t} && depth[t] <= depth[queue[1..][i]] {
      assert queue[1..][i] == queue[i + 1];
    }
  }

  /** When the queue runs dry, no search path within `max_depth` steps reaches an accepted object. */
  lemma Exhausted(edges: EdgeFunc, ignore: set<Obj>, obj: Obj, maxDepth: nat, accepts: set<Obj>,
                  depth: map<Obj, nat>, visited: set<Obj>, level: nat)
    requires obj in depth && depth[obj] == 0
    requires Frontier(depth, visited, [], level)
    requires Closed(edges, ignore, maxDepth, depth, visited)
    requires forall v :: v in visited ==> v !in accepts
    ensures forall p :: SearchPath(edges, ignore, obj, p) && |p| <= maxDepth + 1 ==> p[|p| - 1] !in accepts
  {
    forall p | SearchPath(edges, ignore, obj, p) && |p| <= maxDepth + 1
      ensures p[|p| - 1] !in accepts
    {
      ReachedWithin(edges, ignore, obj, maxDepth, depth, visited, [], level, p);
      var last := p[|p| - 1];
      assert last in visited;
      assert last !in accepts;
    }
  }

  /** The head of the queue is no deeper than any search path to an accepted object is long. */
  lemma HeadIsNearest(edges: EdgeFunc, ignore: set<Obj>, obj: Obj, maxDepth: nat, accepts: set<Obj>,
                      depth: map<Obj, nat>, visited: set<Obj>, queue: seq<Obj>, level: nat)
    requires obj in depth && depth[obj] == 0 && |queue| > 0
    requires Frontier(depth, visited, queue, level)
    requires Closed(edges, ignore, maxDepth, depth, visited)
    requires forall v :: v in visited ==> v !in accepts
    ensures forall p :: SearchPath(edges, ignore, obj, p) && |p| <= maxDepth + 1 && p[|p| - 1] in accepts ==>
              depth[queue[0]] + 1 <= |p|
  {
    forall p | SearchPath(edges, ignore, obj, p) && |p| <= maxDepth + 1 && p[|p| - 1] in accepts
      ensures depth[queue[0]] + 1 <= |p|
    {
      var last := p[|p| - 1];
      assert last in accepts;
      assert last !in visited;
      ReachedWithin(edges, ignore, obj, maxDepth, depth, visited, queue, level, p);
    }
  }

  /** Each element is a neighbour of the next one and outside the ignore set. */
  ghost predicate Linked(edges: EdgeFunc, ignore: set<Obj>, chain: seq<Obj>) {
    forall i :: 0 <= i < |chain| - 1 ==> chain[i] in Nbrs(edges, chain[i + 1]) && chain[i] !in ignore
  }

  lemma LinkedAppend(edges: EdgeFunc, ignore: set<Obj>, chain: seq<Obj>, next: Obj)
    requires Linked(edges, ignore, chain) && |chain| >= 1
    requires chain[|chain| - 1] in Nbrs(edges, next) && chain[|chain| - 1] !in ignore
    ensures Linked(edges, ignore, chain + [next])
  {
    var chain' := chain + [next];
    forall i | 0 <= i < |chain'| - 1 ensures chain'[i] in Nbrs(edges, chain'[i + 1]) && chain'[i] !in ignore {
      assert chain'[i] == chain[i];
      if i + 1 < |chain| {
        assert chain'[i + 1] == chain[i + 1];
      }
    }
  }

  /**
   * The reconstruction loop of `find_chain`: follow parent links from
   * `target` up to `obj`.
   */
  method Rebuild(edges: EdgeFunc, ignore: set<Obj>, obj: Obj, maxDepth: nat,
                 depth: map<Obj, nat>, parent: map<Obj, Option<Obj>>, target: Obj)
    returns (chain: seq<Obj>)
    requires Tree(edges, ignore, obj, maxDepth, depth, parent) && target in depth
    ensures |chain| == depth[target] + 1
    ensures chain[0] == target && chain[|chain| - 1] == obj
    ensures Linked(edges, ignore, chain)
  {
    chain := [target];
    var cur := target;
    while parent[cur].Some?
      invariant cur in depth
      invariant |chain| >= 1 && chain[0] == target && chain[|chain| - 1] == cur
      invariant |chain| + depth[cur] == depth[target] + 1
      invariant Linked(edges, ignore, chain)
      decreases depth[cur]
    {
      var next := parent[cur].value;
      LinkedAppend(edges, ignore, chain, next);
      chain := chain + [next];
      cur := next;
    }
  }

  /**
   * The exit of `find_chain` when the dequeued head is accepted: the chain
   * rebuilt from it is a shortest search path to an accepted object.
   */
  method Found(edges: EdgeFunc, ignore: set<Obj>, obj: Obj, maxDepth: nat, accepts: set<Obj>,
               depth: map<Obj, nat>, parent: map<Obj, Option<Obj>>, target: Obj,
               ghost visited: set<Obj>, ghost queue: seq<Obj>, ghost level: nat)
    returns (chain: seq<Obj>)
    requires Tree(edges, ignore, obj, maxDepth, depth, parent)
    requires Frontier(depth, visited, queue, level) && |queue| > 0 && queue[0] == target && target in accepts
    requires Closed(edges, ignore, maxDepth, depth, visited)
    requires forall v :: v in visited ==> v !in accepts
    ensures |chain| >= 1 && chain[|chain| - 1] == obj && chain[0] == target
    ensures Linked(edges, ignore, chain) && |chain| <= maxDepth + 1
    ensures forall p :: SearchPath(edges, ignore, obj, p) && |p| <= maxDepth + 1 && p[|p| - 1] in accepts ==>
              |chain| <= |p|
  {
    HeadIsNearest(edges, ignore, obj, maxDepth, accepts, depth, visited, queue, level);
    chain := Rebuild(edges, ignore, obj, maxDepth, depth, parent, target);
  }

  /** The loop invariant of `find_chain`: the tables form a tree, the queue is layered, the visited set is closed. */
  ghost predicate Searching(edges: EdgeFunc, ignore: set<Obj>, obj: Obj, maxDepth: nat, accepts: set<Obj>,
                            depth: map<Obj, nat>, parent: map<Obj, Option<Obj>>, visited: set<Obj>,
                            queue: seq<Obj>, level: nat, universe: set<Obj>) {
    && Tree(edges, ignore, obj, maxDepth, depth, parent)
    && Frontier(depth, visited, queue, level)
    && Closed(edges, ignore, maxDepth, depth, visited)
    && (forall v :: v in visited ==> v !in accepts)
    && depth.Keys <= universe
  }

  /**
   * One round of `find_chain` whose dequeued head is not accepted: the head
   * becomes visited and, when it is shallower than `max_depth`, its
   * neighbours are discovered; otherwise the tables stay as they are.
   */
  method Visit(edges: EdgeFunc, ignore: set<Obj>, obj: Obj, maxDepth: nat, accepts: set<Obj>,
               depth: map<Obj, nat>, parent: map<Obj, Option<Obj>>, ghost visited: set<Obj>,
               queue: seq<Obj>, ghost level: nat, ghost universe: set<Obj>)
    returns (depth': map<Obj, nat>, parent': map<Obj, Option<Obj>>, ghost visited': set<Obj>,
             queue': seq<Obj>, ghost level': nat)
    requires Searching(edges, ignore, obj, maxDepth, accepts, depth, parent, visited, queue, level, universe)
    requires Covers(edges, universe) && |queue| > 0 && queue[0] !in accepts
    ensures Searching(edges, ignore, obj, maxDepth, accepts, depth', parent', visited', queue', level', universe)
    ensures visited' == visited + {queue[0]} && queue[0] !in visited
    ensures queue[0] in depth
    ensures depth[queue[0]] < maxDepth ==>
              Extends(edges, ignore, queue[0], depth[queue[0]], depth, parent, queue[1..], |Nbrs(edges, queue[0])|,
                      depth', parent', queue')
    ensures depth[queue[0]] >= maxDepth ==> depth' == depth && parent' == parent && queue' == queue[1..]
  {
    var target := queue[0];
    Pop(depth, visited, queue, level);
    visited' := visited + {target};
    level' := depth[target];
    queue' := queue[1..];
    if depth[target] < maxDepth {
      depth', parent', queue' := Discover(edges, ignore, target, depth, parent, queue');
      Explored(edges, ignore, obj, maxDepth, target, level', depth, parent, queue[1..], depth', parent', queue',
               visited', universe);
    } else {
      depth', parent' := depth, parent;
      TooDeep(edges, ignore, maxDepth, target, depth, visited');
    }
  }

  /**
   * `find_chain(obj, predicate, edge_func, max_depth, extra_ignore)`.
   *
   * The result runs from an accepted object back to `obj`, each element a
   * neighbour (under the edge function) of the next one and outside the
   * ignore set, with at most `max_depth` steps. It is a shortest such
   * chain: no search path from `obj` of at most `max_depth` steps reaches
   * an accepted object in fewer steps. When no such path exists at all, the
   * result is `[obj]`.
   */
  method FindChain(obj: Obj, accepts: set<Obj>, edges: EdgeFunc, maxDepth: nat, extraIgnore: set<Obj>)
    returns (chain: seq<Obj>)
    ensures |chain| >= 1 && chain[|chain| - 1] == obj
    ensures forall i :: 0 <= i < |chain| - 1 ==> chain[i] in Nbrs(edges, chain[i + 1]) && chain[i] !in extraIgnore
    ensures |chain| <= maxDepth + 1
    ensures chain[0] in accepts || chain == [obj]
    ensures chain[0] in accepts ==>
              forall p :: SearchPath(edges, extraIgnore, obj, p) && |p| <= maxDepth + 1 && p[|p| - 1] in accepts ==>
                |chain| <= |p|
    ensures chain[0] !in accepts ==>
              forall p :: SearchPath(edges, extraIgnore, obj, p) && |p| <= maxDepth + 1 ==> p[|p| - 1] !in accepts
  {
    var ignore := extraIgnore;
    var queue := [obj];
    var depth: map<Obj, nat> := map[obj := 0];
    var parent: map<Obj, Option<Obj>> := map[obj := None];
    ghost var visited: set<Obj> := {};
    ghost var level: nat := 0;
    ghost var universe := FiniteUniverse(edges, {obj});
    while queue != []
      invariant Searching(edges, ignore, obj, maxDepth, accepts, depth, parent, visited, queue, level, universe)
      decreases |universe - visited|
    {
      var target := queue[0];
      if target in accepts {
        chain := Found(edges, ignore, obj, maxDepth, accepts, depth, parent, target, visited, queue, level);
        return;
      }
      ghost var visited0 := visited;
      depth, parent, visited, queue, level := Visit(edges, ignore, obj, maxDepth, accepts, depth, parent, visited, queue, level, universe);
      assert target in universe - visited0;
      assert universe - visited == (universe - visited0) - {target};
    }
    Exhausted(edges, ignore, obj, maxDepth, accepts, depth, visited, level);
    chain := [obj];
  }

  /**
   * `find_backref_chain(obj, predicate, max_depth, extra_ignore)`, whose edge
   * function is "the objects referring to x": the result runs from an
   * accepted object forward along references to `obj`, each element
   * referring to the next, and is as short as any such chain within
   * `max_depth` references; it is `[obj]` when there is none. The default
   * `max_depth` of the source is 20.
   */
  method FindBackrefChain(obj: Obj, accepts: set<Obj>, referrers: EdgeFunc, maxDepth: nat, extraIgnore: set<Obj>)
    returns (chain: seq<Obj>)
    ensures |chain| >= 1 && chain[|chain| - 1] == obj && |chain| <= maxDepth + 1
    ensures forall i :: 0 <= i < |chain| - 1 ==> chain[i] in Nbrs(referrers, chain[i + 1]) && chain[i] !in extraIgnore
    ensures chain[0] in accepts || chain == [obj]
    ensures chain[0] in accepts ==>
              forall p :: SearchPath(referrers, extraIgnore, obj, p) && |p| <= maxDepth + 1 && p[|p| - 1] in accepts ==>
                |chain| <= |p|
    ensures chain[0] !in accepts ==>
              forall p :: SearchPath(referrers, extraIgnore, obj, p) && |p| <= maxDepth + 1 ==> p[|p| - 1] !in accepts
  {
    chain := FindChain(obj, accepts, referrers, maxDepth, extraIgnore);
  }

  /**
   * `find_ref_chain(obj, predicate, max_depth, extra_ignore)`: the chain
   * found over the edge function "the objects x refers to", reversed. The
   * result starts at `obj` and is itself a search path: each element
   * refers to the next, none after `obj` is ignored. It ends at an accepted
   * object reached in as few references as possible, or is `[obj]` when no
   * accepted object lies within `max_depth` references. The default
   * `max_depth` of the source is 20.
   */
  method FindRefChain(obj: Obj, accepts: set<Obj>, referents: EdgeFunc, maxDepth: nat, extraIgnore: set<Obj>)
    returns (chain: seq<Obj>)
    ensures SearchPath(referents, extraIgnore, obj, chain) && |chain| <= maxDepth + 1
    ensures chain[|chain| - 1] in accepts || chain == [obj]
    ensures chain[|chain| - 1] in accepts ==>
              forall p :: SearchPath(referents, extraIgnore, obj, p) && |p| <= maxDepth + 1 && p[|p| - 1] in accepts ==>
                |chain| <= |p|
    ensures chain[|chain| - 1] !in accepts ==>
              forall p :: SearchPath(referents, extraIgnore, obj, p) && |p| <= maxDepth + 1 ==> p[|p| - 1] !in accepts
  {
    var found := FindChain(obj, accepts, referents, maxDepth, extraIgnore);
    chain := Reverse(found);
    forall i | 0 < i < |chain| ensures chain[i] in Nbrs(referents, chain[i - 1]) && chain[i] !in extraIgnore {
      var j := |found| - 1 - i;
      assert chain[i] == found[j] && chain[i - 1] == found[j + 1];
    }
    assert chain[|chain| - 1] == found[0];
  }
}
