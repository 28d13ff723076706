/**
 * The abstract object graph both traversals walk.
 *
 * An object is named by its identity (an integer, as `id(obj)` is). The
 * collector's `get_referrers` / `get_referents` become an explicit edge
 * function: a map from an object to the ordered sequence of its neighbours.
 */
module RefGraph {

  type Obj = int

  /** The edge function `edge_func`: neighbours of each object, in order. */
  type EdgeFunc = map<Obj, seq<Obj>>

  datatype Option<+T> = None | Some(value: T)

  /** Concatenation is associative; stated once so proofs can cite it with a small context. */
  lemma AppendAssoc<T>(a: seq<T>, b: seq<T>, c: seq<T>)
    ensures (a + b) + c == a + (b + c)
  {
  }

  /** `edge_func(x)`; an object the map does not mention has no neighbours. */
  function Nbrs(edges: EdgeFunc, x: Obj): seq<Obj> {
    if x in edges then edges[x] else []
  }

  /** Every object that occurs as somebody's neighbour: a finite universe. */
  ghost function Targets(edges: EdgeFunc): set<Obj> {
    set x, y | x in edges && y in edges[x] :: y
  }

  lemma NbrsInTargets(edges: EdgeFunc, x: Obj, y: Obj)
    requires y in Nbrs(edges, x)
    ensures y in Targets(edges)
  {
  }

  /** Every neighbour of every object lies in `universe`. */
  ghost predicate Covers(edges: EdgeFunc, universe: set<Obj>) {
    forall x, y :: y in Nbrs(edges, x) ==> y in universe
  }

  /** The objects a search from `roots` can ever reach form a finite set. */
  lemma FiniteUniverse(edges: EdgeFunc, roots: set<Obj>) returns (universe: set<Obj>)
    ensures roots <= universe && Covers(edges, universe)
  {
    universe := roots + Targets(edges);
    forall x, y | y in Nbrs(edges, x) ensures y in universe {
      NbrsInTargets(edges, x, y);
    }
  }

  /** Discovering a new object shrinks the part of the universe still undiscovered. */
  lemma Shrinks(universe: set<Obj>, known: set<Obj>, known': set<Obj>)
    requires known <= known' <= universe && known != known'
    ensures |universe - known'| < |universe - known|
  {
    var before, after := universe - known, universe - known';
    assert before - after == known' - known;
    assert before == after + (before - after);
    assert after * (before - after) == {};
  }

  function Min(a: int, b: int): int {
    if a <= b then a else b
  }

  function Reverse<T>(s: seq<T>): (r: seq<T>)
    ensures |r| == |s|
    ensures forall i :: 0 <= i < |s| ==> r[i] == s[|s| - 1 - i]
  {
    if s == [] then [] else Reverse(s[1..]) + [s[0]]
  }

  /** Set of the elements of a sequence. */
  function Elems<T>(s: seq<T>): set<T> {
    set x | x in s
  }

  /** The elements of a concatenation are the elements of its parts. */
  lemma ElemsConcat<T>(a: seq<T>, b: seq<T>)
    ensures Elems(a + b) == Elems(a) + Elems(b)
  {
  }

  /** No element occurs twice. */
  predicate Distinct<T(==)>(s: seq<T>) {
    forall i, j :: 0 <= i < j < |s| ==> s[i] != s[j]
  }
}
