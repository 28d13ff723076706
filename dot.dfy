/**
 * What one round of `show_graph` writes for a dequeued object
 * (objgraph.py:565-626), as pure functions of the object, its depth and
 * the settings. Each `f.write` call becomes one `Decl`; the text of a
 * line is given by `Render`, with `%g` colour formatting left abstract.
 */
module Dot {
  import opened RefGraph
  import opened Labels
  import opened Colors

  /** What the graph writer asks of an object besides its identity. */
  datatype ObjInfo = ObjInfo(
    typeName: string,                      // type(obj).__name__
    repr: string,                          // safe_repr(obj)
    isModule: bool,                        // inspect.ismodule(obj)
    isProperModule: bool,                  // is_proper_module(obj)
    hasDel: bool,                          // its class defines __del__
    dictItems: Option<seq<(Key, Obj)>>)    // Some(items) when obj is a dict

  /** Facts about every object; one the table does not mention is a plain object. */
  type InfoTable = map<Obj, ObjInfo>

  function Info(info: InfoTable, x: Obj): ObjInfo {
    if x in info then info[x] else ObjInfo("object", "", false, false, false, None)
  }

  /**
   * The keyword arguments of `show_graph` that shape the traversal. A
   * `filter` of `None` lets everything through; `highlight` is the set of
   * objects the highlight predicate accepts; `extraInfo` is `extra_info`.
   */
  datatype Config = Config(
    maxDepth: nat,
    extraIgnore: set<Obj>,
    filter: Option<set<Obj>>,
    tooMany: nat,
    highlight: set<Obj>,
    extraInfo: Option<Obj -> string>)

  /** One `f.write` of `show_graph`. */
  datatype Decl =
    | Header                                        // digraph ObjectGraph { + node defaults
    | RootMark(node: Obj)                           // [fontcolor=red] on a root
    | NodeLabel(node: Obj, text: string)            // [label="..."]
    | FillColor(node: Obj, color: Hsv)              // [fillcolor="h,s,v"]
    | WhiteFont(node: Obj)                          // [fontcolor=white]
    | DelEdge(node: Obj)                            // edge to the __del__ marker
    | DelNode(node: Obj)                            // the __del__ marker node
    | Edge(src: Obj, dst: Obj, attrs: string)       // src -> dst with edge_label
    | TooManyEdge(node: Obj, outward: bool)         // dotted edge to/from the summary node
    | TooManyNode(node: Obj, caption: string, color: Hsv)
    | TooManyWhite(node: Obj)
    | Footer                                        // }

  // ---------------------------------------------------------------------
  // Node label and colour (objgraph.py:567-578, 661-673)
  // ---------------------------------------------------------------------

  /** `obj_label(obj, extra_info)` without reference counts. */
  function ObjLabel(info: InfoTable, cfg: Config, x: Obj): string {
    var i := Info(info, x);
    var extra := if cfg.extraInfo.Some? then "\n" + cfg.extraInfo.value(x) else "";
    Quote(i.typeName + "\n" + i.repr + extra)
  }

  /** The fill colour: grey by depth, green for modules, blue-ish when highlighted. */
  function NodeColor(info: InfoTable, cfg: Config, x: Obj, d: nat): Hsv {
    var c := Gradient(Hsv(0.0, 0.0, 1.0), Hsv(0.0, 0.0, 0.3), d, cfg.maxDepth);
    var c1 := if Info(info, x).isModule then Hsv(0.3, 1.0, c.v) else c;
    if x in cfg.highlight then Hsv(0.6, 0.6, 0.5 + c1.v * 0.5) else c1
  }

  /** Depth shades from white at the roots to dark grey at `max_depth`, and highlighting keeps the font readable. */
  lemma NodeColorRange(info: InfoTable, cfg: Config, x: Obj, d: nat)
    requires d <= cfg.maxDepth
    ensures 0.3 <= NodeColor(info, cfg, x, d).v <= 1.0
    ensures x in cfg.highlight ==> NodeColor(info, cfg, x, d).v >= 0.5
    ensures d == 0 ==> NodeColor(info, cfg, x, d).v == 1.0
  {
    GradientBetween(Hsv(0.0, 0.0, 1.0), Hsv(0.0, 0.0, 0.3), d, cfg.maxDepth);
  }

  // ---------------------------------------------------------------------
  // edge_label (objgraph.py:727-762), mapping case only
  // ---------------------------------------------------------------------

  /** `edge_label(source, target)`: a dict source labels the edge by its key; anything else gives no label. */
  function EdgeLabel(info: InfoTable, source: Obj, target: Obj): string {
    match Info(info, source).dictItems
    case Some(items) => DictEdgeLabel(items, target)
    case None => ""
  }

  // ---------------------------------------------------------------------
  // Which neighbours get an edge (objgraph.py:593-612)
  // ---------------------------------------------------------------------

  /** A neighbour that is neither ignored nor rejected by the filter. */
  predicate Passes(cfg: Config, x: Obj) {
    x !in cfg.extraIgnore && (cfg.filter.None? || x in cfg.filter.value)
  }

  /** The neighbours that pass, in order. */
  function Eligible(cfg: Config, ns: seq<Obj>): (r: seq<Obj>)
    ensures |r| <= |ns|
    ensures forall x :: x in r <==> x in ns && Passes(cfg, x)
  {
    if ns == [] then []
    else
      var x := ns[|ns| - 1];
      Eligible(cfg, ns[..|ns| - 1]) + (if Passes(cfg, x) then [x] else [])
  }

  /**
   * Filtering keeps order and multiplicity: it distributes over
   * concatenation and keeps a single neighbour exactly when it passes.
   */
  lemma {:induction false} EligibleConcat(cfg: Config, a: seq<Obj>, b: seq<Obj>)
    ensures Eligible(cfg, a + b) == Eligible(cfg, a) + Eligible(cfg, b)
    ensures forall x :: Eligible(cfg, [x]) == if Passes(cfg, x) then [x] else []
    decreases |b|
  {
    if b == [] {
      assert a + b == a;
    } else {
      var init, x := b[..|b| - 1], b[|b| - 1];
      assert (a + b)[..|a + b| - 1] == a + init;
      assert (a + b)[|a + b| - 1] == x;
      EligibleConcat(cfg, a, init);
      var tail := if Passes(cfg, x) then [x] else [];
      var ea, ei := Eligible(cfg, a), Eligible(cfg, init);
      assert Eligible(cfg, a + b) == Eligible(cfg, a + init) + tail;
      assert Eligible(cfg, b) == ei + tail;
      AppendAssoc(ea, ei, tail);
    }
    forall x ensures Eligible(cfg, [x]) == if Passes(cfg, x) then [x] else [] {
      assert [x][..0] == [];
    }
  }

  /** The neighbours that get an edge: the first `too_many` that pass. */
  function Taken(cfg: Config, ns: seq<Obj>): seq<Obj> {
    var e := Eligible(cfg, ns);
    e[..Min(cfg.tooMany, |e|)]
  }

  /** The neighbours that pass but are cut off by `too_many`. */
  function Skipped(cfg: Config, ns: seq<Obj>): nat {
    |Eligible(cfg, ns)| - Min(cfg.tooMany, |Eligible(cfg, ns)|)
  }

  /** Fan-out: at most `too_many` edges, and the rest is counted as skipped, none lost. */
  lemma FanOut(cfg: Config, ns: seq<Obj>)
    ensures |Taken(cfg, ns)| <= cfg.tooMany
    ensures |Taken(cfg, ns)| + Skipped(cfg, ns) == |Eligible(cfg, ns)|
    ensures Skipped(cfg, ns) > 0 <==> |Eligible(cfg, ns)| > cfg.tooMany
    ensures forall x :: x in Taken(cfg, ns) ==> x in ns && Passes(cfg, x)
  {
    var e := Eligible(cfg, ns);
    forall x | x in Taken(cfg, ns) ensures x in ns && Passes(cfg, x) {
      assert x in e;
    }
  }

  /**
   * A dequeued object is expanded below `max_depth`, except that a proper
   * module stops the walk when edges are followed backwards.
   */
  predicate Expands(info: InfoTable, cfg: Config, swap: bool, x: Obj, d: nat) {
    d < cfg.maxDepth && !(Info(info, x).isProperModule && !swap)
  }

  /** The edge between the dequeued `target` and one of its neighbours, pointing the way references go. */
  function EdgeDecl(info: InfoTable, swap: bool, target: Obj, source: Obj): Decl {
    if swap then Edge(target, source, EdgeLabel(info, target, source))
    else Edge(source, target, EdgeLabel(info, source, target))
  }

  function EdgeDecls(info: InfoTable, swap: bool, target: Obj, sources: seq<Obj>): seq<Decl> {
    if sources == [] then []
    else EdgeDecls(info, swap, target, sources[..|sources| - 1]) + [EdgeDecl(info, swap, target, sources[|sources| - 1])]
  }

  /** Each edge declaration joins `target` and one of `sources`, in the direction `swap` asks for. */
  lemma {:induction false} EdgeDeclsShape(info: InfoTable, swap: bool, target: Obj, sources: seq<Obj>)
    ensures |EdgeDecls(info, swap, target, sources)| == |sources|
    ensures forall i :: 0 <= i < |sources| ==>
              var e := EdgeDecls(info, swap, target, sources)[i];
              && e.Edge?
              && (swap ==> e.src == target && e.dst == sources[i])
              && (!swap ==> e.dst == target && e.src == sources[i])
              && e.attrs == EdgeLabel(info, e.src, e.dst)
  {
    if sources != [] {
      EdgeDeclsShape(info, swap, target, sources[..|sources| - 1]);
    }
  }

  /** `"%d more references"` / `"%d more backreferences"`. */
  function TooManyLabel(skipped: nat, swap: bool): string {
    Decimal(skipped) + (if swap then " more references" else " more backreferences")
  }

  /** The summary node of the skipped neighbours (objgraph.py:613-626). */
  function SummaryDecls(cfg: Config, swap: bool, target: Obj, d: nat, skipped: nat): seq<Decl> {
    if skipped > 0 then
      var c := Gradient(Hsv(0.0, 1.0, 1.0), Hsv(0.0, 1.0, 0.3), d + 1, cfg.maxDepth);
      [TooManyEdge(target, swap), TooManyNode(target, TooManyLabel(skipped, swap), c), TooManyWhite(target)]
    else []
  }

  /**
   * The label, colour and `__del__` lines written for every dequeued object
   * (objgraph.py:567-583), given its label text, its fill colour and whether
   * its class has `__del__`.
   */
  function NodeHead(target: Obj, text: string, c: Hsv, hasDel: bool): seq<Decl> {
    [NodeLabel(target, text), FillColor(target, c)]
    + (if c.v < 0.5 then [WhiteFont(target)] else [])
    + (if hasDel then [DelEdge(target), DelNode(target)] else [])
  }

  /** The edge and summary lines written for an expanded object (objgraph.py:584-626). */
  function Expansion(edges: EdgeFunc, info: InfoTable, cfg: Config, swap: bool, target: Obj, d: nat): seq<Decl> {
    if Expands(info, cfg, swap, target, d) then
      var ns := Nbrs(edges, target);
      EdgeDecls(info, swap, target, Taken(cfg, ns)) + SummaryDecls(cfg, swap, target, d, Skipped(cfg, ns))
    else []
  }

  function Head(info: InfoTable, cfg: Config, target: Obj, d: nat): seq<Decl> {
    NodeHead(target, ObjLabel(info, cfg, target), NodeColor(info, cfg, target, d), Info(info, target).hasDel)
  }

  /** Everything written for the dequeued `target` at depth `d`. */
  function NodeBlock(edges: EdgeFunc, info: InfoTable, cfg: Config, swap: bool, target: Obj, d: nat): seq<Decl> {
    Head(info, cfg, target, d) + Expansion(edges, info, cfg, swap, target, d)
  }

  /** How many edge lines a sequence of declarations holds. */
  function CountEdges(ds: seq<Decl>): nat {
    if ds == [] then 0 else CountEdges(ds[..|ds| - 1]) + (if ds[|ds| - 1].Edge? then 1 else 0)
  }

  /** How many summary nodes a sequence of declarations holds. */
  function CountSummaries(ds: seq<Decl>): nat {
    if ds == [] then 0 else CountSummaries(ds[..|ds| - 1]) + (if ds[|ds| - 1].TooManyNode? then 1 else 0)
  }

  lemma {:induction false} CountsAppend(a: seq<Decl>, b: seq<Decl>)
    ensures CountEdges(a + b) == CountEdges(a) + CountEdges(b)
    ensures CountSummaries(a + b) == CountSummaries(a) + CountSummaries(b)
  {
    if b != [] {
      assert (a + b)[..|a + b| - 1] == a + b[..|b| - 1];
      CountsAppend(a, b[..|b| - 1]);
    } else {
      assert a + b == a;
    }
  }

  lemma {:induction false} CountEdgeDecls(info: InfoTable, swap: bool, target: Obj, sources: seq<Obj>)
    ensures CountEdges(EdgeDecls(info, swap, target, sources)) == |sources|
    ensures CountSummaries(EdgeDecls(info, swap, target, sources)) == 0
  {
    if sources != [] {
      var init := sources[..|sources| - 1];
      CountEdgeDecls(info, swap, target, init);
      CountsAppend(EdgeDecls(info, swap, target, init), [EdgeDecl(info, swap, target, sources[|sources| - 1])]);
      assert CountEdges([EdgeDecl(info, swap, target, sources[|sources| - 1])]) == 1 by {
        assert [EdgeDecl(info, swap, target, sources[|sources| - 1])][..0] == [];
      }
      assert CountSummaries([EdgeDecl(info, swap, target, sources[|sources| - 1])]) == 0 by {
        assert [EdgeDecl(info, swap, target, sources[|sources| - 1])][..0] == [];
      }
    }
  }

  /** Declarations without edges and summary nodes count zero of both. */
  lemma {:induction false} CountsNone(ds: seq<Decl>)
    requires forall e :: e in ds ==> !e.Edge? && !e.TooManyNode?
    ensures CountEdges(ds) == 0 && CountSummaries(ds) == 0
  {
    if ds != [] {
      CountsNone(ds[..|ds| - 1]);
    }
  }

  /** The head of a round names the object and holds no edge and no summary node. */
  lemma NodeHeadShape(target: Obj, text: string, c: Hsv, hasDel: bool)
    ensures NodeLabel(target, text) in NodeHead(target, text, c, hasDel)
    ensures forall e :: e in NodeHead(target, text, c, hasDel) ==> !e.Edge? && !e.TooManyNode?
    ensures CountEdges(NodeHead(target, text, c, hasDel)) == 0
    ensures CountSummaries(NodeHead(target, text, c, hasDel)) == 0
  {
    CountsNone(NodeHead(target, text, c, hasDel));
  }

  /** The summary lines hold one summary node exactly when something was skipped, labelled with the number. */
  lemma SummaryShape(cfg: Config, swap: bool, target: Obj, d: nat, skipped: nat)
    ensures CountEdges(SummaryDecls(cfg, swap, target, d, skipped)) == 0
    ensures CountSummaries(SummaryDecls(cfg, swap, target, d, skipped)) == if skipped > 0 then 1 else 0
    ensures forall e :: e in SummaryDecls(cfg, swap, target, d, skipped) ==>
              !e.Edge? && (e.TooManyNode? ==> e.node == target && e.caption == TooManyLabel(skipped, swap))
  {
    var sm := SummaryDecls(cfg, swap, target, d, skipped);
    if skipped > 0 {
      SummaryTriple(sm[0], sm[1], sm[2]);
      assert sm == [sm[0], sm[1], sm[2]];
    }
  }

  /** A connector, one summary node and a filler: no edge, one summary. */
  lemma SummaryTriple(a: Decl, b: Decl, c: Decl)
    requires a.TooManyEdge? && b.TooManyNode? && c.TooManyWhite?
    ensures CountEdges([a, b, c]) == 0 && CountSummaries([a, b, c]) == 1
  {
    assert [a][..0] == [];
    assert CountEdges([a]) == 0 && CountSummaries([a]) == 0;
    assert [a, b][..1] == [a];
    assert CountEdges([a, b]) == 0 && CountSummaries([a, b]) == 1;
    assert [a, b, c][..2] == [a, b];
  }

  /**
   * Fan-out of one round: an expanded object gets one edge line per taken
   * neighbour, min(`too_many`, eligible) in all, and one summary node
   * exactly when some eligible neighbour was skipped; an object not
   * expanded gets neither.
   */
  lemma NodeBlockFanOut(edges: EdgeFunc, info: InfoTable, cfg: Config, swap: bool, target: Obj, d: nat)
    ensures CountEdges(NodeBlock(edges, info, cfg, swap, target, d))
              == if Expands(info, cfg, swap, target, d) then Min(cfg.tooMany, |Eligible(cfg, Nbrs(edges, target))|) else 0
    ensures CountSummaries(NodeBlock(edges, info, cfg, swap, target, d))
              == if Expands(info, cfg, swap, target, d) && |Eligible(cfg, Nbrs(edges, target))| > cfg.tooMany then 1 else 0
  {
    var ns := Nbrs(edges, target);
    var head := Head(info, cfg, target, d);
    var tail := Expansion(edges, info, cfg, swap, target, d);
    NodeHeadShape(target, ObjLabel(info, cfg, target), NodeColor(info, cfg, target, d), Info(info, target).hasDel);
    CountsAppend(head, tail);
    FanOut(cfg, ns);
    if Expands(info, cfg, swap, target, d) {
      var es := EdgeDecls(info, swap, target, Taken(cfg, ns));
      var sm := SummaryDecls(cfg, swap, target, d, Skipped(cfg, ns));
      CountEdgeDecls(info, swap, target, Taken(cfg, ns));
      SummaryShape(cfg, swap, target, d, Skipped(cfg, ns));
      CountsAppend(es, sm);
    }
  }

  /** The summary node of a round is labelled with the number of eligible neighbours skipped. */
  lemma NodeBlockCaption(edges: EdgeFunc, info: InfoTable, cfg: Config, swap: bool, target: Obj, d: nat)
    ensures forall e :: e in NodeBlock(edges, info, cfg, swap, target, d) && e.TooManyNode? ==>
              e.node == target && e.caption == TooManyLabel(Skipped(cfg, Nbrs(edges, target)), swap)
  {
    var ns := Nbrs(edges, target);
    NodeHeadShape(target, ObjLabel(info, cfg, target), NodeColor(info, cfg, target, d), Info(info, target).hasDel);
    if Expands(info, cfg, swap, target, d) {
      var es := EdgeDecls(info, swap, target, Taken(cfg, ns));
      SummaryShape(cfg, swap, target, d, Skipped(cfg, ns));
      EdgeDeclsShape(info, swap, target, Taken(cfg, ns));
      forall e | e in Expansion(edges, info, cfg, swap, target, d) && e.TooManyNode?
        ensures e.node == target && e.caption == TooManyLabel(Skipped(cfg, ns), swap)
      {
        if e in es {
          assert false;
        }
      }
    }
  }

  /** Every edge written in a round joins the dequeued object to a taken neighbour, the way `swap` says. */
  lemma NodeBlockEdges(edges: EdgeFunc, info: InfoTable, cfg: Config, swap: bool, target: Obj, d: nat)
    ensures forall e :: e in NodeBlock(edges, info, cfg, swap, target, d) && e.Edge? ==>
              && Expands(info, cfg, swap, target, d)
              && (swap ==> e.src == target && e.dst in Taken(cfg, Nbrs(edges, target)))
              && (!swap ==> e.dst == target && e.src in Taken(cfg, Nbrs(edges, target)))
              && e.attrs == EdgeLabel(info, e.src, e.dst)
    ensures NodeLabel(target, ObjLabel(info, cfg, target)) in NodeBlock(edges, info, cfg, swap, target, d)
  {
    var ns := Nbrs(edges, target);
    NodeHeadShape(target, ObjLabel(info, cfg, target), NodeColor(info, cfg, target, d), Info(info, target).hasDel);
    EdgeDeclsShape(info, swap, target, Taken(cfg, ns));
    forall e | e in NodeBlock(edges, info, cfg, swap, target, d) && e.Edge?
      ensures && Expands(info, cfg, swap, target, d)
              && (swap ==> e.src == target && e.dst in Taken(cfg, ns))
              && (!swap ==> e.dst == target && e.src in Taken(cfg, ns))
              && e.attrs == EdgeLabel(info, e.src, e.dst)
    {
      assert e in Expansion(edges, info, cfg, swap, target, d);
      var es := EdgeDecls(info, swap, target, Taken(cfg, ns));
      SummaryShape(cfg, swap, target, d, Skipped(cfg, ns));
      assert e in es;
      var i :| 0 <= i < |es| && es[i] == e;
    }
  }

  // ---------------------------------------------------------------------
  // The whole output (objgraph.py:546-561, 626)
  // ---------------------------------------------------------------------

  /** The red font marks of the roots, in order. */
  function RootMarks(objs: seq<Obj>): (r: seq<Decl>)
    ensures |r| == |objs| && forall i :: 0 <= i < |objs| ==> r[i] == RootMark(objs[i])
  {
    if objs == [] then [] else RootMarks(objs[..|objs| - 1]) + [RootMark(objs[|objs| - 1])]
  }

  /** The outputs of `f` on the elements of `xs`, one after another. */
  function FlatMap<T, U>(f: T -> seq<U>, xs: seq<T>): seq<U> {
    if xs == [] then [] else FlatMap(f, xs[..|xs| - 1]) + f(xs[|xs| - 1])
  }

  /** Whatever `FlatMap` holds comes from the output for one element. */
  lemma {:induction false} FlatMapMembers<T, U>(f: T -> seq<U>, xs: seq<T>, e: U)
    requires e in FlatMap(f, xs)
    ensures exists k :: 0 <= k < |xs| && e in f(xs[k])
  {
    var init := xs[..|xs| - 1];
    if e in FlatMap(f, init) {
      FlatMapMembers(f, init, e);
      var k :| 0 <= k < |init| && e in f(init[k]);
      assert xs[k] == init[k];
    }
  }

  /** The output for each element is part of `FlatMap`. */
  lemma {:induction false} FlatMapContains<T, U>(f: T -> seq<U>, xs: seq<T>, k: nat, e: U)
    requires k < |xs| && e in f(xs[k])
    ensures e in FlatMap(f, xs)
  {
    var init := xs[..|xs| - 1];
    if k < |init| {
      assert init[k] == xs[k];
      FlatMapContains(f, init, k, e);
    }
  }

  /** The round of one dequeued object, as a function of the object and its depth. */
  function Round(edges: EdgeFunc, info: InfoTable, cfg: Config, swap: bool): ((Obj, nat)) -> seq<Decl> {
    (v: (Obj, nat)) => NodeBlock(edges, info, cfg, swap, v.0, v.1)
  }

  /** The rounds for the dequeued objects with their depths, in dequeue order. */
  function Blocks(edges: EdgeFunc, info: InfoTable, cfg: Config, swap: bool, visits: seq<(Obj, nat)>): seq<Decl> {
    FlatMap(Round(edges, info, cfg, swap), visits)
  }

  /** The label of every dequeued object is among the rounds. */
  lemma BlocksLabels(edges: EdgeFunc, info: InfoTable, cfg: Config, swap: bool, visits: seq<(Obj, nat)>, k: nat)
    requires k < |visits|
    ensures NodeLabel(visits[k].0, ObjLabel(info, cfg, visits[k].0)) in Blocks(edges, info, cfg, swap, visits)
  {
    var v := visits[k];
    NodeHeadShape(v.0, ObjLabel(info, cfg, v.0), NodeColor(info, cfg, v.0, v.1), Info(info, v.0).hasDel);
    assert NodeLabel(v.0, ObjLabel(info, cfg, v.0)) in Round(edges, info, cfg, swap)(v);
    FlatMapContains(Round(edges, info, cfg, swap), visits, k, NodeLabel(v.0, ObjLabel(info, cfg, v.0)));
  }

  // ---------------------------------------------------------------------
  // Line text (the f.write format strings)
  // ---------------------------------------------------------------------

  /** `"%g,%g,%g"` of a colour, with `%g` given as `g`. */
  function ColorText(c: Hsv, g: real -> string): string {
    g(c.h) + "," + g(c.s) + "," + g(c.v)
  }

  /** The text one declaration writes; `g` stands for `%g` on a float. */
  function Render(d: Decl, g: real -> string): string {
    match d
    case Header => "digraph ObjectGraph {\n  node[shape=box, style=filled, fillcolor=white];\n"
    case RootMark(x) => "  " + ObjNodeId(x) + "[fontcolor=red];\n"
    case NodeLabel(x, text) => "  " + ObjNodeId(x) + "[label=\"" + text + "\"];\n"
    case FillColor(x, c) => "  " + ObjNodeId(x) + "[fillcolor=\"" + ColorText(c, g) + "\"];\n"
    case WhiteFont(x) => "  " + ObjNodeId(x) + "[fontcolor=white];\n"
    case DelEdge(x) =>
      "  " + ObjNodeId(x) + "->" + ObjNodeId(x) + "_has_a_del[color=red,style=dotted,len=0.25,weight=10];\n"
    case DelNode(x) =>
      "  " + ObjNodeId(x)
      + "_has_a_del[label=\"__del__\",shape=doublecircle,height=0.25,color=red,fillcolor=\"0,.5,1\",fontsize=6];\n"
    case Edge(s, t, attrs) => "  " + ObjNodeId(s) + " -> " + ObjNodeId(t) + attrs + ";\n"
    case TooManyEdge(x, outward) =>
      var edge := if outward then ObjNodeId(x) + "->too_many_" + ObjNodeId(x)
                  else "too_many_" + ObjNodeId(x) + "->" + ObjNodeId(x);
      "  " + edge + "[color=red,style=dotted,len=0.25,weight=10];\n"
    case TooManyNode(x, caption, c) =>
      "  too_many_" + ObjNodeId(x) + "[label=\"" + caption
      + "\",shape=box,height=0.25,color=red,fillcolor=\"" + ColorText(c, g) + "\",fontsize=6];\n"
    case TooManyWhite(x) => "  too_many_" + ObjNodeId(x) + "[fontcolor=white];\n"
    case Footer => "}\n"
  }

  /** The whole file. */
  function RenderAll(ds: seq<Decl>, g: real -> string): string {
    if ds == [] then "" else RenderAll(ds[..|ds| - 1], g) + Render(ds[|ds| - 1], g)
  }
}
