# objgraph, modelled in Dafny

objgraph is a Python module for exploring the garbage collector's object
graph. It counts tracked objects by type name, finds a shortest chain of
references between an object and one a predicate accepts, and writes
GraphViz DOT files showing the references around some objects. This
project models the core of `objgraph.py`, and proves what that core promises.

The model is spread over seven modules:

- `RefGraph` (`refgraph.dfy`): the object graph itself.
  - Objects are their identities, as `id(obj)` gives them.
  - `gc.get_referrers` and `gc.get_referents` become an explicit edge
    function: a map from an object to its ordered neighbours.
- `Chain` (`chain.dfy`): `find_chain` and its wrappers `find_ref_chain` and
  `find_backref_chain`.
  - The search is an imperative breadth-first search over a queue, a `depth`
    table and a `parent` table. It is proved to return a shortest chain.
  - When no accepted object lies within `max_depth` steps, it returns
    `[obj]`.
- `Labels` (`labels.dfy`): `quote`, `obj_node_id`, `is_identifier` and the
  mapping case of `edge_label`.
  - Round trips: a quoted label without NUL reads back, and a node name
    gives back its identity.
  - `is_identifier` accepts exactly a name, with an optional newline at the
    end.
- `Colors` (`gradient.dfy`): `gradient`, over exact reals.
- `Dot` (`dot.dfy`): what one round of `show_graph` writes for a dequeued
  object.
  - Every `f.write` becomes one `Decl` value.
  - The lines are written as pure functions of the object, its depth and the
    settings.
- `GraphWriter` (`showgraph.dfy`): the traversal of `show_graph` and its
  entry points `show_backrefs`, `show_refs` and `show_chain`.
  - Like the source, it is imperative: a queue, a `depth` table and a loop
    over the neighbours.
  - It is proved to write exactly `Output` of the sequence of dequeued
    objects.
  - That sequence is proved to be a complete, depth-bounded breadth-first
    traversal. The roots come first, in order, at depth 0. Depths never
    decrease. Every other object is dequeued once, one level below the
    first expanded object that took it. Every neighbour that got an edge is
    dequeued.
  - The queue is first in, first out (`queue.pop(0)` and `queue.append`):
    the dequeued objects are the roots, then every other object in the
    order the rounds discovered it.
- `Census` (`census.dfy`): the census helpers.
  - `count`, `by_type`, `typestats`, `most_common_types`, `at` and
    `get_leaking_objects` take an explicit snapshot of `gc.get_objects()`.
  - The `peak_stats` table of `show_growth` is a class field, updated in place.

A predicate argument (`predicate`, `filter`, `highlight`) becomes the set of
identities it accepts. `extra_ignore` becomes a set of identities.

## Model

| member | source | states |
|---|---|---|
| Census.Count | objgraph.py:62-80 | the count is at most the number of objects, and zero exactly when no object has that type name |
| Census.ByType | objgraph.py:230-246 | the result holds exactly the objects of the snapshot whose type name is `typename` |
| Census.ByTypeConcat | objgraph.py:230-246 | `by_type` keeps the snapshot's order and multiplicity: it distributes over concatenation, and keeps a single object exactly when its type name is `typename` |
| Census.CountIsByTypeLength | objgraph.py:62-80 | `count(t, objs) == len(by_type(t, objs))` on the same snapshot |
| Census.StatsCounts | objgraph.py:104-110 | the table built by the `setdefault` / `+= 1` loop holds exactly the type names present, each with its count |
| Census.StatsSum | objgraph.py:104-110 | the counts of the table add up to the number of objects |
| Census.TypeStats | objgraph.py:83-110 | the loop returns a table whose keys are exactly the type names present, each mapped to its count, all counts summing to the number of objects |
| Census.Names | objgraph.py:106-110 | the keys of the table, in order of first occurrence, hold each present type name once and nothing else |
| Census.Insert | objgraph.py:134-135 | inserting one row into rows sorted by decreasing count keeps them sorted and adds exactly that row |
| Census.SortDesc | objgraph.py:134-135 | `sorted(..., key=itemgetter(1), reverse=True)` gives rows sorted by decreasing count that are a permutation of the input |
| Census.Truncate | objgraph.py:136-137 | `if limit: stats = stats[:limit]` keeps a prefix of the rows |
| Census.TruncateLength | objgraph.py:136-137 | the prefix is as long as Python's slice makes it: everything for no limit or 0, `min(limit, n)` for a positive limit, `max(n + limit, 0)` for a negative one |
| Census.PermutedRowsCount | objgraph.py:134-135 | every row of the sorted items is a present type name with its positive count |
| Census.PermutedRowsComplete | objgraph.py:134-135 | the sorted items list every present type with its count |
| Census.PermutedRowsDistinct | objgraph.py:134-135 | the sorted items name every type at most once |
| Census.TruncatedRowsRanked | objgraph.py:134-137 | a type left out of the truncated rows counts no more than any row kept; with no limit, no type is left out |
| Census.TruncatedRowsFacts | objgraph.py:134-137 | the truncated rows are sorted, name each type once, carry true counts, have the sliced length and rank above the types left out |
| Census.MostCommonTypes | objgraph.py:113-138 | rows sorted by decreasing count, each a present type with its count, each type once, as many as the limit keeps; every type left out counts no more than every type kept; with no limit, every present type is listed |
| Census.At | objgraph.py:249-263 | `None` exactly when no tracked object has the address; otherwise the first tracked object with it; with unique identities, that object |
| Census.ReferencedMeaning | objgraph.py:221-223 | an identity is struck off the set exactly when some object of the snapshot has it among its referents |
| Census.KeepIds | objgraph.py:225 | the comprehension keeps exactly the objects whose identity is in the set |
| Census.GetLeakingObjects | objgraph.py:207-227 | the result holds exactly the objects of the snapshot that no object of the snapshot refers to |
| Census.RaisedRowsSound | objgraph.py:191-196 | every delta names a type whose count exceeds its old peak, with the positive difference |
| Census.RaisedRowsComplete | objgraph.py:192-196 | every type whose count exceeds its old peak gets a delta |
| Census.RaisedRowsDistinct | objgraph.py:191-196 | the deltas name each type once |
| Census.RaisedPeaksOutside | objgraph.py:192-196 | a type the loop does not visit keeps its peak |
| Census.RaisedPeaksMeaning | objgraph.py:192-196 | after the loop, a type's peak is its count when that exceeded the old peak, and the old peak otherwise; the table gains exactly those keys |
| Census.PeaksNeverDecrease | objgraph.py:189-196 | a peak never falls, and after the call it is at least the current count |
| Census.GrowthSettles | objgraph.py:189-200 | a second call on the same snapshot reports no growth |
| Census.GrowthStep | objgraph.py:192-196 | one iteration of the update loop extends the peaks and the deltas by exactly that type |
| Census.GrowthTracker.constructor | objgraph.py:167 | `peak_stats` starts empty, like the default `{}` |
| Census.GrowthTracker.RaisePeaks | objgraph.py:191-196 | the loop over the table updates the stored peaks in place and returns the deltas, as `RaisedPeaks` and `RaisedRows` describe |
| Census.GrowthTracker.ShowGrowth | objgraph.py:167-200 | the stored peaks become the raised peaks; the deltas returned are the raised rows, sorted by decreasing delta and cut at `limit` |
| Chain.ReachedWithin | objgraph.py:506-524 | along any search path from `obj`, the first object not yet dequeued is queued no deeper than its place on the path |
| Chain.Discover | objgraph.py:515-524 | the neighbour loop gives every new, non-ignored neighbour depth `tdepth + 1` and parent `target`, and appends it to the queue; nothing else changes |
| Chain.ExtendsTree | objgraph.py:518-524 | after discovery, the `depth` and `parent` tables still form a tree rooted at `obj` along non-ignored edges |
| Chain.ExtendsFrontier | objgraph.py:518-524 | the queue stays free of repeats and sorted by depth, spanning the current level and the next |
| Chain.ExtendsClosed | objgraph.py:515-524 | once `target`'s neighbours are discovered, every dequeued object above `max_depth` has all its non-ignored neighbours in the table |
| Chain.Explored | objgraph.py:514-524 | one expansion keeps the tree, the layering and the closure, and stays within the finite universe |
| Chain.TooDeep | objgraph.py:514-515 | an object at `max_depth` is not expanded, and the closure still holds |
| Chain.FrontierBound | objgraph.py:506-524 | nothing in the table is deeper than one level below the current one |
| Chain.Pop | objgraph.py:507 | dequeueing the head keeps the layering, with the head's depth as the new level |
| Chain.Exhausted | objgraph.py:506-525 | when the queue runs dry, no search path of at most `max_depth` steps reaches an accepted object |
| Chain.HeadIsNearest | objgraph.py:506-513 | the head of the queue is no deeper than any search path to an accepted object is long |
| Chain.LinkedAppend | objgraph.py:510-512 | following one more parent link keeps every element a neighbour of the next |
| Chain.Rebuild | objgraph.py:509-513 | the parent walk from `target` yields `depth[target] + 1` objects, from `target` to `obj`, each a non-ignored neighbour of the next |
| Chain.Found | objgraph.py:508-513 | an accepted head yields a chain from it to `obj`, at most `max_depth` steps long and no longer than any search path to an accepted object |
| Chain.Visit | objgraph.py:507-524 | a round whose head is not accepted keeps the search invariant, with the head now dequeued. Below `max_depth` the tables grow by the head's new non-ignored neighbours, at the next depth, with the head as parent, appended to the queue; otherwise the tables are unchanged and the queue loses its head |
| Chain.FindChain | objgraph.py:493-525 | the result ends at `obj`, each element a non-ignored neighbour of the next, at most `max_depth` steps; it starts at an accepted object no farther than any other within reach, or it is `[obj]` and no accepted object is within reach |
| Chain.FindBackrefChain | objgraph.py:291-315 | over the referrers: a shortest chain from an accepted object, each element referring to the next, ending at `obj`, or `[obj]` when there is none |
| Chain.FindRefChain | objgraph.py:266-288 | over the referents, reversed: a search path from `obj` of at most `max_depth` references, ending at an accepted object reached in as few references as possible, or `[obj]` when there is none |
| Labels.Replace | objgraph.py:677-680 | after `replace(c, r)`, `c` is gone when `r` lacks it; the string is unchanged when `c` is absent; no new characters appear except from `r` |
| Labels.ReplaceConcat | objgraph.py:677-680 | `replace` distributes over concatenation |
| Labels.Quote | objgraph.py:676-680 | a quoted label holds no newline and no NUL, and a string with nothing to escape is unchanged |
| Labels.QuoteConcat | objgraph.py:676-680 | `quote` distributes over concatenation |
| Labels.QuoteIsCharwise | objgraph.py:676-680 | the four ordered replacements equal escaping each character on its own |
| Labels.QuoteMergesNul | objgraph.py:680 | NUL and the two characters backslash, `0` are quoted alike, so NUL cannot be read back |
| Labels.UnquoteEscaped | objgraph.py:676-680 | reading escaped text back gives the original, for text without NUL |
| Labels.QuoteRoundTrip | objgraph.py:676-680 | a label without NUL reads back, under DOT's escapes, as written |
| Labels.Digits | objgraph.py:658 | `'%d'` of a natural number is a non-empty string of digits |
| Labels.ParseDigitsRoundTrip | objgraph.py:658 | reading the digits back gives the number |
| Labels.ObjNodeId | objgraph.py:657-658 | a node name holds no `-` |
| Labels.ObjNodeIdShape | objgraph.py:657-658 | a node name is `o`, then `_` for a negative identity, then its decimal digits |
| Labels.NodeIdRoundTrip | objgraph.py:657-658 | the node name reads back to the identity it was made from |
| Labels.NodeIdInjective | objgraph.py:657-658 | distinct objects get distinct node names |
| Labels.WordRun | objgraph.py:762 | the greedy `[a-zA-Z_0-9]*` consumes only word characters and stops at the first other one |
| Labels.WordRunOver | objgraph.py:762 | the run over a name followed by more text is the name's length plus the run over the rest |
| Labels.IsIdentifierMeaning | objgraph.py:762 | `is_identifier` holds exactly for a name (a letter or `_`, then word characters) or for such a name followed by one final newline |
| Labels.DictEdgeLabel | objgraph.py:751-759 | no label exactly when no entry's value is the target; otherwise the first such entry's key decides it: the quoted key with weight 2 for an identifier string (`str` or `unicode`), else its quoted type name and repr |
| Colors.Gradient | objgraph.py:714-724 | `max_depth == 0` or depth 0 gives the start colour; depth `max_depth` gives the end colour |
| Colors.LerpBetween | objgraph.py:721-723 | a channel for a fraction in [0, 1] lies between its two ends |
| Colors.LerpMonotone | objgraph.py:721-723 | a channel moves monotonically towards its end as the fraction grows |
| Colors.GradientBetween | objgraph.py:714-724 | for 0 <= depth <= max_depth, every channel lies between its start and its end |
| Colors.GradientDarkens | objgraph.py:714-724 | with a falling value channel, a deeper object is never lighter |
| Dot.NodeColorRange | objgraph.py:570-578 | a fill colour's value lies in [0.3, 1.0]; it is 1.0 at the roots; a highlighted node's is at least 0.5 |
| Dot.Eligible | objgraph.py:596-600 | a neighbour survives the ignore set and the filter exactly when it passes both; no more survive than there are neighbours |
| Dot.EligibleConcat | objgraph.py:596-600 | filtering keeps order and multiplicity: it distributes over concatenation, and keeps a single neighbour exactly when it passes |
| Dot.FanOut | objgraph.py:596-613 | at most `too_many` neighbours get an edge; the taken and the skipped ones add up to the eligible ones; something is skipped exactly when more than `too_many` are eligible; every taken neighbour passes |
| Dot.EdgeDeclsShape | objgraph.py:604-609 | the i-th edge joins `target` and the i-th taken neighbour, from target to source with `swap` and the other way without, labelled by `edge_label` |
| Dot.CountEdgeDecls | objgraph.py:604-613 | one edge line per taken neighbour, and no summary node |
| Dot.NodeHeadShape | objgraph.py:569-583 | the head lines include the object's label and hold no edge and no summary node |
| Dot.SummaryShape | objgraph.py:616-626 | the summary lines hold no edge, one summary node exactly when something was skipped, captioned "N more references" or "N more backreferences" |
| Dot.NodeBlockFanOut | objgraph.py:584-626 | an expanded object gets `min(too_many, eligible)` edges and one summary node exactly when something was skipped; any other object gets neither |
| Dot.NodeBlockCaption | objgraph.py:616-626 | a round's summary node belongs to the dequeued object and gives the number of eligible neighbours skipped |
| Dot.NodeBlockEdges | objgraph.py:584-613 | every edge of a round belongs to an expanded object and joins it to a taken neighbour in the direction `swap` says, labelled by `edge_label`; the round includes the object's label |
| Dot.BlocksLabels | objgraph.py:565-569 | every dequeued object's label is written |
| GraphWriter.BlocksSnoc | objgraph.py:565-626 | the rounds of one more dequeued object follow the rounds already written |
| GraphWriter.ScanMeaning | objgraph.py:594-613 | the neighbour loop takes the first `too_many` eligible neighbours, counts the rest as skipped, and only adds the new ones it took to the table and to the back of the queue, once each |
| GraphWriter.ScanTaken | objgraph.py:596-603 | the neighbour loop takes the first `too_many` eligible neighbours and counts the rest as skipped |
| GraphWriter.ScanGrows | objgraph.py:610-612 | the neighbour loop only adds taken neighbours to the table, at the next depth, each appended to the queue once |
| GraphWriter.ScanFresh | objgraph.py:610-612 | the neighbour loop appends exactly the taken neighbours not yet in the table, each once, in the order taken; the table gains exactly those |
| GraphWriter.Expand | objgraph.py:592-613 | the loop writes one edge per taken neighbour, returns the number skipped, and queues each taken neighbour not yet in the table, at depth `tdepth + 1` |
| GraphWriter.DiscoveredWiden | objgraph.py:565-612 | an object discovered by an earlier round stays discovered as rounds are added |
| GraphWriter.BookkeptStep | objgraph.py:565-612 | a round keeps the bookkeeping: roots at depth 0, queued objects in the table, every object in the table queued or dequeued at its depth |
| GraphWriter.LayeredStep | objgraph.py:565-612 | a round keeps every depth within `max_depth`, and every non-root one level below an expanded discoverer |
| GraphWriter.ClosureStep | objgraph.py:565-612 | after a round, every neighbour taken by an expanded dequeued object is in the table, at most one level below its taker |
| GraphWriter.ClosureHead | objgraph.py:596-612 | the neighbours an expanded dequeued object takes end up in the table, at most one level below it |
| GraphWriter.ClosureExtend | objgraph.py:565-612 | dequeuing one more object keeps every taken neighbour of an expanded dequeued object in the table, at most one level below its taker |
| GraphWriter.OrderedStep | objgraph.py:565-612 | a round keeps breadth-first order: dequeued depths never decrease, the queue stays sorted by depth within two levels, and nothing dequeued is deeper than the head |
| GraphWriter.RootsFirstStep | objgraph.py:558-612 | a round keeps the roots first: they are dequeued in order before anything else, and nothing queued after them is a root |
| GraphWriter.UniqueStep | objgraph.py:565-612 | after a round, only roots occur twice among the dequeued and queued objects |
| GraphWriter.DiscoveredSnoc | objgraph.py:565-612 | one more dequeued object extends the discovered objects by the taken neighbours not yet in the table, in the order taken, when it is expanded, and by nothing otherwise |
| GraphWriter.DiscoveredFirst | objgraph.py:565-612 | the first dequeued object discovers the taken neighbours that are not roots, in order, when it is expanded |
| GraphWriter.KnownIsFound | objgraph.py:560-612 | when the dequeued objects followed by the queue are the roots followed by the discovered ones, the table holds exactly the roots and the discovered objects |
| GraphWriter.FifoStep | objgraph.py:565-612 | a round keeps the queue first in, first out: the head moves to the dequeued objects and the fresh taken neighbours go to the back, so the dequeued objects followed by the queue stay the roots followed by the discovered objects |
| GraphWriter.WalkStep | objgraph.py:565-626 | one round keeps the walk invariant; the table only grows within the finite universe, and the queue shrinks when the table stays the same |
| GraphWriter.WalkInit | objgraph.py:558-562 | queuing the roots at depth 0 establishes the walk invariant |
| GraphWriter.FifoInit | objgraph.py:558-562 | with the roots queued and nothing dequeued, the queue is the roots followed by no discovered objects |
| GraphWriter.WalkDone | objgraph.py:565-626 | a walk whose queue ran dry is a complete traversal |
| GraphWriter.FifoDone | objgraph.py:565-567 | with the queue empty, the dequeued objects are the roots followed by the discovered objects, in discovery order |
| GraphWriter.ClosureDone | objgraph.py:596-612 | with the queue empty, every neighbour taken by an expanded object was dequeued, no deeper than one level below it |
| GraphWriter.DepthFromFirstTaker | objgraph.py:610-612 | an object past the roots is dequeued one level below the first expanded object that took it: its depth is fixed on first discovery |
| GraphWriter.FirstTaker | objgraph.py:610-612 | in a sequence with non-decreasing depths and no object deeper than one below a taker, the first taker sits exactly one level above |
| GraphWriter.LateDepthRejected | objgraph.py:610-612 | root 1 with neighbours 2 and 3: dequeueing 3 at depth 2, through 2, is not a traversal |
| GraphWriter.SwappedLevelRejected | objgraph.py:565-612 | root 1 takes 2 before 3, so dequeuing 3 before 2, both at depth 1, is not first in, first out |
| GraphWriter.OutputLabelled | objgraph.py:565-613 | after a complete traversal, both ends of every edge written have their labels written |
| GraphWriter.OutputEdges | objgraph.py:596-613 | every edge written follows the edge function to a neighbour that passes the ignore set and the filter. It points from object to referent with `swap`, and from referrer to object without it, never into a proper module |
| GraphWriter.FillColour | objgraph.py:570-577 | the `h, s, v` updates give the node colour: grey by depth, green for a module, blue-ish for a highlighted object |
| GraphWriter.EmitHead | objgraph.py:569-583 | the label line, the fill colour, a white font below value 0.5, and the `__del__` marker for a class with `__del__` |
| GraphWriter.WriteExpansion | objgraph.py:584-626 | nothing at `max_depth` or for a proper module reached backwards; otherwise the neighbour loop's edges and the summary lines, with the table grown by exactly the taken neighbours |
| GraphWriter.WriteRound | objgraph.py:566-626 | one round writes the dequeued object's block, and the table grows by its taken neighbours when it is expanded |
| GraphWriter.Visit | objgraph.py:565-626 | dequeueing the head writes its round; the table grows by its taken neighbours, one level below it, when it is expanded, and the rest of the queue grows by the fresh ones among them, in the order taken |
| GraphWriter.Advance | objgraph.py:565-626 | one round keeps the walk invariant and the first in, first out order, and either grows the table within the finite universe or shortens the queue |
| GraphWriter.Turn | objgraph.py:565-626 | one turn of the loop dequeues the head at its depth, appends its round to the output, keeps the walk invariant and the first in, first out order, and makes progress |
| GraphWriter.QueueRoots | objgraph.py:546-562 | the header and one red mark per root are written, and every root is queued at depth 0 |
| GraphWriter.Drain | objgraph.py:546-626 | the header and root marks, then one round per dequeued object, until the queue is empty; the walk invariant holds at the end, and the dequeued objects are the roots followed by the discovered objects in discovery order |
| GraphWriter.ShowGraph | objgraph.py:528-627 | the output is the header, the root marks, one round per dequeued object and the footer, and `nodes` counts the rounds. The dequeued objects form a complete breadth-first traversal: roots first, depths never decreasing, each other object one level below its first taker, and dequeued first in, first out, in the order it was discovered. Every edge has both ends labelled, follows the edge function to a passing neighbour, and points the way references go |
| GraphWriter.ShowBackrefs | objgraph.py:318-372 | the walk over the referrers, a complete breadth-first traversal dequeued first in, first out: every edge goes from a passing referrer to the object it refers to, never into a proper module |
| GraphWriter.ShowRefs | objgraph.py:375-430 | the walk over the referents, a complete breadth-first traversal dequeued first in, first out: every edge goes from an object to a passing referent |
| GraphWriter.NonEmpty | objgraph.py:461 | the kept chains are exactly the non-empty ones |
| GraphWriter.MaxLen | objgraph.py:464 | `max(map(len, chains))` is at least every chain's length, and some chain reaches it |
| GraphWriter.ShowChainArgsMeaning | objgraph.py:460-470 | nothing when every chain is empty. Otherwise: one root per non-empty chain, its last element for back-references and its first otherwise; a depth limit every chain fits in and the longest reaches; a filter accepting exactly the objects on the chains |
| GraphWriter.NoneKept | objgraph.py:461 | no chain is kept exactly when every chain is empty |
| GraphWriter.KeptEnds | objgraph.py:465-470 | the roots taken from the kept chains' ends are exactly the ends of the non-empty chains |
| GraphWriter.KeptLengths | objgraph.py:464 | every kept chain fits in the depth limit, and some chain reaches it |
| GraphWriter.KeptIds | objgraph.py:462 | the filter's identities are exactly the objects on the kept chains |
| GraphWriter.ShowChain | objgraph.py:433-470 | fails exactly when all chains are empty. Otherwise it draws the back-reference or reference graph from the chain ends, with that depth limit and filter, dequeued first in, first out. Every dequeued object lies on a chain |
| GraphWriter.VisitsFiltered | objgraph.py:596-612 | with a filter that the roots pass, every dequeued object passes it |

## Left out

- Collector introspection: `gc.get_objects`, `gc.get_referrers`, `gc.get_referents`, `gc.collect` and `sys.getrefcount`.
  - Snapshots and edge functions are parameters.
  - The `objects=None` defaults, which read the collector, are therefore not modelled.
- Census.GetLeakingObjects: works on a given snapshot. The `objects=None` path (a collection, then `gc.get_objects()`) and the `finally` that clears locals are not modelled.
- Census.At: scans a given snapshot in place of `gc.get_objects()`.
- Census.GrowthTracker.ShowGrowth: takes the snapshot as a parameter. The initial `gc.collect()` and the printed table (column width, `%+9d`) are not modelled.
- `show_most_common_types` is not modelled: it only prints the rows of `most_common_types`.
- Census.SortDesc: states sortedness and permutation, not the stability of Python's sort. The body is a stable insertion sort, but the tie order is not part of any contract.
- Census.Names: states which names there are, not their dictionary order.
- Chain.FindChain: states that the chain is a shortest one. It does not state which of several equally short chains breadth-first order picks.
- Chain.FindChain:
  - it takes `max_depth` as a natural number; a negative `max_depth` is not modelled;
  - `find_chain` stores `None` as the root's parent and stops rebuilding at a `None` parent, so a `None` object reached in the search would end the chain early. Identities here are plain integers, and that case is not modelled.
- The internal ignore identities are not modelled. They are the identities `show_graph` and `find_chain` add for their own locals and frames: `id(objs)`, `id(queue)`, `id(depth)`, `id(parent)`, `id(ignore)`, `id(extra_ignore)`, the two frames, and each `id(neighbours)` / `id(referrers)`. Only `extra_ignore` is modelled.
- Predicates and callbacks are sets or given functions:
  - `predicate`, `filter` and `highlight` are sets of accepted identities;
  - `extra_info` is a function of the identity;
  - `is_proper_module`, `inspect.ismodule` and the `__del__` check are flags in the object table.
- GraphWriter.ShowGraph:
  - `max_depth` and `too_many` are natural numbers; negative values are not modelled;
  - a single object for `objs` is not wrapped in a list; the roots are a sequence;
  - the `refcounts` option is not modelled (it needs `sys.getrefcount`).
- File handling, the temporary file, the `Graph written to ... (N nodes)` message and starting `xdot` / `dot` are not modelled. `ShowGraph` returns the node count instead of printing it.
- Colours are exact reals, not floats. `%g` formatting is a parameter of `Render`.
- `short_repr` / `safe_repr` are not modelled. The text of an object's `repr` is a field of its table entry.
- Dot.EdgeLabel: models only the mapping branch (objgraph.py:751-759) and the empty label.
  - The `__dict__`, frame, bound-method and function branches (objgraph.py:728-750) are not modelled.
  - An object not marked as a mapping gets no label.
- GraphWriter.ShowChain: `kw` is a whole `Config` whose depth limit and filter are replaced. Passing `max_depth` or `filter` in `**kw` is a `TypeError` in the source; that error is not modelled.
- `setup.py`, the test suite, `program_in_path` and the module's version metadata are not part of this model.
