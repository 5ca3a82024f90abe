# Adjoint core, modelled in Dafny

Adjoint is a TypeScript workspace for building typed knowledge graphs out of
text. This project models the parts of it that compute, and proves what they
promise:

- **Nodes and edges** (`Nodes`, `Edges`): the closed five-variant node union
  (canonical entity, identity, source data, schema, strategy), its factories,
  the `createNode`/`matchNode` dispatch and the `isX` guards, the recursion
  scheme literals, and the type-directed edge constructor `create` with its
  ordered rules and its `HAS_CHILD` fallback.
- **Capabilities** (`Predicates`, `Capabilities`): node predicates with the
  `and`/`or`/`not` combinators and their boolean laws, and the capability
  registry, a mutable map from symbol to predicate.
- **Trees and algebras** (`TreeGraph`, `Algebra`, `Text`): the root-plus-children
  graph value, `addChild`, the post-order fold and `streamNodes`, and the three
  shipped algebras `count`, `collectIds` and `drawTree`. `Text` holds the line
  splitting and joining that `drawTree` uses.
- **Composition** (`StoreGraph`, `Composition`): the minimal node-and-edge graph
  that `Composition.ts` relies on, `from`, the frontier search, and `transform`,
  which appends a strategy node, a new schema node and two edges.
- **Workspace history** (`WorkspaceStateService`, `WorkspaceStateHelpers`): the
  bounded undo/redo history with branch truncation and trimming, the controller
  that holds it, and the helpers (batch add, navigation, queries, validation,
  metrics).
- **Columnar NLP graph** (`Nlp`): the typed-array `NlpGraph` class with capacity
  doubling, `addNode`, `addEdge`, the stable sort-by-source adjacency index of
  `buildIndex`, and `getNeighbors`.
- **Graph store** (`GraphStateService`): the keyed store of `NlpGraph`s with
  `createGraph`, `getGraph`, `updateGraph` and `listGraphs`.
- **Web helpers** (`GraphDataAdapter`, `FileUpload`): the graph-to-sections
  adapter of the manuscript view, and the upload validator with the byte-to-hex
  rendering of a digest.

`Wrappers` (Option, Result) and `Seqs` (map, filter, flatten, sum, count) are
shared helpers.

Clocks, random ids and the schema ids taken from annotations are parameters.
Objects that the source changes in place are classes:
`CapabilityRegistry`, `WorkspaceController`, `NlpGraph` and
`GraphStateServiceLive`. Everything else is a value.

Where a source function has a bug, the model keeps an as-written member that
exhibits it and a corrected member that the rest of the model uses (see
"## Findings").

## Model

| member | source | states |
|---|---|---|
| Nodes.ParseRecursionScheme | packages/domain/src/graph/node/node.ts:130-137 | a scheme name is accepted exactly when it is one of the five literals, and the parsed scheme prints back as the same name |
| Nodes.SchemeNameRoundTrip | packages/domain/src/graph/node/node.ts:130-137 | every recursion scheme parses back from its literal |
| Nodes.TagOf | packages/domain/src/graph/node/node.ts:167-188 | each of the five guards holds exactly when the node's tag is that variant's tag |
| Nodes.ExactlyOneGuard | packages/domain/src/graph/node/node.ts:517-542 | every node satisfies exactly one of the five `isX` guards, and so `isGraphNode` |
| Nodes.MatchNode | packages/domain/src/graph/node/node.ts:399-407 | `matchNode` returns its argument unchanged, with the same tag |
| Nodes.CreateCanonicalEntityNode | packages/domain/src/graph/node/node.ts:204-224 | succeeds exactly when id, lastSeenBy and schemaId are given; the node holds the props plus `createdAt`; a failure carries the tag `CanonicalEntityNode` |
| Nodes.CreateIdentityNode | packages/domain/src/graph/node/node.ts:239-257 | succeeds exactly when id and lastSeenBy are given; the node holds them plus `createdAt`; a failure carries the tag `IdentityNode` |
| Nodes.CreateSourceDataNode | packages/domain/src/graph/node/node.ts:272-291 | succeeds exactly when id, lastSeenBy and sourceUri are given; the node holds the props plus `createdAt`; a failure carries the tag `SourceDataNode` |
| Nodes.CreateSchemaNode | packages/domain/src/graph/node/node.ts:306-326 | succeeds exactly when id, lastSeenBy and schemaId are given; the node holds the props plus `createdAt`; a failure carries the tag `SchemaNode` |
| Nodes.CreateStrategyNode | packages/domain/src/graph/node/node.ts:341-364 | succeeds exactly when its required props are given and the recursion scheme is valid; the node holds the props plus `createdAt`; a failure carries the tag `StrategyNode` |
| Nodes.CreateNode | packages/domain/src/graph/node/node.ts:379-390 | the created node's tag is the requested tag and its `createdAt` the given one; a failure carries that tag's name |
| Nodes.CreateNodeRebuilds | packages/domain/src/graph/node/node.ts:379-390 | creating a node from any node's tag, props and timestamp gives back that very node |
| Predicates.And | packages/domain/src/node/predicate.ts:4-10 | the combined predicate holds exactly when both operands hold; its id is `and(` + the two operand ids joined by `, ` + `)`; this member also models the identical `and` at graph/node/node.ts:669-675 |
| Predicates.Or | packages/domain/src/node/predicate.ts:12-18 | the combined predicate holds exactly when either operand holds; its id is `or(` + the two operand ids joined by `, ` + `)`; this member also models the identical `or` at graph/node/node.ts:677-683 |
| Predicates.Not | packages/domain/src/node/predicate.ts:20-25 | the negated predicate holds exactly when the operand does not; its id is `not(` + the operand's id + `)`; this member also models the identical `not` at graph/node/node.ts:685-690 |
| Predicates.CombinatorIdsDistinct | packages/domain/src/node/predicate.ts:4-25 | the three combinators never produce the same id |
| Predicates.AndCommutes | packages/domain/test/graph/PropertyBasedTests.test.ts:139-155 | `and` is commutative in evaluation |
| Predicates.OrCommutes | packages/domain/test/graph/PropertyBasedTests.test.ts:174-190 | `or` is commutative in evaluation |
| Predicates.AndAssociates | packages/domain/test/graph/PropertyBasedTests.test.ts:156-172 | `and` is associative in evaluation |
| Predicates.DeMorgan | packages/domain/test/graph/PropertyBasedTests.test.ts:191-206 | both De Morgan laws hold in evaluation |
| Predicates.DoubleNegation | packages/domain/test/graph/PropertyBasedTests.test.ts:208-220 | `not(not(p))` evaluates like `p` |
| Predicates.Identities | packages/domain/test/node/NodeCapabilities.test.ts:109-116 | always-true is a two-sided identity of `and`, always-false of `or` |
| Capabilities.Register | packages/domain/src/node/capabilities.ts:42 | registering adds the predicate's id to the registered ids and nothing else |
| Capabilities.Lookup | packages/domain/src/node/capabilities.ts:43 | a lookup finds a predicate exactly when the id is registered, and then the registered one |
| Capabilities.LookupRegistered | packages/domain/src/node/capabilities.ts:42-43 | after registering `p`, looking up `p`'s id gives `p` |
| Capabilities.LookupOtherUnchanged | packages/domain/src/node/capabilities.ts:42 | registering `p` leaves the lookup of every other id as it was |
| Capabilities.RegisterReplaces | packages/domain/src/node/capabilities.ts:42 | registering under a present id replaces the entry and adds no id |
| Capabilities.CapabilityRegistry.constructor | packages/domain/src/node/capabilities.ts:40 | a new registry is empty |
| Capabilities.CapabilityRegistry.RegisterPredicate | packages/domain/src/node/capabilities.ts:42 | the registry's map becomes the old map with the predicate set under its id; the duplicate registry at graph/node/node.ts:641-650 performs the same `set` |
| Capabilities.CapabilityRegistry.GetPredicate | packages/domain/src/node/capabilities.ts:43 | returns the registered predicate, or none when the id is absent |
| Edges.Create | packages/domain/src/graph/edge.ts:33-55 | `from` is always the source's id; PRODUCES exactly for strategy to schema, CONFORMS_TO_SCHEMA exactly for canonical entity to schema (targeting the `schemaId`), INPUT_TO exactly for any other pair into a strategy, and HAS_CHILD for every remaining pair |
| Edges.IdentityPairIsHasChild | packages/domain/src/graph/edge.ts:53-54 | two identity nodes are joined by HAS_CHILD |
| Edges.ConformsTargetsSchemaId | packages/domain/src/graph/edge.ts:44-47 | canonical entity to schema gives CONFORMS_TO_SCHEMA whose target is the schema's `schemaId`, not its id |
| StoreGraph.FromNodes | packages/domain/src/graph/Composition.ts:21 | a graph of the given nodes, with unique ids, the same id set and no edges |
| StoreGraph.AddNode | packages/domain/src/graph/Composition.ts:76-82 | inserting overwrites by id: the id set gains the node's id, the node is present, every other node stays, nothing else appears, edges are unchanged, and ids stay unique |
| Composition.FirstFrontier | packages/domain/src/graph/Composition.ts:47-56 | the first schema node that is not the source of an INPUT_TO edge, or none exactly when no node is such a frontier |
| Composition.From | packages/domain/src/graph/Composition.ts:20-23 | `from(s)` holds exactly the node `s` and no edges, and `s` is its frontier |
| Composition.OutputSchemaNode | packages/domain/src/graph/Composition.ts:66-73 | the new node is a schema node with the given id, last seen by the strategy |
| Composition.Transform | packages/domain/src/graph/Composition.ts:41-85 | without a frontier the graph comes back unchanged; otherwise the old edges are kept and exactly INPUT_TO frontier to strategy and PRODUCES strategy to new schema are appended, the ids gain the strategy and the new schema, the strategy node and the new schema node are both present (the strategy unless the new id replaces it), every old node with another id is kept, and ids stay unique |
| Composition.Extend | packages/domain/src/graph/Composition.ts:76-82 | adding the strategy, the new schema node and the two edges keeps the id, appends exactly the two edges, adds exactly the two ids, keeps every old node with another id, holds the new schema node (and the strategy unless the schema replaced it) and keeps ids unique |
| Composition.ChainFrontier | packages/domain/src/graph/Composition.ts:47-56 | in a chain built by transforms, the chain's last schema node is the frontier |
| Composition.TransformStep | packages/domain/src/graph/Composition.ts:41-85 | with fresh ids a transform adds exactly two nodes and two edges, the old frontier stops being one and the new schema node becomes the frontier |
| Composition.InputSourcesAppend | packages/domain/src/graph/Composition.ts:76-82 | appending an INPUT_TO and a non-INPUT_TO edge adds exactly the INPUT_TO's source to the consumed schemas |
| Composition.TransformChain | packages/domain/src/graph/Composition.ts:41-85 | n transforms with fresh ids add 2n nodes and 2n edges |
| Composition.ChainFromSource | packages/domain/test/graph/GraphComposition.test.ts:88-102 | n chained transforms from `from(s)` give 1 + 2n nodes and 2n edges |
| TreeGraph.FoldAll | packages/domain/src/graph/graph.ts:87-105 | the children's results, one per child in child order, each the fold of that child |
| TreeGraph.StreamNodes | packages/domain/src/graph/graph.ts:48-63 | the stream is non-empty and ends with the root |
| TreeGraph.StreamNodesLength | packages/domain/src/graph/graph.ts:48-63 | the stream holds one entry per node of the tree |
| TreeGraph.StreamNodesPostOrder | packages/domain/src/graph/graph.ts:48-63 | each child's stream appears, in child order, as a contiguous block before the root |
| TreeGraph.AddChildSize | packages/domain/src/graph/graph.ts:70-75 | `addChild` keeps the root and adds exactly the child's nodes |
| TreeGraph.AddChildStream | packages/domain/src/graph/graph.ts:70-75 | after `addChild` the stream is the old stream with the child's stream inserted before the root |
| Algebra.CountIsFilteredStream | packages/domain/src/graph/algebra.ts:47-54 | `count(p)` is the number of streamed nodes satisfying `p` |
| Algebra.CountAllNodes | packages/domain/src/graph/graph.ts:157-164 | counting with `1 + sum(children)` gives the number of nodes of the tree |
| Algebra.CountBounded | packages/domain/src/graph/algebra.ts:51-53 | 0 <= `count(p)` <= `count()` |
| Algebra.CountAndBelowMin | packages/domain/test/graph/GraphAlgebra.test.ts:171-202 | `count(and(p, q))` is at most `count(p)` and at most `count(q)` |
| Algebra.CollectIdsIsStreamIds | packages/domain/src/graph/algebra.ts:59-65 | `collectIds` is the post-order stream's ids, and as long as `count()` |
| Algebra.DrawLeaf | packages/domain/src/graph/algebra.ts:74-76 | a childless node draws as exactly its id |
| Algebra.IndentBlockLines | packages/domain/src/graph/algebra.ts:78-80 | indenting a block prefixes each of its lines with two spaces and keeps the line count |
| Algebra.DrawTreeLines | packages/domain/src/graph/algebra.ts:70-83 | with children, the drawing's lines are the node's id lines followed by every line of every child's drawing, indented |
| Algebra.DrawTreeIsOutline | packages/domain/src/graph/algebra.ts:70-83 | for single-line ids, the drawing is the pre-order outline: one line per node, indented two spaces per depth |
| Algebra.OutlineLength | packages/domain/src/graph/algebra.ts:70-83 | the outline has one line per node |
| Text.Split | packages/domain/src/graph/algebra.ts:78-80 | `split("\n")` gives at least one line and no line holds a newline |
| Text.SplitConcat | packages/domain/src/graph/algebra.ts:78-82 | splitting `a + "\n" + b` gives the lines of `a` then those of `b` |
| Text.JoinSplit | packages/domain/src/graph/algebra.ts:78-82 | joining the lines of a string with newlines gives the string back |
| Text.SplitJoin | packages/domain/src/graph/algebra.ts:78-82 | splitting a newline-joined list gives the lines of each element in order |
| Text.SplitJoinLines | packages/domain/src/graph/algebra.ts:78-82 | splitting a newline-joined list of newline-free lines gives the list back |
| WorkspaceStateService.CurrentSnapshot | packages/domain/src/engine/services/WorkspaceStateService.ts:39-43 | the snapshot at the current index, and none exactly when the index is outside the history |
| WorkspaceStateService.AddSnapshot | packages/domain/src/engine/services/WorkspaceStateService.ts:51-79 | the history up to the current index plus the snapshot, trimmed to the newest `maxHistorySize`; the index is last, redo is impossible, the maximum is kept, and the new snapshot is current |
| WorkspaceStateService.AddAtTip | packages/domain/src/engine/services/WorkspaceStateService.ts:56-57 | adding at the tip of a history with room appends |
| WorkspaceStateService.AddFromMiddle | packages/domain/src/engine/services/WorkspaceStateService.ts:58-62 | adding from the middle discards everything after the current index, then appends |
| WorkspaceStateService.MoveToPrevious | packages/domain/src/engine/services/WorkspaceStateService.ts:84-97 | without undo the state is unchanged and no snapshot is returned; otherwise the index drops by one, the history is kept and the snapshot at the new index is returned |
| WorkspaceStateService.MoveToNext | packages/domain/src/engine/services/WorkspaceStateService.ts:102-115 | without redo the state is unchanged; otherwise the index rises by one, the history is kept and the snapshot at the new index is returned |
| WorkspaceStateService.UndoThenRedo | packages/domain/src/engine/services/WorkspaceStateService.ts:84-115 | undo followed by redo restores the state and returns the original snapshot |
| WorkspaceStateService.RedoThenUndo | packages/domain/src/engine/services/WorkspaceStateService.ts:84-115 | redo followed by undo restores the state and returns the original snapshot |
| WorkspaceStateService.Clear | packages/domain/src/engine/services/WorkspaceStateService.ts:120-122 | empty history, index -1, no current snapshot, and the default maximum of 100 whatever it was |
| WorkspaceStateService.CurrentGraph | packages/domain/src/engine/services/WorkspaceStateService.ts:199-212 | fails with `NoGraphInWorkspace` exactly when there is no current snapshot, else gives its graph |
| WorkspaceStateService.ComputeStats | packages/domain/src/engine/services/WorkspaceStateService.ts:374-388 | total is the history length, undo/redo flags as defined, oldest and newest timestamps exactly when the history is non-empty, taken from its ends |
| WorkspaceStateService.WorkspaceController.constructor | packages/domain/src/engine/services/WorkspaceStateService.ts:395 | the controller starts from the empty state |
| WorkspaceStateService.WorkspaceController.FromState | packages/domain/src/engine/services/WorkspaceStateService.ts:431-439 | the controller starts from the given state (the test layer's maximum of 10) |
| WorkspaceStateService.WorkspaceController.GetCurrentGraph | packages/domain/src/engine/services/WorkspaceStateService.ts:199-212 | the current graph, or `NoGraphInWorkspace` when there is none |
| WorkspaceStateService.WorkspaceController.GetHistory | packages/domain/src/engine/services/WorkspaceStateService.ts:214-217 | the held history |
| WorkspaceStateService.WorkspaceController.GetStats | packages/domain/src/engine/services/WorkspaceStateService.ts:229-231 | the statistics of the held state |
| WorkspaceStateService.WorkspaceController.CommitGraph | packages/domain/src/engine/services/WorkspaceStateService.ts:235-281 | the state becomes `addSnapshot` of a snapshot of the graph, operation and timestamp, which is returned |
| WorkspaceStateService.WorkspaceController.Undo | packages/domain/src/engine/services/WorkspaceStateService.ts:283-322 | the state becomes `moveToPrevious`'s, and its snapshot's graph is returned when there is one |
| WorkspaceStateService.WorkspaceController.Redo | packages/domain/src/engine/services/WorkspaceStateService.ts:324-363 | the state becomes `moveToNext`'s, and its snapshot's graph is returned when there is one |
| WorkspaceStateService.WorkspaceController.ClearHistory | packages/domain/src/engine/services/WorkspaceStateService.ts:365-369 | the state becomes the empty state |
| WorkspaceStateHelpers.AddSnapshotsKeepsNewest | packages/domain/src/engine/services/WorkspaceStateHelpers.ts:47-51 | folding `addSnapshot` over a batch at the tip keeps the newest `maxHistorySize` of the old history plus the batch, the last one current |
| WorkspaceStateHelpers.TrimToLastTen | packages/domain/test/engine/WorkspaceStateService.test.ts:186-207 | fifteen commits with a maximum of 10 leave the last ten, the fifteenth current |
| WorkspaceStateHelpers.NavigateToIndex | packages/domain/src/engine/services/WorkspaceStateHelpers.ts:57-70 | an index outside the history gives none and the same state; otherwise the snapshot there and the state with that index, history and maximum kept |
| WorkspaceStateHelpers.FilterHistoryByOperation | packages/domain/src/engine/services/WorkspaceStateHelpers.ts:76-80 | exactly the history's snapshots with that operation |
| WorkspaceStateHelpers.FindSnapshotsByGraphId | packages/domain/src/engine/services/WorkspaceStateHelpers.ts:183-187 | exactly the history's snapshots of that graph id |
| WorkspaceStateHelpers.QueriesAreSubsequences | packages/domain/src/engine/services/WorkspaceStateHelpers.ts:76-80 | both queries keep the history's order: their results are subsequences of it |
| WorkspaceStateHelpers.ValidateIff | packages/domain/src/engine/services/WorkspaceStateHelpers.ts:141-152 | valid exactly when -1 <= index < history length <= maximum |
| WorkspaceStateHelpers.AddSnapshotPreservesValid | packages/domain/src/engine/services/WorkspaceStateService.ts:51-79 | `addSnapshot` keeps a valid state valid |
| WorkspaceStateHelpers.MovesPreserveValid | packages/domain/src/engine/services/WorkspaceStateService.ts:84-122 | undo, redo, navigation and clear keep a valid state valid |
| WorkspaceStateHelpers.AddSnapshotsPreservesValid | packages/domain/src/engine/services/WorkspaceStateHelpers.ts:47-51 | adding any batch keeps a valid state valid |
| WorkspaceStateHelpers.AssertValidWorkspaceStateAsWritten | packages/domain/src/engine/services/WorkspaceStateHelpers.ts:157-175 | as written, the assertion fails exactly when the state is valid |
| WorkspaceStateHelpers.AssertValidRejectsEmpty | packages/domain/src/engine/services/WorkspaceStateHelpers.ts:157-175 | the empty state is valid, yet the as-written assertion fails on it |
| WorkspaceStateHelpers.AssertValidWorkspaceState | packages/domain/src/engine/services/WorkspaceStateHelpers.ts:157-175 | corrected: fails, with `InvalidState`, exactly when the state is invalid |
| WorkspaceStateHelpers.AssertValidAcceptsReachable | packages/domain/src/engine/services/WorkspaceStateHelpers.ts:157-175 | the corrected assertion accepts every state reached from a valid one by adding snapshots |
| WorkspaceStateHelpers.GraphIdsBounded | packages/domain/src/engine/services/WorkspaceStateHelpers.ts:193-217 | there are no more distinct graph ids than snapshots |
| WorkspaceStateHelpers.OccurrencesIsFilter | packages/domain/src/engine/services/WorkspaceStateHelpers.ts:193-217 | an operation's tally is the length of the history filtered by that operation |
| WorkspaceStateHelpers.TallyStep | packages/domain/src/engine/services/WorkspaceStateHelpers.ts:197-200 | one step of the counting `reduce` keeps the counts exact for the operations seen so far |
| WorkspaceStateHelpers.IncrementOrder | packages/domain/src/engine/services/WorkspaceStateHelpers.ts:197-200 | one `acc.set` step keeps the keys in first-occurrence order: a known operation keeps its place and a new one goes last |
| WorkspaceStateHelpers.TallyOfHistory | packages/domain/src/engine/services/WorkspaceStateHelpers.ts:193-217 | a finished tally counts each operation as often as it occurs, and covers every operation of the history |
| WorkspaceStateHelpers.ComputeWorkspaceMetrics | packages/domain/src/engine/services/WorkspaceStateHelpers.ts:193-217 | total is the history length; unique graphs is the distinct graph ids and at most the total; one count per distinct operation equal to its occurrences, summing to the total, keyed in the order each operation first occurs, as a JavaScript `Map` keeps its keys; undo depth plus redo depth plus one is the total |
| Nlp.ToUint32 | packages/domain/src/nlp/NlpGraph.ts:118-119 | a stored index is below 2^32, equal to the value when it fits, and congruent to it modulo 2^32 |
| Nlp.InsertSorted | packages/domain/src/nlp/NlpGraph.ts:159-160 | inserting an edge into a source-sorted sequence keeps it sorted |
| Nlp.SortBySourceElements | packages/domain/src/nlp/NlpGraph.ts:159-165 | the reordered edges are a permutation of the added ones, sorted by source |
| Nlp.SortBySourceStable | packages/domain/src/nlp/NlpGraph.ts:159-160 | the sort is stable: each node's edges keep the order they were added in |
| Nlp.SortBySourceIdempotent | packages/domain/src/nlp/NlpGraph.ts:156-165 | sorting twice is sorting once |
| Nlp.SortedIsFixed | packages/domain/src/nlp/NlpGraph.ts:159-160 | sorting an already sorted sequence changes nothing |
| Nlp.GrownCapacity | packages/domain/src/nlp/NlpGraph.ts:112-114 | corrected growth: a full column grows, to twice its capacity when that is positive |
| Nlp.IndexedRuns | packages/domain/src/nlp/NlpGraph.ts:167-186 | once built, each node's start and count delimit exactly its added edges, in the order added |
| Nlp.NoNeighborsOutside | packages/domain/src/nlp/NlpGraph.ts:193-199 | an id outside the stored nodes has no neighbours |
| Nlp.NeighborsMembership | packages/domain/src/nlp/NlpGraph.ts:193-211 | a node is a neighbour exactly when some edge of the requested type leads to it from the node |
| Nlp.UntypedNeighborsCount | packages/domain/src/nlp/NlpGraph.ts:197-201 | without a type, a node has one neighbour per outgoing edge |
| Nlp.NeighborsAfterSort | packages/domain/src/nlp/NlpGraph.ts:159-165 | sorting the edges changes no node's neighbours nor their order |
| Nlp.EmptyConsistent | packages/domain/src/nlp/NlpGraph.ts:51-67 | a graph without nodes and edges satisfies the graph invariant |
| Nlp.ResizeConsistent | packages/domain/src/nlp/NlpGraph.ts:73-105 | reallocating keeps the invariant and every stored node and edge |
| Nlp.ResizeIndex | packages/domain/src/nlp/NlpGraph.ts:73-105 | corrected resize: a built index still describes the stored edges after reallocation |
| Nlp.AddNodeConsistent | packages/domain/src/nlp/NlpGraph.ts:116-122 | `addNode`'s writes with room keep the invariant and append exactly the new row |
| Nlp.AddEdgeConsistent | packages/domain/src/nlp/NlpGraph.ts:141-147 | `addEdge`'s writes with room and stored endpoints keep the invariant and append exactly the new edge |
| Nlp.BuildIndexConsistent | packages/domain/src/nlp/NlpGraph.ts:155-188 | the sorted edge columns with a counted index satisfy the invariant of a built graph |
| Nlp.ResizeAsWritten | packages/domain/src/nlp/NlpGraph.ts:73-105 | as written, resize grows the attribute and edge columns but leaves the index columns at their length |
| Nlp.AddNodeAsWritten | packages/domain/src/nlp/NlpGraph.ts:111-124 | as written, the node row is stored only when it fits after doubling (never from capacity 0), and `nodeEdgeCount[id] = 0` only inside the original index length |
| Nlp.IndexOverrun | packages/domain/src/nlp/NlpGraph.ts:120 | from capacity 1, the second node's index slot does not exist, and its neighbour is lost after `buildIndex` |
| Nlp.ZeroCapacityDropsRow | packages/domain/src/nlp/NlpGraph.ts:112-114 | as written, capacity 0 doubles to 0 and the first node's row is dropped, while the corrected growth makes room |
| Nlp.NlpGraph.constructor | packages/domain/src/nlp/NlpGraph.ts:51-67 | capacities from the options (10000 by default; the edge capacity defaults to the node capacity), no nodes, no edges, index not built |
| Nlp.NlpGraph.GrowNodeColumns | packages/domain/src/nlp/NlpGraph.ts:76-89 | the node type, source index and parent columns become fresh arrays of the new capacity holding the old contents as a prefix, zero-filled after; the edge and index columns are untouched |
| Nlp.NlpGraph.GrowIndexColumns | packages/domain/src/nlp/NlpGraph.ts:76-89 | corrected resize: the two index columns become fresh arrays of the new capacity holding the old contents as a prefix, zero-filled after, with all counters unchanged |
| Nlp.NlpGraph.GrowEdgeColumns | packages/domain/src/nlp/NlpGraph.ts:91-104 | the edge columns become fresh arrays of the new capacity holding the old contents as a prefix, zero-filled after |
| Nlp.NlpGraph.Resize | packages/domain/src/nlp/NlpGraph.ts:73-105 | each group below the new capacity is reallocated; the invariant, nodes, edges and added edges are kept |
| Nlp.NlpGraph.AddNode | packages/domain/src/nlp/NlpGraph.ts:111-124 | returns the old node count, appends the row with its indices stored as `Uint32`, keeps edges, and grows a full node group to `GrownCapacity` |
| Nlp.NlpGraph.AddEdge | packages/domain/src/nlp/NlpGraph.ts:130-148 | fails once the index is built, or when an endpoint is not a stored node; otherwise returns the old edge count and appends the edge; a full edge group grows first |
| Nlp.NlpGraph.BuildIndex | packages/domain/src/nlp/NlpGraph.ts:155-188 | the stored edges become the stable sort of the added edges, every node's run is indexed, and a second call changes nothing |
| Nlp.NlpGraph.CountRuns | packages/domain/src/nlp/NlpGraph.ts:176-185 | the counting pass leaves each node's count and first position over the sorted edges |
| Nlp.NlpGraph.CountAt | packages/domain/src/nlp/NlpGraph.ts:179-183 | one pass of the counting loop extends the per-node counts and first positions from the first `i` sorted edges to the first `i + 1` |
| Nlp.NlpGraph.ReadRun | packages/domain/src/nlp/NlpGraph.ts:203-210 | the targets of the run's edges, kept when their type matches |
| Nlp.NlpGraph.IndexedNeighbors | packages/domain/src/nlp/NlpGraph.ts:193-211 | for an indexed node, the targets of its matching added edges |
| Nlp.NlpGraph.GetNeighbors | packages/domain/src/nlp/NlpGraph.ts:193-211 | fails before `buildIndex`; afterwards the targets of exactly the node's outgoing edges of the requested type, in the order added |
| GraphStateService.EmptyStore | packages/domain/src/graph/services/state.ts:26 | the new store is empty and well formed |
| GraphStateService.Put | packages/domain/src/graph/services/state.ts:32 | `set` maps the id to the graph; a new key goes last and a present key keeps its place |
| GraphStateService.Get | packages/domain/src/graph/services/state.ts:36-42 | succeeds exactly when the id is present, with its graph; otherwise `GraphNotFoundError` with that id and reason `GraphNotFound` |
| GraphStateService.Update | packages/domain/src/graph/services/state.ts:44-50 | succeeds exactly when the id is present; an absent id fails with `GraphNotFound`; the key order is kept |
| GraphStateService.List | packages/domain/src/graph/services/state.ts:52-54 | one record per key, in key order |
| GraphStateService.GetAfterPut | packages/domain/src/graph/services/state.ts:36-50 | after `set` the id finds the new graph and every other id finds what it found before |
| GraphStateService.UpdateOthersUnchanged | packages/domain/src/graph/services/state.ts:49 | an update stores `f(old)` under the id and touches no other id |
| GraphStateService.ListedExactly | packages/domain/src/graph/services/state.ts:52-54 | the listing has one record per stored graph and names exactly the stored ids |
| GraphStateService.KeysCardinality | packages/domain/src/graph/services/state.ts:52-54 | the key order lists as many keys as the map has entries |
| GraphStateService.CreateAddsOne | packages/domain/src/graph/services/state.ts:28-34 | a fresh id adds exactly one entry and one record, the last |
| GraphStateService.GraphStateServiceLive.constructor | packages/domain/src/graph/services/state.ts:26 | the service starts with the empty store |
| GraphStateService.GraphStateServiceLive.CreateGraph | packages/domain/src/graph/services/state.ts:28-34 | the id is `graph-` plus the uuid, the graph is new and empty with default capacities, and the store gains it |
| GraphStateService.GraphStateServiceLive.GetGraph | packages/domain/src/graph/services/state.ts:36-42 | the stored graph, or `GraphNotFoundError` |
| GraphStateService.GraphStateServiceLive.UpdateGraph | packages/domain/src/graph/services/state.ts:44-50 | an absent id fails and leaves the store unchanged; a present one stores `f(old)` |
| GraphStateService.GraphStateServiceLive.ListGraphs | packages/domain/src/graph/services/state.ts:52-54 | one record per stored graph, naming exactly the stored ids |
| GraphDataAdapter.SampleSectionsShape | packages/web/src/services/GraphDataAdapter.ts:184-249 | four sample sections at levels 0 to 3 in order, without node ids, with 3, 6, 6 and 17 items |
| GraphDataAdapter.PartsOrdered | packages/web/src/services/GraphDataAdapter.ts:35-171 | the built sections come in strictly increasing level order, and there are none exactly when the graph has no document or canonical entity |
| GraphDataAdapter.DocumentTitles | packages/web/src/services/GraphDataAdapter.ts:35-67 | each document item is its source node's URI, or `Untitled` when it is empty |
| GraphDataAdapter.BuiltSections | packages/web/src/services/GraphDataAdapter.ts:35-171 | a level-0 section exists exactly when a source document exists, levels 1-3 exactly when a canonical entity exists; every section has one item per node id, the ids of its nodes |
| GraphDataAdapter.ExtractDataSections | packages/web/src/services/GraphDataAdapter.ts:26-179 | the sections are level-ordered; without documents and entities they are the four samples, otherwise the built sections |
| GraphDataAdapter.ExtractTransformations | packages/web/src/services/GraphDataAdapter.ts:255-280 | the default table entry for levels 0 to 3, otherwise none |
| GraphDataAdapter.TransformationsIgnoreGraph | packages/web/src/services/GraphDataAdapter.ts:255-270 | the result does not depend on the graph, and has one entry exactly for levels 0 to 3 |
| GraphDataAdapter.FirstSchemaNode | packages/web/src/services/GraphDataAdapter.ts:287-292 | some schema node of the list exactly when the list has one |
| GraphDataAdapter.ExtractSchemaInfo | packages/web/src/services/GraphDataAdapter.ts:285-315 | with a schema node, type `Level` plus the level; without one, the default for levels 0 to 3 and null otherwise |
| GraphDataAdapter.SchemaInfoDefined | packages/web/src/services/GraphDataAdapter.ts:285-315 | without schema nodes there is information exactly for levels 0 to 3 |
| FileUpload.ToLower | packages/web/src/components/FileUpload.tsx:14 | same length, each character lowercased |
| FileUpload.LastIndexOf | packages/web/src/components/FileUpload.tsx:14 | -1 exactly when the character is absent, otherwise its last position |
| FileUpload.Substring | packages/web/src/components/FileUpload.tsx:14 | a negative start gives the whole string, a start past the end the empty one, otherwise the suffix |
| FileUpload.ExtensionFromLastDot | packages/web/src/components/FileUpload.tsx:14 | the extension is the lowercased suffix from the last dot |
| FileUpload.LastDotDecides | packages/web/src/components/FileUpload.tsx:10-16 | a file is accepted exactly when its lowercased suffix from the last dot is an allowed type and its size is at most 10 MiB |
| FileUpload.NoDotRejected | packages/web/src/components/FileUpload.tsx:14 | a name without a dot is rejected |
| FileUpload.CaseInsensitive | packages/web/src/components/FileUpload.tsx:14 | a name and its lowercase form are judged alike |
| FileUpload.UpperCaseAccepted | packages/web/src/components/FileUpload.tsx:14 | `A.TXT` is accepted |
| FileUpload.InnerDotRejected | packages/web/src/components/FileUpload.tsx:14 | `x.json.exe` is rejected |
| FileUpload.LastDotAccepted | packages/web/src/components/FileUpload.tsx:14 | `x.tar.md` is accepted |
| FileUpload.SizeBoundary | packages/web/src/components/FileUpload.tsx:12-15 | exactly 10 MiB is accepted and one byte more is rejected |
| FileUpload.ToHex | packages/web/src/components/FileUpload.tsx:22 | at least one hex digit |
| FileUpload.PadStart | packages/web/src/components/FileUpload.tsx:22 | the padded string has the target width (or the string's own), ends with the string and is filled on the left |
| FileUpload.ByteHexDigits | packages/web/src/components/FileUpload.tsx:22 | every byte renders as its high and low hex digit |
| FileUpload.HexShape | packages/web/src/components/FileUpload.tsx:22-23 | two lowercase hex digits per byte |
| FileUpload.HexRoundTrip | packages/web/src/components/FileUpload.tsx:22-23 | reading the digits back gives the bytes |
| FileUpload.HexInjective | packages/web/src/components/FileUpload.tsx:22-23 | different byte strings render differently |

## Left out

- The Effect runtime: layers, `Ref` cells (modelled as class fields), `PubSub` change events, streams, logging, and the atomicity of `Ref.modify` under concurrent commits. The model is sequential.
- Clocks and randomness: `DateTime.now` timestamps, the node factories' `createdAt` and `crypto.randomUUID` are parameters.
- `getRecentSnapshots` depends on the clock and a duration; it is not modelled. Neither are the `withWorkspaceLogging` and `withWorkspaceRetry` wrappers or the runtime and reactive modules.
- The schema serialisation of the node module (encode, decode, JSON, JSON Schema, arbitraries) wraps a library whose behaviour is not visible.
- `NodeEquivalence` and `NodeOrdering` are declared as datatypes only; the source gives them no behaviour.
- Symbol ids are their description strings, and JavaScript `Map` order is a sequence of keys in insertion order.
- Composition.FirstFrontier: the node store is an Effect `HashMap`, iterated in hash order, and the model keeps its nodes in insertion order. So when a graph has two or more frontier schema nodes, `transform` may attach the strategy to a different one than the source does. A chain built by `from` and `transform` has a single frontier, so this does not affect it. For the same reason, the order of `data` and `nodeIds` inside each built section (GraphDataAdapter.DocumentNodes, GraphDataAdapter.EntityNodes) may differ from the source's.
- The tree fold in graph.ts refers to names it does not bind. It is modelled as the fold its documentation describes, over a rose tree of nodes. Cyclic graphs are not modelled. The schema declares `children` as an array of nodes and `addChild` takes a single node. TreeGraph.AddChild instead takes a whole subtree, so the source's `addChild(node)` corresponds to adding the leaf `Tree(node, [])`.
- The node store that `Composition.ts` calls (`fromNodes`, `addNode`, `addEdge`) is not defined in the shown graph code. `StoreGraph` models only what `Composition.ts` needs: insert with overwrite by id, and append for edges. `filter`, `find`, `sort` and the memoised folds are left out.
- Composition.Transform: the new schema id comes from the output schema's annotation in the source. It is a parameter here, and freshness is a precondition of the lemmas that count nodes. The source reads that id from `strategy.outputSchema.ast.annotations._tag` and passes it to the validating `SchemaNode` constructor. So an output schema without a string `_tag` annotation, such as `Schema.Number`, makes `transform` throw there. The model has no such failure path, because any `newSchemaId` is accepted.
- Nlp.NlpGraph.AddEdge: endpoints are natural numbers. A negative id would pass the source's check and wrap when stored in a `Uint32Array`.
- Nlp.NlpGraph.BuildIndex: the index counts are unbounded. The source's `Uint32` counters wrap only beyond 2^32 edges.
- Nlp.NlpGraph.constructor: capacities are natural numbers. A negative or fractional capacity throws `RangeError` in the source.
- Nlp.NlpGraph.GetNeighbors returns a copy of the targets. The source returns a `subarray` view that shares storage with the edge column.
- The first index write of `buildIndex`, `nodeEdgeStartIndex[first] = 0`, follows a `fill(0)` and changes nothing, so it is not a separate step.
- Node ids and levels are integers. Fractional numbers are not modelled.
- GraphStateService.Update: the update function is a pure function. An effectful or throwing `f` is not modelled.
- A workspace snapshot's operation is a free string. Snapshot metadata beyond graph, timestamp and operation is not modelled.
- A workspace snapshot holds the composition graph (`StoreGraph.Graph`), where the source's snapshot type names graph.ts's `Graph`. The workspace reads nothing of the graph but its id.
- WorkspaceStateService.WorkspaceController.CommitGraph: `operation` is a required parameter. The source's default, `"transform"`, is what a caller passes when it omits it.
- FileUpload.ToLower lowercases ASCII letters only. Unicode case mapping, including mappings that change length, is left out.
- The SHA-256 digest, `FileReader`, progress ratios and React state of the upload component are left out. Only the hex rendering of the digest bytes is modelled.
- The NLP pipeline on wink-nlp and BM25, the worker protocol, and defect handling are left out. They are foreign library calls, floating point or concurrency.

## Findings

| source | as written | input that shows it | evidently intended | confidence | as-written member | corrected member |
|---|---|---|---|---|---|---|
| packages/domain/src/nlp/NlpGraph.ts:73-105 | `resize` reallocates the node attribute and edge columns but not `nodeEdgeStartIndex`/`nodeEdgeCount`, so `nodeEdgeCount[nodeId] = 0` (line 120) and the counting loop (lines 181-184) write past the end of the index once `nodeCount` exceeds the initial capacity | capacity 1: add nodes 0 and 1, add edge 1 to 0, build the index; `getNeighbors(1)` returns nothing instead of `[0]` | the index columns grow with the node columns | not executed | Nlp.AddNodeAsWritten, Nlp.IndexOverrun | Nlp.NlpGraph.Resize, Nlp.NlpGraph.GrowIndexColumns, Nlp.ResizeIndex |
| packages/domain/src/nlp/NlpGraph.ts:112-114 | a full column is resized to `capacity * 2`, which is 0 when the capacity is 0 (also lines 134-136 for edges), so the first write is dropped | `new NlpGraph({nodeCapacity: 0})` then `addNode(...)` | a full column always gains room | not executed | Nlp.ZeroCapacityDropsRow | Nlp.GrownCapacity, Nlp.NlpGraph.AddNode |
| packages/domain/src/engine/services/WorkspaceStateHelpers.ts:157-175 | `assertValidWorkspaceState` fails with `InvalidState` when the state is valid and succeeds when it is invalid | the empty workspace state (valid) is rejected | fail exactly on an invalid state | not executed | WorkspaceStateHelpers.AssertValidWorkspaceStateAsWritten, WorkspaceStateHelpers.AssertValidRejectsEmpty | WorkspaceStateHelpers.AssertValidWorkspaceState, WorkspaceStateHelpers.AssertValidAcceptsReachable |
