/**
 * The bounded undo/redo history of engine/services/WorkspaceStateService.ts:
 * the immutable `WorkspaceState` and its transitions, and the
 * `WorkspaceController` that keeps the current state in a mutable cell.
 *
 * Timestamps are the clock readings passed in; snapshot metadata is left out.
 */
module WorkspaceStateService {
  import opened Wrappers
  import opened StoreGraph

  type Timestamp = int

  /** `GraphSnapshot`; `operation` is the free string `commitGraph` is given. */
  datatype GraphSnapshot = GraphSnapshot(graph: Graph, timestamp: Timestamp, operation: string)

  datatype WorkspaceState = WorkspaceState(history: seq<GraphSnapshot>, currentIndex: int, maxHistorySize: int)

  const DefaultMaxHistorySize: int := 100

  /** `WorkspaceState.empty`. */
  const Empty: WorkspaceState := WorkspaceState([], -1, DefaultMaxHistorySize)

  datatype WorkspaceErrorReason = NoGraphInWorkspace | InvalidState

  /** `WorkspaceError`; `context` records the index and history length when present. */
  datatype WorkspaceError = WorkspaceError(reason: WorkspaceErrorReason, context: Option<(int, int)>)

  /** `Chunk.get`: `None` outside the chunk. */
  function Get<T>(s: seq<T>, i: int): (r: Option<T>)
    ensures r.Some? <==> 0 <= i < |s|
    ensures r.Some? ==> r.value == s[i]
  {
    if 0 <= i < |s| then Some(s[i]) else None
  }

  /** `Chunk.take(n)`. */
  function Take<T>(s: seq<T>, n: int): seq<T>
  {
    if n <= 0 then [] else if n >= |s| then s else s[..n]
  }

  /** `Chunk.drop(n)`. */
  function Drop<T>(s: seq<T>, n: int): seq<T>
  {
    if n <= 0 then s else if n >= |s| then [] else s[n..]
  }

  predicate CanUndo(s: WorkspaceState)
  {
    s.currentIndex > 0
  }

  predicate CanRedo(s: WorkspaceState)
  {
    s.currentIndex < |s.history| - 1
  }

  /** `currentSnapshot`: nothing at index -1 or outside the history. */
  function CurrentSnapshot(s: WorkspaceState): (r: Option<GraphSnapshot>)
    ensures r.Some? <==> 0 <= s.currentIndex < |s.history|
    ensures r.Some? ==> r.value == s.history[s.currentIndex]
  {
    if s.currentIndex == -1 then None else Get(s.history, s.currentIndex)
  }

  /** The newest `limit` entries of `xs` (none when `limit` is not positive). */
  function Newest<T>(xs: seq<T>, limit: int): seq<T>
  {
    var n := if limit <= 0 then 0 else if limit < |xs| then limit else |xs|;
    xs[|xs| - n..]
  }

  /** The snapshots up to and including the current one. */
  function UpToCurrent(s: WorkspaceState): seq<GraphSnapshot>
  {
    var n := if s.currentIndex + 1 <= 0 then 0
             else if s.currentIndex + 1 >= |s.history| then |s.history|
             else s.currentIndex + 1;
    s.history[..n]
  }

  /**
   * `addSnapshot`: the snapshots after the current one are discarded, the new
   * one appended, and only the newest `maxHistorySize` kept; the index moves
   * to the last entry.
   */
  function AddSnapshot(s: WorkspaceState, snapshot: GraphSnapshot): (r: WorkspaceState)
    ensures r.history == Newest(UpToCurrent(s) + [snapshot], s.maxHistorySize)
    ensures r.currentIndex == |r.history| - 1 && !CanRedo(r)
    ensures r.maxHistorySize == s.maxHistorySize
    ensures s.maxHistorySize >= 1 ==> CurrentSnapshot(r) == Some(snapshot)
  {
    var newHistory := if s.currentIndex == |s.history| - 1 then s.history + [snapshot]
                      else Take(s.history, s.currentIndex + 1) + [snapshot];
    assert newHistory == UpToCurrent(s) + [snapshot];
    var trimmed := if |newHistory| > s.maxHistorySize then Drop(newHistory, |newHistory| - s.maxHistorySize)
                   else newHistory;
    WorkspaceState(trimmed, |trimmed| - 1, s.maxHistorySize)
  }

  /** At the tip with room left, `addSnapshot` just appends. */
  lemma AddAtTip(s: WorkspaceState, snapshot: GraphSnapshot)
    requires s.currentIndex == |s.history| - 1 && |s.history| < s.maxHistorySize
    ensures AddSnapshot(s, snapshot).history == s.history + [snapshot]
  {
    assert UpToCurrent(s) == s.history;
  }

  /** Branching from the middle discards the redo entries: A, B, C at B then D gives A, B, D. */
  lemma AddFromMiddle(s: WorkspaceState, snapshot: GraphSnapshot)
    requires 0 <= s.currentIndex < |s.history| - 1 && s.currentIndex + 1 < s.maxHistorySize
    ensures AddSnapshot(s, snapshot).history == s.history[..s.currentIndex + 1] + [snapshot]
  {
    var kept := s.history[..s.currentIndex + 1] + [snapshot];
    assert UpToCurrent(s) + [snapshot] == kept;
    assert Newest(kept, s.maxHistorySize) == kept[0..];
  }

  /** `moveToPrevious`: the snapshot it moves to, and the new state. */
  function MoveToPrevious(s: WorkspaceState): (r: (Option<GraphSnapshot>, WorkspaceState))
    ensures r.1.history == s.history && r.1.maxHistorySize == s.maxHistorySize
    ensures r.1.currentIndex == if CanUndo(s) then s.currentIndex - 1 else s.currentIndex
    ensures r.0.Some? <==> CanUndo(s) && s.currentIndex - 1 < |s.history|
    ensures r.0.Some? ==> r.0.value == s.history[r.1.currentIndex]
  {
    if !CanUndo(s) then (None, s)
    else
      var newIndex := s.currentIndex - 1;
      (Get(s.history, newIndex), s.(currentIndex := newIndex))
  }

  /** `moveToNext`: the snapshot it moves to, and the new state. */
  function MoveToNext(s: WorkspaceState): (r: (Option<GraphSnapshot>, WorkspaceState))
    ensures r.1.history == s.history && r.1.maxHistorySize == s.maxHistorySize
    ensures r.1.currentIndex == if CanRedo(s) then s.currentIndex + 1 else s.currentIndex
    ensures r.0.Some? <==> CanRedo(s) && s.currentIndex + 1 >= 0
    ensures r.0.Some? ==> r.0.value == s.history[r.1.currentIndex]
  {
    if !CanRedo(s) then (None, s)
    else
      var newIndex := s.currentIndex + 1;
      (Get(s.history, newIndex), s.(currentIndex := newIndex))
  }

  /** Undo then redo comes back to the same state and hands back the snapshot undo left. */
  lemma UndoThenRedo(s: WorkspaceState)
    requires CanUndo(s) && s.currentIndex < |s.history|
    ensures var (_, mid) := MoveToPrevious(s);
            MoveToNext(mid) == (Some(s.history[s.currentIndex]), s)
  {
  }

  /** Redo then undo comes back to the same state. */
  lemma RedoThenUndo(s: WorkspaceState)
    requires CanRedo(s) && s.currentIndex >= 0
    ensures var (_, mid) := MoveToNext(s);
            MoveToPrevious(mid) == (Some(s.history[s.currentIndex]), s)
  {
  }

  /** `clear`: back to the empty state, whose maximum is the default whatever it was before. */
  function Clear(s: WorkspaceState): (r: WorkspaceState)
    ensures r.history == [] && r.currentIndex == -1 && CurrentSnapshot(r).None?
    ensures r.maxHistorySize == DefaultMaxHistorySize
  {
    Empty
  }

  /** The `getCurrentGraph` pipeline. */
  function CurrentGraph(s: WorkspaceState): (r: Result<Graph, WorkspaceError>)
    ensures r.Failure? <==> CurrentSnapshot(s).None?
    ensures r.Failure? ==> r.error.reason == NoGraphInWorkspace
    ensures r.Success? ==> r.value == s.history[s.currentIndex].graph
  {
    match CurrentSnapshot(s)
    case None => Failure(WorkspaceError(NoGraphInWorkspace, None))
    case Some(snapshot) => Success(snapshot.graph)
  }

  datatype WorkspaceStats = WorkspaceStats(
    totalGraphs: nat,
    currentIndex: int,
    canUndo: bool,
    canRedo: bool,
    oldestGraph: Option<Timestamp>,
    newestGraph: Option<Timestamp>)

  /** `computeStats`: the size, cursor and first and last timestamps of the history. */
  function ComputeStats(s: WorkspaceState): (r: WorkspaceStats)
    ensures r.totalGraphs == |s.history| && r.currentIndex == s.currentIndex
    ensures r.canUndo == CanUndo(s) && r.canRedo == CanRedo(s)
    ensures r.oldestGraph.Some? <==> s.history != []
    ensures r.newestGraph.Some? <==> s.history != []
    ensures s.history != [] ==> r.oldestGraph.value == s.history[0].timestamp
                                && r.newestGraph.value == s.history[|s.history| - 1].timestamp
  {
    var timestamps := seq(|s.history|, i requires 0 <= i < |s.history| => s.history[i].timestamp);
    WorkspaceStats(|s.history|, s.currentIndex, CanUndo(s), CanRedo(s),
                   if timestamps == [] then None else Some(timestamps[0]),
                   if timestamps == [] then None else Some(timestamps[|timestamps| - 1]))
  }

  /**
   * `WorkspaceController`: the operations of the service over one mutable
   * state cell. Publishing to the graph and event streams and logging are left out.
   */
  class WorkspaceController {
    var state: WorkspaceState

    /** The live layer starts from `WorkspaceState.empty`. */
    constructor()
      ensures state == Empty
    {
      state := Empty;
    }

    /** A controller over a given initial state (the test layer starts with a maximum of 10). */
    constructor FromState(initial: WorkspaceState)
      ensures state == initial
    {
      state := initial;
    }

    method GetCurrentGraph() returns (r: Result<Graph, WorkspaceError>)
      ensures r.Failure? <==> CurrentSnapshot(state).None?
      ensures r.Failure? ==> r.error.reason == NoGraphInWorkspace
      ensures r.Success? ==> r.value == state.history[state.currentIndex].graph
    {
      r := CurrentGraph(state);
    }

    method GetHistory() returns (h: seq<GraphSnapshot>)
      ensures h == state.history
    {
      h := state.history;
    }

    method GetStats() returns (stats: WorkspaceStats)
      ensures stats == ComputeStats(state)
      ensures stats.totalGraphs == |state.history|
    {
      stats := ComputeStats(state);
    }

    /**
     * `commitGraph`: record `graph` under `operation` at the clock reading
     * `timestamp`. A caller that leaves out the operation in the source gets
     * `"transform"`, so it passes that here.
     */
    method CommitGraph(graph: Graph, operation: string, timestamp: Timestamp) returns (snapshot: GraphSnapshot)
      modifies this
      ensures snapshot == GraphSnapshot(graph, timestamp, operation)
      ensures state == AddSnapshot(old(state), snapshot)
    {
      snapshot := GraphSnapshot(graph, timestamp, operation);
      state := AddSnapshot(state, snapshot);
    }

    method Undo() returns (r: Option<Graph>)
      modifies this
      ensures state == MoveToPrevious(old(state)).1
      ensures r.Some? <==> MoveToPrevious(old(state)).0.Some?
      ensures r.Some? ==> r.value == MoveToPrevious(old(state)).0.value.graph
    {
      var (snapshot, next) := MoveToPrevious(state);
      state := next;
      r := if snapshot.Some? then Some(snapshot.value.graph) else None;
    }

    method Redo() returns (r: Option<Graph>)
      modifies this
      ensures state == MoveToNext(old(state)).1
      ensures r.Some? <==> MoveToNext(old(state)).0.Some?
      ensures r.Some? ==> r.value == MoveToNext(old(state)).0.value.graph
    {
      var (snapshot, next) := MoveToNext(state);
      state := next;
      r := if snapshot.Some? then Some(snapshot.value.graph) else None;
    }

    method ClearHistory()
      modifies this
      ensures state == Empty
    {
      state := Empty;
    }
  }
}
