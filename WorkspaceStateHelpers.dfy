/**
 * The pure helpers of engine/services/WorkspaceStateHelpers.ts over
 * `WorkspaceState`: batch insertion, navigation, history queries, state
 * validation and workspace metrics.
 */
module WorkspaceStateHelpers {
  import opened Wrappers
  import opened Seqs
  import opened StoreGraph
  import opened WorkspaceStateService

  /** `addSnapshots(snapshots)(state)`: `addSnapshot` folded over the snapshots, left to right. */
  function AddSnapshots(s: WorkspaceState, snapshots: seq<GraphSnapshot>): WorkspaceState
    decreases |snapshots|
  {
    if snapshots == [] then s else AddSnapshots(AddSnapshot(s, snapshots[0]), snapshots[1..])
  }

  /** Keeping the newest entries twice is keeping them once from the whole. */
  lemma NewestAppend<T>(a: seq<T>, b: seq<T>, limit: int)
    ensures Newest(Newest(a, limit) + b, limit) == Newest(a + b, limit)
  {
    var na := Newest(a, limit);
    var lhs := Newest(na + b, limit);
    var rhs := Newest(a + b, limit);
    assert |lhs| == |rhs|;
    forall i | 0 <= i < |lhs| ensures lhs[i] == rhs[i] {
      var k := |na + b| - |lhs| + i;
      var m := |a + b| - |rhs| + i;
      if k < |na| {
        assert lhs[i] == na[k] == a[|a| - |na| + k];
      } else {
        assert lhs[i] == b[k - |na|];
      }
    }
  }

  lemma AppendHead<T>(a: seq<T>, b: seq<T>)
    requires b != []
    ensures a + [b[0]] + b[1..] == a + b
  {
    assert [b[0]] + b[1..] == b;
  }

  /**
   * From a state whose cursor is on its last entry (every state `addSnapshot`
   * returns, and the empty one), adding a batch keeps the newest
   * `maxHistorySize` of the old history followed by the batch, and leaves the
   * cursor on the last of them.
   */
  lemma {:induction false} AddSnapshotsKeepsNewest(s: WorkspaceState, snapshots: seq<GraphSnapshot>)
    requires s.currentIndex == |s.history| - 1
    requires |s.history| <= s.maxHistorySize || s.history == []
    ensures AddSnapshots(s, snapshots).history == Newest(s.history + snapshots, s.maxHistorySize)
    ensures AddSnapshots(s, snapshots).currentIndex == |AddSnapshots(s, snapshots).history| - 1
    ensures AddSnapshots(s, snapshots).maxHistorySize == s.maxHistorySize
    decreases |snapshots|
  {
    var max := s.maxHistorySize;
    if snapshots == [] {
      assert s.history + snapshots == s.history;
    } else {
      var s1 := AddSnapshot(s, snapshots[0]);
      assert s1.history == Newest(s.history + [snapshots[0]], max) by {
        assert UpToCurrent(s) == s.history;
      }
      assert |s1.history| <= max || s1.history == [];
      AddSnapshotsKeepsNewest(s1, snapshots[1..]);
      assert AddSnapshots(s, snapshots) == AddSnapshots(s1, snapshots[1..]);
      assert Newest(s1.history + snapshots[1..], max) == Newest(s.history + snapshots, max) by {
        NewestAppend(s.history + [snapshots[0]], snapshots[1..], max);
        AppendHead(s.history, snapshots);
      }
    }
  }

  /** Fifteen commits into an empty history whose maximum is 10 leave the last ten, newest current. */
  lemma TrimToLastTen(snapshots: seq<GraphSnapshot>)
    requires |snapshots| == 15
    ensures var r := AddSnapshots(WorkspaceState([], -1, 10), snapshots);
            r.history == snapshots[5..] && CurrentSnapshot(r) == Some(snapshots[14])
  {
    AddSnapshotsKeepsNewest(WorkspaceState([], -1, 10), snapshots);
    assert [] + snapshots == snapshots;
  }

  /** `navigateToIndex(target)`. */
  function NavigateToIndex(s: WorkspaceState, target: int): (r: (Option<GraphSnapshot>, WorkspaceState))
    ensures !(0 <= target < |s.history|) ==> r == (None, s)
    ensures 0 <= target < |s.history| ==>
              && r.0 == Some(s.history[target])
              && r.1.currentIndex == target
              && r.1.history == s.history && r.1.maxHistorySize == s.maxHistorySize
  {
    if target < 0 || target >= |s.history| then (None, s)
    else (Get(s.history, target), s.(currentIndex := target))
  }

  function OperationIs(operation: string): GraphSnapshot -> bool
  {
    (snapshot: GraphSnapshot) => snapshot.operation == operation
  }

  function GraphIdIs(graphId: string): GraphSnapshot -> bool
  {
    (snapshot: GraphSnapshot) => snapshot.graph.id == graphId
  }

  /** `filterHistoryByOperation(operation)`. */
  function FilterHistoryByOperation(s: WorkspaceState, operation: string): (r: seq<GraphSnapshot>)
    ensures forall x :: x in r ==> x in s.history && x.operation == operation
    ensures forall x :: x in s.history && x.operation == operation ==> x in r
  {
    Filter(s.history, OperationIs(operation))
  }

  /** `findSnapshotsByGraphId(graphId)`. */
  function FindSnapshotsByGraphId(s: WorkspaceState, graphId: string): (r: seq<GraphSnapshot>)
    ensures forall x :: x in r ==> x in s.history && x.graph.id == graphId
    ensures forall x :: x in s.history && x.graph.id == graphId ==> x in r
  {
    Filter(s.history, GraphIdIs(graphId))
  }

  /** Both queries keep the history's order: their results are subsequences of it. */
  lemma QueriesAreSubsequences(s: WorkspaceState, operation: string, graphId: string)
    ensures IsSubsequence(FilterHistoryByOperation(s, operation), s.history)
    ensures IsSubsequence(FindSnapshotsByGraphId(s, graphId), s.history)
  {
    FilterIsSubsequence(s.history, OperationIs(operation));
    FilterIsSubsequence(s.history, GraphIdIs(graphId));
  }

  /** `validateWorkspaceState`: the three checks of the source, all of which must pass. */
  predicate ValidateWorkspaceState(s: WorkspaceState)
  {
    && (s.currentIndex >= -1 && s.currentIndex < |s.history|)
    && |s.history| <= s.maxHistorySize
    && (s.currentIndex == -1 || Get(s.history, s.currentIndex).Some?)
  }

  /** The third check is implied by the first: validity is the index range plus the size bound. */
  lemma ValidateIff(s: WorkspaceState)
    ensures ValidateWorkspaceState(s) <==> -1 <= s.currentIndex < |s.history| <= s.maxHistorySize
  {
  }

  /** Every transition of `WorkspaceState` keeps a valid state valid. */
  lemma AddSnapshotPreservesValid(s: WorkspaceState, snapshot: GraphSnapshot)
    requires ValidateWorkspaceState(s)
    ensures ValidateWorkspaceState(AddSnapshot(s, snapshot))
  {
  }

  lemma MovesPreserveValid(s: WorkspaceState, target: int)
    requires ValidateWorkspaceState(s)
    ensures ValidateWorkspaceState(MoveToPrevious(s).1)
    ensures ValidateWorkspaceState(MoveToNext(s).1)
    ensures ValidateWorkspaceState(NavigateToIndex(s, target).1)
    ensures ValidateWorkspaceState(Clear(s))
  {
  }

  lemma {:induction false} AddSnapshotsPreservesValid(s: WorkspaceState, snapshots: seq<GraphSnapshot>)
    requires ValidateWorkspaceState(s)
    ensures ValidateWorkspaceState(AddSnapshots(s, snapshots))
    decreases |snapshots|
  {
    if snapshots != [] {
      AddSnapshotPreservesValid(s, snapshots[0]);
      AddSnapshotsPreservesValid(AddSnapshot(s, snapshots[0]), snapshots[1..]);
    }
  }

  function InvalidStateError(s: WorkspaceState): WorkspaceError
  {
    WorkspaceError(InvalidState, Some((s.currentIndex, |s.history|)))
  }

  /**
   * `assertValidWorkspaceState` as written: `Effect.if` with the branches
   * swapped, so it fails exactly on a valid state.
   */
  function AssertValidWorkspaceStateAsWritten(s: WorkspaceState): (r: Result<(), WorkspaceError>)
    ensures r.Failure? <==> ValidateWorkspaceState(s)
  {
    if ValidateWorkspaceState(s) then Failure(InvalidStateError(s)) else Success(())
  }

  /** The freshly cleared workspace is valid, yet the as-written check rejects it. */
  lemma AssertValidRejectsEmpty()
    ensures ValidateWorkspaceState(Empty)
    ensures AssertValidWorkspaceStateAsWritten(Empty).Failure?
  {
  }

  /** `assertValidWorkspaceState` as documented: fail with `InvalidState` on an invalid state only. */
  function AssertValidWorkspaceState(s: WorkspaceState): (r: Result<(), WorkspaceError>)
    ensures r.Failure? <==> !ValidateWorkspaceState(s)
    ensures r.Failure? ==> r.error.reason == InvalidState
                           && r.error.context == Some((s.currentIndex, |s.history|))
  {
    if ValidateWorkspaceState(s) then Success(()) else Failure(InvalidStateError(s))
  }

  /** With the branches in order, no state reachable by the transitions from a valid one fails. */
  lemma AssertValidAcceptsReachable(s: WorkspaceState, snapshots: seq<GraphSnapshot>)
    requires ValidateWorkspaceState(s)
    ensures AssertValidWorkspaceState(AddSnapshots(s, snapshots)).Success?
  {
    AddSnapshotsPreservesValid(s, snapshots);
  }

  /** One entry of the insertion-ordered `operationCounts` map. */
  datatype OperationCount = OperationCount(operation: string, count: nat)

  datatype WorkspaceMetrics = WorkspaceMetrics(
    totalSnapshots: nat,
    uniqueGraphs: nat,
    operationCounts: seq<OperationCount>,
    currentPosition: int,
    undoDepth: int,
    redoDepth: int)

  function Operations(counts: seq<OperationCount>): seq<string>
  {
    Map(counts, (c: OperationCount) => c.operation)
  }

  function Counts(counts: seq<OperationCount>): seq<int>
  {
    Map(counts, (c: OperationCount) => c.count as int)
  }

  predicate DistinctOperations(counts: seq<OperationCount>)
  {
    forall i, j :: 0 <= i < j < |counts| ==> counts[i].operation != counts[j].operation
  }

  /** Where `operation`'s entry sits, or `|counts|`. */
  function OperationPosition(counts: seq<OperationCount>, operation: string): (i: nat)
    ensures i <= |counts|
    ensures i < |counts| ==> counts[i].operation == operation
    ensures i == |counts| ==> forall j :: 0 <= j < |counts| ==> counts[j].operation != operation
  {
    if counts == [] then 0
    else if counts[0].operation == operation then 0
    else 1 + OperationPosition(counts[1..], operation)
  }

  lemma SumIncrement(xs: seq<int>, i: nat)
    requires i < |xs|
    ensures Sum(xs[i := xs[i] + 1]) == Sum(xs) + 1
  {
    var ys := xs[i := xs[i] + 1];
    assert xs == xs[..i] + [xs[i]] + xs[i + 1..];
    assert ys == xs[..i] + [xs[i] + 1] + xs[i + 1..];
    SumAppend(xs[..i] + [xs[i]], xs[i + 1..]);
    SumAppend(xs[..i], [xs[i]]);
    SumAppend(xs[..i] + [xs[i] + 1], xs[i + 1..]);
    SumAppend(xs[..i], [xs[i] + 1]);
  }

  /** How many times `operation` occurs among `ops`. */
  function Occurrences(ops: seq<string>, operation: string): nat
  {
    if ops == [] then 0
    else (if ops[0] == operation then 1 else 0) + Occurrences(ops[1..], operation)
  }

  lemma {:induction false} OccurrencesSnoc(ops: seq<string>, o: string, operation: string)
    ensures Occurrences(ops + [o], operation) == Occurrences(ops, operation) + (if o == operation then 1 else 0)
  {
    if ops != [] {
      assert (ops + [o])[1..] == ops[1..] + [o];
      OccurrencesSnoc(ops[1..], o, operation);
    }
  }

  lemma OccurrencesPositive(ops: seq<string>, operation: string)
    requires operation in ops
    ensures Occurrences(ops, operation) > 0
  {
  }

  lemma {:induction false} OccurrencesAbsent(ops: seq<string>, operation: string)
    requires forall k :: 0 <= k < |ops| ==> ops[k] != operation
    ensures Occurrences(ops, operation) == 0
  {
    if ops != [] {
      OccurrencesAbsent(ops[1..], operation);
    }
  }

  function GraphIdOf(snapshot: GraphSnapshot): string
  {
    snapshot.graph.id
  }

  /** The ids of the graphs the history holds snapshots of. */
  function GraphIds(history: seq<GraphSnapshot>): set<string>
  {
    set x | x in history :: x.graph.id
  }

  lemma GraphIdsBounded(history: seq<GraphSnapshot>)
    ensures |GraphIds(history)| <= |history|
  {
    ImageCardinality(history, GraphIdOf);
    assert GraphIds(history) == Image(history, GraphIdOf);
  }

  function OperationOf(snapshot: GraphSnapshot): string
  {
    snapshot.operation
  }

  /** Counting an operation over the history's operations is filtering the history by it. */
  lemma {:induction false} OccurrencesIsFilter(history: seq<GraphSnapshot>, operation: string)
    ensures Occurrences(Map(history, OperationOf), operation) == |Filter(history, OperationIs(operation))|
  {
    if history != [] {
      assert Map(history, OperationOf)[1..] == Map(history[1..], OperationOf);
      OccurrencesIsFilter(history[1..], operation);
    }
  }

  /** `counts` is the tally of `ops`: one entry per distinct operation, each counting its occurrences, counts summing to `|ops|`. */
  predicate Tallies(counts: seq<OperationCount>, ops: seq<string>)
  {
    && DistinctOperations(counts)
    && (forall c :: c in counts ==> c.count == Occurrences(ops, c.operation) > 0)
    && (forall k :: 0 <= k < |ops| ==> ops[k] in Operations(counts))
    && Sum(Counts(counts)) == |ops|
  }

  /** The distinct operations of `ops`, each placed where it first occurs. */
  function FirstOccurrences(ops: seq<string>): seq<string>
  {
    if ops == [] then []
    else
      var earlier := FirstOccurrences(ops[..|ops| - 1]);
      if ops[|ops| - 1] in earlier then earlier else earlier + [ops[|ops| - 1]]
  }

  /** One step of the reduce: bump the operation's entry, or append a fresh one. */
  function Increment(counts: seq<OperationCount>, operation: string): seq<OperationCount>
  {
    var p := OperationPosition(counts, operation);
    if p < |counts| then counts[p := OperationCount(operation, counts[p].count + 1)]
    else counts + [OperationCount(operation, 1)]
  }

  lemma IncrementDistinct(counts: seq<OperationCount>, operation: string)
    requires DistinctOperations(counts)
    ensures DistinctOperations(Increment(counts, operation))
    ensures Operations(Increment(counts, operation)) == Operations(counts)
            || Operations(Increment(counts, operation)) == Operations(counts) + [operation]
  {
    var p := OperationPosition(counts, operation);
    var r := Increment(counts, operation);
    if p < |counts| {
      assert Operations(r) == Operations(counts);
    } else {
      assert Operations(r) == Operations(counts) + [operation];
    }
  }

  lemma IncrementCounts(counts: seq<OperationCount>, ops: seq<string>, o: string)
    requires forall c :: c in counts ==> c.count == Occurrences(ops, c.operation) > 0
    requires forall k :: 0 <= k < |ops| ==> ops[k] in Operations(counts)
    requires DistinctOperations(counts)
    ensures forall c :: c in Increment(counts, o) ==> c.count == Occurrences(ops + [o], c.operation) > 0
  {
    var p := OperationPosition(counts, o);
    var r := Increment(counts, o);
    forall c | c in counts ensures Occurrences(ops + [o], c.operation) == Occurrences(ops, c.operation) + (if o == c.operation then 1 else 0) {
      OccurrencesSnoc(ops, o, c.operation);
    }
    if p < |counts| {
      assert counts[p] in counts;
      forall k | 0 <= k < |r| ensures r[k].count == Occurrences(ops + [o], r[k].operation) > 0 {
        assert counts[k] in counts;
        if k != p {
          assert r[k] == counts[k] && counts[k].operation != o;
        }
      }
    } else {
      OccurrencesAbsent(ops, o);
      OccurrencesSnoc(ops, o, o);
      forall k | 0 <= k < |counts| ensures r[k].count == Occurrences(ops + [o], r[k].operation) > 0 {
        assert counts[k] in counts;
      }
    }
  }

  lemma IncrementSum(counts: seq<OperationCount>, o: string)
    ensures Sum(Counts(Increment(counts, o))) == Sum(Counts(counts)) + 1
  {
    var p := OperationPosition(counts, o);
    var r := Increment(counts, o);
    if p < |counts| {
      assert Counts(r) == Counts(counts)[p := Counts(counts)[p] + 1];
      SumIncrement(Counts(counts), p);
    } else {
      assert Counts(r) == Counts(counts) + [1];
      SumAppend(Counts(counts), [1]);
    }
  }

  lemma IncrementCovers(counts: seq<OperationCount>, ops: seq<string>, o: string)
    requires forall k :: 0 <= k < |ops| ==> ops[k] in Operations(counts)
    requires Operations(Increment(counts, o)) == Operations(counts)
             || Operations(Increment(counts, o)) == Operations(counts) + [o]
    ensures forall k :: 0 <= k < |ops + [o]| ==> (ops + [o])[k] in Operations(Increment(counts, o))
  {
    var p := OperationPosition(counts, o);
    if p < |counts| {
      assert Operations(counts)[p] == o;
    }
  }

  /** One step of the reduce keeps `counts` the tally of the operations seen so far. */
  lemma TallyStep(counts: seq<OperationCount>, ops: seq<string>, o: string)
    requires Tallies(counts, ops)
    ensures Tallies(Increment(counts, o), ops + [o])
  {
    IncrementDistinct(counts, o);
    IncrementCounts(counts, ops, o);
    IncrementSum(counts, o);
    IncrementCovers(counts, ops, o);
  }

  /** A reduce step keeps the tally's keys in first-occurrence order: a new operation goes last. */
  lemma IncrementOrder(counts: seq<OperationCount>, ops: seq<string>, o: string)
    requires Operations(counts) == FirstOccurrences(ops)
    ensures Operations(Increment(counts, o)) == FirstOccurrences(ops + [o])
  {
    assert (ops + [o])[..|ops|] == ops;
    var p := OperationPosition(counts, o);
    if p < |counts| {
      assert Operations(counts)[p] == o;
      assert Operations(Increment(counts, o)) == Operations(counts);
    } else {
      assert o !in Operations(counts);
      assert Operations(Increment(counts, o)) == Operations(counts) + [o];
    }
  }

  /** A tally whose keys also come in first-occurrence order, as the keys of a JavaScript `Map` do. */
  predicate TalliesInOrder(counts: seq<OperationCount>, ops: seq<string>)
  {
    Tallies(counts, ops) && Operations(counts) == FirstOccurrences(ops)
  }

  lemma OrderedTallyStep(counts: seq<OperationCount>, ops: seq<string>, o: string,
                         counts': seq<OperationCount>, ops': seq<string>)
    requires TalliesInOrder(counts, ops)
    requires counts' == Increment(counts, o) && ops' == ops + [o]
    ensures TalliesInOrder(counts', ops')
  {
    TallyStep(counts, ops, o);
    IncrementOrder(counts, ops, o);
  }

  /** A tally of the history's operations counts what `filterHistoryByOperation` returns. */
  lemma TallyOfHistory(counts: seq<OperationCount>, s: WorkspaceState)
    requires Tallies(counts, Map(s.history, OperationOf))
    ensures forall c :: c in counts ==> c.count == |FilterHistoryByOperation(s, c.operation)| > 0
    ensures forall x :: x in s.history ==> x.operation in Operations(counts)
  {
    var ops := Map(s.history, OperationOf);
    forall c | c in counts ensures c.count == |FilterHistoryByOperation(s, c.operation)| > 0 {
      OccurrencesIsFilter(s.history, c.operation);
    }
    forall x | x in s.history ensures x.operation in Operations(counts) {
      var k :| 0 <= k < |s.history| && s.history[k] == x;
      assert ops[k] == x.operation;
    }
  }

  /**
   * `computeWorkspaceMetrics`. The per-operation tally is the `Map` the
   * source mutates inside `Chunk.reduce`: keys in first-occurrence order,
   * each with the number of snapshots recorded under it.
   */
  method ComputeWorkspaceMetrics(s: WorkspaceState) returns (m: WorkspaceMetrics)
    ensures m.totalSnapshots == |s.history|
    ensures m.uniqueGraphs == |GraphIds(s.history)|
    ensures m.uniqueGraphs <= m.totalSnapshots
    ensures DistinctOperations(m.operationCounts)
    ensures Operations(m.operationCounts) == FirstOccurrences(Map(s.history, OperationOf))
    ensures forall c :: c in m.operationCounts ==> c.count == |FilterHistoryByOperation(s, c.operation)| > 0
    ensures forall x :: x in s.history ==> x.operation in Operations(m.operationCounts)
    ensures Sum(Counts(m.operationCounts)) == m.totalSnapshots
    ensures m.currentPosition == m.undoDepth == s.currentIndex
    ensures m.undoDepth + m.redoDepth + 1 == m.totalSnapshots
  {
    ghost var ops := Map(s.history, OperationOf);
    var counts: seq<OperationCount> := [];
    var i := 0;
    while i < |s.history|
      invariant 0 <= i <= |s.history|
      invariant TalliesInOrder(counts, ops[..i])
    {
      var operation := s.history[i].operation;
      ghost var before := counts;
      var p := OperationPosition(counts, operation);
      if p < |counts| {
        counts := counts[p := OperationCount(operation, counts[p].count + 1)];
      } else {
        counts := counts + [OperationCount(operation, 1)];
      }
      assert counts == Increment(before, operation);
      assert ops[..i + 1] == ops[..i] + [operation];
      OrderedTallyStep(before, ops[..i], operation, counts, ops[..i + 1]);
      i := i + 1;
    }
    assert ops[..i] == ops;
    TallyOfHistory(counts, s);
    var graphIds := set x | x in s.history :: x.graph.id;
    GraphIdsBounded(s.history);
    m := WorkspaceMetrics(|s.history|, |graphIds|, counts, s.currentIndex, s.currentIndex,
                          |s.history| - 1 - s.currentIndex);
  }
}
