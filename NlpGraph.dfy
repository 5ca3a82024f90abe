/**
 * The columnar NLP graph of nlp/NlpGraph.ts: node and edge attributes live
 * in parallel typed arrays, capacity doubles when a column is full, and
 * `buildIndex` sorts the edges by source and records, per node, where its
 * outgoing edges start and how many there are.
 *
 * `Uint32Array` columns are `array<nat>` holding values below 2^32; the
 * enum columns (`Uint8Array`) hold the enum values themselves, whose codes
 * all fit in a byte.
 */
module Nlp {
  import opened Wrappers
  import opened Seqs

  datatype NodeType = Token | Sentence | Entity
  datatype EdgeType = Dependency | NextToken | SentenceContainsToken

  const TwoTo32: int := 0x1_0000_0000

  /** What a `Uint32Array` stores when assigned the integer `x`. */
  function ToUint32(x: int): (r: nat)
    ensures r < TwoTo32
    ensures 0 <= x < TwoTo32 ==> r == x
    ensures (r - x) % TwoTo32 == 0
  {
    x % TwoTo32
  }

  datatype NodeRow = NodeRow(kind: NodeType, sourceIndex: nat, parentId: nat)
  datatype EdgeRow = EdgeRow(source: nat, target: nat, kind: EdgeType)

  /** Row `i` of three parallel columns. */
  function NodeRows(kinds: seq<NodeType>, sources: seq<nat>, parents: seq<nat>): (r: seq<NodeRow>)
    requires |kinds| == |sources| == |parents|
    ensures |r| == |kinds|
    ensures forall i :: 0 <= i < |r| ==> r[i] == NodeRow(kinds[i], sources[i], parents[i])
  {
    seq(|kinds|, i requires 0 <= i < |kinds| => NodeRow(kinds[i], sources[i], parents[i]))
  }

  function EdgeRows(sources: seq<nat>, targets: seq<nat>, kinds: seq<EdgeType>): (r: seq<EdgeRow>)
    requires |sources| == |targets| == |kinds|
    ensures |r| == |sources|
    ensures forall i :: 0 <= i < |r| ==> r[i] == EdgeRow(sources[i], targets[i], kinds[i])
  {
    seq(|sources|, i requires 0 <= i < |sources| => EdgeRow(sources[i], targets[i], kinds[i]))
  }

  // ---------------------------------------------------------------------------
  // The stable sort by source that `p.sort(...)` performs on edge positions.

  function SourceIs(n: int): EdgeRow -> bool
  {
    (e: EdgeRow) => e.source == n
  }

  function TargetOf(e: EdgeRow): nat
  {
    e.target
  }

  predicate SortedBySource(s: seq<EdgeRow>)
  {
    forall i, j :: 0 <= i < j < |s| ==> s[i].source <= s[j].source
  }

  /** Insert `e` after every element whose source is at most `e`'s. */
  function Insert(sorted: seq<EdgeRow>, e: EdgeRow): seq<EdgeRow>
    decreases |sorted|
  {
    if sorted == [] || sorted[|sorted| - 1].source <= e.source then sorted + [e]
    else Insert(sorted[..|sorted| - 1], e) + [sorted[|sorted| - 1]]
  }

  /**
   * The edges ordered by source, equal sources in insertion order: what
   * `Array.prototype.sort` (stable since ECMAScript 2019) does with the
   * comparator `edgeSourceNodeId[a] - edgeSourceNodeId[b]`.
   */
  function SortBySource(s: seq<EdgeRow>): seq<EdgeRow>
    decreases |s|
  {
    if s == [] then [] else Insert(SortBySource(s[..|s| - 1]), s[|s| - 1])
  }

  lemma {:induction false} InsertElements(sorted: seq<EdgeRow>, e: EdgeRow)
    ensures multiset(Insert(sorted, e)) == multiset(sorted) + multiset{e}
    decreases |sorted|
  {
    if sorted != [] && sorted[|sorted| - 1].source > e.source {
      var init := sorted[..|sorted| - 1];
      InsertElements(init, e);
      assert sorted == init + [sorted[|sorted| - 1]];
    }
  }

  lemma {:induction false} InsertSorted(sorted: seq<EdgeRow>, e: EdgeRow)
    requires SortedBySource(sorted)
    ensures SortedBySource(Insert(sorted, e))
    decreases |sorted|
  {
    if sorted != [] && sorted[|sorted| - 1].source > e.source {
      var init := sorted[..|sorted| - 1];
      var last := sorted[|sorted| - 1];
      InsertSorted(init, e);
      InsertElements(init, e);
      var r := Insert(init, e);
      forall i | 0 <= i < |r| ensures r[i].source <= last.source {
        assert r[i] in multiset(r);
        if r[i] != e {
          assert r[i] in multiset(init);
        }
      }
      SnocSorted(r, last);
    }
  }

  lemma SnocSorted(s: seq<EdgeRow>, e: EdgeRow)
    requires SortedBySource(s) && forall i :: 0 <= i < |s| ==> s[i].source <= e.source
    ensures SortedBySource(s + [e])
  {
  }

  /** Inserting keeps every source's edges in order, with `e` last among its own. */
  lemma {:induction false} InsertStable(sorted: seq<EdgeRow>, e: EdgeRow, n: int)
    ensures Filter(Insert(sorted, e), SourceIs(n)) == Filter(sorted, SourceIs(n)) + Filter([e], SourceIs(n))
    decreases |sorted|
  {
    if sorted == [] || sorted[|sorted| - 1].source <= e.source {
      FilterAppend(sorted, [e], SourceIs(n));
    } else {
      var init := sorted[..|sorted| - 1];
      InsertStable(init, e, n);
      InsertStableStep(sorted, e, n);
    }
  }

  lemma InsertStableStep(sorted: seq<EdgeRow>, e: EdgeRow, n: int)
    requires sorted != [] && sorted[|sorted| - 1].source > e.source
    requires Filter(Insert(sorted[..|sorted| - 1], e), SourceIs(n))
             == Filter(sorted[..|sorted| - 1], SourceIs(n)) + Filter([e], SourceIs(n))
    ensures Filter(Insert(sorted, e), SourceIs(n)) == Filter(sorted, SourceIs(n)) + Filter([e], SourceIs(n))
  {
    var init := sorted[..|sorted| - 1];
    var last := sorted[|sorted| - 1];
    var f := SourceIs(n);
    assert Insert(sorted, e) == Insert(init, e) + [last];
    calc {
      Filter(Insert(sorted, e), f);
      { FilterAppend(Insert(init, e), [last], f); }
      Filter(Insert(init, e), f) + Filter([last], f);
      Filter(init, f) + Filter([e], f) + Filter([last], f);
      { FilterSingletonsCommute(e, last, n); SwapTail(Filter(init, f), Filter([e], f), Filter([last], f)); }
      Filter(init, f) + Filter([last], f) + Filter([e], f);
      { FilterAppend(init, [last], f); SplitLast(sorted); }
      Filter(sorted, f) + Filter([e], f);
    }
  }

  lemma SliceOfSuffix<T>(s: seq<T>, p: int, c: int)
    requires 0 <= p && 0 <= c && p + c <= |s|
    ensures s[p..][..c] == s[p..p + c]
  {
  }

  lemma SplitLast<T>(s: seq<T>)
    requires s != []
    ensures s[..|s| - 1] + [s[|s| - 1]] == s
  {
  }

  lemma SwapTail<T>(a: seq<T>, b: seq<T>, c: seq<T>)
    requires b + c == c + b
    ensures a + b + c == a + c + b
  {
    assert a + b + c == a + (b + c);
    assert a + c + b == a + (c + b);
  }

  lemma FilterSingletonsCommute(a: EdgeRow, b: EdgeRow, n: int)
    requires a.source != b.source
    ensures Filter([a], SourceIs(n)) + Filter([b], SourceIs(n)) == Filter([b], SourceIs(n)) + Filter([a], SourceIs(n))
  {
    assert Filter([a], SourceIs(n)) == [] || Filter([b], SourceIs(n)) == [];
  }

  lemma {:induction false} SortBySourceElements(s: seq<EdgeRow>)
    ensures multiset(SortBySource(s)) == multiset(s)
    ensures |SortBySource(s)| == |s|
    ensures SortedBySource(SortBySource(s))
    decreases |s|
  {
    if s != [] {
      var init := s[..|s| - 1];
      SortBySourceElements(init);
      InsertElements(SortBySource(init), s[|s| - 1]);
      InsertSorted(SortBySource(init), s[|s| - 1]);
      assert s == init + [s[|s| - 1]];
      assert |SortBySource(s)| == |multiset(SortBySource(s))|;
    }
  }

  /** The sorted edges are sorted, and as many as the edges. */
  lemma SortBySourceSorted(s: seq<EdgeRow>)
    ensures |SortBySource(s)| == |s| && SortedBySource(SortBySource(s))
  {
    SortBySourceElements(s);
  }

  /** Stability: the edges out of any one node appear in the order they were added. */
  lemma {:induction false} SortBySourceStable(s: seq<EdgeRow>, n: int)
    ensures Filter(SortBySource(s), SourceIs(n)) == Filter(s, SourceIs(n))
    decreases |s|
  {
    if s != [] {
      var init, last := s[..|s| - 1], s[|s| - 1];
      InsertStable(SortBySource(init), last, n);
      SortBySourceStable(init, n);
      FilterAppend(init, [last], SourceIs(n));
      SplitLast(s);
    }
  }

  /** Sorting a sorted sequence changes nothing, so a second `buildIndex` would reorder nothing. */
  lemma {:induction false} SortBySourceIdempotent(s: seq<EdgeRow>)
    ensures SortBySource(SortBySource(s)) == SortBySource(s)
  {
    SortBySourceElements(s);
    SortedIsFixed(SortBySource(s));
  }

  lemma {:induction false} SortedIsFixed(s: seq<EdgeRow>)
    requires SortedBySource(s)
    ensures SortBySource(s) == s
    decreases |s|
  {
    if s != [] {
      var init := s[..|s| - 1];
      assert SortedBySource(init);
      SortedIsFixed(init);
      assert init == [] || init[|init| - 1].source <= s[|s| - 1].source;
      assert Insert(init, s[|s| - 1]) == init + [s[|s| - 1]];
      assert init + [s[|s| - 1]] == s;
    }
  }

  // ---------------------------------------------------------------------------
  // The start/count index over source-sorted edges.

  /** `p` is where the run of edges out of `n` begins. */
  predicate IsFirst(s: seq<EdgeRow>, p: int, n: int)
  {
    0 <= p < |s| && s[p].source == n && (p == 0 || s[p - 1].source != n)
  }

  lemma FilterNoMatch(s: seq<EdgeRow>, n: int)
    requires forall i :: 0 <= i < |s| ==> s[i].source != n
    ensures Filter(s, SourceIs(n)) == []
  {
  }

  lemma {:induction false} RunAtFront(t: seq<EdgeRow>, n: int)
    requires SortedBySource(t)
    requires t == [] || t[0].source >= n
    ensures Count(t, SourceIs(n)) <= |t|
    ensures Filter(t, SourceIs(n)) == t[..Count(t, SourceIs(n))]
    decreases |t|
  {
    if t != [] {
      if t[0].source == n {
        RunAtFront(t[1..], n);
        assert Filter(t, SourceIs(n)) == [t[0]] + Filter(t[1..], SourceIs(n));
      } else {
        FilterNoMatch(t, n);
      }
    }
  }

  lemma SortedSuffix(s: seq<EdgeRow>, p: int)
    requires SortedBySource(s) && 0 <= p <= |s|
    ensures SortedBySource(s[p..])
  {
    forall i, j | 0 <= i < j < |s| - p ensures s[p..][i].source <= s[p..][j].source {
      assert s[p..][i] == s[p + i] && s[p..][j] == s[p + j];
    }
  }

  /** Nothing before the first position of `n` is an edge out of `n`. */
  lemma SkipBeforeFirst(s: seq<EdgeRow>, p: int, n: int)
    requires SortedBySource(s) && IsFirst(s, p, n)
    ensures Filter(s, SourceIs(n)) == Filter(s[p..], SourceIs(n))
  {
    var before := s[..p];
    forall i | 0 <= i < |before| ensures before[i].source != n {
      assert before[i] == s[i];
      assert s[i].source <= s[p - 1].source < n;
    }
    FilterNoMatch(before, n);
    calc {
      Filter(s, SourceIs(n));
    == { assert s == before + s[p..]; }
      Filter(before + s[p..], SourceIs(n));
    == { FilterAppend(before, s[p..], SourceIs(n)); }
      Filter(before, SourceIs(n)) + Filter(s[p..], SourceIs(n));
    ==
      Filter(s[p..], SourceIs(n));
    }
  }

  /** In source order, the edges out of `n` are the contiguous run that begins at its first position. */
  lemma RunFromFirst(s: seq<EdgeRow>, p: int, n: int)
    requires SortedBySource(s) && IsFirst(s, p, n)
    ensures p + Count(s, SourceIs(n)) <= |s|
    ensures s[p..p + Count(s, SourceIs(n))] == Filter(s, SourceIs(n))
  {
    SkipBeforeFirst(s, p, n);
    SortedSuffix(s, p);
    RunAtFront(s[p..], n);
    RunFromFirstSteps(s, p, n);
  }

  lemma RunFromFirstSteps(s: seq<EdgeRow>, p: int, n: int)
    requires 0 <= p <= |s|
    requires Filter(s, SourceIs(n)) == Filter(s[p..], SourceIs(n))
    requires Count(s[p..], SourceIs(n)) <= |s[p..]|
    requires Filter(s[p..], SourceIs(n)) == s[p..][..Count(s[p..], SourceIs(n))]
    ensures p + Count(s, SourceIs(n)) <= |s|
    ensures s[p..p + Count(s, SourceIs(n))] == Filter(s, SourceIs(n))
  {
    RunOfSuffix(s, p, Filter(s, SourceIs(n)));
  }

  /** A run found at the front of the suffix from `p` is the slice of `s` from `p`. */
  lemma RunOfSuffix<T>(s: seq<T>, p: int, run: seq<T>)
    requires 0 <= p <= |s| && |run| <= |s| - p && run == s[p..][..|run|]
    ensures p + |run| <= |s| && s[p..p + |run|] == run
  {
  }

  lemma CountSnoc(s: seq<EdgeRow>, e: EdgeRow, n: int)
    ensures Count(s + [e], SourceIs(n)) == Count(s, SourceIs(n)) + (if e.source == n then 1 else 0)
  {
    FilterAppend(s, [e], SourceIs(n));
  }

  /** In source order, `n` has edges before position `i` exactly when the edge just before `i` is one of them. */
  lemma SeenBefore(s: seq<EdgeRow>, i: int, n: int)
    requires SortedBySource(s) && 0 < i < |s| && s[i].source == n
    ensures Count(s[..i], SourceIs(n)) > 0 <==> s[i - 1].source == n
  {
    if s[i - 1].source == n {
      assert s[..i][i - 1] == s[i - 1];
      assert s[i - 1] in Filter(s[..i], SourceIs(n));
    } else {
      FilterNoMatch(s[..i], n);
    }
  }

  /** The neighbours `getNeighbors(n, t)` promises: targets of `n`'s edges, of type `t` when one is given, in insertion order. */
  function Neighbors(edges: seq<EdgeRow>, n: int, t: Option<EdgeType>): seq<nat>
  {
    Map(Filter(Filter(edges, SourceIs(n)), KindMatches(t)), TargetOf)
  }

  function KindMatches(t: Option<EdgeType>): EdgeRow -> bool
  {
    (e: EdgeRow) => t.None? || e.kind == t.value
  }

  /** The capacity a full column grows to, as intended: doubled, and at least one. */
  function GrownCapacity(capacity: nat): (r: nat)
    ensures r > capacity
    ensures capacity > 0 ==> r == 2 * capacity
  {
    if capacity == 0 then 1 else capacity * 2
  }

  /** The contents of a fresh zero-filled typed array of length `n` after `.set(s)`. */
  function Grown<T>(s: seq<T>, n: nat, zero: T): (r: seq<T>)
    requires |s| <= n
    ensures |r| == n
  {
    s + seq(n - |s|, _ => zero)
  }

  /** The index after the first `i` sorted edges: counts so far, and each seen node's first position. */
  ghost predicate IndexUpTo(starts: seq<nat>, counts: seq<nat>, s: seq<EdgeRow>, i: nat)
    requires i <= |s|
  {
    && |starts| == |counts|
    && forall k :: 0 <= k < |counts| ==>
         && counts[k] == Count(s[..i], SourceIs(k))
         && (counts[k] == 0 ==> starts[k] == 0)
         && (counts[k] > 0 ==> IsFirst(s, starts[k], k))
  }

  /** One iteration of the counting loop: bump the source's count, and record its start when the source changes. */
  lemma IndexStep(starts: seq<nat>, counts: seq<nat>, s: seq<EdgeRow>, i: nat)
    requires SortedBySource(s) && i < |s| && s[i].source < |counts|
    requires IndexUpTo(starts, counts, s, i)
    ensures var src := s[i].source;
            IndexUpTo(if i > 0 && src != s[i - 1].source then starts[src := i] else starts,
                      counts[src := counts[src] + 1], s, i + 1)
  {
    if i > 0 {
      SeenBefore(s, i, s[i].source);
    }
    IndexStepSeen(starts, counts, s, i);
  }

  /** `IndexStep` over the edges sorted by `SortBySource`. */
  /** The columns `CountEdge` leaves behind are the ones `IndexStepOfSorted` speaks of. */
  lemma CountedEdge(starts: seq<nat>, counts: seq<nat>, starts': seq<nat>, counts': seq<nat>,
                    sorted: seq<EdgeRow>, i: nat, source: nat, changed: bool)
    requires i < |sorted|
    requires source == sorted[i].source
    requires source < |counts|
    requires source < |starts|
    requires changed == (i > 0 && sorted[i].source != sorted[i - 1].source)
    requires counts' == counts[source := counts[source] + 1]
    requires starts' == if changed then starts[source := i] else starts
    requires IndexUpTo(if i > 0 && sorted[i].source != sorted[i - 1].source then starts[sorted[i].source := i] else starts,
                       counts[sorted[i].source := counts[sorted[i].source] + 1], sorted, i + 1)
    ensures IndexUpTo(starts', counts', sorted, i + 1)
  {
  }

  lemma IndexStepOfSorted(starts: seq<nat>, counts: seq<nat>, sorted: seq<EdgeRow>, edges: seq<EdgeRow>, i: nat)
    requires sorted == SortBySource(edges)
    requires i < |sorted| && sorted[i].source < |counts|
    requires IndexUpTo(starts, counts, sorted, i)
    ensures IndexUpTo(if i > 0 && sorted[i].source != sorted[i - 1].source then starts[sorted[i].source := i] else starts,
                      counts[sorted[i].source := counts[sorted[i].source] + 1], sorted, i + 1)
  {
    SortBySourceSorted(edges);
    IndexStep(starts, counts, sorted, i);
  }

  /** `IndexStep` once sortedness has been reduced to: the source was seen before exactly when the previous edge has it. */
  lemma IndexStepSeen(starts: seq<nat>, counts: seq<nat>, s: seq<EdgeRow>, i: nat)
    requires i < |s| && s[i].source < |counts|
    requires IndexUpTo(starts, counts, s, i)
    requires i > 0 ==> (Count(s[..i], SourceIs(s[i].source)) > 0 <==> s[i - 1].source == s[i].source)
    ensures var src := s[i].source;
            IndexUpTo(if i > 0 && src != s[i - 1].source then starts[src := i] else starts,
                      counts[src := counts[src] + 1], s, i + 1)
  {
    var src := s[i].source;
    var starts' := if i > 0 && src != s[i - 1].source then starts[src := i] else starts;
    var counts' := counts[src := counts[src] + 1];
    forall k | 0 <= k < |counts'|
      ensures counts'[k] == Count(s[..i + 1], SourceIs(k))
      ensures counts'[k] == 0 ==> starts'[k] == 0
      ensures counts'[k] > 0 ==> IsFirst(s, starts'[k], k)
    {
      StepSlot(s, i, k, starts[k], counts[k], starts'[k], counts'[k]);
    }
  }

  /** `IndexStepSeen` for one node `k`: its old start and count, and the new ones. */
  lemma StepSlot(s: seq<EdgeRow>, i: nat, k: nat, start: nat, count: nat, start': nat, count': nat)
    requires i < |s|
    requires count == Count(s[..i], SourceIs(k))
    requires count == 0 ==> start == 0
    requires count > 0 ==> IsFirst(s, start, k)
    requires k != s[i].source ==> start' == start && count' == count
    requires k == s[i].source ==> count' == count + 1
    requires k == s[i].source ==> start' == if i > 0 && k != s[i - 1].source then i else start
    requires i > 0 && k == s[i].source ==> (count > 0 <==> s[i - 1].source == k)
    ensures count' == Count(s[..i + 1], SourceIs(k))
    ensures count' == 0 ==> start' == 0
    ensures count' > 0 ==> IsFirst(s, start', k)
  {
    assert s[..i + 1] == s[..i] + [s[i]];
    CountSnoc(s[..i], s[i], k);
  }

  /** Before the first edge, an all-zero index is correct. */
  lemma IndexStart(n: nat, s: seq<EdgeRow>)
    ensures IndexUpTo(seq(n, _ => 0), seq(n, _ => 0), s, 0)
  {
    assert s[..0] == [];
  }

  /** Zero-filled slots past the old length leave the index of edges out of existing nodes valid. */
  lemma IndexExtend(starts: seq<nat>, counts: seq<nat>, starts': seq<nat>, counts': seq<nat>, s: seq<EdgeRow>)
    requires IndexUpTo(starts, counts, s, |s|)
    requires forall i :: 0 <= i < |s| ==> s[i].source < |counts|
    requires |starts'| == |counts'| >= |counts|
    requires starts'[..|starts|] == starts && counts'[..|counts|] == counts
    requires forall k :: |counts| <= k < |counts'| ==> starts'[k] == 0 && counts'[k] == 0
    ensures IndexUpTo(starts', counts', s, |s|)
  {
    forall k | |counts| <= k < |counts'| ensures Count(s[..|s|], SourceIs(k)) == 0 {
      assert s[..|s|] == s;
      FilterNoMatch(s, k);
    }
    forall k | 0 <= k < |counts| ensures counts'[k] == counts[k] && starts'[k] == starts[k] {
      assert counts'[..|counts|][k] == counts'[k];
      assert starts'[..|starts|][k] == starts'[k];
    }
  }

  // ---------------------------------------------------------------------------
  // The graph's state as values: the eight columns and the scalar fields.

  /** The contents of the eight typed arrays. */
  datatype Columns = Columns(
    nodeType: seq<NodeType>, nodeSourceIndex: seq<nat>, nodeParentId: seq<nat>,
    edgeSourceNodeId: seq<nat>, edgeTargetNodeId: seq<nat>, edgeType: seq<EdgeType>,
    nodeEdgeStartIndex: seq<nat>, nodeEdgeCount: seq<nat>)

  /** The scalar fields. */
  datatype Counters = Counters(nodeCapacity: nat, edgeCapacity: nat, nodeCount: nat, edgeCount: nat, isIndexBuilt: bool)

  /** Column lengths: node columns (the index included) at node capacity, edge columns in step. */
  predicate Shaped(c: Columns, k: Counters)
  {
    && |c.nodeType| == k.nodeCapacity && |c.nodeSourceIndex| == k.nodeCapacity
    && |c.nodeParentId| == k.nodeCapacity
    && |c.nodeEdgeStartIndex| == k.nodeCapacity && |c.nodeEdgeCount| == k.nodeCapacity
    && k.nodeCount <= k.nodeCapacity
    && |c.edgeTargetNodeId| == |c.edgeSourceNodeId| && |c.edgeType| == |c.edgeSourceNodeId|
    && k.edgeCount <= |c.edgeSourceNodeId| <= k.edgeCapacity
    && (!k.isIndexBuilt ==> |c.edgeSourceNodeId| == k.edgeCapacity)
  }

  function StoredNodes(c: Columns, k: Counters): seq<NodeRow>
    requires Shaped(c, k)
  {
    NodeRows(c.nodeType[..k.nodeCount], c.nodeSourceIndex[..k.nodeCount], c.nodeParentId[..k.nodeCount])
  }

  function StoredEdges(c: Columns, k: Counters): seq<EdgeRow>
    requires Shaped(c, k)
  {
    EdgeRows(c.edgeSourceNodeId[..k.edgeCount], c.edgeTargetNodeId[..k.edgeCount], c.edgeType[..k.edgeCount])
  }

  /**
   * The graph invariant: edges join stored nodes; the stored edges are the
   * added ones, in insertion order before `buildIndex` and sorted by source
   * after it; and once built, the index describes the stored edges.
   */
  ghost predicate Consistent(c: Columns, k: Counters, added: seq<EdgeRow>)
  {
    && Shaped(c, k)
    && (forall i :: 0 <= i < k.edgeCount ==> c.edgeSourceNodeId[i] < k.nodeCount && c.edgeTargetNodeId[i] < k.nodeCount)
    && StoredEdges(c, k) == (if k.isIndexBuilt then SortBySource(added) else added)
    && (k.isIndexBuilt ==> IndexUpTo(c.nodeEdgeStartIndex, c.nodeEdgeCount, StoredEdges(c, k), k.edgeCount))
  }

  function Max(a: nat, b: nat): nat
  {
    if a < b then b else a
  }

  /** The node group (attributes and index) copied into columns of length `n`. */
  function GrowNodes(c: Columns, n: nat): Columns
    requires |c.nodeType| <= n && |c.nodeSourceIndex| <= n && |c.nodeParentId| <= n
    requires |c.nodeEdgeStartIndex| <= n && |c.nodeEdgeCount| <= n
  {
    c.(nodeType := Grown(c.nodeType, n, Token), nodeSourceIndex := Grown(c.nodeSourceIndex, n, 0),
       nodeParentId := Grown(c.nodeParentId, n, 0), nodeEdgeStartIndex := Grown(c.nodeEdgeStartIndex, n, 0),
       nodeEdgeCount := Grown(c.nodeEdgeCount, n, 0))
  }

  /** The edge group copied into columns of length `n`. */
  function GrowEdges(c: Columns, n: nat): Columns
    requires |c.edgeSourceNodeId| <= n && |c.edgeTargetNodeId| <= n && |c.edgeType| <= n
  {
    c.(edgeSourceNodeId := Grown(c.edgeSourceNodeId, n, 0), edgeTargetNodeId := Grown(c.edgeTargetNodeId, n, 0),
       edgeType := Grown(c.edgeType, n, Dependency))
  }

  /** `resize(newCapacity)` on the values: a group is reallocated when `newCapacity` exceeds its capacity. */
  function ResizeColumns(c: Columns, k: Counters, newCapacity: nat): Columns
    requires Shaped(c, k)
  {
    var c1 := if newCapacity > k.nodeCapacity then GrowNodes(c, newCapacity) else c;
    if newCapacity > k.edgeCapacity then GrowEdges(c1, newCapacity) else c1
  }

  function ResizeCounters(k: Counters, newCapacity: nat): Counters
  {
    k.(nodeCapacity := Max(k.nodeCapacity, newCapacity), edgeCapacity := Max(k.edgeCapacity, newCapacity))
  }

  lemma PrefixesAgree<T>(a: seq<T>, b: seq<T>, n: nat)
    requires n <= |a| <= |b| && b[..|a|] == a
    ensures b[..n] == a[..n]
  {
    assert b[..n] == b[..|a|][..n];
  }

  /** Reallocation keeps the invariant and every stored node and edge. */
  lemma ResizeConsistent(c: Columns, k: Counters, added: seq<EdgeRow>, newCapacity: nat)
    requires Consistent(c, k, added)
    ensures Shaped(ResizeColumns(c, k, newCapacity), ResizeCounters(k, newCapacity))
    ensures Consistent(ResizeColumns(c, k, newCapacity), ResizeCounters(k, newCapacity), added)
    ensures StoredNodes(ResizeColumns(c, k, newCapacity), ResizeCounters(k, newCapacity)) == StoredNodes(c, k)
    ensures StoredEdges(ResizeColumns(c, k, newCapacity), ResizeCounters(k, newCapacity)) == StoredEdges(c, k)
  {
    ResizeRows(c, k, newCapacity);
    if k.isIndexBuilt {
      ResizeIndex(c, k, newCapacity);
    }
  }

  /** Reallocation keeps the shape, the stored rows and, slot by slot, the stored edges' endpoints. */
  lemma ResizeRows(c: Columns, k: Counters, newCapacity: nat)
    requires Shaped(c, k)
    ensures Shaped(ResizeColumns(c, k, newCapacity), ResizeCounters(k, newCapacity))
    ensures StoredNodes(ResizeColumns(c, k, newCapacity), ResizeCounters(k, newCapacity)) == StoredNodes(c, k)
    ensures StoredEdges(ResizeColumns(c, k, newCapacity), ResizeCounters(k, newCapacity)) == StoredEdges(c, k)
    ensures forall i :: 0 <= i < k.edgeCount ==>
              && ResizeColumns(c, k, newCapacity).edgeSourceNodeId[i] == c.edgeSourceNodeId[i]
              && ResizeColumns(c, k, newCapacity).edgeTargetNodeId[i] == c.edgeTargetNodeId[i]
  {
    var c', k' := ResizeColumns(c, k, newCapacity), ResizeCounters(k, newCapacity);
    assert Shaped(c', k');
    PrefixesAgree(c.nodeType, c'.nodeType, k.nodeCount);
    PrefixesAgree(c.nodeSourceIndex, c'.nodeSourceIndex, k.nodeCount);
    PrefixesAgree(c.nodeParentId, c'.nodeParentId, k.nodeCount);
    PrefixesAgree(c.edgeSourceNodeId, c'.edgeSourceNodeId, k.edgeCount);
    PrefixesAgree(c.edgeTargetNodeId, c'.edgeTargetNodeId, k.edgeCount);
    PrefixesAgree(c.edgeType, c'.edgeType, k.edgeCount);
    forall i | 0 <= i < k.edgeCount
      ensures c'.edgeSourceNodeId[i] == c.edgeSourceNodeId[i] && c'.edgeTargetNodeId[i] == c.edgeTargetNodeId[i]
    {
      assert c'.edgeSourceNodeId[i] == c'.edgeSourceNodeId[..k.edgeCount][i];
      assert c'.edgeTargetNodeId[i] == c'.edgeTargetNodeId[..k.edgeCount][i];
    }
  }

  /** Reallocation keeps a built index describing the same stored edges. */
  lemma ResizeIndex(c: Columns, k: Counters, newCapacity: nat)
    requires Shaped(c, k)
    requires forall i :: 0 <= i < k.edgeCount ==> c.edgeSourceNodeId[i] < k.nodeCount
    requires IndexUpTo(c.nodeEdgeStartIndex, c.nodeEdgeCount, StoredEdges(c, k), k.edgeCount)
    ensures var c' := ResizeColumns(c, k, newCapacity);
            IndexUpTo(c'.nodeEdgeStartIndex, c'.nodeEdgeCount, StoredEdges(c, k), k.edgeCount)
  {
    if newCapacity > k.nodeCapacity {
      var c' := ResizeColumns(c, k, newCapacity);
      var s := StoredEdges(c, k);
      forall i | 0 <= i < |s| ensures s[i].source < |c.nodeEdgeCount| {
        assert s[i].source == c.edgeSourceNodeId[..k.edgeCount][i];
      }
      IndexExtend(c.nodeEdgeStartIndex, c.nodeEdgeCount, c'.nodeEdgeStartIndex, c'.nodeEdgeCount, s);
    }
  }

  /** `addNode`'s four writes at slot `id`. */
  function AddNodeColumns(c: Columns, id: nat, kind: NodeType, sourceIndex: nat, parentId: nat): Columns
    requires id < |c.nodeType| && id < |c.nodeSourceIndex| && id < |c.nodeParentId| && id < |c.nodeEdgeCount|
  {
    c.(nodeType := c.nodeType[id := kind], nodeSourceIndex := c.nodeSourceIndex[id := sourceIndex],
       nodeParentId := c.nodeParentId[id := parentId], nodeEdgeCount := c.nodeEdgeCount[id := 0])
  }

  lemma AddNodeConsistent(c: Columns, k: Counters, added: seq<EdgeRow>, kind: NodeType, sourceIndex: nat, parentId: nat)
    requires Consistent(c, k, added) && k.nodeCount < k.nodeCapacity
    ensures var c' := AddNodeColumns(c, k.nodeCount, kind, sourceIndex, parentId);
            var k' := k.(nodeCount := k.nodeCount + 1);
            && Consistent(c', k', added)
            && StoredNodes(c', k') == StoredNodes(c, k) + [NodeRow(kind, sourceIndex, parentId)]
            && StoredEdges(c', k') == StoredEdges(c, k)
  {
    var id := k.nodeCount;
    var c' := AddNodeColumns(c, id, kind, sourceIndex, parentId);
    var k' := k.(nodeCount := id + 1);
    assert Shaped(c', k');
    assert c'.nodeType[..id + 1] == c.nodeType[..id] + [kind];
    assert c'.nodeSourceIndex[..id + 1] == c.nodeSourceIndex[..id] + [sourceIndex];
    assert c'.nodeParentId[..id + 1] == c.nodeParentId[..id] + [parentId];
    assert StoredEdges(c', k') == StoredEdges(c, k);
    if k.isIndexBuilt {
      var s := StoredEdges(c, k);
      assert Count(s[..k.edgeCount], SourceIs(id)) == 0 by {
        forall i | 0 <= i < |s| ensures s[i].source != id {
          assert s[i].source == c.edgeSourceNodeId[..k.edgeCount][i];
        }
        assert s[..k.edgeCount] == s;
        FilterNoMatch(s, id);
      }
    }
  }

  /** `addEdge`'s three writes at slot `id`. */
  function AddEdgeColumns(c: Columns, id: nat, source: nat, target: nat, kind: EdgeType): Columns
    requires id < |c.edgeSourceNodeId| && id < |c.edgeTargetNodeId| && id < |c.edgeType|
  {
    c.(edgeSourceNodeId := c.edgeSourceNodeId[id := source], edgeTargetNodeId := c.edgeTargetNodeId[id := target],
       edgeType := c.edgeType[id := kind])
  }

  lemma AddEdgeConsistent(c: Columns, k: Counters, added: seq<EdgeRow>, source: nat, target: nat, kind: EdgeType)
    requires Consistent(c, k, added) && !k.isIndexBuilt && k.edgeCount < k.edgeCapacity
    requires source < k.nodeCount && target < k.nodeCount
    ensures var c' := AddEdgeColumns(c, k.edgeCount, source, target, kind);
            var k' := k.(edgeCount := k.edgeCount + 1);
            && Consistent(c', k', added + [EdgeRow(source, target, kind)])
            && StoredEdges(c', k') == StoredEdges(c, k) + [EdgeRow(source, target, kind)]
            && StoredNodes(c', k') == StoredNodes(c, k)
  {
    var id := k.edgeCount;
    var c' := AddEdgeColumns(c, id, source, target, kind);
    var k' := k.(edgeCount := id + 1);
    assert Shaped(c', k');
    assert c'.edgeSourceNodeId[..id + 1] == c.edgeSourceNodeId[..id] + [source];
    assert c'.edgeTargetNodeId[..id + 1] == c.edgeTargetNodeId[..id] + [target];
    assert c'.edgeType[..id + 1] == c.edgeType[..id] + [kind];
    assert StoredNodes(c', k') == StoredNodes(c, k);
  }

  function SourcesOf(s: seq<EdgeRow>): seq<nat>
  {
    Map(s, (e: EdgeRow) => e.source)
  }

  function TargetsOf(s: seq<EdgeRow>): seq<nat>
  {
    Map(s, TargetOf)
  }

  function KindsOf(s: seq<EdgeRow>): seq<EdgeType>
  {
    Map(s, (e: EdgeRow) => e.kind)
  }

  /**
   * `buildIndex`'s result on the values: the edge columns replaced by the
   * sorted edges (arrays of exactly `edgeCount` entries) and the index
   * columns by `starts` and `counts`.
   */
  function IndexedColumns(c: Columns, sorted: seq<EdgeRow>, starts: seq<nat>, counts: seq<nat>): Columns
  {
    c.(edgeSourceNodeId := SourcesOf(sorted), edgeTargetNodeId := TargetsOf(sorted), edgeType := KindsOf(sorted),
       nodeEdgeStartIndex := starts, nodeEdgeCount := counts)
  }

  lemma BuildIndexConsistent(c: Columns, k: Counters, added: seq<EdgeRow>, starts: seq<nat>, counts: seq<nat>)
    requires Consistent(c, k, added) && !k.isIndexBuilt
    requires |counts| == k.nodeCapacity
    requires IndexUpTo(starts, counts, SortBySource(added), |SortBySource(added)|)
    ensures var c' := IndexedColumns(c, SortBySource(added), starts, counts);
            var k' := k.(isIndexBuilt := true);
            && Consistent(c', k', added)
            && StoredEdges(c', k') == SortBySource(added)
            && StoredNodes(c', k') == StoredNodes(c, k)
  {
    var sorted := SortBySource(added);
    var c' := IndexedColumns(c, sorted, starts, counts);
    var k' := k.(isIndexBuilt := true);
    SortBySourceElements(added);
    assert |added| == k.edgeCount by {
      assert |StoredEdges(c, k)| == k.edgeCount;
    }
    assert Shaped(c', k');
    assert StoredEdges(c', k') == sorted by {
      assert |sorted| == k.edgeCount;
      assert SourcesOf(sorted)[..k.edgeCount] == SourcesOf(sorted);
      assert TargetsOf(sorted)[..k.edgeCount] == TargetsOf(sorted);
      assert KindsOf(sorted)[..k.edgeCount] == KindsOf(sorted);
    }
    SortedEndpoints(c, k, added);
  }

  /** Sorting moves edges but keeps their endpoints, all of them stored nodes. */
  lemma SortedEndpoints(c: Columns, k: Counters, added: seq<EdgeRow>)
    requires Consistent(c, k, added) && !k.isIndexBuilt
    ensures |SortBySource(added)| == k.edgeCount
    ensures forall i :: 0 <= i < k.edgeCount ==>
              SortBySource(added)[i].source < k.nodeCount && SortBySource(added)[i].target < k.nodeCount
  {
    var sorted := SortBySource(added);
    SortBySourceElements(added);
    assert |StoredEdges(c, k)| == k.edgeCount;
    forall i | 0 <= i < k.edgeCount
      ensures sorted[i].source < k.nodeCount && sorted[i].target < k.nodeCount
    {
      assert sorted[i] in multiset(added);
      var j :| 0 <= j < |added| && added[j] == sorted[i];
      StoredEdgeAt(c, k, j);
    }
  }

  lemma StoredEdgeAt(c: Columns, k: Counters, i: nat)
    requires Shaped(c, k) && i < k.edgeCount
    ensures StoredEdges(c, k)[i] == EdgeRow(c.edgeSourceNodeId[i], c.edgeTargetNodeId[i], c.edgeType[i])
  {
    assert c.edgeSourceNodeId[..k.edgeCount][i] == c.edgeSourceNodeId[i];
    assert c.edgeTargetNodeId[..k.edgeCount][i] == c.edgeTargetNodeId[i];
    assert c.edgeType[..k.edgeCount][i] == c.edgeType[i];
  }

  /**
   * Once the index is built, node `n`'s start and count delimit, in the
   * stored edges, exactly the edges added out of `n`, in the order added.
   */
  lemma IndexedRun(c: Columns, k: Counters, added: seq<EdgeRow>, n: nat)
    requires Shaped(c, k) && StoredEdges(c, k) == SortBySource(added) && n < k.nodeCapacity
    requires IndexUpTo(c.nodeEdgeStartIndex, c.nodeEdgeCount, StoredEdges(c, k), k.edgeCount)
    ensures c.nodeEdgeStartIndex[n] + c.nodeEdgeCount[n] <= k.edgeCount
    ensures StoredEdges(c, k)[c.nodeEdgeStartIndex[n]..c.nodeEdgeStartIndex[n] + c.nodeEdgeCount[n]]
            == Filter(added, SourceIs(n))
  {
    var s := StoredEdges(c, k);
    assert s[..k.edgeCount] == s;
    IndexedRunOfSorted(added, c.nodeEdgeStartIndex[n], c.nodeEdgeCount[n], n);
  }

  /** `IndexedRun` with the invariant reduced to what it says about node `n`. */
  lemma IndexedRunOfSorted(added: seq<EdgeRow>, start: nat, count: nat, n: nat)
    requires count == Count(SortBySource(added), SourceIs(n))
    requires count == 0 ==> start == 0
    requires count > 0 ==> IsFirst(SortBySource(added), start, n)
    ensures start + count <= |SortBySource(added)|
    ensures SortBySource(added)[start..start + count] == Filter(added, SourceIs(n))
  {
    SortBySourceStable(added, n);
    if count > 0 {
      SortedRunFromFirst(added, start, count, n);
    }
  }

  lemma SortedRunFromFirst(added: seq<EdgeRow>, start: nat, count: nat, n: nat)
    requires IsFirst(SortBySource(added), start, n)
    requires count == Count(SortBySource(added), SourceIs(n))
    ensures start + count <= |SortBySource(added)|
    ensures SortBySource(added)[start..start + count] == Filter(SortBySource(added), SourceIs(n))
  {
    SortBySourceSorted(added);
    RunFromFirst(SortBySource(added), start, n);
  }

  /** Every node's start and count delimit exactly its added edges, in the order added. */
  ghost predicate RunsIndexed(c: Columns, k: Counters, added: seq<EdgeRow>)
    requires Shaped(c, k)
  {
    forall n: nat :: n < k.nodeCapacity ==>
      && c.nodeEdgeStartIndex[n] + c.nodeEdgeCount[n] <= k.edgeCount
      && StoredEdges(c, k)[c.nodeEdgeStartIndex[n]..c.nodeEdgeStartIndex[n] + c.nodeEdgeCount[n]]
         == Filter(added, SourceIs(n))
  }

  lemma IndexedRuns(c: Columns, k: Counters, added: seq<EdgeRow>)
    requires Consistent(c, k, added) && k.isIndexBuilt
    ensures RunsIndexed(c, k, added)
  {
    forall n: nat | n < k.nodeCapacity
      ensures c.nodeEdgeStartIndex[n] + c.nodeEdgeCount[n] <= k.edgeCount
      ensures StoredEdges(c, k)[c.nodeEdgeStartIndex[n]..c.nodeEdgeStartIndex[n] + c.nodeEdgeCount[n]]
              == Filter(added, SourceIs(n))
    {
      IndexedRun(c, k, added, n);
    }
  }

  /** A node id outside the stored nodes has no neighbours. */
  lemma NoNeighborsOutside(c: Columns, k: Counters, added: seq<EdgeRow>, n: int, t: Option<EdgeType>)
    requires Consistent(c, k, added) && (n < 0 || n >= k.nodeCount)
    ensures Neighbors(added, n, t) == []
  {
    var stored := StoredEdges(c, k);
    assert multiset(stored) == multiset(added) by {
      if k.isIndexBuilt {
        SortBySourceElements(added);
      }
    }
    forall i | 0 <= i < |added| ensures added[i].source != n {
      assert added[i] in multiset(stored);
      var j :| 0 <= j < |stored| && stored[j] == added[i];
      StoredEdgeAt(c, k, j);
    }
    FilterNoMatch(added, n);
  }

  /** Node `n`'s run read column by column: its targets and types are those of `n`'s added edges. */
  lemma RunColumns(c: Columns, k: Counters, added: seq<EdgeRow>, n: nat, run: seq<EdgeRow>)
    requires Consistent(c, k, added) && k.isIndexBuilt && n < k.nodeCapacity && run == Filter(added, SourceIs(n))
    ensures c.nodeEdgeCount[n] == |run| && RunAt(c.edgeTargetNodeId, c.edgeType, c.nodeEdgeStartIndex[n], run)
  {
    IndexedRunOfConsistent(c, k, added, n);
    SliceColumns(c, k, c.nodeEdgeStartIndex[n], c.nodeEdgeCount[n], run);
  }

  /** `IndexedRun` for consistent columns with the index built. */
  lemma IndexedRunOfConsistent(c: Columns, k: Counters, added: seq<EdgeRow>, n: nat)
    requires Consistent(c, k, added) && k.isIndexBuilt && n < k.nodeCapacity
    ensures Shaped(c, k) && c.nodeEdgeStartIndex[n] + c.nodeEdgeCount[n] <= k.edgeCount
    ensures StoredEdges(c, k)[c.nodeEdgeStartIndex[n]..c.nodeEdgeStartIndex[n] + c.nodeEdgeCount[n]]
            == Filter(added, SourceIs(n))
  {
    IndexedRun(c, k, added, n);
  }

  /** From `start`, the target and type columns hold the targets and types of `run`. */
  predicate RunAt(targets: seq<nat>, kinds: seq<EdgeType>, start: nat, run: seq<EdgeRow>)
  {
    && start + |run| <= |targets| && start + |run| <= |kinds|
    && (forall j :: 0 <= j < |run| ==> targets[start + j] == run[j].target)
    && (forall j :: 0 <= j < |run| ==> kinds[start + j] == run[j].kind)
  }

  /** A slice of the stored edges, read column by column. */
  lemma SliceColumns(c: Columns, k: Counters, start: nat, count: nat, run: seq<EdgeRow>)
    requires Shaped(c, k) && start + count <= k.edgeCount
    requires StoredEdges(c, k)[start..start + count] == run
    ensures |run| == count && RunAt(c.edgeTargetNodeId, c.edgeType, start, run)
  {
    forall j | 0 <= j < count
      ensures c.edgeTargetNodeId[start + j] == run[j].target && c.edgeType[start + j] == run[j].kind
    {
      assert run[j] == StoredEdges(c, k)[start + j];
      StoredEdgeAt(c, k, start + j);
    }
  }

  /** Without a type, the run's targets are all of them. */
  lemma AllTargets(all: seq<nat>, run: seq<EdgeRow>)
    requires |all| == |run| && forall j :: 0 <= j < |run| ==> all[j] == run[j].target
    ensures all == Map(Filter(run, KindMatches(None)), TargetOf)
  {
    FilterKeepsAll(run, KindMatches(None));
  }

  lemma NeighborsSnoc(run: seq<EdgeRow>, i: nat, t: Option<EdgeType>)
    requires i < |run|
    ensures Map(Filter(run[..i + 1], KindMatches(t)), TargetOf)
            == Map(Filter(run[..i], KindMatches(t)), TargetOf) + (if KindMatches(t)(run[i]) then [run[i].target] else [])
  {
    assert run[..i + 1] == run[..i] + [run[i]];
    FilterAppend(run[..i], [run[i]], KindMatches(t));
    MapAppend(Filter(run[..i], KindMatches(t)), Filter([run[i]], KindMatches(t)), TargetOf);
  }

  /** The neighbours are the targets of the matching edges out of `n`, and nothing else. */
  lemma NeighborsMembership(edges: seq<EdgeRow>, n: int, t: Option<EdgeType>, x: nat)
    ensures x in Neighbors(edges, n, t) <==>
            exists e :: e in edges && e.source == n && (t.None? || e.kind == t.value) && e.target == x
  {
    var matching := Filter(Filter(edges, SourceIs(n)), KindMatches(t));
    if x in Neighbors(edges, n, t) {
      var i :| 0 <= i < |matching| && Map(matching, TargetOf)[i] == x;
      assert matching[i] in matching;
    } else {
      forall e | e in edges && e.source == n && (t.None? || e.kind == t.value) ensures e.target != x {
        assert e in matching;
        var i :| 0 <= i < |matching| && matching[i] == e;
        assert Map(matching, TargetOf)[i] == e.target;
      }
    }
  }

  /** Without a type filter, a node has one neighbour per edge out of it. */
  lemma UntypedNeighborsCount(edges: seq<EdgeRow>, n: int)
    ensures |Neighbors(edges, n, None)| == Count(edges, SourceIs(n))
  {
    FilterKeepsAll(Filter(edges, SourceIs(n)), KindMatches(None));
  }

  /** Sorting the edges by source does not change any node's neighbours or their order. */
  lemma NeighborsAfterSort(edges: seq<EdgeRow>, n: int, t: Option<EdgeType>)
    ensures Neighbors(SortBySource(edges), n, t) == Neighbors(edges, n, t)
  {
    SortBySourceStable(edges, n);
  }

  /** A graph with no nodes and no edges, whatever its columns hold, satisfies the invariant. */
  lemma EmptyConsistent(c: Columns, k: Counters)
    requires Shaped(c, k) && k.nodeCount == 0 && k.edgeCount == 0 && !k.isIndexBuilt
    ensures Consistent(c, k, []) && StoredNodes(c, k) == [] && StoredEdges(c, k) == []
  {
  }

  /*
   * The column sizing of the source as written. Its `resize` reallocates the
   * node attribute columns and the edge columns but never the two index
   * columns, which keep the constructor's length; a typed-array write past
   * the end is dropped and a read past it gives `undefined`. And a capacity
   * of 0 doubles to 0, so the first write is dropped too. The class below
   * keeps the intended sizing: `Resize` grows the index columns with the
   * node columns (`Shaped` ties their lengths to the node capacity) and a
   * full empty column grows to `GrownCapacity(0) == 1`.
   */

  /** Column lengths and the node count, as the source as written leaves them. */
  datatype Layout = Layout(nodeCapacity: nat, edgeCapacity: nat, indexLength: nat, nodeCount: nat)

  /** `new NlpGraph({nodeCapacity: capacity})`: every column at `capacity`, no nodes. */
  function NewLayout(capacity: nat): Layout
  {
    Layout(capacity, capacity, capacity, 0)
  }

  /** `resize` as written: the index columns are left at their length. */
  function ResizeAsWritten(l: Layout, newCapacity: nat): (r: Layout)
    ensures r.indexLength == l.indexLength && r.nodeCount == l.nodeCount
    ensures r.nodeCapacity >= newCapacity && r.edgeCapacity >= newCapacity
    ensures r.nodeCapacity >= l.nodeCapacity && r.edgeCapacity >= l.edgeCapacity
  {
    l.(nodeCapacity := Max(l.nodeCapacity, newCapacity), edgeCapacity := Max(l.edgeCapacity, newCapacity))
  }

  /** Where `addNode`'s writes land: the new layout, whether the row fits the node columns, whether `nodeEdgeCount[id] = 0` fits the index. */
  datatype NodeWrite = NodeWrite(layout: Layout, rowStored: bool, countStored: bool)

  /** `addNode` as written: grow by doubling when full, then write at `nodeCount`. */
  function AddNodeAsWritten(l: Layout): (w: NodeWrite)
    ensures w.layout.nodeCount == l.nodeCount + 1 && w.layout.indexLength == l.indexLength
    ensures w.rowStored <==> l.nodeCount < l.nodeCapacity || (l.nodeCapacity > 0 && l.nodeCount < 2 * l.nodeCapacity)
    ensures w.countStored <==> l.nodeCount < l.indexLength
  {
    var l1 := if l.nodeCount >= l.nodeCapacity then ResizeAsWritten(l, l.nodeCapacity * 2) else l;
    NodeWrite(l1.(nodeCount := l.nodeCount + 1), l.nodeCount < l1.nodeCapacity, l.nodeCount < l1.indexLength)
  }

  /**
   * `getNeighbors` as written on an index whose columns have length
   * `indexLength`: inside them the counting loop of `buildIndex` is the
   * intended one; past them its writes were dropped, start and count read
   * `undefined`, and the result is empty.
   */
  function NeighborsAsWritten(edges: seq<EdgeRow>, indexLength: nat, n: int, t: Option<EdgeType>): seq<nat>
  {
    if 0 <= n < indexLength then Neighbors(edges, n, t) else []
  }

  /**
   * From capacity 1, the second node's row lands in the doubled node columns
   * but its index slot does not exist: after an edge 1 -> 0 and `buildIndex`,
   * node 1 has neighbour 0 yet the as-written lookup returns nothing.
   */
  lemma IndexOverrun()
    ensures var w1 := AddNodeAsWritten(NewLayout(1));
            var w2 := AddNodeAsWritten(w1.layout);
            && w1.rowStored && w1.countStored && w2.rowStored && !w2.countStored
            && w2.layout.nodeCount == 2 && w2.layout.indexLength == 1
    ensures Neighbors([EdgeRow(1, 0, Dependency)], 1, None) == [0]
    ensures NeighborsAsWritten([EdgeRow(1, 0, Dependency)], 1, 1, None) == []
  {
  }

  /** With capacity 0 the doubling gives 0: the first node's row is dropped, while the intended growth gives room. */
  lemma ZeroCapacityDropsRow()
    ensures !AddNodeAsWritten(NewLayout(0)).rowStored
    ensures AddNodeAsWritten(NewLayout(0)).layout.nodeCount == 1
    ensures GrownCapacity(0) > 0
  {
  }

  const DefaultCapacity: nat := 10000
  const IndexBuiltMessage := "Cannot add edges after the index has been built."
  const MissingNodeMessage := "Edge connects to a non-existent node."
  const IndexMissingMessage := "Index must be built before getting neighbors. Call buildIndex()."

  /** `const b = new XArray(n); b.set(a)`: a fresh zero-filled array of length `n` holding `a` as its prefix. */
  method Reallocate<T>(a: array<T>, n: nat, zero: T) returns (b: array<T>)
    requires a.Length <= n
    ensures fresh(b) && b[..] == Grown(a[..], n, zero)
  {
    var contents := Grown(a[..], n, zero);
    b := new T[n](i requires 0 <= i < n => contents[i]);
  }

  /** `new XArray(values)`: a fresh array holding `values`. */
  method FromSeq<T>(values: seq<T>) returns (a: array<T>)
    ensures fresh(a) && a[..] == values
  {
    a := new T[|values|](i requires 0 <= i < |values| => values[i]);
  }

  // ---------------------------------------------------------------------------
  // The class: arrays and counters, whose contents always satisfy `Consistent`.

  class NlpGraph {
    var nodeType: array<NodeType>
    var nodeSourceIndex: array<nat>
    var nodeParentId: array<nat>
    var edgeSourceNodeId: array<nat>
    var edgeTargetNodeId: array<nat>
    var edgeType: array<EdgeType>
    var nodeEdgeStartIndex: array<nat>
    var nodeEdgeCount: array<nat>
    var nodeCapacity: nat
    var edgeCapacity: nat
    var nodeCount: nat
    var edgeCount: nat
    var isIndexBuilt: bool
    /** The edges accepted by `addEdge`, in the order they were added. */
    ghost var added: seq<EdgeRow>

    function Contents(): Columns
      reads this, nodeType, nodeSourceIndex, nodeParentId, edgeSourceNodeId, edgeTargetNodeId, edgeType,
            nodeEdgeStartIndex, nodeEdgeCount
    {
      Columns(nodeType[..], nodeSourceIndex[..], nodeParentId[..], edgeSourceNodeId[..], edgeTargetNodeId[..],
              edgeType[..], nodeEdgeStartIndex[..], nodeEdgeCount[..])
    }

    function Counts(): Counters
      reads this
    {
      Counters(nodeCapacity, edgeCapacity, nodeCount, edgeCount, isIndexBuilt)
    }

    /** No two columns share an array. */
    predicate Separate()
      reads this
    {
      && nodeSourceIndex != nodeParentId && nodeSourceIndex != edgeSourceNodeId
      && nodeSourceIndex != edgeTargetNodeId && nodeSourceIndex != nodeEdgeStartIndex
      && nodeSourceIndex != nodeEdgeCount
      && nodeParentId != edgeSourceNodeId && nodeParentId != edgeTargetNodeId
      && nodeParentId != nodeEdgeStartIndex && nodeParentId != nodeEdgeCount
      && edgeSourceNodeId != edgeTargetNodeId && edgeSourceNodeId != nodeEdgeStartIndex
      && edgeSourceNodeId != nodeEdgeCount
      && edgeTargetNodeId != nodeEdgeStartIndex && edgeTargetNodeId != nodeEdgeCount
      && nodeEdgeStartIndex != nodeEdgeCount
    }

    ghost predicate Valid()
      reads this, nodeType, nodeSourceIndex, nodeParentId, edgeSourceNodeId, edgeTargetNodeId, edgeType,
            nodeEdgeStartIndex, nodeEdgeCount
    {
      Separate() && Consistent(Contents(), Counts(), added)
    }

    /** The stored nodes, by id. */
    function Nodes(): seq<NodeRow>
      requires Valid()
      reads this, nodeType, nodeSourceIndex, nodeParentId, edgeSourceNodeId, edgeTargetNodeId, edgeType,
            nodeEdgeStartIndex, nodeEdgeCount
    {
      StoredNodes(Contents(), Counts())
    }

    /** The stored edges, by position in the edge columns. */
    function Edges(): seq<EdgeRow>
      requires Valid()
      reads this, nodeType, nodeSourceIndex, nodeParentId, edgeSourceNodeId, edgeTargetNodeId, edgeType,
            nodeEdgeStartIndex, nodeEdgeCount
    {
      StoredEdges(Contents(), Counts())
    }

    /** `new NlpGraph({ nodeCapacity, edgeCapacity })`: the edge capacity defaults to the node capacity. */
    constructor (nodeCapacityOption: Option<nat>, edgeCapacityOption: Option<nat>)
      ensures Valid()
      ensures nodeCapacity == (if nodeCapacityOption.Some? then nodeCapacityOption.value else DefaultCapacity)
      ensures edgeCapacity == (if edgeCapacityOption.Some? then edgeCapacityOption.value else nodeCapacity)
      ensures nodeCount == 0 && edgeCount == 0 && !isIndexBuilt && added == []
      ensures Nodes() == [] && Edges() == []
    {
      var n := if nodeCapacityOption.Some? then nodeCapacityOption.value else DefaultCapacity;
      var e := if edgeCapacityOption.Some? then edgeCapacityOption.value else n;
      nodeCapacity := n;
      edgeCapacity := e;
      nodeCount := 0;
      edgeCount := 0;
      isIndexBuilt := false;
      added := [];
      nodeType := new NodeType[n](_ => Token);
      nodeSourceIndex := new nat[n](_ => 0);
      nodeParentId := new nat[n](_ => 0);
      edgeSourceNodeId := new nat[e](_ => 0);
      edgeTargetNodeId := new nat[e](_ => 0);
      edgeType := new EdgeType[e](_ => Dependency);
      nodeEdgeStartIndex := new nat[n](_ => 0);
      nodeEdgeCount := new nat[n](_ => 0);
      new;
      EmptyConsistent(Contents(), Counts());
    }

    /** The first branch of `resize`: node capacity and node columns raised to `newCapacity`. */
    method GrowNodeColumns(newCapacity: nat)
      requires Separate()
      requires nodeType.Length <= newCapacity && nodeSourceIndex.Length <= newCapacity
      requires nodeParentId.Length <= newCapacity
      modifies this
      ensures Separate() && added == old(added)
      ensures nodeType[..] == Grown(old(nodeType[..]), newCapacity, Token)
      ensures nodeSourceIndex[..] == Grown(old(nodeSourceIndex[..]), newCapacity, 0)
      ensures nodeParentId[..] == Grown(old(nodeParentId[..]), newCapacity, 0)
      ensures Counts() == old(Counts()).(nodeCapacity := newCapacity)
      ensures fresh(nodeType) && fresh(nodeSourceIndex) && fresh(nodeParentId)
      ensures edgeSourceNodeId == old(edgeSourceNodeId) && edgeTargetNodeId == old(edgeTargetNodeId)
      ensures edgeType == old(edgeType)
      ensures nodeEdgeStartIndex == old(nodeEdgeStartIndex) && nodeEdgeCount == old(nodeEdgeCount)
    {
      var kinds := Reallocate(nodeType, newCapacity, Token);
      var sources := Reallocate(nodeSourceIndex, newCapacity, 0);
      var parents := Reallocate(nodeParentId, newCapacity, 0);
      nodeType, nodeSourceIndex, nodeParentId := kinds, sources, parents;
      nodeCapacity := newCapacity;
    }

    /**
     * The two index columns raised to `newCapacity` alongside the node
     * columns, which the as-written `resize` omits (see `ResizeAsWritten`).
     */
    method GrowIndexColumns(newCapacity: nat)
      requires Separate()
      requires nodeEdgeStartIndex.Length <= newCapacity && nodeEdgeCount.Length <= newCapacity
      modifies this
      ensures Separate() && added == old(added)
      ensures nodeEdgeStartIndex[..] == Grown(old(nodeEdgeStartIndex[..]), newCapacity, 0)
      ensures nodeEdgeCount[..] == Grown(old(nodeEdgeCount[..]), newCapacity, 0)
      ensures Counts() == old(Counts())
      ensures fresh(nodeEdgeStartIndex) && fresh(nodeEdgeCount)
      ensures nodeType == old(nodeType) && nodeSourceIndex == old(nodeSourceIndex)
      ensures nodeParentId == old(nodeParentId)
      ensures edgeSourceNodeId == old(edgeSourceNodeId) && edgeTargetNodeId == old(edgeTargetNodeId)
      ensures edgeType == old(edgeType)
    {
      var starts := Reallocate(nodeEdgeStartIndex, newCapacity, 0);
      var counts := Reallocate(nodeEdgeCount, newCapacity, 0);
      nodeEdgeStartIndex, nodeEdgeCount := starts, counts;
    }

    /** The second branch of `resize`: edge capacity and edge columns raised to `newCapacity`. */
    method GrowEdgeColumns(newCapacity: nat)
      requires Separate()
      requires edgeSourceNodeId.Length <= newCapacity && edgeTargetNodeId.Length <= newCapacity
      requires edgeType.Length <= newCapacity
      modifies this
      ensures Separate() && added == old(added)
      ensures edgeSourceNodeId[..] == Grown(old(edgeSourceNodeId[..]), newCapacity, 0)
      ensures edgeTargetNodeId[..] == Grown(old(edgeTargetNodeId[..]), newCapacity, 0)
      ensures edgeType[..] == Grown(old(edgeType[..]), newCapacity, Dependency)
      ensures Counts() == old(Counts()).(edgeCapacity := newCapacity)
      ensures fresh(edgeSourceNodeId) && fresh(edgeTargetNodeId) && fresh(edgeType)
      ensures nodeType == old(nodeType) && nodeSourceIndex == old(nodeSourceIndex)
      ensures nodeParentId == old(nodeParentId)
      ensures nodeEdgeStartIndex == old(nodeEdgeStartIndex) && nodeEdgeCount == old(nodeEdgeCount)
    {
      var sources := Reallocate(edgeSourceNodeId, newCapacity, 0);
      var targets := Reallocate(edgeTargetNodeId, newCapacity, 0);
      var kinds := Reallocate(edgeType, newCapacity, Dependency);
      edgeSourceNodeId, edgeTargetNodeId, edgeType := sources, targets, kinds;
      edgeCapacity := newCapacity;
    }

    /**
     * `resize(newCapacity)`: each group of columns whose capacity is below
     * `newCapacity` is copied into fresh zero-filled arrays of that length.
     * The node group here includes the two index columns, which the
     * as-written code leaves at their old length (see `ResizeAsWritten`).
     */
    method Resize(newCapacity: nat)
      requires Valid()
      modifies this
      ensures Valid()
      ensures Contents() == ResizeColumns(old(Contents()), old(Counts()), newCapacity)
      ensures Counts() == ResizeCounters(old(Counts()), newCapacity)
      ensures added == old(added)
      ensures Nodes() == old(Nodes()) && Edges() == old(Edges())
      ensures nodeType == old(nodeType) || fresh(nodeType)
      ensures nodeSourceIndex == old(nodeSourceIndex) || fresh(nodeSourceIndex)
      ensures nodeParentId == old(nodeParentId) || fresh(nodeParentId)
      ensures edgeSourceNodeId == old(edgeSourceNodeId) || fresh(edgeSourceNodeId)
      ensures edgeTargetNodeId == old(edgeTargetNodeId) || fresh(edgeTargetNodeId)
      ensures edgeType == old(edgeType) || fresh(edgeType)
      ensures nodeEdgeStartIndex == old(nodeEdgeStartIndex) || fresh(nodeEdgeStartIndex)
      ensures nodeEdgeCount == old(nodeEdgeCount) || fresh(nodeEdgeCount)
    {
      ghost var c, k := Contents(), Counts();
      ResizeConsistent(c, k, added, newCapacity);
      if newCapacity > nodeCapacity {
        GrowNodeColumns(newCapacity);
        GrowIndexColumns(newCapacity);
      }
      if newCapacity > edgeCapacity {
        GrowEdgeColumns(newCapacity);
      }
      assert Contents() == ResizeColumns(c, k, newCapacity);
    }

    /** The four column writes of `addNode` at slot `id`. */
    method WriteNode(id: nat, kind: NodeType, sourceIndex: nat, parentId: nat)
      requires Separate()
      requires id < nodeType.Length && id < nodeSourceIndex.Length && id < nodeParentId.Length
      requires id < nodeEdgeCount.Length
      modifies nodeType, nodeSourceIndex, nodeParentId, nodeEdgeCount
      ensures Contents() == AddNodeColumns(old(Contents()), id, kind, sourceIndex, parentId)
    {
      nodeType[id] := kind;
      nodeSourceIndex[id] := sourceIndex;
      nodeParentId[id] := parentId;
      nodeEdgeCount[id] := 0;
    }

    /** `addNode` once there is room: write slot `nodeCount` and count the node. */
    method AppendNode(kind: NodeType, sourceIndex: nat, parentId: nat) returns (id: nat)
      requires Valid() && nodeCount < nodeCapacity
      modifies this, nodeType, nodeSourceIndex, nodeParentId, nodeEdgeCount
      ensures Valid()
      ensures id == old(nodeCount) && Counts() == old(Counts()).(nodeCount := id + 1)
      ensures Nodes() == old(Nodes()) + [NodeRow(kind, sourceIndex, parentId)]
      ensures Edges() == old(Edges()) && added == old(added)
    {
      ghost var c, k := Contents(), Counts();
      AddNodeConsistent(c, k, added, kind, sourceIndex, parentId);
      id := nodeCount;
      WriteNode(id, kind, sourceIndex, parentId);
      ghost var c' := Contents();
      nodeCount := nodeCount + 1;
      assert Contents() == c' && Counts() == k.(nodeCount := id + 1);
    }

    /**
     * `addNode(type, sourceIndex, parentId)`: a full node group is first
     * grown (to twice its capacity, and to one when it is zero); the node's
     * id is the old node count. The two indices are stored as `Uint32`.
     */
    method AddNode(kind: NodeType, sourceIndex: int, parentId: int) returns (id: nat)
      requires Valid()
      modifies this, nodeType, nodeSourceIndex, nodeParentId, nodeEdgeCount
      ensures Valid()
      ensures id == old(nodeCount) && nodeCount == id + 1
      ensures Nodes() == old(Nodes()) + [NodeRow(kind, ToUint32(sourceIndex), ToUint32(parentId))]
      ensures Edges() == old(Edges()) && added == old(added)
      ensures edgeCount == old(edgeCount) && isIndexBuilt == old(isIndexBuilt)
      ensures old(nodeCount) < old(nodeCapacity) ==>
                nodeCapacity == old(nodeCapacity) && edgeCapacity == old(edgeCapacity)
      ensures old(nodeCount) == old(nodeCapacity) ==>
                nodeCapacity == GrownCapacity(old(nodeCapacity)) && edgeCapacity == Max(old(edgeCapacity), nodeCapacity)
    {
      if nodeCount >= nodeCapacity {
        Resize(GrownCapacity(nodeCapacity));
      }
      id := AppendNode(kind, ToUint32(sourceIndex), ToUint32(parentId));
    }

    /** The three column writes of `addEdge` at slot `id`. */
    method WriteEdge(id: nat, source: nat, target: nat, kind: EdgeType)
      requires Separate()
      requires id < edgeSourceNodeId.Length && id < edgeTargetNodeId.Length && id < edgeType.Length
      modifies edgeSourceNodeId, edgeTargetNodeId, edgeType
      ensures Contents() == AddEdgeColumns(old(Contents()), id, source, target, kind)
    {
      edgeSourceNodeId[id] := source;
      edgeTargetNodeId[id] := target;
      edgeType[id] := kind;
    }

    /** `addEdge` once there is room and both endpoints exist: write slot `edgeCount` and count the edge. */
    method AppendEdge(source: nat, target: nat, kind: EdgeType) returns (id: nat)
      requires Valid() && !isIndexBuilt && edgeCount < edgeCapacity
      requires source < nodeCount && target < nodeCount
      modifies this, edgeSourceNodeId, edgeTargetNodeId, edgeType
      ensures Valid()
      ensures id == old(edgeCount) && Counts() == old(Counts()).(edgeCount := id + 1)
      ensures added == old(added) + [EdgeRow(source, target, kind)]
      ensures Edges() == old(Edges()) + [EdgeRow(source, target, kind)]
      ensures Nodes() == old(Nodes())
    {
      ghost var c, k := Contents(), Counts();
      AddEdgeConsistent(c, k, added, source, target, kind);
      id := edgeCount;
      WriteEdge(id, source, target, kind);
      ghost var c' := Contents();
      edgeCount := edgeCount + 1;
      added := added + [EdgeRow(source, target, kind)];
      assert Contents() == c' && Counts() == k.(edgeCount := id + 1);
    }

    /**
     * `addEdge(sourceNodeId, targetNodeId, type)`: refused once the index is
     * built; otherwise a full edge group is grown first (to twice its
     * capacity, and to one when it is zero), and only then are the endpoints
     * checked, so a refused edge may still have grown the columns. The
     * edge's id is the old edge count.
     */
    method AddEdge(source: nat, target: nat, kind: EdgeType) returns (r: Result<nat, string>)
      requires Valid()
      modifies this, edgeSourceNodeId, edgeTargetNodeId, edgeType
      ensures Valid()
      ensures Nodes() == old(Nodes()) && nodeCount == old(nodeCount) && isIndexBuilt == old(isIndexBuilt)
      ensures old(isIndexBuilt) ==>
                r == Failure(IndexBuiltMessage) && Counts() == old(Counts()) && Edges() == old(Edges())
                && added == old(added)
      ensures !old(isIndexBuilt) && (source >= old(nodeCount) || target >= old(nodeCount)) ==>
                r == Failure(MissingNodeMessage) && edgeCount == old(edgeCount) && Edges() == old(Edges())
                && added == old(added)
      ensures !old(isIndexBuilt) && source < old(nodeCount) && target < old(nodeCount) ==>
                r == Success(old(edgeCount)) && edgeCount == old(edgeCount) + 1
                && added == old(added) + [EdgeRow(source, target, kind)]
                && Edges() == old(Edges()) + [EdgeRow(source, target, kind)]
      ensures !old(isIndexBuilt) && old(edgeCount) < old(edgeCapacity) ==>
                edgeCapacity == old(edgeCapacity) && nodeCapacity == old(nodeCapacity)
      ensures !old(isIndexBuilt) && old(edgeCount) == old(edgeCapacity) ==>
                edgeCapacity == GrownCapacity(old(edgeCapacity)) && nodeCapacity == Max(old(nodeCapacity), edgeCapacity)
    {
      if isIndexBuilt {
        return Failure(IndexBuiltMessage);
      }
      if edgeCount >= edgeCapacity {
        Resize(GrownCapacity(edgeCapacity));
      }
      if source >= nodeCount || target >= nodeCount {
        return Failure(MissingNodeMessage);
      }
      var id := AppendEdge(source, target, kind);
      r := Success(id);
    }

    /** The reordered edge columns of `buildIndex`: fresh arrays of exactly the sorted edges. */
    method ReplaceEdgeColumns(sorted: seq<EdgeRow>)
      requires Separate()
      modifies this
      ensures Separate() && added == old(added) && Counts() == old(Counts())
      ensures Contents() == old(Contents()).(edgeSourceNodeId := SourcesOf(sorted),
                                             edgeTargetNodeId := TargetsOf(sorted), edgeType := KindsOf(sorted))
      ensures nodeEdgeStartIndex == old(nodeEdgeStartIndex) && nodeEdgeCount == old(nodeEdgeCount)
    {
      var sources := FromSeq(SourcesOf(sorted));
      var targets := FromSeq(TargetsOf(sorted));
      var kinds := FromSeq(KindsOf(sorted));
      edgeSourceNodeId, edgeTargetNodeId, edgeType := sources, targets, kinds;
    }

    /** `fill(0)` on both index columns. */
    method ClearIndex()
      requires Separate()
      modifies nodeEdgeStartIndex, nodeEdgeCount
      ensures Contents() == old(Contents()).(nodeEdgeStartIndex := seq(nodeEdgeStartIndex.Length, _ => 0),
                                             nodeEdgeCount := seq(nodeEdgeCount.Length, _ => 0))
    {
      forall i | 0 <= i < nodeEdgeStartIndex.Length {
        nodeEdgeStartIndex[i] := 0;
      }
      forall i | 0 <= i < nodeEdgeCount.Length {
        nodeEdgeCount[i] := 0;
      }
    }

    /** The loop body of `buildIndex`'s counting pass for the edge at `position` out of `source`. */
    method CountEdge(source: nat, position: nat, changed: bool)
      requires Separate() && source < nodeEdgeCount.Length && source < nodeEdgeStartIndex.Length
      modifies nodeEdgeStartIndex, nodeEdgeCount
      ensures nodeEdgeCount[..] == old(nodeEdgeCount[..])[source := old(nodeEdgeCount[source]) + 1]
      ensures nodeEdgeStartIndex[..] == if changed then old(nodeEdgeStartIndex[..])[source := position]
                                        else old(nodeEdgeStartIndex[..])
    {
      nodeEdgeCount[source] := nodeEdgeCount[source] + 1;
      if changed {
        nodeEdgeStartIndex[source] := position;
      }
    }

    /**
     * The counting pass of `buildIndex` over the sorted edges: each edge
     * bumps its source's count, and a source that differs from the previous
     * edge's records its start.
     */
    method CountRuns(sorted: seq<EdgeRow>, ghost edges: seq<EdgeRow>)
      requires Separate()
      requires sorted == SortBySource(edges) && |sorted| == edgeCount <= edgeSourceNodeId.Length
      requires forall i :: 0 <= i < |sorted| ==> edgeSourceNodeId[i] == sorted[i].source
      requires forall i :: 0 <= i < |sorted| ==> sorted[i].source < nodeEdgeCount.Length
      requires nodeEdgeStartIndex[..] == seq(nodeEdgeStartIndex.Length, _ => 0)
      requires nodeEdgeCount[..] == seq(nodeEdgeCount.Length, _ => 0)
      requires nodeEdgeStartIndex.Length == nodeEdgeCount.Length
      modifies nodeEdgeStartIndex, nodeEdgeCount
      ensures IndexUpTo(nodeEdgeStartIndex[..], nodeEdgeCount[..], sorted, |sorted|)
    {
      IndexStart(nodeEdgeCount.Length, sorted);
      if edgeCount == 0 {
        return;
      }
      var i := 0;
      while i < edgeCount
        invariant 0 <= i <= edgeCount
        invariant IndexUpTo(nodeEdgeStartIndex[..], nodeEdgeCount[..], sorted, i)
      {
        CountAt(sorted, edges, i);
        i := i + 1;
      }
    }

    /** One pass of the counting loop: edge `i` is counted under its source. */
    method CountAt(sorted: seq<EdgeRow>, ghost edges: seq<EdgeRow>, i: nat)
      requires Separate()
      requires sorted == SortBySource(edges) && i < |sorted| <= edgeSourceNodeId.Length
      requires forall j :: 0 <= j < |sorted| ==> edgeSourceNodeId[j] == sorted[j].source
      requires forall j :: 0 <= j < |sorted| ==> sorted[j].source < nodeEdgeCount.Length
      requires nodeEdgeStartIndex.Length == nodeEdgeCount.Length
      requires IndexUpTo(nodeEdgeStartIndex[..], nodeEdgeCount[..], sorted, i)
      modifies nodeEdgeStartIndex, nodeEdgeCount
      ensures IndexUpTo(nodeEdgeStartIndex[..], nodeEdgeCount[..], sorted, i + 1)
    {
      var source := edgeSourceNodeId[i];
      var changed := i > 0 && source != edgeSourceNodeId[i - 1];
      assert changed == (i > 0 && sorted[i].source != sorted[i - 1].source);
      ghost var starts, counts := nodeEdgeStartIndex[..], nodeEdgeCount[..];
      IndexStepOfSorted(starts, counts, sorted, edges, i);
      CountEdge(source, i, changed);
      CountedEdge(starts, counts, nodeEdgeStartIndex[..], nodeEdgeCount[..], sorted, i, source, changed);
    }

    /** `buildIndex` on a graph not yet indexed. */
    method IndexEdges()
      requires Valid() && !isIndexBuilt
      modifies this, nodeEdgeStartIndex, nodeEdgeCount
      ensures Valid() && Counts() == old(Counts()).(isIndexBuilt := true)
      ensures added == old(added) && Nodes() == old(Nodes())
    {
      ghost var c, k := Contents(), Counts();
      var sorted := SortBySource(Edges());
      SortedEndpoints(c, k, added);
      ReplaceEdgeColumns(sorted);
      ClearIndex();
      CountRuns(sorted, added);
      BuildIndexConsistent(c, k, added, nodeEdgeStartIndex[..], nodeEdgeCount[..]);
      ghost var c' := Contents();
      assert c' == IndexedColumns(c, sorted, nodeEdgeStartIndex[..], nodeEdgeCount[..]);
      isIndexBuilt := true;
      assert Contents() == c' && Counts() == k.(isIndexBuilt := true);
    }

    /**
     * `buildIndex()`: does nothing once built; otherwise reorders the edges
     * stably by source into arrays of exactly `edgeCount` entries, clears
     * the index, counts the runs and marks the index built. Afterwards each
     * node's start and count delimit exactly its added edges, in the order
     * they were added.
     */
    method BuildIndex()
      requires Valid()
      modifies this, nodeEdgeStartIndex, nodeEdgeCount
      ensures Valid() && isIndexBuilt
      ensures Counts() == old(Counts()).(isIndexBuilt := true)
      ensures added == old(added) && Nodes() == old(Nodes())
      ensures Edges() == SortBySource(added)
      ensures old(isIndexBuilt) ==> Contents() == old(Contents())
      ensures RunsIndexed(Contents(), Counts(), added)
    {
      if !isIndexBuilt {
        IndexEdges();
      }
      IndexedRuns(Contents(), Counts(), added);
    }

    /**
     * The reading part of `getNeighbors` for an id inside the index: the
     * targets of the `count` edges from `start`, kept only when their type is
     * `t` if one is given.
     */
    method ReadRun(start: nat, count: nat, t: Option<EdgeType>, ghost run: seq<EdgeRow>) returns (targets: seq<nat>)
      requires |run| == count && RunAt(edgeTargetNodeId[..], edgeType[..], start, run)
      ensures targets == Map(Filter(run, KindMatches(t)), TargetOf)
    {
      var all := edgeTargetNodeId[start..start + count];
      if t.None? {
        AllTargets(all, run);
        return all;
      }
      targets := [];
      var i := 0;
      while i < count
        invariant 0 <= i <= count
        invariant targets == Map(Filter(run[..i], KindMatches(t)), TargetOf)
      {
        NeighborsSnoc(run, i, t);
        if edgeType[start + i] == t.value {
          targets := targets + [all[i]];
        }
        i := i + 1;
      }
      assert run[..count] == run;
    }

    /** `getNeighbors` for an id inside the index: the targets of the matching edges added out of it. */
    method IndexedNeighbors(nodeId: nat, t: Option<EdgeType>) returns (targets: seq<nat>)
      requires Valid() && isIndexBuilt && nodeId < nodeEdgeCount.Length
      ensures targets == Neighbors(added, nodeId, t)
    {
      ghost var run := Filter(added, SourceIs(nodeId));
      RunColumns(Contents(), Counts(), added, nodeId, run);
      targets := ReadRun(nodeEdgeStartIndex[nodeId], nodeEdgeCount[nodeId], t, run);
    }

    /**
     * `getNeighbors(nodeId, edgeType)`: refused until the index is built;
     * otherwise the targets of the run recorded for `nodeId`, kept only when
     * their edge has type `t` if one is given. An id outside the index
     * columns reads `undefined` for start and count, which yields an empty
     * result on both paths.
     */
    method GetNeighbors(nodeId: int, t: Option<EdgeType>) returns (r: Result<seq<nat>, string>)
      requires Valid()
      ensures !isIndexBuilt ==> r == Failure(IndexMissingMessage)
      ensures isIndexBuilt ==> r == Success(Neighbors(added, nodeId, t))
    {
      if !isIndexBuilt {
        return Failure(IndexMissingMessage);
      }
      if nodeId < 0 || nodeId >= nodeEdgeCount.Length {
        NoNeighborsOutside(Contents(), Counts(), added, nodeId, t);
        return Success([]);
      }
      var targets := IndexedNeighbors(nodeId, t);
      return Success(targets);
    }
  }
}
