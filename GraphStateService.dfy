/**
 * `GraphStateServiceLive` of graph/services/state.ts: a keyed store of
 * `NlpGraph` instances held in a JavaScript `Map`, with `createGraph`,
 * `getGraph`, `updateGraph` and `listGraphs`.
 *
 * The store is the value `Store`: the map from id to graph plus the key
 * order a `Map` keeps (insertion order; `set` on a present key keeps its
 * place). The service is a class whose one field holds it. The random UUID
 * behind a new id is a parameter.
 */
module GraphStateService {
  import opened Wrappers
  import opened Seqs
  import opened Nlp

  type GraphId = string

  /** `GraphNotFoundError({graphId, reason: "GraphNotFound"})`. */
  datatype GraphNotFoundError = GraphNotFoundError(graphId: GraphId, reason: string)

  const GraphNotFound := "GraphNotFound"

  /** One entry of `listGraphs`: `{graphId}`. */
  datatype GraphRecord = GraphRecord(graphId: GraphId)

  /** The `Map` value: its entries and its keys in insertion order. */
  datatype Store = Store(graphs: map<GraphId, NlpGraph>, keys: seq<GraphId>)

  /** The key order lists every key of the map exactly once. */
  ghost predicate StoreValid(s: Store)
  {
    && (forall i, j :: 0 <= i < j < |s.keys| ==> s.keys[i] != s.keys[j])
    && (forall k :: k in s.keys <==> k in s.graphs)
  }

  /** `new Map()`. */
  function EmptyStore(): (s: Store)
    ensures StoreValid(s) && s.graphs == map[]
  {
    Store(map[], [])
  }

  /** `map.set(id, g)`: a new key goes last, a present key keeps its place. */
  function Put(s: Store, id: GraphId, g: NlpGraph): (r: Store)
    requires StoreValid(s)
    ensures StoreValid(r)
    ensures r.graphs == s.graphs[id := g]
    ensures id in s.graphs ==> r.keys == s.keys
    ensures id !in s.graphs ==> r.keys == s.keys + [id]
  {
    if id in s.graphs then Store(s.graphs[id := g], s.keys) else Store(s.graphs[id := g], s.keys + [id])
  }

  /** `getGraph(id)`: the stored graph, or `GraphNotFoundError` when the id is absent. */
  function Get(s: Store, id: GraphId): (r: Result<NlpGraph, GraphNotFoundError>)
    ensures r.Success? <==> id in s.graphs
    ensures r.Success? ==> r.value == s.graphs[id]
    ensures r.Failure? ==> r.error.graphId == id && r.error.reason == GraphNotFound
  {
    if id in s.graphs then Success(s.graphs[id]) else Failure(GraphNotFoundError(id, GraphNotFound))
  }

  /** `updateGraph(id, f)`: `getGraph`, then `set(id, f(graph))`. */
  function Update(s: Store, id: GraphId, f: NlpGraph -> NlpGraph): (r: Result<Store, GraphNotFoundError>)
    requires StoreValid(s)
    ensures r.Success? <==> id in s.graphs
    ensures r.Failure? ==> r.error == GraphNotFoundError(id, GraphNotFound)
    ensures r.Success? ==> StoreValid(r.value) && r.value.keys == s.keys
  {
    match Get(s, id)
    case Failure(e) => Failure(e)
    case Success(g) => Success(Put(s, id, f(g)))
  }

  /** `listGraphs`: one record per key, in key order. */
  function List(s: Store): (r: seq<GraphRecord>)
    ensures |r| == |s.keys|
    ensures forall i :: 0 <= i < |r| ==> r[i].graphId == s.keys[i]
  {
    Map(s.keys, id => GraphRecord(id))
  }

  /** A lookup right after `set` finds the new graph under its id and the old entry under any other. */
  lemma GetAfterPut(s: Store, id: GraphId, g: NlpGraph, other: GraphId)
    requires StoreValid(s)
    ensures Get(Put(s, id, g), id) == Success(g)
    ensures other != id ==> Get(Put(s, id, g), other) == Get(s, other)
  {
  }

  /** `updateGraph` replaces one entry and no other: every other id looks up as before. */
  lemma UpdateOthersUnchanged(s: Store, id: GraphId, f: NlpGraph -> NlpGraph, other: GraphId)
    requires StoreValid(s) && id in s.graphs && other != id
    ensures Update(s, id, f).Success?
    ensures Get(Update(s, id, f).value, id) == Success(f(s.graphs[id]))
    ensures Get(Update(s, id, f).value, other) == Get(s, other)
  {
  }

  /** There is one record per stored graph: the records name exactly the stored ids. */
  lemma ListedExactly(s: Store, id: GraphId)
    requires StoreValid(s)
    ensures |List(s)| == |s.graphs|
    ensures GraphRecord(id) in List(s) <==> id in s.graphs
  {
    KeysCardinality(s);
    if GraphRecord(id) in List(s) {
      var i :| 0 <= i < |List(s)| && List(s)[i] == GraphRecord(id);
      assert s.keys[i] == id;
    }
    if id in s.graphs {
      var i :| 0 <= i < |s.keys| && s.keys[i] == id;
      assert List(s)[i] == GraphRecord(id);
    }
  }

  /** Distinct keys listing the map's keys are as many as the map's entries. */
  lemma KeysCardinality(s: Store)
    requires StoreValid(s)
    ensures |s.keys| == |s.graphs|
  {
    assert s.graphs.Keys == set k | k in s.keys;
    DistinctCardinality(s.keys);
  }

  lemma {:induction false} DistinctCardinality<T>(ks: seq<T>)
    requires forall i, j :: 0 <= i < j < |ks| ==> ks[i] != ks[j]
    ensures |set k | k in ks| == |ks|
  {
    if ks != [] {
      DistinctCardinality(ks[1..]);
      assert (set k | k in ks) == (set k | k in ks[1..]) + {ks[0]};
      assert ks[0] !in ks[1..];
    }
  }

  /** `createGraph` with a fresh id adds exactly one entry and one listed record, the last. */
  lemma CreateAddsOne(s: Store, id: GraphId, g: NlpGraph)
    requires StoreValid(s) && id !in s.graphs
    ensures |Put(s, id, g).graphs| == |s.graphs| + 1
    ensures List(Put(s, id, g)) == List(s) + [GraphRecord(id)]
  {
    var r := List(Put(s, id, g));
    assert |r| == |List(s)| + 1;
    forall i | 0 <= i < |r| ensures r[i] == (List(s) + [GraphRecord(id)])[i] {
    }
  }

  /** The service: a cell holding the store. */
  class GraphStateServiceLive {
    var store: Store

    ghost predicate Valid()
      reads this
    {
      StoreValid(store)
    }

    /** `Ref.make(new Map())`. */
    constructor ()
      ensures Valid() && store == EmptyStore()
    {
      store := EmptyStore();
    }

    /**
     * `createGraph()`: the id `"graph-" + uuid` mapped to a new `NlpGraph()`
     * with the default capacities; both are returned.
     */
    method CreateGraph(uuid: string) returns (graphId: GraphId, graph: NlpGraph)
      requires Valid()
      modifies this
      ensures Valid()
      ensures graphId == "graph-" + uuid
      ensures fresh(graph) && graph.Valid() && graph.Nodes() == [] && graph.Edges() == []
      ensures graph.nodeCapacity == DefaultCapacity && graph.edgeCapacity == DefaultCapacity
      ensures store == Put(old(store), graphId, graph)
    {
      graphId := "graph-" + uuid;
      graph := new NlpGraph(None, None);
      store := Put(store, graphId, graph);
    }

    /** `getGraph(graphId)`. */
    method GetGraph(graphId: GraphId) returns (r: Result<NlpGraph, GraphNotFoundError>)
      ensures r == Get(store, graphId)
    {
      if graphId in store.graphs {
        r := Success(store.graphs[graphId]);
      } else {
        r := Failure(GraphNotFoundError(graphId, GraphNotFound));
      }
    }

    /** `updateGraph(graphId, f)`: on failure the store is untouched. */
    method UpdateGraph(graphId: GraphId, f: NlpGraph -> NlpGraph) returns (r: Result<(), GraphNotFoundError>)
      requires Valid()
      modifies this
      ensures Valid()
      ensures Update(old(store), graphId, f).Failure? ==>
                r == Failure(Update(old(store), graphId, f).error) && store == old(store)
      ensures Update(old(store), graphId, f).Success? ==>
                r == Success(()) && store == Update(old(store), graphId, f).value
    {
      var g := GetGraph(graphId);
      match g
      case Failure(e) =>
        r := Failure(e);
      case Success(graph) =>
        store := Put(store, graphId, f(graph));
        r := Success(());
    }

    /** `listGraphs`: one record per stored graph, in insertion order. */
    method ListGraphs() returns (r: seq<GraphRecord>)
      requires Valid()
      ensures r == List(store)
      ensures |r| == |store.graphs|
      ensures forall id :: GraphRecord(id) in r <==> id in store.graphs
    {
      r := List(store);
      forall id ensures GraphRecord(id) in r <==> id in store.graphs {
        ListedExactly(store, id);
      }
      KeysCardinality(store);
    }
  }
}
