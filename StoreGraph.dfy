/**
 * The node-map-plus-edge-list graph that graph/Composition.ts builds on
 * (`fromNodes`, `addNode`, `addEdge`): nodes keyed by id, where inserting an
 * id that is present overwrites its entry, and an append-only edge sequence.
 * The node map is a sequence with unique ids, in insertion order.
 */
module StoreGraph {
  import opened Nodes
  import opened Edges

  datatype Graph = Graph(id: string, nodes: seq<Node>, edges: seq<Edge>)

  predicate UniqueIds(ns: seq<Node>)
  {
    forall i, j :: 0 <= i < j < |ns| ==> ns[i].id != ns[j].id
  }

  function NodeIds(g: Graph): set<NodeId>
  {
    set m | m in g.nodes :: m.id
  }

  /** Where the entry keyed `id` sits, or `|ns|` when there is none. */
  function Position(ns: seq<Node>, id: NodeId): (i: nat)
    ensures i <= |ns|
    ensures i < |ns| ==> ns[i].id == id
    ensures forall j :: 0 <= j < i ==> ns[j].id != id
  {
    if ns == [] then 0
    else if ns[0].id == id then 0
    else 1 + Position(ns[1..], id)
  }

  /** `fromNodes(ns)` on nodes with distinct ids. */
  function FromNodes(id: string, ns: seq<Node>): (r: Graph)
    requires UniqueIds(ns)
    ensures UniqueIds(r.nodes) && r.edges == [] && NodeIds(r) == set m | m in ns :: m.id
  {
    Graph(id, ns, [])
  }

  /** `addNode(n)`: `HashMap.set` keyed by `n.id`. */
  function AddNode(g: Graph, n: Node): (r: Graph)
    ensures r.id == g.id && r.edges == g.edges
    ensures NodeIds(r) == NodeIds(g) + {n.id}
    ensures n in r.nodes
    ensures forall m :: m in g.nodes && m.id != n.id ==> m in r.nodes
    ensures forall m :: m in r.nodes ==> m == n || m in g.nodes
    ensures |r.nodes| == if n.id in NodeIds(g) then |g.nodes| else |g.nodes| + 1
    ensures UniqueIds(g.nodes) ==> UniqueIds(r.nodes)
  {
    var i := Position(g.nodes, n.id);
    if i < |g.nodes| then
      var ns := g.nodes[i := n];
      assert forall m :: m in g.nodes && m.id != n.id ==> m in ns by {
        forall m | m in g.nodes && m.id != n.id ensures m in ns {
          var k :| 0 <= k < |g.nodes| && g.nodes[k] == m;
          assert ns[k] == m;
        }
      }
      assert forall m :: m in ns ==> m == n || m in g.nodes by {
        forall m | m in ns ensures m == n || m in g.nodes {
          var k :| 0 <= k < |ns| && ns[k] == m;
          if k != i { assert g.nodes[k] == m; }
        }
      }
      assert NodeIds(g) == NodeIds(g) + {n.id} by {
        assert g.nodes[i] in g.nodes;
      }
      assert NodeIds(Graph(g.id, ns, g.edges)) == NodeIds(g) by {
        assert ns[i] in ns;
        assert g.nodes[i] in g.nodes;
      }
      Graph(g.id, ns, g.edges)
    else
      var ns := g.nodes + [n];
      assert n.id !in NodeIds(g);
      assert forall m :: m in ns ==> m == n || m in g.nodes;
      Graph(g.id, ns, g.edges)
  }

  /** `addEdge(e)`: `Chunk.append`. */
  function AddEdge(g: Graph, e: Edge): Graph
  {
    g.(edges := g.edges + [e])
  }
}
