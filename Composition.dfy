/**
 * `from` and `transform` of graph/Composition.ts: a composition is a store
 * graph whose frontier schema node is the current target type; `transform`
 * hangs a strategy and its output schema off the frontier.
 *
 * The new schema node's id comes from the output schema's annotation in the
 * source; here it is the parameter `newSchemaId`, and `createdAt` is the
 * clock reading.
 */
module Composition {
  import opened Wrappers
  import opened Nodes
  import opened Edges
  import opened StoreGraph

  /** Ids that are the `from` of some `INPUT_TO` edge. */
  function InputSources(g: Graph): set<NodeId>
  {
    set e | e in g.edges && e.InputTo? :: e.from
  }

  /** A schema node that feeds no strategy. */
  predicate IsFrontier(g: Graph, n: Node)
  {
    IsSchemaNode(n) && n.id !in InputSources(g)
  }

  function FirstFrontier(g: Graph, ns: seq<Node>): (r: Option<Node>)
    ensures r.Some? ==> r.value in ns && IsFrontier(g, r.value)
    ensures r.Some? ==> exists i :: 0 <= i < |ns| && ns[i] == r.value
                                    && forall j :: 0 <= j < i ==> !IsFrontier(g, ns[j])
    ensures r.None? <==> forall n :: n in ns ==> !IsFrontier(g, n)
  {
    if ns == [] then None
    else if IsFrontier(g, ns[0]) then Some(ns[0])
    else
      var r := FirstFrontier(g, ns[1..]);
      assert r.Some? ==> exists i :: 0 <= i < |ns| && ns[i] == r.value
                                     && forall j :: 0 <= j < i ==> !IsFrontier(g, ns[j]) by {
        if r.Some? {
          var i :| 0 <= i < |ns[1..]| && ns[1..][i] == r.value
                   && forall j :: 0 <= j < i ==> !IsFrontier(g, ns[1..][j]);
          assert ns[i + 1] == r.value;
          assert forall j :: 0 <= j < i + 1 ==> !IsFrontier(g, ns[j]) by {
            forall j | 0 <= j < i + 1 ensures !IsFrontier(g, ns[j]) {
              if j > 0 { assert ns[j] == ns[1..][j - 1]; }
            }
          }
        }
      }
      assert r.None? <==> forall n :: n in ns ==> !IsFrontier(g, n) by {
        assert forall n :: n in ns <==> n == ns[0] || n in ns[1..];
      }
      r
  }

  /** The frontier search: the first frontier schema node in map order. */
  function FindFrontier(g: Graph): Option<Node>
  {
    FirstFrontier(g, g.nodes)
  }

  /** `from(source)`: a one-node graph whose frontier is the source schema. */
  function From(graphId: string, source: Node): (r: Graph)
    requires IsSchemaNode(source)
    ensures r.id == graphId && r.nodes == [source] && r.edges == []
    ensures FindFrontier(r) == Some(source)
  {
    FromNodes(graphId, [source])
  }

  /** The schema node `transform` creates for a strategy's output. */
  function OutputSchemaNode(strategy: Node, newSchemaId: NodeId, createdAt: Timestamp): (s: Node)
    requires IsStrategyNode(strategy)
    ensures IsSchemaNode(s) && s.id == newSchemaId && s.lastSeenBy == strategy.id
  {
    SchemaNode(newSchemaId, createdAt, strategy.id, newSchemaId, strategy.outputSchema)
  }

  /** `transform(self, strategy)`. */
  function Transform(g: Graph, strategy: Node, newSchemaId: NodeId, createdAt: Timestamp): (r: Graph)
    requires IsStrategyNode(strategy)
    ensures FindFrontier(g).None? ==> r == g
    ensures FindFrontier(g).Some? ==>
              && r.id == g.id
              && r.edges == g.edges + [InputTo(FindFrontier(g).value.id, strategy.id),
                                       Produces(strategy.id, newSchemaId)]
              && NodeIds(r) == NodeIds(g) + {strategy.id, newSchemaId}
              && OutputSchemaNode(strategy, newSchemaId, createdAt) in r.nodes
    ensures FindFrontier(g).Some? && strategy.id != newSchemaId ==> strategy in r.nodes
    ensures FindFrontier(g).Some? ==>
              forall m :: m in g.nodes && m.id != strategy.id && m.id != newSchemaId ==> m in r.nodes
    ensures UniqueIds(g.nodes) ==> UniqueIds(r.nodes)
  {
    match FindFrontier(g)
    case None => g
    case Some(frontier) =>
      Extend(g, strategy, OutputSchemaNode(strategy, newSchemaId, createdAt),
             Create(frontier, strategy), Create(strategy, OutputSchemaNode(strategy, newSchemaId, createdAt)))
  }

  /** Step 3 of `transform`: add the strategy and its output schema, then the two edges. */
  function Extend(g: Graph, strategy: Node, schema: Node, input: Edge, output: Edge): (r: Graph)
    ensures r.id == g.id && r.edges == g.edges + [input, output]
    ensures NodeIds(r) == NodeIds(g) + {strategy.id, schema.id}
    ensures schema in r.nodes
    ensures strategy.id != schema.id ==> strategy in r.nodes
    ensures forall m :: m in g.nodes && m.id != strategy.id && m.id != schema.id ==> m in r.nodes
    ensures UniqueIds(g.nodes) ==> UniqueIds(r.nodes)
  {
    AddEdge(AddEdge(AddNode(AddNode(g, strategy), schema), input), output)
  }

  /** Edges only mention node ids of the graph. */
  predicate EdgesKnown(g: Graph)
  {
    forall e :: e in g.edges ==> e.from in NodeIds(g) && e.to in NodeIds(g)
  }

  /** A well-formed composition: unique ids, known endpoints, and `f` the one frontier. */
  predicate Chain(g: Graph, f: Node)
  {
    && UniqueIds(g.nodes) && EdgesKnown(g)
    && f in g.nodes && IsFrontier(g, f)
    && forall n :: n in g.nodes && IsFrontier(g, n) ==> n == f
  }

  lemma ChainFrontier(g: Graph, f: Node)
    requires Chain(g, f)
    ensures FindFrontier(g) == Some(f)
  {
  }

  /**
   * With fresh ids, `transform` adds exactly two nodes, and the new schema
   * node replaces the old frontier as the only one.
   */
  lemma TransformStep(g: Graph, f: Node, strategy: Node, newSchemaId: NodeId, createdAt: Timestamp)
    requires Chain(g, f)
    requires IsStrategyNode(strategy)
    requires strategy.id !in NodeIds(g) && newSchemaId !in NodeIds(g) && strategy.id != newSchemaId
    ensures var r := Transform(g, strategy, newSchemaId, createdAt);
            && |r.nodes| == |g.nodes| + 2
            && |r.edges| == |g.edges| + 2
            && !IsFrontier(r, f)
            && Chain(r, OutputSchemaNode(strategy, newSchemaId, createdAt))
  {
    var schema := OutputSchemaNode(strategy, newSchemaId, createdAt);
    TransformParts(g, f, strategy, newSchemaId, createdAt);
    ChainExtended(g, f, Transform(g, strategy, newSchemaId, createdAt), strategy, schema);
  }

  /** What `transform` builds from a chain: the two nodes and the two edges, and nothing else. */
  lemma TransformParts(g: Graph, f: Node, strategy: Node, newSchemaId: NodeId, createdAt: Timestamp)
    requires Chain(g, f)
    requires IsStrategyNode(strategy)
    requires strategy.id !in NodeIds(g) && newSchemaId !in NodeIds(g) && strategy.id != newSchemaId
    ensures var r, schema := Transform(g, strategy, newSchemaId, createdAt), OutputSchemaNode(strategy, newSchemaId, createdAt);
            && r.edges == g.edges + [InputTo(f.id, strategy.id), Produces(strategy.id, schema.id)]
            && |r.nodes| == |g.nodes| + 2 && UniqueIds(r.nodes)
            && schema in r.nodes && NodeIds(r) == NodeIds(g) + {strategy.id, schema.id}
            && forall m :: m in r.nodes ==> m == schema || m == strategy || m in g.nodes
  {
    ChainFrontier(g, f);
  }

  /** A chain extended by a strategy off its frontier and the strategy's fresh output schema. */
  lemma ChainExtended(g: Graph, f: Node, r: Graph, strategy: Node, schema: Node)
    requires Chain(g, f) && IsStrategyNode(strategy) && IsSchemaNode(schema)
    requires r.edges == g.edges + [InputTo(f.id, strategy.id), Produces(strategy.id, schema.id)]
    requires UniqueIds(r.nodes) && schema in r.nodes && NodeIds(r) == NodeIds(g) + {strategy.id, schema.id}
    requires forall m :: m in r.nodes ==> m == schema || m == strategy || m in g.nodes
    requires schema.id !in NodeIds(g)
    ensures !IsFrontier(r, f) && Chain(r, schema)
  {
    InputSourcesAppend(g, r, InputTo(f.id, strategy.id), Produces(strategy.id, schema.id));
    assert f.id in NodeIds(g);
    forall e | e in r.edges ensures e.from in NodeIds(r) && e.to in NodeIds(r) {
      if e in g.edges {
        assert e.from in NodeIds(g) && e.to in NodeIds(g);
      }
    }
    assert schema !in g.nodes;
  }

  lemma InputSourcesAppend(g: Graph, r: Graph, e1: Edge, e2: Edge)
    requires e1.InputTo? && !e2.InputTo?
    requires r.edges == g.edges + [e1, e2]
    ensures InputSources(r) == InputSources(g) + {e1.from}
  {
    assert forall e :: e in r.edges <==> e in g.edges || e == e1 || e == e2;
  }

  /** One transformation request: the strategy, the id of its output schema, the clock. */
  datatype Step = Step(strategy: Node, newSchemaId: NodeId, createdAt: Timestamp)

  predicate StrategySteps(steps: seq<Step>)
  {
    forall k :: 0 <= k < |steps| ==> IsStrategyNode(steps[k].strategy)
  }

  /** `transform(s.strategy)` applied to `g`. */
  function Apply(g: Graph, s: Step): Graph
    requires IsStrategyNode(s.strategy)
  {
    Transform(g, s.strategy, s.newSchemaId, s.createdAt)
  }

  /** The schema node step `s` creates. */
  function Output(s: Step): Node
    requires IsStrategyNode(s.strategy)
  {
    OutputSchemaNode(s.strategy, s.newSchemaId, s.createdAt)
  }

  /** `pipe(g, transform(s1), transform(s2), ...)`. */
  function TransformAll(g: Graph, steps: seq<Step>): Graph
    requires StrategySteps(steps)
    decreases |steps|
  {
    if steps == [] then g
    else TransformAll(Apply(g, steps[0]), steps[1..])
  }

  /** The ids a sequence of steps introduces, two per step. */
  function StepIds(steps: seq<Step>): seq<NodeId>
  {
    if steps == [] then [] else [steps[0].strategy.id, steps[0].newSchemaId] + StepIds(steps[1..])
  }

  predicate Distinct(ids: seq<NodeId>)
  {
    forall i, j :: 0 <= i < j < |ids| ==> ids[i] != ids[j]
  }

  /**
   * n chained transforms from a composition with a single frontier add
   * 2n nodes and 2n edges, when every id they introduce is new.
   */
  lemma {:induction false} TransformChain(g: Graph, f: Node, steps: seq<Step>)
    requires Chain(g, f) && StrategySteps(steps)
    requires Distinct(StepIds(steps))
    requires forall id :: id in StepIds(steps) ==> id !in NodeIds(g)
    ensures |TransformAll(g, steps).nodes| == |g.nodes| + 2 * |steps|
    ensures |TransformAll(g, steps).edges| == |g.edges| + 2 * |steps|
    decreases |steps|
  {
    if steps != [] {
      var s := steps[0];
      FirstStepIds(steps);
      TransformStep(g, f, s.strategy, s.newSchemaId, s.createdAt);
      StepIdsTail(steps, NodeIds(g), NodeIds(Apply(g, s)));
      assert StrategySteps(steps[1..]) by {
        forall k | 0 <= k < |steps[1..]| ensures IsStrategyNode(steps[1..][k].strategy) {
          assert steps[1..][k] == steps[k + 1];
        }
      }
      TransformChain(Apply(g, s), Output(s), steps[1..]);
    }
  }

  /** The first step's two ids are fresh and differ. */
  lemma FirstStepIds(steps: seq<Step>)
    requires steps != [] && Distinct(StepIds(steps))
    ensures steps[0].strategy.id != steps[0].newSchemaId
    ensures steps[0].strategy.id in StepIds(steps) && steps[0].newSchemaId in StepIds(steps)
  {
    var ids := StepIds(steps);
    assert ids == [steps[0].strategy.id, steps[0].newSchemaId] + StepIds(steps[1..]);
    assert ids[0] != ids[1];
  }

  /** The ids of the remaining steps stay distinct, and fresh once the first step's two are added. */
  lemma StepIdsTail(steps: seq<Step>, known: set<NodeId>, known1: set<NodeId>)
    requires steps != []
    requires Distinct(StepIds(steps))
    requires forall id :: id in StepIds(steps) ==> id !in known
    requires known1 == known + {steps[0].strategy.id, steps[0].newSchemaId}
    ensures Distinct(StepIds(steps[1..]))
    ensures forall id :: id in StepIds(steps[1..]) ==> id !in known1
  {
    var ids := StepIds(steps);
    var rest := StepIds(steps[1..]);
    assert ids == [steps[0].strategy.id, steps[0].newSchemaId] + rest;
    forall i, j | 0 <= i < j < |rest| ensures rest[i] != rest[j] {
      assert rest[i] == ids[i + 2] && rest[j] == ids[j + 2];
    }
    forall id | id in rest ensures id !in known1 {
      var k :| 0 <= k < |rest| && rest[k] == id;
      assert ids[k + 2] == id;
      assert ids[0] != ids[k + 2] && ids[1] != ids[k + 2];
    }
  }

  /** From `from(source)`, n fresh transforms give 1 + 2n nodes and 2n edges. */
  lemma ChainFromSource(graphId: string, source: Node, steps: seq<Step>)
    requires IsSchemaNode(source) && StrategySteps(steps)
    requires Distinct(StepIds(steps)) && source.id !in StepIds(steps)
    ensures |TransformAll(From(graphId, source), steps).nodes| == 1 + 2 * |steps|
    ensures |TransformAll(From(graphId, source), steps).edges| == 2 * |steps|
  {
    var g := From(graphId, source);
    assert NodeIds(g) == {source.id};
    assert Chain(g, source);
    TransformChain(g, source, steps);
  }
}
