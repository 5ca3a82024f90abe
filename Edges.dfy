/**
 * The four edge variants of graph/edge.ts and `create`, which picks the
 * variant from the endpoint tags by an ordered match with a `HAS_CHILD`
 * fallback.
 */
module Edges {
  import opened Nodes

  datatype Edge =
    | ConformsToSchema(from: NodeId, to: SchemaId)
    | InputTo(from: NodeId, to: NodeId)
    | Produces(from: NodeId, to: NodeId)
    | HasChild(from: NodeId, to: NodeId)

  /**
   * `create(from, to)`. Rules apply in order, so each variant is chosen
   * exactly when its own rule matches and no earlier one does.
   */
  function Create(from: Node, to: Node): (e: Edge)
    ensures e.from == from.id
    ensures e.Produces? <==> IsStrategyNode(from) && IsSchemaNode(to)
    ensures e.ConformsToSchema? <==> IsCanonicalEntityNode(from) && IsSchemaNode(to)
    ensures e.InputTo? <==> IsStrategyNode(to)
    ensures e.HasChild? <==> !IsStrategyNode(to) && !(IsSchemaNode(to) && (IsStrategyNode(from) || IsCanonicalEntityNode(from)))
    ensures e.to == if e.ConformsToSchema? then to.schemaId else to.id
  {
    if IsStrategyNode(from) && IsSchemaNode(to) then Produces(from.id, to.id)
    else if IsCanonicalEntityNode(from) && IsSchemaNode(to) then ConformsToSchema(from.id, to.schemaId)
    else if IsGraphNode(from) && IsStrategyNode(to) then InputTo(from.id, to.id)
    else HasChild(from.id, to.id)
  }

  /** Identity -> Identity falls through to the parent/child default. */
  lemma IdentityPairIsHasChild(a: Node, b: Node)
    requires IsIdentityNode(a) && IsIdentityNode(b)
    ensures Create(a, b) == HasChild(a.id, b.id)
  {
  }

  /** A conformance edge points at the schema's `schemaId`, which can differ from its node id. */
  lemma ConformsTargetsSchemaId(a: Node, s: Node)
    requires IsCanonicalEntityNode(a) && IsSchemaNode(s)
    ensures Create(a, s) == ConformsToSchema(a.id, s.schemaId)
  {
  }
}
