/**
 * The closed set of graph node variants, their factories, the tag dispatch
 * (`createNode`, `matchNode`) and the type guards of graph/node/node.ts.
 *
 * Branded ids (`NodeId`, `SchemaId`) are plain strings: the brand exists only
 * for the type checker. `createdAt` is a millisecond timestamp supplied by the
 * caller in place of reading the clock. Fields typed `Schema.Any`/`Unknown`
 * (schema definitions, strategy logic, entity values) are `Opaque` values.
 */
module Nodes {
  import opened Wrappers

  type NodeId = string
  type SchemaId = string
  type Timestamp = int

  /** A library value the core only stores; `Annotated(t)` carries its `ast.annotations._tag`. */
  datatype Opaque = Undefined | Annotated(tag: string)

  /** The five `RecursionScheme` literals. */
  datatype RecursionScheme = Catamorphism | Zygomorphism | Histomorphism | Paramorphism | Functor

  /** Parses a string against the `RecursionScheme` literal schema. */
  function ParseRecursionScheme(s: string): (r: Option<RecursionScheme>)
    ensures r.Some? <==> s in ["Catamorphism", "Zygomorphism", "Histomorphism", "Paramorphism", "Functor"]
    ensures r.Some? ==> SchemeName(r.value) == s
  {
    if s == "Catamorphism" then Some(Catamorphism)
    else if s == "Zygomorphism" then Some(Zygomorphism)
    else if s == "Histomorphism" then Some(Histomorphism)
    else if s == "Paramorphism" then Some(Paramorphism)
    else if s == "Functor" then Some(Functor)
    else None
  }

  function SchemeName(r: RecursionScheme): string
  {
    match r
    case Catamorphism => "Catamorphism"
    case Zygomorphism => "Zygomorphism"
    case Histomorphism => "Histomorphism"
    case Paramorphism => "Paramorphism"
    case Functor => "Functor"
  }

  lemma {:induction false} SchemeNameRoundTrip(r: RecursionScheme)
    ensures ParseRecursionScheme(SchemeName(r)) == Some(r)
  {
    match r
    case Catamorphism =>
    case Zygomorphism =>
    case Histomorphism =>
    case Paramorphism =>
    case Functor =>
  }

  /** `AnyNode`: every variant carries `id`, `createdAt` and `lastSeenBy`. */
  datatype Node =
    | CanonicalEntityNode(id: NodeId, createdAt: Timestamp, lastSeenBy: NodeId,
                          schemaId: string, value: Opaque)
    | IdentityNode(id: NodeId, createdAt: Timestamp, lastSeenBy: NodeId)
    | SourceDataNode(id: NodeId, createdAt: Timestamp, lastSeenBy: NodeId,
                     sourceUri: string)
    | SchemaNode(id: NodeId, createdAt: Timestamp, lastSeenBy: NodeId,
                 schemaId: SchemaId, definition: Opaque)
    | StrategyNode(id: NodeId, createdAt: Timestamp, lastSeenBy: NodeId,
                   name: string, recursionScheme: RecursionScheme,
                   inputSchema: Opaque, outputSchema: Opaque, logic: Opaque)

  /** `AnyTag`, the `_tag` discriminator. */
  datatype Tag = CanonicalEntityNodeTag | IdentityNodeTag | SourceDataNodeTag | SchemaNodeTag | StrategyNodeTag

  function TagName(t: Tag): string
  {
    match t
    case CanonicalEntityNodeTag => "CanonicalEntityNode"
    case IdentityNodeTag => "IdentityNode"
    case SourceDataNodeTag => "SourceDataNode"
    case SchemaNodeTag => "SchemaNode"
    case StrategyNodeTag => "StrategyNode"
  }

  // Type guards (`Schema.is` on each variant class).
  predicate IsCanonicalEntityNode(n: Node) { n.CanonicalEntityNode? }
  predicate IsIdentityNode(n: Node) { n.IdentityNode? }
  predicate IsSourceDataNode(n: Node) { n.SourceDataNode? }
  predicate IsSchemaNode(n: Node) { n.SchemaNode? }
  predicate IsStrategyNode(n: Node) { n.StrategyNode? }

  /** `isGraphNode`: membership in the five-variant union. */
  predicate IsGraphNode(n: Node)
  {
    IsCanonicalEntityNode(n) || IsIdentityNode(n) || IsSourceDataNode(n) || IsSchemaNode(n) || IsStrategyNode(n)
  }

  /** The node's `_tag`; each guard holds exactly when the tag is its variant's. */
  function TagOf(n: Node): (t: Tag)
    ensures IsCanonicalEntityNode(n) <==> t == CanonicalEntityNodeTag
    ensures IsIdentityNode(n) <==> t == IdentityNodeTag
    ensures IsSourceDataNode(n) <==> t == SourceDataNodeTag
    ensures IsSchemaNode(n) <==> t == SchemaNodeTag
    ensures IsStrategyNode(n) <==> t == StrategyNodeTag
  {
    match n
    case CanonicalEntityNode(_, _, _, _, _) => CanonicalEntityNodeTag
    case IdentityNode(_, _, _) => IdentityNodeTag
    case SourceDataNode(_, _, _, _) => SourceDataNodeTag
    case SchemaNode(_, _, _, _, _) => SchemaNodeTag
    case StrategyNode(_, _, _, _, _, _, _, _) => StrategyNodeTag
  }

  /** How many of the five guards accept `n`. */
  function GuardsHolding(n: Node): nat
  {
    (if IsCanonicalEntityNode(n) then 1 else 0) + (if IsIdentityNode(n) then 1 else 0)
    + (if IsSourceDataNode(n) then 1 else 0) + (if IsSchemaNode(n) then 1 else 0)
    + (if IsStrategyNode(n) then 1 else 0)
  }

  lemma ExactlyOneGuard(n: Node)
    ensures GuardsHolding(n) == 1 && IsGraphNode(n)
  {
  }

  /** `matchNode`: the exhaustive match hands every variant back as it is. */
  function MatchNode(n: Node): (r: Node)
    ensures r == n && TagOf(r) == TagOf(n)
  {
    match n
    case CanonicalEntityNode(_, _, _, _, _) => n
    case IdentityNode(_, _, _) => n
    case SourceDataNode(_, _, _, _) => n
    case SchemaNode(_, _, _, _, _) => n
    case StrategyNode(_, _, _, _, _, _, _, _) => n
  }

  /**
   * The untyped `props` record handed to a factory. String fields the class
   * schema requires may be missing; `Schema.Any`/`Unknown` fields default to
   * `Undefined`, which their schemas accept.
   */
  datatype Props = Props(
    id: Option<string>,
    lastSeenBy: Option<string>,
    schemaId: Option<string>,
    value: Opaque,
    sourceUri: Option<string>,
    name: Option<string>,
    recursionScheme: Option<string>,
    inputSchema: Opaque,
    outputSchema: Opaque,
    logic: Opaque,
    definition: Opaque)

  /** `NodeCreationError`: the constructor threw; `tag` names the variant. */
  datatype NodeCreationError = NodeCreationError(message: string, tag: string)

  function CreationFailure(t: Tag): NodeCreationError
  {
    NodeCreationError("Failed to create " + TagName(t) + ": ParseError", TagName(t))
  }

  function CreateCanonicalEntityNode(props: Props, createdAt: Timestamp): (r: Result<Node, NodeCreationError>)
    ensures r.Success? <==> props.id.Some? && props.lastSeenBy.Some? && props.schemaId.Some?
    ensures r.Success? ==> r.value == CanonicalEntityNode(props.id.value, createdAt, props.lastSeenBy.value,
                                                           props.schemaId.value, props.value)
    ensures r.Failure? ==> r.error.tag == "CanonicalEntityNode"
  {
    if props.id.Some? && props.lastSeenBy.Some? && props.schemaId.Some? then
      Success(CanonicalEntityNode(props.id.value, createdAt, props.lastSeenBy.value, props.schemaId.value, props.value))
    else
      Failure(CreationFailure(CanonicalEntityNodeTag))
  }

  function CreateIdentityNode(props: Props, createdAt: Timestamp): (r: Result<Node, NodeCreationError>)
    ensures r.Success? <==> props.id.Some? && props.lastSeenBy.Some?
    ensures r.Success? ==> r.value == IdentityNode(props.id.value, createdAt, props.lastSeenBy.value)
    ensures r.Failure? ==> r.error.tag == "IdentityNode"
  {
    if props.id.Some? && props.lastSeenBy.Some? then
      Success(IdentityNode(props.id.value, createdAt, props.lastSeenBy.value))
    else
      Failure(CreationFailure(IdentityNodeTag))
  }

  function CreateSourceDataNode(props: Props, createdAt: Timestamp): (r: Result<Node, NodeCreationError>)
    ensures r.Success? <==> props.id.Some? && props.lastSeenBy.Some? && props.sourceUri.Some?
    ensures r.Success? ==> r.value == SourceDataNode(props.id.value, createdAt, props.lastSeenBy.value,
                                                      props.sourceUri.value)
    ensures r.Failure? ==> r.error.tag == "SourceDataNode"
  {
    if props.id.Some? && props.lastSeenBy.Some? && props.sourceUri.Some? then
      Success(SourceDataNode(props.id.value, createdAt, props.lastSeenBy.value, props.sourceUri.value))
    else
      Failure(CreationFailure(SourceDataNodeTag))
  }

  function CreateSchemaNode(props: Props, createdAt: Timestamp): (r: Result<Node, NodeCreationError>)
    ensures r.Success? <==> props.id.Some? && props.lastSeenBy.Some? && props.schemaId.Some?
    ensures r.Success? ==> r.value == SchemaNode(props.id.value, createdAt, props.lastSeenBy.value,
                                                  props.schemaId.value, props.definition)
    ensures r.Failure? ==> r.error.tag == "SchemaNode"
  {
    if props.id.Some? && props.lastSeenBy.Some? && props.schemaId.Some? then
      Success(SchemaNode(props.id.value, createdAt, props.lastSeenBy.value, props.schemaId.value, props.definition))
    else
      Failure(CreationFailure(SchemaNodeTag))
  }

  function CreateStrategyNode(props: Props, createdAt: Timestamp): (r: Result<Node, NodeCreationError>)
    ensures r.Success? <==> && props.id.Some? && props.lastSeenBy.Some? && props.name.Some?
                            && props.recursionScheme.Some?
                            && ParseRecursionScheme(props.recursionScheme.value).Some?
    ensures r.Success? ==> && r.value.StrategyNode?
                           && r.value.id == props.id.value && r.value.createdAt == createdAt
                           && r.value.lastSeenBy == props.lastSeenBy.value && r.value.name == props.name.value
                           && SchemeName(r.value.recursionScheme) == props.recursionScheme.value
                           && r.value.inputSchema == props.inputSchema
                           && r.value.outputSchema == props.outputSchema && r.value.logic == props.logic
    ensures r.Failure? ==> r.error.tag == "StrategyNode"
  {
    if && props.id.Some? && props.lastSeenBy.Some? && props.name.Some? && props.recursionScheme.Some?
       && ParseRecursionScheme(props.recursionScheme.value).Some?
    then
      Success(StrategyNode(props.id.value, createdAt, props.lastSeenBy.value, props.name.value,
                           ParseRecursionScheme(props.recursionScheme.value).value,
                           props.inputSchema, props.outputSchema, props.logic))
    else
      Failure(CreationFailure(StrategyNodeTag))
  }

  /** `createNode`: dispatch on the tag to that variant's factory. */
  function CreateNode(tag: Tag, props: Props, createdAt: Timestamp): (r: Result<Node, NodeCreationError>)
    ensures r.Success? ==> TagOf(r.value) == tag && r.value.createdAt == createdAt
                           && Some(r.value.id) == props.id && Some(r.value.lastSeenBy) == props.lastSeenBy
    ensures r.Failure? ==> r.error.tag == TagName(tag)
  {
    match tag
    case CanonicalEntityNodeTag => CreateCanonicalEntityNode(props, createdAt)
    case IdentityNodeTag => CreateIdentityNode(props, createdAt)
    case SourceDataNodeTag => CreateSourceDataNode(props, createdAt)
    case SchemaNodeTag => CreateSchemaNode(props, createdAt)
    case StrategyNodeTag => CreateStrategyNode(props, createdAt)
  }

  /** The `props` a caller would pass to rebuild `n` with its own factory. */
  function PropsOf(n: Node): Props
  {
    var base := Props(Some(n.id), Some(n.lastSeenBy), None, Undefined, None, None, None,
                      Undefined, Undefined, Undefined, Undefined);
    match n
    case CanonicalEntityNode(_, _, _, schemaId, value) => base.(schemaId := Some(schemaId), value := value)
    case IdentityNode(_, _, _) => base
    case SourceDataNode(_, _, _, uri) => base.(sourceUri := Some(uri))
    case SchemaNode(_, _, _, schemaId, definition) => base.(schemaId := Some(schemaId), definition := definition)
    case StrategyNode(_, _, _, name, scheme, input, output, logic) =>
      base.(name := Some(name), recursionScheme := Some(SchemeName(scheme)),
            inputSchema := input, outputSchema := output, logic := logic)
  }

  /** Every node is what its own factory builds from its fields and timestamp. */
  lemma {:induction false} CreateNodeRebuilds(n: Node)
    ensures CreateNode(TagOf(n), PropsOf(n), n.createdAt) == Success(n)
  {
    match n
    case CanonicalEntityNode(_, _, _, _, _) =>
    case IdentityNode(_, _, _) =>
    case SourceDataNode(_, _, _, _) =>
    case SchemaNode(_, _, _, _, _) =>
    case StrategyNode(_, _, _, _, scheme, _, _, _) =>
      SchemeNameRoundTrip(scheme);
  }
}
