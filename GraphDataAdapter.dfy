/**
 * The graph-to-view adapter of web/src/services/GraphDataAdapter.ts:
 * `extractDataSections` groups a store graph's nodes into the levelled
 * sections of the manuscript view, `extractTransformations` and
 * `extractSchemaInfo` answer per level from built-in tables.
 *
 * The graph's node map is iterated in the order of `Graph.nodes`; a node's
 * key is its id.
 */
module GraphDataAdapter {
  import opened Wrappers
  import opened Seqs
  import opened Nodes
  import opened StoreGraph

  /** `DataSection`; the optional `nodeIds` and `schemaType` are `Option`s. */
  datatype DataSection = DataSection(id: string, title: string, level: nat, data: seq<string>,
                                     nodeIds: Option<seq<string>>, schemaType: Option<string>)

  /** `{from, to, op}`, one entry of the transformation table. */
  datatype Transformation = Transformation(from: string, to: string, op: string)

  /** `{type, schema}`. */
  datatype SchemaInfo = SchemaInfo(schemaType: string, schema: string)

  function NodeIdOf(n: Node): string
  {
    n.id
  }

  /** The nodes `HashMap.filterMap` keeps for level 0, in map order. */
  function DocumentNodes(g: Graph): seq<Node>
  {
    Filter(g.nodes, IsSourceDataNode)
  }

  /** The nodes kept for levels 1, 2 and 3: the canonical entities, in map order. */
  function EntityNodes(g: Graph): seq<Node>
  {
    Filter(g.nodes, IsCanonicalEntityNode)
  }

  /** `node.sourceUri || "Untitled"`: an empty (falsy) URI gives the fallback. */
  function DocumentTitle(n: Node): string
  {
    if n.SourceDataNode? && n.sourceUri != "" then n.sourceUri else "Untitled"
  }

  function DocumentsSection(docs: seq<Node>): DataSection
  {
    DataSection("documents", "Source Documents", 0, Map(docs, DocumentTitle), Some(Map(docs, NodeIdOf)),
                Some("SourceDocument"))
  }

  /** Levels 1 to 3: one placeholder entry per entity node. */
  function EntitySection(entities: seq<Node>, level: nat, id: string, title: string, entry: string,
                         schemaType: string): DataSection
  {
    DataSection(id, title, level, Map(entities, (_: Node) => entry), Some(Map(entities, NodeIdOf)), Some(schemaType))
  }

  /** `getSampleSections()`: the four demo sections, without node ids. */
  function SampleSections(): seq<DataSection>
  {
    [ DataSection("documents", "Documents", 0, SampleDocuments(), None, Some("Document")),
      DataSection("sections", "Sections", 1, SampleSectionTexts(), None, Some("Section")),
      DataSection("sentences", "Sentences", 2, SampleSentences(), None, Some("Sentence")),
      DataSection("tokens", "Tokens", 3, SampleTokens(), None, Some("Token")) ]
  }

  function SampleDocuments(): seq<string>
  {
    seq(3, i requires 0 <= i < 3 => SampleDocument(i))
  }

  function SampleDocument(i: nat): string
    requires i < 3
  {
    if i == 0 then "Attention is All You Need - Transformer Architecture Paper"
    else if i == 1 then "BERT: Pre-training of Deep Bidirectional Transformers"
    else "GPT-3: Language Models are Few-Shot Learners"
  }

  function SampleSectionTexts(): seq<string>
  {
    seq(6, i requires 0 <= i < 6 => SampleSectionText(i))
  }

  function SampleSectionText(i: nat): string
    requires i < 6
  {
    if i == 0 then "Abstract: We propose a new simple network architecture, the Transformer..."
    else if i == 1 then "Introduction: Recurrent neural networks have long been the dominant approach..."
    else if i == 2 then "Model Architecture: Most competitive neural sequence transduction models..."
    else if i == 3 then "Experiments: We trained our models on the standard WMT 2014 English-German..."
    else if i == 4 then "Results: Our model achieves 28.4 BLEU on the WMT 2014 English-German..."
    else "Conclusion: In this work, we presented the Transformer, the first sequence..."
  }

  function SampleSentences(): seq<string>
  {
    seq(6, i requires 0 <= i < 6 => SampleSentence(i))
  }

  function SampleSentence(i: nat): string
    requires i < 6
  {
    if i == 0 then "We propose a new simple network architecture, the Transformer, based solely on attention mechanisms."
    else if i == 1 then "The Transformer allows for significantly more parallelization than recurrent models."
    else if i == 2 then "Experiments on two machine translation tasks show these models to be superior in quality."
    else if i == 3 then "The Transformer achieves 28.4 BLEU on the WMT 2014 English-German translation task."
    else if i == 4 then "On the WMT 2014 English-French translation task, our model establishes a new single-model state-of-the-art BLEU score of 41.8."
    else "We show that the Transformer generalizes well to other tasks."
  }

  function SampleTokens(): seq<string>
  {
    [ "We", "propose", "a", "new", "simple", "network", "architecture", ",", "the",
      "Transformer", ",", "based", "solely", "on", "attention", "mechanisms", "." ]
  }

  /** Levels strictly increase along the sections. */
  predicate LevelOrdered(sections: seq<DataSection>)
  {
    forall i, j :: 0 <= i < j < |sections| ==> sections[i].level < sections[j].level
  }

  /** The graph has a node some section is built from. */
  predicate HasSectionData(g: Graph)
  {
    |DocumentNodes(g)| > 0 || |EntityNodes(g)| > 0
  }

  /** Some section sits at `level`. */
  predicate HasLevel(sections: seq<DataSection>, level: nat)
  {
    exists i :: 0 <= i < |sections| && sections[i].level == level
  }

  /** The sample sections come in level order 0 to 3, carry no node ids, and hold 3, 6, 6 and 17 entries. */
  lemma SampleSectionsShape()
    ensures |SampleSections()| == 4 && LevelOrdered(SampleSections())
    ensures forall i :: 0 <= i < 4 ==> SampleSections()[i].level == i && SampleSections()[i].nodeIds.None?
    ensures |SampleSections()[0].data| == 3 && |SampleSections()[1].data| == 6
    ensures |SampleSections()[2].data| == 6 && |SampleSections()[3].data| == 17
  {
  }

  /** The documents section when a source data node exists. */
  function DocumentPart(g: Graph): seq<DataSection>
  {
    if |DocumentNodes(g)| > 0 then [DocumentsSection(DocumentNodes(g))] else []
  }

  /** The sections, sentences and tokens sections when a canonical entity exists. */
  function EntityPart(g: Graph): seq<DataSection>
  {
    var es := EntityNodes(g);
    if |es| > 0 then
      [ EntitySection(es, 1, "sections", "Sections", "Placeholder section data", "Section"),
        EntitySection(es, 2, "sentences", "Sentences", "Placeholder sentence", "Sentence"),
        EntitySection(es, 3, "tokens", "Tokens", "placeholder-token", "Token") ]
    else []
  }

  /** The built sections come in strictly increasing level order, and there are some exactly when the graph has section data. */
  lemma PartsOrdered(g: Graph)
    ensures LevelOrdered(DocumentPart(g) + EntityPart(g))
    ensures |DocumentPart(g) + EntityPart(g)| == 0 <==> !HasSectionData(g)
  {
    var ss := DocumentPart(g) + EntityPart(g);
    if |EntityNodes(g)| > 0 {
      var off := |DocumentPart(g)|;
      assert ss[off].level == 1 && ss[off + 1].level == 2 && ss[off + 2].level == 3;
    }
  }

  /** Every listed document has a title: its URI, or `"Untitled"` when the URI is empty. */
  lemma DocumentTitles(g: Graph)
    ensures forall k :: 0 <= k < |DocumentNodes(g)| ==>
              DocumentNodes(g)[k].SourceDataNode?
              && Map(DocumentNodes(g), DocumentTitle)[k]
                 == (if DocumentNodes(g)[k].sourceUri == "" then "Untitled" else DocumentNodes(g)[k].sourceUri)
  {
    forall k | 0 <= k < |DocumentNodes(g)| ensures DocumentNodes(g)[k].SourceDataNode? {
      assert DocumentNodes(g)[k] in DocumentNodes(g);
    }
  }

  /**
   * The sections built from a graph: levels strictly increase; level 0 is
   * present exactly when a source data node exists and lists every one's
   * title and id in map order; levels 1 to 3 are present exactly when a
   * canonical entity exists and list the entities' ids; every section has as
   * many entries as node ids.
   */
  lemma BuiltSections(g: Graph)
    ensures LevelOrdered(DocumentPart(g) + EntityPart(g))
    ensures |DocumentPart(g) + EntityPart(g)| == 0 <==> !HasSectionData(g)
    ensures HasLevel(DocumentPart(g) + EntityPart(g), 0) <==> |DocumentNodes(g)| > 0
    ensures forall l :: 1 <= l <= 3 ==> (HasLevel(DocumentPart(g) + EntityPart(g), l) <==> |EntityNodes(g)| > 0)
    ensures forall s :: s in DocumentPart(g) + EntityPart(g) ==>
              s.nodeIds.Some? && |s.data| == |s.nodeIds.value|
              && s.nodeIds.value == Map(if s.level == 0 then DocumentNodes(g) else EntityNodes(g), NodeIdOf)
    ensures forall s :: s in DocumentPart(g) + EntityPart(g) && s.level == 0 ==>
              s.data == Map(DocumentNodes(g), DocumentTitle)
  {
    PartsOrdered(g);
    EntityLevels(g);
    DocumentLevel(g);
    SectionContents(g);
  }

  /** Each built section lists the ids of its nodes and one item per id; the documents section lists the titles. */
  lemma SectionContents(g: Graph)
    ensures forall s :: s in DocumentPart(g) + EntityPart(g) ==>
              s.nodeIds.Some? && |s.data| == |s.nodeIds.value|
              && s.nodeIds.value == Map(if s.level == 0 then DocumentNodes(g) else EntityNodes(g), NodeIdOf)
    ensures forall s :: s in DocumentPart(g) + EntityPart(g) && s.level == 0 ==>
              s.data == Map(DocumentNodes(g), DocumentTitle)
  {
    DocumentPartContents(g);
    EntityPartContents(g);
    forall s | s in DocumentPart(g) + EntityPart(g) ensures ListsNodes(g, s) {
      assert s in DocumentPart(g) || s in EntityPart(g);
    }
  }

  /** A section carries the ids of the nodes of its level, one data item per id, and document titles at level 0. */
  predicate ListsNodes(g: Graph, s: DataSection)
  {
    s.nodeIds.Some? && |s.data| == |s.nodeIds.value|
    && s.nodeIds.value == Map(if s.level == 0 then DocumentNodes(g) else EntityNodes(g), NodeIdOf)
    && (s.level == 0 ==> s.data == Map(DocumentNodes(g), DocumentTitle))
  }

  /** The documents section, when built, lists the source documents. */
  lemma DocumentPartContents(g: Graph)
    ensures forall s :: s in DocumentPart(g) ==> ListsNodes(g, s)
  {
    if |DocumentNodes(g)| > 0 {
      assert ListsNodes(g, DocumentPart(g)[0]);
    }
  }

  /** The three entity sections, when built, list the canonical entities. */
  lemma EntityPartContents(g: Graph)
    ensures forall s :: s in EntityPart(g) ==> ListsNodes(g, s)
  {
    var es := EntityNodes(g);
    if |es| > 0 {
      assert ListsNodes(g, EntityPart(g)[0]) && ListsNodes(g, EntityPart(g)[1]) && ListsNodes(g, EntityPart(g)[2]);
    }
  }

  /** Levels 1 to 3 are present exactly when a canonical entity exists. */
  lemma EntityLevels(g: Graph)
    ensures forall l :: 1 <= l <= 3 ==> (HasLevel(DocumentPart(g) + EntityPart(g), l) <==> |EntityNodes(g)| > 0)
  {
    var ss := DocumentPart(g) + EntityPart(g);
    if |EntityNodes(g)| > 0 {
      forall l | 1 <= l <= 3 ensures HasLevel(ss, l) {
        assert ss[|ss| - 4 + l].level == l;
      }
    }
  }

  /** Level 0 is present exactly when a source document exists. */
  lemma DocumentLevel(g: Graph)
    ensures HasLevel(DocumentPart(g) + EntityPart(g), 0) <==> |DocumentNodes(g)| > 0
  {
    if |DocumentNodes(g)| > 0 {
      assert (DocumentPart(g) + EntityPart(g))[0].level == 0;
    } else {
      assert DocumentPart(g) + EntityPart(g) == EntityPart(g);
    }
  }

  /**
   * `extractDataSections(graph)`: push the documents section when a source
   * data node exists, then the sections, sentences and tokens sections when
   * a canonical entity exists; with nothing pushed, the sample sections.
   */
  method ExtractDataSections(g: Graph) returns (sections: seq<DataSection>)
    ensures LevelOrdered(sections)
    ensures !HasSectionData(g) ==> sections == SampleSections()
    ensures HasSectionData(g) ==> sections == DocumentPart(g) + EntityPart(g)
  {
    sections := [];
    var documentNodes := DocumentNodes(g);
    if |documentNodes| > 0 {
      sections := sections + [DocumentsSection(documentNodes)];
    }
    var sectionNodes := EntityNodes(g);
    if |sectionNodes| > 0 {
      sections := sections + [EntitySection(sectionNodes, 1, "sections", "Sections", "Placeholder section data", "Section")];
    }
    var sentenceNodes := EntityNodes(g);
    if |sentenceNodes| > 0 {
      sections := sections + [EntitySection(sentenceNodes, 2, "sentences", "Sentences", "Placeholder sentence", "Sentence")];
    }
    var tokenNodes := EntityNodes(g);
    if |tokenNodes| > 0 {
      sections := sections + [EntitySection(tokenNodes, 3, "tokens", "Tokens", "placeholder-token", "Token")];
    }
    PartsOrdered(g);
    if |sections| == 0 {
      SampleSectionsShape();
      return SampleSections();
    }
  }

  /** `getDefaultTransformations()`: one entry per level 0 to 3. */
  function DefaultTransformations(): seq<seq<Transformation>>
  {
    [ [Transformation("Document", "Sections", "split")],
      [Transformation("Sections", "Sentences", "tokenize")],
      [Transformation("Sentences", "Tokens", "parse")],
      [Transformation("Tokens", "Analysis", "analyze")] ]
  }

  /** The graph's transformation nodes: the `filterMap` keeps none, there being no algebra node variant. */
  function GraphTransformations(g: Graph): seq<Transformation>
  {
    Map(Filter(g.nodes, (_: Node) => false), (_: Node) => Transformation("", "", ""))
  }

  lemma {:induction false} NothingKept(ns: seq<Node>)
    ensures Filter(ns, (_: Node) => false) == []
  {
    if ns != [] {
      NothingKept(ns[1..]);
    }
  }

  /**
   * `extractTransformations(graph, level)`: the graph's own transformations
   * when there are any, else the default entry for `level`, else `[]`
   * (`table[level]` is `undefined` off the table).
   */
  function ExtractTransformations(g: Graph, level: int): (r: seq<Transformation>)
    ensures 0 <= level < 4 ==> r == DefaultTransformations()[level]
    ensures !(0 <= level < 4) ==> r == []
  {
    var transformations := GraphTransformations(g);
    NothingKept(g.nodes);
    if |transformations| > 0 then transformations
    else if 0 <= level < |DefaultTransformations()| then DefaultTransformations()[level]
    else []
  }

  /** The graph is never consulted: any two graphs give the same transformations, one per level in range. */
  lemma TransformationsIgnoreGraph(g1: Graph, g2: Graph, level: int)
    ensures ExtractTransformations(g1, level) == ExtractTransformations(g2, level)
    ensures |ExtractTransformations(g1, level)| == (if 0 <= level < 4 then 1 else 0)
  {
  }

  /** The decimal digits of a template literal's `${n}`. */
  function NatToString(n: nat): (r: string)
    ensures |r| >= 1
    decreases n
  {
    var digit := ["0", "1", "2", "3", "4", "5", "6", "7", "8", "9"][n % 10];
    if n < 10 then digit else NatToString(n / 10) + digit
  }

  function IntToString(n: int): string
  {
    if n < 0 then "-" + NatToString(-n) else NatToString(n)
  }

  /** `HashMap.findFirst` for a schema node: the first in map order, if any. */
  function FirstSchemaNode(ns: seq<Node>): (r: Option<Node>)
    ensures r.Some? <==> exists n :: n in ns && IsSchemaNode(n)
    ensures r.Some? ==> r.value in ns && IsSchemaNode(r.value)
  {
    if ns == [] then None
    else if IsSchemaNode(ns[0]) then Some(ns[0])
    else
      var r := FirstSchemaNode(ns[1..]);
      assert forall n :: n in ns ==> n == ns[0] || n in ns[1..];
      r
  }

  /** The default schema table for levels 0 to 3. */
  function DefaultSchemas(): seq<SchemaInfo>
  {
    [ SchemaInfo("Document", "{ title: string, content: string }"),
      SchemaInfo("Section", "{ text: string, index: number }"),
      SchemaInfo("Sentence", "Array<Token>"),
      SchemaInfo("Token", "{ text: string, pos: string }") ]
  }

  /**
   * `extractSchemaInfo(graph, level)`: a placeholder `Level<level>` schema
   * when the graph has any schema node; otherwise the default for `level`,
   * or `null` (`None`) off the table.
   */
  function ExtractSchemaInfo(g: Graph, level: int): (r: Option<SchemaInfo>)
    ensures (exists n :: n in g.nodes && IsSchemaNode(n)) ==>
              r == Some(SchemaInfo("Level" + IntToString(level), "{ placeholder: string }"))
    ensures (forall n :: n in g.nodes ==> !IsSchemaNode(n)) ==>
              r == (if 0 <= level < 4 then Some(DefaultSchemas()[level]) else None)
  {
    match FirstSchemaNode(g.nodes)
    case Some(_) => Some(SchemaInfo("Level" + IntToString(level), "{ placeholder: string }"))
    case None => if 0 <= level < |DefaultSchemas()| then Some(DefaultSchemas()[level]) else None
  }

  /** Without schema nodes, exactly the four levels 0 to 3 have schema information. */
  lemma SchemaInfoDefined(g: Graph, level: int)
    requires forall n :: n in g.nodes ==> !IsSchemaNode(n)
    ensures ExtractSchemaInfo(g, level).Some? <==> 0 <= level <= 3
  {
  }
}
