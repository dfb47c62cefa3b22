/** The records of the knowledge graph and of a processed document.
    `properties` keeps only the keys the core reads and writes; the open
    `[key: string]: any` part of a property bag is not modelled. */
module GraphTypes {
  import opened Wrappers

  datatype NodeProperties = NodeProperties(weight: real, source: string, description: Option<string>)

  /** `nodeLabel` is the source's `label` (a reserved word in Dafny). */
  datatype Node = Node(id: string, nodeLabel: string, nodeType: string, properties: NodeProperties)

  datatype EdgeProperties = EdgeProperties(weight: real, source: string)

  /** `source` and `target` hold node ids. */
  datatype Edge = Edge(id: string, source: string, target: string, relationship: string, properties: EdgeProperties)

  datatype GraphData = GraphData(nodes: seq<Node>, edges: seq<Edge>)

  datatype Entity = Entity(name: string, entityType: string, confidence: Option<real>, description: Option<string>)

  datatype Relationship = Relationship(source: string, target: string, relationship: string, confidence: Option<real>)

  /** The processing timestamp is not modelled. */
  datatype ProcessedDocument = ProcessedDocument(
    id: string, title: string, content: string,
    entities: seq<Entity>, relationships: seq<Relationship>)

  /** `confidence || 1`: a missing confidence and a confidence of zero both read as 1. */
  function OrOne(confidence: Option<real>): (w: real)
    ensures confidence.Some? && confidence.value != 0.0 ==> w == confidence.value
    ensures confidence.None? || confidence.value == 0.0 ==> w == 1.0
    ensures w != 0.0
  {
    match confidence
    case Some(c) => if c != 0.0 then c else 1.0
    case None => 1.0
  }

  /** `description || ''` */
  function OrEmpty(description: Option<string>): string {
    description.GetOr("")
  }

  /** A confidence the extractor could have produced: absent or non-negative. */
  predicate NonNegative(confidence: Option<real>) {
    confidence.None? || confidence.value >= 0.0
  }

  lemma OrOneIsPositive(confidence: Option<real>)
    requires NonNegative(confidence)
    ensures OrOne(confidence) > 0.0
  {
  }
}
