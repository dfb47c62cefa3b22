/** The Cypher-like query engine: a query is trimmed and lower-cased, must
    start with `match`, and is then recognised as one of a fixed list of
    shapes, tried in order; the first shape that fits decides the records
    returned from a read-only snapshot of the graph. */
module QueryEngine {
  import opened Wrappers
  import opened Text
  import opened GraphTypes
  import opened Seqs
  import opened QueryProbes
  import opened NodeSort

  /** What a result record holds under a key: a whole node, a string, or a
      node's property bag. */
  datatype Value = NodeValue(node: Node) | StringValue(text: string) | PropertiesValue(properties: NodeProperties)

  /** A result record. A JavaScript object with the same key written twice
      keeps the last value, as a map does. */
  type Row = map<string, Value>

  /** The shapes the engine recognises, with what it captured. */
  datatype Shape =
    | AllNodes(limit: Option<nat>)
    | NodesOfType(nodeType: string, labels: bool)
    | EdgeListing
    | TypedRelationship(pattern: RelPattern)
    | WhereType(whereType: string, ordered: bool)
    | WhereWeight(minWeight: real, ordered: bool)
    | WhereLabelContains(term: string)
    | RelationshipWhere(relationship: string)
    | Unrecognised

  // ------------------------------------------------------- recognition

  /** The shape of a (normalised) query: the order of the tests is the
      order in which the engine tries them. */
  function Classify(q: string): (r: Shape)
    ensures r.AllNodes? <==> Contains(q, "match (n)") && Contains(q, "return n")
    ensures r.NodesOfType? ==> exists p :: 0 <= p <= |q| && NodeTypeAt(q, p) == Some(r.nodeType)
    ensures r.EdgeListing? ==> Contains(q, "(a)-[r]->(b)")
    ensures r.TypedRelationship? ==> exists p :: 0 <= p <= |q| && RelPatternAt(q, p) == Some(r.pattern)
    ensures r.WhereType? || r.WhereWeight? || r.WhereLabelContains? || r.RelationshipWhere? ==> Contains(q, "where")
    ensures r.RelationshipWhere? ==> Contains(q, "(n)-[r]->(m)")
  {
    if Contains(q, "match (n)") && Contains(q, "return n") then AllNodes(Limit(q))
    else match FirstCapture(q, NodeTypeAt)
      case Some(t) => NodesOfType(t, Contains(q, "return n.label"))
      case None =>
        if Contains(q, "(a)-[r]->(b)") then EdgeListing
        else match FirstCapture(q, RelPatternAt)
          case Some(r) => TypedRelationship(r)
          case None =>
            match WhereClause(q)
            case Some(s) => s
            case None => RelationshipClause(q)
  }

  const OrderByWeight := "order by n.properties.weight desc"

  /** The WHERE shapes: the condition is tried for a type, then a weight,
      then a label-contains comparison. */
  function WhereClause(q: string): (r: Option<Shape>)
    ensures r.Some? ==> r.value.WhereType? || r.value.WhereWeight? || r.value.WhereLabelContains?
    ensures r.Some? ==> Contains(q, "where")
  {
    if !Contains(q, "where") then None
    else match WhereCondition(q)
      case None => None
      case Some(c) =>
        var ordered := Contains(q, OrderByWeight);
        match FirstCapture(c, TypeConditionAt)
        case Some(t) => Some(WhereType(t, ordered))
        case None =>
          match Leftmost(c, 0, WeightConditionAt)
          case Some((p, d)) =>
            WeightConditionAtSound(c, p, d);
            Some(WhereWeight(DecimalValue(d), ordered))
          case None =>
            match FirstCapture(c, ContainsConditionAt)
            case Some(term) => Some(WhereLabelContains(Lower(term)))
            case None => None
  }

  /** `(n)-[r]->(m)` with a `where` and an `r.relationship = "X"` anywhere. */
  function RelationshipClause(q: string): (r: Shape)
    ensures r.RelationshipWhere? || r.Unrecognised?
    ensures r.RelationshipWhere? ==> Contains(q, "(n)-[r]->(m)") && Contains(q, "where")
    ensures r.RelationshipWhere? ==> exists p :: 0 <= p <= |q| && RelationshipConditionAt(q, p) == Some(r.relationship)
  {
    if Contains(q, "(n)-[r]->(m)") && Contains(q, "where") then
      match FirstCapture(q, RelationshipConditionAt)
      case Some(x) => RelationshipWhere(x)
      case None => Unrecognised
    else Unrecognised
  }

  // -------------------------------------------------------- evaluation

  function NodeRow(n: Node): Row {
    map["n" := NodeValue(n)]
  }

  function NodeRows(ns: seq<Node>): seq<Row>
  {
    seq(|ns|, i requires 0 <= i < |ns| => NodeRow(ns[i]))
  }

  /** `if (limit) nodes = nodes.slice(0, limit)`: a limit of 0 is falsy and
      keeps every node, and a slice past the end keeps every node too. */
  function LimitNodes(ns: seq<Node>, limit: Option<nat>): (r: seq<Node>)
    ensures |r| <= |ns| && r == ns[..|r|]
    ensures |r| < |ns| <==> limit.Some? && 0 < limit.value < |ns|
    ensures |r| < |ns| ==> |r| == limit.value
  {
    match limit
    case Some(k) => if 0 < k < |ns| then ns[..k] else ns
    case None => ns
  }

  /** Nodes whose lower-cased type is the lower-cased `t`, in store order. */
  function OfType(ns: seq<Node>, t: string): seq<Node> {
    Filter(ns, (n: Node) => Lower(n.nodeType) == Lower(t))
  }

  function LabelRow(n: Node): Row {
    map["n.label" := StringValue(n.nodeLabel), "n.properties" := PropertiesValue(n.properties)]
  }

  function LabelRows(ns: seq<Node>): seq<Row>
  {
    seq(|ns|, i requires 0 <= i < |ns| => LabelRow(ns[i]))
  }

  /** `nodes.find(n => n.id === id)` */
  function NodeById(ns: seq<Node>, id: string): Option<Node> {
    Find(ns, (n: Node) => n.id == id)
  }

  /** `node?.label || 'Unknown'`: a missing node and an empty label both read as "Unknown". */
  function LabelOrUnknown(n: Option<Node>): (r: string)
    ensures r != ""
    ensures r != "Unknown" ==> n.Some? && r == n.value.nodeLabel
  {
    if n.Some? && n.value.nodeLabel != "" then n.value.nodeLabel else "Unknown"
  }

  function EdgeRow(ns: seq<Node>, e: Edge): Row {
    map[
      "a.label" := StringValue(LabelOrUnknown(NodeById(ns, e.source))),
      "r.relationship" := StringValue(e.relationship),
      "b.label" := StringValue(LabelOrUnknown(NodeById(ns, e.target)))]
  }

  function EdgeRows(ns: seq<Node>, es: seq<Edge>): seq<Row>
  {
    seq(|es|, i requires 0 <= i < |es| => EdgeRow(ns, es[i]))
  }

  /** `nodes.find(n => n.id === id && n.type === t)`: the type compared exactly. */
  function NodeByIdAndType(ns: seq<Node>, id: string, t: string): (r: Option<Node>)
  {
    Find(ns, (n: Node) => n.id == id && n.nodeType == t)
  }

  /** The record one edge contributes to the typed-relationship shape, if any. */
  function TypedRow(ns: seq<Node>, e: Edge, r: RelPattern): Option<Row> {
    if e.relationship != r.relType then None
    else match (NodeByIdAndType(ns, e.source, r.sourceType), NodeByIdAndType(ns, e.target, r.targetType))
      case (Some(s), Some(t)) =>
        Some(map[r.sourceVar + ".label" := StringValue(s.nodeLabel)][r.targetVar + ".label" := StringValue(t.nodeLabel)])
      case _ => None
  }

  function TypedRows(ns: seq<Node>, es: seq<Edge>, r: RelPattern): seq<Row> {
    if es == [] then []
    else
      var e := es[|es| - 1];
      TypedRows(ns, es[..|es| - 1], r) + (match TypedRow(ns, e, r) case Some(row) => [row] case None => [])
  }

  function HeavierThan(ns: seq<Node>, minWeight: real): seq<Node> {
    Filter(ns, (n: Node) => n.properties.weight > minWeight)
  }

  /** Nodes whose lower-cased label contains `term`. */
  function LabelContaining(ns: seq<Node>, term: string): seq<Node> {
    Filter(ns, (n: Node) => Contains(Lower(n.nodeLabel), term))
  }

  function Ordered(ns: seq<Node>, ordered: bool): seq<Node> {
    if ordered then SortDesc(ns) else ns
  }

  /** The record one edge contributes to the relationship-WHERE shape, if any. */
  function RelationshipRow(ns: seq<Node>, e: Edge, x: string): Option<Row> {
    if e.relationship != x then None
    else match (NodeById(ns, e.source), NodeById(ns, e.target))
      case (Some(s), Some(t)) => Some(map["n.label" := StringValue(s.nodeLabel), "m.label" := StringValue(t.nodeLabel)])
      case _ => None
  }

  function RelationshipRows(ns: seq<Node>, es: seq<Edge>, x: string): seq<Row> {
    if es == [] then []
    else
      var e := es[|es| - 1];
      RelationshipRows(ns, es[..|es| - 1], x) + (match RelationshipRow(ns, e, x) case Some(row) => [row] case None => [])
  }

  /** The records a shape yields on the graph. */
  function Evaluate(shape: Shape, g: GraphData): (rows: seq<Row>)
    ensures shape.AllNodes? || shape.NodesOfType? || shape.WhereType? || shape.WhereWeight? || shape.WhereLabelContains?
            ==> |rows| <= |g.nodes|
    ensures shape.EdgeListing? ==> |rows| == |g.edges|
    ensures shape.Unrecognised? ==> rows == []
  {
    match shape
    case AllNodes(limit) => NodeRows(LimitNodes(g.nodes, limit))
    case NodesOfType(t, labels) => if labels then LabelRows(OfType(g.nodes, t)) else NodeRows(OfType(g.nodes, t))
    case EdgeListing => EdgeRows(g.nodes, g.edges)
    case TypedRelationship(r) => TypedRows(g.nodes, g.edges, r)
    case WhereType(t, ordered) => NodeRows(Ordered(OfType(g.nodes, t), ordered))
    case WhereWeight(m, ordered) => NodeRows(Ordered(HeavierThan(g.nodes, m), ordered))
    case WhereLabelContains(term) => NodeRows(LabelContaining(g.nodes, term))
    case RelationshipWhere(x) => RelationshipRows(g.nodes, g.edges, x)
    case Unrecognised => []
  }

  function MatchQuery(q: string, g: GraphData): seq<Row> {
    Evaluate(Classify(q), g)
  }

  const UnsupportedQuery := "Query execution failed: Unsupported query type. Only MATCH queries are supported."

  /** The outcome of running a query: its records, or the error thrown. */
  function Query(query: string, g: GraphData): (r: Result<seq<Row>, string>)
    ensures r.Failure? ==> r.error == UnsupportedQuery
  {
    var q := Lower(Trim(query));
    if StartsWith(q, "match") then Success(MatchQuery(q, g)) else Failure(UnsupportedQuery)
  }

  // ----------------------------------------------------------- methods

  /** The typed-relationship loop: one pass over the edges, pushing a record
      for each edge whose relationship and end types fit. */
  method CollectTyped(ns: seq<Node>, es: seq<Edge>, r: RelPattern) returns (rows: seq<Row>)
    ensures rows == TypedRows(ns, es, r)
  {
    rows := [];
    for i := 0 to |es|
      invariant rows == TypedRows(ns, es[..i], r)
    {
      if es[i].relationship == r.relType {
        var s := NodeByIdAndType(ns, es[i].source, r.sourceType);
        var t := NodeByIdAndType(ns, es[i].target, r.targetType);
        if s.Some? && t.Some? {
          var row := map[r.sourceVar + ".label" := StringValue(s.value.nodeLabel)];
          row := row[r.targetVar + ".label" := StringValue(t.value.nodeLabel)];
          rows := rows + [row];
        }
      }
      assert es[..i + 1][..i] == es[..i];
    }
    assert es[..|es|] == es;
  }

  /** The relationship-WHERE loop. */
  method CollectRelationship(ns: seq<Node>, es: seq<Edge>, x: string) returns (rows: seq<Row>)
    ensures rows == RelationshipRows(ns, es, x)
  {
    rows := [];
    for i := 0 to |es|
      invariant rows == RelationshipRows(ns, es[..i], x)
    {
      if es[i].relationship == x {
        var s := NodeById(ns, es[i].source);
        var t := NodeById(ns, es[i].target);
        if s.Some? && t.Some? {
          rows := rows + [map["n.label" := StringValue(s.value.nodeLabel), "m.label" := StringValue(t.value.nodeLabel)]];
        }
      }
      assert es[..i + 1][..i] == es[..i];
    }
    assert es[..|es|] == es;
  }

  /** Sorts a fresh array holding the filtered nodes, heaviest first. */
  method SortedCopy(ns: seq<Node>) returns (sorted: seq<Node>)
    ensures sorted == SortDesc(ns)
  {
    var a := new Node[|ns|](i requires 0 <= i < |ns| => ns[i]);
    assert a[..] == ns;
    SortByWeight(a);
    sorted := a[..];
  }

  /** The WHERE branches that filter the nodes and may sort them. */
  method FilterAndOrder(ns: seq<Node>, ordered: bool) returns (rows: seq<Row>)
    ensures rows == NodeRows(Ordered(ns, ordered))
  {
    var filtered := ns;
    if ordered {
      filtered := SortedCopy(filtered);
    }
    rows := NodeRows(filtered);
  }

  method ExecuteMatchQuery(q: string, g: GraphData) returns (rows: seq<Row>)
    ensures rows == MatchQuery(q, g)
  {
    var shape := Classify(q);
    match shape {
      case TypedRelationship(r) =>
        rows := CollectTyped(g.nodes, g.edges, r);
      case RelationshipWhere(x) =>
        rows := CollectRelationship(g.nodes, g.edges, x);
      case WhereType(t, ordered) =>
        rows := FilterAndOrder(OfType(g.nodes, t), ordered);
      case WhereWeight(m, ordered) =>
        rows := FilterAndOrder(HeavierThan(g.nodes, m), ordered);
      case _ =>
        rows := Evaluate(shape, g);
    }
  }

  method ExecuteQuery(query: string, g: GraphData) returns (r: Result<seq<Row>, string>)
    ensures r == Query(query, g)
  {
    var q := Lower(Trim(query));
    if StartsWith(q, "match") {
      var rows := ExecuteMatchQuery(q, g);
      r := Success(rows);
    } else {
      r := Failure(UnsupportedQuery);
    }
  }
}
