/** The graph store: the state `{graphData, documents}` and the seven
    actions of its reducer. `Reduce` states what each action yields; the
    class `GraphStore` holds the state in fields and performs each action
    in place, proved to agree with `Reduce`. */
module GraphContext {
  import opened Wrappers
  import opened Text
  import opened GraphTypes
  import opened Seqs

  datatype GraphState = GraphState(graphData: GraphData, documents: seq<ProcessedDocument>)

  /** `initialState`: no nodes, no edges, no documents. */
  const InitialState: GraphState := GraphState(GraphData([], []), [])

  /** `Partial<Node>`: the top-level keys an update may carry; a present key
      replaces the node's value wholesale (`{...node, ...updates}`). */
  datatype NodeUpdate = NodeUpdate(
    id: Option<string>, nodeLabel: Option<string>, nodeType: Option<string>,
    properties: Option<NodeProperties>)

  /** `Partial<Edge>` */
  datatype EdgeUpdate = EdgeUpdate(
    id: Option<string>, source: Option<string>, target: Option<string>,
    relationship: Option<string>, properties: Option<EdgeProperties>)

  datatype GraphAction =
    | AddDocument(doc: ProcessedDocument)
    | RemoveDocument(docId: string)
    | UpdateNode(nodeId: string, nodeUpdates: NodeUpdate)
    | UpdateEdge(edgeId: string, edgeUpdates: EdgeUpdate)
    | ClearGraph
    | OptimizeGraph
    | ImportGraph(data: GraphData)

  // ------------------------------------------------------------ label map

  /** The key a node is found under: its label, lower-cased. */
  function LabelKey(n: Node): string {
    Lower(n.nodeLabel)
  }

  /** `existingNodeMap` as built from the store's nodes: each node's label
      key mapped to its position, entries in node order. */
  function LabelIndex(ns: seq<Node>): (index: map<string, nat>)
    ensures |index| <= |ns|
  {
    if ns == [] then map[]
    else LabelIndex(ns[..|ns| - 1])[LabelKey(ns[|ns| - 1]) := |ns| - 1]
  }

  /** Every node's key is in the map, and a key maps to the LAST node
      carrying it: `new Map(entries)` keeps the last entry of a repeated key. */
  lemma {:induction false} LabelIndexLast(ns: seq<Node>)
    ensures forall k :: k in LabelIndex(ns) ==> LabelIndex(ns)[k] < |ns| && LabelKey(ns[LabelIndex(ns)[k]]) == k
    ensures forall i :: 0 <= i < |ns| ==> LabelKey(ns[i]) in LabelIndex(ns) && i <= LabelIndex(ns)[LabelKey(ns[i])]
  {
    if ns != [] {
      var init := ns[..|ns| - 1];
      LabelIndexLast(init);
      forall i | 0 <= i < |ns|
        ensures LabelKey(ns[i]) in LabelIndex(ns) && i <= LabelIndex(ns)[LabelKey(ns[i])]
      {
        if i < |ns| - 1 {
          assert ns[i] == init[i];
        }
      }
    }
  }

  // ------------------------------------------------------------ ADD_DOCUMENT

  /** The nodes so far (the store's, then this call's new ones) and the
      label map, which points into them. */
  datatype Merge = Merge(nodes: seq<Node>, index: map<string, nat>)

  /** Every entry of the map points at a node. */
  predicate IndexInRange(m: Merge) {
    forall k :: k in m.index ==> m.index[k] < |m.nodes|
  }

  /** Every entry of the map points at a node carrying its key, and every
      node's key is in the map. */
  predicate IndexResolves(m: Merge) {
    && (forall k :: k in m.index ==> m.index[k] < |m.nodes| && LabelKey(m.nodes[m.index[k]]) == k)
    && (forall i :: 0 <= i < |m.nodes| ==> LabelKey(m.nodes[i]) in m.index)
  }

  /** The node an unknown entity creates. */
  function NewNode(docId: string, e: Entity): (n: Node)
    ensures LabelKey(n) == Lower(e.name)
    ensures n.properties.source == docId && n.properties.weight != 0.0
  {
    Node(docId + "-" + e.name, e.name, e.entityType,
         NodeProperties(OrOne(e.confidence), docId, Some(OrEmpty(e.description))))
  }

  function AddWeight(n: Node, w: real): Node {
    n.(properties := n.properties.(weight := n.properties.weight + w))
  }

  /** One entity: a known key adds `confidence || 1` to the node it maps
      to; an unknown one appends a node and maps its key to it. */
  function MergeEntity(m: Merge, docId: string, e: Entity): (r: Merge)
    requires IndexInRange(m)
    ensures IndexInRange(r)
  {
    var k := Lower(e.name);
    if k in m.index then
      Merge(m.nodes[m.index[k] := AddWeight(m.nodes[m.index[k]], OrOne(e.confidence))], m.index)
    else
      Merge(m.nodes + [NewNode(docId, e)], m.index[k := |m.nodes|])
  }

  /** The entity loop over `es`, in order. */
  function MergeEntities(m: Merge, docId: string, es: seq<Entity>): (r: Merge)
    requires IndexInRange(m)
    ensures IndexInRange(r)
  {
    if es == [] then m
    else MergeEntity(MergeEntities(m, docId, es[..|es| - 1]), docId, es[|es| - 1])
  }

  lemma MergeEntitiesAppend(m: Merge, docId: string, es: seq<Entity>, e: Entity)
    requires IndexInRange(m)
    ensures MergeEntities(m, docId, es + [e]) == MergeEntity(MergeEntities(m, docId, es), docId, e)
  {
    assert (es + [e])[..|es|] == es;
  }

  lemma MergeEntitiesNext(m: Merge, docId: string, es: seq<Entity>, j: nat)
    requires IndexInRange(m) && j < |es|
    ensures MergeEntities(m, docId, es[..j + 1]) == MergeEntity(MergeEntities(m, docId, es[..j]), docId, es[j])
  {
    assert es[..j + 1] == es[..j] + [es[j]];
    MergeEntitiesAppend(m, docId, es[..j], es[j]);
  }

  function StartMerge(ns: seq<Node>): (m: Merge)
    ensures IndexInRange(m)
  {
    LabelIndexLast(ns);
    Merge(ns, LabelIndex(ns))
  }

  /** The nodes and the label map after the entity loop of ADD_DOCUMENT. */
  function EntityMerge(ns: seq<Node>, doc: ProcessedDocument): (m: Merge)
    ensures IndexInRange(m)
  {
    MergeEntities(StartMerge(ns), doc.id, doc.entities)
  }

  /** A relationship yields an edge when both of its names resolve. */
  predicate Resolves(m: Merge, rel: Relationship) {
    Lower(rel.source) in m.index && Lower(rel.target) in m.index
  }

  function EdgeOf(m: Merge, docId: string, rel: Relationship): (e: Edge)
    requires IndexInRange(m) && Resolves(m, rel)
    ensures HasNodeId(m.nodes, e.source) && HasNodeId(m.nodes, e.target)
    ensures e.properties.source == docId && e.properties.weight != 0.0
  {
    Edge(docId + "-" + rel.source + "-" + rel.target + "-" + rel.relationship,
         m.nodes[m.index[Lower(rel.source)]].id,
         m.nodes[m.index[Lower(rel.target)]].id,
         rel.relationship,
         EdgeProperties(OrOne(rel.confidence), docId))
  }

  /** The relationship loop of ADD_DOCUMENT over `rels`, in order. */
  function NewEdges(m: Merge, docId: string, rels: seq<Relationship>): (es: seq<Edge>)
    requires IndexInRange(m)
    ensures |es| <= |rels|
    ensures forall i :: 0 <= i < |es| ==> es[i].properties.source == docId
  {
    if rels == [] then []
    else
      var last := rels[|rels| - 1];
      NewEdges(m, docId, rels[..|rels| - 1]) + (if Resolves(m, last) then [EdgeOf(m, docId, last)] else [])
  }

  lemma NewEdgesAppend(m: Merge, docId: string, rels: seq<Relationship>, rel: Relationship)
    requires IndexInRange(m)
    ensures NewEdges(m, docId, rels + [rel])
            == NewEdges(m, docId, rels) + (if Resolves(m, rel) then [EdgeOf(m, docId, rel)] else [])
  {
    assert (rels + [rel])[..|rels|] == rels;
  }

  function AddedGraph(g: GraphData, doc: ProcessedDocument): (r: GraphData)
    ensures |g.edges| <= |r.edges| <= |g.edges| + |doc.relationships|
    ensures r.edges[..|g.edges|] == g.edges
    ensures forall i :: |g.edges| <= i < |r.edges| ==> r.edges[i].properties.source == doc.id
  {
    var m := EntityMerge(g.nodes, doc);
    GraphData(m.nodes, g.edges + NewEdges(m, doc.id, doc.relationships))
  }

  // -------------------------------------------------- the other actions

  predicate NotFromDocument(docId: string, n: Node) {
    n.properties.source != docId
  }

  predicate EdgeNotFromDocument(docId: string, e: Edge) {
    e.properties.source != docId
  }

  predicate OtherDocument(docId: string, d: ProcessedDocument) {
    d.id != docId
  }

  function RemovedGraph(g: GraphData, docId: string): (r: GraphData)
    ensures |r.nodes| <= |g.nodes| && |r.edges| <= |g.edges|
    ensures forall i :: 0 <= i < |r.nodes| ==> r.nodes[i] in g.nodes && r.nodes[i].properties.source != docId
    ensures forall i :: 0 <= i < |r.edges| ==> r.edges[i] in g.edges && r.edges[i].properties.source != docId
  {
    GraphData(Filter(g.nodes, n => NotFromDocument(docId, n)), Filter(g.edges, e => EdgeNotFromDocument(docId, e)))
  }

  function ApplyNodeUpdate(n: Node, u: NodeUpdate): (r: Node)
    ensures u == NodeUpdate(None, None, None, None) ==> r == n
    ensures r.id == n.id || u.id == Some(r.id)
    ensures r.nodeLabel == n.nodeLabel || u.nodeLabel == Some(r.nodeLabel)
    ensures r.nodeType == n.nodeType || u.nodeType == Some(r.nodeType)
    ensures r.properties == n.properties || u.properties == Some(r.properties)
  {
    Node(u.id.GetOr(n.id), u.nodeLabel.GetOr(n.nodeLabel), u.nodeType.GetOr(n.nodeType),
         u.properties.GetOr(n.properties))
  }

  function ApplyEdgeUpdate(e: Edge, u: EdgeUpdate): (r: Edge)
    ensures u == EdgeUpdate(None, None, None, None, None) ==> r == e
    ensures r.id == e.id || u.id == Some(r.id)
    ensures r.source == e.source || u.source == Some(r.source)
    ensures r.target == e.target || u.target == Some(r.target)
    ensures r.relationship == e.relationship || u.relationship == Some(r.relationship)
    ensures r.properties == e.properties || u.properties == Some(r.properties)
  {
    Edge(u.id.GetOr(e.id), u.source.GetOr(e.source), u.target.GetOr(e.target),
         u.relationship.GetOr(e.relationship), u.properties.GetOr(e.properties))
  }

  function UpdatedNodes(ns: seq<Node>, nodeId: string, u: NodeUpdate): (r: seq<Node>)
    ensures |r| == |ns|
  {
    seq(|ns|, i requires 0 <= i < |ns| => if ns[i].id == nodeId then ApplyNodeUpdate(ns[i], u) else ns[i])
  }

  function UpdatedEdges(es: seq<Edge>, edgeId: string, u: EdgeUpdate): (r: seq<Edge>)
    ensures |r| == |es|
  {
    seq(|es|, i requires 0 <= i < |es| => if es[i].id == edgeId then ApplyEdgeUpdate(es[i], u) else es[i])
  }

  /** `connectedNodeIds`: every endpoint of every edge. */
  function ConnectedIds(es: seq<Edge>): set<string>
  {
    (set j | 0 <= j < |es| :: es[j].source) + (set j | 0 <= j < |es| :: es[j].target)
  }

  predicate HeavyAndConnected(connected: set<string>, n: Node) {
    n.properties.weight > 0.5 && n.id in connected
  }

  /** `optimizedNodes.some(n => n.id === id)` */
  predicate HasNodeId(ns: seq<Node>, id: string) {
    exists i :: 0 <= i < |ns| && ns[i].id == id
  }

  predicate BothEndsKept(ns: seq<Node>, e: Edge) {
    HasNodeId(ns, e.source) && HasNodeId(ns, e.target)
  }

  /** The nodes OPTIMIZE_GRAPH keeps. */
  function KeptNodes(ns: seq<Node>, connected: set<string>): (r: seq<Node>)
    ensures |r| <= |ns|
    ensures forall i :: 0 <= i < |r| ==> r[i] in ns && r[i].properties.weight > 0.5 && r[i].id in connected
  {
    Filter(ns, n => HeavyAndConnected(connected, n))
  }

  /** The edges OPTIMIZE_GRAPH keeps, given the kept nodes. */
  function KeptEdges(es: seq<Edge>, kept: seq<Node>): (r: seq<Edge>)
    ensures |r| <= |es|
    ensures forall i :: 0 <= i < |r| ==> r[i] in es && HasNodeId(kept, r[i].source) && HasNodeId(kept, r[i].target)
  {
    Filter(es, e => BothEndsKept(kept, e))
  }

  function OptimizedGraph(g: GraphData): (r: GraphData)
    ensures |r.nodes| <= |g.nodes| && |r.edges| <= |g.edges|
  {
    var kept := KeptNodes(g.nodes, ConnectedIds(g.edges));
    GraphData(kept, KeptEdges(g.edges, kept))
  }

  /** `graphReducer` */
  function Reduce(s: GraphState, a: GraphAction): (r: GraphState)
    ensures !a.AddDocument? && !a.RemoveDocument? && !a.ClearGraph? ==> r.documents == s.documents
    ensures a.UpdateNode? || a.UpdateEdge? ==>
              |r.graphData.nodes| == |s.graphData.nodes| && |r.graphData.edges| == |s.graphData.edges|
    ensures a.RemoveDocument? || a.OptimizeGraph? ==>
              |r.graphData.nodes| <= |s.graphData.nodes| && |r.graphData.edges| <= |s.graphData.edges|
  {
    match a
    case AddDocument(doc) => GraphState(AddedGraph(s.graphData, doc), s.documents + [doc])
    case RemoveDocument(docId) =>
      GraphState(RemovedGraph(s.graphData, docId), Filter(s.documents, d => OtherDocument(docId, d)))
    case UpdateNode(nodeId, u) =>
      s.(graphData := s.graphData.(nodes := UpdatedNodes(s.graphData.nodes, nodeId, u)))
    case UpdateEdge(edgeId, u) =>
      s.(graphData := s.graphData.(edges := UpdatedEdges(s.graphData.edges, edgeId, u)))
    case ClearGraph => InitialState
    case OptimizeGraph => s.(graphData := OptimizedGraph(s.graphData))
    case ImportGraph(data) => s.(graphData := data)
  }

  /** One step of the entity loop, with the nodes kept as the store's
      (`store`) followed by this call's new ones (`added`): a known key
      updates the node in whichever part holds it. */
  lemma EntityStep(store: seq<Node>, added: seq<Node>, index: map<string, nat>, docId: string, e: Entity)
    requires IndexInRange(Merge(store + added, index))
    ensures var k := Lower(e.name);
            var w := OrOne(e.confidence);
            MergeEntity(Merge(store + added, index), docId, e)
            == if k !in index then Merge(store + (added + [NewNode(docId, e)]), index[k := |store| + |added|])
               else if index[k] < |store| then Merge(store[index[k] := AddWeight(store[index[k]], w)] + added, index)
               else Merge(store + added[index[k] - |store| := AddWeight(added[index[k] - |store|], w)], index)
  {
    var k := Lower(e.name);
    if k in index {
      var at := index[k];
      var all := store + added;
      var x := AddWeight(all[at], OrOne(e.confidence));
      if at < |store| {
        assert store[at := x] + added == all[at := x];
      } else {
        assert store + added[at - |store| := x] == all[at := x];
      }
    } else {
      assert store + (added + [NewNode(docId, e)]) == (store + added) + [NewNode(docId, e)];
    }
  }

  /** The relationship loop of ADD_DOCUMENT: an edge for each relationship
      whose two names are in the label map, in order. */
  method ResolveEdges(nodes: seq<Node>, existingNodeMap: map<string, nat>, doc: ProcessedDocument)
    returns (newEdges: seq<Edge>)
    requires IndexInRange(Merge(nodes, existingNodeMap))
    ensures newEdges == NewEdges(Merge(nodes, existingNodeMap), doc.id, doc.relationships)
  {
    ghost var merged := Merge(nodes, existingNodeMap);
    newEdges := [];
    for j := 0 to |doc.relationships|
      invariant newEdges == NewEdges(merged, doc.id, doc.relationships[..j])
    {
      var rel := doc.relationships[j];
      NewEdgesAppend(merged, doc.id, doc.relationships[..j], rel);
      assert doc.relationships[..j + 1] == doc.relationships[..j] + [rel];
      var sourceKey, targetKey := Lower(rel.source), Lower(rel.target);
      if sourceKey in existingNodeMap && targetKey in existingNodeMap {
        var sourceNode := nodes[existingNodeMap[sourceKey]];
        var targetNode := nodes[existingNodeMap[targetKey]];
        newEdges := newEdges + [Edge(doc.id + "-" + rel.source + "-" + rel.target + "-" + rel.relationship,
                                     sourceNode.id, targetNode.id, rel.relationship,
                                     EdgeProperties(OrOne(rel.confidence), doc.id))];
      }
    }
    assert doc.relationships[..|doc.relationships|] == doc.relationships;
  }

  // ------------------------------------------------------------ the store

  /** The reducer's state held in fields, one method per action. */
  class GraphStore {
    var nodes: seq<Node>
    var edges: seq<Edge>
    var documents: seq<ProcessedDocument>

    function State(): GraphState
      reads this
    {
      GraphState(GraphData(nodes, edges), documents)
    }

    /** `initialState` */
    constructor()
      ensures State() == InitialState
    {
      nodes := [];
      edges := [];
      documents := [];
    }

    /** ADD_DOCUMENT: a known label gains weight in place, an unknown one
        becomes a new node, and each relationship whose two names resolve
        becomes an edge. */
    method AddDocument(doc: ProcessedDocument)
      modifies this
      ensures State() == Reduce(old(State()), GraphAction.AddDocument(doc))
    {
      var existingNodeMap := MergeDocumentEntities(doc);
      var newEdges := ResolveEdges(nodes, existingNodeMap, doc);
      edges := edges + newEdges;
      documents := documents + [doc];
    }

    /** The entity loop of ADD_DOCUMENT, on the store's nodes in place. The
        label map stores positions: below `|nodes|` a node of the store,
        from there on one of `newNodes`, which are appended at the end. */
    method MergeDocumentEntities(doc: ProcessedDocument) returns (existingNodeMap: map<string, nat>)
      modifies this
      ensures Merge(nodes, existingNodeMap) == EntityMerge(old(nodes), doc)
      ensures edges == old(edges) && documents == old(documents)
    {
      ghost var initial := nodes;
      existingNodeMap := LabelIndex(nodes);
      var newNodes: seq<Node> := [];
      ghost var merged := StartMerge(initial);
      for j := 0 to |doc.entities|
        invariant |nodes| == |initial|
        invariant edges == old(edges) && documents == old(documents)
        invariant merged == MergeEntities(StartMerge(initial), doc.id, doc.entities[..j])
        invariant IndexInRange(merged)
        invariant Merge(nodes + newNodes, existingNodeMap) == merged
      {
        var entity := doc.entities[j];
        MergeEntitiesNext(StartMerge(initial), doc.id, doc.entities, j);
        merged := MergeEntity(merged, doc.id, entity);
        newNodes, existingNodeMap := MergeEntityInPlace(newNodes, existingNodeMap, doc.id, entity);
      }
      assert doc.entities[..|doc.entities|] == doc.entities;
      nodes := nodes + newNodes;
    }

    /** One step of the entity loop: a known key adds `confidence || 1` to
        the weight of the node it names, wherever that node sits; an
        unknown key appends a new node and records its position. */
    method MergeEntityInPlace(newNodes: seq<Node>, existingNodeMap: map<string, nat>, docId: string, entity: Entity)
      returns (newNodes': seq<Node>, existingNodeMap': map<string, nat>)
      modifies this
      requires IndexInRange(Merge(nodes + newNodes, existingNodeMap))
      ensures |nodes| == |old(nodes)|
      ensures edges == old(edges) && documents == old(documents)
      ensures Merge(nodes + newNodes', existingNodeMap') == MergeEntity(Merge(old(nodes) + newNodes, existingNodeMap), docId, entity)
    {
      var key := Lower(entity.name);
      EntityStep(nodes, newNodes, existingNodeMap, docId, entity);
      newNodes', existingNodeMap' := newNodes, existingNodeMap;
      if key in existingNodeMap {
        var at := existingNodeMap[key];
        if at < |nodes| {
          nodes := nodes[at := AddWeight(nodes[at], OrOne(entity.confidence))];
        } else {
          newNodes' := newNodes[at - |nodes| := AddWeight(newNodes[at - |nodes|], OrOne(entity.confidence))];
        }
      } else {
        newNodes' := newNodes + [NewNode(docId, entity)];
        existingNodeMap' := existingNodeMap[key := |nodes| + |newNodes|];
      }
    }

    /** REMOVE_DOCUMENT */
    method RemoveDocument(docId: string)
      modifies this
      ensures State() == Reduce(old(State()), GraphAction.RemoveDocument(docId))
    {
      documents := Filter(documents, d => OtherDocument(docId, d));
      nodes := Filter(nodes, n => NotFromDocument(docId, n));
      edges := Filter(edges, e => EdgeNotFromDocument(docId, e));
    }

    /** UPDATE_NODE */
    method UpdateNode(nodeId: string, updates: NodeUpdate)
      modifies this
      ensures State() == Reduce(old(State()), GraphAction.UpdateNode(nodeId, updates))
    {
      nodes := UpdatedNodes(nodes, nodeId, updates);
    }

    /** UPDATE_EDGE */
    method UpdateEdge(edgeId: string, updates: EdgeUpdate)
      modifies this
      ensures State() == Reduce(old(State()), GraphAction.UpdateEdge(edgeId, updates))
    {
      edges := UpdatedEdges(edges, edgeId, updates);
    }

    /** CLEAR_GRAPH */
    method ClearGraph()
      modifies this
      ensures State() == Reduce(old(State()), GraphAction.ClearGraph)
    {
      nodes := [];
      edges := [];
      documents := [];
    }

    /** OPTIMIZE_GRAPH: one pass, over the edges as they were before it. */
    method OptimizeGraph()
      modifies this
      ensures State() == Reduce(old(State()), GraphAction.OptimizeGraph)
    {
      var connectedNodeIds := ConnectedIds(edges);
      var optimizedNodes := KeptNodes(nodes, connectedNodeIds);
      var optimizedEdges := KeptEdges(edges, optimizedNodes);
      nodes := optimizedNodes;
      edges := optimizedEdges;
    }

    /** IMPORT_GRAPH: the graph is replaced, the documents stay. */
    method ImportGraph(data: GraphData)
      modifies this
      ensures State() == Reduce(old(State()), GraphAction.ImportGraph(data))
    {
      nodes := data.nodes;
      edges := data.edges;
    }
  }
}
