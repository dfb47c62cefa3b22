/** What the reducer's actions guarantee, stated over `Reduce` and the
    functions it is built from. */
module GraphProperties {
  import opened Wrappers
  import opened Text
  import opened GraphTypes
  import opened Seqs
  import opened GraphContext

  // ------------------------------------------------------- ADD_DOCUMENT

  /** Two nodes that agree on everything but their weight. */
  predicate SameExceptWeight(a: Node, b: Node) {
    && a.id == b.id && a.nodeLabel == b.nodeLabel && a.nodeType == b.nodeType
    && a.properties.source == b.properties.source
    && a.properties.description == b.properties.description
  }

  /** The entity loop only appends nodes and only changes weights: every
      node present before keeps its id, label, type, source and
      description; the label map only gains keys, one per entity at most. */
  lemma {:induction false} MergeFrame(m: Merge, docId: string, es: seq<Entity>)
    requires IndexInRange(m)
    ensures var r := MergeEntities(m, docId, es);
            && |m.nodes| <= |r.nodes|
            && (forall i :: 0 <= i < |m.nodes| ==> SameExceptWeight(r.nodes[i], m.nodes[i]))
            && (forall k :: k in m.index ==> k in r.index && r.index[k] == m.index[k])
            && (forall j :: 0 <= j < |es| ==> Lower(es[j].name) in r.index)
  {
    if es != [] {
      var es' := es[..|es| - 1];
      MergeFrame(m, docId, es');
      var r := MergeEntities(m, docId, es');
      forall j | 0 <= j < |es|
        ensures Lower(es[j].name) in MergeEntities(m, docId, es).index
      {
        if j < |es'| {
          assert es[j] == es'[j];
        }
      }
    }
  }

  /** One entity keeps the label map sound: each key points at a node
      with that key, and each node's key is mapped. */
  lemma MergeEntityResolves(m: Merge, docId: string, e: Entity)
    requires IndexInRange(m) && IndexResolves(m)
    ensures IndexResolves(MergeEntity(m, docId, e))
  {
    var k := Lower(e.name);
    var r := MergeEntity(m, docId, e);
    if k !in m.index {
      assert LabelKey(r.nodes[|m.nodes|]) == k;
      forall i | 0 <= i < |r.nodes|
        ensures LabelKey(r.nodes[i]) in r.index
      {
        if i < |m.nodes| {
          assert r.nodes[i] == m.nodes[i];
        }
      }
    }
  }

  lemma {:induction false} MergeResolves(m: Merge, docId: string, es: seq<Entity>)
    requires IndexInRange(m) && IndexResolves(m)
    ensures IndexResolves(MergeEntities(m, docId, es))
  {
    if es != [] {
      MergeResolves(m, docId, es[..|es| - 1]);
      MergeEntityResolves(MergeEntities(m, docId, es[..|es| - 1]), docId, es[|es| - 1]);
    }
  }

  /** The label map built from the store's nodes is sound. */
  lemma StartResolves(ns: seq<Node>)
    ensures IndexResolves(StartMerge(ns))
  {
    LabelIndexLast(ns);
  }

  /** The total `confidence || 1` of the entities whose lower-cased name is `k`. */
  function Gain(es: seq<Entity>, k: string): real {
    if es == [] then 0.0
    else Gain(es[..|es| - 1], k) + (if Lower(es[|es| - 1].name) == k then OrOne(es[|es| - 1].confidence) else 0.0)
  }

  lemma {:induction false} GainOfUnnamed(es: seq<Entity>, k: string)
    requires forall j :: 0 <= j < |es| ==> Lower(es[j].name) != k
    ensures Gain(es, k) == 0.0
  {
    if es != [] {
      GainOfUnnamed(es[..|es| - 1], k);
    }
  }

  lemma {:induction false} GainNonNegative(es: seq<Entity>, k: string)
    requires forall j :: 0 <= j < |es| ==> NonNegative(es[j].confidence)
    ensures Gain(es, k) >= 0.0
  {
    if es != [] {
      GainNonNegative(es[..|es| - 1], k);
      OrOneIsPositive(es[|es| - 1].confidence);
    }
  }

  /** A node's weight before the loop: its old weight, or 0 for a node the
      loop creates. */
  function PriorWeight(m: Merge, i: nat): real {
    if i < |m.nodes| then m.nodes[i].properties.weight else 0.0
  }

  /** The weights of `r`, the merge of `es` into `m`, are the prior ones
      plus, at the node each key maps to, what the entities with that key
      added. */
  predicate WeightsAccumulate(m: Merge, es: seq<Entity>, r: Merge)
    requires IndexResolves(r)
  {
    forall i :: 0 <= i < |r.nodes| ==>
      r.nodes[i].properties.weight
      == PriorWeight(m, i) + (if r.index[LabelKey(r.nodes[i])] == i then Gain(es, LabelKey(r.nodes[i])) else 0.0)
  }

  /** An entity with a known key adds its weight where its key points. */
  lemma WeightStepKnown(m: Merge, docId: string, es: seq<Entity>, r: Merge)
    requires es != [] && IndexInRange(r) && IndexResolves(r)
    requires Lower(es[|es| - 1].name) in r.index
    requires WeightsAccumulate(m, es[..|es| - 1], r)
    ensures IndexResolves(MergeEntity(r, docId, es[|es| - 1]))
    ensures WeightsAccumulate(m, es, MergeEntity(r, docId, es[|es| - 1]))
  {
    var r' := MergeEntity(r, docId, es[|es| - 1]);
    MergeEntityResolves(r, docId, es[|es| - 1]);
    forall i | 0 <= i < |r'.nodes|
      ensures r'.nodes[i].properties.weight
              == PriorWeight(m, i) + (if r'.index[LabelKey(r'.nodes[i])] == i then Gain(es, LabelKey(r'.nodes[i])) else 0.0)
    {
      assert LabelKey(r'.nodes[i]) == LabelKey(r.nodes[i]);
    }
  }

  /** An entity with an unknown key appends a node that carries exactly
      its weight, every earlier entity having had another key. */
  lemma WeightStepNew(m: Merge, docId: string, es: seq<Entity>, r: Merge)
    requires es != [] && IndexInRange(r) && IndexResolves(r) && |m.nodes| <= |r.nodes|
    requires Lower(es[|es| - 1].name) !in r.index
    requires forall j :: 0 <= j < |es| - 1 ==> Lower(es[j].name) in r.index
    requires WeightsAccumulate(m, es[..|es| - 1], r)
    ensures IndexResolves(MergeEntity(r, docId, es[|es| - 1]))
    ensures WeightsAccumulate(m, es, MergeEntity(r, docId, es[|es| - 1]))
  {
    var k := Lower(es[|es| - 1].name);
    var r' := MergeEntity(r, docId, es[|es| - 1]);
    MergeEntityResolves(r, docId, es[|es| - 1]);
    GainOfUnnamed(es[..|es| - 1], k);
    forall i | 0 <= i < |r'.nodes|
      ensures r'.nodes[i].properties.weight
              == PriorWeight(m, i) + (if r'.index[LabelKey(r'.nodes[i])] == i then Gain(es, LabelKey(r'.nodes[i])) else 0.0)
    {
      if i < |r.nodes| {
        assert r'.nodes[i] == r.nodes[i];
        assert LabelKey(r.nodes[i]) in r.index;
      } else {
        assert LabelKey(r'.nodes[i]) == k;
      }
    }
  }

  /** Weights accumulate exactly: after the entity loop, the node a key maps
      to has gained `confidence || 1` of every entity with that key (a node
      the loop created starts from nothing), and every other node kept its
      weight. */
  lemma {:induction false} MergeWeights(m: Merge, docId: string, es: seq<Entity>)
    requires IndexInRange(m) && IndexResolves(m)
    ensures IndexResolves(MergeEntities(m, docId, es))
    ensures WeightsAccumulate(m, es, MergeEntities(m, docId, es))
  {
    MergeResolves(m, docId, es);
    if es != [] {
      var es' := es[..|es| - 1];
      MergeWeights(m, docId, es');
      MergeFrame(m, docId, es');
      var r := MergeEntities(m, docId, es');
      if Lower(es[|es| - 1].name) in r.index {
        WeightStepKnown(m, docId, es, r);
      } else {
        forall j | 0 <= j < |es| - 1
          ensures Lower(es[j].name) in r.index
        {
          assert es[j] == es'[j];
        }
        WeightStepNew(m, docId, es, r);
      }
    }
  }

  /** Every node the loop appends carries a key that was not mapped
      before, and the map points that key at it: new nodes have pairwise
      distinct keys, none shared with a node that existed. */
  lemma {:induction false} NewNodesIndexed(m: Merge, docId: string, es: seq<Entity>)
    requires IndexInRange(m)
    ensures var r := MergeEntities(m, docId, es);
            forall i :: |m.nodes| <= i < |r.nodes| ==>
              LabelKey(r.nodes[i]) !in m.index && LabelKey(r.nodes[i]) in r.index && r.index[LabelKey(r.nodes[i])] == i
  {
    if es != [] {
      var es', e := es[..|es| - 1], es[|es| - 1];
      NewNodesIndexed(m, docId, es');
      MergeFrame(m, docId, es');
      var r := MergeEntities(m, docId, es');
      var r' := MergeEntities(m, docId, es);
      var k := Lower(e.name);
      forall i | |m.nodes| <= i < |r'.nodes|
        ensures LabelKey(r'.nodes[i]) !in m.index && LabelKey(r'.nodes[i]) in r'.index && r'.index[LabelKey(r'.nodes[i])] == i
      {
        if i < |r.nodes| {
          assert LabelKey(r'.nodes[i]) == LabelKey(r.nodes[i]);
        } else {
          assert LabelKey(r'.nodes[i]) == k;
        }
      }
    }
  }

  /** A node the loop appends is the node built from the first entity with
      its key, a key unknown before the call (its weight aside, which
      `MergeWeights` gives): later entities with the same key never change
      its type or description. */
  lemma {:induction false} NewNodeOrigin(m: Merge, docId: string, es: seq<Entity>, i: nat)
    requires IndexInRange(m)
    requires |m.nodes| <= i < |MergeEntities(m, docId, es).nodes|
    ensures exists j :: 0 <= j < |es| && Lower(es[j].name) !in m.index
                     && SameExceptWeight(MergeEntities(m, docId, es).nodes[i], NewNode(docId, es[j]))
                     && forall j' :: 0 <= j' < j ==> Lower(es[j'].name) != Lower(es[j].name)
  {
    var es', e := es[..|es| - 1], es[|es| - 1];
    MergeFrame(m, docId, es');
    var r := MergeEntities(m, docId, es');
    var r' := MergeEntities(m, docId, es);
    if i < |r.nodes| {
      NewNodeOrigin(m, docId, es', i);
      var j :| 0 <= j < |es'| && Lower(es'[j].name) !in m.index && SameExceptWeight(r.nodes[i], NewNode(docId, es'[j]))
               && forall j' :: 0 <= j' < j ==> Lower(es'[j'].name) != Lower(es'[j].name);
      assert es[j] == es'[j];
      assert forall j' :: 0 <= j' < j ==> es[j'] == es'[j'];
    } else {
      assert Lower(e.name) !in r.index;
      assert SameExceptWeight(r'.nodes[i], NewNode(docId, es[|es| - 1]));
      assert forall j' :: 0 <= j' < |es'| ==> es[j'] == es'[j'];
    }
  }

  /** When every entity's key is already a mapped label, the loop creates
      no node and leaves the map alone. */
  lemma {:induction false} MergeKnown(m: Merge, docId: string, es: seq<Entity>)
    requires IndexInRange(m)
    requires forall j :: 0 <= j < |es| ==> Lower(es[j].name) in m.index
    ensures |MergeEntities(m, docId, es).nodes| == |m.nodes|
    ensures MergeEntities(m, docId, es).index == m.index
  {
    if es != [] {
      MergeKnown(m, docId, es[..|es| - 1]);
    }
  }

  /** The lower-cased labels of `ns`. */
  function Labels(ns: seq<Node>): (ks: set<string>)
    ensures forall i :: 0 <= i < |ns| ==> LabelKey(ns[i]) in ks
    ensures forall k :: k in ks ==> exists i :: 0 <= i < |ns| && LabelKey(ns[i]) == k
  {
    set i | 0 <= i < |ns| :: LabelKey(ns[i])
  }

  /** ADD_DOCUMENT on the graph: existing nodes keep their place and all
      but their weight, nodes are only appended, the document is
      appended, the old edges stay in front, and every entity's key now
      names a node whose label carries it. */
  lemma AddDocumentShape(s: GraphState, doc: ProcessedDocument)
    ensures var r := Reduce(s, AddDocument(doc));
            var old_ := s.graphData.nodes;
            && |old_| <= |r.graphData.nodes|
            && (forall i :: 0 <= i < |old_| ==> SameExceptWeight(r.graphData.nodes[i], old_[i]))
            && r.graphData.edges[..|s.graphData.edges|] == s.graphData.edges
            && r.documents == s.documents + [doc]
            && (forall j :: 0 <= j < |doc.entities| ==> Lower(doc.entities[j].name) in Labels(r.graphData.nodes))
  {
    var m := StartMerge(s.graphData.nodes);
    StartResolves(s.graphData.nodes);
    MergeFrame(m, doc.id, doc.entities);
    MergeResolves(m, doc.id, doc.entities);
    var r := MergeEntities(m, doc.id, doc.entities);
    forall j | 0 <= j < |doc.entities|
      ensures Lower(doc.entities[j].name) in Labels(r.nodes)
    {
      var k := Lower(doc.entities[j].name);
      assert LabelKey(r.nodes[r.index[k]]) == k;
    }
  }

  /** ADD_DOCUMENT's weights, exactly: each node's weight is its weight
      before the call (none for a node the call creates) plus, for the node
      the label map finally points its key at, the `confidence || 1` of
      every entity of the document with that key. */
  lemma AddDocumentWeights(s: GraphState, doc: ProcessedDocument)
    ensures IndexResolves(EntityMerge(s.graphData.nodes, doc))
    ensures var m := EntityMerge(s.graphData.nodes, doc);
            var ns := Reduce(s, AddDocument(doc)).graphData.nodes;
            && ns == m.nodes
            && forall i :: 0 <= i < |ns| ==>
                 ns[i].properties.weight
                 == PriorWeight(StartMerge(s.graphData.nodes), i)
                    + (if m.index[LabelKey(ns[i])] == i then Gain(doc.entities, LabelKey(ns[i])) else 0.0)
  {
    StartResolves(s.graphData.nodes);
    MergeWeights(StartMerge(s.graphData.nodes), doc.id, doc.entities);
  }

  /** A node ADD_DOCUMENT creates: built from the first entity with its
      name, a name that matched no existing label, its weight the total
      `confidence || 1` of the document's entities with that name. */
  lemma AddDocumentNewNode(s: GraphState, doc: ProcessedDocument, i: nat)
    requires |s.graphData.nodes| <= i < |Reduce(s, AddDocument(doc)).graphData.nodes|
    ensures var n := Reduce(s, AddDocument(doc)).graphData.nodes[i];
            && LabelKey(n) !in Labels(s.graphData.nodes)
            && n.properties.weight == Gain(doc.entities, LabelKey(n))
            && exists j :: 0 <= j < |doc.entities| && SameExceptWeight(n, NewNode(doc.id, doc.entities[j]))
                         && forall j' :: 0 <= j' < j ==> Lower(doc.entities[j'].name) != Lower(doc.entities[j].name)
  {
    var m := StartMerge(s.graphData.nodes);
    StartResolves(s.graphData.nodes);
    NewNodesIndexed(m, doc.id, doc.entities);
    MergeWeights(m, doc.id, doc.entities);
    NewNodeOrigin(m, doc.id, doc.entities, i);
  }

  /** With non-negative confidences, as the extractor produces, no weight
      goes down and no node disappears. */
  lemma AddDocumentNeverLowersWeights(s: GraphState, doc: ProcessedDocument)
    requires forall j :: 0 <= j < |doc.entities| ==> NonNegative(doc.entities[j].confidence)
    ensures var ns := Reduce(s, AddDocument(doc)).graphData.nodes;
            && |s.graphData.nodes| <= |ns|
            && forall i :: 0 <= i < |s.graphData.nodes| ==>
                 s.graphData.nodes[i].properties.weight <= ns[i].properties.weight
  {
    AddDocumentWeights(s, doc);
    AddDocumentShape(s, doc);
    forall k: string {
      GainNonNegative(doc.entities, k);
    }
  }

  /** A document whose every entity names an existing label adds no node. */
  lemma KnownEntitiesCreateNoNode(s: GraphState, doc: ProcessedDocument)
    requires forall j :: 0 <= j < |doc.entities| ==> Lower(doc.entities[j].name) in Labels(s.graphData.nodes)
    ensures |Reduce(s, AddDocument(doc)).graphData.nodes| == |s.graphData.nodes|
  {
    var m := StartMerge(s.graphData.nodes);
    StartResolves(s.graphData.nodes);
    forall j | 0 <= j < |doc.entities|
      ensures Lower(doc.entities[j].name) in m.index
    {
      assert Lower(doc.entities[j].name) in Labels(s.graphData.nodes);
      var i :| 0 <= i < |s.graphData.nodes| && LabelKey(s.graphData.nodes[i]) == Lower(doc.entities[j].name);
    }
    MergeKnown(m, doc.id, doc.entities);
  }

  /** Every new edge comes from a relationship whose two names resolve. */
  lemma {:induction false} NewEdgeOrigin(m: Merge, docId: string, rels: seq<Relationship>, k: nat)
    requires IndexInRange(m) && k < |NewEdges(m, docId, rels)|
    ensures exists j :: 0 <= j < |rels| && Resolves(m, rels[j]) && NewEdges(m, docId, rels)[k] == EdgeOf(m, docId, rels[j])
  {
    var rels', rel := rels[..|rels| - 1], rels[|rels| - 1];
    if k < |NewEdges(m, docId, rels')| {
      NewEdgeOrigin(m, docId, rels', k);
      var j :| 0 <= j < |rels'| && Resolves(m, rels'[j]) && NewEdges(m, docId, rels')[k] == EdgeOf(m, docId, rels'[j]);
      assert rels[j] == rels'[j];
    } else {
      assert Resolves(m, rel) && NewEdges(m, docId, rels)[k] == EdgeOf(m, docId, rel);
    }
  }

  /** Every relationship whose two names resolve yields its edge. */
  lemma {:induction false} ResolvedRelationshipHasEdge(m: Merge, docId: string, rels: seq<Relationship>, j: nat)
    requires IndexInRange(m) && j < |rels| && Resolves(m, rels[j])
    ensures EdgeOf(m, docId, rels[j]) in NewEdges(m, docId, rels)
  {
    if j < |rels| - 1 {
      var rels' := rels[..|rels| - 1];
      assert rels'[j] == rels[j];
      ResolvedRelationshipHasEdge(m, docId, rels', j);
    }
  }

  /** ADD_DOCUMENT's edges: the old ones, then one per relationship whose
      names both resolve in the label map (which includes this call's new
      nodes), each joining two node ids of the new graph. */
  lemma AddDocumentEdges(s: GraphState, doc: ProcessedDocument, k: nat)
    requires |s.graphData.edges| <= k < |Reduce(s, AddDocument(doc)).graphData.edges|
    ensures var g := Reduce(s, AddDocument(doc)).graphData;
            var m := EntityMerge(s.graphData.nodes, doc);
            && HasNodeId(g.nodes, g.edges[k].source) && HasNodeId(g.nodes, g.edges[k].target)
            && g.edges[k].properties.source == doc.id
            && exists j :: 0 <= j < |doc.relationships| && Resolves(m, doc.relationships[j])
                        && g.edges[k] == EdgeOf(m, doc.id, doc.relationships[j])
  {
    var m := EntityMerge(s.graphData.nodes, doc);
    var g := Reduce(s, AddDocument(doc)).graphData;
    NewEdgeOrigin(m, doc.id, doc.relationships, k - |s.graphData.edges|);
    var j :| 0 <= j < |doc.relationships| && Resolves(m, doc.relationships[j])
             && g.edges[k] == EdgeOf(m, doc.id, doc.relationships[j]);
    var rel := doc.relationships[j];
    assert g.edges[k].source == m.nodes[m.index[Lower(rel.source)]].id;
    assert g.edges[k].target == m.nodes[m.index[Lower(rel.target)]].id;
  }

  /** Two entities with different keys, merged into an empty store, become
      two new nodes at positions 0 and 1, in entity order. */
  lemma TwoEntityMerge(doc: ProcessedDocument, x: Entity, y: Entity)
    requires doc.entities == [x, y] && Lower(x.name) != Lower(y.name)
    ensures EntityMerge([], doc).nodes == [NewNode(doc.id, x), NewNode(doc.id, y)]
    ensures EntityMerge([], doc).index == map[Lower(x.name) := 0, Lower(y.name) := 1]
  {
    var m0 := StartMerge([]);
    assert m0.index == map[];
    assert [x, y][..1] == [x] && [x][..0] == [];
    var m1 := MergeEntity(m0, doc.id, x);
    assert MergeEntities(m0, doc.id, [x]) == m1;
    assert EntityMerge([], doc) == MergeEntity(m1, doc.id, y);
  }

  /** Edge ids can repeat: a document whose extracted relationships hold
      the same resolving hit twice (the extractor keeps repeats) adds two
      equal edges, so two edges with one id. */
  lemma RepeatedRelationshipRepeatsEdgeId(s: GraphState, doc: ProcessedDocument, rel: Relationship)
    requires doc.relationships == [rel, rel]
    requires Resolves(EntityMerge(s.graphData.nodes, doc), rel)
    ensures var g := Reduce(s, AddDocument(doc)).graphData;
            var n := |s.graphData.edges|;
            && |g.edges| == n + 2
            && g.edges[n] == g.edges[n + 1]
            && g.edges[n].id == doc.id + "-" + rel.source + "-" + rel.target + "-" + rel.relationship
  {
    RepeatedHitTwoEdges(EntityMerge(s.graphData.nodes, doc), doc.id, rel);
  }

  /** A relationship that resolves and is listed twice gives two equal edges. */
  lemma RepeatedHitTwoEdges(m: Merge, docId: string, rel: Relationship)
    requires IndexInRange(m) && Resolves(m, rel)
    ensures NewEdges(m, docId, [rel, rel]) == [EdgeOf(m, docId, rel), EdgeOf(m, docId, rel)]
  {
    var e := EdgeOf(m, docId, rel);
    assert NewEdges(m, docId, [rel]) == [e] by {
      assert [rel][..0] == [];
    }
    assert [rel, rel][..1] == [rel];
  }

  // ---------------------------------------------------- REMOVE_DOCUMENT

  /** REMOVE_DOCUMENT keeps exactly the nodes, edges and documents not
      sourced from `docId`, each as often as it occurred, and leaves what
      it keeps untouched: surviving weights are not recomputed. */
  lemma RemoveDocumentKeeps(s: GraphState, docId: string, n: Node, e: Edge, d: ProcessedDocument)
    ensures var r := Reduce(s, RemoveDocument(docId));
            && multiset(r.graphData.nodes)[n] == (if n.properties.source != docId then multiset(s.graphData.nodes)[n] else 0)
            && multiset(r.graphData.edges)[e] == (if e.properties.source != docId then multiset(s.graphData.edges)[e] else 0)
            && multiset(r.documents)[d] == (if d.id != docId then multiset(s.documents)[d] else 0)
  {
    FilterMultiplicity(s.graphData.nodes, n => NotFromDocument(docId, n), n);
    FilterMultiplicity(s.graphData.edges, e => EdgeNotFromDocument(docId, e), e);
    FilterMultiplicity(s.documents, d => OtherDocument(docId, d), d);
  }

  /** REMOVE_DOCUMENT keeps the survivors in their order: removing a source
      no element carries changes nothing. */
  lemma RemoveAbsentDocument(s: GraphState, docId: string)
    requires forall i :: 0 <= i < |s.graphData.nodes| ==> s.graphData.nodes[i].properties.source != docId
    requires forall i :: 0 <= i < |s.graphData.edges| ==> s.graphData.edges[i].properties.source != docId
    requires forall i :: 0 <= i < |s.documents| ==> s.documents[i].id != docId
    ensures Reduce(s, RemoveDocument(docId)) == s
  {
    FilterKeepAll(s.graphData.nodes, n => NotFromDocument(docId, n));
    FilterKeepAll(s.graphData.edges, e => EdgeNotFromDocument(docId, e));
    FilterKeepAll(s.documents, d => OtherDocument(docId, d));
  }

  /** Removing a document just added does not rebalance: when no node of
      the store came from `doc`, the survivors are exactly the store's
      nodes as ADD_DOCUMENT left them, with the weight `doc` added to them
      (AddDocumentWeights) still included. */
  lemma RemoveDoesNotRebalance(s: GraphState, doc: ProcessedDocument)
    requires forall i :: 0 <= i < |s.graphData.nodes| ==> s.graphData.nodes[i].properties.source != doc.id
    ensures var added := Reduce(s, AddDocument(doc)).graphData.nodes;
            var r := Reduce(Reduce(s, AddDocument(doc)), RemoveDocument(doc.id)).graphData.nodes;
            && |s.graphData.nodes| <= |added|
            && r == added[..|s.graphData.nodes|]
            && forall i :: 0 <= i < |r| ==> SameExceptWeight(r[i], s.graphData.nodes[i])
  {
    var added := Reduce(s, AddDocument(doc)).graphData.nodes;
    AddedNodeSources(s, doc);
    FilterPrefix(added, |s.graphData.nodes|, n => NotFromDocument(doc.id, n));
  }

  /** After ADD_DOCUMENT the old nodes keep their sources and every new
      node belongs to the document. */
  lemma AddedNodeSources(s: GraphState, doc: ProcessedDocument)
    requires forall i :: 0 <= i < |s.graphData.nodes| ==> s.graphData.nodes[i].properties.source != doc.id
    ensures var added := Reduce(s, AddDocument(doc)).graphData.nodes;
            && |s.graphData.nodes| <= |added|
            && (forall i :: 0 <= i < |s.graphData.nodes| ==>
                  NotFromDocument(doc.id, added[i]) && SameExceptWeight(added[i], s.graphData.nodes[i]))
            && (forall i :: |s.graphData.nodes| <= i < |added| ==> !NotFromDocument(doc.id, added[i]))
  {
    AddDocumentShape(s, doc);
    var added := Reduce(s, AddDocument(doc)).graphData.nodes;
    forall i | |s.graphData.nodes| <= i < |added|
      ensures !NotFromDocument(doc.id, added[i])
    {
      AddDocumentNewNode(s, doc, i);
    }
  }

  // --------------------------------------------- UPDATE_NODE, UPDATE_EDGE

  /** UPDATE_NODE changes only the nodes with the given id, each to the
      node overlaid with the update; edges and documents are unchanged. */
  lemma UpdateNodeTouchesOnlyItsNode(s: GraphState, nodeId: string, u: NodeUpdate)
    ensures var r := Reduce(s, UpdateNode(nodeId, u));
            && |r.graphData.nodes| == |s.graphData.nodes|
            && (forall i :: 0 <= i < |s.graphData.nodes| && s.graphData.nodes[i].id != nodeId ==>
                  r.graphData.nodes[i] == s.graphData.nodes[i])
            && (forall i :: 0 <= i < |s.graphData.nodes| && s.graphData.nodes[i].id == nodeId ==>
                  r.graphData.nodes[i] == ApplyNodeUpdate(s.graphData.nodes[i], u))
            && r.graphData.edges == s.graphData.edges && r.documents == s.documents
  {
  }

  /** The overlay keeps what the update leaves out and takes what it gives. */
  lemma NodeOverlay(n: Node, u: NodeUpdate)
    ensures var r := ApplyNodeUpdate(n, u);
            && (u.id.None? ==> r.id == n.id) && (u.id.Some? ==> r.id == u.id.value)
            && (u.nodeLabel.None? ==> r.nodeLabel == n.nodeLabel) && (u.nodeLabel.Some? ==> r.nodeLabel == u.nodeLabel.value)
            && (u.nodeType.None? ==> r.nodeType == n.nodeType) && (u.nodeType.Some? ==> r.nodeType == u.nodeType.value)
            && (u.properties.None? ==> r.properties == n.properties)
            && (u.properties.Some? ==> r.properties == u.properties.value)
  {
  }

  /** Sending the same UPDATE_NODE twice is the same as sending it once,
      even when it renames the node. */
  lemma UpdateNodeIdempotent(s: GraphState, nodeId: string, u: NodeUpdate)
    ensures var once := Reduce(s, UpdateNode(nodeId, u));
            Reduce(once, UpdateNode(nodeId, u)) == once
  {
    var ns := s.graphData.nodes;
    var once := UpdatedNodes(ns, nodeId, u);
    var twice := UpdatedNodes(once, nodeId, u);
    forall i | 0 <= i < |ns|
      ensures twice[i] == once[i]
    {
      if ns[i].id == nodeId {
        assert once[i] == ApplyNodeUpdate(ns[i], u);
      }
    }
  }

  /** UPDATE_EDGE changes only the edges with the given id; nodes and
      documents are unchanged. */
  lemma UpdateEdgeTouchesOnlyItsEdge(s: GraphState, edgeId: string, u: EdgeUpdate)
    ensures var r := Reduce(s, UpdateEdge(edgeId, u));
            && |r.graphData.edges| == |s.graphData.edges|
            && (forall i :: 0 <= i < |s.graphData.edges| && s.graphData.edges[i].id != edgeId ==>
                  r.graphData.edges[i] == s.graphData.edges[i])
            && (forall i :: 0 <= i < |s.graphData.edges| && s.graphData.edges[i].id == edgeId ==>
                  r.graphData.edges[i] == ApplyEdgeUpdate(s.graphData.edges[i], u))
            && r.graphData.nodes == s.graphData.nodes && r.documents == s.documents
  {
  }

  lemma UpdateEdgeIdempotent(s: GraphState, edgeId: string, u: EdgeUpdate)
    ensures var once := Reduce(s, UpdateEdge(edgeId, u));
            Reduce(once, UpdateEdge(edgeId, u)) == once
  {
    var es := s.graphData.edges;
    var once := UpdatedEdges(es, edgeId, u);
    var twice := UpdatedEdges(once, edgeId, u);
    forall i | 0 <= i < |es|
      ensures twice[i] == once[i]
    {
      if es[i].id == edgeId {
        assert once[i] == ApplyEdgeUpdate(es[i], u);
      }
    }
  }

  // ------------------------------------------ CLEAR_GRAPH, IMPORT_GRAPH

  /** CLEAR_GRAPH forgets everything: whatever the state, the result is the
      initial one, and a document added afterwards is the only one. */
  lemma ClearThenAdd(s: GraphState, doc: ProcessedDocument)
    ensures Reduce(s, ClearGraph).graphData.nodes == [] && Reduce(s, ClearGraph).graphData.edges == []
    ensures Reduce(Reduce(s, ClearGraph), AddDocument(doc)).documents == [doc]
  {
  }

  /** IMPORT_GRAPH replaces nodes and edges wholesale and keeps the
      documents, which may then name nodes the graph no longer has. */
  lemma ImportKeepsDocuments(s: GraphState, data: GraphData)
    ensures Reduce(s, ImportGraph(data)).graphData == data
    ensures Reduce(s, ImportGraph(data)).documents == s.documents
  {
  }

  // ----------------------------------------------------- OPTIMIZE_GRAPH

  /** OPTIMIZE_GRAPH keeps exactly the nodes heavier than 0.5 whose id is
      an endpoint of an edge from before the pass, each as often as it
      occurred; the documents stay. */
  lemma OptimizeKeepsNodes(s: GraphState, n: Node)
    ensures var r := Reduce(s, OptimizeGraph);
            && multiset(r.graphData.nodes)[n]
               == (if n.properties.weight > 0.5 && n.id in ConnectedIds(s.graphData.edges) then multiset(s.graphData.nodes)[n] else 0)
            && r.documents == s.documents
  {
    var connected := ConnectedIds(s.graphData.edges);
    assert Reduce(s, OptimizeGraph).graphData.nodes == KeptNodes(s.graphData.nodes, connected);
    FilterMultiplicity(s.graphData.nodes, n => HeavyAndConnected(connected, n), n);
  }

  /** ... and exactly the edges both of whose ends are kept nodes. */
  lemma OptimizeKeepsEdges(s: GraphState, e: Edge)
    ensures var r := Reduce(s, OptimizeGraph).graphData;
            multiset(r.edges)[e]
            == (if HasNodeId(r.nodes, e.source) && HasNodeId(r.nodes, e.target) then multiset(s.graphData.edges)[e] else 0)
  {
    var r := Reduce(s, OptimizeGraph).graphData;
    FilterMultiplicity(s.graphData.edges, e => BothEndsKept(r.nodes, e), e);
  }

  /** After the pass every edge joins two nodes of the graph. */
  lemma OptimizeLeavesNoDanglingEdge(s: GraphState)
    ensures var r := Reduce(s, OptimizeGraph).graphData;
            forall k :: 0 <= k < |r.edges| ==> HasNodeId(r.nodes, r.edges[k].source) && HasNodeId(r.nodes, r.edges[k].target)
  {
    var r := Reduce(s, OptimizeGraph).graphData;
    forall k | 0 <= k < |r.edges|
      ensures HasNodeId(r.nodes, r.edges[k].source) && HasNodeId(r.nodes, r.edges[k].target)
    {
      assert BothEndsKept(r.nodes, r.edges[k]);
    }
  }

  /** The pass is single: a heavy node whose only incident edge leads to
      light nodes survives it edgeless, and only a second pass removes it. */
  lemma OptimizeIsSinglePass(s: GraphState, a: Node, e: Edge)
    requires a in s.graphData.nodes && a.properties.weight > 0.5
    requires e in s.graphData.edges && e.source == a.id
    requires forall n :: n in s.graphData.nodes && n.id == e.target ==> n.properties.weight <= 0.5
    requires forall f :: f in s.graphData.edges && (f.source == a.id || f.target == a.id) ==> f == e
    ensures var once := Reduce(s, OptimizeGraph);
            && a in once.graphData.nodes
            && (forall f :: f in once.graphData.edges ==> f.source != a.id && f.target != a.id)
            && !HasNodeId(Reduce(once, OptimizeGraph).graphData.nodes, a.id)
  {
    var once := Reduce(s, OptimizeGraph);
    OptimizeSurvivesEdgeless(s, a, e);
    var twice := Reduce(once, OptimizeGraph).graphData;
    var connected := ConnectedIds(once.graphData.edges);
    forall j | 0 <= j < |once.graphData.edges|
      ensures once.graphData.edges[j].source != a.id && once.graphData.edges[j].target != a.id
    {
      assert once.graphData.edges[j] in once.graphData.edges;
    }
    assert a.id !in connected;
    assert twice.nodes == KeptNodes(once.graphData.nodes, connected);
  }

  /** The first pass of OptimizeIsSinglePass: the node stays, its edge goes. */
  lemma OptimizeSurvivesEdgeless(s: GraphState, a: Node, e: Edge)
    requires a in s.graphData.nodes && a.properties.weight > 0.5
    requires e in s.graphData.edges && e.source == a.id
    requires forall n :: n in s.graphData.nodes && n.id == e.target ==> n.properties.weight <= 0.5
    requires forall f :: f in s.graphData.edges && (f.source == a.id || f.target == a.id) ==> f == e
    ensures var once := Reduce(s, OptimizeGraph).graphData;
            && a in once.nodes
            && forall f :: f in once.edges ==> f.source != a.id && f.target != a.id
  {
    var g := s.graphData;
    var once := Reduce(s, OptimizeGraph).graphData;
    var k :| 0 <= k < |g.edges| && g.edges[k] == e;
    assert a.id in ConnectedIds(g.edges) by { assert g.edges[k].source == a.id; }
    OptimizeKeepsNodes(s, a);
    assert multiset(once.nodes)[a] > 0;
    forall i | 0 <= i < |once.nodes|
      ensures once.nodes[i].id != e.target
    {
      assert once.nodes[i] in g.nodes;
    }
    assert !HasNodeId(once.nodes, e.target);
    forall f | f in once.edges
      ensures f.source != a.id && f.target != a.id
    {
      var m :| 0 <= m < |once.edges| && once.edges[m] == f;
      assert f in g.edges && BothEndsKept(once.nodes, f);
    }
  }
}
