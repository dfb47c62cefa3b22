/** What the query engine promises: which shape wins, and what each shape's
    records hold. */
module QueryProperties {
  import opened Wrappers
  import opened Text
  import opened GraphTypes
  import opened Seqs
  import opened QueryProbes
  import opened NodeSort
  import opened QueryEngine

  // ------------------------------------------------- normalisation

  lemma LowerCharKeepsSpace(c: char)
    ensures IsSpace(LowerChar(c)) <==> IsSpace(c)
  {
  }

  lemma {:induction false} TrimStartLower(s: string)
    ensures TrimStart(Lower(s)) == Lower(TrimStart(s))
  {
    if s != [] {
      LowerCharKeepsSpace(s[0]);
      if IsSpace(s[0]) {
        assert Lower(s)[1..] == Lower(s[1..]);
        TrimStartLower(s[1..]);
      }
    }
  }

  lemma {:induction false} TrimEndLower(s: string)
    ensures TrimEnd(Lower(s)) == Lower(TrimEnd(s))
  {
    if s != [] {
      LowerCharKeepsSpace(s[|s| - 1]);
      if IsSpace(s[|s| - 1]) {
        assert Lower(s)[..|s| - 1] == Lower(s[..|s| - 1]);
        TrimEndLower(s[..|s| - 1]);
      }
    }
  }

  /** Only the case-folded, trimmed text counts: a query and its lower-case
      form give the same outcome. */
  lemma QueryIgnoresCase(query: string, g: GraphData)
    ensures Query(Lower(query), g) == Query(query, g)
  {
    TrimStartLower(query);
    TrimEndLower(TrimStart(query));
    LowerIsLowerCase(Trim(query));
  }

  /** A query fails exactly when its normalised text does not start with
      `match`, and then with the wrapped message. */
  lemma OnlyMatchQueries(query: string, g: GraphData)
    ensures Query(query, g).Failure? <==> !StartsWith(Lower(Trim(query)), "match")
    ensures Query(query, g).Failure? ==> Query(query, g).error == UnsupportedQuery
    ensures Query(query, g).Success? ==> Query(query, g).value == MatchQuery(Lower(Trim(query)), g)
  {
  }

  // -------------------------------------------------------- priority

  /** A query holding both `match (n)` and `return n` lists nodes, whatever
      else it holds: a WHERE clause, a relationship pattern, a type. */
  lemma AllNodesComesFirst(q: string, g: GraphData)
    requires Contains(q, "match (n)") && Contains(q, "return n")
    ensures Classify(q) == AllNodes(Limit(q))
    ensures var rows, lim := MatchQuery(q, g), Limit(q);
      && |rows| == (if lim.Some? && 0 < lim.value < |g.nodes| then lim.value else |g.nodes|)
      && forall i :: 0 <= i < |rows| ==> rows[i] == NodeRow(g.nodes[i])
  {
  }

  lemma OccursAtPrefixOf(q: string, w: string, v: string, i: nat)
    requires OccursAt(q, w + v, i)
    ensures OccursAt(q, w, i)
  {
    forall j | 0 <= j < |w|
      ensures q[i + j] == w[j]
    {
      assert (w + v)[j] == w[j];
    }
  }

  /** `match (n)-[r]->(m) ... return n` holds `match (n)`, so it lists all
      nodes instead of filtering relationships. */
  lemma RelationshipQueryReturningNListsNodes(q: string, g: GraphData)
    requires Contains(q, "match (n)-[r]->(m)") && Contains(q, "return n")
    ensures Classify(q).AllNodes?
  {
    var i: nat :| i <= |q| && OccursAt(q, "match (n)-[r]->(m)", i);
    assert "match (n)" + "-[r]->(m)" == "match (n)-[r]->(m)";
    OccursAtPrefixOf(q, "match (n)", "-[r]->(m)", i);
  }

  /** The first `limit` followed by digits sets the limit. */
  lemma FirstLimit(q: string, p: nat, k: nat, d: string)
    requires LimitShape(q, p, k, d)
    requires forall i :: 0 <= i < p ==> !OccursAt(q, "limit", i)
    ensures Limit(q) == Some(DigitsValue(d))
  {
    LimitShapeMatches(q, p, k, d);
    FirstCaptureAt(q, LimitAt, p, d);
  }

  /** `limit 0` does not truncate: every node is listed. */
  lemma LimitZeroListsAll(q: string, g: GraphData, p: nat, k: nat)
    requires Contains(q, "match (n)") && Contains(q, "return n")
    requires LimitShape(q, p, k, "0")
    requires forall i :: 0 <= i < p ==> !OccursAt(q, "limit", i)
    ensures MatchQuery(q, g) == NodeRows(g.nodes)
  {
    FirstLimit(q, p, k, "0");
    assert DigitsValue("0") == 0 by {
      assert "0"[..0] == [];
    }
  }

  /** A typed-relationship pattern whose source variable is `n` is read by
      the node-type shape first: the relationship shape never runs for it. */
  lemma NodeTypeShadowsTypedRelationship(q: string, p: nat, k: nat, r: RelPattern)
    requires RelShape(q, p, k, r) && r.sourceVar == "n"
    ensures !Classify(q).TypedRelationship?
  {
    SourceNamedNMatchesNodeType(q, p, k, r);
    assert p <= |q|;
  }

  // ------------------------------------------------------ node types

  /** `match (n:T)` lists the nodes whose type equals T ignoring case, in
      store order, as whole nodes or as label and properties. */
  lemma NodesOfTypeRecords(g: GraphData, t: string, labels: bool)
    ensures var rows, kept := Evaluate(NodesOfType(t, labels), g), OfType(g.nodes, t);
      && |rows| == |kept|
      && (forall i :: 0 <= i < |kept| ==> kept[i] in g.nodes && Lower(kept[i].nodeType) == Lower(t))
      && (forall n :: n in g.nodes && Lower(n.nodeType) == Lower(t) ==> n in kept)
      && (forall i :: 0 <= i < |rows| ==>
            rows[i] == if labels then LabelRow(kept[i]) else NodeRow(kept[i]))
  {
  }

  /** Each node matching the type is listed as often as it is stored. */
  lemma NodesOfTypeCounts(g: GraphData, t: string, n: Node)
    ensures multiset(OfType(g.nodes, t))[n] == if Lower(n.nodeType) == Lower(t) then multiset(g.nodes)[n] else 0
  {
    FilterMultiplicity(g.nodes, (m: Node) => Lower(m.nodeType) == Lower(t), n);
  }

  // -------------------------------------------------------- edge list

  /** `(a)-[r]->(b)` yields one record per edge, in edge order, with the
      edge's relationship. */
  lemma EdgeListingRecords(g: GraphData)
    ensures var rows := Evaluate(EdgeListing, g);
      && |rows| == |g.edges|
      && forall i :: 0 <= i < |rows| ==>
           && rows[i].Keys == {"a.label", "r.relationship", "b.label"}
           && rows[i]["r.relationship"] == StringValue(g.edges[i].relationship)
  {
  }

  /** An endpoint, source or target, that no node has as id is labelled
      "Unknown". */
  lemma MissingEndpointIsUnknown(ns: seq<Node>, e: Edge, id: string)
    requires forall n :: n in ns ==> n.id != id
    ensures e.source == id ==> EdgeRow(ns, e)["a.label"] == StringValue("Unknown")
    ensures e.target == id ==> EdgeRow(ns, e)["b.label"] == StringValue("Unknown")
  {
    assert NodeById(ns, id) == None;
  }

  /** Otherwise the first node with that id names the endpoint, source or
      target, unless its label is empty. */
  lemma FoundEndpointLabel(ns: seq<Node>, e: Edge, id: string, j: nat)
    requires j < |ns| && ns[j].id == id
    requires forall i :: 0 <= i < j ==> ns[i].id != id
    ensures e.source == id ==>
              EdgeRow(ns, e)["a.label"] == StringValue(if ns[j].nodeLabel == "" then "Unknown" else ns[j].nodeLabel)
    ensures e.target == id ==>
              EdgeRow(ns, e)["b.label"] == StringValue(if ns[j].nodeLabel == "" then "Unknown" else ns[j].nodeLabel)
  {
    assert NodeById(ns, id) == Some(ns[j]);
  }

  // --------------------------------------------- typed relationships

  /** An edge yields a typed-relationship record exactly when its
      relationship is the pattern's, its source id belongs to a node of
      the source type, and its target id to a node of the target type. */
  lemma TypedRowWhen(ns: seq<Node>, e: Edge, r: RelPattern)
    ensures TypedRow(ns, e, r).Some? <==>
      && e.relationship == r.relType
      && (exists s :: s in ns && s.id == e.source && s.nodeType == r.sourceType)
      && (exists t :: t in ns && t.id == e.target && t.nodeType == r.targetType)
  {
    if e.relationship == r.relType {
      var s := NodeByIdAndType(ns, e.source, r.sourceType);
      var t := NodeByIdAndType(ns, e.target, r.targetType);
      if s.Some? && t.Some? {
        assert s.value in ns && t.value in ns;
      }
    }
  }

  /** The typed-relationship records are those of the qualifying edges, in edge order. */
  lemma {:induction false} TypedRowsFromEdges(ns: seq<Node>, es: seq<Edge>, r: RelPattern)
    ensures |TypedRows(ns, es, r)| <= |es|
    ensures forall row :: row in TypedRows(ns, es, r) <==> exists e :: e in es && TypedRow(ns, e, r) == Some(row)
  {
    if es != [] {
      var init, last := es[..|es| - 1], es[|es| - 1];
      TypedRowsFromEdges(ns, init, r);
      assert es == init + [last];
      var tail := match TypedRow(ns, last, r) case Some(row) => [row] case None => [];
      assert TypedRows(ns, es, r) == TypedRows(ns, init, r) + tail;
      forall row
        ensures row in TypedRows(ns, es, r) <==> exists e :: e in es && TypedRow(ns, e, r) == Some(row)
      {
        if row in tail {
          assert last in es;
        }
      }
    }
  }

  /** One record per qualifying edge, in edge order: the i-th record is the
      one the i-th qualifying edge yields. */
  lemma {:induction false} TypedRowsInEdgeOrder(ns: seq<Node>, es: seq<Edge>, r: RelPattern)
    ensures var kept := Filter(es, e => TypedRow(ns, e, r).Some?);
            && |TypedRows(ns, es, r)| == |kept|
            && forall i :: 0 <= i < |kept| ==> TypedRow(ns, kept[i], r) == Some(TypedRows(ns, es, r)[i])
  {
    if es != [] {
      var init, last := es[..|es| - 1], es[|es| - 1];
      TypedRowsInEdgeOrder(ns, init, r);
      var keep := e => TypedRow(ns, e, r).Some?;
      var tail := match TypedRow(ns, last, r) case Some(row) => [row] case None => [];
      assert TypedRows(ns, es, r) == TypedRows(ns, init, r) + tail;
      assert Filter(es, keep) == Filter(init, keep) + (if keep(last) then [last] else []);
    }
  }

  /** The relationship type captured at `p` from a lower-cased query is lower case. */
  lemma CapturedRelTypeIsLowerCase(q: string, p: nat, r: RelPattern)
    requires IsLowerCase(q) && RelPatternAt(q, p) == Some(r)
    ensures IsLowerCase(r.relType)
  {
    RelPatternParts(q, p, Run(q, p + 5, IsSpace), r);
    RelTypeLowerCase(q, p + 6 + Run(q, p + 5, IsSpace), r);
  }

  /** The relationship is compared exactly against a lower-cased capture: an
      edge whose relationship has a capital letter never yields a record. */
  lemma CapitalisedRelationshipNeverMatches(q: string, g: GraphData, r: RelPattern, e: Edge)
    requires IsLowerCase(q) && Classify(q) == TypedRelationship(r)
    requires !IsLowerCase(e.relationship)
    ensures TypedRow(g.nodes, e, r).None?
  {
    var p :| 0 <= p <= |q| && RelPatternAt(q, p) == Some(Classify(q).pattern);
    CapturedRelTypeIsLowerCase(q, p, r);
  }

  // ------------------------------------------------------------ WHERE

  /** Ordering rearranges the filtered nodes without adding or losing any,
      heaviest first, and only when asked. */
  lemma OrderedNodes(ns: seq<Node>, ordered: bool)
    ensures multiset(Ordered(ns, ordered)) == multiset(ns)
    ensures ordered ==> SortedDesc(Ordered(ns, ordered))
    ensures !ordered ==> Ordered(ns, ordered) == ns
  {
    if ordered {
      SortDescPermutes(ns);
      SortDescSorted(ns);
    }
  }

  /** A WHERE shape is sorted exactly when the query asks for the weight order. */
  lemma WhereOrderedOnRequest(q: string)
    ensures Classify(q).WhereType? ==> Classify(q).ordered == Contains(q, OrderByWeight)
    ensures Classify(q).WhereWeight? ==> Classify(q).ordered == Contains(q, OrderByWeight)
  {
  }

  /** `n.type = "X"`: the records are the nodes of type X ignoring case,
      each as often as stored, heaviest first when ordered. */
  lemma WhereTypeRecords(g: GraphData, t: string, ordered: bool, n: Node)
    ensures var rows, ns := Evaluate(WhereType(t, ordered), g), Ordered(OfType(g.nodes, t), ordered);
      && |rows| == |ns|
      && (forall i :: 0 <= i < |ns| ==> rows[i] == NodeRow(ns[i]))
      && multiset(ns)[n] == (if Lower(n.nodeType) == Lower(t) then multiset(g.nodes)[n] else 0)
      && (ordered ==> SortedDesc(ns))
  {
    OrderedNodes(OfType(g.nodes, t), ordered);
    NodesOfTypeCounts(g, t, n);
  }

  /** `n.properties.weight > X`: the nodes heavier than X, each as often as
      stored, heaviest first when ordered. */
  lemma WhereWeightRecords(g: GraphData, minWeight: real, ordered: bool, n: Node)
    ensures var rows, ns := Evaluate(WhereWeight(minWeight, ordered), g), Ordered(HeavierThan(g.nodes, minWeight), ordered);
      && |rows| == |ns|
      && (forall i :: 0 <= i < |ns| ==> rows[i] == NodeRow(ns[i]))
      && multiset(ns)[n] == (if n.properties.weight > minWeight then multiset(g.nodes)[n] else 0)
      && (ordered ==> SortedDesc(ns))
  {
    OrderedNodes(HeavierThan(g.nodes, minWeight), ordered);
    FilterMultiplicity(g.nodes, (m: Node) => m.properties.weight > minWeight, n);
  }

  /** `n.label contains "X"`: the nodes whose lower-cased label contains X,
      in store order, each as often as stored. */
  lemma WhereLabelContainsRecords(g: GraphData, term: string, n: Node)
    ensures var rows, ns := Evaluate(WhereLabelContains(term), g), LabelContaining(g.nodes, term);
      && |rows| == |ns|
      && (forall i :: 0 <= i < |ns| ==> rows[i] == NodeRow(ns[i]))
      && multiset(ns)[n] == (if Contains(Lower(n.nodeLabel), term) then multiset(g.nodes)[n] else 0)
  {
    FilterMultiplicity(g.nodes, (m: Node) => Contains(Lower(m.nodeLabel), term), n);
  }

  // ------------------------------------------------- relationship WHERE

  /** An edge yields a relationship-WHERE record exactly when its
      relationship is X and both its ends are ids of nodes. */
  lemma RelationshipRowWhen(ns: seq<Node>, e: Edge, x: string)
    ensures RelationshipRow(ns, e, x).Some? <==>
      && e.relationship == x
      && (exists s :: s in ns && s.id == e.source)
      && (exists t :: t in ns && t.id == e.target)
  {
    if e.relationship == x {
      var s := NodeById(ns, e.source);
      var t := NodeById(ns, e.target);
      if s.Some? && t.Some? {
        assert s.value in ns && t.value in ns;
      }
    }
  }

  lemma {:induction false} RelationshipRowsFromEdges(ns: seq<Node>, es: seq<Edge>, x: string)
    ensures |RelationshipRows(ns, es, x)| <= |es|
    ensures forall row :: row in RelationshipRows(ns, es, x) <==> exists e :: e in es && RelationshipRow(ns, e, x) == Some(row)
  {
    if es != [] {
      var init, last := es[..|es| - 1], es[|es| - 1];
      RelationshipRowsFromEdges(ns, init, x);
      assert es == init + [last];
      var tail := match RelationshipRow(ns, last, x) case Some(row) => [row] case None => [];
      assert RelationshipRows(ns, es, x) == RelationshipRows(ns, init, x) + tail;
      forall row
        ensures row in RelationshipRows(ns, es, x) <==> exists e :: e in es && RelationshipRow(ns, e, x) == Some(row)
      {
        if row in tail {
          assert last in es;
        }
      }
    }
  }

  /** One record per qualifying edge, in edge order: the i-th record is the
      one the i-th qualifying edge yields. */
  lemma {:induction false} RelationshipRowsInEdgeOrder(ns: seq<Node>, es: seq<Edge>, x: string)
    ensures var kept := Filter(es, e => RelationshipRow(ns, e, x).Some?);
            && |RelationshipRows(ns, es, x)| == |kept|
            && forall i :: 0 <= i < |kept| ==> RelationshipRow(ns, kept[i], x) == Some(RelationshipRows(ns, es, x)[i])
  {
    if es != [] {
      var init, last := es[..|es| - 1], es[|es| - 1];
      RelationshipRowsInEdgeOrder(ns, init, x);
      var keep := e => RelationshipRow(ns, e, x).Some?;
      var tail := match RelationshipRow(ns, last, x) case Some(row) => [row] case None => [];
      assert RelationshipRows(ns, es, x) == RelationshipRows(ns, init, x) + tail;
      assert Filter(es, keep) == Filter(init, keep) + (if keep(last) then [last] else []);
    }
  }

  /** A MATCH query returns at most one record per node, or at most one per edge. */
  lemma MatchQueryBounded(q: string, g: GraphData)
    ensures |MatchQuery(q, g)| <= |g.nodes| || |MatchQuery(q, g)| <= |g.edges|
  {
    match Classify(q)
    case TypedRelationship(r) => TypedRowsFromEdges(g.nodes, g.edges, r);
    case RelationshipWhere(x) => RelationshipRowsFromEdges(g.nodes, g.edges, x);
    case _ =>
  }

  // --------------------------------------------------------- fallback

  /** A query that fits no shape yields no records. */
  lemma UnrecognisedIsEmpty(q: string, g: GraphData)
    requires !(Contains(q, "match (n)") && Contains(q, "return n"))
    requires FirstCapture(q, NodeTypeAt).None? && FirstCapture(q, RelPatternAt).None?
    requires !Contains(q, "(a)-[r]->(b)") && !Contains(q, "where")
    ensures MatchQuery(q, g) == []
  {
  }
}
