# Graph Mind knowledge-graph core in Dafny

This project models the three pieces of Graph Mind that turn text into a
knowledge graph and query it.

- **Document processor** (`src/utils/documentProcessor.ts`). Rule-based
  extraction of entities and relationships from raw text:
  - the two pattern tables, in their iteration order;
  - deduplication of entities by lower-cased name;
  - the relationship filter (both names known, different, non-empty);
  - the confidence arithmetic and the description templates.

  The regular-expression engine is a parameter. A matcher yields the whole
  matches, or the two captured spans, of one table entry in text order, as
  `String.prototype.matchAll` does.
- **Graph store** (`src/context/GraphContext.tsx`). The reducer state
  `{graphData, documents}`, `initialState` and the seven reducer actions:
  - ADD_DOCUMENT, which merges entities into nodes by lower-cased label,
    adds `confidence || 1` to weights and resolves relationships into edges;
  - REMOVE_DOCUMENT, UPDATE_NODE, UPDATE_EDGE, CLEAR_GRAPH,
    OPTIMIZE_GRAPH and IMPORT_GRAPH.

  `GraphContext.Reduce` states what each action yields. The class
  `GraphContext.GraphStore` keeps the state in fields and performs every
  action in place. Each action method is proved to leave
  `Reduce(old state, action)`. The entity loop works on one node sequence
  and a label map from keys to positions, the way the source's
  `existingNodeMap` hands out node objects.
- **Query engine** (`src/utils/cypherQueryEngine.ts`). The Cypher-like
  query language: `executeQuery` trims and lower-cases the query, demands
  a leading `match` and wraps errors. `executeMatchQuery` then tries a
  fixed list of query shapes in order:
  1. all nodes, with an optional `limit`;
  2. nodes of a type;
  3. the edge listing;
  4. a typed relationship pattern;
  5. three WHERE conditions, with an optional weight ordering;
  6. a relationship condition.

  Every regular expression the engine uses is modelled as the scan that a
  backtracking matcher performs at one position. This covers greedy
  `\s+` and `\w+`, lazy `[^)]+?` and the optional fraction of a number.
  Each scan sits next to a declarative "shape" of how the pattern's pieces
  line up, and the two are proved to agree. The weight ordering is an
  in-place stable insertion sort on an array (`NodeSort.SortByWeight`). It
  is proved to produce `NodeSort.SortDesc`, which is itself proved sorted,
  a permutation and stable.

Shared modules:
- `GraphTypes`: the records of `src/types/graph.ts`.
- `Text`: JavaScript whitespace, `trim` and ASCII `toLowerCase`.
- `Seqs`: `filter` and `find`.
- `Wrappers`: Option and Result.

## Model

| member | source | states |
|---|---|---|
| DocumentProcessor.EntityConfidence | src/utils/documentProcessor.ts:112-122 | an entity's confidence is always between 0.5 and 1.0 |
| DocumentProcessor.EntityTableOrder | src/utils/documentProcessor.ts:4-23 | the entity table has eight expressions, all tagged with one of the five type keys, visited in key order person, organization, location, event, concept |
| DocumentProcessor.RelationshipTableLabels | src/utils/documentProcessor.ts:25-49 | the relationship table has twenty expressions, each with its own label |
| DocumentProcessor.EntityConfidenceFull | src/utils/documentProcessor.ts:112-122 | the confidence reaches 1.0 exactly when the type bonus, the length bonus and the capital bonus all apply |
| DocumentProcessor.CalculateConfidence | src/utils/documentProcessor.ts:112-122 | the accumulated score equals the specification and is one of 0.5, 0.6, ..., 1.0, so the `Math.min` cap never bites |
| DocumentProcessor.RelationshipConfidence | src/utils/documentProcessor.ts:124-131 | a relationship's confidence is one of 0.6, 0.7, 0.8, 0.9 |
| DocumentProcessor.CalculateRelationshipConfidence | src/utils/documentProcessor.ts:124-131 | the accumulated score equals the specification and lies in [0.6, 1.0) |
| DocumentProcessor.GenerateDescription | src/utils/documentProcessor.ts:133-143 | every description, the fallback included, is longer than the name and ends with it |
| DocumentProcessor.DescriptionDeterminesName | src/utils/documentProcessor.ts:133-143 | for a fixed type, two names with the same description are the same name |
| DocumentProcessor.AdmissibleKeys | src/utils/documentProcessor.ts:60-76 | `seenEntities` after `n` matches is exactly the set of lower-cased names of the admissible (longer than two characters) matches among them |
| DocumentProcessor.FirstOccurrenceIsUnseenKey | src/utils/documentProcessor.ts:69 | the loop's test "not seen and longer than two" holds exactly when the match is the first admissible one with its lower-cased name |
| DocumentProcessor.ScanKeepsFirstOccurrences | src/utils/documentProcessor.ts:58-83 | the extraction loop keeps exactly the first occurrence of each key, in scan order, and its seen set is the admissible keys |
| DocumentProcessor.FirstCandidatesProvenance | src/utils/documentProcessor.ts:62-80 | every kept candidate is a first occurrence of its key |
| DocumentProcessor.FirstCandidatesDistinct | src/utils/documentProcessor.ts:62-80 | kept candidates have pairwise different keys, all among the admissible keys |
| DocumentProcessor.FirstCandidatesComplete | src/utils/documentProcessor.ts:62-80 | every admissible candidate's key is the key of some kept candidate |
| DocumentProcessor.ExtractEntities | src/utils/documentProcessor.ts:58-83 | the nested loops over both tables return exactly the specified entity list |
| DocumentProcessor.AddMatches | src/utils/documentProcessor.ts:65-78 | the loop over one pattern's matches extends the entities and the seen set as the scan specifies |
| DocumentProcessor.ScanIsExtracted | src/utils/documentProcessor.ts:58-83 | the loop's result, built by scanning, equals the reference list of first occurrences |
| DocumentProcessor.ExtractedEntitiesDistinct | src/utils/documentProcessor.ts:60-76 | no two extracted entities share a lower-cased name |
| DocumentProcessor.ExtractedEntityOrigin | src/utils/documentProcessor.ts:66-75 | each entity is the first admissible match of its key, with its name and type, a name longer than two characters, and its confidence and description |
| DocumentProcessor.ExtractedEntitiesComplete | src/utils/documentProcessor.ts:65-77 | every admissible match is represented by an entity with the same lower-cased name |
| DocumentProcessor.EntityNamesAreKeys | src/utils/documentProcessor.ts:87 | the set built from the entity list equals `EntityKeys` |
| DocumentProcessor.ExtractRelationships | src/utils/documentProcessor.ts:85-110 | the loops over the relationship table return exactly the accepted captures, in order, as relationships |
| DocumentProcessor.AddHits | src/utils/documentProcessor.ts:90-106 | the loop over one pattern's hits appends exactly the accepted ones |
| DocumentProcessor.ExtractedRelationshipsConnectEntities | src/utils/documentProcessor.ts:95-104 | every relationship has non-empty ends naming two different known entities (ignoring case) and a confidence in {0.6, 0.7, 0.8, 0.9} |
| DocumentProcessor.ExtractedRelationshipsKeepRepeats | src/utils/documentProcessor.ts:89-107 | an accepted capture is reported as often as the text yields it: relationships are not deduplicated |
| DocumentProcessor.FewNamesNoRelationships | src/utils/documentProcessor.ts:95-98 | with fewer than two distinct entity names no relationship is extracted, whatever the text |
| DocumentProcessor.ProcessText | src/utils/documentProcessor.ts:51-56 | entities are extracted first, then the relationships among exactly those entities |
| DocumentProcessor.NoMatchesNoResults | src/utils/documentProcessor.ts:51-110 | text on which no entity expression matches yields no entities and no relationships |
| GraphTypes.OrOne | src/context/GraphContext.tsx:51-59 | the confidence-or-1 weight keeps a non-zero confidence and reads a missing or zero one as 1; it is never 0 |
| GraphTypes.OrOneIsPositive | src/context/GraphContext.tsx:51-59 | with a non-negative confidence, the weight added is positive |
| Text.LowerChar | src/utils/cypherQueryEngine.ts:5 | an ASCII capital maps to its lower-case letter; every other character is unchanged |
| Text.LowerIsLowerCase | src/utils/cypherQueryEngine.ts:5 | lower-cased text has no capital and lower-casing it again changes nothing |
| Text.TrimIsSlice | src/utils/cypherQueryEngine.ts:5 | `trim` returns a contiguous slice: everything it removes is white space, and what it keeps neither starts nor ends with white space |
| Text.Trim | src/utils/cypherQueryEngine.ts:5 | `trim` never lengthens the text |
| Text.ContainsWordIsWholeWord | src/utils/documentProcessor.ts:116-117 | a `\bword\b` hit of a word made of word characters is a whole word of the name: no word character touches it on either side |
| Seqs.Filter | src/context/GraphContext.tsx:102-105 | `filter` keeps only elements that pass, and keeps every element that passes |
| Seqs.FilterMultiplicity | src/context/GraphContext.tsx:102-105 | `filter` keeps each passing element exactly as often as it occurs, and drops the others |
| Seqs.Find | src/utils/cypherQueryEngine.ts:56-57 | `find` returns the first element that passes, or nothing when none passes |
| GraphContext.LabelIndexLast | src/context/GraphContext.tsx:40 | the label map built from the nodes maps every node's lower-cased label, and maps each key to the last node carrying it |
| GraphContext.LabelIndex | src/context/GraphContext.tsx:40 | `existingNodeMap` has at most one entry per node |
| GraphContext.NewNode | src/context/GraphContext.tsx:52-63 | a created node is keyed by the entity name lower-cased, is owned by the document and has a non-zero weight |
| GraphContext.EdgeOf | src/context/GraphContext.tsx:74-85 | an edge joins the ids of two nodes of the merged list, is owned by the document and has a non-zero weight |
| GraphContext.NewEdges | src/context/GraphContext.tsx:69-86 | the relationship loop yields at most one edge per relationship, each owned by the document |
| GraphContext.AddedGraph | src/context/GraphContext.tsx:38-96 | ADD_DOCUMENT keeps the old edges in front and appends at most one edge per relationship, each owned by the document |
| GraphContext.RemovedGraph | src/context/GraphContext.tsx:98-108 | REMOVE_DOCUMENT keeps only nodes and edges of the old graph whose owner is another document |
| GraphContext.ApplyNodeUpdate | src/context/GraphContext.tsx:116-118 | `{...node, ...updates}`: an empty update changes nothing, and every field is either the old one or the update's |
| GraphContext.ApplyEdgeUpdate | src/context/GraphContext.tsx:129-131 | `{...edge, ...updates}`: an empty update changes nothing, and every field is either the old one or the update's |
| GraphContext.KeptNodes | src/context/GraphContext.tsx:151-153 | the kept nodes are nodes of the store heavier than 0.5 whose id is an edge endpoint |
| GraphContext.KeptEdges | src/context/GraphContext.tsx:155-158 | the kept edges are edges of the store whose two endpoints are kept nodes |
| GraphContext.OptimizedGraph | src/context/GraphContext.tsx:144-167 | OPTIMIZE_GRAPH never adds a node or an edge |
| GraphContext.Reduce | src/context/GraphContext.tsx:36-179 | only ADD_DOCUMENT, REMOVE_DOCUMENT and CLEAR_GRAPH touch the documents, the two updates keep both counts, and removal and optimisation never grow the graph |
| GraphContext.MergeEntity | src/context/GraphContext.tsx:45-66 | one entity step keeps every map entry pointing at a node |
| GraphContext.MergeEntities | src/context/GraphContext.tsx:45-67 | the entity loop keeps every map entry pointing at a node |
| GraphContext.StartMerge | src/context/GraphContext.tsx:40 | the initial map points only at existing nodes |
| GraphContext.EntityMerge | src/context/GraphContext.tsx:40-67 | after the entity loop the map points only at nodes |
| GraphContext.UpdatedNodes | src/context/GraphContext.tsx:116-118 | `map` over the nodes keeps their number |
| GraphContext.UpdatedEdges | src/context/GraphContext.tsx:129-131 | `map` over the edges keeps their number |
| GraphContext.ResolveEdges | src/context/GraphContext.tsx:70-86 | the relationship loop appends exactly the specified edges, in order |
| GraphContext.GraphStore.constructor | src/context/GraphContext.tsx:31-34 | the store starts in `initialState`: no nodes, edges or documents |
| GraphContext.GraphStore.AddDocument | src/context/GraphContext.tsx:38-96 | ADD_DOCUMENT performed in place leaves the state `Reduce` specifies |
| GraphContext.GraphStore.MergeEntityInPlace | src/context/GraphContext.tsx:46-65 | one entity step adds the confidence-or-1 to the node its key names, wherever it sits, or appends a new node and records its position, as the merge specifies |
| GraphContext.GraphStore.MergeDocumentEntities | src/context/GraphContext.tsx:40-67 | the in-place entity loop (weights updated where the map points, new nodes appended) leaves the nodes and label map the merge specifies, and nothing else |
| GraphContext.GraphStore.RemoveDocument | src/context/GraphContext.tsx:98-108 | REMOVE_DOCUMENT performed in place leaves the state `Reduce` specifies |
| GraphContext.GraphStore.UpdateNode | src/context/GraphContext.tsx:110-121 | UPDATE_NODE performed in place leaves the state `Reduce` specifies |
| GraphContext.GraphStore.UpdateEdge | src/context/GraphContext.tsx:123-134 | UPDATE_EDGE performed in place leaves the state `Reduce` specifies |
| GraphContext.GraphStore.ClearGraph | src/context/GraphContext.tsx:136-142 | CLEAR_GRAPH performed in place leaves the state `Reduce` specifies |
| GraphContext.GraphStore.OptimizeGraph | src/context/GraphContext.tsx:144-167 | OPTIMIZE_GRAPH performed in place leaves the state `Reduce` specifies |
| GraphContext.GraphStore.ImportGraph | src/context/GraphContext.tsx:169-174 | IMPORT_GRAPH performed in place leaves the state `Reduce` specifies |
| GraphProperties.MergeFrame | src/context/GraphContext.tsx:45-67 | the entity loop only appends nodes; old nodes keep all but their weight, old map entries stay, and every entity's key ends up mapped |
| GraphProperties.MergeEntityResolves | src/context/GraphContext.tsx:47-65 | one entity step keeps the map sound: each key points at a node carrying that key, and each node's key is mapped |
| GraphProperties.MergeResolves | src/context/GraphContext.tsx:45-67 | the whole entity loop keeps the map sound |
| GraphProperties.StartResolves | src/context/GraphContext.tsx:40 | the map built from the store's nodes is sound |
| GraphProperties.MergeWeights | src/context/GraphContext.tsx:45-66 | after the loop, the node a key points at has gained the confidence-or-1 weight of every entity with that key, and every other node keeps its prior weight |
| GraphProperties.NewNodesIndexed | src/context/GraphContext.tsx:52-65 | each appended node carries a key that was not mapped before, and the map points that key at it |
| GraphProperties.NewNodeOrigin | src/context/GraphContext.tsx:54-64 | each appended node is built from the first entity with its key, a key unknown before the call, so later entities with that key never change its type or description |
| GraphProperties.MergeKnown | src/context/GraphContext.tsx:47-51 | when every entity's key is already mapped, no node is created and the map is unchanged |
| GraphProperties.AddDocumentShape | src/context/GraphContext.tsx:38-96 | ADD_DOCUMENT appends nodes, keeps old nodes but for their weight, keeps old edges in front, appends the document, and leaves every entity's name as a node label |
| GraphProperties.AddDocumentWeights | src/context/GraphContext.tsx:45-67 | each node's new weight is its prior weight plus, where its key points, the confidence-or-1 weight of every entity of the document with that key |
| GraphProperties.AddDocumentNewNode | src/context/GraphContext.tsx:52-65 | a created node has a label matching no existing one, comes from the first of the document's entities with its name, and weighs the total confidence-or-1 weight of its entities |
| GraphProperties.AddDocumentNeverLowersWeights | src/context/GraphContext.tsx:49-51 | with non-negative confidences no node disappears and no weight goes down |
| GraphProperties.KnownEntitiesCreateNoNode | src/context/GraphContext.tsx:47-51 | a document whose entities all name existing labels adds no node |
| GraphProperties.NewEdgeOrigin | src/context/GraphContext.tsx:70-86 | every new edge comes from a relationship whose two names resolve |
| GraphProperties.ResolvedRelationshipHasEdge | src/context/GraphContext.tsx:70-86 | every relationship whose two names resolve yields its edge |
| GraphProperties.AddDocumentEdges | src/context/GraphContext.tsx:69-94 | each new edge comes from a resolving relationship, joins two node ids of the new graph and carries the document id |
| GraphProperties.TwoEntityMerge | src/context/GraphContext.tsx:45-74 | two entities with different keys, added to an empty store, become two new nodes at positions 0 and 1, in entity order, and the label map sends each key to its node |
| GraphProperties.RepeatedRelationshipRepeatsEdgeId | src/context/GraphContext.tsx:70-86 | a document listing the same resolving relationship twice gets two equal edges appended, both with the id docId-source-target-relationship |
| GraphProperties.RemoveDocumentKeeps | src/context/GraphContext.tsx:98-108 | REMOVE_DOCUMENT keeps exactly the nodes, edges and documents not sourced from the document, as often as they occurred |
| GraphProperties.RemoveAbsentDocument | src/context/GraphContext.tsx:98-108 | removing a document that nothing carries leaves the state unchanged |
| GraphProperties.AddedNodeSources | src/context/GraphContext.tsx:45-65 | ADD_DOCUMENT leaves every old node with its id, label, type, source and description, and every node it creates belongs to the document |
| GraphProperties.RemoveDoesNotRebalance | src/context/GraphContext.tsx:98-108 | when no earlier node has the document's id as its source, removing a document right after adding it leaves exactly the store's earlier nodes, in order, with the weights the document added to them still counted |
| GraphProperties.UpdateNodeTouchesOnlyItsNode | src/context/GraphContext.tsx:110-121 | UPDATE_NODE overlays the update on the nodes with that id and changes nothing else |
| GraphProperties.NodeOverlay | src/context/GraphContext.tsx:117 | `{...node, ...updates}` takes each key the update gives and keeps each key it leaves out |
| GraphProperties.UpdateNodeIdempotent | src/context/GraphContext.tsx:110-121 | sending the same UPDATE_NODE twice equals sending it once |
| GraphProperties.UpdateEdgeTouchesOnlyItsEdge | src/context/GraphContext.tsx:123-134 | UPDATE_EDGE overlays the update on the edges with that id and changes nothing else |
| GraphProperties.UpdateEdgeIdempotent | src/context/GraphContext.tsx:123-134 | sending the same UPDATE_EDGE twice equals sending it once |
| GraphProperties.ClearThenAdd | src/context/GraphContext.tsx:136-142 | CLEAR_GRAPH empties the graph, and a document added afterwards is the only document |
| GraphProperties.ImportKeepsDocuments | src/context/GraphContext.tsx:169-174 | IMPORT_GRAPH replaces the graph wholesale and keeps the documents |
| GraphProperties.OptimizeKeepsNodes | src/context/GraphContext.tsx:144-153 | OPTIMIZE_GRAPH keeps exactly the nodes heavier than 0.5 that are endpoints of an old edge, as often as they occurred |
| GraphProperties.OptimizeKeepsEdges | src/context/GraphContext.tsx:155-158 | OPTIMIZE_GRAPH keeps exactly the edges both of whose ends are kept nodes |
| GraphProperties.OptimizeLeavesNoDanglingEdge | src/context/GraphContext.tsx:144-167 | after OPTIMIZE_GRAPH every edge joins two nodes of the graph |
| GraphProperties.OptimizeIsSinglePass | src/context/GraphContext.tsx:144-167 | in any graph, a heavy node whose only incident edge runs from it to an id that only light nodes carry survives one pass with no incident edge, and the second pass leaves no node with its id |
| GraphProperties.OptimizeSurvivesEdgeless | src/context/GraphContext.tsx:144-167 | the first pass keeps a heavy node with an edge to light nodes, and drops every edge that touches it |
| NodeSort.Place | src/utils/cypherQueryEngine.ts:109 | a stable insertion point: every node before it is at least as heavy, and the node at it is lighter |
| NodeSort.SortDesc | src/utils/cypherQueryEngine.ts:108-110 | sorting keeps the number of nodes; SortDescSorted, SortDescPermutes and SortDescStable state the rest |
| NodeSort.PlaceIsSplit | src/utils/cypherQueryEngine.ts:109 | in a sorted sequence the insertion point is exactly the boundary between at-least-as-heavy and lighter nodes |
| NodeSort.InsertSorted | src/utils/cypherQueryEngine.ts:109 | inserting into a sorted sequence keeps it sorted by descending weight |
| NodeSort.SortDescSorted | src/utils/cypherQueryEngine.ts:109 | the sorted nodes are in non-increasing weight order |
| NodeSort.SortDescPermutes | src/utils/cypherQueryEngine.ts:109 | the sort neither adds nor loses nodes, counting repeats |
| NodeSort.InsertStable | src/utils/cypherQueryEngine.ts:109 | an insertion keeps the nodes of each weight in order and places the new node after its equals |
| NodeSort.SortDescStable | src/utils/cypherQueryEngine.ts:109 | the sort is stable: the nodes of any one weight keep their order |
| NodeSort.InsertLast | src/utils/cypherQueryEngine.ts:109 | shifting `a[i]` left in place makes the prefix the insertion of `a[i]` into the sorted prefix, and leaves the rest alone |
| NodeSort.ShiftLighter | src/utils/cypherQueryEngine.ts:109 | the shifting loop moves each node lighter than the inserted one up by one place, stops at the first node at least as heavy, and touches nothing above the slot being filled |
| NodeSort.SortByWeight | src/utils/cypherQueryEngine.ts:108-110 | the in-place sort leaves the array equal to `SortDesc` of its old contents |
| QueryProbes.Run | src/utils/cypherQueryEngine.ts:23 | a greedy character-class run stays inside the text |
| QueryProbes.Limit | src/utils/cypherQueryEngine.ts:23-24 | a limit is read exactly when the `limit\s+(\d+)` shape occurs in the query |
| QueryProbes.RunIsRun | src/utils/cypherQueryEngine.ts:23 | a greedy run consumes only characters of its class and stops at the first other one |
| QueryProbes.RunIsMaximal | src/utils/cypherQueryEngine.ts:23 | a stretch of the class that ends where the class ends is the greedy run |
| QueryProbes.Leftmost | src/utils/cypherQueryEngine.ts:23 | the search reports a match at the earliest position where the pattern matches, and no earlier position matches |
| QueryProbes.FirstCapture | src/utils/cypherQueryEngine.ts:23 | `String.prototype.match` yields a capture found at some position, and nothing only when no position matches |
| QueryProbes.FirstCaptureAt | src/utils/cypherQueryEngine.ts:23 | the match at the first matching position is the one reported |
| QueryProbes.LimitAtSound | src/utils/cypherQueryEngine.ts:23 | a `limit\s+(\d+)` match lines up as `limit`, at least one space and a maximal run of digits |
| QueryProbes.LimitShapeMatches | src/utils/cypherQueryEngine.ts:23 | conversely, any such line-up is what the pattern captures at that position |
| QueryProbes.WordAtSound | src/utils/cypherQueryEngine.ts:36 | a `(\w+)` capture before a literal is a non-empty word followed by the literal |
| QueryProbes.WordThenMatches | src/utils/cypherQueryEngine.ts:36 | a word followed by a literal starting with a non-word character is what greedy `\w+` captures there |
| QueryProbes.NodeTypeAtSound | src/utils/cypherQueryEngine.ts:36 | a `match\s+\(n:(\w+)\)` capture lines up as `match`, spaces, `(n:`, a word and `)` |
| QueryProbes.NodeTypeShapeMatches | src/utils/cypherQueryEngine.ts:36 | conversely, any such line-up is what the pattern captures there |
| QueryProbes.PairAtSound | src/utils/cypherQueryEngine.ts:70 | a `(\w+):(\w+)` capture before a literal lines up as word, `:`, word, literal |
| QueryProbes.PairThenMatches | src/utils/cypherQueryEngine.ts:70 | conversely, such a line-up is what the pair pattern captures |
| QueryProbes.RelWordsOfPairs | src/utils/cypherQueryEngine.ts:70 | three pairs found in turn make up the six captures of the relationship pattern |
| QueryProbes.RelWordsParts | src/utils/cypherQueryEngine.ts:70 | the six captures found decompose into the three pairs found in turn |
| QueryProbes.PairsMatch | src/utils/cypherQueryEngine.ts:70 | three pairs lined up with `)-[`, `]->(` and `)` are each what the pair pattern finds |
| QueryProbes.RelWordsMatch | src/utils/cypherQueryEngine.ts:70 | six words lined up as the pattern demands are what the pattern captures |
| QueryProbes.RelPatternParts | src/utils/cypherQueryEngine.ts:70 | a typed-relationship match consists of `match`, at least one space, `(` and the six captures |
| QueryProbes.RelPatternAtWords | src/utils/cypherQueryEngine.ts:70 | once `match`, the spaces and `(` line up, the six words decide the match |
| QueryProbes.RelPrefixMatches | src/utils/cypherQueryEngine.ts:70 | a prefix that lines up, followed by the words found, is a match of the whole pattern |
| QueryProbes.RelShapeMatches | src/utils/cypherQueryEngine.ts:70 | any line-up of the typed-relationship pattern is what it captures there |
| QueryProbes.WordAtLowerCase | src/utils/cypherQueryEngine.ts:5-36 | a word captured from lower-cased text is lower case |
| QueryProbes.RelTypeLowerCase | src/utils/cypherQueryEngine.ts:5-70 | the relationship type captured from lower-cased text is lower case |
| QueryProbes.SourceNamedNMatchesNodeType | src/utils/cypherQueryEngine.ts:36-70 | a typed-relationship pattern whose source variable is `n` also matches the node-type pattern, with the source type |
| QueryProbes.LazyEnd | src/utils/cypherQueryEngine.ts:95 | the lazy `[^)]+?` stops at the first end at which one of the terminators follows, and finds none when no end works |
| QueryProbes.GreedyWhere | src/utils/cypherQueryEngine.ts:95 | backtracking from the widest `\s+` finds the match with the most spaces and then the shortest condition, or proves no match |
| QueryProbes.WhereAt | src/utils/cypherQueryEngine.ts:95 | the WHERE pattern at a position reports the backtracking matcher's preferred match, or none exists |
| QueryProbes.WiderIsNotSpaces | src/utils/cypherQueryEngine.ts:95 | `\s+` cannot take more than the run of white space |
| QueryProbes.WhereCondition | src/utils/cypherQueryEngine.ts:95-97 | a captured condition is the text between `where` plus spaces and a terminator |
| QueryProbes.QuotedAtSound | src/utils/cypherQueryEngine.ts:100 | a `"([^"]+)"` capture is a non-empty quote-free value between two quotes |
| QueryProbes.QuotedShapeMatches | src/utils/cypherQueryEngine.ts:100 | conversely, such a quoted value is what the pattern captures |
| QueryProbes.ComparisonAtSound | src/utils/cypherQueryEngine.ts:100 | a `key\s*op\s*"(v)"` capture lines up with the whole runs of spaces |
| QueryProbes.ComparisonOfParts | src/utils/cypherQueryEngine.ts:100 | key, space runs, operator and quoted value found in turn make a comparison line-up |
| QueryProbes.ComparisonParts | src/utils/cypherQueryEngine.ts:100 | a comparison found decomposes into key, operator, space runs and quoted value |
| QueryProbes.ComparisonPrefix | src/utils/cypherQueryEngine.ts:100 | once key, operator and spaces line up, the quoted value decides the comparison |
| QueryProbes.ComparisonShapeMatches | src/utils/cypherQueryEngine.ts:100 | any comparison line-up is what the comparison pattern captures |
| QueryProbes.ComparisonSpacesMatch | src/utils/cypherQueryEngine.ts:132 | spaces followed by an operator that does not start with white space are exactly what `\s*` or `\s+` take |
| QueryProbes.NumberAtSound | src/utils/cypherQueryEngine.ts:116 | a `\d+(?:\.\d+)?` match lines up as maximal whole digits and, when the group matches, `.` and maximal fraction digits |
| QueryProbes.NumberParts | src/utils/cypherQueryEngine.ts:116 | a number found is the digit run, plus the fraction run when a `.` and a digit follow |
| QueryProbes.NumberOfParts | src/utils/cypherQueryEngine.ts:116 | a digit run and the optional fraction run make a number line-up |
| QueryProbes.NumberShapeMatches | src/utils/cypherQueryEngine.ts:116 | any number line-up is what the number pattern captures |
| QueryProbes.WeightConditionAtSound | src/utils/cypherQueryEngine.ts:116 | a weight-condition capture lines up as key, spaces, `>`, spaces and a number |
| QueryProbes.WeightParts | src/utils/cypherQueryEngine.ts:116 | a weight condition found decomposes into key, `>` and the number after the spaces |
| QueryProbes.WeightOfParts | src/utils/cypherQueryEngine.ts:116 | key, `>`, space runs and a number found in turn make a weight line-up |
| QueryProbes.WeightPrefix | src/utils/cypherQueryEngine.ts:116 | once key, `>` and spaces line up, the number decides the weight condition |
| QueryProbes.WeightShapeMatches | src/utils/cypherQueryEngine.ts:116 | any weight-condition line-up is what the pattern captures |
| QueryProbes.WeightRuns | src/utils/cypherQueryEngine.ts:116 | in a weight line-up the space runs are the ones `\s*` takes and the number is the one found |
| QueryEngine.WhereClause | src/utils/cypherQueryEngine.ts:94-141 | the WHERE branch yields only a type, weight or label-contains shape |
| QueryEngine.Classify | src/utils/cypherQueryEngine.ts:18-170 | the shape chain: all nodes exactly when "match (n)" and "return n" both occur; every other shape only when its own probe or capture succeeds |
| QueryEngine.RelationshipClause | src/utils/cypherQueryEngine.ts:144-167 | the relationship-WHERE shape needs "(n)-[r]->(m)", "where" and a captured `r.relationship = "X"`, and is otherwise unrecognised |
| QueryEngine.LimitNodes | src/utils/cypherQueryEngine.ts:26-29 | a prefix of the nodes, shorter than all of them exactly when the limit is positive and below the node count, and then of that length |
| QueryEngine.LabelOrUnknown | src/utils/cypherQueryEngine.ts:60-62 | the label-or-"Unknown" fallback is never empty, and anything but "Unknown" is the found node's label |
| QueryEngine.Evaluate | src/utils/cypherQueryEngine.ts:18-170 | node shapes give at most one record per node, edge listing exactly one per edge, and an unrecognised shape none |
| QueryEngine.CollectTyped | src/utils/cypherQueryEngine.ts:74-90 | the loop over the edges collects exactly the typed-relationship records |
| QueryEngine.CollectRelationship | src/utils/cypherQueryEngine.ts:149-165 | the loop over the edges collects exactly the relationship-condition records |
| QueryEngine.SortedCopy | src/utils/cypherQueryEngine.ts:108-110 | sorting the filtered array in place yields `SortDesc` of the filtered nodes |
| QueryEngine.FilterAndOrder | src/utils/cypherQueryEngine.ts:119-128 | the filtered nodes are sorted only when asked, then mapped to `{n: node}` records |
| QueryEngine.ExecuteMatchQuery | src/utils/cypherQueryEngine.ts:18-171 | the records returned are those of the first shape the query fits, evaluated on the graph |
| QueryEngine.ExecuteQuery | src/utils/cypherQueryEngine.ts:4-16 | the outcome is the specified one: records for a normalised query starting with `match`, otherwise the wrapped error |
| QueryEngine.Query | src/utils/cypherQueryEngine.ts:4-16 | the only failure is the wrapped unsupported-query message |
| QueryProperties.LowerCharKeepsSpace | src/utils/cypherQueryEngine.ts:5 | lower-casing a character does not change whether it is white space |
| QueryProperties.TrimStartLower | src/utils/cypherQueryEngine.ts:5 | trimming the start commutes with lower-casing |
| QueryProperties.TrimEndLower | src/utils/cypherQueryEngine.ts:5 | trimming the end commutes with lower-casing |
| QueryProperties.QueryIgnoresCase | src/utils/cypherQueryEngine.ts:4-16 | a query and its lower-case form give the same outcome |
| QueryProperties.OnlyMatchQueries | src/utils/cypherQueryEngine.ts:4-16 | a query fails exactly when its normalised text does not start with `match`, and then with the wrapped message; otherwise it returns the match records |
| QueryProperties.AllNodesComesFirst | src/utils/cypherQueryEngine.ts:20-32 | with `match (n)` and `return n` anywhere the query lists the nodes in store order, cut to a positive limit smaller than their number |
| QueryProperties.RelationshipQueryReturningNListsNodes | src/utils/cypherQueryEngine.ts:20-22 | `match (n)-[r]->(m) ... return n` lists all nodes and never reaches the relationship shape |
| QueryProperties.FirstLimit | src/utils/cypherQueryEngine.ts:23-24 | the digits after the first `limit` followed by spaces and digits set the limit |
| QueryProperties.LimitZeroListsAll | src/utils/cypherQueryEngine.ts:23-29 | `limit 0` is falsy and lists every node |
| QueryProperties.NodeTypeShadowsTypedRelationship | src/utils/cypherQueryEngine.ts:36-71 | a typed-relationship pattern whose source variable is `n` is read as a node-type query, so the relationship shape never runs for it |
| QueryProperties.NodesOfTypeRecords | src/utils/cypherQueryEngine.ts:36-51 | `match (n:T)` lists exactly the nodes whose type equals T ignoring case, in store order, as nodes or as label-and-properties records |
| QueryProperties.NodesOfTypeCounts | src/utils/cypherQueryEngine.ts:39-41 | each node of the type is listed as often as it is stored |
| QueryProperties.EdgeListingRecords | src/utils/cypherQueryEngine.ts:54-67 | the edge listing has one record per edge, with the three keys and the edge's relationship |
| QueryProperties.MissingEndpointIsUnknown | src/utils/cypherQueryEngine.ts:56-60 | a source or target id that no node has is labelled "Unknown" in the a.label or b.label column |
| QueryProperties.FoundEndpointLabel | src/utils/cypherQueryEngine.ts:57-62 | otherwise the first node with that id names the source or target, and an empty label reads "Unknown" |
| QueryProperties.TypedRowWhen | src/utils/cypherQueryEngine.ts:77-86 | an edge yields a record exactly when its relationship is the captured one and nodes with its source and target ids have the captured types, compared exactly |
| QueryProperties.TypedRowsFromEdges | src/utils/cypherQueryEngine.ts:74-90 | the typed-relationship records are exactly those of the qualifying edges, at most one per edge |
| QueryProperties.TypedRowsInEdgeOrder | src/utils/cypherQueryEngine.ts:74-90 | there is one typed-relationship record per qualifying edge, and the i-th record is the one the i-th qualifying edge yields |
| QueryProperties.CapturedRelTypeIsLowerCase | src/utils/cypherQueryEngine.ts:5-77 | the relationship type captured from the normalised query is lower case |
| QueryProperties.CapitalisedRelationshipNeverMatches | src/utils/cypherQueryEngine.ts:5-77 | an edge whose relationship holds a capital never yields a typed-relationship record |
| QueryProperties.OrderedNodes | src/utils/cypherQueryEngine.ts:108-110 | ordering permutes the filtered nodes, heaviest first, and only when asked |
| QueryProperties.WhereOrderedOnRequest | src/utils/cypherQueryEngine.ts:108-125 | a type or weight WHERE query is sorted exactly when it contains the weight ordering clause |
| QueryProperties.WhereTypeRecords | src/utils/cypherQueryEngine.ts:100-113 | `n.type = "X"` lists the nodes of type X ignoring case, each as often as stored, heaviest first when ordered |
| QueryProperties.WhereWeightRecords | src/utils/cypherQueryEngine.ts:116-129 | `n.properties.weight > X` lists the nodes heavier than X, each as often as stored, heaviest first when ordered |
| QueryProperties.WhereLabelContainsRecords | src/utils/cypherQueryEngine.ts:132-140 | `n.label contains "X"` lists the nodes whose lower-cased label contains X, each as often as stored |
| QueryProperties.RelationshipRowWhen | src/utils/cypherQueryEngine.ts:152-161 | an edge yields a record exactly when its relationship is X and both of its ends are node ids |
| QueryProperties.RelationshipRowsFromEdges | src/utils/cypherQueryEngine.ts:145-166 | the relationship-condition records are exactly those of the qualifying edges, at most one per edge |
| QueryProperties.RelationshipRowsInEdgeOrder | src/utils/cypherQueryEngine.ts:145-166 | there is one relationship-condition record per qualifying edge, and the i-th record is the one the i-th qualifying edge yields |
| QueryProperties.UnrecognisedIsEmpty | src/utils/cypherQueryEngine.ts:170 | a query that fits no shape yields no records |
| QueryProperties.MatchQueryBounded | src/utils/cypherQueryEngine.ts:18-170 | a MATCH query returns at most one record per node or at most one per edge |

## Left out

- The regular expressions of the two extraction tables are not interpreted. The matcher is a parameter, and the tables record each pattern's type or label and what it recognises in words. The word-boundary tests of `calculateConfidence` are modelled as `ContainsWord`.
- `toLowerCase` is modelled for ASCII letters only. Unicode case mapping is not modelled.
- Numbers are exact reals, not IEEE doubles. Rounding in `0.5 + 0.3 + 0.1 + 0.1` and similar sums, NaN and infinities are not modelled. `parseFloat` and `parseInt` read the matched digits exactly.
- `processedAt` and `Date`, `async`/`Promise`, and the React provider, hooks and wrapper callbacks of `src/context/GraphContext.tsx` after the reducer are not modelled, because they are I/O or UI plumbing. The same applies to graph export and import from files.
- The reducer's `default` branch is not modelled, because the action type is a closed datatype.
- GraphContext.GraphStore.AddDocument: ADD_DOCUMENT mutates the old state's node objects when it adds weight. The model yields new values, so that aliasing (the previous state seeing the new weights) is not captured.
- GraphContext.ApplyNodeUpdate: `{...node, ...updates}` copies only the top level, so the updated node shares its `properties` object with the old one. The model yields values, so that sharing is not captured.
- GraphContext.ApplyNodeUpdate: only the four declared keys of `Partial<Node>` are modelled. A key present with the value `undefined` and keys outside the type are not.
- The open `[key: string]: any` part of node and edge property bags is not modelled. Neither is object key order in result records, which are maps.
- DocumentProcessor.GenerateDescription: a type such as `constructor`, which would hit an inherited property of the template object, is treated like any other unknown type.
- QueryEngine.ExecuteMatchQuery: `n.label contains` is matched case-sensitively. The source's `/i` flag only matters for a query that was not lower-cased, and `executeQuery` always lower-cases it.
- Errors thrown inside `executeMatchQuery` by malformed graph data (a node without a type, say) are not modelled: the data types rule them out. The wrapper's message is modelled for the unsupported-query error.
- QueryProbes.RelPatternParts: soundness of the typed-relationship pattern is stated piece by piece, through RelPatternParts, RelWordsParts and PairAtSound, rather than as one lemma.
- DocumentProcessor.AddMatches, DocumentProcessor.AddHits, GraphContext.GraphStore.MergeDocumentEntities and GraphContext.ResolveEdges are the source's inner loops written as separate methods, GraphContext.GraphStore.MergeEntityInPlace is the body of the entity loop, and NodeSort.ShiftLighter is the shifting loop of the insertion step. The control flow is unchanged.
