/** Rule-based extraction of entities and relationships from raw text.
    The regular-expression engine is a parameter: a matcher gives, for one
    pattern of a table and one text, the whole matches (entities) or the two
    captured spans (relationships) in text order, as `matchAll` yields them.
    The tables, their order, the deduplication, the filters and the
    confidence arithmetic are modelled exactly. */
module DocumentProcessor {
  import opened Wrappers
  import opened Text
  import opened GraphTypes
  import opened Seqs

  // ---------------------------------------------------------------- tables

  /** One regular expression of the entity table: the type it tags and, in
      words, the text it recognises. */
  datatype EntityPattern = EntityPattern(entityType: string, recognises: string)

  /** The entity table flattened in iteration order: type key
      (person, organization, location, event, concept), then pattern order. */
  const EntityPatterns: seq<EntityPattern> := [
    EntityPattern("person", "two or three capitalised words"),
    EntityPattern("person", "Mr., Mrs., Ms., Dr. or Prof. and two capitalised words"),
    EntityPattern("organization", "a capitalised phrase ending in a corporate word (Inc, Corp, LLC, ...)"),
    EntityPattern("organization", "a name from the fixed roster of companies and organisational nouns"),
    EntityPattern("location", "a capitalised phrase ending in a place word (City, State, Street, ...)"),
    EntityPattern("location", "a name from the fixed roster of countries"),
    EntityPattern("event", "an event noun from the fixed lexicon, in any case"),
    EntityPattern("concept", "a technology phrase from the fixed lexicon, in any case")
  ]

  /** Position of an entity type among the table's keys, 5 for any other. */
  function TypeRank(t: string): nat {
    if t == "person" then 0
    else if t == "organization" then 1
    else if t == "location" then 2
    else if t == "event" then 3
    else if t == "concept" then 4
    else 5
  }

  /** The entity table has eight expressions over the five type keys, and
      iterating it visits the keys in their declared order. */
  lemma EntityTableOrder()
    ensures |EntityPatterns| == 8
    ensures forall i :: 0 <= i < |EntityPatterns| ==> TypeRank(EntityPatterns[i].entityType) < 5
    ensures forall i, j :: 0 <= i < j < |EntityPatterns| ==>
              TypeRank(EntityPatterns[i].entityType) <= TypeRank(EntityPatterns[j].entityType)
  {
  }

  /** One regular expression of the relationship table: the label it emits and,
      in words, the verb phrase between its two captured spans. */
  datatype RelationshipPattern = RelationshipPattern(relationship: string, verbs: string)

  const RelationshipPatterns: seq<RelationshipPattern> := [
    RelationshipPattern("works_for", "works at | works for"),
    RelationshipPattern("leads", "is (the) CEO/president/director/manager/founder/chief/head/leader of"),
    RelationshipPattern("founded", "founded | created | established | started"),
    RelationshipPattern("owns", "owns | possesses | has"),
    RelationshipPattern("partnered_with", "partnered with | collaborated with"),
    RelationshipPattern("acquired", "acquired | bought | purchased"),
    RelationshipPattern("invested_in", "invested (in) | funded (in)"),
    RelationshipPattern("competes_with", "competes with | competed with"),
    RelationshipPattern("supplies_to", "supplies (to) | provides (to)"),
    RelationshipPattern("located_in", "located in | based in"),
    RelationshipPattern("attended", "attended (from) | graduated (from)"),
    RelationshipPattern("met", "met | encountered"),
    RelationshipPattern("knows", "knows (with) | familiar (with)"),
    RelationshipPattern("related_to", "related to | connected to"),
    RelationshipPattern("influenced", "influenced | impacted"),
    RelationshipPattern("succeeded", "succeeded | followed"),
    RelationshipPattern("preceded", "preceded | came before"),
    RelationshipPattern("caused", "caused | resulted in"),
    RelationshipPattern("depends_on", "depends on | relies on"),
    RelationshipPattern("includes", "includes | contains")
  ]

  /** The relationship table has twenty expressions, each with its own label. */
  lemma RelationshipTableLabels()
    ensures |RelationshipPatterns| == 20
    ensures forall i, j :: 0 <= i < j < |RelationshipPatterns| ==>
              RelationshipPatterns[i].relationship != RelationshipPatterns[j].relationship
  {
  }

  /** `text.matchAll(pattern)`: the whole match of every hit, in text order. */
  type EntityMatcher = (EntityPattern, string) -> seq<string>

  /** `text.matchAll(pattern)`: the two captured groups of every hit, in text order. */
  type RelationshipMatcher = (RelationshipPattern, string) -> seq<(string, string)>

  // ------------------------------------------------------------ confidence

  const CorporateWords: seq<string> := ["Inc", "Corp", "LLC", "Ltd", "Company"]
  const PlaceWords: seq<string> := ["City", "State", "Country", "Street"]

  predicate ContainsAnyWord(s: string, words: seq<string>) {
    exists k | 0 <= k < |words| :: ContainsWord(s, words[k])
  }

  /** The +0.3 bonus: a person name with a space, an organisation name with a
      corporate word, a location name with a place word. */
  predicate TypeBonus(name: string, entityType: string) {
    || (entityType == "person" && Contains(name, " "))
    || (entityType == "organization" && ContainsAnyWord(name, CorporateWords))
    || (entityType == "location" && ContainsAnyWord(name, PlaceWords))
  }

  predicate StartsUpper(name: string) {
    |name| > 0 && IsUpper(name[0])
  }

  /** The entity confidence: 0.5, plus 0.3 for the type bonus, 0.1 for a name
      longer than three characters and 0.1 for a leading capital. */
  function EntityConfidence(name: string, entityType: string): (c: real)
    ensures 0.5 <= c <= 1.0
  {
    0.5 + (if TypeBonus(name, entityType) then 0.3 else 0.0)
        + (if |name| > 3 then 0.1 else 0.0)
        + (if StartsUpper(name) then 0.1 else 0.0)
  }

  /** The score reaches 1.0 exactly when all three bonuses apply. */
  lemma EntityConfidenceFull(name: string, entityType: string)
    ensures EntityConfidence(name, entityType) == 1.0
            <==> TypeBonus(name, entityType) && |name| > 3 && StartsUpper(name)
  {
  }

  function Min(a: real, b: real): real {
    if a <= b then a else b
  }

  /** `calculateConfidence`: the score accumulated step by step and capped at
      1.0; the cap never changes it. */
  method CalculateConfidence(entityName: string, entityType: string) returns (confidence: real)
    ensures confidence == EntityConfidence(entityName, entityType)
    ensures confidence in {0.5, 0.6, 0.7, 0.8, 0.9, 1.0}
  {
    confidence := 0.5;
    if entityType == "person" && Contains(entityName, " ") {
      confidence := confidence + 0.3;
    }
    if entityType == "organization" && ContainsAnyWord(entityName, CorporateWords) {
      confidence := confidence + 0.3;
    }
    if entityType == "location" && ContainsAnyWord(entityName, PlaceWords) {
      confidence := confidence + 0.3;
    }
    if |entityName| > 3 {
      confidence := confidence + 0.1;
    }
    if |entityName| > 0 && IsUpper(entityName[0]) {
      confidence := confidence + 0.1;
    }
    confidence := Min(confidence, 1.0);
  }

  /** The relationship confidence: 0.6, plus 0.2 when both spans are longer
      than three characters, plus 0.1 when the label has an underscore. */
  function RelationshipConfidence(source: string, target: string, relationship: string): (c: real)
    ensures c in {0.6, 0.7, 0.8, 0.9}
  {
    0.6 + (if |source| > 3 && |target| > 3 then 0.2 else 0.0)
        + (if '_' in relationship then 0.1 else 0.0)
  }

  /** `calculateRelationshipConfidence`: accumulated step by step and capped at
      1.0; the cap never changes it. */
  method CalculateRelationshipConfidence(source: string, target: string, relationship: string)
    returns (confidence: real)
    ensures confidence == RelationshipConfidence(source, target, relationship)
    ensures 0.6 <= confidence < 1.0
  {
    confidence := 0.6;
    if |source| > 3 && |target| > 3 {
      confidence := confidence + 0.2;
    }
    if '_' in relationship {
      confidence := confidence + 0.1;
    }
    confidence := Min(confidence, 1.0);
  }

  // ----------------------------------------------------------- description

  /** `generateDescription`: a per-type template followed by the name. */
  function GenerateDescription(entityName: string, entityType: string): (d: string)
    ensures |d| > |entityName| && d[|d| - |entityName|..] == entityName
  {
    match entityType
    case "person" => "Individual named " + entityName
    case "organization" => "Organization or company: " + entityName
    case "location" => "Geographic location: " + entityName
    case "event" => "Event or occurrence: " + entityName
    case "concept" => "Concept or idea: " + entityName
    case _ => "Entity: " + entityName
  }

  /** For one type, the description determines the name. */
  lemma DescriptionDeterminesName(a: string, b: string, entityType: string)
    requires GenerateDescription(a, entityType) == GenerateDescription(b, entityType)
    ensures a == b
  {
    var da, db := GenerateDescription(a, entityType), GenerateDescription(b, entityType);
    assert |da| - |a| == |db| - |b|;
  }

  // ------------------------------------------------------------- entities

  /** One whole match, trimmed, tagged with the type of the pattern that produced it. */
  datatype Candidate = Candidate(entityType: string, name: string)

  function Tagged(p: EntityPattern, matches: seq<string>): seq<Candidate>
  {
    seq(|matches|, i requires 0 <= i < |matches| => Candidate(p.entityType, Trim(matches[i])))
  }

  /** Every match of the first `k` entity patterns, in scan order. */
  function EntityCandidates(text: string, matchAll: EntityMatcher, k: nat): seq<Candidate>
    requires k <= |EntityPatterns|
  {
    if k == 0 then []
    else EntityCandidates(text, matchAll, k - 1) + Tagged(EntityPatterns[k - 1], matchAll(EntityPatterns[k - 1], text))
  }

  lemma EntityCandidatesNext(text: string, matchAll: EntityMatcher, t: nat)
    requires t < |EntityPatterns|
    ensures EntityCandidates(text, matchAll, t + 1)
         == EntityCandidates(text, matchAll, t) + Tagged(EntityPatterns[t], matchAll(EntityPatterns[t], text))
  {
  }

  /** The entity a candidate yields: its trimmed match, scored and described. */
  function MakeEntity(name: string, entityType: string): Entity {
    Entity(name, entityType, Some(EntityConfidence(name, entityType)), Some(GenerateDescription(name, entityType)))
  }

  function EntityOf(c: Candidate): Entity {
    MakeEntity(c.name, c.entityType)
  }

  /** A match long enough to become an entity once trimmed. */
  predicate Admissible(c: Candidate) {
    |c.name| > 2
  }

  /** The deduplication key: the trimmed match, lower-cased. */
  function Key(c: Candidate): string {
    Lower(c.name)
  }

  /** The state of the extraction loop: the matches kept so far (each
      becomes one entity) and `seenEntities`. */
  datatype EntityScan = EntityScan(kept: seq<Candidate>, seen: set<string>)

  function ScanStep(st: EntityScan, c: Candidate): EntityScan {
    if Key(c) !in st.seen && Admissible(c) then EntityScan(st.kept + [c], st.seen + {Key(c)})
    else st
  }

  /** The extraction loop run over a candidate stream. */
  function ScanEntities(cs: seq<Candidate>): EntityScan {
    if cs == [] then EntityScan([], {})
    else ScanStep(ScanEntities(cs[..|cs| - 1]), cs[|cs| - 1])
  }

  lemma ScanAppend(cs: seq<Candidate>, c: Candidate)
    ensures ScanEntities(cs + [c]) == ScanStep(ScanEntities(cs), c)
  {
    assert (cs + [c])[..|cs|] == cs;
  }

  /** Reference definition: candidate `p` is the first admissible one with its key. */
  predicate FirstOccurrence(cs: seq<Candidate>, p: nat)
    requires p < |cs|
  {
    Admissible(cs[p]) && forall q :: 0 <= q < p && Admissible(cs[q]) ==> Key(cs[q]) != Key(cs[p])
  }

  /** Reference definition: the first `n` candidates that are first
      occurrences of their key, in scan order. */
  function FirstCandidates(cs: seq<Candidate>, n: nat): seq<Candidate>
    requires n <= |cs|
  {
    if n == 0 then []
    else FirstCandidates(cs, n - 1) + (if FirstOccurrence(cs, n - 1) then [cs[n - 1]] else [])
  }

  /** The keys of the admissible candidates among the first `n`. */
  function AdmissibleKeys(cs: seq<Candidate>, n: nat): (keys: set<string>)
    requires n <= |cs|
    ensures forall q :: 0 <= q < n && Admissible(cs[q]) ==> Key(cs[q]) in keys
    ensures forall k :: k in keys ==> exists q :: 0 <= q < n && Admissible(cs[q]) && Key(cs[q]) == k
  {
    if n == 0 then {}
    else AdmissibleKeys(cs, n - 1) + (if Admissible(cs[n - 1]) then {Key(cs[n - 1])} else {})
  }

  /** A candidate is a first occurrence exactly when it is admissible and its
      key is not among the keys of the admissible candidates before it. */
  lemma FirstOccurrenceIsUnseenKey(cs: seq<Candidate>, p: nat)
    requires p < |cs|
    ensures FirstOccurrence(cs, p) <==> Admissible(cs[p]) && Key(cs[p]) !in AdmissibleKeys(cs, p)
  {
  }

  /** The entities the given candidates yield, one each, in order. */
  function EntitiesOf(cs: seq<Candidate>): seq<Entity> {
    seq(|cs|, i requires 0 <= i < |cs| => EntityOf(cs[i]))
  }

  lemma EntitiesOfAppend(cs: seq<Candidate>, c: Candidate)
    ensures EntitiesOf(cs + [c]) == EntitiesOf(cs) + [EntityOf(c)]
  {
    assert EntitiesOf(cs + [c])[|cs|] == EntityOf(c);
  }

  /** The extraction loop keeps exactly the first admissible occurrence of
      every key, in scan order, and its `seenEntities` holds exactly the
      keys of the admissible matches (a too-short match is never recorded). */
  lemma {:induction false} ScanKeepsFirstOccurrences(cs: seq<Candidate>, n: nat)
    requires n <= |cs|
    ensures ScanEntities(cs[..n]) == EntityScan(FirstCandidates(cs, n), AdmissibleKeys(cs, n))
  {
    if n > 0 {
      ScanKeepsFirstOccurrences(cs, n - 1);
      assert cs[..n] == cs[..n - 1] + [cs[n - 1]];
      ScanAppend(cs[..n - 1], cs[n - 1]);
      FirstOccurrenceIsUnseenKey(cs, n - 1);
    }
  }

  /** Every kept candidate is a first occurrence, so an entity carries the
      type of the first pattern that matched its key. */
  lemma {:induction false} FirstCandidatesProvenance(cs: seq<Candidate>, n: nat, i: nat)
    requires n <= |cs| && i < |FirstCandidates(cs, n)|
    ensures exists p :: 0 <= p < n && FirstOccurrence(cs, p) && FirstCandidates(cs, n)[i] == cs[p]
  {
    var prev := FirstCandidates(cs, n - 1);
    if i < |prev| {
      FirstCandidatesProvenance(cs, n - 1, i);
      assert FirstCandidates(cs, n)[i] == prev[i];
    } else {
      assert FirstCandidates(cs, n)[i] == cs[n - 1];
    }
  }

  /** The kept candidates have pairwise distinct keys, each an admissible key. */
  lemma {:induction false} FirstCandidatesDistinct(cs: seq<Candidate>, n: nat)
    requires n <= |cs|
    ensures forall i, j :: 0 <= i < j < |FirstCandidates(cs, n)| ==> Key(FirstCandidates(cs, n)[i]) != Key(FirstCandidates(cs, n)[j])
    ensures forall i :: 0 <= i < |FirstCandidates(cs, n)| ==> Key(FirstCandidates(cs, n)[i]) in AdmissibleKeys(cs, n)
  {
    if n > 0 {
      FirstCandidatesDistinct(cs, n - 1);
      FirstOccurrenceIsUnseenKey(cs, n - 1);
    }
  }

  /** Every admissible match is represented: some kept candidate has its key. */
  lemma {:induction false} FirstCandidatesComplete(cs: seq<Candidate>, n: nat, q: nat)
    requires n <= |cs| && q < n && Admissible(cs[q])
    ensures exists i :: 0 <= i < |FirstCandidates(cs, n)| && Key(FirstCandidates(cs, n)[i]) == Key(cs[q])
  {
    var prev := FirstCandidates(cs, n - 1);
    if q < n - 1 {
      FirstCandidatesComplete(cs, n - 1, q);
      var i :| 0 <= i < |prev| && Key(prev[i]) == Key(cs[q]);
      assert FirstCandidates(cs, n)[i] == prev[i];
    } else if FirstOccurrence(cs, q) {
      assert FirstCandidates(cs, n)[|prev|] == cs[q];
    } else {
      var q' :| 0 <= q' < q && Admissible(cs[q']) && Key(cs[q']) == Key(cs[q]);
      FirstCandidatesComplete(cs, n - 1, q');
      var i :| 0 <= i < |prev| && Key(prev[i]) == Key(cs[q']);
      assert FirstCandidates(cs, n)[i] == prev[i];
    }
  }

  /** One more match of the current pattern is one more step of the scan. */
  lemma ScanNextMatch(before: seq<Candidate>, p: EntityPattern, matches: seq<string>, m: nat)
    requires m < |matches|
    ensures ScanEntities(before + Tagged(p, matches[..m + 1]))
         == ScanStep(ScanEntities(before + Tagged(p, matches[..m])), Candidate(p.entityType, Trim(matches[m])))
  {
    var c := Candidate(p.entityType, Trim(matches[m]));
    assert Tagged(p, matches[..m + 1]) == Tagged(p, matches[..m]) + [c];
    assert before + Tagged(p, matches[..m + 1]) == (before + Tagged(p, matches[..m])) + [c];
    ScanAppend(before + Tagged(p, matches[..m]), c);
  }

  /** Every match of the entity table over `text`, in scan order. */
  function AllCandidates(text: string, matchAll: EntityMatcher): seq<Candidate> {
    EntityCandidates(text, matchAll, |EntityPatterns|)
  }

  /** What `extractEntities` returns, by the reference definition. */
  function ExtractedEntities(text: string, matchAll: EntityMatcher): seq<Entity> {
    var cs := AllCandidates(text, matchAll);
    EntitiesOf(FirstCandidates(cs, |cs|))
  }

  /** `extractEntities`: for each table entry in order, for each match in
      text order, keep the trimmed match when it is longer than two
      characters and its lower-cased form has not been seen. */
  method ExtractEntities(text: string, matchAll: EntityMatcher) returns (entities: seq<Entity>)
    ensures entities == ExtractedEntities(text, matchAll)
  {
    entities := [];
    var seenEntities: set<string> := {};
    for t := 0 to |EntityPatterns|
      invariant entities == EntitiesOf(ScanEntities(EntityCandidates(text, matchAll, t)).kept)
      invariant seenEntities == ScanEntities(EntityCandidates(text, matchAll, t)).seen
    {
      var pattern := EntityPatterns[t];
      var matches := matchAll(pattern, text);
      ghost var before := EntityCandidates(text, matchAll, t);
      entities, seenEntities := AddMatches(entities, seenEntities, before, pattern, matches);
      EntityCandidatesNext(text, matchAll, t);
    }
    ScanIsExtracted(text, matchAll);
  }

  /** Scanning every candidate keeps what the reference definition keeps. */
  lemma ScanIsExtracted(text: string, matchAll: EntityMatcher)
    ensures EntitiesOf(ScanEntities(AllCandidates(text, matchAll)).kept) == ExtractedEntities(text, matchAll)
  {
    var cs := AllCandidates(text, matchAll);
    ScanKeepsFirstOccurrences(cs, |cs|);
    assert cs[..|cs|] == cs;
  }

  /** The inner loop of `extractEntities`: the matches of one pattern, in
      text order, scanned on from the state the earlier patterns left. */
  method AddMatches(entities: seq<Entity>, seenEntities: set<string>, ghost before: seq<Candidate>,
                    pattern: EntityPattern, matches: seq<string>)
    returns (es: seq<Entity>, seen: set<string>)
    requires entities == EntitiesOf(ScanEntities(before).kept)
    requires seenEntities == ScanEntities(before).seen
    ensures es == EntitiesOf(ScanEntities(before + Tagged(pattern, matches)).kept)
    ensures seen == ScanEntities(before + Tagged(pattern, matches)).seen
  {
    es, seen := entities, seenEntities;
    assert before + Tagged(pattern, matches[..0]) == before;
    for m := 0 to |matches|
      invariant es == EntitiesOf(ScanEntities(before + Tagged(pattern, matches[..m])).kept)
      invariant seen == ScanEntities(before + Tagged(pattern, matches[..m])).seen
    {
      var entityName := Trim(matches[m]);
      var normalizedName := Lower(entityName);
      ghost var c := Candidate(pattern.entityType, entityName);
      ghost var st := ScanEntities(before + Tagged(pattern, matches[..m]));
      ScanNextMatch(before, pattern, matches, m);
      if normalizedName !in seen && |entityName| > 2 {
        var confidence := CalculateConfidence(entityName, pattern.entityType);
        var description := GenerateDescription(entityName, pattern.entityType);
        EntitiesOfAppend(st.kept, c);
        es := es + [Entity(entityName, pattern.entityType, Some(confidence), Some(description))];
        seen := seen + {normalizedName};
      }
    }
    assert matches[..|matches|] == matches;
  }

  /** No two entities share a lower-cased name. */
  predicate DistinctNames(es: seq<Entity>) {
    forall i, j :: 0 <= i < j < |es| ==> Lower(es[i].name) != Lower(es[j].name)
  }

  /** No two extracted entities share a lower-cased name. */
  lemma ExtractedEntitiesDistinct(text: string, matchAll: EntityMatcher)
    ensures DistinctNames(ExtractedEntities(text, matchAll))
  {
    var cs := AllCandidates(text, matchAll);
    FirstCandidatesDistinct(cs, |cs|);
    var es := ExtractedEntities(text, matchAll);
    var fc := FirstCandidates(cs, |cs|);
    forall i, j | 0 <= i < j < |es|
      ensures Lower(es[i].name) != Lower(es[j].name)
    {
      assert Lower(es[i].name) == Key(fc[i]) && Lower(es[j].name) == Key(fc[j]);
    }
  }

  /** Each extracted entity is the first match (longer than two characters
      once trimmed) of its lower-cased name, scored and described by its
      name and the type of the pattern that produced that match. */
  lemma ExtractedEntityOrigin(text: string, matchAll: EntityMatcher, i: nat)
    requires i < |ExtractedEntities(text, matchAll)|
    ensures var e := ExtractedEntities(text, matchAll)[i];
            var cs := AllCandidates(text, matchAll);
            exists p :: 0 <= p < |cs| && FirstOccurrence(cs, p)
                     && e.name == cs[p].name && e.entityType == cs[p].entityType
    ensures var e := ExtractedEntities(text, matchAll)[i];
            |e.name| > 2 && e.confidence == Some(EntityConfidence(e.name, e.entityType))
            && e.description == Some(GenerateDescription(e.name, e.entityType))
  {
    var cs := AllCandidates(text, matchAll);
    FirstCandidatesProvenance(cs, |cs|, i);
  }

  /** Every match that is longer than two characters once trimmed is
      represented by an extracted entity with the same lower-cased name. */
  lemma ExtractedEntitiesComplete(text: string, matchAll: EntityMatcher, q: nat)
    requires q < |AllCandidates(text, matchAll)| && Admissible(AllCandidates(text, matchAll)[q])
    ensures exists i :: 0 <= i < |ExtractedEntities(text, matchAll)|
                     && Lower(ExtractedEntities(text, matchAll)[i].name) == Key(AllCandidates(text, matchAll)[q])
  {
    var cs := AllCandidates(text, matchAll);
    FirstCandidatesComplete(cs, |cs|, q);
    var i :| 0 <= i < |FirstCandidates(cs, |cs|)| && Key(FirstCandidates(cs, |cs|)[i]) == Key(cs[q]);
    assert Lower(ExtractedEntities(text, matchAll)[i].name) == Key(FirstCandidates(cs, |cs|)[i]);
  }

  // ------------------------------------------------------- relationships

  /** One hit of a relationship pattern: the label and the two captured
      spans, trimmed. */
  datatype Capture = Capture(relationship: string, source: string, target: string)

  function Captured(p: RelationshipPattern, hits: seq<(string, string)>): seq<Capture>
  {
    seq(|hits|, i requires 0 <= i < |hits| => Capture(p.relationship, Trim(hits[i].0), Trim(hits[i].1)))
  }

  /** Every hit of the first `k` relationship patterns, in scan order. */
  function RelationshipCaptures(text: string, captureAll: RelationshipMatcher, k: nat): seq<Capture>
    requires k <= |RelationshipPatterns|
  {
    if k == 0 then []
    else RelationshipCaptures(text, captureAll, k - 1)
         + Captured(RelationshipPatterns[k - 1], captureAll(RelationshipPatterns[k - 1], text))
  }

  function AllCaptures(text: string, captureAll: RelationshipMatcher): seq<Capture> {
    RelationshipCaptures(text, captureAll, |RelationshipPatterns|)
  }

  /** `entityNames`: the lower-cased names of the known entities. */
  function EntityKeys(entities: seq<Entity>): set<string>
  {
    set i | 0 <= i < |entities| :: Lower(entities[i].name)
  }

  /** The filter of the relationship loop: both spans non-empty, both known
      (case-insensitively) and not the same name. */
  predicate Accepted(c: Capture, names: set<string>) {
    && |c.source| > 0 && |c.target| > 0
    && Lower(c.source) in names && Lower(c.target) in names
    && Lower(c.source) != Lower(c.target)
  }

  function RelationshipOf(c: Capture): Relationship {
    Relationship(c.source, c.target, c.relationship, Some(RelationshipConfidence(c.source, c.target, c.relationship)))
  }

  function RelationshipsOf(cs: seq<Capture>): seq<Relationship> {
    seq(|cs|, i requires 0 <= i < |cs| => RelationshipOf(cs[i]))
  }

  lemma RelationshipsOfAppend(cs: seq<Capture>, c: Capture)
    ensures RelationshipsOf(cs + [c]) == RelationshipsOf(cs) + [RelationshipOf(c)]
  {
    assert RelationshipsOf(cs + [c])[|cs|] == RelationshipOf(c);
  }

  /** The captures a set of known names lets through, in scan order. */
  function AcceptedCaptures(cs: seq<Capture>, names: set<string>): seq<Capture> {
    Filter(cs, c => Accepted(c, names))
  }

  /** What `extractRelationships` returns, by the reference definition. */
  function ExtractedRelationships(text: string, captureAll: RelationshipMatcher, entities: seq<Entity>): seq<Relationship> {
    RelationshipsOf(AcceptedCaptures(AllCaptures(text, captureAll), EntityKeys(entities)))
  }

  lemma AcceptNextHit(before: seq<Capture>, p: RelationshipPattern, hits: seq<(string, string)>, m: nat, names: set<string>)
    requires m < |hits|
    ensures var c := Capture(p.relationship, Trim(hits[m].0), Trim(hits[m].1));
            AcceptedCaptures(before + Captured(p, hits[..m + 1]), names)
            == AcceptedCaptures(before + Captured(p, hits[..m]), names) + (if Accepted(c, names) then [c] else [])
  {
    var c := Capture(p.relationship, Trim(hits[m].0), Trim(hits[m].1));
    assert Captured(p, hits[..m + 1]) == Captured(p, hits[..m]) + [c];
    assert before + Captured(p, hits[..m + 1]) == (before + Captured(p, hits[..m])) + [c];
    FilterAppend(before + Captured(p, hits[..m]), [c], c => Accepted(c, names));
  }

  /** One more hit: its relationship is appended exactly when the filter lets it through. */
  lemma RelationshipStep(before: seq<Capture>, p: RelationshipPattern, hits: seq<(string, string)>, m: nat, names: set<string>)
    requires m < |hits|
    ensures var c := Capture(p.relationship, Trim(hits[m].0), Trim(hits[m].1));
            RelationshipsOf(AcceptedCaptures(before + Captured(p, hits[..m + 1]), names))
            == RelationshipsOf(AcceptedCaptures(before + Captured(p, hits[..m]), names))
               + (if Accepted(c, names) then [RelationshipOf(c)] else [])
  {
    var c := Capture(p.relationship, Trim(hits[m].0), Trim(hits[m].1));
    AcceptNextHit(before, p, hits, m, names);
    RelationshipsOfAppend(AcceptedCaptures(before + Captured(p, hits[..m]), names), c);
  }

  /** The set the source builds from the entities is `EntityKeys`. */
  lemma EntityNamesAreKeys(entities: seq<Entity>)
    ensures (set e | e in entities :: Lower(e.name)) == EntityKeys(entities)
  {
    var names := set e | e in entities :: Lower(e.name);
    forall k | k in EntityKeys(entities) ensures k in names {
      var i :| 0 <= i < |entities| && Lower(entities[i].name) == k;
      assert entities[i] in entities;
    }
  }

  /** `extractRelationships`: for each table entry in order, for each hit in
      text order, keep the two trimmed spans when both are non-empty, both
      name an entity (ignoring case) and they are not the same name. */
  method ExtractRelationships(text: string, captureAll: RelationshipMatcher, entities: seq<Entity>)
    returns (relationships: seq<Relationship>)
    ensures relationships == ExtractedRelationships(text, captureAll, entities)
  {
    relationships := [];
    var entityNames := set e | e in entities :: Lower(e.name);
    EntityNamesAreKeys(entities);
    for t := 0 to |RelationshipPatterns|
      invariant relationships == RelationshipsOf(AcceptedCaptures(RelationshipCaptures(text, captureAll, t), entityNames))
    {
      var pattern := RelationshipPatterns[t];
      var hits := captureAll(pattern, text);
      ghost var before := RelationshipCaptures(text, captureAll, t);
      relationships := AddHits(relationships, before, pattern, hits, entityNames);
      assert RelationshipCaptures(text, captureAll, t + 1) == before + Captured(pattern, hits);
    }
  }

  /** The inner loop of `extractRelationships`: the hits of one pattern, in
      text order, appended to what the earlier patterns gave. */
  method AddHits(relationships: seq<Relationship>, ghost before: seq<Capture>, pattern: RelationshipPattern,
                 hits: seq<(string, string)>, entityNames: set<string>)
    returns (rs: seq<Relationship>)
    requires relationships == RelationshipsOf(AcceptedCaptures(before, entityNames))
    ensures rs == RelationshipsOf(AcceptedCaptures(before + Captured(pattern, hits), entityNames))
  {
    rs := relationships;
    assert before + Captured(pattern, hits[..0]) == before;
    for m := 0 to |hits|
      invariant rs == RelationshipsOf(AcceptedCaptures(before + Captured(pattern, hits[..m]), entityNames))
    {
      var source := Trim(hits[m].0);
      var target := Trim(hits[m].1);
      ghost var c := Capture(pattern.relationship, source, target);
      RelationshipStep(before, pattern, hits, m, entityNames);
      if |source| > 0 && |target| > 0
         && Lower(source) in entityNames && Lower(target) in entityNames
         && Lower(source) != Lower(target)
      {
        var confidence := CalculateRelationshipConfidence(source, target, pattern.relationship);
        assert Accepted(c, entityNames);
        rs := rs + [Relationship(source, target, pattern.relationship, Some(confidence))];
      } else {
        assert !Accepted(c, entityNames);
      }
    }
    assert hits[..|hits|] == hits;
  }

  /** Every extracted relationship joins two different known entities (by
      lower-cased name), has non-empty spans and a confidence of 0.6 to 0.9. */
  lemma ExtractedRelationshipsConnectEntities(text: string, captureAll: RelationshipMatcher, entities: seq<Entity>, i: nat)
    requires i < |ExtractedRelationships(text, captureAll, entities)|
    ensures var r := ExtractedRelationships(text, captureAll, entities)[i];
            && |r.source| > 0 && |r.target| > 0
            && (exists j :: 0 <= j < |entities| && Lower(entities[j].name) == Lower(r.source))
            && (exists j :: 0 <= j < |entities| && Lower(entities[j].name) == Lower(r.target))
            && Lower(r.source) != Lower(r.target)
            && r.confidence.Some? && r.confidence.value in {0.6, 0.7, 0.8, 0.9}
  {
    var names := EntityKeys(entities);
    var kept := AcceptedCaptures(AllCaptures(text, captureAll), names);
    assert Accepted(kept[i], names);
  }

  /** Every hit the filter lets through is reported, as often as it occurs:
      relationships are never deduplicated. */
  lemma ExtractedRelationshipsKeepRepeats(text: string, captureAll: RelationshipMatcher, entities: seq<Entity>, c: Capture)
    requires Accepted(c, EntityKeys(entities))
    ensures multiset(AcceptedCaptures(AllCaptures(text, captureAll), EntityKeys(entities)))[c]
            == multiset(AllCaptures(text, captureAll))[c]
  {
    FilterMultiplicity(AllCaptures(text, captureAll), c' => Accepted(c', EntityKeys(entities)), c);
  }

  /** With fewer than two distinct entity names no relationship is found,
      whatever the text: a relationship needs two different known names. */
  lemma FewNamesNoRelationships(text: string, captureAll: RelationshipMatcher, entities: seq<Entity>)
    requires |EntityKeys(entities)| < 2
    ensures ExtractedRelationships(text, captureAll, entities) == []
  {
    var names := EntityKeys(entities);
    var kept := AcceptedCaptures(AllCaptures(text, captureAll), names);
    if |kept| > 0 {
      var c := kept[0];
      assert {Lower(c.source), Lower(c.target)} <= names;
      assert |{Lower(c.source), Lower(c.target)}| == 2;
      SubsetCardinality({Lower(c.source), Lower(c.target)}, names);
    }
  }

  /** A text that no entity expression matches yields no entities, and so
      no relationships, whatever the relationship expressions capture. */
  lemma NoMatchesNoResults(text: string, matchAll: EntityMatcher, captureAll: RelationshipMatcher)
    requires forall p :: matchAll(p, text) == []
    ensures ExtractedEntities(text, matchAll) == []
    ensures ExtractedRelationships(text, captureAll, ExtractedEntities(text, matchAll)) == []
  {
    NoMatchesNoCandidates(text, matchAll, |EntityPatterns|);
    assert EntityKeys([]) == {};
    FewNamesNoRelationships(text, captureAll, []);
  }

  lemma {:induction false} NoMatchesNoCandidates(text: string, matchAll: EntityMatcher, k: nat)
    requires k <= |EntityPatterns|
    requires forall p :: matchAll(p, text) == []
    ensures EntityCandidates(text, matchAll, k) == []
  {
    if k > 0 {
      NoMatchesNoCandidates(text, matchAll, k - 1);
    }
  }

  lemma SubsetCardinality<T>(a: set<T>, b: set<T>)
    requires a <= b
    ensures |a| <= |b|
  {
    assert b == a + (b - a);
  }

  // ------------------------------------------------------------- pipeline

  /** `processText`: the entities, then the relationships among them. */
  method ProcessText(text: string, matchAll: EntityMatcher, captureAll: RelationshipMatcher)
    returns (entities: seq<Entity>, relationships: seq<Relationship>)
    ensures entities == ExtractedEntities(text, matchAll)
    ensures relationships == ExtractedRelationships(text, captureAll, entities)
  {
    entities := ExtractEntities(text, matchAll);
    relationships := ExtractRelationships(text, captureAll, entities);
  }
}
