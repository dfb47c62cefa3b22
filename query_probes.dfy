/** The small regular expressions the query engine matches a lower-cased
    query against. Each is written as the scan a backtracking matcher
    performs at one position (`...At`), next to a declarative statement of
    how the pattern's pieces line up there (`...Shape`); the two are proved
    to agree. A regular expression without the global flag reports the
    match that starts first, which `Leftmost` searches for. */
module QueryProbes {
  import opened Wrappers
  import opened Text

  // --------------------------------------------------------------- runs

  /** The length of the longest run of `P`-characters of `s` from `i`: what
      a greedy `[P]*` consumes. */
  function Run(s: string, i: nat, P: char -> bool): (n: nat)
    ensures i <= |s| ==> i + n <= |s|
    ensures i > |s| ==> n == 0
    decreases |s| - i
  {
    if i < |s| && P(s[i]) then 1 + Run(s, i + 1, P) else 0
  }

  /** The run is made of `P`-characters and stops at the first other one. */
  lemma {:induction false} RunIsRun(s: string, i: nat, P: char -> bool)
    ensures forall j :: i <= j < i + Run(s, i, P) ==> P(s[j])
    ensures i + Run(s, i, P) < |s| ==> !P(s[i + Run(s, i, P)])
    decreases |s| - i
  {
    if i < |s| && P(s[i]) {
      RunIsRun(s, i + 1, P);
    }
  }

  /** A run that ends where the class ends is the run. */
  lemma {:induction false} RunIsMaximal(s: string, i: nat, n: nat, P: char -> bool)
    requires i + n <= |s|
    requires forall j :: i <= j < i + n ==> P(s[j])
    requires i + n == |s| || !P(s[i + n])
    ensures Run(s, i, P) == n
    decreases n
  {
    if n > 0 {
      RunIsMaximal(s, i + 1, n - 1, P);
    }
  }

  /** `\s*` from `i` takes white space only, up to the first other character. */
  lemma SpaceRun(s: string, i: nat)
    requires i <= |s|
    ensures Spaces(s, i, Run(s, i, IsSpace))
    ensures i + Run(s, i, IsSpace) < |s| ==> !IsSpace(s[i + Run(s, i, IsSpace)])
  {
    RunIsRun(s, i, IsSpace);
  }

  /** `\w+` from `i` takes word characters only. */
  lemma WordRun(s: string, i: nat)
    requires i <= |s|
    ensures IsWord(s[i..i + Run(s, i, IsWordChar)])
  {
    RunIsRun(s, i, IsWordChar);
  }

  /** `\d+` from `i` takes digits only, up to the first other character. */
  lemma DigitRun(s: string, i: nat)
    requires i <= |s|
    ensures IsDigits(s[i..i + Run(s, i, IsDigit)])
    ensures i + Run(s, i, IsDigit) < |s| ==> !IsDigit(s[i + Run(s, i, IsDigit)])
  {
    RunIsRun(s, i, IsDigit);
  }

  /** `[^"]+` from `i` takes no quote. */
  lemma QuoteFreeRun(s: string, i: nat)
    requires i <= |s|
    ensures QuoteFree(s[i..i + Run(s, i, NotQuote)])
  {
    RunIsRun(s, i, NotQuote);
  }

  /** `k` white-space characters from `i`. */
  predicate Spaces(s: string, i: nat, k: nat) {
    i + k <= |s| && forall j {:trigger IsSpace(s[j])} :: i <= j < i + k ==> IsSpace(s[j])
  }

  predicate IsWord(w: string) {
    forall j {:trigger IsWordChar(w[j])} :: 0 <= j < |w| ==> IsWordChar(w[j])
  }

  predicate IsDigits(d: string) {
    forall j {:trigger IsDigit(d[j])} :: 0 <= j < |d| ==> IsDigit(d[j])
  }

  predicate NotQuote(c: char) {
    c != '"'
  }

  predicate QuoteFree(v: string) {
    forall j :: 0 <= j < |v| ==> v[j] != '"'
  }

  predicate NotCloseParen(c: char) {
    c != ')'
  }

  lemma DigitIsNotSpace(c: char)
    requires IsDigit(c)
    ensures !IsSpace(c)
  {
  }

  /** A character of an occurrence is the character of the word. */
  lemma CharOf(q: string, w: string, i: nat, j: nat)
    requires OccursAt(q, w, i) && j < |w|
    ensures q[i + j] == w[j]
  {
  }

  /** An occurrence of a word of class `P` is a stretch of class `P`. */
  lemma ClassOfOccurrence(q: string, w: string, i: nat, P: char -> bool)
    requires OccursAt(q, w, i) && forall j :: 0 <= j < |w| ==> P(w[j])
    ensures forall j :: i <= j < i + |w| ==> P(q[j])
  {
    forall j | i <= j < i + |w|
      ensures P(q[j])
    {
      CharOf(q, w, i, j - i);
    }
  }

  // --------------------------------------------------------- leftmost

  /** The first position from `p` on where `at` matches, with its capture. */
  function Leftmost<T>(q: string, p: nat, at: (string, nat) -> Option<T>): (r: Option<(nat, T)>)
    ensures r.Some? ==> p <= r.value.0 <= |q| && at(q, r.value.0) == Some(r.value.1)
    ensures forall i :: p <= i <= |q| && (r.None? || i < r.value.0) ==> at(q, i).None?
    decreases |q| + 1 - p
  {
    if p > |q| then None
    else match at(q, p)
      case Some(v) => Some((p, v))
      case None => Leftmost(q, p + 1, at)
  }

  /** `q.match(re)`'s capture, where `at` is `re` tried at one position. */
  function FirstCapture<T>(q: string, at: (string, nat) -> Option<T>): (r: Option<T>)
    ensures r.Some? ==> exists p :: 0 <= p <= |q| && at(q, p) == r
    ensures r.None? ==> forall p :: 0 <= p <= |q| ==> at(q, p).None?
  {
    match Leftmost(q, 0, at)
    case None => None
    case Some((_, v)) => Some(v)
  }

  /** The first match is the one reported. */
  lemma FirstCaptureAt<T>(q: string, at: (string, nat) -> Option<T>, p: nat, v: T)
    requires p <= |q| && at(q, p) == Some(v)
    requires forall i :: 0 <= i < p ==> at(q, i).None?
    ensures FirstCapture(q, at) == Some(v)
  {
    var r := Leftmost(q, 0, at);
    assert r.Some? && r.value.0 == p;
  }

  // ------------------------------------------------ limit\s+(\d+)

  /** The value of a run of decimal digits, as `parseInt` reads it. */
  function DigitsValue(d: string): nat
    requires IsDigits(d)
  {
    if d == [] then 0
    else
      assert IsDigit(d[|d| - 1]);
      10 * DigitsValue(d[..|d| - 1]) + (d[|d| - 1] as int - '0' as int)
  }

  /** The pieces of `limit\s+(\d+)` line up at `p`: `k` spaces, then the
      digits `d`, which no further digit follows (`\d+` is greedy). */
  predicate LimitShape(q: string, p: nat, k: nat, d: string) {
    && OccursAt(q, "limit", p) && k >= 1 && Spaces(q, p + 5, k)
    && d != [] && IsDigits(d) && OccursAt(q, d, p + 5 + k)
    && (p + 5 + k + |d| == |q| || !IsDigit(q[p + 5 + k + |d|]))
  }

  /** `/limit\s+(\d+)/` tried at `p`: the captured digits. */
  function LimitAt(q: string, p: nat): Option<string> {
    if !OccursAt(q, "limit", p) then None
    else
      var k := Run(q, p + 5, IsSpace);
      var d := Run(q, p + 5 + k, IsDigit);
      if k == 0 || d == 0 then None else Some(q[p + 5 + k..p + 5 + k + d])
  }

  lemma LimitAtSound(q: string, p: nat, d: string)
    requires LimitAt(q, p) == Some(d)
    ensures LimitShape(q, p, Run(q, p + 5, IsSpace), d)
  {
    var k := Run(q, p + 5, IsSpace);
    SpaceRun(q, p + 5);
    DigitRun(q, p + 5 + k);
  }

  lemma LimitShapeMatches(q: string, p: nat, k: nat, d: string)
    requires LimitShape(q, p, k, d)
    ensures LimitAt(q, p) == Some(d)
  {
    OccursAtIsSlice(q, d, p + 5 + k);
    CharOf(q, d, p + 5 + k, 0);
    DigitIsNotSpace(d[0]);
    RunIsMaximal(q, p + 5, k, IsSpace);
    ClassOfOccurrence(q, d, p + 5 + k, IsDigit);
    RunIsMaximal(q, p + 5 + k, |d|, IsDigit);
  }

  /** The number after the first `limit`, if the query has one. */
  function Limit(q: string): (r: Option<nat>)
    ensures r.Some? <==> exists p :: 0 <= p <= |q| && LimitAt(q, p).Some?
  {
    match FirstCapture(q, LimitAt)
    case None => None
    case Some(d) =>
      assert IsDigits(d) by {
        var p :| 0 <= p <= |q| && LimitAt(q, p) == Some(d);
        LimitAtSound(q, p, d);
      }
      Some(DigitsValue(d))
  }

  // ----------------------------------- a word ending at a delimiter

  /** `(\w+)lit` lines up at `i` with the word `w`. */
  predicate WordThen(q: string, i: nat, w: string, lit: string) {
    w != [] && IsWord(w) && OccursAt(q, w, i) && OccursAt(q, lit, i + |w|)
  }

  /** `(\w+)lit` tried at `i`: the greedy `\w+` must stop right before `lit`. */
  function WordAt(q: string, i: nat, lit: string): Option<string> {
    var n := Run(q, i, IsWordChar);
    if n == 0 || !OccursAt(q, lit, i + n) then None else Some(q[i..i + n])
  }

  lemma WordAtSound(q: string, i: nat, lit: string, w: string)
    requires WordAt(q, i, lit) == Some(w)
    ensures WordThen(q, i, w, lit)
  {
    WordRun(q, i);
    SliceOccurs(q, i, i + |w|);
  }

  /** When the delimiter starts with a non-word character, the word is the
      one the greedy `\w+` takes. */
  lemma WordThenMatches(q: string, i: nat, w: string, lit: string)
    requires lit != [] && !IsWordChar(lit[0])
    requires WordThen(q, i, w, lit)
    ensures WordAt(q, i, lit) == Some(w)
  {
    OccursAtIsSlice(q, w, i);
    CharOf(q, lit, i + |w|, 0);
    ClassOfOccurrence(q, w, i, IsWordChar);
    RunIsMaximal(q, i, |w|, IsWordChar);
  }

  lemma OccursAtPrefix(q: string, w: string, i: nat, n: nat)
    requires OccursAt(q, w, i) && n <= |w|
    ensures OccursAt(q, w[..n], i)
  {
    assert q[i..i + n] == q[i..i + |w|][..n];
  }

  // ----------------------------------------- match\s+\(n:(\w+)\)

  predicate NodeTypeShape(q: string, p: nat, k: nat, t: string) {
    && OccursAt(q, "match", p) && k >= 1 && Spaces(q, p + 5, k)
    && OccursAt(q, "(n:", p + 5 + k) && WordThen(q, p + 8 + k, t, ")")
  }

  /** `/match\s+\(n:(\w+)\)/` tried at `p`: the node type. */
  function NodeTypeAt(q: string, p: nat): Option<string> {
    if !OccursAt(q, "match", p) then None
    else
      var k := Run(q, p + 5, IsSpace);
      if k == 0 || !OccursAt(q, "(n:", p + 5 + k) then None
      else WordAt(q, p + 8 + k, ")")
  }

  lemma NodeTypeAtSound(q: string, p: nat, t: string)
    requires NodeTypeAt(q, p) == Some(t)
    ensures NodeTypeShape(q, p, Run(q, p + 5, IsSpace), t)
  {
    var k := Run(q, p + 5, IsSpace);
    SpaceRun(q, p + 5);
    WordAtSound(q, p + 8 + k, ")", t);
  }

  lemma NodeTypeShapeMatches(q: string, p: nat, k: nat, t: string)
    requires NodeTypeShape(q, p, k, t)
    ensures NodeTypeAt(q, p) == Some(t)
  {
    CharOf(q, "(n:", p + 5 + k, 0);
    RunIsMaximal(q, p + 5, k, IsSpace);
    WordThenMatches(q, p + 8 + k, t, ")");
  }

  // ------ match\s+\((\w+):(\w+)\)-\[(\w+):(\w+)\]->\((\w+):(\w+)\)

  /** The six captures: source variable and type, relationship variable and
      type, target variable and type. */
  datatype RelPattern = RelPattern(
    sourceVar: string, sourceType: string, relVar: string, relType: string,
    targetVar: string, targetType: string)

  /** `(\w+):(\w+)lit` lines up at `i` with the words `a` and `b`. */
  predicate PairThen(q: string, i: nat, a: string, b: string, lit: string) {
    WordThen(q, i, a, ":") && WordThen(q, i + |a| + 1, b, lit)
  }

  function PairAt(q: string, i: nat, lit: string): Option<(string, string)> {
    match WordAt(q, i, ":")
    case None => None
    case Some(a) =>
      match WordAt(q, i + |a| + 1, lit)
      case None => None
      case Some(b) => Some((a, b))
  }

  lemma PairAtSound(q: string, i: nat, lit: string, a: string, b: string)
    requires PairAt(q, i, lit) == Some((a, b))
    ensures PairThen(q, i, a, b, lit)
  {
    WordAtSound(q, i, ":", a);
    WordAtSound(q, i + |a| + 1, lit, b);
  }

  lemma PairThenMatches(q: string, i: nat, a: string, b: string, lit: string)
    requires lit != [] && !IsWordChar(lit[0])
    requires PairThen(q, i, a, b, lit)
    ensures PairAt(q, i, lit) == Some((a, b))
  {
    WordThenMatches(q, i, a, ":");
    WordThenMatches(q, i + |a| + 1, b, lit);
  }

  /** The six words line up from `i`, in pairs closed by `)-[`, `]->(` and `)`. */
  predicate RelWords(q: string, i: nat, r: RelPattern) {
    var i2 := i + |r.sourceVar| + |r.sourceType| + 4;
    var i3 := i2 + |r.relVar| + |r.relType| + 5;
    && PairThen(q, i, r.sourceVar, r.sourceType, ")-[")
    && PairThen(q, i2, r.relVar, r.relType, "]->(")
    && PairThen(q, i3, r.targetVar, r.targetType, ")")
  }

  predicate RelShape(q: string, p: nat, k: nat, r: RelPattern) {
    && OccursAt(q, "match", p) && k >= 1 && Spaces(q, p + 5, k)
    && OccursAt(q, "(", p + 5 + k) && RelWords(q, p + 6 + k, r)
  }

  function RelWordsAt(q: string, i: nat): Option<RelPattern> {
    match PairAt(q, i, ")-[")
    case None => None
    case Some((sourceVar, sourceType)) =>
      var i2 := i + |sourceVar| + |sourceType| + 4;
      match PairAt(q, i2, "]->(")
      case None => None
      case Some((relVar, relType)) =>
        var i3 := i2 + |relVar| + |relType| + 5;
        match PairAt(q, i3, ")")
        case None => None
        case Some((targetVar, targetType)) => Some(RelPattern(sourceVar, sourceType, relVar, relType, targetVar, targetType))
  }

  /** The three pairs, found in turn, make the pattern. */
  lemma RelWordsOfPairs(q: string, i: nat, a: string, b: string, c: string, d: string, e: string, f: string)
    requires PairAt(q, i, ")-[") == Some((a, b))
    requires PairAt(q, i + |a| + |b| + 4, "]->(") == Some((c, d))
    requires PairAt(q, i + |a| + |b| + 4 + |c| + |d| + 5, ")") == Some((e, f))
    ensures RelWordsAt(q, i) == Some(RelPattern(a, b, c, d, e, f))
  {
  }

  /** The words found from `i` are three pairs found in turn, each of which
      lines up (`PairAtSound`). */
  lemma RelWordsParts(q: string, i: nat, r: RelPattern)
    requires RelWordsAt(q, i) == Some(r)
    ensures PairAt(q, i, ")-[") == Some((r.sourceVar, r.sourceType))
    ensures PairAt(q, i + |r.sourceVar| + |r.sourceType| + 4, "]->(") == Some((r.relVar, r.relType))
    ensures PairAt(q, i + |r.sourceVar| + |r.sourceType| + 4 + |r.relVar| + |r.relType| + 5, ")")
            == Some((r.targetVar, r.targetType))
  {
  }

  /** A word found in lower-case text is lower case. */
  lemma WordAtLowerCase(q: string, i: nat, lit: string, w: string)
    requires IsLowerCase(q) && WordAt(q, i, lit) == Some(w)
    ensures IsLowerCase(w)
  {
    var n := Run(q, i, IsWordChar);
    assert w == q[i..i + n];
  }

  /** The relationship type found in lower-case text is lower case. */
  lemma RelTypeLowerCase(q: string, i: nat, r: RelPattern)
    requires IsLowerCase(q) && RelWordsAt(q, i) == Some(r)
    ensures IsLowerCase(r.relType)
  {
    var i2 := i + |r.sourceVar| + |r.sourceType| + 4;
    RelWordsParts(q, i, r);
    assert WordAt(q, i2 + |r.relVar| + 1, "]->(") == Some(r.relType);
    WordAtLowerCase(q, i2 + |r.relVar| + 1, "]->(", r.relType);
  }

  /** Each pair lined up is the pair found. */
  lemma PairsMatch(q: string, i: nat, a: string, b: string, c: string, d: string, e: string, f: string)
    requires PairThen(q, i, a, b, ")-[")
    requires PairThen(q, i + |a| + |b| + 4, c, d, "]->(")
    requires PairThen(q, i + |a| + |b| + 4 + |c| + |d| + 5, e, f, ")")
    ensures PairAt(q, i, ")-[") == Some((a, b))
    ensures PairAt(q, i + |a| + |b| + 4, "]->(") == Some((c, d))
    ensures PairAt(q, i + |a| + |b| + 4 + |c| + |d| + 5, ")") == Some((e, f))
  {
    PairThenMatches(q, i, a, b, ")-[");
    PairThenMatches(q, i + |a| + |b| + 4, c, d, "]->(");
    PairThenMatches(q, i + |a| + |b| + 4 + |c| + |d| + 5, e, f, ")");
  }

  lemma RelWordsMatch(q: string, i: nat, r: RelPattern)
    requires RelWords(q, i, r)
    ensures RelWordsAt(q, i) == Some(r)
  {
    var RelPattern(a, b, c, d, e, f) := r;
    PairsMatch(q, i, a, b, c, d, e, f);
    RelWordsOfPairs(q, i, a, b, c, d, e, f);
  }

  /** The typed-relationship pattern tried at `p`. */
  function RelPatternAt(q: string, p: nat): Option<RelPattern> {
    if !OccursAt(q, "match", p) then None
    else
      var k := Run(q, p + 5, IsSpace);
      if k == 0 || !OccursAt(q, "(", p + 5 + k) then None
      else RelWordsAt(q, p + 6 + k)
  }

  /** What the pattern found at `p` is made of: `match`, at least one
      space, `(`, then the six words found from there. */
  lemma RelPatternParts(q: string, p: nat, k: nat, r: RelPattern)
    requires RelPatternAt(q, p) == Some(r) && Run(q, p + 5, IsSpace) == k
    ensures OccursAt(q, "match", p) && k >= 1 && OccursAt(q, "(", p + 5 + k)
    ensures RelWordsAt(q, p + 6 + k) == Some(r)
  {
    var w := RelWordsAt(q, p + 6 + k);
    assert RelPatternAt(q, p) == w;
  }

  /** Once `match`, the spaces and `(` line up, the words decide. */
  lemma RelPatternAtWords(q: string, p: nat, k: nat)
    requires OccursAt(q, "match", p) && k >= 1 && Run(q, p + 5, IsSpace) == k && OccursAt(q, "(", p + 5 + k)
    ensures RelPatternAt(q, p) == RelWordsAt(q, p + 6 + k)
  {
    var w := RelWordsAt(q, p + 6 + k);
    assert RelPatternAt(q, p) == w;
  }

  lemma RelPrefixMatches(q: string, p: nat, k: nat, r: RelPattern)
    requires OccursAt(q, "match", p) && k >= 1 && Spaces(q, p + 5, k) && OccursAt(q, "(", p + 5 + k)
    requires RelWordsAt(q, p + 6 + k) == Some(r)
    ensures RelPatternAt(q, p) == Some(r)
  {
    SpacesBefore(q, p + 5, k, "(");
    RelPatternAtWords(q, p, k);
  }

  /** `\s+` followed by a literal that does not start with white space
      takes exactly the spaces before it. */
  lemma SpacesBefore(q: string, i: nat, k: nat, lit: string)
    requires Spaces(q, i, k) && OccursAt(q, lit, i + k) && lit != [] && !IsSpace(lit[0])
    ensures Run(q, i, IsSpace) == k
  {
    CharOf(q, lit, i + k, 0);
    RunIsMaximal(q, i, k, IsSpace);
  }

  lemma RelShapeMatches(q: string, p: nat, k: nat, r: RelPattern)
    requires RelShape(q, p, k, r)
    ensures RelPatternAt(q, p) == Some(r)
  {
    RelWordsMatch(q, p + 6 + k, r);
    RelPrefixMatches(q, p, k, r);
  }

  /** A typed-relationship pattern whose source variable is `n` also
      matches `match\s+\(n:(\w+)\)` at the same place, with the source type. */
  lemma SourceNamedNMatchesNodeType(q: string, p: nat, k: nat, r: RelPattern)
    requires RelShape(q, p, k, r) && r.sourceVar == "n"
    ensures NodeTypeAt(q, p) == Some(r.sourceType)
  {
    var i := p + 6 + k;
    CharOf(q, "(", p + 5 + k, 0);
    CharOf(q, "n", i, 0);
    CharOf(q, ":", i + 1, 0);
    assert q[p + 5 + k..p + 8 + k] == "(n:";
    assert WordThen(q, i + 2, r.sourceType, ")-[");
    OccursAtPrefix(q, ")-[", i + 2 + |r.sourceType|, 1);
    assert ")-["[..1] == ")";
    NodeTypeShapeMatches(q, p, k, r.sourceType);
  }

  // ----- where\s+([^)]+?)(?:\s+return|\s+order|\s+limit|$)

  /** What may follow the condition at `e`: the end of the query, or white
      space then `return`, `order` or `limit` (the white space is a
      maximal run, since none of the three words starts with it). */
  predicate Terminates(q: string, e: nat) {
    e == |q|
    || (var s := Run(q, e, IsSpace);
        s >= 1 && (OccursAt(q, "return", e + s) || OccursAt(q, "order", e + s) || OccursAt(q, "limit", e + s)))
  }

  predicate NoCloseParen(q: string, c: nat, e: nat)
    requires e <= |q|
  {
    forall j :: c <= j < e ==> q[j] != ')'
  }

  /** The WHERE pattern matches at `p` with `k` spaces taken by `\s+` and
      the condition ending at `e`. */
  predicate WhereShape(q: string, p: nat, k: nat, e: nat) {
    && OccursAt(q, "where", p) && k >= 1 && Spaces(q, p + 5, k)
    && p + 5 + k < e <= |q| && NoCloseParen(q, p + 5 + k, e) && Terminates(q, e)
  }

  /** The lazy `[^)]+?` from `c`, having grown to end at `e - 1`: the first
      end at which the rest of the pattern matches. */
  function LazyEnd(q: string, c: nat, e: nat): (r: Option<nat>)
    requires c < e <= |q| + 1 && NoCloseParen(q, c, e - 1)
    ensures r.Some? ==> e <= r.value <= |q| && NoCloseParen(q, c, r.value) && Terminates(q, r.value)
    ensures r.Some? ==> forall x :: e <= x < r.value ==> !Terminates(q, x)
    ensures r.None? ==> forall x :: e <= x <= |q| && NoCloseParen(q, c, x) ==> !Terminates(q, x)
    decreases |q| + 1 - e
  {
    if e > |q| then None
    else if q[e - 1] == ')' then None
    else if Terminates(q, e) then Some(e)
    else LazyEnd(q, c, e + 1)
  }

  /** The greedy `\s+` gives back one space at a time: `k`, then `k - 1`, ... */
  function GreedyWhere(q: string, p: nat, k: nat): (r: Option<(nat, nat)>)
    requires OccursAt(q, "where", p) && Spaces(q, p + 5, k)
    ensures r.Some? ==> r.value.0 <= k && WhereShape(q, p, r.value.0, r.value.1)
    ensures r.Some? ==> forall k': nat, e: nat :: k' <= k && WhereShape(q, p, k', e) ==>
                          k' < r.value.0 || (k' == r.value.0 && r.value.1 <= e)
    ensures r.None? ==> forall k': nat, e: nat :: k' <= k ==> !WhereShape(q, p, k', e)
    decreases k
  {
    if k == 0 then None
    else
      var c := p + 5 + k;
      if c >= |q| then
        GreedyWhere(q, p, k - 1)
      else match LazyEnd(q, c, c + 1)
        case Some(e) => Some((k, e))
        case None => GreedyWhere(q, p, k - 1)
  }

  /** `/where\s+([^)]+?)(?:\s+return|\s+order|\s+limit|$)/` tried at `p`:
      the spaces taken and the end of the condition. */
  function WhereAt(q: string, p: nat): (r: Option<(nat, nat)>)
    ensures r.Some? ==> WhereShape(q, p, r.value.0, r.value.1)
    ensures r.Some? ==> forall k': nat, e: nat :: WhereShape(q, p, k', e) ==>
                          k' < r.value.0 || (k' == r.value.0 && r.value.1 <= e)
    ensures r.None? ==> forall k': nat, e: nat :: !WhereShape(q, p, k', e)
  {
    if !OccursAt(q, "where", p) then None
    else
      var k := Run(q, p + 5, IsSpace);
      SpaceRun(q, p + 5);
      WiderIsNotSpaces(q, p + 5, k);
      GreedyWhere(q, p, k)
  }

  /** `\s+` cannot take more than the run of spaces. */
  lemma WiderIsNotSpaces(q: string, i: nat, k: nat)
    requires k == Run(q, i, IsSpace)
    ensures forall k' :: k' > k ==> !Spaces(q, i, k')
  {
    if i <= |q| {
      SpaceRun(q, i);
    }
  }

  /** The WHERE condition of the query, if the pattern matches. */
  function WhereCondition(q: string): (r: Option<string>)
    ensures r.Some? ==> exists p: nat, k: nat, e: nat :: WhereShape(q, p, k, e) && r.value == q[p + 5 + k..e]
  {
    match Leftmost(q, 0, WhereAt)
    case None => None
    case Some((p, m)) => Some(q[p + 5 + m.0..m.1])
  }

  // ----------------------------------------------- quoted comparisons

  /** `"([^"]+)"` lines up at `i` around `v`. */
  predicate QuotedShape(c: string, i: nat, v: string) {
    && OccursAt(c, "\"", i) && v != [] && OccursAt(c, v, i + 1)
    && QuoteFree(v) && OccursAt(c, "\"", i + 1 + |v|)
  }

  function QuotedAt(c: string, i: nat): Option<string> {
    if !OccursAt(c, "\"", i) then None
    else
      var v := Run(c, i + 1, NotQuote);
      if v == 0 || !OccursAt(c, "\"", i + 1 + v) then None else Some(c[i + 1..i + 1 + v])
  }

  lemma QuotedAtSound(c: string, i: nat, v: string)
    requires QuotedAt(c, i) == Some(v)
    ensures QuotedShape(c, i, v)
  {
    var n := Run(c, i + 1, NotQuote);
    assert v == c[i + 1..i + 1 + n];
    QuoteFreeRun(c, i + 1);
  }

  lemma QuotedShapeMatches(c: string, i: nat, v: string)
    requires QuotedShape(c, i, v)
    ensures QuotedAt(c, i) == Some(v)
  {
    CharOf(c, "\"", i + 1 + |v|, 0);
    OccursAtIsSlice(c, v, i + 1);
    RunIsMaximal(c, i + 1, |v|, NotQuote);
  }

  /** `key\s*op\s*"(v)"` (or with `\s+` when `minSpaces` is 1) lines up at `p`. */
  predicate ComparisonShape(c: string, p: nat, key: string, op: string, minSpaces: nat, k1: nat, k2: nat, v: string) {
    && OccursAt(c, key, p) && k1 >= minSpaces && Spaces(c, p + |key|, k1)
    && OccursAt(c, op, p + |key| + k1) && k2 >= minSpaces && Spaces(c, p + |key| + k1 + |op|, k2)
    && QuotedShape(c, p + |key| + k1 + |op| + k2, v)
  }

  function ComparisonAt(c: string, p: nat, key: string, op: string, minSpaces: nat): Option<string> {
    if !OccursAt(c, key, p) then None
    else
      var k1 := Run(c, p + |key|, IsSpace);
      var i := p + |key| + k1;
      if k1 < minSpaces || !OccursAt(c, op, i) then None
      else
        var k2 := Run(c, i + |op|, IsSpace);
        if k2 < minSpaces then None
        else QuotedAt(c, i + |op| + k2)
  }

  /** A comparison found lines up, with `\s*` (or `\s+`) taking the whole runs of spaces. */
  lemma ComparisonAtSound(c: string, p: nat, key: string, op: string, minSpaces: nat, v: string)
    requires ComparisonAt(c, p, key, op, minSpaces) == Some(v)
    ensures var k1 := Run(c, p + |key|, IsSpace);
            ComparisonShape(c, p, key, op, minSpaces, k1, Run(c, p + |key| + k1 + |op|, IsSpace), v)
  {
    var k1 := Run(c, p + |key|, IsSpace);
    var k2 := Run(c, p + |key| + k1 + |op|, IsSpace);
    ComparisonParts(c, p, key, op, minSpaces, v);
    ComparisonOfParts(c, p, key, op, minSpaces, k1, k2, v);
  }

  lemma ComparisonOfParts(c: string, p: nat, key: string, op: string, minSpaces: nat, k1: nat, k2: nat, v: string)
    requires OccursAt(c, key, p) && k1 >= minSpaces && Run(c, p + |key|, IsSpace) == k1
    requires OccursAt(c, op, p + |key| + k1) && k2 >= minSpaces && Run(c, p + |key| + k1 + |op|, IsSpace) == k2
    requires QuotedAt(c, p + |key| + k1 + |op| + k2) == Some(v)
    ensures ComparisonShape(c, p, key, op, minSpaces, k1, k2, v)
  {
    QuotedAtSound(c, p + |key| + k1 + |op| + k2, v);
    SpaceRun(c, p + |key|);
    SpaceRun(c, p + |key| + k1 + |op|);
  }

  /** What a comparison found is made of, piece by piece. */
  lemma ComparisonParts(c: string, p: nat, key: string, op: string, minSpaces: nat, v: string)
    requires ComparisonAt(c, p, key, op, minSpaces) == Some(v)
    ensures var k1 := Run(c, p + |key|, IsSpace);
            && OccursAt(c, key, p) && k1 >= minSpaces && OccursAt(c, op, p + |key| + k1)
            && Run(c, p + |key| + k1 + |op|, IsSpace) >= minSpaces
            && QuotedAt(c, p + |key| + k1 + |op| + Run(c, p + |key| + k1 + |op|, IsSpace)) == Some(v)
  {
  }

  /** Once the key, the operator and the spaces line up, the quoted value decides. */
  lemma ComparisonPrefix(c: string, p: nat, key: string, op: string, minSpaces: nat, k1: nat, k2: nat)
    requires OccursAt(c, key, p) && Run(c, p + |key|, IsSpace) == k1 && k1 >= minSpaces
    requires OccursAt(c, op, p + |key| + k1) && Run(c, p + |key| + k1 + |op|, IsSpace) == k2 && k2 >= minSpaces
    ensures ComparisonAt(c, p, key, op, minSpaces) == QuotedAt(c, p + |key| + k1 + |op| + k2)
  {
  }

  lemma ComparisonShapeMatches(c: string, p: nat, key: string, op: string, minSpaces: nat, k1: nat, k2: nat, v: string)
    requires op != [] && !IsSpace(op[0])
    requires ComparisonShape(c, p, key, op, minSpaces, k1, k2, v)
    ensures ComparisonAt(c, p, key, op, minSpaces) == Some(v)
  {
    QuotedShapeMatches(c, p + |key| + k1 + |op| + k2, v);
    ComparisonSpacesMatch(c, p, key, op, minSpaces, k1, k2, v);
  }

  lemma ComparisonSpacesMatch(c: string, p: nat, key: string, op: string, minSpaces: nat, k1: nat, k2: nat, v: string)
    requires op != [] && !IsSpace(op[0])
    requires OccursAt(c, key, p) && k1 >= minSpaces && Spaces(c, p + |key|, k1)
    requires OccursAt(c, op, p + |key| + k1) && k2 >= minSpaces && Spaces(c, p + |key| + k1 + |op|, k2)
    requires OccursAt(c, "\"", p + |key| + k1 + |op| + k2)
    requires QuotedAt(c, p + |key| + k1 + |op| + k2) == Some(v)
    ensures ComparisonAt(c, p, key, op, minSpaces) == Some(v)
  {
    SpacesBefore(c, p + |key|, k1, op);
    SpacesBefore(c, p + |key| + k1 + |op|, k2, "\"");
    ComparisonPrefix(c, p, key, op, minSpaces, k1, k2);
  }

  /** `/n\.type\s*=\s*"([^"]+)"/` at `p` */
  function TypeConditionAt(c: string, p: nat): Option<string> {
    ComparisonAt(c, p, "n.type", "=", 0)
  }

  /** `/n\.label\s+contains\s+"([^"]+)"/i` at `p`; the text is already lower case. */
  function ContainsConditionAt(c: string, p: nat): Option<string> {
    ComparisonAt(c, p, "n.label", "contains", 1)
  }

  /** `/r\.relationship\s*=\s*"([^"]+)"/` at `p` */
  function RelationshipConditionAt(c: string, p: nat): Option<string> {
    ComparisonAt(c, p, "r.relationship", "=", 0)
  }

  // ------------------------ n\.properties\.weight\s*>\s*(\d+(?:\.\d+)?)

  /** A decimal literal: `whole` digits, then `.` and `fraction` when the
      fraction is not empty. */
  datatype Decimal = Decimal(whole: string, fraction: string)

  function Pow10(n: nat): (r: nat)
    ensures r >= 1
  {
    if n == 0 then 1 else 10 * Pow10(n - 1)
  }

  /** `parseFloat` of the literal, exactly. */
  function DecimalValue(d: Decimal): real
    requires IsDigits(d.whole) && IsDigits(d.fraction)
  {
    DigitsValue(d.whole) as real + DigitsValue(d.fraction) as real / Pow10(|d.fraction|) as real
  }

  /** The number pattern lines up at `i`: maximal whole digits, then either
      `.` and maximal fraction digits, or no `.`-digit pair at all (the
      optional group is greedy). */
  predicate NumberShape(c: string, i: nat, d: Decimal) {
    && d.whole != [] && IsDigits(d.whole) && OccursAt(c, d.whole, i)
    && var j := i + |d.whole|;
       && (j == |c| || !IsDigit(c[j]))
       && if d.fraction != [] then
            && IsDigits(d.fraction) && OccursAt(c, ".", j) && OccursAt(c, d.fraction, j + 1)
            && (j + 1 + |d.fraction| == |c| || !IsDigit(c[j + 1 + |d.fraction|]))
          else !(OccursAt(c, ".", j) && j + 1 < |c| && IsDigit(c[j + 1]))
  }

  function NumberAt(c: string, i: nat): Option<Decimal> {
    var w := Run(c, i, IsDigit);
    if w == 0 then None
    else
      var j := i + w;
      var f := Run(c, j + 1, IsDigit);
      if OccursAt(c, ".", j) && f >= 1 then Some(Decimal(c[i..j], c[j + 1..j + 1 + f]))
      else Some(Decimal(c[i..j], []))
  }

  lemma NumberAtSound(c: string, i: nat, d: Decimal)
    requires NumberAt(c, i) == Some(d)
    ensures NumberShape(c, i, d)
  {
    var w := Run(c, i, IsDigit);
    var f := Run(c, i + w + 1, IsDigit);
    NumberParts(c, i, w, f, d);
    NumberOfParts(c, i, w, f, d);
  }

  lemma NumberParts(c: string, i: nat, w: nat, f: nat, d: Decimal)
    requires NumberAt(c, i) == Some(d) && Run(c, i, IsDigit) == w && Run(c, i + w + 1, IsDigit) == f
    ensures w > 0 && d.whole == c[i..i + w]
    ensures if OccursAt(c, ".", i + w) && f >= 1 then d.fraction == c[i + w + 1..i + w + 1 + f] else d.fraction == []
  {
  }

  lemma NumberOfParts(c: string, i: nat, w: nat, f: nat, d: Decimal)
    requires Run(c, i, IsDigit) == w && Run(c, i + w + 1, IsDigit) == f
    requires w > 0 && i + w <= |c| && d.whole == c[i..i + w]
    requires if OccursAt(c, ".", i + w) && f >= 1 then d.fraction == c[i + w + 1..i + w + 1 + f] else d.fraction == []
    ensures NumberShape(c, i, d)
  {
    DigitRun(c, i);
    if i + w + 1 <= |c| {
      DigitRun(c, i + w + 1);
    }
  }

  lemma NumberShapeMatches(c: string, i: nat, d: Decimal)
    requires NumberShape(c, i, d)
    ensures NumberAt(c, i) == Some(d)
  {
    var j := i + |d.whole|;
    OccursAtIsSlice(c, d.whole, i);
    RunIsMaximal(c, i, |d.whole|, IsDigit);
    if d.fraction != [] {
      CharOf(c, ".", j, 0);
      OccursAtIsSlice(c, d.fraction, j + 1);
      RunIsMaximal(c, j + 1, |d.fraction|, IsDigit);
    } else if OccursAt(c, ".", j) {
      assert Run(c, j + 1, IsDigit) == 0;
    }
  }

  predicate WeightShape(c: string, p: nat, k1: nat, k2: nat, d: Decimal) {
    && OccursAt(c, "n.properties.weight", p) && Spaces(c, p + 19, k1)
    && OccursAt(c, ">", p + 19 + k1) && Spaces(c, p + 20 + k1, k2)
    && NumberShape(c, p + 20 + k1 + k2, d)
  }

  /** `/n\.properties\.weight\s*>\s*(\d+(?:\.\d+)?)/` at `p` */
  function WeightConditionAt(c: string, p: nat): Option<Decimal> {
    if !OccursAt(c, "n.properties.weight", p) then None
    else
      var k1 := Run(c, p + 19, IsSpace);
      if !OccursAt(c, ">", p + 19 + k1) then None
      else NumberAt(c, p + 20 + k1 + Run(c, p + 20 + k1, IsSpace))
  }

  lemma WeightConditionAtSound(c: string, p: nat, d: Decimal)
    requires WeightConditionAt(c, p) == Some(d)
    ensures WeightShape(c, p, Run(c, p + 19, IsSpace), Run(c, p + 20 + Run(c, p + 19, IsSpace), IsSpace), d)
  {
    var k1 := Run(c, p + 19, IsSpace);
    var k2 := Run(c, p + 20 + k1, IsSpace);
    WeightParts(c, p, k1, k2, d);
    WeightOfParts(c, p, k1, k2, d);
  }

  lemma WeightParts(c: string, p: nat, k1: nat, k2: nat, d: Decimal)
    requires WeightConditionAt(c, p) == Some(d)
    requires Run(c, p + 19, IsSpace) == k1 && Run(c, p + 20 + k1, IsSpace) == k2
    ensures OccursAt(c, "n.properties.weight", p) && OccursAt(c, ">", p + 19 + k1)
    ensures NumberAt(c, p + 20 + k1 + k2) == Some(d)
  {
  }

  lemma WeightOfParts(c: string, p: nat, k1: nat, k2: nat, d: Decimal)
    requires OccursAt(c, "n.properties.weight", p) && Run(c, p + 19, IsSpace) == k1
    requires OccursAt(c, ">", p + 19 + k1) && Run(c, p + 20 + k1, IsSpace) == k2
    requires NumberAt(c, p + 20 + k1 + k2) == Some(d)
    ensures WeightShape(c, p, k1, k2, d)
  {
    SpaceRun(c, p + 19);
    SpaceRun(c, p + 20 + k1);
    NumberAtSound(c, p + 20 + k1 + k2, d);
  }

  lemma WeightPrefix(c: string, p: nat, k1: nat, k2: nat)
    requires OccursAt(c, "n.properties.weight", p) && Run(c, p + 19, IsSpace) == k1
    requires OccursAt(c, ">", p + 19 + k1) && Run(c, p + 20 + k1, IsSpace) == k2
    ensures WeightConditionAt(c, p) == NumberAt(c, p + 20 + k1 + k2)
  {
  }

  lemma WeightShapeMatches(c: string, p: nat, k1: nat, k2: nat, d: Decimal)
    requires WeightShape(c, p, k1, k2, d)
    ensures WeightConditionAt(c, p) == Some(d)
  {
    WeightRuns(c, p, k1, k2, d);
    WeightPrefix(c, p, k1, k2);
  }

  /** In a lined-up weight condition the runs of spaces are the ones
      `\s*` takes, and the number is the one the number pattern finds. */
  lemma WeightRuns(c: string, p: nat, k1: nat, k2: nat, d: Decimal)
    requires WeightShape(c, p, k1, k2, d)
    ensures Run(c, p + 19, IsSpace) == k1 && Run(c, p + 20 + k1, IsSpace) == k2
    ensures NumberAt(c, p + 20 + k1 + k2) == Some(d)
  {
    var i := p + 20 + k1 + k2;
    SpacesBefore(c, p + 19, k1, ">");
    CharOf(c, d.whole, i, 0);
    DigitIsNotSpace(c[i]);
    RunIsMaximal(c, p + 20 + k1, k2, IsSpace);
    NumberShapeMatches(c, i, d);
  }
}
