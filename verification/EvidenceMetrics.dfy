/** Evidence metrics over ranked retrieval results, and the per-case outcomes beside them. */
module EvidenceMetrics {
  import opened Sequences
  import opened Numerals
  import opened Tokens
  import opened StableSort
  import opened SortedNames
  import Percentiles

  datatype LongMemory = LongMemory(id: string, text: string, namespace: string)

  datatype EvidenceQuery = EvidenceQuery(
    id: string,
    namespace: string,
    expected: seq<string>,
    forbidden: seq<string>,
    category: string)

  type Rankings = map<string, seq<string>>

  function Elements<T>(s: seq<T>): set<T> {
    set x | x in s
  }

  /** Python's `s[:k]`, where a negative `k` counts from the end. */
  function Slice<T>(s: seq<T>, k: int): seq<T> {
    if k >= |s| then s
    else if k >= 0 then s[..k]
    else if |s| + k >= 0 then s[..|s| + k]
    else []
  }

  /** `rankings.get(id, [])[:top_k]`. */
  function TopFor(rankings: Rankings, id: string, k: int): seq<string> {
    Slice(if id in rankings then rankings[id] else [], k)
  }

  function Top(rankings: Rankings, q: EvidenceQuery, k: int): seq<string> {
    TopFor(rankings, q.id, k)
  }

  function OneOf(ids: seq<string>): string -> bool {
    x => x in ids
  }

  function Hits(ranked: seq<string>, ids: seq<string>): seq<string> {
    Filter(OneOf(ids), ranked)
  }

  // ----- What one query contributes

  function Recall(ranked: seq<string>, q: EvidenceQuery): real
    requires q.expected != []
  {
    ElementsNonEmpty(q.expected);
    |Hits(ranked, q.expected)| as real / |Elements(q.expected)| as real
  }

  function Precision(ranked: seq<string>, q: EvidenceQuery): real {
    |Hits(ranked, q.expected)| as real / Max(1, |ranked|) as real
  }

  function PrecisionAt1(ranked: seq<string>, q: EvidenceQuery): real {
    if ranked != [] && ranked[0] in q.expected then 1.0 else 0.0
  }

  /** Reciprocal of the one-based rank of the first expected item, counted from `rank`. */
  function ReciprocalFrom(ranked: seq<string>, expected: seq<string>, rank: nat): real
    requires rank > 0
  {
    if ranked == [] then 0.0
    else if ranked[0] in expected then 1.0 / rank as real
    else ReciprocalFrom(ranked[1..], expected, rank + 1)
  }

  ghost predicate Contains(ranked: seq<string>, ids: seq<string>) {
    exists i :: 0 <= i < |ranked| && ranked[i] in ids
  }

  /** A query succeeds when it retrieves what it expects, if it expects anything, and nothing forbidden. */
  ghost predicate Succeeds(ranked: seq<string>, q: EvidenceQuery) {
    && (q.expected != [] ==> Contains(ranked, q.expected))
    && !Contains(ranked, q.forbidden)
  }

  ghost function Indicator(b: bool): real {
    if b then 1.0 else 0.0
  }

  lemma ElementsNonEmpty<T>(s: seq<T>)
    requires s != []
    ensures |Elements(s)| > 0
  {
    assert s[0] in Elements(s);
  }

  lemma HitsContain(ranked: seq<string>, ids: seq<string>)
    ensures Hits(ranked, ids) != [] <==> Contains(ranked, ids)
  {
    if Hits(ranked, ids) != [] {
      FilterIn(OneOf(ids), ranked, Hits(ranked, ids)[0]);
    }
    if Contains(ranked, ids) {
      var i :| 0 <= i < |ranked| && ranked[i] in ids;
      FilterIn(OneOf(ids), ranked, ranked[i]);
    }
  }

  // ----- The columns that are averaged

  function CategoryOf(q: EvidenceQuery): string {
    q.category
  }

  function ExpectsSome(): EvidenceQuery -> bool {
    (q: EvidenceQuery) => q.expected != []
  }

  function ForbidsSome(): EvidenceQuery -> bool {
    (q: EvidenceQuery) => q.forbidden != []
  }

  function RecallAt(rankings: Rankings, k: int): EvidenceQuery -> real {
    (q: EvidenceQuery) => if q.expected == [] then 0.0 else Recall(Top(rankings, q, k), q)
  }

  function PrecisionAt(rankings: Rankings, k: int): EvidenceQuery -> real {
    (q: EvidenceQuery) => Precision(Top(rankings, q, k), q)
  }

  function FirstAt(rankings: Rankings, k: int): EvidenceQuery -> real {
    (q: EvidenceQuery) => PrecisionAt1(Top(rankings, q, k), q)
  }

  function ReciprocalAt(rankings: Rankings, k: int): EvidenceQuery -> real {
    (q: EvidenceQuery) => ReciprocalFrom(Top(rankings, q, k), q.expected, 1)
  }

  ghost function HitAt(rankings: Rankings, k: int): EvidenceQuery -> real {
    (q: EvidenceQuery) => Indicator(Contains(Top(rankings, q, k), q.expected))
  }

  ghost function SuppressedAt(rankings: Rankings, k: int): EvidenceQuery -> real {
    (q: EvidenceQuery) => Indicator(!Contains(Top(rankings, q, k), q.forbidden))
  }

  ghost function SuccessAt(rankings: Rankings, k: int): EvidenceQuery -> real {
    (q: EvidenceQuery) => Indicator(Succeeds(Top(rankings, q, k), q))
  }

  ghost function MeanOver(queries: seq<EvidenceQuery>, who: EvidenceQuery -> bool, f: EvidenceQuery -> real,
        empty: real): real {
    MeanOr(Map(f, Filter(who, queries)), empty)
  }

  ghost function RecallRate(queries: seq<EvidenceQuery>, rankings: Rankings, k: int): real {
    MeanOver(queries, ExpectsSome(), RecallAt(rankings, k), 0.0)
  }

  ghost function PrecisionRate(queries: seq<EvidenceQuery>, rankings: Rankings, k: int): real {
    MeanOver(queries, ExpectsSome(), PrecisionAt(rankings, k), 0.0)
  }

  ghost function ReciprocalRate(queries: seq<EvidenceQuery>, rankings: Rankings, k: int): real {
    MeanOver(queries, ExpectsSome(), ReciprocalAt(rankings, k), 0.0)
  }

  ghost function FirstRate(queries: seq<EvidenceQuery>, rankings: Rankings, k: int): real {
    MeanOver(queries, ExpectsSome(), FirstAt(rankings, k), 0.0)
  }

  ghost function HitRate(queries: seq<EvidenceQuery>, rankings: Rankings, k: int): real {
    MeanOver(queries, ExpectsSome(), HitAt(rankings, k), 0.0)
  }

  ghost function SuppressionRate(queries: seq<EvidenceQuery>, rankings: Rankings, k: int): real {
    MeanOver(queries, ForbidsSome(), SuppressedAt(rankings, k), 1.0)
  }

  datatype Outcome = Outcome(
    queryId: string,
    namespace: string,
    category: string,
    successRate: real,
    returned: seq<string>,
    expectedHits: seq<string>,
    forbiddenHits: seq<string>)

  datatype Metrics = Metrics(
    recall: real,
    precision: real,
    mrr: real,
    precisionAt1: real,
    staleSuppression: real,
    categorySuccess: Dict<string, real>,
    contextTokens: nat,
    contextSaved: real,
    avgLatency: real,
    p50Latency: real,
    p95Latency: real,
    p99Latency: real,
    queries: nat,
    caseOutcomes: seq<Outcome>)

  ghost predicate OutcomeOf(o: Outcome, q: EvidenceQuery, rankings: Rankings, k: int) {
    && o.queryId == q.id && o.namespace == q.namespace && o.category == q.category
    && o.returned == Top(rankings, q, k)
    && o.expectedHits == Hits(o.returned, q.expected)
    && o.forbiddenHits == Hits(o.returned, q.forbidden)
    && o.successRate == SuccessAt(rankings, k)(q)
  }

  /** One outcome per query, in order. */
  ghost predicate OutcomesOf(outcomes: seq<Outcome>, queries: seq<EvidenceQuery>, rankings: Rankings, k: int) {
    && |outcomes| == |queries|
    && forall i :: 0 <= i < |queries| ==> OutcomeOf(outcomes[i], queries[i], rankings, k)
  }

  method CaseOutcome(q: EvidenceQuery, rankings: Rankings, k: int) returns (o: Outcome)
    ensures OutcomeOf(o, q, rankings, k)
  {
    var ranked := Top(rankings, q, k);
    var expectedHits, forbiddenHits := Hits(ranked, q.expected), Hits(ranked, q.forbidden);
    HitsContain(ranked, q.expected);
    HitsContain(ranked, q.forbidden);
    var success := if q.expected != [] then expectedHits != [] else forbiddenHits == [];
    success := success && forbiddenHits == [];
    o := Outcome(q.id, q.namespace, q.category, if success then 1.0 else 0.0, ranked, expectedHits, forbiddenHits);
  }

  /** `evidence_case_outcomes`. */
  method EvidenceCaseOutcomes(queries: seq<EvidenceQuery>, rankings: Rankings, k: int) returns (outcomes: seq<Outcome>)
    ensures OutcomesOf(outcomes, queries, rankings, k)
  {
    outcomes := [];
    for n := 0 to |queries|
      invariant |outcomes| == n
      invariant forall i :: 0 <= i < n ==> OutcomeOf(outcomes[i], queries[i], rankings, k)
    {
      var outcome := CaseOutcome(queries[n], rankings, k);
      outcomes := outcomes + [outcome];
    }
  }

  datatype Columns = Columns(
    recalls: seq<real>,
    precisions: seq<real>,
    reciprocals: seq<real>,
    firsts: seq<real>,
    suppressions: seq<real>)

  ghost predicate ColumnsOf(c: Columns, queries: seq<EvidenceQuery>, rankings: Rankings, k: int) {
    && c.recalls == Map(RecallAt(rankings, k), Filter(ExpectsSome(), queries))
    && c.precisions == Map(PrecisionAt(rankings, k), Filter(ExpectsSome(), queries))
    && c.reciprocals == Map(ReciprocalAt(rankings, k), Filter(ExpectsSome(), queries))
    && c.firsts == Map(FirstAt(rankings, k), Filter(ExpectsSome(), queries))
    && c.suppressions == Map(SuppressedAt(rankings, k), Filter(ForbidsSome(), queries))
  }

  /** The first expected item stands at position `i`. */
  ghost predicate FirstHit(ranked: seq<string>, expected: seq<string>, i: nat) {
    i < |ranked| && ranked[i] in expected && forall j :: 0 <= j < i ==> ranked[j] !in expected
  }

  lemma {:induction false} ReciprocalExactly(ranked: seq<string>, expected: seq<string>, rank: nat, i: nat)
    requires rank > 0 && FirstHit(ranked, expected, i)
    ensures ReciprocalFrom(ranked, expected, rank) == 1.0 / (rank + i) as real
    decreases i
  {
    if i > 0 {
      ReciprocalExactly(ranked[1..], expected, rank + 1, i - 1);
    }
  }

  lemma {:induction false} ReciprocalOfNone(ranked: seq<string>, expected: seq<string>, rank: nat)
    requires rank > 0 && !Contains(ranked, expected)
    ensures ReciprocalFrom(ranked, expected, rank) == 0.0
    decreases |ranked|
  {
    if ranked != [] {
      assert ranked[0] !in expected;
      ReciprocalOfNone(ranked[1..], expected, rank + 1);
    }
  }

  lemma ReciprocalIsInverseRank(ranked: seq<string>, expected: seq<string>)
    ensures forall i: nat :: FirstHit(ranked, expected, i) ==>
              ReciprocalFrom(ranked, expected, 1) == 1.0 / (i + 1) as real
    ensures !Contains(ranked, expected) ==> ReciprocalFrom(ranked, expected, 1) == 0.0
  {
    forall i: nat | FirstHit(ranked, expected, i)
      ensures ReciprocalFrom(ranked, expected, 1) == 1.0 / (i + 1) as real
    {
      ReciprocalExactly(ranked, expected, 1, i);
    }
    if !Contains(ranked, expected) {
      ReciprocalOfNone(ranked, expected, 1);
    }
  }

  /** The ranking loop with its early exit: one over the one-based position of the first expected item. */
  method FirstReciprocal(ranked: seq<string>, expected: seq<string>) returns (reciprocal: real)
    ensures forall i: nat :: FirstHit(ranked, expected, i) ==> reciprocal == 1.0 / (i + 1) as real
    ensures !Contains(ranked, expected) ==> reciprocal == 0.0
    ensures reciprocal == ReciprocalFrom(ranked, expected, 1)
  {
    reciprocal := 0.0;
    ReciprocalIsInverseRank(ranked, expected);
    for n := 0 to |ranked|
      invariant reciprocal == 0.0
      invariant ReciprocalFrom(ranked, expected, 1) == ReciprocalFrom(ranked[n..], expected, n + 1)
    {
      if ranked[n] in expected {
        return 1.0 / (n + 1) as real;
      }
    }
  }

  /** What one query adds to the averaged lists, and whether it succeeded. */
  method AddQuery(c: Columns, q: EvidenceQuery, ghost before: seq<EvidenceQuery>, rankings: Rankings, k: int)
    returns (r: Columns, success: real)
    requires ColumnsOf(c, before, rankings, k)
    ensures ColumnsOf(r, before + [q], rankings, k)
    ensures success == SuccessAt(rankings, k)(q)
  {
    var ranked := Top(rankings, q, k);
    var expectedHits, forbiddenHits := Hits(ranked, q.expected), Hits(ranked, q.forbidden);
    HitsContain(ranked, q.expected);
    HitsContain(ranked, q.forbidden);
    MapFilterSnoc(RecallAt(rankings, k), ExpectsSome(), before, q);
    MapFilterSnoc(PrecisionAt(rankings, k), ExpectsSome(), before, q);
    MapFilterSnoc(ReciprocalAt(rankings, k), ExpectsSome(), before, q);
    MapFilterSnoc(FirstAt(rankings, k), ExpectsSome(), before, q);
    MapFilterSnoc(SuppressedAt(rankings, k), ForbidsSome(), before, q);
    r := c;
    if q.expected != [] {
      ElementsNonEmpty(q.expected);
      var reciprocal := FirstReciprocal(ranked, q.expected);
      r := r.(recalls := r.recalls + [|expectedHits| as real / |Elements(q.expected)| as real],
              precisions := r.precisions + [|expectedHits| as real / Max(1, |ranked|) as real],
              firsts := r.firsts + [if ranked != [] && ranked[0] in q.expected then 1.0 else 0.0],
              reciprocals := r.reciprocals + [reciprocal]);
      success := if expectedHits != [] && forbiddenHits == [] then 1.0 else 0.0;
    } else {
      success := if forbiddenHits == [] then 1.0 else 0.0;
    }
    if q.forbidden != [] {
      r := r.(suppressions := r.suppressions + [if forbiddenHits == [] then 1.0 else 0.0]);
    }
  }

  method AddToCategory(categories: Dict<string, seq<real>>, q: EvidenceQuery, success: real,
                       ghost before: seq<EvidenceQuery>, ghost rankings: Rankings, ghost k: int)
    returns (r: Dict<string, seq<real>>)
    requires Grouped(categories, CategoryOf, SuccessAt(rankings, k), before)
    requires success == SuccessAt(rankings, k)(q)
    ensures Grouped(r, CategoryOf, SuccessAt(rankings, k), before + [q])
  {
    GroupedSnoc(categories, CategoryOf, SuccessAt(rankings, k), before, q);
    r := AppendAt(categories, q.category, success);
  }

  /** The averaged lists and the category table of some queries. */
  ghost predicate Collected(c: Columns, categories: Dict<string, seq<real>>, queries: seq<EvidenceQuery>,
        rankings: Rankings, k: int) {
    && ColumnsOf(c, queries, rankings, k)
    && Grouped(categories, CategoryOf, SuccessAt(rankings, k), queries)
  }

  /** One turn of the query loop. */
  method CollectNext(c: Columns, categories: Dict<string, seq<real>>, q: EvidenceQuery,
                     ghost before: seq<EvidenceQuery>, rankings: Rankings, k: int)
    returns (c': Columns, categories': Dict<string, seq<real>>)
    requires Collected(c, categories, before, rankings, k)
    ensures Collected(c', categories', before + [q], rankings, k)
  {
    var success;
    c', success := AddQuery(c, q, before, rankings, k);
    categories' := AddToCategory(categories, q, success, before, rankings, k);
  }

  lemma NothingCollected(rankings: Rankings, k: int)
    ensures Collected(Columns([], [], [], [], []), EmptyDict(), [], rankings, k)
  {
  }

  /** The query loop. */
  method CollectColumns(queries: seq<EvidenceQuery>, rankings: Rankings, k: int)
    returns (c: Columns, categories: Dict<string, seq<real>>)
    ensures Collected(c, categories, queries, rankings, k)
  {
    hide Collected;
    c, categories := Columns([], [], [], [], []), EmptyDict();
    NothingCollected(rankings, k);
    for n := 0 to |queries|
      invariant Collected(c, categories, queries[..n], rankings, k)
    {
      c, categories := CollectNext(c, categories, queries[n], queries[..n], rankings, k);
      TakeSnoc(queries, n);
    }
    TakeAll(queries);
  }

  /** Mean success within one category. */
  ghost function CategoryMean(queries: seq<EvidenceQuery>, rankings: Rankings, k: int, category: string): real {
    MeanOver(queries, KeyIs(CategoryOf, category), SuccessAt(rankings, k), 0.0)
  }

  ghost predicate HasCategory(queries: seq<EvidenceQuery>, category: string) {
    exists i :: 0 <= i < |queries| && queries[i].category == category
  }

  ghost predicate CategoryTable(d: Dict<string, real>, queries: seq<EvidenceQuery>, rankings: Rankings, k: int) {
    && d.Valid() && Sorted(NameLeq, d.order)
    && (forall c :: c in d.at <==> HasCategory(queries, c))
    && (forall c :: c in d.at ==> d.at[c] == CategoryMean(queries, rankings, k, c))
  }

  /** The mean of every list, in the alphabetical order of the keys. */
  ghost predicate MeansOf(means: Dict<string, real>, lists: Dict<string, seq<real>>) {
    && means.Valid() && Sorted(NameLeq, means.order)
    && (forall c :: c in means.at <==> c in lists.at)
    && (forall c :: c in means.at ==> means.at[c] == MeanOr(lists.at[c], 0.0))
  }

  method MeansByKey(lists: Dict<string, seq<real>>) returns (means: Dict<string, real>)
    requires lists.Valid()
    ensures MeansOf(means, lists)
  {
    var names := SortNames(lists.order);
    var at: map<string, real> := map[];
    for n := 0 to |names|
      invariant forall c :: c in at <==> c in names[..n]
      invariant forall c :: c in at ==> c in lists.at && at[c] == MeanOr(lists.at[c], 0.0)
    {
      assert names[n] in names;
      TakeSnoc(names, n);
      at := at[names[n] := MeanOr(lists.at[names[n]], 0.0)];
    }
    TakeAll(names);
    means := Dict(names, at);
  }

  lemma MeansAreCategoryTable(lists: Dict<string, seq<real>>, means: Dict<string, real>,
                              queries: seq<EvidenceQuery>, rankings: Rankings, k: int)
    requires Grouped(lists, CategoryOf, SuccessAt(rankings, k), queries)
    requires MeansOf(means, lists)
    ensures CategoryTable(means, queries, rankings, k)
  {
    forall c ensures c in lists.at <==> HasCategory(queries, c) {
      GroupedKeys(lists, CategoryOf, SuccessAt(rankings, k), queries, c);
    }
    forall c | c in means.at ensures means.at[c] == CategoryMean(queries, rankings, k, c) {
      assert lists.at[c] == Map(SuccessAt(rankings, k), Filter(KeyIs(CategoryOf, c), queries));
    }
  }

  function SavedShare(contextTokens: nat, fullTokens: nat): real {
    if fullTokens == 0 then 0.0
    else
      var saved := 1.0 - contextTokens as real / fullTokens as real;
      if saved < 0.0 then 0.0 else saved
  }

  function TextTokens(texts: seq<string>): nat {
    if texts == [] then 0 else EstimateTokens(texts[0]) + TextTokens(texts[1..])
  }

  /** Tokens of the texts returned for the listed queries, each list cut off at `k`. */
  function ContextTokens(ids: seq<string>, texts: map<string, seq<string>>, k: int): nat
    requires forall i :: 0 <= i < |ids| ==> ids[i] in texts
  {
    if ids == [] then 0 else TextTokens(Slice(texts[ids[0]], k)) + ContextTokens(ids[1..], texts, k)
  }

  method CountTextTokens(texts: seq<string>) returns (tokens: nat)
    ensures tokens == TextTokens(texts)
  {
    tokens := 0;
    for n := 0 to |texts|
      invariant tokens + TextTokens(texts[n..]) == TextTokens(texts)
    {
      tokens := tokens + EstimateTokens(texts[n]);
      assert texts[n..][1..] == texts[n + 1..];
    }
  }

  method CountContextTokens(texts: Dict<string, seq<string>>, k: int) returns (tokens: nat)
    requires texts.Valid()
    ensures tokens == ContextTokens(texts.order, texts.at, k)
  {
    tokens := 0;
    for n := 0 to |texts.order|
      invariant tokens + ContextTokens(texts.order[n..], texts.at, k) == ContextTokens(texts.order, texts.at, k)
    {
      var part := CountTextTokens(Slice(texts.at[texts.order[n]], k));
      tokens := tokens + part;
      assert texts.order[n..][1..] == texts.order[n + 1..];
    }
  }

  /** What the metrics of a run say about it, whatever computed them. */
  ghost predicate IsMetricsOf(m: Metrics, queries: seq<EvidenceQuery>, rankings: Rankings,
                              texts: Dict<string, seq<string>>, fullTokens: nat, k: int)
    requires texts.Valid()
  {
    && m.recall == RecallRate(queries, rankings, k)
    && m.precision == PrecisionRate(queries, rankings, k)
    && m.mrr == ReciprocalRate(queries, rankings, k)
    && m.precisionAt1 == FirstRate(queries, rankings, k)
    && m.staleSuppression == SuppressionRate(queries, rankings, k)
    && CategoryTable(m.categorySuccess, queries, rankings, k)
    && m.contextTokens == ContextTokens(texts.order, texts.at, k)
    && m.contextSaved == SavedShare(m.contextTokens, fullTokens)
    && m.queries == |queries|
    && OutcomesOf(m.caseOutcomes, queries, rankings, k)
  }

  /** The latency fields: the mean and three floor-index percentiles. */
  ghost predicate LatenciesOf(m: Metrics, latencies: seq<real>) {
    && m.avgLatency == MeanOr(latencies, 0.0)
    && m.p50Latency == Percentiles.FloorIndex(latencies, 50)
    && m.p95Latency == Percentiles.FloorIndex(latencies, 95)
    && m.p99Latency == Percentiles.FloorIndex(latencies, 99)
  }

  /** `sorted_latencies[min(n - 1, int(n * share))]`, zero for an empty list. */
  method LatencyAt(latencies: seq<real>, share: real, ghost percentile: nat) returns (latency: real)
    requires share == percentile as real / 100.0
    ensures latency == Percentiles.FloorIndex(latencies, percentile)
  {
    var ordered := Percentiles.Ordered(latencies);
    Percentiles.SortKeepsLength(latencies);
    if ordered == [] {
      return 0.0;
    }
    var n := |ordered|;
    FloorIndexByShare(n, share, percentile);
    latency := ordered[Min(n - 1, (n as real * share).Floor)];
  }

  lemma FloorIndexByShare(n: nat, share: real, percentile: nat)
    requires n > 0 && share == percentile as real / 100.0
    ensures Min(n - 1, (n as real * share).Floor) == Percentiles.FloorIndexOf(n, percentile)
  {
    Percentiles.ShareOf(n, percentile);
  }

  /** `compute_evidence_metrics`. */
  method ComputeEvidenceMetrics(queries: seq<EvidenceQuery>, rankings: Rankings, texts: Dict<string, seq<string>>,
                                latencies: seq<real>, fullTokens: nat, k: int)
    returns (m: Metrics)
    requires texts.Valid()
    ensures IsMetricsOf(m, queries, rankings, texts, fullTokens, k)
    ensures LatenciesOf(m, latencies)
  {
    var c, successes := CollectColumns(queries, rankings, k);
    var categories := MeansByKey(successes);
    MeansAreCategoryTable(successes, categories, queries, rankings, k);
    var tokens := CountContextTokens(texts, k);
    var p50 := LatencyAt(latencies, 0.50, 50);
    var p95 := LatencyAt(latencies, 0.95, 95);
    var p99 := LatencyAt(latencies, 0.99, 99);
    var outcomes := EvidenceCaseOutcomes(queries, rankings, k);
    m := Metrics(
      MeanOr(c.recalls, 0.0), MeanOr(c.precisions, 0.0), MeanOr(c.reciprocals, 0.0), MeanOr(c.firsts, 0.0),
      MeanOr(c.suppressions, 1.0), categories, tokens, SavedShare(tokens, fullTokens),
      MeanOr(latencies, 0.0), p50, p95, p99, |queries|, outcomes);
  }

  // ----- How the metrics move with k

  /** A larger cut-off of the same sign only appends to what is looked at. */
  lemma SliceGrows<T>(s: seq<T>, k: int, l: int)
    requires k <= l && (k >= 0 || l < 0)
    ensures Slice(s, k) <= Slice(s, l)
  {
  }

  lemma ReciprocalOfPrefix(a: seq<string>, b: seq<string>, expected: seq<string>, rank: nat)
    requires rank > 0 && a <= b
    ensures ReciprocalFrom(a, expected, rank) <= ReciprocalFrom(b, expected, rank)
    ensures 0.0 <= ReciprocalFrom(a, expected, rank) <= 1.0 / rank as real
    decreases a, b
  {
    if a != [] {
      assert a[1..] <= b[1..];
      ReciprocalOfPrefix(a[1..], b[1..], expected, rank + 1);
      InverseShrinks(rank);
    } else if b != [] {
      ReciprocalOfPrefix(a, b[1..], expected, rank + 1);
    }
  }

  lemma InverseShrinks(n: nat)
    requires n > 0
    ensures 0.0 < 1.0 / (n + 1) as real <= 1.0 / n as real
  {
  }

  lemma HitsOfPrefix(a: seq<string>, b: seq<string>, ids: seq<string>)
    requires a <= b
    ensures |Hits(a, ids)| <= |Hits(b, ids)|
    ensures Contains(a, ids) ==> Contains(b, ids)
  {
    assert b == a + b[|a|..];
    FilterAppend(OneOf(ids), a, b[|a|..]);
  }

  lemma MeanOverMonotone(queries: seq<EvidenceQuery>, who: EvidenceQuery -> bool,
                         f: EvidenceQuery -> real, g: EvidenceQuery -> real, empty: real)
    requires forall q :: who(q) ==> f(q) <= g(q)
    ensures MeanOver(queries, who, f, empty) <= MeanOver(queries, who, g, empty)
  {
    var chosen := Filter(who, queries);
    forall i | 0 <= i < |chosen| ensures Map(f, chosen)[i] <= Map(g, chosen)[i] {
      FilterIn(who, queries, chosen[i]);
    }
    MeanMonotone(Map(f, chosen), Map(g, chosen), empty);
  }

  /** Between cut-offs of the same sign, recall and MRR never fall and stale suppression never rises. */
  lemma MetricsMonotoneInK(queries: seq<EvidenceQuery>, rankings: Rankings, k: int, l: int)
    requires k <= l && (k >= 0 || l < 0)
    ensures RecallRate(queries, rankings, k) <= RecallRate(queries, rankings, l)
    ensures ReciprocalRate(queries, rankings, k) <= ReciprocalRate(queries, rankings, l)
    ensures SuppressionRate(queries, rankings, k) >= SuppressionRate(queries, rankings, l)
  {
    forall q: EvidenceQuery
      ensures q.expected != [] ==> RecallAt(rankings, k)(q) <= RecallAt(rankings, l)(q)
      ensures ReciprocalAt(rankings, k)(q) <= ReciprocalAt(rankings, l)(q)
      ensures SuppressedAt(rankings, l)(q) <= SuppressedAt(rankings, k)(q)
    {
      var a, b := Top(rankings, q, k), Top(rankings, q, l);
      SliceGrows(if q.id in rankings then rankings[q.id] else [], k, l);
      HitsOfPrefix(a, b, q.expected);
      HitsOfPrefix(a, b, q.forbidden);
      ReciprocalOfPrefix(a, b, q.expected, 1);
      if q.expected != [] {
        ElementsNonEmpty(q.expected);
        DivMonotone(|Hits(a, q.expected)| as real, |Hits(b, q.expected)| as real, |Elements(q.expected)|);
      }
    }
    MeanOverMonotone(queries, ExpectsSome(), RecallAt(rankings, k), RecallAt(rankings, l), 0.0);
    MeanOverMonotone(queries, ExpectsSome(), ReciprocalAt(rankings, k), ReciprocalAt(rankings, l), 0.0);
    MeanOverMonotone(queries, ForbidsSome(), SuppressedAt(rankings, l), SuppressedAt(rankings, k), 1.0);
  }

  /** A query for the one id that stands between the two cut-offs. */
  const HIT_QUERY := EvidenceQuery("q", "n", ["hit"], ["hit"], "c")

  function Misses(n: nat): seq<string> {
    seq(n, _ => "miss")
  }

  /** Longer than `l`, with its only hit right after the first `l` and before the last `-k`. */
  function Straddling(k: int, l: int): Rankings
    requires k < 0 <= l
  {
    map["q" := Misses(l) + ["hit"] + Misses(-k)]
  }

  lemma OnlyTheNegativeCutSees(k: int, l: int)
    requires k < 0 <= l
    ensures Contains(Top(Straddling(k, l), HIT_QUERY, k), ["hit"])
    ensures !Contains(Top(Straddling(k, l), HIT_QUERY, l), ["hit"])
  {
    var ranked := Misses(l) + ["hit"] + Misses(-k);
    assert Slice(ranked, k) == ranked[..l + 1] && ranked[..l + 1][l] == "hit";
    assert Slice(ranked, l) == ranked[..l];
    assert forall i :: 0 <= i < l ==> ranked[..l][i] == "miss";
  }

  lemma MeanOverOne(q: EvidenceQuery, who: EvidenceQuery -> bool, f: EvidenceQuery -> real, empty: real)
    requires who(q)
    ensures MeanOver([q], who, f, empty) == f(q)
  {
    assert [q][1..] == [] && Filter(who, [q]) == [q];
    assert Map(f, [q]) == [f(q)];
    assert Sum([f(q)]) == f(q) + Sum([f(q)][1..]) && [f(q)][1..] == [];
  }

  lemma RatesOfOne(q: EvidenceQuery, rankings: Rankings, k: int)
    requires q.expected != [] && q.forbidden != []
    ensures RecallRate([q], rankings, k) == Recall(Top(rankings, q, k), q)
    ensures ReciprocalRate([q], rankings, k) == ReciprocalFrom(Top(rankings, q, k), q.expected, 1)
    ensures SuppressionRate([q], rankings, k) == Indicator(!Contains(Top(rankings, q, k), q.forbidden))
  {
    MeanOverOne(q, ExpectsSome(), RecallAt(rankings, k), 0.0);
    MeanOverOne(q, ExpectsSome(), ReciprocalAt(rankings, k), 0.0);
    MeanOverOne(q, ForbidsSome(), SuppressedAt(rankings, k), 1.0);
  }

  lemma SeenAndUnseen(seen: seq<string>, unseen: seq<string>, q: EvidenceQuery)
    requires q.expected != [] && Contains(seen, q.expected) && !Contains(unseen, q.expected)
    ensures Recall(seen, q) > 0.0 && Recall(unseen, q) == 0.0
    ensures ReciprocalFrom(seen, q.expected, 1) > 0.0 && ReciprocalFrom(unseen, q.expected, 1) <= 0.0
  {
    HitsContain(seen, q.expected);
    HitsContain(unseen, q.expected);
    ElementsNonEmpty(q.expected);
    ReciprocalPositiveExactlyOnHit(seen, q.expected, 1);
    ReciprocalPositiveExactlyOnHit(unseen, q.expected, 1);
  }

  /** There a larger cut-off of the other sign loses the hit, and all three rates move the wrong way. */
  lemma MixedSignsFail(k: int, l: int)
    requires k < 0 <= l
    ensures RecallRate([HIT_QUERY], Straddling(k, l), k) > RecallRate([HIT_QUERY], Straddling(k, l), l)
    ensures ReciprocalRate([HIT_QUERY], Straddling(k, l), k) > ReciprocalRate([HIT_QUERY], Straddling(k, l), l)
    ensures SuppressionRate([HIT_QUERY], Straddling(k, l), k) < SuppressionRate([HIT_QUERY], Straddling(k, l), l)
  {
    var rankings := Straddling(k, l);
    OnlyTheNegativeCutSees(k, l);
    SeenAndUnseen(Top(rankings, HIT_QUERY, k), Top(rankings, HIT_QUERY, l), HIT_QUERY);
    RatesOfOne(HIT_QUERY, rankings, k);
    RatesOfOne(HIT_QUERY, rankings, l);
  }

  /** The three rates move with k, on all queries and rankings, exactly between cut-offs of the same sign. */
  lemma MonotoneExactly(k: int, l: int)
    requires k <= l
    ensures (forall queries, rankings :: RecallRate(queries, rankings, k) <= RecallRate(queries, rankings, l))
       <==> (k >= 0 || l < 0)
    ensures (forall queries, rankings :: ReciprocalRate(queries, rankings, k) <= ReciprocalRate(queries, rankings, l))
       <==> (k >= 0 || l < 0)
    ensures (forall queries, rankings :: SuppressionRate(queries, rankings, k) >= SuppressionRate(queries, rankings, l))
       <==> (k >= 0 || l < 0)
  {
    if k >= 0 || l < 0 {
      forall queries, rankings
        ensures RecallRate(queries, rankings, k) <= RecallRate(queries, rankings, l)
        ensures ReciprocalRate(queries, rankings, k) <= ReciprocalRate(queries, rankings, l)
        ensures SuppressionRate(queries, rankings, k) >= SuppressionRate(queries, rankings, l)
      {
        MetricsMonotoneInK(queries, rankings, k, l);
      }
    } else {
      MixedSignsFail(k, l);
    }
  }

  /** Precision at one looks only at the first item, so every positive k gives the same value. */
  lemma PrecisionAt1IgnoresK(queries: seq<EvidenceQuery>, rankings: Rankings, k: int, l: int)
    requires k >= 1 && l >= 1
    ensures FirstRate(queries, rankings, k) == FirstRate(queries, rankings, l)
  {
    assert forall q :: FirstAt(rankings, k)(q) == FirstAt(rankings, l)(q);
    MeanOverMonotone(queries, ExpectsSome(), FirstAt(rankings, k), FirstAt(rankings, l), 0.0);
    MeanOverMonotone(queries, ExpectsSome(), FirstAt(rankings, l), FirstAt(rankings, k), 0.0);
  }

  lemma ReciprocalPositiveExactlyOnHit(ranked: seq<string>, expected: seq<string>, rank: nat)
    requires rank > 0
    ensures ReciprocalFrom(ranked, expected, rank) > 0.0 <==> Contains(ranked, expected)
    decreases ranked
  {
    if ranked != [] && ranked[0] !in expected {
      ReciprocalPositiveExactlyOnHit(ranked[1..], expected, rank + 1);
      assert Contains(ranked, expected) ==> Contains(ranked[1..], expected) by {
        if i :| 0 <= i < |ranked| && ranked[i] in expected {
          assert ranked[1..][i - 1] in expected;
        }
      }
    }
  }

  /** Precision at one is at most MRR, which is at most the share of evidence queries with a hit. */
  lemma ReciprocalBetweenFirstAndHit(queries: seq<EvidenceQuery>, rankings: Rankings, k: int)
    ensures FirstRate(queries, rankings, k) <= ReciprocalRate(queries, rankings, k) <= HitRate(queries, rankings, k)
  {
    forall q: EvidenceQuery
      ensures FirstAt(rankings, k)(q) <= ReciprocalAt(rankings, k)(q) <= HitAt(rankings, k)(q)
    {
      var a := Top(rankings, q, k);
      ReciprocalPositiveExactlyOnHit(a, q.expected, 1);
      ReciprocalOfPrefix(a, a, q.expected, 1);
    }
    MeanOverMonotone(queries, ExpectsSome(), FirstAt(rankings, k), ReciprocalAt(rankings, k), 0.0);
    MeanOverMonotone(queries, ExpectsSome(), ReciprocalAt(rankings, k), HitAt(rankings, k), 0.0);
  }

  // ----- Rates in [0, 1]

  ghost predicate Distinct(s: seq<string>) {
    forall i, j :: 0 <= i < j < |s| ==> s[i] != s[j]
  }

  lemma SubsetAtMost(a: set<string>, b: set<string>)
    requires a <= b
    ensures |a| <= |b|
  {
    assert b == a + (b - a);
  }

  lemma MeanOverBounds(queries: seq<EvidenceQuery>, who: EvidenceQuery -> bool, f: EvidenceQuery -> real, empty: real)
    requires 0.0 <= empty <= 1.0
    requires forall q :: q in queries && who(q) ==> 0.0 <= f(q) <= 1.0
    ensures 0.0 <= MeanOver(queries, who, f, empty) <= 1.0
  {
    var chosen := Filter(who, queries);
    forall i | 0 <= i < |chosen| ensures 0.0 <= Map(f, chosen)[i] <= 1.0 {
      FilterIn(who, queries, chosen[i]);
    }
    MeanBounds(Map(f, chosen), empty, 0.0, 1.0);
  }

  lemma RatioInUnit(n: nat, d: nat)
    requires n <= d && d > 0
    ensures 0.0 <= n as real / d as real <= 1.0
  {
    DivMonotone(0.0, n as real, d);
    DivMonotone(n as real, d as real, d);
  }

  /** Precision, MRR, precision at one and suppression are always rates; recall is one when no
      ranking repeats an id. */
  lemma RatesInUnitInterval(queries: seq<EvidenceQuery>, rankings: Rankings, k: int)
    ensures 0.0 <= PrecisionRate(queries, rankings, k) <= 1.0
    ensures 0.0 <= ReciprocalRate(queries, rankings, k) <= 1.0
    ensures 0.0 <= FirstRate(queries, rankings, k) <= 1.0
    ensures 0.0 <= SuppressionRate(queries, rankings, k) <= 1.0
    ensures (forall q :: q in queries ==> Distinct(Top(rankings, q, k))) ==>
        0.0 <= RecallRate(queries, rankings, k) <= 1.0
  {
    forall q: EvidenceQuery
      ensures 0.0 <= PrecisionAt(rankings, k)(q) <= 1.0
      ensures 0.0 <= ReciprocalAt(rankings, k)(q) <= 1.0
      ensures q.expected != [] && Distinct(Top(rankings, q, k)) ==> 0.0 <= RecallAt(rankings, k)(q) <= 1.0
    {
      var a := Top(rankings, q, k);
      FilterShorter(OneOf(q.expected), a);
      RatioInUnit(|Hits(a, q.expected)|, Max(1, |a|));
      ReciprocalOfPrefix(a, a, q.expected, 1);
      if q.expected != [] && Distinct(a) {
        DistinctRecall(a, q);
      }
    }
    MeanOverBounds(queries, ExpectsSome(), PrecisionAt(rankings, k), 0.0);
    MeanOverBounds(queries, ExpectsSome(), ReciprocalAt(rankings, k), 0.0);
    MeanOverBounds(queries, ExpectsSome(), FirstAt(rankings, k), 0.0);
    MeanOverBounds(queries, ForbidsSome(), SuppressedAt(rankings, k), 1.0);
    if forall q :: q in queries ==> Distinct(Top(rankings, q, k)) {
      MeanOverBounds(queries, ExpectsSome(), RecallAt(rankings, k), 0.0);
    }
  }

  /** A repeated id is found twice where one is expected. */
  lemma RepeatHitsTwice(ranked: seq<string>, i: nat, j: nat)
    requires i < j < |ranked| && ranked[i] == ranked[j]
    ensures |Hits(ranked, [ranked[j]])| > |Elements([ranked[j]])|
  {
    var id := ranked[j];
    assert Elements([id]) == {id};
    assert ranked == ranked[..j] + ranked[j..];
    FilterAppend(OneOf([id]), ranked[..j], ranked[j..]);
    assert ranked[..j][i] == id && ranked[j..][0] == id;
    FilterIn(OneOf([id]), ranked[..j], id);
    FilterIn(OneOf([id]), ranked[j..], id);
  }

  lemma RatioAboveOne(n: nat, d: nat)
    requires n > d > 0
    ensures n as real / d as real > 1.0
  {
    assert n as real / d as real * d as real == n as real;
  }

  lemma DistinctRecall(ranked: seq<string>, q: EvidenceQuery)
    requires Distinct(ranked) && q.expected != []
    ensures 0.0 <= Recall(ranked, q) <= 1.0
  {
    ElementsNonEmpty(q.expected);
    HitsAreCommon(ranked, q.expected);
    SubsetAtMost(Elements(q.expected) * Elements(ranked), Elements(q.expected));
    RatioInUnit(|Hits(ranked, q.expected)|, |Elements(q.expected)|);
  }

  /** A ranking keeps the recall of every query at one or below exactly when it repeats no id. */
  lemma RecallIsRateExactly(ranked: seq<string>)
    ensures (forall q: EvidenceQuery :: q.expected != [] ==> Recall(ranked, q) <= 1.0) <==> Distinct(ranked)
  {
    if Distinct(ranked) {
      forall q: EvidenceQuery | q.expected != [] ensures Recall(ranked, q) <= 1.0 {
        DistinctRecall(ranked, q);
      }
    } else {
      var i, j :| 0 <= i < j < |ranked| && ranked[i] == ranked[j];
      var q := EvidenceQuery("q", "n", [ranked[j]], [], "c");
      RepeatHitsTwice(ranked, i, j);
      ElementsNonEmpty(q.expected);
      RatioAboveOne(|Hits(ranked, q.expected)|, |Elements(q.expected)|);
      assert Recall(ranked, q) > 1.0;
    }
  }

  /** So the recall rate stays at one or below for every query list exactly when no ranking repeats an id
      above the cut-off. */
  lemma RecallRateIsRateExactly(rankings: Rankings, k: int)
    ensures (forall queries :: RecallRate(queries, rankings, k) <= 1.0)
       <==> (forall id :: id in rankings ==> Distinct(Slice(rankings[id], k)))
  {
    if forall id :: id in rankings ==> Distinct(Slice(rankings[id], k)) {
      forall queries ensures RecallRate(queries, rankings, k) <= 1.0 {
        forall q | q in queries ensures Distinct(Top(rankings, q, k)) {
          assert q.id !in rankings ==> Top(rankings, q, k) == [];
        }
        RatesInUnitInterval(queries, rankings, k);
      }
    } else {
      var id :| id in rankings && !Distinct(Slice(rankings[id], k));
      var ranked := Slice(rankings[id], k);
      RecallIsRateExactly(ranked);
      var p: EvidenceQuery :| p.expected != [] && Recall(ranked, p) > 1.0;
      var q := p.(id := id);
      assert Recall(ranked, q) == Recall(ranked, p) && Top(rankings, q, k) == ranked;
      MeanOverOne(q, ExpectsSome(), RecallAt(rankings, k), 0.0);
      assert RecallRate([q], rankings, k) > 1.0;
    }
  }

  /** A ranking that repeats an id can push recall past one. */
  lemma RepeatedIdRecall()
    ensures RecallRate([EvidenceQuery("q", "n", ["a"], [], "c")], map["q" := ["a", "a"]], 2) == 2.0
  {
    var q := EvidenceQuery("q", "n", ["a"], [], "c");
    var ranked := ["a", "a"];
    assert Top(map["q" := ranked], q, 2) == ranked;
    assert ranked[1..] == ["a"] && ["a"][1..] == [];
    assert Hits(ranked, ["a"]) == ["a", "a"];
    assert Elements(["a"]) == {"a"};
    assert Filter(ExpectsSome(), [q]) == [q];
    assert Map(RecallAt(map["q" := ranked], 2), [q]) == [2.0];
    assert Sum([2.0]) == 2.0 + Sum([2.0][1..]) && [2.0][1..] == [];
  }

  // ----- What the per-query values mean

  /** One for a relevant item. */
  function Relevance(expected: seq<string>): string -> real {
    x => if x in expected then 1.0 else 0.0
  }

  lemma {:induction false} RelevanceTotal(ranked: seq<string>, expected: seq<string>)
    ensures Sum(Map(Relevance(expected), ranked)) == |Hits(ranked, expected)| as real
  {
    if ranked != [] {
      MapCons(Relevance(expected), ranked);
      RelevanceTotal(ranked[1..], expected);
    }
  }

  /** Precision is the mean relevance of what was returned, and precision at one that of the first item. */
  lemma PrecisionIsMeanRelevance(ranked: seq<string>, q: EvidenceQuery)
    ensures Precision(ranked, q) == MeanOr(Map(Relevance(q.expected), ranked), 0.0)
    ensures PrecisionAt1(ranked, q) == MeanOr(Map(Relevance(q.expected), Slice(ranked, 1)), 0.0)
  {
    RelevanceTotal(ranked, q.expected);
    RelevanceTotal(Slice(ranked, 1), q.expected);
    if ranked != [] {
      assert Slice(ranked, 1) == [ranked[0]] && [ranked[0]][1..] == [];
      assert Hits([ranked[0]], q.expected) == if ranked[0] in q.expected then [ranked[0]] else [];
    }
  }

  lemma {:induction false} HitsAreCommon(ranked: seq<string>, ids: seq<string>)
    requires Distinct(ranked)
    ensures |Hits(ranked, ids)| == |Elements(ids) * Elements(ranked)|
  {
    if ranked == [] {
      assert Elements(ids) * Elements(ranked) == {};
    } else {
      HitsAreCommon(ranked[1..], ids);
      var now, rest := Elements(ids) * Elements(ranked), Elements(ids) * Elements(ranked[1..]);
      if ranked[0] in ids {
        assert now == rest + {ranked[0]} && ranked[0] !in rest;
      } else {
        assert now == rest;
      }
    }
  }

  /** Where no id is repeated, recall is the share of the expected ids that were returned. */
  lemma RecallIsShareFound(ranked: seq<string>, q: EvidenceQuery)
    requires q.expected != [] && Distinct(ranked)
    ensures Recall(ranked, q) * |Elements(q.expected)| as real == |Elements(q.expected) * Elements(ranked)| as real
  {
    ElementsNonEmpty(q.expected);
    HitsAreCommon(ranked, q.expected);
  }

  lemma {:induction false} SumAtTop(s: seq<real>)
    requires forall i :: 0 <= i < |s| ==> 0.0 <= s[i] <= 1.0
    ensures Sum(s) <= |s| as real
    ensures Sum(s) == |s| as real <==> forall i :: 0 <= i < |s| ==> s[i] == 1.0
  {
    if s != [] {
      SumAtTop(s[1..]);
      assert s == [s[0]] + s[1..];
    }
  }

  lemma MeanAtTop(s: seq<real>, empty: real)
    requires s != [] && forall i :: 0 <= i < |s| ==> 0.0 <= s[i] <= 1.0
    ensures MeanOr(s, empty) == 1.0 <==> forall i :: 0 <= i < |s| ==> s[i] == 1.0
  {
    SumAtTop(s);
    var mean := Sum(s) / |s| as real;
    assert mean * |s| as real == Sum(s);
  }

  lemma ChosenValue(queries: seq<EvidenceQuery>, who: EvidenceQuery -> bool, f: EvidenceQuery -> real, q: EvidenceQuery)
    requires q in queries && who(q)
    ensures f(q) in Map(f, Filter(who, queries))
  {
    var chosen := Filter(who, queries);
    FilterIn(who, queries, q);
    var i :| 0 <= i < |chosen| && chosen[i] == q;
    assert Map(f, chosen)[i] == f(q);
  }

  lemma ChosenSource(queries: seq<EvidenceQuery>, who: EvidenceQuery -> bool, f: EvidenceQuery -> real, i: nat)
    returns (q: EvidenceQuery)
    requires i < |Map(f, Filter(who, queries))|
    ensures q in queries && who(q) && f(q) == Map(f, Filter(who, queries))[i]
  {
    q := Filter(who, queries)[i];
    FilterIn(who, queries, q);
  }

  lemma ChosenAll(queries: seq<EvidenceQuery>, who: EvidenceQuery -> bool, f: EvidenceQuery -> real)
    ensures var values := Map(f, Filter(who, queries));
            (forall i :: 0 <= i < |values| ==> values[i] == 1.0) <==>
              forall q :: q in queries && who(q) ==> f(q) == 1.0
  {
    var values := Map(f, Filter(who, queries));
    forall q | q in queries && who(q) ensures f(q) in values {
      ChosenValue(queries, who, f, q);
    }
    if i :| 0 <= i < |values| && values[i] != 1.0 {
      var q := ChosenSource(queries, who, f, i);
    }
    hide *;
  }

  /** A mean of rates is one exactly when every rate is. */
  lemma MeanIsOneExactly(queries: seq<EvidenceQuery>, who: EvidenceQuery -> bool, f: EvidenceQuery -> real, empty: real)
    requires forall q :: 0.0 <= f(q) <= 1.0
    ensures MeanOver(queries, who, f, empty) == 1.0 <==>
              if Filter(who, queries) == [] then empty == 1.0
              else forall q :: q in queries && who(q) ==> f(q) == 1.0
  {
    ChosenAll(queries, who, f);
    var values := Map(f, Filter(who, queries));
    if values != [] {
      MeanAtTop(values, empty);
    }
    hide Filter;
    hide MeanOr;
  }

  /** Nothing listed is forbidden to the query. */
  ghost predicate NoneForbidden(rankings: Rankings, k: int, q: EvidenceQuery) {
    forall id :: id in Top(rankings, q, k) ==> id !in q.forbidden
  }

  /** Suppression is complete exactly when no query lists anything forbidden to it. */
  lemma FullSuppressionExactly(queries: seq<EvidenceQuery>, rankings: Rankings, k: int)
    ensures SuppressionRate(queries, rankings, k) == 1.0 <==>
              forall q :: q in queries ==> NoneForbidden(rankings, k, q)
  {
    MeanIsOneExactly(queries, ForbidsSome(), SuppressedAt(rankings, k), 1.0);
    forall q ensures SuppressedAt(rankings, k)(q) == 1.0 <==> NoneForbidden(rankings, k, q) {
    }
    forall q | q in queries && q.forbidden != [] ensures Filter(ForbidsSome(), queries) != [] {
      FilterIn(ForbidsSome(), queries, q);
    }
    hide SuppressedAt;
    hide MeanOver;
  }

  /** Something expected is listed, if anything is expected, and nothing forbidden. */
  ghost predicate Retrieves(rankings: Rankings, k: int, q: EvidenceQuery) {
    && (q.expected != [] ==> exists id :: id in Top(rankings, q, k) && id in q.expected)
    && NoneForbidden(rankings, k, q)
  }

  /** A category succeeds fully exactly when each of its queries does. */
  lemma FullCategoryExactly(d: Dict<string, real>, queries: seq<EvidenceQuery>, rankings: Rankings, k: int, c: string)
    requires CategoryTable(d, queries, rankings, k) && c in d.at
    ensures d.at[c] == 1.0 <==>
              forall q :: q in queries && q.category == c ==> Retrieves(rankings, k, q)
  {
    CategoryOccurs(queries, c);
    MeanIsOneExactly(queries, KeyIs(CategoryOf, c), SuccessAt(rankings, k), 0.0);
    assert d.at[c] == MeanOver(queries, KeyIs(CategoryOf, c), SuccessAt(rankings, k), 0.0);
    hide *;
    forall q
      ensures KeyIs(CategoryOf, c)(q) <==> q.category == c
      ensures SuccessAt(rankings, k)(q) == 1.0 <==> Retrieves(rankings, k, q)
    {
      InCategory(c, q);
      SuccessExactly(rankings, k, q);
    }
  }

  lemma InCategory(c: string, q: EvidenceQuery)
    ensures KeyIs(CategoryOf, c)(q) <==> q.category == c
  {
    assert CategoryOf(q) == q.category;
  }

  lemma CategoryOccurs(queries: seq<EvidenceQuery>, c: string)
    requires HasCategory(queries, c)
    ensures Filter(KeyIs(CategoryOf, c), queries) != []
  {
    var i :| 0 <= i < |queries| && queries[i].category == c;
    FilterIn(KeyIs(CategoryOf, c), queries, queries[i]);
  }

  lemma SuccessExactly(rankings: Rankings, k: int, q: EvidenceQuery)
    ensures SuccessAt(rankings, k)(q) == 1.0 <==> Retrieves(rankings, k, q)
  {
  }

  /** With nothing to average the rates are zero, and suppression is one. */
  lemma RatesOfNothing(queries: seq<EvidenceQuery>, rankings: Rankings, k: int)
    ensures (forall q :: q in queries ==> q.expected == []) ==>
              && RecallRate(queries, rankings, k) == PrecisionRate(queries, rankings, k) == 0.0
              && ReciprocalRate(queries, rankings, k) == FirstRate(queries, rankings, k) == 0.0
    ensures (forall q :: q in queries ==> q.forbidden == []) ==> SuppressionRate(queries, rankings, k) == 1.0
  {
    if forall q :: q in queries ==> q.expected == [] {
      FilterNone(ExpectsSome(), queries);
    }
    if forall q :: q in queries ==> q.forbidden == [] {
      FilterNone(ForbidsSome(), queries);
    }
  }

  /** What is saved is what was not returned, as a share of the full context; nothing when more came back. */
  lemma SavedShareExactly(contextTokens: nat, fullTokens: nat)
    ensures contextTokens <= fullTokens && fullTokens > 0 ==>
              SavedShare(contextTokens, fullTokens) * fullTokens as real == (fullTokens - contextTokens) as real
    ensures contextTokens >= fullTokens ==> SavedShare(contextTokens, fullTokens) == 0.0
  {
    if fullTokens > 0 {
      var share := contextTokens as real / fullTokens as real;
      assert share * fullTokens as real == contextTokens as real;
      if contextTokens <= fullTokens {
        RatioInUnit(contextTokens, fullTokens);
      } else {
        RatioAboveOne(contextTokens, fullTokens);
      }
    }
  }
}
