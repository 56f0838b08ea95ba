/** Category re-weighting, trial scores and the closed-form baselines of the A/B comparison. */
module ScorePipeline {
  import opened Wrappers
  import opened Sequences
  import opened SortedNames
  import opened StableSort
  import opened Tokens
  import opened EvidenceMetrics

  // ----- Re-weighting category means by category counts

  function CountTotal(keys: seq<string>, counts: map<string, nat>): nat
    requires forall i :: 0 <= i < |keys| ==> keys[i] in counts
  {
    if keys == [] then 0 else counts[keys[0]] + CountTotal(keys[1..], counts)
  }

  function WeightedTotal(values: map<string, real>, keys: seq<string>, counts: map<string, nat>): real
    requires forall i :: 0 <= i < |keys| ==> keys[i] in counts
  {
    if keys == [] then 0.0
    else
      (if keys[0] in values then values[keys[0]] else 0.0) * counts[keys[0]] as real
      + WeightedTotal(values, keys[1..], counts)
  }

  /** `_weighted_category_success`. */
  function WeightedCategorySuccess(values: Dict<string, real>, counts: Dict<string, nat>): real
    requires counts.Valid()
  {
    var total := CountTotal(counts.order, counts.at);
    if total == 0 then 0.0 else WeightedTotal(values.at, counts.order, counts.at) / total as real
  }

  /** The table holds, for exactly the categories that occur, how many queries have them. */
  ghost predicate TrueCounts(counts: Dict<string, nat>, queries: seq<EvidenceQuery>) {
    && counts.Valid()
    && (forall c :: c in counts.at <==> HasCategory(queries, c))
    && (forall c :: c in counts.at ==> counts.at[c] == |Filter(KeyIs(CategoryOf, c), queries)|)
  }

  /** The distinct categories, in order of first appearance. */
  method DistinctCategories(queries: seq<EvidenceQuery>) returns (names: seq<string>)
    ensures forall c :: c in names <==> HasCategory(queries, c)
    ensures forall i, j :: 0 <= i < j < |names| ==> names[i] != names[j]
  {
    names := [];
    for n := 0 to |queries|
      invariant forall c :: c in names <==> exists i :: 0 <= i < n && CategoryOf(queries[i]) == c
      invariant forall i, j :: 0 <= i < j < |names| ==> names[i] != names[j]
    {
      if queries[n].category !in names {
        names := names + [queries[n].category];
      }
      assert CategoryOf(queries[n]) in names;
    }
  }

  method CountCategory(queries: seq<EvidenceQuery>, category: string) returns (count: nat)
    ensures count == |Filter(KeyIs(CategoryOf, category), queries)|
  {
    count := 0;
    for n := 0 to |queries|
      invariant count == |Filter(KeyIs(CategoryOf, category), queries[..n])|
    {
      TakeSnoc(queries, n);
      FilterSnoc(KeyIs(CategoryOf, category), queries[..n], queries[n]);
      if queries[n].category == category {
        count := count + 1;
      }
    }
    TakeAll(queries);
  }

  /** `category_counts`: one entry per sorted distinct category. */
  method CategoryCounts(queries: seq<EvidenceQuery>) returns (counts: Dict<string, nat>)
    ensures TrueCounts(counts, queries)
    ensures Sorted(NameLeq, counts.order)
  {
    var names := DistinctCategories(queries);
    names := SortNames(names);
    var at: map<string, nat> := map[];
    for n := 0 to |names|
      invariant forall c :: c in at <==> c in names[..n]
      invariant forall c :: c in at ==> at[c] == |Filter(KeyIs(CategoryOf, c), queries)|
    {
      var count := CountCategory(queries, names[n]);
      TakeSnoc(names, n);
      at := at[names[n] := count];
    }
    TakeAll(names);
    counts := Dict(names, at);
  }

  function One(q: EvidenceQuery): real {
    1.0
  }

  lemma {:induction false} TotalOnes(queries: seq<EvidenceQuery>)
    ensures Total(One, queries) == |queries| as real
  {
    if queries != [] {
      TotalCons(One, queries);
      TotalOnes(queries[1..]);
    }
  }

  lemma {:induction false} CountsAreTotals(keys: seq<string>, counts: map<string, nat>, queries: seq<EvidenceQuery>)
    requires forall i :: 0 <= i < |keys| ==> keys[i] in counts
    requires forall i :: 0 <= i < |keys| ==> counts[keys[i]] == |Filter(KeyIs(CategoryOf, keys[i]), queries)|
    ensures CountTotal(keys, counts) as real == TotalByKey(One, CategoryOf, keys, queries)
  {
    if keys != [] {
      CountsAreTotals(keys[1..], counts, queries);
      TotalOnes(Filter(KeyIs(CategoryOf, keys[0]), queries));
    }
  }

  lemma MeanTimesCount(s: seq<real>)
    ensures MeanOr(s, 0.0) * |s| as real == Sum(s)
  {
  }

  lemma MeanShare(queries: seq<EvidenceQuery>, who: EvidenceQuery -> bool, f: EvidenceQuery -> real)
    ensures MeanOver(queries, who, f, 0.0) * |Filter(who, queries)| as real == Total(f, Filter(who, queries))
  {
    MeanTimesCount(Map(f, Filter(who, queries)));
  }

  /** The counts and the means of these categories are those of the queries. */
  ghost predicate TableFor(values: map<string, real>, counts: map<string, nat>, keys: seq<string>,
                           queries: seq<EvidenceQuery>, f: EvidenceQuery -> real) {
    forall i :: 0 <= i < |keys| ==>
      && keys[i] in counts && keys[i] in values
      && counts[keys[i]] == |Filter(KeyIs(CategoryOf, keys[i]), queries)|
      && values[keys[i]] == MeanOver(queries, KeyIs(CategoryOf, keys[i]), f, 0.0)
  }

  lemma {:induction false} WeightedIsTotal(values: map<string, real>, keys: seq<string>, counts: map<string, nat>,
                                           queries: seq<EvidenceQuery>, f: EvidenceQuery -> real)
    requires TableFor(values, counts, keys, queries, f)
    ensures WeightedTotal(values, keys, counts) == TotalByKey(f, CategoryOf, keys, queries)
  {
    if keys != [] {
      assert TableFor(values, counts, keys[1..], queries, f);
      WeightedIsTotal(values, keys[1..], counts, queries, f);
      MeanShare(queries, KeyIs(CategoryOf, keys[0]), f);
    }
  }

  /** Weighting the category means by the true counts gives back the plain mean success. */
  lemma ReweightingPreservesMean(values: Dict<string, real>, counts: Dict<string, nat>,
                                 queries: seq<EvidenceQuery>, rankings: Rankings, k: int)
    requires CategoryTable(values, queries, rankings, k) && TrueCounts(counts, queries)
    ensures WeightedCategorySuccess(values, counts) == MeanOr(Map(SuccessAt(rankings, k), queries), 0.0)
  {
    var keys, f := counts.order, SuccessAt(rankings, k);
    forall i | 0 <= i < |keys|
      ensures keys[i] in values.at && values.at[keys[i]] == CategoryMean(queries, rankings, k, keys[i])
    {
      assert keys[i] in counts.at;
    }
    assert TableFor(values.at, counts.at, keys, queries, f);
    forall i | 0 <= i < |queries| ensures CategoryOf(queries[i]) in keys {
      assert HasCategory(queries, CategoryOf(queries[i]));
    }
    WeightedOverAll(values, counts, queries, f);
  }

  lemma WeightedOverAll(values: Dict<string, real>, counts: Dict<string, nat>, queries: seq<EvidenceQuery>,
        f: EvidenceQuery -> real)
    requires counts.Valid() && TableFor(values.at, counts.at, counts.order, queries, f)
    requires forall i :: 0 <= i < |queries| ==> CategoryOf(queries[i]) in counts.order
    ensures WeightedCategorySuccess(values, counts) == MeanOr(Map(f, queries), 0.0)
  {
    var keys := counts.order;
    WeightedIsTotal(values.at, keys, counts.at, queries, f);
    CountsAreTotals(keys, counts.at, queries);
    TotalRegrouped(f, CategoryOf, keys, queries);
    TotalRegrouped(One, CategoryOf, keys, queries);
    TotalOnes(queries);
  }

  function RateOf(o: Outcome): real {
    o.successRate
  }

  lemma RatesOfOutcomes(outcomes: seq<Outcome>, queries: seq<EvidenceQuery>, rankings: Rankings, k: int)
    requires OutcomesOf(outcomes, queries, rankings, k)
    ensures Map(RateOf, outcomes) == Map(SuccessAt(rankings, k), queries)
  {
    forall i | 0 <= i < |queries| ensures RateOf(outcomes[i]) == SuccessAt(rankings, k)(queries[i]) {
      assert OutcomeOf(outcomes[i], queries[i], rankings, k);
    }
  }

  /** The re-weighted score equals the mean of the per-case outcomes computed beside it. */
  lemma ReweightingAgreesWithOutcomes(m: Metrics, counts: Dict<string, nat>, queries: seq<EvidenceQuery>,
                                      rankings: Rankings, texts: Dict<string, seq<string>>, fullTokens: nat, k: int)
    requires texts.Valid() && IsMetricsOf(m, queries, rankings, texts, fullTokens, k)
    requires TrueCounts(counts, queries)
    ensures WeightedCategorySuccess(m.categorySuccess, counts) == MeanOr(Map(RateOf, m.caseOutcomes), 0.0)
  {
    hide CategoryTable;
    hide OutcomesOf;
    hide WeightedCategorySuccess;
    hide MeanOr;
    hide SuccessAt;
    ReweightingPreservesMean(m.categorySuccess, counts, queries, rankings, k);
    RatesOfOutcomes(m.caseOutcomes, queries, rankings, k);
  }

  // ----- Scores

  datatype Trial = Trial(taskSuccess: real, staleError: real, contextSaved: real)

  function MaxZero(x: real): real {
    if x < 0.0 then 0.0 else x
  }

  /** `_metric_trial`. */
  function MetricTrial(m: Metrics, counts: Dict<string, nat>): Trial
    requires counts.Valid()
  {
    Trial(WeightedCategorySuccess(m.categorySuccess, counts), MaxZero(1.0 - m.staleSuppression), m.contextSaved)
  }

  function CombinedScore(t: Trial): real {
    0.60 * t.taskSuccess + 0.25 * MaxZero(1.0 - t.staleError) + 0.15 * t.contextSaved
  }

  ghost predicate IsRate(x: real) {
    0.0 <= x <= 1.0
  }

  /** All three rates lie between zero and one. */
  ghost predicate RatesOnly(t: Trial) {
    IsRate(t.taskSuccess) && IsRate(t.staleError) && IsRate(t.contextSaved)
  }

  /** The score runs from zero to one, its ends are the worst and the best trial and no others, and a whole
      step of task success, of freshness or of saved context is worth 0.60, 0.25 or 0.15 of it. */
  lemma ScoreWeights(t: Trial)
    requires RatesOnly(t)
    ensures IsRate(CombinedScore(t))
    ensures CombinedScore(t) == 1.0 <==> t == Trial(1.0, 0.0, 1.0)
    ensures CombinedScore(t) == 0.0 <==> t == Trial(0.0, 1.0, 0.0)
    ensures CombinedScore(t.(taskSuccess := 1.0)) - CombinedScore(t.(taskSuccess := 0.0)) == 0.60
    ensures CombinedScore(t.(staleError := 0.0)) - CombinedScore(t.(staleError := 1.0)) == 0.25
    ensures CombinedScore(t.(contextSaved := 1.0)) - CombinedScore(t.(contextSaved := 0.0)) == 0.15
  {
  }

  /** Each rate moves the score in proportion. */
  lemma ScoreProportional(t: Trial, x: real)
    requires RatesOnly(t) && IsRate(x)
    ensures CombinedScore(t.(taskSuccess := x)) - CombinedScore(t) == 0.60 * (x - t.taskSuccess)
    ensures CombinedScore(t) - CombinedScore(t.(staleError := x)) == 0.25 * (x - t.staleError)
    ensures CombinedScore(t.(contextSaved := x)) - CombinedScore(t) == 0.15 * (x - t.contextSaved)
  {
  }

  function TaskSuccessOf(t: Trial): real { t.taskSuccess }
  function StaleErrorOf(t: Trial): real { t.staleError }
  function ContextSavedOf(t: Trial): real { t.contextSaved }

  /** The aggregated row of `_aggregate_trials`: means over the trials. */
  function AggregateTrials(trials: seq<Trial>): Trial {
    Trial(MeanOr(Map(TaskSuccessOf, trials), 0.0),
          MeanOr(Map(StaleErrorOf, trials), 0.0),
          MeanOr(Map(ContextSavedOf, trials), 0.0))
  }

  lemma ConstantMean(s: seq<real>, x: real)
    requires s != [] && forall i :: 0 <= i < |s| ==> s[i] == x
    ensures MeanOr(s, 0.0) == x
  {
    SumBounds(s, x, x);
    MeanTimesCount(s);
    assert MeanOr(s, 0.0) * |s| as real == x * |s| as real;
  }

  /** Repeating a deterministic trial does not change its score. */
  lemma IdenticalTrials(t: Trial, trials: seq<Trial>)
    requires trials != [] && forall i :: 0 <= i < |trials| ==> trials[i] == t
    ensures AggregateTrials(trials) == t
  {
    ConstantMean(Map(TaskSuccessOf, trials), t.taskSuccess);
    ConstantMean(Map(StaleErrorOf, trials), t.staleError);
    ConstantMean(Map(ContextSavedOf, trials), t.contextSaved);
  }

  lemma {:induction false} ScoresAddUp(trials: seq<Trial>)
    requires forall i :: 0 <= i < |trials| ==> RatesOnly(trials[i])
    ensures Sum(Map(CombinedScore, trials))
         == 0.60 * Sum(Map(TaskSuccessOf, trials))
            + 0.25 * (|trials| as real - Sum(Map(StaleErrorOf, trials)))
            + 0.15 * Sum(Map(ContextSavedOf, trials))
  {
    if trials != [] {
      ScoresAddUp(trials[1..]);
      MapCons(CombinedScore, trials);
      MapCons(TaskSuccessOf, trials);
      MapCons(StaleErrorOf, trials);
      MapCons(ContextSavedOf, trials);
    }
  }

  lemma ScoreOfTotals(t: Trial, n: real, successes: real, stale: real, saved: real)
    requires n > 0.0 && IsRate(t.staleError)
    requires t.taskSuccess * n == successes && t.staleError * n == stale && t.contextSaved * n == saved
    ensures CombinedScore(t) == (0.60 * successes + 0.25 * (n - stale) + 0.15 * saved) / n
  {
    assert CombinedScore(t) * n
        == 0.60 * (t.taskSuccess * n) + 0.25 * (n - t.staleError * n) + 0.15 * (t.contextSaved * n);
  }

  lemma StaleMeanIsRate(trials: seq<Trial>)
    requires forall i :: 0 <= i < |trials| ==> RatesOnly(trials[i])
    ensures IsRate(MeanOr(Map(StaleErrorOf, trials), 0.0))
  {
    forall i | 0 <= i < |trials| ensures 0.0 <= Map(StaleErrorOf, trials)[i] <= 1.0 {
      assert RatesOnly(trials[i]);
    }
    MeanBounds(Map(StaleErrorOf, trials), 0.0, 0.0, 1.0);
  }

  /** Scoring the aggregated rates is averaging the scores of the trials. */
  lemma AggregateScoreIsMean(trials: seq<Trial>)
    requires trials != [] && forall i :: 0 <= i < |trials| ==> RatesOnly(trials[i])
    ensures CombinedScore(AggregateTrials(trials)) == MeanOr(Map(CombinedScore, trials), 0.0)
  {
    ScoresAddUp(trials);
    StaleMeanIsRate(trials);
    MeanTimesCount(Map(TaskSuccessOf, trials));
    MeanTimesCount(Map(StaleErrorOf, trials));
    MeanTimesCount(Map(ContextSavedOf, trials));
    ScoreOfTotals(AggregateTrials(trials), |trials| as real,
                  Sum(Map(TaskSuccessOf, trials)), Sum(Map(StaleErrorOf, trials)), Sum(Map(ContextSavedOf, trials)));
    hide CombinedScore;
    hide Sum;
    hide RatesOnly;
  }

  lemma SuccessIsRate(queries: seq<EvidenceQuery>, rankings: Rankings, k: int)
    ensures IsRate(MeanOr(Map(SuccessAt(rankings, k), queries), 0.0))
  {
    MeanBounds(Map(SuccessAt(rankings, k), queries), 0.0, 0.0, 1.0);
  }

  lemma RatesOfRun(m: Metrics, queries: seq<EvidenceQuery>, rankings: Rankings, texts: Dict<string, seq<string>>,
                   fullTokens: nat, k: int)
    requires texts.Valid() && IsMetricsOf(m, queries, rankings, texts, fullTokens, k)
    ensures IsRate(m.staleSuppression) && IsRate(m.contextSaved)
  {
    RatesInUnitInterval(queries, rankings, k);
    SavedIsRate(m.contextTokens, fullTokens);
    hide CategoryTable;
    hide OutcomesOf;
    hide SavedShare;
    hide SuppressionRate;
  }

  /** The trial of any run holds rates, its stale error is what suppression leaves, and its task success is
      the mean success of the queries; so its score is a rate. */
  lemma TrialOfRun(m: Metrics, counts: Dict<string, nat>, queries: seq<EvidenceQuery>, rankings: Rankings,
                   texts: Dict<string, seq<string>>, fullTokens: nat, k: int)
    requires texts.Valid() && IsMetricsOf(m, queries, rankings, texts, fullTokens, k)
    requires TrueCounts(counts, queries)
    ensures var t := MetricTrial(m, counts);
            && t.taskSuccess == MeanOr(Map(SuccessAt(rankings, k), queries), 0.0)
            && t.staleError + m.staleSuppression == 1.0
            && t.contextSaved == m.contextSaved
            && RatesOnly(t) && IsRate(CombinedScore(t))
  {
    ReweightingPreservesMean(m.categorySuccess, counts, queries, rankings, k);
    SuccessIsRate(queries, rankings, k);
    RatesOfRun(m, queries, rankings, texts, fullTokens, k);
    hide WeightedCategorySuccess;
    hide IsMetricsOf;
    hide TrueCounts;
    hide MeanOr;
    hide SuccessAt;
    hide Map;
    ScoreWeights(MetricTrial(m, counts));
  }

  lemma SavedIsRate(tokens: nat, full: nat)
    ensures IsRate(SavedShare(tokens, full))
  {
    if full > 0 {
      DivMonotone(0.0, tokens as real, full);
    }
  }

  // ----- The dataset of the comparison

  datatype Case = Case(namespace: string, category: string, current: string, stale: string)

  datatype Dataset = Dataset(memories: seq<LongMemory>, queries: seq<EvidenceQuery>)

  function CurrentMemory(c: Case): LongMemory {
    LongMemory(c.namespace + "::current", c.current, c.namespace)
  }

  function StaleMemory(c: Case): LongMemory {
    LongMemory(c.namespace + "::stale", c.stale, c.namespace)
  }

  function QueryOf(c: Case): EvidenceQuery {
    EvidenceQuery(c.namespace + "::query", c.namespace, [CurrentMemory(c).id], [StaleMemory(c).id], c.category)
  }

  function MemoriesOf(cases: seq<Case>): seq<LongMemory> {
    if cases == [] then [] else [CurrentMemory(cases[0]), StaleMemory(cases[0])] + MemoriesOf(cases[1..])
  }

  lemma {:induction false} MemoriesSnoc(cases: seq<Case>, c: Case)
    ensures MemoriesOf(cases + [c]) == MemoriesOf(cases) + [CurrentMemory(c), StaleMemory(c)]
  {
    if cases == [] {
      assert [c][1..] == [] && [] + [c] == [c];
    } else {
      assert (cases + [c])[1..] == cases[1..] + [c];
      MemoriesSnoc(cases[1..], c);
    }
  }

  function DatasetOf(cases: seq<Case>): Dataset {
    Dataset(MemoriesOf(cases), Map(QueryOf, cases))
  }

  method BuildDynamicDataset(cases: seq<Case>) returns (d: Dataset)
    ensures d == DatasetOf(cases)
  {
    var memories: seq<LongMemory>, queries: seq<EvidenceQuery> := [], [];
    for n := 0 to |cases|
      invariant memories == MemoriesOf(cases[..n])
      invariant queries == Map(QueryOf, cases[..n])
    {
      var c := cases[n];
      TakeSnoc(cases, n);
      MemoriesSnoc(cases[..n], c);
      memories := memories + [
        LongMemory(c.namespace + "::current", c.current, c.namespace),
        LongMemory(c.namespace + "::stale", c.stale, c.namespace)];
      queries := queries + [
        EvidenceQuery(c.namespace + "::query", c.namespace, [c.namespace + "::current"], [c.namespace + "::stale"],
            c.category)];
    }
    TakeAll(cases);
    d := Dataset(memories, queries);
  }

  // ----- The two baselines

  function NamespaceOf(m: LongMemory): string { m.namespace }
  function IdOf(m: LongMemory): string { m.id }
  function TextOf(m: LongMemory): string { m.text }
  function Itself(m: LongMemory): LongMemory { m }

  function InNamespace(memories: seq<LongMemory>, namespace: string): seq<LongMemory> {
    Filter(KeyIs(NamespaceOf, namespace), memories)
  }

  function IdsFor(memories: seq<LongMemory>): EvidenceQuery -> seq<string> {
    (q: EvidenceQuery) => Map(IdOf, InNamespace(memories, q.namespace))
  }

  function TextsFor(memories: seq<LongMemory>): EvidenceQuery -> seq<string> {
    (q: EvidenceQuery) => Map(TextOf, InNamespace(memories, q.namespace))
  }

  function NothingFor(): EvidenceQuery -> seq<string> {
    (q: EvidenceQuery) => []
  }

  /** `{query.id: f(query) for query in queries}`: a repeated id keeps its last value. */
  function ByQuery(queries: seq<EvidenceQuery>, f: EvidenceQuery -> seq<string>): Dict<string, seq<string>> {
    if queries == [] then EmptyDict()
    else
      var last := queries[|queries| - 1];
      ByQuery(queries[..|queries| - 1], f).Put(last.id, f(last))
  }

  lemma {:induction false} ByQueryValid(queries: seq<EvidenceQuery>, f: EvidenceQuery -> seq<string>)
    ensures ByQuery(queries, f).Valid()
  {
    if queries != [] {
      ByQueryValid(queries[..|queries| - 1], f);
      var last := queries[|queries| - 1];
      ByQuery(queries[..|queries| - 1], f).PutValid(last.id, f(last));
    }
  }

  lemma ByQueryStep(queries: seq<EvidenceQuery>, n: nat, f: EvidenceQuery -> seq<string>)
    requires n < |queries|
    ensures ByQuery(queries[..n + 1], f) == ByQuery(queries[..n], f).Put(queries[n].id, f(queries[n]))
  {
    TakeTake(queries, n);
  }

  ghost predicate HasId(queries: seq<EvidenceQuery>, id: string) {
    exists i :: 0 <= i < |queries| && queries[i].id == id
  }

  /** Queries with the same id have the same answer, so no later one changes it. */
  ghost predicate SameAnswers(queries: seq<EvidenceQuery>, f: EvidenceQuery -> seq<string>) {
    forall i, j :: 0 <= i < |queries| && 0 <= j < |queries| && queries[i].id == queries[j].id ==>
        f(queries[i]) == f(queries[j])
  }

  lemma {:induction false} ByQueryAnswers(queries: seq<EvidenceQuery>, f: EvidenceQuery -> seq<string>)
    requires SameAnswers(queries, f)
    ensures forall i :: 0 <= i < |queries| ==>
              queries[i].id in ByQuery(queries, f).at && ByQuery(queries, f).at[queries[i].id] == f(queries[i])
    ensures forall id :: id in ByQuery(queries, f).at ==> HasId(queries, id)
  {
    if queries != [] {
      var n := |queries| - 1;
      assert SameAnswers(queries[..n], f);
      ByQueryAnswers(queries[..n], f);
      forall id | id in ByQuery(queries, f).at ensures HasId(queries, id) {
        if id in ByQuery(queries[..n], f).at {
          var i :| 0 <= i < n && queries[..n][i].id == id;
          assert queries[i].id == id;
        } else {
          assert queries[n].id == id;
        }
      }
    }
  }

  method DictByQuery(queries: seq<EvidenceQuery>, f: EvidenceQuery -> seq<string>)
    returns (d: Dict<string, seq<string>>)
    ensures d == ByQuery(queries, f) && d.Valid()
  {
    d := EmptyDict();
    for n := 0 to |queries|
      invariant d == ByQuery(queries[..n], f)
    {
      ByQueryStep(queries, n, f);
      d := d.Put(queries[n].id, f(queries[n]));
    }
    TakeAll(queries);
    ByQueryValid(queries, f);
  }

  function SplitTotal(memories: seq<LongMemory>): nat {
    if memories == [] then 0 else SplitTokens(memories[0].text) + SplitTotal(memories[1..])
  }

  method CountSplitTokens(memories: seq<LongMemory>) returns (tokens: nat)
    ensures tokens == SplitTotal(memories)
  {
    tokens := 0;
    for n := 0 to |memories|
      invariant tokens + SplitTotal(memories[n..]) == SplitTotal(memories)
    {
      assert memories[n..][1..] == memories[n + 1..];
      tokens := tokens + SplitTokens(memories[n].text);
    }
  }

  /** Every query's namespace holds a memory; otherwise the lookup raises KeyError. */
  ghost predicate NamespacesKnown(d: Dataset) {
    forall i :: 0 <= i < |d.queries| ==> InNamespace(d.memories, d.queries[i].namespace) != []
  }

  /** `memories_by_namespace`, as grouping the memories leaves it. */
  ghost predicate ByNamespace(grouped: Dict<string, seq<LongMemory>>, memories: seq<LongMemory>) {
    && (forall ns :: ns in grouped.at <==> InNamespace(memories, ns) != [])
    && (forall ns :: ns in grouped.at ==> grouped.at[ns] == InNamespace(memories, ns))
  }

  method GroupByNamespace(memories: seq<LongMemory>) returns (grouped: Dict<string, seq<LongMemory>>)
    ensures ByNamespace(grouped, memories)
  {
    grouped := GroupBy(NamespaceOf, Itself, memories);
    forall ns
      ensures ns in grouped.at <==> InNamespace(memories, ns) != []
      ensures ns in grouped.at ==> grouped.at[ns] == InNamespace(memories, ns)
    {
      assert Map(Itself, InNamespace(memories, ns)) == InNamespace(memories, ns);
      if InNamespace(memories, ns) != [] {
        FilterIn(KeyIs(NamespaceOf, ns), memories, InNamespace(memories, ns)[0]);
        GroupedKeys(grouped, NamespaceOf, Itself, memories, ns);
      }
    }
  }

  ghost predicate IsFullContext(m: Metrics, d: Dataset) {
    && ByQuery(d.queries, TextsFor(d.memories)).Valid()
    && IsMetricsOf(m, d.queries, ByQuery(d.queries, IdsFor(d.memories)).at,
                   ByQuery(d.queries, TextsFor(d.memories)), SplitTotal(d.memories), 2)
  }

  ghost predicate IsNoMemory(m: Metrics, d: Dataset) {
    && ByQuery(d.queries, NothingFor()).Valid()
    && IsMetricsOf(m, d.queries, ByQuery(d.queries, NothingFor()).at,
                   ByQuery(d.queries, NothingFor()), SplitTotal(d.memories), 1)
  }

  /** Ids and texts of every memory in one namespace, unless it is unknown. */
  method LookUp(grouped: Dict<string, seq<LongMemory>>, q: EvidenceQuery, ghost memories: seq<LongMemory>)
    returns (r: Result<(seq<string>, seq<string>), string>)
    requires ByNamespace(grouped, memories)
    ensures r.Ok? <==> InNamespace(memories, q.namespace) != []
    ensures r.Ok? ==> r.value == (IdsFor(memories)(q), TextsFor(memories)(q))
  {
    if q.namespace !in grouped.at {
      return Err(q.namespace);
    }
    r := Ok((Map(IdOf, grouped.at[q.namespace]), Map(TextOf, grouped.at[q.namespace])));
  }

  ghost predicate KnownUpTo(d: Dataset, n: nat)
    requires n <= |d.queries|
  {
    forall i :: 0 <= i < n ==> InNamespace(d.memories, d.queries[i].namespace) != []
  }

  /** The same for every query. */
  method AnswerWithNamespace(d: Dataset, grouped: Dict<string, seq<LongMemory>>)
    returns (r: Result<(Dict<string, seq<string>>, Dict<string, seq<string>>), string>)
    requires ByNamespace(grouped, d.memories)
    ensures r.Ok? <==> NamespacesKnown(d)
    ensures r.Ok? ==> r.value == (ByQuery(d.queries, IdsFor(d.memories)), ByQuery(d.queries, TextsFor(d.memories)))
  {
    var rankings: Dict<string, seq<string>>, texts: Dict<string, seq<string>> := EmptyDict(), EmptyDict();
    for n := 0 to |d.queries|
      invariant KnownUpTo(d, n)
      invariant rankings == ByQuery(d.queries[..n], IdsFor(d.memories))
      invariant texts == ByQuery(d.queries[..n], TextsFor(d.memories))
    {
      var q := d.queries[n];
      var answer := LookUp(grouped, q, d.memories);
      if answer.Err? {
        return Err(answer.error);
      }
      ByQueryStep(d.queries, n, IdsFor(d.memories));
      ByQueryStep(d.queries, n, TextsFor(d.memories));
      rankings := rankings.Put(q.id, answer.value.0);
      texts := texts.Put(q.id, answer.value.1);
    }
    TakeAll(d.queries);
    r := Ok((rankings, texts));
  }

  /** The baselines report no latency for any query. */
  function NoLatencies(queries: seq<EvidenceQuery>): seq<real> {
    seq(|queries|, _ => 0.0)
  }

  /** `_full_context`: every memory of the query's namespace is returned, cut off at two. */
  method FullContext(d: Dataset) returns (r: Result<Metrics, string>)
    ensures r.Ok? <==> NamespacesKnown(d)
    ensures r.Ok? ==> IsFullContext(r.value, d)
  {
    var grouped := GroupByNamespace(d.memories);
    var answers := AnswerWithNamespace(d, grouped);
    if answers.Err? {
      return Err(answers.error);
    }
    ByQueryValid(d.queries, TextsFor(d.memories));
    var fullTokens := CountSplitTokens(d.memories);
    var m := ComputeEvidenceMetrics(d.queries, answers.value.0.at, answers.value.1, NoLatencies(d.queries), fullTokens,
        2);
    r := Ok(m);
  }

  /** `_no_memory`: nothing is returned for any query. */
  method NoMemory(d: Dataset) returns (m: Metrics)
    ensures IsNoMemory(m, d)
  {
    var nothing := DictByQuery(d.queries, NothingFor());
    var fullTokens := CountSplitTokens(d.memories);
    m := ComputeEvidenceMetrics(d.queries, nothing.at, nothing, NoLatencies(d.queries), fullTokens, 1);
  }

  // ----- Their closed forms

  ghost predicate DistinctNamespaces(cases: seq<Case>) {
    forall i, j :: 0 <= i < j < |cases| ==> cases[i].namespace != cases[j].namespace
  }

  ghost predicate HasNamespace(cases: seq<Case>, namespace: string) {
    exists i :: 0 <= i < |cases| && cases[i].namespace == namespace
  }

  ghost predicate PlainTexts(cases: seq<Case>) {
    forall i :: 0 <= i < |cases| ==> PlainSpacing(cases[i].current) && PlainSpacing(cases[i].stale)
  }

  /** Queries have the same id exactly when their cases share a namespace. */
  lemma SameIdSameNamespace(a: Case, b: Case)
    ensures QueryOf(a).id == QueryOf(b).id <==> a.namespace == b.namespace
  {
    var s, t := a.namespace + "::query", b.namespace + "::query";
    assert s[..|a.namespace|] == a.namespace && t[..|b.namespace|] == b.namespace;
  }

  lemma AnswersByNamespace(cases: seq<Case>, memories: seq<LongMemory>)
    ensures SameAnswers(Map(QueryOf, cases), IdsFor(memories))
    ensures SameAnswers(Map(QueryOf, cases), TextsFor(memories))
  {
    forall i, j | 0 <= i < |cases| && 0 <= j < |cases|
      ensures QueryOf(cases[i]).id == QueryOf(cases[j]).id ==> cases[i].namespace == cases[j].namespace
    {
      SameIdSameNamespace(cases[i], cases[j]);
    }
  }

  lemma PairInNamespace(c: Case, namespace: string)
    ensures InNamespace([CurrentMemory(c), StaleMemory(c)], namespace)
         == if c.namespace == namespace then [CurrentMemory(c), StaleMemory(c)] else []
  {
    var p, pair := KeyIs(NamespaceOf, namespace), [CurrentMemory(c), StaleMemory(c)];
    forall i | 0 <= i < |pair| ensures p(pair[i]) == (c.namespace == namespace) {
      assert NamespaceOf(pair[i]) == c.namespace;
    }
    if c.namespace == namespace {
      FilterAll(p, pair);
    } else {
      FilterNone(p, pair);
    }
  }

  lemma {:induction false} PairAt(cases: seq<Case>, i: nat)
    requires i < |cases|
    ensures |MemoriesOf(cases)| == 2 * |cases|
    ensures MemoriesOf(cases)[2 * i] == CurrentMemory(cases[i])
    ensures MemoriesOf(cases)[2 * i + 1] == StaleMemory(cases[i])
  {
    if |cases| == 1 {
      assert MemoriesOf(cases[1..]) == [];
    } else {
      PairAt(cases[1..], if i > 0 then i - 1 else 0);
    }
  }

  /** Case `i` gives memories 2i and 2i + 1, its current and its stale text, and query `i`, which expects the
      first, forbids the second and carries the case's category. */
  lemma CaseAt(cases: seq<Case>, i: nat)
    requires i < |cases|
    ensures var c, d := cases[i], DatasetOf(cases);
            && |d.memories| == 2 * |cases| && |d.queries| == |cases|
            && d.memories[2 * i] == LongMemory(c.namespace + "::current", c.current, c.namespace)
            && d.memories[2 * i + 1] == LongMemory(c.namespace + "::stale", c.stale, c.namespace)
            && d.queries[i].namespace == c.namespace && d.queries[i].category == c.category
            && d.queries[i].expected == [d.memories[2 * i].id] && d.queries[i].forbidden == [d.memories[2 * i + 1].id]
  {
    PairAt(cases, i);
  }

  /** The memories of a namespace start with the two of the first case in it. */
  lemma {:induction false} FirstPair(cases: seq<Case>, namespace: string) returns (i: nat)
    requires HasNamespace(cases, namespace)
    ensures i < |cases| && cases[i].namespace == namespace && !HasNamespace(cases[..i], namespace)
    ensures [CurrentMemory(cases[i]), StaleMemory(cases[i])] <= InNamespace(MemoriesOf(cases), namespace)
  {
    FirstInNamespace(cases, namespace);
    if cases[0].namespace == namespace {
      i := 0;
    } else {
      NamespaceInTail(cases, namespace);
      var j := FirstPair(cases[1..], namespace);
      i := j + 1;
      StillFirst(cases, namespace, j);
    }
  }

  lemma FirstInNamespace(cases: seq<Case>, namespace: string)
    requires cases != []
    ensures InNamespace(MemoriesOf(cases), namespace)
         == (if cases[0].namespace == namespace then [CurrentMemory(cases[0]), StaleMemory(cases[0])] else [])
            + InNamespace(MemoriesOf(cases[1..]), namespace)
  {
    FilterAppend(KeyIs(NamespaceOf, namespace), [CurrentMemory(cases[0]), StaleMemory(cases[0])],
        MemoriesOf(cases[1..]));
    PairInNamespace(cases[0], namespace);
  }

  lemma NamespaceInTail(cases: seq<Case>, namespace: string)
    requires cases != [] && HasNamespace(cases, namespace) && cases[0].namespace != namespace
    ensures HasNamespace(cases[1..], namespace)
  {
    var k :| 0 <= k < |cases| && cases[k].namespace == namespace;
    assert cases[1..][k - 1].namespace == namespace;
  }

  lemma StillFirst(cases: seq<Case>, namespace: string, j: nat)
    requires cases != [] && j < |cases[1..]| && cases[0].namespace != namespace
        && !HasNamespace(cases[1..][..j], namespace)
    ensures !HasNamespace(cases[..j + 1], namespace)
  {
    forall m | 0 <= m < j + 1 ensures cases[m].namespace != namespace {
      assert m > 0 ==> cases[1..][..j][m - 1] == cases[m];
    }
  }

  lemma FirstTwo(c: Case, memories: seq<LongMemory>)
    requires [CurrentMemory(c), StaleMemory(c)] <= memories
    ensures Slice(Map(IdOf, memories), 2) == [CurrentMemory(c).id, StaleMemory(c).id]
    ensures Slice(Map(TextOf, memories), 2) == [c.current, c.stale]
  {
    assert memories[0] == CurrentMemory(c) && memories[1] == StaleMemory(c);
  }

  /** Whatever else shares its namespace, a case's query gets its current id and then its stale id. */
  lemma FullContextTop(cases: seq<Case>, i: nat)
    requires i < |cases|
    ensures Top(ByQuery(Map(QueryOf, cases), IdsFor(MemoriesOf(cases))).at, QueryOf(cases[i]), 2)
         == [CurrentMemory(cases[i]).id, StaleMemory(cases[i]).id]
  {
    var queries := Map(QueryOf, cases);
    AnswersByNamespace(cases, MemoriesOf(cases));
    ByQueryAnswers(queries, IdsFor(MemoriesOf(cases)));
    assert queries[i] == QueryOf(cases[i]);
    var first := FirstPair(cases, cases[i].namespace);
    FirstTwo(cases[first], InNamespace(MemoriesOf(cases), cases[i].namespace));
  }

  lemma ConstantRate(queries: seq<EvidenceQuery>, f: EvidenceQuery -> real, x: real)
    requires queries != [] && forall q :: q in queries ==> f(q) == x
    ensures MeanOr(Map(f, queries), 0.0) == x
  {
    ConstantMean(Map(f, queries), x);
  }

  lemma ConstantSuppression(cases: seq<Case>, rankings: Rankings, k: int, x: real)
    requires cases != []
    requires forall q :: q in Map(QueryOf, cases) ==> SuppressedAt(rankings, k)(q) == x
    ensures SuppressionRate(Map(QueryOf, cases), rankings, k) == x
  {
    var queries := Map(QueryOf, cases);
    FilterAll(ForbidsSome(), queries);
    ConstantMean(Map(SuppressedAt(rankings, k), queries), x);
  }

  lemma FullContextRates(cases: seq<Case>)
    requires cases != []
    ensures var rankings := ByQuery(Map(QueryOf, cases), IdsFor(MemoriesOf(cases))).at;
            && MeanOr(Map(SuccessAt(rankings, 2), Map(QueryOf, cases)), 0.0) == 0.0
            && SuppressionRate(Map(QueryOf, cases), rankings, 2) == 0.0
  {
    var queries := Map(QueryOf, cases);
    var rankings := ByQuery(queries, IdsFor(MemoriesOf(cases))).at;
    forall q | q in queries ensures SuccessAt(rankings, 2)(q) == 0.0 && SuppressedAt(rankings, 2)(q) == 0.0 {
      var i :| 0 <= i < |queries| && queries[i] == q;
      FullContextTop(cases, i);
      assert Top(rankings, q, 2)[1] in q.forbidden;
    }
    ConstantRate(queries, SuccessAt(rankings, 2), 0.0);
    ConstantSuppression(cases, rankings, 2, 0.0);
  }

  // ----- The context that full context returns

  lemma {:induction false} ContextTokensSnoc(ids: seq<string>, texts: map<string, seq<string>>, id: string,
        value: seq<string>, k: int)
    requires id !in ids && forall i :: 0 <= i < |ids| ==> ids[i] in texts
    ensures ContextTokens(ids + [id], texts[id := value], k)
        == ContextTokens(ids, texts, k) + TextTokens(Slice(value, k))
  {
    if ids == [] {
      assert [id][1..] == [];
    } else {
      assert (ids + [id])[1..] == ids[1..] + [id];
      ContextTokensSnoc(ids[1..], texts, id, value, k);
    }
  }

  /** What returning the two texts of a case costs. */
  function CaseTokens(c: Case): nat {
    EstimateTokens(c.current) + EstimateTokens(c.stale)
  }

  lemma PairTokens(c: Case)
    ensures TextTokens([c.current, c.stale]) == CaseTokens(c) > 0
  {
    assert [c.current, c.stale][1..] == [c.stale] && [c.stale][1..] == [];
    assert TextTokens([c.stale]) == EstimateTokens(c.stale) + TextTokens([c.stale][1..]);
  }

  lemma PlainCaseTokens(c: Case)
    requires PlainSpacing(c.current) && PlainSpacing(c.stale)
    ensures CaseTokens(c) == SplitTokens(c.current) + SplitTokens(c.stale)
  {
    EstimatesAgreeOnPlain(c.current);
    EstimatesAgreeOnPlain(c.stale);
  }

  /** Cost of the cases that are the first of their namespace. */
  ghost function FirstsTotal(cases: seq<Case>): nat {
    if cases == [] then 0
    else
      var before, last := cases[..|cases| - 1], cases[|cases| - 1];
      FirstsTotal(before) + if HasNamespace(before, last.namespace) then 0 else CaseTokens(last)
  }

  lemma FirstsTotalStep(cases: seq<Case>, n: nat)
    requires n < |cases|
    ensures FirstsTotal(cases[..n + 1])
         == FirstsTotal(cases[..n]) + if HasNamespace(cases[..n], cases[n].namespace) then 0 else CaseTokens(cases[n])
  {
    TakeTake(cases, n);
  }

  lemma {:induction false} SplitTotalAppend(a: seq<LongMemory>, b: seq<LongMemory>)
    ensures SplitTotal(a + b) == SplitTotal(a) + SplitTotal(b)
  {
    if a == [] {
      assert a + b == b;
    } else {
      assert (a + b)[1..] == a[1..] + b;
      SplitTotalAppend(a[1..], b);
    }
  }

  lemma SplitTotalSnoc(cases: seq<Case>, c: Case)
    ensures SplitTotal(MemoriesOf(cases + [c]))
         == SplitTotal(MemoriesOf(cases)) + SplitTokens(c.current) + SplitTokens(c.stale)
  {
    var pair := [CurrentMemory(c), StaleMemory(c)];
    MemoriesSnoc(cases, c);
    SplitTotalAppend(MemoriesOf(cases), pair);
    assert pair[1..] == [StaleMemory(c)] && pair[1..][1..] == [];
    assert SplitTotal(pair[1..]) == SplitTokens(c.stale) + SplitTotal(pair[1..][1..]);
  }

  /** The texts returned for the queries of the first `n` cases. */
  function TextsOfFirst(cases: seq<Case>, n: nat): Dict<string, seq<string>>
    requires n <= |cases|
  {
    ByQuery(Map(QueryOf, cases)[..n], TextsFor(MemoriesOf(cases)))
  }

  /** The tokens of those texts. */
  function ContextOfFirst(cases: seq<Case>, n: nat): nat
    requires n <= |cases|
  {
    ByQueryValid(Map(QueryOf, cases)[..n], TextsFor(MemoriesOf(cases)));
    ContextTokens(TextsOfFirst(cases, n).order, TextsOfFirst(cases, n).at, 2)
  }

  lemma IdsOfFirst(cases: seq<Case>, n: nat, c: Case)
    requires n <= |cases|
    ensures HasId(Map(QueryOf, cases)[..n], QueryOf(c).id) <==> HasNamespace(cases[..n], c.namespace)
  {
    var queries := Map(QueryOf, cases)[..n];
    forall i | 0 <= i < n ensures queries[i].id == QueryOf(c).id <==> cases[..n][i].namespace == c.namespace {
      assert queries[i] == QueryOf(cases[i]);
      SameIdSameNamespace(cases[i], c);
    }
  }

  lemma HeldAnswer(queries: seq<EvidenceQuery>, n: nat, f: EvidenceQuery -> seq<string>, q: EvidenceQuery)
    requires n <= |queries| && SameAnswers(queries, f) && q in queries
    ensures q.id in ByQuery(queries[..n], f).at <==> HasId(queries[..n], q.id)
    ensures q.id in ByQuery(queries[..n], f).at ==> ByQuery(queries[..n], f).at[q.id] == f(q)
  {
    assert SameAnswers(queries[..n], f);
    ByQueryAnswers(queries[..n], f);
  }

  /** Which ids the texts are stored under, and what is stored. */
  lemma TextsHeld(cases: seq<Case>, n: nat, c: Case)
    requires n <= |cases| && c in cases
    ensures QueryOf(c).id in TextsOfFirst(cases, n).at <==> HasNamespace(cases[..n], c.namespace)
    ensures QueryOf(c).id in TextsOfFirst(cases, n).at ==>
              TextsOfFirst(cases, n).at[QueryOf(c).id] == TextsFor(MemoriesOf(cases))(QueryOf(c))
  {
    var i :| 0 <= i < |cases| && cases[i] == c;
    assert Map(QueryOf, cases)[i] == QueryOf(c);
    AnswersByNamespace(cases, MemoriesOf(cases));
    HeldAnswer(Map(QueryOf, cases), n, TextsFor(MemoriesOf(cases)), QueryOf(c));
    IdsOfFirst(cases, n, c);
  }

  /** A case whose namespace came before adds nothing to the returned texts. */
  lemma RepeatedCase(cases: seq<Case>, n: nat)
    requires n < |cases| && HasNamespace(cases[..n], cases[n].namespace)
    ensures ContextOfFirst(cases, n + 1) == ContextOfFirst(cases, n)
  {
    var d, q := TextsOfFirst(cases, n), QueryOf(cases[n]);
    TextsHeld(cases, n, cases[n]);
    ByQueryStep(Map(QueryOf, cases), n, TextsFor(MemoriesOf(cases)));
    assert d.at[q.id := d.at[q.id]] == d.at;
    assert d.Put(q.id, d.at[q.id]) == d;
  }

  /** Any other case adds its own two texts. */
  lemma NewCase(cases: seq<Case>, n: nat)
    requires n < |cases| && !HasNamespace(cases[..n], cases[n].namespace)
    ensures ContextOfFirst(cases, n + 1) == ContextOfFirst(cases, n) + TextTokens([cases[n].current, cases[n].stale])
  {
    var c, d := cases[n], TextsOfFirst(cases, n);
    var i := FirstPair(cases, c.namespace);
    Earlier(cases, i, n);
    Earlier(cases, n, i);
    FirstTwo(c, InNamespace(MemoriesOf(cases), c.namespace));
    TextsHeld(cases, n, c);
    ByQueryStep(Map(QueryOf, cases), n, TextsFor(MemoriesOf(cases)));
    ByQueryValid(Map(QueryOf, cases)[..n], TextsFor(MemoriesOf(cases)));
    ContextTokensSnoc(d.order, d.at, QueryOf(c).id, TextsFor(MemoriesOf(cases))(QueryOf(c)), 2);
  }

  lemma Earlier(cases: seq<Case>, i: nat, n: nat)
    requires i < |cases| && n < |cases|
    ensures i < n ==> HasNamespace(cases[..n], cases[i].namespace)
  {
    if i < n {
      assert cases[..n][i] == cases[i];
    }
  }

  lemma DistinctSnoc(cases: seq<Case>, n: nat)
    requires n < |cases|
    ensures DistinctNamespaces(cases[..n + 1])
        <==> DistinctNamespaces(cases[..n]) && !HasNamespace(cases[..n], cases[n].namespace)
  {
    if i :| 0 <= i < n && cases[..n][i].namespace == cases[n].namespace {
      assert cases[..n + 1][i].namespace == cases[..n + 1][n].namespace;
    }
  }

  /** Only the first case of each namespace is returned. */
  ghost predicate OfFirsts(cases: seq<Case>, n: nat)
    requires n <= |cases|
  {
    ContextOfFirst(cases, n) == FirstsTotal(cases[..n])
  }

  lemma OfFirstsStart(cases: seq<Case>)
    ensures OfFirsts(cases, 0)
  {
    assert Map(QueryOf, cases)[..0] == [];
  }

  lemma OfFirstsStep(cases: seq<Case>, n: nat)
    requires n < |cases| && OfFirsts(cases, n)
    ensures OfFirsts(cases, n + 1)
  {
    hide HasNamespace;
    hide ContextOfFirst;
    hide FirstsTotal;
    FirstsTotalStep(cases, n);
    PairTokens(cases[n]);
    if HasNamespace(cases[..n], cases[n].namespace) {
      RepeatedCase(cases, n);
    } else {
      NewCase(cases, n);
    }
  }

  lemma {:induction false} ContextIsOfFirsts(cases: seq<Case>, n: nat)
    requires n <= |cases|
    ensures OfFirsts(cases, n)
    decreases n
  {
    hide OfFirsts;
    if n == 0 {
      OfFirstsStart(cases);
    } else {
      ContextIsOfFirsts(cases, n - 1);
      OfFirstsStep(cases, n - 1);
    }
  }

  lemma CaseStep(cases: seq<Case>, n: nat)
    requires n < |cases| && PlainTexts(cases)
    ensures SplitTotal(MemoriesOf(cases[..n + 1])) == SplitTotal(MemoriesOf(cases[..n])) + CaseTokens(cases[n])
  {
    PlainCaseTokens(cases[n]);
    TakeSnoc(cases, n);
    SplitTotalSnoc(cases[..n], cases[n]);
  }

  /** A namespace used twice is paid for twice but returned once. */
  ghost predicate PaidTwice(cases: seq<Case>) {
    && FirstsTotal(cases) <= SplitTotal(MemoriesOf(cases))
    && (FirstsTotal(cases) == SplitTotal(MemoriesOf(cases)) <==> DistinctNamespaces(cases))
  }

  lemma PaidTwiceStep(cases: seq<Case>, n: nat)
    requires n < |cases| && PlainTexts(cases) && PaidTwice(cases[..n])
    ensures PaidTwice(cases[..n + 1])
  {
    FirstsTotalStep(cases, n);
    CaseStep(cases, n);
    PairTokens(cases[n]);
    DistinctSnoc(cases, n);
    hide FirstsTotal;
    hide SplitTotal;
    hide DistinctNamespaces;
    hide HasNamespace;
    hide CaseTokens;
  }

  lemma {:induction false} FirstsAgainstTotal(cases: seq<Case>, n: nat)
    requires n <= |cases| && PlainTexts(cases)
    ensures PaidTwice(cases[..n])
    decreases n
  {
    if n > 0 {
      hide PaidTwice;
      FirstsAgainstTotal(cases, n - 1);
      PaidTwiceStep(cases, n - 1);
    }
  }

  lemma FullTokensPositive(cases: seq<Case>)
    requires cases != []
    ensures SplitTotal(MemoriesOf(cases)) > 0
  {
    SplitTotalSnoc(cases[..|cases| - 1], cases[|cases| - 1]);
    assert cases == cases[..|cases| - 1] + [cases[|cases| - 1]];
  }

  lemma SavesNothingExactly(tokens: nat, full: nat)
    requires full > 0
    ensures SavedShare(tokens, full) == 0.0 <==> tokens >= full
    ensures 0.0 <= SavedShare(tokens, full) <= 1.0
    ensures tokens == 0 ==> SavedShare(tokens, full) == 1.0
  {
    if tokens >= full {
      DivMonotone(full as real, tokens as real, full);
    } else {
      DivMonotone(0.0, tokens as real, full);
      assert tokens as real / full as real * full as real == tokens as real;
    }
  }

  lemma FullContextCosts(cases: seq<Case>)
    ensures var texts := ByQuery(Map(QueryOf, cases), TextsFor(MemoriesOf(cases)));
            texts.Valid() && ContextTokens(texts.order, texts.at, 2) == FirstsTotal(cases)
  {
    assert cases[..|cases|] == cases && Map(QueryOf, cases)[..|cases|] == Map(QueryOf, cases);
    ByQueryValid(Map(QueryOf, cases), TextsFor(MemoriesOf(cases)));
    ContextIsOfFirsts(cases, |cases|);
  }

  /** Returning everything solves no task and always returns the stale memory, so its score is what it
      saves: nothing exactly when the first cases of the namespaces cost as much as all texts together. */
  lemma FullContextTrial(cases: seq<Case>, m: Metrics, counts: Dict<string, nat>)
    requires cases != [] && TrueCounts(counts, DatasetOf(cases).queries)
    requires IsFullContext(m, DatasetOf(cases))
    ensures var t := MetricTrial(m, counts);
            && t.taskSuccess == 0.0 && t.staleError == 1.0 && 0.0 <= t.contextSaved <= 1.0
            && t.contextSaved == SavedShare(FirstsTotal(cases), SplitTotal(MemoriesOf(cases)))
            && CombinedScore(t) == 0.15 * t.contextSaved
            && (t.contextSaved == 0.0 <==> FirstsTotal(cases) >= SplitTotal(MemoriesOf(cases)))
  {
    ReweightingPreservesMean(m.categorySuccess, counts, Map(QueryOf, cases),
                             ByQuery(Map(QueryOf, cases), IdsFor(MemoriesOf(cases))).at, 2);
    FullContextRates(cases);
    FullContextCosts(cases);
    FullTokensPositive(cases);
    SavesNothingExactly(FirstsTotal(cases), SplitTotal(MemoriesOf(cases)));
  }

  /** On plainly spaced texts that is exactly when no namespace is used twice. */
  lemma PlainSavesNothingExactly(cases: seq<Case>)
    requires PlainTexts(cases)
    ensures FirstsTotal(cases) >= SplitTotal(MemoriesOf(cases)) <==> DistinctNamespaces(cases)
  {
    TakeAll(cases);
    FirstsAgainstTotal(cases, |cases|);
  }

  lemma OneCaseFirsts(c: Case)
    ensures FirstsTotal([c]) == CaseTokens(c)
  {
    hide CaseTokens;
    assert [c][..0] == [];
  }

  lemma OneCaseSplit(c: Case)
    ensures SplitTotal(MemoriesOf([c])) == SplitTokens(c.current) + SplitTokens(c.stale)
  {
    hide SplitTokens;
    assert [] + [c] == [c];
    SplitTotalSnoc([], c);
  }

  lemma OneWordTokens(text: string)
    requires |text| == 1 && !IsWhitespace()(text[0])
    ensures PlainSpacing(text) && EstimateTokens(text) == SplitTokens(text) == 2
  {
    EstimatesAgreeOnPlain(text);
    WordsStart(IsWhitespace(), text);
    EstimatesByWords(text);
    assert text[1..] == [];
  }

  /** A tab makes full context look cheaper than it is, although no namespace is shared. */
  lemma TabSaves()
    ensures var cases := [Case("n", "c", "a\tb", "c")];
            && DistinctNamespaces(cases)
            && FirstsTotal(cases) == 4 && SplitTotal(MemoriesOf(cases)) == 5
  {
    TabEstimatesDiffer();
    assert !IsWhitespace()('c');
    OneWordTokens("c");
    OneCaseFirsts(Case("n", "c", "a\tb", "c"));
    OneCaseSplit(Case("n", "c", "a\tb", "c"));
  }

  /** So does a shared namespace, on the plainest texts. */
  lemma SharedNamespaceSaves()
    ensures var c := Case("n", "c", "a", "b");
            && PlainTexts([c, c]) && !DistinctNamespaces([c, c])
            && FirstsTotal([c, c]) == 4 && SplitTotal(MemoriesOf([c, c])) == 8
  {
    var c := Case("n", "c", "a", "b");
    assert !IsWhitespace()('a') && !IsWhitespace()('b');
    OneWordTokens("a");
    OneWordTokens("b");
    TwiceTheSame(c);
    assert [c, c][0].namespace == [c, c][1].namespace;
    hide FirstsTotal;
    hide SplitTotal;
  }

  lemma TwiceTheSame(c: Case)
    ensures FirstsTotal([c, c]) == CaseTokens(c)
    ensures SplitTotal(MemoriesOf([c, c])) == 2 * (SplitTokens(c.current) + SplitTokens(c.stale))
  {
    OneCaseFirsts(c);
    OneCaseSplit(c);
    assert [c, c] == [c] + [c] && [c, c][..1] == [c] && [c, c][..2] == [c, c];
    SplitTotalSnoc([c], c);
    assert [c][0].namespace == c.namespace && HasNamespace([c], c.namespace);
    FirstsTotalStep([c, c], 1);
    hide FirstsTotal;
    hide SplitTotal;
    hide CaseTokens;
    hide SplitTokens;
  }

  // ----- No memory

  lemma {:induction false} NothingCosts(ids: seq<string>, texts: map<string, seq<string>>, k: int)
    requires forall i :: 0 <= i < |ids| ==> ids[i] in texts && texts[ids[i]] == []
    ensures ContextTokens(ids, texts, k) == 0
  {
    if ids != [] {
      NothingCosts(ids[1..], texts, k);
    }
  }

  lemma NothingReturned(queries: seq<EvidenceQuery>)
    ensures var nothing := ByQuery(queries, NothingFor());
            && nothing.Valid()
            && (forall id :: id in nothing.at ==> nothing.at[id] == [])
            && ContextTokens(nothing.order, nothing.at, 1) == 0
  {
    var nothing := ByQuery(queries, NothingFor());
    ByQueryValid(queries, NothingFor());
    ByQueryAnswers(queries, NothingFor());
    forall id | id in nothing.at ensures nothing.at[id] == [] {
      var i :| 0 <= i < |queries| && queries[i].id == id;
      assert nothing.at[queries[i].id] == NothingFor()(queries[i]);
    }
    NothingCosts(nothing.order, nothing.at, 1);
  }

  lemma NoMemoryRates(cases: seq<Case>)
    requires cases != []
    ensures var nothing := ByQuery(Map(QueryOf, cases), NothingFor()).at;
            && MeanOr(Map(SuccessAt(nothing, 1), Map(QueryOf, cases)), 0.0) == 0.0
            && SuppressionRate(Map(QueryOf, cases), nothing, 1) == 1.0
  {
    var queries := Map(QueryOf, cases);
    var nothing := ByQuery(queries, NothingFor()).at;
    NothingReturned(queries);
    forall q | q in queries ensures SuccessAt(nothing, 1)(q) == 0.0 && SuppressedAt(nothing, 1)(q) == 1.0 {
      assert Top(nothing, q, 1) == [] && q.expected != [];
    }
    ConstantRate(queries, SuccessAt(nothing, 1), 0.0);
    ConstantSuppression(cases, nothing, 1, 1.0);
  }

  /** Returning nothing earns 0.40, on any cases: a quarter for never being stale and the rest for
      saving all context. */
  lemma NoMemoryTrial(cases: seq<Case>, m: Metrics, counts: Dict<string, nat>)
    requires cases != [] && TrueCounts(counts, DatasetOf(cases).queries)
    requires IsNoMemory(m, DatasetOf(cases))
    ensures MetricTrial(m, counts) == Trial(0.0, 0.0, 1.0)
    ensures CombinedScore(MetricTrial(m, counts)) == 0.40
  {
    ReweightingPreservesMean(m.categorySuccess, counts, Map(QueryOf, cases),
                             ByQuery(Map(QueryOf, cases), NothingFor()).at, 1);
    NoMemoryRates(cases);
    NothingReturned(Map(QueryOf, cases));
    hide ByQuery;
    hide MeanOr;
    hide WeightedCategorySuccess;
    hide CategoryTable;
    hide SuppressionRate;
    hide ContextTokens;
    hide SplitTotal;
    FullTokensPositive(cases);
    SavesNothingExactly(0, SplitTotal(MemoriesOf(cases)));
  }

  // ----- From the cases to the scores

  /** Every case brings the memories its own query looks up. */
  lemma NamespacesOfCasesKnown(cases: seq<Case>)
    ensures NamespacesKnown(DatasetOf(cases))
  {
    forall i | 0 <= i < |cases| ensures InNamespace(MemoriesOf(cases), Map(QueryOf, cases)[i].namespace) != [] {
      var first := FirstPair(cases, cases[i].namespace);
    }
  }

  /** A row of the comparison: the same trial repeated, aggregated and scored. */
  method ScoreTrials(m: Metrics, counts: Dict<string, nat>, trials: nat) returns (score: real)
    requires counts.Valid() && trials > 0
    ensures score == CombinedScore(MetricTrial(m, counts))
    ensures var t := MetricTrial(m, counts);
            RatesOnly(t) ==>
              && IsRate(score)
              && (score == 1.0 <==> t == Trial(1.0, 0.0, 1.0))
              && (score == 0.0 <==> t == Trial(0.0, 1.0, 0.0))
              && score == 0.60 * t.taskSuccess + 0.25 * (1.0 - t.staleError) + 0.15 * t.contextSaved
  {
    var rows: seq<Trial> := [];
    for n := 0 to trials
      invariant |rows| == n && forall i :: 0 <= i < n ==> rows[i] == MetricTrial(m, counts)
    {
      rows := rows + [MetricTrial(m, counts)];
    }
    IdenticalTrials(MetricTrial(m, counts), rows);
    if RatesOnly(MetricTrial(m, counts)) {
      ScoreWeights(MetricTrial(m, counts));
    }
    score := CombinedScore(AggregateTrials(rows));
  }

  /** The full-context row, from the cases to the combined score. */
  method FullContextScore(cases: seq<Case>, trials: nat) returns (r: Result<real, string>)
    requires cases != [] && trials > 0
    ensures r.Ok? && 0.0 <= r.value <= 0.15
    ensures r.value == 0.0 <==> FirstsTotal(cases) >= SplitTotal(MemoriesOf(cases))
    ensures PlainTexts(cases) ==> (r.value == 0.0 <==> DistinctNamespaces(cases))
  {
    var d := BuildDynamicDataset(cases);
    var counts := CategoryCounts(d.queries);
    var metrics := FullContext(d);
    NamespacesOfCasesKnown(cases);
    FullContextTrial(cases, metrics.value, counts);
    if PlainTexts(cases) {
      PlainSavesNothingExactly(cases);
    }
    var score := ScoreTrials(metrics.value, counts, trials);
    r := Ok(score);
  }

  /** The no-memory row, from the cases to the combined score. */
  method NoMemoryScore(cases: seq<Case>, trials: nat) returns (score: real)
    requires cases != [] && trials > 0
    ensures score == 0.40
  {
    var d := BuildDynamicDataset(cases);
    var counts := CategoryCounts(d.queries);
    var metrics := NoMemory(d);
    NoMemoryTrial(cases, metrics, counts);
    score := ScoreTrials(metrics, counts, trials);
  }
}
