/** The longest run of coherent turns, and how the agent's counters bound one another. */
module AgentCoherence {
  import opened Sequences
  import opened EvidenceMetrics
  import Percentiles
  import SortedNames
  import StableSort

  function IsTrue(): bool -> bool {
    b => b
  }

  function CountTrue(values: seq<bool>): nat {
    |Filter(IsTrue(), values)|
  }

  /** Positions `i` to `j - 1` are all true. */
  ghost predicate TrueBlock(values: seq<bool>, i: int, j: int) {
    0 <= i <= j <= |values| && forall k :: i <= k < j ==> values[k]
  }

  /** `longest_true_run`: the length of a longest contiguous all-true block. */
  method LongestTrueRun(values: seq<bool>) returns (best: nat)
    ensures LongestBlock(values, best)
  {
    best := 0;
    var current := 0;
    assert TrueBlock(values, 0, 0);
    for n := 0 to |values|
      invariant current <= n && TrueBlock(values, n - current, n)
      invariant current < n ==> !values[n - current - 1]
      invariant exists i, j :: TrueBlock(values, i, j) && j - i == best
      invariant forall i, j :: TrueBlock(values, i, j) && j <= n ==> j - i <= best
    {
      if values[n] {
        current := current + 1;
        assert TrueBlock(values, n + 1 - current, n + 1);
        if best < current {
          best := current;
        }
      } else {
        current := 0;
      }
      forall i, j | TrueBlock(values, i, j) && j <= n + 1 ensures j - i <= best {
        if j == n + 1 && i < n + 1 {
          assert values[n];
          assert i >= n + 1 - current;
        }
      }
    }
  }

  ghost predicate LongestBlock(values: seq<bool>, best: nat) {
    && (exists i, j :: TrueBlock(values, i, j) && j - i == best)
    && (forall i, j :: TrueBlock(values, i, j) ==> j - i <= best)
  }

  lemma {:induction false} CountOfBlock(values: seq<bool>)
    requires forall k :: 0 <= k < |values| ==> values[k]
    ensures CountTrue(values) == |values|
  {
    FilterAll(IsTrue(), values);
  }

  lemma CountAppend(a: seq<bool>, b: seq<bool>)
    ensures CountTrue(a + b) == CountTrue(a) + CountTrue(b)
  {
    FilterAppend(IsTrue(), a, b);
  }

  /** No block is longer than the number of successes. */
  lemma BlockWithinSuccesses(values: seq<bool>, i: int, j: int)
    requires TrueBlock(values, i, j)
    ensures j - i <= CountTrue(values)
  {
    assert values == values[..i] + values[i..j] + values[j..];
    CountAppend(values[..i] + values[i..j], values[j..]);
    CountAppend(values[..i], values[i..j]);
    CountOfBlock(values[i..j]);
  }

  /** Splitting at the failures leaves one block more than there are failures, none above the bound. */
  lemma {:induction false} SuccessesWithinBlocks(values: seq<bool>, start: nat, n: nat, best: nat)
    requires start <= n <= |values| && TrueBlock(values, start, n)
    requires forall i, j :: TrueBlock(values, i, j) ==> j - i <= best
    ensures (n - start) + CountTrue(values[n..]) <= best * (|values[n..]| - CountTrue(values[n..]) + 1)
    decreases |values| - n
  {
    FilterShorter(IsTrue(), values[n..]);
    if n == |values| {
      assert values[n..] == [];
    } else {
      assert values[n..] == [values[n]] + values[n + 1..];
      if values[n] {
        SuccessesWithinBlocks(values, start, n + 1, best);
      } else {
        SuccessesWithinBlocks(values, n + 1, n + 1, best);
        FilterShorter(IsTrue(), values[n + 1..]);
        var rest := |values[n + 1..]| - CountTrue(values[n + 1..]) + 1;
        assert best * (rest + 1) == best * rest + best;
      }
    }
  }

  /** With s successes and f failures, the longest run L satisfies L <= s <= L * (f + 1). */
  lemma LongestRunBounds(values: seq<bool>, best: nat)
    requires LongestBlock(values, best)
    ensures best <= CountTrue(values) <= best * (|values| - CountTrue(values) + 1)
  {
    var i, j :| TrueBlock(values, i, j) && j - i == best;
    BlockWithinSuccesses(values, i, j);
    SuccessesWithinBlocks(values, 0, 0, best);
    assert values[0..] == values;
  }

  // ----- The columns of one scenario

  datatype AgentTask = AgentTask(id: string, namespace: string, expected: seq<string>, forbidden: seq<string>,
        category: string)

  function Retrieved(rankings: Rankings, t: AgentTask, k: int): seq<string> {
    TopFor(rankings, t.id, k)
  }

  ghost predicate TaskSucceeds(ranked: seq<string>, t: AgentTask) {
    (t.expected == [] || Contains(ranked, t.expected)) && !Contains(ranked, t.forbidden)
  }

  ghost predicate SucceedsAtOne(ranked: seq<string>, t: AgentTask) {
    ranked != [] && (t.expected == [] || ranked[0] in t.expected) && !Contains(ranked, t.forbidden)
  }

  /** Something known to belong to another namespace was retrieved. */
  ghost predicate Leaks(ranked: seq<string>, t: AgentTask, owner: map<string, string>) {
    exists i :: 0 <= i < |ranked| && ranked[i] in owner && owner[ranked[i]] != t.namespace
  }

  function Forbidding(): AgentTask -> bool {
    (t: AgentTask) => t.forbidden != []
  }

  ghost function SuccessOf(rankings: Rankings, k: int): AgentTask -> bool {
    (t: AgentTask) => TaskSucceeds(Retrieved(rankings, t, k), t)
  }

  ghost function TopSuccessOf(rankings: Rankings, k: int): AgentTask -> bool {
    (t: AgentTask) => SucceedsAtOne(Retrieved(rankings, t, k), t)
  }

  ghost function StaleOf(rankings: Rankings, k: int): AgentTask -> bool {
    (t: AgentTask) => Contains(Retrieved(rankings, t, k), t.forbidden)
  }

  ghost function LeakOf(rankings: Rankings, k: int, owner: map<string, string>): AgentTask -> bool {
    (t: AgentTask) => Leaks(Retrieved(rankings, t, k), t, owner)
  }

  ghost function ScoreOf(rankings: Rankings, k: int): AgentTask -> real {
    (t: AgentTask) => Indicator(TaskSucceeds(Retrieved(rankings, t, k), t))
  }

  function TaskCategory(t: AgentTask): string {
    t.category
  }

  datatype Board = Board(
    successes: seq<bool>,
    topSuccesses: seq<bool>,
    staleErrors: seq<bool>,
    leaks: seq<bool>,
    categories: Dict<string, seq<real>>)

  /** One verdict per request in each list, except that only requests that forbid something enter the stale list. */
  ghost predicate BoardOf(b: Board, tasks: seq<AgentTask>, rankings: Rankings, k: int, owner: map<string, string>) {
    && b.successes == Map(SuccessOf(rankings, k), tasks)
    && b.topSuccesses == Map(TopSuccessOf(rankings, k), tasks)
    && b.staleErrors == Map(StaleOf(rankings, k), Filter(Forbidding(), tasks))
    && b.leaks == Map(LeakOf(rankings, k, owner), tasks)
    && Grouped(b.categories, TaskCategory, ScoreOf(rankings, k), tasks)
  }

  method Intersects(ranked: seq<string>, ids: seq<string>) returns (r: bool)
    ensures r == Contains(ranked, ids)
  {
    r := false;
    for n := 0 to |ranked|
      invariant r <==> exists i :: 0 <= i < n && ranked[i] in ids
    {
      r := r || ranked[n] in ids;
    }
  }

  method AnyLeak(ranked: seq<string>, t: AgentTask, owner: map<string, string>) returns (r: bool)
    ensures r == Leaks(ranked, t, owner)
  {
    r := false;
    for n := 0 to |ranked|
      invariant r <==> exists i :: 0 <= i < n && ranked[i] in owner && owner[ranked[i]] != t.namespace
    {
      r := r || (ranked[n] in owner && owner[ranked[n]] != t.namespace);
    }
  }

  method Judge(t: AgentTask, ranked: seq<string>) returns (success: bool, topSuccess: bool, hasForbidden: bool)
    ensures success == TaskSucceeds(ranked, t)
    ensures topSuccess == SucceedsAtOne(ranked, t)
    ensures hasForbidden == Contains(ranked, t.forbidden)
  {
    var hasExpected := true;
    if t.expected != [] {
      hasExpected := Intersects(ranked, t.expected);
    }
    hasForbidden := Intersects(ranked, t.forbidden);
    success := hasExpected && !hasForbidden;
    topSuccess := ranked != [] && (t.expected == [] || ranked[0] in t.expected) && !hasForbidden;
  }

  lemma BoardSnoc(b: Board, t: AgentTask, before: seq<AgentTask>, rankings: Rankings, k: int,
        owner: map<string, string>)
    requires BoardOf(b, before, rankings, k, owner)
    ensures Map(SuccessOf(rankings, k), before + [t]) == b.successes + [SuccessOf(rankings, k)(t)]
    ensures Map(TopSuccessOf(rankings, k), before + [t]) == b.topSuccesses + [TopSuccessOf(rankings, k)(t)]
    ensures Map(LeakOf(rankings, k, owner), before + [t]) == b.leaks + [LeakOf(rankings, k, owner)(t)]
    ensures Map(StaleOf(rankings, k), Filter(Forbidding(), before + [t]))
         == b.staleErrors + if t.forbidden != [] then [StaleOf(rankings, k)(t)] else []
    ensures Grouped(AppendAt(b.categories, t.category, ScoreOf(rankings, k)(t)), TaskCategory, ScoreOf(rankings, k),
        before + [t])
  {
    hide SuccessOf;
    hide TopSuccessOf;
    hide LeakOf;
    hide StaleOf;
    hide ScoreOf;
    hide Grouped;
    hide Map;
    hide Filter;
    MapSnoc(SuccessOf(rankings, k), before, t);
    MapSnoc(TopSuccessOf(rankings, k), before, t);
    MapSnoc(LeakOf(rankings, k, owner), before, t);
    MapFilterSnoc(StaleOf(rankings, k), Forbidding(), before, t);
    GroupedSnoc(b.categories, TaskCategory, ScoreOf(rankings, k), before, t);
  }

  /** One turn of the loop. */
  method AddTask(b: Board, t: AgentTask, ghost before: seq<AgentTask>, rankings: Rankings, k: int,
        owner: map<string, string>)
    returns (r: Board)
    requires BoardOf(b, before, rankings, k, owner)
    ensures BoardOf(r, before + [t], rankings, k, owner)
  {
    hide Contains;
    hide Grouped;
    var ranked := Retrieved(rankings, t, k);
    var success, topSuccess, hasForbidden := Judge(t, ranked);
    var leak := AnyLeak(ranked, t, owner);
    BoardSnoc(b, t, before, rankings, k, owner);
    r := Board(
      b.successes + [success],
      b.topSuccesses + [topSuccess],
      b.staleErrors + (if t.forbidden != [] then [hasForbidden] else []),
      b.leaks + [leak],
      AppendAt(b.categories, t.category, if success then 1.0 else 0.0));
  }

  lemma EmptyBoard(rankings: Rankings, k: int, owner: map<string, string>)
    ensures BoardOf(Board([], [], [], [], EmptyDict()), [], rankings, k, owner)
  {
  }

  /** The loop of `compute_agent_metrics`. */
  method FillBoard(tasks: seq<AgentTask>, rankings: Rankings, k: int, owner: map<string, string>) returns (b: Board)
    ensures BoardOf(b, tasks, rankings, k, owner)
  {
    hide BoardOf;
    b := Board([], [], [], [], EmptyDict());
    EmptyBoard(rankings, k, owner);
    for n := 0 to |tasks|
      invariant BoardOf(b, tasks[..n], rankings, k, owner)
    {
      b := AddTask(b, tasks[n], tasks[..n], rankings, k, owner);
      TakeSnoc(tasks, n);
    }
    TakeAll(tasks);
  }

  // ----- The metrics

  /** Share of true verdicts, zero for none at all. */
  function Rate(values: seq<bool>): real {
    if values == [] then 0.0 else CountTrue(values) as real / |values| as real
  }

  function AsNumber(b: bool): real {
    if b then 1.0 else 0.0
  }

  lemma {:induction false} CountIsSum(values: seq<bool>)
    ensures Sum(Map(AsNumber, values)) == CountTrue(values) as real
  {
    if values != [] {
      MapCons(AsNumber, values);
      CountIsSum(values[1..]);
    }
  }

  /** The share is the mean of the verdicts, a true one counting one. */
  lemma RateIsMean(values: seq<bool>)
    ensures Rate(values) == MeanOr(Map(AsNumber, values), 0.0)
  {
    CountIsSum(values);
  }

  datatype AgentMetrics = AgentMetrics(
    taskSuccess: real,
    decisionSuccessAt1: real,
    staleError: real,
    namespaceLeak: real,
    coherentTurns: nat,
    coherentTurnRate: real,
    contextTokens: nat,
    fullContextTokens: nat,
    contextSaved: real,
    categorySuccess: Dict<string, real>,
    avgLatency: real,
    p95Latency: real,
    tasks: nat)

  ghost predicate HasTaskCategory(tasks: seq<AgentTask>, category: string) {
    exists i :: 0 <= i < |tasks| && tasks[i].category == category
  }

  /** Mean success per category, for exactly the categories that occur, in alphabetical order. */
  ghost predicate TaskCategoryTable(d: Dict<string, real>, tasks: seq<AgentTask>, rankings: Rankings, k: int) {
    && d.Valid() && StableSort.Sorted(SortedNames.NameLeq, d.order)
    && (forall c :: c in d.at <==> HasTaskCategory(tasks, c))
    && (forall c :: c in d.at ==>
          d.at[c] == MeanOr(Map(ScoreOf(rankings, k), Filter(KeyIs(TaskCategory, c), tasks)), 0.0))
  }

  /** What the metrics of a run say about it, whatever computed them. */
  ghost predicate RunMetrics(m: AgentMetrics, tasks: seq<AgentTask>, rankings: Rankings, k: int,
        owner: map<string, string>) {
    var successes := Map(SuccessOf(rankings, k), tasks);
    && m.tasks == |tasks|
    && m.taskSuccess == Rate(successes)
    && m.decisionSuccessAt1 == Rate(Map(TopSuccessOf(rankings, k), tasks))
    && m.staleError == Rate(Map(StaleOf(rankings, k), Filter(Forbidding(), tasks)))
    && m.namespaceLeak == Rate(Map(LeakOf(rankings, k, owner), tasks))
    && LongestBlock(successes, m.coherentTurns)
    && m.coherentTurnRate == (if tasks == [] then 0.0 else m.coherentTurns as real / |tasks| as real)
    && TaskCategoryTable(m.categorySuccess, tasks, rankings, k)
  }

  ghost predicate RunCosts(m: AgentMetrics, memories: seq<string>, texts: Dict<string, seq<string>>,
        latencies: seq<real>, k: int)
    requires texts.Valid()
  {
    && m.contextTokens == ContextTokens(texts.order, texts.at, k)
    && m.fullContextTokens == TextTokens(memories)
    && m.contextSaved == SavedShare(m.contextTokens, m.fullContextTokens)
    && m.avgLatency == MeanOr(latencies, 0.0)
    && m.p95Latency == Percentiles.FloorIndex(latencies, 95)
  }

  lemma MeansAreTaskTable(lists: Dict<string, seq<real>>, means: Dict<string, real>, tasks: seq<AgentTask>,
        rankings: Rankings, k: int)
    requires Grouped(lists, TaskCategory, ScoreOf(rankings, k), tasks) && MeansOf(means, lists)
    ensures TaskCategoryTable(means, tasks, rankings, k)
  {
    forall c ensures c in lists.at <==> HasTaskCategory(tasks, c) {
      GroupedKeys(lists, TaskCategory, ScoreOf(rankings, k), tasks, c);
    }
  }

  /** `compute_agent_metrics`, on the texts of the scenario's memories. */
  method ComputeAgentMetrics(tasks: seq<AgentTask>, memories: seq<string>, rankings: Rankings,
        texts: Dict<string, seq<string>>,
                             latencies: seq<real>, k: int, owner: map<string, string>)
    returns (m: AgentMetrics)
    requires texts.Valid()
    ensures RunMetrics(m, tasks, rankings, k, owner)
    ensures RunCosts(m, memories, texts, latencies, k)
  {
    hide Grouped;
    hide MeansOf;
    hide LongestBlock;
    var b := FillBoard(tasks, rankings, k, owner);
    var tokens := CountContextTokens(texts, k);
    var fullTokens := CountTextTokens(memories);
    var p95 := LatencyAt(latencies, 0.95, 95);
    var turns := LongestTrueRun(b.successes);
    var categories := MeansByCategory(b.categories, tasks, rankings, k);
    m := AgentMetrics(
      Rate(b.successes), Rate(b.topSuccesses), Rate(b.staleErrors), Rate(b.leaks),
      turns, if b.successes == [] then 0.0 else turns as real / |b.successes| as real,
      tokens, fullTokens, SavedShare(tokens, fullTokens), categories,
      MeanOr(latencies, 0.0), p95, |tasks|);
  }

  method MeansByCategory(lists: Dict<string, seq<real>>, ghost tasks: seq<AgentTask>, ghost rankings: Rankings,
        ghost k: int)
    returns (means: Dict<string, real>)
    requires Grouped(lists, TaskCategory, ScoreOf(rankings, k), tasks)
    ensures TaskCategoryTable(means, tasks, rankings, k)
  {
    means := MeansByKey(lists);
    MeansAreTaskTable(lists, means, tasks, rankings, k);
  }

  // ----- What the extreme rates say

  lemma {:induction false} CountExtremes(values: seq<bool>)
    ensures CountTrue(values) <= |values|
    ensures CountTrue(values) == 0 <==> forall i :: 0 <= i < |values| ==> !values[i]
    ensures CountTrue(values) == |values| <==> forall i :: 0 <= i < |values| ==> values[i]
  {
    if values != [] {
      CountExtremes(values[1..]);
      assert values == [values[0]] + values[1..];
    }
  }

  lemma ShareExtremes(count: nat, n: nat)
    requires n > 0
    ensures count as real / n as real == 0.0 <==> count == 0
    ensures count as real / n as real == 1.0 <==> count == n
  {
    var share := count as real / n as real;
    assert share * n as real == count as real;
  }

  lemma RateExtremes(values: seq<bool>)
    ensures Rate(values) == 0.0 <==> forall i :: 0 <= i < |values| ==> !values[i]
    ensures Rate(values) == 1.0 <==> values != [] && forall i :: 0 <= i < |values| ==> values[i]
  {
    CountExtremes(values);
    if values != [] {
      ShareExtremes(CountTrue(values), |values|);
    }
  }

  /** Among what the request retrieved. */
  ghost predicate RetrievesOneOf(rankings: Rankings, k: int, t: AgentTask, ids: seq<string>) {
    exists i :: 0 <= i < |Retrieved(rankings, t, k)| && Retrieved(rankings, t, k)[i] in ids
  }

  /** No leak at all means that nothing retrieved is known to be owned by another namespace. */
  lemma NoLeakExactly(m: AgentMetrics, tasks: seq<AgentTask>, rankings: Rankings, k: int, owner: map<string, string>)
    requires RunMetrics(m, tasks, rankings, k, owner)
    ensures m.namespaceLeak == 0.0 <==>
              forall t, id :: t in tasks && id in Retrieved(rankings, t, k) && id in owner ==> owner[id] == t.namespace
  {
    var leaks := Map(LeakOf(rankings, k, owner), tasks);
    RateExtremes(leaks);
    if m.namespaceLeak == 0.0 {
      forall t, id | t in tasks && id in Retrieved(rankings, t, k) && id in owner ensures owner[id] == t.namespace {
        var n :| 0 <= n < |tasks| && tasks[n] == t;
        assert !leaks[n];
      }
    }
  }

  /** No stale error at all means that nothing retrieved is forbidden to its request. */
  lemma NoStaleExactly(m: AgentMetrics, tasks: seq<AgentTask>, rankings: Rankings, k: int, owner: map<string, string>)
    requires RunMetrics(m, tasks, rankings, k, owner)
    ensures m.staleError == 0.0 <==>
              forall t :: t in tasks ==> !RetrievesOneOf(rankings, k, t, t.forbidden)
  {
    var asked := Filter(Forbidding(), tasks);
    var stale := Map(StaleOf(rankings, k), asked);
    RateExtremes(stale);
    if m.staleError == 0.0 {
      forall t | t in tasks ensures !RetrievesOneOf(rankings, k, t, t.forbidden) {
        FilterIn(Forbidding(), tasks, t);
        if t.forbidden != [] {
          var n :| 0 <= n < |asked| && asked[n] == t;
          assert !stale[n];
        }
      }
    } else {
      var n :| 0 <= n < |stale| && stale[n];
      FilterIn(Forbidding(), tasks, asked[n]);
      assert RetrievesOneOf(rankings, k, asked[n], asked[n].forbidden);
    }
  }

  /** Full success means that every request retrieves something it expects, if it expects anything, and
      nothing forbidden; it is the same as one coherent run over all requests. */
  lemma FullSuccessExactly(m: AgentMetrics, tasks: seq<AgentTask>, rankings: Rankings, k: int,
        owner: map<string, string>)
    requires RunMetrics(m, tasks, rankings, k, owner) && tasks != []
    ensures m.taskSuccess == 1.0 <==>
              forall t :: t in tasks ==>
                && (t.expected != [] ==> RetrievesOneOf(rankings, k, t, t.expected))
                && !RetrievesOneOf(rankings, k, t, t.forbidden)
    ensures m.taskSuccess == 1.0 <==> m.coherentTurns == |tasks|
  {
    var successes := Map(SuccessOf(rankings, k), tasks);
    RateExtremes(successes);
    forall n | 0 <= n < |tasks|
      ensures successes[n] <==>
                && (tasks[n].expected != [] ==> RetrievesOneOf(rankings, k, tasks[n], tasks[n].expected))
                && !RetrievesOneOf(rankings, k, tasks[n], tasks[n].forbidden)
    {
    }
    if m.taskSuccess == 1.0 {
      assert TrueBlock(successes, 0, |tasks|);
    }
    if m.coherentTurns == |tasks| {
      var i, j :| TrueBlock(successes, i, j) && j - i == m.coherentTurns;
    }
  }

  /** Full success in the first place means that every request retrieves something, in the first place
      something it expects, if it expects anything, and nowhere anything forbidden. */
  lemma FullTopSuccessExactly(m: AgentMetrics, tasks: seq<AgentTask>, rankings: Rankings, k: int,
        owner: map<string, string>)
    requires RunMetrics(m, tasks, rankings, k, owner) && tasks != []
    ensures m.decisionSuccessAt1 == 1.0 <==>
              forall t :: t in tasks ==>
                && Retrieved(rankings, t, k) != []
                && (t.expected != [] ==> Retrieved(rankings, t, k)[0] in t.expected)
                && !RetrievesOneOf(rankings, k, t, t.forbidden)
  {
    var top := Map(TopSuccessOf(rankings, k), tasks);
    RateExtremes(top);
    forall n | 0 <= n < |tasks|
      ensures top[n] <==>
                && Retrieved(rankings, tasks[n], k) != []
                && (tasks[n].expected != [] ==> Retrieved(rankings, tasks[n], k)[0] in tasks[n].expected)
                && !RetrievesOneOf(rankings, k, tasks[n], tasks[n].forbidden)
    {
    }
  }

  // ----- How the counters bound one another

  lemma {:induction false} FewerTrue(a: seq<bool>, b: seq<bool>)
    requires |a| == |b| && forall i :: 0 <= i < |a| && a[i] ==> b[i]
    ensures CountTrue(a) <= CountTrue(b)
  {
    if a != [] {
      FewerTrue(a[1..], b[1..]);
    }
  }

  /** First-place successes never exceed successes. */
  lemma TopSuccessesWithin(tasks: seq<AgentTask>, rankings: Rankings, k: int)
    ensures CountTrue(Map(TopSuccessOf(rankings, k), tasks)) <= CountTrue(Map(SuccessOf(rankings, k), tasks))
  {
    var top, all := Map(TopSuccessOf(rankings, k), tasks), Map(SuccessOf(rankings, k), tasks);
    forall i | 0 <= i < |top| && top[i] ensures all[i] {
      var ranked := Retrieved(rankings, tasks[i], k);
      assert tasks[i].expected != [] ==> ranked[0] in tasks[i].expected;
    }
    FewerTrue(top, all);
  }

  /** A request that retrieved something forbidden did not succeed. */
  lemma {:induction false} StaleTasksFail(tasks: seq<AgentTask>, rankings: Rankings, k: int)
    ensures CountTrue(Map(SuccessOf(rankings, k), tasks))
            + CountTrue(Map(StaleOf(rankings, k), Filter(Forbidding(), tasks))) <= |tasks|
  {
    if tasks != [] {
      StaleTasksFail(tasks[1..], rankings, k);
      MapCons(SuccessOf(rankings, k), tasks);
      if tasks[0].forbidden != [] {
        MapCons(StaleOf(rankings, k), Filter(Forbidding(), tasks));
      }
    }
  }

  /** Between the counters: first-place successes and the longest run never exceed the successes, which
      with the stale errors never exceed the requests. */
  lemma CountersBound(b: Board, best: nat, tasks: seq<AgentTask>, rankings: Rankings, k: int,
        owner: map<string, string>)
    requires BoardOf(b, tasks, rankings, k, owner) && LongestBlock(b.successes, best)
    ensures CountTrue(b.topSuccesses) <= CountTrue(b.successes)
    ensures CountTrue(b.successes) + CountTrue(b.staleErrors) <= |tasks|
    ensures best <= CountTrue(b.successes)
  {
    TopSuccessesWithin(tasks, rankings, k);
    StaleTasksFail(tasks, rankings, k);
    LongestRunBounds(b.successes, best);
  }

  /** Between the reported rates: both are at most the success rate, which is at most one. */
  lemma RatesBound(m: AgentMetrics, tasks: seq<AgentTask>, rankings: Rankings, k: int, owner: map<string, string>)
    requires RunMetrics(m, tasks, rankings, k, owner)
    ensures 0.0 <= m.decisionSuccessAt1 <= m.taskSuccess <= 1.0
    ensures 0.0 <= m.coherentTurnRate <= m.taskSuccess
  {
    hide LongestBlock;
    var successes := Map(SuccessOf(rankings, k), tasks);
    TopSuccessesWithin(tasks, rankings, k);
    LongestRunBounds(successes, m.coherentTurns);
    FilterShorter(IsTrue(), successes);
    if tasks != [] {
      SharesOrdered(CountTrue(Map(TopSuccessOf(rankings, k), tasks)), CountTrue(successes), |tasks|);
      SharesOrdered(m.coherentTurns, CountTrue(successes), |tasks|);
    }
  }

  lemma SharesOrdered(a: nat, b: nat, n: nat)
    requires a <= b <= n && n > 0
    ensures 0.0 <= a as real / n as real <= b as real / n as real <= 1.0
  {
    RatioInUnit(a, n);
    RatioInUnit(b, n);
    DivMonotone(a as real, b as real, n);
  }
}
