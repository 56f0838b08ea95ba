/** Dominance, the Pareto frontier and the rankings of the cost leaderboard. */
module CostLeaderboard {
  import opened Wrappers
  import opened Sequences
  import opened StableSort
  import opened SortedNames
  import Lexicographic

  datatype Slo = Pass | ScaleRequired | Fail | Other(status: string)

  datatype Row = Row(
    profile: string,
    sourceFile: string,
    targetClass: string,
    memoryCount: int,
    recall: Option<real>,
    p99: Option<real>,
    queryCost: Option<real>,
    memoryCost: Option<real>,
    slo: Slo,
    validCost: bool,
    rank: nat)

  const MISSING := 1_000_000_000.0

  /** `value or default`: a zero counts as missing. */
  function OrElse(value: Option<real>, default: real): real {
    if value == None || value == Some(0.0) then default else value.value
  }

  function Recall(r: Row): real { OrElse(r.recall, 0.0) }
  function P99(r: Row): real { OrElse(r.p99, MISSING) }
  function QueryCost(r: Row): real { OrElse(r.queryCost, MISSING) }
  function MemoryCost(r: Row): real { OrElse(r.memoryCost, MISSING) }

  predicate Dominates(r: Row, s: Row) {
    && Recall(r) >= Recall(s)
    && P99(r) <= P99(s)
    && QueryCost(r) <= QueryCost(s)
    && MemoryCost(r) <= MemoryCost(s)
    && r.memoryCount >= s.memoryCount
    && (|| Recall(r) > Recall(s)
        || P99(r) < P99(s)
        || QueryCost(r) < QueryCost(s)
        || MemoryCost(r) < MemoryCost(s)
        || r.memoryCount > s.memoryCount)
  }

  /** Dominance is a strict partial order. */
  lemma DominanceStrictOrder(a: Row, b: Row, c: Row)
    ensures !Dominates(a, a)
    ensures Dominates(a, b) ==> !Dominates(b, a)
    ensures Dominates(a, b) && Dominates(b, c) ==> Dominates(a, c)
  {
  }

  /** The metric is reported, and is not zero. */
  predicate Reported(value: Option<real>) {
    value.Some? && value.value != 0.0
  }

  predicate AllReported(r: Row) {
    Reported(r.recall) && Reported(r.p99) && Reported(r.queryCost) && Reported(r.memoryCost)
  }

  /** Between rows that report everything, one dominates exactly when it is worse in none of the five
      metrics and not equal in all of them. */
  lemma DominatesExactly(r: Row, s: Row)
    requires AllReported(r) && AllReported(s)
    ensures Dominates(r, s) <==>
              && r.recall.value >= s.recall.value
              && r.p99.value <= s.p99.value
              && r.queryCost.value <= s.queryCost.value
              && r.memoryCost.value <= s.memoryCost.value
              && r.memoryCount >= s.memoryCount
              && !(&& r.recall == s.recall && r.p99 == s.p99 && r.queryCost == s.queryCost
                   && r.memoryCost == s.memoryCost && r.memoryCount == s.memoryCount)
  {
  }

  function SloPriority(r: Row): int {
    match r.slo
    case Pass => 0
    case ScaleRequired => 1
    case Fail => 2
    case Other(_) => 9
  }

  predicate MetricsTie(r: Row, s: Row) {
    Recall(r) == Recall(s) && P99(r) == P99(s) && QueryCost(r) == QueryCost(s) && r.memoryCount == s.memoryCount
  }

  predicate MetricsFirst(r: Row, s: Row) {
    || Recall(r) > Recall(s)
    || (Recall(r) == Recall(s) &&
        (|| P99(r) < P99(s)
         || (P99(r) == P99(s) &&
             (|| QueryCost(r) < QueryCost(s)
              || (QueryCost(r) == QueryCost(s) && r.memoryCount > s.memoryCount)))))
  }

  /** `_ranking_key(r) <= _ranking_key(s)`, compared component by component. */
  predicate RankLeq(r: Row, s: Row) {
    if r.validCost != s.validCost then r.validCost
    else if SloPriority(r) != SloPriority(s) then SloPriority(r) < SloPriority(s)
    else MetricsFirst(r, s) || (MetricsTie(r, s) && Lexicographic.Leq(r.profile, s.profile))
  }

  lemma RankLeqOrders()
    ensures TotalPreorder(RankLeq)
  {
    forall r, s ensures RankLeq(r, s) || RankLeq(s, r) {
      Lexicographic.Total(r.profile, s.profile);
    }
    forall r, s, t | RankLeq(r, s) && RankLeq(s, t) ensures RankLeq(r, t) {
      if Lexicographic.Leq(r.profile, s.profile) && Lexicographic.Leq(s.profile, t.profile) {
        Lexicographic.Transitive(r.profile, s.profile, t.profile);
      }
    }
  }

  // ----- Ranks

  function Ranked(rows: seq<Row>): (r: seq<Row>)
    ensures |r| == |rows|
    ensures forall i :: 0 <= i < |r| ==> r[i] == rows[i].(rank := i + 1)
  {
    seq(|rows|, i requires 0 <= i < |rows| => rows[i].(rank := i + 1))
  }

  /** A row without the rank an earlier ranking gave it. */
  function Unranked(r: Row): Row {
    r.(rank := 0)
  }

  method ApplyRanks(rows: seq<Row>) returns (ranked: seq<Row>)
    ensures ranked == Ranked(rows)
  {
    ranked := [];
    for n := 0 to |rows|
      invariant |ranked| == n
      invariant forall i :: 0 <= i < n ==> ranked[i] == rows[i].(rank := i + 1)
    {
      ranked := ranked + [rows[n].(rank := n + 1)];
    }
  }

  lemma RankedForgets(rows: seq<Row>)
    ensures Ranked(Map(Unranked, rows)) == Ranked(rows)
    ensures Map(Unranked, Ranked(rows)) == Map(Unranked, rows)
  {
  }

  lemma RankLeqUnranked(r: Row, s: Row)
    ensures RankLeq(Unranked(r), Unranked(s)) == RankLeq(r, s)
    ensures RankLeq(Unranked(r), s) == RankLeq(r, s) == RankLeq(r, Unranked(s))
  {
  }

  lemma {:induction false} InsertUnranked(x: Row, s: seq<Row>)
    ensures Map(Unranked, Insert(RankLeq, x, s)) == Insert(RankLeq, Unranked(x), Map(Unranked, s))
  {
    if s != [] {
      hide RankLeq;
      hide Unranked;
      MapCons(Unranked, s);
      RankLeqUnranked(x, s[0]);
      if RankLeq(x, s[0]) {
        MapCons(Unranked, [x] + s);
      } else {
        InsertUnranked(x, s[1..]);
        MapCons(Unranked, [s[0]] + Insert(RankLeq, x, s[1..]));
      }
    }
  }

  /** The ranking key ignores the rank. */
  lemma {:induction false} SortUnranked(s: seq<Row>)
    ensures Map(Unranked, Sort(RankLeq, s)) == Sort(RankLeq, Map(Unranked, s))
  {
    if s != [] {
      SortUnranked(s[1..]);
      InsertUnranked(s[0], Sort(RankLeq, s[1..]));
      MapCons(Unranked, s);
    }
  }

  // ----- The frontier

  ghost predicate DominatedIn(rows: seq<Row>, r: Row) {
    exists i :: 0 <= i < |rows| && rows[i].validCost && Dominates(rows[i], r)
  }

  ghost function OnFrontier(rows: seq<Row>): Row -> bool {
    (r: Row) => r.validCost && !DominatedIn(rows, r)
  }

  ghost function NonDominated(rows: seq<Row>): seq<Row> {
    Filter(OnFrontier(rows), rows)
  }

  ghost function FrontierOf(rows: seq<Row>): seq<Row> {
    Ranked(Sort(RankLeq, NonDominated(rows)))
  }

  function ValidCost(): Row -> bool {
    (r: Row) => r.validCost
  }

  /** `_frontier`. A candidate is compared with those at every other position; comparing it with a second
      listing of itself changes nothing, because no row dominates itself. */
  method Frontier(rows: seq<Row>) returns (ranked: seq<Row>)
    ensures ranked == FrontierOf(rows)
  {
    var candidates := Candidates(rows);
    var frontier := [];
    for n := 0 to |candidates|
      invariant frontier == Filter(OnFrontier(rows), candidates[..n])
    {
      var dominated := DominatedElsewhere(candidates, n);
      FilterIn(ValidCost(), rows, candidates[n]);
      CandidatesDominate(rows, candidates[n]);
      FilterSnoc(OnFrontier(rows), candidates[..n], candidates[n]);
      TakeSnoc(candidates, n);
      if !dominated {
        frontier := frontier + [candidates[n]];
      }
    }
    TakeAll(candidates);
    FilterFilter(OnFrontier(rows), ValidCost(), OnFrontier(rows), rows);
    ranked := ApplyRanks(Sort(RankLeq, frontier));
  }

  method Candidates(rows: seq<Row>) returns (candidates: seq<Row>)
    ensures candidates == Filter(ValidCost(), rows)
  {
    candidates := [];
    for n := 0 to |rows|
      invariant candidates == Filter(ValidCost(), rows[..n])
    {
      FilterSnoc(ValidCost(), rows[..n], rows[n]);
      TakeSnoc(rows, n);
      if rows[n].validCost {
        candidates := candidates + [rows[n]];
      }
    }
    TakeAll(rows);
  }

  /** Whether any other candidate dominates candidate `n`. */
  method DominatedElsewhere(candidates: seq<Row>, n: nat) returns (dominated: bool)
    requires n < |candidates|
    ensures dominated <==> AnyDominates(candidates, candidates[n])
  {
    dominated := false;
    for m := 0 to |candidates|
      invariant dominated <==> exists i :: 0 <= i < m && Dominates(candidates[i], candidates[n])
    {
      if m != n && Dominates(candidates[m], candidates[n]) {
        dominated := true;
      }
    }
  }

  ghost predicate AnyDominates(rows: seq<Row>, r: Row) {
    exists i :: 0 <= i < |rows| && Dominates(rows[i], r)
  }

  lemma CandidatesDominate(rows: seq<Row>, r: Row)
    ensures DominatedIn(rows, r) <==> AnyDominates(Filter(ValidCost(), rows), r)
  {
    var candidates := Filter(ValidCost(), rows);
    if DominatedIn(rows, r) {
      var i :| 0 <= i < |rows| && rows[i].validCost && Dominates(rows[i], r);
      FilterIn(ValidCost(), rows, rows[i]);
      var j :| 0 <= j < |candidates| && candidates[j] == rows[i];
      assert Dominates(candidates[j], r);
    }
    if AnyDominates(candidates, r) {
      var i :| 0 <= i < |candidates| && Dominates(candidates[i], r);
      FilterIn(ValidCost(), rows, candidates[i]);
      var j :| 0 <= j < |rows| && rows[j] == candidates[i];
      assert rows[j].validCost && Dominates(rows[j], r);
    }
  }

  ghost function Dominators(rows: seq<Row>, r: Row): set<int> {
    set i | 0 <= i < |rows| && rows[i].validCost && Dominates(rows[i], r)
  }

  /** Climbing from a dominated row always ends at an undominated one. */
  lemma SomeFrontierDominator(rows: seq<Row>, r: Row) returns (i: nat)
    requires DominatedIn(rows, r)
    ensures i < |rows| && OnFrontier(rows)(rows[i]) && Dominates(rows[i], r)
    decreases |Dominators(rows, r)|
  {
    i :| i < |rows| && rows[i].validCost && Dominates(rows[i], r);
    if DominatedIn(rows, rows[i]) {
      forall k | k in Dominators(rows, rows[i]) ensures k in Dominators(rows, r) {
        DominanceStrictOrder(rows[k], rows[i], r);
      }
      assert i in Dominators(rows, r) && i !in Dominators(rows, rows[i]);
      ProperSubsetSmaller(Dominators(rows, rows[i]), Dominators(rows, r), i);
      var j := SomeFrontierDominator(rows, rows[i]);
      i := j;
    }
  }

  lemma ProperSubsetSmaller(a: set<int>, b: set<int>, x: int)
    requires a <= b && x in b && x !in a
    ensures |a| < |b|
  {
    var rest := b - a;
    assert x in rest && b == a + rest;
  }

  lemma FrontierRow(rows: seq<Row>, r: Row)
    ensures r in Sort(RankLeq, NonDominated(rows)) <==> r in rows && OnFrontier(rows)(r)
  {
    RankLeqOrders();
    SortIn(RankLeq, NonDominated(rows), r);
    FilterIn(OnFrontier(rows), rows, r);
  }

  /** Frontier rows are valid-cost input rows, numbered from one in ranking order. */
  lemma FrontierIsRanked(rows: seq<Row>, i: nat)
    requires i < |FrontierOf(rows)|
    ensures var f := FrontierOf(rows);
            && (exists r :: r in rows && r.validCost && Unranked(r) == Unranked(f[i]))
            && f[i].rank == i + 1
            && forall j :: i < j < |f| ==> RankLeq(f[i], f[j])
  {
    RankLeqOrders();
    var s := Sort(RankLeq, NonDominated(rows));
    SortCorrect(RankLeq, NonDominated(rows));
    FrontierRow(rows, s[i]);
    assert s[i] in rows && Unranked(s[i]) == Unranked(FrontierOf(rows)[i]);
    forall j | i < j < |s| ensures RankLeq(FrontierOf(rows)[i], FrontierOf(rows)[j]) {
      assert RankLeq(s[i], s[j]);
    }
  }

  /** No frontier row dominates another. */
  lemma FrontierIsAntichain(rows: seq<Row>, i: nat, j: nat)
    requires i < |FrontierOf(rows)| && j < |FrontierOf(rows)|
    ensures !Dominates(FrontierOf(rows)[i], FrontierOf(rows)[j])
  {
    var s := Sort(RankLeq, NonDominated(rows));
    FrontierRow(rows, s[i]);
    FrontierRow(rows, s[j]);
    var k :| 0 <= k < |rows| && rows[k] == s[i];
    assert rows[k].validCost && !DominatedIn(rows, s[j]);
    assert !Dominates(rows[k], s[j]);
  }

  /** Every valid-cost row is on the frontier, or dominated by a row on it, and never both. */
  lemma FrontierIsComplete(rows: seq<Row>, r: Row)
    requires r in rows && r.validCost
    ensures var f := FrontierOf(rows);
            (exists i :: 0 <= i < |f| && Unranked(f[i]) == Unranked(r)) <==>
            !(exists i :: 0 <= i < |f| && Dominates(f[i], r))
  {
    var f, s := FrontierOf(rows), Sort(RankLeq, NonDominated(rows));
    FrontierRow(rows, r);
    if DominatedIn(rows, r) {
      var k := SomeFrontierDominator(rows, r);
      FrontierRow(rows, rows[k]);
      var i :| 0 <= i < |s| && s[i] == rows[k];
      assert Dominates(f[i], r);
      forall j | 0 <= j < |f| ensures Unranked(f[j]) != Unranked(r) {
        FrontierRow(rows, s[j]);
        assert Dominates(rows[k], r);
        assert Unranked(f[j]) == Unranked(s[j]);
        assert !Dominates(rows[k], s[j]);
      }
    } else {
      var i :| 0 <= i < |s| && s[i] == r;
      assert Unranked(f[i]) == Unranked(r);
      forall j | 0 <= j < |f| ensures !Dominates(f[j], r) {
        FrontierRow(rows, s[j]);
        var k :| 0 <= k < |rows| && rows[k] == s[j];
        assert !Dominates(rows[k], r);
      }
    }
  }

  // ----- The frontier of a union, from the frontiers of its parts

  lemma DominatedUnranked(rows: seq<Row>, r: Row)
    ensures DominatedIn(Map(Unranked, rows), Unranked(r)) <==> DominatedIn(rows, r)
  {
    var plain := Map(Unranked, rows);
    forall i | 0 <= i < |rows|
      ensures plain[i].validCost == rows[i].validCost
      ensures Dominates(plain[i], Unranked(r)) == Dominates(rows[i], r)
    {
    }
    if DominatedIn(rows, r) {
      var i :| 0 <= i < |rows| && rows[i].validCost && Dominates(rows[i], r);
      assert plain[i].validCost && Dominates(plain[i], Unranked(r));
    }
  }

  lemma {:induction false} FilterUnranked(p: Row -> bool, q: Row -> bool, s: seq<Row>)
    requires forall i :: 0 <= i < |s| ==> p(Unranked(s[i])) == q(s[i])
    ensures Filter(p, Map(Unranked, s)) == Map(Unranked, Filter(q, s))
  {
    if s != [] {
      FilterUnranked(p, q, s[1..]);
      assert Map(Unranked, s)[1..] == Map(Unranked, s[1..]);
      assert Map(Unranked, s)[0] == Unranked(s[0]);
    }
  }

  lemma NonDominatedUnranked(rows: seq<Row>)
    ensures NonDominated(Map(Unranked, rows)) == Map(Unranked, NonDominated(rows))
  {
    forall i | 0 <= i < |rows|
      ensures OnFrontier(Map(Unranked, rows))(Unranked(rows[i])) == OnFrontier(rows)(rows[i])
    {
      DominatedUnranked(rows, rows[i]);
    }
    FilterUnranked(OnFrontier(Map(Unranked, rows)), OnFrontier(rows), rows);
  }

  /** Ranks left over from an earlier ranking do not matter. */
  lemma FrontierForgetsRanks(rows: seq<Row>)
    ensures FrontierOf(Map(Unranked, rows)) == FrontierOf(rows)
    ensures Map(Unranked, FrontierOf(rows)) == Sort(RankLeq, NonDominated(Map(Unranked, rows)))
  {
    NonDominatedUnranked(rows);
    SortUnranked(NonDominated(rows));
    RankedForgets(Sort(RankLeq, NonDominated(rows)));
  }

  lemma PartFiltered(a: seq<Row>, all: seq<Row>)
    requires forall r :: DominatedIn(a, r) ==> DominatedIn(all, r)
    ensures Filter(OnFrontier(all), Sort(RankLeq, NonDominated(a))) == Sort(RankLeq, Filter(OnFrontier(all), a))
  {
    RankLeqOrders();
    FilterSort(OnFrontier(all), RankLeq, NonDominated(a));
    FilterFilter(OnFrontier(all), OnFrontier(a), OnFrontier(all), a);
  }

  lemma DominatedInParts(a: seq<Row>, b: seq<Row>, r: Row)
    ensures DominatedIn(a + b, r) <==> DominatedIn(a, r) || DominatedIn(b, r)
  {
    if DominatedIn(a, r) {
      var i :| 0 <= i < |a| && a[i].validCost && Dominates(a[i], r);
      assert (a + b)[i] == a[i];
    }
    if DominatedIn(b, r) {
      var i :| 0 <= i < |b| && b[i].validCost && Dominates(b[i], r);
      assert (a + b)[|a| + i] == b[i];
    }
  }

  /** Being dominated by a part's frontier is being dominated by the part. */
  lemma FrontierDominatesAlike(a: seq<Row>, r: Row)
    ensures DominatedIn(Sort(RankLeq, NonDominated(a)), r) <==> DominatedIn(a, r)
  {
    var s := Sort(RankLeq, NonDominated(a));
    if DominatedIn(a, r) {
      var i := SomeFrontierDominator(a, r);
      FrontierRow(a, a[i]);
      var j :| 0 <= j < |s| && s[j] == a[i];
      assert s[j].validCost && Dominates(s[j], r);
    }
    if DominatedIn(s, r) {
      var j :| 0 <= j < |s| && s[j].validCost && Dominates(s[j], r);
      FrontierRow(a, s[j]);
      var i :| 0 <= i < |a| && a[i] == s[j];
      assert a[i].validCost && Dominates(a[i], r);
    }
  }

  lemma UnrankedDecomposition(a: seq<Row>, b: seq<Row>)
    ensures var parts := Sort(RankLeq, NonDominated(a)) + Sort(RankLeq, NonDominated(b));
            Sort(RankLeq, NonDominated(parts)) == Sort(RankLeq, NonDominated(a + b))
  {
    RankLeqOrders();
    var fa, fb := Sort(RankLeq, NonDominated(a)), Sort(RankLeq, NonDominated(b));
    forall r ensures DominatedIn(fa + fb, r) <==> DominatedIn(a + b, r) {
      DominatedInParts(a, b, r);
      DominatedInParts(fa, fb, r);
      FrontierDominatesAlike(a, r);
      FrontierDominatesAlike(b, r);
    }
    var p := OnFrontier(a + b);
    FilterAgree(OnFrontier(fa + fb), p, fa + fb);
    FilterAppend(p, fa, fb);
    forall r ensures DominatedIn(a, r) || DominatedIn(b, r) ==> DominatedIn(a + b, r) {
      DominatedInParts(a, b, r);
    }
    PartFiltered(a, a + b);
    PartFiltered(b, a + b);
    SortParts(RankLeq, Filter(p, a), Filter(p, b));
    FilterAppend(p, a, b);
  }

  /** The frontier of a union is the frontier of the two frontiers: same rows, order and ranks. */
  lemma FrontierDecomposes(a: seq<Row>, b: seq<Row>)
    ensures FrontierOf(a + b) == FrontierOf(FrontierOf(a) + FrontierOf(b))
  {
    var ua, ub := Map(Unranked, a), Map(Unranked, b);
    FrontierForgetsRanks(a);
    FrontierForgetsRanks(b);
    FrontierForgetsRanks(a + b);
    MapAppend(Unranked, a, b);
    FrontierForgetsRanks(FrontierOf(a) + FrontierOf(b));
    MapAppend(Unranked, FrontierOf(a), FrontierOf(b));
    UnrankedDecomposition(ua, ub);
  }

  // ----- Rankings

  /** Every listing of `r` comes before every listing of `s`. */
  ghost predicate Before(r: Row, s: Row, list: seq<Row>) {
    forall i, j :: 0 <= i < |list| && 0 <= j < |list| && list[i] == r && list[j] == s ==> i < j
  }

  /** The ranking key of `r` is strictly smaller. */
  predicate RankLess(r: Row, s: Row) {
    RankLeq(r, s) && !RankLeq(s, r)
  }

  lemma InOrder(list: seq<Row>, i: nat, j: nat)
    requires Sorted(RankLeq, list) && i < |list| && j < |list|
    ensures i < j ==> RankLeq(list[i], list[j])
  {
  }

  /** Whatever the other rows, a strictly smaller key is listed first; and only that is enough. */
  lemma BeforeExactly(r: Row, s: Row)
    requires r != s
    ensures (forall rows :: Before(r, s, Sort(RankLeq, rows))) <==> RankLess(r, s)
  {
    RankLeqOrders();
    if RankLess(r, s) {
      forall rows ensures Before(r, s, Sort(RankLeq, rows)) {
        SortCorrect(RankLeq, rows);
        var list := Sort(RankLeq, rows);
        forall i, j | 0 <= i < |list| && 0 <= j < |list| && list[i] == r && list[j] == s ensures i < j {
          InOrder(list, j, i);
        }
      }
    } else {
      var rows := [s, r];
      SortedUnmoved(RankLeq, rows);
      assert rows[1] == r && rows[0] == s && !Before(r, s, rows);
      assert !Before(r, s, Sort(RankLeq, rows));
    }
  }

  /** A smaller reported value; a missing or zero one counts as a billion. */
  predicate Cheaper(a: Option<real>, b: Option<real>) {
    if Reported(a) then a.value < (if Reported(b) then b.value else 1_000_000_000.0)
    else Reported(b) && 1_000_000_000.0 < b.value
  }

  /** A larger reported value; a missing one counts as zero. */
  predicate Better(a: Option<real>, b: Option<real>) {
    if Reported(a) then a.value > (if Reported(b) then b.value else 0.0) else Reported(b) && 0.0 > b.value
  }

  /** How good a status is, best first. */
  predicate BetterSlo(a: Slo, b: Slo) {
    || (a == Pass && b != Pass)
    || (a == ScaleRequired && b != Pass && b != ScaleRequired)
    || (a == Fail && b.Other?)
  }

  /** Statuses the ranking does not tell apart. */
  predicate SameSlo(a: Slo, b: Slo) {
    a == b || (a.Other? && b.Other?)
  }

  ghost predicate AlwaysBefore(r: Row, s: Row) {
    forall rows :: Before(r, s, Sort(RankLeq, rows))
  }

  /** Which field decides, from the first to the last: valid cost, SLO status, recall, p99 latency, query
      cost, number of memories, profile. Each decides whatever the later ones are. */
  lemma RankingOrder(r: Row, s: Row)
    ensures r.validCost && !s.validCost ==> AlwaysBefore(r, s)
    ensures r.validCost == s.validCost ==>
              && (BetterSlo(r.slo, s.slo) ==> AlwaysBefore(r, s))
              && (SameSlo(r.slo, s.slo) ==>
                    && (Better(r.recall, s.recall) ==> AlwaysBefore(r, s))
                    && (r.recall == s.recall ==>
                          && (Cheaper(r.p99, s.p99) ==> AlwaysBefore(r, s))
                          && (r.p99 == s.p99 ==>
                                && (Cheaper(r.queryCost, s.queryCost) ==> AlwaysBefore(r, s))
                                && (r.queryCost == s.queryCost ==>
                                      && (r.memoryCount > s.memoryCount ==> AlwaysBefore(r, s))
                                      && (r.memoryCount == s.memoryCount && Lexicographic.Less(r.profile, s.profile)
                                          ==> AlwaysBefore(r, s))))))
  {
    KeyOrder(r, s);
    AlwaysBeforeOf(r, s);
    hide RankLess;
    hide AlwaysBefore;
    hide Cheaper;
    hide Better;
    hide BetterSlo;
    hide SameSlo;
  }

  lemma AlwaysBeforeOf(r: Row, s: Row)
    ensures RankLess(r, s) ==> AlwaysBefore(r, s)
  {
    if r != s {
      BeforeExactly(r, s);
    }
  }

  /** The same about the ranking key. */
  lemma KeyOrder(r: Row, s: Row)
    ensures r.validCost && !s.validCost ==> RankLess(r, s)
    ensures r.validCost == s.validCost && BetterSlo(r.slo, s.slo) ==> RankLess(r, s)
    ensures r.validCost == s.validCost && SameSlo(r.slo, s.slo) && Better(r.recall, s.recall) ==> RankLess(r, s)
    ensures r.validCost == s.validCost && SameSlo(r.slo, s.slo) && r.recall == s.recall ==>
              && (Cheaper(r.p99, s.p99) ==> RankLess(r, s))
              && (r.p99 == s.p99 ==>
                    && (Cheaper(r.queryCost, s.queryCost) ==> RankLess(r, s))
                    && (r.queryCost == s.queryCost ==>
                          && (r.memoryCount > s.memoryCount ==> RankLess(r, s))
                          && (r.memoryCount == s.memoryCount && Lexicographic.Less(r.profile, s.profile)
                              ==> RankLess(r, s))))
  {
    if Lexicographic.Leq(r.profile, s.profile) && Lexicographic.Leq(s.profile, r.profile) {
      Lexicographic.Antisymmetric(r.profile, s.profile);
    }
  }

  lemma DominanceInKey(r: Row, s: Row)
    requires r.validCost && s.validCost && Dominates(r, s)
    ensures RankLess(r, s) <==>
              || SloPriority(r) < SloPriority(s)
              || (SloPriority(r) == SloPriority(s) && (MetricsTie(r, s) ==> Lexicographic.Less(r.profile, s.profile)))
    ensures MetricsTie(r, s) ==> MemoryCost(r) < MemoryCost(s)
  {
    Lexicographic.Total(r.profile, s.profile);
    if Lexicographic.Leq(r.profile, s.profile) && Lexicographic.Leq(s.profile, r.profile) {
      Lexicographic.Antisymmetric(r.profile, s.profile);
    }
  }

  /** Between valid-cost rows, exactly when every ranking lists a dominating row before the row it dominates:
      for a better SLO status, or for the same one and, where the four ranked metrics tie, a smaller profile. */
  lemma DominanceInRanking(r: Row, s: Row)
    requires r.validCost && s.validCost && Dominates(r, s)
    ensures (forall rows :: Before(r, s, Sort(RankLeq, rows))) <==>
              || SloPriority(r) < SloPriority(s)
              || (SloPriority(r) == SloPriority(s) && (MetricsTie(r, s) ==> Lexicographic.Less(r.profile, s.profile)))
  {
    DominanceStrictOrder(r, r, r);
    DominanceInKey(r, s);
    BeforeExactly(r, s);
  }

  const EARLY := Row("a", "benchmarks/production_scale_run_plan.json", "sub_100k", 50_000, Some(1.0), Some(1.0),
        Some(1.0), Some(2.0), Pass, true, 0)
  const DOMINATING := Row("b", "benchmarks/production_scale_run_plan.json", "sub_100k", 50_000, Some(1.0), Some(1.0),
        Some(1.0), Some(1.0), Pass, true, 0)

  /** Two valid rows of equal SLO status where the dominated one is ranked strictly first. */
  lemma ProfileCanOutrankDominance()
    ensures Dominates(DOMINATING, EARLY)
    ensures Sort(RankLeq, [DOMINATING, EARLY]) == [EARLY, DOMINATING]
  {
    assert !Lexicographic.Leq("b", "a");
    assert Sort(RankLeq, [EARLY]) == Insert(RankLeq, EARLY, []) == [EARLY];
    assert [DOMINATING, EARLY][1..] == [EARLY];
    assert !RankLeq(DOMINATING, EARLY);
    assert Insert(RankLeq, DOMINATING, [EARLY]) == [EARLY] + Insert(RankLeq, DOMINATING, []);
  }

  /** With equal profiles the keys tie, and the dominated row is listed first if it came first. */
  lemma InputOrderCanOutrankDominance()
    ensures var r := DOMINATING.(profile := EARLY.profile);
            && Dominates(r, EARLY) && MetricsTie(r, EARLY)
            && Sort(RankLeq, [EARLY, r]) == [EARLY, r]
  {
    var r := DOMINATING.(profile := EARLY.profile);
    Lexicographic.Total(r.profile, r.profile);
    assert RankLeq(EARLY, r);
    SortedUnmoved(RankLeq, [EARLY, r]);
  }

  function ClassOf(r: Row): string {
    r.targetClass
  }

  function Itself(r: Row): Row {
    r
  }

  function OfClass(c: string, rows: seq<Row>): seq<Row> {
    Filter(KeyIs(ClassOf, c), rows)
  }

  ghost predicate HasClass(rows: seq<Row>, c: string) {
    exists i :: 0 <= i < |rows| && rows[i].targetClass == c
  }

  method GroupByTargetClass(rows: seq<Row>) returns (grouped: Dict<string, seq<Row>>)
    ensures grouped.Valid()
    ensures forall c :: c in grouped.at ==> grouped.at[c] == OfClass(c, rows)
    ensures forall c :: c in grouped.at <==> HasClass(rows, c)
  {
    grouped := GroupBy(ClassOf, Itself, rows);
    forall c | c in grouped.at
      ensures grouped.at[c] == OfClass(c, rows)
      ensures HasClass(rows, c)
    {
      assert Map(Itself, OfClass(c, rows)) == OfClass(c, rows);
      FilterIn(KeyIs(ClassOf, c), rows, grouped.at[c][0]);
    }
    forall i | 0 <= i < |rows| ensures rows[i].targetClass in grouped.at {
      assert ClassOf(rows[i]) in grouped.at;
    }
  }

  /** Ranking a class by itself is restricting the global ranking to it. */
  lemma ClassRankingIsGlobal(c: string, rows: seq<Row>)
    ensures Sort(RankLeq, OfClass(c, rows)) == OfClass(c, Sort(RankLeq, rows))
  {
    RankLeqOrders();
    FilterSort(KeyIs(ClassOf, c), RankLeq, rows);
  }

  method RankGroups(grouped: Dict<string, seq<Row>>, ghost rows: seq<Row>) returns (ranked: map<string, seq<Row>>)
    requires grouped.Valid()
    requires forall c :: c in grouped.at ==> grouped.at[c] == OfClass(c, rows)
    ensures forall c :: c in ranked <==> c in grouped.at
    ensures forall c :: c in ranked ==> ranked[c] == Ranked(OfClass(c, Sort(RankLeq, rows)))
  {
    hide RankLeq;
    hide Sort;
    hide OfClass;
    hide Ranked;
    ranked := map[];
    for n := 0 to |grouped.order|
      invariant forall c :: c in ranked <==> c in grouped.order[..n]
      invariant forall c :: c in ranked ==> ranked[c] == Ranked(OfClass(c, Sort(RankLeq, rows)))
    {
      var c := grouped.order[n];
      var values := ApplyRanks(Sort(RankLeq, grouped.at[c]));
      ClassRankingIsGlobal(c, rows);
      TakeSnoc(grouped.order, n);
      ranked := ranked[c := values];
    }
    TakeAll(grouped.order);
  }

  /** The lists of a dictionary, one after the other in its order. */
  function Listed(order: seq<string>, at: map<string, seq<Row>>): seq<Row>
    requires forall i :: 0 <= i < |order| ==> order[i] in at
  {
    if order == [] then [] else at[order[0]] + Listed(order[1..], at)
  }

  /** `_rank_by_target_class`: every class list is the global ranking restricted to the class and numbered
      from one, the classes come in alphabetical order, and together they hold every row as often as the input. */
  method RankByTargetClass(rows: seq<Row>) returns (ranking: Dict<string, seq<Row>>)
    ensures forall c :: c in ranking.at <==> HasClass(rows, c)
    ensures forall c :: c in ranking.at ==> ranking.at[c] == Ranked(OfClass(c, Sort(RankLeq, rows)))
    ensures ranking.Valid() && Sorted(NameLeq, ranking.order)
    ensures multiset(Map(Unranked, Listed(ranking.order, ranking.at))) == multiset(Map(Unranked, rows))
  {
    var grouped := GroupByTargetClass(rows);
    var ranked := RankGroups(grouped, rows);
    var order := SortNames(grouped.order);
    forall i | 0 <= i < |order| ensures order[i] in ranked {
      assert order[i] in order;
    }
    ranking := Dict(order, ranked);
    forall i | 0 <= i < |rows| ensures rows[i].targetClass in order {
      assert HasClass(rows, rows[i].targetClass);
    }
    RankingHoldsAllRows(order, ranked, rows);
  }

  /** What a reader of the leaderboard relies on: the same rows but for the rank, in ranking order,
      numbered from one, rows that the key cannot tell apart in their input order. */
  ghost predicate IsLeaderboard(ranked: seq<Row>, rows: seq<Row>) {
    && multiset(Map(Unranked, ranked)) == multiset(Map(Unranked, rows))
    && (forall i, j :: 0 <= i < j < |ranked| ==> RankLeq(ranked[i], ranked[j]))
    && (forall i :: 0 <= i < |ranked| ==> ranked[i].rank == i + 1)
    && (forall x ::
          Map(Unranked, Filter(SameAs(RankLeq, x), ranked)) == Map(Unranked, Filter(SameAs(RankLeq, x), rows)))
  }

  /** The leaderboard itself (`_measured_rows`, `_planned_rows`). */
  method Leaderboard(rows: seq<Row>) returns (ranked: seq<Row>)
    ensures IsLeaderboard(ranked, rows)
  {
    ranked := ApplyRanks(Sort(RankLeq, rows));
    SortedIsLeaderboard(rows);
  }

  lemma TiesUnranked(x: Row, rows: seq<Row>)
    ensures Map(Unranked, Filter(SameAs(RankLeq, x), rows)) == Filter(SameAs(RankLeq, x), Map(Unranked, rows))
  {
    forall i | 0 <= i < |rows| ensures SameAs(RankLeq, x)(Unranked(rows[i])) == SameAs(RankLeq, x)(rows[i]) {
      RankLeqUnranked(x, rows[i]);
      RankLeqUnranked(rows[i], x);
    }
    FilterUnranked(SameAs(RankLeq, x), SameAs(RankLeq, x), rows);
  }

  lemma SortedKeepsRows(rows: seq<Row>)
    ensures multiset(Map(Unranked, Ranked(Sort(RankLeq, rows)))) == multiset(Map(Unranked, rows))
  {
    RankLeqOrders();
    SortUnranked(rows);
    SortCorrect(RankLeq, Map(Unranked, rows));
    RankedForgets(Sort(RankLeq, rows));
  }

  lemma SortedInOrder(rows: seq<Row>)
    ensures var ranked := Ranked(Sort(RankLeq, rows));
            forall i, j :: 0 <= i < j < |ranked| ==> RankLeq(ranked[i], ranked[j])
  {
    RankLeqOrders();
    var s, ranked := Sort(RankLeq, rows), Ranked(Sort(RankLeq, rows));
    SortCorrect(RankLeq, rows);
    forall i, j | 0 <= i < j < |ranked| ensures RankLeq(ranked[i], ranked[j]) {
      assert RankLeq(s[i], s[j]);
    }
  }

  lemma SortedKeepsTies(rows: seq<Row>, x: Row)
    ensures Map(Unranked, Filter(SameAs(RankLeq, x), Ranked(Sort(RankLeq, rows))))
        == Map(Unranked, Filter(SameAs(RankLeq, x), rows))
  {
    RankLeqOrders();
    var s := Sort(RankLeq, rows);
    TiesUnranked(x, Ranked(s));
    TiesUnranked(x, s);
    RankedForgets(s);
    SortStable(RankLeq, rows, x);
  }

  lemma SortedIsLeaderboard(rows: seq<Row>)
    ensures IsLeaderboard(Ranked(Sort(RankLeq, rows)), rows)
  {
    SortedKeepsRows(rows);
    SortedInOrder(rows);
    forall x {
      SortedKeepsTies(rows, x);
    }
  }

  /** These properties leave only one leaderboard. */
  lemma LeaderboardUnique(ranked: seq<Row>, rows: seq<Row>)
    requires IsLeaderboard(ranked, rows)
    ensures ranked == Ranked(Sort(RankLeq, rows))
  {
    RankLeqOrders();
    var plain := Map(Unranked, ranked);
    forall i, j | 0 <= i < j < |plain| ensures RankLeq(plain[i], plain[j]) {
      RankLeqUnranked(ranked[i], ranked[j]);
    }
    forall x ensures Filter(SameAs(RankLeq, x), plain) == Filter(SameAs(RankLeq, x), Map(Unranked, rows)) {
      TiesUnranked(x, ranked);
      TiesUnranked(x, rows);
    }
    StableSortUnique(RankLeq, Map(Unranked, rows), plain);
    SortUnranked(rows);
    RankedForgets(Sort(RankLeq, rows));
    assert Ranked(plain) == Ranked(Map(Unranked, Sort(RankLeq, rows)));
    assert Ranked(plain) == ranked;
  }

  /** Ranking the classes of a finished leaderboard only selects from it: no two rows of a class
      change places. */
  lemma ClassesFollowLeaderboard(c: string, rows: seq<Row>)
    ensures var board := Ranked(Sort(RankLeq, rows));
            OfClass(c, Sort(RankLeq, board)) == OfClass(c, board)
  {
    RankLeqOrders();
    var s := Sort(RankLeq, rows);
    SortCorrect(RankLeq, rows);
    forall i, j | 0 <= i < j < |s| ensures RankLeq(Ranked(s)[i], Ranked(s)[j]) {
      assert RankLeq(s[i], s[j]);
    }
    SortedUnmoved(RankLeq, Ranked(s));
  }

  /** The lists of the given classes, one after the other. */
  function ClassLists(classes: seq<string>, rows: seq<Row>): seq<Row> {
    if classes == [] then [] else OfClass(classes[0], rows) + ClassLists(classes[1..], rows)
  }

  lemma {:induction false} SplitClass(c: string, rows: seq<Row>)
    ensures multiset(rows) == multiset(OfClass(c, rows)) + multiset(Filter(KeyIsNot(ClassOf, c), rows))
  {
    if rows != [] {
      SplitClass(c, rows[1..]);
      assert rows == [rows[0]] + rows[1..];
    }
  }

  lemma {:induction false} ClassListsWithout(classes: seq<string>, c: string, rows: seq<Row>)
    requires c !in classes
    ensures ClassLists(classes, Filter(KeyIsNot(ClassOf, c), rows)) == ClassLists(classes, rows)
  {
    if classes != [] {
      FilterFilter(KeyIs(ClassOf, classes[0]), KeyIsNot(ClassOf, c), KeyIs(ClassOf, classes[0]), rows);
      ClassListsWithout(classes[1..], c, rows);
    }
  }

  lemma NoClassNoRows(classes: seq<string>, rows: seq<Row>)
    requires forall i :: 0 <= i < |rows| ==> rows[i].targetClass in classes
    ensures classes == [] ==> rows == []
  {
    if rows != [] {
      assert rows[0].targetClass in classes;
    }
  }

  /** Together the class lists are a permutation of all the rows. */
  lemma {:induction false} ClassesPartition(classes: seq<string>, rows: seq<Row>)
    requires forall i, j :: 0 <= i < j < |classes| ==> classes[i] != classes[j]
    requires forall i :: 0 <= i < |rows| ==> rows[i].targetClass in classes
    ensures multiset(ClassLists(classes, rows)) == multiset(rows)
  {
    if classes == [] {
      NoClassNoRows(classes, rows);
    } else {
      var rest := Filter(KeyIsNot(ClassOf, classes[0]), rows);
      forall i | 0 <= i < |rest| ensures rest[i].targetClass in classes[1..] {
        FilterIn(KeyIsNot(ClassOf, classes[0]), rows, rest[i]);
        InTail(classes, ClassOf(rest[i]));
      }
      ClassesPartition(classes[1..], rest);
      ClassListsWithout(classes[1..], classes[0], rows);
      SplitClass(classes[0], rows);
    }
  }

  lemma OfClassUnranked(c: string, rows: seq<Row>)
    ensures OfClass(c, Map(Unranked, rows)) == Map(Unranked, OfClass(c, rows))
  {
    forall i | 0 <= i < |rows| ensures KeyIs(ClassOf, c)(Unranked(rows[i])) == KeyIs(ClassOf, c)(rows[i]) {
      assert ClassOf(Unranked(rows[i])) == ClassOf(rows[i]);
    }
    FilterUnranked(KeyIs(ClassOf, c), KeyIs(ClassOf, c), rows);
  }

  lemma {:induction false} ListedUnranked(order: seq<string>, at: map<string, seq<Row>>, sorted: seq<Row>)
    requires forall i :: 0 <= i < |order| ==> order[i] in at && at[order[i]] == Ranked(OfClass(order[i], sorted))
    ensures Map(Unranked, Listed(order, at)) == ClassLists(order, Map(Unranked, sorted))
  {
    if order != [] {
      ListedUnranked(order[1..], at, sorted);
      MapAppend(Unranked, at[order[0]], Listed(order[1..], at));
      RankedForgets(OfClass(order[0], sorted));
      OfClassUnranked(order[0], sorted);
    }
  }

  lemma RankingHoldsAllRows(order: seq<string>, at: map<string, seq<Row>>, rows: seq<Row>)
    requires forall i, j :: 0 <= i < j < |order| ==> order[i] != order[j]
    requires forall i :: 0 <= i < |rows| ==> rows[i].targetClass in order
    requires forall i :: 0 <= i < |order| ==>
               order[i] in at && at[order[i]] == Ranked(OfClass(order[i], Sort(RankLeq, rows)))
    ensures multiset(Map(Unranked, Listed(order, at))) == multiset(Map(Unranked, rows))
  {
    var sorted, plain := Sort(RankLeq, rows), Map(Unranked, Sort(RankLeq, rows));
    RankLeqOrders();
    SortCorrect(RankLeq, rows);
    ListedUnranked(order, at, sorted);
    forall i | 0 <= i < |plain| ensures plain[i].targetClass in order {
      assert sorted[i] in sorted;
      SortIn(RankLeq, rows, sorted[i]);
      var k :| 0 <= k < |rows| && rows[k] == sorted[i];
      assert rows[k].targetClass == plain[i].targetClass;
    }
    ClassesPartition(order, plain);
    SortUnranked(rows);
    SortCorrect(RankLeq, Map(Unranked, rows));
  }
}
