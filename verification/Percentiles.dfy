/** Three percentile definitions over the same sorted sample. */
module Percentiles {
  import opened Sequences
  import opened StableSort
  import opened Numerals

  predicate RealLeq(x: real, y: real) {
    x <= y
  }

  lemma RealLeqOrders()
    ensures TotalPreorder(RealLeq)
  {
  }

  function Ordered(values: seq<real>): seq<real> {
    Sort(RealLeq, values)
  }

  datatype Extended = Finite(value: real) | Infinity

  /** Position taken by the nearest-rank form in a sample of `n`. */
  function NearestRankIndex(n: nat, quantile: real): (i: nat)
    requires n > 0
    ensures i < n
  {
    Max(0, Min(n - 1, Ceil(quantile * n as real) - 1))
  }

  /** The nearest-rank form; an empty sample has an infinite percentile. */
  function NearestRank(values: seq<real>, quantile: real): Extended {
    SortKeepsLength(values);
    if values == [] then Infinity else Finite(Ordered(values)[NearestRankIndex(|values|, quantile)])
  }

  /** Position taken by the floor-index form. */
  function FloorIndexOf(n: nat, percentile: nat): (i: nat)
    requires n > 0
    ensures i < n
  {
    Min(n - 1, (n as real * percentile as real / 100.0).Floor)
  }

  /** The floor-index form; an empty sample has percentile zero. */
  function FloorIndex(values: seq<real>, percentile: nat): real {
    SortKeepsLength(values);
    if values == [] then 0.0 else Ordered(values)[FloorIndexOf(|values|, percentile)]
  }

  /** Fractional position taken by the interpolating form. */
  function FractionalRank(n: nat, percentile: real): (rank: real)
    requires n > 0 && 0.0 <= percentile <= 100.0
    ensures 0.0 <= rank <= (n - 1) as real
  {
    RankInRange(n, percentile);
    Times((n - 1) as real, percentile / 100.0)
  }

  function Times(k: real, x: real): real {
    k * x
  }

  function Between(ordered: seq<real>, rank: real): real
    requires ordered != [] && 0.0 <= rank <= (|ordered| - 1) as real
  {
    var lower := rank.Floor;
    var upper := Min(lower + 1, |ordered| - 1);
    var weight := rank - lower as real;
    ordered[lower] * (1.0 - weight) + ordered[upper] * weight
  }

  /** The interpolating form. */
  function Interpolated(values: seq<real>, percentile: real): real
    requires 0.0 <= percentile <= 100.0
  {
    SortKeepsLength(values);
    if values == [] then 0.0
    else if |values| == 1 then Ordered(values)[0]
    else Between(Ordered(values), FractionalRank(|values|, percentile))
  }

  lemma SortKeepsLength(values: seq<real>)
    ensures |Ordered(values)| == |values| && Sorted(RealLeq, Ordered(values))
    ensures multiset(Ordered(values)) == multiset(values)
  {
    RealLeqOrders();
    SortCorrect(RealLeq, values);
  }

  lemma TimesMonotone(k: real, x: real, y: real)
    requires k >= 0.0 && x <= y
    ensures Times(k, x) <= Times(k, y)
    ensures Times(k, 0.0) == 0.0 && Times(k, 1.0) == k
  {
  }

  lemma RankInRange(n: nat, percentile: real)
    requires n > 0 && 0.0 <= percentile <= 100.0
    ensures 0.0 <= Times((n - 1) as real, percentile / 100.0) <= (n - 1) as real
  {
    hide Times;
    TimesMonotone((n - 1) as real, 0.0, percentile / 100.0);
    TimesMonotone((n - 1) as real, percentile / 100.0, 1.0);
  }

  lemma Scale(k: real, x: real, y: real)
    requires k >= 0.0 && x <= y
    ensures k * x <= k * y
  {
  }

  // ----- Nearest rank: the smallest value reaching the share

  function AtMost(v: real): real -> bool {
    x => x <= v
  }

  /** How many sample values are at most `v`. */
  function CountAtMost(values: seq<real>, v: real): nat {
    |Filter(AtMost(v), values)|
  }

  lemma CountInOrder(values: seq<real>, v: real)
    ensures CountAtMost(Ordered(values), v) == CountAtMost(values, v)
  {
    RealLeqOrders();
    FilterSort(AtMost(v), RealLeq, values);
    SortCorrect(RealLeq, Filter(AtMost(v), values));
  }

  /** In a sorted sample, at least `m` values are at most `v` exactly when the m-th is. */
  lemma {:induction false} CountReaches(s: seq<real>, v: real, m: nat)
    requires Sorted(RealLeq, s) && 0 < m <= |s|
    ensures CountAtMost(s, v) >= m <==> s[m - 1] <= v
  {
    if s[0] <= v {
      if m > 1 {
        CountReaches(s[1..], v, m - 1);
      }
    } else {
      assert RealLeq(s[0], s[m - 1]) || m == 1;
      forall i | 0 <= i < |s| ensures !AtMost(v)(s[i]) {
        assert i > 0 ==> RealLeq(s[0], s[i]);
      }
      FilterNone(AtMost(v), s);
    }
  }

  lemma CeilReaches(x: real, count: int)
    ensures count as real >= x <==> count >= Ceil(x)
  {
  }

  lemma CeilOfShare(n: nat, quantile: real)
    requires n > 0 && 0.0 < quantile <= 1.0
    ensures 0 < Ceil(quantile * n as real) <= n
  {
    Scale(n as real, 0.0, quantile);
    Scale(n as real, quantile, 1.0);
    assert quantile * n as real > 0.0;
  }

  /** The value at the rounded-up share is the least one that many values do not exceed. */
  lemma LeastReaching(values: seq<real>, share: real)
    requires values != [] && 0 < Ceil(share) <= |values| == |Ordered(values)|
    ensures var v := Ordered(values)[Ceil(share) - 1];
            && v in values
            && CountAtMost(values, v) as real >= share
            && forall w :: w in values && CountAtMost(values, w) as real >= share ==> v <= w
  {
    var s, m := Ordered(values), Ceil(share);
    SortKeepsLength(values);
    assert s[m - 1] in multiset(s);
    CountInOrder(values, s[m - 1]);
    CountReaches(s, s[m - 1], m);
    forall w | w in values && CountAtMost(values, w) as real >= share ensures s[m - 1] <= w {
      CountInOrder(values, w);
      CeilReaches(share, CountAtMost(values, w));
      CountReaches(s, w, m);
    }
  }

  /** Nearest rank returns a sample value with at least the wanted share at or below it, and the
      smallest such value. */
  lemma NearestRankIsLeast(values: seq<real>, quantile: real)
    requires values != [] && 0.0 < quantile <= 1.0
    ensures var r := NearestRank(values, quantile);
            && r.Finite? && r.value in values
            && CountAtMost(values, r.value) as real >= quantile * |values| as real
            && forall w :: w in values && CountAtMost(values, w) as real >= quantile * |values| as real ==> r.value <= w
  {
    SortKeepsLength(values);
    CeilOfShare(|values|, quantile);
    LeastReaching(values, quantile * |values| as real);
  }

  // ----- Floor index: the same or the next position

  lemma ShareOf(n: nat, percentile: nat)
    ensures n as real * percentile as real / 100.0 == (percentile as real / 100.0) * n as real
    ensures n as real * percentile as real / 100.0 == (n * percentile) as real / 100.0
  {
    assert n as real * percentile as real == (n * percentile) as real;
  }

  lemma CeilAndFloorOfHundredths(k: nat)
    ensures (k as real / 100.0).Floor == k / 100
    ensures Ceil(k as real / 100.0) == k / 100 + if k % 100 == 0 then 0 else 1
  {
    assert k == 100 * (k / 100) + k % 100;
    assert k as real / 100.0 == (k / 100) as real + (k % 100) as real / 100.0;
  }

  /** The floor index is the nearest-rank index, or the next one exactly when the share is a whole
      number of values and there is a next one. */
  lemma FloorIndexVersusNearest(n: nat, percentile: nat)
    requires n > 0 && percentile <= 100
    ensures FloorIndexOf(n, percentile) ==
              NearestRankIndex(n, percentile as real / 100.0)
              + if percentile > 0 && n * percentile % 100 == 0 && percentile < 100 then 1 else 0
  {
    var k := n * percentile;
    ShareOf(n, percentile);
    CeilAndFloorOfHundredths(k);
    ProductBounds(n, percentile);
  }

  lemma ProductBounds(n: nat, percentile: nat)
    requires n > 0 && percentile <= 100
    ensures n * percentile <= 100 * n
    ensures percentile == 100 ==> n * percentile == 100 * n
    ensures percentile < 100 ==> n * percentile < 100 * n
    ensures percentile == 0 <==> n * percentile == 0
  {
    if percentile < 100 {
      assert n * (100 - percentile) > 0;
    }
  }

  /** So the floor-index percentile is never below the nearest-rank one. */
  lemma FloorIndexNeverSmaller(values: seq<real>, percentile: nat)
    requires values != [] && percentile <= 100
    ensures FloorIndex(values, percentile) >= NearestRank(values, percentile as real / 100.0).value
  {
    SortKeepsLength(values);
    FloorIndexVersusNearest(|values|, percentile);
    var i, j := NearestRankIndex(|values|, percentile as real / 100.0), FloorIndexOf(|values|, percentile);
    assert i < j ==> RealLeq(Ordered(values)[i], Ordered(values)[j]);
  }

  // ----- Interpolation: monotone, and inside the sample's range

  lemma BetweenNeighbours(s: seq<real>, rank: real)
    requires s != [] && Sorted(RealLeq, s) && 0.0 <= rank <= (|s| - 1) as real
    ensures s[rank.Floor] <= Between(s, rank) <= s[Min(rank.Floor + 1, |s| - 1)]
  {
    var lower, weight := rank.Floor, rank - rank.Floor as real;
    var upper := Min(lower + 1, |s| - 1);
    assert lower < upper ==> RealLeq(s[lower], s[upper]);
    Mix(s[lower], s[upper], 0.0, weight);
    Mix(s[lower], s[upper], weight, 1.0);
  }

  lemma Mix(a: real, b: real, v: real, w: real)
    requires a <= b && 0.0 <= v <= w <= 1.0
    ensures a * (1.0 - v) + b * v <= a * (1.0 - w) + b * w
    ensures v == 0.0 ==> a * (1.0 - v) + b * v == a
    ensures w == 1.0 ==> a * (1.0 - w) + b * w == b
  {
    Scale(b - a, v, w);
  }

  /** Between two positions the value divides their gap in the ratio of the fractional rank. */
  lemma BetweenDividesGap(s: seq<real>, i: nat, w: real)
    requires i + 1 < |s| && 0.0 <= w < 1.0
    ensures Between(s, i as real + w) - s[i] == w * (s[i + 1] - s[i])
  {
    assert (i as real + w).Floor == i;
  }

  /** Consecutive values differ by the same step. */
  ghost predicate EvenlySpaced(s: seq<real>, lo: real, step: real) {
    forall i :: 0 <= i < |s| ==> s[i] == lo + Times(step, i as real)
  }

  lemma BetweenOnEven(s: seq<real>, lo: real, step: real, rank: real)
    requires s != [] && EvenlySpaced(s, lo, step) && 0.0 <= rank <= (|s| - 1) as real
    ensures Between(s, rank) == lo + Times(step, rank)
  {
    var i, w := rank.Floor, rank - rank.Floor as real;
    assert s[i] == lo + Times(step, i as real);
    if i + 1 < |s| {
      BetweenDividesGap(s, i, w);
      assert s[i + 1] == lo + Times(step, (i + 1) as real);
      TimesAdds(step, i as real, w);
      TimesAdds(step, i as real, 1.0);
      assert w * step == Times(step, w);
    } else {
      assert w == 0.0;
    }
  }

  lemma TimesAdds(k: real, x: real, y: real)
    ensures Times(k, x + y) == Times(k, x) + Times(k, y) && Times(k, 1.0) == k
  {
  }

  /** On an evenly spaced sample the percentile is the share of the way from the minimum to the maximum. */
  lemma InterpolatedOnEven(values: seq<real>, lo: real, step: real, p: real)
    requires values != [] && 0.0 <= p <= 100.0 && EvenlySpaced(Ordered(values), lo, step)
    ensures |Ordered(values)| == |values|
    ensures Interpolated(values, p) == lo + Times(Ordered(values)[|values| - 1] - lo, p / 100.0)
  {
    SortKeepsLength(values);
    var s, n := Ordered(values), |values|;
    assert s[0] == lo + Times(step, 0.0);
    assert s[n - 1] == lo + Times(step, (n - 1) as real);
    if n > 1 {
      BetweenOnEven(s, lo, step, FractionalRank(n, p));
      TimesTwice(step, (n - 1) as real, p / 100.0);
    }
  }

  lemma TimesTwice(a: real, b: real, c: real)
    ensures Times(a, Times(b, c)) == Times(Times(a, b), c)
  {
  }

  lemma BetweenMonotone(s: seq<real>, x: real, y: real)
    requires s != [] && Sorted(RealLeq, s) && 0.0 <= x <= y <= (|s| - 1) as real
    ensures Between(s, x) <= Between(s, y)
  {
    BetweenNeighbours(s, x);
    BetweenNeighbours(s, y);
    if x.Floor == y.Floor {
      var lower := x.Floor;
      var upper := Min(lower + 1, |s| - 1);
      assert lower < upper ==> RealLeq(s[lower], s[upper]);
      Mix(s[lower], s[upper], x - lower as real, y - lower as real);
    } else {
      assert x.Floor + 1 <= y.Floor;
      assert x.Floor + 1 < y.Floor ==> RealLeq(s[x.Floor + 1], s[y.Floor]);
    }
  }

  lemma RankMonotone(n: nat, p: real, q: real)
    requires n > 0 && 0.0 <= p <= q <= 100.0
    ensures FractionalRank(n, p) <= FractionalRank(n, q)
  {
    hide Times;
    TimesMonotone((n - 1) as real, p / 100.0, q / 100.0);
  }

  /** The interpolated percentile never falls as the percentile grows. */
  lemma InterpolatedMonotone(values: seq<real>, p: real, q: real)
    requires 0.0 <= p <= q <= 100.0
    ensures Interpolated(values, p) <= Interpolated(values, q)
  {
    if |values| > 1 {
      SortKeepsLength(values);
      var x, y := FractionalRank(|values|, p), FractionalRank(|values|, q);
      RankMonotone(|values|, p, q);
      BetweenMonotone(Ordered(values), x, y);
    }
  }

  lemma InterpolatedAtEnds(values: seq<real>)
    requires values != []
    ensures |Ordered(values)| == |values|
    ensures Interpolated(values, 0.0) == Ordered(values)[0]
    ensures Interpolated(values, 100.0) == Ordered(values)[|values| - 1]
  {
    SortKeepsLength(values);
    var s, n := Ordered(values), |values|;
    if n > 1 {
      TimesMonotone((n - 1) as real, 0.0, 1.0);
      assert FractionalRank(n, 0.0) == 0.0 && FractionalRank(n, 100.0) == (n - 1) as real;
      assert Between(s, 0.0) == s[0] && Between(s, (n - 1) as real) == s[n - 1];
    }
  }

  lemma OrderedBounds(values: seq<real>)
    requires values != []
    ensures |Ordered(values)| == |values|
    ensures Ordered(values)[0] in values && Ordered(values)[|values| - 1] in values
    ensures forall v :: v in values ==> Ordered(values)[0] <= v <= Ordered(values)[|values| - 1]
  {
    SortKeepsLength(values);
    hide Ordered;
    var s, n := Ordered(values), |values|;
    assert s[0] in multiset(s) && s[n - 1] in multiset(s);
    forall v | v in values ensures s[0] <= v <= s[n - 1] {
      assert v in multiset(s);
      var i :| 0 <= i < n && s[i] == v;
      assert i > 0 ==> RealLeq(s[0], s[i]);
      assert i < n - 1 ==> RealLeq(s[i], s[n - 1]);
    }
  }

  /** It runs from the smallest sample value at 0 to the largest at 100. */
  lemma InterpolatedEnds(values: seq<real>)
    requires values != []
    ensures Interpolated(values, 0.0) in values && Interpolated(values, 100.0) in values
    ensures forall v :: v in values ==> Interpolated(values, 0.0) <= v <= Interpolated(values, 100.0)
  {
    hide Interpolated;
    hide Ordered;
    InterpolatedAtEnds(values);
    OrderedBounds(values);
  }
}
