/** Filtering, mapping, counting and summing over sequences, and insertion-ordered dictionaries. */
module Sequences {

  function Filter<T>(p: T -> bool, s: seq<T>): seq<T> {
    if s == [] then []
    else if p(s[0]) then [s[0]] + Filter(p, s[1..])
    else Filter(p, s[1..])
  }

  lemma TakeSnoc<T>(s: seq<T>, n: nat)
    requires n < |s|
    ensures s[..n + 1] == s[..n] + [s[n]]
  {
  }

  lemma TakeTake<T>(s: seq<T>, n: nat)
    requires n < |s|
    ensures s[..n + 1][..n] == s[..n] && s[..n + 1][n] == s[n]
  {
  }

  lemma TakeAll<T>(s: seq<T>)
    ensures s[..|s|] == s
  {
  }

  function Map<T, U>(f: T -> U, s: seq<T>): (r: seq<U>)
    ensures |r| == |s|
    ensures forall i :: 0 <= i < |s| ==> r[i] == f(s[i])
  {
    seq(|s|, i requires 0 <= i < |s| => f(s[i]))
  }

  lemma MapAppend<T, U>(f: T -> U, a: seq<T>, b: seq<T>)
    ensures Map(f, a + b) == Map(f, a) + Map(f, b)
  {
  }

  lemma MapSnoc<T, U>(f: T -> U, s: seq<T>, x: T)
    ensures Map(f, s + [x]) == Map(f, s) + [f(x)]
  {
    MapAppend(f, s, [x]);
  }

  lemma MapCons<T, U>(f: T -> U, s: seq<T>)
    requires s != []
    ensures Map(f, s) == [f(s[0])] + Map(f, s[1..])
    ensures Map(f, s)[1..] == Map(f, s[1..])
  {
  }

  function Sum(s: seq<real>): real {
    if s == [] then 0.0 else s[0] + Sum(s[1..])
  }

  /** Python's `statistics.mean` with the caller's value for an empty list. */
  function MeanOr(s: seq<real>, empty: real): real {
    if s == [] then empty else Sum(s) / |s| as real
  }

  lemma {:induction false} FilterAppend<T>(p: T -> bool, a: seq<T>, b: seq<T>)
    ensures Filter(p, a + b) == Filter(p, a) + Filter(p, b)
  {
    if a == [] {
      assert a + b == b;
    } else {
      assert (a + b)[1..] == a[1..] + b;
      FilterAppend(p, a[1..], b);
    }
  }

  lemma FilterSnoc<T>(p: T -> bool, a: seq<T>, x: T)
    ensures Filter(p, a + [x]) == Filter(p, a) + if p(x) then [x] else []
  {
    FilterAppend(p, a, [x]);
    assert [x][1..] == [];
  }

  lemma MapFilterSnoc<T, U>(f: T -> U, p: T -> bool, a: seq<T>, x: T)
    ensures Map(f, Filter(p, a + [x])) == Map(f, Filter(p, a)) + if p(x) then [f(x)] else []
  {
    FilterSnoc(p, a, x);
    MapAppend(f, Filter(p, a), [x]);
  }

  lemma {:induction false} FilterIn<T>(p: T -> bool, s: seq<T>, x: T)
    ensures x in Filter(p, s) <==> x in s && p(x)
  {
    if s != [] {
      FilterIn(p, s[1..], x);
      assert x in s <==> x == s[0] || x in s[1..];
    }
  }

  lemma {:induction false} FilterShorter<T>(p: T -> bool, s: seq<T>)
    ensures |Filter(p, s)| <= |s|
  {
    if s != [] {
      FilterShorter(p, s[1..]);
    }
  }

  lemma {:induction false} FilterAll<T>(p: T -> bool, s: seq<T>)
    requires forall i :: 0 <= i < |s| ==> p(s[i])
    ensures Filter(p, s) == s
  {
    if s != [] {
      FilterAll(p, s[1..]);
    }
  }

  /** Two predicates that agree on the elements select the same elements. */
  lemma {:induction false} FilterAgree<T>(p: T -> bool, q: T -> bool, s: seq<T>)
    requires forall i :: 0 <= i < |s| ==> p(s[i]) == q(s[i])
    ensures Filter(p, s) == Filter(q, s)
  {
    if s != [] {
      FilterAgree(p, q, s[1..]);
    }
  }

  /** Filtering twice is filtering by both. */
  lemma {:induction false} FilterFilter<T>(p: T -> bool, q: T -> bool, both: T -> bool, s: seq<T>)
    requires forall i :: 0 <= i < |s| ==> both(s[i]) == (p(s[i]) && q(s[i]))
    ensures Filter(p, Filter(q, s)) == Filter(both, s)
  {
    if s != [] {
      FilterFilter(p, q, both, s[1..]);
      FilterAppend(p, if q(s[0]) then [s[0]] else [], Filter(q, s[1..]));
      assert [s[0]][1..] == [];
    }
  }

  lemma {:induction false} SumAppend(a: seq<real>, b: seq<real>)
    ensures Sum(a + b) == Sum(a) + Sum(b)
  {
    if a == [] {
      assert a + b == b;
    } else {
      assert (a + b)[1..] == a[1..] + b;
      SumAppend(a[1..], b);
    }
  }

  lemma SumSnoc(a: seq<real>, x: real)
    ensures Sum(a + [x]) == Sum(a) + x
  {
    SumAppend(a, [x]);
    assert [x][1..] == [];
  }

  lemma {:induction false} SumMonotone(a: seq<real>, b: seq<real>)
    requires |a| == |b|
    requires forall i :: 0 <= i < |a| ==> a[i] <= b[i]
    ensures Sum(a) <= Sum(b)
  {
    if a != [] {
      SumMonotone(a[1..], b[1..]);
    }
  }

  lemma {:induction false} SumBounds(a: seq<real>, lo: real, hi: real)
    requires forall i :: 0 <= i < |a| ==> lo <= a[i] <= hi
    ensures lo * |a| as real <= Sum(a) <= hi * |a| as real
  {
    if a != [] {
      SumBounds(a[1..], lo, hi);
      assert |a| as real == 1.0 + |a[1..]| as real;
    }
  }

  lemma DivMonotone(x: real, y: real, n: nat)
    requires x <= y && n > 0
    ensures x / n as real <= y / n as real
  {
  }

  lemma MeanMonotone(a: seq<real>, b: seq<real>, empty: real)
    requires |a| == |b|
    requires forall i :: 0 <= i < |a| ==> a[i] <= b[i]
    ensures MeanOr(a, empty) <= MeanOr(b, empty)
  {
    SumMonotone(a, b);
    if a != [] {
      DivMonotone(Sum(a), Sum(b), |a|);
    }
  }

  lemma MeanBounds(a: seq<real>, empty: real, lo: real, hi: real)
    requires lo <= empty <= hi
    requires forall i :: 0 <= i < |a| ==> lo <= a[i] <= hi
    ensures lo <= MeanOr(a, empty) <= hi
  {
    if a != [] {
      SumBounds(a, lo, hi);
      var n := |a| as real;
      DivMonotone(lo * n, Sum(a), |a|);
      DivMonotone(Sum(a), hi * n, |a|);
      assert lo * n / n == lo && hi * n / n == hi;
    }
  }

  /** A Python dictionary: the keys in insertion order, and their values. */
  datatype Dict<K(==), V> = Dict(order: seq<K>, at: map<K, V>) {
    ghost predicate Valid() {
      && (forall k | k in at :: k in order)
      && (forall i :: 0 <= i < |order| ==> order[i] in at)
      && (forall i, j :: 0 <= i < j < |order| ==> order[i] != order[j])
    }

    function Put(k: K, v: V): Dict<K, V> {
      Dict(if k in at then order else order + [k], at[k := v])
    }

    lemma PutValid(k: K, v: V)
      requires Valid()
      ensures Put(k, v).Valid()
    {
    }
  }

  function EmptyDict<K, V>(): (d: Dict<K, V>)
    ensures d.Valid()
  {
    Dict([], map[])
  }

  /** `setdefault(k, []).append(v)`. */
  function AppendAt<K, V>(d: Dict<K, seq<V>>, k: K, v: V): Dict<K, seq<V>> {
    d.Put(k, (if k in d.at then d.at[k] else []) + [v])
  }

  // ----- Grouping by a key

  function KeyIs<T, K(==)>(key: T -> K, k: K): T -> bool {
    x => key(x) == k
  }

  function KeyIsNot<T, K(==)>(key: T -> K, k: K): T -> bool {
    x => key(x) != k
  }

  /** `d` holds, under each key, the values of the elements with that key, in their order. */
  ghost predicate Grouped<T, K, V>(d: Dict<K, seq<V>>, key: T -> K, val: T -> V, s: seq<T>) {
    && d.Valid()
    && (forall i :: 0 <= i < |s| ==> key(s[i]) in d.at)
    && (forall k | k in d.at :: d.at[k] != [] && d.at[k] == Map(val, Filter(KeyIs(key, k), s)))
  }

  lemma {:induction false} FilterNone<T>(p: T -> bool, s: seq<T>)
    requires forall i :: 0 <= i < |s| ==> !p(s[i])
    ensures Filter(p, s) == []
  {
    if s != [] {
      FilterNone(p, s[1..]);
    }
  }

  lemma GroupSnoc<T, K(!new), V>(d: Dict<K, seq<V>>, key: T -> K, val: T -> V, s: seq<T>, x: T, k: K)
    requires Grouped(d, key, val, s)
    ensures Map(val, Filter(KeyIs(key, k), s + [x]))
         == (if k in d.at then d.at[k] else []) + if k == key(x) then [val(x)] else []
  {
    MapFilterSnoc(val, KeyIs(key, k), s, x);
    if k !in d.at {
      FilterNone(KeyIs(key, k), s);
    }
  }

  /** One step of a grouping loop. */
  lemma GroupedSnoc<T, K(!new), V>(d: Dict<K, seq<V>>, key: T -> K, val: T -> V, s: seq<T>, x: T)
    requires Grouped(d, key, val, s)
    ensures Grouped(AppendAt(d, key(x), val(x)), key, val, s + [x])
  {
    var r := AppendAt(d, key(x), val(x));
    d.PutValid(key(x), r.at[key(x)]);
    forall k | k in r.at ensures r.at[k] != [] && r.at[k] == Map(val, Filter(KeyIs(key, k), s + [x])) {
      GroupSnoc(d, key, val, s, x, k);
    }
    forall i | 0 <= i < |s + [x]| ensures key((s + [x])[i]) in r.at {
      assert i < |s| ==> (s + [x])[i] == s[i];
    }
  }

  lemma NothingGrouped<T, K(!new), V>(key: T -> K, val: T -> V)
    ensures Grouped(EmptyDict(), key, val, [])
  {
  }

  /** `for x in s: d.setdefault(key(x), []).append(val(x))`. */
  method GroupBy<T, K(!new), V>(key: T -> K, val: T -> V, s: seq<T>) returns (d: Dict<K, seq<V>>)
    ensures Grouped(d, key, val, s)
  {
    hide Grouped;
    d := EmptyDict();
    NothingGrouped(key, val);
    for n := 0 to |s|
      invariant Grouped(d, key, val, s[..n])
    {
      GroupedSnoc(d, key, val, s[..n], s[n]);
      TakeSnoc(s, n);
      d := AppendAt(d, key(s[n]), val(s[n]));
    }
    TakeAll(s);
  }

  lemma GroupedKeys<T, K(!new), V>(d: Dict<K, seq<V>>, key: T -> K, val: T -> V, s: seq<T>, k: K)
    requires Grouped(d, key, val, s)
    ensures k in d.at <==> exists i :: 0 <= i < |s| && key(s[i]) == k
  {
    if k in d.at {
      FilterIn(KeyIs(key, k), s, Filter(KeyIs(key, k), s)[0]);
    }
  }

  function Total<T>(w: T -> real, s: seq<T>): real {
    Sum(Map(w, s))
  }

  lemma TotalCons<T>(w: T -> real, s: seq<T>)
    requires s != []
    ensures Total(w, s) == w(s[0]) + Total(w, s[1..])
  {
    assert Map(w, s)[1..] == Map(w, s[1..]);
  }

  /** Sum, over the listed keys, of the weights of the elements with that key. */
  function TotalByKey<T, K(==)>(w: T -> real, key: T -> K, keys: seq<K>, s: seq<T>): real {
    if keys == [] then 0.0
    else Total(w, Filter(KeyIs(key, keys[0]), s)) + TotalByKey(w, key, keys[1..], s)
  }

  lemma {:induction false} TotalSplit<T, K>(w: T -> real, key: T -> K, k: K, s: seq<T>)
    ensures Total(w, s) == Total(w, Filter(KeyIs(key, k), s)) + Total(w, Filter(KeyIsNot(key, k), s))
  {
    if s != [] {
      TotalSplit(w, key, k, s[1..]);
      TotalCons(w, s);
      if key(s[0]) == k {
        TotalCons(w, Filter(KeyIs(key, k), s));
      } else {
        TotalCons(w, Filter(KeyIsNot(key, k), s));
      }
    }
  }

  lemma {:induction false} TotalByKeyWithout<T, K>(w: T -> real, key: T -> K, keys: seq<K>, k: K, s: seq<T>)
    requires k !in keys
    ensures TotalByKey(w, key, keys, Filter(KeyIsNot(key, k), s)) == TotalByKey(w, key, keys, s)
  {
    if keys != [] {
      FilterFilter(KeyIs(key, keys[0]), KeyIsNot(key, k), KeyIs(key, keys[0]), s);
      TotalByKeyWithout(w, key, keys[1..], k, s);
    }
  }

  lemma InTail<K>(keys: seq<K>, k: K)
    requires k in keys && k != keys[0]
    ensures k in keys[1..]
  {
    var i :| 0 <= i < |keys| && keys[i] == k;
    assert keys[1..][i - 1] == k;
  }

  /** Regrouping by distinct keys that cover the elements preserves any sum. */
  lemma {:induction false} TotalRegrouped<T, K>(w: T -> real, key: T -> K, keys: seq<K>, s: seq<T>)
    requires forall i, j :: 0 <= i < j < |keys| ==> keys[i] != keys[j]
    requires forall i :: 0 <= i < |s| ==> key(s[i]) in keys
    ensures TotalByKey(w, key, keys, s) == Total(w, s)
  {
    if keys == [] {
      assert s == [];
    } else {
      var rest := Filter(KeyIsNot(key, keys[0]), s);
      forall i | 0 <= i < |rest| ensures key(rest[i]) in keys[1..] {
        FilterIn(KeyIsNot(key, keys[0]), s, rest[i]);
        InTail(keys, key(rest[i]));
      }
      TotalRegrouped(w, key, keys[1..], rest);
      TotalByKeyWithout(w, key, keys[1..], keys[0], s);
      TotalSplit(w, key, keys[0], s);
    }
  }
}
