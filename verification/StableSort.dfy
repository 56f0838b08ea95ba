/** What a caller of Python's stable `sort` relies on. */
module StableSort {
  import opened Sequences

  ghost predicate TotalPreorder<T(!new)>(leq: (T, T) -> bool) {
    && (forall x, y :: leq(x, y) || leq(y, x))
    && (forall x, y, z :: leq(x, y) && leq(y, z) ==> leq(x, z))
  }

  ghost predicate Sorted<T>(leq: (T, T) -> bool, s: seq<T>) {
    forall i, j :: 0 <= i < j < |s| ==> leq(s[i], s[j])
  }

  /** The elements that the order cannot tell from `x`. */
  function SameAs<T>(leq: (T, T) -> bool, x: T): T -> bool {
    y => leq(x, y) && leq(y, x)
  }

  function Insert<T>(leq: (T, T) -> bool, x: T, s: seq<T>): seq<T> {
    if s == [] || leq(x, s[0]) then [x] + s else [s[0]] + Insert(leq, x, s[1..])
  }

  function Sort<T>(leq: (T, T) -> bool, s: seq<T>): seq<T> {
    if s == [] then [] else Insert(leq, s[0], Sort(leq, s[1..]))
  }

  lemma {:induction false} InsertMultiset<T>(leq: (T, T) -> bool, x: T, s: seq<T>)
    ensures multiset(Insert(leq, x, s)) == multiset{x} + multiset(s)
  {
    if s != [] {
      InsertMultiset(leq, x, s[1..]);
      assert s == [s[0]] + s[1..];
    }
  }

  lemma {:induction false} InsertSorted<T(!new)>(leq: (T, T) -> bool, x: T, s: seq<T>)
    requires TotalPreorder(leq) && Sorted(leq, s)
    ensures Sorted(leq, Insert(leq, x, s))
  {
    if s != [] && !leq(x, s[0]) {
      InsertSorted(leq, x, s[1..]);
      var r := Insert(leq, x, s[1..]);
      InsertMultiset(leq, x, s[1..]);
      forall j | 0 <= j < |r| ensures leq(s[0], r[j]) {
        assert r[j] in multiset(r);
        assert r[j] == x || r[j] in s[1..];
      }
    } else if s != [] {
      forall j | 0 <= j < |s| ensures leq(x, s[j]) {
        assert leq(x, s[0]) && (j > 0 ==> leq(s[0], s[j]));
      }
    }
  }

  lemma {:induction false} SortCorrect<T(!new)>(leq: (T, T) -> bool, s: seq<T>)
    requires TotalPreorder(leq)
    ensures Sorted(leq, Sort(leq, s))
    ensures multiset(Sort(leq, s)) == multiset(s)
    ensures |Sort(leq, s)| == |s|
  {
    if s != [] {
      SortCorrect(leq, s[1..]);
      InsertSorted(leq, s[0], Sort(leq, s[1..]));
      InsertMultiset(leq, s[0], Sort(leq, s[1..]));
      assert s == [s[0]] + s[1..];
    }
    assert |Sort(leq, s)| == |multiset(Sort(leq, s))|;
  }

  lemma SortIn<T(!new)>(leq: (T, T) -> bool, s: seq<T>, x: T)
    requires TotalPreorder(leq)
    ensures x in Sort(leq, s) <==> x in s
  {
    SortCorrect(leq, s);
    assert x in multiset(Sort(leq, s)) <==> x in multiset(s);
  }

  lemma {:induction false} FilterInsert<T(!new)>(p: T -> bool, leq: (T, T) -> bool, x: T, s: seq<T>)
    requires TotalPreorder(leq) && Sorted(leq, s)
    ensures Filter(p, Insert(leq, x, s)) == if p(x) then Insert(leq, x, Filter(p, s)) else Filter(p, s)
  {
    if s == [] || leq(x, s[0]) {
      FilterAppend(p, [x], s);
      assert [x][1..] == [];
      var f := Filter(p, s);
      if f != [] {
        FilterIn(p, s, f[0]);
        assert leq(x, f[0]);
      }
    } else {
      FilterInsert(p, leq, x, s[1..]);
      FilterAppend(p, [s[0]], Insert(leq, x, s[1..]));
      assert [s[0]][1..] == [];
      if p(s[0]) {
        assert ([s[0]] + Filter(p, s[1..]))[1..] == Filter(p, s[1..]);
      }
    }
  }

  /** Stability, in its strongest form: selecting commutes with sorting. */
  lemma {:induction false} FilterSort<T(!new)>(p: T -> bool, leq: (T, T) -> bool, s: seq<T>)
    requires TotalPreorder(leq)
    ensures Filter(p, Sort(leq, s)) == Sort(leq, Filter(p, s))
  {
    if s != [] {
      FilterSort(p, leq, s[1..]);
      SortCorrect(leq, s[1..]);
      FilterInsert(p, leq, s[0], Sort(leq, s[1..]));
      if p(s[0]) {
        assert ([s[0]] + Filter(p, s[1..]))[1..] == Filter(p, s[1..]);
      }
    }
  }

  lemma {:induction false} SortedUnmoved<T(!new)>(leq: (T, T) -> bool, s: seq<T>)
    requires Sorted(leq, s)
    ensures Sort(leq, s) == s
  {
    if s != [] {
      SortedUnmoved(leq, s[1..]);
      assert |s| > 1 ==> leq(s[0], s[1]);
    }
  }

  /** Elements the order cannot tell apart keep their order. */
  lemma SortStable<T(!new)>(leq: (T, T) -> bool, s: seq<T>, x: T)
    requires TotalPreorder(leq)
    ensures Filter(SameAs(leq, x), Sort(leq, s)) == Filter(SameAs(leq, x), s)
  {
    var same := Filter(SameAs(leq, x), s);
    FilterSort(SameAs(leq, x), leq, s);
    forall i, j | 0 <= i < j < |same| ensures leq(same[i], same[j]) {
      FilterIn(SameAs(leq, x), s, same[i]);
      FilterIn(SameAs(leq, x), s, same[j]);
    }
    SortedUnmoved(leq, same);
  }

  lemma SomeClassInhabited<T(!new)>(leq: (T, T) -> bool, b: seq<T>)
    requires TotalPreorder(leq)
    ensures b != [] ==> exists x :: Filter(SameAs(leq, x), b) != []
  {
    if b != [] {
      assert Filter(SameAs(leq, b[0]), b) != [];
    }
  }

  lemma {:induction false} SortedAgree<T(!new)>(leq: (T, T) -> bool, a: seq<T>, b: seq<T>)
    requires TotalPreorder(leq) && Sorted(leq, a) && Sorted(leq, b)
    requires forall x :: Filter(SameAs(leq, x), a) == Filter(SameAs(leq, x), b)
    ensures a == b
  {
    if a == [] {
      SomeClassInhabited(leq, b);
    } else {
      var fa := Filter(SameAs(leq, a[0]), a);
      assert fa == Filter(SameAs(leq, a[0]), b);
      assert a[0] == fa[0];
      FilterIn(SameAs(leq, a[0]), b, a[0]);
      var fb := Filter(SameAs(leq, b[0]), b);
      assert fb == Filter(SameAs(leq, b[0]), a);
      FilterIn(SameAs(leq, b[0]), a, b[0]);
      assert leq(a[0], b[0]) && leq(b[0], a[0]);
      assert b[0] == Filter(SameAs(leq, a[0]), b)[0];
      forall x ensures Filter(SameAs(leq, x), a[1..]) == Filter(SameAs(leq, x), b[1..]) {
        assert Filter(SameAs(leq, x), a) == Filter(SameAs(leq, x), b);
        if SameAs(leq, x)(a[0]) {
          assert Filter(SameAs(leq, x), a)[1..] == Filter(SameAs(leq, x), a[1..]);
          assert Filter(SameAs(leq, x), b)[1..] == Filter(SameAs(leq, x), b[1..]);
        }
      }
      SortedAgree(leq, a[1..], b[1..]);
      assert a == [a[0]] + a[1..] && b == [b[0]] + b[1..];
    }
  }

  /** Any stable sort computes `Sort`: being sorted and keeping ties in order leaves one result. */
  lemma StableSortUnique<T(!new)>(leq: (T, T) -> bool, s: seq<T>, t: seq<T>)
    requires TotalPreorder(leq) && Sorted(leq, t)
    requires forall x :: Filter(SameAs(leq, x), t) == Filter(SameAs(leq, x), s)
    ensures t == Sort(leq, s)
  {
    SortCorrect(leq, s);
    forall x ensures Filter(SameAs(leq, x), t) == Filter(SameAs(leq, x), Sort(leq, s)) {
      SortStable(leq, s, x);
    }
    SortedAgree(leq, t, Sort(leq, s));
  }

  /** Sorting the parts first changes nothing. */
  lemma SortParts<T(!new)>(leq: (T, T) -> bool, a: seq<T>, b: seq<T>)
    requires TotalPreorder(leq)
    ensures Sort(leq, Sort(leq, a) + Sort(leq, b)) == Sort(leq, a + b)
  {
    var parts := Sort(leq, a) + Sort(leq, b);
    SortCorrect(leq, parts);
    forall x ensures Filter(SameAs(leq, x), Sort(leq, parts)) == Filter(SameAs(leq, x), a + b) {
      SortStable(leq, parts, x);
      FilterAppend(SameAs(leq, x), Sort(leq, a), Sort(leq, b));
      FilterAppend(SameAs(leq, x), a, b);
      SortStable(leq, a, x);
      SortStable(leq, b, x);
    }
    StableSortUnique(leq, a + b, Sort(leq, parts));
  }
}
