/** Alphabetical sorting of distinct names. */
module SortedNames {
  import opened StableSort
  import Lexicographic

  predicate NameLeq(a: string, b: string) {
    Lexicographic.Leq(a, b)
  }

  lemma NameLeqOrders()
    ensures TotalPreorder(NameLeq)
  {
    forall a, b ensures NameLeq(a, b) || NameLeq(b, a) {
      Lexicographic.Total(a, b);
    }
    forall a, b, c | NameLeq(a, b) && NameLeq(b, c) ensures NameLeq(a, c) {
      Lexicographic.Transitive(a, b, c);
    }
  }

  lemma SortKeepsDistinct(s: seq<string>)
    requires forall i, j :: 0 <= i < j < |s| ==> s[i] != s[j]
    ensures var t := Sort(NameLeq, s); forall i, j :: 0 <= i < j < |t| ==> t[i] != t[j]
  {
    NameLeqOrders();
    SortCorrect(NameLeq, s);
    var t := Sort(NameLeq, s);
    DistinctByCount(s);
    forall i, j | 0 <= i < j < |t| ensures t[i] != t[j] {
      RepeatCounted(t, i, j);
    }
  }

  lemma RepeatCounted(t: seq<string>, i: nat, j: nat)
    requires i < j < |t|
    ensures t[i] == t[j] ==> multiset(t)[t[j]] >= 2
  {
    assert t == t[..j] + [t[j]] + t[j + 1..];
    assert t[i] in t[..j];
  }

  lemma {:induction false} DistinctByCount(s: seq<string>)
    requires forall i, j :: 0 <= i < j < |s| ==> s[i] != s[j]
    ensures forall x :: multiset(s)[x] <= 1
  {
    if s != [] {
      DistinctByCount(s[1..]);
      assert s == [s[0]] + s[1..];
      assert s[0] !in s[1..];
    }
  }

  /** `sorted(...)` over distinct names. */
  method SortNames(keys: seq<string>) returns (t: seq<string>)
    requires forall i, j :: 0 <= i < j < |keys| ==> keys[i] != keys[j]
    ensures Sorted(NameLeq, t)
    ensures forall c :: c in t <==> c in keys
    ensures forall i, j :: 0 <= i < j < |t| ==> t[i] != t[j]
  {
    t := Sort(NameLeq, keys);
    NameLeqOrders();
    SortCorrect(NameLeq, keys);
    SortKeepsDistinct(keys);
    forall c ensures c in t <==> c in keys {
      SortIn(NameLeq, keys, c);
    }
  }
}
