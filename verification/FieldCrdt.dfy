/** The replicated field state: counters per key and actor, tombstones, watermarks, and their merge. */
module FieldCrdt {
  import opened Wrappers

  /** One value per actor. */
  type Counters = map<string, real>

  /** Counters per memory key. */
  type Tree = map<string, Counters>

  /** What replicas exchange, and what a replica holds. */
  datatype State = State(positive: Tree, negative: Tree, tombstones: Tree, watermarks: Counters)

  datatype Delta = Delta(namespace: string, state: State)

  const EMPTY := State(map[], map[], map[], map[])

  /** `counters.get(actor, 0.0)`. */
  function Get(c: Counters, actor: string): real {
    if actor in c then c[actor] else 0.0
  }

  /** `tree.get(key, {})`. */
  function At(t: Tree, key: string): Counters {
    if key in t then t[key] else map[]
  }

  // ----- Merging

  /** Every incoming value above what is held replaces it; a missing value counts zero. */
  function MergedCounters(held: Counters, incoming: Counters): Counters {
    map a | a in held.Keys + incoming.Keys && (a in held || incoming[a] > 0.0) ::
      if a in incoming && incoming[a] > Get(held, a) then incoming[a] else held[a]
  }

  function MergedTree(held: Tree, incoming: Tree): Tree {
    map k | k in held.Keys + incoming.Keys :: MergedCounters(At(held, k), At(incoming, k))
  }

  function Merged(held: State, incoming: State): State {
    State(
      MergedTree(held.positive, incoming.positive),
      MergedTree(held.negative, incoming.negative),
      MergedTree(held.tombstones, incoming.tombstones),
      MergedCounters(held.watermarks, incoming.watermarks))
  }

  /** Some incoming value is above what is held. */
  ghost predicate Raises(held: Counters, incoming: Counters) {
    exists a :: a in incoming && incoming[a] > Get(held, a)
  }

  ghost predicate RaisesTree(held: Tree, incoming: Tree) {
    exists k :: k in incoming && Raises(At(held, k), incoming[k])
  }

  ghost predicate RaisesAny(held: State, incoming: State) {
    || RaisesTree(held.positive, incoming.positive)
    || RaisesTree(held.negative, incoming.negative)
    || RaisesTree(held.tombstones, incoming.tombstones)
    || Raises(held.watermarks, incoming.watermarks)
  }

  lemma MergeOneMore(held: Counters, done: Counters, a: string, v: real)
    requires a !in done
    ensures var merged := MergedCounters(held, done);
            && Get(merged, a) == Get(held, a)
            && MergedCounters(held, done[a := v]) == (if v > Get(held, a) then merged[a := v] else merged)
            && (Raises(held, done[a := v]) <==> Raises(held, done) || v > Get(held, a))
  {
    RaisesOneMore(held, done, a, v);
    hide Raises;
  }

  lemma RaisesOneMore(held: Counters, done: Counters, a: string, v: real)
    requires a !in done
    ensures Raises(held, done[a := v]) <==> Raises(held, done) || v > Get(held, a)
  {
    var more := done[a := v];
    assert a in more && more[a] == v;
    if x :| x in done && done[x] > Get(held, x) {
      assert x in more && more[x] > Get(held, x);
    }
  }

  lemma MergeOneMoreKey(held: Tree, done: Tree, k: string, c: Counters)
    requires k !in done
    ensures var merged := MergedTree(held, done);
            && At(merged, k) == At(held, k)
            && MergedTree(held, done[k := c]) == merged[k := MergedCounters(At(held, k), c)]
            && (RaisesTree(held, done[k := c]) <==> RaisesTree(held, done) || Raises(At(held, k), c))
  {
    hide MergedTree;
    hide MergedCounters;
    hide RaisesTree;
    hide Raises;
    RaisesOneMoreKey(held, done, k, c);
    MergedAtNew(held, done, k);
    var left, right := MergedTree(held, done[k := c]), MergedTree(held, done)[k := MergedCounters(At(held, k), c)];
    forall j ensures At(left, j) == At(right, j) {
      MergedAtOneMore(held, done, k, c, j);
    }
    MergedKeys(held, done);
    MergedKeys(held, done[k := c]);
    hide At;
    SameTree(left, right);
  }

  lemma MergedAtNew(held: Tree, done: Tree, k: string)
    requires k !in done
    ensures At(MergedTree(held, done), k) == At(held, k)
  {
    NothingIncoming(At(held, k));
    hide MergedCounters;
  }

  lemma MergedAtOneMore(held: Tree, done: Tree, k: string, c: Counters, j: string)
    ensures At(MergedTree(held, done[k := c]), j)
         == At(MergedTree(held, done)[k := MergedCounters(At(held, k), c)], j)
  {
    hide MergedTree;
    hide MergedCounters;
    MergedAt(held, done[k := c], j);
    MergedAt(held, done, j);
  }

  lemma RaisesOneMoreKey(held: Tree, done: Tree, k: string, c: Counters)
    requires k !in done
    ensures RaisesTree(held, done[k := c]) <==> RaisesTree(held, done) || Raises(At(held, k), c)
  {
    hide Raises;
    var more := done[k := c];
    assert k in more && more[k] == c;
    if x :| x in done && Raises(At(held, x), done[x]) {
      assert x in more && Raises(At(held, x), more[x]);
    }
  }

  lemma NothingIncoming(held: Counters)
    ensures MergedCounters(held, map[]) == held
  {
  }

  lemma NoKeysIncoming(held: Tree)
    ensures MergedTree(held, map[]) == held
  {
    forall k | k in held ensures MergedCounters(held[k], map[]) == held[k] {
      NothingIncoming(held[k]);
    }
  }

  lemma TakeOut<V>(m: map<string, V>, left: set<string>, k: string)
    requires k in left && left <= m.Keys
    ensures m - (left - {k}) == (m - left)[k := m[k]] && k !in m - left
  {
  }

  /** `_merge_watermarks`, and the inner loop of `_merge_counter_tree`. */
  method MergeCounters(held: Counters, incoming: Counters) returns (merged: Counters, changed: nat)
    ensures merged == MergedCounters(held, incoming)
    ensures changed > 0 <==> Raises(held, incoming)
  {
    merged, changed := held, 0;
    var left := incoming.Keys;
    assert incoming - left == map[];
    NothingIncoming(held);
    assert !Raises(held, map[]);
    hide MergedCounters;
    hide Raises;
    while left != {}
      invariant left <= incoming.Keys
      invariant merged == MergedCounters(held, incoming - left)
      invariant changed > 0 <==> Raises(held, incoming - left)
      decreases |left|
    {
      var a :| a in left;
      TakeOut(incoming, left, a);
      MergeOneMore(held, incoming - left, a, incoming[a]);
      if incoming[a] > Get(merged, a) {
        merged, changed := merged[a := incoming[a]], changed + 1;
      }
      left := left - {a};
    }
    assert incoming - {} == incoming;
  }

  /** `_merge_counter_tree`. */
  method MergeTree(held: Tree, incoming: Tree) returns (merged: Tree, changed: nat)
    ensures merged == MergedTree(held, incoming)
    ensures changed > 0 <==> RaisesTree(held, incoming)
  {
    merged, changed := held, 0;
    var left := incoming.Keys;
    assert incoming - left == map[];
    NoKeysIncoming(held);
    assert !RaisesTree(held, map[]);
    hide MergedTree;
    hide RaisesTree;
    while left != {}
      invariant left <= incoming.Keys
      invariant merged == MergedTree(held, incoming - left)
      invariant changed > 0 <==> RaisesTree(held, incoming - left)
      decreases |left|
    {
      var k :| k in left;
      TakeOut(incoming, left, k);
      MergeOneMoreKey(held, incoming - left, k, incoming[k]);
      var counters, more := MergeCounters(At(merged, k), incoming[k]);
      merged, changed := merged[k := counters], changed + more;
      left := left - {k};
    }
    assert incoming - {} == incoming;
  }

  /** The four merges of one delta, and whether any of them changed a value. */
  method MergeStates(held: State, incoming: State) returns (merged: State, changed: bool)
    ensures merged == Merged(held, incoming)
    ensures changed <==> RaisesAny(held, incoming)
  {
    hide MergedTree;
    hide MergedCounters;
    hide RaisesTree;
    hide Raises;
    var positive, inPositive := MergeTree(held.positive, incoming.positive);
    var negative, inNegative := MergeTree(held.negative, incoming.negative);
    var tombstones, inTombstones := MergeTree(held.tombstones, incoming.tombstones);
    var watermarks, inWatermarks := MergeCounters(held.watermarks, incoming.watermarks);
    merged := State(positive, negative, tombstones, watermarks);
    changed := inPositive + inNegative + inTombstones > 0 || inWatermarks > 0;
  }

  // ----- The algebra of merging

  ghost predicate NonNegative(c: Counters) {
    forall a :: a in c ==> c[a] >= 0.0
  }

  ghost predicate NonNegativeTree(t: Tree) {
    forall k :: k in t ==> NonNegative(t[k])
  }

  /** The larger value wins, cell by cell. */
  lemma MergedIsMaximum(held: Counters, incoming: Counters, a: string)
    requires NonNegative(held) && NonNegative(incoming)
    ensures Get(MergedCounters(held, incoming), a)
         == if Get(incoming, a) > Get(held, a) then Get(incoming, a) else Get(held, a)
  {
  }

  lemma CountersIdempotent(held: Counters, incoming: Counters)
    ensures MergedCounters(held, held) == held
    ensures MergedCounters(MergedCounters(held, incoming), incoming) == MergedCounters(held, incoming)
    ensures !Raises(MergedCounters(held, incoming), incoming)
  {
  }

  lemma CountersAssociative(a: Counters, b: Counters, c: Counters)
    requires NonNegative(a)
    ensures MergedCounters(MergedCounters(a, b), c) == MergedCounters(a, MergedCounters(b, c))
  {
    var left, right := MergedCounters(MergedCounters(a, b), c), MergedCounters(a, MergedCounters(b, c));
    forall x ensures x in left <==> x in right {
      CellAssociative(a, b, c, x);
    }
    forall x | x in left ensures left[x] == right[x] {
      CellAssociative(a, b, c, x);
    }
    hide MergedCounters;
  }

  lemma CellAssociative(a: Counters, b: Counters, c: Counters, x: string)
    requires NonNegative(a)
    ensures var left, right := MergedCounters(MergedCounters(a, b), c), MergedCounters(a, MergedCounters(b, c));
            (x in left <==> x in right) && (x in left ==> left[x] == right[x])
  {
    var ab, bc := MergedCounters(a, b), MergedCounters(b, c);
    assert x in ab <==> x in a || (x in b && b[x] > 0.0);
    assert x in bc <==> x in b || (x in c && c[x] > 0.0);
  }

  lemma CountersExchange(held: Counters, b: Counters, c: Counters)
    ensures MergedCounters(MergedCounters(held, b), c) == MergedCounters(MergedCounters(held, c), b)
  {
  }

  /** A zero is the only value that is held but not taken over. */
  ghost predicate ZerosShared(a: Counters, b: Counters) {
    forall x :: x in a && a[x] == 0.0 ==> x in b
  }

  /** Merging commutes exactly when each side has an entry wherever the other holds a zero. */
  lemma CountersCommuteExactly(a: Counters, b: Counters)
    requires NonNegative(a) && NonNegative(b)
    ensures MergedCounters(a, b) == MergedCounters(b, a) <==> ZerosShared(a, b) && ZerosShared(b, a)
  {
    var ab, ba := MergedCounters(a, b), MergedCounters(b, a);
    if ZerosShared(a, b) && ZerosShared(b, a) {
      assert ab.Keys == ba.Keys;
    }
    if !ZerosShared(a, b) {
      var x :| x in a && a[x] == 0.0 && x !in b;
      assert x in ab && x !in ba;
    }
    if !ZerosShared(b, a) {
      var x :| x in b && b[x] == 0.0 && x !in a;
      assert x in ba && x !in ab;
    }
  }

  lemma TreeIdempotent(held: Tree, incoming: Tree)
    ensures MergedTree(held, held) == held
    ensures MergedTree(MergedTree(held, incoming), incoming) == MergedTree(held, incoming)
  {
    var once := MergedTree(held, incoming);
    forall k
      ensures At(MergedTree(held, held), k) == At(held, k)
      ensures At(MergedTree(once, incoming), k) == At(once, k)
    {
      MergedAt(held, held, k);
      MergedAt(held, incoming, k);
      MergedAt(once, incoming, k);
      CountersIdempotent(At(held, k), At(incoming, k));
    }
    MergedKeys(held, held);
    MergedKeys(held, incoming);
    MergedKeys(once, incoming);
    hide MergedTree;
    hide MergedCounters;
    hide At;
    SameTree(MergedTree(held, held), held);
    SameTree(MergedTree(once, incoming), once);
  }

  lemma NothingForNothing()
    ensures MergedCounters(map[], map[]) == map[]
  {
  }

  lemma MergedAt(held: Tree, incoming: Tree, k: string)
    ensures At(MergedTree(held, incoming), k) == MergedCounters(At(held, k), At(incoming, k))
  {
    NothingForNothing();
    hide MergedCounters;
  }

  lemma MergedKeys(held: Tree, incoming: Tree)
    ensures MergedTree(held, incoming).Keys == held.Keys + incoming.Keys
  {
  }

  lemma SameTree(a: Tree, b: Tree)
    requires a.Keys == b.Keys && forall k :: At(a, k) == At(b, k)
    ensures a == b
  {
    forall k | k in a ensures a[k] == b[k] {
      assert At(a, k) == At(b, k);
    }
  }

  lemma NonNegativeAt(t: Tree, k: string)
    requires NonNegativeTree(t)
    ensures NonNegative(At(t, k))
  {
  }

  lemma TreeAssociativeAt(a: Tree, b: Tree, c: Tree, k: string)
    requires NonNegativeTree(a)
    ensures At(MergedTree(MergedTree(a, b), c), k) == At(MergedTree(a, MergedTree(b, c)), k)
  {
    NonNegativeAt(a, k);
    hide MergedTree;
    hide MergedCounters;
    hide NonNegative;
    hide At;
    MergedAt(MergedTree(a, b), c, k);
    MergedAt(a, b, k);
    MergedAt(a, MergedTree(b, c), k);
    MergedAt(b, c, k);
    CountersAssociative(At(a, k), At(b, k), At(c, k));
  }

  lemma TreeAssociative(a: Tree, b: Tree, c: Tree)
    requires NonNegativeTree(a)
    ensures MergedTree(MergedTree(a, b), c) == MergedTree(a, MergedTree(b, c))
  {
    hide MergedTree;
    hide NonNegativeTree;
    hide At;
    var left, right := MergedTree(MergedTree(a, b), c), MergedTree(a, MergedTree(b, c));
    forall k ensures At(left, k) == At(right, k) {
      TreeAssociativeAt(a, b, c, k);
    }
    MergedKeys(MergedTree(a, b), c);
    MergedKeys(a, b);
    MergedKeys(a, MergedTree(b, c));
    MergedKeys(b, c);
    SameTree(left, right);
  }

  lemma TreeExchangeAt(held: Tree, b: Tree, c: Tree, k: string)
    ensures var left, right := MergedTree(MergedTree(held, b), c), MergedTree(MergedTree(held, c), b);
            At(left, k) == At(right, k)
  {
    hide MergedTree;
    hide MergedCounters;
    hide At;
    MergedAt(MergedTree(held, b), c, k);
    MergedAt(held, b, k);
    MergedAt(MergedTree(held, c), b, k);
    MergedAt(held, c, k);
    CountersExchange(At(held, k), At(b, k), At(c, k));
  }

  lemma TreeExchange(held: Tree, b: Tree, c: Tree)
    ensures MergedTree(MergedTree(held, b), c) == MergedTree(MergedTree(held, c), b)
  {
    hide MergedTree;
    hide At;
    var left, right := MergedTree(MergedTree(held, b), c), MergedTree(MergedTree(held, c), b);
    forall k ensures At(left, k) == At(right, k) {
      TreeExchangeAt(held, b, c, k);
    }
    MergedKeys(MergedTree(held, b), c);
    MergedKeys(held, b);
    MergedKeys(MergedTree(held, c), b);
    MergedKeys(held, c);
    SameTree(left, right);
  }

  ghost predicate ZerosSharedInTree(a: Tree, b: Tree) {
    forall k :: ZerosShared(At(a, k), At(b, k))
  }

  lemma TreesCommuteAt(a: Tree, b: Tree, k: string)
    requires NonNegativeTree(a) && NonNegativeTree(b)
    ensures At(MergedTree(a, b), k) == At(MergedTree(b, a), k) <==>
              ZerosShared(At(a, k), At(b, k)) && ZerosShared(At(b, k), At(a, k))
  {
    NonNegativeAt(a, k);
    NonNegativeAt(b, k);
    hide MergedTree;
    hide MergedCounters;
    hide ZerosShared;
    hide At;
    MergedAt(a, b, k);
    MergedAt(b, a, k);
    CountersCommuteExactly(At(a, k), At(b, k));
  }

  lemma TreesCommuteExactly(a: Tree, b: Tree)
    requires NonNegativeTree(a) && NonNegativeTree(b)
    ensures MergedTree(a, b) == MergedTree(b, a) <==> ZerosSharedInTree(a, b) && ZerosSharedInTree(b, a)
  {
    hide MergedTree;
    hide ZerosShared;
    hide At;
    var ab, ba := MergedTree(a, b), MergedTree(b, a);
    forall k
      ensures At(ab, k) == At(ba, k) <==> ZerosShared(At(a, k), At(b, k)) && ZerosShared(At(b, k), At(a, k))
    {
      TreesCommuteAt(a, b, k);
    }
    MergedKeys(a, b);
    MergedKeys(b, a);
    if forall k :: At(ab, k) == At(ba, k) {
      SameTree(ab, ba);
    }
  }

  /** Merging a state into itself, or the same state twice, changes nothing. */
  lemma MergeIdempotent(held: State, incoming: State)
    ensures Merged(held, held) == held
    ensures Merged(Merged(held, incoming), incoming) == Merged(held, incoming)
  {
    hide MergedTree;
    hide MergedCounters;
    TreeIdempotent(held.positive, incoming.positive);
    TreeIdempotent(held.negative, incoming.negative);
    TreeIdempotent(held.tombstones, incoming.tombstones);
    CountersIdempotent(held.watermarks, incoming.watermarks);
  }

  /** Merging is associative, into any state a replica can hold. */
  lemma MergeAssociative(a: State, b: State, c: State)
    requires Sound(a)
    ensures Merged(Merged(a, b), c) == Merged(a, Merged(b, c))
  {
    hide MergedTree;
    hide MergedCounters;
    TreeAssociative(a.positive, b.positive, c.positive);
    TreeAssociative(a.negative, b.negative, c.negative);
    TreeAssociative(a.tombstones, b.tombstones, c.tombstones);
    CountersAssociative(a.watermarks, b.watermarks, c.watermarks);
  }

  /** Two incoming states may change places. */
  lemma MergeExchange(held: State, b: State, c: State)
    ensures Merged(Merged(held, b), c) == Merged(Merged(held, c), b)
  {
    hide MergedTree;
    hide MergedCounters;
    TreeExchange(held.positive, b.positive, c.positive);
    TreeExchange(held.negative, b.negative, c.negative);
    TreeExchange(held.tombstones, b.tombstones, c.tombstones);
    CountersExchange(held.watermarks, b.watermarks, c.watermarks);
  }

  // ----- What replicas hold

  ghost predicate PositiveTree(t: Tree) {
    forall k, a :: k in t && a in t[k] ==> t[k][a] > 0.0
  }

  /** Counters are above zero; deletion times and watermarks are not below. */
  ghost predicate Sound(s: State) {
    && PositiveTree(s.positive) && PositiveTree(s.negative)
    && NonNegativeTree(s.positive) && NonNegativeTree(s.negative)
    && NonNegativeTree(s.tombstones) && NonNegative(s.watermarks)
  }

  /** Two replicas that merge each other hold the same exactly when every deletion and every watermark at
      time zero on one side has an entry on the other. */
  lemma MergeCommutesExactly(a: State, b: State)
    requires Sound(a) && Sound(b)
    ensures Merged(a, b).positive == Merged(b, a).positive && Merged(a, b).negative == Merged(b, a).negative
    ensures Merged(a, b) == Merged(b, a) <==>
              && ZerosSharedInTree(a.tombstones, b.tombstones) && ZerosSharedInTree(b.tombstones, a.tombstones)
              && ZerosShared(a.watermarks, b.watermarks) && ZerosShared(b.watermarks, a.watermarks)
  {
    NoZeros(a.positive, b.positive);
    NoZeros(a.negative, b.negative);
    TreesCommuteExactly(a.tombstones, b.tombstones);
    CountersCommuteExactly(a.watermarks, b.watermarks);
    hide MergedTree;
    hide MergedCounters;
    hide ZerosShared;
    hide ZerosSharedInTree;
  }

  lemma NoZeros(a: Tree, b: Tree)
    requires PositiveTree(a) && PositiveTree(b) && NonNegativeTree(a) && NonNegativeTree(b)
    ensures MergedTree(a, b) == MergedTree(b, a)
  {
    assert ZerosSharedInTree(a, b) && ZerosSharedInTree(b, a);
    TreesCommuteExactly(a, b);
  }

  // ----- Any order of the same deltas

  function MergedAll(s: State, deltas: seq<State>): State {
    if deltas == [] then s
    else Merged(MergedAll(s, deltas[..|deltas| - 1]), deltas[|deltas| - 1])
  }

  lemma UnchangedIsUnraised(s: State, d: State)
    requires Merged(s, d) == s
    ensures !RaisesAny(s, d)
  {
    UnchangedTree(s.positive, d.positive);
    UnchangedTree(s.negative, d.negative);
    UnchangedTree(s.tombstones, d.tombstones);
    UnchangedCounters(s.watermarks, d.watermarks);
  }

  lemma UnchangedCounters(held: Counters, incoming: Counters)
    requires MergedCounters(held, incoming) == held
    ensures !Raises(held, incoming)
  {
    forall a | a in incoming ensures incoming[a] <= Get(held, a) {
      assert a in MergedCounters(held, incoming) <==> a in held || incoming[a] > 0.0;
    }
  }

  lemma UnchangedTree(held: Tree, incoming: Tree)
    requires MergedTree(held, incoming) == held
    ensures !RaisesTree(held, incoming)
  {
    forall k | k in incoming ensures !Raises(At(held, k), incoming[k]) {
      assert MergedTree(held, incoming)[k] == MergedCounters(At(held, k), incoming[k]);
      UnchangedCounters(At(held, k), incoming[k]);
    }
  }

  /** A delta among those absorbed can come again: nothing changes, and the merge reports no change. */
  lemma {:induction false} AbsorbedStays(s: State, deltas: seq<State>, d: State)
    requires d in deltas
    ensures Merged(MergedAll(s, deltas), d) == MergedAll(s, deltas) && !RaisesAny(MergedAll(s, deltas), d)
  {
    hide Merged;
    hide RaisesAny;
    var before, last := deltas[..|deltas| - 1], deltas[|deltas| - 1];
    if last == d {
      MergeIdempotent(MergedAll(s, before), d);
    } else {
      AbsorbedStays(s, before, d);
      MergeExchange(MergedAll(s, before), last, d);
    }
    UnchangedIsUnraised(MergedAll(s, deltas), d);
  }

  lemma {:induction false} AllAbsorbedStay(s: State, deltas: seq<State>, again: seq<State>)
    requires forall d :: d in again ==> d in deltas
    ensures MergedAll(MergedAll(s, deltas), again) == MergedAll(s, deltas)
  {
    if again != [] {
      hide Merged;
      AllAbsorbedStay(s, deltas, again[..|again| - 1]);
      AbsorbedStays(s, deltas, again[|again| - 1]);
    }
  }

  lemma {:induction false} ExchangeAll(s: State, d: State, deltas: seq<State>)
    ensures MergedAll(Merged(s, d), deltas) == Merged(MergedAll(s, deltas), d)
  {
    if deltas != [] {
      hide Merged;
      var before, last := deltas[..|deltas| - 1], deltas[|deltas| - 1];
      ExchangeAll(s, d, before);
      MergeExchange(MergedAll(s, before), d, last);
    }
  }

  lemma {:induction false} SwapAll(s: State, deltas: seq<State>, others: seq<State>)
    ensures MergedAll(MergedAll(s, deltas), others) == MergedAll(MergedAll(s, others), deltas)
  {
    if deltas != [] {
      hide Merged;
      var before, last := deltas[..|deltas| - 1], deltas[|deltas| - 1];
      SwapAll(s, before, others);
      ExchangeAll(MergedAll(s, before), last, others);
    }
  }

  /** Convergence: the same deltas, in any order and however often each, leave the same state. */
  lemma AnyOrderConverges(s: State, deltas: seq<State>, others: seq<State>)
    requires forall d :: d in deltas <==> d in others
    ensures MergedAll(s, deltas) == MergedAll(s, others)
  {
    AllAbsorbedStay(s, deltas, others);
    AllAbsorbedStay(s, others, deltas);
    SwapAll(s, deltas, others);
  }

  // ----- Deletion

  predicate Tombstoned(s: State, key: string) {
    At(s.tombstones, key) != map[]
  }

  /** Some actor deleted the key at a time above zero. */
  ghost predicate DeletedAboveZero(s: State, key: string) {
    exists a :: a in At(s.tombstones, key) && At(s.tombstones, key)[a] > 0.0
  }

  lemma CountersHeld(held: Counters, incoming: Counters)
    ensures MergedCounters(held, incoming) != map[] <==>
              held != map[] || exists a :: a in incoming && incoming[a] > 0.0
  {
    var merged := MergedCounters(held, incoming);
    if a :| a in incoming && incoming[a] > 0.0 {
      assert a in merged;
    }
    if held != map[] {
      var a :| a in held;
      assert a in merged;
    }
  }

  /** What a merge leaves deleted: what was, and what the other side deleted at a time above zero. */
  lemma TombstonesAfterMerge(held: State, incoming: State, key: string)
    ensures Tombstoned(Merged(held, incoming), key) <==> Tombstoned(held, key) || DeletedAboveZero(incoming, key)
  {
    CountersHeld(At(held.tombstones, key), At(incoming.tombstones, key));
    assert At(Merged(held, incoming).tombstones, key)
        == MergedCounters(At(held.tombstones, key), At(incoming.tombstones, key)) by {
      NothingForNothing();
    }
    hide MergedCounters;
  }

  /** A deletion reaches every replica exactly when some of its times is above zero. */
  lemma TombstoneTravelsExactly(s: State, key: string)
    ensures (forall held :: Tombstoned(Merged(held, s), key)) <==> DeletedAboveZero(s, key)
  {
    forall held ensures Tombstoned(Merged(held, s), key) <==> Tombstoned(held, key) || DeletedAboveZero(s, key) {
      TombstonesAfterMerge(held, s, key);
    }
    assert !Tombstoned(EMPTY, key);
    assert Tombstoned(Merged(EMPTY, s), key) <==> DeletedAboveZero(s, key);
    hide Merged;
  }

  /** A deletion at time zero is lost on the way: deleted here, not there. */
  lemma ZeroTombstoneIsLost()
    ensures var s := Effect(EMPTY, Tombstone("k", "a", 0.0));
            Tombstoned(s, "k") && !Tombstoned(Merged(EMPTY, s), "k")
  {
    var s := Effect(EMPTY, Tombstone("k", "a", 0.0));
    assert At(s.tombstones, "k") == map["a" := 0.0];
    assert "a" in At(s.tombstones, "k");
    TombstonesAfterMerge(EMPTY, s, "k");
  }

  // ----- Operations

  /** Calls on a replica; the actor is the one given, or else the replica's own. */
  datatype Operation =
    | Boost(key: string, amount: real, actor: string, at: real)
    | Suppress(key: string, amount: real, actor: string, at: real)
    | Tombstone(key: string, actor: string, at: real)
    | Absorb(state: State)

  function Incremented(t: Tree, key: string, actor: string, amount: real): Tree {
    t[key := At(t, key)[actor := Get(At(t, key), actor) + amount]]
  }

  function Raised(c: Counters, actor: string, at: real): Counters {
    c[actor := if at > Get(c, actor) then at else Get(c, actor)]
  }

  /** State after one call; an empty key or an amount not above zero does nothing. */
  function Effect(s: State, op: Operation): State {
    match op
    case Boost(key, amount, actor, at) =>
      if key == "" || amount <= 0.0 then s
      else s.(positive := Incremented(s.positive, key, actor, amount), watermarks := Raised(s.watermarks, actor, at))
    case Suppress(key, amount, actor, at) =>
      if key == "" || amount <= 0.0 then s
      else s.(negative := Incremented(s.negative, key, actor, amount), watermarks := Raised(s.watermarks, actor, at))
    case Tombstone(key, actor, at) =>
      if key == "" then s
      else s.(tombstones := s.tombstones[key := Raised(At(s.tombstones, key), actor, at)],
              watermarks := Raised(s.watermarks, actor, at))
    case Absorb(d) => Merged(s, d)
  }

  /** The time a call names, if it takes effect. */
  predicate Marks(op: Operation) {
    match op
    case Boost(key, amount, _, _) => key != "" && amount > 0.0
    case Suppress(key, amount, _, _) => key != "" && amount > 0.0
    case Tombstone(key, _, _) => key != ""
    case Absorb(_) => false
  }

  /** Watermarks never fall, and an effective call raises its own actor's to its time, and no other. */
  lemma WatermarksFollow(s: State, op: Operation, a: string)
    requires Sound(s)
    ensures Get(Effect(s, op).watermarks, a) >= Get(s.watermarks, a)
    ensures Marks(op) && a == op.actor ==>
              && Get(Effect(s, op).watermarks, a) >= op.at
              && (Get(Effect(s, op).watermarks, a) == op.at || Get(Effect(s, op).watermarks, a) == Get(s.watermarks, a))
    ensures !op.Absorb? && (!Marks(op) || a != op.actor) ==> Get(Effect(s, op).watermarks, a) == Get(s.watermarks, a)
  {
  }

  lemma AbsorbMerges(s: State, d: State)
    ensures Effect(s, Absorb(d)) == Merged(s, d)
  {
  }

  lemma MergedTreeSound(held: Tree, incoming: Tree)
    ensures NonNegativeTree(held) ==> NonNegativeTree(MergedTree(held, incoming))
    ensures PositiveTree(held) ==> PositiveTree(MergedTree(held, incoming))
  {
  }

  lemma IncrementedSound(t: Tree, key: string, actor: string, amount: real)
    requires amount > 0.0 && PositiveTree(t) && NonNegativeTree(t)
    ensures PositiveTree(Incremented(t, key, actor, amount)) && NonNegativeTree(Incremented(t, key, actor, amount))
  {
    var c := At(t, key)[actor := Get(At(t, key), actor) + amount];
    forall a | a in c ensures c[a] > 0.0 {
      assert a != actor ==> key in t && t[key][a] > 0.0;
      assert a == actor && key in t && actor in t[key] ==> t[key][actor] > 0.0;
    }
  }

  lemma RaisedSound(c: Counters, actor: string, at: real)
    requires NonNegative(c)
    ensures NonNegative(Raised(c, actor, at))
  {
  }

  lemma AbsorbSound(s: State, d: State)
    requires Sound(s)
    ensures Sound(Merged(s, d))
  {
    MergedTreeSound(s.positive, d.positive);
    MergedTreeSound(s.negative, d.negative);
    MergedTreeSound(s.tombstones, d.tombstones);
    MergedNonNegative(s.watermarks, d.watermarks);
    hide MergedTree;
    hide MergedCounters;
    hide PositiveTree;
    hide NonNegativeTree;
    hide NonNegative;
  }

  lemma MergedNonNegative(held: Counters, incoming: Counters)
    requires NonNegative(held)
    ensures NonNegative(MergedCounters(held, incoming))
  {
  }

  lemma DeletedSound(t: Tree, key: string, actor: string, at: real)
    requires NonNegativeTree(t)
    ensures NonNegativeTree(t[key := Raised(At(t, key), actor, at)])
  {
    NonNegativeAt(t, key);
    RaisedSound(At(t, key), actor, at);
    hide Raised;
    hide NonNegative;
  }

  /** Whatever is merged in, from any state and any delta, replicas stay sound. */
  lemma EffectSound(s: State, op: Operation)
    requires Sound(s)
    ensures Sound(Effect(s, op))
  {
    match op
    case Boost(key, amount, actor, at) =>
      if amount > 0.0 {
        IncrementedSound(s.positive, key, actor, amount);
        RaisedSound(s.watermarks, actor, at);
      }
    case Suppress(key, amount, actor, at) =>
      if amount > 0.0 {
        IncrementedSound(s.negative, key, actor, amount);
        RaisedSound(s.watermarks, actor, at);
      }
    case Tombstone(key, actor, at) =>
      DeletedSound(s.tombstones, key, actor, at);
      RaisedSound(s.watermarks, actor, at);
    case Absorb(d) =>
      AbsorbSound(s, d);
    hide Merged;
    hide PositiveTree;
    hide NonNegativeTree;
    hide NonNegative;
    hide Incremented;
    hide Raised;
  }

  function AfterAll(s: State, ops: seq<Operation>): State {
    if ops == [] then s else Effect(AfterAll(s, ops[..|ops| - 1]), ops[|ops| - 1])
  }

  /** Every state a new replica reaches is sound. */
  lemma {:induction false} ReachableSound(ops: seq<Operation>)
    ensures Sound(AfterAll(EMPTY, ops))
  {
    if ops != [] {
      hide Effect;
      hide Sound;
      ReachableSound(ops[..|ops| - 1]);
      EffectSound(AfterAll(EMPTY, ops[..|ops| - 1]), ops[|ops| - 1]);
    }
  }

  lemma TombstonedStays(s: State, op: Operation, key: string)
    requires Tombstoned(s, key)
    ensures Tombstoned(Effect(s, op), key)
  {
    match op
    case Boost(_, _, _, _) =>
    case Suppress(_, _, _, _) =>
    case Tombstone(k, actor, at) =>
      if k == key && k != "" {
        assert actor in At(Effect(s, op).tombstones, key);
      }
    case Absorb(d) =>
      TombstonesAfterMerge(s, d, key);
  }

  lemma {:induction false} TombstonedAlways(s: State, ops: seq<Operation>, key: string)
    requires Tombstoned(s, key)
    ensures Tombstoned(AfterAll(s, ops), key)
    decreases |ops|
  {
    if ops != [] {
      hide Effect;
      hide Tombstoned;
      var before, last := ops[..|ops| - 1], ops[|ops| - 1];
      TombstonedAlways(s, before, key);
      TombstonedStays(AfterAll(s, before), last, key);
    }
  }

  /** A deleted key stays deleted under every continuation: no boost brings it back. */
  lemma TombstonedForGood(s: State, ops: seq<Operation>, key: string)
    requires Tombstoned(s, key)
    ensures Tombstoned(AfterAll(s, ops), key) && Energy(AfterAll(s, ops), key) == 0.0
  {
    TombstonedAlways(s, ops, key);
    hide AfterAll;
    hide Tombstoned;
  }

  // ----- Energy

  ghost function Pick(c: Counters): string
    requires c != map[]
  {
    var a :| a in c;
    a
  }

  /** The sum of the values. */
  ghost function Total(c: Counters): real
    decreases |c.Keys|
  {
    if c == map[] then 0.0
    else
      var a := Pick(c);
      Without(c, a);
      c[a] + Total(c - {a})
  }

  lemma Without(c: Counters, a: string)
    requires a in c
    ensures (c - {a}).Keys == c.Keys - {a} && |(c - {a}).Keys| < |c.Keys|
  {
  }

  /** The sum does not depend on the order of adding. */
  lemma {:induction false} TotalWithout(c: Counters, a: string)
    requires a in c
    ensures Total(c) == c[a] + Total(c - {a})
    decreases |c.Keys|
  {
    var b := Pick(c);
    if a != b {
      Without(c, a);
      Without(c, b);
      TotalWithout(c - {b}, a);
      TotalWithout(c - {a}, b);
      assert (c - {a}) - {b} == (c - {b}) - {a};
    }
  }

  lemma TotalRaised(c: Counters, a: string, v: real)
    ensures Total(c[a := v]) == Total(c) - Get(c, a) + v
  {
    TotalWithout(c[a := v], a);
    assert c[a := v] - {a} == c - {a};
    if a in c {
      TotalWithout(c, a);
    } else {
      assert c - {a} == c;
    }
  }

  /** `_sum_counter`. */
  method SumCounter(c: Counters) returns (total: real)
    ensures total == Total(c)
  {
    total := 0.0;
    var left := c.Keys;
    assert c - left == map[];
    while left != {}
      invariant left <= c.Keys && total == Total(c - left)
      decreases |left|
    {
      var a :| a in left;
      TakeOut(c, left, a);
      TotalRaised(c - left, a, c[a]);
      total := total + c[a];
      left := left - {a};
    }
    assert c - {} == c;
  }

  ghost function Energy(s: State, key: string): real {
    if Tombstoned(s, key) then 0.0 else Total(At(s.positive, key)) - Total(At(s.negative, key))
  }

  /** Nothing is counted twice or lost: an effective boost adds exactly its amount to its key, a
      suppression takes exactly its amount away, and no other key moves; a deleted key has none. */
  lemma EnergyConserved(s: State, op: Operation, key: string)
    requires op.Boost? || op.Suppress?
    ensures Energy(Effect(s, op), key) ==
              if Tombstoned(s, key) then 0.0
              else if op.key != key || key == "" || op.amount <= 0.0 then Energy(s, key)
              else if op.Boost? then Energy(s, key) + op.amount
              else Energy(s, key) - op.amount
  {
    TotalIncremented(s.positive, op.key, op.actor, op.amount, key);
    TotalIncremented(s.negative, op.key, op.actor, op.amount, key);
    hide Total;
    hide Incremented;
    hide Raised;
  }

  lemma TotalIncremented(t: Tree, key: string, actor: string, amount: real, k: string)
    ensures Total(At(Incremented(t, key, actor, amount), k)) == Total(At(t, k)) + if k == key then amount else 0.0
  {
    TotalRaised(At(t, key), actor, Get(At(t, key), actor) + amount);
    hide Total;
  }

  // ----- The replica

  function Or(value: string, default: string): string {
    if value != "" then value else default
  }

  class FieldStateCRDT {
    const namespace: string
    const actor: string
    var positive: Tree
    var negative: Tree
    var tombstones: Tree
    var watermarks: Counters

    function Contents(): State
      reads this
    {
      State(positive, negative, tombstones, watermarks)
    }

    ghost predicate Valid()
      reads this
    {
      actor != "" && Sound(Contents())
    }

    constructor (namespace: string, actor: string)
      ensures Valid() && Contents() == EMPTY
      ensures this.namespace == (if namespace != "" then namespace else "default")
      ensures this.actor == (if actor != "" then actor else "local")
    {
      this.namespace := Or(namespace, "default");
      this.actor := Or(actor, "local");
      positive, negative, tombstones, watermarks := map[], map[], map[], map[];
    }

    method MarkWatermark(given: string, at: real)
      modifies this`watermarks
      ensures watermarks == Raised(old(watermarks), given, at)
    {
      watermarks := watermarks[given := if at > Get(watermarks, given) then at else Get(watermarks, given)];
    }

    /** `_increment`: the tree with the amount added, or as it was. */
    method Increment(target: Tree, key: string, amount: real, given: string, at: real) returns (t: Tree)
      modifies this`watermarks
      ensures if key == "" || amount <= 0.0 then t == target && watermarks == old(watermarks)
              else && t == Incremented(target, key, Or(given, actor), amount)
                   && watermarks == Raised(old(watermarks), Or(given, actor), at)
    {
      if key == "" || amount <= 0.0 {
        return target;
      }
      var who := Or(given, actor);
      var byActor := At(target, key);
      t := target[key := byActor[who := Get(byActor, who) + amount]];
      MarkWatermark(who, at);
    }

    method BoostKey(key: string, amount: real, given: string, at: real)
      requires Valid()
      modifies this
      ensures Valid() && Contents() == Effect(old(Contents()), Boost(key, amount, Or(given, actor), at))
    {
      EffectSound(Contents(), Boost(key, amount, Or(given, actor), at));
      hide Sound;
      hide Incremented;
      hide Raised;
      var t := Increment(positive, key, amount, given, at);
      positive := t;
    }

    method SuppressKey(key: string, amount: real, given: string, at: real)
      requires Valid()
      modifies this
      ensures Valid() && Contents() == Effect(old(Contents()), Suppress(key, amount, Or(given, actor), at))
    {
      EffectSound(Contents(), Suppress(key, amount, Or(given, actor), at));
      hide Sound;
      hide Incremented;
      hide Raised;
      var t := Increment(negative, key, amount, given, at);
      negative := t;
    }

    method TombstoneKey(key: string, given: string, at: real)
      requires Valid()
      modifies this
      ensures Valid() && Contents() == Effect(old(Contents()), Tombstone(key, Or(given, actor), at))
    {
      EffectSound(Contents(), Tombstone(key, Or(given, actor), at));
      hide Sound;
      if key == "" {
        return;
      }
      var who := Or(given, actor);
      var byActor := At(tombstones, key);
      tombstones := tombstones[key := byActor[who := if at > Get(byActor, who) then at else Get(byActor, who)]];
      MarkWatermark(who, at);
    }

    /** Refuses another namespace; otherwise reports a change exactly when some value was below the delta's. */
    method Merge(delta: Delta) returns (r: Result<bool, string>)
      requires Valid()
      modifies this
      ensures Valid()
      ensures r.Err? <==> delta.namespace != namespace
      ensures r.Err? ==> Contents() == old(Contents())
      ensures r.Ok? ==> Contents() == Effect(old(Contents()), Absorb(delta.state))
      ensures r.Ok? ==> (r.value <==> RaisesAny(old(Contents()), delta.state))
    {
      hide Sound;
      hide Effect;
      if delta.namespace != namespace {
        return Err(delta.namespace);
      }
      EffectSound(Contents(), Absorb(delta.state));
      AbsorbMerges(Contents(), delta.state);
      hide Merged;
      hide RaisesAny;
      var merged, changed := MergeStates(Contents(), delta.state);
      positive, negative, tombstones, watermarks :=
        merged.positive, merged.negative, merged.tombstones, merged.watermarks;
      r := Ok(changed);
    }

    method SignedEnergy(key: string) returns (energy: real)
      ensures energy == Energy(Contents(), key)
    {
      if At(tombstones, key) != map[] {
        return 0.0;
      }
      var up := SumCounter(At(positive, key));
      var down := SumCounter(At(negative, key));
      energy := up - down;
    }
  }
}
