/** What a key-based reduction means, with no buckets, streams or sorting in it.

    `Agg(r, xs, k)` combines every record of `xs` whose key is `k`.  The reduction operators
    of ursa/common/dataset/dataset.h are proved to compute `IsGroupBy`. */
module Grouping {
  import opened Sequences

  datatype Option<+T> = None | Some(value: T)

  /** A key selector, the order its keys are sorted in, and the combiner (`combine(a, b)` is
      what `combiner(a, b)` leaves in `a`). */
  datatype Reducer<!V, !K> = Reducer(key: V -> K, less: (K, K) -> bool, combine: (V, V) -> V)

  /** The keys are totally ordered by `<`. */
  ghost predicate Ordered<V, K(!new)>(r: Reducer<V, K>) {
    && (forall a :: !r.less(a, a))
    && (forall a, b :: a != b ==> r.less(a, b) || r.less(b, a))
    && (forall a, b, c :: r.less(a, b) && r.less(b, c) ==> r.less(a, c))
  }

  /** On records of one key the combiner keeps the key, commutes and associates. */
  ghost predicate Combines<V(!new), K>(r: Reducer<V, K>) {
    && (forall a, b :: r.key(a) == r.key(b) ==> r.key(r.combine(a, b)) == r.key(a))
    && (forall a, b :: r.key(a) == r.key(b) ==> r.combine(a, b) == r.combine(b, a))
    && (forall a, b, c :: r.key(a) == r.key(b) == r.key(c) ==>
          r.combine(r.combine(a, b), c) == r.combine(a, r.combine(b, c)))
  }

  ghost predicate Lawful<V(!new), K(!new)>(r: Reducer<V, K>) {
    Ordered(r) && Combines(r)
  }

  function Plus<V, K>(r: Reducer<V, K>, a: Option<V>, b: Option<V>): Option<V> {
    if a.None? then b else if b.None? then a else Some(r.combine(a.value, b.value))
  }

  function Pick<V, K(==)>(r: Reducer<V, K>, x: V, k: K): Option<V> {
    if r.key(x) == k then Some(x) else None
  }

  /** All records of `xs` with key `k`, combined. */
  function Agg<V, K(==)>(r: Reducer<V, K>, xs: seq<V>, k: K): Option<V> {
    if xs == [] then None else Plus(r, Pick(r, xs[0], k), Agg(r, xs[1..], k))
  }

  ghost predicate SameGroups<V, K(!new)>(r: Reducer<V, K>, xs: seq<V>, ys: seq<V>) {
    forall k :: Agg(r, xs, k) == Agg(r, ys, k)
  }

  ghost predicate Ascending<V, K>(r: Reducer<V, K>, xs: seq<V>) {
    forall i, j :: 0 <= i < j < |xs| ==> r.less(r.key(xs[i]), r.key(xs[j]))
  }

  ghost predicate SortedByKey<V, K>(r: Reducer<V, K>, xs: seq<V>) {
    forall i, j :: 0 <= i < j < |xs| ==> !r.less(r.key(xs[j]), r.key(xs[i]))
  }

  /** `out` is `xs` grouped by key: ascending keys and the combined record of each. */
  ghost predicate IsGroupBy<V, K(!new)>(r: Reducer<V, K>, out: seq<V>, xs: seq<V>) {
    Ascending(r, out) && SameGroups(r, out, xs)
  }

  // ---------- the aggregate is a homomorphism ----------

  lemma {:induction false} AggKey<V(!new), K>(r: Reducer<V, K>, xs: seq<V>, k: K)
    requires Combines(r)
    ensures Agg(r, xs, k).Some? ==> r.key(Agg(r, xs, k).value) == k
    ensures Agg(r, xs, k).Some? <==> exists x :: x in xs && r.key(x) == k
  {
    if xs != [] {
      AggKey(r, xs[1..], k);
      assert forall x :: x in xs <==> x == xs[0] || x in xs[1..];
    }
  }

  lemma PlusAssociates<V(!new), K>(r: Reducer<V, K>, x: V, xs: seq<V>, ys: seq<V>, k: K)
    requires Combines(r)
    ensures Plus(r, Pick(r, x, k), Plus(r, Agg(r, xs, k), Agg(r, ys, k)))
         == Plus(r, Plus(r, Pick(r, x, k), Agg(r, xs, k)), Agg(r, ys, k))
  {
    hide Agg;
    AggKey(r, xs, k);
    AggKey(r, ys, k);
  }

  lemma {:induction false} AggConcat<V(!new), K>(r: Reducer<V, K>, xs: seq<V>, ys: seq<V>, k: K)
    requires Combines(r)
    ensures Agg(r, xs + ys, k) == Plus(r, Agg(r, xs, k), Agg(r, ys, k))
  {
    hide Combines;
    if xs == [] {
      assert xs + ys == ys;
    } else {
      AggConcat(r, xs[1..], ys, k);
      assert (xs + ys)[1..] == xs[1..] + ys;
      PlusAssociates(r, xs[0], xs[1..], ys, k);
    }
  }

  lemma AggPullOut<V(!new), K>(r: Reducer<V, K>, a: seq<V>, x: V, b: seq<V>, k: K)
    requires Combines(r)
    ensures Agg(r, a + ([x] + b), k) == Plus(r, Pick(r, x, k), Agg(r, a + b, k))
  {
    AggConcat(r, a, b, k);
    AggConcat(r, a, [x] + b, k);
    AggConcat(r, [x], b, k);
    AggKey(r, a, k);
    AggKey(r, b, k);
  }

  lemma {:induction false} AggPermute<V(!new), K>(r: Reducer<V, K>, xs: seq<V>, ys: seq<V>, k: K)
    requires Combines(r) && multiset(xs) == multiset(ys)
    ensures Agg(r, xs, k) == Agg(r, ys, k)
    decreases |xs|
  {
    hide *;
    if xs == [] {
      assert |multiset(ys)| == 0;
    } else {
      var a, b := SplitAtHead(xs, ys);
      AggPermute(r, xs[1..], a + b, k);
      AggPullOut(r, [], xs[0], xs[1..], k);
      AggPullOut(r, a, xs[0], b, k);
    }
  }

  lemma PermutationSameGroups<V(!new), K(!new)>(r: Reducer<V, K>, xs: seq<V>, ys: seq<V>)
    requires Lawful(r) && multiset(xs) == multiset(ys)
    ensures SameGroups(r, xs, ys)
  {
    forall k ensures Agg(r, xs, k) == Agg(r, ys, k) {
      AggPermute(r, xs, ys, k);
    }
  }

  lemma NoRecords<V, K(!new)>(r: Reducer<V, K>)
    ensures SameGroups(r, [], [])
  {
  }

  lemma SameGroupsConcat<V(!new), K(!new)>(r: Reducer<V, K>, a: seq<V>, b: seq<V>, c: seq<V>, d: seq<V>)
    requires Combines(r) && SameGroups(r, a, c) && SameGroups(r, b, d)
    ensures SameGroups(r, a + b, c + d)
  {
    forall k ensures Agg(r, a + b, k) == Agg(r, c + d, k) {
      AggConcat(r, a, b, k);
      AggConcat(r, c, d, k);
    }
  }

  /** Combining two neighbours of one key into one record changes no group. */
  lemma MergeNeighbours<V(!new), K(!new)>(r: Reducer<V, K>, a: seq<V>, x: V, y: V, b: seq<V>)
    requires Combines(r) && r.key(x) == r.key(y)
    ensures SameGroups(r, a + [x] + ([y] + b), a + [r.combine(x, y)] + b)
  {
    var z := r.combine(x, y);
    forall k ensures Agg(r, [x] + [y], k) == Agg(r, [z], k) {
      AggConcat(r, [x], [y], k);
    }
    SameGroupsConcat(r, a, [x] + [y], a, [z]);
    SameGroupsConcat(r, a + ([x] + [y]), b, a + [z], b);
    assert a + ([x] + [y]) + b == a + [x] + ([y] + b);
  }

  /** The invariant of a combining loop over `input`: `done` is finished, `current` is the record
      the present run is being folded into, `rest` has not been looked at. */
  ghost predicate Combining<V, K(!new)>(r: Reducer<V, K>, done: seq<V>, current: V, rest: seq<V>, input: seq<V>) {
    SameGroups(r, done + [current] + rest, input)
  }

  lemma CombineFirst<V(!new), K(!new)>(r: Reducer<V, K>, sorted: seq<V>, input: seq<V>)
    requires Lawful(r) && sorted != [] && multiset(sorted) == multiset(input)
    ensures Combining(r, [], sorted[0], sorted[1..], input)
  {
    PermutationSameGroups(r, sorted, input);
    assert sorted == [] + [sorted[0]] + sorted[1..];
  }

  lemma CombineMerge<V(!new), K(!new)>(r: Reducer<V, K>, done: seq<V>, current: V, rest: seq<V>, input: seq<V>)
    requires Lawful(r) && Combining(r, done, current, rest, input)
    requires rest != [] && r.key(rest[0]) == r.key(current)
    ensures Combining(r, done, r.combine(current, rest[0]), rest[1..], input)
    ensures r.key(r.combine(current, rest[0])) == r.key(current)
  {
    assert rest == [rest[0]] + rest[1..];
    MergeNeighbours(r, done, current, rest[0], rest[1..]);
  }

  lemma CombineEmit<V, K(!new)>(r: Reducer<V, K>, done: seq<V>, current: V, rest: seq<V>, input: seq<V>)
    requires Combining(r, done, current, rest, input)
    ensures rest != [] ==> Combining(r, done + [current], rest[0], rest[1..], input)
    ensures rest == [] ==> SameGroups(r, done + [current], input)
  {
    if rest != [] {
      assert done + [current] + rest == done + [current] + [rest[0]] + rest[1..];
    } else {
      assert done + [current] + rest == done + [current];
    }
  }

  /** What sorting adds to it: the finished records ascend and lie below all that follows. */
  ghost predicate Compacting<V, K(!new)>(r: Reducer<V, K>, done: seq<V>, current: V, rest: seq<V>, input: seq<V>) {
    && Combining(r, done, current, rest, input)
    && Ascending(r, done) && SortedByKey(r, rest)
    && (forall x :: x in done ==> r.less(r.key(x), r.key(current)))
    && (forall x :: x in rest ==> !r.less(r.key(x), r.key(current)))
  }

  lemma CompactFirst<V(!new), K(!new)>(r: Reducer<V, K>, sorted: seq<V>)
    requires Lawful(r) && SortedByKey(r, sorted) && sorted != []
    ensures Compacting(r, [], sorted[0], sorted[1..], sorted)
  {
    CombineFirst(r, sorted, sorted);
  }

  lemma CompactMerge<V(!new), K(!new)>(r: Reducer<V, K>, done: seq<V>, current: V, rest: seq<V>, input: seq<V>)
    requires Lawful(r) && Compacting(r, done, current, rest, input)
    requires rest != [] && r.key(rest[0]) == r.key(current)
    ensures Compacting(r, done, r.combine(current, rest[0]), rest[1..], input)
    ensures r.key(r.combine(current, rest[0])) == r.key(current)
  {
    CombineMerge(r, done, current, rest, input);
  }

  lemma CompactEmit<V(!new), K(!new)>(r: Reducer<V, K>, done: seq<V>, current: V, rest: seq<V>, input: seq<V>)
    requires Lawful(r) && Compacting(r, done, current, rest, input)
    ensures rest == [] ==> IsGroupBy(r, done + [current], input)
    ensures rest != [] && r.key(rest[0]) != r.key(current) ==>
              Compacting(r, done + [current], rest[0], rest[1..], input)
  {
    CombineEmit(r, done, current, rest, input);
    if rest != [] && r.key(rest[0]) != r.key(current) {
      assert rest[0] in rest;
    }
  }

  lemma GroupByTransfer<V, K(!new)>(r: Reducer<V, K>, out: seq<V>, xs: seq<V>, ys: seq<V>)
    requires IsGroupBy(r, out, xs) && SameGroups(r, xs, ys)
    ensures IsGroupBy(r, out, ys)
  {
  }

  // ---------- what IsGroupBy determines ----------

  lemma {:induction false} AscendingAgg<V(!new), K(!new)>(r: Reducer<V, K>, out: seq<V>, i: nat)
    requires Lawful(r) && Ascending(r, out) && i < |out|
    ensures Agg(r, out, r.key(out[i])) == Some(out[i])
  {
    var k := r.key(out[i]);
    assert out == out[..i] + ([out[i]] + out[i + 1..]);
    AggConcat(r, out[..i], [out[i]] + out[i + 1..], k);
    AggConcat(r, [out[i]], out[i + 1..], k);
    AggKey(r, out[..i], k);
    AggKey(r, out[i + 1..], k);
    forall x | x in out[..i] ensures r.key(x) != k {
      var j :| 0 <= j < i && out[j] == x;
    }
    forall x | x in out[i + 1..] ensures r.key(x) != k {
      var j :| i < j < |out| && out[j] == x;
    }
  }

  /** In a group-by exactly one record stands for each input key, it is the combination of all
      records of that key, and there is no other record. */
  lemma GroupByExactlyOnce<V(!new), K(!new)>(r: Reducer<V, K>, out: seq<V>, xs: seq<V>, k: K)
    requires Lawful(r) && IsGroupBy(r, out, xs)
    ensures (exists x :: x in xs && r.key(x) == k) <==> (exists i :: 0 <= i < |out| && r.key(out[i]) == k)
    ensures forall i, j :: 0 <= i < |out| && 0 <= j < |out| && r.key(out[i]) == r.key(out[j]) ==> i == j
    ensures forall i :: 0 <= i < |out| && r.key(out[i]) == k ==> Agg(r, xs, k) == Some(out[i])
  {
    AggKey(r, xs, k);
    AggKey(r, out, k);
    assert Agg(r, out, k) == Agg(r, xs, k);
    if exists x :: x in out && r.key(x) == k {
      var x :| x in out && r.key(x) == k;
      var i :| 0 <= i < |out| && out[i] == x;
      assert r.key(out[i]) == k;
    }
    forall i | 0 <= i < |out| && r.key(out[i]) == k ensures Agg(r, xs, k) == Some(out[i]) {
      AscendingAgg(r, out, i);
    }
  }

  /** There is only one group-by. */
  lemma {:induction false} GroupByUnique<V(!new), K(!new)>(r: Reducer<V, K>, a: seq<V>, b: seq<V>)
    requires Lawful(r) && Ascending(r, a) && Ascending(r, b) && SameGroups(r, a, b)
    ensures a == b
  {
    if a == [] || b == [] {
      if a != [] {
        AscendingAgg(r, a, 0);
        assert false;
      } else if b != [] {
        AscendingAgg(r, b, 0);
        assert false;
      }
    } else {
      LeastKeyFirst(r, a, b);
      LeastKeyFirst(r, b, a);
      AscendingAgg(r, a, 0);
      AscendingAgg(r, b, 0);
      assert a[0] == b[0];
      forall k ensures Agg(r, a[1..], k) == Agg(r, b[1..], k) {
        AggKey(r, a[1..], k);
        AggKey(r, b[1..], k);
        assert Agg(r, a, k) == Agg(r, b, k);
        if k == r.key(a[0]) {
          TailAvoidsHead(r, a);
          TailAvoidsHead(r, b);
        }
      }
      GroupByUnique(r, a[1..], b[1..]);
    }
  }

  lemma TailAvoidsHead<V(!new), K(!new)>(r: Reducer<V, K>, a: seq<V>)
    requires Ordered(r) && Ascending(r, a) && a != []
    ensures forall x :: x in a[1..] ==> r.key(x) != r.key(a[0])
  {
    forall x | x in a[1..] ensures r.key(x) != r.key(a[0]) {
      var j :| 0 < j < |a| && a[j] == x;
    }
  }

  lemma LeastKeyFirst<V(!new), K(!new)>(r: Reducer<V, K>, a: seq<V>, b: seq<V>)
    requires Lawful(r) && Ascending(r, a) && Ascending(r, b) && a != [] && b != []
    requires SameGroups(r, a, b)
    ensures !r.less(r.key(a[0]), r.key(b[0]))
  {
    var k := r.key(a[0]);
    AscendingAgg(r, a, 0);
    assert Agg(r, b, k) == Some(a[0]);
    AggKey(r, b, k);
    var x :| x in b && r.key(x) == k;
    var j :| 0 <= j < |b| && b[j] == x;
    assert j == 0 || r.less(r.key(b[0]), r.key(b[j]));
  }

  // ---------- the fold a reader would write ----------

  function WithKey<V, K(==)>(r: Reducer<V, K>, xs: seq<V>, k: K): seq<V> {
    if xs == [] then [] else (if r.key(xs[0]) == k then [xs[0]] else []) + WithKey(r, xs[1..], k)
  }

  /** The accumulator loop: start from the first record, combine in the others one by one. */
  function FoldLeft<V, K>(r: Reducer<V, K>, xs: seq<V>): V
    requires xs != []
  {
    if |xs| == 1 then xs[0] else r.combine(FoldLeft(r, xs[..|xs| - 1]), xs[|xs| - 1])
  }

  lemma {:induction false} AggIsFold<V(!new), K>(r: Reducer<V, K>, xs: seq<V>, k: K)
    requires Combines(r)
    ensures var group := WithKey(r, xs, k);
            Agg(r, xs, k) == if group == [] then None else Some(FoldLeft(r, group))
  {
    AggOfGroup(r, xs, k);
    FoldIsAgg(r, WithKey(r, xs, k), k);
  }

  lemma {:induction false} AggOfGroup<V, K>(r: Reducer<V, K>, xs: seq<V>, k: K)
    ensures Agg(r, WithKey(r, xs, k), k) == Agg(r, xs, k)
    ensures forall x :: x in WithKey(r, xs, k) ==> r.key(x) == k
  {
    if xs != [] {
      AggOfGroup(r, xs[1..], k);
      if r.key(xs[0]) == k {
        assert WithKey(r, xs, k)[1..] == WithKey(r, xs[1..], k);
      } else {
        assert WithKey(r, xs, k) == WithKey(r, xs[1..], k);
      }
    }
  }

  lemma {:induction false} FoldIsAgg<V(!new), K>(r: Reducer<V, K>, group: seq<V>, k: K)
    requires Combines(r) && forall i :: 0 <= i < |group| ==> r.key(group[i]) == k
    ensures Agg(r, group, k) == if group == [] then None else Some(FoldLeft(r, group))
  {
    hide Combines;
    if |group| > 1 {
      var init, last := group[..|group| - 1], group[|group| - 1];
      FoldIsAgg(r, init, k);
      AggConcat(r, init, [last], k);
      SingleAgg(r, last, k);
      assert group == init + [last];
    } else if |group| == 1 {
      SingleAgg(r, group[0], k);
      assert group == [group[0]];
    }
  }

  lemma SingleAgg<V, K>(r: Reducer<V, K>, x: V, k: K)
    ensures Agg(r, [x], k) == Pick(r, x, k)
  {
    assert [x][1..] == [];
  }
}
