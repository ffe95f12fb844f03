/** The dense model of examples/lr.cc: the range of dimensions each shard holds, how a reduction
    produces it, how Broadcast puts it together again and how a gradient is merged into it.

    Numbers are abstract: an addition that commutes and associates, with a zero. */
module DenseModel {
  import opened Arithmetic
  import opened Codec
  import opened Grouping
  import opened Sequences
  import opened Shuffle

  // ---------- numbers and records ----------

  datatype Numbers<!N> = Numbers(zero: N, add: (N, N) -> N)

  ghost predicate Additive<N(!new)>(num: Numbers<N>) {
    && (forall a, b :: num.add(a, b) == num.add(b, a))
    && (forall a, b, c :: num.add(num.add(a, b), c) == num.add(a, num.add(b, c)))
    && (forall a :: num.add(num.zero, a) == a)
  }

  /** std::pair<int, double> */
  datatype Dim<+N> = Dim(key: nat, val: N)

  function KeyOf<N>(d: Dim<N>): nat { d.key }

  predicate Below(a: nat, b: nat) { a < b }

  /** Dimensions are reduced by key; values are added. */
  function ByKey<N>(num: Numbers<N>): Reducer<Dim<N>, nat> {
    Reducer(KeyOf, Below, (a: Dim<N>, b: Dim<N>) => Dim(a.key, num.add(a.val, b.val)))
  }

  lemma ByKeyLawful<N(!new)>(num: Numbers<N>)
    requires Additive(num)
    ensures Lawful(ByKey(num))
  {
    var r := ByKey(num);
    forall a: Dim<N>, b: Dim<N> | a.key == b.key ensures r.combine(a, b) == r.combine(b, a) {
    }
    forall a: Dim<N>, b: Dim<N>, c: Dim<N> | a.key == b.key == c.key
      ensures r.combine(r.combine(a, b), c) == r.combine(a, r.combine(b, c))
    {
    }
  }

  // ---------- how the records travel ----------

  const KEY_LIMIT: nat := 0x8000_0000     // one past the largest `int`

  /** An `int` key in front of a number, however numbers are streamed. */
  function DimWire<N>(wn: Wire<N>): Wire<Dim<N>> {
    Wire(PairOf(Fixed(4), wn.t),
         (d: Dim<N>) => PairV(Raw(ToBytes(d.key, 4)), wn.pack(d.val)),
         (v: Value) =>
           if v.PairV? && v.first.Raw? then Dim(FromBytes(v.first.bytes), wn.unpack(v.second))
           else Dim(0, wn.unpack(v)),
         (d: Dim<N>) => d.key < KEY_LIMIT && wn.fits(d.val))
  }

  lemma KeyTravels(k: nat)
    requires k < KEY_LIMIT
    ensures FromBytes(ToBytes(k, 4)) == k
  {
    assert Pow256(4) == 2 * KEY_LIMIT by { assert Pow256(2) == 0x1_0000; }
    BytesRoundTrip(k, 4);
  }

  /** A record with an `int` key survives the byte streams if its number does. */
  lemma DimWireFaithful<N(!new)>(wn: Wire<N>)
    requires Faithful(wn)
    ensures Faithful(DimWire(wn))
  {
    hide ToBytes, FromBytes;
    var w := DimWire(wn);
    forall d: Dim<N> | w.fits(d) ensures HasType(w.t, w.pack(d)) && w.unpack(w.pack(d)) == d {
      KeyTravels(d.key);
    }
  }

  /** There is room for every number. */
  ghost predicate Roomy<N(!new)>(wn: Wire<N>) {
    forall x :: wn.fits(x)
  }

  lemma ByKeyCloses<N(!new)>(num: Numbers<N>, wn: Wire<N>)
    requires Roomy(wn)
    ensures Closed(ByKey(num), DimWire(wn))
  {
  }

  lemma DimsFit<N(!new)>(wn: Wire<N>, xs: seq<Dim<N>>)
    requires Roomy(wn) && forall i :: 0 <= i < |xs| ==> xs[i].key < KEY_LIMIT
    ensures AllFit(DimWire(wn), xs)
  {
  }

  // ---------- numbers that add and travel ----------

  /** Fixed-point numbers as wide as a double; sums wrap around. */
  type Bits64 = n: int | 0 <= n < SIZE_LIMIT

  function AddBits64(a: Bits64, b: Bits64): Bits64 { (a + b) % SIZE_LIMIT }

  function Integers(): Numbers<Bits64> { Numbers(0, AddBits64) }

  function Pack64(n: Bits64): Value { Raw(ToBytes(n, 8)) }

  function Unpack64(v: Value): Bits64 {
    if v.Raw? then FromBytes(v.bytes) % SIZE_LIMIT else 0
  }

  predicate Any64(n: Bits64) { true }

  function Bits64Wire(): Wire<Bits64> { Wire(Fixed(8), Pack64, Unpack64, Any64) }

  lemma IntegersAdd()
    ensures Additive(Integers())
  {
    hide AddBits64;
    forall a: Bits64, b: Bits64 ensures AddBits64(a, b) == AddBits64(b, a) {
      AddBits64Laws(a, b, 0);
    }
    forall a: Bits64, b: Bits64, c: Bits64 ensures AddBits64(AddBits64(a, b), c) == AddBits64(a, AddBits64(b, c)) {
      AddBits64Laws(a, b, c);
    }
    forall a: Bits64 ensures AddBits64(0, a) == a {
      AddBits64Laws(a, 0, 0);
    }
  }

  lemma AddBits64Laws(a: Bits64, b: Bits64, c: Bits64)
    ensures AddBits64(AddBits64(a, b), c) == AddBits64(a, AddBits64(b, c)) && AddBits64(a, b) == AddBits64(b, a)
    ensures AddBits64(0, a) == a
  {
    WrapAssociates(a, b, c, SIZE_LIMIT);
  }

  lemma Bits64Faithful()
    ensures Faithful(Bits64Wire()) && Roomy(Bits64Wire())
  {
    hide ToBytes, FromBytes;
    var w := Bits64Wire();
    forall n: Bits64 ensures HasType(w.t, w.pack(n)) && w.unpack(w.pack(n)) == n {
      SizeLimitIsPow256();
      BytesRoundTrip(n, 8);
    }
  }

  // ---------- the ranges ----------

  /** block_dims */
  function BlockDims(D: nat, n: nat): (b: nat)
    requires n > 0
  {
    D / n + 1
  }

  /** The block size is the least with which n blocks hold more than all dimensions; none is routed past the last
      partition. */
  lemma BlocksCover(D: nat, n: nat)
    requires n > 0
    ensures BlockDims(D, n) > 0 && n * BlockDims(D, n) > D
    ensures forall b: nat :: n * b > D ==> b >= BlockDims(D, n)
    ensures forall k: nat :: k < D ==> k / BlockDims(D, n) < n
  {
    var b := BlockDims(D, n);
    forall c: nat | n * c > D ensures c >= b {
      if c < b {
        MultipleBelow(c, D / n, n);
      }
    }
    assert n * (D / n) + D % n == D;
    assert n * b == n * (D / n) + n;
    forall k: nat | k < D ensures k / b < n {
      if k / b >= n {
        QuotientBound(k, b, n);
      }
    }
  }

  /** The first dimension of shard p. */
  function Start(D: nat, n: nat, p: nat): (s: nat)
    requires n > 0
    ensures s <= D
  {
    var s := p * BlockDims(D, n);
    if s < D then s else D
  }

  lemma StartBounds(D: nat, n: nat, p: nat)
    requires n > 0
    ensures Start(D, n, 0) == 0 && Start(D, n, p) <= Start(D, n, p + 1) && Start(D, n, n) == D
    ensures forall k: nat :: k < D ==> (Start(D, n, p) <= k < Start(D, n, p + 1) <==> k / BlockDims(D, n) == p)
  {
    var b := BlockDims(D, n);
    BlocksCover(D, n);
    assert 0 * b == 0;
    assert (p + 1) * b == p * b + b;
    forall k: nat | k < D ensures p * b <= k < (p + 1) * b <==> k / b == p {
      QuotientIff(k, b, p);
    }
  }

  /** The range of shard p, said without the block size. */
  lemma RangeExact(D: nat, n: nat, p: nat, k: nat)
    requires n > 0 && k < D
    ensures Start(D, n, p) <= k < Start(D, n, p + 1) <==> k / (D / n + 1) == p
  {
    hide Start;
    StartBounds(D, n, p);
    assert k / BlockDims(D, n) == k / (D / n + 1);
  }

  /** The records of the dimensions lo, lo + 1, ... in order. */
  ghost predicate Dense<N>(xs: seq<Dim<N>>, lo: nat, hi: nat) {
    lo <= hi && |xs| == hi - lo && forall i :: 0 <= i < |xs| ==> xs[i].key == lo + i
  }

  /** Shard p holds exactly its range, in order. */
  ghost predicate IsModel<N>(shards: seq<seq<Dim<N>>>, D: nat, n: nat)
    requires n > 0
  {
    |shards| == n && forall p :: 0 <= p < n ==> Dense(shards[p], Start(D, n, p), Start(D, n, p + 1))
  }

  lemma {:induction false} DensePrefix<N>(shards: seq<seq<Dim<N>>>, D: nat, n: nat, m: nat)
    requires n > 0 && m <= n && IsModel(shards, D, n)
    ensures Dense(Flatten(shards[..m]), 0, Start(D, n, m))
  {
    hide Start, Flatten;
    StartBounds(D, n, m);
    if m == 0 {
      FlattenNone<Dim<N>>();
      assert shards[..0] == [];
    } else {
      DensePrefix(shards, D, n, m - 1);
      FlattenSnoc(shards[..m - 1], shards[m - 1]);
      assert shards[..m] == shards[..m - 1] + [shards[m - 1]];
    }
  }

  /** The shards one after the other are the whole model. */
  lemma ModelIsDense<N>(shards: seq<seq<Dim<N>>>, D: nat, n: nat)
    requires n > 0 && IsModel(shards, D, n)
    ensures Dense(Flatten(shards), 0, D)
  {
    DensePrefix(shards, D, n, n);
    StartBounds(D, n, n);
    assert shards[..n] == shards;
  }

  /** Dimension k is in shard k / (D / n + 1), and in no other. */
  lemma ShardOf<N>(shards: seq<seq<Dim<N>>>, D: nat, n: nat, p: nat, k: nat)
    requires n > 0 && IsModel(shards, D, n) && p < n
    ensures HasKey(shards[p], k) <==> k < D && k / (D / n + 1) == p
  {
    var lo, hi := Start(D, n, p), Start(D, n, p + 1);
    hide Start, IsModel;
    if k < D {
      RangeExact(D, n, p, k);
    }
    StartBelow(D, n, p + 1);
    assert Dense(shards[p], lo, hi) by { ShardDense(shards, D, n, p); }
    if lo <= k < hi {
      assert shards[p][k - lo].key == k;
    }
  }

  lemma ShardDense<N>(shards: seq<seq<Dim<N>>>, D: nat, n: nat, p: nat)
    requires n > 0 && IsModel(shards, D, n) && p < n
    ensures |shards| == n && Dense(shards[p], Start(D, n, p), Start(D, n, p + 1))
  {
  }

  // ---------- a reduced partition is dense if no dimension of its range is missing ----------

  ghost predicate HasKey<N>(xs: seq<Dim<N>>, k: nat) {
    exists i :: 0 <= i < |xs| && xs[i].key == k
  }

  ghost predicate HasKeys<N>(xs: seq<Dim<N>>, lo: nat, hi: nat) {
    forall k: nat :: HasKey(xs, k) <==> lo <= k < hi
  }

  ghost predicate Increasing<N>(xs: seq<Dim<N>>) {
    forall i, j :: 0 <= i < j < |xs| ==> xs[i].key < xs[j].key
  }

  lemma AscendingKeys<N>(num: Numbers<N>, xs: seq<Dim<N>>)
    ensures Ascending(ByKey(num), xs) <==> Increasing(xs)
  {
  }

  lemma {:induction false} IncreasingInterval<N>(xs: seq<Dim<N>>, lo: nat, hi: nat)
    requires Increasing(xs) && lo <= hi && HasKeys(xs, lo, hi)
    ensures Dense(xs, lo, hi)
    decreases |xs|
  {
    if xs == [] {
      EmptyInterval(xs, lo, hi);
    } else {
      LeastIsFirst(xs, lo, hi);
      RestOfInterval(xs, lo, hi);
      IncreasingInterval(xs[1..], lo + 1, hi);
    }
  }

  lemma EmptyInterval<N>(xs: seq<Dim<N>>, lo: nat, hi: nat)
    requires HasKeys(xs, lo, hi) && lo <= hi
    ensures xs == [] ==> lo == hi
  {
    assert lo < hi ==> HasKey(xs, lo);
  }

  lemma LeastIsFirst<N>(xs: seq<Dim<N>>, lo: nat, hi: nat)
    requires xs != [] && Increasing(xs) && HasKeys(xs, lo, hi)
    ensures xs[0].key == lo < hi
  {
    assert HasKey(xs, xs[0].key);
    assert HasKey(xs, lo);
  }

  lemma RestOfInterval<N>(xs: seq<Dim<N>>, lo: nat, hi: nat)
    requires xs != [] && Increasing(xs) && xs[0].key == lo && HasKeys(xs, lo, hi)
    ensures Increasing(xs[1..]) && HasKeys(xs[1..], lo + 1, hi)
  {
    var rest := xs[1..];
    forall k: nat ensures HasKey(rest, k) <==> HasKey(xs, k) && k != lo {
      if HasKey(rest, k) {
        var i :| 0 <= i < |rest| && rest[i].key == k;
        assert xs[i + 1].key == k;
      }
      if HasKey(xs, k) && k != lo {
        var i :| 0 <= i < |xs| && xs[i].key == k;
        assert rest[i - 1].key == k;
      }
    }
  }

  // ---------- what the reductions produce ----------

  /** key_hash: the block of a dimension. */
  function BlockOf(D: nat, n: nat): nat -> nat
    requires n > 0
  {
    var b := BlockDims(D, n);
    k => k / b
  }

  lemma KeyInAgg<N(!new)>(num: Numbers<N>, xs: seq<Dim<N>>, k: nat)
    requires Additive(num)
    ensures Agg(ByKey(num), xs, k).Some? <==> HasKey(xs, k)
  {
    ByKeyLawful(num);
    AggKey(ByKey(num), xs, k);
    if HasKey(xs, k) {
      var i :| 0 <= i < |xs| && xs[i].key == k;
      assert xs[i] in xs;
    }
  }

  lemma GroupByParts<V, K(!new)>(r: Reducer<V, K>, out: seq<V>, xs: seq<V>, k: K)
    requires IsGroupBy(r, out, xs)
    ensures Ascending(r, out) && Agg(r, out, k) == Agg(r, xs, k)
  {
  }

  /** A dimension is routed to the shard whose range it is in. */
  lemma HomeBlock(D: nat, n: nat, p: nat, k: nat)
    requires n > 0 && k < D
    ensures BlockOf(D, n)(k) % n == p <==> Start(D, n, p) <= k < Start(D, n, p + 1)
    ensures BlockOf(D, n)(k) % n == p <==> k / (D / n + 1) == p
  {
    hide Start;
    BlocksCover(D, n);
    StartBounds(D, n, p);
    RemainderUnique(k / BlockDims(D, n), n, 0, k / BlockDims(D, n));
  }

  /** What output partition p of RangeReduceBy holds of dimension k. */
  lemma ReducedDim<N(!new)>(num: Numbers<N>, D: nat, n: nat, p: nat, out: seq<Dim<N>>, xs: seq<Dim<N>>, k: nat)
    requires n > 0 && Additive(num) && IsGroupBy(ByKey(num), out, Routed(xs, KeyRoute(ByKey(num), BlockOf(D, n)), n, p))
    ensures Increasing(out)
    ensures k < D ==> Agg(ByKey(num), out, k) ==
                        if Start(D, n, p) <= k < Start(D, n, p + 1) then Agg(ByKey(num), xs, k) else None
    ensures k >= D && !HasKey(xs, k) ==> !HasKey(out, k)
  {
    hide *;
    var r := ByKey(num);
    GroupByParts(r, out, Routed(xs, KeyRoute(r, BlockOf(D, n)), n, p), k);
    AscendingKeys(num, out);
    AggRouted(r, BlockOf(D, n), xs, n, p, k);
    if k < D {
      HomeBlock(D, n, p, k);
    } else {
      KeyInAgg(num, xs, k);
      KeyInAgg(num, out, k);
    }
  }

  /** When every dimension below D occurs, and no other, each shard is its dense range. */
  lemma ReducedIsModel<N(!new)>(num: Numbers<N>, D: nat, n: nat, outs: seq<seq<Dim<N>>>, xs: seq<Dim<N>>)
    requires n > 0 && Additive(num) && |outs| == n && HasKeys(xs, 0, D)
    requires forall p :: 0 <= p < n ==>
               IsGroupBy(ByKey(num), outs[p], Routed(xs, KeyRoute(ByKey(num), BlockOf(D, n)), n, p))
    ensures IsModel(outs, D, n)
  {
    hide IsGroupBy, KeyRoute, Routed, BlockOf, Start, Dense, Additive, Increasing, Agg;
    forall p | 0 <= p < n ensures Dense(outs[p], Start(D, n, p), Start(D, n, p + 1)) {
      var lo, hi := Start(D, n, p), Start(D, n, p + 1);
      StartBounds(D, n, p);
      StartBelow(D, n, p + 1);
      ReducedDim(num, D, n, p, outs[p], xs, 0);
      forall k: nat ensures HasKey(outs[p], k) <==> lo <= k < hi {
        ReducedDim(num, D, n, p, outs[p], xs, k);
        KeyInAgg(num, outs[p], k);
        KeyInAgg(num, xs, k);
      }
      IncreasingInterval(outs[p], lo, hi);
    }
  }

  lemma StartBelow(D: nat, n: nat, p: nat)
    requires n > 0
    ensures Start(D, n, p) <= D
  {
  }

  // ---------- Broadcast ----------

  /** Sorting a permutation of an increasing list gives back the list. */
  lemma {:induction false} SortedIsIncreasing<N(!new)>(num: Numbers<N>, a: seq<Dim<N>>, b: seq<Dim<N>>)
    requires SortedByKey(ByKey(num), a) && Increasing(b) && multiset(a) == multiset(b)
    ensures a == b
    decreases |a|
  {
    if a == [] {
      assert |multiset(b)| == 0;
    } else {
      SameHead(num, a, b);
      MultisetTail(a, b);
      SortedIsIncreasing(num, a[1..], b[1..]);
    }
  }

  lemma SameHead<N(!new)>(num: Numbers<N>, a: seq<Dim<N>>, b: seq<Dim<N>>)
    requires SortedByKey(ByKey(num), a) && Increasing(b) && multiset(a) == multiset(b) && a != []
    ensures b != [] && a[0] == b[0]
  {
    assert |multiset(a)| == |multiset(b)|;
    assert a[0] in multiset(b) && b[0] in multiset(a);
    var i :| 0 <= i < |b| && b[i] == a[0];
    var j :| 0 <= j < |a| && a[j] == b[0];
    assert j > 0 ==> !ByKey(num).less(ByKey(num).key(a[j]), ByKey(num).key(a[0]));
  }

  lemma MultisetTail<V>(a: seq<V>, b: seq<V>)
    requires a != [] && b != [] && a[0] == b[0] && multiset(a) == multiset(b)
    ensures multiset(a[1..]) == multiset(b[1..])
  {
    assert a == [a[0]] + a[1..] && b == [b[0]] + b[1..];
    assert multiset(a[1..]) == multiset(a) - multiset{a[0]};
    assert multiset(b[1..]) == multiset(b) - multiset{b[0]};
  }

  /** After Broadcast record i of the model is dimension i. */
  lemma BroadcastIsDense<N(!new)>(num: Numbers<N>, shards: seq<seq<Dim<N>>>, D: nat, n: nat, out: seq<Dim<N>>)
    requires n > 0 && IsModel(shards, D, n)
    requires multiset(out) == multiset(Flatten(shards)) && SortedByKey(ByKey(num), out)
    ensures out == Flatten(shards) && |out| == D && forall i :: 0 <= i < D ==> out[i].key == i
  {
    hide IsModel, SortedByKey, Flatten;
    ModelIsDense(shards, D, n);
    SortedIsIncreasing(num, out, Flatten(shards));
  }

  // ---------- merging a gradient into a shard ----------

  function Merged<N>(num: Numbers<N>, lhs: seq<Dim<N>>, rhs: seq<Dim<N>>): seq<Dim<N>> {
    if lhs == [] then []
    else if rhs != [] && rhs[0].key == lhs[0].key then
      [Dim(lhs[0].key, num.add(lhs[0].val, rhs[0].val))] + Merged(num, lhs[1..], rhs[1..])
    else [lhs[0]] + Merged(num, lhs[1..], rhs)
  }

  /** The gradient entries the merge does not use. */
  function LeftOver<N>(lhs: seq<Dim<N>>, rhs: seq<Dim<N>>): seq<Dim<N>> {
    if lhs == [] then rhs
    else if rhs != [] && rhs[0].key == lhs[0].key then LeftOver(lhs[1..], rhs[1..])
    else LeftOver(lhs[1..], rhs)
  }

  method Merge<N>(num: Numbers<N>, lhs: seq<Dim<N>>, rhs: seq<Dim<N>>) returns (ret: seq<Dim<N>>, idx: nat)
    requires |lhs| >= |rhs|
    ensures ret == Merged(num, lhs, rhs)
    ensures idx <= |rhs| && rhs[idx..] == LeftOver(lhs, rhs)
  {
    hide Merged, LeftOver;
    MergeNothing(num, lhs);
    if rhs == [] {
      return lhs, 0;
    }
    ret, idx := [], 0;
    for i := 0 to |lhs|
      invariant idx <= |rhs|
      invariant ret + Merged(num, lhs[i..], rhs[idx..]) == Merged(num, lhs, rhs)
      invariant LeftOver(lhs[i..], rhs[idx..]) == LeftOver(lhs, rhs)
    {
      assert lhs[i..][1..] == lhs[i + 1..] && (idx < |rhs| ==> rhs[idx..][1..] == rhs[idx + 1..]);
      MergeStep(num, lhs[i..], rhs[idx..]);
      if idx < |rhs| && rhs[idx].key == lhs[i].key {
        ret := ret + [Dim(lhs[i].key, num.add(lhs[i].val, rhs[idx].val))];
        idx := idx + 1;
      } else {
        ret := ret + [lhs[i]];
      }
    }
    MergeEnd(num, rhs[idx..]);
  }

  lemma MergeEnd<N>(num: Numbers<N>, rhs: seq<Dim<N>>)
    ensures Merged(num, [], rhs) == [] && LeftOver([], rhs) == rhs
  {
  }

  lemma MergeStep<N>(num: Numbers<N>, lhs: seq<Dim<N>>, rhs: seq<Dim<N>>)
    requires lhs != []
    ensures var matching := rhs != [] && rhs[0].key == lhs[0].key;
            var next := if matching then rhs[1..] else rhs;
            && LeftOver(lhs, rhs) == LeftOver(lhs[1..], next)
            && Merged(num, lhs, rhs) ==
                 [if matching then Dim(lhs[0].key, num.add(lhs[0].val, rhs[0].val)) else lhs[0]] + Merged(num, lhs[1..], next)
  {
  }

  lemma {:induction false} MergeNothing<N>(num: Numbers<N>, lhs: seq<Dim<N>>)
    ensures Merged(num, lhs, []) == lhs && LeftOver(lhs, []) == []
  {
    if lhs != [] {
      MergeNothing(num, lhs[1..]);
    }
  }

  /** `after` is `before` with, in each dimension, everything `xs` has for it added. */
  ghost predicate Adds<N>(num: Numbers<N>, before: seq<Dim<N>>, xs: seq<Dim<N>>, after: seq<Dim<N>>) {
    && |after| == |before|
    && forall i :: 0 <= i < |before| ==>
         Some(after[i]) == Plus(ByKey(num), Some(before[i]), Agg(ByKey(num), xs, before[i].key))
  }

  ghost predicate Within<N>(xs: seq<Dim<N>>, lo: nat, hi: nat) {
    forall i :: 0 <= i < |xs| ==> lo <= xs[i].key < hi
  }

  /** Merging an increasing gradient of the shard's own range uses every entry and adds pointwise. */
  lemma {:induction false} MergeAdds<N(!new)>(num: Numbers<N>, lhs: seq<Dim<N>>, rhs: seq<Dim<N>>, lo: nat, hi: nat)
    requires Additive(num) && Dense(lhs, lo, hi) && Increasing(rhs) && Within(rhs, lo, hi)
    ensures LeftOver(lhs, rhs) == [] && |rhs| <= |lhs|
    ensures Dense(Merged(num, lhs, rhs), lo, hi) && Adds(num, lhs, rhs, Merged(num, lhs, rhs))
    decreases |lhs|
  {
    hide Additive, Agg, ByKey, Plus, Increasing, Within, Merged, LeftOver, Adds;
    if lhs == [] {
      NothingWithin(rhs, lo);
      MergeEnd(num, rhs);
      AddsNothing(num, rhs);
    } else {
      var matching := rhs != [] && rhs[0].key == lo;
      var next := if matching then rhs[1..] else rhs;
      NextEntries(num, rhs, lo, hi);
      MergeAdds(num, lhs[1..], next, lo + 1, hi);
      MergeStep(num, lhs, rhs);
      HeadEntry(num, lhs[0], rhs, lo, hi);
      var head := if matching then Dim(lo, num.add(lhs[0].val, rhs[0].val)) else lhs[0];
      AddsCons(num, lhs, rhs, next, head, Merged(num, lhs[1..], next));
    }
  }

  lemma AddsNothing<N>(num: Numbers<N>, rhs: seq<Dim<N>>)
    ensures Adds(num, [], rhs, [])
  {
  }

  lemma AddsCons<N>(num: Numbers<N>, lhs: seq<Dim<N>>, rhs: seq<Dim<N>>, next: seq<Dim<N>>, head: Dim<N>, rest: seq<Dim<N>>)
    requires lhs != [] && Adds(num, lhs[1..], next, rest)
    requires forall i :: 0 < i < |lhs| ==> lhs[i].key != lhs[0].key
    requires next == if rhs != [] && rhs[0].key == lhs[0].key then rhs[1..] else rhs
    requires Plus(ByKey(num), Some(lhs[0]), Agg(ByKey(num), rhs, lhs[0].key)) == Some(head)
    ensures Adds(num, lhs, rhs, [head] + rest)
  {
    hide ByKey, Plus, Agg;
    var after := [head] + rest;
    forall i | 0 <= i < |lhs|
      ensures Some(after[i]) == Plus(ByKey(num), Some(lhs[i]), Agg(ByKey(num), rhs, lhs[i].key))
    {
      if i > 0 {
        assert lhs[1..][i - 1] == lhs[i] && after[i] == rest[i - 1];
        SkipEntry(num, rhs, lhs[0].key, lhs[i].key);
      }
    }
  }

  lemma NothingWithin<N>(rhs: seq<Dim<N>>, lo: nat)
    ensures Within(rhs, lo, lo) ==> rhs == []
  {
    assert rhs != [] ==> !(lo <= rhs[0].key < lo);
  }

  lemma NextEntries<N(!new)>(num: Numbers<N>, rhs: seq<Dim<N>>, lo: nat, hi: nat)
    requires Increasing(rhs) && Within(rhs, lo, hi)
    ensures var next := if rhs != [] && rhs[0].key == lo then rhs[1..] else rhs;
            Increasing(next) && Within(next, lo + 1, hi)
  {
  }

  lemma SkipEntry<N>(num: Numbers<N>, rhs: seq<Dim<N>>, lo: nat, k: nat)
    requires k != lo
    ensures Agg(ByKey(num), rhs, k) ==
              Agg(ByKey(num), if rhs != [] && rhs[0].key == lo then rhs[1..] else rhs, k)
  {
  }

  lemma HeadEntry<N(!new)>(num: Numbers<N>, d: Dim<N>, rhs: seq<Dim<N>>, lo: nat, hi: nat)
    requires Additive(num) && Increasing(rhs) && d.key == lo && Within(rhs, lo, hi)
    ensures var matching := rhs != [] && rhs[0].key == lo;
            Plus(ByKey(num), Some(d), Agg(ByKey(num), rhs, lo)) ==
              Some(if matching then Dim(lo, num.add(d.val, rhs[0].val)) else d)
  {
    KeyInAgg(num, rhs, lo);
    if rhs != [] {
      KeyInAgg(num, rhs[1..], lo);
    }
  }
}
