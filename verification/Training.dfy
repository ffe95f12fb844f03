/** The job of examples/lr.cc: the initial gradient, the gradients of an iteration, and the loop that
    broadcasts the model, reduces the gradients and merges them in.

    What a data point contributes to a dimension is an arbitrary function of the point, the field and
    the model; a random batch is given by its first record and its size. */
module Training {
  import opened Arithmetic
  import opened Codec
  import opened DenseModel
  import opened Grouping
  import opened Sequences
  import opened Shuffle

  // ---------- data points and what they contribute ----------

  /** A data point: the fields sorted by dimension, and the label. */
  datatype Point<+N> = Point(fields: seq<Dim<N>>, y: N)

  /** LibsvmParse sorts the fields; the dimensions are below `D`. */
  ghost predicate Parsed<N>(p: Point<N>, D: nat) {
    && (forall i, j :: 0 <= i < j < |p.fields| ==> p.fields[i].key <= p.fields[j].key)
    && forall i :: 0 <= i < |p.fields| ==> p.fields[i].key < D
  }

  ghost predicate AllParsed<N>(data: seq<Point<N>>, D: nat) {
    forall i :: 0 <= i < |data| ==> Parsed(data[i], D)
  }

  /** `term(p, i)` is what field i of point p contributes to its dimension. */
  function FirstTerms<N>(term: (Point<N>, nat) -> N, p: Point<N>, n: nat): (xs: seq<Dim<N>>)
    requires n <= |p.fields|
    ensures |xs| == n && forall i :: 0 <= i < n ==> xs[i] == Dim(p.fields[i].key, term(p, i))
  {
    seq(n, i requires 0 <= i < n => Dim(p.fields[i].key, term(p, i)))
  }

  /** The contributions of `size` points from `start` on, around the end of the partition. */
  function BatchTerms<N>(term: (Point<N>, nat) -> N, data: seq<Point<N>>, start: nat, size: nat): seq<Dim<N>>
    requires start < |data|
  {
    if size == 0 then []
    else
      var last := data[(start + size - 1) % |data|];
      BatchTerms(term, data, start, size - 1) + FirstTerms(term, last, |last.fields|)
  }

  datatype Batch = Batch(start: nat, size: nat)

  predicate Fits<N>(b: Batch, data: seq<Point<N>>) { data == [] || b.start < |data| }

  function Terms<N>(term: (Point<N>, nat) -> N, data: seq<Point<N>>, b: Batch): seq<Dim<N>>
    requires Fits(b, data)
  {
    if data == [] then [] else BatchTerms(term, data, b.start, b.size)
  }

  lemma BatchTermsSnoc<N>(term: (Point<N>, nat) -> N, data: seq<Point<N>>, start: nat, size: nat)
    requires start < |data|
    ensures var last := data[(start + size) % |data|];
            BatchTerms(term, data, start, size + 1) ==
              BatchTerms(term, data, start, size) + FirstTerms(term, last, |last.fields|)
  {
  }

  /** The contributions of all fields of all points, in order. */
  function PointTerms<N>(term: (Point<N>, nat) -> N, data: seq<Point<N>>): seq<Dim<N>> {
    if data == [] then [] else FirstTerms(term, data[0], |data[0].fields|) + PointTerms(term, data[1..])
  }

  lemma {:induction false} PointTermsSnoc<N>(term: (Point<N>, nat) -> N, data: seq<Point<N>>, p: Point<N>)
    ensures PointTerms(term, data + [p]) == PointTerms(term, data) + FirstTerms(term, p, |p.fields|)
  {
    hide FirstTerms;
    if data == [] {
      assert [] + [p] == [p] && [p][1..] == [];
    } else {
      assert (data + [p])[1..] == data[1..] + [p];
      PointTermsSnoc(term, data[1..], p);
    }
  }

  /** A batch no larger than the partition takes its points one after the other, from `start` on and around the end,
      each once. */
  lemma {:induction false} BatchExact<N>(term: (Point<N>, nat) -> N, data: seq<Point<N>>, start: nat, size: nat)
    requires start < |data| && size <= |data|
    ensures BatchTerms(term, data, start, size) == PointTerms(term, (data[start..] + data[..start])[..size])
    decreases size
  {
    hide FirstTerms;
    var turned := data[start..] + data[..start];
    if size == 0 {
      assert turned[..0] == [];
    } else {
      BatchExact(term, data, start, size - 1);
      Around(start + size - 1, |data|);
      assert turned[size - 1] == data[(start + size - 1) % |data|];
      assert turned[..size] == turned[..size - 1] + [turned[size - 1]];
      PointTermsSnoc(term, turned[..size - 1], turned[size - 1]);
    }
  }

  lemma Around(x: nat, n: nat)
    requires n > 0 && x < 2 * n
    ensures x % n == if x < n then x else x - n
  {
    RemainderUnique(x, n, if x < n then 0 else 1, if x < n then x else x - n);
  }

  lemma {:induction false} BatchTermsWithin<N>(term: (Point<N>, nat) -> N, data: seq<Point<N>>, start: nat, size: nat, D: nat)
    requires start < |data| && AllParsed(data, D)
    ensures Within(BatchTerms(term, data, start, size), 0, D)
    decreases size
  {
    if size > 0 {
      BatchTermsWithin(term, data, start, size - 1, D);
    }
  }

  // ---------- adding to a dense vector ----------

  lemma AddsSnoc<N(!new)>(num: Numbers<N>, before: seq<Dim<N>>, xs: seq<Dim<N>>, after: seq<Dim<N>>, j: nat, d: Dim<N>)
    requires Additive(num) && Adds(num, before, xs, after) && Dense(before, 0, |before|) && j < |before| && d.key == j
    ensures after[j].key == j
    ensures Adds(num, before, xs + [d], after[j := Dim(j, num.add(after[j].val, d.val))])
  {
    hide Additive, Agg;
    var r := ByKey(num);
    ByKeyLawful(num);
    KeepsKey(num, before, xs, after, j);
    forall i | 0 <= i < |before|
      ensures Some(after[j := Dim(j, num.add(after[j].val, d.val))][i]) == Plus(r, Some(before[i]), Agg(r, xs + [d], before[i].key))
    {
      AggConcat(r, xs, [d], before[i].key);
      SingleAgg(r, d, before[i].key);
      if i == j {
        AggKey(r, xs, j);
        PlusOne(num, before[i], Agg(r, xs, j), d);
      }
    }
  }

  lemma KeepsKey<N(!new)>(num: Numbers<N>, before: seq<Dim<N>>, xs: seq<Dim<N>>, after: seq<Dim<N>>, j: nat)
    requires Adds(num, before, xs, after) && j < |before|
    ensures after[j].key == before[j].key
  {
  }

  lemma PlusOne<N(!new)>(num: Numbers<N>, b: Dim<N>, a: Option<Dim<N>>, d: Dim<N>)
    requires Additive(num) && b.key == d.key && (a.Some? ==> a.value.key == b.key)
    ensures var r := ByKey(num);
            var before := Plus(r, Some(b), a);
            before.Some? && Plus(r, Some(b), Plus(r, a, Some(d))) == Some(Dim(b.key, num.add(before.value.val, d.val)))
  {
  }

  lemma AddsNone<N>(num: Numbers<N>, before: seq<Dim<N>>)
    ensures Adds(num, before, [], before)
  {
  }

  /** The zero model. */
  function Zeros<N>(num: Numbers<N>, D: nat): (xs: seq<Dim<N>>)
    ensures Dense(xs, 0, D) && forall i :: 0 <= i < D ==> xs[i] == Dim(i, num.zero)
  {
    seq(D, i requires 0 <= i < D => Dim(i, num.zero))
  }

  lemma DenseAfter<N>(num: Numbers<N>, before: seq<Dim<N>>, xs: seq<Dim<N>>, after: seq<Dim<N>>, lo: nat, hi: nat)
    requires Adds(num, before, xs, after) && Dense(before, lo, hi)
    ensures Dense(after, lo, hi)
  {
  }

  /** initial_gradient: zeros for all dimensions, then the terms of a batch added in place; `j` walks
      up to the dimension of each field of a point. */
  method InitialGradient<N(!new)>(num: Numbers<N>, D: nat, data: seq<Point<N>>, b: Batch, term: (Point<N>, nat) -> N)
    returns (ret: seq<Dim<N>>)
    requires Additive(num) && Fits(b, data) && AllParsed(data, D)
    ensures Adds(num, Zeros(num, D), Terms(term, data, b), ret)
  {
    hide Additive, Adds, BatchTerms, Parsed;
    ret := [];
    for i := 0 to D
      invariant ret == Zeros(num, i)
    {
      ret := ret + [Dim(i, num.zero)];
    }
    AddsNone(num, ret);
    if data == [] {
      return;
    }
    var start := b.start;
    BatchTermsNone(term, data, start);
    SmallMod(start, |data|);
    for i := 0 to b.size
      invariant start == (b.start + i) % |data|
      invariant Adds(num, Zeros(num, D), BatchTerms(term, data, b.start, i), ret)
    {
      BatchTermsSnoc(term, data, b.start, i);
      ret := AddPoint(num, D, ret, data[start], term, BatchTerms(term, data, b.start, i));
      StepPosition(b.start + i, |data|);
      start := (start + 1) % |data|;
    }
  }

  lemma BatchTermsNone<N>(term: (Point<N>, nat) -> N, data: seq<Point<N>>, start: nat)
    requires start < |data|
    ensures BatchTerms(term, data, start, 0) == []
  {
  }

  lemma SmallMod(a: nat, n: nat)
    requires a < n
    ensures (a + 0) % n == a
  {
  }

  /** The loop over the fields of one point. */
  method AddPoint<N(!new)>(num: Numbers<N>, D: nat, before: seq<Dim<N>>, p: Point<N>, term: (Point<N>, nat) -> N,
                           ghost done: seq<Dim<N>>)
    returns (ret: seq<Dim<N>>)
    requires Additive(num) && Parsed(p, D) && Adds(num, Zeros(num, D), done, before)
    ensures Adds(num, Zeros(num, D), done + FirstTerms(term, p, |p.fields|), ret)
  {
    hide Additive, Adds;
    ret := before;
    var j := 0;
    AddsLength(num, Zeros(num, D), done, before);
    assert done + FirstTerms(term, p, 0) == done;
    for f := 0 to |p.fields|
      invariant |ret| == D && (f > 0 ==> j == p.fields[f - 1].key) && (f == 0 ==> j == 0)
      invariant Adds(num, Zeros(num, D), done + FirstTerms(term, p, f), ret)
    {
      while j < p.fields[f].key
        invariant j <= p.fields[f].key
      {
        j := j + 1;
      }
      var d := Dim(j, term(p, f));
      AddsSnoc(num, Zeros(num, D), done + FirstTerms(term, p, f), ret, j, d);
      assert done + FirstTerms(term, p, f) + [d] == done + FirstTerms(term, p, f + 1);
      ret := ret[j := Dim(ret[j].key, num.add(ret[j].val, d.val))];
    }
  }

  lemma AddsLength<N>(num: Numbers<N>, before: seq<Dim<N>>, xs: seq<Dim<N>>, after: seq<Dim<N>>)
    requires Adds(num, before, xs, after)
    ensures |after| == |before|
  {
  }

  // ---------- the gradient of an iteration ----------

  function Entry<N>(m: map<nat, N>, k: nat): Option<Dim<N>> {
    if k in m then Some(Dim(k, m[k])) else None
  }

  /** The map holds the sum of the terms of each dimension. */
  ghost predicate Sums<N>(num: Numbers<N>, m: map<nat, N>, xs: seq<Dim<N>>) {
    forall k: nat :: Entry(m, k) == Agg(ByKey(num), xs, k)
  }

  lemma SumsSnoc<N(!new)>(num: Numbers<N>, m: map<nat, N>, xs: seq<Dim<N>>, d: Dim<N>)
    requires Additive(num) && Sums(num, m, xs)
    ensures Sums(num, m[d.key := num.add(if d.key in m then m[d.key] else num.zero, d.val)], xs + [d])
  {
    hide Agg;
    var r, next := ByKey(num), m[d.key := num.add(if d.key in m then m[d.key] else num.zero, d.val)];
    ByKeyLawful(num);
    forall k: nat ensures Entry(next, k) == Agg(r, xs + [d], k) {
      AggConcat(r, xs, [d], k);
      SingleAgg(r, d, k);
      assert Entry(m, k) == Agg(r, xs, k);
    }
  }

  lemma SumsNothing<N>(num: Numbers<N>)
    ensures Sums(num, map[], [])
  {
  }

  /** get_gradient: sum the terms in an ordered map, then list the map. */
  method Gradient<N(!new)>(num: Numbers<N>, data: seq<Point<N>>, b: Batch, term: (Point<N>, nat) -> N)
    returns (ret: seq<Dim<N>>)
    requires Additive(num) && Fits(b, data)
    ensures IsGroupBy(ByKey(num), ret, Terms(term, data, b))
  {
    hide Additive, Sums, BatchTerms, IsGroupBy;
    if data == [] {
      NothingGrouped(num);
      return [];
    }
    var start, gradients: map<nat, N> := b.start, map[];
    BatchTermsNone(term, data, start);
    SmallMod(start, |data|);
    SumsNothing(num);
    for i := 0 to b.size
      invariant start == (b.start + i) % |data|
      invariant Sums(num, gradients, BatchTerms(term, data, b.start, i))
    {
      var p := data[start];
      ghost var done := BatchTerms(term, data, b.start, i);
      BatchTermsSnoc(term, data, b.start, i);
      assert done + FirstTerms(term, p, 0) == done;
      for f := 0 to |p.fields|
        invariant Sums(num, gradients, done + FirstTerms(term, p, f))
      {
        var k := p.fields[f].key;
        SumsSnoc(num, gradients, done + FirstTerms(term, p, f), Dim(k, term(p, f)));
        assert done + FirstTerms(term, p, f) + [Dim(k, term(p, f))] == done + FirstTerms(term, p, f + 1);
        gradients := gradients[k := num.add(if k in gradients then gradients[k] else num.zero, term(p, f))];
      }
      StepPosition(b.start + i, |data|);
      start := (start + 1) % |data|;
    }
    ret := InOrder(gradients);
    ListedIsGroupBy(num, gradients, BatchTerms(term, data, b.start, b.size), ret);
  }

  lemma NothingGrouped<N(!new)>(num: Numbers<N>)
    ensures IsGroupBy(ByKey(num), [], [])
  {
  }

  /** `out` lists the entries of `m` outside `todo` in ascending order, all before those of `todo`. */
  ghost predicate Listed<N>(m: map<nat, N>, todo: set<nat>, out: seq<Dim<N>>) {
    && todo <= m.Keys && Increasing(out)
    && (forall i :: 0 <= i < |out| ==> out[i].key in m && out[i].key !in todo && out[i].val == m[out[i].key])
    && (forall i, k :: 0 <= i < |out| && k in todo ==> out[i].key < k)
    && forall k: nat :: k in m && k !in todo ==> HasKey(out, k)
  }

  /** The order in which a std::map is walked. */
  method InOrder<N>(m: map<nat, N>) returns (out: seq<Dim<N>>)
    ensures Listed(m, {}, out)
  {
    hide Listed;
    out := [];
    var todo := m.Keys;
    ListedNone(m);
    while todo != {}
      invariant todo <= m.Keys && Listed(m, todo, out)
      decreases |todo|
    {
      ghost var least := LeastExists(todo, (k: nat) => k as real);
      var k :| k in todo && forall x :: x in todo ==> k <= x;
      ListedStep(m, todo, out, k);
      out := out + [Dim(k, m[k])];
      todo := todo - {k};
    }
  }

  lemma ListedNone<N>(m: map<nat, N>)
    ensures Listed(m, m.Keys, [])
  {
  }

  lemma ListedStep<N>(m: map<nat, N>, todo: set<nat>, out: seq<Dim<N>>, k: nat)
    requires Listed(m, todo, out) && k in todo && forall x :: x in todo ==> k <= x
    ensures k in m && Listed(m, todo - {k}, out + [Dim(k, m[k])])
  {
    var next := out + [Dim(k, m[k])];
    forall x: nat | x in m && x !in todo - {k} ensures HasKey(next, x) {
      if x == k {
        assert next[|out|].key == x;
      } else {
        assert HasKey(out, x);
        var i :| 0 <= i < |out| && out[i].key == x;
        assert next[i].key == x;
      }
    }
  }

  lemma ListedIsGroupBy<N(!new)>(num: Numbers<N>, m: map<nat, N>, xs: seq<Dim<N>>, out: seq<Dim<N>>)
    requires Additive(num) && Sums(num, m, xs) && Listed(m, {}, out)
    ensures IsGroupBy(ByKey(num), out, xs)
  {
    hide Additive, Agg, ByKey;
    var r := ByKey(num);
    ByKeyLawful(num);
    AscendingKeys(num, out);
    forall k: nat ensures Agg(r, out, k) == Agg(r, xs, k) {
      assert Entry(m, k) == Agg(r, xs, k);
      KeyInAgg(num, out, k);
      if k in m {
        assert HasKey(out, k);
        var i :| 0 <= i < |out| && out[i].key == k;
        EntryOfKey(num, out, i);
      }
    }
  }

  lemma EntryOfKey<N(!new)>(num: Numbers<N>, out: seq<Dim<N>>, i: nat)
    requires Additive(num) && Increasing(out) && i < |out|
    ensures Agg(ByKey(num), out, out[i].key) == Some(out[i])
  {
    ByKeyLawful(num);
    AscendingKeys(num, out);
    AscendingAgg(ByKey(num), out, i);
  }

  // ---------- all partitions ----------

  ghost predicate Batches<N>(bs: seq<Batch>, data: seq<seq<Point<N>>>) {
    |bs| == |data| && forall j :: 0 <= j < |data| ==> Fits(bs[j], data[j])
  }

  /** The contributions of one batch of every partition. */
  ghost function AllTerms<N>(term: (Point<N>, nat) -> N, data: seq<seq<Point<N>>>, bs: seq<Batch>): (xs: seq<seq<Dim<N>>>)
    requires Batches(bs, data)
    ensures |xs| == |data| && forall j :: 0 <= j < |data| ==> xs[j] == Terms(term, data[j], bs[j])
  {
    seq(|data|, j requires 0 <= j < |data| => Terms(term, data[j], bs[j]))
  }

  ghost predicate DataParsed<N>(data: seq<seq<Point<N>>>, D: nat) {
    forall j :: 0 <= j < |data| ==> AllParsed(data[j], D)
  }

  lemma TermsWithin<N>(term: (Point<N>, nat) -> N, data: seq<seq<Point<N>>>, bs: seq<Batch>, D: nat)
    requires Batches(bs, data) && DataParsed(data, D)
    ensures Within(Flatten(AllTerms(term, data, bs)), 0, D)
  {
    hide Within, Terms, AllParsed;
    var xs := AllTerms(term, data, bs);
    forall j | 0 <= j < |xs| ensures Within(xs[j], 0, D) {
      PartTermsWithin(term, data[j], bs[j], D);
    }
    WithinFlatten(xs, D);
  }

  lemma PartTermsWithin<N>(term: (Point<N>, nat) -> N, data: seq<Point<N>>, b: Batch, D: nat)
    requires Fits(b, data) && AllParsed(data, D)
    ensures Within(Terms(term, data, b), 0, D)
  {
    hide BatchTerms, Within, AllParsed;
    if data == [] {
      WithinNothing<N>(D);
    } else {
      BatchTermsWithin(term, data, b.start, b.size, D);
    }
  }

  lemma WithinNothing<N>(D: nat)
    ensures Within<N>([], 0, D)
  {
  }

  lemma {:induction false} WithinFlatten<N>(xs: seq<seq<Dim<N>>>, D: nat)
    requires forall j :: 0 <= j < |xs| ==> Within(xs[j], 0, D)
    ensures Within(Flatten(xs), 0, D)
  {
    if xs != [] {
      WithinFlatten(xs[1..], D);
    }
  }

  // ---------- the initial model ----------

  lemma DenseIncreases<N>(xs: seq<Dim<N>>, lo: nat, hi: nat)
    requires Dense(xs, lo, hi)
    ensures Increasing(xs) && HasKeys(xs, lo, hi)
  {
    forall k: nat ensures HasKey(xs, k) <==> lo <= k < hi {
      if lo <= k < hi {
        assert xs[k - lo].key == k;
      }
    }
  }

  /** A dense vector is what it holds of each dimension. */
  lemma DenseEntry<N(!new)>(num: Numbers<N>, xs: seq<Dim<N>>, D: nat, k: nat)
    requires Additive(num) && Dense(xs, 0, D) && k < D
    ensures Agg(ByKey(num), xs, k) == Some(xs[k])
  {
    hide Additive, ByKey;
    DenseIncreases(xs, 0, D);
    EntryOfKey(num, xs, k);
  }

  lemma ZerosAbsorb<N(!new)>(num: Numbers<N>, k: nat, a: Option<Dim<N>>, b: Option<Dim<N>>)
    requires Additive(num) && (a.Some? ==> a.value.key == k) && (b.Some? ==> b.value.key == k)
    ensures var r, z := ByKey(num), Some(Dim(k, num.zero));
            Plus(r, Plus(r, z, a), Plus(r, z, b)) == Plus(r, z, Plus(r, a, b))
  {
    if a.Some? && b.Some? {
      var x, y := a.value.val, b.value.val;
      assert num.add(num.zero, x) == x && num.add(num.zero, y) == y;
      assert num.add(num.zero, num.add(x, y)) == num.add(x, y);
    } else if a.Some? {
      assert num.add(num.add(num.zero, a.value.val), num.zero) == num.add(num.zero, num.add(num.zero, a.value.val));
    }
  }

  /** The zeros of the partitions do not add up to anything. */
  lemma {:induction false} FirstsAdd<N(!new)>(num: Numbers<N>, D: nat, firsts: seq<seq<Dim<N>>>, terms: seq<seq<Dim<N>>>, k: nat)
    requires Additive(num) && |firsts| == |terms| && firsts != [] && k < D
    requires forall j :: 0 <= j < |firsts| ==> Adds(num, Zeros(num, D), terms[j], firsts[j])
    ensures Agg(ByKey(num), Flatten(firsts), k) ==
              Plus(ByKey(num), Some(Dim(k, num.zero)), Agg(ByKey(num), Flatten(terms), k))
    decreases |firsts|
  {
    hide Additive, Agg, Plus, ByKey, Adds, Dense, Combines;
    var r, z := ByKey(num), Some(Dim(k, num.zero));
    assert Combines(r) by { ByKeyLawful(num); LawfulCombines(r); }
    OneFirst(num, D, firsts[0], terms[0], k);
    if |firsts| == 1 {
      FlattenOne(firsts);
      FlattenOne(terms);
    } else {
      FirstsAdd(num, D, firsts[1..], terms[1..], k);
      AggConcat(r, firsts[0], Flatten(firsts[1..]), k);
      AggConcat(r, terms[0], Flatten(terms[1..]), k);
      AggOfKey(num, terms[0], k);
      AggOfKey(num, Flatten(terms[1..]), k);
      ZerosAbsorb(num, k, Agg(r, terms[0], k), Agg(r, Flatten(terms[1..]), k));
    }
  }

  lemma FlattenOne<T>(xss: seq<seq<T>>)
    requires |xss| == 1
    ensures Flatten(xss) == xss[0]
  {
    assert xss[1..] == [];
  }

  lemma AggOfKey<N(!new)>(num: Numbers<N>, xs: seq<Dim<N>>, k: nat)
    requires Additive(num)
    ensures var a := Agg(ByKey(num), xs, k); a.Some? ==> a.value.key == k
  {
    ByKeyLawful(num);
    AggKey(ByKey(num), xs, k);
  }

  lemma OneFirst<N(!new)>(num: Numbers<N>, D: nat, first: seq<Dim<N>>, terms: seq<Dim<N>>, k: nat)
    requires Additive(num) && k < D && Adds(num, Zeros(num, D), terms, first)
    ensures Agg(ByKey(num), first, k) == Plus(ByKey(num), Some(Dim(k, num.zero)), Agg(ByKey(num), terms, k))
  {
    hide Additive, Agg, Plus, ByKey;
    DenseAfter(num, Zeros(num, D), terms, first, 0, D);
    DenseEntry(num, first, D, k);
  }

  lemma FirstsHaveAll<N(!new)>(num: Numbers<N>, D: nat, firsts: seq<seq<Dim<N>>>, terms: seq<seq<Dim<N>>>)
    requires Additive(num) && |firsts| == |terms| && firsts != []
    requires forall j :: 0 <= j < |firsts| ==> Adds(num, Zeros(num, D), terms[j], firsts[j])
    ensures HasKeys(Flatten(firsts), 0, D)
  {
    hide Additive, Adds, HasKey, Dense, ByKey, Within;
    forall j | 0 <= j < |firsts| ensures Within(firsts[j], 0, D) {
      DenseAfter(num, Zeros(num, D), terms[j], firsts[j], 0, D);
      DenseWithin(firsts[j], D);
    }
    WithinFlatten(firsts, D);
    forall k: nat ensures HasKey(Flatten(firsts), k) <==> 0 <= k < D {
      if k < D {
        FirstsAdd(num, D, firsts, terms, k);
        KeyInAgg(num, Flatten(firsts), k);
      } else {
        WithinHasKey(Flatten(firsts), D, k);
      }
    }
  }

  lemma DenseWithin<N>(xs: seq<Dim<N>>, D: nat)
    requires Dense(xs, 0, D)
    ensures Within(xs, 0, D)
  {
  }

  lemma WithinHasKey<N>(xs: seq<Dim<N>>, D: nat, k: nat)
    requires Within(xs, 0, D)
    ensures HasKey(xs, k) ==> k < D
  {
  }

  lemma DenseFits<N(!new)>(wn: Wire<N>, xs: seq<Dim<N>>, lo: nat, hi: nat)
    requires Roomy(wn) && Dense(xs, lo, hi) && hi <= KEY_LIMIT
    ensures AllFit(DimWire(wn), xs)
  {
    DimsFit(wn, xs);
  }

  /** data.MapPartition(initial_gradient).RangeReduceBy(...): the zero model plus every contribution. */
  method InitialModel<N(!new)>(num: Numbers<N>, wn: Wire<N>, D: nat, n: nat, data: seq<seq<Point<N>>>, bs: seq<Batch>,
                               term: (Point<N>, nat) -> N, order: seq<seq<nat>>)
    returns (shards: seq<seq<Dim<N>>>)
    requires n > 0 && Additive(num) && Faithful(wn) && Roomy(wn) && D <= KEY_LIMIT
    requires data != [] && Batches(bs, data) && DataParsed(data, D)
    requires |order| == n && forall p :: 0 <= p < n ==> IsPermutation(order[p], |data|)
    ensures IsModel(shards, D, n)
    ensures Adds(num, Zeros(num, D), Flatten(AllTerms(term, data, bs)), Flatten(shards))
  {
    hide Additive, Faithful, Roomy, Adds, AllParsed, Terms, Flatten, IsGroupBy, Routed, IsModel, Zeros, Dense, DimWire, AllFit;
    var firsts := [];
    for j := 0 to |data|
      invariant |firsts| == j && PartsFit(DimWire(wn), firsts)
      invariant forall i :: 0 <= i < j ==> Adds(num, Zeros(num, D), Terms(term, data[i], bs[i]), firsts[i])
    {
      var first := InitialGradient(num, D, data[j], bs[j], term);
      DenseAfter(num, Zeros(num, D), Terms(term, data[j], bs[j]), first, 0, D);
      DenseFits(wn, first, 0, D);
      firsts := firsts + [first];
    }
    ByKeyLawful(num);
    DimWireFaithful(wn);
    shards := RangeReduceBy(ByKey(num), DimWire(wn), KeyRoute(ByKey(num), BlockOf(D, n)), n, firsts, order);
    FirstsHaveAll(num, D, firsts, AllTerms(term, data, bs));
    ReducedIsModel(num, D, n, shards, Flatten(firsts));
    InitialAdds(num, D, n, shards, firsts, AllTerms(term, data, bs));
  }

  lemma InitialAdds<N(!new)>(num: Numbers<N>, D: nat, n: nat, shards: seq<seq<Dim<N>>>, firsts: seq<seq<Dim<N>>>, terms: seq<seq<Dim<N>>>)
    requires n > 0 && Additive(num) && |shards| == n && IsModel(shards, D, n) && |firsts| == |terms| && firsts != []
    requires forall j :: 0 <= j < |firsts| ==> Adds(num, Zeros(num, D), terms[j], firsts[j])
    requires forall p :: 0 <= p < n ==>
               IsGroupBy(ByKey(num), shards[p], Routed(Flatten(firsts), KeyRoute(ByKey(num), BlockOf(D, n)), n, p))
    ensures Adds(num, Zeros(num, D), Flatten(terms), Flatten(shards))
  {
    hide *;
    ByKeyLawful(num);
    ModelIsDense(shards, D, n);
    ReducedTogether(ByKey(num), BlockOf(D, n), n, shards, Flatten(firsts));
    forall k: nat | k < D
      ensures Agg(ByKey(num), Flatten(shards), k) ==
                Plus(ByKey(num), Some(Dim(k, num.zero)), Agg(ByKey(num), Flatten(terms), k))
    {
      SameAgg(num, Flatten(shards), Flatten(firsts), k);
      FirstsAdd(num, D, firsts, terms, k);
    }
    SumsOfZeros(num, D, Flatten(terms), Flatten(shards));
  }

  lemma SumsOfZeros<N(!new)>(num: Numbers<N>, D: nat, xs: seq<Dim<N>>, model: seq<Dim<N>>)
    requires Additive(num) && Dense(model, 0, D)
    requires forall k: nat :: k < D ==>
               Agg(ByKey(num), model, k) == Plus(ByKey(num), Some(Dim(k, num.zero)), Agg(ByKey(num), xs, k))
    ensures Adds(num, Zeros(num, D), xs, model)
  {
    hide Additive, Agg, Plus, ByKey;
    forall k: nat | k < D ensures Some(model[k]) == Plus(ByKey(num), Some(Dim(k, num.zero)), Agg(ByKey(num), xs, k)) {
      DenseEntry(num, model, D, k);
    }
  }

  // ---------- one iteration ----------

  /** Broadcast the model, reduce the gradients to the shards' ranges and merge them in. */
  method Iterate<N(!new)>(num: Numbers<N>, wn: Wire<N>, D: nat, n: nat, data: seq<seq<Point<N>>>, bs: seq<Batch>,
                          slope: seq<Dim<N>> -> ((Point<N>, nat) -> N), shards: seq<seq<Dim<N>>>,
                          localOrder: seq<seq<nat>>, ran: seq<seq<nat>>, order: seq<seq<nat>>)
    returns (next: seq<seq<Dim<N>>>)
    requires n > 0 && Additive(num) && Faithful(wn) && Roomy(wn) && 0 < D <= KEY_LIMIT
    requires Batches(bs, data) && DataParsed(data, D) && IsModel(shards, D, n)
    requires |ran| == |data| && forall d :: 0 <= d < |data| ==> Ran(ran[d], d, |data|)
    requires |localOrder| == |data| && forall d :: 0 <= d < |data| ==> IsPermutation(localOrder[d], n)
    requires |order| == n && forall p :: 0 <= p < n ==> IsPermutation(order[p], |data|)
    ensures IsModel(next, D, n)
    ensures Adds(num, Flatten(shards), Flatten(AllTerms(slope(Flatten(shards)), data, bs)), Flatten(next))
  {
    hide Additive, Faithful, Roomy, Adds, DataParsed, Terms, Flatten, IsGroupBy, Routed, IsModel, SortedByKey, Within, SameGroups,
         DimWire, PartsFit;
    ByKeyLawful(num);
    LawfulOrders(ByKey(num));
    DimWireFaithful(wn);
    ModelShards(shards, D, n);
    ModelFits(wn, shards, D, n);
    var fetched := Broadcast(ByKey(num), DimWire(wn), true, shards, localOrder, ran);
    ModelFetched(num, shards, D, n, fetched, ran);
    var local := Present(fetched);
    ghost var term := slope(Flatten(shards));
    var gradients := Gradients(num, data, bs, slope, local, Flatten(shards));
    GradientsFit(num, wn, D, data, bs, term, gradients);
    var reduced := RangeReduceBy(ByKey(num), DimWire(wn), KeyRoute(ByKey(num), BlockOf(D, n)), n, gradients, order);
    TermsWithin(term, data, bs, D);
    GradientsTogether(num, gradients, AllTerms(term, data, bs));
    next := MergeAll(num, D, n, shards, reduced, Flatten(gradients), Flatten(AllTerms(term, data, bs)));
  }

  /** A model of at least one dimension reaches every shard. */
  lemma ModelFetched<N(!new)>(num: Numbers<N>, shards: seq<seq<Dim<N>>>, D: nat, n: nat, fetched: seq<Option<seq<Dim<N>>>>,
                              ran: seq<seq<nat>>)
    requires n > 0 && D > 0 && IsModel(shards, D, n) && |fetched| == |ran|
    requires forall d :: 0 <= d < |fetched| ==> Fetched(ByKey(num), true, fetched[d], ran[d], Flatten(shards))
    ensures forall d :: 0 <= d < |fetched| ==> fetched[d] == Some(Flatten(shards))
  {
    hide IsModel, ByKey, Flatten, SortedByKey;
    ModelIsDense(shards, D, n);
    forall d | 0 <= d < |fetched| ensures fetched[d] == Some(Flatten(shards)) {
      BroadcastIsDense(num, shards, D, n, fetched[d].value);
    }
  }

  /** `*(tc->GetDatasetPartition<OVal>(oid))` */
  function Present<T>(xs: seq<Option<T>>): (ys: seq<T>)
    requires forall i :: 0 <= i < |xs| ==> xs[i].Some?
    ensures |ys| == |xs| && forall i :: 0 <= i < |xs| ==> ys[i] == xs[i].value
  {
    seq(|xs|, i requires 0 <= i < |xs| => xs[i].value)
  }

  lemma ModelFits<N(!new)>(wn: Wire<N>, shards: seq<seq<Dim<N>>>, D: nat, n: nat)
    requires n > 0 && IsModel(shards, D, n) && Roomy(wn) && D <= KEY_LIMIT
    ensures PartsFit(DimWire(wn), shards)
  {
    hide Dense, Start, AllFit, Roomy, DimWire;
    forall p | 0 <= p < n ensures AllFit(DimWire(wn), shards[p]) {
      StartBelow(D, n, p + 1);
      DenseFits(wn, shards[p], Start(D, n, p), Start(D, n, p + 1));
    }
  }

  lemma GradientsFit<N(!new)>(num: Numbers<N>, wn: Wire<N>, D: nat, data: seq<seq<Point<N>>>, bs: seq<Batch>,
                              term: (Point<N>, nat) -> N, gradients: seq<seq<Dim<N>>>)
    requires Additive(num) && Roomy(wn) && D <= KEY_LIMIT && Batches(bs, data) && DataParsed(data, D)
    requires |gradients| == |data|
    requires forall j :: 0 <= j < |data| ==> IsGroupBy(ByKey(num), gradients[j], AllTerms(term, data, bs)[j])
    ensures PartsFit(DimWire(wn), gradients)
  {
    hide Additive, Roomy, AllParsed, Terms, IsGroupBy, DimWire, AllFit, Lawful, Closed;
    ByKeyLawful(num);
    ByKeyCloses(num, wn);
    forall j | 0 <= j < |data| ensures AllFit(DimWire(wn), gradients[j]) {
      var terms := Terms(term, data[j], bs[j]);
      PartTermsWithin(term, data[j], bs[j], D);
      DimsFit(wn, terms);
      GroupByFits(ByKey(num), DimWire(wn), gradients[j], terms);
    }
  }

  lemma ModelShards<N>(shards: seq<seq<Dim<N>>>, D: nat, n: nat)
    requires n > 0 && IsModel(shards, D, n)
    ensures |shards| == n
  {
  }

  /** data.SharedDataMapPartitionWith(&localmodel, get_gradient) */
  method Gradients<N(!new)>(num: Numbers<N>, data: seq<seq<Point<N>>>, bs: seq<Batch>,
                            slope: seq<Dim<N>> -> ((Point<N>, nat) -> N), local: seq<seq<Dim<N>>>, ghost model: seq<Dim<N>>)
    returns (gradients: seq<seq<Dim<N>>>)
    requires Additive(num) && Batches(bs, data) && |local| == |data| && forall j :: 0 <= j < |data| ==> local[j] == model
    ensures |gradients| == |data|
    ensures forall j :: 0 <= j < |data| ==> IsGroupBy(ByKey(num), gradients[j], AllTerms(slope(model), data, bs)[j])
  {
    hide Additive, Terms, IsGroupBy, ByKey;
    gradients := [];
    for j := 0 to |data|
      invariant |gradients| == j
      invariant forall i :: 0 <= i < j ==> IsGroupBy(ByKey(num), gradients[i], Terms(slope(model), data[i], bs[i]))
    {
      var gradient := Gradient(num, data[j], bs[j], slope(local[j]));
      gradients := gradients + [gradient];
    }
  }

  /** Merge the reduced gradient into every shard. */
  method MergeAll<N(!new)>(num: Numbers<N>, D: nat, n: nat, shards: seq<seq<Dim<N>>>, reduced: seq<seq<Dim<N>>>,
                           ghost emitted: seq<Dim<N>>, ghost terms: seq<Dim<N>>)
    returns (next: seq<seq<Dim<N>>>)
    requires n > 0 && Additive(num) && IsModel(shards, D, n) && |reduced| == n
    requires forall p :: 0 <= p < n ==>
               IsGroupBy(ByKey(num), reduced[p], Routed(emitted, KeyRoute(ByKey(num), BlockOf(D, n)), n, p))
    requires SameGroups(ByKey(num), emitted, terms) && Within(terms, 0, D)
    ensures IsModel(next, D, n) && Adds(num, Flatten(shards), terms, Flatten(next))
  {
    hide Additive, IsGroupBy, Routed, KeyRoute, BlockOf, ByKey, SameGroups, Within, Adds, Dense, Flatten, Start, Merged, LeftOver;
    next := [];
    for p := 0 to n
      invariant |next| == p
      invariant forall q :: 0 <= q < p ==> Dense(next[q], Start(D, n, q), Start(D, n, q + 1))
      invariant forall q :: 0 <= q < p ==> Adds(num, shards[q], terms, next[q])
    {
      GradientFits(num, D, n, p, shards[p], reduced[p], emitted, terms);
      var shard, used := Merge(num, shards[p], reduced[p]);
      assert used == |reduced[p]|;
      next := next + [shard];
    }
    AddsFlatten(num, shards, terms, next);
  }

  lemma GradientsTogether<N(!new)>(num: Numbers<N>, gradients: seq<seq<Dim<N>>>, terms: seq<seq<Dim<N>>>)
    requires Additive(num) && |gradients| == |terms|
    requires forall j :: 0 <= j < |terms| ==> IsGroupBy(ByKey(num), gradients[j], terms[j])
    ensures SameGroups(ByKey(num), Flatten(gradients), Flatten(terms))
  {
    hide Additive, SameGroups, ByKey, Flatten, Combines, Grouping.Ascending;
    ByKeyLawful(num);
    LawfulCombines(ByKey(num));
    FlattenSameGroups(ByKey(num), gradients, terms);
  }

  /** The reduced gradient of shard p lies in the shard's range, and merging it adds every contribution. */
  lemma GradientFits<N(!new)>(num: Numbers<N>, D: nat, n: nat, p: nat, shard: seq<Dim<N>>, reduced: seq<Dim<N>>,
                              emitted: seq<Dim<N>>, terms: seq<Dim<N>>)
    requires p < n && Additive(num) && Dense(shard, Start(D, n, p), Start(D, n, p + 1))
    requires IsGroupBy(ByKey(num), reduced, Routed(emitted, KeyRoute(ByKey(num), BlockOf(D, n)), n, p))
    requires SameGroups(ByKey(num), emitted, terms) && Within(terms, 0, D)
    ensures |reduced| <= |shard| && LeftOver(shard, reduced) == []
    ensures Dense(Merged(num, shard, reduced), Start(D, n, p), Start(D, n, p + 1))
    ensures Adds(num, shard, terms, Merged(num, shard, reduced))
  {
    hide Additive, IsGroupBy, Routed, KeyRoute, BlockOf, Start, Merged, LeftOver, ByKey, Agg, Plus, Increasing, HasKey, Within;
    var lo, hi := Start(D, n, p), Start(D, n, p + 1);
    StartBelow(D, n, p + 1);
    ReducedDim(num, D, n, p, reduced, emitted, 0);
    forall i | 0 <= i < |reduced| ensures lo <= reduced[i].key < hi {
      InRange(num, D, n, p, reduced, emitted, terms, i);
    }
    IsWithin(reduced, lo, hi);
    MergeAdds(num, shard, reduced, lo, hi);
    var after := Merged(num, shard, reduced);
    forall i | 0 <= i < |shard|
      ensures Some(after[i]) == Plus(ByKey(num), Some(shard[i]), Agg(ByKey(num), terms, shard[i].key))
    {
      ReducedDim(num, D, n, p, reduced, emitted, shard[i].key);
      assert Agg(ByKey(num), emitted, shard[i].key) == Agg(ByKey(num), terms, shard[i].key);
    }
  }

  lemma IsWithin<N>(xs: seq<Dim<N>>, lo: nat, hi: nat)
    requires forall i :: 0 <= i < |xs| ==> lo <= xs[i].key < hi
    ensures Within(xs, lo, hi)
  {
  }

  lemma InRange<N(!new)>(num: Numbers<N>, D: nat, n: nat, p: nat, reduced: seq<Dim<N>>, emitted: seq<Dim<N>>, terms: seq<Dim<N>>, i: nat)
    requires p < n && Additive(num) && i < |reduced|
    requires IsGroupBy(ByKey(num), reduced, Routed(emitted, KeyRoute(ByKey(num), BlockOf(D, n)), n, p))
    requires SameGroups(ByKey(num), emitted, terms) && Within(terms, 0, D)
    ensures Start(D, n, p) <= reduced[i].key < Start(D, n, p + 1)
  {
    var k := reduced[i].key;
    assert HasKey(reduced, k);
    hide *;
    assert Agg(ByKey(num), emitted, k) == Agg(ByKey(num), terms, k) by { SameAgg(num, emitted, terms, k); }
    KeyInAgg(num, reduced, k);
    KeyInAgg(num, emitted, k);
    KeyInAgg(num, terms, k);
    ReducedDim(num, D, n, p, reduced, emitted, k);
    WithinHasKey(terms, D, k);
  }

  lemma SameAgg<N(!new)>(num: Numbers<N>, xs: seq<Dim<N>>, ys: seq<Dim<N>>, k: nat)
    requires SameGroups(ByKey(num), xs, ys)
    ensures Agg(ByKey(num), xs, k) == Agg(ByKey(num), ys, k)
  {
  }

  lemma {:induction false} AddsFlatten<N>(num: Numbers<N>, before: seq<seq<Dim<N>>>, xs: seq<Dim<N>>, after: seq<seq<Dim<N>>>)
    requires |before| == |after| && forall p :: 0 <= p < |before| ==> Adds(num, before[p], xs, after[p])
    ensures Adds(num, Flatten(before), xs, Flatten(after))
    decreases |before|
  {
    hide Plus, ByKey, Agg;
    if before != [] {
      AddsFlatten(num, before[1..], xs, after[1..]);
    }
  }

  // ---------- the whole run ----------

  /** The job for any number of iterations.  In every iteration the shards are exactly their dense ranges,
      so that record i of the broadcast model is dimension i, and the next model is the sum, dimension by
      dimension, of this one and of everything the data contributes on this one. */
  method Train<N(!new)>(num: Numbers<N>, wn: Wire<N>, D: nat, n: nat, iters: nat, data: seq<seq<Point<N>>>,
                        initialTerm: (Point<N>, nat) -> N, slope: seq<Dim<N>> -> ((Point<N>, nat) -> N),
                        initialBatches: seq<Batch>, batches: nat -> seq<Batch>,
                        initialOrder: seq<seq<nat>>, localOrders: nat -> seq<seq<nat>>, ran: nat -> seq<seq<nat>>,
                        orders: nat -> seq<seq<nat>>)
    returns (shards: seq<seq<Dim<N>>>, ghost history: seq<seq<Dim<N>>>)
    requires n > 0 && Additive(num) && Faithful(wn) && Roomy(wn) && 0 < D <= KEY_LIMIT && data != [] && DataParsed(data, D)
    requires Batches(initialBatches, data) && forall t :: Batches(batches(t), data)
    requires |initialOrder| == n && forall p :: 0 <= p < n ==> IsPermutation(initialOrder[p], |data|)
    requires forall t :: |orders(t)| == n && forall p :: 0 <= p < n ==> IsPermutation(orders(t)[p], |data|)
    requires forall t :: |ran(t)| == |data| && forall d :: 0 <= d < |data| ==> Ran(ran(t)[d], d, |data|)
    requires forall t :: |localOrders(t)| == |data| && forall d :: 0 <= d < |data| ==> IsPermutation(localOrders(t)[d], n)
    ensures IsModel(shards, D, n) && |history| == iters + 1 && history[iters] == Flatten(shards)
    ensures forall p, k: nat :: 0 <= p < n ==> (HasKey(shards[p], k) <==> k < D && k / (D / n + 1) == p)
    ensures forall t :: 0 <= t <= iters ==> Dense(history[t], 0, D)
    ensures Adds(num, Zeros(num, D), Flatten(AllTerms(initialTerm, data, initialBatches)), history[0])
    ensures forall t :: 0 <= t < iters ==>
              Adds(num, history[t], Flatten(AllTerms(slope(history[t]), data, batches(t))), history[t + 1])
  {
    hide *;
    shards := InitialModel(num, wn, D, n, data, initialBatches, initialTerm, initialOrder);
    ModelIsDense(shards, D, n);
    history := [Flatten(shards)];
    for t := 0 to iters
      invariant IsModel(shards, D, n) && |history| == t + 1 && history[t] == Flatten(shards)
      invariant forall s :: 0 <= s <= t ==> Dense(history[s], 0, D)
      invariant Adds(num, Zeros(num, D), Flatten(AllTerms(initialTerm, data, initialBatches)), history[0])
      invariant forall s :: 0 <= s < t ==>
                  Adds(num, history[s], Flatten(AllTerms(slope(history[s]), data, batches(s))), history[s + 1])
    {
      shards := Iterate(num, wn, D, n, data, batches(t), slope, shards, localOrders(t), ran(t), orders(t));
      ModelIsDense(shards, D, n);
      history := history + [Flatten(shards)];
    }
    ModelShards(shards, D, n);
    forall p, k: nat | 0 <= p < n ensures HasKey(shards[p], k) <==> k < D && k / (D / n + 1) == p {
      ShardOf(shards, D, n, p, k);
    }
  }

  // ---------- a run ----------

  /** One data point of one field, in one partition; it contributes what the model holds. */
  function OnlyPoint(): Point<Bits64> { Point([Dim(0, 1)], 0) }

  function One(p: Point<Bits64>, i: nat): Bits64 { 1 }

  function Same(model: seq<Dim<Bits64>>): (Point<Bits64>, nat) -> Bits64 {
    (p, i) => if model == [] then 0 else model[0].val
  }

  /** Every requirement of `Train` is met by this run, in which each iteration doubles the model. */
  method Doubling(iters: nat) returns (shards: seq<seq<Dim<Bits64>>>)
    ensures shards == [[Dim(0, PowerOfTwo(iters) % SIZE_LIMIT)]]
  {
    hide Additive, Faithful, Roomy, Adds, Integers, Bits64Wire, IsModel, AllTerms, Zeros, Dense;
    IntegersAdd();
    Bits64Faithful();
    var data, bs, order := [[OnlyPoint()]], [Batch(0, 1)], [[0]];
    OnlyOrder();
    ghost var history;
    shards, history := Train(Integers(), Bits64Wire(), 1, 1, iters, data, One, Same, bs, _ => bs, order, _ => order, _ => order, _ => order);
    ZerosOfOne();
    OneTerm(One);
    AddsOne(0, 1, history[0]);
    for t := 0 to iters
      invariant history[t] == [Dim(0, PowerOfTwo(t) % SIZE_LIMIT)]
    {
      OneTerm(Same(history[t]));
      AddsOne(PowerOfTwo(t) % SIZE_LIMIT, PowerOfTwo(t) % SIZE_LIMIT, history[t + 1]);
      DoublingWraps(PowerOfTwo(t));
    }
    OneShard(shards);
  }

  lemma OnlyOrder()
    ensures IsPermutation([0], 1)
  {
    assert Range(1) == [0];
  }

  lemma ZerosOfOne()
    ensures Zeros(Integers(), 1) == [Dim(0, 0)]
  {
  }

  lemma OneTerm(term: (Point<Bits64>, nat) -> Bits64)
    requires Batches([Batch(0, 1)], [[OnlyPoint()]])
    ensures Flatten(AllTerms(term, [[OnlyPoint()]], [Batch(0, 1)])) == [Dim(0, term(OnlyPoint(), 0))]
  {
    var data, b := [OnlyPoint()], Batch(0, 1);
    BatchTermsNone(term, data, 0);
    assert BatchTerms(term, data, 0, 1) == [] + FirstTerms(term, OnlyPoint(), 1);
    FlattenOne(AllTerms(term, [data], [b]));
  }

  lemma AddsOne(a: Bits64, x: Bits64, after: seq<Dim<Bits64>>)
    requires Adds(Integers(), [Dim(0, a)], [Dim(0, x)], after)
    ensures after == [Dim(0, AddBits64(a, x))]
  {
    SingleAgg(ByKey(Integers()), Dim(0, x), 0);
  }

  lemma DoublingWraps(x: nat)
    ensures (x % SIZE_LIMIT + x % SIZE_LIMIT) % SIZE_LIMIT == (2 * x) % SIZE_LIMIT
  {
  }

  lemma OneShard<N>(shards: seq<seq<Dim<N>>>)
    requires IsModel(shards, 1, 1)
    ensures shards == [Flatten(shards)]
  {
    FlattenOne(shards);
  }
}
