/** select_top10 of examples/pr.cc for any k, and its two-phase use: once on every partition, once on
    the gathered results. */
module TopRanks {
  import opened Sequences
  import opened Shuffle

  // ---------- the specification ----------

  function Ranks<V>(xs: seq<V>, rank: V -> real): (rs: seq<real>)
    ensures |rs| == |xs| && forall i :: 0 <= i < |xs| ==> rs[i] == rank(xs[i])
  {
    seq(|xs|, i requires 0 <= i < |xs| => rank(xs[i]))
  }

  function Min(a: nat, b: nat): nat { if a < b then a else b }

  /** `top` holds k of the values of `all`, or all if there are fewer, and nothing larger is left out. */
  ghost predicate IsTop(top: multiset<real>, all: multiset<real>, k: nat) {
    top <= all && |top| == Min(k, |all|) && forall x, y :: x in top && y in all - top ==> y <= x
  }

  ghost predicate AscendingRanks(xs: seq<real>) {
    forall i, j :: 0 <= i < j < |xs| ==> xs[i] <= xs[j]
  }

  /** `ret` lists the k top ranked records of `data`, the least of them first. */
  ghost predicate ListsTop<V>(ret: seq<V>, data: seq<V>, rank: V -> real, k: nat) {
    && multiset(ret) <= multiset(data)
    && IsTop(multiset(Ranks(ret, rank)), multiset(Ranks(data, rank)), k)
    && AscendingRanks(Ranks(ret, rank))
  }

  // ---------- one partition ----------

  /** The records at the positions in `q`, in order. */
  function Chosen<V>(data: seq<V>, q: set<nat>, n: nat): seq<V>
    requires n <= |data|
  {
    if n == 0 then [] else Chosen(data, q, n - 1) + if n - 1 in q then [data[n - 1]] else []
  }

  function Others<V>(data: seq<V>, q: set<nat>, n: nat): seq<V>
    requires n <= |data|
  {
    if n == 0 then [] else Others(data, q, n - 1) + if n - 1 in q then [] else [data[n - 1]]
  }

  /** No record before n outside the queue outranks one in the queue. */
  ghost predicate Holds<V>(data: seq<V>, rank: V -> real, q: set<nat>, n: nat, k: nat) {
    && n <= |data| && (forall i :: i in q ==> i < n)
    && |q| == Min(k, n) && (n <= k ==> forall j: nat :: j < n ==> j in q)
    && forall i, j: nat :: i in q && j < n && j !in q ==> rank(data[j]) <= rank(data[i])
  }

  /** What the priority queue may return as its top: ties are broken arbitrarily. */
  ghost predicate IsLeast<V>(data: seq<V>, rank: V -> real, q: set<nat>, top: nat) {
    top in q && top < |data| && forall i :: i in q ==> i < |data| && rank(data[top]) <= rank(data[i])
  }

  method Top<V>(data: seq<V>, rank: V -> real, q: set<nat>) returns (top: nat)
    requires q != {} && forall i :: i in q ==> i < |data|
    ensures IsLeast(data, rank, q, top)
  {
    ghost var least := LeastExists(q, (i: nat) => if i < |data| then rank(data[i]) else 0.0);
    assert IsLeast(data, rank, q, least);
    top :| top in q && forall i :: i in q ==> rank(data[top]) <= rank(data[i]);
  }

  method SelectTop<V>(data: seq<V>, rank: V -> real, k: nat) returns (ret: seq<V>)
    requires k > 0
    ensures ListsTop(ret, data, rank, k)
  {
    hide Holds, Draining, Chosen, ListsTop;
    var queue: set<nat>, idx := {}, 0;
    HoldsNothing(data, rank, k);
    while idx < |data|
      invariant idx <= |data| && Holds(data, rank, queue, idx, k)
    {
      HoldsInRange(data, rank, queue, idx, k);
      if |queue| < k {
        HoldsPush(data, rank, queue, idx, k);
        queue := queue + {idx};
      } else {
        var top := Top(data, rank, queue);
        HoldsCompare(data, rank, queue, idx, k, top);
        if rank(data[idx]) > rank(data[top]) {
          queue := queue - {top} + {idx};
        }
      }
      idx := idx + 1;
    }
    HoldsInRange(data, rank, queue, idx, k);
    ghost var full := queue;
    ret := [];
    DrainStart(data, rank, full);
    while queue != {}
      invariant Draining(data, rank, full, queue, ret)
      decreases |queue|
    {
      DrainInRange(data, rank, full, queue, ret);
      var top := Top(data, rank, queue);
      DrainStep(data, rank, full, queue, ret, top);
      ret := ret + [data[top]];
      queue := queue - {top};
    }
    DrainEnd(data, rank, full, k, ret);
  }

  lemma HoldsNothing<V>(data: seq<V>, rank: V -> real, k: nat)
    ensures Holds(data, rank, {}, 0, k)
  {
  }

  lemma HoldsInRange<V>(data: seq<V>, rank: V -> real, q: set<nat>, n: nat, k: nat)
    requires Holds(data, rank, q, n, k)
    ensures |q| == Min(k, n) && forall i :: i in q ==> i < n <= |data|
  {
  }

  lemma HoldsPush<V>(data: seq<V>, rank: V -> real, q: set<nat>, n: nat, k: nat)
    requires Holds(data, rank, q, n, k) && n < |data| && |q| < k
    ensures Holds(data, rank, q + {n}, n + 1, k)
  {
    assert n !in q;
  }

  lemma HoldsCompare<V>(data: seq<V>, rank: V -> real, q: set<nat>, n: nat, k: nat, top: nat)
    requires Holds(data, rank, q, n, k) && n < |data| && |q| >= k > 0 && IsLeast(data, rank, q, top)
    ensures Holds(data, rank, if rank(data[n]) > rank(data[top]) then q - {top} + {n} else q, n + 1, k)
  {
    assert n !in q;
    Replaced(q, top, n);
  }

  /** `ret` lists, in ascending order, the records popped so far; the rest is still in the queue. */
  ghost predicate Draining<V>(data: seq<V>, rank: V -> real, full: set<nat>, q: set<nat>, ret: seq<V>) {
    && (forall i :: i in q ==> i < |data|)
    && multiset(ret) + multiset(Chosen(data, q, |data|)) == multiset(Chosen(data, full, |data|))
    && AscendingRanks(Ranks(ret, rank))
    && forall x, i :: x in ret && i in q ==> rank(x) <= rank(data[i])
  }

  lemma DrainStart<V>(data: seq<V>, rank: V -> real, full: set<nat>)
    requires forall i :: i in full ==> i < |data|
    ensures Draining(data, rank, full, full, [])
  {
    hide Chosen;
  }

  lemma DrainInRange<V>(data: seq<V>, rank: V -> real, full: set<nat>, q: set<nat>, ret: seq<V>)
    requires Draining(data, rank, full, q, ret)
    ensures forall i :: i in q ==> i < |data|
  {
  }

  lemma DrainStep<V>(data: seq<V>, rank: V -> real, full: set<nat>, q: set<nat>, ret: seq<V>, top: nat)
    requires Draining(data, rank, full, q, ret) && IsLeast(data, rank, q, top)
    ensures Draining(data, rank, full, q - {top}, ret + [data[top]])
  {
    hide Chosen, Ranks, AscendingRanks;
    ChosenWithout(data, q, top, |data|);
    AscendingSnoc(ret, data[top], rank);
    SnocCount(ret, data[top]);
  }

  lemma DrainEnd<V>(data: seq<V>, rank: V -> real, full: set<nat>, k: nat, ret: seq<V>)
    requires Draining(data, rank, full, {}, ret) && Holds(data, rank, full, |data|, k)
    ensures ListsTop(ret, data, rank, k)
  {
    hide Chosen, Ranks, AscendingRanks, Holds, IsTop;
    ChosenNone(data, |data|);
    HoldsIsTop(data, rank, full, k, ret);
  }

  lemma SnocCount<V>(xs: seq<V>, x: V)
    ensures multiset(xs + [x]) == multiset(xs) + multiset{x}
  {
  }

  lemma Replaced(q: set<nat>, top: nat, idx: nat)
    requires top in q && idx !in q
    ensures |q - {top} + {idx}| == |q|
  {
  }

  lemma AscendingSnoc<V>(xs: seq<V>, x: V, rank: V -> real)
    requires AscendingRanks(Ranks(xs, rank)) && forall y :: y in xs ==> rank(y) <= rank(x)
    ensures AscendingRanks(Ranks(xs + [x], rank))
  {
    forall i | 0 <= i < |xs| ensures Ranks(xs, rank)[i] <= rank(x) {
      assert xs[i] in xs;
    }
  }

  lemma {:induction false} ChosenNone<V>(data: seq<V>, n: nat)
    requires n <= |data|
    ensures Chosen(data, {}, n) == []
  {
    if n > 0 {
      ChosenNone(data, n - 1);
    }
  }

  lemma {:induction false} ChosenWithout<V>(data: seq<V>, q: set<nat>, x: nat, n: nat)
    requires x in q && n <= |data|
    ensures multiset(Chosen(data, q, n)) ==
              multiset(Chosen(data, q - {x}, n)) + if x < n then multiset{data[x]} else multiset{}
  {
    hide Chosen, Others;
    if n == 0 {
      ChosenZero(data, q);
      ChosenZero(data, q - {x});
    } else {
      ChosenWithout(data, q, x, n - 1);
      ChosenLast(data, q, n);
      ChosenLast(data, q - {x}, n);
    }
  }

  lemma ChosenZero<V>(data: seq<V>, q: set<nat>)
    ensures Chosen(data, q, 0) == [] == Others(data, q, 0)
  {
  }

  lemma ChosenLast<V>(data: seq<V>, q: set<nat>, n: nat)
    requires 0 < n <= |data|
    ensures multiset(Chosen(data, q, n)) ==
              multiset(Chosen(data, q, n - 1)) + if n - 1 in q then multiset{data[n - 1]} else multiset{}
    ensures multiset(Others(data, q, n)) ==
              multiset(Others(data, q, n - 1)) + if n - 1 in q then multiset{} else multiset{data[n - 1]}
  {
    var c, o := Chosen(data, q, n - 1), Others(data, q, n - 1);
    if n - 1 in q {
      assert Chosen(data, q, n) == c + [data[n - 1]] && Others(data, q, n) == o + [];
    } else {
      assert Chosen(data, q, n) == c + [] && Others(data, q, n) == o + [data[n - 1]];
    }
  }

  lemma {:induction false} ChosenAndOthers<V>(data: seq<V>, q: set<nat>, n: nat)
    requires n <= |data|
    ensures multiset(Chosen(data, q, n)) + multiset(Others(data, q, n)) == multiset(data[..n])
  {
    hide Chosen, Others;
    if n == 0 {
      ChosenZero(data, q);
    } else {
      ChosenAndOthers(data, q, n - 1);
      ChosenLast(data, q, n);
      assert data[..n] == data[..n - 1] + [data[n - 1]];
    }
  }

  lemma {:induction false} ChosenFrom<V>(data: seq<V>, q: set<nat>, n: nat, x: V)
    requires n <= |data|
    ensures x in Chosen(data, q, n) ==> exists i: nat :: i < n && i in q && data[i] == x
    ensures x in Others(data, q, n) ==> exists i: nat :: i < n && i !in q && data[i] == x
  {
    if n > 0 {
      ChosenFrom(data, q, n - 1, x);
    }
  }

  lemma {:induction false} ChosenSize<V>(data: seq<V>, q: set<nat>, n: nat)
    requires n <= |data| && forall i :: i in q ==> i < n
    ensures |Chosen(data, q, n)| == |q|
  {
    if n > 0 {
      var rest := q - {n - 1};
      ChosenSize(data, rest, n - 1);
      ChosenBelow(data, q, n - 1);
    }
  }

  lemma {:induction false} ChosenBelow<V>(data: seq<V>, q: set<nat>, n: nat)
    requires n < |data|
    ensures Chosen(data, q, n) == Chosen(data, q - {n}, n)
  {
    ChosenSame(data, q, q - {n}, n);
  }

  lemma {:induction false} ChosenSame<V>(data: seq<V>, q: set<nat>, r: set<nat>, n: nat)
    requires n <= |data| && forall i: nat :: i < n ==> (i in q <==> i in r)
    ensures Chosen(data, q, n) == Chosen(data, r, n)
  {
    if n > 0 {
      ChosenSame(data, q, r, n - 1);
    }
  }

  lemma HoldsIsTop<V>(data: seq<V>, rank: V -> real, q: set<nat>, k: nat, ret: seq<V>)
    requires Holds(data, rank, q, |data|, k) && multiset(ret) == multiset(Chosen(data, q, |data|))
    ensures multiset(ret) <= multiset(data)
    ensures IsTop(multiset(Ranks(ret, rank)), multiset(Ranks(data, rank)), k)
  {
    hide Chosen, Others, Ranks, IsTop;
    var n := |data|;
    var chosen, others := Chosen(data, q, n), Others(data, q, n);
    ChosenAndOthers(data, q, n);
    assert data[..n] == data;
    ChosenSize(data, q, n);
    forall x, y | x in chosen && y in others ensures rank(y) <= rank(x) {
      ChosenFrom(data, q, n, x);
      ChosenFrom(data, q, n, y);
    }
    SplitIsTop(chosen, others, data, rank, k);
    RanksPermute(ret, chosen, rank);
  }

  lemma SplitIsTop<V>(top: seq<V>, others: seq<V>, data: seq<V>, rank: V -> real, k: nat)
    requires multiset(top) + multiset(others) == multiset(data)
    requires |top| == Min(k, |data|) && forall x, y :: x in top && y in others ==> rank(y) <= rank(x)
    ensures IsTop(multiset(Ranks(top, rank)), multiset(Ranks(data, rank)), k)
  {
    hide IsTop, Ranks;
    var a, b := multiset(Ranks(top, rank)), multiset(Ranks(others, rank));
    assert multiset(top + others) == multiset(data);
    RanksPermute(top + others, data, rank);
    RanksConcat(top, others, rank);
    forall x, y | x in a && y in b ensures y <= x {
      RankOfRecord(top, rank, x);
      RankOfRecord(others, rank, y);
    }
    RanksLength(top, rank);
    RanksLength(data, rank);
    SumIsTop(a, b, k);
  }

  lemma RanksConcat<V>(a: seq<V>, b: seq<V>, rank: V -> real)
    ensures multiset(Ranks(a + b, rank)) == multiset(Ranks(a, rank)) + multiset(Ranks(b, rank))
  {
    assert Ranks(a + b, rank) == Ranks(a, rank) + Ranks(b, rank);
  }

  lemma RankOfRecord<V>(xs: seq<V>, rank: V -> real, x: real)
    requires x in multiset(Ranks(xs, rank))
    ensures exists v :: v in xs && rank(v) == x
  {
    var i :| 0 <= i < |xs| && Ranks(xs, rank)[i] == x;
    assert xs[i] in xs;
  }

  lemma RanksLength<V>(xs: seq<V>, rank: V -> real)
    ensures |multiset(Ranks(xs, rank))| == |xs|
  {
  }

  lemma SumIsTop(a: multiset<real>, b: multiset<real>, k: nat)
    requires |a| == Min(k, |a + b|) && forall x, y :: x in a && y in b ==> y <= x
    ensures IsTop(a, a + b, k)
  {
    assert a + b - a == b;
  }

  lemma {:induction false} RanksPermute<V>(xs: seq<V>, ys: seq<V>, rank: V -> real)
    requires multiset(xs) == multiset(ys)
    ensures multiset(Ranks(xs, rank)) == multiset(Ranks(ys, rank))
  {
    if xs == [] {
      assert |multiset(ys)| == 0;
    } else {
      var l, r := SplitAtHead(xs, ys);
      RanksPermute(xs[1..], l + r, rank);
      RanksPull([], xs[0], xs[1..], rank);
      RanksPull(l, xs[0], r, rank);
    }
  }

  lemma RanksPull<V>(l: seq<V>, x: V, r: seq<V>, rank: V -> real)
    ensures multiset(Ranks(l + ([x] + r), rank)) == multiset{rank(x)} + multiset(Ranks(l + r, rank))
  {
    hide Ranks;
    RanksConcat(l, [x] + r, rank);
    RanksConcat([x], r, rank);
    RanksConcat(l, r, rank);
    assert Ranks([x], rank) == [rank(x)] by { RanksOne(x, rank); }
  }

  lemma RanksOne<V>(x: V, rank: V -> real)
    ensures Ranks([x], rank) == [rank(x)]
  {
  }

  // ---------- the top is unique ----------

  lemma TopUnique(a: multiset<real>, b: multiset<real>, all: multiset<real>, k: nat)
    requires IsTop(a, all, k) && IsTop(b, all, k)
    ensures a == b
  {
    if a != b {
      var x := Surplus(a, b);
      var y := Surplus(b, a);
      Outranks(a, b, all, k, x, y);
      Outranks(b, a, all, k, y, x);
    }
  }

  lemma Outranks(a: multiset<real>, b: multiset<real>, all: multiset<real>, k: nat, x: real, y: real)
    requires IsTop(a, all, k) && IsTop(b, all, k) && a[x] > b[x] && b[y] > a[y]
    ensures y < x
  {
    assert x in a && y in all - a;
  }

  lemma Surplus(a: multiset<real>, b: multiset<real>) returns (x: real)
    requires |a| == |b| && a != b
    ensures a[x] > b[x]
  {
    if forall z :: a[z] <= b[z] {
      SameSize(a, b);
    }
    x :| a[x] > b[x];
  }

  lemma SameSize(a: multiset<real>, b: multiset<real>)
    requires |a| == |b| && a <= b
    ensures a == b
  {
    assert b == a + (b - a);
    assert |b - a| == 0;
  }

  lemma {:induction false} AscendingUnique(a: seq<real>, b: seq<real>)
    requires AscendingRanks(a) && AscendingRanks(b) && multiset(a) == multiset(b)
    ensures a == b
  {
    SameLength(a, b);
    if a != [] {
      LeastFirst(a, b);
      LeastFirst(b, a);
      HeadTail(a);
      HeadTail(b);
      Cancel(multiset{a[0]}, multiset(a[1..]), multiset(b[1..]));
      AscendingUnique(a[1..], b[1..]);
    }
  }

  lemma SameLength(a: seq<real>, b: seq<real>)
    requires multiset(a) == multiset(b)
    ensures |a| == |b|
  {
    assert |multiset(a)| == |a| && |multiset(b)| == |b|;
  }

  lemma LeastFirst(a: seq<real>, b: seq<real>)
    requires AscendingRanks(a) && multiset(a) == multiset(b) && a != [] && b != []
    ensures a[0] <= b[0]
  {
    assert b[0] in multiset(b);
    var i :| 0 <= i < |a| && a[i] == b[0];
  }

  lemma HeadTail(a: seq<real>)
    requires a != []
    ensures a == [a[0]] + a[1..] && multiset(a) == multiset{a[0]} + multiset(a[1..])
  {
    assert multiset([a[0]] + a[1..]) == multiset([a[0]]) + multiset(a[1..]);
  }

  lemma Cancel(a: multiset<real>, b: multiset<real>, c: multiset<real>)
    requires a + b == a + c
    ensures b == c
  {
    assert a + b - a == b;
    assert a + c - a == c;
  }

  /** Two lists of the top k of the same records show the same ranks in the same order. */
  lemma SameTopRanks<V>(a: seq<V>, b: seq<V>, data: seq<V>, rank: V -> real, k: nat)
    requires ListsTop(a, data, rank, k) && ListsTop(b, data, rank, k)
    ensures Ranks(a, rank) == Ranks(b, rank)
  {
    TopUnique(multiset(Ranks(a, rank)), multiset(Ranks(b, rank)), multiset(Ranks(data, rank)), k);
    AscendingUnique(Ranks(a, rank), Ranks(b, rank));
  }

  // ---------- two phases ----------

  /** Replacing a part by its top k loses nothing that matters for the top k of the whole. */
  lemma TopThroughPart(t: multiset<real>, rest: multiset<real>, part: multiset<real>, top: multiset<real>, k: nat)
    requires IsTop(top, part, k) && IsTop(t, rest + top, k)
    ensures IsTop(t, rest + part, k)
  {
    assert t <= rest + top <= rest + part;
    assert |rest + top| == |rest| + |top| && |rest + part| == |rest| + |part|;
    forall x, y | x in t && y in rest + part - t ensures y <= x {
      if y !in rest + top - t {
        assert y in part - top;
        PartSmaller(part, top);
        NoneBelow(t, rest, part, top, k, x, y);
      }
    }
  }

  lemma PartSmaller(part: multiset<real>, top: multiset<real>)
    requires top <= part && part - top != multiset{}
    ensures |top| < |part|
  {
    assert part == top + (part - top);
  }

  lemma NoneBelow(t: multiset<real>, rest: multiset<real>, part: multiset<real>, top: multiset<real>, k: nat, x: real, y: real)
    requires IsTop(top, part, k) && IsTop(t, rest + top, k)
    requires |top| < |part| && x in t && y in part - top
    ensures y <= x
  {
    if forall z :: top[z] <= t[z] {
      SameSize(top, t);
      assert x in top;
    } else {
      var z :| top[z] > t[z];
      assert z in top && z in rest + top - t;
    }
  }

  function AllRanks<V>(parts: seq<seq<V>>, rank: V -> real): multiset<real> {
    if parts == [] then multiset{} else multiset(Ranks(parts[0], rank)) + AllRanks(parts[1..], rank)
  }

  lemma {:induction false} AllRanksFlatten<V>(parts: seq<seq<V>>, rank: V -> real)
    ensures AllRanks(parts, rank) == multiset(Ranks(Flatten(parts), rank))
  {
    if parts != [] {
      AllRanksFlatten(parts[1..], rank);
      var a, b := parts[0], Flatten(parts[1..]);
      assert Ranks(a + b, rank) == Ranks(a, rank) + Ranks(b, rank);
    }
  }

  lemma {:induction false} TopThroughParts<V>(t: multiset<real>, rest: multiset<real>, parts: seq<seq<V>>,
                                              tops: seq<seq<V>>, rank: V -> real, k: nat)
    requires |tops| == |parts| && forall i :: 0 <= i < |parts| ==> ListsTop(tops[i], parts[i], rank, k)
    requires IsTop(t, rest + AllRanks(tops, rank), k)
    ensures IsTop(t, rest + AllRanks(parts, rank), k)
    decreases |parts|
  {
    hide IsTop, Ranks, AscendingRanks;
    if parts != [] {
      var top, part := multiset(Ranks(tops[0], rank)), multiset(Ranks(parts[0], rank));
      var later := AllRanks(tops[1..], rank);
      assert rest + AllRanks(tops, rank) == (rest + later) + top;
      TopThroughPart(t, rest + later, part, top, k);
      assert (rest + later) + part == (rest + part) + later;
      TopThroughParts(t, rest + part, parts[1..], tops[1..], rank, k);
      assert (rest + part) + AllRanks(parts[1..], rank) == rest + AllRanks(parts, rank);
    }
  }

  lemma SubmultisetFits<V>(w: Wire<V>, xs: seq<V>, ys: seq<V>)
    requires multiset(xs) <= multiset(ys) && AllFit(w, ys)
    ensures AllFit(w, xs)
  {
    forall x | x in xs ensures w.fits(x) {
      assert x in multiset(xs);
      assert x in multiset(ys);
    }
  }

  /** Selecting on each partition, gathering everything in one partition and selecting again lists the
      top k of all records: for every split, every message order and every way to break ties. */
  method TopOfAll<V(!new)>(w: Wire<V>, rank: V -> real, k: nat, parts: seq<seq<V>>, order: seq<seq<nat>>)
    returns (ret: seq<V>)
    requires k > 0 && Faithful(w) && PartsFit(w, parts)
    requires |order| == 1 && IsPermutation(order[0], |parts|)
    ensures ListsTop(ret, Flatten(parts), rank, k)
  {
    hide IsTop, Ranks, Faithful, Flatten, AscendingRanks;
    var tops := [];
    for i := 0 to |parts|
      invariant |tops| == i && forall j :: 0 <= j < i ==> ListsTop(tops[j], parts[j], rank, k)
      invariant PartsFit(w, tops)
    {
      var top := SelectTop(parts[i], rank, k);
      SubmultisetFits(w, top, parts[i]);
      tops := tops + [top];
    }
    var route := (x: V) => 0 as nat;
    var gathered := PartitionBy(w, route, 1, tops, order);
    ret := SelectTop(gathered[0], rank, k);
    AllRouted(Flatten(tops), route);
    TopsAreRecords(parts, tops, rank, k);
    RanksPermute(gathered[0], Flatten(tops), rank);
    AllRanksFlatten(tops, rank);
    AllRanksFlatten(parts, rank);
    ghost var t := multiset(Ranks(ret, rank));
    assert multiset{} + AllRanks(tops, rank) == AllRanks(tops, rank);
    TopThroughParts(t, multiset{}, parts, tops, rank, k);
    assert multiset{} + AllRanks(parts, rank) == AllRanks(parts, rank);
  }

  lemma {:induction false} TopsAreRecords<V>(parts: seq<seq<V>>, tops: seq<seq<V>>, rank: V -> real, k: nat)
    requires |tops| == |parts| && forall i :: 0 <= i < |parts| ==> ListsTop(tops[i], parts[i], rank, k)
    ensures multiset(Flatten(tops)) <= multiset(Flatten(parts))
    decreases |parts|
  {
    hide IsTop, Ranks, AscendingRanks;
    if parts != [] {
      TopsAreRecords(parts[1..], tops[1..], rank, k);
      assert multiset(tops[0]) <= multiset(parts[0]);
    }
  }
}
