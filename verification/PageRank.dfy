/** The job of examples/pr.cc: the graph and its ranks partitioned alike, the walk that pairs every
    vertex with its rank, the loop that reduces the updates, and the selection at the end.

    Ranks are any numbers that add; what a vertex passes on is an arbitrary function of its rank and its
    degree. */
module PageRank {
  import opened Codec
  import opened DenseModel
  import opened Grouping
  import opened Sequences
  import opened Shuffle
  import TopRanks

  datatype Vertex = Vertex(id: nat, adj: seq<nat>)

  /** 100.0, 0.2, and the rank over the degree times 0.8. */
  datatype Weights<!N> = Weights(first: N, base: N, share: (N, nat) -> N)

  // ---------- how vertices travel ----------

  function PackInt(k: nat): Value { Raw(ToBytes(k, 4)) }

  function UnpackInt(v: Value): nat {
    if v.Raw? then FromBytes(v.bytes) else 0
  }

  function PackVertex(v: Vertex): Value {
    PairV(PackInt(v.id), ListV(seq(|v.adj|, i requires 0 <= i < |v.adj| => PackInt(v.adj[i]))))
  }

  function UnpackVertex(v: Value): Vertex {
    if v.PairV? && v.second.ListV? then
      var xs := v.second.elems;
      Vertex(UnpackInt(v.first), seq(|xs|, i requires 0 <= i < |xs| => UnpackInt(xs[i])))
    else Vertex(0, [])
  }

  predicate VertexFits(v: Vertex) {
    v.id < KEY_LIMIT && |v.adj| < SIZE_LIMIT && forall i :: 0 <= i < |v.adj| ==> v.adj[i] < KEY_LIMIT
  }

  /** `bin_stream << v.id_ << *(v.adj_)` */
  function VertexWire(): Wire<Vertex> {
    Wire(PairOf(Fixed(4), VecOf(Fixed(4))), PackVertex, UnpackVertex, VertexFits)
  }

  lemma VertexWireFaithful()
    ensures Faithful(VertexWire())
  {
    hide ToBytes, FromBytes;
    forall v | VertexFits(v) ensures HasType(VertexWire().t, PackVertex(v)) && UnpackVertex(PackVertex(v)) == v {
      KeyTravels(v.id);
      forall i | 0 <= i < |v.adj| ensures UnpackInt(PackInt(v.adj[i])) == v.adj[i] {
        KeyTravels(v.adj[i]);
      }
      var back := UnpackVertex(PackVertex(v));
      assert back.adj == v.adj;
    }
  }

  // ---------- what a vertex sends ----------

  function RankIn<N>(num: Numbers<N>, ranks: seq<Dim<N>>, k: nat): N {
    var r := Agg(ByKey(num), ranks, k);
    if r.Some? then r.value.val else num.zero
  }

  /** Its share to each neighbour, behind the base for itself. */
  function Emitted<N>(w: Weights<N>, v: Vertex, rank: N): (xs: seq<Dim<N>>)
    ensures |xs| == |v.adj| + 1 && xs[0] == Dim(v.id, w.base)
    ensures forall i :: 0 <= i < |v.adj| ==> xs[i + 1] == Dim(v.adj[i], w.share(rank, |v.adj|))
  {
    [Dim(v.id, w.base)] + seq(|v.adj|, i requires 0 <= i < |v.adj| => Dim(v.adj[i], w.share(rank, |v.adj|)))
  }

  /** The ranks as a table. */
  function RankTable<N>(num: Numbers<N>, ranks: seq<Dim<N>>): nat -> N {
    (k: nat) => RankIn(num, ranks, k)
  }

  function FirstTable<N>(w: Weights<N>): nat -> N {
    (k: nat) => w.first
  }

  /** What all of `data` send when `rankOf` gives the ranks. */
  function Updates<N>(w: Weights<N>, data: seq<Vertex>, rankOf: nat -> N): seq<Dim<N>> {
    if data == [] then [] else Emitted(w, data[0], rankOf(data[0].id)) + Updates(w, data[1..], rankOf)
  }

  lemma UpdatesNone<N>(w: Weights<N>, rankOf: nat -> N)
    ensures Updates(w, [], rankOf) == []
  {
  }

  lemma {:induction false} UpdatesConcat<N>(w: Weights<N>, a: seq<Vertex>, b: seq<Vertex>, rankOf: nat -> N)
    ensures Updates(w, a + b, rankOf) == Updates(w, a, rankOf) + Updates(w, b, rankOf)
  {
    if a == [] {
      assert a + b == b;
    } else {
      assert (a + b)[1..] == a[1..] + b;
      UpdatesConcat(w, a[1..], b, rankOf);
    }
  }

  lemma {:induction false} UpdatesPermute<N>(w: Weights<N>, a: seq<Vertex>, b: seq<Vertex>, rankOf: nat -> N)
    requires multiset(a) == multiset(b)
    ensures multiset(Updates(w, a, rankOf)) == multiset(Updates(w, b, rankOf))
  {
    hide Updates;
    if a == [] {
      assert |multiset(b)| == 0;
    } else {
      var l, r := SplitAtHead(a, b);
      UpdatesPermute(w, a[1..], l + r, rankOf);
      UpdatesPull(w, [], a[0], a[1..], rankOf);
      UpdatesPull(w, l, a[0], r, rankOf);
    }
  }

  lemma UpdatesPull<N>(w: Weights<N>, l: seq<Vertex>, v: Vertex, r: seq<Vertex>, rankOf: nat -> N)
    ensures multiset(Updates(w, l + ([v] + r), rankOf)) ==
              multiset(Emitted(w, v, rankOf(v.id))) + multiset(Updates(w, l + r, rankOf))
  {
    hide Emitted;
    UpdatesConcat(w, l, [v] + r, rankOf);
    UpdatesConcat(w, l, r, rankOf);
    assert ([v] + r)[1..] == r;
  }

  lemma {:induction false} SameUpdates<N>(w: Weights<N>, data: seq<Vertex>, f: nat -> N, g: nat -> N)
    requires forall i :: 0 <= i < |data| ==> f(data[i].id) == g(data[i].id)
    ensures Updates(w, data, f) == Updates(w, data, g)
  {
    if data != [] {
      SameUpdates(w, data[1..], f, g);
    }
  }

  lemma {:induction false} UpdatesFlatten<N>(w: Weights<N>, graph: seq<seq<Vertex>>, updates: seq<seq<Dim<N>>>, rankOf: nat -> N)
    requires |updates| == |graph| && forall p :: 0 <= p < |graph| ==> updates[p] == Updates(w, graph[p], rankOf)
    ensures Flatten(updates) == Updates(w, Flatten(graph), rankOf)
    decreases |graph|
  {
    hide Updates;
    if graph == [] {
      UpdatesNone(w, rankOf);
    } else {
      UpdatesFlatten(w, graph[1..], updates[1..], rankOf);
      UpdatesConcat(w, graph[0], Flatten(graph[1..]), rankOf);
    }
  }

  lemma {:induction false} UpdatesHaveId<N>(w: Weights<N>, data: seq<Vertex>, rankOf: nat -> N, v: Vertex)
    requires v in data
    ensures HasKey(Updates(w, data, rankOf), v.id)
  {
    var head: seq<Dim<N>>, rest: seq<Dim<N>> := Emitted(w, data[0], rankOf(data[0].id)), Updates(w, data[1..], rankOf);
    if v == data[0] {
      assert (head + rest)[0].key == v.id;
    } else {
      UpdatesHaveId(w, data[1..], rankOf, v);
      var i :| 0 <= i < |rest| && rest[i].key == v.id;
      assert (head + rest)[|head| + i].key == v.id;
    }
  }

  lemma {:induction false} UpdatesFit<N(!new)>(w: Weights<N>, data: seq<Vertex>, rankOf: nat -> N)
    requires forall v :: v in data ==> VertexFits(v)
    ensures forall i :: 0 <= i < |Updates(w, data, rankOf)| ==> Updates(w, data, rankOf)[i].key < KEY_LIMIT
  {
    if data != [] {
      assert VertexFits(data[0]);
      UpdatesFit(w, data[1..], rankOf);
      var head: seq<Dim<N>> := Emitted(w, data[0], rankOf(data[0].id));
      forall i | 0 <= i < |head| ensures head[i].key < KEY_LIMIT {
        assert i > 0 ==> head[(i - 1) + 1] == Dim(data[0].adj[i - 1], w.share(rankOf(data[0].id), |data[0].adj|));
      }
    }
  }

  // ---------- pairing vertices with ranks ----------

  function FirstRanks<N>(w: Weights<N>, data: seq<Vertex>): (xs: seq<Dim<N>>)
    ensures |xs| == |data| && forall i :: 0 <= i < |data| ==> xs[i] == Dim(data[i].id, w.first)
  {
    seq(|data|, i requires 0 <= i < |data| => Dim(data[i].id, w.first))
  }

  ghost predicate Sorted(data: seq<Vertex>) {
    forall i, j :: 0 <= i < j < |data| ==> data[i].id <= data[j].id
  }

  ghost predicate DistinctIds(data: seq<Vertex>) {
    forall i, j :: 0 <= i < j < |data| ==> data[i].id != data[j].id
  }

  /** Every vertex has a rank. */
  ghost predicate Ranked<N>(data: seq<Vertex>, ranks: seq<Dim<N>>) {
    forall i :: 0 <= i < |data| ==> HasKey(ranks, data[i].id)
  }

  /** What is left of the ranks when the walk stops for a vertex. */
  function From<N>(ranks: seq<Dim<N>>, id: nat): seq<Dim<N>> {
    if ranks != [] && ranks[0].key < id then From(ranks[1..], id) else ranks
  }

  /** The rank found there can be used: with the check compiled in it has to be the rank of the vertex;
      without it, any rank will do. */
  predicate Matches<N>(checked: bool, rest: seq<Dim<N>>, id: nat) {
    rest != [] && (checked ==> rest[0].key == id)
  }

  /** What the walk sends; None if the check in the loop fails or the ranks come to an end. */
  function Sent<N>(checked: bool, w: Weights<N>, data: seq<Vertex>, ranks: seq<Dim<N>>): Option<seq<Dim<N>>>
    decreases |data|
  {
    if data == [] then Some([])
    else
      var rest := From(ranks, data[0].id);
      if !Matches(checked, rest, data[0].id) then None
      else
        var more := Sent(checked, w, data[1..], rest[1..]);
        if more.None? then None else Some(Emitted(w, data[0], rest[0].val) + more.value)
  }

  /** Behind what has been sent, what is still to come. */
  function Behind<N>(updates: seq<Dim<N>>, more: Option<seq<Dim<N>>>): Option<seq<Dim<N>>> {
    if more.None? then None else Some(updates + more.value)
  }

  lemma SentStep<N>(checked: bool, w: Weights<N>, data: seq<Vertex>, ranks: seq<Dim<N>>, updates: seq<Dim<N>>)
    requires data != []
    ensures var rest := From(ranks, data[0].id);
            Behind(updates, Sent(checked, w, data, ranks)) ==
              if Matches(checked, rest, data[0].id)
              then Behind(updates + Emitted(w, data[0], rest[0].val), Sent(checked, w, data[1..], rest[1..]))
              else None
  {
    hide Emitted, From;
    var rest := From(ranks, data[0].id);
    if Matches(checked, rest, data[0].id) {
      var head, more := Emitted(w, data[0], rest[0].val), Sent(checked, w, data[1..], rest[1..]);
      if more.Some? {
        assert updates + (head + more.value) == updates + head + more.value;
      }
    }
  }

  lemma SentNone<N>(checked: bool, w: Weights<N>, ranks: seq<Dim<N>>, updates: seq<Dim<N>>)
    ensures Behind(updates, Sent(checked, w, [], ranks)) == Some(updates)
  {
    assert updates + [] == updates;
  }

  lemma BehindNothing<N>(more: Option<seq<Dim<N>>>)
    ensures Behind([], more) == more
  {
    assert more.Some? ==> [] + more.value == more.value;
  }

  lemma FromStep<N>(ranks: seq<Dim<N>>, id: nat)
    ensures From(ranks, id) == if ranks != [] && ranks[0].key < id then From(ranks[1..], id) else ranks
  {
  }

  lemma MatchesHere<N>(checked: bool, ranks: seq<Dim<N>>, i: nat, id: nat)
    requires i <= |ranks|
    ensures Matches(checked, ranks[i..], id) <==> i < |ranks| && (checked ==> ranks[i].key == id)
  {
  }

  /** send_updates: `localId` walks through the ranks alongside the vertices.  The check is compiled in for
      debug builds only; reading behind the last rank throws in all builds. */
  method SendUpdates<N>(checked: bool, w: Weights<N>, data: seq<Vertex>, ranks: seq<Dim<N>>)
    returns (ok: bool, updates: seq<Dim<N>>)
    ensures Sent(checked, w, data, ranks) == if ok then Some(updates) else None
  {
    hide *;
    updates := [];
    var localId := 0;
    assert data[0..] == data && ranks[0..] == ranks;
    BehindNothing(Sent(checked, w, data, ranks));
    for i := 0 to |data|
      invariant localId <= |ranks|
      invariant Behind(updates, Sent(checked, w, data[i..], ranks[localId..])) == Sent(checked, w, data, ranks)
    {
      var v := data[i];
      assert data[i..][0] == v && data[i..][1..] == data[i + 1..];
      SentStep(checked, w, data[i..], ranks[localId..], updates);
      ghost var at := localId;
      while localId < |ranks| && ranks[localId].key < v.id
        invariant localId <= |ranks|
        invariant From(ranks[localId..], v.id) == From(ranks[at..], v.id)
      {
        FromStep(ranks[localId..], v.id);
        assert ranks[localId..][1..] == ranks[localId + 1..];
        localId := localId + 1;
      }
      FromStep(ranks[localId..], v.id);
      MatchesHere(checked, ranks, localId, v.id);
      if localId >= |ranks| || (checked && ranks[localId].key != v.id) {
        return false, [];
      }
      assert ranks[localId..][0] == ranks[localId] && ranks[localId..][1..] == ranks[localId + 1..];
      updates := updates + Emitted(w, v, ranks[localId].val);
      localId := localId + 1;
    }
    assert data[|data|..] == [];
    SentNone(checked, w, ranks[localId..], updates);
    ok := true;
  }

  /** On first ranks the walk meets every vertex, repeated or not. */
  lemma {:induction false} SentFirst<N>(checked: bool, w: Weights<N>, data: seq<Vertex>)
    ensures Sent(checked, w, data, FirstRanks(w, data)) == Some(Updates(w, data, FirstTable(w)))
  {
    if data != [] {
      var ranks := FirstRanks(w, data);
      assert ranks[1..] == FirstRanks(w, data[1..]);
      SentFirst(checked, w, data[1..]);
      hide Emitted;
      assert From(ranks, data[0].id) == ranks;
    }
  }

  lemma {:induction false} FromPlace<N>(ranks: seq<Dim<N>>, k: nat, id: nat)
    requires Increasing(ranks) && k <= |ranks|
    ensures exists m :: k <= m <= |ranks| && From(ranks[k..], id) == ranks[m..]
                     && (m < |ranks| ==> ranks[m].key >= id) && forall i :: k <= i < m ==> ranks[i].key < id
    decreases |ranks| - k
  {
    FromStep(ranks[k..], id);
    if k < |ranks| && ranks[k].key < id {
      assert ranks[k..][1..] == ranks[k + 1..];
      FromPlace(ranks, k + 1, id);
    } else {
      assert From(ranks[k..], id) == ranks[k..];
    }
  }

  lemma RestDistinct(data: seq<Vertex>)
    requires Sorted(data) && data != [] && (|data| > 1 ==> data[1].id != data[0].id)
    ensures Sorted(data[1..]) && (DistinctIds(data) <==> DistinctIds(data[1..]))
  {
    var rest := data[1..];
    assert forall i :: 0 <= i < |rest| ==> rest[i] == data[i + 1];
    assert forall i :: 1 <= i < |data| ==> data[0].id < data[i].id;
    if DistinctIds(rest) {
      forall i, j | 0 <= i < j < |data| ensures data[i].id != data[j].id {
        assert i > 0 ==> rest[i - 1].id != rest[j - 1].id;
      }
    }
  }

  lemma RestRanked<N>(data: seq<Vertex>, ranks: seq<Dim<N>>)
    requires data != [] && Ranked(data, ranks)
    ensures Ranked(data[1..], ranks)
  {
  }

  /** Behind its rank the walk does not find an id again. */
  lemma Stuck<N>(w: Weights<N>, data: seq<Vertex>, ranks: seq<Dim<N>>, k: nat)
    requires data != [] && Increasing(ranks) && 0 < k <= |ranks| && ranks[k - 1].key == data[0].id
    ensures Sent(true, w, data, ranks[k..]).None?
  {
    FromPlace(ranks, k, data[0].id);
  }

  lemma PlaceOf<N>(ranks: seq<Dim<N>>, k: nat) returns (i: nat)
    requires HasKey(ranks, k)
    ensures i < |ranks| && ranks[i].key == k
  {
    i :| 0 <= i < |ranks| && ranks[i].key == k;
  }

  lemma RankAt<N(!new)>(num: Numbers<N>, ranks: seq<Dim<N>>, i: nat)
    requires Additive(num) && Increasing(ranks) && i < |ranks|
    ensures RankIn(num, ranks, ranks[i].key) == ranks[i].val
  {
    ByKeyLawful(num);
    AscendingKeys(num, ranks);
    AscendingAgg(ByKey(num), ranks, i);
  }

  /** If all before k belong to smaller ids, the walk from k stops at the rank of the id. */
  lemma WalkTo<N>(ranks: seq<Dim<N>>, k: nat, id: nat) returns (m: nat)
    requires Increasing(ranks) && HasKey(ranks, id) && k <= |ranks| && forall i :: 0 <= i < k ==> ranks[i].key < id
    ensures k <= m < |ranks| && ranks[m].key == id && From(ranks[k..], id) == ranks[m..]
  {
    FromPlace(ranks, k, id);
    m :| k <= m <= |ranks| && From(ranks[k..], id) == ranks[m..]
         && (m < |ranks| ==> ranks[m].key >= id) && forall i :: k <= i < m ==> ranks[i].key < id;
    hide From;
    var at := PlaceOf(ranks, id);
  }

  lemma SentAt<N>(w: Weights<N>, data: seq<Vertex>, ranks: seq<Dim<N>>, k: nat, m: nat)
    requires data != [] && k <= m < |ranks| && ranks[m].key == data[0].id && From(ranks[k..], data[0].id) == ranks[m..]
    ensures Sent(true, w, data, ranks[k..]) == Behind(Emitted(w, data[0], ranks[m].val), Sent(true, w, data[1..], ranks[m + 1..]))
  {
    hide Emitted, From;
    assert ranks[m..][0] == ranks[m] && ranks[m..][1..] == ranks[m + 1..];
  }

  lemma {:induction false} SentFrom<N(!new)>(num: Numbers<N>, w: Weights<N>, data: seq<Vertex>, ranks: seq<Dim<N>>, k: nat)
    requires Additive(num) && Sorted(data) && Increasing(ranks) && Ranked(data, ranks) && k <= |ranks|
    requires forall i :: 0 <= i < k && data != [] ==> ranks[i].key < data[0].id
    ensures Sent(true, w, data, ranks[k..]).Some? <==> DistinctIds(data)
    ensures DistinctIds(data) ==> Sent(true, w, data, ranks[k..]) == Some(Updates(w, data, RankTable(num, ranks)))
    decreases |data|
  {
    if data != [] {
      var m := WalkTo(ranks, k, data[0].id);
      FirstIsLeast(data);
      BelowNext(ranks, m);
      RestRanked(data, ranks);
      hide Emitted, Additive, RankIn, From, Increasing, Ranked, Sorted, DistinctIds, Sent;
      RankAt(num, ranks, m);
      SentAt(w, data, ranks, k, m);
      if |data| > 1 && data[1].id == data[0].id {
        Stuck(w, data[1..], ranks, m + 1);
        Repeated(data);
      } else {
        RestDistinct(data);
        SentFrom(num, w, data[1..], ranks, m + 1);
      }
    }
  }

  lemma FirstIsLeast(data: seq<Vertex>)
    requires Sorted(data) && data != []
    ensures |data| > 1 ==> data[0].id <= data[1].id
  {
  }

  lemma BelowNext<N>(ranks: seq<Dim<N>>, m: nat)
    requires Increasing(ranks) && m < |ranks|
    ensures forall i :: 0 <= i <= m ==> ranks[i].key <= ranks[m].key
  {
  }

  lemma Repeated(data: seq<Vertex>)
    requires |data| > 1 && data[1].id == data[0].id
    ensures !DistinctIds(data)
  {
  }

  /** On ranks that ascend without repetition it meets every vertex exactly when no two vertices have one id,
      and then it sends what looking up the rank of each vertex sends. */
  lemma SentReduced<N(!new)>(num: Numbers<N>, w: Weights<N>, data: seq<Vertex>, ranks: seq<Dim<N>>)
    requires Additive(num) && Sorted(data) && Increasing(ranks) && Ranked(data, ranks)
    ensures Sent(true, w, data, ranks).Some? <==> DistinctIds(data)
    ensures DistinctIds(data) ==> Sent(true, w, data, ranks) == Some(Updates(w, data, RankTable(num, ranks)))
  {
    assert ranks[0..] == ranks;
    SentFrom(num, w, data, ranks, 0);
  }

  // ---------- the graph, partitioned and sorted ----------

  function VertexId(v: Vertex): nat { v.id }

  function FirstOfTwo(a: Vertex, b: Vertex): Vertex { a }

  /** The order the graph is sorted in; nothing is combined. */
  function ById(): Reducer<Vertex, nat> { Reducer(VertexId, Below, FirstOfTwo) }

  function VertexRoute(hash: nat -> nat): Vertex -> nat {
    (v: Vertex) => hash(v.id)
  }

  /** Graph partition p holds the vertices whose id hashes to p, by id. */
  ghost predicate Placed(graph: seq<seq<Vertex>>, input: seq<Vertex>, hash: nat -> nat, n: nat)
    requires n > 0
  {
    |graph| == n && forall p :: 0 <= p < n ==> Sorted(graph[p]) && HoldsRouted(graph[p], input, VertexRoute(hash), n, p)
  }

  /** PartitionBy and the sort of each partition. */
  method PlaceGraph(hash: nat -> nat, n: nat, input: seq<seq<Vertex>>, order: seq<seq<nat>>) returns (graph: seq<seq<Vertex>>)
    requires n > 0 && PartsFit(VertexWire(), input)
    requires |order| == n && forall p :: 0 <= p < n ==> IsPermutation(order[p], |input|)
    ensures Placed(graph, Flatten(input), hash, n)
  {
    hide Faithful, PartsFit, Ordered, Flatten, Routed, IsPermutation;
    VertexWireFaithful();
    ByIdOrdered();
    var parts := PartitionBy(VertexWire(), VertexRoute(hash), n, input, order);
    graph := [];
    for p := 0 to n
      invariant |graph| == p
      invariant forall q :: 0 <= q < p ==>
                  Sorted(graph[q]) && HoldsRouted(graph[q], Flatten(input), VertexRoute(hash), n, q)
    {
      var sorted := SortByKey(ById(), parts[p]);
      assert Sorted(sorted) by { ByIdSorts(sorted); }
      graph := graph + [sorted];
    }
  }

  lemma ByIdOrdered()
    ensures Ordered(ById())
  {
  }

  lemma ByIdSorts(data: seq<Vertex>)
    ensures SortedByKey(ById(), data) <==> Sorted(data)
  {
    forall i, j | 0 <= i < j < |data| && SortedByKey(ById(), data) ensures data[i].id <= data[j].id {
      assert !ById().less(ById().key(data[j]), ById().key(data[i]));
    }
  }

  lemma TwiceInMultiset<T>(xs: seq<T>, i: nat, j: nat)
    requires i < j < |xs| && xs[i] == xs[j]
    ensures multiset(xs)[xs[i]] >= 2
  {
    assert xs == xs[..j] + xs[j..];
    assert xs[i] in xs[..j] && xs[j] in xs[j..];
    assert multiset(xs)[xs[i]] == multiset(xs[..j])[xs[i]] + multiset(xs[j..])[xs[i]];
  }

  lemma OnceInMultiset(data: seq<Vertex>, v: Vertex)
    requires DistinctIds(data)
    ensures multiset(data)[v] <= 1
  {
    if v in data {
      var i :| 0 <= i < |data| && data[i] == v;
      assert data == data[..i] + [v] + data[i + 1..];
      assert v !in data[..i] && v !in data[i + 1..];
      assert multiset(data) == multiset(data[..i]) + multiset{v} + multiset(data[i + 1..]);
    }
  }

  lemma PermutationDistinct(a: seq<Vertex>, b: seq<Vertex>)
    requires DistinctIds(a) && multiset(a) == multiset(b)
    ensures DistinctIds(b)
  {
    forall i, j | 0 <= i < j < |b| ensures b[i].id != b[j].id {
      assert b[i] in multiset(a) && b[j] in multiset(a);
      var k :| 0 <= k < |a| && a[k] == b[i];
      var l :| 0 <= l < |a| && a[l] == b[j];
      if b[i] == b[j] {
        TwiceInMultiset(b, i, j);
        OnceInMultiset(a, b[i]);
      }
    }
  }

  lemma {:induction false} RoutedDistinct(data: seq<Vertex>, route: Vertex -> nat, n: nat, p: nat)
    requires n > 0 && DistinctIds(data)
    ensures DistinctIds(Routed(data, route, n, p))
  {
    if data != [] {
      var rest := data[1..];
      RoutedDistinct(rest, route, n, p);
      RoutedMembers(rest, route, n, p);
      forall v | v in rest ensures v.id != data[0].id {
        var i :| 0 <= i < |rest| && rest[i] == v;
        assert data[i + 1] == v;
      }
      var kept := Routed(rest, route, n, p);
      assert forall i :: 0 <= i < |kept| ==> kept[i] in kept;
    }
  }

  lemma InBothParts(a: seq<Vertex>, b: seq<Vertex>, u: Vertex, v: Vertex)
    requires u in a && v in b && u.id == v.id
    ensures !DistinctIds(a + b)
  {
    var k :| 0 <= k < |a| && a[k] == u;
    var l :| 0 <= l < |b| && b[l] == v;
    assert (a + b)[k].id == (a + b)[|a| + l].id;
  }

  /** Two vertices of one id are routed to one partition. */
  lemma RoutedTwice(data: seq<Vertex>, hash: nat -> nat, n: nat, i: nat, j: nat)
    requires n > 0 && i < j < |data| && data[i].id == data[j].id
    ensures !DistinctIds(Routed(data, VertexRoute(hash), n, hash(data[i].id) % n))
  {
    hide Routed, DistinctIds;
    var p, route, front, back := hash(data[i].id) % n, VertexRoute(hash), data[..j], data[j..];
    assert data == front + back && front[i] in front && back[0] in back;
    RoutedConcat(front, back, route, n, p);
    RoutedMembers(front, route, n, p);
    RoutedMembers(back, route, n, p);
    InBothParts(Routed(front, route, n, p), Routed(back, route, n, p), front[i], back[0]);
  }

  /** The partitions repeat no id exactly when the input repeats none. */
  lemma PlacedDistinct(graph: seq<seq<Vertex>>, input: seq<Vertex>, hash: nat -> nat, n: nat)
    requires n > 0 && Placed(graph, input, hash, n)
    ensures (forall p :: 0 <= p < n ==> DistinctIds(graph[p])) <==> DistinctIds(input)
  {
    hide Sorted;
    if DistinctIds(input) {
      forall p | 0 <= p < n ensures DistinctIds(graph[p]) {
        RoutedDistinct(input, VertexRoute(hash), n, p);
        PermutationDistinct(Routed(input, VertexRoute(hash), n, p), graph[p]);
      }
    } else {
      var i, j :| 0 <= i < j < |input| && input[i].id == input[j].id;
      var p := hash(input[i].id) % n;
      RoutedTwice(input, hash, n, i, j);
      assert HoldsRouted(graph[p], input, VertexRoute(hash), n, p);
      if DistinctIds(graph[p]) {
        PermutationDistinct(graph[p], Routed(input, VertexRoute(hash), n, p));
      }
    }
  }

  lemma VerticesAtHome(data: seq<Vertex>, input: seq<Vertex>, hash: nat -> nat, n: nat, p: nat)
    requires n > 0 && HoldsRouted(data, input, VertexRoute(hash), n, p)
    ensures forall i :: 0 <= i < |data| ==> hash(data[i].id) % n == p && data[i] in input
  {
    RoutedMembers(input, VertexRoute(hash), n, p);
    forall i | 0 <= i < |data| ensures hash(data[i].id) % n == p && data[i] in input {
      assert data[i] in multiset(data);
      assert data[i] in Routed(input, VertexRoute(hash), n, p);
    }
  }

  // ---------- the ranks, partitioned alike ----------

  ghost predicate AtHome<N>(ranks: seq<Dim<N>>, hash: nat -> nat, n: nat, p: nat)
    requires n > 0
  {
    forall i :: 0 <= i < |ranks| ==> hash(ranks[i].key) % n == p
  }

  /** Rank partition p is ascending, belongs there, and ranks every vertex of graph partition p. */
  ghost predicate Paired<N>(graph: seq<seq<Vertex>>, ranks: seq<seq<Dim<N>>>, hash: nat -> nat, n: nat)
    requires n > 0
  {
    && |graph| == |ranks| == n
    && forall p :: 0 <= p < n ==> Increasing(ranks[p]) && AtHome(ranks[p], hash, n, p) && Ranked(graph[p], ranks[p])
  }

  /** graph.MapPartition: a first rank for every vertex. */
  method InitRanks<N>(w: Weights<N>, data: seq<Vertex>) returns (ranks: seq<Dim<N>>)
    ensures ranks == FirstRanks(w, data)
  {
    ranks := [];
    for i := 0 to |data|
      invariant ranks == FirstRanks(w, data[..i])
    {
      ranks := ranks + [Dim(data[i].id, w.first)];
    }
    assert data[..|data|] == data;
  }

  /** Only the partition a key belongs to holds anything of it. */
  lemma {:induction false} AggAtHome<N(!new)>(num: Numbers<N>, ranks: seq<seq<Dim<N>>>, hash: nat -> nat, n: nat, first: nat, k: nat)
    requires n > 0 && Additive(num) && forall q :: 0 <= q < |ranks| ==> AtHome(ranks[q], hash, n, first + q)
    ensures Agg(ByKey(num), Flatten(ranks), k) ==
              if first <= hash(k) % n < first + |ranks| then Agg(ByKey(num), ranks[hash(k) % n - first], k) else None
    decreases |ranks|
  {
    hide Additive, Agg, ByKey, Combines;
    if ranks == [] {
      AggNone(num, k);
    } else {
      ByKeyLawful(num);
      LawfulCombines(ByKey(num));
      AggAtHome(num, ranks[1..], hash, n, first + 1, k);
      AggConcat(ByKey(num), ranks[0], Flatten(ranks[1..]), k);
      KeyInAgg(num, ranks[0], k);
      PlusNone(num, Agg(ByKey(num), ranks[0], k));
    }
  }

  lemma AggNone<N>(num: Numbers<N>, k: nat)
    ensures Agg(ByKey(num), [], k) == None
  {
  }

  lemma PlusNone<N>(num: Numbers<N>, a: Option<Dim<N>>)
    ensures Plus(ByKey(num), a, None) == a && Plus(ByKey(num), None, a) == a
  {
  }

  lemma PairedParts<N>(graph: seq<seq<Vertex>>, ranks: seq<seq<Dim<N>>>, input: seq<Vertex>, hash: nat -> nat, n: nat)
    requires n > 0 && Placed(graph, input, hash, n) && Paired(graph, ranks, hash, n)
    ensures |graph| == |ranks| == n
    ensures forall p :: 0 <= p < n ==> Sorted(graph[p]) && Increasing(ranks[p]) && Ranked(graph[p], ranks[p])
    ensures forall p :: 0 <= p < n ==> HoldsRouted(graph[p], input, VertexRoute(hash), n, p)
  {
  }

  // ---------- sending ----------

  ghost predicate AllSent<N>(w: Weights<N>, graph: seq<seq<Vertex>>, ranks: seq<seq<Dim<N>>>)
    requires |graph| == |ranks|
  {
    forall p :: 0 <= p < |graph| ==> Sent(true, w, graph[p], ranks[p]).Some?
  }

  /** graph.SharedDataMapPartitionWith(ranks, send_updates), with the check compiled in. */
  method SendAll<N>(w: Weights<N>, graph: seq<seq<Vertex>>, ranks: seq<seq<Dim<N>>>) returns (ok: bool, updates: seq<seq<Dim<N>>>)
    requires |graph| == |ranks|
    ensures ok <==> AllSent(w, graph, ranks)
    ensures ok ==> |updates| == |graph| && forall p :: 0 <= p < |graph| ==> Sent(true, w, graph[p], ranks[p]) == Some(updates[p])
  {
    hide Sent;
    updates := [];
    for p := 0 to |graph|
      invariant |updates| == p && forall q :: 0 <= q < p ==> Sent(true, w, graph[q], ranks[q]) == Some(updates[q])
    {
      var sent;
      ok, sent := SendUpdates(true, w, graph[p], ranks[p]);
      if !ok {
        return;
      }
      updates := updates + [sent];
    }
    ok := true;
  }

  /** Every partition sends what its vertices send by one table of ranks. */
  ghost predicate SentBy<N>(w: Weights<N>, graph: seq<seq<Vertex>>, updates: seq<seq<Dim<N>>>, rankOf: nat -> N) {
    |updates| == |graph| && forall p :: 0 <= p < |graph| ==> updates[p] == Updates(w, graph[p], rankOf)
  }

  /** In the first iteration nothing can go wrong. */
  lemma FirstSent<N>(w: Weights<N>, graph: seq<seq<Vertex>>, ranks: seq<seq<Dim<N>>>)
    requires |ranks| == |graph| && forall p :: 0 <= p < |graph| ==> ranks[p] == FirstRanks(w, graph[p])
    ensures AllSent(w, graph, ranks)
    ensures forall p :: 0 <= p < |graph| ==> Sent(true, w, graph[p], ranks[p]) == Some(Updates(w, graph[p], FirstTable(w)))
  {
    forall p | 0 <= p < |graph| ensures Sent(true, w, graph[p], ranks[p]) == Some(Updates(w, graph[p], FirstTable(w))) {
      SentFirst(true, w, graph[p]);
    }
  }

  /** In a later one every vertex meets its rank exactly when no id is repeated; with the ranks where they
      belong, pairing partition by partition is looking up all ranks. */
  lemma LaterSent<N(!new)>(num: Numbers<N>, w: Weights<N>, hash: nat -> nat, n: nat, input: seq<Vertex>,
                           graph: seq<seq<Vertex>>, ranks: seq<seq<Dim<N>>>)
    requires n > 0 && Additive(num) && Placed(graph, input, hash, n) && Paired(graph, ranks, hash, n)
    ensures |graph| == |ranks| && (AllSent(w, graph, ranks) <==> DistinctIds(input))
    ensures AllSent(w, graph, ranks) ==> forall p :: 0 <= p < n ==>
              Sent(true, w, graph[p], ranks[p]) == Some(Updates(w, graph[p], RankTable(num, Flatten(ranks))))
  {
    hide Additive, Sent, Updates, Increasing, Ranked, Sorted, DistinctIds, HoldsRouted, AtHome, RankTable, Flatten;
    PlacedDistinct(graph, input, hash, n);
    PairedParts(graph, ranks, input, hash, n);
    forall p | 0 <= p < n
      ensures Sent(true, w, graph[p], ranks[p]).Some? <==> DistinctIds(graph[p])
      ensures DistinctIds(graph[p]) ==>
                Sent(true, w, graph[p], ranks[p]) == Some(Updates(w, graph[p], RankTable(num, Flatten(ranks))))
    {
      SentReduced(num, w, graph[p], ranks[p]);
      LookedUp(num, w, hash, n, p, input, graph[p], ranks);
    }
  }

  lemma LookedUp<N(!new)>(num: Numbers<N>, w: Weights<N>, hash: nat -> nat, n: nat, p: nat, input: seq<Vertex>,
                          data: seq<Vertex>, ranks: seq<seq<Dim<N>>>)
    requires p < n == |ranks| && Additive(num) && HoldsRouted(data, input, VertexRoute(hash), n, p)
    requires forall q :: 0 <= q < n ==> AtHome(ranks[q], hash, n, q)
    ensures Updates(w, data, RankTable(num, ranks[p])) == Updates(w, data, RankTable(num, Flatten(ranks)))
  {
    hide Additive, Agg, Flatten, Routed, AtHome, Updates;
    VerticesAtHome(data, input, hash, n, p);
    forall i | 0 <= i < |data| ensures RankIn(num, ranks[p], data[i].id) == RankIn(num, Flatten(ranks), data[i].id) {
      AggAtHome(num, ranks, hash, n, 0, data[i].id);
    }
    SameUpdates(w, data, RankTable(num, ranks[p]), RankTable(num, Flatten(ranks)));
  }

  /** All partitions together send what all vertices of the input send. */
  lemma UpdatesTogether<N>(w: Weights<N>, hash: nat -> nat, n: nat, input: seq<Vertex>,
                           graph: seq<seq<Vertex>>, updates: seq<seq<Dim<N>>>, rankOf: nat -> N)
    requires n > 0 && Placed(graph, input, hash, n) && SentBy(w, graph, updates, rankOf)
    ensures multiset(Flatten(updates)) == multiset(Updates(w, input, rankOf))
  {
    hide Updates, Flatten, Sorted, Routed;
    UpdatesFlatten(w, graph, updates, rankOf);
    PartitionByConserves(graph, input, VertexRoute(hash), n);
    UpdatesPermute(w, Flatten(graph), input, rankOf);
  }

  // ---------- reducing ----------

  /** The reduced updates: one rank for each page, the sum of what was sent to it. */
  ghost predicate IsNext<N(!new)>(num: Numbers<N>, w: Weights<N>, input: seq<Vertex>, rankOf: nat -> N, after: seq<Dim<N>>) {
    DistinctKeys(ByKey(num), after) && SameGroups(ByKey(num), after, Updates(w, input, rankOf))
  }

  /** ReduceBy of the updates, by the hash that placed the graph. */
  method Reduce<N(!new)>(num: Numbers<N>, w: Weights<N>, wn: Wire<N>, hash: nat -> nat, n: nat, ghost input: seq<Vertex>,
                         ghost graph: seq<seq<Vertex>>, updates: seq<seq<Dim<N>>>, ghost rankOf: nat -> N, order: seq<seq<nat>>)
    returns (next: seq<seq<Dim<N>>>)
    requires n > 0 && Additive(num) && Faithful(wn) && Roomy(wn)
    requires Placed(graph, input, hash, n) && AllFit(VertexWire(), input) && SentBy(w, graph, updates, rankOf)
    requires |order| == n && forall p :: 0 <= p < n ==> IsPermutation(order[p], n)
    ensures Paired(graph, next, hash, n) && PartsFit(DimWire(wn), next)
    ensures IsNext(num, w, input, rankOf, Flatten(next))
  {
    hide *;
    SentShape(w, graph, updates, rankOf, input, hash, n);
    AllSentFit(w, wn, hash, n, input, graph, updates, rankOf);
    ByKeyLawful(num);
    ByKeyCloses(num, wn);
    DimWireFaithful(wn);
    next := ReduceBy(ByKey(num), DimWire(wn), hash, n, updates, order);
    NextPaired(num, w, wn, hash, n, input, graph, updates, rankOf, next);
    ReducedTogether(ByKey(num), hash, n, next, Flatten(updates));
    UpdatesTogether(w, hash, n, input, graph, updates, rankOf);
    PermutationSameGroups(ByKey(num), Flatten(updates), Updates(w, input, rankOf));
    SameGroupsTransitive(ByKey(num), Flatten(next), Flatten(updates), Updates(w, input, rankOf));
    NextIs(num, w, input, rankOf, Flatten(next));
  }

  lemma SentShape<N>(w: Weights<N>, graph: seq<seq<Vertex>>, updates: seq<seq<Dim<N>>>, rankOf: nat -> N, input: seq<Vertex>,
                     hash: nat -> nat, n: nat)
    requires n > 0 && Placed(graph, input, hash, n) && SentBy(w, graph, updates, rankOf)
    ensures |updates| == |graph| == n && forall p :: 0 <= p < n ==> updates[p] == Updates(w, graph[p], rankOf)
    ensures forall p :: 0 <= p < n ==> HoldsRouted(graph[p], input, VertexRoute(hash), n, p)
  {
  }

  lemma NextIs<N(!new)>(num: Numbers<N>, w: Weights<N>, input: seq<Vertex>, rankOf: nat -> N, after: seq<Dim<N>>)
    requires DistinctKeys(ByKey(num), after) && SameGroups(ByKey(num), after, Updates(w, input, rankOf))
    ensures IsNext(num, w, input, rankOf, after)
  {
  }

  lemma AllSentFit<N(!new)>(w: Weights<N>, wn: Wire<N>, hash: nat -> nat, n: nat, input: seq<Vertex>, graph: seq<seq<Vertex>>,
                            updates: seq<seq<Dim<N>>>, rankOf: nat -> N)
    requires n > 0 && Roomy(wn) && AllFit(VertexWire(), input) && Placed(graph, input, hash, n) && SentBy(w, graph, updates, rankOf)
    ensures PartsFit(DimWire(wn), updates)
  {
    hide HoldsRouted, Sorted, Updates, VertexFits, Roomy, AllFit, DimWire;
    forall p | 0 <= p < n ensures AllFit(DimWire(wn), updates[p]) {
      SentFits(w, wn, hash, n, p, input, graph[p], rankOf);
    }
  }

  lemma SentFits<N(!new)>(w: Weights<N>, wn: Wire<N>, hash: nat -> nat, n: nat, p: nat, input: seq<Vertex>,
                          data: seq<Vertex>, rankOf: nat -> N)
    requires n > 0 && Roomy(wn) && AllFit(VertexWire(), input) && HoldsRouted(data, input, VertexRoute(hash), n, p)
    ensures AllFit(DimWire(wn), Updates(w, data, rankOf))
  {
    hide HoldsRouted, Updates, VertexFits;
    VerticesAtHome(data, input, hash, n, p);
    forall v | v in data ensures VertexFits(v) {
      var i :| 0 <= i < |data| && data[i] == v;
      assert VertexWire().fits(v);
    }
    UpdatesFit(w, data, rankOf);
    DimsFit(wn, Updates(w, data, rankOf));
  }

  lemma AllPaired<N>(wn: Wire<N>, graph: seq<seq<Vertex>>, next: seq<seq<Dim<N>>>, hash: nat -> nat, n: nat)
    requires n > 0 && |graph| == |next| == n
    requires forall p :: 0 <= p < n ==>
               Increasing(next[p]) && AtHome(next[p], hash, n, p) && Ranked(graph[p], next[p]) && AllFit(DimWire(wn), next[p])
    ensures Paired(graph, next, hash, n) && PartsFit(DimWire(wn), next)
  {
  }

  lemma NextAscends<N(!new)>(num: Numbers<N>, hash: nat -> nat, n: nat, p: nat, out: seq<Dim<N>>, xs: seq<Dim<N>>)
    requires n > 0 && Additive(num) && IsGroupBy(ByKey(num), out, Routed(xs, KeyRoute(ByKey(num), hash), n, p))
    ensures Increasing(out) && AtHome(out, hash, n, p)
  {
    ByKeyLawful(num);
    AscendingKeys(num, out);
    GroupByAtHome(ByKey(num), hash, n, p, out, xs);
  }

  lemma {:induction false} FlattenHasKey<N>(xss: seq<seq<Dim<N>>>, p: nat, k: nat)
    requires p < |xss| && HasKey(xss[p], k)
    ensures HasKey(Flatten(xss), k)
  {
    if p == 0 {
      var i :| 0 <= i < |xss[0]| && xss[0][i].key == k;
      assert Flatten(xss)[i].key == k;
    } else {
      FlattenHasKey(xss[1..], p - 1, k);
      var rest := Flatten(xss[1..]);
      var i :| 0 <= i < |rest| && rest[i].key == k;
      assert Flatten(xss)[|xss[0]| + i].key == k;
    }
  }

  lemma NextRanks<N(!new)>(num: Numbers<N>, w: Weights<N>, hash: nat -> nat, n: nat, p: nat, input: seq<Vertex>, data: seq<Vertex>,
                           updates: seq<seq<Dim<N>>>, rankOf: nat -> N, out: seq<Dim<N>>)
    requires p < n && Additive(num) && HoldsRouted(data, input, VertexRoute(hash), n, p)
    requires p < |updates| && updates[p] == Updates(w, data, rankOf)
    requires IsGroupBy(ByKey(num), out, Routed(Flatten(updates), KeyRoute(ByKey(num), hash), n, p))
    ensures Ranked(data, out)
  {
    hide Additive, Updates, Routed, HoldsRouted, Agg, ByKey, HasKey, KeyRoute;
    VerticesAtHome(data, input, hash, n, p);
    forall i | 0 <= i < |data| ensures HasKey(out, data[i].id) {
      var k, r := data[i].id, ByKey(num);
      UpdatesHaveId(w, data, rankOf, data[i]);
      FlattenHasKey(updates, p, k);
      KeyInAgg(num, Flatten(updates), k);
      AggRouted(r, hash, Flatten(updates), n, p, k);
      assert Agg(r, out, k) == Agg(r, Routed(Flatten(updates), KeyRoute(r, hash), n, p), k);
      KeyInAgg(num, out, k);
    }
  }

  /** What the reduction leaves is placed like the graph and has a rank for every vertex. */
  lemma NextPaired<N(!new)>(num: Numbers<N>, w: Weights<N>, wn: Wire<N>, hash: nat -> nat, n: nat, input: seq<Vertex>,
                            graph: seq<seq<Vertex>>, updates: seq<seq<Dim<N>>>, rankOf: nat -> N, next: seq<seq<Dim<N>>>)
    requires n > 0 && Additive(num) && Roomy(wn) && Placed(graph, input, hash, n) && SentBy(w, graph, updates, rankOf)
    requires |next| == n && PartsFit(DimWire(wn), updates)
    requires forall p :: 0 <= p < n ==>
               IsGroupBy(ByKey(num), next[p], Routed(Flatten(updates), KeyRoute(ByKey(num), hash), n, p))
    ensures Paired(graph, next, hash, n) && PartsFit(DimWire(wn), next)
  {
    hide *;
    ByKeyLawful(num);
    ByKeyCloses(num, wn);
    SentShape(w, graph, updates, rankOf, input, hash, n);
    forall p | 0 <= p < n
      ensures Increasing(next[p]) && AtHome(next[p], hash, n, p) && Ranked(graph[p], next[p]) && AllFit(DimWire(wn), next[p])
    {
      NextAscends(num, hash, n, p, next[p], Flatten(updates));
      NextRanks(num, w, hash, n, p, input, graph[p], updates, rankOf, next[p]);
      FlattenFits(DimWire(wn), updates);
      RoutedFits(DimWire(wn), Flatten(updates), KeyRoute(ByKey(num), hash), n, p);
      GroupByFits(ByKey(num), DimWire(wn), next[p], Routed(Flatten(updates), KeyRoute(ByKey(num), hash), n, p));
    }
    AllPaired(wn, graph, next, hash, n);
  }

  // ---------- the first ranks ----------

  lemma {:induction false} FirstRanksFlatten<N>(w: Weights<N>, graph: seq<seq<Vertex>>, ranks: seq<seq<Dim<N>>>)
    requires |ranks| == |graph| && forall p :: 0 <= p < |graph| ==> ranks[p] == FirstRanks(w, graph[p])
    ensures Flatten(ranks) == FirstRanks(w, Flatten(graph))
    decreases |graph|
  {
    if graph != [] {
      FirstRanksFlatten(w, graph[1..], ranks[1..]);
    }
  }

  lemma FirstRanksConcat<N>(w: Weights<N>, a: seq<Vertex>, b: seq<Vertex>)
    ensures FirstRanks(w, a + b) == FirstRanks(w, a) + FirstRanks(w, b)
  {
  }

  lemma {:induction false} FirstRanksPermute<N>(w: Weights<N>, a: seq<Vertex>, b: seq<Vertex>)
    requires multiset(a) == multiset(b)
    ensures multiset(FirstRanks(w, a)) == multiset(FirstRanks(w, b))
  {
    hide FirstRanks;
    if a == [] {
      assert |multiset(b)| == 0;
    } else {
      var l, r := SplitAtHead(a, b);
      FirstRanksPermute(w, a[1..], l + r);
      FirstRanksPull(w, [], a[0], a[1..]);
      FirstRanksPull(w, l, a[0], r);
    }
  }

  lemma FirstRanksPull<N>(w: Weights<N>, l: seq<Vertex>, v: Vertex, r: seq<Vertex>)
    ensures multiset(FirstRanks(w, l + ([v] + r))) == multiset(FirstRanks(w, [v])) + multiset(FirstRanks(w, l + r))
  {
    hide FirstRanks;
    FirstRanksConcat(w, l, [v] + r);
    FirstRanksConcat(w, [v], r);
    FirstRanksConcat(w, l, r);
  }

  lemma FirstRanksTogether<N>(w: Weights<N>, graph: seq<seq<Vertex>>, ranks: seq<seq<Dim<N>>>, input: seq<Vertex>,
                              hash: nat -> nat, n: nat)
    requires n > 0 && Placed(graph, input, hash, n)
    requires |ranks| == n && forall p :: 0 <= p < n ==> ranks[p] == FirstRanks(w, graph[p])
    ensures multiset(Flatten(ranks)) == multiset(FirstRanks(w, input))
  {
    hide Sorted, Flatten, Routed;
    PartitionByConserves(graph, input, VertexRoute(hash), n);
    FirstRanksFlatten(w, graph, ranks);
    FirstRanksPermute(w, Flatten(graph), input);
  }

  lemma FirstRanksFit<N(!new)>(w: Weights<N>, wn: Wire<N>, graph: seq<seq<Vertex>>, ranks: seq<seq<Dim<N>>>, input: seq<Vertex>,
                               hash: nat -> nat, n: nat)
    requires n > 0 && Roomy(wn) && Placed(graph, input, hash, n) && AllFit(VertexWire(), input)
    requires |ranks| == n && forall p :: 0 <= p < n ==> ranks[p] == FirstRanks(w, graph[p])
    ensures PartsFit(DimWire(wn), ranks)
  {
    hide HoldsRouted, Roomy, DimWire, Sorted;
    forall p | 0 <= p < n ensures AllFit(DimWire(wn), ranks[p]) {
      VerticesAtHome(graph[p], input, hash, n, p);
      assert forall i :: 0 <= i < |graph[p]| ==> VertexWire().fits(graph[p][i]);
      DimsFit(wn, ranks[p]);
    }
  }

  // ---------- the job ----------

  function RankValue<N>(value: N -> real): Dim<N> -> real {
    (d: Dim<N>) => value(d.val)
  }

  /** The table of ranks that iteration t works on. */
  function TableAt<N>(num: Numbers<N>, w: Weights<N>, history: seq<seq<Dim<N>>>, t: nat): nat -> N
    requires t < |history|
  {
    if t == 0 then FirstTable(w) else RankTable(num, history[t])
  }

  /** The first ranks of all partitions. */
  method FirstRound<N>(w: Weights<N>, graph: seq<seq<Vertex>>) returns (ranks: seq<seq<Dim<N>>>)
    ensures |ranks| == |graph| && forall p :: 0 <= p < |graph| ==> ranks[p] == FirstRanks(w, graph[p])
  {
    hide *;
    ranks := [];
    for p := 0 to |graph|
      invariant |ranks| == p && forall q :: 0 <= q < p ==> ranks[q] == FirstRanks(w, graph[q])
    {
      var first := InitRanks(w, graph[p]);
      ranks := ranks + [first];
    }
  }

  lemma PlacedCount(graph: seq<seq<Vertex>>, input: seq<Vertex>, hash: nat -> nat, n: nat)
    requires n > 0 && Placed(graph, input, hash, n)
    ensures |graph| == n
  {
  }

  lemma PairedCount<N>(graph: seq<seq<Vertex>>, ranks: seq<seq<Dim<N>>>, hash: nat -> nat, n: nat)
    requires n > 0 && Paired(graph, ranks, hash, n)
    ensures |graph| == |ranks| == n
  {
  }

  lemma Tables<N>(num: Numbers<N>, w: Weights<N>, history: seq<seq<Dim<N>>>, t: nat)
    requires t < |history|
    ensures TableAt(num, w, history, t) == if t == 0 then FirstTable(w) else RankTable(num, history[t])
  {
  }

  lemma TablesKept<N>(num: Numbers<N>, w: Weights<N>, history: seq<seq<Dim<N>>>, next: seq<Dim<N>>)
    ensures forall t: nat :: t < |history| ==> TableAt(num, w, history + [next], t) == TableAt(num, w, history, t)
  {
  }

  lemma UpdatesSent<N>(w: Weights<N>, graph: seq<seq<Vertex>>, ranks: seq<seq<Dim<N>>>, updates: seq<seq<Dim<N>>>, rankOf: nat -> N)
    requires |ranks| == |updates| == |graph|
    requires forall p :: 0 <= p < |graph| ==> Sent(true, w, graph[p], ranks[p]) == Some(updates[p])
    requires forall p :: 0 <= p < |graph| ==> Sent(true, w, graph[p], ranks[p]) == Some(Updates(w, graph[p], rankOf))
    ensures SentBy(w, graph, updates, rankOf)
  {
    hide Sent, Updates;
  }

  /** The whole job for any graph, number of partitions and iterations, hash function and message orders, with
      the check in the loop compiled in.  The job comes to its end exactly when it runs at most one iteration
      or no two vertices have one id.  Then in every iteration each page has one rank, the sum of what all
      vertices send to it on the ranks before, and the end lists the k highest. */
  method Run<N(!new)>(num: Numbers<N>, w: Weights<N>, wn: Wire<N>, hash: nat -> nat, n: nat, iters: nat,
                      input: seq<seq<Vertex>>, graphOrder: seq<seq<nat>>, orders: nat -> seq<seq<nat>>,
                      value: N -> real, k: nat, topOrder: seq<seq<nat>>)
    returns (ok: bool, top: seq<Dim<N>>, ranks: seq<seq<Dim<N>>>, ghost history: seq<seq<Dim<N>>>)
    requires n > 0 && k > 0 && Additive(num) && Faithful(wn) && Roomy(wn) && PartsFit(VertexWire(), input)
    requires |graphOrder| == n && forall p :: 0 <= p < n ==> IsPermutation(graphOrder[p], |input|)
    requires forall t :: |orders(t)| == n && forall p :: 0 <= p < n ==> IsPermutation(orders(t)[p], n)
    requires |topOrder| == 1 && IsPermutation(topOrder[0], n)
    ensures ok <==> iters <= 1 || DistinctIds(Flatten(input))
    ensures ok ==> |history| == iters + 1 && history[iters] == Flatten(ranks)
    ensures ok ==> multiset(history[0]) == multiset(FirstRanks(w, Flatten(input)))
    ensures ok ==> forall t :: 0 <= t < iters ==> IsNext(num, w, Flatten(input), TableAt(num, w, history, t), history[t + 1])
    ensures ok ==> TopRanks.ListsTop(top, Flatten(ranks), RankValue(value), k)
  {
    hide *;
    FlattenFits(VertexWire(), input);
    top := [];
    var graph := PlaceGraph(hash, n, input, graphOrder);
    ranks := FirstRound(w, graph);
    PlacedCount(graph, Flatten(input), hash, n);
    FirstRanksFit(w, wn, graph, ranks, Flatten(input), hash, n);
    FirstRanksTogether(w, graph, ranks, Flatten(input), hash, n);
    history := [Flatten(ranks)];
    for t := 0 to iters
      invariant |ranks| == n && PartsFit(DimWire(wn), ranks)
      invariant if t == 0 then forall p :: 0 <= p < n ==> ranks[p] == FirstRanks(w, graph[p]) else Paired(graph, ranks, hash, n)
      invariant |history| == t + 1 && history[t] == Flatten(ranks) && (t > 1 ==> DistinctIds(Flatten(input)))
      invariant multiset(history[0]) == multiset(FirstRanks(w, Flatten(input)))
      invariant forall s :: 0 <= s < t ==> IsNext(num, w, Flatten(input), TableAt(num, w, history, s), history[s + 1])
    {
      ghost var table := TableAt(num, w, history, t);
      Tables(num, w, history, t);
      if t == 0 {
        FirstSent(w, graph, ranks);
      } else {
        LaterSent(num, w, hash, n, Flatten(input), graph, ranks);
      }
      var updates;
      ok, updates := SendAll(w, graph, ranks);
      if !ok {
        return;
      }
      UpdatesSent(w, graph, ranks, updates, table);
      ranks := Reduce(num, w, wn, hash, n, Flatten(input), graph, updates, table, orders(t));
      PairedCount(graph, ranks, hash, n);
      TablesKept(num, w, history, Flatten(ranks));
      history := history + [Flatten(ranks)];
    }
    ok := true;
    DimWireFaithful(wn);
    top := TopRanks.TopOfAll(DimWire(wn), RankValue(value), k, ranks, topOrder);
  }

  // ---------- small runs ----------

  /** Two vertices of one id and the reduced ranks of two pages.  With the check compiled in it fails; without
      it the second vertex takes the rank of the other page, or there is none and reading it throws. */
  lemma RepeatedId<N>(w: Weights<N>, x: N, y: N)
    ensures var data := [Vertex(0, []), Vertex(0, [])];
            && Sent(true, w, data, [Dim(0, x), Dim(5, y)]) == None
            && Sent(false, w, data, [Dim(0, x), Dim(5, y)]) == Some(Emitted(w, Vertex(0, []), x) + Emitted(w, Vertex(0, []), y))
            && Sent(false, w, data, [Dim(0, x)]) == None
  {
    hide Emitted;
    var v, ranks := Vertex(0, []), [Dim(0, x), Dim(5, y)];
    assert ranks[1..] == [Dim(5, y)] && [v, v][1..] == [v] && [v][1..] == [] && [Dim(0, x)][1..] == [];
    assert Sent(false, w, [v], [Dim(5, y)]) == Some(Emitted(w, v, y)) by {
      assert Emitted(w, v, y) + [] == Emitted(w, v, y);
    }
  }

  /** A page passes on its whole rank. */
  function WholeRank(rank: Bits64, degree: nat): Bits64 { rank }

  function Ones(): Weights<Bits64> { Weights(1, 1, WholeRank) }

  function TwoPages(): seq<Vertex> { [Vertex(0, [1]), Vertex(1, [0])] }

  function Identity(k: nat): nat { k }

  function Zero(n: Bits64): real { 0.0 }

  /** Two pages that link to each other: every iteration adds one to both ranks. */
  method RunTwoPages(iters: nat) returns (ranks: seq<seq<Dim<Bits64>>>)
    ensures RankIn(Integers(), Flatten(ranks), 0) == RankIn(Integers(), Flatten(ranks), 1) == (iters + 1) % SIZE_LIMIT
  {
    hide Additive, Faithful, Roomy, Integers, Bits64Wire, IsNext, PartsFit, Flatten, RankIn, FirstRanks, TopRanks.ListsTop, Ones, VertexWire;
    IntegersAdd();
    Bits64Faithful();
    TwoPagesFit();
    OneOrder();
    var order := [[0]];
    var ok, top;
    ghost var history;
    ok, top, ranks, history := Run(Integers(), Ones(), Bits64Wire(), Identity, 1, iters, [TwoPages()], order, _ => order, Zero, 1, order);
    FirstOfTwoPages(history[0]);
    for t := 0 to iters
      invariant RankIn(Integers(), history[t], 0) == RankIn(Integers(), history[t], 1) == (t + 1) % SIZE_LIMIT
    {
      Tables(Integers(), Ones(), history, t);
      NextOfTwoPages(history, t);
    }
  }

  lemma TwoPagesFit()
    ensures PartsFit(VertexWire(), [TwoPages()]) && Flatten([TwoPages()]) == TwoPages() && DistinctIds(TwoPages())
  {
    assert [TwoPages()][1..] == [];
  }

  lemma OneOrder()
    ensures IsPermutation([0], 1)
  {
    assert Range(1) == [0];
  }

  lemma TwoRanks(a: Dim<Bits64>, b: Dim<Bits64>, k: nat)
    requires a.key == 0 && b.key == 1 && k < 2
    ensures Agg(ByKey(Integers()), [a, b], k) == Some(if k == 0 then a else b)
  {
    assert [a, b][1..] == [b];
    SingleAgg(ByKey(Integers()), b, k);
  }

  lemma FirstOfTwoPages(first: seq<Dim<Bits64>>)
    requires multiset(first) == multiset(FirstRanks(Ones(), TwoPages()))
    ensures RankIn(Integers(), first, 0) == RankIn(Integers(), first, 1) == 1
  {
    IntegersAdd();
    ByKeyLawful(Integers());
    LawfulCombines(ByKey(Integers()));
    var ranks := FirstRanks(Ones(), TwoPages());
    assert ranks == [Dim(0, 1), Dim(1, 1)];
    hide Additive, Combines, Agg, ByKey, Integers;
    forall k: nat | k < 2 ensures RankIn(Integers(), first, k) == 1 {
      AggPermute(ByKey(Integers()), first, ranks, k);
      TwoRanks(Dim(0, 1), Dim(1, 1), k);
    }
  }

  /** What the two pages send when both have rank x. */
  lemma SentByTwoPages(rankOf: nat -> Bits64, x: Bits64)
    requires rankOf(0) == rankOf(1) == x
    ensures Updates(Ones(), TwoPages(), rankOf) == [Dim(0, 1), Dim(1, x), Dim(1, 1), Dim(0, x)]
  {
    assert TwoPages()[1..] == [Vertex(1, [0])] && [Vertex(1, [0])][1..] == [];
    assert Emitted(Ones(), Vertex(0, [1]), x) == [Dim(0, 1), Dim(1, x)];
    assert Emitted(Ones(), Vertex(1, [0]), x) == [Dim(1, 1), Dim(0, x)];
  }

  lemma SumOfSent(x: Bits64, k: nat)
    requires k < 2
    ensures Agg(ByKey(Integers()), [Dim(0, 1), Dim(1, x), Dim(1, 1), Dim(0, x)], k) == Some(Dim(k, AddBits64(1, x)))
  {
    hide Agg;
    var r, a, b, c, d := ByKey(Integers()), Dim(0, 1), Dim(1, x), Dim(1, 1), Dim(0, x);
    AggCons(r, a, [b, c, d], k);
    AggCons(r, b, [c, d], k);
    AggCons(r, c, [d], k);
    SingleAgg(r, d, k);
    assert [a] + [b, c, d] == [a, b, c, d] && [b] + [c, d] == [b, c, d] && [c] + [d] == [c, d];
    AddBits64Laws(1, x, 0);
  }

  lemma AggCons<V, K>(r: Reducer<V, K>, x: V, xs: seq<V>, k: K)
    ensures Agg(r, [x] + xs, k) == Plus(r, Pick(r, x, k), Agg(r, xs, k))
  {
    assert ([x] + xs)[1..] == xs;
  }

  lemma NextAt<N(!new)>(num: Numbers<N>, w: Weights<N>, input: seq<Vertex>, rankOf: nat -> N, after: seq<Dim<N>>, k: nat)
    requires IsNext(num, w, input, rankOf, after)
    ensures Agg(ByKey(num), after, k) == Agg(ByKey(num), Updates(w, input, rankOf), k)
  {
  }

  lemma NextOfTwoPages(history: seq<seq<Dim<Bits64>>>, t: nat)
    requires t + 1 < |history|
    requires IsNext(Integers(), Ones(), TwoPages(), TableAt(Integers(), Ones(), history, t), history[t + 1])
    requires RankIn(Integers(), history[t], 0) == RankIn(Integers(), history[t], 1) == (t + 1) % SIZE_LIMIT
    ensures RankIn(Integers(), history[t + 1], 0) == RankIn(Integers(), history[t + 1], 1) == (t + 2) % SIZE_LIMIT
  {
    hide Agg, ByKey, Integers, Updates, TwoPages;
    var x: Bits64, table := (t + 1) % SIZE_LIMIT, TableAt(Integers(), Ones(), history, t);
    assert table(0) == x && table(1) == x;
    SentByTwoPages(table, x);
    NextAt(Integers(), Ones(), TwoPages(), table, history[t + 1], 0);
    NextAt(Integers(), Ones(), TwoPages(), table, history[t + 1], 1);
    SumOfSent(x, 0);
    SumOfSent(x, 1);
    WrapNext(t + 1);
  }

  lemma WrapNext(x: nat)
    ensures (1 + x % SIZE_LIMIT) % SIZE_LIMIT == (x + 1) % SIZE_LIMIT
  {
  }
}
