/** The shuffle operators of ursa/common/dataset/dataset.h, from the records of the input
    partitions to the records of the output partitions, through the byte streams. */
module Shuffle {
  import opened Codec
  import opened Grouping
  import opened Sequences

  /** How records travel: the C++ type they are streamed as, the value of each record, and which
      records that type has room for. */
  datatype Wire<!V> = Wire(t: Type, pack: V -> Value, unpack: Value -> V, fits: V -> bool)

  /** Every record that fits comes back. */
  ghost predicate Faithful<V(!new)>(w: Wire<V>) {
    forall v :: w.fits(v) ==> HasType(w.t, w.pack(v)) && w.unpack(w.pack(v)) == v
  }

  ghost predicate AllFit<V>(w: Wire<V>, xs: seq<V>) {
    forall x :: x in xs ==> w.fits(x)
  }

  ghost predicate PartsFit<V>(w: Wire<V>, parts: seq<seq<V>>) {
    forall p :: 0 <= p < |parts| ==> AllFit(w, parts[p])
  }

  /** What the combiner leaves behind still fits. */
  ghost predicate Closed<V(!new), K>(r: Reducer<V, K>, w: Wire<V>) {
    forall a, b :: r.key(a) == r.key(b) && w.fits(a) && w.fits(b) ==> w.fits(r.combine(a, b))
  }

  function PackAll<V>(w: Wire<V>, xs: seq<V>): (vs: seq<Value>)
    ensures |vs| == |xs| && forall i :: 0 <= i < |xs| ==> vs[i] == w.pack(xs[i])
  {
    seq(|xs|, i requires 0 <= i < |xs| => w.pack(xs[i]))
  }

  /** The stream content `b` holds the records `xs`. */
  ghost predicate Carries<V>(w: Wire<V>, b: seq<byte>, xs: seq<V>) {
    AllFit(w, xs) && EncodesAll(w.t, PackAll(w, xs), b)
  }

  lemma CarriesSnoc<V(!new)>(w: Wire<V>, b: seq<byte>, xs: seq<V>, x: V, c: seq<byte>)
    requires Carries(w, b, xs) && w.fits(x) && Encodes(w.t, w.pack(x), c)
    ensures Carries(w, b + c, xs + [x])
  {
    EncodesAllSnoc(w.t, PackAll(w, xs), b, w.pack(x), c);
    assert PackAll(w, xs + [x]) == PackAll(w, xs) + [w.pack(x)];
  }

  /** Reading one record off a non-empty stream. */
  lemma CarriesNext<V(!new)>(w: Wire<V>, b: seq<byte>, xs: seq<V>)
    requires Faithful(w) && Carries(w, b, xs)
    ensures b == [] <==> xs == []
    ensures b != [] ==>
      var r := Decode(w.t, b);
      r.Parsed? && w.unpack(r.value) == xs[0] && Carries(w, r.rest, xs[1..])
  {
    hide Encodes, Decode, HasType;
    if xs != [] {
      var vs := PackAll(w, xs);
      var m :| 0 <= m <= |b| && Encodes(w.t, vs[0], b[..m]) && EncodesAll(w.t, vs[1..], b[m..]);
      assert b == b[..m] + b[m..];
      RoundTrip(w.t, vs[0], b[..m], b[m..]);
      assert vs[1..] == PackAll(w, xs[1..]);
    }
  }

  /** `stream << x` on a stream that holds `xs`. */
  method WriteRecord<V(!new)>(w: Wire<V>, stream: BinStream, x: V, ghost xs: seq<V>)
    requires Faithful(w) && w.fits(x) && stream.Valid() && Carries(w, stream.Contents(), xs)
    modifies stream
    ensures stream.Valid() && Carries(w, stream.Contents(), xs + [x])
  {
    ghost var before := stream.Contents();
    ghost var c := stream.Write(w.t, w.pack(x));
    CarriesSnoc(w, before, xs, x, c);
  }

  lemma CarriesNothing<V>(w: Wire<V>)
    ensures Carries(w, [], [])
  {
  }

  // ---------- routing ----------

  /** Records are routed by the hash of their key. */
  function KeyRoute<V, K>(r: Reducer<V, K>, hash: K -> nat): V -> nat {
    x => hash(r.key(x))
  }

  /** The records of `xs` that go to partition `p` of `n`. */
  function Routed<V>(xs: seq<V>, route: V -> nat, n: nat, p: nat): seq<V>
    requires n > 0
  {
    if xs == [] then []
    else (if route(xs[0]) % n == p then [xs[0]] else []) + Routed(xs[1..], route, n, p)
  }

  lemma {:induction false} RoutedConcat<V>(a: seq<V>, b: seq<V>, route: V -> nat, n: nat, p: nat)
    requires n > 0
    ensures Routed(a + b, route, n, p) == Routed(a, route, n, p) + Routed(b, route, n, p)
  {
    if a == [] {
      assert a + b == b;
    } else {
      assert (a + b)[1..] == a[1..] + b;
      var head := if route(a[0]) % n == p then [a[0]] else [];
      calc {
        Routed(a + b, route, n, p);
        head + Routed(a[1..] + b, route, n, p);
        { RoutedConcat(a[1..], b, route, n, p); }
        head + (Routed(a[1..], route, n, p) + Routed(b, route, n, p));
        Routed(a, route, n, p) + Routed(b, route, n, p);
      }
    }
  }

  lemma RoutedSnoc<V>(a: seq<V>, x: V, route: V -> nat, n: nat, p: nat)
    requires n > 0
    ensures Routed(a + [x], route, n, p) == Routed(a, route, n, p) + if route(x) % n == p then [x] else []
  {
    RoutedConcat(a, [x], route, n, p);
    assert [x][1..] == [];
  }

  lemma {:induction false} RoutedMembers<V(!new)>(xs: seq<V>, route: V -> nat, n: nat, p: nat)
    requires n > 0
    ensures forall x :: x in Routed(xs, route, n, p) <==> x in xs && route(x) % n == p
  {
    if xs != [] {
      RoutedMembers(xs[1..], route, n, p);
      assert forall x :: x in xs <==> x == xs[0] || x in xs[1..];
    }
  }

  function RoutedParts<V>(parts: seq<seq<V>>, route: V -> nat, n: nat, p: nat): (cols: seq<seq<V>>)
    requires n > 0
    ensures |cols| == |parts| && forall i :: 0 <= i < |parts| ==> cols[i] == Routed(parts[i], route, n, p)
  {
    seq(|parts|, i requires 0 <= i < |parts| => Routed(parts[i], route, n, p))
  }

  lemma {:induction false} RoutedFlatten<V>(parts: seq<seq<V>>, route: V -> nat, n: nat, p: nat)
    requires n > 0
    ensures Routed(Flatten(parts), route, n, p) == Flatten(RoutedParts(parts, route, n, p))
  {
    if parts != [] {
      RoutedFlatten(parts[1..], route, n, p);
      RoutedConcat(parts[0], Flatten(parts[1..]), route, n, p);
      assert RoutedParts(parts, route, n, p)[1..] == RoutedParts(parts[1..], route, n, p);
    }
  }

  // ---------- serialize ----------

  /** n distinct streams (the message header is stripped before the receiver reads). */
  ghost predicate Messages(msg: seq<BinStream>, n: nat)
    reads msg
  {
    && |msg| == n
    && (forall i :: 0 <= i < n ==> msg[i].Valid())
    && (forall i, j :: 0 <= i < j < n ==> msg[i] != msg[j])
  }

  method CreateMessagePartition(n: nat) returns (msg: seq<BinStream>)
    ensures Messages(msg, n) && fresh(msg)
    ensures forall i :: 0 <= i < n ==> msg[i].Contents() == []
  {
    msg := [];
    for i := 0 to n
      invariant Messages(msg, i) && fresh(msg)
      invariant forall j :: 0 <= j < i ==> msg[j].Contents() == []
    {
      var s := new BinStream([]);
      msg := msg + [s];
    }
  }

  method Snapshot(msg: seq<BinStream>) returns (bytes: seq<seq<byte>>)
    requires Messages(msg, |msg|)
    ensures |bytes| == |msg| && forall i :: 0 <= i < |msg| ==> bytes[i] == msg[i].Contents()
  {
    bytes := [];
    for i := 0 to |msg|
      invariant |bytes| == i && forall j :: 0 <= j < i ==> bytes[j] == msg[j].Contents()
    {
      bytes := bytes + [msg[i].Contents()];
    }
  }

  lemma NothingRouted<V>(w: Wire<V>, route: V -> nat, n: nat)
    requires n > 0
    ensures forall p :: 0 <= p < n ==> Carries(w, [], Routed([], route, n, p))
  {
  }

  /** The serialize closure of PartitionBy and RangeReduceBy: one stream per output partition. */
  method Serialize<V(!new)>(w: Wire<V>, route: V -> nat, n: nat, part: seq<V>) returns (bytes: seq<seq<byte>>)
    requires n > 0 && Faithful(w) && AllFit(w, part)
    ensures |bytes| == n
    ensures forall p :: 0 <= p < n ==> Carries(w, bytes[p], Routed(part, route, n, p))
  {
    hide Faithful, Carries, Routed;
    var msg := CreateMessagePartition(n);
    NothingRouted(w, route, n);
    for i := 0 to |part|
      invariant Messages(msg, n) && fresh(msg)
      invariant forall p :: 0 <= p < n ==> Carries(w, msg[p].Contents(), Routed(part[..i], route, n, p))
    {
      var q := route(part[i]) % n;
      WriteRecord(w, msg[q], part[i], Routed(part[..i], route, n, q));
      assert part[..i + 1] == part[..i] + [part[i]];
      forall p | 0 <= p < n ensures Carries(w, msg[p].Contents(), Routed(part[..i + 1], route, n, p)) {
        RoutedSnoc(part[..i], part[i], route, n, p);
        assert Routed(part[..i], route, n, p) + [] == Routed(part[..i], route, n, p);
      }
    }
    assert part[..|part|] == part;
    bytes := Snapshot(msg);
  }

  lemma LawfulOrders<V(!new), K(!new)>(r: Reducer<V, K>)
    requires Lawful(r)
    ensures Ordered(r)
  {
  }

  lemma LawfulCombines<V(!new), K(!new)>(r: Reducer<V, K>)
    requires Lawful(r)
    ensures Combines(r)
  {
  }

  /** `std::sort` by key: some sorted permutation; equal keys may come in any order. */
  method SortByKey<V(!new), K(!new)>(r: Reducer<V, K>, xs: seq<V>) returns (ys: seq<V>)
    requires Ordered(r)
    ensures multiset(ys) == multiset(xs) && SortedByKey(r, ys)
  {
    ys := [];
    for i := 0 to |xs|
      invariant multiset(ys) == multiset(xs[..i]) && SortedByKey(r, ys)
    {
      ys := InsertSorted(r, ys, xs[i]);
      assert xs[..i + 1] == xs[..i] + [xs[i]];
    }
    assert xs[..|xs|] == xs;
  }

  method InsertSorted<V(!new), K(!new)>(r: Reducer<V, K>, ys: seq<V>, x: V) returns (zs: seq<V>)
    requires Ordered(r) && SortedByKey(r, ys)
    ensures multiset(zs) == multiset(ys) + multiset{x} && SortedByKey(r, zs)
  {
    var j := 0;
    while j < |ys| && !r.less(r.key(x), r.key(ys[j]))
      invariant 0 <= j <= |ys|
      invariant forall k :: 0 <= k < j ==> !r.less(r.key(x), r.key(ys[k]))
    {
      j := j + 1;
    }
    SpliceSorted(r, ys, j, x);
    assert ys == ys[..j] + ys[j..];
    hide SortedByKey, Ordered;
    zs := ys[..j] + [x] + ys[j..];
  }

  lemma SpliceSorted<V, K(!new)>(r: Reducer<V, K>, ys: seq<V>, j: nat, x: V)
    requires Ordered(r) && SortedByKey(r, ys) && j <= |ys|
    requires forall k :: 0 <= k < j ==> !r.less(r.key(x), r.key(ys[k]))
    requires j < |ys| ==> r.less(r.key(x), r.key(ys[j]))
    ensures SortedByKey(r, ys[..j] + [x] + ys[j..])
  {
    var zs := ys[..j] + [x] + ys[j..];
    assert forall k :: 0 <= k < j ==> zs[k] == ys[k];
    assert forall k :: j < k < |zs| ==> zs[k] == ys[k - 1];
    forall k | j <= k < |ys| ensures !r.less(r.key(ys[k]), r.key(x)) {
      assert k == j || !r.less(r.key(ys[k]), r.key(ys[j]));
    }
  }

  lemma PermutationMembers<V>(xs: seq<V>, ys: seq<V>)
    requires multiset(xs) == multiset(ys)
    ensures |xs| == |ys| && forall i :: 0 <= i < |xs| ==> xs[i] in ys
  {
    assert |multiset(xs)| == |multiset(ys)|;
    forall i | 0 <= i < |xs| ensures xs[i] in ys {
      assert xs[i] in multiset(xs);
    }
  }

  method SortedBucket<V(!new), K(!new)>(r: Reducer<V, K>, xs: seq<V>) returns (a: array<V>)
    requires Ordered(r)
    ensures fresh(a) && a.Length == |xs| && multiset(a[..]) == multiset(xs) && SortedByKey(r, a[..])
    ensures forall i :: 0 <= i < a.Length ==> a[i] in xs
  {
    var sorted := SortByKey(r, xs);
    PermutationMembers(sorted, xs);
    a := new V[|sorted|](i requires 0 <= i < |sorted| => sorted[i]);
    assert a[..] == sorted;
  }

  /** local_buffer: the records of each bucket, in input order. */
  method FillBuckets<V(!new)>(route: V -> nat, n: nat, part: seq<V>) returns (buckets: seq<seq<V>>)
    requires n > 0
    ensures |buckets| == n
    ensures forall p :: 0 <= p < n ==> buckets[p] == Routed(part, route, n, p)
  {
    buckets := seq(n, _ => []);
    for i := 0 to |part|
      invariant |buckets| == n
      invariant forall p :: 0 <= p < n ==> buckets[p] == Routed(part[..i], route, n, p)
    {
      var q := route(part[i]) % n;
      forall p | 0 <= p < n ensures
        Routed(part[..i + 1], route, n, p) == Routed(part[..i], route, n, p) + if p == q then [part[i]] else [] {
        assert part[..i + 1] == part[..i] + [part[i]];
        RoutedSnoc(part[..i], part[i], route, n, p);
      }
      buckets := buckets[q := buckets[q] + [part[i]]];
    }
    assert part[..|part|] == part;
  }

  /** Map-side combining of one sorted, non-empty bucket: each run of equal keys is folded into its
      first record, which is then written to the stream its key hashes to. */
  method CombineBucket<V(!new), K(!new, ==)>(r: Reducer<V, K>, w: Wire<V>, hash: K -> nat, n: nat,
                                             msg: seq<BinStream>, a: array<V>, p: nat, ghost bucket: seq<V>)
    returns (ghost sent: seq<V>)
    requires Lawful(r) && Faithful(w) && Closed(r, w) && p < n && a.Length > 0 && multiset(a[..]) == multiset(bucket)
    requires forall j :: 0 <= j < a.Length ==> hash(r.key(a[j])) % n == p && w.fits(a[j])
    requires Messages(msg, n) && msg[p].Contents() == []
    modifies msg[p], a
    ensures Messages(msg, n)
    ensures Carries(w, msg[p].Contents(), sent) && SameGroups(r, sent, bucket)
  {
    hide Lawful, Combining, SameGroups, Faithful, Carries;
    ghost var sorted := a[..];
    CombineFirst(r, sorted, bucket);
    CarriesNothing(w);
    var currentKey := r.key(a[0]);
    var current := 0;
    sent := [];
    for i := 1 to a.Length
      invariant 0 <= current < i
      invariant Messages(msg, n) && Carries(w, msg[p].Contents(), sent)
      invariant forall j :: i <= j < a.Length ==> a[j] == sorted[j]
      invariant currentKey == r.key(a[current]) && hash(currentKey) % n == p && w.fits(a[current])
      invariant Combining(r, sent, a[current], sorted[i..], bucket)
    {
      var thisKey := r.key(a[i]);
      assert sorted[i..][0] == a[i] && sorted[i..][1..] == sorted[i + 1..];
      if thisKey == currentKey {
        CombineMerge(r, sent, a[current], sorted[i..], bucket);
        a[current] := r.combine(a[current], a[i]);
      } else {
        CombineEmit(r, sent, a[current], sorted[i..], bucket);
        WriteRecord(w, msg[hash(currentKey) % n], a[current], sent);
        sent := sent + [a[current]];
        current := i;
        currentKey := thisKey;
      }
    }
    CombineEmit(r, sent, a[current], sorted[a.Length..], bucket);
    WriteRecord(w, msg[hash(currentKey) % n], a[current], sent);
    sent := sent + [a[current]];
  }

  /** The serialize closure of ReduceBy. */
  method SerializeCombined<V(!new), K(!new, ==)>(r: Reducer<V, K>, w: Wire<V>, hash: K -> nat, n: nat, part: seq<V>)
    returns (bytes: seq<seq<byte>>, ghost sent: seq<seq<V>>)
    requires n > 0 && Lawful(r) && Faithful(w) && Closed(r, w) && AllFit(w, part)
    ensures |bytes| == n && |sent| == n
    ensures forall p :: 0 <= p < n ==> Carries(w, bytes[p], sent[p])
    ensures forall p :: 0 <= p < n ==> SameGroups(r, sent[p], Routed(part, KeyRoute(r, hash), n, p))
  {
    hide Lawful, Ordered, SameGroups, Faithful, Closed, Carries, Routed;
    var route := KeyRoute(r, hash);
    LawfulOrders(r);
    var buckets := FillBuckets(route, n, part);
    var msg := CreateMessagePartition(n);
    CarriesNothing(w);
    NoRecords(r);
    sent := [];
    for p := 0 to n
      invariant Messages(msg, n) && fresh(msg) && |sent| == p
      invariant forall q :: 0 <= q < p ==> Carries(w, msg[q].Contents(), sent[q])
      invariant forall q :: 0 <= q < p ==> SameGroups(r, sent[q], buckets[q])
      invariant forall q :: p <= q < n ==> msg[q].Contents() == []
    {
      if buckets[p] == [] {
        sent := sent + [[]];
      } else {
        var a := SortedBucket(r, buckets[p]);
        RoutedMembers(part, route, n, p);
        ghost var s := CombineBucket(r, w, hash, n, msg, a, p, buckets[p]);
        sent := sent + [s];
      }
    }
    bytes := Snapshot(msg);
  }

  // ---------- deserialize ----------

  /** Drain the received streams one after the other. */
  method Receive<V(!new)>(w: Wire<V>, streams: seq<seq<byte>>, ghost sent: seq<seq<V>>) returns (data: seq<V>)
    requires Faithful(w) && |streams| == |sent|
    requires forall i :: 0 <= i < |streams| ==> Carries(w, streams[i], sent[i])
    ensures data == Flatten(sent)
  {
    hide Faithful, Carries, Flatten;
    data := [];
    assert sent[..0] == [];
    FlattenNone<V>();
    for i := 0 to |streams|
      invariant data == Flatten(sent[..i])
    {
      var stream := new BinStream(streams[i]);
      ghost var j := 0;
      while stream.StreamSize() > 0
        invariant stream.Valid() && fresh(stream) && 0 <= j <= |sent[i]|
        invariant Carries(w, stream.Contents(), sent[i][j..])
        invariant data == Flatten(sent[..i]) + sent[i][..j]
        decreases stream.StreamSize()
      {
        CarriesNext(w, stream.Contents(), sent[i][j..]);
        var val := stream.Read(w.t);
        data := data + [w.unpack(val)];
        assert sent[i][j..][1..] == sent[i][j + 1..];
        assert sent[i][..j + 1] == sent[i][..j] + [sent[i][j]];
        j := j + 1;
      }
      CarriesNext(w, stream.Contents(), sent[i][j..]);
      assert sent[i][..j] == sent[i];
      FlattenSnoc(sent[..i], sent[i]);
      assert sent[..i + 1] == sent[..i] + [sent[i]];
    }
    assert sent[..|sent|] == sent;
  }

  /** The in-place reduction of a sorted, non-empty array: runs are folded into their first record
      and the folded records moved to the front.  Returns the length to resize to. */
  method CompactRuns<V(!new), K(!new, ==)>(r: Reducer<V, K>, data: array<V>) returns (count: nat)
    requires Lawful(r) && data.Length > 0 && SortedByKey(r, data[..])
    modifies data
    ensures count <= data.Length
    ensures IsGroupBy(r, data[..count], old(data[..]))
  {
    hide *;
    ghost var input := data[..];
    CompactFirst(r, input);
    ghost var done, rest := [], input[1..];
    var currentKey := r.key(data[0]);
    var current := 0;
    count := 0;
    for i := 1 to data.Length
      invariant |done| == count <= current < i && |rest| == data.Length - i
      invariant forall j :: 0 <= j < count ==> data[j] == done[j]
      invariant forall j :: i <= j < data.Length ==> data[j] == rest[j - i]
      invariant currentKey == r.key(data[current])
      invariant Compacting(r, done, data[current], rest, input)
    {
      var thisKey := r.key(data[i]);
      if thisKey == currentKey {
        CompactMerge(r, done, data[current], rest, input);
        data[current] := r.combine(data[current], data[i]);
      } else {
        CompactEmit(r, done, data[current], rest, input);
        done := done + [data[current]];
        data[count] := data[current];
        count := count + 1;
        current := i;
        currentKey := thisKey;
      }
      rest := rest[1..];
    }
    CompactEmit(r, done, data[current], rest, input);
    done := done + [data[current]];
    data[count] := data[current];
    count := count + 1;
    assert data[..count] == done;
  }

  /** The deserialize closure of ReduceBy and RangeReduceBy. */
  method ReduceReceived<V(!new), K(!new, ==)>(r: Reducer<V, K>, w: Wire<V>, streams: seq<seq<byte>>, ghost sent: seq<seq<V>>)
    returns (out: seq<V>)
    requires Lawful(r) && Faithful(w) && |streams| == |sent|
    requires forall i :: 0 <= i < |streams| ==> Carries(w, streams[i], sent[i])
    ensures IsGroupBy(r, out, Flatten(sent))
  {
    hide Lawful, Ordered, Faithful, Carries, Flatten;
    LawfulOrders(r);
    var data := Receive(w, streams, sent);
    if data == [] {
      return [];
    }
    var a := SortedBucket(r, data);
    PermutationSameGroups(r, a[..], data);
    var count := CompactRuns(r, a);
    out := a[..count];
  }

  // ---------- the whole operators ----------

  /** The column of messages addressed to one output partition, in the order they arrive. */
  function Arrived<T>(sent: seq<seq<T>>, p: nat, order: seq<nat>): (col: seq<T>)
    requires forall i :: 0 <= i < |sent| ==> p < |sent[i]|
    requires forall i :: 0 <= i < |order| ==> order[i] < |sent|
    ensures |col| == |order| && forall i :: 0 <= i < |order| ==> col[i] == sent[order[i]][p]
  {
    seq(|order|, i requires 0 <= i < |order| => sent[order[i]][p])
  }

  function Column<T>(sent: seq<seq<T>>, p: nat): (col: seq<T>)
    requires forall i :: 0 <= i < |sent| ==> p < |sent[i]|
    ensures |col| == |sent| && forall i :: 0 <= i < |sent| ==> col[i] == sent[i][p]
  {
    seq(|sent|, i requires 0 <= i < |sent| => sent[i][p])
  }

  /** Sender i's message to partition p, `wire[i][p]`, carries the records `sent[i][p]`. */
  ghost predicate WireCarries<V>(w: Wire<V>, wire: seq<seq<seq<byte>>>, sent: seq<seq<seq<V>>>, n: nat) {
    && |wire| == |sent|
    && (forall i :: 0 <= i < |sent| ==> |wire[i]| == |sent[i]| == n)
    && (forall i, p :: 0 <= i < |sent| && 0 <= p < n ==> Carries(w, wire[i][p], sent[i][p]))
  }

  /** The receiver of partition `p`: fetch its messages in arrival order and drain them. */
  method ReceiveColumn<V(!new)>(w: Wire<V>, wire: seq<seq<seq<byte>>>, ghost sent: seq<seq<seq<V>>>, n: nat, p: nat, order: seq<nat>)
    returns (streams: seq<seq<byte>>, ghost records: seq<seq<V>>)
    requires p < n && WireCarries(w, wire, sent, n) && forall j :: 0 <= j < |sent| ==> |sent[j]| == n
    requires IsPermutation(order, |sent|)
    ensures |streams| == |records| && forall i :: 0 <= i < |records| ==> Carries(w, streams[i], records[i])
    ensures multiset(Flatten(records)) == multiset(Flatten(Column(sent, p)))
    ensures Flatten(records) == Gather(Column(sent, p), order)
  {
    hide Flatten, Gather;
    ArrivalOrderIrrelevant(sent, p, order);
    ArrivedIsGather(sent, p, order);
    streams, records := Arrived(wire, p, order), Arrived(sent, p, order);
  }

  lemma {:induction false} ArrivedIsGather<T>(sent: seq<seq<seq<T>>>, p: nat, order: seq<nat>)
    requires forall i :: 0 <= i < |sent| ==> p < |sent[i]|
    requires forall i :: 0 <= i < |order| ==> order[i] < |sent|
    ensures Flatten(Arrived(sent, p, order)) == Gather(Column(sent, p), order)
  {
    if order != [] {
      ArrivedIsGather(sent, p, order[1..]);
      assert Arrived(sent, p, order)[1..] == Arrived(sent, p, order[1..]);
    }
  }

  /** Whatever the arrival order, a receiver drains the same records. */
  lemma ArrivalOrderIrrelevant<T>(sent: seq<seq<seq<T>>>, p: nat, order: seq<nat>)
    requires forall i :: 0 <= i < |sent| ==> p < |sent[i]|
    requires IsPermutation(order, |sent|)
    ensures forall i :: 0 <= i < |order| ==> order[i] < |sent|
    ensures multiset(Flatten(Arrived(sent, p, order))) == multiset(Flatten(Column(sent, p)))
  {
    PermutationInRange(order, |sent|);
    ArrivedIsGather(sent, p, order);
    GatherAll(Column(sent, p), order);
  }

  lemma {:induction false} FlattenSameGroups<V(!new), K(!new)>(r: Reducer<V, K>, a: seq<seq<V>>, b: seq<seq<V>>)
    requires Combines(r) && |a| == |b|
    requires forall i :: 0 <= i < |a| ==> SameGroups(r, a[i], b[i])
    ensures SameGroups(r, Flatten(a), Flatten(b))
  {
    if a != [] {
      FlattenSameGroups(r, a[1..], b[1..]);
      SameGroupsConcat(r, a[0], Flatten(a[1..]), b[0], Flatten(b[1..]));
    }
  }

  /** The reducer of partition `p`: the group-by of all records addressed to it. */
  method ReduceColumn<V(!new), K(!new, ==)>(r: Reducer<V, K>, w: Wire<V>, wire: seq<seq<seq<byte>>>,
                                            ghost sent: seq<seq<seq<V>>>, n: nat, p: nat, order: seq<nat>)
    returns (out: seq<V>)
    requires Lawful(r) && Faithful(w)
    requires p < n && WireCarries(w, wire, sent, n) && forall j :: 0 <= j < |sent| ==> |sent[j]| == n
    requires IsPermutation(order, |sent|)
    ensures IsGroupBy(r, out, Flatten(Column(sent, p)))
  {
    hide *;
    var streams, records := ReceiveColumn(w, wire, sent, n, p, order);
    out := ReduceReceived(r, w, streams, records);
    PermutationSameGroups(r, Flatten(records), Flatten(Column(sent, p)));
    GroupByTransfer(r, out, Flatten(records), Flatten(Column(sent, p)));
  }

  /** What the senders address to partition `p` has the groups of all records routed to `p`. */
  lemma ColumnGroups<V(!new), K(!new)>(r: Reducer<V, K>, sent: seq<seq<seq<V>>>, parts: seq<seq<V>>,
                                       route: V -> nat, n: nat, p: nat)
    requires Lawful(r) && p < n && |sent| == |parts|
    requires forall i :: 0 <= i < |sent| ==> |sent[i]| == n
    requires forall i :: 0 <= i < |sent| ==> SameGroups(r, sent[i][p], Routed(parts[i], route, n, p))
    ensures SameGroups(r, Flatten(Column(sent, p)), Routed(Flatten(parts), route, n, p))
  {
    FlattenSameGroups(r, Column(sent, p), RoutedParts(parts, route, n, p));
    RoutedFlatten(parts, route, n, p);
  }

  /** ReduceBy: output partition `p` is the group-by of the records whose key hashes to `p`, for all
      input partitions, all partition counts and all message orders. */
  method ReduceBy<V(!new), K(!new, ==)>(r: Reducer<V, K>, w: Wire<V>, hash: K -> nat, n: nat,
                                        parts: seq<seq<V>>, order: seq<seq<nat>>)
    returns (outs: seq<seq<V>>)
    requires n > 0 && Lawful(r) && Faithful(w) && Closed(r, w) && PartsFit(w, parts)
    requires |order| == n && forall p :: 0 <= p < n ==> IsPermutation(order[p], |parts|)
    ensures |outs| == n
    ensures forall p :: 0 <= p < n ==>
              IsGroupBy(r, outs[p], Routed(Flatten(parts), KeyRoute(r, hash), n, p))
  {
    hide *;
    var route := KeyRoute(r, hash);
    var wire, sent := SerializeCombinedAll(r, w, hash, n, parts);
    outs := [];
    for p := 0 to n
      invariant |outs| == p
      invariant forall q :: 0 <= q < p ==> IsGroupBy(r, outs[q], Routed(Flatten(parts), route, n, q))
    {
      var out := ReduceColumn(r, w, wire, sent, n, p, order[p]);
      ColumnGroups(r, sent, parts, route, n, p);
      GroupByTransfer(r, out, Flatten(Column(sent, p)), Routed(Flatten(parts), route, n, p));
      outs := outs + [out];
    }
  }

  method SerializeCombinedAll<V(!new), K(!new, ==)>(r: Reducer<V, K>, w: Wire<V>, hash: K -> nat, n: nat, parts: seq<seq<V>>)
    returns (wire: seq<seq<seq<byte>>>, ghost sent: seq<seq<seq<V>>>)
    requires n > 0 && Lawful(r) && Faithful(w) && Closed(r, w) && PartsFit(w, parts)
    ensures |sent| == |parts| && WireCarries(w, wire, sent, n) && forall j :: 0 <= j < |sent| ==> |sent[j]| == n
    ensures forall j, p :: 0 <= j < |parts| && 0 <= p < n ==>
              SameGroups(r, sent[j][p], Routed(parts[j], KeyRoute(r, hash), n, p))
  {
    hide Lawful, Faithful, Carries, SameGroups, Routed;
    wire, sent := [], [];
    for i := 0 to |parts|
      invariant |sent| == i && WireCarries(w, wire, sent, n)
      invariant forall j, p :: 0 <= j < i && 0 <= p < n ==>
                  SameGroups(r, sent[j][p], Routed(parts[j], KeyRoute(r, hash), n, p))
    {
      var bytes, s := SerializeCombined(r, w, hash, n, parts[i]);
      wire, sent := wire + [bytes], sent + [s];
    }
  }

  method SerializeAll<V(!new)>(w: Wire<V>, route: V -> nat, n: nat, parts: seq<seq<V>>)
    returns (wire: seq<seq<seq<byte>>>, ghost sent: seq<seq<seq<V>>>)
    requires n > 0 && Faithful(w) && PartsFit(w, parts)
    ensures |sent| == |parts| && WireCarries(w, wire, sent, n) && forall j :: 0 <= j < |sent| ==> |sent[j]| == n
    ensures forall p :: 0 <= p < n ==> Column(sent, p) == RoutedParts(parts, route, n, p)
  {
    hide Faithful, Carries, Routed;
    wire, sent := [], [];
    for i := 0 to |parts|
      invariant |sent| == i && WireCarries(w, wire, sent, n)
      invariant forall j, p :: 0 <= j < i && 0 <= p < n ==> sent[j][p] == Routed(parts[j], route, n, p)
    {
      var bytes := Serialize(w, route, n, parts[i]);
      wire := wire + [bytes];
      sent := sent + [seq(n, p requires 0 <= p < n => Routed(parts[i], route, n, p))];
    }
  }

  /** RangeReduceBy: the same without map-side combining, routed by `keyHash` of the record. */
  method RangeReduceBy<V(!new), K(!new, ==)>(r: Reducer<V, K>, w: Wire<V>, keyHash: V -> nat, n: nat,
                                             parts: seq<seq<V>>, order: seq<seq<nat>>)
    returns (outs: seq<seq<V>>)
    requires n > 0 && Lawful(r) && Faithful(w) && PartsFit(w, parts)
    requires |order| == n && forall p :: 0 <= p < n ==> IsPermutation(order[p], |parts|)
    ensures |outs| == n
    ensures forall p :: 0 <= p < n ==> IsGroupBy(r, outs[p], Routed(Flatten(parts), keyHash, n, p))
  {
    hide *;
    var wire, sent := SerializeAll(w, keyHash, n, parts);
    outs := [];
    for p := 0 to n
      invariant |outs| == p
      invariant forall q :: 0 <= q < p ==> IsGroupBy(r, outs[q], Routed(Flatten(parts), keyHash, n, q))
    {
      var out := ReduceColumn(r, w, wire, sent, n, p, order[p]);
      RoutedFlatten(parts, keyHash, n, p);
      outs := outs + [out];
    }
  }

  /** `out` holds the records of `xs` routed to `p`, in some order. */
  ghost predicate HoldsRouted<V>(out: seq<V>, xs: seq<V>, route: V -> nat, n: nat, p: nat)
    requires n > 0
  {
    multiset(out) == multiset(Routed(xs, route, n, p))
  }

  /** PartitionBy: output partition `p` holds exactly the records routed to `p`, those of each input partition in their
      order there, and one input partition after the other in the order `order[p]` in which their messages arrive. */
  method PartitionBy<V(!new)>(w: Wire<V>, route: V -> nat, n: nat, parts: seq<seq<V>>, order: seq<seq<nat>>)
    returns (outs: seq<seq<V>>)
    requires n > 0 && Faithful(w) && PartsFit(w, parts)
    requires |order| == n && forall p :: 0 <= p < n ==> IsPermutation(order[p], |parts|)
    ensures |outs| == n
    ensures forall p :: 0 <= p < n ==> HoldsRouted(outs[p], Flatten(parts), route, n, p)
    ensures forall p :: 0 <= p < n ==> outs[p] == Gather(RoutedParts(parts, route, n, p), order[p])
  {
    hide Faithful, WireCarries, Carries, Flatten, Routed, Gather;
    var wire, sent := SerializeAll(w, route, n, parts);
    outs := [];
    for p := 0 to n
      invariant |outs| == p
      invariant forall q :: 0 <= q < p ==> outs[q] == Gather(RoutedParts(parts, route, n, q), order[q])
      invariant forall q :: 0 <= q < p ==> HoldsRouted(outs[q], Flatten(parts), route, n, q)
    {
      var streams, records := ReceiveColumn(w, wire, sent, n, p, order[p]);
      RoutedFlatten(parts, route, n, p);
      var out := Receive(w, streams, records);
      outs := outs + [out];
    }
  }

  /** `out` is all of `xs`, by key if it was sorted. */
  ghost predicate Broadcasted<V, K>(r: Reducer<V, K>, sorted: bool, out: seq<V>, xs: seq<V>) {
    multiset(out) == multiset(xs) && (sorted ==> SortedByKey(r, out))
  }

  /** The serialize and deserialize closures of Broadcast: every record is streamed to message 0, and every
      destination receives all of those, each in its own order, and sorts them by key if told to. */
  method ReceiveBroadcast<V(!new), K(!new)>(r: Reducer<V, K>, w: Wire<V>, useSort: bool, parts: seq<seq<V>>, order: seq<seq<nat>>)
    returns (datas: seq<seq<V>>)
    requires Faithful(w) && PartsFit(w, parts) && (useSort ==> Ordered(r))
    requires forall d :: 0 <= d < |order| ==> IsPermutation(order[d], |parts|)
    ensures |datas| == |order|
    ensures forall d :: 0 <= d < |order| ==> Broadcasted(r, useSort, datas[d], Flatten(parts))
    ensures !useSort ==> forall d :: 0 <= d < |order| ==> datas[d] == Gather(parts, order[d])
  {
    hide Faithful, PartsFit, Ordered, WireCarries, Carries, Flatten, Routed, SortedByKey, Gather;
    var route := (x: V) => 0 as nat;
    var wire, sent := SerializeAll(w, route, 1, parts);
    RoutedFlatten(parts, route, 1, 0);
    AllRouted(Flatten(parts), route);
    assert Column(sent, 0) == parts by { AllPartsRouted(parts, route); }
    datas := [];
    for d := 0 to |order|
      invariant |datas| == d
      invariant !useSort ==> forall e :: 0 <= e < d ==> datas[e] == Gather(parts, order[e])
      invariant forall e :: 0 <= e < d ==> Broadcasted(r, useSort, datas[e], Flatten(parts))
    {
      var streams, records := ReceiveColumn(w, wire, sent, 1, 0, order[d]);
      var data := Receive(w, streams, records);
      if useSort {
        data := SortByKey(r, data);
      }
      datas := datas + [data];
    }
  }

  /** The store of one process after the deserialize tasks of the shards in `ran`: data goes to slot 0, and
      to the slot of the shard itself when there is none. */
  method StoreOf<V>(datas: seq<seq<V>>, ran: seq<nat>) returns (store: map<nat, seq<V>>)
    requires forall i :: 0 <= i < |ran| ==> ran[i] < |datas|
    ensures 0 in store <==> exists i :: 0 <= i < |ran| && (datas[ran[i]] != [] || ran[i] == 0)
    ensures 0 in store ==> exists i :: 0 <= i < |ran| && store[0] == datas[ran[i]]
  {
    store := map[];
    for i := 0 to |ran|
      invariant 0 in store <==> exists k :: 0 <= k < i && (datas[ran[k]] != [] || ran[k] == 0)
      invariant 0 in store ==> exists k :: 0 <= k < i && store[0] == datas[ran[k]]
    {
      store := store[if datas[ran[i]] == [] then ran[i] else 0 := datas[ran[i]]];
    }
  }

  /** What the last task of Broadcast gets for a shard: the whole dataset; but of an empty dataset only
      processes on which shard 0 has been deserialized get a copy, and the others a null pointer. */
  ghost predicate Fetched<V, K>(r: Reducer<V, K>, sorted: bool, out: Option<seq<V>>, ran: seq<nat>, xs: seq<V>) {
    && (out.Some? <==> xs != [] || 0 in ran)
    && (out.Some? ==> Broadcasted(r, sorted, out.value, xs))
  }

  /** `out` is in the order in which the messages arrived at one of the shards in `ran`. */
  ghost predicate ArrivedSomewhere<V>(out: seq<V>, parts: seq<seq<V>>, order: seq<seq<nat>>, ran: seq<nat>) {
    exists i :: 0 <= i < |ran| && ran[i] < |order| && out == Gather(parts, order[ran[i]])
  }

  /** Shard d has been deserialized, and so have only shards there are. */
  ghost predicate Ran(ran: seq<nat>, d: nat, n: nat) {
    d in ran && forall i :: 0 <= i < |ran| ==> ran[i] < n
  }

  lemma StoreHolds<V, K>(r: Reducer<V, K>, sorted: bool, datas: seq<seq<V>>, ran: seq<nat>, d: nat, xs: seq<V>)
    requires Ran(ran, d, |datas|) && forall e :: 0 <= e < |datas| ==> Broadcasted(r, sorted, datas[e], xs)
    ensures (exists i :: 0 <= i < |ran| && (datas[ran[i]] != [] || ran[i] == 0)) <==> xs != [] || 0 in ran
  {
    forall e | 0 <= e < |datas| ensures datas[e] == [] <==> xs == [] {
      assert Broadcasted(r, sorted, datas[e], xs);
      assert |multiset(datas[e])| == |multiset(xs)|;
    }
    if xs != [] {
      var i :| 0 <= i < |ran| && ran[i] == d;
      assert datas[ran[i]] != [];
    }
  }

  /** Broadcast.  `ran[d]` lists the shards whose deserialize task has run on the process of shard d when its
      last task fetches the data, d among them. */
  method Broadcast<V(!new), K(!new)>(r: Reducer<V, K>, w: Wire<V>, useSort: bool, parts: seq<seq<V>>, order: seq<seq<nat>>,
                                     ran: seq<seq<nat>>)
    returns (outs: seq<Option<seq<V>>>)
    requires Faithful(w) && PartsFit(w, parts) && (useSort ==> Ordered(r))
    requires forall d :: 0 <= d < |order| ==> IsPermutation(order[d], |parts|)
    requires |ran| == |order| && forall d :: 0 <= d < |order| ==> Ran(ran[d], d, |order|)
    ensures |outs| == |order|
    ensures forall d :: 0 <= d < |order| ==> Fetched(r, useSort, outs[d], ran[d], Flatten(parts))
    ensures !useSort ==> forall d :: 0 <= d < |order| && outs[d].Some? ==> ArrivedSomewhere(outs[d].value, parts, order, ran[d])
  {
    hide Faithful, PartsFit, Ordered, Broadcasted, Flatten, Gather;
    var datas := ReceiveBroadcast(r, w, useSort, parts, order);
    outs := [];
    for d := 0 to |order|
      invariant |outs| == d
      invariant forall e :: 0 <= e < d ==> Fetched(r, useSort, outs[e], ran[e], Flatten(parts))
      invariant !useSort ==> forall e :: 0 <= e < d && outs[e].Some? ==> ArrivedSomewhere(outs[e].value, parts, order, ran[e])
    {
      var store := StoreOf(datas, ran[d]);
      StoreHolds(r, useSort, datas, ran[d], d, Flatten(parts));
      outs := outs + [if 0 in store then Some(store[0]) else None];
    }
  }

  // ---------- what the operators promise together ----------

  /** Map-side combining is transparent: with one routing function of the key, ReduceBy and
      RangeReduceBy can only produce equal output partitions. */
  lemma CombiningIsTransparent<V(!new), K(!new)>(r: Reducer<V, K>, hash: K -> nat, keyHash: V -> nat, n: nat,
                                                 xs: seq<V>, reduced: seq<V>, ranged: seq<V>, p: nat)
    requires Lawful(r) && p < n
    requires forall x :: x in xs ==> keyHash(x) % n == hash(r.key(x)) % n
    requires IsGroupBy(r, reduced, Routed(xs, KeyRoute(r, hash), n, p))
    requires IsGroupBy(r, ranged, Routed(xs, keyHash, n, p))
    ensures reduced == ranged
  {
    SameRouting(xs, KeyRoute(r, hash), keyHash, n, p);
    GroupByUnique(r, reduced, ranged);
  }

  lemma {:induction false} SameRouting<V(!new)>(xs: seq<V>, f: V -> nat, g: V -> nat, n: nat, p: nat)
    requires n > 0 && forall x :: x in xs ==> f(x) % n == g(x) % n
    ensures Routed(xs, f, n, p) == Routed(xs, g, n, p)
  {
    if xs != [] {
      assert xs[0] in xs;
      SameRouting(xs[1..], f, g, n, p);
    }
  }

  /** Every record of `xs` is in exactly one of the n routed parts, as often as in `xs`. */
  lemma {:induction false} RoutedPartition<V(!new)>(xs: seq<V>, route: V -> nat, n: nat, x: V)
    requires n > 0
    ensures forall p :: 0 <= p < n ==>
              multiset(Routed(xs, route, n, p))[x] == if p == route(x) % n then multiset(xs)[x] else 0
  {
    if xs != [] {
      RoutedPartition(xs[1..], route, n, x);
      assert xs == [xs[0]] + xs[1..];
      assert multiset(xs)[x] == multiset([xs[0]])[x] + multiset(xs[1..])[x];
    }
  }

  /** Nothing is lost or repeated by PartitionBy, and a key lives in one partition only. */
  lemma PartitionByConserves<V(!new)>(outs: seq<seq<V>>, xs: seq<V>, route: V -> nat, n: nat)
    requires n > 0 && |outs| == n
    requires forall p :: 0 <= p < n ==> HoldsRouted(outs[p], xs, route, n, p)
    ensures multiset(Flatten(outs)) == multiset(xs)
    ensures forall p, x :: 0 <= p < n && x in outs[p] ==> p == route(x) % n
    ensures forall p, q, x, y :: 0 <= p < n && 0 <= q < n && x in outs[p] && y in outs[q] && route(x) == route(y) ==>
              p == q
  {
    forall x ensures multiset(Flatten(outs))[x] == multiset(xs)[x] {
      RoutedPartition(xs, route, n, x);
      CountFlatten(outs, x, route(x) % n);
    }
    forall p, x | 0 <= p < n && x in outs[p] ensures p == route(x) % n {
      assert x in multiset(outs[p]);
      RoutedMembers(xs, route, n, p);
    }
  }

  lemma {:induction false} CountFlatten<V>(outs: seq<seq<V>>, x: V, home: int)
    requires forall p :: 0 <= p < |outs| && p != home ==> multiset(outs[p])[x] == 0
    ensures multiset(Flatten(outs))[x] == if 0 <= home < |outs| then multiset(outs[home])[x] else 0
  {
    if outs != [] {
      CountFlatten(outs[1..], x, home - 1);
    }
  }

  /** With one partition everything stays together. */
  lemma {:induction false} AllRouted<V>(xs: seq<V>, route: V -> nat)
    ensures Routed(xs, route, 1, 0) == xs
  {
    if xs != [] {
      AllRouted(xs[1..], route);
    }
  }

  lemma AllPartsRouted<V>(parts: seq<seq<V>>, route: V -> nat)
    ensures RoutedParts(parts, route, 1, 0) == parts
  {
    hide Routed;
    forall i | 0 <= i < |parts| ensures Routed(parts[i], route, 1, 0) == parts[i] {
      AllRouted(parts[i], route);
    }
  }

  /** Routing by key splits the groups, not their records. */
  lemma {:induction false} AggRouted<V(!new), K(!new)>(r: Reducer<V, K>, hash: K -> nat, xs: seq<V>, n: nat, p: nat, k: K)
    requires n > 0
    ensures Agg(r, Routed(xs, KeyRoute(r, hash), n, p), k) == if hash(k) % n == p then Agg(r, xs, k) else None
  {
    var route := KeyRoute(r, hash);
    if xs != [] {
      AggRouted(r, hash, xs[1..], n, p, k);
      if route(xs[0]) % n == p {
        assert Routed(xs, route, n, p)[1..] == Routed(xs[1..], route, n, p);
      } else {
        assert Routed(xs, route, n, p) == Routed(xs[1..], route, n, p);
      }
    }
  }

  ghost predicate DistinctKeys<V, K>(r: Reducer<V, K>, xs: seq<V>) {
    forall i, j :: 0 <= i < j < |xs| ==> r.key(xs[i]) != r.key(xs[j])
  }

  /** The output partitions of ReduceBy, taken together: one record for each key of the input, with
      everything of that key combined. */
  lemma ReducedTogether<V(!new), K(!new)>(r: Reducer<V, K>, hash: K -> nat, n: nat, outs: seq<seq<V>>, xs: seq<V>)
    requires n > 0 && Lawful(r) && |outs| == n
    requires forall p :: 0 <= p < n ==> IsGroupBy(r, outs[p], Routed(xs, KeyRoute(r, hash), n, p))
    ensures SameGroups(r, Flatten(outs), xs) && DistinctKeys(r, Flatten(outs))
  {
    hide Lawful, SameGroups, Agg, Flatten, Routed, DistinctKeys;
    assert Combines(r) by { LawfulCombines(r); }
    var route := KeyRoute(r, hash);
    var cols := seq(n, p requires 0 <= p < n => Routed(xs, route, n, p));
    FlattenSameGroups(r, outs, cols);
    PartitionByConserves(cols, xs, route, n);
    PermutationSameGroups(r, Flatten(cols), xs);
    SameGroupsTransitive(r, Flatten(outs), Flatten(cols), xs);
    forall p | 0 <= p < n ensures DistinctKeys(r, outs[p]) && forall i :: 0 <= i < |outs[p]| ==> hash(r.key(outs[p][i])) % n == p {
      GroupByAtHome(r, hash, n, p, outs[p], xs);
    }
    DistinctFlatten(r, hash, n, outs, 0);
  }

  lemma {:induction false} FlattenFits<V>(w: Wire<V>, parts: seq<seq<V>>)
    ensures PartsFit(w, parts) <==> AllFit(w, Flatten(parts))
  {
    if parts != [] {
      FlattenFits(w, parts[1..]);
      var all, rest := Flatten(parts), Flatten(parts[1..]);
      assert forall x :: x in all <==> x in parts[0] || x in rest;
      assert PartsFit(w, parts) <==> AllFit(w, parts[0]) && PartsFit(w, parts[1..]) by {
        assert forall p :: 0 <= p < |parts[1..]| ==> parts[1..][p] == parts[p + 1];
      }
    }
  }

  lemma RoutedFits<V(!new)>(w: Wire<V>, xs: seq<V>, route: V -> nat, n: nat, p: nat)
    requires n > 0 && AllFit(w, xs)
    ensures AllFit(w, Routed(xs, route, n, p))
  {
    RoutedMembers(xs, route, n, p);
  }

  /** What a reduction leaves can be sent again. */
  lemma GroupByFits<V(!new), K(!new)>(r: Reducer<V, K>, w: Wire<V>, out: seq<V>, xs: seq<V>)
    requires Lawful(r) && Closed(r, w) && AllFit(w, xs) && IsGroupBy(r, out, xs)
    ensures AllFit(w, out)
  {
    hide Lawful, Closed, AllFit, Agg;
    forall i | 0 <= i < |out| ensures w.fits(out[i]) {
      AscendingAgg(r, out, i);
      AggFits(r, w, xs, r.key(out[i]));
      assert Agg(r, out, r.key(out[i])) == Agg(r, xs, r.key(out[i]));
    }
    FitsAtEvery(w, out);
  }

  lemma FitsAtEvery<V>(w: Wire<V>, xs: seq<V>)
    requires forall i :: 0 <= i < |xs| ==> w.fits(xs[i])
    ensures AllFit(w, xs)
  {
  }

  lemma {:induction false} AggFits<V(!new), K(!new)>(r: Reducer<V, K>, w: Wire<V>, xs: seq<V>, k: K)
    requires Lawful(r) && Closed(r, w) && AllFit(w, xs)
    ensures Agg(r, xs, k).Some? ==> w.fits(Agg(r, xs, k).value)
  {
    if xs != [] {
      assert AllFit(w, xs[1..]);
      AggFits(r, w, xs[1..], k);
      AggKey(r, xs[1..], k);
      assert xs[0] in xs;
    }
  }

  lemma SameGroupsTransitive<V(!new), K(!new)>(r: Reducer<V, K>, a: seq<V>, b: seq<V>, c: seq<V>)
    requires SameGroups(r, a, b) && SameGroups(r, b, c)
    ensures SameGroups(r, a, c)
  {
  }

  lemma GroupByAtHome<V(!new), K(!new)>(r: Reducer<V, K>, hash: K -> nat, n: nat, p: nat, out: seq<V>, xs: seq<V>)
    requires n > 0 && Lawful(r) && IsGroupBy(r, out, Routed(xs, KeyRoute(r, hash), n, p))
    ensures DistinctKeys(r, out)
    ensures forall i :: 0 <= i < |out| ==> hash(r.key(out[i])) % n == p
  {
    forall i | 0 <= i < |out| ensures hash(r.key(out[i])) % n == p {
      AscendingAgg(r, out, i);
      AggRouted(r, hash, xs, n, p, r.key(out[i]));
    }
  }

  lemma {:induction false} DistinctFlatten<V, K>(r: Reducer<V, K>, hash: K -> nat, n: nat, outs: seq<seq<V>>, first: nat)
    requires n > 0
    requires forall p :: 0 <= p < |outs| ==>
               DistinctKeys(r, outs[p]) && forall i :: 0 <= i < |outs[p]| ==> hash(r.key(outs[p][i])) % n == first + p
    ensures DistinctKeys(r, Flatten(outs))
    ensures forall i :: 0 <= i < |Flatten(outs)| ==> hash(r.key(Flatten(outs)[i])) % n >= first
    decreases |outs|
  {
    if outs != [] {
      DistinctFlatten(r, hash, n, outs[1..], first + 1);
    }
  }
}
