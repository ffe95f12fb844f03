/** The columnar strings of ursa/common/dataset/string_partition.h: all bytes in one vector, string
    i between offsets i and i + 1.  The class is proved against the sequence of strings it holds. */
module StringPartitions {
  import opened Arithmetic
  import opened Codec
  import opened Partition
  import opened Sequences

  const U32_LIMIT: nat := 0x1_0000_0000

  /** size_type is uint32_t. */
  function U32(n: nat): nat { n % U32_LIMIT }

  /** 32-bit arithmetic is exact below the limit; an overflowing sum of two 32-bit values comes out
      below either of them. */
  lemma U32Facts(pre: nat, n: nat)
    requires pre < U32_LIMIT
    ensures U32(n) <= n && U32(n) < U32_LIMIT && (n < U32_LIMIT ==> U32(n) == n)
    ensures U32(pre + U32(n)) < U32_LIMIT
    ensures if pre + U32(n) < U32_LIMIT then U32(pre + U32(n)) == pre + U32(n) else U32(pre + U32(n)) < pre
  {
  }

  /** std::vector::resize. */
  function Resized<T>(xs: seq<T>, n: nat, zero: T): (r: seq<T>)
    ensures |r| == n && forall i :: 0 <= i < n && i < |xs| ==> r[i] == xs[i]
  {
    if n <= |xs| then xs[..n] else xs + seq(n - |xs|, _ => zero)
  }

  /** memmove / memcpy of `src` to position `at`. */
  function Overwrite<T>(xs: seq<T>, at: nat, src: seq<T>): (r: seq<T>)
    requires at + |src| <= |xs|
    ensures |r| == |xs| && r[..at] == xs[..at] && r[at..at + |src|] == src
    ensures forall k :: at + |src| <= k < |xs| ==> r[k] == xs[k]
  {
    xs[..at] + src + xs[at + |src|..]
  }

  ghost predicate Monotone(offset: seq<nat>, n: nat)
    requires n <= |offset|
  {
    forall i, j :: 0 <= i <= j < n ==> offset[i] <= offset[j]
  }

  /** The first n strings. */
  function Strings(offset: seq<nat>, data: seq<byte>, n: nat): (r: seq<seq<byte>>)
    requires n < |offset| && Monotone(offset, n + 1) && offset[n] <= |data|
    ensures |r| == n && forall i :: 0 <= i < n ==> r[i] == data[offset[i]..offset[i + 1]]
  {
    seq(n, i requires 0 <= i < n => data[offset[i]..offset[i + 1]])
  }

  /** Only the first offsets and bytes matter. */
  lemma SameStrings(o: seq<nat>, d: seq<byte>, o': seq<nat>, d': seq<byte>, n: nat)
    requires n < |o| && Monotone(o, n + 1) && o[n] <= |d|
    requires n < |o'| && (forall i :: 0 <= i <= n ==> o'[i] == o[i]) && o[n] <= |d'|
    requires forall k :: 0 <= k < o[n] ==> d'[k] == d[k]
    ensures Monotone(o', n + 1) && Strings(o', d', n) == Strings(o, d, n)
  {
    forall i | 0 <= i < n ensures d'[o[i]..o[i + 1]] == d[o[i]..o[i + 1]] {
    }
  }

  /** Arrays that add string `s` behind the first n. */
  lemma Appended(o: seq<nat>, d: seq<byte>, n: nat, o': seq<nat>, d': seq<byte>, s: seq<byte>)
    requires n < |o| && Monotone(o, n + 1) && o[n] <= |d|
    requires n + 1 < |o'| && (forall i :: 0 <= i <= n ==> o'[i] == o[i]) && o'[n + 1] == o[n] + |s| <= |d'|
    requires d'[..o[n]] == d[..o[n]] && d'[o[n]..o[n] + |s|] == s
    ensures Monotone(o', n + 2) && Strings(o', d', n + 1) == Strings(o, d, n) + [s]
  {
    assert forall k :: 0 <= k < o[n] ==> d'[k] == d'[..o[n]][k] == d[..o[n]][k] == d[k];
    forall i | 0 <= i < n ensures d'[o[i]..o[i + 1]] == d[o[i]..o[i + 1]] {
    }
  }

  lemma NotAppended(o: seq<nat>, d: seq<byte>, n: nat, before: seq<seq<byte>>, s: seq<byte>)
    requires n + 1 < |o| && Monotone(o, n + 2) && o[n + 1] <= |d| && |before| == n
    requires o[n + 1] - o[n] != |s|
    ensures Strings(o, d, n + 1) != before + [s]
  {
    assert |Strings(o, d, n + 1)[n]| == o[n + 1] - o[n];
    assert (before + [s])[n] == s;
  }

  lemma PositiveFactor(n: nat, m: nat)
    ensures n * m > 0 ==> m > 0
  {
  }

  lemma Repeated(offset: seq<nat>, data: seq<byte>, n: nat, s: seq<byte>)
    requires |offset| == n + 1 && |data| == n * |s|
    requires forall k :: 0 <= k <= n ==> offset[k] == k * |s|
    requires forall k :: 0 <= k < |data| ==> |s| > 0 && data[k] == s[k % |s|]
    ensures Monotone(offset, n + 1) && offset[n] <= |data| && Strings(offset, data, n) == seq(n, _ => s)
  {
    forall i, j | 0 <= i <= j <= n ensures offset[i] <= offset[j] {
      MultipleBelow(i, j, |s|);
    }
    forall k | 0 <= k < n ensures data[offset[k]..offset[k + 1]] == s {
      CopyAt(data, n, s, k);
      assert (k + 1) * |s| == k * |s| + |s|;
    }
  }

  lemma CopyAt(data: seq<byte>, n: nat, s: seq<byte>, k: nat)
    requires |data| == n * |s| && k < n
    requires forall i :: 0 <= i < |data| ==> |s| > 0 && data[i] == s[i % |s|]
    ensures k * |s| + |s| <= |data| && data[k * |s|..k * |s| + |s|] == s
  {
    MultipleBelow(k, n, |s|);
    var copy := data[k * |s|..k * |s| + |s|];
    forall j | 0 <= j < |s| ensures copy[j] == s[j] {
      RemainderUnique(k * |s| + j, |s|, k, j);
    }
  }

  /** Each pushed offset repeats the one read: if no stale offset differs, none of the new ones does. */
  lemma EchoedOffsets(o: seq<nat>, o': seq<nat>, first: nat, n: nat)
    requires first <= n && first < |o| && |o'| == |o| + (n - first) && o'[..|o|] == o
    requires Echoes(o', |o|, first)
    ensures (forall k :: first < k <= n && k < |o| ==> o[k] == o[first]) <==> AllEnd(o', first, n)
  {
    assert forall k :: 0 <= k < |o| ==> o'[k] == o'[..|o|][k] == o[k];
    if forall k :: first < k <= n && k < |o| ==> o[k] == o[first] {
      forall k | first < k <= n ensures o'[k] == o'[first] {
        Echo(o', |o|, first, n, k);
      }
    }
  }

  /** From m on every offset repeats the one m - first places before. */
  ghost predicate Echoes(o: seq<nat>, m: nat, first: nat)
    requires first < m
  {
    forall k :: m <= k < |o| ==> o[k] == o[first + (k - m)]
  }

  ghost predicate AllEnd(o: seq<nat>, first: nat, n: nat)
    requires first <= n < |o|
  {
    forall k :: first < k <= n ==> o[k] == o[first]
  }

  lemma {:induction false} Echo(o': seq<nat>, m: nat, first: nat, n: nat, k: nat)
    requires first < m && first <= k <= n && |o'| == m + (n - first)
    requires Echoes(o', m, first)
    requires forall i :: first < i <= n && i < m ==> o'[i] == o'[first]
    ensures o'[k] == o'[first]
  {
    if k >= m {
      Echo(o', m, first, n, first + (k - m));
    }
  }

  ghost predicate Grown(o: seq<nat>, o': seq<nat>, d: seq<byte>, first: nat, n: nat)
    requires first < |o| && n < |o'| && first <= n && Monotone(o, first + 1) && o[first] <= |d|
  {
    && Monotone(o', n + 1) && o'[n] <= |d|
    && Strings(o', d, n) == Strings(o, d, first) + seq(n - first, _ => [])
  }

  /** Empty strings behind the first ones: exactly when the offsets from there on stay the same. */
  lemma GrownByEmpties(o: seq<nat>, o': seq<nat>, d: seq<byte>, first: nat, n: nat)
    requires first < |o| <= |o'| && first <= n < |o'| && o'[..|o|] == o && Monotone(o, first + 1) && o[first] <= |d|
    ensures Grown(o, o', d, first, n) <==> AllEnd(o', first, n)
  {
    assert forall k :: 0 <= k < |o| ==> o'[k] == o'[..|o|][k] == o[k];
    if AllEnd(o', first, n) {
      var a, b := Strings(o', d, n), Strings(o, d, first) + seq(n - first, _ => []);
      forall i | 0 <= i < n ensures a[i] == b[i] {
        if i >= first {
          assert o'[i] == o'[first] && o'[i + 1] == o'[first];
        }
      }
    }
    if Grown(o, o', d, first, n) {
      SameEnds(o', d, first, n, Strings(o, d, first));
    }
  }

  lemma FewerStrings(o: seq<nat>, d: seq<byte>, n: nat, m: nat)
    requires m <= n < |o| && Monotone(o, n + 1) && o[n] <= |d|
    ensures Monotone(o, m + 1) && o[m] <= |d| && Strings(o, d, m) == Strings(o, d, n)[..m]
  {
  }

  lemma DropEmpty(before: seq<seq<byte>>, k: nat)
    requires k > 0
    ensures var s := before + seq(k, _ => []);
            s[|s| - 1] == [] && s[..|s| - 1] == before + seq(k - 1, _ => [])
  {
  }

  lemma {:induction false} SameEnds(o': seq<nat>, d: seq<byte>, first: nat, n: nat, before: seq<seq<byte>>)
    requires first <= n < |o'| && |before| == first && Monotone(o', n + 1) && o'[n] <= |d|
    requires Strings(o', d, n) == before + seq(n - first, _ => [])
    ensures AllEnd(o', first, n)
    decreases n
  {
    if first < n {
      hide Strings;
      StringAt(o', d, n, n - 1);
      FewerStrings(o', d, n, n - 1);
      DropEmpty(before, n - first);
      SameEnds(o', d, first, n - 1, before);
    }
  }

  /** `offset` and `data` hold exactly `strings`, packed from byte 0. */
  ghost predicate PackedAs(offset: seq<nat>, data: seq<byte>, strings: seq<seq<byte>>) {
    && |offset| == |strings| + 1 && offset[0] == 0 && Monotone(offset, |offset|) && offset[|strings|] <= |data|
    && Strings(offset, data, |strings|) == strings
  }

  lemma CutOffsets(offset: seq<nat>, cur: nat, last: nat)
    requires cur < |offset|
    ensures Resized(offset[cur := last], cur + 1, 0) == offset[..cur] + [last]
  {
  }

  lemma PackNone(data: seq<byte>)
    ensures PackedAs([0], data, [])
  {
  }

  lemma KeptNone<V>(xs: seq<V>, keep: seq<bool>)
    requires |xs| == |keep|
    ensures Kept(xs[..0], keep[..0]) == [] && |xs[..0]| == 0
  {
  }

  lemma StringAt(offset: seq<nat>, data: seq<byte>, n: nat, i: nat)
    requires i < n < |offset| && Monotone(offset, n + 1) && offset[n] <= |data|
    ensures offset[i] <= offset[i + 1] <= offset[n]
    ensures Strings(offset, data, n)[i] == data[offset[i]..offset[i + 1]]
  {
  }

  lemma PackedIs(offset: seq<nat>, data: seq<byte>, strings: seq<seq<byte>>)
    requires PackedAs(offset, data, strings)
    ensures var n := |strings|;
            && |offset| == n + 1 && offset[0] == 0 && Monotone(offset, n + 1) && offset[n] <= |data|
            && Strings(offset, data, n) == strings
            && forall i :: 0 <= i <= n ==> offset[i] <= offset[n]
  {
  }

  /** Writing one more string right behind the packed ones. */
  lemma PackMore(offset: seq<nat>, data: seq<byte>, strings: seq<seq<byte>>, data': seq<byte>, s: seq<byte>)
    requires PackedAs(offset, data, strings) && |offset| == |strings| + 1
    requires var p := offset[|strings|];
             p <= |data| && p + |s| <= |data'| && data'[..p] == data[..p] && data'[p..p + |s|] == s
    ensures PackedAs(offset + [offset[|strings|] + |s|], data', strings + [s])
  {
    var n := |strings|;
    var o' := offset + [offset[n] + |s|];
    Appended(offset, data, n, o', data', s);
  }

  /** Offsets shifted down by the first one read the same strings from the shifted bytes. */
  lemma SliceStrings(o: seq<nat>, d: seq<byte>, size: nat, from: nat, n: nat, o': seq<nat>, d': seq<byte>)
    requires size < |o| && Monotone(o, size + 1) && o[size] <= |d| && from + n <= size
    requires |o'| == n + 1 && forall k :: 0 <= k <= n ==> o'[k] == o[from + k] - o[from]
    requires d' == d[o[from]..o[from + n]]
    ensures Monotone(o', n + 1) && o'[n] <= |d'|
    ensures Strings(o', d', n) == Strings(o, d, size)[from..from + n]
  {
    forall k | 0 <= k < n ensures d'[o'[k]..o'[k + 1]] == d[o[from + k]..o[from + k + 1]] {
      SliceOfSlice(d, o[from], o[from + n], o[from + k], o[from + k + 1]);
    }
  }

  /** The strings take exactly the bytes between the first and the last offset. */
  lemma {:induction false} AllBytes(offset: seq<nat>, data: seq<byte>, n: nat)
    requires n < |offset| && Monotone(offset, n + 1) && offset[n] <= |data|
    ensures |Flatten(Strings(offset, data, n))| == offset[n] - offset[0]
  {
    if n > 0 {
      AllBytes(offset, data, n - 1);
      var s := data[offset[n - 1]..offset[n]];
      assert Strings(offset, data, n) == Strings(offset, data, n - 1) + [s];
      FlattenSnoc(Strings(offset, data, n - 1), s);
    }
  }

  lemma MultisetLength<T>(a: seq<T>, b: seq<T>)
    requires multiset(a) == multiset(b)
    ensures |a| == |b|
  {
    assert |multiset(a)| == |multiset(b)|;
  }

  lemma GatherGrows(strings: seq<seq<byte>>, order: seq<nat>, i: nat)
    requires i < |order| && order[i] < |strings|
    ensures |Gather(strings, order[..i + 1])| == |Gather(strings, order[..i])| + |strings[order[i]]|
    ensures |Gather(strings, order[..i + 1])| <= |Gather(strings, order)|
  {
    assert order[..i + 1] == order[..i] + [order[i]];
    GatherConcat(strings, order[..i], [order[i]]);
    assert Gather(strings, [order[i]]) == strings[order[i]] by {
      assert [order[i]][1..] == [];
    }
    assert order == order[..i + 1] + order[i + 1..];
    GatherConcat(strings, order[..i + 1], order[i + 1..]);
  }

  lemma {:induction false} CopiesLength(n: nat, s: seq<byte>)
    ensures |Flatten(seq(n, _ => s))| == n * |s|
  {
    if n > 0 {
      CopiesLength(n - 1, s);
      FlattenSnoc(seq(n - 1, _ => s), s);
      assert seq(n, _ => s) == seq(n - 1, _ => s) + [s];
      assert n * |s| == (n - 1) * |s| + |s|;
    }
  }

  // ---------- the object ----------

  class StringPartition {
    var size: nat
    var offset: seq<nat>
    var data: seq<byte>

    /** Every index below `size` can be read. */
    ghost predicate Valid()
      reads this
    {
      && size < |offset| && offset[0] == 0 && Monotone(offset, size + 1) && offset[size] <= |data|
      && forall i :: 0 <= i < |offset| ==> offset[i] < U32_LIMIT
    }

    /** No stale offsets are left behind the last string. */
    predicate Compact()
      reads this
    {
      |offset| == size + 1
    }

    /** The contents. */
    ghost function View(): seq<seq<byte>>
      reads this
      requires Valid()
    {
      Strings(offset, data, size)
    }

    constructor ()
      ensures Valid() && Compact() && View() == [] && size == 0 && offset == [0] && data == []
    {
      size, offset, data := 0, [0], [];
    }

    /** n copies of `s`, laid out at once; right exactly when all their bytes fit 32 bits. */
    constructor Repeat(n: nat, s: seq<byte>)
      requires n < U32_LIMIT
      ensures size == n && Compact() && |data| == n * |s|
      ensures Valid() && View() == seq(n, _ => s) <==> n * |s| < 0x1_0000_0000
    {
      size, offset, data := n, [], [];
      new;
      hide Strings, U32;
      var length := |s|;
      for i := 0 to n + 1
        invariant size == n && |offset| == i && data == []
        invariant forall k :: 0 <= k < i ==> offset[k] == U32(k * length)
      {
        offset := offset + [U32(i * length)];
      }
      for i := 0 to n * length
        invariant size == n && |offset| == n + 1 && |data| == i
        invariant forall k :: 0 <= k < n + 1 ==> offset[k] == U32(k * length)
        invariant forall k :: 0 <= k < i ==> length > 0 && data[k] == s[k % length]
      {
        PositiveFactor(n, length);
        data := data + [s[i % length]];
      }
      if n * length < U32_LIMIT {
        forall k | 0 <= k <= n ensures offset[k] == k * length <= n * length {
          MultipleBelow(k, n, length);
          U32Facts(0, k * length);
        }
        Repeated(offset, data, n, s);
      } else if Valid() {
        AllBytes(offset, data, n);
        CopiesLength(n, s);
      }
    }

    /** push_back reads the end of the last string at index `size` but appends its offset at the end
        of the offset vector.  It does what it should exactly when the byte count fits 32 bits and
        the offset vector has no stale entry there, or one that happens to be the right one. */
    method PushBack(s: seq<byte>)
      requires Valid()
      modifies this
      ensures size == old(size) + 1
      ensures Valid() && View() == old(View()) + [s] <==>
                && old(offset[size]) + |s| < 0x1_0000_0000
                && (old(Compact()) || old(offset[size + 1]) == old(offset[size]) + |s|)
      ensures old(Compact()) ==> Compact()
      ensures old(Compact()) && old(offset[size]) + |s| < 0x1_0000_0000 ==> offset[size] == old(offset[size]) + |s|
    {
      hide Strings, U32, Overwrite, Resized, Monotone;
      U32Facts(offset[size], |s|);
      var length := U32(|s|);
      var pre := offset[size];
      ghost var before := View();
      if length == 0 {
        PushEmpty();
      } else {
        var end := U32(pre + length);
        data := Resized(data, end, 0);
        if pre + length <= |data| {
          data := Overwrite(data, pre, s[..length]);
        }
        offset := offset + [end];
        size := size + 1;
      }
      if old(offset[size]) + |s| < U32_LIMIT && offset[size] == old(offset[size]) + |s| {
        Appended(old(offset), old(data), old(size), offset, data, s);
      } else if Valid() {
        NotAppended(offset, data, old(size), before, s);
      }
    }

    /** push_back of no bytes: only the offset at index `size` is read. */
    method PushEmpty()
      requires size < |offset|
      modifies this`size, this`offset
      ensures size == old(size) + 1 && offset == old(offset) + [old(offset[size])]
    {
      offset := offset + [offset[size]];
      size := size + 1;
    }

    /** pop_back; undefined in the source on an empty partition. */
    method PopBack()
      requires Valid() && size > 0
      modifies this
      ensures Valid() && View() == old(View())[..old(size) - 1] && (old(Compact()) ==> Compact())
    {
      hide Strings, Monotone;
      ghost var o, d := offset, data;
      FewerStrings(offset, data, size, size - 1);
      size := size - 1;
      data := Resized(data, offset[size], 0);
      offset := offset[..|offset| - 1];
      SameStrings(o, d, offset, data, size);
    }

    /** The offsets left behind the last string, as far as n, all mark its end. */
    ghost predicate StaleHarmless(n: nat)
      reads this
      requires size < |offset|
    {
      forall k :: size < k <= n && k < |offset| ==> offset[k] == offset[size]
    }

    /** resize: shrinking only forgets strings and leaves their offsets behind.  Growing pushes empty
        strings, and is exact unless stale offsets give old strings back. */
    method Resize(n: nat)
      requires Valid()
      modifies this`size, this`offset
      ensures size == n
      ensures n < old(size) ==> Valid() && View() == old(View())[..n] && offset == old(offset)
      ensures n >= old(size) ==>
                (Valid() && View() == old(View()) + seq(n - old(size), _ => []) <==> old(StaleHarmless(n)))
      ensures n >= old(size) && old(Compact()) ==> Compact()
    {
      hide Strings, AllEnd, Monotone;
      if n < size {
        FewerStrings(offset, data, size, n);
        size := n;
        return;
      }
      ghost var o, first := offset, size;
      var length := n - size;
      for i := 0 to length
        invariant size == first + i && |offset| == |o| + i && offset[..|o|] == o
        invariant Echoes(offset, |o|, first)
        invariant forall k :: 0 <= k < |offset| ==> offset[k] < U32_LIMIT
      {
        PushEmpty();
      }
      EchoedOffsets(o, offset, first, n);
      GrownByEmpties(o, offset, data, first, n);
    }

    /** shrink_to_fit drops the stale offsets and bytes. */
    method ShrinkToFit()
      requires Valid()
      modifies this
      ensures Valid() && Compact() && View() == old(View()) && |data| == offset[size]
    {
      hide Strings, Monotone;
      ghost var o, d := offset, data;
      offset := Resized(offset, size + 1, 0);
      data := Resized(data, offset[size], 0);
      SameStrings(o, d, offset, data, size);
    }

    method Clear()
      modifies this
      ensures Valid() && Compact() && View() == []
    {
      offset, data := [], [];
      size := 0;
      offset := offset + [0];
    }

    /** at(i). */
    method At(i: nat) returns (s: seq<byte>)
      requires Valid() && i < size
      ensures s == View()[i]
    {
      s := data[offset[i]..offset[i + 1]];
    }

    /** ApplyPermutation: push the strings at the given positions, which may repeat, into a new partition
        and take over its vectors. */
    method ApplyPermutation(permutation: seq<nat>)
      requires Valid() && |permutation| == size && forall i :: 0 <= i < size ==> permutation[i] < size
      requires |Gather(View(), permutation)| < 0x1_0000_0000
      modifies this
      ensures Valid() && Compact() && size == old(size)
      ensures forall i :: 0 <= i < size ==> View()[i] == old(View())[permutation[i]]
    {
      hide Strings, Gather, Monotone;
      ghost var strings := View();
      var res := new StringPartition();
      GatherNone(strings);
      assert permutation[..0] == [];
      for i := 0 to size
        invariant fresh(res) && res.Valid() && res.Compact() && res.size == i
        invariant forall k :: 0 <= k < i ==> res.View()[k] == strings[permutation[k]]
        invariant res.offset[i] == |Gather(strings, permutation[..i])|
        modifies res
      {
        var s := At(permutation[i]);
        GatherGrows(strings, permutation, i);
        ghost var before := res.View();
        res.PushBack(s);
        assert res.View() == before + [s];
      }
      offset, data := res.offset, res.data;
      assert Strings(offset, data, size) == res.View();
    }

    /** ApplyFilter: move the kept strings to the front of the byte vector and rewrite the offsets,
        all in place. */
    method ApplyFilter(keep: seq<bool>)
      requires Valid() && |keep| == size
      modifies this
      ensures Valid() && Compact() && View() == Kept(old(View()), keep)
    {
      hide Strings, Kept, PackedAs, Monotone, Overwrite, Resized;
      ghost var o, d, before := offset, data, View();
      var cur: nat, curPtr: nat := 0, 0;
      PackNone(data);
      KeptNone(before, keep);
      assert offset[..cur] + [curPtr] == [0];
      for i := 0 to size
        invariant cur <= i && |offset| == |o| && |data| == |d| && curPtr <= o[i]
        invariant |Kept(before[..i], keep[..i])| == cur && size == |keep|
        invariant forall k :: i <= k < |o| ==> offset[k] == o[k]
        invariant forall k :: o[i] <= k < |d| ==> data[k] == d[k]
        invariant PackedAs(offset[..cur] + [curPtr], data, Kept(before[..i], keep[..i]))
      {
        StringAt(o, d, size, i);
        KeptStep(before, keep, i);
        if keep[i] {
          var length := offset[i + 1] - offset[i];
          ghost var packed, data0 := offset[..cur] + [curPtr], data;
          assert data[offset[i]..offset[i] + length] == before[i];
          if curPtr != offset[i] {
            data := Overwrite(data, curPtr, data[offset[i]..offset[i] + length]);
          }
          PackMore(packed, data0, Kept(before[..i], keep[..i]), data, before[i]);
          offset := offset[cur := curPtr];
          cur := cur + 1;
          curPtr := curPtr + length;
          assert offset[..cur] + [curPtr] == packed + [curPtr];
        } else {
          assert Kept(before[..i], keep[..i]) + [] == Kept(before[..i], keep[..i]);
        }
      }
      assert before[..size] == before && keep[..size] == keep;
      CutOffsets(offset, cur, curPtr);
      size := cur;
      offset := offset[cur := curPtr];
      offset := Resized(offset, size + 1, 0);
      PackedIs(offset, data, Kept(before, keep));
    }

    /** Slice: a copy of the strings from `from` on, with offsets that start at 0 again. */
    method Slice(from: nat, n: nat) returns (ret: StringPartition)
      requires Valid() && from < size && from + n <= size
      ensures fresh(ret) && ret.Valid() && ret.Compact() && ret.View() == View()[from..from + n]
    {
      hide Strings;
      ret := new StringPartition();
      var base := offset[from];
      var bytes := offset[from + n] - base;
      ret.size := n;
      ret.data := data[base..base + bytes];
      for i := 1 to n + 1
        invariant |ret.offset| == i && ret.size == n && ret.data == data[base..base + bytes]
        invariant forall k :: 0 <= k < i ==> ret.offset[k] == offset[from + k] - base
        modifies ret
      {
        ret.offset := ret.offset + [offset[from + i] - base];
      }
      SliceStrings(offset, data, size, from, n, ret.offset, ret.data);
    }
  }

  /** A shrinking resize without shrink_to_fit loses the next push: after ["ab"], resize(0) and
      push_back("c") the partition does not hold ["c"]. */
  method ShrinkThenPush() returns (p: StringPartition)
    ensures p.size == 1 && !(p.Valid() && p.View() == [[99]])
  {
    p := new StringPartition();
    p.PushBack([97, 98]);
    p.Resize(0);
    assert p.View() == [];
    p.PushBack([99]);
    assert [] + [[99]] == [[99]];
  }

  /** And a growing resize can bring the forgotten string back instead of adding an empty one. */
  method ShrinkThenGrow() returns (p: StringPartition)
    ensures p.size == 1 && !(p.Valid() && p.View() == [[]])
  {
    p := new StringPartition();
    p.PushBack([97, 98]);
    assert p.offset[1] == 2;
    p.Resize(0);
    assert p.View() == [] && p.offset[1] != p.offset[0];
    p.Resize(1);
    var none: seq<seq<byte>> := [];
    assert none + seq(1, _ => []) == [[]];
  }

  // ---------- whole runs ----------

  /** The operations after which no stale offsets are left. */
  datatype Op =
    | Push(s: seq<byte>)
    | Pop
    | Grow(n: nat)
    | Shrink(n: nat)                      // a shrinking resize and shrink_to_fit
    | Filter(keep: seq<bool>)
    | Permute(order: seq<nat>)
    | Clear

  /** What the source asks for, and that all bytes fit the 32-bit offsets. */
  ghost predicate Legal(op: Op, v: seq<seq<byte>>) {
    match op
    case Push(s) => |Flatten(v)| + |s| < 0x1_0000_0000
    case Pop => v != []
    case Grow(n) => n >= |v|
    case Shrink(n) => n <= |v|
    case Filter(keep) => |keep| == |v|
    case Permute(order) =>
      |order| == |v| && (forall i :: 0 <= i < |v| ==> order[i] < |v|) && |Gather(v, order)| < 0x1_0000_0000
    case Clear => true
  }

  /** What the operation does to a sequence of strings. */
  ghost function Effect(op: Op, v: seq<seq<byte>>): seq<seq<byte>>
    requires Legal(op, v)
  {
    match op
    case Push(s) => v + [s]
    case Pop => v[..|v| - 1]
    case Grow(n) => v + seq(n - |v|, _ => [])
    case Shrink(n) => v[..n]
    case Filter(keep) => Kept(v, keep)
    case Permute(order) => seq(|v|, i requires 0 <= i < |v| => v[order[i]])
    case Clear => []
  }

  /** Reordering strings that fit 32 bits is always legal. */
  lemma PermutationsLegal(order: seq<nat>, v: seq<seq<byte>>)
    requires IsPermutation(order, |v|) && |Flatten(v)| < 0x1_0000_0000
    ensures Legal(Permute(order), v)
  {
    PermutationInRange(order, |v|);
    GatherAll(v, order);
    MultisetLength(Gather(v, order), Flatten(v));
  }

  ghost predicate AllLegal(ops: seq<Op>, v: seq<seq<byte>>)
    decreases |ops|
  {
    ops == [] || (Legal(ops[0], v) && AllLegal(ops[1..], Effect(ops[0], v)))
  }

  ghost function Effects(ops: seq<Op>, v: seq<seq<byte>>): seq<seq<byte>>
    requires AllLegal(ops, v)
    decreases |ops|
  {
    if ops == [] then v else Effects(ops[1..], Effect(ops[0], v))
  }

  method Perform(p: StringPartition, op: Op)
    requires p.Valid() && p.Compact() && Legal(op, p.View())
    modifies p
    ensures p.Valid() && p.Compact() && p.View() == Effect(op, old(p.View()))
  {
    hide Strings, Monotone, Kept, Flatten, Gather;
    match op
    case Push(s) =>
      AllBytes(p.offset, p.data, p.size);
      p.PushBack(s);
    case Pop => p.PopBack();
    case Grow(n) => p.Resize(n);
    case Shrink(n) =>
      ghost var v := p.View();
      p.Resize(n);
      assert p.View() == v[..n];
      p.ShrinkToFit();
    case Filter(keep) => p.ApplyFilter(keep);
    case Permute(order) => p.ApplyPermutation(order);
    case Clear => p.Clear();
  }

  /** Every run of legal operations leaves exactly the sequence of strings it leaves on a sequence. */
  method PerformAll(p: StringPartition, ops: seq<Op>)
    requires p.Valid() && p.Compact() && AllLegal(ops, p.View())
    modifies p
    ensures p.Valid() && p.Compact() && p.View() == Effects(ops, old(p.View()))
  {
    hide Legal, Effect, Strings, Monotone;
    for i := 0 to |ops|
      invariant p.Valid() && p.Compact() && AllLegal(ops[i..], p.View())
      invariant Effects(ops[i..], p.View()) == Effects(ops, old(p.View()))
    {
      assert ops[i..][1..] == ops[i + 1..];
      Perform(p, ops[i]);
    }
  }
}
