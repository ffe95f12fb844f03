/** The growable buffer of ursa/common/dataset/dataset_partition.h, proved against the sequence it
    stands for. */
module Partition {
  import opened Arithmetic

  /** The entries of `xs` whose flag is set. */
  function Kept<V>(xs: seq<V>, keep: seq<bool>): (r: seq<V>)
    requires |xs| == |keep|
    ensures |r| <= |xs|
  {
    if xs == [] then []
    else
      var n := |xs| - 1;
      Kept(xs[..n], keep[..n]) + if keep[n] then [xs[n]] else []
  }

  lemma KeptStep<V>(xs: seq<V>, keep: seq<bool>, i: nat)
    requires |xs| == |keep| && i < |xs|
    ensures Kept(xs[..i + 1], keep[..i + 1]) == Kept(xs[..i], keep[..i]) + if keep[i] then [xs[i]] else []
  {
    assert xs[..i + 1][..i] == xs[..i] && keep[..i + 1][..i] == keep[..i];
  }

  /** Capacity and total number of moved elements after n push_backs onto an empty partition. */
  function Growth(n: nat): (nat, nat) {
    if n == 0 then (0, 0)
    else var (cap, moved) := Growth(n - 1); (PushCapacity(n - 1, cap), moved + PushMoves(n - 1, cap))
  }

  /** What one push_back makes of the capacity, and how many elements it moves to a new buffer. */
  function PushCapacity(size: nat, capacity: nat): nat {
    if size == capacity then size * 2 + 5 + 5 else capacity
  }

  function PushMoves(size: nat, capacity: nat): nat {
    if size == capacity then size else 0
  }

  /** Pushing is amortised constant: n pushes move at most 2n elements and never leave more than
      2n + 10 slots. */
  lemma {:induction false} AmortisedPush(n: nat)
    ensures var (cap, moved) := Growth(n);
            moved <= 2 * n && n <= cap <= 2 * n + 10 && (n > 0 ==> moved + 10 <= cap <= 2 * n + 8)
  {
    if n > 0 {
      AmortisedPush(n - 1);
    }
  }

  /** The capacities are 10, 30, 70, ...: after k growths 10 times 2^k - 1, and all that was moved is the sum of the
      earlier ones. */
  lemma {:induction false} GrowthExact(n: nat, k: nat)
    requires k > 0 && 10 * (PowerOfTwo(k - 1) - 1) < n <= 10 * (PowerOfTwo(k) - 1)
    ensures Growth(n) == (10 * (PowerOfTwo(k) - 1), 10 * (PowerOfTwo(k) - 1 - k))
    decreases n
  {
    if n - 1 > 10 * (PowerOfTwo(k - 1) - 1) {
      GrowthExact(n - 1, k);
    } else if k > 1 {
      assert n - 1 == 10 * (PowerOfTwo(k - 1) - 1);
      PowerPositive(k - 2);
      GrowthExact(n - 1, k - 1);
    }
  }

  /** What C++ knows of the element type: its default value, whether it is fundamental, and what
      `new Val[n]` leaves in slot k (the default if there is a default constructor that sets it). */
  datatype Element<!V> = Element(zero: V, fundamental: bool, raw: nat -> V)

  /** The slots first, ..., n - 1 of a new buffer. */
  function NewSlots<V>(elem: Element<V>, first: nat, n: nat): (s: seq<V>)
    requires first <= n
    ensures |s| == n - first && forall i :: 0 <= i < |s| ==> s[i] == elem.raw(first + i)
  {
    seq(n - first, i requires 0 <= i < n - first => elem.raw(first + i))
  }

  ghost predicate AllDefault<V>(elem: Element<V>, xs: seq<V>) {
    forall i :: 0 <= i < |xs| ==> xs[i] == elem.zero
  }

  class DatasetPartition<V(0)> {
    const elem: Element<V>
    var size: nat
    var capacity: nat
    var data: array<V>
    ghost var moved: nat                  // elements moved to a new buffer so far

    ghost predicate Valid()
      reads this
    {
      size <= capacity <= data.Length
    }

    /** The contents. */
    function View(): seq<V>
      reads this, data
      requires Valid()
    {
      data[..size]
    }

    constructor (elem: Element<V>)
      ensures this.elem == elem && Valid() && fresh(data) && View() == [] && capacity == 0 && moved == 0
    {
      this.elem := elem;
      size, capacity, moved := 0, 0, 0;
      data := new V[0];
    }

    /** A new buffer of `n` slots that starts with the first `count` old elements. */
    method GetNewBuffer(n: nat, count: nat)
      requires count <= data.Length && count <= n
      modifies this
      ensures fresh(data) && size == capacity == data.Length == n
      ensures data[..count] == old(data[..count]) && moved == old(moved) + count
      ensures forall k :: count <= k < n ==> data[k] == elem.raw(k)
    {
      var newData := new V[n](k requires 0 <= k < n => elem.raw(k));
      for i := 0 to count
        invariant forall k :: 0 <= k < i ==> newData[k] == data[k]
        invariant forall k :: i <= k < n ==> newData[k] == elem.raw(k)
        modifies newData
      {
        newData[i] := data[i];
      }
      data, size, capacity, moved := newData, n, n, moved + count;
    }

    method ResizeInner(n: nat)
      requires Valid()
      modifies this
      ensures Valid() && size == n
      ensures old(capacity) >= n ==> data == old(data) && capacity == old(capacity) && moved == old(moved)
      ensures old(capacity) < n ==>
                && fresh(data) && capacity == n + 5 && data[..old(size)] == old(View()) && moved == old(moved) + old(size)
                && forall k :: old(size) <= k < capacity ==> data[k] == elem.raw(k)
    {
      if capacity >= n {
        size := n;
        return;
      }
      GetNewBuffer(n + 5, size);
      size := n;
    }

    method Reserve(n: nat)
      requires Valid()
      modifies this
      ensures Valid() && View() == old(View()) && capacity >= n
      ensures old(capacity) >= n ==> data == old(data) && capacity == old(capacity) && moved == old(moved)
      ensures old(capacity) < n ==> fresh(data) && capacity == n + 5 && moved == old(moved) + old(size)
    {
      if capacity >= n {
        return;
      }
      var s := size;
      ResizeInner(n);
      size := s;
    }

    /** push_back; `val` may be an element of this partition. */
    method PushBack(val: V)
      requires Valid()
      modifies this, data
      ensures Valid() && View() == old(View()) + [val]
      ensures data == old(data) || (fresh(data) && old(size) == old(capacity))
      ensures capacity == PushCapacity(old(size), old(capacity))
      ensures moved == old(moved) + PushMoves(old(size), old(capacity))
    {
      if size == capacity {
        Reserve(size * 2 + 5);
      }
      ghost var before := data[..size];
      data[size] := val;
      assert data[..size] == before;
      size := size + 1;
    }

    /** Make room for n > size entries; slots that were there already keep what they hold. */
    method Grow(n: nat)
      requires Valid() && n > size
      modifies this
      ensures Valid() && size == n && data[..old(size)] == old(View())
      ensures n <= old(capacity) ==> data == old(data) && capacity == old(capacity)
      ensures n > old(capacity) ==> fresh(data) && data[old(size)..n] == NewSlots(elem, old(size), n)
    {
      if n > capacity {
        ResizeInner(if n > size * 2 then n else size * 2);
      } else {
        ResizeInner(n);
      }
      size := n;
    }

    /** resize(n, val): shrink, or append copies of `val`. */
    method Resize(n: nat, val: V)
      requires Valid()
      modifies this, data
      ensures Valid() && size == n
      ensures data == old(data) || fresh(data)
      ensures n <= old(capacity) ==> data == old(data) && capacity == old(capacity)
      ensures View() == if n <= old(size) then old(View())[..n]
                        else old(View()) + seq(n - old(size), _ => val)
    {
      if n <= size {
        size := n;
        return;
      }
      var current := size;
      ghost var before := View();
      Grow(n);
      for i := current to n
        invariant data[..current] == before
        invariant forall k :: current <= k < i ==> data[k] == val
        modifies data
      {
        data[i] := val;
      }
      assert View() == data[..current] + data[current..n];
    }

    /** SetValues(cur_n, size - cur_n): zeros for fundamental types, nothing for others. */
    method SetDefaults(first: nat)
      requires Valid() && first <= size
      modifies data
      ensures data[..first] == old(data[..first]) && data[size..] == old(data[size..])
      ensures if elem.fundamental then AllDefault(elem, data[first..size]) else data[..] == old(data[..])
    {
      if !elem.fundamental {
        return;
      }
      for i := first to size
        invariant data[..first] == old(data[..first]) && data[size..] == old(data[size..])
        invariant forall k :: first <= k < i ==> data[k] == elem.zero
        modifies data
      {
        data[i] := elem.zero;
      }
    }

    /** What the new slots hold before resize(n) assigns to them. */
    function Uncovered(n: nat): (slots: seq<V>)
      reads this, data
      requires Valid() && n > size
      ensures |slots| == n - size
    {
      if n > capacity then NewSlots(elem, size, n) else data[size..n]
    }

    /** resize(n) appends nothing but default values. */
    ghost predicate GrowsClean(n: nat)
      reads this, data
      requires Valid() && n > size
    {
      elem.fundamental || AllDefault(elem, Uncovered(n))
    }

    /** resize(n): shrink, or append the entries that are in the new slots already, overwritten by the
        default for fundamental types only. */
    method ResizeDefault(n: nat)
      requires Valid()
      modifies this, data
      ensures Valid() && size == n
      ensures data == old(data) || fresh(data)
      ensures n <= old(capacity) ==> data == old(data) && capacity == old(capacity) && data[n..] == old(data[n..])
      ensures n <= old(size) ==> View() == old(View())[..n]
      ensures n > old(size) ==> View()[..old(size)] == old(View())
      ensures n > old(size) && !elem.fundamental ==> View()[old(size)..] == old(Uncovered(n))
      ensures n > old(size) ==>
                (View() == old(View()) + seq(n - old(size), _ => elem.zero) <==> old(GrowsClean(n)))
    {
      if n <= size {
        size := n;
        return;
      }
      var current := size;
      ghost var uncovered := Uncovered(n);
      Grow(n);
      assert data[current..n] == uncovered;
      SetDefaults(current);
    }

    method Clear()
      modifies this
      ensures Valid() && View() == [] && capacity == 0 && fresh(data)
    {
      size, capacity := 0, 0;
      data := new V[0];
    }

    method PopBack()
      requires Valid()
      modifies this
      ensures Valid() && data == old(data)
      ensures View() == if old(View()) == [] then [] else old(View())[..|old(View())| - 1]
    {
      if size > 0 {
        size := size - 1;
      }
    }

    method ShrinkToFit()
      requires Valid()
      modifies this
      ensures Valid() && View() == old(View()) && capacity == size
    {
      if capacity == size {
        return;
      }
      GetNewBuffer(size, size);
    }

    /** Open a gap of `distance` slots at `pos` by shifting the tail backwards, last element first. */
    method MoveInternal(pos: nat, distance: nat)
      requires Valid() && pos <= size
      modifies this, data
      ensures Valid() && size == old(size) + distance
      ensures data == old(data) || fresh(data)
      ensures forall k :: 0 <= k < pos ==> data[k] == old(View())[k]
      ensures forall k :: pos <= k < old(size) ==> data[k + distance] == old(View())[k]
    {
      hide Uncovered, GrowsClean, AllDefault;
      var originalSize := size;
      ghost var before := View();
      if size + distance > capacity {
        Reserve((size + distance) * 2 + 5);
      }
      ResizeDefault(size + distance);
      assert forall k :: 0 <= k < originalSize ==> data[k] == View()[..originalSize][k];
      var move := originalSize;
      while move > pos
        invariant pos <= move <= originalSize
        invariant forall k :: 0 <= k < move ==> data[k] == before[k]
        invariant forall k :: move <= k < originalSize ==> data[k + distance] == before[k]
        modifies data
      {
        data[move + distance - 1] := data[move - 1];
        move := move - 1;
      }
    }

    /** insert(pos, first, last): splice `xs` in; `xs` is not part of this partition. */
    method Insert(pos: nat, xs: seq<V>)
      requires Valid() && pos <= size
      modifies this, data
      ensures Valid() && View() == old(View())[..pos] + xs + old(View())[pos..]
      ensures data == old(data) || fresh(data)
    {
      ghost var before := View();
      MoveInternal(pos, |xs|);
      var p := pos;
      for i := 0 to |xs|
        invariant p == pos + i
        invariant forall k :: 0 <= k < pos ==> data[k] == before[k]
        invariant forall k :: 0 <= k < i ==> data[pos + k] == xs[k]
        invariant forall k :: pos <= k < |before| ==> data[k + |xs|] == before[k]
        modifies data
      {
        data[p] := xs[i];
        p := p + 1;
      }
    }

    /** ApplyFilter: kept entries move to the front of the same buffer. */
    method ApplyFilter(keep: seq<bool>)
      requires Valid() && |keep| == size
      modifies this, data
      ensures Valid() && data == old(data) && capacity == old(capacity)
      ensures View() == Kept(old(View()), keep)
    {
      var cur := 0;
      ghost var before := View();
      for i := 0 to size
        invariant cur <= i
        invariant cur == |Kept(before[..i], keep[..i])|
        invariant forall k :: 0 <= k < cur ==> data[k] == Kept(before[..i], keep[..i])[k]
        invariant forall k :: i <= k < size ==> data[k] == before[k]
        modifies data
      {
        KeptStep(before, keep, i);
        if keep[i] {
          data[cur] := data[i];
          cur := cur + 1;
        }
      }
      assert before[..size] == before && keep[..size] == keep;
      size := cur;
    }

    /** Filter: the same entries, copied to a new partition. */
    method Filter(keep: seq<bool>, n: nat) returns (ret: DatasetPartition<V>)
      requires Valid() && |keep| == size && n == |Kept(View(), keep)|
      ensures fresh(ret) && fresh(ret.data) && ret.Valid() && ret.View() == Kept(View(), keep)
      ensures View() == old(View())
    {
      ret := new DatasetPartition(elem);
      ret.Reserve(n);
      for i := 0 to size
        invariant fresh(ret) && fresh(ret.data) && ret.Valid()
        invariant ret.View() == Kept(View()[..i], keep[..i])
      {
        KeptStep(View(), keep, i);
        if keep[i] {
          ret.PushBack(data[i]);
        }
      }
      assert View()[..size] == View() && keep[..size] == keep;
    }

    /** ApplyPermutation: a new buffer with the entries in the given order; the capacity field is
        kept although the new buffer is larger. */
    method ApplyPermutation(permutation: seq<nat>)
      requires Valid() && |permutation| == size && forall i :: 0 <= i < size ==> permutation[i] < size
      modifies this
      ensures Valid() && size == old(size) && capacity == old(capacity)
      ensures forall i :: 0 <= i < size ==> View()[i] == old(View())[permutation[i]]
    {
      var res := new DatasetPartition(elem);
      res.Reserve(capacity);
      ghost var cap, buf := res.capacity, res.data;
      for i := 0 to size
        invariant fresh(res) && res.data == buf && res.Valid() && res.capacity == cap >= capacity && res.size == i
        invariant forall k :: 0 <= k < i ==> res.View()[k] == data[permutation[k]]
        modifies res, res.data
      {
        res.PushBack(data[permutation[i]]);
      }
      data := res.data;
    }
  }

  /** n push_backs onto an empty partition hold the pushed elements, within the amortised bounds. */
  method PushAll<V(0)>(elem: Element<V>, xs: seq<V>) returns (p: DatasetPartition<V>)
    ensures fresh(p) && p.Valid() && p.View() == xs
    ensures (p.capacity, p.moved) == Growth(|xs|)
    ensures p.moved <= 2 * |xs| && p.capacity <= 2 * |xs| + 10
  {
    p := new DatasetPartition(elem);
    for i := 0 to |xs|
      invariant fresh(p) && fresh(p.data) && p.Valid() && p.View() == xs[..i]
      invariant (p.capacity, p.moved) == Growth(i)
    {
      p.PushBack(xs[i]);
      assert xs[..i + 1] == xs[..i] + [xs[i]];
    }
    AmortisedPush(|xs|);
    assert xs[..|xs|] == xs;
  }

  /** Growing after shrinking brings an old entry back. */
  method StaleEntry<V(0)>(elem: Element<V>, x: V) returns (p: DatasetPartition<V>)
    requires !elem.fundamental
    ensures fresh(p) && p.Valid() && p.View() == [x]
  {
    p := new DatasetPartition(elem);
    p.PushBack(x);
    assert p.data[0] == p.View()[0];
    p.ResizeDefault(0);
    assert p.data[0..][0] == x;
    p.ResizeDefault(1);
  }
}
