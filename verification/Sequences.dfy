/** Concatenation of parts, in order or in any order; least elements. */
module Sequences {
  function Flatten<T>(xss: seq<seq<T>>): seq<T> {
    if xss == [] then [] else xss[0] + Flatten(xss[1..])
  }

  lemma {:induction false} FlattenConcat<T>(a: seq<seq<T>>, b: seq<seq<T>>)
    ensures Flatten(a + b) == Flatten(a) + Flatten(b)
  {
    if a == [] {
      assert a + b == b;
    } else {
      assert (a + b)[1..] == a[1..] + b;
      calc {
        Flatten(a + b);
        a[0] + Flatten(a[1..] + b);
        { FlattenConcat(a[1..], b); }
        a[0] + (Flatten(a[1..]) + Flatten(b));
        Flatten(a) + Flatten(b);
      }
    }
  }

  lemma FlattenNone<T>()
    ensures Flatten<T>([]) == []
  {
  }

  lemma FlattenSnoc<T>(a: seq<seq<T>>, x: seq<T>)
    ensures Flatten(a + [x]) == Flatten(a) + x
  {
    FlattenConcat(a, [x]);
    assert Flatten([x]) == x by { assert [x][1..] == []; }
  }

  lemma SliceOfSlice<T>(xs: seq<T>, lo: nat, hi: nat, a: nat, b: nat)
    requires lo <= a <= b <= hi <= |xs|
    ensures xs[lo..hi][a - lo..b - lo] == xs[a..b]
  {
    assert forall k :: lo <= k < hi ==> xs[lo..hi][k - lo] == xs[k];
  }

  function Range(n: nat): (r: seq<nat>)
    ensures |r| == n && forall i :: 0 <= i < n ==> r[i] == i
  {
    seq(n, i => i)
  }

  /** `order` names each of 0, ..., n - 1 exactly once. */
  ghost predicate IsPermutation(order: seq<nat>, n: nat) {
    multiset(order) == multiset(Range(n))
  }

  lemma PermutationInRange(order: seq<nat>, n: nat)
    requires IsPermutation(order, n)
    ensures |order| == n && forall i :: 0 <= i < n ==> order[i] < n
  {
    assert |multiset(order)| == |multiset(Range(n))|;
    forall i | 0 <= i < |order| ensures order[i] < n {
      assert order[i] in multiset(order);
      assert order[i] in Range(n);
    }
  }

  function Part<T>(parts: seq<seq<T>>, i: nat): seq<T> {
    if i < |parts| then parts[i] else []
  }

  /** The parts named by `order`, concatenated. */
  function Gather<T>(parts: seq<seq<T>>, order: seq<nat>): seq<T> {
    if order == [] then [] else Part(parts, order[0]) + Gather(parts, order[1..])
  }

  lemma GatherNone<T>(parts: seq<seq<T>>)
    ensures Gather(parts, []) == []
  {
  }

  lemma {:induction false} GatherConcat<T>(parts: seq<seq<T>>, a: seq<nat>, b: seq<nat>)
    ensures Gather(parts, a + b) == Gather(parts, a) + Gather(parts, b)
  {
    if a == [] {
      assert a + b == b;
    } else {
      assert (a + b)[1..] == a[1..] + b;
      calc {
        Gather(parts, a + b);
        Part(parts, a[0]) + Gather(parts, a[1..] + b);
        { GatherConcat(parts, a[1..], b); }
        Part(parts, a[0]) + (Gather(parts, a[1..]) + Gather(parts, b));
        Gather(parts, a) + Gather(parts, b);
      }
    }
  }

  lemma GatherPullOut<T>(parts: seq<seq<T>>, l: seq<nat>, x: nat, r: seq<nat>)
    ensures multiset(Gather(parts, l + ([x] + r))) == multiset(Part(parts, x)) + multiset(Gather(parts, l + r))
  {
    GatherConcat(parts, l, [x] + r);
    GatherConcat(parts, l, r);
    assert ([x] + r)[1..] == r;
  }

  lemma {:induction false} GatherReorders<T>(parts: seq<seq<T>>, a: seq<nat>, b: seq<nat>)
    requires multiset(a) == multiset(b)
    ensures multiset(Gather(parts, a)) == multiset(Gather(parts, b))
  {
    hide *;
    if a == [] {
      assert |multiset(b)| == 0;
    } else {
      var l, r := SplitAtHead(a, b);
      GatherReorders(parts, a[1..], l + r);
      GatherPullOut(parts, [], a[0], a[1..]);
      GatherPullOut(parts, l, a[0], r);
    }
  }

  /** The head of `a` sits somewhere in its permutation `b`. */
  lemma SplitAtHead<T>(a: seq<T>, b: seq<T>) returns (l: seq<T>, r: seq<T>)
    requires a != [] && multiset(a) == multiset(b)
    ensures b == l + ([a[0]] + r) && multiset(a[1..]) == multiset(l + r)
    ensures a == [] + ([a[0]] + a[1..]) && a[1..] == [] + a[1..]
    ensures |l + r| < |b|
  {
    assert a[0] in multiset(b);
    var i :| 0 <= i < |b| && b[i] == a[0];
    l, r := b[..i], b[i + 1..];
    MultisetRemove([], a[0], a[1..], a);
    MultisetRemove(l, a[0], r, b);
  }

  lemma MultisetRemove<T>(l: seq<T>, x: T, r: seq<T>, whole: seq<T>)
    requires |whole| == |l| + 1 + |r|
    requires whole[..|l|] == l && whole[|l|] == x && whole[|l| + 1..] == r
    ensures whole == l + ([x] + r)
    ensures multiset(l + r) == multiset(whole) - multiset{x}
  {
    assert multiset(l + ([x] + r)) == multiset(l) + multiset{x} + multiset(r);
  }

  lemma {:induction false} GatherRange<T>(parts: seq<seq<T>>, n: nat)
    requires n <= |parts|
    ensures Gather(parts, Range(n)) == Flatten(parts[..n])
  {
    if n > 0 {
      GatherRange(parts, n - 1);
      assert Range(n) == Range(n - 1) + [n - 1];
      GatherConcat(parts, Range(n - 1), [n - 1]);
      assert Gather(parts, [n - 1]) == parts[n - 1] by { assert Gather(parts, [n - 1][1..]) == []; }
      FlattenSnoc(parts[..n - 1], parts[n - 1]);
      assert parts[..n - 1] + [parts[n - 1]] == parts[..n];
    }
  }

  /** Whatever order the parts arrive in, nothing is lost and nothing is repeated. */
  lemma GatherAll<T>(parts: seq<seq<T>>, order: seq<nat>)
    requires IsPermutation(order, |parts|)
    ensures multiset(Gather(parts, order)) == multiset(Flatten(parts))
  {
    GatherReorders(parts, order, Range(|parts|));
    GatherRange(parts, |parts|);
    assert parts[..|parts|] == parts;
  }

  /** A set has an element of least rank. */
  lemma {:induction false} LeastExists<T>(s: set<T>, rank: T -> real) returns (least: T)
    requires s != {}
    ensures least in s && forall x :: x in s ==> rank(least) <= rank(x)
    decreases |s|
  {
    least :| least in s;
    if s != {least} {
      var rest := s - {least};
      assert s == rest + {least};
      var other := LeastExists(rest, rank);
      if rank(other) < rank(least) {
        least := other;
      }
    }
  }
}
