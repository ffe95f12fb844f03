/** The task graphs of examples/lr.cc and examples/pr.cc, for any number of iterations.

    Both read a dataset through `SharedDataMapPartitionWith`, and in both that read is ordered after
    the dataset's last writer, because the other dataset is derived from it. */
module JobGraphs {
  import opened Dependency
  import opened Grouping
  import opened Programs
  import opened Schedule

  // ---------- what derives from what ----------

  ghost function Writer<D>(g: Graph<D>, d: nat): Option<nat> {
    if d in g.trackers then g.trackers[d].writer else None
  }

  /** The last writer of `a` is that of `b` or comes before it. */
  ghost predicate Follows<D>(g: Graph<D>, a: nat, b: nat) {
    && a in g.handles && b in g.handles && Writer(g, a).Some? && Writer(g, b).Some?
    && ReachesOrSame(g.edges, Writer(g, a).value, Writer(g, b).value)
  }

  predicate Derives<D>(op: Op<D>) {
    op.MapPartition? || op.MapPartitionWith? || op.SharedDataMapPartitionWith? || op.Shuffle? || op.Broadcast?
  }

  /** Which of the new tasks produces the dataset that a derivation returns. */
  function Last<D>(op: Op<D>): nat {
    if op.Shuffle? then 2 else if op.Broadcast? then 3 else 0
  }

  ghost predicate SameWriters<D>(g: Graph<D>, g': Graph<D>) {
    && SameCounts(g, g') && forall d :: Writer(g', d) == Writer(g, d)
  }

  lemma ReadBySame<D>(g: Graph<D>, d: nat, t: nat)
    requires t < |g.tasks| && d in g.trackers
    ensures SameWriters(g, ReadBy(g, d, t))
  {
  }

  lemma ReadAfterSame<D>(g: Graph<D>, d: nat, p: nat, t: nat)
    requires t < |g.tasks|
    ensures SameWriters(g, ReadAfter(g, d, p, t))
  {
  }

  lemma ReadOnlySame<D>(g: Graph<D>, d: nat, t: nat)
    requires t < |g.tasks|
    ensures SameWriters(g, ReadOnly(g, d, t))
  {
  }

  lemma ExchangeSame<D>(g: Graph<D>, d: nat, t: nat, r: nat)
    requires t + 2 < |g.tasks| && d in g.trackers && r in g.trackers
    ensures SameWriters(g, Exchange(g, d, t, r))
  {
    hide ReadBy;
    ReadBySame(g, d, t);
    ReadBySame(ReadBy(g, d, t), r, t + 1);
  }

  lemma {:induction false} NewWriters<D>(g: Graph<D>, t: nat, m: nat, i: nat)
    requires t + m <= |g.tasks| && i < m
    ensures Writer(CreateEach(g, t, m), g.nextData + i) == Some(t + i)
  {
    if i < m - 1 {
      NewWriters(g, t, m - 1, i);
    }
  }

  lemma HandlesTracked<D>(g: Graph<D>)
    requires Counted(g)
    ensures forall x :: x in g.handles ==> x in g.trackers && x < g.nextData
    ensures forall x: nat :: x < g.nextData ==> x in g.trackers
  {
  }

  lemma StartShape<D>(g: Graph<D>, cs: seq<Closure<D>>)
    requires Counted(g) && cs != []
    ensures var a := Start(g, cs);
            && |a.tasks| == |g.tasks| + |cs| && a.nextData == g.nextData + |cs| && a.handles == g.handles
            && (forall x: nat :: x < a.nextData ==> x in a.trackers)
            && Writer(a, g.nextData + |cs| - 1) == Some(|g.tasks| + |cs| - 1)
            && forall x :: x in g.handles ==> Writer(a, x) == Writer(g, x)
  {
    HandlesTracked(g);
    NewWriters(CreateTasks(g, cs), |g.tasks|, |cs|, |cs| - 1);
  }

  /** `g'` is `g` with one more dataset, written by its last task. */
  ghost predicate Derived<D>(g: Graph<D>, g': Graph<D>, last: nat) {
    var r := g.nextData + last;
    && g'.handles == g.handles + {r} && g'.nextData == r + 1 && Writer(g', r) == Some(|g.tasks| + last)
    && forall x :: x in g.handles ==> Writer(g', x) == Writer(g, x)
  }

  lemma MessagesShape<D>(g: Graph<D>, op: Op<D>)
    requires Usable(g, op) && (op.Shuffle? || op.Broadcast?)
    ensures Derived(g, Apply(g, op), Last(op))
  {
    hide ReadBy, ReadAfter, Start, Exchange, Counted, Legal;
    HandlesBelow(g, op);
    var t, r := |g.tasks|, g.nextData;
    match op
    case Shuffle(d, s, n, e) =>
      StartShape(g, [s, n, e]);
      ExchangeSame(Start(g, [s, n, e]), d, t, r);
    case Broadcast(d, s, n, e, f) =>
      StartShape(g, [s, n, e, f]);
      ExchangeSame(Start(g, [s, n, e, f]), d, t, r);
      ReadAfterSame(Exchange(Start(g, [s, n, e, f]), d, t, r), r + 2, t + 2, t + 3);
  }

  lemma DerivedShape<D>(g: Graph<D>, op: Op<D>)
    requires Usable(g, op) && (Derives(op) || op.FlatMap?)
    ensures Derived(g, Apply(g, op), Last(op))
  {
    hide ReadBy, ReadOnly, Start, Exchange, Counted, Legal;
    HandlesBelow(g, op);
    var t := |g.tasks|;
    match op
    case FlatMap(c) => StartShape(g, [c]);
    case MapPartition(d, c) =>
      StartShape(g, [c]);
      ReadBySame(Start(g, [c]), d, t);
    case MapPartitionWith(d, other, c) =>
      StartShape(g, [c]);
      ReadBySame(Start(g, [c]), d, t);
      ReadBySame(ReadBy(Start(g, [c]), d, t), other, t);
    case SharedDataMapPartitionWith(d, other, c) =>
      StartShape(g, [c]);
      ReadBySame(Start(g, [c]), other, t);
      ReadOnlySame(ReadBy(Start(g, [c]), other, t), d, t);
    case _ => MessagesShape(g, op);
  }

  /** What follows what is not lost, and a derived dataset follows what its source follows. */
  lemma DeriveFollows<D>(g: Graph<D>, op: Op<D>, a: nat, b: nat)
    requires Usable(g, op) && Derives(op) && Follows(g, a, b)
    ensures Follows(Apply(g, op), a, b)
    ensures Writer(g, b).value in Parents(g, op) ==> Follows(Apply(g, op), a, g.nextData + Last(op))
  {
    hide Apply, Parents, Counted, Reaches;
    var g', t, w, v := Apply(g, op), |g.tasks|, Writer(g, a).value, Writer(g, b).value;
    DerivedShape(g, op);
    EdgesAdded(g, op);
    if w != v {
      ReachesMono(g.edges, g'.edges, w, v);
    }
    if v in Parents(g, op) {
      assert (v, t) in g'.edges;
      EdgeReaches(g'.edges, v, t);
      ReachesTrans(g'.edges, w, v, t);
      InnerReaches(g'.edges, op, t);
      ReachesTrans(g'.edges, w, t, t + Last(op));
    }
  }

  lemma InnerReaches<D>(e: Edges, op: Op<D>, t: nat)
    requires Inner(op, t) <= e
    ensures ReachesOrSame(e, t, t + Last(op))
  {
    if op.Shuffle? || op.Broadcast? {
      assert (t, t + 1) in Inner(op, t) && (t + 1, t + 2) in Inner(op, t);
      EdgeReaches(e, t, t + 1);
      EdgeReaches(e, t + 1, t + 2);
      ReachesTrans(e, t, t + 1, t + 2);
    }
    if op.Broadcast? {
      assert (t + 2, t + 3) in Inner(op, t);
      EdgeReaches(e, t + 2, t + 3);
      ReachesTrans(e, t, t + 2, t + 3);
    }
  }

  /** A program whose reads are in order goes on with `op`. */
  lemma Extend<D>(ops: seq<Op<D>>, op: Op<D>)
    requires Build(ops).Some? && ReadsInOrder(ops) && Legal(Build(ops).value, op)
    requires op.SharedDataMapPartitionWith? ==> Follows(Build(ops).value, op.d, op.other)
    requires op.UpdatePartition? || op.UpdatePartitionWith? ==> Build(ops).value.unrecorded == {}
    ensures Usable(Build(ops).value, op) && Build(ops + [op]) == Some(Apply(Build(ops).value, op)) && ReadsInOrder(ops + [op])
  {
    hide Apply, Legal, Counted, Reaches;
    var g := Build(ops).value;
    BuildSnoc(ops, op);
    assert (ops + [op])[..|ops|] == ops;
    if op.SharedDataMapPartitionWith? {
      LeadsOne(g, Writer(g, op.d).value, Writer(g, op.other).value);
    }
  }

  /** The dataset whose last writer a derivation hangs under. */
  function Source<D>(op: Op<D>): nat
    requires Derives(op)
  {
    if op.SharedDataMapPartitionWith? then op.other else op.d
  }

  /** The derived dataset follows whatever its source follows. */
  lemma Derive<D>(ops: seq<Op<D>>, op: Op<D>)
    requires Build(ops).Some? && ReadsInOrder(ops) && Derives(op)
    requires op.d in Build(ops).value.handles && Source(op) in Build(ops).value.handles
    requires op.MapPartitionWith? ==> op.other in Build(ops).value.handles
    requires op.SharedDataMapPartitionWith? ==> Follows(Build(ops).value, op.d, op.other)
    ensures Build(ops + [op]).Some? && ReadsInOrder(ops + [op])
    ensures var g, g' := Build(ops).value, Build(ops + [op]).value;
            && g'.nextData == g.nextData + Last(op) + 1
            && (forall x, y :: Follows(g, x, y) ==> Follows(g', x, y))
            && forall x :: Follows(g, x, Source(op)) ==> Follows(g', x, g.nextData + Last(op))
  {
    hide Apply, Counted, Reaches, Follows, ReadsInOrder, Build;
    Extend(ops, op);
    var g := Build(ops).value;
    DerivedShape(g, op);
    SourceIsParent(g, op);
    forall x, y | Follows(g, x, y)
      ensures Follows(Apply(g, op), x, y)
      ensures y == Source(op) ==> Follows(Apply(g, op), x, g.nextData + Last(op))
    {
      DeriveFollows(g, op, x, y);
    }
  }

  lemma SourceIsParent<D>(g: Graph<D>, op: Op<D>)
    requires Usable(g, op) && Derives(op)
    ensures Writer(g, Source(op)).Some? && Writer(g, Source(op)).value in Parents(g, op)
  {
    hide Reaches;
    HandlesTracked(g);
  }

  lemma FollowsItself<D>(g: Graph<D>, a: nat, b: nat)
    requires Follows(g, a, b)
    ensures Follows(g, a, a) && Follows(g, b, b) && a in g.handles && b in g.handles
  {
  }

  /** The reads of `ops` are in order, and its newest dataset `b` follows `a`. */
  ghost predicate Ready<D>(ops: seq<Op<D>>, a: nat, b: nat) {
    Build(ops).Some? && ReadsInOrder(ops) && Build(ops).value.nextData == b + 1 && Follows(Build(ops).value, a, b)
  }

  // ---------- examples/lr.cc ----------

  /** data, the initial gradients, and the first model. */
  function LrStart<D>(c: nat -> Closure<D>): seq<Op<D>> {
    [FlatMap(c(0)), MapPartition(0, c(1)), Shuffle(1, c(2), c(3), c(4))]
  }

  /** localmodel, the gradients, their reduction, and the next model; `m` is the present one. */
  function LrIteration<D>(c: nat -> Closure<D>, m: nat): seq<Op<D>> {
    [Op.Broadcast(m, c(0), c(1), c(2), c(3)), SharedDataMapPartitionWith(0, m + 4, c(4)),
     Shuffle(m + 5, c(5), c(6), c(7)), SharedDataMapPartitionWith(m, m + 8, c(8))]
  }

  function LrModel(iters: nat): nat { 4 + 9 * iters }

  function LrLoop<D>(start: nat -> Closure<D>, loop: nat -> nat -> Closure<D>, iters: nat): seq<Op<D>> {
    if iters == 0 then LrStart(start)
    else LrLoop(start, loop, iters - 1) + LrIteration(loop(iters - 1), LrModel(iters - 1))
  }

  /** The job, with the final test of the model. */
  function Lr<D>(start: nat -> Closure<D>, loop: nat -> nat -> Closure<D>, last: nat -> Closure<D>, iters: nat): seq<Op<D>> {
    var m := LrModel(iters);
    LrLoop(start, loop, iters)
      + [Op.Broadcast(m, last(0), last(1), last(2), last(3)), SharedDataMapPartitionWith(0, m + 4, last(4))]
  }

  lemma LrIterationReady<D>(ops: seq<Op<D>>, c: nat -> Closure<D>, m: nat)
    requires Ready(ops, 0, m)
    ensures Ready(ops + LrIteration(c, m), 0, m + 9)
  {
    hide Build, ReadsInOrder, Follows;
    var step := LrIteration(c, m);
    FollowsItself(Build(ops).value, 0, m);
    Derive(ops, step[0]);
    var a := ops + [step[0]];
    FollowsItself(Build(a).value, 0, m + 4);
    Derive(a, step[1]);
    var b := a + [step[1]];
    FollowsItself(Build(b).value, m, m + 5);
    Derive(b, step[2]);
    var d := b + [step[2]];
    FollowsItself(Build(d).value, m, m + 8);
    Derive(d, step[3]);
    assert d + [step[3]] == ops + step;
  }

  lemma LrStartReady<D>(c: nat -> Closure<D>)
    ensures Ready(LrStart(c), 0, 4)
  {
    hide Build, ReadsInOrder, Follows;
    var ops := LrStart(c);
    ReadyFirst(c(0));
    assert ops[..1] == [FlatMap(c(0))];
    FollowsItself(Build(ops[..1]).value, 0, 0);
    Derive(ops[..1], ops[1]);
    assert ops[..1] + [ops[1]] == ops[..2];
    FollowsItself(Build(ops[..2]).value, 0, 1);
    Derive(ops[..2], ops[2]);
    assert ops[..2] + [ops[2]] == ops;
  }

  lemma ReadyFirst<D>(c: Closure<D>)
    ensures Ready([FlatMap(c)], 0, 0)
  {
    hide Apply, Reaches;
    Extend<D>([], FlatMap(c));
    assert [] + [FlatMap(c)] == [FlatMap(c)];
    DerivedShape(EmptyGraph(), FlatMap(c));
  }

  lemma {:induction false} LrLoopReady<D>(start: nat -> Closure<D>, loop: nat -> nat -> Closure<D>, iters: nat)
    ensures Ready(LrLoop(start, loop, iters), 0, LrModel(iters))
  {
    hide Ready;
    if iters == 0 {
      LrStartReady(start);
    } else {
      LrLoopReady(start, loop, iters - 1);
      LrIterationReady(LrLoop(start, loop, iters - 1), loop(iters - 1), LrModel(iters - 1));
    }
  }

  lemma LrReads<D>(start: nat -> Closure<D>, loop: nat -> nat -> Closure<D>, last: nat -> Closure<D>, iters: nat)
    ensures Build(Lr(start, loop, last, iters)).Some? && ReadsInOrder(Lr(start, loop, last, iters))
  {
    hide Build, ReadsInOrder, Follows, LrLoop;
    var m, ops, p := LrModel(iters), LrLoop(start, loop, iters), Lr(start, loop, last, iters);
    var step := p[|ops|..];
    LrLoopReady(start, loop, iters);
    FollowsItself(Build(ops).value, 0, m);
    Derive(ops, step[0]);
    FollowsItself(Build(ops + [step[0]]).value, 0, m + 4);
    Derive(ops + [step[0]], step[1]);
    assert ops + [step[0]] + [step[1]] == p;
  }

  /** However many iterations lr.cc runs and whatever its closures compute, all its schedules agree. */
  lemma LrAnySchedule<D>(start: nat -> Closure<D>, loop: nat -> nat -> Closure<D>, last: nat -> Closure<D>, iters: nat, s: Store<D>)
    ensures Build(Lr(start, loop, last, iters)).Some? && AnySchedule(Lr(start, loop, last, iters), s)
  {
    hide Build, ReadsInOrder, Lr, AnySchedule;
    LrReads(start, loop, last, iters);
    OrderedMeansAny(Lr(start, loop, last, iters), s);
  }

  // ---------- examples/pr.cc ----------

  /** The vertices, partitioned and sorted in place, and the first ranks. */
  function PrStart<D>(c: nat -> Closure<D>): seq<Op<D>> {
    [FlatMap(c(0)), Shuffle(0, c(1), c(2), c(3)), UpdatePartition(3, c(4)), MapPartition(3, c(5))]
  }

  /** The updates and the next ranks; `m` are the present ones. */
  function PrIteration<D>(c: nat -> Closure<D>, m: nat): seq<Op<D>> {
    [SharedDataMapPartitionWith(3, m, c(0)), Shuffle(m + 1, c(1), c(2), c(3))]
  }

  function PrRanks(iters: nat): nat { 4 + 4 * iters }

  function PrLoop<D>(start: nat -> Closure<D>, loop: nat -> nat -> Closure<D>, iters: nat): seq<Op<D>> {
    if iters == 0 then PrStart(start)
    else PrLoop(start, loop, iters - 1) + PrIteration(loop(iters - 1), PrRanks(iters - 1))
  }

  /** The job, with the selection of the top ranks. */
  function Pr<D>(start: nat -> Closure<D>, loop: nat -> nat -> Closure<D>, last: nat -> Closure<D>, iters: nat): seq<Op<D>> {
    var m := PrRanks(iters);
    PrLoop(start, loop, iters)
      + [MapPartition(m, last(0)), Shuffle(m + 1, last(1), last(2), last(3)), MapPartition(m + 4, last(4)), ApplyRead(m + 5, last(5))]
  }

  lemma UpdateShape<D>(g: Graph<D>, d: nat, c: Closure<D>)
    requires Usable(g, UpdatePartition(d, c))
    ensures var g' := Apply(g, UpdatePartition(d, c));
            g'.handles == g.handles && g'.nextData == g.nextData && Follows(g', d, d)
  {
  }

  lemma PrGraphReady<D>(c: nat -> Closure<D>)
    ensures var ops := PrStart(c)[..3]; Ready(ops, 3, 3)
  {
    hide Build, ReadsInOrder, Follows, Apply;
    var ops := PrStart(c);
    ReadyFirst(c(0));
    assert ops[..1] == [FlatMap(c(0))];
    FollowsItself(Build(ops[..1]).value, 0, 0);
    Derive(ops[..1], ops[1]);
    assert ops[..1] + [ops[1]] == ops[..2];
    FollowsItself(Build(ops[..2]).value, 0, 3);
    PrUpdateReady(ops[..2], c(4));
    assert ops[..2] + [ops[2]] == ops[..3];
  }

  lemma PrUpdateReady<D>(ops: seq<Op<D>>, c: Closure<D>)
    requires Ready(ops, 0, 3) && forall op :: op in ops ==> !op.SharedDataMapPartitionWith?
    ensures Ready(ops + [UpdatePartition(3, c)], 3, 3)
  {
    hide Build, ReadsInOrder, Follows, Apply;
    FollowsItself(Build(ops).value, 0, 3);
    NoSharing(ops);
    Extend(ops, UpdatePartition(3, c));
    UpdateShape(Build(ops).value, 3, c);
  }

  lemma PrStartReady<D>(c: nat -> Closure<D>)
    ensures Ready(PrStart(c), 3, 4)
  {
    hide Build, ReadsInOrder, Follows;
    var ops := PrStart(c);
    PrGraphReady(c);
    FollowsItself(Build(ops[..3]).value, 3, 3);
    Derive(ops[..3], ops[3]);
    assert ops[..3] + [ops[3]] == ops;
  }

  lemma PrIterationReady<D>(ops: seq<Op<D>>, c: nat -> Closure<D>, m: nat)
    requires Ready(ops, 3, m)
    ensures Ready(ops + PrIteration(c, m), 3, m + 4)
  {
    hide Build, ReadsInOrder, Follows;
    var step := PrIteration(c, m);
    FollowsItself(Build(ops).value, 3, m);
    Derive(ops, step[0]);
    FollowsItself(Build(ops + [step[0]]).value, 3, m + 1);
    Derive(ops + [step[0]], step[1]);
    assert ops + [step[0]] + [step[1]] == ops + step;
  }

  lemma {:induction false} PrLoopReady<D>(start: nat -> Closure<D>, loop: nat -> nat -> Closure<D>, iters: nat)
    ensures Ready(PrLoop(start, loop, iters), 3, PrRanks(iters))
  {
    hide Ready;
    if iters == 0 {
      PrStartReady(start);
    } else {
      PrLoopReady(start, loop, iters - 1);
      PrIterationReady(PrLoop(start, loop, iters - 1), loop(iters - 1), PrRanks(iters - 1));
    }
  }

  lemma PrReads<D>(start: nat -> Closure<D>, loop: nat -> nat -> Closure<D>, last: nat -> Closure<D>, iters: nat)
    ensures Build(Pr(start, loop, last, iters)).Some? && ReadsInOrder(Pr(start, loop, last, iters))
  {
    hide Build, ReadsInOrder, Follows, PrLoop;
    var m, ops, p := PrRanks(iters), PrLoop(start, loop, iters), Pr(start, loop, last, iters);
    var step := p[|ops|..];
    PrLoopReady(start, loop, iters);
    FollowsItself(Build(ops).value, 3, m);
    Derive(ops, step[0]);
    var a := ops + [step[0]];
    FollowsItself(Build(a).value, 3, m + 1);
    Derive(a, step[1]);
    var b := a + [step[1]];
    FollowsItself(Build(b).value, 3, m + 4);
    Derive(b, step[2]);
    var d := b + [step[2]];
    FollowsItself(Build(d).value, 3, m + 5);
    Extend(d, step[3]);
    assert d + [step[3]] == p;
  }

  /** The same for pr.cc. */
  lemma PrAnySchedule<D>(start: nat -> Closure<D>, loop: nat -> nat -> Closure<D>, last: nat -> Closure<D>, iters: nat, s: Store<D>)
    ensures Build(Pr(start, loop, last, iters)).Some? && AnySchedule(Pr(start, loop, last, iters), s)
  {
    hide Build, ReadsInOrder, Pr, AnySchedule;
    PrReads(start, loop, last, iters);
    OrderedMeansAny(Pr(start, loop, last, iters), s);
  }
}
