/** The task graphs that programs over ursa/common/dataset/dataset.h build, and when every schedule
    that respects their edges computes what the program computes in order.

    Each operation creates tasks with deterministic closures and registers their accesses with the
    dependency tracker; `SharedDataMapPartitionWith` leaves one read unregistered. */
module Programs {
  import opened Dependency
  import opened Grouping
  import opened Schedule

  // ---------- building the task graph ----------

  datatype Graph<!D> = Graph(
    tasks: seq<TaskSpec<D>>,
    trackers: map<nat, Tracker>,
    edges: Edges,
    nextData: nat,                  // dataset_counter_
    handles: set<nat>,              // the datasets the program has been given
    unrecorded: set<(nat, nat)>)    // reads (of a dataset, by a task) that no tracker knows of

  ghost predicate TrackerBelow(k: Tracker, n: nat) {
    k.writer.Some? && k.writer.value < n && forall r :: r in k.readers ==> r < n
  }

  /** Trackers, edges and accesses speak of datasets and tasks that exist. */
  ghost predicate Counted<D>(g: Graph<D>) {
    && (forall d: nat :: d in g.trackers <==> d < g.nextData)
    && (forall d: nat :: d in g.trackers ==> TrackerBelow(g.trackers[d], |g.tasks|))
    && (forall t, d: nat :: 0 <= t < |g.tasks| && d in Touches(g.tasks[t]) ==> d < g.nextData)
    && (forall d :: d in g.handles ==> d < g.nextData)
    && (forall i, j :: (i, j) in g.edges ==> i < |g.tasks| && j < |g.tasks|)
    && (forall d, k :: (d, k) in g.unrecorded ==> k < |g.tasks| && d in g.tasks[k].readSet)
  }

  type Closure<!D> = Store<D> -> Store<D>

  /** Tasks that do not access anything yet. */
  function Idle<D>(cs: seq<Closure<D>>): (tasks: seq<TaskSpec<D>>)
    ensures |tasks| == |cs| && forall i :: 0 <= i < |cs| ==> tasks[i] == TaskSpec({}, {}, cs[i])
  {
    seq(|cs|, i requires 0 <= i < |cs| => TaskSpec({}, {}, cs[i]))
  }

  function CreateTasks<D>(g: Graph<D>, cs: seq<Closure<D>>): Graph<D> {
    g.(tasks := g.tasks + Idle(cs))
  }

  /** Task t additionally reads or writes `d`. */
  function Access<D>(g: Graph<D>, t: nat, d: nat, write: bool): (tasks: seq<TaskSpec<D>>)
    requires t < |g.tasks|
    ensures |tasks| == |g.tasks|
    ensures forall k, x :: 0 <= k < |tasks| ==>
              (x in tasks[k].readSet <==> x in g.tasks[k].readSet || (!write && k == t && x == d))
    ensures forall k, x :: 0 <= k < |tasks| ==>
              (x in tasks[k].writeSet <==> x in g.tasks[k].writeSet || (write && k == t && x == d))
    ensures forall k :: 0 <= k < |tasks| && k != t ==> tasks[k] == g.tasks[k]
  {
    var spec := g.tasks[t];
    g.tasks[t := if write then spec.(writeSet := spec.writeSet + {d}) else spec.(readSet := spec.readSet + {d})]
  }

  /** `Dataset::Create(t, ...)`: a new dataset with producer t. */
  function Create<D>(g: Graph<D>, t: nat): Graph<D>
    requires t < |g.tasks|
  {
    g.(tasks := Access(g, t, g.nextData, true),
       trackers := g.trackers[g.nextData := Tracker(Some(t), [])],
       nextData := g.nextData + 1)
  }

  /** One new dataset for each of the tasks t, ..., t + m - 1. */
  function CreateEach<D>(g: Graph<D>, t: nat, m: nat): (g': Graph<D>)
    requires t + m <= |g.tasks|
    ensures |g'.tasks| == |g.tasks| && g'.nextData == g.nextData + m
    ensures g'.edges == g.edges && g'.handles == g.handles && g'.unrecorded == g.unrecorded
    ensures forall d :: d in g'.trackers <==> d in g.trackers || g.nextData <= d < g.nextData + m
    ensures forall d :: d in g.trackers && d < g.nextData ==> g'.trackers[d] == g.trackers[d]
  {
    if m == 0 then g else Create(CreateEach(g, t, m - 1), t + m - 1)
  }

  /** New tasks, each the producer of a new dataset. */
  function Start<D>(g: Graph<D>, cs: seq<Closure<D>>): Graph<D> {
    CreateEach(CreateTasks(g, cs), |g.tasks|, |cs|)
  }

  function ReadBy<D>(g: Graph<D>, d: nat, t: nat): Graph<D>
    requires t < |g.tasks| && d in g.trackers
  {
    var k := g.trackers[d];
    g.(tasks := Access(g, t, d, false),
       trackers := g.trackers[d := k.(readers := k.readers + [t])],
       edges := g.edges + EdgesTo(ReadParents(k), t))
  }

  function WriteBy<D>(g: Graph<D>, d: nat, t: nat): Graph<D>
    requires t < |g.tasks| && d in g.trackers
  {
    g.(tasks := Access(g, t, d, true),
       trackers := g.trackers[d := Tracker(Some(t), [])],
       edges := g.edges + EdgesTo(WriteParents(g.trackers[d]), t))
  }

  /** `t->ReadData(d); parent->AggregateThen(t);` */
  function ReadAfter<D>(g: Graph<D>, d: nat, parent: nat, t: nat): Graph<D>
    requires t < |g.tasks|
  {
    g.(tasks := Access(g, t, d, false), edges := g.edges + {(parent, t)})
  }

  /** `t->ReadData(d)` alone. */
  function ReadOnly<D>(g: Graph<D>, d: nat, t: nat): Graph<D>
    requires t < |g.tasks|
  {
    g.(tasks := Access(g, t, d, false), unrecorded := g.unrecorded + {(d, t)})
  }

  function Give<D>(g: Graph<D>, d: nat): Graph<D> {
    g.(handles := g.handles + {d})
  }

  /** The operations of Dataset and TextSourceDataset; `d` is the dataset they are called on. */
  datatype Op<!D> =
    | FlatMap(c: Closure<D>)
    | ApplyRead(d: nat, c: Closure<D>)
    | MapPartition(d: nat, c: Closure<D>)    // and LocalAggregate, whose edge is of another kind
    | MapPartitionWith(d: nat, other: nat, c: Closure<D>)
    | SharedDataMapPartitionWith(d: nat, other: nat, c: Closure<D>)
    | UpdatePartition(d: nat, c: Closure<D>)
    | UpdatePartitionWith(d: nat, other: nat, c: Closure<D>)
    // PartitionBy, ReduceBy, RangeReduceBy; and Broadcast, whose messages are read over an edge of another kind
    | Shuffle(d: nat, serialize: Closure<D>, transfer: Closure<D>, deserialize: Closure<D>)
    | Broadcast(d: nat, serialize: Closure<D>, transfer: Closure<D>, deserialize: Closure<D>, fetch: Closure<D>)

  ghost predicate Legal<D>(g: Graph<D>, op: Op<D>) {
    && (!op.FlatMap? ==> op.d in g.handles)
    && (op.MapPartitionWith? || op.SharedDataMapPartitionWith? || op.UpdatePartitionWith? ==> op.other in g.handles)
  }

  ghost predicate Usable<D>(g: Graph<D>, op: Op<D>) {
    Counted(g) && Legal(g, op)
  }

  /** The middle of a shuffle: read `d`, hand the messages over, and deserialize what arrived. */
  function Exchange<D>(g: Graph<D>, d: nat, t: nat, r: nat): Graph<D>
    requires t + 2 < |g.tasks| && d in g.trackers && r in g.trackers
  {
    ReadAfter(ReadBy(ReadBy(g, d, t), r, t + 1), r + 1, t + 1, t + 2)
  }

  function Apply<D>(g: Graph<D>, op: Op<D>): Graph<D>
    requires Usable(g, op)
  {
    var t, r := |g.tasks|, g.nextData;
    match op
    case FlatMap(c) => Give(Start(g, [c]), r)
    case ApplyRead(d, c) => ReadBy(CreateTasks(g, [c]), d, t)
    case MapPartition(d, c) =>
      Give(ReadBy(Start(g, [c]), d, t), r)
    case MapPartitionWith(d, other, c) =>
      Give(ReadBy(ReadBy(Start(g, [c]), d, t), other, t), r)
    case SharedDataMapPartitionWith(d, other, c) =>
      Give(ReadOnly(ReadBy(Start(g, [c]), other, t), d, t), r)
    case UpdatePartition(d, c) => WriteBy(CreateTasks(g, [c]), d, t)
    case UpdatePartitionWith(d, other, c) => ReadBy(WriteBy(CreateTasks(g, [c]), d, t), other, t)
    case Shuffle(d, s, n, e) =>
      Give(Exchange(Start(g, [s, n, e]), d, t, r), r + 2)
    case Broadcast(d, s, n, e, f) =>
      Give(ReadAfter(Exchange(Start(g, [s, n, e, f]), d, t, r), r + 2, t + 2, t + 3), r + 3)
  }

  // ---------- graphs only grow at their end ----------

  /** `g` comes from `o`: the tasks of `o` keep their accesses and get no new parents. */
  ghost predicate Grows<D>(o: Graph<D>, g: Graph<D>) {
    && Counted(g) && |o.tasks| <= |g.tasks| && o.edges <= g.edges
    && (forall k :: 0 <= k < |o.tasks| ==> g.tasks[k] == o.tasks[k])
    && (forall i, j :: (i, j) in g.edges ==> (i, j) in o.edges || |o.tasks| <= j)
  }

  ghost predicate SameCounts<D>(g: Graph<D>, g': Graph<D>) {
    && |g'.tasks| == |g.tasks| && g'.nextData == g.nextData && g'.handles == g.handles
    && forall d :: d in g.trackers ==> d in g'.trackers
  }

  lemma TasksGrow<D>(o: Graph<D>, cs: seq<Closure<D>>)
    requires Counted(o)
    ensures Grows(o, CreateTasks(o, cs))
  {
  }

  lemma CreateGrows<D>(o: Graph<D>, g: Graph<D>, t: nat)
    requires Grows(o, g) && |o.tasks| <= t < |g.tasks|
    ensures Grows(o, Create(g, t))
  {
    AccessTouches(g, t, g.nextData, true);
  }

  lemma AccessTouches<D>(g: Graph<D>, t: nat, d: nat, write: bool)
    requires t < |g.tasks|
    ensures forall k, x :: 0 <= k < |g.tasks| ==>
              (x in Touches(Access(g, t, d, write)[k]) <==> x in Touches(g.tasks[k]) || (k == t && x == d))
  {
  }

  lemma {:induction false} StartGrows<D>(o: Graph<D>, cs: seq<Closure<D>>, m: nat)
    requires Counted(o) && m <= |cs|
    ensures Grows(o, CreateEach(CreateTasks(o, cs), |o.tasks|, m))
  {
    hide Grows, Create, Counted;
    if m == 0 {
      TasksGrow(o, cs);
    } else {
      StartGrows(o, cs, m - 1);
      CreateGrows(o, CreateEach(CreateTasks(o, cs), |o.tasks|, m - 1), |o.tasks| + m - 1);
    }
  }

  lemma ReadByGrows<D>(o: Graph<D>, g: Graph<D>, d: nat, t: nat)
    requires Grows(o, g) && d < g.nextData && |o.tasks| <= t < |g.tasks|
    ensures d in g.trackers && Grows(o, ReadBy(g, d, t)) && SameCounts(g, ReadBy(g, d, t))
  {
    AccessTouches(g, t, d, false);
  }

  lemma WriteByGrows<D>(o: Graph<D>, g: Graph<D>, d: nat, t: nat)
    requires Grows(o, g) && d < g.nextData && |o.tasks| <= t < |g.tasks|
    ensures d in g.trackers && Grows(o, WriteBy(g, d, t)) && SameCounts(g, WriteBy(g, d, t))
  {
    AccessTouches(g, t, d, true);
  }

  lemma ReadAfterGrows<D>(o: Graph<D>, g: Graph<D>, d: nat, p: nat, t: nat)
    requires Grows(o, g) && d < g.nextData && p < |g.tasks| && |o.tasks| <= t < |g.tasks|
    ensures Grows(o, ReadAfter(g, d, p, t)) && SameCounts(g, ReadAfter(g, d, p, t))
  {
    AccessTouches(g, t, d, false);
  }

  lemma ReadOnlyGrows<D>(o: Graph<D>, g: Graph<D>, d: nat, t: nat)
    requires Grows(o, g) && d < g.nextData && |o.tasks| <= t < |g.tasks|
    ensures Grows(o, ReadOnly(g, d, t)) && SameCounts(g, ReadOnly(g, d, t))
  {
    AccessTouches(g, t, d, false);
  }

  lemma GiveGrows<D>(o: Graph<D>, g: Graph<D>, d: nat)
    requires Grows(o, g) && d < g.nextData
    ensures Grows(o, Give(g, d))
  {
  }

  lemma ExchangeGrows<D>(o: Graph<D>, g: Graph<D>, d: nat, t: nat, r: nat)
    requires Grows(o, g) && |o.tasks| <= t && t + 2 < |g.tasks| && d < g.nextData && r + 1 < g.nextData
    ensures d in g.trackers && r in g.trackers && Grows(o, Exchange(g, d, t, r)) && SameCounts(g, Exchange(g, d, t, r))
  {
    hide Grows, Counted;
    ReadByGrows(o, g, r, t);
    ReadByGrows(o, g, d, t);
    ReadByGrows(o, ReadBy(g, d, t), r, t + 1);
    ReadAfterGrows(o, ReadBy(ReadBy(g, d, t), r, t + 1), r + 1, t + 1, t + 2);
  }

  lemma HandlesBelow<D>(g: Graph<D>, op: Op<D>)
    requires Usable(g, op)
    ensures Counted(g)
    ensures !op.FlatMap? ==> op.d < g.nextData
    ensures op.MapPartitionWith? || op.SharedDataMapPartitionWith? || op.UpdatePartitionWith? ==> op.other < g.nextData
  {
  }

  lemma MapWithGrows<D>(g: Graph<D>, op: Op<D>)
    requires Usable(g, op) && (op.MapPartitionWith? || op.SharedDataMapPartitionWith?)
    ensures Grows(g, Apply(g, op))
  {
    hide Grows, Counted, Legal, CreateEach, ReadBy, ReadOnly;
    HandlesBelow(g, op);
    var t, r, a := |g.tasks|, g.nextData, Start(g, [op.c]);
    StartGrows(g, [op.c], 1);
    ReadByGrows(g, a, op.d, t);
    ReadByGrows(g, a, op.other, t);
    if op.MapPartitionWith? {
      var b := ReadBy(a, op.d, t);
      ReadByGrows(g, b, op.other, t);
      GiveGrows(g, ReadBy(b, op.other, t), r);
    } else {
      var b := ReadBy(a, op.other, t);
      ReadOnlyGrows(g, b, op.d, t);
      GiveGrows(g, ReadOnly(b, op.d, t), r);
    }
  }

  lemma MessagesGrow<D>(g: Graph<D>, op: Op<D>)
    requires Usable(g, op) && (op.Shuffle? || op.Broadcast?)
    ensures Grows(g, Apply(g, op))
  {
    hide Grows, Counted, Legal, CreateEach, ReadAfter, Exchange;
    HandlesBelow(g, op);
    var t, r := |g.tasks|, g.nextData;
    match op
    case Shuffle(d, s, n, e) =>
      var a := Start(g, [s, n, e]);
      StartGrows(g, [s, n, e], 3);
      ExchangeGrows(g, a, d, t, r);
      GiveGrows(g, Exchange(a, d, t, r), r + 2);
    case Broadcast(d, s, n, e, f) =>
      var a := Start(g, [s, n, e, f]);
      StartGrows(g, [s, n, e, f], 4);
      ExchangeGrows(g, a, d, t, r);
      ReadAfterGrows(g, Exchange(a, d, t, r), r + 2, t + 2, t + 3);
      GiveGrows(g, ReadAfter(Exchange(a, d, t, r), r + 2, t + 2, t + 3), r + 3);
  }

  /** Every operation adds at the end only, and leaves a graph the next one can be applied to. */
  lemma ApplyGrows<D>(g: Graph<D>, op: Op<D>)
    requires Usable(g, op)
    ensures Grows(g, Apply(g, op))
  {
    hide Grows, Counted, Legal, CreateEach, ReadBy, WriteBy, ReadAfter, ReadOnly, Exchange;
    HandlesBelow(g, op);
    var t, r := |g.tasks|, g.nextData;
    match op
    case FlatMap(c) =>
      StartGrows(g, [c], 1);
      GiveGrows(g, Start(g, [c]), r);
    case ApplyRead(d, c) =>
      TasksGrow(g, [c]);
      ReadByGrows(g, CreateTasks(g, [c]), d, t);
    case MapPartition(d, c) =>
      StartGrows(g, [c], 1);
      ReadByGrows(g, Start(g, [c]), d, t);
      GiveGrows(g, ReadBy(Start(g, [c]), d, t), r);
    case MapPartitionWith(d, other, c) => MapWithGrows(g, op);
    case SharedDataMapPartitionWith(d, other, c) => MapWithGrows(g, op);
    case UpdatePartition(d, c) =>
      TasksGrow(g, [c]);
      WriteByGrows(g, CreateTasks(g, [c]), d, t);
    case UpdatePartitionWith(d, other, c) =>
      TasksGrow(g, [c]);
      WriteByGrows(g, CreateTasks(g, [c]), d, t);
      ReadByGrows(g, WriteBy(CreateTasks(g, [c]), d, t), other, t);
    case Shuffle(d, s, n, e) => MessagesGrow(g, op);
    case Broadcast(d, s, n, e, f) => MessagesGrow(g, op);
  }

  // ---------- the invariant ----------

  /** The tracker of `d` stands for all accesses to `d` so far, unrecorded reads aside. */
  ghost predicate Tracked<D>(g: Graph<D>, d: nat) {
    && d in g.trackers && g.trackers[d].writer.Some?
    && var w := g.trackers[d].writer.value;
    && w < |g.tasks| && d in g.tasks[w].writeSet
    && (forall t :: 0 <= t < |g.tasks| && d in g.tasks[t].writeSet ==> ReachesOrSame(g.edges, t, w))
    && (forall t: nat :: t < |g.tasks| && d in g.tasks[t].readSet ==>
          t in g.trackers[d].readers || ReachesOrSame(g.edges, t, w) || (d, t) in g.unrecorded)
    && (forall t :: t in g.trackers[d].readers ==> Reaches(g.edges, w, t) && t < |g.tasks| && d in g.tasks[t].readSet)
  }

  ghost predicate AllTracked<D>(g: Graph<D>) {
    forall d :: d in g.handles ==> Tracked(g, d)
  }

  /** Conflicting tasks are connected, earlier to later. */
  ghost predicate ConflictsConnected<D>(g: Graph<D>) {
    forall i, j :: 0 <= i < j < |g.tasks| && Conflict(g.tasks[i], g.tasks[j]) ==> Reaches(g.edges, i, j)
  }

  ghost predicate Forward<D>(g: Graph<D>) {
    forall i, j :: (i, j) in g.edges ==> i < j < |g.tasks|
  }

  ghost predicate Good<D>(g: Graph<D>) {
    Counted(g) && ConflictsConnected(g) && Forward(g)
  }

  /** `g'` has the accesses of `g` to `d` and no others, and at least its edges. */
  ghost predicate SameAccess<D>(g: Graph<D>, g': Graph<D>, d: nat) {
    && |g.tasks| <= |g'.tasks| && g.edges <= g'.edges && g.unrecorded <= g'.unrecorded
    && (d in g.trackers ==> d in g'.trackers && g'.trackers[d] == g.trackers[d])
    && (forall t :: 0 <= t < |g'.tasks| ==>
          (d in g'.tasks[t].readSet <==> t < |g.tasks| && d in g.tasks[t].readSet) &&
          (d in g'.tasks[t].writeSet <==> t < |g.tasks| && d in g.tasks[t].writeSet))
  }

  lemma TrackedFrame<D>(g: Graph<D>, g': Graph<D>, d: nat)
    requires Tracked(g, d) && SameAccess(g, g', d)
    ensures Tracked(g', d)
  {
    hide Reaches;
    var w := g.trackers[d].writer.value;
    forall t | 0 <= t < |g'.tasks| && (d in g'.tasks[t].writeSet || d in g'.tasks[t].readSet) && ReachesOrSame(g.edges, t, w)
      ensures ReachesOrSame(g'.edges, t, w)
    {
      if t != w {
        ReachesMono(g.edges, g'.edges, t, w);
      }
    }
    forall t | t in g.trackers[d].readers ensures Reaches(g'.edges, w, t) {
      ReachesMono(g.edges, g'.edges, w, t);
    }
  }

  /** No task from t on touches d, except that t itself may already read it. */
  ghost predicate Latest<D>(g: Graph<D>, d: nat, t: nat) {
    && t < |g.tasks|
    && (forall k :: t < k < |g.tasks| ==> d !in Touches(g.tasks[k]))
    && d !in g.tasks[t].writeSet
  }

  ghost function EmptyGraph<D>(): Graph<D> {
    Graph([], map[], {}, 0, {}, {})
  }

  lemma FromNothing<D>(g: Graph<D>)
    requires Counted(g)
    ensures Grows(EmptyGraph(), g)
  {
  }

  lemma CreateKeeps<D>(g: Graph<D>, t: nat)
    requires Good(g) && t < |g.tasks|
    ensures Good(Create(g, t)) && Tracked(Create(g, t), g.nextData)
    ensures forall d :: d != g.nextData ==> SameAccess(g, Create(g, t), d)
  {
    hide Reaches;
    var g', d := Create(g, t), g.nextData;
    FromNothing(g);
    CreateGrows(EmptyGraph(), g, t);
    assert forall k :: 0 <= k < |g.tasks| ==> d !in Touches(g.tasks[k]);
    assert g'.trackers[d] == Tracker(Some(t), []);
    assert forall k :: 0 <= k < |g'.tasks| && d in g'.tasks[k].writeSet ==> ReachesOrSame(g'.edges, k, t);
    assert Tracked(g', d);
    forall i, j | 0 <= i < j < |g'.tasks| && Conflict(g'.tasks[i], g'.tasks[j]) ensures Reaches(g'.edges, i, j) {
      var x :| Shares(g'.tasks[i], g'.tasks[j], x);
      assert Shares(g.tasks[i], g.tasks[j], x);
    }
  }

  lemma ReadByKeeps<D>(g: Graph<D>, d: nat, t: nat)
    requires Good(g) && Tracked(g, d) && Latest(g, d, t)
    ensures Good(ReadBy(g, d, t)) && Tracked(ReadBy(g, d, t), d)
    ensures forall o :: o != d ==> SameAccess(g, ReadBy(g, d, t), o)
  {
    hide Reaches;
    var g', w := ReadBy(g, d, t), g.trackers[d].writer.value;
    FromNothing(g);
    ReadByGrows(EmptyGraph(), g, d, t);
    assert (w, t) in g'.edges;
    EdgeReaches(g'.edges, w, t);
    assert w < t;
    assert Forward(g');
    forall i, j | 0 <= i < j < |g'.tasks| && Conflict(g'.tasks[i], g'.tasks[j]) ensures Reaches(g'.edges, i, j) {
      var x :| Shares(g'.tasks[i], g'.tasks[j], x);
      if Shares(g.tasks[i], g.tasks[j], x) {
        ReachesMono(g.edges, g'.edges, i, j);
      } else {
        assert x == d && j == t && d in g.tasks[i].writeSet;
        if i != w {
          ReachesMono(g.edges, g'.edges, i, w);
          ReachesTrans(g'.edges, i, w, t);
        }
      }
    }
    forall k | k in g'.trackers[d].readers ensures Reaches(g'.edges, w, k) {
      if k != t {
        ReachesMono(g.edges, g'.edges, w, k);
      }
    }
    forall k | 0 <= k < |g'.tasks| && d in Touches(g'.tasks[k]) && k != t && ReachesOrSame(g.edges, k, w)
      ensures ReachesOrSame(g'.edges, k, w)
    {
      if k != w {
        ReachesMono(g.edges, g'.edges, k, w);
      }
    }
  }

  lemma WriteByKeeps<D>(g: Graph<D>, d: nat, t: nat)
    requires Good(g) && Tracked(g, d) && Latest(g, d, t) && d !in Touches(g.tasks[t])
    requires forall k :: (d, k) in g.unrecorded ==> Reaches(WriteBy(g, d, t).edges, k, t)
    ensures Good(WriteBy(g, d, t)) && Tracked(WriteBy(g, d, t), d)
    ensures forall o :: o != d ==> SameAccess(g, WriteBy(g, d, t), o)
  {
    hide Reaches;
    var g', k := WriteBy(g, d, t), g.trackers[d];
    FromNothing(g);
    WriteByGrows(EmptyGraph(), g, d, t);
    forall i | 0 <= i < |g.tasks| && d in Touches(g.tasks[i]) ensures Reaches(g'.edges, i, t) && i < t {
      BlockedByAll(g, d, t, i);
    }
    forall i, j | 0 <= i < j < |g'.tasks| && Conflict(g'.tasks[i], g'.tasks[j]) ensures Reaches(g'.edges, i, j) {
      var x :| Shares(g'.tasks[i], g'.tasks[j], x);
      if Shares(g.tasks[i], g.tasks[j], x) {
        ReachesMono(g.edges, g'.edges, i, j);
      }
    }
    forall i, j | (i, j) in g'.edges ensures i < j < |g'.tasks| {
      if (i, j) !in g.edges {
        assert d in Touches(g.tasks[i]);
      }
    }
  }

  /** A new writer is reached from every earlier access. */
  lemma BlockedByAll<D>(g: Graph<D>, d: nat, t: nat, i: nat)
    requires Tracked(g, d) && t < |g.tasks| && i < |g.tasks| && d in Touches(g.tasks[i])
    requires forall k :: (d, k) in g.unrecorded ==> Reaches(WriteBy(g, d, t).edges, k, t)
    ensures Reaches(WriteBy(g, d, t).edges, i, t)
  {
    hide Reaches;
    var e', k := WriteBy(g, d, t).edges, g.trackers[d];
    var w := k.writer.value;
    forall r | r in k.readers ensures Reaches(e', r, t) {
      assert r in WriteParents(k);
      EdgeReaches(e', r, t);
    }
    assert Reaches(e', w, t) by {
      if k.readers == [] {
        assert w in WriteParents(k);
        EdgeReaches(e', w, t);
      } else {
        var r := k.readers[0];
        ReachesMono(g.edges, e', w, r);
        ReachesTrans(e', w, r, t);
      }
    }
    if i !in k.readers && i != w && (d, i) !in g.unrecorded {
      ReachesMono(g.edges, e', i, w);
      ReachesTrans(e', i, w, t);
    }
  }

  /** The deserialize task reads a dataset only its parent has touched. */
  lemma ReadAfterKeeps<D>(g: Graph<D>, d: nat, p: nat, t: nat)
    requires Good(g) && d < g.nextData && p < t < |g.tasks|
    requires forall k :: 0 <= k < |g.tasks| && d in Touches(g.tasks[k]) ==> k == p
    ensures Good(ReadAfter(g, d, p, t))
    ensures forall o :: o != d ==> SameAccess(g, ReadAfter(g, d, p, t), o)
  {
    hide Reaches;
    var g' := ReadAfter(g, d, p, t);
    FromNothing(g);
    ReadAfterGrows(EmptyGraph(), g, d, p, t);
    EdgeReaches(g'.edges, p, t);
    forall i, j | 0 <= i < j < |g'.tasks| && Conflict(g'.tasks[i], g'.tasks[j]) ensures Reaches(g'.edges, i, j) {
      var x :| Shares(g'.tasks[i], g'.tasks[j], x);
      if Shares(g.tasks[i], g.tasks[j], x) {
        ReachesMono(g.edges, g'.edges, i, j);
      }
    }
  }

  /** A read that no tracker learns of, made after the last writer. */
  lemma ReadOnlyKeeps<D>(g: Graph<D>, d: nat, t: nat)
    requires Good(g) && Tracked(g, d) && Latest(g, d, t) && Reaches(g.edges, g.trackers[d].writer.value, t)
    ensures Good(ReadOnly(g, d, t)) && Tracked(ReadOnly(g, d, t), d)
    ensures forall o :: o != d ==> SameAccess(g, ReadOnly(g, d, t), o)
  {
    hide Reaches;
    var g', w := ReadOnly(g, d, t), g.trackers[d].writer.value;
    FromNothing(g);
    ReadOnlyGrows(EmptyGraph(), g, d, t);
    forall i, j | 0 <= i < j < |g'.tasks| && Conflict(g'.tasks[i], g'.tasks[j]) ensures Reaches(g'.edges, i, j) {
      var x :| Shares(g'.tasks[i], g'.tasks[j], x);
      if !Shares(g.tasks[i], g.tasks[j], x) {
        assert x == d && j == t && d in g.tasks[i].writeSet;
        ReachesTrans(g.edges, i, w, t);
      }
    }
  }

  // ---------- whole operations ----------

  ghost predicate KeepsTracked<D>(g: Graph<D>, g': Graph<D>) {
    forall d :: Tracked(g, d) ==> Tracked(g', d)
  }

  lemma TrackedFrames<D>(g: Graph<D>, g': Graph<D>, d: nat)
    requires forall o :: o != d ==> SameAccess(g, g', o)
    requires Tracked(g', d) || !Tracked(g, d)
    ensures KeepsTracked(g, g')
  {
    forall o | Tracked(g, o) ensures Tracked(g', o) {
      if o != d {
        TrackedFrame(g, g', o);
      }
    }
  }

  lemma TasksStep<D>(g: Graph<D>, cs: seq<Closure<D>>)
    requires Good(g)
    ensures Good(CreateTasks(g, cs)) && KeepsTracked(g, CreateTasks(g, cs))
  {
    TasksGrow(g, cs);
    forall o | Tracked(g, o) ensures Tracked(CreateTasks(g, cs), o) {
      TrackedFrame(g, CreateTasks(g, cs), o);
    }
  }

  lemma CreateStep<D>(g: Graph<D>, t: nat)
    requires Good(g) && t < |g.tasks|
    ensures Good(Create(g, t)) && KeepsTracked(g, Create(g, t)) && Tracked(Create(g, t), g.nextData)
  {
    hide Tracked, SameAccess, Good;
    CreateKeeps(g, t);
    TrackedFrames(g, Create(g, t), g.nextData);
  }

  lemma ReadStep<D>(g: Graph<D>, d: nat, t: nat)
    requires Good(g) && Tracked(g, d) && Latest(g, d, t)
    ensures d in g.trackers && Good(ReadBy(g, d, t)) && KeepsTracked(g, ReadBy(g, d, t)) && SameCounts(g, ReadBy(g, d, t))
  {
    ReadByKeeps(g, d, t);
    hide Tracked, SameAccess, Good;
    TrackedFrames(g, ReadBy(g, d, t), d);
  }

  lemma ReadOnlyStep<D>(g: Graph<D>, d: nat, t: nat)
    requires Good(g) && Tracked(g, d) && Latest(g, d, t) && Reaches(g.edges, g.trackers[d].writer.value, t)
    ensures Good(ReadOnly(g, d, t)) && KeepsTracked(g, ReadOnly(g, d, t))
  {
    ReadOnlyKeeps(g, d, t);
    hide Tracked, SameAccess, Good;
    TrackedFrames(g, ReadOnly(g, d, t), d);
  }

  lemma WriteStep<D>(g: Graph<D>, d: nat, t: nat)
    requires Good(g) && Tracked(g, d) && Latest(g, d, t) && d !in Touches(g.tasks[t])
    requires forall k :: (d, k) in g.unrecorded ==> Reaches(WriteBy(g, d, t).edges, k, t)
    ensures Good(WriteBy(g, d, t)) && KeepsTracked(g, WriteBy(g, d, t))
  {
    WriteByKeeps(g, d, t);
    hide Tracked, SameAccess, Good;
    TrackedFrames(g, WriteBy(g, d, t), d);
  }

  lemma GiveKeeps<D>(g: Graph<D>, d: nat, h: set<nat>)
    requires Good(g) && Tracked(g, d) && h == g.handles && forall o :: o in h ==> Tracked(g, o)
    ensures Good(Give(g, d)) && AllTracked(Give(g, d))
  {
    hide Reaches, ConflictsConnected;
    forall o | Tracked(g, o) ensures Tracked(Give(g, d), o) {
    }
    assert ConflictsConnected(Give(g, d)) by {
      SameGraph(g, Give(g, d));
    }
  }

  lemma SameGraph<D>(g: Graph<D>, g': Graph<D>)
    requires ConflictsConnected(g) && g.tasks == g'.tasks && g.edges == g'.edges
    ensures ConflictsConnected(g')
  {
  }

  /** What the new tasks and datasets of an operation look like. */
  ghost predicate Started<D>(o: Graph<D>, g: Graph<D>, n: nat, m: nat) {
    && Good(g) && Grows(o, g) && KeepsTracked(o, g)
    && |g.tasks| == |o.tasks| + n && g.nextData == o.nextData + m && g.handles == o.handles
    && g.edges == o.edges && g.unrecorded == o.unrecorded
    && (forall d :: o.nextData <= d < o.nextData + m ==> Tracked(g, d))
    && (forall k, d :: |o.tasks| <= k < |g.tasks| ==>
          (d in g.tasks[k].writeSet <==> k < |o.tasks| + m && d == o.nextData + (k - |o.tasks|)) && d !in g.tasks[k].readSet)
  }

  lemma {:induction false} StartKeeps<D>(g: Graph<D>, cs: seq<Closure<D>>, m: nat)
    requires Good(g) && m <= |cs|
    ensures Started(g, CreateEach(CreateTasks(g, cs), |g.tasks|, m), |cs|, m)
  {
    hide Tracked, ConflictsConnected, Forward, Counted, Grows;
    StartGrows(g, cs, m);
    if m == 0 {
      TasksStep(g, cs);
    } else {
      StartKeeps(g, cs, m - 1);
      CreateStep(CreateEach(CreateTasks(g, cs), |g.tasks|, m - 1), |g.tasks| + m - 1);
    }
  }

  // ---------- when an operation orders its task after every conflicting one ----------

  /** UpdatePartitionWith with the dataset itself as the other one. */
  predicate UpdatesWithItself<D>(op: Op<D>) {
    op.UpdatePartitionWith? && op.d == op.other
  }

  /** The tasks that `op` adds edges from. */
  function Parents<D>(g: Graph<D>, op: Op<D>): set<nat>
    requires Usable(g, op)
  {
    match op
    case FlatMap(_) => {}
    case MapPartitionWith(d, other, _) => ReadParents(g.trackers[d]) + ReadParents(g.trackers[other])
    case SharedDataMapPartitionWith(_, other, _) => ReadParents(g.trackers[other])
    case UpdatePartition(d, _) => WriteParents(g.trackers[d])
    case UpdatePartitionWith(d, other, _) => WriteParents(g.trackers[d]) + ReadParents(g.trackers[other])
    case _ => ReadParents(g.trackers[op.d])
  }

  /** Task k comes before whatever is ordered after one of `parents`. */
  ghost predicate Leads<D>(g: Graph<D>, k: nat, parents: set<nat>) {
    exists p :: p in parents && ReachesOrSame(g.edges, k, p)
  }

  /** The unregistered read of `op` comes after the last writer of what it reads; what `op` updates has
      no unregistered reader that is not ordered before it. */
  ghost predicate ReadsOrdered<D>(g: Graph<D>, op: Op<D>)
    requires Usable(g, op)
  {
    && (op.SharedDataMapPartitionWith? ==> Leads(g, g.trackers[op.d].writer.value, Parents(g, op)))
    && (op.UpdatePartition? || op.UpdatePartitionWith? ==>
          forall k :: (op.d, k) in g.unrecorded ==> Leads(g, k, Parents(g, op)))
  }

  lemma LeadsReaches<D>(g: Graph<D>, k: nat, parents: set<nat>, e: Edges, t: nat)
    requires Leads(g, k, parents) && g.edges <= e && EdgesTo(parents, t) <= e
    ensures Reaches(e, k, t)
  {
    var p :| p in parents && ReachesOrSame(g.edges, k, p);
    assert (p, t) in EdgesTo(parents, t);
    EdgeReaches(e, p, t);
    if k != p {
      ReachesMono(g.edges, e, k, p);
    }
    ReachesTrans(e, k, p, t);
  }

  lemma {:induction false} LastStep<D>(g: Graph<D>, parents: set<nat>, p: seq<nat>, k: nat)
    requires Forward(g) && (forall x :: x in parents ==> x < |g.tasks|)
    requires Path(g.edges + EdgesTo(parents, |g.tasks|), p, k, |g.tasks|)
    ensures Leads(g, k, parents)
    decreases |p|
  {
    assert (p[0], p[1]) in g.edges + EdgesTo(parents, |g.tasks|);
    if |p| > 2 {
      var q := p[1..];
      assert forall m :: 0 <= m < |q| - 1 ==> (q[m], q[m + 1]) == (p[m + 1], p[m + 2]);
      assert (q[0], q[1]) in g.edges + EdgesTo(parents, |g.tasks|);
      LastStep(g, parents, q, p[1]);
      var x :| x in parents && ReachesOrSame(g.edges, p[1], x);
      EdgeReaches(g.edges, p[0], p[1]);
      ReachesTrans(g.edges, p[0], p[1], x);
    }
  }

  /** Writing one dataset and then reading another is reading and then writing. */
  lemma ReadThenWrite<D>(g: Graph<D>, d: nat, other: nat, t: nat)
    requires d != other && d in g.trackers && other in g.trackers && t < |g.tasks|
    ensures ReadBy(WriteBy(g, d, t), other, t) == WriteBy(ReadBy(g, other, t), d, t)
  {
    var a, b := ReadBy(WriteBy(g, d, t), other, t), WriteBy(ReadBy(g, other, t), d, t);
    assert a.trackers == b.trackers && a.edges == b.edges && a.tasks == b.tasks;
  }

  /** The edges between the tasks of one operation. */
  function Inner<D>(op: Op<D>, t: nat): Edges {
    if op.Shuffle? then {(t, t + 1), (t + 1, t + 2)}
    else if op.Broadcast? then {(t, t + 1), (t + 1, t + 2), (t + 2, t + 3)}
    else {}
  }

  lemma OneTaskEdges<D>(g: Graph<D>, op: Op<D>)
    requires Usable(g, op) && !UpdatesWithItself(op) && !op.Shuffle? && !op.Broadcast?
    ensures Apply(g, op).edges == g.edges + EdgesTo(Parents(g, op), |g.tasks|)
  {
    match op
    case MapPartitionWith(d, other, c) =>
      EdgesToBoth(ReadParents(g.trackers[d]), ReadParents(g.trackers[other]), |g.tasks|);
    case UpdatePartitionWith(d, other, c) =>
      EdgesToBoth(WriteParents(g.trackers[d]), ReadParents(g.trackers[other]), |g.tasks|);
    case _ =>
  }

  lemma MessageEdges<D>(g: Graph<D>, op: Op<D>)
    requires Usable(g, op) && (op.Shuffle? || op.Broadcast?)
    ensures Apply(g, op).edges == g.edges + EdgesTo(Parents(g, op), |g.tasks|) + Inner(op, |g.tasks|)
  {
    hide CreateEach, Exchange;
    match op
    case Shuffle(d, s, n, e) => ExchangeEdges(g, d, [s, n, e]);
    case Broadcast(d, s, n, e, f) => ExchangeEdges(g, d, [s, n, e, f]);
  }

  /** All edges an operation adds. */
  lemma EdgesAdded<D>(g: Graph<D>, op: Op<D>)
    requires Usable(g, op) && !UpdatesWithItself(op)
    ensures Apply(g, op).edges == g.edges + EdgesTo(Parents(g, op), |g.tasks|) + Inner(op, |g.tasks|)
    ensures forall p :: p in Parents(g, op) ==> p < |g.tasks|
  {
    hide Apply, Parents;
    ParentsBelow(g, op);
    if op.Shuffle? || op.Broadcast? {
      MessageEdges(g, op);
    } else {
      OneTaskEdges(g, op);
    }
  }

  lemma ParentsBelow<D>(g: Graph<D>, op: Op<D>)
    requires Usable(g, op)
    ensures forall p :: p in Parents(g, op) ==> p < |g.tasks|
  {
    HandlesBelow(g, op);
  }

  lemma ExchangeEdges<D>(g: Graph<D>, d: nat, cs: seq<Closure<D>>)
    requires Counted(g) && d < g.nextData && |cs| >= 3
    ensures d in g.trackers
    ensures var a, t, r := Start(g, cs), |g.tasks|, g.nextData;
            && d in a.trackers && r in a.trackers
            && Exchange(a, d, t, r).edges ==
                 g.edges + EdgesTo(ReadParents(g.trackers[d]), t) + {(t, t + 1), (t + 1, t + 2)}
  {
    hide ReadBy, CreateEach;
    var a, t, r := Start(g, cs), |g.tasks|, g.nextData;
    ProducerOf(CreateTasks(g, cs), t, |cs|);
    ReadEdges(a, d, t);
    ReadEdges(ReadBy(a, d, t), r, t + 1);
  }

  lemma ReadEdges<D>(g: Graph<D>, d: nat, t: nat)
    requires t < |g.tasks| && d in g.trackers
    ensures var g' := ReadBy(g, d, t);
            && |g'.tasks| == |g.tasks| && g'.edges == g.edges + EdgesTo(ReadParents(g.trackers[d]), t)
            && forall x :: x in g.trackers && x != d ==> x in g'.trackers && g'.trackers[x] == g.trackers[x]
  {
  }

  lemma {:induction false} ProducerOf<D>(g: Graph<D>, t: nat, m: nat)
    requires 0 < m && t + m <= |g.tasks|
    ensures var a := CreateEach(g, t, m);
            g.nextData in a.trackers && a.trackers[g.nextData] == Tracker(Some(t), [])
  {
    if m > 1 {
      ProducerOf(g, t, m - 1);
    }
  }

  lemma EdgesToBoth(a: set<nat>, b: set<nat>, t: nat)
    ensures EdgesTo(a + b, t) == EdgesTo(a, t) + EdgesTo(b, t)
  {
  }

  lemma ShareKeeps<D>(g: Graph<D>, op: Op<D>)
    requires Usable(g, op) && op.SharedDataMapPartitionWith? && Good(g) && AllTracked(g) && ReadsOrdered(g, op)
    ensures Good(Apply(g, op)) && AllTracked(Apply(g, op))
  {
    hide Tracked, ConflictsConnected, Forward, CreateEach, Parents;
    var t, r, a, w := |g.tasks|, g.nextData, Start(g, [op.c]), g.trackers[op.d].writer.value;
    HandlesBelow(g, op);
    EdgesAdded(g, op);
    StartKeeps(g, [op.c], 1);
    TrackedHere(g, op.d);
    TrackedHere(g, op.other);
    var b := ReadBy(a, op.other, t);
    ReadStep(a, op.other, t);
    LeadsReaches(g, w, Parents(g, op), b.edges, t);
    ReadOnlyStep(b, op.d, t);
    GiveKeeps(ReadOnly(b, op.d, t), r, g.handles);
  }

  lemma UpdateKeeps<D>(g: Graph<D>, op: Op<D>)
    requires Usable(g, op) && (op.UpdatePartition? || op.UpdatePartitionWith?) && Good(g) && AllTracked(g)
    requires ReadsOrdered(g, op) && !UpdatesWithItself(op)
    ensures Good(Apply(g, op)) && AllTracked(Apply(g, op))
  {
    var t, a, d := |g.tasks|, CreateTasks(g, [op.c]), op.d;
    HandlesBelow(g, op);
    EdgesAdded(g, op);
    TasksStep(g, [op.c]);
    forall k | (d, k) in g.unrecorded ensures Reaches(Apply(g, op).edges, k, t) {
      LeadsReaches(g, k, Parents(g, op), Apply(g, op).edges, t);
    }
    hide Tracked, ConflictsConnected, Forward, Parents, WriteParents, ReadParents, Reaches;
    if op.UpdatePartition? {
      WriteStep(a, d, t);
    } else {
      ReadStep(a, op.other, t);
      ReadThenWrite(a, d, op.other, t);
      WriteStep(ReadBy(a, op.other, t), d, t);
    }
  }

  /** No task but k touches `x`. */
  ghost predicate TouchedBy<D>(g: Graph<D>, x: nat, k: nat) {
    forall i :: 0 <= i < |g.tasks| && x in Touches(g.tasks[i]) ==> i == k
  }

  lemma StartedTouched<D>(o: Graph<D>, g: Graph<D>, n: nat, i: nat)
    requires Counted(o) && Started(o, g, n, n) && i < n
    ensures |g.tasks| == |o.tasks| + n && g.nextData == o.nextData + n
    ensures Good(g) && Tracked(g, o.nextData + i) && TouchedBy(g, o.nextData + i, |o.tasks| + i)
    ensures forall d :: d in o.handles ==> d < o.nextData && Latest(g, d, |o.tasks|) && (Tracked(o, d) ==> Tracked(g, d))
  {
  }

  lemma ReadTouched<D>(g: Graph<D>, d: nat, t: nat, x: nat, k: nat)
    requires t < |g.tasks| && d in g.trackers && TouchedBy(g, x, k) && x != d
    ensures TouchedBy(ReadBy(g, d, t), x, k)
  {
  }

  lemma TouchedLatest<D>(g: Graph<D>, x: nat, k: nat)
    requires TouchedBy(g, x, k) && k + 1 < |g.tasks|
    ensures Latest(g, x, k + 1)
  {
  }

  lemma TrackedHere<D>(g: Graph<D>, d: nat)
    requires Tracked(g, d)
    ensures d in g.trackers
  {
  }

  lemma ReadAfterStep<D>(g: Graph<D>, d: nat, p: nat, t: nat)
    requires Good(g) && d < g.nextData && p < t < |g.tasks| && TouchedBy(g, d, p)
    ensures Good(ReadAfter(g, d, p, t)) && SameCounts(g, ReadAfter(g, d, p, t))
    ensures forall x :: x != d && Tracked(g, x) ==> Tracked(ReadAfter(g, d, p, t), x)
  {
    ReadAfterKeeps(g, d, p, t);
    hide Tracked, Good, Reaches;
    forall x | x != d && Tracked(g, x) ensures Tracked(ReadAfter(g, d, p, t), x) {
      TrackedFrame(g, ReadAfter(g, d, p, t), x);
    }
  }

  /** The serialize task reads the dataset, the network task the messages, the deserialize task what
      has arrived. */
  lemma ExchangeKeeps<D>(g: Graph<D>, d: nat, t: nat, r: nat)
    requires Good(g) && t + 2 < |g.tasks| && r + 1 < g.nextData && d < r
    requires Tracked(g, d) && Latest(g, d, t) && Tracked(g, r) && TouchedBy(g, r, t) && TouchedBy(g, r + 1, t + 1)
    ensures d in g.trackers && r in g.trackers
    ensures Good(Exchange(g, d, t, r)) && SameCounts(g, Exchange(g, d, t, r))
    ensures forall x :: x != r + 1 && Tracked(g, x) ==> Tracked(Exchange(g, d, t, r), x)
  {
    hide Tracked, Good, TouchedBy, Latest, ReadBy, ReadAfter;
    TrackedHere(g, d);
    TrackedHere(g, r);
    var j := ReadBy(g, d, t);
    ReadStep(g, d, t);
    ReadTouched(g, d, t, r, t);
    TouchedLatest(j, r, t);
    var k := ReadBy(j, r, t + 1);
    ReadStep(j, r, t + 1);
    ReadTouched(g, d, t, r + 1, t + 1);
    ReadTouched(j, r, t + 1, r + 1, t + 1);
    ReadAfterStep(k, r + 1, t + 1, t + 2);
  }

  lemma ExchangeTouched<D>(g: Graph<D>, d: nat, t: nat, r: nat, x: nat, k: nat)
    requires t + 2 < |g.tasks| && d in g.trackers && r in g.trackers && x != d && x > r + 1 && TouchedBy(g, x, k)
    ensures TouchedBy(Exchange(g, d, t, r), x, k)
  {
  }

  lemma ShuffleKeeps<D>(g: Graph<D>, op: Op<D>)
    requires Usable(g, op) && op.Shuffle? && Good(g) && AllTracked(g)
    ensures Good(Apply(g, op)) && AllTracked(Apply(g, op))
  {
    hide Tracked, Good, CreateEach, Exchange, TouchedBy, Started, Counted, Latest;
    var t, r, d, cs := |g.tasks|, g.nextData, op.d, [op.serialize, op.transfer, op.deserialize];
    var a := Start(g, cs);
    GoodCounted(g);
    StartKeeps(g, cs, 3);
    StartedTouched(g, a, 3, 0);
    StartedTouched(g, a, 3, 1);
    StartedTouched(g, a, 3, 2);
    ExchangeKeeps(a, d, t, r);
    GiveKeeps(Exchange(a, d, t, r), r + 2, g.handles);
  }

  lemma BroadcastKeeps<D>(g: Graph<D>, op: Op<D>)
    requires Usable(g, op) && op.Broadcast? && Good(g) && AllTracked(g)
    ensures Good(Apply(g, op)) && AllTracked(Apply(g, op))
  {
    hide Tracked, Good, CreateEach, Exchange, TouchedBy, Started, Counted, Latest, ReadAfter;
    var t, r, d, cs := |g.tasks|, g.nextData, op.d, [op.serialize, op.transfer, op.deserialize, op.fetch];
    var a := Start(g, cs);
    GoodCounted(g);
    StartKeeps(g, cs, 4);
    StartedTouched(g, a, 4, 0);
    StartedTouched(g, a, 4, 1);
    StartedTouched(g, a, 4, 2);
    StartedTouched(g, a, 4, 3);
    ExchangeKeeps(a, d, t, r);
    var b := Exchange(a, d, t, r);
    ExchangeTouched(a, d, t, r, r + 2, t + 2);
    ReadAfterStep(b, r + 2, t + 2, t + 3);
    GiveKeeps(ReadAfter(b, r + 2, t + 2, t + 3), r + 3, g.handles);
  }

  lemma GoodCounted<D>(g: Graph<D>)
    requires Good(g)
    ensures Counted(g)
  {
  }

  lemma MapKeeps<D>(g: Graph<D>, op: Op<D>)
    requires Usable(g, op) && (op.FlatMap? || op.ApplyRead? || op.MapPartition? || op.MapPartitionWith?)
    requires Good(g) && AllTracked(g)
    ensures Good(Apply(g, op)) && AllTracked(Apply(g, op))
  {
    hide Tracked, ConflictsConnected, Forward, Counted, CreateEach, Reaches;
    HandlesBelow(g, op);
    var t, r, a := |g.tasks|, g.nextData, Start(g, [op.c]);
    StartKeeps(g, [op.c], 1);
    match op
    case FlatMap(c) => GiveKeeps(a, r, g.handles);
    case ApplyRead(d, c) =>
      TasksStep(g, [c]);
      ReadStep(CreateTasks(g, [c]), d, t);
    case MapPartition(d, c) =>
      ReadStep(a, d, t);
      GiveKeeps(ReadBy(a, d, t), r, g.handles);
    case MapPartitionWith(d, other, c) =>
      ReadStep(a, d, t);
      ReadStep(ReadBy(a, d, t), other, t);
      GiveKeeps(ReadBy(ReadBy(a, d, t), other, t), r, g.handles);
  }

  /** Every operation with its reads in order keeps conflicting tasks connected and all its datasets
      tracked. */
  lemma ApplyKeeps<D>(g: Graph<D>, op: Op<D>)
    requires Usable(g, op) && Good(g) && AllTracked(g) && ReadsOrdered(g, op) && !UpdatesWithItself(op)
    ensures Good(Apply(g, op)) && AllTracked(Apply(g, op))
  {
    hide *;
    match op
    case SharedDataMapPartitionWith(_, _, _) => ShareKeeps(g, op);
    case UpdatePartition(_, _) => UpdateKeeps(g, op);
    case UpdatePartitionWith(_, _, _) => UpdateKeeps(g, op);
    case Shuffle(_, _, _, _) => ShuffleKeeps(g, op);
    case Broadcast(_, _, _, _, _) => BroadcastKeeps(g, op);
    case _ => MapKeeps(g, op);
  }

  /** The task of an operation whose reads are not in order is not connected to all it conflicts with. */
  lemma ApplyNeeds<D>(g: Graph<D>, op: Op<D>)
    requires Usable(g, op) && Good(g) && AllTracked(g) && Good(Apply(g, op)) && !UpdatesWithItself(op)
    ensures ReadsOrdered(g, op)
  {
    if op.SharedDataMapPartitionWith? {
      assert Tracked(g, op.d);
      ConflictLeads(g, op, g.trackers[op.d].writer.value);
    } else if op.UpdatePartition? || op.UpdatePartitionWith? {
      forall k | (op.d, k) in g.unrecorded ensures Leads(g, k, Parents(g, op)) {
        ConflictLeads(g, op, k);
      }
    }
  }

  lemma ConflictLeads<D>(g: Graph<D>, op: Op<D>, k: nat)
    requires Usable(g, op) && Good(g) && Good(Apply(g, op)) && !UpdatesWithItself(op) && k < |g.tasks|
    requires if op.SharedDataMapPartitionWith? then op.d in g.tasks[k].writeSet
             else (op.UpdatePartition? || op.UpdatePartitionWith?) && op.d in g.tasks[k].readSet
    ensures Leads(g, k, Parents(g, op))
  {
    var g', t := Apply(g, op), |g.tasks|;
    EdgesAdded(g, op);
    ApplyGrows(g, op);
    assert Shares(g'.tasks[k], g'.tasks[t], op.d);
    assert Reaches(g'.edges, k, t);
    var p :| Path(g'.edges, p, k, t);
    LastStep(g, Parents(g, op), p, k);
  }

  // ---------- programs ----------

  /** The graph a program builds; None when an operation names a dataset it was never given. */
  ghost function Build<D>(ops: seq<Op<D>>): Option<Graph<D>> {
    if ops == [] then Some(EmptyGraph())
    else
      var g, op := Build(ops[..|ops| - 1]), ops[|ops| - 1];
      if g.Some? && Usable(g.value, op) then Some(Apply(g.value, op)) else None
  }

  lemma {:induction false} BuildCounted<D>(ops: seq<Op<D>>)
    requires Build(ops).Some?
    ensures Counted(Build(ops).value)
  {
    if ops != [] {
      ApplyGrows(Build(ops[..|ops| - 1]).value, ops[|ops| - 1]);
    }
  }

  /** A program can always be continued with datasets it has been given. */
  lemma BuildSnoc<D>(ops: seq<Op<D>>, op: Op<D>)
    requires Build(ops).Some? && Legal(Build(ops).value, op)
    ensures Usable(Build(ops).value, op) && Build(ops + [op]) == Some(Apply(Build(ops).value, op))
  {
    BuildCounted(ops);
    assert (ops + [op])[..|ops|] == ops;
  }

  ghost predicate SelfUpdateFree<D>(ops: seq<Op<D>>) {
    forall op :: op in ops ==> !UpdatesWithItself(op)
  }

  /** Every operation finds the reads it depends on in order. */
  ghost predicate ReadsInOrder<D>(ops: seq<Op<D>>)
    requires Build(ops).Some?
  {
    ops == [] || (ReadsInOrder(ops[..|ops| - 1]) && ReadsOrdered(Build(ops[..|ops| - 1]).value, ops[|ops| - 1]))
  }

  lemma {:induction false} BuildGood<D>(ops: seq<Op<D>>)
    requires Build(ops).Some? && SelfUpdateFree(ops) && ReadsInOrder(ops)
    ensures Good(Build(ops).value) && AllTracked(Build(ops).value)
  {
    hide Tracked, ReadsOrdered, Apply, UpdatesWithItself;
    if ops != [] {
      BuildGood(ops[..|ops| - 1]);
      ApplyKeeps(Build(ops[..|ops| - 1]).value, ops[|ops| - 1]);
    }
  }

  lemma PrefixGood<D>(g: Graph<D>, op: Op<D>)
    requires Usable(g, op) && Good(Apply(g, op))
    ensures Good(g)
  {
    hide Apply, Conflict;
    ApplyGrows(g, op);
    var g' := Apply(g, op);
    forall i, j | 0 <= i < j < |g.tasks| && Conflict(g.tasks[i], g.tasks[j]) ensures Reaches(g.edges, i, j) {
      assert g'.tasks[i] == g.tasks[i] && g'.tasks[j] == g.tasks[j];
      var p :| Path(g'.edges, p, i, j);
      OldPath(g, g', p, i, j);
    }
  }

  /** A path to an old task is an old path. */
  lemma {:induction false} OldPath<D>(g: Graph<D>, g': Graph<D>, p: seq<nat>, i: nat, j: nat)
    requires Grows(g, g') && Forward(g') && Path(g'.edges, p, i, j) && j < |g.tasks|
    ensures Reaches(g.edges, i, j) && i < j
    decreases |p|
  {
    hide Counted;
    assert (p[0], p[1]) in g'.edges;
    if |p| > 2 {
      var q := p[1..];
      assert forall m :: 0 <= m < |q| - 1 ==> (q[m], q[m + 1]) == (p[m + 1], p[m + 2]);
      OldPath(g, g', q, p[1], j);
    }
    EdgeReaches(g.edges, p[0], p[1]);
    ReachesTrans(g.edges, p[0], p[1], j);
  }

  lemma {:induction false} GoodNeeds<D>(ops: seq<Op<D>>)
    requires Build(ops).Some? && SelfUpdateFree(ops) && Good(Build(ops).value)
    ensures ReadsInOrder(ops)
  {
    hide Tracked, ReadsOrdered, Apply, UpdatesWithItself, Good;
    if ops != [] {
      var g, op := Build(ops[..|ops| - 1]).value, ops[|ops| - 1];
      PrefixGood(g, op);
      GoodNeeds(ops[..|ops| - 1]);
      BuildGood(ops[..|ops| - 1]);
      ApplyNeeds(g, op);
    }
  }

  lemma ForwardKept<D>(g: Graph<D>, op: Op<D>)
    requires Usable(g, op) && Forward(g) && !UpdatesWithItself(op)
    ensures Forward(Apply(g, op))
  {
    hide Apply, Parents;
    EdgesAdded(g, op);
    SameOrMore(g, op);
  }

  lemma SameOrMore<D>(g: Graph<D>, op: Op<D>)
    requires Usable(g, op)
    ensures |Apply(g, op).tasks| == |g.tasks| + if op.Shuffle? then 3 else if op.Broadcast? then 4 else 1
  {
  }

  lemma {:induction false} BuildForward<D>(ops: seq<Op<D>>)
    requires Build(ops).Some? && SelfUpdateFree(ops)
    ensures Forward(Build(ops).value)
  {
    hide Forward, Apply, UpdatesWithItself;
    if ops == [] {
      NothingForward<D>();
    } else {
      BuildForward(ops[..|ops| - 1]);
      ForwardKept(Build(ops[..|ops| - 1]).value, ops[|ops| - 1]);
    }
  }

  lemma NothingForward<D>()
    ensures Forward<D>(EmptyGraph())
  {
  }

  /** All conflicting tasks of a program are connected exactly when every operation finds the reads it
      depends on in order. */
  lemma ConnectedIff<D>(ops: seq<Op<D>>)
    requires Build(ops).Some? && SelfUpdateFree(ops)
    ensures ConflictsConnected(Build(ops).value) <==> ReadsInOrder(ops)
  {
    hide Build, Forward, Counted, ConflictsConnected, ReadsInOrder, SelfUpdateFree, AllTracked;
    BuildForward(ops);
    BuildCounted(ops);
    if ReadsInOrder(ops) {
      BuildGood(ops);
    }
    if ConflictsConnected(Build(ops).value) {
      GoodNeeds(ops);
    }
  }

  /** Programs without SharedDataMapPartitionWith have nothing to look after. */
  lemma {:induction false} NoSharing<D>(ops: seq<Op<D>>)
    requires Build(ops).Some? && forall op :: op in ops ==> !op.SharedDataMapPartitionWith?
    ensures ReadsInOrder(ops) && Build(ops).value.unrecorded == {}
  {
    hide Apply, Counted;
    if ops != [] {
      NoSharing(ops[..|ops| - 1]);
      assert !ops[|ops| - 1].SharedDataMapPartitionWith?;
      AllRecorded(Build(ops[..|ops| - 1]).value, ops[|ops| - 1]);
    }
  }

  lemma AllRecorded<D>(g: Graph<D>, op: Op<D>)
    requires Usable(g, op) && !op.SharedDataMapPartitionWith?
    ensures Apply(g, op).unrecorded == g.unrecorded
  {
  }

  /** The safety theorem: for programs of any length whose reads are in order, every linear order of the
      tasks that respects the emitted edges ends in the store that program order ends in. */
  lemma ScheduleIndependence<D>(ops: seq<Op<D>>, order: seq<nat>, s: Store<D>)
    requires Build(ops).Some? && ReadsInOrder(ops)
    requires Arranges(order, 0, |Build(ops).value.tasks|) && Respects(order, Build(ops).value.edges)
    ensures var g := Build(ops).value;
            Run(g.tasks, order, s) == Run(g.tasks, ProgramOrder(0, |g.tasks|), s)
  {
    hide Run, Reaches, Before, Conflict, Build, ReadsInOrder;
    var g := Build(ops).value;
    RespectedMeansFree(ops, order);
    BuildGood(ops);
    forall i, j | 0 <= i < j < |g.tasks| && Conflict(g.tasks[i], g.tasks[j]) ensures Before(order, i, j) {
      ReachesBefore(order, g.edges, i, j);
    }
    SameResult(g.tasks, order, 0, |g.tasks|, s);
  }

  lemma RespectedMeansFree<D>(ops: seq<Op<D>>, order: seq<nat>)
    requires Build(ops).Some? && Distinct(order) && Respects(order, Build(ops).value.edges)
    ensures SelfUpdateFree(ops)
  {
    hide Build;
    if !SelfUpdateFree(ops) {
      var op :| op in ops && UpdatesWithItself(op);
      var t := SelfEdge(ops, op);
      NotBeforeItself(order, t);
    }
  }

  lemma NotBeforeItself(order: seq<nat>, t: nat)
    requires Distinct(order)
    ensures !Before(order, t, t)
  {
  }

  /** Every schedule that respects the edges ends in one store. */
  ghost predicate AnySchedule<D>(ops: seq<Op<D>>, s: Store<D>)
    requires Build(ops).Some?
  {
    var g := Build(ops).value;
    forall order :: Arranges(order, 0, |g.tasks|) && Respects(order, g.edges) ==>
      Run(g.tasks, order, s) == Run(g.tasks, ProgramOrder(0, |g.tasks|), s)
  }

  lemma OrderedMeansAny<D>(ops: seq<Op<D>>, s: Store<D>)
    requires Build(ops).Some? && ReadsInOrder(ops)
    ensures AnySchedule(ops, s)
  {
    hide Build, ReadsInOrder, Run, Arranges, Respects;
    var g := Build(ops).value;
    forall order | Arranges(order, 0, |g.tasks|) && Respects(order, g.edges)
      ensures Run(g.tasks, order, s) == Run(g.tasks, ProgramOrder(0, |g.tasks|), s)
    {
      ScheduleIndependence(ops, order, s);
    }
  }

  /** A program can be scheduled at all exactly when no UpdatePartitionWith names its own dataset:
      such a call makes its task wait for itself. */
  lemma SchedulableIff<D>(ops: seq<Op<D>>)
    requires Build(ops).Some?
    ensures var g := Build(ops).value;
            (exists order :: Arranges(order, 0, |g.tasks|) && Respects(order, g.edges)) <==> SelfUpdateFree(ops)
  {
    hide Build;
    var g := Build(ops).value;
    if SelfUpdateFree(ops) {
      BuildForward(ops);
      var order := ProgramOrder(0, |g.tasks|);
      forall i, j | (i, j) in g.edges ensures Before(order, i, j) {
        assert order[i] == i && order[j] == j;
      }
      forall i ensures i in order <==> 0 <= i < |g.tasks| {
        if 0 <= i < |g.tasks| {
          assert order[i] == i;
        }
      }
      assert Arranges(order, 0, |g.tasks|) && Respects(order, g.edges);
    }
    forall order | Arranges(order, 0, |g.tasks|) && Respects(order, g.edges) ensures SelfUpdateFree(ops) {
      RespectedMeansFree(ops, order);
    }
  }

  lemma {:induction false} SelfEdge<D>(ops: seq<Op<D>>, op: Op<D>) returns (t: nat)
    requires Build(ops).Some? && op in ops && UpdatesWithItself(op)
    ensures (t, t) in Build(ops).value.edges
  {
    var last := ops[|ops| - 1];
    var g := Build(ops[..|ops| - 1]).value;
    if op == last {
      t := |g.tasks|;
      var g1 := CreateTasks(g, [op.c]);
      var g2 := WriteBy(g1, op.d, t);
      assert Apply(g, op) == ReadBy(g2, op.d, t);
      assert t in ReadParents(g2.trackers[op.d]);
    } else {
      assert op in ops[..|ops| - 1];
      t := SelfEdge(ops[..|ops| - 1], op);
      ApplyGrows(g, last);
    }
  }

  // ---------- SharedDataMapPartitionWith ----------

  lemma LeadsOne<D>(g: Graph<D>, k: nat, v: nat)
    ensures Leads(g, k, {v}) <==> ReachesOrSame(g.edges, k, v)
  {
    assert v in {v};
  }

  /** Its task is ordered after the dataset's last writer exactly when that writer is, or is an
      ancestor of, the other dataset's last writer. */
  lemma SharedReadOrderedIff<D>(g: Graph<D>, d: nat, other: nat, c: Closure<D>)
    requires Good(g) && AllTracked(g) && Usable(g, SharedDataMapPartitionWith(d, other, c))
    ensures var g', w, v := Apply(g, SharedDataMapPartitionWith(d, other, c)),
              g.trackers[d].writer.value, g.trackers[other].writer.value;
            Reaches(g'.edges, w, |g.tasks|) <==> ReachesOrSame(g.edges, w, v)
  {
    hide Reaches, Apply;
    var op := SharedDataMapPartitionWith(d, other, c);
    var g', w, v := Apply(g, op), g.trackers[d].writer.value, g.trackers[other].writer.value;
    EdgesAdded(g, op);
    LeadsOne(g, w, v);
    if ReachesOrSame(g.edges, w, v) {
      LeadsReaches(g, w, {v}, g'.edges, |g.tasks|);
    }
    if Reaches(g'.edges, w, |g.tasks|) {
      ReachesLeads(g, {v}, g'.edges, w);
    }
  }

  lemma ReachesLeads<D>(g: Graph<D>, parents: set<nat>, e: Edges, k: nat)
    requires Forward(g) && (forall x :: x in parents ==> x < |g.tasks|)
    requires e == g.edges + EdgesTo(parents, |g.tasks|) && Reaches(e, k, |g.tasks|)
    ensures Leads(g, k, parents)
  {
    var p :| Path(e, p, k, |g.tasks|);
    LastStep(g, parents, p, k);
  }

  /** An immediately following UpdatePartition waits for it only if the other dataset is the same one. */
  lemma SharedReadHeldIff<D>(g: Graph<D>, d: nat, other: nat, c: Closure<D>, update: Closure<D>)
    requires Forward(g) && Usable(g, SharedDataMapPartitionWith(d, other, c))
    ensures var g' := Apply(g, SharedDataMapPartitionWith(d, other, c));
            && Usable(g', UpdatePartition(d, update))
            && (Reaches(Apply(g', UpdatePartition(d, update)).edges, |g.tasks|, |g.tasks| + 1) <==> other == d)
  {
    hide Reaches, Apply, WriteParents, Counted, Forward;
    var op, up := SharedDataMapPartitionWith(d, other, c), UpdatePartition(d, update);
    var g', t := Apply(g, op), |g.tasks|;
    ApplyGrows(g, op);
    ForwardKept(g, op);
    ShareTracker(g, d, other, c);
    EdgesAdded(g', up);
    LatestParents(g, d, t);
    if other == d {
      LeadsReaches(g', t, Parents(g', up), Apply(g', up).edges, t + 1);
    } else if Reaches(Apply(g', up).edges, t, t + 1) {
      ReachesLeads(g', Parents(g', up), Apply(g', up).edges, t);
      var p :| p in Parents(g', up) && ReachesOrSame(g'.edges, t, p);
      if p != t {
        ReachesForward(g', t, p);
      }
    }
  }

  lemma ShareTracker<D>(g: Graph<D>, d: nat, other: nat, c: Closure<D>)
    requires Usable(g, SharedDataMapPartitionWith(d, other, c))
    ensures var g' := Apply(g, SharedDataMapPartitionWith(d, other, c));
            && g.handles <= g'.handles && |g'.tasks| == |g.tasks| + 1 && d in g.trackers && d in g'.trackers
            && (other != d ==> g'.trackers[d] == g.trackers[d])
            && (other == d ==> |g.tasks| in WriteParents(g'.trackers[d]))
  {
  }

  lemma LatestParents<D>(g: Graph<D>, d: nat, t: nat)
    requires Counted(g) && d in g.trackers && t == |g.tasks|
    ensures forall p :: p in WriteParents(g.trackers[d]) ==> p < t
  {
  }

  lemma ReachesForward<D>(g: Graph<D>, i: nat, j: nat)
    requires Forward(g) && Reaches(g.edges, i, j)
    ensures i < j
  {
    var p :| Path(g.edges, p, i, j);
    PathForward(g, p, i, j);
  }

  lemma {:induction false} PathForward<D>(g: Graph<D>, p: seq<nat>, i: nat, j: nat)
    requires Forward(g) && Path(g.edges, p, i, j)
    ensures i < j
    decreases |p|
  {
    assert (p[0], p[1]) in g.edges;
    if |p| > 2 {
      var q := p[1..];
      assert forall m :: 0 <= m < |q| - 1 ==> (q[m], q[m + 1]) == (p[m + 1], p[m + 2]);
      PathForward(g, q, p[1], j);
    }
  }

  // ---------- programs that cannot be scheduled, or not in one way ----------

  /** `a.UpdatePartitionWith(&a, c)` */
  lemma SelfUpdateStuck<D>(c: Closure<D>)
    ensures var p := Build([FlatMap(c), UpdatePartitionWith(0, 0, c)]);
            p.Some? && forall order :: Arranges(order, 0, |p.value.tasks|) ==> !Respects(order, p.value.edges)
  {
    var first: seq<Op<D>>, up := [FlatMap(c)], UpdatePartitionWith(0, 0, c);
    assert [] + [FlatMap(c)] == first;
    BuildSnoc([], FlatMap(c));
    BuildSnoc(first, up);
    var ops: seq<Op<D>> := [FlatMap(c), up];
    assert first + [up] == ops;
    assert up in ops && UpdatesWithItself(up);
    SchedulableIff(ops);
  }

  function Put(d: nat, n: int): Closure<int> { s => map[d := n] }

  function CopyTo(d: nat, from: nat): Closure<int> {
    s => if from in s then map[d := s[from]] else map[]
  }

  lemma SourceOf<D>(g: Graph<D>, c: Closure<D>)
    requires Usable(g, FlatMap(c))
    ensures Apply(g, FlatMap(c)) ==
              Graph(g.tasks + [TaskSpec({}, {g.nextData}, c)], g.trackers[g.nextData := Tracker(Some(|g.tasks|), [])],
                    g.edges, g.nextData + 1, g.handles + {g.nextData}, g.unrecorded)
  {
    var h := Apply(g, FlatMap(c));
    assert CreateEach(CreateTasks(g, [c]), |g.tasks|, 0) == CreateTasks(g, [c]);
    assert h.tasks[|g.tasks|].writeSet == {g.nextData} && h.tasks[|g.tasks|].readSet == {};
    assert h.tasks == g.tasks + [TaskSpec({}, {g.nextData}, c)];
  }

  lemma UpdateOf<D>(g: Graph<D>, d: nat, c: Closure<D>)
    requires Usable(g, UpdatePartition(d, c))
    ensures d in g.trackers
    ensures Apply(g, UpdatePartition(d, c)) ==
              Graph(g.tasks + [TaskSpec({}, {d}, c)], g.trackers[d := Tracker(Some(|g.tasks|), [])],
                    g.edges + EdgesTo(WriteParents(g.trackers[d]), |g.tasks|), g.nextData, g.handles, g.unrecorded)
  {
    var h := Apply(g, UpdatePartition(d, c));
    assert h.tasks[|g.tasks|].writeSet == {d} && h.tasks[|g.tasks|].readSet == {};
    assert h.tasks == g.tasks + [TaskSpec({}, {d}, c)];
  }

  lemma ShareOf<D>(g: Graph<D>, d: nat, other: nat, c: Closure<D>)
    requires Usable(g, SharedDataMapPartitionWith(d, other, c))
    ensures other in g.trackers
    ensures var h := Apply(g, SharedDataMapPartitionWith(d, other, c));
            && h.edges == g.edges + EdgesTo(ReadParents(g.trackers[other]), |g.tasks|)
            && h.tasks == g.tasks + [TaskSpec({d, other}, {g.nextData}, c)]
  {
    var h := Apply(g, SharedDataMapPartitionWith(d, other, c));
    OneTaskEdges(g, SharedDataMapPartitionWith(d, other, c));
    assert CreateEach(CreateTasks(g, [c]), |g.tasks|, 0) == CreateTasks(g, [c]);
    assert h.tasks[|g.tasks|].writeSet == {g.nextData} && h.tasks[|g.tasks|].readSet == {d, other};
    assert h.tasks == g.tasks + [TaskSpec({d, other}, {g.nextData}, c)];
  }

  /** a = 1 and b = 1. */
  function Sources(): Graph<int> {
    Graph([TaskSpec({}, {0}, Put(0, 1)), TaskSpec({}, {1}, Put(1, 1))],
          map[0 := Tracker(Some(0), []), 1 := Tracker(Some(1), [])], {}, 2, {0, 1}, {})
  }

  lemma SourcesBuilt()
    ensures Build([FlatMap(Put(0, 1)), FlatMap(Put(1, 1))]) == Some(Sources())
  {
    var a, b, g := FlatMap(Put(0, 1)), FlatMap(Put(1, 1)), EmptyGraph<int>();
    hide Build, Apply;
    BuildNothing<int>();
    BuildSnoc<int>([], a);
    assert [] + [a] == [a];
    SourceOf(g, Put(0, 1));
    BuildSnoc([a], b);
    assert [a] + [b] == [a, b];
    SourceOf(Apply(g, a), Put(1, 1));
    var h := Apply(Apply(g, a), b);
    assert h.tasks == Sources().tasks && h.handles == {0, 1};
    assert h.trackers == Sources().trackers;
  }

  lemma BuildNothing<D>()
    ensures Build<D>([]) == Some(EmptyGraph())
  {
  }

  /** `a` updated to 2, and then a task that copies `a` while it is registered with `b` only. */
  function Racy(): seq<Op<int>> {
    [FlatMap(Put(0, 1)), FlatMap(Put(1, 1)), UpdatePartition(0, Put(0, 2)), SharedDataMapPartitionWith(0, 1, CopyTo(2, 0))]
  }

  function RacyTasks(): seq<TaskSpec<int>> {
    [TaskSpec({}, {0}, Put(0, 1)), TaskSpec({}, {1}, Put(1, 1)), TaskSpec({}, {0}, Put(0, 2)),
     TaskSpec({0, 1}, {2}, CopyTo(2, 0))]
  }

  lemma RacyBuilt()
    ensures var p := Build(Racy()); p.Some? && p.value.edges == {(0, 2), (1, 3)} && p.value.tasks == RacyTasks()
  {
    hide Build, Apply;
    var ops, c, d, g := Racy()[..2], Racy()[2], Racy()[3], Sources();
    SourcesBuilt();
    assert ops == [FlatMap(Put(0, 1)), FlatMap(Put(1, 1))];
    BuildSnoc(ops, c);
    UpdateOf(g, 0, Put(0, 2));
    BuildSnoc(ops + [c], d);
    ShareOf(Apply(g, c), 0, 1, CopyTo(2, 0));
    assert ops + [c] + [d] == Racy();
    var h := Apply(Apply(g, c), d);
    assert EdgesTo({0}, 2) == {(0, 2)} && EdgesTo({1}, 3) == {(1, 3)};
    assert h.tasks == RacyTasks();
  }

  lemma ExecPut(readSet: set<nat>, d: nat, n: int, s: Store<int>)
    ensures Exec(TaskSpec(readSet, {d}, Put(d, n)), s) == s[d := n]
  {
    assert (map[d := n]).Keys == {d};
  }

  lemma ExecCopy(s: Store<int>)
    requires 0 in s && 1 in s
    ensures Exec(TaskSpec({0, 1}, {2}, CopyTo(2, 0)), s) == s[2 := s[0]]
  {
    var t := TaskSpec({0, 1}, {2}, CopyTo(2, 0));
    assert View(t, s)[0] == s[0];
    assert t.closure(View(t, s)) == map[2 := s[0]];
  }

  /** The copy is not ordered after the update it sees in program order: of the schedules 0 1 2 3 and
      0 1 3 2, which both respect the edges, the first copies 2 and the second copies 1. */
  lemma UnorderedShare()
    ensures var p := Build(Racy());
            && p.Some? && |p.value.tasks| == 4 && !Reaches(p.value.edges, 2, 3)
            && Arranges([0, 1, 2, 3], 0, 4) && Respects([0, 1, 2, 3], p.value.edges)
            && Arranges([0, 1, 3, 2], 0, 4) && Respects([0, 1, 3, 2], p.value.edges)
            && Run(p.value.tasks, [0, 1, 2, 3], map[]) == map[0 := 2, 1 := 1, 2 := 2]
            && Run(p.value.tasks, [0, 1, 3, 2], map[]) == map[0 := 2, 1 := 1, 2 := 1]
  {
    hide Build, Run, Arranges, Respects, Reaches;
    RacyBuilt();
    TwoSchedules();
    RacyRuns();
  }

  lemma TwoSchedules()
    ensures var e: Edges := {(0, 2), (1, 3)};
            && Arranges([0, 1, 2, 3], 0, 4) && Respects([0, 1, 2, 3], e)
            && Arranges([0, 1, 3, 2], 0, 4) && Respects([0, 1, 3, 2], e) && !Reaches(e, 2, 3)
  {
    var e: Edges := {(0, 2), (1, 3)};
    var a, b := [0, 1, 2, 3], [0, 1, 3, 2];
    assert a[0] == 0 && a[1] == 1 && a[2] == 2 && a[3] == 3;
    assert b[0] == 0 && b[1] == 1 && b[2] == 3 && b[3] == 2;
    assert Before(a, 0, 2) && Before(a, 1, 3) && Before(b, 0, 2) && Before(b, 1, 3);
    forall p: seq<nat> | |p| >= 2 ensures !Path(e, p, 2, 3) {
      var first := (p[0], p[1]);
      assert first == (p[0], p[0 + 1]);
    }
  }

  lemma RacyRuns()
    ensures Run(RacyTasks(), [0, 1, 2, 3], map[]) == map[0 := 2, 1 := 1, 2 := 2]
    ensures Run(RacyTasks(), [0, 1, 3, 2], map[]) == map[0 := 2, 1 := 1, 2 := 1]
  {
    hide Exec, Put, CopyTo, Run;
    var tasks := RacyTasks();
    var one: Store<int>, two: Store<int> := map[0 := 1], map[0 := 1, 1 := 1];
    ExecPut({}, 0, 1, map[]);
    ExecPut({}, 1, 1, one);
    ExecPut({}, 0, 2, two);
    ExecCopy(two[0 := 2]);
    ExecCopy(two);
    ExecPut({}, 0, 2, two[2 := 1]);
    RunCons(tasks, 0, [1, 2, 3], map[]);
    RunCons(tasks, 1, [2, 3], one);
    RunCons(tasks, 2, [3], two);
    RunCons(tasks, 3, [], two[0 := 2]);
    RunCons(tasks, 0, [1, 3, 2], map[]);
    RunCons(tasks, 1, [3, 2], one);
    RunCons(tasks, 3, [2], two);
    RunCons(tasks, 2, [], two[2 := 1]);
    assert [0] + [1, 2, 3] == [0, 1, 2, 3] && [1] + [2, 3] == [1, 2, 3] && [2] + [3] == [2, 3] && [3] + [] == [3];
    assert [0] + [1, 3, 2] == [0, 1, 3, 2] && [1] + [3, 2] == [1, 3, 2] && [3] + [2] == [3, 2] && [2] + [] == [2];
    RunNone(tasks, map[0 := 2, 1 := 1, 2 := 2]);
    RunNone(tasks, map[0 := 2, 1 := 1, 2 := 1]);
    assert two[0 := 2][2 := 2] == map[0 := 2, 1 := 1, 2 := 2];
    assert two[2 := 1][0 := 2] == map[0 := 2, 1 := 1, 2 := 1];
  }

  lemma RunNone<D>(tasks: seq<TaskSpec<D>>, s: Store<D>)
    ensures Run(tasks, [], s) == s
  {
  }
}
