/** Why reads have to be in order: a program whose operations do not find them in order has closures with
    which two schedules, both respecting all edges, end in different stores. */
module Races {
  import opened Dependency
  import opened Grouping
  import opened Programs
  import opened Schedule

  // ---------- the same operations with other closures ----------

  /** How many tasks an operation creates. */
  function Width<D>(op: Op<D>): nat {
    if op.Shuffle? then 3 else if op.Broadcast? then 4 else 1
  }

  function TaskCount<D>(ops: seq<Op<D>>): nat {
    if ops == [] then 0 else TaskCount(ops[..|ops| - 1]) + Width(ops[|ops| - 1])
  }

  /** `op` with closure c(k) for task k; its first task is t. */
  function Recast<D>(op: Op<D>, c: nat -> Closure<D>, t: nat): Op<D> {
    match op
    case FlatMap(_) => FlatMap(c(t))
    case ApplyRead(d, _) => ApplyRead(d, c(t))
    case MapPartition(d, _) => MapPartition(d, c(t))
    case MapPartitionWith(d, other, _) => MapPartitionWith(d, other, c(t))
    case SharedDataMapPartitionWith(d, other, _) => SharedDataMapPartitionWith(d, other, c(t))
    case UpdatePartition(d, _) => UpdatePartition(d, c(t))
    case UpdatePartitionWith(d, other, _) => UpdatePartitionWith(d, other, c(t))
    case Shuffle(d, _, _, _) => Shuffle(d, c(t), c(t + 1), c(t + 2))
    case Broadcast(d, _, _, _, _) => Op.Broadcast(d, c(t), c(t + 1), c(t + 2), c(t + 3))
  }

  /** The operations of `ops` with closure c(k) for task k. */
  function RecastAll<D>(ops: seq<Op<D>>, c: nat -> Closure<D>): (r: seq<Op<D>>)
    ensures |r| == |ops|
  {
    if ops == [] then []
    else
      var init := ops[..|ops| - 1];
      RecastAll(init, c) + [Recast(ops[|ops| - 1], c, TaskCount(init))]
  }

  /** The closure of the i-th task of an operation. */
  function ClosureOf<D>(op: Op<D>, i: nat): Closure<D> {
    match op
    case Shuffle(_, s, n, e) => if i == 0 then s else if i == 1 then n else e
    case Broadcast(_, s, n, e, f) => if i == 0 then s else if i == 1 then n else if i == 2 then e else f
    case _ => op.c
  }

  function Own<D>(ops: seq<Op<D>>, k: nat): Closure<D>
    requires ops != []
  {
    var init := ops[..|ops| - 1];
    if init != [] && k < TaskCount(init) then Own(init, k)
    else ClosureOf(ops[|ops| - 1], if k < TaskCount(init) then 0 else k - TaskCount(init))
  }

  lemma {:induction false} RecastAgrees<D>(ops: seq<Op<D>>, c: nat -> Closure<D>, c': nat -> Closure<D>)
    requires forall k: nat :: k < TaskCount(ops) ==> c(k) == c'(k)
    ensures RecastAll(ops, c) == RecastAll(ops, c')
  {
    if ops != [] {
      RecastAgrees(ops[..|ops| - 1], c, c');
    }
  }

  lemma RecastLast<D>(op: Op<D>, c: nat -> Closure<D>, t: nat)
    requires forall i: nat :: i < Width(op) ==> c(t + i) == ClosureOf(op, i)
    ensures Recast(op, c, t) == op
  {
    assert c(t + 0) == ClosureOf(op, 0);
    if op.Shuffle? || op.Broadcast? {
      assert c(t + 1) == ClosureOf(op, 1) && c(t + 2) == ClosureOf(op, 2);
    }
    if op.Broadcast? {
      assert c(t + 3) == ClosureOf(op, 3);
    }
  }

  lemma OwnSplits<D>(ops: seq<Op<D>>)
    requires ops != []
    ensures var init, op := ops[..|ops| - 1], ops[|ops| - 1];
            && (forall k: nat :: init != [] && k < TaskCount(init) ==> Own(ops, k) == Own(init, k))
            && (forall i: nat :: i < Width(op) ==> Own(ops, TaskCount(init) + i) == ClosureOf(op, i))
  {
    hide TaskCount, ClosureOf, Width;
    NoTasks<D>();
  }

  lemma NoTasks<D>()
    ensures TaskCount<D>([]) == 0
  {
  }

  function OwnAll<D>(ops: seq<Op<D>>): nat -> Closure<D>
    requires ops != []
  {
    (k: nat) => Own(ops, k)
  }

  /** A program is its own operations with its own closures. */
  lemma {:induction false} RecastOwn<D>(ops: seq<Op<D>>)
    requires ops != []
    ensures RecastAll(ops, OwnAll(ops)) == ops
  {
    hide Recast, ClosureOf, Own, TaskCount, Width;
    var init, op := ops[..|ops| - 1], ops[|ops| - 1];
    OwnSplits(ops);
    NoTasks<D>();
    if init != [] {
      RecastOwn(init);
      RecastAgrees(init, OwnAll(ops), OwnAll(init));
    }
    RecastLast(op, OwnAll(ops), TaskCount(init));
    assert ops == init + [op];
  }

  function CastTasks<D>(tasks: seq<TaskSpec<D>>, c: nat -> Closure<D>): (r: seq<TaskSpec<D>>)
    ensures |r| == |tasks|
    ensures forall k :: 0 <= k < |tasks| ==> r[k] == TaskSpec(tasks[k].readSet, tasks[k].writeSet, c(k))
  {
    seq(|tasks|, k requires 0 <= k < |tasks| => TaskSpec(tasks[k].readSet, tasks[k].writeSet, c(k)))
  }

  function Cast<D>(g: Graph<D>, c: nat -> Closure<D>): Graph<D> {
    g.(tasks := CastTasks(g.tasks, c))
  }

  /** The closures of the m tasks from t on. */
  function Span<D>(c: nat -> Closure<D>, t: nat, m: nat): (cs: seq<Closure<D>>)
    ensures |cs| == m && forall i :: 0 <= i < m ==> cs[i] == c(t + i)
  {
    seq(m, i requires 0 <= i < m => c(t + i))
  }

  lemma CastCreateTasks<D>(g: Graph<D>, cs: seq<Closure<D>>, c: nat -> Closure<D>)
    ensures Cast(CreateTasks(g, cs), c) == CreateTasks(Cast(g, c), Span(c, |g.tasks|, |cs|))
  {
    assert Cast(CreateTasks(g, cs), c).tasks == CreateTasks(Cast(g, c), Span(c, |g.tasks|, |cs|)).tasks;
  }

  lemma CastAccess<D>(g: Graph<D>, t: nat, d: nat, write: bool, c: nat -> Closure<D>)
    requires t < |g.tasks|
    ensures CastTasks(Access(g, t, d, write), c) == Access(Cast(g, c), t, d, write)
  {
    var a, b := CastTasks(Access(g, t, d, write), c), Access(Cast(g, c), t, d, write);
    assert a[t] == b[t];
    assert forall k :: 0 <= k < |a| && k != t ==> a[k] == b[k];
  }

  lemma CastCreate<D>(g: Graph<D>, t: nat, c: nat -> Closure<D>)
    requires t < |g.tasks|
    ensures Cast(Create(g, t), c) == Create(Cast(g, c), t)
  {
    hide Access, CastTasks;
    CastAccess(g, t, g.nextData, true, c);
  }

  lemma {:induction false} CastCreateEach<D>(g: Graph<D>, t: nat, m: nat, c: nat -> Closure<D>)
    requires t + m <= |g.tasks|
    ensures Cast(CreateEach(g, t, m), c) == CreateEach(Cast(g, c), t, m)
  {
    hide Create, CastTasks;
    if m > 0 {
      CastCreateEach(g, t, m - 1, c);
      CastCreate(CreateEach(g, t, m - 1), t + m - 1, c);
    }
  }

  lemma CastStart<D>(g: Graph<D>, cs: seq<Closure<D>>, c: nat -> Closure<D>)
    ensures Cast(Start(g, cs), c) == Start(Cast(g, c), Span(c, |g.tasks|, |cs|))
  {
    hide CreateEach, CastTasks;
    CastCreateTasks(g, cs, c);
    CastCreateEach(CreateTasks(g, cs), |g.tasks|, |cs|, c);
  }

  lemma CastReadBy<D>(g: Graph<D>, d: nat, t: nat, c: nat -> Closure<D>)
    requires t < |g.tasks| && d in g.trackers
    ensures Cast(ReadBy(g, d, t), c) == ReadBy(Cast(g, c), d, t)
  {
    hide Access, CastTasks;
    CastAccess(g, t, d, false, c);
  }

  lemma CastWriteBy<D>(g: Graph<D>, d: nat, t: nat, c: nat -> Closure<D>)
    requires t < |g.tasks| && d in g.trackers
    ensures Cast(WriteBy(g, d, t), c) == WriteBy(Cast(g, c), d, t)
  {
    hide Access, CastTasks;
    CastAccess(g, t, d, true, c);
  }

  lemma CastReadAfter<D>(g: Graph<D>, d: nat, p: nat, t: nat, c: nat -> Closure<D>)
    requires t < |g.tasks|
    ensures Cast(ReadAfter(g, d, p, t), c) == ReadAfter(Cast(g, c), d, p, t)
  {
    hide Access, CastTasks;
    CastAccess(g, t, d, false, c);
  }

  lemma CastReadOnly<D>(g: Graph<D>, d: nat, t: nat, c: nat -> Closure<D>)
    requires t < |g.tasks|
    ensures Cast(ReadOnly(g, d, t), c) == ReadOnly(Cast(g, c), d, t)
  {
    hide Access, CastTasks;
    CastAccess(g, t, d, false, c);
  }

  lemma CastExchange<D>(g: Graph<D>, d: nat, t: nat, r: nat, c: nat -> Closure<D>)
    requires t + 2 < |g.tasks| && d in g.trackers && r in g.trackers
    ensures Cast(Exchange(g, d, t, r), c) == Exchange(Cast(g, c), d, t, r)
  {
    hide ReadBy, ReadAfter, CastTasks;
    CastReadBy(g, d, t, c);
    ReadHere(g, d, t);
    ReadHere(ReadBy(g, d, t), r, t + 1);
    CastReadBy(ReadBy(g, d, t), r, t + 1, c);
    CastReadAfter(ReadBy(ReadBy(g, d, t), r, t + 1), r + 1, t + 1, t + 2, c);
  }

  lemma ReadHere<D>(g: Graph<D>, d: nat, t: nat)
    requires t < |g.tasks| && d in g.trackers
    ensures |ReadBy(g, d, t).tasks| == |g.tasks| && forall x :: x in g.trackers ==> x in ReadBy(g, d, t).trackers
  {
  }

  lemma CastUsable<D>(g: Graph<D>, op: Op<D>, c: nat -> Closure<D>)
    requires Usable(g, op)
    ensures Usable(Cast(g, c), Recast(op, c, |g.tasks|))
  {
    var h := Cast(g, c);
    assert forall k :: 0 <= k < |g.tasks| ==> Touches(h.tasks[k]) == Touches(g.tasks[k]);
  }

  lemma StartHere<D>(g: Graph<D>, cs: seq<Closure<D>>)
    requires Counted(g)
    ensures |Start(g, cs).tasks| == |g.tasks| + |cs|
    ensures forall d: nat :: d < g.nextData + |cs| ==> d in Start(g, cs).trackers
  {
  }

  lemma ExchangeHere<D>(g: Graph<D>, d: nat, t: nat, r: nat)
    requires t + 2 < |g.tasks| && d in g.trackers && r in g.trackers
    ensures |Exchange(g, d, t, r).tasks| == |g.tasks|
  {
  }

  lemma CastShuffle<D>(g: Graph<D>, op: Op<D>, c: nat -> Closure<D>)
    requires Usable(g, op) && op.Shuffle?
    ensures Usable(Cast(g, c), Recast(op, c, |g.tasks|))
    ensures Cast(Apply(g, op), c) == Apply(Cast(g, c), Recast(op, c, |g.tasks|))
  {
    hide Counted, Start, Exchange, CastTasks, Legal, Span;
    CastUsable(g, op, c);
    HandlesBelow(g, op);
    var cs, t := [op.serialize, op.transfer, op.deserialize], |g.tasks|;
    StartHere(g, cs);
    CastStart(g, cs, c);
    assert Span(c, t, 3) == [c(t), c(t + 1), c(t + 2)];
    CastExchange(Start(g, cs), op.d, t, g.nextData, c);
  }

  lemma CastBroadcast<D>(g: Graph<D>, op: Op<D>, c: nat -> Closure<D>)
    requires Usable(g, op) && op.Broadcast?
    ensures Usable(Cast(g, c), Recast(op, c, |g.tasks|))
    ensures Cast(Apply(g, op), c) == Apply(Cast(g, c), Recast(op, c, |g.tasks|))
  {
    hide Counted, Start, Exchange, ReadAfter, CastTasks, Legal, Span;
    CastUsable(g, op, c);
    HandlesBelow(g, op);
    var cs, t, r := [op.serialize, op.transfer, op.deserialize, op.fetch], |g.tasks|, g.nextData;
    StartHere(g, cs);
    CastStart(g, cs, c);
    assert Span(c, t, 4) == [c(t), c(t + 1), c(t + 2), c(t + 3)];
    CastExchange(Start(g, cs), op.d, t, r, c);
    ExchangeHere(Start(g, cs), op.d, t, r);
    CastReadAfter(Exchange(Start(g, cs), op.d, t, r), r + 2, t + 2, t + 3, c);
  }

  /** Other closures make no difference to the graph but for themselves. */
  lemma CastApply<D>(g: Graph<D>, op: Op<D>, c: nat -> Closure<D>)
    requires Usable(g, op)
    ensures Usable(Cast(g, c), Recast(op, c, |g.tasks|))
    ensures Cast(Apply(g, op), c) == Apply(Cast(g, c), Recast(op, c, |g.tasks|))
  {
    CastUsable(g, op, c);
    HandlesBelow(g, op);
    hide Counted, Start, ReadBy, WriteBy, ReadOnly, Exchange, ReadAfter, CreateTasks, CastTasks;
    var t := |g.tasks|;
    if op.Shuffle? {
      CastShuffle(g, op, c);
    } else if op.Broadcast? {
      CastBroadcast(g, op, c);
    } else {
      var cs := [op.c];
      assert Span(c, t, 1) == [c(t)];
      StartHere(g, cs);
      CastStart(g, cs, c);
      CastCreateTasks(g, cs, c);
      CreateTasksHere(g, cs);
      var a, b := Start(g, cs), CreateTasks(g, cs);
      match op
      case FlatMap(_) =>
      case ApplyRead(d, _) => CastReadBy(b, d, t, c);
      case MapPartition(d, _) => CastReadBy(a, d, t, c);
      case MapPartitionWith(d, other, _) =>
        CastReadBy(a, d, t, c);
        ReadHere(a, d, t);
        CastReadBy(ReadBy(a, d, t), other, t, c);
      case SharedDataMapPartitionWith(d, other, _) =>
        CastReadBy(a, other, t, c);
        ReadHere(a, other, t);
        CastReadOnly(ReadBy(a, other, t), d, t, c);
      case UpdatePartition(d, _) => CastWriteBy(b, d, t, c);
      case UpdatePartitionWith(d, other, _) =>
        CastWriteBy(b, d, t, c);
        WriteHere(b, d, t);
        CastReadBy(WriteBy(b, d, t), other, t, c);
    }
  }

  lemma CreateTasksHere<D>(g: Graph<D>, cs: seq<Closure<D>>)
    requires Counted(g)
    ensures |CreateTasks(g, cs).tasks| == |g.tasks| + |cs|
    ensures forall d: nat :: d < g.nextData ==> d in CreateTasks(g, cs).trackers
  {
  }

  lemma WriteHere<D>(g: Graph<D>, d: nat, t: nat)
    requires t < |g.tasks| && d in g.trackers
    ensures |WriteBy(g, d, t).tasks| == |g.tasks| && forall x :: x in g.trackers ==> x in WriteBy(g, d, t).trackers
  {
  }

  // ---------- whole programs ----------

  lemma {:induction false} TasksBuilt<D>(ops: seq<Op<D>>)
    requires Build(ops).Some?
    ensures |Build(ops).value.tasks| == TaskCount(ops)
  {
    hide Apply, Counted, Width;
    if ops != [] {
      TasksBuilt(ops[..|ops| - 1]);
      WidthApplied(Build(ops[..|ops| - 1]).value, ops[|ops| - 1]);
    }
  }

  lemma WidthApplied<D>(g: Graph<D>, op: Op<D>)
    requires Usable(g, op)
    ensures |Apply(g, op).tasks| == |g.tasks| + Width(op)
  {
    SameOrMore(g, op);
  }

  /** The same operations build the same graph, whatever their closures. */
  lemma {:induction false} CastBuild<D>(ops: seq<Op<D>>, c: nat -> Closure<D>)
    requires Build(ops).Some?
    ensures Build(RecastAll(ops, c)) == Some(Cast(Build(ops).value, c))
  {
    hide Apply, Usable, Recast;
    if ops == [] {
      NothingCast(c);
    } else {
      var init, g, op := ops[..|ops| - 1], Build(ops[..|ops| - 1]).value, ops[|ops| - 1];
      CastBuild(init, c);
      TasksBuilt(init);
      CastApply(g, op, c);
      BuildUsable(RecastAll(init, c), Recast(op, c, |g.tasks|));
    }
  }

  lemma NothingCast<D>(c: nat -> Closure<D>)
    ensures Cast(EmptyGraph(), c) == EmptyGraph()
  {
    assert CastTasks(EmptyGraph<D>().tasks, c) == [];
  }

  lemma BuildUsable<D>(ops: seq<Op<D>>, op: Op<D>)
    requires Build(ops).Some? && Usable(Build(ops).value, op)
    ensures Build(ops + [op]) == Some(Apply(Build(ops).value, op))
  {
    BuildSnoc(ops, op);
  }

  lemma CastOrdered<D>(g: Graph<D>, op: Op<D>, c: nat -> Closure<D>)
    requires Usable(g, op) && ReadsOrdered(g, op)
    ensures Usable(Cast(g, c), Recast(op, c, |g.tasks|)) && ReadsOrdered(Cast(g, c), Recast(op, c, |g.tasks|))
  {
    CastUsable(g, op, c);
    hide Counted, Reaches, CastTasks;
    var op', g' := Recast(op, c, |g.tasks|), Cast(g, c);
    assert Parents(g', op') == Parents(g, op);
    forall k | Leads(g, k, Parents(g, op)) ensures Leads(g', k, Parents(g', op')) {
      var p :| p in Parents(g, op) && ReachesOrSame(g.edges, k, p);
      assert p in Parents(g', op') && ReachesOrSame(g'.edges, k, p);
    }
  }

  lemma {:induction false} CastInOrder<D>(ops: seq<Op<D>>, c: nat -> Closure<D>)
    requires Build(ops).Some? && ReadsInOrder(ops)
    ensures Build(RecastAll(ops, c)).Some? && ReadsInOrder(RecastAll(ops, c))
  {
    hide Apply, Usable, Recast, ReadsOrdered, Cast;
    CastBuild(ops, c);
    if ops != [] {
      var init, op := ops[..|ops| - 1], ops[|ops| - 1];
      CastInOrder(init, c);
      CastBuild(init, c);
      TasksBuilt(init);
      CastOrdered(Build(init).value, op, c);
      var all := RecastAll(ops, c);
      assert all[..|all| - 1] == RecastAll(init, c);
    }
  }


  // ---------- two schedules ----------

  /** The tasks below n inside, or outside, the set `late`, ascending. */
  function Those(n: nat, late: set<nat>, inside: bool): (ks: seq<nat>)
    ensures forall k :: k in ks <==> 0 <= k < n && (k in late <==> inside)
    ensures forall p, q :: 0 <= p < q < |ks| ==> ks[p] < ks[q]
  {
    if n == 0 then []
    else
      var ks := Those(n - 1, late, inside);
      assert forall p :: 0 <= p < |ks| ==> ks[p] in ks;
      ks + if (n - 1 in late) == inside then [n - 1] else []
  }

  lemma {:induction false} ThoseCount(n: nat, late: set<nat>)
    ensures |Those(n, late, false)| + |Those(n, late, true)| == n
  {
    if n > 0 {
      ThoseCount(n - 1, late);
    }
  }

  /** First the tasks outside `late`, then those inside. */
  function Delaying(n: nat, late: set<nat>): seq<nat> {
    Those(n, late, false) + Those(n, late, true)
  }

  lemma DelayingArranges(n: nat, late: set<nat>)
    ensures Arranges(Delaying(n, late), 0, n)
  {
    var a, b := Those(n, late, false), Those(n, late, true);
    ThoseCount(n, late);
    assert forall p :: 0 <= p < |a| ==> a[p] in a;
    assert forall p :: 0 <= p < |b| ==> b[p] in b;
    forall k ensures k in Delaying(n, late) <==> 0 <= k < n {
      assert k in Delaying(n, late) <==> k in a || k in b;
    }
  }

  lemma DelayingBefore(n: nat, late: set<nat>, i: nat, j: nat)
    requires i < n && j < n && if i in late <==> j in late then i < j else i !in late
    ensures Before(Delaying(n, late), i, j)
  {
    var a, b := Those(n, late, false), Those(n, late, true);
    var order := Delaying(n, late);
    if j !in late {
      var p := PlaceIn(a, i);
      var q := PlaceIn(a, j);
      assert order[p] == i && order[q] == j;
    } else if i in late {
      var p := PlaceIn(b, i);
      var q := PlaceIn(b, j);
      assert order[|a| + p] == i && order[|a| + q] == j;
    } else {
      var p := PlaceIn(a, i);
      var q := PlaceIn(b, j);
      assert order[p] == i && order[|a| + q] == j;
    }
  }

  lemma PlaceIn(ks: seq<nat>, k: nat) returns (p: nat)
    requires k in ks
    ensures p < |ks| && ks[p] == k
  {
    p :| 0 <= p < |ks| && ks[p] == k;
  }

  /** Delaying one task and all that have to wait for it respects the edges, and puts a later task that
      need not wait in front of it. */
  lemma Overtake(e: Edges, n: nat, lo: nat, hi: nat) returns (order: seq<nat>)
    requires (forall i, j :: (i, j) in e ==> i < j < n) && lo < hi < n && !Reaches(e, lo, hi)
    ensures Arranges(order, 0, n) && Respects(order, e) && Before(order, hi, lo)
  {
    var late := set k | 0 <= k < n && ReachesOrSame(e, lo, k);
    order := Delaying(n, late);
    DelayingArranges(n, late);
    DelayingBefore(n, late, hi, lo);
    forall i, j | (i, j) in e ensures Before(order, i, j) {
      if i in late {
        EdgeReaches(e, i, j);
        ReachesTrans(e, lo, i, j);
      }
      DelayingBefore(n, late, i, j);
    }
  }

  lemma InOrder(e: Edges, n: nat, lo: nat, hi: nat) returns (order: seq<nat>)
    requires (forall i, j :: (i, j) in e ==> i < j < n) && lo < hi < n
    ensures Arranges(order, 0, n) && Respects(order, e) && Before(order, lo, hi)
  {
    order := Delaying(n, {});
    DelayingArranges(n, {});
    DelayingBefore(n, {}, lo, hi);
    forall i, j | (i, j) in e ensures Before(order, i, j) {
      DelayingBefore(n, {}, i, j);
    }
  }

  // ---------- what they compute when only two tasks do anything ----------

  /** A task that puts nothing out. */
  ghost predicate Idles<D(!new)>(t: TaskSpec<D>) {
    forall s :: t.closure(s) == map[]
  }

  lemma IdleExec<D(!new)>(t: TaskSpec<D>, s: Store<D>)
    requires Idles(t)
    ensures Exec(t, s) == s
  {
    assert t.closure(View(t, s)) == map[];
  }

  lemma {:induction false} IdleRun<D(!new)>(tasks: seq<TaskSpec<D>>, order: seq<nat>, s: Store<D>)
    requires forall k :: k in order && k < |tasks| ==> Idles(tasks[k])
    ensures Run(tasks, order, s) == s
  {
    hide Exec, Idles;
    if order != [] {
      assert order[0] in order;
      if order[0] < |tasks| {
        IdleExec(tasks[order[0]], s);
      }
      IdleRun(tasks, order[1..], s);
    }
  }

  lemma RunFirst<D>(tasks: seq<TaskSpec<D>>, order: seq<nat>, s: Store<D>)
    requires order != [] && order[0] < |tasks|
    ensures Run(tasks, order, s) == Run(tasks, order[1..], Exec(tasks[order[0]], s))
  {
  }

  lemma DistinctRest(order: seq<nat>)
    requires Distinct(order) && order != []
    ensures Distinct(order[1..]) && order[0] !in order[1..] && forall k :: k in order <==> k == order[0] || k in order[1..]
  {
  }

  lemma {:induction false} OneActive<D(!new)>(tasks: seq<TaskSpec<D>>, order: seq<nat>, j: nat, s: Store<D>)
    requires Distinct(order) && j in order && forall k :: k in order ==> k < |tasks|
    requires forall k :: k in order && k != j ==> Idles(tasks[k])
    ensures Run(tasks, order, s) == Exec(tasks[j], s)
  {
    hide Exec, Idles, Run, Distinct;
    DistinctRest(order);
    RunFirst(tasks, order, s);
    if order[0] == j {
      IdleRun(tasks, order[1..], Exec(tasks[j], s));
    } else {
      IdleExec(tasks[order[0]], s);
      OneActive(tasks, order[1..], j, s);
    }
  }

  lemma BeforeRest(order: seq<nat>, i: nat, j: nat)
    requires Distinct(order) && Before(order, i, j)
    ensures order != [] && order[0] != j && (order[0] == i ==> j in order[1..]) && (order[0] != i ==> Before(order[1..], i, j))
  {
    var p, q :| 0 <= p < q < |order| && order[p] == i && order[q] == j;
    assert order[1..][q - 1] == j;
    if p > 0 {
      assert order[1..][p - 1] == i;
    }
  }

  lemma {:induction false} TwoActive<D(!new)>(tasks: seq<TaskSpec<D>>, order: seq<nat>, i: nat, j: nat, s: Store<D>)
    requires Distinct(order) && Before(order, i, j) && forall k :: k in order ==> k < |tasks|
    requires forall k :: k in order && k != i && k != j ==> Idles(tasks[k])
    requires i < |tasks| && j < |tasks|
    ensures Run(tasks, order, s) == Exec(tasks[j], Exec(tasks[i], s))
  {
    hide Exec, Idles, Run, Distinct, Before;
    BeforeRest(order, i, j);
    DistinctRest(order);
    RunFirst(tasks, order, s);
    if order[0] == i {
      OneActive(tasks, order[1..], j, Exec(tasks[i], s));
    } else {
      IdleExec(tasks[order[0]], s);
      TwoActive(tasks, order[1..], i, j, s);
    }
  }

  // ---------- the closures that tell the schedules apart ----------

  /** Task x writes b to d, task y copies d to r, and the others do nothing. */
  function Telling<D>(x: nat, y: nat, d: nat, r: nat, b: D): nat -> Closure<D> {
    k => if k == x then (s: Store<D>) => map[d := b]
         else if k == y then (s: Store<D>) => (if d in s then map[r := s[d]] else map[])
         else (s: Store<D>) => map[]
  }

  lemma TellingExec<D(!new)>(tasks: seq<TaskSpec<D>>, x: nat, y: nat, d: nat, r: nat, a: D, b: D)
    requires x < |tasks| && y < |tasks| && x != y && d != r
    requires d in tasks[x].writeSet && d in tasks[y].readSet && r in tasks[y].writeSet
    requires tasks[x].closure == Telling(x, y, d, r, b)(x) && tasks[y].closure == Telling(x, y, d, r, b)(y)
    ensures Exec(tasks[y], Exec(tasks[x], map[d := a])) == map[d := b, r := b]
    ensures Exec(tasks[x], Exec(tasks[y], map[d := a])) == map[d := b, r := a]
  {
    hide Exec;
    assert map[d := a][d := b] == map[d := b] && map[d := a, r := a][d := b] == map[d := b, r := a];
    WriterExec(tasks[x], d, b, map[d := a]);
    CopierExec(tasks[y], d, r, map[d := b]);
    CopierExec(tasks[y], d, r, map[d := a]);
    WriterExec(tasks[x], d, b, map[d := a, r := a]);
  }

  lemma WriterExec<D(!new)>(t: TaskSpec<D>, d: nat, b: D, s: Store<D>)
    requires d in t.writeSet && forall v :: t.closure(v) == map[d := b]
    ensures Exec(t, s) == s[d := b]
  {
    assert t.closure(View(t, s)) == map[d := b];
  }

  lemma CopierExec<D(!new)>(t: TaskSpec<D>, d: nat, r: nat, s: Store<D>)
    requires d in t.readSet && r in t.writeSet && d in s && forall v :: d in v ==> t.closure(v) == map[r := v[d]]
    ensures Exec(t, s) == s[r := s[d]]
  {
    assert d in View(t, s) && View(t, s)[d] == s[d];
    assert t.closure(View(t, s)) == map[r := s[d]];
  }

  // ---------- the race in a program whose reads are not in order ----------

  /** Task x writes d, task y reads d and writes r, and the later of the two need not wait for the earlier. */
  ghost predicate Race<D>(g: Graph<D>, x: nat, y: nat, d: nat, r: nat) {
    && x < |g.tasks| && y < |g.tasks| && x != y && r != d
    && d in g.tasks[x].writeSet && d in g.tasks[y].readSet && r in g.tasks[y].writeSet
    && if x < y then !Reaches(g.edges, x, y) else !Reaches(g.edges, y, x)
  }

  lemma RaceKept<D>(g: Graph<D>, g': Graph<D>, x: nat, y: nat, d: nat, r: nat)
    requires Race(g, x, y, d, r) && Grows(g, g') && Forward(g')
    ensures Race(g', x, y, d, r)
  {
    hide Counted, Reaches, Forward;
    NotReached(g, g', if x < y then x else y, if x < y then y else x);
  }

  lemma NotReached<D>(g: Graph<D>, g': Graph<D>, i: nat, j: nat)
    requires Grows(g, g') && Forward(g') && i < j < |g.tasks| && !Reaches(g.edges, i, j)
    ensures !Reaches(g'.edges, i, j)
  {
    hide Counted, Grows;
    if Reaches(g'.edges, i, j) {
      var p :| Path(g'.edges, p, i, j);
      OldPath(g, g', p, i, j);
    }
  }

  /** Every unregistered reader writes a dataset of its own. */
  ghost predicate ReadersWrite<D>(g: Graph<D>) {
    forall d, k :: (d, k) in g.unrecorded ==> k < |g.tasks| && d in g.tasks[k].readSet && HasResult(g.tasks[k], d)
  }

  ghost predicate HasResult<D>(t: TaskSpec<D>, d: nat) {
    exists r :: r in t.writeSet && r != d
  }

  lemma ApplyReadersWrite<D>(g: Graph<D>, op: Op<D>)
    requires Usable(g, op) && ReadersWrite(g)
    ensures ReadersWrite(Apply(g, op))
  {
    hide Apply, Counted, HasResult;
    var g' := Apply(g, op);
    ApplyGrows(g, op);
    if op.SharedDataMapPartitionWith? {
      SharedAdds(g, op);
    } else {
      AllRecorded(g, op);
    }
    forall d, k | (d, k) in g'.unrecorded ensures k < |g'.tasks| && d in g'.tasks[k].readSet && HasResult(g'.tasks[k], d) {
      assert (d, k) in g.unrecorded || (d == op.d && k == |g.tasks|);
      assert k < |g.tasks| ==> g'.tasks[k] == g.tasks[k];
    }
  }

  lemma SharedAdds<D>(g: Graph<D>, op: Op<D>)
    requires Usable(g, op) && op.SharedDataMapPartitionWith?
    ensures Apply(g, op).unrecorded == g.unrecorded + {(op.d, |g.tasks|)} && op.d < g.nextData
    ensures |Apply(g, op).tasks| == |g.tasks| + 1
    ensures var t := Apply(g, op).tasks[|g.tasks|]; op.d in t.readSet && g.nextData in t.writeSet && HasResult(t, op.d)
  {
    ShareOf(g, op.d, op.other, op.c);
    HandlesBelow(g, op);
    assert g.nextData in Apply(g, op).tasks[|g.tasks|].writeSet;
  }

  lemma {:induction false} BuildReadersWrite<D>(ops: seq<Op<D>>)
    requires Build(ops).Some?
    ensures ReadersWrite(Build(ops).value)
  {
    hide Apply, Counted, ReadersWrite;
    if ops == [] {
      NothingUnrecorded<D>();
    } else {
      BuildReadersWrite(ops[..|ops| - 1]);
      ApplyReadersWrite(Build(ops[..|ops| - 1]).value, ops[|ops| - 1]);
    }
  }

  lemma NothingUnrecorded<D>()
    ensures ReadersWrite<D>(EmptyGraph())
  {
  }

  lemma UpdateWrites<D>(g: Graph<D>, op: Op<D>)
    requires Usable(g, op) && (op.UpdatePartition? || op.UpdatePartitionWith?)
    ensures |Apply(g, op).tasks| == |g.tasks| + 1 && op.d in Apply(g, op).tasks[|g.tasks|].writeSet
  {
  }

  lemma SharedRace<D>(g: Graph<D>, op: Op<D>) returns (x: nat, y: nat, d: nat, r: nat)
    requires Usable(g, op) && Good(g) && AllTracked(g) && op.SharedDataMapPartitionWith? && !ReadsOrdered(g, op)
    ensures Race(Apply(g, op), x, y, d, r)
  {
    assert Tracked(g, op.d);
    hide Apply, Reaches, Counted, Parents, ConflictsConnected;
    x, y, d, r := g.trackers[op.d].writer.value, |g.tasks|, op.d, g.nextData;
    ApplyGrows(g, op);
    EdgesAdded(g, op);
    SharedAdds(g, op);
    if Reaches(Apply(g, op).edges, x, y) {
      ReachesLeads(g, Parents(g, op), Apply(g, op).edges, x);
    }
  }

  lemma UpdateRace<D>(g: Graph<D>, op: Op<D>) returns (x: nat, y: nat, d: nat, r: nat)
    requires Usable(g, op) && Good(g) && ReadersWrite(g) && !UpdatesWithItself(op)
    requires (op.UpdatePartition? || op.UpdatePartitionWith?) && !ReadsOrdered(g, op)
    ensures Race(Apply(g, op), x, y, d, r)
  {
    hide Apply, Reaches, Counted, Parents, ConflictsConnected;
    d := op.d;
    var k: nat :| (d, k) in g.unrecorded && !Leads(g, k, Parents(g, op));
    x, y := |g.tasks|, k;
    r :| r in g.tasks[k].writeSet && r != d;
    ApplyGrows(g, op);
    EdgesAdded(g, op);
    UpdateWrites(g, op);
    if Reaches(Apply(g, op).edges, y, x) {
      ReachesLeads(g, Parents(g, op), Apply(g, op).edges, y);
    }
  }

  lemma OnlyUpdates<D>(g: Graph<D>, op: Op<D>)
    requires Usable(g, op) && !ReadsOrdered(g, op)
    ensures op.SharedDataMapPartitionWith? || op.UpdatePartition? || op.UpdatePartitionWith?
  {
  }

  lemma {:induction false} FirstRace<D>(ops: seq<Op<D>>) returns (x: nat, y: nat, d: nat, r: nat)
    requires Build(ops).Some? && SelfUpdateFree(ops) && !ReadsInOrder(ops)
    ensures Race(Build(ops).value, x, y, d, r)
  {
    hide Apply, Race, ReadsOrdered, UpdatesWithItself, Good, AllTracked, Usable;
    var init, op := ops[..|ops| - 1], ops[|ops| - 1];
    var g := Build(init).value;
    if ReadsInOrder(init) {
      BuildGood(init);
      BuildReadersWrite(init);
      if op.SharedDataMapPartitionWith? {
        x, y, d, r := SharedRace(g, op);
      } else {
        OnlyUpdates(g, op);
        x, y, d, r := UpdateRace(g, op);
      }
    } else {
      x, y, d, r := FirstRace(init);
      ApplyGrows(g, op);
      BuildForward(ops);
      RaceKept(g, Build(ops).value, x, y, d, r);
    }
  }

  // ---------- the exact condition ----------

  /** A program whose reads are not in order has closures, a store to start from, and two schedules that
      respect the edges and end in different stores. */
  lemma OrderIsNeeded<D(!new)>(ops: seq<Op<D>>, a: D, b: D)
    returns (c: nat -> Closure<D>, s: Store<D>, one: seq<nat>, two: seq<nat>)
    requires Build(ops).Some? && SelfUpdateFree(ops) && !ReadsInOrder(ops) && a != b
    ensures var p := Build(RecastAll(ops, c));
            && p.Some? && Run(p.value.tasks, one, s) != Run(p.value.tasks, two, s)
            && Arranges(one, 0, |p.value.tasks|) && Respects(one, p.value.edges)
            && Arranges(two, 0, |p.value.tasks|) && Respects(two, p.value.edges)
  {
    hide Build, ReadsInOrder, RecastAll, SelfUpdateFree, Run, Exec, Reaches;
    var x, y, d, r := FirstRace(ops);
    var g := Build(ops).value;
    c, s := Telling(x, y, d, r, b), map[d := a];
    CastBuild(ops, c);
    BuildForward(ops);
    var n, lo, hi := |g.tasks|, if x < y then x else y, if x < y then y else x;
    one := InOrder(g.edges, n, lo, hi);
    two := Overtake(g.edges, n, lo, hi);
    var tasks := CastTasks(g.tasks, c);
    TellingIdles(tasks, x, y, d, r, b);
    TellingExec(tasks, x, y, d, r, a, b);
    TwoActive(tasks, one, lo, hi, s);
    TwoActive(tasks, two, hi, lo, s);
    assert map[d := b, r := b][r] != map[d := b, r := a][r];
  }

  lemma TellingIdles<D(!new)>(tasks: seq<TaskSpec<D>>, x: nat, y: nat, d: nat, r: nat, b: D)
    requires forall k :: 0 <= k < |tasks| ==> tasks[k].closure == Telling(x, y, d, r, b)(k)
    ensures forall k: nat :: k < |tasks| && k != x && k != y ==> Idles(tasks[k])
  {
  }

  /** Whatever the closures of the operations compute, every schedule ends in one store. */
  ghost predicate OneStore<D(!new)>(ops: seq<Op<D>>) {
    forall c: nat -> Closure<D>, s: Store<D> ::
      Build(RecastAll(ops, c)).Some? && AnySchedule(RecastAll(ops, c), s)
  }

  lemma NotAny<D>(ops: seq<Op<D>>, s: Store<D>, one: seq<nat>, two: seq<nat>)
    requires Build(ops).Some?
    requires var g := Build(ops).value;
             && Run(g.tasks, one, s) != Run(g.tasks, two, s)
             && Arranges(one, 0, |g.tasks|) && Respects(one, g.edges)
             && Arranges(two, 0, |g.tasks|) && Respects(two, g.edges)
    ensures !AnySchedule(ops, s)
  {
    hide Build, Run, Arranges, Respects;
  }

  lemma StuckMeansAny<D>(ops: seq<Op<D>>, c: nat -> Closure<D>, s: Store<D>)
    requires Build(ops).Some? && !SelfUpdateFree(ops) && Build(RecastAll(ops, c)) == Some(Cast(Build(ops).value, c))
    ensures AnySchedule(RecastAll(ops, c), s)
  {
    hide Build, Run, SelfUpdateFree;
    var g := Build(ops).value;
    forall order ensures !(Arranges(order, 0, |g.tasks|) && Respects(order, g.edges)) {
      if Arranges(order, 0, |g.tasks|) && Respects(order, g.edges) {
        RespectedMeansFree(ops, order);
      }
    }
  }

  lemma OneStoreOf<D>(ops: seq<Op<D>>, c: nat -> Closure<D>, s: Store<D>)
    requires Build(ops).Some? && (SelfUpdateFree(ops) ==> ReadsInOrder(ops))
    ensures Build(RecastAll(ops, c)).Some? && AnySchedule(RecastAll(ops, c), s)
  {
    hide *;
    CastBuild(ops, c);
    if SelfUpdateFree(ops) {
      CastInOrder(ops, c);
      OrderedMeansAny(RecastAll(ops, c), s);
    } else {
      StuckMeansAny(ops, c, s);
    }
  }

  /** The store of a program is determined, whatever its closures compute, exactly when each operation finds
      its reads in order, or nothing can be scheduled at all. */
  lemma OneStoreIff<D(!new)>(ops: seq<Op<D>>, a: D, b: D)
    requires Build(ops).Some? && a != b
    ensures OneStore(ops) <==> (SelfUpdateFree(ops) ==> ReadsInOrder(ops))
  {
    hide Build, ReadsInOrder, RecastAll, SelfUpdateFree, AnySchedule;
    if SelfUpdateFree(ops) ==> ReadsInOrder(ops) {
      forall c: nat -> Closure<D>, s: Store<D>
        ensures Build(RecastAll(ops, c)).Some? && AnySchedule(RecastAll(ops, c), s)
      {
        OneStoreOf(ops, c, s);
      }
      assert OneStore(ops);
    } else {
      var c, s, one, two := OrderIsNeeded(ops, a, b);
      NotAny(RecastAll(ops, c), s, one, two);
      assert !OneStore(ops);
    }
  }
}
