/** What a program over datasets computes, said without tasks, edges or schedules: each operation fills a
    dataset from the datasets it is called on.  Every schedule of the task graph computes just that. */
module Semantics {
  import opened Dependency
  import opened Grouping
  import opened Programs
  import opened Schedule

  // ---------- what a task does to the store ----------

  /** `v` holds what `s` holds of the datasets that `t` reads or writes, and nothing else. */
  ghost predicate Given<D>(t: TaskSpec<D>, s: Store<D>, v: Store<D>) {
    && (forall d: nat :: d in v <==> d in s && (d in t.readSet || d in t.writeSet))
    && (forall d: nat :: d in v ==> v[d] == s[d])
  }

  /** A task replaces what it writes by what its closure makes of the datasets it reads or writes; all else stays. */
  lemma ExecExact<D>(t: TaskSpec<D>, s: Store<D>, v: Store<D>)
    requires Given(t, s, v)
    ensures var made, after := t.closure(v), Exec(t, s);
            && (forall d: nat :: d in after <==> d in s || (d in t.writeSet && d in made))
            && (forall d: nat :: d in after ==> after[d] == if d in t.writeSet && d in made then made[d] else s[d])
  {
    assert View(t, s) == v;
  }

  /** Stores that agree on what a task touches agree on what it writes. */
  lemma ExecLocal<D>(t: TaskSpec<D>, s: Store<D>, s': Store<D>)
    requires forall d: nat :: d in t.readSet || d in t.writeSet ==> (d in s <==> d in s') && (d in s ==> s[d] == s'[d])
    ensures forall d: nat :: d in t.writeSet ==>
              (d in Exec(t, s) <==> d in Exec(t, s')) && (d in Exec(t, s) ==> Exec(t, s)[d] == Exec(t, s')[d])
  {
    assert View(t, s) == View(t, s');
  }

  /** The task of UpdatePartition: its closure is handed the dataset itself and changes it. */
  lemma UpdateInPlace<D>(d: nat, c: Closure<D>, f: D -> D, s: Store<D>)
    requires d in s && forall v: Store<D> :: d in v ==> d in c(v) && c(v)[d] == f(v[d])
    ensures Exec(TaskSpec({}, {d}, c), s) == s[d := f(s[d])]
  {
    var t := TaskSpec({}, {d}, c);
    ExecExact(t, s, map[d := s[d]]);
  }

  // ---------- what an operation computes ----------

  /** The closure is handed `ins` and what is in `out`, and fills `out`. */
  function Filled<D>(s: Store<D>, c: Closure<D>, ins: set<nat>, out: nat): Store<D> {
    var made := c(map d | d in s && (d in ins || d == out) :: s[d]);
    if out in made then s[out := made[out]] else s
  }

  /** How many datasets an operation creates. */
  function Fresh<D>(op: Op<D>): nat {
    match op
    case ApplyRead(_, _) => 0
    case UpdatePartition(_, _) => 0
    case UpdatePartitionWith(_, _, _) => 0
    case Shuffle(_, _, _, _) => 3
    case Broadcast(_, _, _, _, _) => 4
    case _ => 1
  }

  /** One operation in a program that has created datasets 0, ..., r - 1. */
  function Computes<D>(op: Op<D>, r: nat, s: Store<D>): Store<D> {
    match op
    case FlatMap(c) => Filled(s, c, {}, r)
    case ApplyRead(_, _) => s
    case MapPartition(d, c) => Filled(s, c, {d}, r)
    case MapPartitionWith(d, other, c) => Filled(s, c, {d, other}, r)
    case SharedDataMapPartitionWith(d, other, c) => Filled(s, c, {d, other}, r)
    case UpdatePartition(d, c) => Filled(s, c, {}, d)
    case UpdatePartitionWith(d, other, c) => Filled(s, c, {other}, d)
    case Shuffle(d, serialize, transfer, deserialize) =>
      Filled(Filled(Filled(s, serialize, {d}, r), transfer, {r}, r + 1), deserialize, {r + 1}, r + 2)
    case Broadcast(d, serialize, transfer, deserialize, fetch) =>
      var arrived := Filled(Filled(Filled(s, serialize, {d}, r), transfer, {r}, r + 1), deserialize, {r + 1}, r + 2);
      Filled(arrived, fetch, {r + 2}, r + 3)
  }

  function Created<D>(ops: seq<Op<D>>): nat {
    if ops == [] then 0 else Created(ops[..|ops| - 1]) + Fresh(ops[|ops| - 1])
  }

  /** The operations one after the other. */
  function Meaning<D>(ops: seq<Op<D>>, s: Store<D>): Store<D> {
    if ops == [] then s
    else
      var before := ops[..|ops| - 1];
      Computes(ops[|ops| - 1], Created(before), Meaning(before, s))
  }

  // ---------- the tasks of an operation ----------

  /** What the tasks of an operation read and write, when the first dataset it creates is r. */
  function Tasks<D>(op: Op<D>, r: nat): seq<TaskSpec<D>> {
    match op
    case FlatMap(c) => [TaskSpec({}, {r}, c)]
    case ApplyRead(d, c) => [TaskSpec({d}, {}, c)]
    case MapPartition(d, c) => [TaskSpec({d}, {r}, c)]
    case MapPartitionWith(d, other, c) => [TaskSpec({d, other}, {r}, c)]
    case SharedDataMapPartitionWith(d, other, c) => [TaskSpec({d, other}, {r}, c)]
    case UpdatePartition(d, c) => [TaskSpec({}, {d}, c)]
    case UpdatePartitionWith(d, other, c) => [TaskSpec({other}, {d}, c)]
    case Shuffle(d, s, n, e) => [TaskSpec({d}, {r}, s), TaskSpec({r}, {r + 1}, n), TaskSpec({r + 1}, {r + 2}, e)]
    case Broadcast(d, s, n, e, f) =>
      [TaskSpec({d}, {r}, s), TaskSpec({r}, {r + 1}, n), TaskSpec({r + 1}, {r + 2}, e), TaskSpec({r + 2}, {r + 3}, f)]
  }

  /** Tasks that write one new dataset each. */
  function Writers<D>(cs: seq<Closure<D>>, r: nat): (tasks: seq<TaskSpec<D>>)
    ensures |tasks| == |cs|
  {
    seq(|cs|, i requires 0 <= i < |cs| => TaskSpec({}, {r + i}, cs[i]))
  }

  lemma {:induction false} CreateEachWrites<D>(g: Graph<D>, t: nat, m: nat)
    requires t + m <= |g.tasks|
    ensures var h := CreateEach(g, t, m);
            forall k :: 0 <= k < |g.tasks| ==>
              h.tasks[k] == if t <= k < t + m then g.tasks[k].(writeSet := g.tasks[k].writeSet + {g.nextData + k - t})
                            else g.tasks[k]
    decreases m
  {
    if m > 0 {
      CreateEachWrites(g, t, m - 1);
    }
  }

  lemma StartTasks<D>(g: Graph<D>, cs: seq<Closure<D>>)
    ensures Start(g, cs).tasks == g.tasks + Writers(cs, g.nextData)
  {
    var h := CreateTasks(g, cs);
    CreateEachWrites(h, |g.tasks|, |cs|);
    forall i | 0 <= i < |cs| ensures Start(g, cs).tasks[|g.tasks| + i] == Writers(cs, g.nextData)[i] {
      assert h.tasks[|g.tasks| + i] == Idle(cs)[i];
      assert {} + {g.nextData + i} == {g.nextData + i};
    }
  }

  /** `t` with one more access. */
  function With<D>(t: TaskSpec<D>, d: nat, write: bool): TaskSpec<D> {
    if write then TaskSpec(t.readSet, t.writeSet + {d}, t.closure) else TaskSpec(t.readSet + {d}, t.writeSet, t.closure)
  }

  lemma AccessTail<D>(g: Graph<D>, o: seq<TaskSpec<D>>, tail: seq<TaskSpec<D>>, i: nat, d: nat, write: bool)
    requires g.tasks == o + tail && i < |tail|
    ensures Access(g, |o| + i, d, write) == o + tail[i := With(tail[i], d, write)]
  {
  }

  /** The datasets each task of an operation reads and writes. */
  lemma TasksOf<D>(g: Graph<D>, op: Op<D>)
    requires Usable(g, op)
    ensures Apply(g, op).tasks == g.tasks + Tasks(op, g.nextData)
    ensures Apply(g, op).nextData == g.nextData + Fresh(op)
  {
    if op.ApplyRead? || op.UpdatePartition? || op.UpdatePartitionWith? {
      OldDataTasks(g, op);
    } else if op.Shuffle? || op.Broadcast? {
      MessageTasks(g, op);
    } else {
      NewDataTasks(g, op);
    }
  }

  lemma OldDataTasks<D>(g: Graph<D>, op: Op<D>)
    requires Usable(g, op) && (op.ApplyRead? || op.UpdatePartition? || op.UpdatePartitionWith?)
    ensures Apply(g, op).tasks == g.tasks + Tasks(op, g.nextData)
    ensures Apply(g, op).nextData == g.nextData
  {
    hide With, Access;
    var o, idle := g.tasks, TaskSpec({}, {}, op.c);
    var h := CreateTasks(g, [op.c]);
    assert Idle([op.c]) == [idle];
    AccessTail(h, o, [idle], 0, op.d, !op.ApplyRead?);
    WithNothing(op.c, op.d);
    if op.UpdatePartitionWith? {
      var w := WriteBy(h, op.d, |o|);
      var one := TaskSpec({}, {op.d}, op.c);
      assert [idle][0 := one] == [one];
      AccessTail(w, o, [one], 0, op.other, false);
      WithMore(one, op.other);
    }
  }

  lemma WithNothing<D>(c: Closure<D>, d: nat)
    ensures With(TaskSpec({}, {}, c), d, true) == TaskSpec({}, {d}, c)
    ensures With(TaskSpec({}, {}, c), d, false) == TaskSpec({d}, {}, c)
  {
  }

  lemma WithMore<D>(t: TaskSpec<D>, d: nat)
    ensures With(t, d, false) == TaskSpec(t.readSet + {d}, t.writeSet, t.closure)
    ensures t.readSet == {} ==> With(t, d, false).readSet == {d}
  {
  }

  lemma NewDataTasks<D>(g: Graph<D>, op: Op<D>)
    requires Usable(g, op)
    requires op.FlatMap? || op.MapPartition? || op.MapPartitionWith? || op.SharedDataMapPartitionWith?
    ensures Apply(g, op).tasks == g.tasks + Tasks(op, g.nextData)
    ensures Apply(g, op).nextData == g.nextData + 1
  {
    hide With, Access, Start;
    var o, r := g.tasks, g.nextData;
    var h, made := Start(g, [op.c]), TaskSpec({}, {g.nextData}, op.c);
    StartTasks(g, [op.c]);
    StartData(g, [op.c]);
    assert Writers([op.c], r) == [made];
    if op.MapPartition? {
      AccessTail(h, o, [made], 0, op.d, false);
      WithMore(made, op.d);
    } else if !op.FlatMap? {
      var first, second := if op.MapPartitionWith? then op.d else op.other, if op.MapPartitionWith? then op.other else op.d;
      var one := TaskSpec({first}, {r}, op.c);
      AccessTail(h, o, [made], 0, first, false);
      WithMore(made, first);
      assert [made][0 := one] == [one];
      AccessTail(ReadBy(h, first, |o|), o, [one], 0, second, false);
      WithMore(one, second);
      assert {first} + {second} == {op.d, op.other};
    }
  }

  lemma StartData<D>(g: Graph<D>, cs: seq<Closure<D>>)
    ensures var h := Start(g, cs);
            && h.nextData == g.nextData + |cs| && |h.tasks| == |g.tasks| + |cs|
            && forall d :: d in h.trackers <==> d in g.trackers || g.nextData <= d < g.nextData + |cs|
  {
  }

  lemma MessageTasks<D>(g: Graph<D>, op: Op<D>)
    requires Usable(g, op) && (op.Shuffle? || op.Broadcast?)
    ensures Apply(g, op).tasks == g.tasks + Tasks(op, g.nextData)
    ensures Apply(g, op).nextData == g.nextData + Fresh(op)
  {
    hide With, Access, Start, Exchange;
    var cs := if op.Shuffle? then [op.serialize, op.transfer, op.deserialize]
              else [op.serialize, op.transfer, op.deserialize, op.fetch];
    var o, r, t := g.tasks, g.nextData, |g.tasks|;
    var h := Start(g, cs);
    StartTasks(g, cs);
    StartData(g, cs);
    var w := Writers(cs, r);
    ExchangeTasks(h, o, w, op.d, r);
    var x := w[0 := Reading(w[0], op.d)][1 := Reading(w[1], r)][2 := Reading(w[2], r + 1)];
    if op.Broadcast? {
      AccessTail(Exchange(h, op.d, t, r), o, x, 3, r + 2, false);
      WithMore(x[3], r + 2);
    }
  }

  function Reading<D>(t: TaskSpec<D>, d: nat): TaskSpec<D> { TaskSpec({d}, t.writeSet, t.closure) }

  /** Of the tasks of an exchange the first reads the dataset, the second the messages made from it, the third
      the messages that arrived. */
  lemma ExchangeTasks<D>(g: Graph<D>, o: seq<TaskSpec<D>>, tail: seq<TaskSpec<D>>, d: nat, r: nat)
    requires g.tasks == o + tail && |tail| >= 3 && d in g.trackers && r in g.trackers
    requires tail[0].readSet == tail[1].readSet == tail[2].readSet == {}
    ensures Exchange(g, d, |o|, r).tasks ==
              o + tail[0 := Reading(tail[0], d)][1 := Reading(tail[1], r)][2 := Reading(tail[2], r + 1)]
    ensures Exchange(g, d, |o|, r).nextData == g.nextData
  {
    hide With, Access;
    var t := |o|;
    var one := tail[0 := Reading(tail[0], d)];
    var two := one[1 := Reading(tail[1], r)];
    var a := ReadBy(g, d, t);
    var b := ReadBy(a, r, t + 1);
    AccessTail(g, o, tail, 0, d, false);
    WithMore(tail[0], d);
    AccessTail(a, o, one, 1, r, false);
    WithMore(one[1], r);
    AccessTail(b, o, two, 2, r + 1, false);
    WithMore(two[2], r + 1);
  }

  // ---------- running a program in order ----------

  lemma FilledIsExec<D>(s: Store<D>, c: Closure<D>, ins: set<nat>, out: nat)
    ensures Exec(TaskSpec(ins, {out}, c), s) == Filled(s, c, ins, out)
  {
    var given := map d | d in s && (d in ins || d == out) :: s[d];
    ExecExact(TaskSpec(ins, {out}, c), s, given);
  }

  lemma NothingWritten<D>(s: Store<D>, c: Closure<D>, ins: set<nat>)
    ensures Exec(TaskSpec(ins, {}, c), s) == s
  {
  }

  /** Run a list of tasks from front to back. */
  function InTurn<D>(tasks: seq<TaskSpec<D>>, s: Store<D>): Store<D> {
    if tasks == [] then s else InTurn(tasks[1..], Exec(tasks[0], s))
  }

  lemma {:induction false} InTurnConcat<D>(a: seq<TaskSpec<D>>, b: seq<TaskSpec<D>>, s: Store<D>)
    ensures InTurn(a + b, s) == InTurn(b, InTurn(a, s))
  {
    hide Exec;
    if a == [] {
      assert a + b == b;
    } else {
      assert (a + b)[1..] == a[1..] + b;
      InTurnConcat(a[1..], b, Exec(a[0], s));
    }
  }

  lemma {:induction false} InTurnRuns<D>(tasks: seq<TaskSpec<D>>, m: nat, s: Store<D>)
    requires m <= |tasks|
    ensures Run(tasks, ProgramOrder(m, |tasks|), s) == InTurn(tasks[m..], s)
    decreases |tasks| - m
  {
    hide Exec, Run, InTurn;
    var n := |tasks|;
    if m == n {
      assert ProgramOrder(m, n) == [];
      RunNone(tasks, s);
      assert tasks[m..] == [];
      InTurnNone<D>(s);
    } else {
      assert ProgramOrder(m, n) == [m] + ProgramOrder(m + 1, n);
      RunCons(tasks, m, ProgramOrder(m + 1, n), s);
      InTurnRuns(tasks, m + 1, Exec(tasks[m], s));
      assert tasks[m..] == [tasks[m]] + tasks[m + 1..];
      InTurnCons(tasks[m], tasks[m + 1..], s);
    }
  }

  lemma InTurnNone<D>(s: Store<D>)
    ensures InTurn([], s) == s
  {
  }

  lemma InTurnCons<D>(t: TaskSpec<D>, rest: seq<TaskSpec<D>>, s: Store<D>)
    ensures InTurn([t] + rest, s) == InTurn(rest, Exec(t, s))
  {
    assert ([t] + rest)[1..] == rest;
  }

  lemma InTurnOne<D>(t: TaskSpec<D>, s: Store<D>)
    ensures InTurn([t], s) == Exec(t, s)
  {
    hide Exec;
    assert [t] + [] == [t];
    InTurnCons(t, [], s);
  }

  /** The tasks of an operation compute what the operation computes. */
  lemma OperationComputes<D>(op: Op<D>, r: nat, s: Store<D>)
    ensures InTurn(Tasks(op, r), s) == Computes(op, r, s)
  {
    hide Exec, InTurn, Filled;
    if op.ApplyRead? {
      InTurnOne(Tasks(op, r)[0], s);
      NothingWritten(s, op.c, {op.d});
    } else if op.Shuffle? || op.Broadcast? {
      MessagesCompute(op, r, s);
    } else {
      InTurnOne(Tasks(op, r)[0], s);
      match op
      case FlatMap(c) => FilledIsExec(s, c, {}, r);
      case MapPartition(d, c) => FilledIsExec(s, c, {d}, r);
      case MapPartitionWith(d, other, c) => FilledIsExec(s, c, {d, other}, r);
      case SharedDataMapPartitionWith(d, other, c) => FilledIsExec(s, c, {d, other}, r);
      case UpdatePartition(d, c) => FilledIsExec(s, c, {}, d);
      case UpdatePartitionWith(d, other, c) => FilledIsExec(s, c, {other}, d);
      case _ =>
    }
  }

  lemma MessagesCompute<D>(op: Op<D>, r: nat, s: Store<D>)
    requires op.Shuffle? || op.Broadcast?
    ensures InTurn(Tasks(op, r), s) == Computes(op, r, s)
  {
    hide Exec, InTurn, Filled;
    var a, b, c := TaskSpec({op.d}, {r}, op.serialize), TaskSpec({r}, {r + 1}, op.transfer),
                   TaskSpec({r + 1}, {r + 2}, op.deserialize);
    var sent := Filled(s, op.serialize, {op.d}, r);
    var moved := Filled(sent, op.transfer, {r}, r + 1);
    FilledIsExec(s, op.serialize, {op.d}, r);
    FilledIsExec(sent, op.transfer, {r}, r + 1);
    FilledIsExec(moved, op.deserialize, {r + 1}, r + 2);
    var rest := if op.Shuffle? then [] else [TaskSpec({r + 2}, {r + 3}, op.fetch)];
    assert Tasks(op, r) == [a] + ([b] + ([c] + rest));
    InTurnCons(a, [b] + ([c] + rest), s);
    InTurnCons(b, [c] + rest, sent);
    InTurnCons(c, rest, moved);
    var arrived := Filled(moved, op.deserialize, {r + 1}, r + 2);
    if op.Shuffle? {
      InTurnNone<D>(arrived);
    } else {
      InTurnOne(rest[0], arrived);
      FilledIsExec(arrived, op.fetch, {r + 2}, r + 3);
    }
  }

  lemma {:induction false} TasksMean<D>(ops: seq<Op<D>>, s: Store<D>)
    requires Build(ops).Some?
    ensures var g := Build(ops).value; g.nextData == Created(ops) && InTurn(g.tasks, s) == Meaning(ops, s)
  {
    hide Exec, InTurn, Apply, Tasks, Computes, Fresh;
    if ops == [] {
      InTurnNone<D>(s);
    } else {
      var before, op := ops[..|ops| - 1], ops[|ops| - 1];
      var g := Build(before).value;
      TasksMean(before, s);
      TasksOf(g, op);
      InTurnConcat(g.tasks, Tasks(op, g.nextData), s);
      OperationComputes(op, g.nextData, Meaning(before, s));
    }
  }

  /** Running the task graph of any program in program order computes the operations one after the other. */
  lemma ProgramOrderMeans<D>(ops: seq<Op<D>>, s: Store<D>)
    requires Build(ops).Some?
    ensures var g := Build(ops).value; Run(g.tasks, ProgramOrder(0, |g.tasks|), s) == Meaning(ops, s)
  {
    hide Build, Run, InTurn, Meaning;
    var g := Build(ops).value;
    TasksMean(ops, s);
    InTurnRuns(g.tasks, 0, s);
    assert g.tasks[0..] == g.tasks;
  }

  /** Every schedule of a program whose reads are in order computes the operations one after the other. */
  lemma EveryScheduleMeans<D>(ops: seq<Op<D>>, order: seq<nat>, s: Store<D>)
    requires Build(ops).Some? && ReadsInOrder(ops)
    requires Arranges(order, 0, |Build(ops).value.tasks|) && Respects(order, Build(ops).value.edges)
    ensures Run(Build(ops).value.tasks, order, s) == Meaning(ops, s)
  {
    hide Build, ReadsInOrder, Run, Arranges, Respects, Meaning;
    ScheduleIndependence(ops, order, s);
    ProgramOrderMeans(ops, s);
  }

  // ---------- a program that updates what it has loaded ----------

  lemma LoadThenUpdateBuilt<D>(load: Closure<D>, update: Closure<D>)
    ensures var ops := [FlatMap(load), UpdatePartition(0, update)]; Build(ops).Some? && ReadsInOrder(ops)
  {
    hide Apply;
    var one: seq<Op<D>>, up: Op<D> := [FlatMap(load)], UpdatePartition(0, update);
    BuildNothing<D>();
    BuildSnoc([], FlatMap(load));
    assert [] + [FlatMap(load)] == one;
    SourceOf(EmptyGraph(), load);
    BuildSnoc(one, up);
    assert one + [up] == [FlatMap(load), up];
    NoSharing([FlatMap(load), up]);
  }

  lemma MeaningSnoc<D>(ops: seq<Op<D>>, op: Op<D>, s: Store<D>)
    ensures Meaning(ops + [op], s) == Computes(op, Created(ops), Meaning(ops, s))
  {
    hide Computes;
    assert (ops + [op])[..|ops|] == ops;
  }

  lemma LoadThenUpdateMeans<D>(load: Closure<D>, update: Closure<D>, a: D, f: D -> D, s: Store<D>)
    requires forall v: Store<D> :: 0 in load(v) && load(v)[0] == a
    requires forall v: Store<D> :: 0 in v ==> 0 in update(v) && update(v)[0] == f(v[0])
    ensures Meaning([FlatMap(load), UpdatePartition(0, update)], s) == s[0 := f(a)]
  {
    hide Meaning, Filled;
    var one: seq<Op<D>>, up: Op<D> := [FlatMap(load)], UpdatePartition(0, update);
    assert [] + [FlatMap(load)] == one && one + [up] == [FlatMap(load), up];
    MeaningNothing(s);
    MeaningSnoc([], FlatMap(load), s);
    MeaningSnoc(one, up, s);
    Loads(load, a, s);
    Updates(update, f, s[0 := a]);
    assert s[0 := a][0 := f(a)] == s[0 := f(a)];
  }

  lemma MeaningNothing<D>(s: Store<D>)
    ensures Meaning([], s) == s && Created<D>([]) == 0
  {
  }

  lemma Loads<D>(load: Closure<D>, a: D, s: Store<D>)
    requires forall v: Store<D> :: 0 in load(v) && load(v)[0] == a
    ensures Filled(s, load, {}, 0) == s[0 := a]
  {
  }

  lemma Updates<D>(update: Closure<D>, f: D -> D, s: Store<D>)
    requires 0 in s && forall v: Store<D> :: 0 in v ==> 0 in update(v) && update(v)[0] == f(v[0])
    ensures Filled(s, update, {}, 0) == s[0 := f(s[0])]
  {
  }

  /** FlatMap loads `a`, UpdatePartition applies `f` to what it finds: every schedule ends with f(a). */
  lemma LoadThenUpdate<D>(load: Closure<D>, update: Closure<D>, a: D, f: D -> D, order: seq<nat>, s: Store<D>)
    requires forall v: Store<D> :: 0 in load(v) && load(v)[0] == a
    requires forall v: Store<D> :: 0 in v ==> 0 in update(v) && update(v)[0] == f(v[0])
    ensures var p := Build([FlatMap(load), UpdatePartition(0, update)]);
            p.Some? && (Arranges(order, 0, |p.value.tasks|) && Respects(order, p.value.edges) ==>
                          Run(p.value.tasks, order, s) == s[0 := f(a)])
  {
    hide Build, ReadsInOrder, Arranges, Respects, Run, Meaning;
    var ops := [FlatMap(load), UpdatePartition(0, update)];
    LoadThenUpdateBuilt(load, update);
    var g := Build(ops).value;
    if Arranges(order, 0, |g.tasks|) && Respects(order, g.edges) {
      EveryScheduleMeans(ops, order, s);
      LoadThenUpdateMeans(load, update, a, f, s);
    }
  }
}
