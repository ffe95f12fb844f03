/** Dependency tracking of ursa/common/dataset/abstract_dataset.h and ursa/common/task.h.

    Each dataset remembers its last writer and the readers since; every access adds edges to the
    task graph.  The classes are proved against the values `Tracker`, `ReadParents`, `WriteParents`;
    the theorems are about the graph those values emit. */
module Dependency {
  import opened Grouping

  datatype ResourceType = CPU | NetWork
  datatype DependencyType = Sync | Async | AsyncComm | Aggregate | LocalAggregate | Broadcast
  datatype TaskDependency = TaskDependency(child: nat, kind: DependencyType)

  // ---------- the objects ----------

  class Task {
    const id: nat
    const taskType: ResourceType
    var children: seq<TaskDependency>
    var produceData: seq<nat>
    var readData: seq<nat>
    var writeData: seq<nat>

    constructor (id: nat, taskType: ResourceType)
      ensures this.id == id && this.taskType == taskType && children == []
    {
      this.id, this.taskType := id, taskType;
      children, produceData, readData, writeData := [], [], [], [];
    }

    function ThenKind(): DependencyType {
      if taskType == NetWork then AsyncComm else Async
    }

    method Then(child: Task)
      modifies this`children
      ensures children == old(children) + [TaskDependency(child.id, child.ThenKind())]
      ensures child.ThenKind() == if child.taskType == NetWork then AsyncComm else Async
    {
      if child.taskType == NetWork {
        children := children + [TaskDependency(child.id, AsyncComm)];
      } else {
        children := children + [TaskDependency(child.id, Async)];
      }
    }

    method AggregateThen(child: Task)
      modifies this`children
      ensures children == old(children) + [TaskDependency(child.id, Aggregate)]
    {
      children := children + [TaskDependency(child.id, Aggregate)];
    }

    method BroadcastThen(child: Task)
      modifies this`children
      ensures children == old(children) + [TaskDependency(child.id, Broadcast)]
    {
      children := children + [TaskDependency(child.id, Broadcast)];
    }

    method ProduceData(d: nat)
      modifies this`produceData
      ensures produceData == old(produceData) + [d]
    {
      produceData := produceData + [d];
    }

    method ReadData(d: nat)
      modifies this`readData
      ensures readData == old(readData) + [d]
    {
      readData := readData + [d];
    }

    method WriteData(d: nat)
      modifies this`writeData
      ensures writeData == old(writeData) + [d]
    {
      writeData := writeData + [d];
    }
  }

  function Copies<T>(x: T, n: nat): seq<T> {
    seq(n, _ => x)
  }

  /** `for (auto& parent : parents) parent->Then(child)` */
  method ThenAll(parents: seq<Task>, child: Task)
    modifies parents`children
    ensures forall t: Task :: t in parents ==>
              t.children == old(t.children) + Copies(TaskDependency(child.id, child.ThenKind()), multiset(parents)[t])
  {
    ghost var dep := TaskDependency(child.id, child.ThenKind());
    for i := 0 to |parents|
      invariant forall t: Task :: t in parents ==>
                  t.children == old(t.children) + Copies(dep, multiset(parents[..i])[t])
    {
      assert parents[..i + 1] == parents[..i] + [parents[i]];
      parents[i].Then(child);
    }
    assert parents[..|parents|] == parents;
  }

  function Ids(tasks: seq<Task>): (ids: seq<nat>)
    ensures |ids| == |tasks| && forall i :: 0 <= i < |tasks| ==> ids[i] == tasks[i].id
  {
    seq(|tasks|, i requires 0 <= i < |tasks| => tasks[i].id)
  }

  class AbstractDataset {
    const id: nat
    var writePrecedence: Task?
    var readPrecedence: seq<Task>

    constructor (id: nat)
      ensures this.id == id && writePrecedence == null && readPrecedence == []
    {
      this.id, writePrecedence, readPrecedence := id, null, [];
    }

    /** The tasks a new writer has to wait for. */
    function Blockers(): seq<Task>
      reads this
    {
      if readPrecedence != [] then readPrecedence
      else if writePrecedence != null then [writePrecedence]
      else []
    }

    /** The value the theorems below speak of. */
    function State(): Tracker
      reads this
    {
      Tracker(if writePrecedence == null then None else Some(writePrecedence.id),
              Ids(readPrecedence))
    }

    /** The blockers are the parents the value-level model names. */
    lemma BlockersAreParents()
      ensures (set t | t in Blockers() :: t.id) == WriteParents(State())
    {
      forall p | p in WriteParents(State()) ensures p in set t | t in Blockers() :: t.id {
        if readPrecedence != [] {
          var i :| 0 <= i < |readPrecedence| && Ids(readPrecedence)[i] == p;
          assert readPrecedence[i] in Blockers();
        } else {
          assert Blockers()[0] == writePrecedence;
        }
      }
      forall t | t in Blockers() ensures t.id in WriteParents(State()) {
        var i :| 0 <= i < |Blockers()| && Blockers()[i] == t;
        assert readPrecedence != [] ==> Ids(readPrecedence)[i] == t.id;
      }
    }

    method SetProducer(producer: Task)
      modifies this`writePrecedence, producer`produceData
      ensures State() == old(State()).(writer := Some(producer.id))
      ensures writePrecedence == producer && producer.produceData == old(producer.produceData) + [id]
    {
      writePrecedence := producer;
      producer.ProduceData(id);
      assert readPrecedence == old(readPrecedence);
    }

    method WriteBy(task: Task)
      modifies this`writePrecedence, this`readPrecedence, Blockers()`children, task`writeData
      ensures State() == Tracker(Some(task.id), [])
      ensures writePrecedence == task && task.writeData == old(task.writeData) + [id]
      ensures forall t: Task :: t in old(Blockers()) ==>
                t.children == old(t.children)
                  + Copies(TaskDependency(task.id, task.ThenKind()), multiset(old(Blockers()))[t])
    {
      task.WriteData(id);
      if readPrecedence == [] {
        if writePrecedence != null {
          assert old(Blockers())[0] == writePrecedence;
          writePrecedence.Then(task);
        }
      } else {
        ThenAll(readPrecedence, task);
        readPrecedence := [];
      }
      writePrecedence := task;
    }

    method ReadBy(task: Task)
      requires writePrecedence != null
      modifies this`readPrecedence, writePrecedence`children, task`readData
      ensures State() == old(State()).(readers := old(State()).readers + [task.id])
      ensures readPrecedence == old(readPrecedence) + [task] && writePrecedence == old(writePrecedence)
      ensures task.readData == old(task.readData) + [id]
      ensures writePrecedence.children ==
                old(writePrecedence.children) + [TaskDependency(task.id, task.ThenKind())]
    {
      task.ReadData(id);
      readPrecedence := readPrecedence + [task];
      writePrecedence.Then(task);
    }

    method BroadcastBy(task: Task)
      requires writePrecedence != null
      modifies this`readPrecedence, writePrecedence`children, task`readData
      ensures State() == old(State()).(readers := old(State()).readers + [task.id])
      ensures readPrecedence == old(readPrecedence) + [task] && writePrecedence == old(writePrecedence)
      ensures task.readData == old(task.readData) + [id]
      ensures writePrecedence.children == old(writePrecedence.children) + [TaskDependency(task.id, Broadcast)]
    {
      task.ReadData(id);
      readPrecedence := readPrecedence + [task];
      writePrecedence.BroadcastThen(task);
    }
  }

  // ---------- the same as values ----------

  datatype Tracker = Tracker(writer: Option<nat>, readers: seq<nat>)

  /** The parents a new reader gets. */
  function ReadParents(t: Tracker): set<nat> {
    if t.writer.Some? then {t.writer.value} else {}
  }

  /** The parents a new writer gets. */
  function WriteParents(t: Tracker): set<nat> {
    if t.readers != [] then set r | r in t.readers else ReadParents(t)
  }

  type Edges = set<(nat, nat)>

  function EdgesTo(parents: set<nat>, child: nat): Edges {
    set p | p in parents :: (p, child)
  }

  // ---------- reachability ----------

  ghost predicate Path(e: Edges, p: seq<nat>, i: nat, j: nat) {
    && |p| >= 2 && p[0] == i && p[|p| - 1] == j
    && forall k :: 0 <= k < |p| - 1 ==> (p[k], p[k + 1]) in e
  }

  ghost predicate Reaches(e: Edges, i: nat, j: nat) {
    exists p :: Path(e, p, i, j)
  }

  ghost predicate ReachesOrSame(e: Edges, i: nat, j: nat) {
    i == j || Reaches(e, i, j)
  }

  lemma EdgeReaches(e: Edges, i: nat, j: nat)
    requires (i, j) in e
    ensures Reaches(e, i, j)
  {
    assert Path(e, [i, j], i, j);
  }

  lemma ReachesTrans(e: Edges, i: nat, j: nat, k: nat)
    requires ReachesOrSame(e, i, j) && ReachesOrSame(e, j, k)
    ensures ReachesOrSame(e, i, k)
    ensures Reaches(e, i, j) || Reaches(e, j, k) ==> Reaches(e, i, k)
  {
    if Reaches(e, i, j) && Reaches(e, j, k) {
      var p :| Path(e, p, i, j);
      var q :| Path(e, q, j, k);
      assert Path(e, p + q[1..], i, k);
    }
  }

  lemma ReachesMono(e: Edges, f: Edges, i: nat, j: nat)
    requires e <= f && Reaches(e, i, j)
    ensures Reaches(f, i, j)
  {
    var p :| Path(e, p, i, j);
    assert Path(f, p, i, j);
  }

  // ---------- one dataset: the exact shape of its graph ----------

  /** The tracker after the first n accesses of a history; `acc[k]` says whether access k, made by
      the fresh task k, is a write.  The producer is access 0. */
  function TrackerAfter(acc: seq<bool>, n: nat): Tracker
    requires n <= |acc|
  {
    if n == 0 then Tracker(None, [])
    else
      var t := TrackerAfter(acc, n - 1);
      if acc[n - 1] then Tracker(Some(n - 1), []) else Tracker(t.writer, t.readers + [n - 1])
  }

  /** The edges those accesses emit. */
  function EdgesAfter(acc: seq<bool>, n: nat): Edges
    requires n <= |acc|
  {
    if n == 0 then {}
    else
      var t := TrackerAfter(acc, n - 1);
      EdgesAfter(acc, n - 1) + EdgesTo(if acc[n - 1] then WriteParents(t) else ReadParents(t), n - 1)
  }

  /** Some access in positions i..j is a write. */
  ghost predicate WriteIn(acc: seq<bool>, i: nat, j: nat) {
    exists k :: i <= k <= j && k < |acc| && acc[k]
  }

  /** What the tracker remembers: the last write, and exactly the reads after it. */
  lemma {:induction false} TrackerShape(acc: seq<bool>, n: nat)
    requires 0 < n <= |acc| && acc[0]
    ensures var t := TrackerAfter(acc, n);
            && t.writer.Some? && t.writer.value < n && acc[t.writer.value]
            && (forall k :: t.writer.value < k < n ==> !acc[k])
            && (forall k :: k in t.readers <==> t.writer.value < k < n)
  {
    if n > 1 {
      TrackerShape(acc, n - 1);
    }
  }

  /** The edges, written down: a reader hangs under the last write before it; a writer under the
      reads since the last write or, if there are none, under that write. */
  ghost predicate IsEdge(acc: seq<bool>, i: nat, j: nat) {
    && i < j < |acc|
    && (acc[i] || acc[j])
    && (forall k :: i < k < j ==> !acc[k])
    && (acc[i] && acc[j] ==> i + 1 == j)
  }

  lemma {:induction false} EdgeShape(acc: seq<bool>, n: nat, i: nat, j: nat)
    requires 0 < n <= |acc| && acc[0]
    ensures (i, j) in EdgesAfter(acc, n) <==> j < n && IsEdge(acc, i, j)
  {
    if n == 1 {
      assert EdgesAfter(acc, 0) == {};
    } else {
      EdgeShape(acc, n - 1, i, j);
      TrackerShape(acc, n - 1);
    }
  }

  lemma {:induction false} PathGoesForward(acc: seq<bool>, p: seq<nat>, i: nat, j: nat)
    requires acc != [] && acc[0] && Path(EdgesAfter(acc, |acc|), p, i, j)
    ensures i < j < |acc| && WriteIn(acc, i, j)
    decreases |p|
  {
    EdgeShape(acc, |acc|, p[0], p[1]);
    assert (p[0], p[1]) in EdgesAfter(acc, |acc|);
    if |p| > 2 {
      var q := p[1..];
      assert forall k :: 0 <= k < |q| - 1 ==> (q[k], q[k + 1]) == (p[k + 1], p[k + 2]);
      PathGoesForward(acc, q, p[1], j);
    }
  }

  lemma {:induction false} WriteConnects(acc: seq<bool>, i: nat, j: nat)
    requires acc != [] && acc[0] && i < j < |acc| && WriteIn(acc, i, j)
    ensures Reaches(EdgesAfter(acc, |acc|), i, j)
    decreases j
  {
    var e := EdgesAfter(acc, |acc|);
    TrackerShape(acc, j);
    var w := TrackerAfter(acc, j).writer.value;
    if i > w {
      EdgeShape(acc, |acc|, i, j);
      EdgeReaches(e, i, j);
    } else {
      if i < w {
        assert acc[w];
        WriteConnects(acc, i, w);
      }
      if !acc[j] || w + 1 == j {
        EdgeShape(acc, |acc|, w, j);
        EdgeReaches(e, w, j);
      } else {
        EdgeShape(acc, |acc|, w, w + 1);
        EdgeShape(acc, |acc|, w + 1, j);
        EdgeReaches(e, w, w + 1);
        EdgeReaches(e, w + 1, j);
        ReachesTrans(e, w, w + 1, j);
      }
      ReachesTrans(e, i, w, j);
    }
  }

  /** Task i reaches task j exactly when i comes first and one of the accesses i..j writes. */
  lemma ReachabilityExact(acc: seq<bool>, i: nat, j: nat)
    requires acc != [] && acc[0] && j < |acc|
    ensures Reaches(EdgesAfter(acc, |acc|), i, j) <==> i < j && WriteIn(acc, i, j)
  {
    if Reaches(EdgesAfter(acc, |acc|), i, j) {
      var p :| Path(EdgesAfter(acc, |acc|), p, i, j);
      PathGoesForward(acc, p, i, j);
    }
    if i < j && WriteIn(acc, i, j) {
      WriteConnects(acc, i, j);
    }
  }

  /** No edge can be dropped: without it its end is no longer reachable from its start. */
  lemma NoRedundantEdge(acc: seq<bool>, i: nat, j: nat)
    requires acc != [] && acc[0] && (i, j) in EdgesAfter(acc, |acc|)
    ensures !Reaches(EdgesAfter(acc, |acc|) - {(i, j)}, i, j)
  {
    var e := EdgesAfter(acc, |acc|);
    EdgeShape(acc, |acc|, i, j);
    if Reaches(e - {(i, j)}, i, j) {
      var p :| Path(e - {(i, j)}, p, i, j);
      assert (p[0], p[1]) in e - {(i, j)};
      var k, q := p[1], p[1..];
      EdgeShape(acc, |acc|, i, k);
      assert Path(e, q, k, j) by {
        assert forall m :: 0 <= m < |q| - 1 ==> (q[m], q[m + 1]) == (p[m + 1], p[m + 2]);
      }
      PathGoesForward(acc, q, k, j);
      assert false;
    }
  }
}
