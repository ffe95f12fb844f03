/** Tasks that read and write datasets, and the orders in which they may run.

    Running them in an order that keeps every pair of conflicting tasks in program order ends in the
    store that program order ends in. */
module Schedule {
  import opened Dependency

  // ---------- tasks and stores ----------

  /** The data store: what each dataset id holds. */
  type Store<D> = map<nat, D>

  datatype TaskSpec<!D> = TaskSpec(readSet: set<nat>, writeSet: set<nat>, closure: Store<D> -> Store<D>)

  function Touches<D>(t: TaskSpec<D>): set<nat> { t.readSet + t.writeSet }

  /** What a closure gets to see. */
  function View<D>(t: TaskSpec<D>, s: Store<D>): Store<D> {
    map d | d in s && d in Touches(t) :: s[d]
  }

  function Exec<D>(t: TaskSpec<D>, s: Store<D>): Store<D> {
    var out := t.closure(View(t, s));
    map d | d in s.Keys + t.writeSet * out.Keys :: if d in t.writeSet && d in out then out[d] else s[d]
  }

  ghost predicate Conflict<D>(a: TaskSpec<D>, b: TaskSpec<D>) {
    exists d :: Shares(a, b, d)
  }

  /** Both tasks touch `d` and one of them writes it. */
  predicate Shares<D>(a: TaskSpec<D>, b: TaskSpec<D>, d: nat) {
    (d in a.writeSet && d in Touches(b)) || (d in Touches(a) && d in b.writeSet)
  }

  lemma Commute<D>(a: TaskSpec<D>, b: TaskSpec<D>, s: Store<D>)
    requires !Conflict(a, b)
    ensures Exec(a, Exec(b, s)) == Exec(b, Exec(a, s))
  {
    forall d: nat ensures !Shares(a, b, d) {
    }
    forall d | d in a.writeSet ensures d !in Touches(b) {
      assert !Shares(a, b, d);
    }
    forall d | d in b.writeSet ensures d !in Touches(a) {
      assert !Shares(a, b, d);
    }
    assert View(a, Exec(b, s)) == View(a, s);
    assert View(b, Exec(a, s)) == View(b, s);
  }

  /** Run the tasks named by `order` one after the other. */
  function Run<D>(tasks: seq<TaskSpec<D>>, order: seq<nat>, s: Store<D>): Store<D>
    decreases |order|
  {
    if order == [] then s
    else Run(tasks, order[1..], if order[0] < |tasks| then Exec(tasks[order[0]], s) else s)
  }

  // ---------- linear orders ----------

  ghost predicate Distinct(order: seq<nat>) {
    forall p, q :: 0 <= p < q < |order| ==> order[p] != order[q]
  }

  /** `order` lists each of m, ..., n - 1 once. */
  ghost predicate Arranges(order: seq<nat>, m: int, n: int) {
    |order| == n - m && Distinct(order) && forall i :: i in order <==> m <= i < n
  }

  ghost predicate Before(order: seq<nat>, i: nat, j: nat) {
    exists p, q :: 0 <= p < q < |order| && order[p] == i && order[q] == j
  }

  ghost predicate Respects(order: seq<nat>, e: Edges) {
    forall i, j :: (i, j) in e ==> Before(order, i, j)
  }

  function ProgramOrder(m: nat, n: nat): (order: seq<nat>)
    requires m <= n
    ensures |order| == n - m && forall k :: 0 <= k < n - m ==> order[k] == m + k
  {
    seq(n - m, k requires 0 <= k < n - m => m + k)
  }

  lemma {:induction false} PathBefore(order: seq<nat>, e: Edges, p: seq<nat>, i: nat, j: nat)
    requires Distinct(order) && Respects(order, e) && Path(e, p, i, j)
    ensures Before(order, i, j)
    decreases |p|
  {
    assert (p[0], p[1]) in e;
    if |p| > 2 {
      var q := p[1..];
      assert forall k :: 0 <= k < |q| - 1 ==> (q[k], q[k + 1]) == (p[k + 1], p[k + 2]);
      PathBefore(order, e, q, p[1], j);
    }
  }

  lemma ReachesBefore(order: seq<nat>, e: Edges, i: nat, j: nat)
    requires Distinct(order) && Respects(order, e) && Reaches(e, i, j)
    ensures Before(order, i, j)
  {
    var p :| Path(e, p, i, j);
    PathBefore(order, e, p, i, j);
  }

  // ---------- reordering independent tasks ----------

  function Without(order: seq<nat>, k: nat): seq<nat>
    requires k < |order|
  {
    order[..k] + order[k + 1..]
  }

  /** A task that conflicts with none of its predecessors can run first. */
  lemma {:induction false} MoveToFront<D>(tasks: seq<TaskSpec<D>>, order: seq<nat>, k: nat, s: Store<D>)
    requires k < |order| && order[k] < |tasks|
    requires forall p :: 0 <= p < k ==> order[p] < |tasks| && !Conflict(tasks[order[p]], tasks[order[k]])
    ensures Run(tasks, order, s) == Run(tasks, [order[k]] + Without(order, k), s)
    decreases k
  {
    if k == 0 {
      assert [order[0]] + Without(order, 0) == order;
    } else {
      var a, b := tasks[order[0]], tasks[order[k]];
      var rest := order[1..];
      MoveToFront(tasks, rest, k - 1, Exec(a, s));
      Commute(a, b, s);
      var w := Without(order, k);
      assert w[0] == order[0] && w[1..] == Without(rest, k - 1);
      assert ([order[k]] + Without(rest, k - 1))[1..] == Without(rest, k - 1);
      assert ([order[k]] + w)[1..] == w;
    }
  }

  lemma NotAfter(order: seq<nat>, p: nat, k: nat)
    requires Distinct(order) && p < k < |order|
    ensures !Before(order, order[k], order[p])
  {
  }

  lemma ConflictSymmetric<D>(a: TaskSpec<D>, b: TaskSpec<D>)
    requires Conflict(a, b)
    ensures Conflict(b, a)
  {
    var d :| Shares(a, b, d);
    assert Shares(b, a, d);
  }

  ghost predicate KeepsConflicts<D>(tasks: seq<TaskSpec<D>>, order: seq<nat>, m: nat, n: nat)
    requires n <= |tasks|
  {
    forall i, j :: m <= i < j < n && Conflict(tasks[i], tasks[j]) ==> Before(order, i, j)
  }

  lemma WithoutFirst(order: seq<nat>, m: nat, n: nat, k: nat)
    requires Arranges(order, m, n) && m < n && k < |order| && order[k] == m
    ensures Arranges(Without(order, k), m + 1, n)
    ensures forall i, j :: i != m && j != m && Before(order, i, j) ==> Before(Without(order, k), i, j)
  {
    var w := Without(order, k);
    forall i ensures i in w <==> m + 1 <= i < n {
      if i in w {
        var p :| 0 <= p < |w| && w[p] == i;
        assert order[if p < k then p else p + 1] == i;
        assert i in order;
      }
      if m + 1 <= i < n {
        assert i in order;
        var p :| 0 <= p < |order| && order[p] == i;
        assert w[if p < k then p else p - 1] == i;
      }
    }
    forall i, j | i != m && j != m && Before(order, i, j) ensures Before(w, i, j) {
      var p, q :| 0 <= p < q < |order| && order[p] == i && order[q] == j;
      assert w[if p < k then p else p - 1] == i && w[if q < k then q else q - 1] == j;
    }
  }

  lemma RunCons<D>(tasks: seq<TaskSpec<D>>, m: nat, rest: seq<nat>, s: Store<D>)
    requires m < |tasks|
    ensures Run(tasks, [m] + rest, s) == Run(tasks, rest, Exec(tasks[m], s))
  {
    assert ([m] + rest)[1..] == rest;
  }

  /** The least task can be moved to the front when every conflicting pair is in program order. */
  lemma FirstTaskFirst<D>(tasks: seq<TaskSpec<D>>, order: seq<nat>, m: nat, n: nat, k: nat, s: Store<D>)
    requires m < n <= |tasks| && Arranges(order, m, n) && KeepsConflicts(tasks, order, m, n)
    requires k < |order| && order[k] == m
    ensures Run(tasks, order, s) == Run(tasks, [m] + Without(order, k), s)
  {
    hide Run, Conflict, Before;
    forall p | 0 <= p < k ensures order[p] < |tasks| && !Conflict(tasks[order[p]], tasks[order[k]]) {
      assert order[p] in order;
      NotAfter(order, p, k);
      if Conflict(tasks[order[p]], tasks[m]) {
        ConflictSymmetric(tasks[order[p]], tasks[m]);
      }
    }
    MoveToFront(tasks, order, k, s);
  }

  lemma KeepsConflictsWithout<D>(tasks: seq<TaskSpec<D>>, order: seq<nat>, m: nat, n: nat, k: nat)
    requires m < n <= |tasks| && Arranges(order, m, n) && KeepsConflicts(tasks, order, m, n)
    requires k < |order| && order[k] == m
    ensures Arranges(Without(order, k), m + 1, n)
    ensures KeepsConflicts(tasks, Without(order, k), m + 1, n)
  {
    hide Conflict, Before, Without;
    WithoutFirst(order, m, n, k);
  }

  /** An order that keeps every conflicting pair in program order computes the same store. */
  lemma {:induction false} SameResult<D>(tasks: seq<TaskSpec<D>>, order: seq<nat>, m: nat, n: nat, s: Store<D>)
    requires m <= n <= |tasks| && Arranges(order, m, n) && KeepsConflicts(tasks, order, m, n)
    ensures Run(tasks, order, s) == Run(tasks, ProgramOrder(m, n), s)
    decreases n - m
  {
    hide Run, Exec, KeepsConflicts, Without, Distinct;
    if m == n {
      assert order == ProgramOrder(m, n);
    } else {
      assert m in order;
      var k :| 0 <= k < |order| && order[k] == m;
      var w := Without(order, k);
      FirstTaskFirst(tasks, order, m, n, k, s);
      KeepsConflictsWithout(tasks, order, m, n, k);
      SameResult(tasks, w, m + 1, n, Exec(tasks[m], s));
      RunCons(tasks, m, w, s);
      RunCons(tasks, m, ProgramOrder(m + 1, n), s);
      assert ProgramOrder(m, n) == [m] + ProgramOrder(m + 1, n);
    }
  }
}
