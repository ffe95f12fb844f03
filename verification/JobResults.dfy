/** What the task graphs of examples/lr.cc and examples/pr.cc compute: with closures that apply given functions
    to the datasets they are written for, every schedule ends with the model or the ranks of the loop. */
module JobResults {
  import opened Grouping
  import opened JobGraphs
  import opened Programs
  import opened Schedule
  import opened Semantics

  // ---------- closures that apply a function ----------

  function Load<D>(out: nat, a: D): Closure<D> { s => map[out := a] }

  function Apply1<D>(d: nat, out: nat, f: D -> D): Closure<D> {
    s => if d in s then map[out := f(s[d])] else map[]
  }

  function Apply2<D>(d: nat, other: nat, out: nat, f: (D, D) -> D): Closure<D> {
    s => if d in s && other in s then map[out := f(s[d], s[other])] else map[]
  }

  lemma FilledLoad<D>(s: Store<D>, out: nat, a: D)
    ensures Filled(s, Load(out, a), {}, out) == s[out := a]
  {
  }

  lemma FilledApply1<D>(s: Store<D>, d: nat, ins: set<nat>, out: nat, f: D -> D)
    requires d in s && (d in ins || d == out)
    ensures Filled(s, Apply1(d, out, f), ins, out) == s[out := f(s[d])]
  {
  }

  lemma FilledApply2<D>(s: Store<D>, d: nat, other: nat, out: nat, f: (D, D) -> D)
    requires d in s && other in s
    ensures Filled(s, Apply2(d, other, out, f), {d, other}, out) == s[out := f(s[d], s[other])]
  {
  }

  /** The three closures of a shuffle, and the fourth of a Broadcast. */
  datatype Transport<!D> = Transport(serialize: D -> D, transfer: D -> D, deserialize: D -> D, fetch: D -> D)

  function Moved<D>(t: Transport<D>, x: D): D { t.deserialize(t.transfer(t.serialize(x))) }

  function Spread<D>(t: Transport<D>, x: D): D { t.fetch(Moved(t, x)) }

  function ShuffleOf<D>(d: nat, r: nat, t: Transport<D>): Op<D> {
    Shuffle(d, Apply1(d, r, t.serialize), Apply1(r, r + 1, t.transfer), Apply1(r + 1, r + 2, t.deserialize))
  }

  function BroadcastOf<D>(d: nat, r: nat, t: Transport<D>): Op<D> {
    Op.Broadcast(d, Apply1(d, r, t.serialize), Apply1(r, r + 1, t.transfer), Apply1(r + 1, r + 2, t.deserialize),
                 Apply1(r + 2, r + 3, t.fetch))
  }

  /** `after` is `s` with `x` in dataset `out`, and perhaps more from dataset r on. */
  ghost predicate Adds<D>(s: Store<D>, r: nat, out: nat, x: D, after: Store<D>) {
    out in after && after[out] == x && forall d :: d < r && d in s ==> d in after && after[d] == s[d]
  }

  lemma ShuffleAdds<D>(s: Store<D>, d: nat, r: nat, t: Transport<D>)
    requires d < r && d in s
    ensures Adds(s, r, r + 2, Moved(t, s[d]), Computes(ShuffleOf(d, r, t), r, s))
  {
    hide Filled;
    FilledApply1(s, d, {d}, r, t.serialize);
    var a := s[r := t.serialize(s[d])];
    FilledApply1(a, r, {r}, r + 1, t.transfer);
    var b := a[r + 1 := t.transfer(a[r])];
    FilledApply1(b, r + 1, {r + 1}, r + 2, t.deserialize);
  }

  lemma BroadcastAdds<D>(s: Store<D>, d: nat, r: nat, t: Transport<D>)
    requires d < r && d in s
    ensures Adds(s, r, r + 3, Spread(t, s[d]), Computes(BroadcastOf(d, r, t), r, s))
  {
    hide Filled;
    ShuffleAdds(s, d, r, t);
    var arrived := Computes(ShuffleOf(d, r, t), r, s);
    FilledApply1(arrived, r + 2, {r + 2}, r + 3, t.fetch);
  }

  lemma ShareAdds<D>(s: Store<D>, d: nat, other: nat, r: nat, f: (D, D) -> D)
    requires d < r && other < r && d in s && other in s
    ensures Adds(s, r, r, f(s[d], s[other]), Computes(SharedDataMapPartitionWith(d, other, Apply2(d, other, r, f)), r, s))
  {
    hide Filled;
    FilledApply2(s, d, other, r, f);
  }

  // ---------- examples/lr.cc ----------

  /** What the job computes with: the parsed data, and a function for each closure. */
  datatype LrJob<!D> = LrJob(data: D, initial: D -> D, reduce: Transport<D>, broadcast: Transport<D>,
                             gradient: (D, D) -> D, merge: (D, D) -> D, test: (D, D) -> D)

  function LrStartClosure<D>(j: LrJob<D>, k: nat): Closure<D> {
    if k == 0 then Load(0, j.data) else if k == 1 then Apply1(0, 1, j.initial)
         else if k == 2 then Apply1(1, 2, j.reduce.serialize) else if k == 3 then Apply1(2, 3, j.reduce.transfer)
         else Apply1(3, 4, j.reduce.deserialize)
  }

  function LrStartClosures<D>(j: LrJob<D>): nat -> Closure<D> {
    (k: nat) => LrStartClosure(j, k)
  }

  function LrLoopClosures<D>(j: LrJob<D>): nat -> nat -> Closure<D> {
    (t: nat) => LrStepClosures(j, LrModel(t))
  }

  function LrStepClosure<D>(j: LrJob<D>, m: nat, k: nat): Closure<D> {
    if k == 0 then Apply1(m, m + 1, j.broadcast.serialize) else if k == 1 then Apply1(m + 1, m + 2, j.broadcast.transfer)
         else if k == 2 then Apply1(m + 2, m + 3, j.broadcast.deserialize) else if k == 3 then Apply1(m + 3, m + 4, j.broadcast.fetch)
         else if k == 4 then Apply2(0, m + 4, m + 5, j.gradient)
         else if k == 5 then Apply1(m + 5, m + 6, j.reduce.serialize) else if k == 6 then Apply1(m + 6, m + 7, j.reduce.transfer)
         else if k == 7 then Apply1(m + 7, m + 8, j.reduce.deserialize)
         else Apply2(m, m + 8, m + 9, j.merge)
  }

  function LrStepClosures<D>(j: LrJob<D>, m: nat): nat -> Closure<D> {
    (k: nat) => LrStepClosure(j, m, k)
  }

  function LrTestClosure<D>(j: LrJob<D>, m: nat, k: nat): Closure<D> {
    if k < 4 then LrStepClosure(j, m, k) else Apply2(0, m + 4, m + 5, j.test)
  }

  function LrTestClosures<D>(j: LrJob<D>, m: nat): nat -> Closure<D> {
    (k: nat) => LrTestClosure(j, m, k)
  }

  /** The operations of the job. */
  function LrProgram<D>(j: LrJob<D>, iters: nat): seq<Op<D>> {
    Lr(LrStartClosures(j), LrLoopClosures(j), LrTestClosures(j, LrModel(iters)), iters)
  }

  /** The model after t iterations. */
  function LrModelAfter<D>(j: LrJob<D>, t: nat): D {
    if t == 0 then Moved(j.reduce, j.initial(j.data))
    else
      var model := LrModelAfter(j, t - 1);
      j.merge(model, Moved(j.reduce, j.gradient(j.data, Spread(j.broadcast, model))))
  }

  /** The store after a part of the job: the data, and the present model. */
  ghost predicate LrHolds<D>(j: LrJob<D>, s: Store<D>, m: nat, model: D) {
    0 in s && s[0] == j.data && m in s && s[m] == model
  }

  lemma LrStepMeans<D>(j: LrJob<D>, ops: seq<Op<D>>, m: nat, s: Store<D>, model: D)
    requires Created(ops) == m + 1 && LrHolds(j, Meaning(ops, s), m, model)
    ensures var after := ops + LrIteration(LrStepClosures(j, m), m);
            && Created(after) == m + 10
            && LrHolds(j, Meaning(after, s), m + 9,
                       j.merge(model, Moved(j.reduce, j.gradient(j.data, Spread(j.broadcast, model)))))
  {
    hide Meaning, Computes, Moved, Spread;
    var step := LrIteration(LrStepClosures(j, m), m);
    assert step[0] == BroadcastOf(m, m + 1, j.broadcast);
    assert step[2] == ShuffleOf(m + 5, m + 6, j.reduce);
    var a := Meaning(ops, s);
    MeaningSnoc(ops, step[0], s);
    CreatedSnoc(ops, step[0]);
    BroadcastAdds(a, m, m + 1, j.broadcast);
    var ops1, b := ops + [step[0]], Meaning(ops + [step[0]], s);
    MeaningSnoc(ops1, step[1], s);
    CreatedSnoc(ops1, step[1]);
    ShareAdds(b, 0, m + 4, m + 5, j.gradient);
    var ops2, c := ops1 + [step[1]], Meaning(ops1 + [step[1]], s);
    MeaningSnoc(ops2, step[2], s);
    CreatedSnoc(ops2, step[2]);
    ShuffleAdds(c, m + 5, m + 6, j.reduce);
    var ops3, d := ops2 + [step[2]], Meaning(ops2 + [step[2]], s);
    MeaningSnoc(ops3, step[3], s);
    CreatedSnoc(ops3, step[3]);
    ShareAdds(d, m, m + 8, m + 9, j.merge);
    assert ops3 + [step[3]] == ops + step;
  }

  lemma CreatedSnoc<D>(ops: seq<Op<D>>, op: Op<D>)
    ensures Created(ops + [op]) == Created(ops) + Fresh(op)
  {
    assert (ops + [op])[..|ops|] == ops;
  }

  lemma LrGradientMeans<D>(j: LrJob<D>, s: Store<D>)
    ensures var ops := LrStart(LrStartClosures(j))[..2];
            Created(ops) == 2 && LrHolds(j, Meaning(ops, s), 1, j.initial(j.data))
  {
    hide Meaning, Filled;
    var ops := LrStart(LrStartClosures(j));
    MeaningNothing(s);
    assert [] + [ops[0]] == ops[..1] && ops[..1] + [ops[1]] == ops[..2];
    MeaningSnoc([], ops[0], s);
    CreatedSnoc([], ops[0]);
    FilledLoad(s, 0, j.data);
    MeaningSnoc(ops[..1], ops[1], s);
    CreatedSnoc(ops[..1], ops[1]);
    FilledApply1(Meaning(ops[..1], s), 0, {0}, 1, j.initial);
  }

  lemma LrStartMeans<D>(j: LrJob<D>, s: Store<D>)
    ensures var ops := LrStart(LrStartClosures(j));
            Created(ops) == 5 && LrHolds(j, Meaning(ops, s), 4, Moved(j.reduce, j.initial(j.data)))
  {
    hide Meaning, Computes, Moved, Created;
    var ops := LrStart(LrStartClosures(j));
    assert ops[2] == ShuffleOf(1, 2, j.reduce);
    LrGradientMeans(j, s);
    assert ops[..2] + [ops[2]] == ops;
    MeaningSnoc(ops[..2], ops[2], s);
    CreatedSnoc(ops[..2], ops[2]);
    ShuffleAdds(Meaning(ops[..2], s), 1, 2, j.reduce);
  }

  lemma {:induction false} LrLoopMeans<D>(j: LrJob<D>, t: nat, s: Store<D>)
    ensures var ops := LrLoop(LrStartClosures(j), LrLoopClosures(j), t);
            Created(ops) == LrModel(t) + 1 && LrHolds(j, Meaning(ops, s), LrModel(t), LrModelAfter(j, t))
  {
    hide Meaning, Moved, Spread, LrHolds, LrStepClosures, LrStartClosures, LrIteration, LrStart;
    if t == 0 {
      LrStartMeans(j, s);
    } else {
      LrLoopMeans(j, t - 1, s);
      LrStepMeans(j, LrLoop(LrStartClosures(j), LrLoopClosures(j), t - 1), LrModel(t - 1), s, LrModelAfter(j, t - 1));
    }
  }

  /** The job ends with the model of the loop, and with the test of it. */
  ghost predicate LrResult<D>(j: LrJob<D>, iters: nat, after: Store<D>) {
    var m, model := LrModel(iters), LrModelAfter(j, iters);
    && m in after && after[m] == model
    && m + 5 in after && after[m + 5] == j.test(j.data, Spread(j.broadcast, model))
  }

  lemma LrMeans<D>(j: LrJob<D>, iters: nat, s: Store<D>)
    ensures LrResult(j, iters, Meaning(LrProgram(j, iters), s))
  {
    hide Meaning, Computes, Moved, Spread, LrLoop, LrModel, LrModelAfter;
    var m := LrModel(iters);
    var ops, c := LrLoop(LrStartClosures(j), LrLoopClosures(j), iters), LrTestClosures(j, m);
    LrLoopMeans(j, iters, s);
    LrTestMeans(j, ops, m, s, LrModelAfter(j, iters));
  }

  lemma LrTestMeans<D>(j: LrJob<D>, ops: seq<Op<D>>, m: nat, s: Store<D>, model: D)
    requires Created(ops) == m + 1 && LrHolds(j, Meaning(ops, s), m, model)
    ensures var c := LrTestClosures(j, m);
            var after := Meaning(ops + [Op.Broadcast(m, c(0), c(1), c(2), c(3)), SharedDataMapPartitionWith(0, m + 4, c(4))], s);
            && m in after && after[m] == model
            && m + 5 in after && after[m + 5] == j.test(j.data, Spread(j.broadcast, model))
  {
    hide Meaning, Computes, Moved, Spread, Created;
    var c := LrTestClosures(j, m);
    var test, spread := SharedDataMapPartitionWith(0, m + 4, c(4)), BroadcastOf(m, m + 1, j.broadcast);
    assert spread == Op.Broadcast(m, c(0), c(1), c(2), c(3));
    MeaningSnoc(ops, spread, s);
    CreatedSnoc(ops, spread);
    BroadcastAdds(Meaning(ops, s), m, m + 1, j.broadcast);
    MeaningSnoc(ops + [spread], test, s);
    ShareAdds(Meaning(ops + [spread], s), 0, m + 4, m + 5, j.test);
    assert ops + [spread] + [test] == ops + [spread, test];
  }

  /** Every schedule of lr.cc ends with the model that the loop computes, and with the test of it on the data. */
  lemma LrComputes<D>(j: LrJob<D>, iters: nat, order: seq<nat>, s: Store<D>)
    ensures var p := Build(LrProgram(j, iters));
            p.Some? && (Arranges(order, 0, |p.value.tasks|) && Respects(order, p.value.edges) ==>
                          LrResult(j, iters, Run(p.value.tasks, order, s)))
  {
    hide Build, ReadsInOrder, Arranges, Respects, Run, Meaning, Lr, LrResult;
    var ops := LrProgram(j, iters);
    LrReads(LrStartClosures(j), LrLoopClosures(j), LrTestClosures(j, LrModel(iters)), iters);
    LrMeans(j, iters, s);
    var g := Build(ops).value;
    if Arranges(order, 0, |g.tasks|) && Respects(order, g.edges) {
      EveryScheduleMeans(ops, order, s);
    }
  }

  // ---------- examples/pr.cc ----------

  /** The parsed vertices, and a function for each closure. */
  datatype PrJob<!D> = PrJob(data: D, place: Transport<D>, sort: D -> D, first: D -> D, send: (D, D) -> D,
                             reduce: Transport<D>, select: D -> D, gather: Transport<D>)

  function PrStartClosure<D>(j: PrJob<D>, k: nat): Closure<D> {
    if k == 0 then Load(0, j.data) else if k == 1 then Apply1(0, 1, j.place.serialize)
    else if k == 2 then Apply1(1, 2, j.place.transfer) else if k == 3 then Apply1(2, 3, j.place.deserialize)
    else if k == 4 then Apply1(3, 3, j.sort) else Apply1(3, 4, j.first)
  }

  function PrStartClosures<D>(j: PrJob<D>): nat -> Closure<D> {
    (k: nat) => PrStartClosure(j, k)
  }

  function PrStepClosure<D>(j: PrJob<D>, m: nat, k: nat): Closure<D> {
    if k == 0 then Apply2(3, m, m + 1, j.send) else if k == 1 then Apply1(m + 1, m + 2, j.reduce.serialize)
    else if k == 2 then Apply1(m + 2, m + 3, j.reduce.transfer) else Apply1(m + 3, m + 4, j.reduce.deserialize)
  }

  function PrStepClosures<D>(j: PrJob<D>, m: nat): nat -> Closure<D> {
    (k: nat) => PrStepClosure(j, m, k)
  }

  function PrLoopClosures<D>(j: PrJob<D>): nat -> nat -> Closure<D> {
    (t: nat) => PrStepClosures(j, PrRanks(t))
  }

  function PrLastClosure<D>(j: PrJob<D>, m: nat, log: Closure<D>, k: nat): Closure<D> {
    if k == 0 then Apply1(m, m + 1, j.select) else if k == 1 then Apply1(m + 1, m + 2, j.gather.serialize)
    else if k == 2 then Apply1(m + 2, m + 3, j.gather.transfer)
    else if k == 3 then Apply1(m + 3, m + 4, j.gather.deserialize)
    else if k == 4 then Apply1(m + 4, m + 5, j.select) else log
  }

  function PrLastClosures<D>(j: PrJob<D>, m: nat, log: Closure<D>): nat -> Closure<D> {
    (k: nat) => PrLastClosure(j, m, log, k)
  }

  /** The operations of the job. */
  function PrProgram<D>(j: PrJob<D>, log: Closure<D>, iters: nat): seq<Op<D>> {
    Pr(PrStartClosures(j), PrLoopClosures(j), PrLastClosures(j, PrRanks(iters), log), iters)
  }

  /** The placed and sorted vertices, and the ranks after t iterations. */
  function PrGraph<D>(j: PrJob<D>): D { j.sort(Moved(j.place, j.data)) }

  function PrRanksAfter<D>(j: PrJob<D>, t: nat): D {
    if t == 0 then j.first(PrGraph(j)) else Moved(j.reduce, j.send(PrGraph(j), PrRanksAfter(j, t - 1)))
  }

  ghost predicate PrHolds<D>(j: PrJob<D>, s: Store<D>, m: nat, ranks: D) {
    3 in s && s[3] == PrGraph(j) && m in s && s[m] == ranks
  }

  lemma MapAdds<D>(s: Store<D>, d: nat, r: nat, f: D -> D)
    requires d < r && d in s
    ensures Adds(s, r, r, f(s[d]), Computes(MapPartition(d, Apply1(d, r, f)), r, s))
  {
    hide Filled;
    FilledApply1(s, d, {d}, r, f);
  }

  lemma PrGraphMeans<D>(j: PrJob<D>, s: Store<D>)
    ensures var ops := PrStart(PrStartClosures(j))[..2];
            Created(ops) == 4 && 3 in Meaning(ops, s) && Meaning(ops, s)[3] == Moved(j.place, j.data)
  {
    hide Meaning, Moved, Filled;
    var ops := PrStart(PrStartClosures(j));
    assert ops[1] == ShuffleOf(0, 1, j.place);
    MeaningNothing(s);
    assert [] + [ops[0]] == ops[..1] && ops[..1] + [ops[1]] == ops[..2];
    MeaningSnoc([], ops[0], s);
    CreatedSnoc([], ops[0]);
    FilledLoad(s, 0, j.data);
    MeaningSnoc(ops[..1], ops[1], s);
    CreatedSnoc(ops[..1], ops[1]);
    ShuffleAdds(Meaning(ops[..1], s), 0, 1, j.place);
  }

  lemma PrStartMeans<D>(j: PrJob<D>, s: Store<D>)
    ensures var ops := PrStart(PrStartClosures(j));
            Created(ops) == 5 && PrHolds(j, Meaning(ops, s), 4, j.first(PrGraph(j)))
  {
    hide Meaning, Moved, Filled, Created;
    var ops := PrStart(PrStartClosures(j));
    PrGraphMeans(j, s);
    assert ops[..2] + [ops[2]] == ops[..3] && ops[..3] + [ops[3]] == ops;
    var b := Meaning(ops[..2], s);
    MeaningSnoc(ops[..2], ops[2], s);
    CreatedSnoc(ops[..2], ops[2]);
    FilledApply1(b, 3, {}, 3, j.sort);
    MeaningSnoc(ops[..3], ops[3], s);
    CreatedSnoc(ops[..3], ops[3]);
    MapAdds(Meaning(ops[..3], s), 3, 4, j.first);
  }

  lemma PrStepMeans<D>(j: PrJob<D>, ops: seq<Op<D>>, m: nat, s: Store<D>, ranks: D)
    requires m > 3 && Created(ops) == m + 1 && PrHolds(j, Meaning(ops, s), m, ranks)
    ensures var after := ops + PrIteration(PrStepClosures(j, m), m);
            Created(after) == m + 5 && PrHolds(j, Meaning(after, s), m + 4, Moved(j.reduce, j.send(PrGraph(j), ranks)))
  {
    hide Meaning, Computes, Moved, PrGraph;
    var step := PrIteration(PrStepClosures(j, m), m);
    assert step[1] == ShuffleOf(m + 1, m + 2, j.reduce);
    MeaningSnoc(ops, step[0], s);
    CreatedSnoc(ops, step[0]);
    ShareAdds(Meaning(ops, s), 3, m, m + 1, j.send);
    var ops1 := ops + [step[0]];
    MeaningSnoc(ops1, step[1], s);
    CreatedSnoc(ops1, step[1]);
    ShuffleAdds(Meaning(ops1, s), m + 1, m + 2, j.reduce);
    assert ops1 + [step[1]] == ops + step;
  }

  lemma {:induction false} PrLoopMeans<D>(j: PrJob<D>, t: nat, s: Store<D>)
    ensures var ops := PrLoop(PrStartClosures(j), PrLoopClosures(j), t);
            Created(ops) == PrRanks(t) + 1 && PrHolds(j, Meaning(ops, s), PrRanks(t), PrRanksAfter(j, t))
  {
    hide Meaning, Moved, PrHolds, PrStepClosures, PrStartClosures, PrIteration, PrStart;
    if t == 0 {
      PrStartMeans(j, s);
    } else {
      PrLoopMeans(j, t - 1, s);
      PrStepMeans(j, PrLoop(PrStartClosures(j), PrLoopClosures(j), t - 1), PrRanks(t - 1), s, PrRanksAfter(j, t - 1));
    }
  }

  /** The job ends with the selection, from all partitions, of the ranks of the loop. */
  ghost predicate PrResult<D>(j: PrJob<D>, iters: nat, after: Store<D>) {
    var m := PrRanks(iters);
    m + 5 in after && after[m + 5] == j.select(Moved(j.gather, j.select(PrRanksAfter(j, iters))))
  }

  lemma PrMeans<D>(j: PrJob<D>, log: Closure<D>, iters: nat, s: Store<D>)
    ensures PrResult(j, iters, Meaning(PrProgram(j, log, iters), s))
  {
    hide Meaning, Computes, Moved, PrLoop, PrRanks, PrRanksAfter, Created;
    var m := PrRanks(iters);
    var ops, c := PrLoop(PrStartClosures(j), PrLoopClosures(j), iters), PrLastClosures(j, m, log);
    PrLoopMeans(j, iters, s);
    PrSelectMeans(j, log, ops, m, s, PrRanksAfter(j, iters));
    var select, gather, again := MapPartition(m, c(0)), Shuffle(m + 1, c(1), c(2), c(3)), MapPartition(m + 4, c(4));
    var read := ApplyRead(m + 5, c(5));
    var ops3 := ops + [select] + [gather] + [again];
    MeaningSnoc(ops3, read, s);
    ReadKeeps(m + 5, c(5), Created(ops3), Meaning(ops3, s));
    assert ops3 + [read] == ops + [select, gather, again, read];
  }

  lemma PrSelectMeans<D>(j: PrJob<D>, log: Closure<D>, ops: seq<Op<D>>, m: nat, s: Store<D>, ranks: D)
    requires Created(ops) == m + 1 && PrHolds(j, Meaning(ops, s), m, ranks)
    ensures var c := PrLastClosures(j, m, log);
            var after := Meaning(ops + [MapPartition(m, c(0))] + [Shuffle(m + 1, c(1), c(2), c(3))] + [MapPartition(m + 4, c(4))], s);
            m + 5 in after && after[m + 5] == j.select(Moved(j.gather, j.select(ranks)))
  {
    hide Meaning, Computes, Moved, Created;
    var c := PrLastClosures(j, m, log);
    var select, gather, again := MapPartition(m, c(0)), ShuffleOf(m + 1, m + 2, j.gather), MapPartition(m + 4, c(4));
    MeaningSnoc(ops, select, s);
    CreatedSnoc(ops, select);
    MapAdds(Meaning(ops, s), m, m + 1, j.select);
    var ops1 := ops + [select];
    MeaningSnoc(ops1, gather, s);
    CreatedSnoc(ops1, gather);
    ShuffleAdds(Meaning(ops1, s), m + 1, m + 2, j.gather);
    var ops2 := ops1 + [gather];
    MeaningSnoc(ops2, again, s);
    MapAdds(Meaning(ops2, s), m + 4, m + 5, j.select);
  }

  lemma ReadKeeps<D>(d: nat, c: Closure<D>, r: nat, s: Store<D>)
    ensures Computes(ApplyRead(d, c), r, s) == s
  {
  }

  /** Every schedule of pr.cc ends with the selection, from all partitions, of the ranks that the loop computes. */
  lemma PrComputes<D>(j: PrJob<D>, log: Closure<D>, iters: nat, order: seq<nat>, s: Store<D>)
    ensures var p := Build(PrProgram(j, log, iters));
            p.Some? && (Arranges(order, 0, |p.value.tasks|) && Respects(order, p.value.edges) ==>
                          PrResult(j, iters, Run(p.value.tasks, order, s)))
  {
    hide Build, ReadsInOrder, Arranges, Respects, Run, Meaning, Pr, PrResult;
    var ops := PrProgram(j, log, iters);
    PrReads(PrStartClosures(j), PrLoopClosures(j), PrLastClosures(j, PrRanks(iters), log), iters);
    PrMeans(j, log, iters, s);
    var g := Build(ops).value;
    if Arranges(order, 0, |g.tasks|) && Respects(order, g.edges) {
      EveryScheduleMeans(ops, order, s);
    }
  }
}
