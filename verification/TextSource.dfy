/** TextSourceDataset::FlatMap of ursa/common/dataset/source_dataset.h: each task reads the blocks it
    was assigned and maps their lines to records. */
module TextSource {
  import opened Codec
  import opened LineInput
  import opened Sequences

  /** The offsets of the blocks with the given numbers. */
  function Offsets(blocks: seq<nat>, B: nat): (offsets: seq<nat>)
    ensures |offsets| == |blocks| && forall i :: 0 <= i < |blocks| ==> offsets[i] == Offset(blocks[i], B)
  {
    seq(|blocks|, i requires 0 <= i < |blocks| => Offset(blocks[i], B))
  }

  /** The n blocks cover the file, and each is assigned to one task. */
  ghost predicate Assigned(file: seq<byte>, B: nat, n: nat, tasks: seq<seq<nat>>) {
    B >= 1 && Offset(n, B) >= |file| && IsPermutation(Flatten(tasks), n)
  }

  /** The lines the tasks read, task by task. */
  function LinesRead(file: seq<byte>, B: nat, n: nat, tasks: seq<seq<nat>>): seq<seq<byte>> {
    Gather(BlocksInOrder(file, B, n), Flatten(tasks))
  }

  /** Output partition t holds what the executor makes of the lines task t is responsible for. */
  method FlatMap<Val>(file: seq<byte>, B: nat, n: nat, tasks: seq<seq<nat>>, executor: seq<byte> -> seq<Val>)
    returns (parts: seq<seq<Val>>)
    requires Assigned(file, B, n, tasks)
    ensures |parts| == |tasks| && Flatten(parts) == Executed(executor, LinesRead(file, B, n, tasks))
    ensures forall t :: 0 <= t < |tasks| ==> parts[t] == Executed(executor, Gather(BlocksInOrder(file, B, n), tasks[t]))
  {
    hide Assigned, Flatten, Executed, Gather;
    ghost var blocks := BlocksInOrder(file, B, n);
    AssignedInRange(file, B, n, tasks, 0);
    parts := [];
    FlattenNone<nat>();
    FlattenNone<Val>();
    GatherNone(blocks);
    assert Executed(executor, []) == [] by { NoneExecuted(executor); }
    assert tasks[..0] == [];
    for t := 0 to |tasks|
      invariant |parts| == t && Flatten(parts) == Executed(executor, Gather(blocks, Flatten(tasks[..t])))
      invariant forall u :: 0 <= u < t ==> parts[u] == Executed(executor, Gather(blocks, tasks[u]))
    {
      var splitter := new FileSplitter(file, B);
      var input := new LineInputFormat(splitter);
      var part := input.ReadData(Offsets(tasks[t], B), executor);
      AssignedInRange(file, B, n, tasks, t);
      BlocksAreGathered(file, B, n, tasks[t]);
      FlattenSnoc(parts, part);
      FlattenSnoc(tasks[..t], tasks[t]);
      assert tasks[..t + 1] == tasks[..t] + [tasks[t]];
      GatherConcat(blocks, Flatten(tasks[..t]), tasks[t]);
      ExecutedConcat(executor, Gather(blocks, Flatten(tasks[..t])), Gather(blocks, tasks[t]));
      parts := parts + [part];
    }
    assert tasks[..|tasks|] == tasks;
  }

  lemma NoneExecuted<Val>(executor: seq<byte> -> seq<Val>)
    ensures Executed(executor, []) == []
  {
  }

  lemma AssignedInRange(file: seq<byte>, B: nat, n: nat, tasks: seq<seq<nat>>, t: nat)
    requires Assigned(file, B, n, tasks)
    ensures B >= 1 && (t < |tasks| ==> forall i :: 0 <= i < |tasks[t]| ==> tasks[t][i] < n)
  {
    if t < |tasks| {
      PermutationInRange(Flatten(tasks), n);
      forall i | 0 <= i < |tasks[t]| ensures tasks[t][i] < n {
        InFlatten(tasks, t, tasks[t][i]);
        var j :| 0 <= j < |Flatten(tasks)| && Flatten(tasks)[j] == tasks[t][i];
      }
    }
  }

  lemma {:induction false} InFlatten<T>(xss: seq<seq<T>>, t: nat, x: T)
    requires t < |xss| && x in xss[t]
    ensures x in Flatten(xss)
  {
    if t > 0 {
      InFlatten(xss[1..], t - 1, x);
    }
  }

  lemma {:induction false} BlocksAreGathered(file: seq<byte>, B: nat, n: nat, blocks: seq<nat>)
    requires forall i :: 0 <= i < |blocks| ==> blocks[i] < n
    ensures Flatten(BlocksAt(file, Offsets(blocks, B), B)) == Gather(BlocksInOrder(file, B, n), blocks)
  {
    hide BlockLines, Offset;
    if blocks == [] {
      FlattenNone<seq<byte>>();
    } else {
      BlocksAreGathered(file, B, n, blocks[1..]);
      assert BlocksAt(file, Offsets(blocks, B), B)[1..] == BlocksAt(file, Offsets(blocks[1..], B), B);
    }
  }

  /** Whatever the assignment, the tasks together read each line of the file exactly once. */
  lemma ReadExactlyOnce(file: seq<byte>, B: nat, n: nat, tasks: seq<seq<nat>>)
    requires Assigned(file, B, n, tasks)
    ensures multiset(LinesRead(file, B, n, tasks)) == multiset(SplitLines(file))
  {
    EveryLineExactlyOnce(file, B, n, tasks);
  }

  /** In a file of lines ended by byte 10, and perhaps a last one that is not, those lines are read, each once. */
  lemma WrittenLinesRead(lines: seq<seq<byte>>, rest: seq<byte>, B: nat, n: nat, tasks: seq<seq<nat>>)
    requires (forall line :: line in lines ==> 10 !in line) && 10 !in rest
    requires Assigned(Written(lines) + rest, B, n, tasks)
    ensures multiset(LinesRead(Written(lines) + rest, B, n, tasks)) == multiset(lines + if rest == [] then [] else [rest])
  {
    hide *;
    ReadExactlyOnce(Written(lines) + rest, B, n, tasks);
    SplitWritten(lines, rest);
  }
}
