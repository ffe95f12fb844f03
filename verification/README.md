# URSA: dataflow operators and lint scanners, verified

A Dafny model of the parts of this repository whose correctness is not obvious from reading one
function: the shuffle operators over the byte codec, the block-split line reader, dependency
tracking, the columnar containers, the structural scanners of `scripts/cpplint.py`, and the example
jobs built on them.  Each method is proved against a specification: a plain definition of what it
should compute, or a function that lemmas then tie to such a definition.

| file | models |
|---|---|
| `Codec.dfy` | `ursa/base/bin_stream.h`: the stream and its operators.  An encoding is a relation, because sets and maps have no fixed iteration order |
| `Grouping.dfy` | what a reduction by key means: one combined record per key, ascending |
| `Shuffle.dfy` | `PartitionBy`, `ReduceBy`, `RangeReduceBy`, `Broadcast` of `ursa/common/dataset/dataset.h`, both closures of each |
| `LineInput.dfy`, `TextSource.dfy` | `LineInputFormat::ReadData`, and `TextSourceDataset::FlatMap` on top of it |
| `Dependency.dfy` | `AbstractDataset` and `Task`, and the graph they emit for one dataset |
| `Schedule.dfy`, `Programs.dfy` | the task graphs of whole programs over `Dataset`, and what their schedules compute |
| `Semantics.dfy` | what such a program means without any tasks, and that every schedule computes it |
| `Races.dfy` | why a program has to pass the test of `Programs.dfy`: the closures and the two schedules that tell otherwise |
| `JobGraphs.dfy`, `JobResults.dfy` | the task graphs of `examples/lr.cc` and `examples/pr.cc`, and what their schedules compute |
| `Partition.dfy`, `StringPartition.dfy` | `DatasetPartition`, `StringPartition` |
| `Brackets.dfy`, `WellMatched.dfy`, `Matching.dfy` | the forward and backward bracket matchers of `scripts/cpplint.py`, the grammar of well-matched text, and what the matchers find |
| `Angles.dfy`, `AnglesBack.dfy` | what the same matchers find from a template bracket, and from an operator |
| `Directives.dfy`, `Nesting.dfy`, `BraceStack.dfy` | `NestingState`: preprocessor checkpoints, and the loop that consumes braces |
| `Comments.dfy`, `CppComments.dfy` | multi-line comment blanking, and how it compares with the comments of C++ |
| `TopRanks.dfy`, `PageRank.dfy` | `examples/pr.cc`: `select_top10` and its two-phase use, and the whole job |
| `WordCount.dfy` | `examples/word_count.cc`, from the bytes of the file to the number logged |
| `DenseModel.dfy`, `Training.dfy` | `examples/lr.cc` |
| `Sequences.dfy`, `Characters.dfy`, `Arithmetic.dfy` | shared definitions |

## How the source is represented

- Objects that the source updates in place are classes (`BinStream`, `LineInputFormat`, `Task`,
  `AbstractDataset`, `DatasetPartition`, `StringPartition`, `NestingState`); in-place loops over
  vectors are loops over arrays (`Shuffle.CompactRuns`, `Comments.RemoveMultiLineComments`).
- `Wire` says how a record type is streamed and which of its values the C++ type has room for; a
  faithful wire gives back every record that fits.  The operators are proved for all inputs that fit,
  and the map-side combining for combiners that never leave what fits.  The record types of the jobs
  are shown to be faithful: `WordCount.WiresFaithful`, `PageRank.VertexWireFaithful`, and
  `DenseModel.DimWireFaithful` for pairs of an int and a number of any faithful type.
- A combiner has to be associative, commutative and key-preserving on records of one key, and the
  keys totally ordered: `std::sort` is unstable and messages arrive in any order.  Message orders,
  hash functions, block sizes, block assignments and batch positions are parameters.
- Code that is only declared in the repository enters by contract: the file splitter and
  `HandleNextBlock` deliver the blocks of the file one after the other and append to `last_part_`
  up to the first newline; the tokenizer is an arbitrary function from lines to words.
- In the scheduling theorems the store maps data ids to values, and a closure is a function of the
  data its task reads or writes (`Semantics.ExecExact`).
- What a line does to the brace stack, beyond directives, is an arbitrary function of the line and
  the stack; a line keeps its number when others are deleted.  The theorems hold for every way to
  recognise directives and comment marks; `Directives.Kind` and `Comments.SourceMarks` are those of the
  source, and the methods are proved for them.
- `int` counts of the word count wrap around at 32 bits, `size_type` of `StringPartition` too.

## Where the code and its documentation disagree

- `StringPartition::resize` promises empty strings, and `push_back` an appended string.  After a
  shrinking `resize` without `shrink_to_fit` neither holds: the old offsets are still there.
  `StringPartition.PushBack` and `StringPartition.Resize` say exactly when both do what is
  promised; `ShrinkThenPush` and `ShrinkThenGrow` are the smallest failures.
- `CloseExpression` promises the position that closes what it is pointed to.  Pointed to a `<` that is an
  operator it returns the end of some bracket further on the line: `Angles.CloseIdleExact` says which, and
  `Angles.ShiftFindsOther` is an instance.  `AnglesBack.ReverseIdleExact` is the same backwards.
- `UpdatePartitionWith` on the dataset itself makes its task wait for itself, so no schedule exists:
  `Programs.SelfUpdateStuck`, and `Programs.SchedulableIff` for all programs.
- `SharedDataMapPartitionWith` registers no read of its own dataset.  `Programs.UnorderedShare` is a
  program whose result depends on the schedule.  `Races.OneStoreIff` says for all programs when that can
  happen: every schedule ends in one store, whatever the closures compute, exactly when each operation
  passes the test `Programs.ReadsOrdered` on the graph before it (or nothing can be scheduled at all).
  `Programs.SharedReadOrderedIff` and `Programs.SharedReadHeldIff` say what one such read is ordered
  after and before.  `examples/lr.cc` and `examples/pr.cc` meet the condition
  (`JobGraphs.LrAnySchedule`, `JobGraphs.PrAnySchedule`).
- `RemoveMultiLineComments` does not end a comment where C++ ends it, at the first `*/` behind the
  opening mark.  `CppComments.RangesExact` says when the lines it blanks hold just the comment: exactly
  when the opening line is not `/*/` and nothing follows the comment on the line where C++ ends it.
  `Comments.HalfCommentRange` with `CppComments.HalfCommentGoesOn`, and `CppComments.CodeBehind`, are
  the two ways to fail; in the second a line of code is blanked.
- `DatasetPartition::push_back` is said to grow a full buffer to size * 2 + 5; `reserve` adds another 5
  (`Partition.GrowthExact`).
- `DatasetPartition::resize(n)` promises zeros, but leaves what the slots hold for types that are not
  fundamental: `Partition.StaleEntry`.  `Partition.DatasetPartition.ResizeDefault` says exactly when
  the new entries are the default.  `insert` is not affected, since it overwrites all of them.
- `examples/pr.cc` checks in its loop that every vertex meets its rank.  The check holds in the first
  iteration, and in later ones exactly when no id occurs twice, so a job with a repeated id stops in its
  second iteration (`PageRank.Run`).  `DCHECK_EQ` is compiled in for debug builds only: without it the
  second vertex takes the rank of another page, or reads behind the last one, which throws
  (`PageRank.RepeatedId`).
- `Broadcast` of an empty dataset leaves a null pointer on every process without shard 0
  (`Shuffle.Broadcast`).  `examples/lr.cc` with its default of 0 dimensions would follow it.

## Model

| member | source | states |
|---|---|---|
| `Codec.RoundTrip` | ursa/base/bin_stream.h:116-305 | Every encoding of a value of any nesting of fixed-width types, vectors, strings, sets, maps, pairs and pointers is non-empty, and decoding it in front of any other bytes gives the value back and leaves exactly those bytes, whatever order the containers are walked in. |
| `Codec.CountedRoundTrip` | ursa/base/bin_stream.h:130-151 | A length and the elements behind it mark their own end. |
| `Codec.ManyRoundTrip` | ursa/base/bin_stream.h:145-149 | Reading as many elements as were written gives them back in order and stops where they end. |
| `Codec.InsertAllEnumerated` | ursa/base/bin_stream.h:162-173 | Inserting the pairs of any walk through a map rebuilds that map. |
| `Codec.Unambiguous` | ursa/base/bin_stream.h:116-305 | One byte string cannot be the encoding of two values, even with different bytes behind it. |
| `Codec.BytesRoundTrip` | ursa/base/bin_stream.h:116-128 | The bytes of a size_t below its range give the number back. |
| `Codec.BytesAreDigits` | ursa/base/bin_stream.h:116-128 | Byte i of a number is its digit i to the base 256: low byte first. |
| `Codec.StringOnWire` | ursa/base/bin_stream.h:130-137 | A string is written as its length in eight bytes, low byte first, and then its characters, and in no other way. |
| `Codec.DrainRecovers` | ursa/common/dataset/dataset.h:159-165 | Decoding while bytes are left ends and gives back exactly the values written, in order. |
| `Codec.BinStream.PushBackBytes` | ursa/base/bin_stream.h:54-54 | Appends to what is still unread and keeps the stream valid. |
| `Codec.BinStream.PopFrontBytes` | ursa/base/bin_stream.h:55-56 | Takes the first unread bytes and leaves the rest. |
| `Codec.BinStream.Write` | ursa/base/bin_stream.h:116-305 | Appends one possible encoding of the value behind what is unread. |
| `Codec.BinStream.WriteCounted` | ursa/base/bin_stream.h:130-137 | Appends a length and the elements, one encoding each. |
| `Codec.BinStream.Read` | ursa/base/bin_stream.h:116-305 | Takes from the front exactly what the decoder takes, and returns its value. |
| `Codec.BinStream.ReadCounted` | ursa/base/bin_stream.h:139-151 | The loop over a length read from the stream returns the elements the decoder finds. |
| `Codec.PickOrder` | ursa/base/bin_stream.h:175-204 | Walking a set visits each member once, in an order nothing else is known about. |
| `Codec.PickMapOrder` | ursa/base/bin_stream.h:153-160 | The same for the entries of a map. |
| `Grouping.AggIsFold` | ursa/common/dataset/dataset.h:409-418 | Combining all records of a key equals the accumulator loop over them, first record first. |
| `Grouping.AggPermute` | ursa/common/dataset/dataset.h:408-418 | With a lawful combiner the order of the records does not matter, so neither an unstable sort nor the arrival order does. |
| `Grouping.GroupByExactlyOnce` | ursa/common/dataset/dataset.h:407-425 | A grouped list has exactly one record for each key that occurs, no other key, and that record is the combination of all records of the key. |
| `Grouping.GroupByUnique` | ursa/common/dataset/dataset.h:407-425 | Two ascending lists with the same combined record for every key are equal: grouping has one answer. |
| `Grouping.MergeNeighbours` | ursa/common/dataset/dataset.h:373-377 | Combining two neighbours of one key changes no group. |
| `Grouping.CompactMerge` | ursa/common/dataset/dataset.h:413-414 | One step of the compaction on equal keys keeps its invariant. |
| `Grouping.CompactEmit` | ursa/common/dataset/dataset.h:415-423 | Moving a finished record to the front keeps the invariant; after the last one the front is the grouping of the input. |
| `Shuffle.ReduceBy` | ursa/common/dataset/dataset.h:342-433 | For all input partitions, partition counts, hash functions and message orders, output partition p is the grouping, in strictly ascending key order, of all input records whose key hashes to p; through map-side combining, byte streams, draining, sorting and in-place compaction. |
| `Shuffle.RangeReduceBy` | ursa/common/dataset/dataset.h:266-339 | The same, without map-side combining, for records routed by any function of the record. |
| `Shuffle.PartitionBy` | ursa/common/dataset/dataset.h:131-174 | Output partition p holds exactly the input records routed to p: those of each input partition in their order there, one input partition after the other in the order in which their messages arrive. |
| `Shuffle.Broadcast` | ursa/common/dataset/dataset.h:197-264 | Every shard gets all records, each as often as it occurs: by key if it is told to sort, otherwise in the order in which the messages reached one of the shards of its process.  Of an empty dataset a shard gets a copy if and only if shard 0 has been deserialized on its process, and a null pointer otherwise. |
| `Shuffle.StoreOf` | ursa/common/dataset/dataset.h:239-250 | Slot 0 of the store of a process is filled exactly by a shard that received data, or by shard 0 itself, with what that shard received. |
| `Shuffle.GroupByFits` | ursa/common/dataset/dataset.h:420-426 | What a reduction of records that fit their C++ type leaves fits it too, if the combiner never leaves it, so that it can be shuffled again. |
| `Shuffle.CombiningIsTransparent` | ursa/common/dataset/dataset.h:281-426 | With one routing of the keys, ReduceBy and RangeReduceBy can only give equal output partitions. |
| `Shuffle.PartitionByConserves` | ursa/common/dataset/dataset.h:146-167 | The outputs together hold the input records, none lost or repeated, and all records of one routing key are in one partition. |
| `Shuffle.ReducedTogether` | ursa/common/dataset/dataset.h:356-426 | All output partitions of a reduction together hold one record for each key of the input, with everything of that key combined. |
| `Shuffle.AggRouted` | ursa/common/dataset/dataset.h:361-363 | Routing by key keeps every group whole: a partition holds all of a group or none of it. |
| `Shuffle.CreateMessagePartition` | ursa/common/dataset/abstract_dataset.h:44-53 | n distinct valid streams, without the header that the receiver strips. |
| `Shuffle.Serialize` | ursa/common/dataset/dataset.h:146-154 | Stream p carries the records routed to p, in order. |
| `Shuffle.FillBuckets` | ursa/common/dataset/dataset.h:358-363 | Bucket p holds the records routed to p, in order. |
| `Shuffle.CombineBucket` | ursa/common/dataset/dataset.h:366-384 | What is written for a bucket carries, for every key, the same combined record as the bucket. |
| `Shuffle.SerializeCombined` | ursa/common/dataset/dataset.h:356-387 | The streams of one partition carry, for every key, the same combined record as its routed records. |
| `Shuffle.Receive` | ursa/common/dataset/dataset.h:390-399 | Draining every stream while it has bytes gives exactly the records sent, in order. |
| `Shuffle.CompactRuns` | ursa/common/dataset/dataset.h:409-423 | The in-place loop with current_idx and count leaves, in the first count slots, the grouping of the sorted input. |
| `Shuffle.ReduceReceived` | ursa/common/dataset/dataset.h:389-426 | What the second closure returns is the grouping of the records sent, also when there are none. |
| `Shuffle.SortByKey` | ursa/common/dataset/dataset.h:408-408 | A sorted permutation, nothing known about the order of equal keys. |
| `Shuffle.ArrivalOrderIrrelevant` | ursa/common/dataset/dataset.h:393-399 | In whatever order the messages of all sources arrive, the same records are received. |
| `Shuffle.CarriesNext` | ursa/common/dataset/dataset.h:394-398 | A stream has bytes left exactly when records are left, and the next read returns the next one. |
| `LineInput.EveryLineExactlyOnce` | ursa/common/io/input/line_inputformat.h:36-92 | For every file, block size and assignment of the blocks to readers, every line is delivered exactly once. |
| `LineInput.AllBlocksInOrder` | ursa/common/io/input/line_inputformat.h:36-92 | In block order the lines delivered are the lines of the file, with no extra empty line after a final newline. |
| `LineInput.SplitJoin` | ursa/common/io/input/line_inputformat.h:71-88 | Joining the lines with byte 10 gives the file back up to one final newline, and no line holds that byte. |
| `LineInput.SplitWritten` | ursa/common/io/input/line_inputformat.h:71-88 | A file of lines that are each ended by byte 10, and perhaps a last one that is not, is split into just those lines. |
| `LineInput.CutLines` | ursa/common/io/input/line_inputformat.h:47-54 | Where one block stops, the next one starts: nothing between them is skipped or read twice. |
| `LineInput.LineInputFormat.ReadData` | ursa/common/io/input/line_inputformat.h:37-92 | Returns what the executor makes of the lines the given blocks are responsible for, in order. |
| `LineInput.LineInputFormat.ReadBlock` | ursa/common/io/input/line_inputformat.h:41-89 | The loop over one block, with all its exits, hands over exactly the lines that start in that block, including one that overruns it. |
| `LineInput.LineInputFormat.HandleNextBlock` | ursa/common/io/input/line_inputformat.h:98-98 | Appends the rest of the line, over as many blocks as it spans, to last_part_. |
| `LineInput.InsideBlock` | ursa/common/io/input/line_inputformat.h:83-88 | A newline found in a block ends the line of the file. |
| `LineInput.BeyondBlock` | ursa/common/io/input/line_inputformat.h:75-82 | Without one, the line is the rest of the block and the start of what follows. |
| `LineInput.FindNext` | ursa/common/io/input/line_inputformat.h:72-72 | The first byte 10 from a position on, or -1 if there is none. |
| `TextSource.FlatMap` | ursa/common/dataset/source_dataset.h:69-90 | Output partition t is what the executor makes of the lines its task reads, and the partitions together of all lines read. |
| `TextSource.ReadExactlyOnce` | ursa/common/dataset/source_dataset.h:72-87 | The lines read under any assignment are the lines of the file, each once. |
| `TextSource.WrittenLinesRead` | ursa/common/dataset/source_dataset.h:72-87 | Of a file of lines ended by byte 10, and perhaps a last one that is not, just those lines are read, each once. |
| `Dependency.ReachabilityExact` | ursa/common/dataset/abstract_dataset.h:60-91 | On one dataset with fresh tasks, task i reaches task j if and only if i comes first and some access in positions i to j is a write. |
| `Dependency.NoRedundantEdge` | ursa/common/dataset/abstract_dataset.h:72-91 | No emitted edge can be dropped: without it its end is unreachable from its start. |
| `Dependency.EdgeShape` | ursa/common/dataset/abstract_dataset.h:72-91 | Exactly which edges are emitted: readers hang under the last write, a writer under the reads since, or under that write if there are none. |
| `Dependency.TrackerShape` | ursa/common/dataset/abstract_dataset.h:72-91 | The remembered writer is the last write, and the remembered readers are exactly the reads after it. |
| `Dependency.PathGoesForward` | ursa/common/dataset/abstract_dataset.h:72-91 | Every path leads to a later task and passes a write. |
| `Dependency.WriteConnects` | ursa/common/dataset/abstract_dataset.h:72-91 | A write between two accesses connects them. |
| `Dependency.AbstractDataset.SetProducer` | ursa/common/dataset/abstract_dataset.h:60-70 | The producer becomes the writer. |
| `Dependency.AbstractDataset.WriteBy` | ursa/common/dataset/abstract_dataset.h:72-85 | The new writer becomes a child of every reader since the last write, or of that write, and takes over the tracking state. |
| `Dependency.AbstractDataset.ReadBy` | ursa/common/dataset/abstract_dataset.h:87-91 | The reader is remembered and becomes a child of the last writer, without any check that there is one. |
| `Dependency.AbstractDataset.BroadcastBy` | ursa/common/dataset/abstract_dataset.h:93-97 | The same with a broadcast edge. |
| `Dependency.AbstractDataset.BlockersAreParents` | ursa/common/dataset/abstract_dataset.h:72-84 | The tasks WriteBy adds edges from are the parents the value model names. |
| `Dependency.Task.Then` | ursa/common/task.h:33-40 | One edge, of asynchronous communication if the child is a network task, and asynchronous otherwise. |
| `Dependency.Task.AggregateThen` | ursa/common/task.h:42-43 | One aggregation edge. |
| `Dependency.Task.BroadcastThen` | ursa/common/task.h:48-49 | One broadcast edge. |
| `Semantics.EveryScheduleMeans` | ursa/common/dataset/dataset.h:47-264 | Every schedule of a program whose reads are in order computes its operations one after the other, as defined without tasks and edges: each fills a dataset from the datasets it is called on and from what that dataset held. |
| `Semantics.ProgramOrderMeans` | ursa/common/dataset/dataset.h:47-264 | Running the tasks of any program in program order computes its operations one after the other. |
| `Semantics.TasksOf` | ursa/common/dataset/dataset.h:47-264 | Which datasets each task of an operation reads and writes: those of a shuffle read the dataset, the messages, and the messages that arrived. |
| `Semantics.OperationComputes` | ursa/common/dataset/dataset.h:47-264 | The tasks of one operation compute what the operation computes, for all nine of them. |
| `Semantics.UpdateInPlace` | ursa/common/dataset/dataset.h:105-113 | The closure of UpdatePartition is handed the dataset it updates, and what it makes of it replaces it. |
| `Semantics.ExecExact` | ursa/common/dataset/dataset.h:105-126 | A closure sees what the store holds of the datasets its task reads or writes and nothing else; it replaces what the task writes, and all else stays. |
| `Semantics.ExecLocal` | ursa/common/dataset/dataset.h:105-126 | Two stores that agree on the datasets a task reads or writes agree on what it writes. |
| `Semantics.LoadThenUpdate` | ursa/common/dataset/dataset.h:105-113 | Every schedule of FlatMap followed by UpdatePartition ends with the update applied to what was loaded. |
| `Programs.ScheduleIndependence` | ursa/common/dataset/dataset.h:47-264 | For programs of any length whose unregistered reads are in order, every order of the tasks that respects the emitted edges ends in the same data store as program order. |
| `Programs.ConnectedIff` | ursa/common/dataset/dataset.h:47-264 | All tasks of a program that touch a common dataset one of them writes are connected if and only if each operation finds the reads it depends on in order, by a test on the graph before the operation. |
| `Races.OneStoreIff` | ursa/common/dataset/dataset.h:47-264 | All schedules of a program end in one store, for all closures of its operations and all stores to start from, if and only if each operation finds its reads in order or nothing can be scheduled. |
| `Races.OrderIsNeeded` | ursa/common/dataset/dataset.h:47-264 | A program with an operation that does not has closures, a store and two schedules that respect the same edges and end in different stores. |
| `Races.FirstRace` | ursa/common/dataset/dataset.h:87-126 | Such a program has a writer and an unregistered reader of one dataset, the later of which need not wait for the earlier, and the reader writes another dataset. |
| `Races.CastBuild` | ursa/common/dataset/dataset.h:47-264 | The graph of a program depends on its operations and not on its closures. |
| `Races.RecastOwn` | ursa/common/dataset/dataset.h:47-264 | A program is its own operations with its own closures, so it is among those the above speaks of. |
| `Races.Overtake` | ursa/common/dataset/abstract_dataset.h:60-91 | A task that need not wait for an earlier one can run before it, in an order that respects all edges. |
| `Programs.NoSharing` | ursa/common/dataset/dataset.h:47-264 | A program without SharedDataMapPartitionWith always passes that test. |
| `Programs.BuildGood` | ursa/common/dataset/dataset.h:47-264 | After every such program the edges lead forward and connect all conflicting tasks. |
| `Programs.ApplyKeeps` | ursa/common/dataset/dataset.h:47-264 | Every single operation that passes the test keeps that. |
| `Programs.ApplyNeeds` | ursa/common/dataset/dataset.h:87-126 | An operation that does not pass leaves two conflicting tasks unconnected. |
| `Programs.ShuffleKeeps` | ursa/common/dataset/dataset.h:138-173 | The three-task chain of PartitionBy, ReduceBy and RangeReduceBy keeps the graph connected, although its last task is ordered by an explicit edge only. |
| `Programs.BroadcastKeeps` | ursa/common/dataset/dataset.h:204-263 | So does the four-task chain of Broadcast. |
| `Programs.EdgesAdded` | ursa/common/dataset/dataset.h:47-264 | Exactly which edges an operation adds. |
| `Programs.SchedulableIff` | ursa/common/dataset/dataset.h:115-126 | Some order respects the emitted edges if and only if no UpdatePartitionWith is given the dataset it is called on. |
| `Programs.SelfEdge` | ursa/common/dataset/dataset.h:115-126 | Such a call makes its task wait for itself. |
| `Programs.SelfUpdateStuck` | ursa/common/dataset/dataset.h:115-126 | The smallest program that cannot be scheduled. |
| `Programs.SharedReadOrderedIff` | ursa/common/dataset/dataset.h:87-102 | SharedDataMapPartitionWith orders its unregistered read after the writer of its own dataset if and only if that writer is, or reaches, the writer of the other one. |
| `Programs.SharedReadHeldIff` | ursa/common/dataset/dataset.h:87-112 | An UpdatePartition of the dataset right behind it waits for that read if and only if the other dataset is the same one. |
| `Programs.UnorderedShare` | ursa/common/dataset/dataset.h:87-112 | A program of four operations with two schedules that respect all edges and end in different stores. |
| `Programs.WriteByKeeps` | ursa/common/dataset/abstract_dataset.h:72-85 | A write is ordered after everything that touched its dataset. |
| `Programs.ReadByKeeps` | ursa/common/dataset/abstract_dataset.h:87-91 | A read is ordered after everything that wrote its dataset. |
| `JobGraphs.LrAnySchedule` | examples/lr.cc:178-217 | For any number of iterations and any closures, all schedules of lr.cc end in one store: each of its unregistered reads is ordered, because what it is paired with is derived from what it reads. |
| `JobGraphs.PrAnySchedule` | examples/pr.cc:85-157 | The same for pr.cc, which sorts its graph in place before sharing it. |
| `JobGraphs.DeriveFollows` | ursa/common/dataset/dataset.h:56-264 | A dataset derived from another comes after everything that one comes after. |
| `JobResults.LrComputes` | examples/lr.cc:178-217 | Whatever functions its closures apply, every schedule of lr.cc ends with the model of its loop: the reduced initial gradients, merged in each iteration with the reduced gradients of the data on the broadcast model; and with the test of that model on the data. |
| `JobResults.PrComputes` | examples/pr.cc:85-160 | Every schedule of pr.cc ends with the selection, gathered from all partitions, of the ranks of its loop on the placed and sorted graph. |
| `Schedule.SameResult` | ursa/common/dataset/abstract_dataset.h:60-91 | If tasks in conflict keep their order, moving the others around does not change the store. |
| `Schedule.Commute` | ursa/common/dataset/dataset.h:105-113 | Two tasks without conflict can be swapped. |
| `Partition.AmortisedPush` | ursa/common/dataset/dataset_partition.h:214-221 | n push_backs on an empty partition move at most 2n elements and leave a capacity of at most 2n + 10. |
| `Partition.GrowthExact` | ursa/common/dataset/dataset_partition.h:214-280 | After any number of push_backs on an empty partition the capacity is 10 times 2^k - 1 for the number k of growths, and the moves are the sum of the earlier capacities. |
| `Partition.PushAll` | ursa/common/dataset/dataset_partition.h:266-280 | n push_backs leave the pushed sequence, at exactly the capacity and moves of the growth function. |
| `Partition.DatasetPartition.PushBack` | ursa/common/dataset/dataset_partition.h:266-280 | Appends one element; the new capacity and the moves are those of the growth function. |
| `Partition.DatasetPartition.Reserve` | ursa/common/dataset/dataset_partition.h:214-221 | Keeps the contents and provides the capacity, touching nothing if it is there already. |
| `Partition.DatasetPartition.GetNewBuffer` | ursa/common/dataset/dataset_partition.h:474-478 | A new buffer of n slots, all in use, that starts with the old elements. |
| `Partition.DatasetPartition.ResizeInner` | ursa/common/dataset/dataset_partition.h:463-471 | Keeps the old elements, in a new buffer of n + 5 slots only if the old one is too small. |
| `Partition.DatasetPartition.Resize` | ursa/common/dataset/dataset_partition.h:174-187 | A prefix, or the old contents and copies of the value. |
| `Partition.DatasetPartition.ResizeDefault` | ursa/common/dataset/dataset_partition.h:194-208 | A prefix, or the old contents and what the new slots hold, overwritten by the default for fundamental types only; the new entries are all default if and only if the type is fundamental or the slots, of the old buffer or of a new one, hold the default already. |
| `Partition.StaleEntry` | ursa/common/dataset/dataset_partition.h:194-208 | push_back(x), resize(0), resize(1) holds x again, for every element type that is not fundamental. |
| `Partition.DatasetPartition.MoveInternal` | ursa/common/dataset/dataset_partition.h:500-508 | The backward shift opens a gap without overwriting an element it still needs. |
| `Partition.DatasetPartition.Insert` | ursa/common/dataset/dataset_partition.h:297-304 | Splices a sequence in at any position, for every length and prior capacity. |
| `Partition.DatasetPartition.ApplyFilter` | ursa/common/dataset/dataset_partition.h:381-391 | In place, exactly the kept elements in order, in the same buffer. |
| `Partition.DatasetPartition.Filter` | ursa/common/dataset/dataset_partition.h:393-416 | The same elements in a new partition, the old one unchanged. |
| `Partition.DatasetPartition.ApplyPermutation` | ursa/common/dataset/dataset_partition.h:359-368 | Element i of the result is element permutation[i] of the old contents. |
| `Partition.DatasetPartition.PopBack` | ursa/common/dataset/dataset_partition.h:291-295 | Drops the last element, and nothing if there is none. |
| `Partition.DatasetPartition.ShrinkToFit` | ursa/common/dataset/dataset_partition.h:285-289 | Keeps the contents and leaves no spare capacity. |
| `StringPartitions.PerformAll` | ursa/common/dataset/string_partition.h:104-190 | Every sequence of pushes, pops, growing resizes, shrinking resizes followed by shrink_to_fit, filters, permutations and clears leaves exactly the strings it leaves on a plain sequence, with monotone offsets. |
| `StringPartitions.StringPartition.PushBack` | ursa/common/dataset/string_partition.h:156-169 | Appends the string if and only if the bytes fit 32 bits and the offset vector has no stale entry behind the last string, or one that happens to be right. |
| `StringPartitions.StringPartition.Resize` | ursa/common/dataset/string_partition.h:116-122 | Shrinking keeps a prefix; growing appends empty strings if and only if every stale offset it passes equals the end of the last string. |
| `StringPartitions.ShrinkThenPush` | ursa/common/dataset/string_partition.h:104-169 | A shrinking resize without shrink_to_fit makes the next push_back lose its string. |
| `StringPartitions.ShrinkThenGrow` | ursa/common/dataset/string_partition.h:116-122 | And a growing resize after it does not append the empty string its documentation promises. |
| `StringPartitions.StringPartition.ApplyFilter` | ursa/common/dataset/string_partition.h:242-261 | The in-place move of bytes and rewrite of offsets reads no entry already overwritten and leaves exactly the kept strings. |
| `StringPartitions.StringPartition.ApplyPermutation` | ursa/common/dataset/string_partition.h:214-223 | String i of the result is string permutation[i] of the old contents, positions may repeat. |
| `StringPartitions.StringPartition.PopBack` | ursa/common/dataset/string_partition.h:177-181 | Drops the last string and its bytes. |
| `StringPartitions.StringPartition.ShrinkToFit` | ursa/common/dataset/string_partition.h:185-190 | Keeps the strings and drops everything stale. |
| `StringPartitions.StringPartition.Clear` | ursa/common/dataset/string_partition.h:125-133 | No strings, ready for use again. |
| `StringPartitions.StringPartition.At` | ursa/common/dataset/string_partition.h:143-154 | The string at an index. |
| `StringPartitions.StringPartition.Repeat` | ursa/common/dataset/string_partition.h:85-94 | n copies of a string, if and only if all bytes fit the 32-bit offsets. |
| `StringPartitions.StringPartition.Slice` | ursa/common/dataset/string_partition.h:279-301 | A copy of a range of strings with offsets from 0. |
| `Matching.CloseExact` | scripts/cpplint.py:1512-1553 | From an opening round, square or curly bracket, over any number of lines and whatever angle brackets, operators and semicolons they hold, CloseExpression returns a place exactly when the text up to it is the well-matched segment that bracket opens. |
| `Matching.ReverseExact` | scripts/cpplint.py:1630-1665 | The mirror image for ReverseCloseExpression. |
| `Matching.MatchersInverse` | scripts/cpplint.py:1512-1665 | One matcher leads from an opening bracket to a closing one if and only if the other leads back. |
| `Brackets.FindEndOfExpressionInLine` | scripts/cpplint.py:1436-1509 | The stack loop computes the step function on every line, start and initial stack. |
| `Brackets.FindStartOfExpressionInLine` | scripts/cpplint.py:1556-1627 | The same backwards, with its two-character steps over operators. |
| `Brackets.CloseExpression` | scripts/cpplint.py:1512-1553 | The loop over the lines, with the early returns, computes the closing place or reports none. |
| `Brackets.ReverseCloseExpression` | scripts/cpplint.py:1630-1665 | The same backwards. |
| `Angles.CloseAngleExact` | scripts/cpplint.py:1436-1553 | From a template bracket, over any number of lines, CloseExpression returns a place exactly when neither `<` nor `=` follows the bracket and the marks up to that place are a template argument list, by a grammar without a stack: groups in other brackets, and nested template brackets each closed by `>` or taken back by `<<`. |
| `Angles.CloseIdleExact` | scripts/cpplint.py:1436-1553 | From a `<` that is an operator it returns a place exactly when the marks between the `<` and some bracket further on the line hold no bracket that counts and no `;`, and that bracket is the beginning of a segment that ends at the place. |
| `Angles.ShiftFindsOther` | scripts/cpplint.py:1512-1553 | Asked for the end of the second half of a shift operator, CloseExpression returns the end of the parenthesis behind it. |
| `Angles.ForwardIsMarkScan` | scripts/cpplint.py:1436-1509 | The forward scan of a line depends on its marks only: where `->`, `operator>` and `operator<` are no brackets, and the second half of `<<` takes one back. |
| `Angles.OperatorShape` | scripts/cpplint.py:1462-1463 | The operator test holds exactly for text that ends in the word operator and white space. |
| `Angles.MarkScanExact` | scripts/cpplint.py:1436-1509 | From a template bracket the scan of marks finds exactly the argument list the grammar describes. |
| `Angles.BracketSkips` | scripts/cpplint.py:1454-1487 | A round, square or curly bracket met on the way is read to its own end, whatever template brackets it holds. |
| `Angles.CloseRange` | scripts/cpplint.py:1512-1553 | A place returned from a `<` lies behind it, inside or at the end of a line. |
| `Angles.OnlyFromBrackets` | scripts/cpplint.py:1533-1535 | From any other character nothing is found. |
| `AnglesBack.ReverseAngleExact` | scripts/cpplint.py:1556-1665 | From a template bracket, ReverseCloseExpression returns a place exactly when the marks from that place on are a template argument list; backwards `->`, `>=` between spaces, `operator>` and every `<<`, counted from the right, are no brackets. |
| `AnglesBack.ReverseIdleExact` | scripts/cpplint.py:1556-1665 | From a `>` that is an operator it returns a place exactly when, further left on the line and behind no bracket that counts, a segment ends that begins at the place. |
| `AnglesBack.BackwardIsMarkScan` | scripts/cpplint.py:1556-1627 | The backward scan of a line is the forward scan of its own marks, read in a mirror. |
| `AnglesBack.AngleMirrors` | scripts/cpplint.py:1556-1560 | Read from right to left, a template argument list is a template argument list. |
| `AnglesBack.AngleMatchersInverse` | scripts/cpplint.py:1512-1665 | On lines that both matchers mark alike, one leads from a template bracket to a `>` exactly when the other leads back, unless `=` follows the bracket. |
| `AnglesBack.PlainMarks` | scripts/cpplint.py:1436-1627 | On a line without `->`, `<<`, `>=` and operator names both matchers count every bracket. |
| `AnglesBack.EndsAtGreater` | scripts/cpplint.py:1494-1498 | What CloseExpression returns from a template bracket is just behind a `>`. |
| `WellMatched.ScanExact` | scripts/cpplint.py:1436-1509 | Scanning for three kinds of brackets with a stack finds exactly the segments of the grammar. |
| `WellMatched.ScanBackExact` | scripts/cpplint.py:1556-1627 | And so does scanning backwards. |
| `Matching.ForwardErases` | scripts/cpplint.py:1454-1506 | Dropping the tentative template brackets from the stack changes no outcome of a scan that started at another bracket. |
| `Matching.BackwardErases` | scripts/cpplint.py:1578-1623 | The same backwards; the characters skipped are no brackets. |
| `Nesting.DeletingBranches` | scripts/cpplint.py:2349-2403 | Deleting every #else and #elif branch of a well-nested file, at any depth, leaves the final brace stack as it was, for any effect of the lines on it, and the checkpoint stack comes back. |
| `Nesting.BranchesInvisible` | scripts/cpplint.py:2349-2403 | The same line by line for every file that does not end inside such a branch, with stray #else and #endif lines allowed. |
| `Nesting.PruneIsFirstBranches` | scripts/cpplint.py:2349-2403 | On well-nested files pruning line by line is deleting the branches of the tree of conditionals. |
| `Nesting.CheckpointsReturn` | scripts/cpplint.py:2349-2403 | A well-nested file gives back the checkpoints it was started with. |
| `Nesting.WellNestedExact` | scripts/cpplint.py:2370-2403 | The lines of a file form a tree of conditionals exactly when each #else, #elif and #endif is inside a conditional and each conditional is closed. |
| `Nesting.AlternativesKeepOuter` | scripts/cpplint.py:2376-2386 | An #else or #elif branch touches the checkpoint of its own conditional only. |
| `Directives.KindShape` | scripts/cpplint.py:2370-2395 | A line is taken for `if`, `else` or `endif` exactly when it is white space, `#`, white space, one of the words if, ifdef, ifndef, or else, elif, or endif, and then nothing or a character that is no part of a word. |
| `Nesting.NestingState.UpdatePreprocessor` | scripts/cpplint.py:2371-2403 | Every kind of line, as `Directives.KindShape` tells it, takes the state to the one the value model names, in place. |
| `Nesting.NestingState.Update` | scripts/cpplint.py:2424-2558 | The checkpoints first, then whatever the line does to the brace stack. |
| `Nesting.NestingState.UpdateAll` | scripts/cpplint.py:5479-5479 | One update for each line of a file, in order. |
| `BraceStack.ConsumeBraces` | scripts/cpplint.py:2521-2558 | The loop over the tokens of a line computes the token function. |
| `BraceStack.BalancedCodeInvisible` | scripts/cpplint.py:2521-2558 | Unless the innermost block still waits for its brace, code with balanced braces over any number of lines leaves the stack as it was. |
| `BraceStack.BalancedExact` | scripts/cpplint.py:2529-2557 | Code is balanced, by its grammar, exactly when, read with one block open, it neither closes that block nor leaves another one open. |
| `BraceStack.DeclarationConsumed` | scripts/cpplint.py:2529-2557 | A pending class or namespace is opened by its brace, instead of a new block, and gone after its closing brace. |
| `BraceStack.BlockOpened` | scripts/cpplint.py:2524-2541 | A brace opens the pending block, which keeps its kind, or else a new one of the kind that the rest of the line tells, and balanced code behind it leaves that block on top. |
| `BraceStack.ForwardDeclarationDropped` | scripts/cpplint.py:2542-2552 | A pending one that meets a semicolon or closing parenthesis first is dropped. |
| `BraceStack.ConsumeReaches` | scripts/cpplint.py:2521-2558 | On any line the lower part of the stack that is never closed stays as it is, and the rest is counted right. |
| `Comments.RemoveMultiLineComments` | scripts/cpplint.py:1310-1323 | The in-place loop ends, keeps the line count, leaves the cleaned lines and reports the first unclosed comment. |
| `Comments.CleanedOverwrites` | scripts/cpplint.py:1302-1323 | Exactly the lines of the successive ranges are overwritten. |
| `Comments.RangeIsComment` | scripts/cpplint.py:1282-1299 | Each range goes from a line that opens a comment to the first line that closes one; ranges do not overlap and all come before an unclosed comment. |
| `Comments.SecondRunIsIdle` | scripts/cpplint.py:1310-1323 | For the marks of the source, and all others the dummy does not bear, cleaning the cleaned lines changes nothing and reports the same unclosed comment, or again none. |
| `Comments.SourceSkipsDummy` | scripts/cpplint.py:1302-1307 | The dummy comment does not open a comment itself. |
| `Comments.CleanedOpens` | scripts/cpplint.py:1282-1290 | No cleaned line before an unclosed comment opens one. |
| `Comments.OpensAndCloses` | scripts/cpplint.py:1282-1299 | A line both opens and closes a comment exactly when it is a slash, a star and a slash. |
| `Comments.HalfCommentRange` | scripts/cpplint.py:1282-1299 | The file that consists of that line has one comment, from line 0 to line 0, and none that is unclosed. |
| `CppComments.RangesExact` | scripts/cpplint.py:1282-1323 | Of every comment the source finds, the lines it blanks hold just that comment, up to white space, if and only if the stripped opening line is more than a slash, a star and a slash and only white space follows the first closing mark of C++ on its line. |
| `CppComments.BlanksExactly` | scripts/cpplint.py:1282-1299 | The same for any line that opens a comment, also if the source finds no end of it. |
| `CppComments.ClosesShape` | scripts/cpplint.py:1293-1299 | A line closes a comment for the source exactly when a closing mark on it has only white space behind it. |
| `CppComments.OpensShape` | scripts/cpplint.py:1282-1290 | A line opens a comment exactly when it is white space, an opening mark, and text without a closing one. |
| `CppComments.CodeBehind` | scripts/cpplint.py:1282-1323 | Three lines of which C++ takes the second for code behind the end of the comment, and the source blanks all. |
| `CppComments.HalfCommentGoesOn` | scripts/cpplint.py:1282-1299 | In C++ the comment opened by a slash, a star and a slash goes on. |
| `CppComments.EndsAtOnce` | scripts/cpplint.py:1282-1290 | In C++ a comment can end on the line it begins on, but its two marks share no star. |
| `Comments.RemoveMultiLineCommentsFromRange` | scripts/cpplint.py:1302-1307 | The lines of the range, and no other, become the dummy comment. |
| `Comments.FindNext` | scripts/cpplint.py:1282-1299 | Both searches: the first line with the mark, or the number of lines. |
| `TopRanks.SelectTop` | examples/pr.cc:134-153 | For any k and however ties are broken, the k top ranked records (all if there are fewer), the least first. |
| `TopRanks.TopOfAll` | examples/pr.cc:154-156 | Selecting on each partition, gathering and selecting again lists the top k of all records, for every split and message order. |
| `TopRanks.SameTopRanks` | examples/pr.cc:134-156 | Any two lists of the top k of the same records show the same ranks in the same order. |
| `TopRanks.TopUnique` | examples/pr.cc:134-153 | The multiset of the k largest ranks is unique. |
| `TopRanks.TopThroughPart` | examples/pr.cc:154-156 | Replacing a part of the data by its top k keeps the top k of the whole. |
| `PageRank.Run` | examples/pr.cc:88-157 | For any graph, partition count, hash function, message orders and number of iterations: the job comes to its end if and only if it runs at most one iteration or no id is repeated; then each page has one rank in every iteration, the sum of what all vertices send to it on the ranks before, and the end lists the k highest. |
| `PageRank.RunTwoPages` | examples/pr.cc:88-157 | A run of two pages that link to each other meets every requirement of the above and adds one to both ranks in every iteration. |
| `PageRank.Reduce` | examples/pr.cc:126-131 | Reducing what all partitions send by the hash that placed the graph leaves ranks that are placed like the graph and include every vertex. |
| `PageRank.SendUpdates` | examples/pr.cc:106-123 | The walk of local_id, with or without the check, sends what the walk on values sends and stops where that stops. |
| `PageRank.SentReduced` | examples/pr.cc:106-123 | On reduced ranks the walk meets the rank of every vertex if and only if no id occurs twice; then it sends what a lookup of each rank would send. |
| `PageRank.SentFirst` | examples/pr.cc:97-123 | On the first ranks it meets every vertex, repeated or not. |
| `PageRank.LaterSent` | examples/pr.cc:106-131 | Partition by partition the walk succeeds if and only if no id of the whole input is repeated, and pairs as a lookup in all ranks would. |
| `PageRank.RepeatedId` | examples/pr.cc:106-123 | With two vertices of one id the check fails; without it the second takes the rank of another page or finds none. |
| `PageRank.UpdatesTogether` | examples/pr.cc:106-123 | The partitions together send what all vertices of the input send. |
| `PageRank.PlacedDistinct` | examples/pr.cc:88-94 | The partitions repeat no id if and only if the input repeats none. |
| `PageRank.PlaceGraph` | examples/pr.cc:91-94 | Partition p holds the vertices whose id hashes to p, sorted by id. |
| `PageRank.VertexWireFaithful` | examples/pr.cc:39-40 | A vertex with its neighbours survives the byte streams. |
| `WordCount.Run` | examples/word_count.cc:45-64 | For every file, block size, assignment of blocks, hash function and message order: before the MapPartition step the partitions list each word once with the number of its occurrences, and the number logged is the number of distinct words, both up to the wrap-around of int. |
| `WordCount.WordsAddUp` | examples/word_count.cc:51-53 | The per-word counts add up to the number of words of the file; exactly so while that number fits. |
| `WordCount.ParseLine` | examples/word_count.cc:27-40 | Lists each word of a line once with its count, in the order of the hash map, and nothing for an empty line. |
| `WordCount.CountsAreGroups` | examples/word_count.cc:51-52 | Listing every word with its count is the same as grouping one record per occurrence. |
| `WordCount.CountsLength` | examples/word_count.cc:53-58 | Such a list has as many records as there are distinct words. |
| `WordCount.LinesGroup` | examples/word_count.cc:46-52 | What the lines list together adds up, word by word, to all words of all lines. |
| `WordCount.OneSum` | examples/word_count.cc:59-63 | The last reduction leaves exactly one record, the sum. |
| `WordCount.WiresFaithful` | examples/word_count.cc:45-60 | The record types of the job survive the byte streams. |
| `WordCount.ByWordLawful` | examples/word_count.cc:51-52 | std::string order is a total order and the count combiner is lawful, wrap-around included. |
| `WordCount.LessShape` | examples/word_count.cc:51-52 | One word is less than another exactly when, at the first place where they differ, it ends or holds the smaller byte. |
| `DenseModel.DimWireFaithful` | ursa/base/bin_stream.h:116-128 | A pair of an int key and a number survives the byte streams if the number does. |
| `DenseModel.Bits64Faithful` | ursa/base/bin_stream.h:116-128 | Every eight-byte number survives them. |
| `DenseModel.BlocksCover` | examples/lr.cc:74-74 | The block size is the least with which n blocks hold more than num_dims dimensions, and no dimension is routed past the last partition. |
| `DenseModel.StartBounds` | examples/lr.cc:74-74 | The ranges of the shards follow one another, cover all dimensions, and shard p holds k exactly when k / block_dims is p. |
| `DenseModel.RangeExact` | examples/lr.cc:74-74 | Shard p holds dimension k exactly when k / (num_dims / n + 1) is p. |
| `DenseModel.ShardOf` | examples/lr.cc:74-189 | Every dimension is in that shard of the model and in no other. |
| `DenseModel.ReducedIsModel` | examples/lr.cc:182-186 | When every dimension occurs, each output partition of RangeReduceBy is exactly its contiguous range, in order. |
| `DenseModel.ModelIsDense` | examples/lr.cc:189-189 | The shards one after the other are all dimensions in order. |
| `DenseModel.BroadcastIsDense` | examples/lr.cc:189-189 | After Broadcast model[i].first == i. |
| `DenseModel.Merge` | examples/lr.cc:196-211 | The merge loop computes the merge of the two lists; its index counts the gradient entries used. |
| `DenseModel.MergeAdds` | examples/lr.cc:196-211 | Merging an increasing gradient of the range of the shard passes CHECK_GE, uses every entry and equals addition dimension by dimension. |
| `Training.Train` | examples/lr.cc:178-212 | In every iteration the shards are exactly their dense ranges and the next model is this one plus everything the data contributes on it, dimension by dimension; the first one is zero plus the initial contributions.  In the end shard p holds the dimensions k with k / (D / n + 1) == p and no others. |
| `Training.Doubling` | examples/lr.cc:178-212 | A run that meets every requirement of the above, with numbers as wide as a double: one data point whose contribution is the model itself doubles it in every iteration. |
| `Training.Iterate` | examples/lr.cc:188-212 | One iteration: broadcast, gradients, reduction and merge together. |
| `Training.InitialModel` | examples/lr.cc:182-186 | The reduced initial gradients are the zero model plus the contributions; the zeros of the other partitions add nothing. |
| `Training.BatchExact` | examples/lr.cc:90-107 | A batch no larger than the partition takes its points one after the other, from the start position on and around the end, each once with all its fields. |
| `Training.InitialGradient` | examples/lr.cc:118-152 | Adding in place to a dense list of zeros, with j walking up to the dimension of each field, sums the contributions of the batch. |
| `Training.Gradient` | examples/lr.cc:76-116 | Summing in an ordered map and listing it is the grouping of the contributions of the batch by dimension. |
| `Training.GradientFits` | examples/lr.cc:190-210 | The reduced gradient of a shard lies in the range of the shard and is no longer than the shard. |

## Left out

- StringPartitions.StringPartition.Resize: the variant with a value other than the empty string repeats `PushBack`, whose contract covers one step of it.
- StringPartitions.StringPartition.Slice: null masks are not modelled, here and in the other container operations.
- StringPartitions.StringPartition.ApplyPermutation: requires the bytes of all chosen strings to fit 32 bits, as a true permutation always does (`PermutationsLegal`); beyond that the source writes outside its buffer.
- Dependency.AbstractDataset.SetProducer: the parallelism it copies and the metadata it registers are not modelled.
- Dependency.AbstractDataset.ReadBy: requires a writer, because the source dereferences it without a check.
- Programs.ScheduleIndependence: speaks of the store after all tasks; a task is one step on whole datasets, so shard-level overlap of asynchronous edges is not modelled, and neither are copies of a dataset handle.  The id of the source dataset, which holds nothing, is not counted.
- Shuffle.CreateMessagePartition: the message header is written by the sender and stripped by a receiver whose body is not part of this model; streams start behind it.
- LineInput.LineInputFormat.HandleNextBlock: its body, and those of `FetchNewBlock` and `FetchBlockView`, are not part of this model beyond the contract above.
- WordCount.Run: a signed overflow of `int`, undefined in C++, is taken as wrap-around.
- Training.Train: floating-point rounding is not modelled; numbers are any type with an addition that commutes and associates and with a width to be streamed in.  Dimensions are below `num_dims`, as `model.at` and `ret.at` demand, and there is at least one, since `Broadcast` of an empty model delivers null pointers.
- PageRank.Run: the same numbers; page ids are not negative.  It follows debug builds, in which the check is compiled in; `PageRank.SendUpdates` covers both.
- Nesting.NestingState.Update: the parts of `Update` other than the checkpoints and the brace loop (namespaces, classes, access control, inline assembly) are one arbitrary function of the stack and the numbered line, which may look ahead in the whole file but not in the file without the deleted branches, as `InTemplateArgumentList` would if it ran on that; `previous_stack_top` is not modelled.
- Comments.RemoveMultiLineComments, Brackets.CloseExpression: `\s`, `\w` and `strip` are those of ASCII text.
- Codec: `std::vector<bool>`, nested `BinStream` and user-defined `serialize` overloads; a `size_t` is eight bytes, low byte first.
- Loop counters of type `int` for more than 2^31 elements, `size_t` arguments cut to 32 bits by `StringPartition`, memory estimates and logging.
- `DatasetPartition::Slice` (shares its buffer), `AppendPartition`, iterators and `Compare`: they would only add one-step facts.
- HDFS, NFS and ORC access, mailboxes, the job simulator and process management: input, output and foreign calls.
- `examples/connected_component.cc` and `examples/kmeans.cc`: the first merges updates without comparing keys, the second partitions at random.
- All other checks of `scripts/cpplint.py`: pattern-driven style rules.
