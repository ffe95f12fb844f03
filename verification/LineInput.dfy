/** The block-split line reader of ursa/common/io/input/line_inputformat.h.

    A file is cut into blocks of `B` bytes that are read independently, in any order and by any
    task.  The theorem is that all blocks together deliver every line of the file exactly once. */
module LineInput {
  import opened Codec
  import opened Sequences

  const NL: byte := 10
  const NPOS: int := -1                   // std::string::npos stored in an int

  // ---------- what a line is ----------

  /** Position of the first newline of `s` at or after `i`, or the end of `s`. */
  function LineEnd(s: seq<byte>, i: nat): (e: nat)
    requires i <= |s|
    ensures i <= e <= |s|
    ensures forall k :: i <= k < e ==> s[k] != NL
    ensures e < |s| ==> s[e] == NL
    decreases |s| - i
  {
    if i == |s| || s[i] == NL then i else LineEnd(s, i + 1)
  }

  /** The lines of `s` that start at or after `i` and no later than `last`; `i` starts a line. */
  function LinesFrom(s: seq<byte>, i: nat, last: int): seq<seq<byte>>
    decreases |s| - i
  {
    if i >= |s| || i > last then []
    else var e := LineEnd(s, i); [s[i..e]] + LinesFrom(s, e + 1, last)
  }

  /** The file split on newline; a final newline starts no further line. */
  function SplitLines(s: seq<byte>): seq<seq<byte>> {
    LinesFrom(s, 0, |s|)
  }

  /** The first line start after position `i`. */
  function NextStart(s: seq<byte>, i: nat): (n: nat)
    ensures n > i
  {
    if i < |s| then LineEnd(s, i) + 1 else i + 1
  }

  /** The lines the block at offset `o` is responsible for: those that start in (o, o + B], and for
      the first block also the one that starts at 0. */
  function BlockLines(s: seq<byte>, o: nat, B: nat): seq<seq<byte>> {
    LinesFrom(s, if o == 0 then 0 else NextStart(s, o), o + B)
  }

  // ---------- the blocks tile the lines ----------

  lemma {:induction false} LineEndUnique(s: seq<byte>, i: nat, j: nat)
    requires i <= j <= |s| && forall k :: i <= k < j ==> s[k] != NL
    ensures LineEnd(s, i) == LineEnd(s, j)
    decreases j - i
  {
    if i < j {
      LineEndUnique(s, i + 1, j);
    }
  }

  /** Cutting the responsibility at position `a`: lines up to `a`, then lines after `a`. */
  lemma {:induction false} CutLines(s: seq<byte>, i: nat, a: nat, last: int)
    requires i <= NextStart(s, a) && a <= last
    requires i > a ==> i == NextStart(s, a)
    ensures LinesFrom(s, i, a) + LinesFrom(s, NextStart(s, a), last) == LinesFrom(s, i, last)
    decreases |s| - i
  {
    if i < |s| && i <= a {
      var e := LineEnd(s, i);
      if a < |s| {
        if e >= a {
          LineEndUnique(s, i, a);
        }
      }
      CutLines(s, e + 1, a, last);
      assert LinesFrom(s, i, a) == [s[i..e]] + LinesFrom(s, e + 1, a);
    }
  }

  /** Where block k starts. */
  function Offset(k: nat, B: nat): nat { k * B }

  /** What the first n blocks deliver, in block order. */
  function BlocksInOrder(s: seq<byte>, B: nat, n: nat): (blocks: seq<seq<seq<byte>>>)
    ensures |blocks| == n && forall k :: 0 <= k < n ==> blocks[k] == BlockLines(s, Offset(k, B), B)
  {
    seq(n, k requires 0 <= k < n => BlockLines(s, Offset(k, B), B))
  }

  lemma OffsetStep(n: nat, B: nat)
    requires n >= 1
    ensures Offset(n, B) == Offset(n - 1, B) + B
    ensures n >= 2 && B >= 1 ==> Offset(n - 1, B) > 0
    ensures Offset(0, B) == 0
  {
    assert n >= 2 && B >= 1 ==> (n - 1) * B >= B;
  }

  lemma {:induction false} BlocksPrefix(s: seq<byte>, B: nat, n: nat)
    requires B >= 1 && n >= 1
    ensures Flatten(BlocksInOrder(s, B, n)) == LinesFrom(s, 0, Offset(n, B))
  {
    hide Flatten, LinesFrom, Offset;
    OffsetStep(n, B);
    var last := BlockLines(s, Offset(n - 1, B), B);
    assert BlocksInOrder(s, B, n) == BlocksInOrder(s, B, n - 1) + [last];
    FlattenSnoc(BlocksInOrder(s, B, n - 1), last);
    if n == 1 {
      assert BlocksInOrder(s, B, 0) == [];
      FlattenNone<seq<byte>>();
    } else {
      BlocksPrefix(s, B, n - 1);
      CutLines(s, 0, Offset(n - 1, B), Offset(n, B));
    }
  }

  lemma {:induction false} LateLimit(s: seq<byte>, i: nat, last: int, last': int)
    requires last >= |s| && last' >= |s|
    ensures LinesFrom(s, i, last) == LinesFrom(s, i, last')
    decreases |s| - i
  {
    if i < |s| {
      LateLimit(s, LineEnd(s, i) + 1, last, last');
    }
  }

  /** In block order the lines delivered are the lines of the file. */
  lemma AllBlocksInOrder(s: seq<byte>, B: nat, n: nat)
    requires B >= 1 && Offset(n, B) >= |s|
    ensures Flatten(BlocksInOrder(s, B, n)) == SplitLines(s)
  {
    if n == 0 {
      assert s == [];
    } else {
      BlocksPrefix(s, B, n);
      LateLimit(s, 0, Offset(n, B), |s|);
    }
  }

  /** In any order, and however the blocks are dealt out to tasks, every line is delivered exactly
      once.  `tasks[t]` lists the block numbers task t reads. */
  lemma EveryLineExactlyOnce(s: seq<byte>, B: nat, n: nat, tasks: seq<seq<nat>>)
    requires B >= 1 && Offset(n, B) >= |s| && IsPermutation(Flatten(tasks), n)
    ensures multiset(Gather(BlocksInOrder(s, B, n), Flatten(tasks))) == multiset(SplitLines(s))
  {
    GatherAll(BlocksInOrder(s, B, n), Flatten(tasks));
    AllBlocksInOrder(s, B, n);
  }

  // ---------- splitting is what it should be ----------

  /** The lines with a newline, byte 10, between them. */
  function JoinLines(lines: seq<seq<byte>>): seq<byte> {
    if lines == [] then [] else if |lines| == 1 then lines[0] else lines[0] + [10] + JoinLines(lines[1..])
  }

  /** Joining the lines with newlines gives the file back, up to one final newline; no line holds
      a newline. */
  lemma {:induction false} SplitJoin(s: seq<byte>, i: nat)
    requires i < |s|
    ensures LinesFrom(s, i, |s|) != []
    ensures s[i..] == JoinLines(LinesFrom(s, i, |s|)) + if s[|s| - 1] == 10 then [10] else []
    ensures forall line :: line in LinesFrom(s, i, |s|) ==> 10 !in line
    decreases |s| - i
  {
    hide LinesFrom, JoinLines, LineEnd;
    var e := LineEnd(s, i);
    var rest := LinesFrom(s, e + 1, |s|);
    FirstLine(s, i);
    SplitAround(s, i, e);
    if e + 1 < |s| {
      SplitJoin(s, e + 1);
      JoinCons(s[i..e], rest);
      assert s[i..e] + [10] + s[e + 1..] == s[i..e] + [10] + JoinLines(rest) + if s[|s| - 1] == 10 then [10] else [];
    } else {
      NoLines(s, e + 1);
      JoinOne(s[i..e]);
    }
  }

  lemma FirstLine(s: seq<byte>, i: nat)
    requires i < |s|
    ensures var e := LineEnd(s, i);
            && LinesFrom(s, i, |s|) == [s[i..e]] + LinesFrom(s, e + 1, |s|)
            && 10 !in s[i..e] && (e < |s| ==> s[e] == 10)
  {
  }

  lemma NoLines(s: seq<byte>, i: nat)
    requires i >= |s|
    ensures LinesFrom(s, i, |s|) == []
  {
  }

  lemma JoinCons(line: seq<byte>, rest: seq<seq<byte>>)
    requires rest != []
    ensures JoinLines([line] + rest) == line + [10] + JoinLines(rest)
  {
    assert ([line] + rest)[1..] == rest;
  }

  lemma JoinOne(line: seq<byte>)
    ensures JoinLines([line] + []) == line
  {
  }

  lemma SplitAround(s: seq<byte>, i: nat, e: nat)
    requires i <= e <= |s|
    ensures e < |s| ==> s[i..] == s[i..e] + [s[e]] + s[e + 1..] && (e + 1 == |s| ==> s[i..] == s[i..e] + [s[e]])
    ensures e == |s| ==> s[i..] == s[i..e]
  {
  }

  /** Each line followed by a newline. */
  function Written(lines: seq<seq<byte>>): seq<byte> {
    if lines == [] then [] else lines[0] + [10] + Written(lines[1..])
  }

  lemma LineEndAt(s: seq<byte>, i: nat, e: nat)
    requires i <= e <= |s| && (forall k :: i <= k < e ==> s[k] != 10) && (e < |s| ==> s[e] == 10)
    ensures LineEnd(s, i) == e
  {
    LineEndUnique(s, i, e);
  }

  lemma {:induction false} SplitWrittenFrom(front: seq<byte>, lines: seq<seq<byte>>, rest: seq<byte>)
    requires (forall line :: line in lines ==> 10 !in line) && 10 !in rest
    ensures var s := front + Written(lines) + rest;
            LinesFrom(s, |front|, |s|) == lines + if rest == [] then [] else [rest]
    decreases |lines|
  {
    hide LineEnd, LinesFrom, Written;
    if lines == [] {
      WrittenNone();
      assert front + [] + rest == front + rest;
      LastLine(front, rest);
    } else {
      var line, more := lines[0], lines[1..];
      assert line in lines && lines == [line] + more;
      WrittenCons(line, more);
      SplitWrittenFrom(front + line + [10], more, rest);
      LineBetween(front, line, Written(more) + rest);
      var s := front + line + [10] + (Written(more) + rest);
      assert s == front + Written(lines) + rest == front + line + [10] + Written(more) + rest;
    }
  }

  lemma LastLine(front: seq<byte>, rest: seq<byte>)
    requires 10 !in rest
    ensures var s := front + rest; LinesFrom(s, |front|, |s|) == if rest == [] then [] else [rest]
  {
    hide LineEnd, LinesFrom;
    var s := front + rest;
    if rest == [] {
      NoLines(s, |front|);
    } else {
      forall k | |front| <= k < |s| ensures s[k] != 10 {
        assert s[k] == rest[k - |front|];
      }
      LineEndAt(s, |front|, |s|);
      FirstLine(s, |front|);
      NoLines(s, |s| + 1);
      assert s[|front|..|s|] == rest;
    }
  }

  lemma LineBetween(front: seq<byte>, line: seq<byte>, rest: seq<byte>)
    requires 10 !in line
    ensures var s := front + line + [10] + rest;
            LinesFrom(s, |front|, |s|) == [line] + LinesFrom(s, |front + line + [10]|, |s|)
  {
    hide LineEnd, LinesFrom;
    var s, e := front + line + [10] + rest, |front| + |line|;
    forall k | |front| <= k < e ensures s[k] != 10 {
      assert s[k] == line[k - |front|];
    }
    LineEndAt(s, |front|, e);
    FirstLine(s, |front|);
    assert s[|front|..e] == line;
  }

  lemma WrittenNone()
    ensures Written([]) == []
  {
  }

  lemma WrittenCons(line: seq<byte>, more: seq<seq<byte>>)
    ensures Written([line] + more) == line + [10] + Written(more)
  {
    assert ([line] + more)[1..] == more;
  }

  /** Splitting gives back the lines that were written, each ended by byte 10, and a last one without it. */
  lemma SplitWritten(lines: seq<seq<byte>>, rest: seq<byte>)
    requires (forall line :: line in lines ==> 10 !in line) && 10 !in rest
    ensures SplitLines(Written(lines) + rest) == lines + if rest == [] then [] else [rest]
  {
    hide LinesFrom, Written;
    SplitWrittenFrom([], lines, rest);
    assert [] + Written(lines) + rest == Written(lines) + rest;
  }

  // ---------- the file system side ----------

  /** The bytes of the block at `o`; nothing beyond the end of the file. */
  function BlockOf(file: seq<byte>, B: nat, o: nat): seq<byte> {
    if o >= |file| then [] else if o + B >= |file| then file[o..] else file[o..o + B]
  }

  /** The bytes from `i` to the end of the line `i` is on. */
  function Rest(s: seq<byte>, i: nat): seq<byte> {
    if i < |s| then s[i..LineEnd(s, i)] else []
  }

  /** A newline found in a block is the newline of the file, and the other way round. */
  lemma {:induction false} BlockLineEnd(s: seq<byte>, o: nat, i: nat, size: nat)
    requires i <= size && o + size <= |s|
    ensures var view := s[o..o + size];
            if LineEnd(view, i) < size then LineEnd(s, o + i) == o + LineEnd(view, i)
            else LineEnd(s, o + i) == LineEnd(s, o + size)
    decreases size - i
  {
    if i < size && s[o + i] != NL {
      BlockLineEnd(s, o, i + 1, size);
    }
  }

  lemma BlockIsSlice(file: seq<byte>, B: nat, o: nat)
    requires o < |file|
    ensures var size := |BlockOf(file, B, o)|;
            o + size <= |file| && BlockOf(file, B, o) == file[o..o + size]
            && (size == B || (size < B && o + size == |file|))
  {
  }

  /** A line that ends inside the block. */
  lemma InsideBlock(file: seq<byte>, B: nat, o: nat, i: nat)
    requires o < |file| && i < |BlockOf(file, B, o)|
    requires LineEnd(BlockOf(file, B, o), i) < |BlockOf(file, B, o)|
    ensures LineEnd(file, o + i) == o + LineEnd(BlockOf(file, B, o), i)
    ensures Rest(file, o + i) == BlockOf(file, B, o)[i..LineEnd(BlockOf(file, B, o), i)]
  {
    hide BlockOf, LineEnd;
    BlockIsSlice(file, B, o);
    var view, e := BlockOf(file, B, o), LineEnd(BlockOf(file, B, o), i);
    BlockLineEnd(file, o, i, |view|);
    SliceOfSlice(file, o, o + |view|, o + i, o + e);
  }

  /** A line that overruns the block. */
  lemma BeyondBlock(file: seq<byte>, B: nat, o: nat, i: nat)
    requires o < |file| && i < |BlockOf(file, B, o)|
    requires LineEnd(BlockOf(file, B, o), i) == |BlockOf(file, B, o)|
    ensures LineEnd(file, o + i) >= o + B || LineEnd(file, o + i) == |file|
    ensures Rest(file, o + i) == BlockOf(file, B, o)[i..] + Rest(file, o + B)
  {
    hide BlockOf, LineEnd;
    BlockIsSlice(file, B, o);
    var view := BlockOf(file, B, o);
    BlockLineEnd(file, o, i, |view|);
    if |view| < B {
      assert Rest(file, o + i) == view[i..];
      assert Rest(file, o + B) == [];
    } else if o + B == |file| {
      assert Rest(file, o + i) == view[i..];
    } else {
      assert Rest(file, o + i) == view[i..] + file[o + B..LineEnd(file, o + B)];
    }
  }

  /** Stands for the file splitter of one file: blocks of B bytes, read one after the other.  Its
      bodies are not in the repository; `cursor` is where the next FetchBlockView(.., true) reads. */
  class FileSplitter {
    const file: seq<byte>
    const B: nat
    var cursor: nat

    constructor (file: seq<byte>, B: nat)
      ensures this.file == file && this.B == B
    {
      this.file, this.B, cursor := file, B, 0;
    }

    method FetchBlock(offset: nat) returns (view: seq<byte>)
      modifies this
      ensures view == BlockOf(file, B, offset) && cursor == offset + B
    {
      view, cursor := BlockOf(file, B, offset), offset + B;
    }

    method FetchNext() returns (view: seq<byte>)
      modifies this
      ensures view == BlockOf(file, B, old(cursor)) && cursor == old(cursor) + B
    {
      view := FetchBlock(cursor);
    }
  }

  /** FindNext: the index of the first newline at or after `l`, or npos. */
  method FindNext(s: seq<byte>, l: nat) returns (r: int)
    requires l <= |s|
    ensures r == NPOS <==> LineEnd(s, l) == |s|
    ensures r != NPOS ==> r == LineEnd(s, l) < |s|
    ensures r == -1 <==> forall k :: l <= k < |s| ==> s[k] != 10
    ensures r != -1 ==> l <= r < |s| && s[r] == 10 && forall k :: l <= k < r ==> s[k] != 10
  {
    r := l;
    while r < |s| && s[r] != NL
      invariant l <= r <= |s| && LineEnd(s, l) == LineEnd(s, r)
    {
      r := r + 1;
    }
    if r == |s| {
      r := NPOS;
    }
  }

  // ---------- the reader ----------

  function Executed<Val>(executor: seq<byte> -> seq<Val>, lines: seq<seq<byte>>): seq<Val> {
    if lines == [] then [] else executor(lines[0]) + Executed(executor, lines[1..])
  }

  lemma {:induction false} ExecutedConcat<Val>(executor: seq<byte> -> seq<Val>, a: seq<seq<byte>>, b: seq<seq<byte>>)
    ensures Executed(executor, a + b) == Executed(executor, a) + Executed(executor, b)
  {
    if a == [] {
      assert a + b == b;
    } else {
      assert (a + b)[1..] == a[1..] + b;
      calc {
        Executed(executor, a + b);
        executor(a[0]) + Executed(executor, a[1..] + b);
        { ExecutedConcat(executor, a[1..], b); }
        executor(a[0]) + (Executed(executor, a[1..]) + Executed(executor, b));
        Executed(executor, a) + Executed(executor, b);
      }
    }
  }

  /** What the executor makes of the lines from `i` on. */
  function Pending<Val>(executor: seq<byte> -> seq<Val>, s: seq<byte>, i: nat, last: int): seq<Val> {
    Executed(executor, LinesFrom(s, i, last))
  }

  lemma PendingStep<Val>(executor: seq<byte> -> seq<Val>, s: seq<byte>, i: nat, last: int)
    ensures i < |s| && i <= last ==>
              Pending(executor, s, i, last) == executor(Rest(s, i)) + Pending(executor, s, LineEnd(s, i) + 1, last)
  {
    if i < |s| && i <= last {
      var tail := LinesFrom(s, LineEnd(s, i) + 1, last);
      assert LinesFrom(s, i, last) == [Rest(s, i)] + tail;
      assert ([Rest(s, i)] + tail)[1..] == tail;
    }
  }

  /** The four ways a scan of the block can go on, and the two ways it need not start. */
  lemma NothingPending<Val>(executor: seq<byte> -> seq<Val>, s: seq<byte>, i: nat, last: int)
    ensures i >= |s| || i > last ==> Pending(executor, s, i, last) == []
  {
  }

  lemma NewlineLast<Val>(executor: seq<byte> -> seq<Val>, s: seq<byte>, o: nat, B: nat)
    requires B >= 1 && o < |s|
    ensures Pending(executor, s, o + |BlockOf(s, B, o)|, o + B)
         == if BlockOf(s, B, o + B) == [] then [] else executor(Rest(s, o + B))
  {
    hide LineEnd, Rest, Executed, LinesFrom, BlockOf;
    BlockIsSlice(s, B, o);
    BlockEmpty(s, B, o + B);
    PendingStep(executor, s, o + B, o + B);
    NothingPending(executor, s, o + |BlockOf(s, B, o)|, o + B);
    if o + B < |s| {
      NothingPending(executor, s, LineEnd(s, o + B) + 1, o + B);
    }
  }

  lemma LineOverruns<Val>(executor: seq<byte> -> seq<Val>, s: seq<byte>, o: nat, B: nat, l: nat)
    requires o < |s| && l < |BlockOf(s, B, o)| && LineEnd(BlockOf(s, B, o), l) == |BlockOf(s, B, o)|
    ensures Pending(executor, s, o + l, o + B) == executor(BlockOf(s, B, o)[l..] + Rest(s, o + B))
  {
    hide LineEnd, Rest, BlockOf, Executed, LinesFrom;
    BlockIsSlice(s, B, o);
    BeyondBlock(s, B, o, l);
    PendingStep(executor, s, o + l, o + B);
    NothingPending(executor, s, LineEnd(s, o + l) + 1, o + B);
  }

  lemma LineInside<Val>(executor: seq<byte> -> seq<Val>, s: seq<byte>, o: nat, B: nat, l: nat)
    requires o < |s| && l < |BlockOf(s, B, o)| && LineEnd(BlockOf(s, B, o), l) < |BlockOf(s, B, o)|
    ensures var e := LineEnd(BlockOf(s, B, o), l);
            Pending(executor, s, o + l, o + B)
              == executor(BlockOf(s, B, o)[l..e]) + Pending(executor, s, o + e + 1, o + B)
  {
    hide LineEnd, Rest, BlockOf, Executed, LinesFrom;
    BlockIsSlice(s, B, o);
    InsideBlock(s, B, o, l);
    PendingStep(executor, s, o + l, o + B);
  }

  lemma FirstStart<Val>(executor: seq<byte> -> seq<Val>, s: seq<byte>, o: nat, B: nat)
    requires o < |s| && BlockOf(s, B, o) != []
    requires o > 0 ==> LineEnd(BlockOf(s, B, o), 0) < |BlockOf(s, B, o)|
    ensures Executed(executor, BlockLines(s, o, B))
         == Pending(executor, s, if o == 0 then 0 else o + LineEnd(BlockOf(s, B, o), 0) + 1, o + B)
  {
    hide LineEnd, BlockOf;
    if o > 0 {
      InsideBlock(s, B, o, 0);
    }
  }

  lemma InsideOneLine<Val>(executor: seq<byte> -> seq<Val>, s: seq<byte>, o: nat, B: nat)
    requires 0 < o < |s| && BlockOf(s, B, o) != [] && LineEnd(BlockOf(s, B, o), 0) == |BlockOf(s, B, o)|
    ensures Executed(executor, BlockLines(s, o, B)) == []
  {
    hide LineEnd, BlockOf;
    BeyondBlock(s, B, o, 0);
  }

  lemma NoBlock<Val>(executor: seq<byte> -> seq<Val>, s: seq<byte>, o: nat, B: nat)
    requires o >= |s|
    ensures Executed(executor, BlockLines(s, o, B)) == []
  {
  }

  lemma BlockEmpty(file: seq<byte>, B: nat, o: nat)
    requires B >= 1
    ensures BlockOf(file, B, o) == [] <==> o >= |file|
    ensures o >= |file| ==> Rest(file, o) == []
  {
  }

  function BlocksAt(s: seq<byte>, offsets: seq<nat>, B: nat): (blocks: seq<seq<seq<byte>>>)
    ensures |blocks| == |offsets| && forall k :: 0 <= k < |offsets| ==> blocks[k] == BlockLines(s, offsets[k], B)
  {
    seq(|offsets|, k requires 0 <= k < |offsets| => BlockLines(s, offsets[k], B))
  }

  class LineInputFormat {
    const splitter: FileSplitter
    var l: int
    var r: int
    var lastPart: seq<byte>
    var buffer: seq<byte>

    constructor (splitter: FileSplitter)
      ensures this.splitter == splitter
    {
      this.splitter := splitter;
      l, r, lastPart, buffer := 0, 0, [], [];
    }

    method FetchNewBlock(offset: nat) returns (success: bool)
      modifies this`buffer, splitter
      ensures buffer == BlockOf(splitter.file, splitter.B, offset) && splitter.cursor == offset + splitter.B
      ensures success == (buffer != [])
    {
      buffer := splitter.FetchBlock(offset);
      success := buffer != [];
    }

    /** `buffer` holds the block just fetched; append to `lastPart` up to the first newline, fetching
        further blocks while there is none. */
    method HandleNextBlock(ghost from: nat)
      requires splitter.B >= 1
      requires buffer == BlockOf(splitter.file, splitter.B, from) && splitter.cursor == from + splitter.B
      modifies this`buffer, this`lastPart, splitter
      ensures lastPart == old(lastPart) + Rest(splitter.file, from)
    {
      hide *;
      ghost var file, o := splitter.file, from;
      BlockEmpty(file, splitter.B, o);
      while buffer != []
        invariant splitter.file == file && buffer == BlockOf(file, splitter.B, o) && splitter.cursor == o + splitter.B
        invariant buffer == [] <==> o >= |file|
        invariant buffer == [] ==> Rest(file, o) == []
        invariant lastPart + Rest(file, o) == old(lastPart) + Rest(file, from)
        decreases |file| - o
      {
        var e := FindNext(buffer, 0);
        if e == NPOS {
          BeyondBlock(file, splitter.B, o, 0);
          assert lastPart + (buffer[0..] + Rest(file, o + splitter.B)) == lastPart + buffer + Rest(file, o + splitter.B);
          lastPart := lastPart + buffer;
          buffer := splitter.FetchNext();
          o := o + splitter.B;
          BlockEmpty(file, splitter.B, o);
        } else {
          InsideBlock(file, splitter.B, o, 0);
          assert buffer[..e] == buffer[0..e];
          lastPart := lastPart + buffer[..e];
          return;
        }
      }
    }

    /** A newline ends the block: the first line of the next block, if there is one, starts there. */
    method NextLine<Val>(ghost o: nat, executor: seq<byte> -> seq<Val>) returns (ret: seq<Val>)
      requires splitter.B >= 1 && splitter.cursor == o + splitter.B
      modifies this, splitter
      ensures ret == if BlockOf(splitter.file, splitter.B, o + splitter.B) == [] then [] else executor(Rest(splitter.file, o + splitter.B))
    {
      hide *;
      buffer := splitter.FetchNext();
      if buffer == [] {
        return [];
      }
      lastPart := [];
      HandleNextBlock(o + splitter.B);
      assert lastPart == Rest(splitter.file, o + splitter.B);
      ret := executor(lastPart);
    }

    /** No newline behind `l`: the line goes on in the following blocks. */
    method Overrun<Val>(ghost o: nat, executor: seq<byte> -> seq<Val>) returns (ret: seq<Val>)
      requires splitter.B >= 1 && splitter.cursor == o + splitter.B && 0 <= l <= |buffer|
      modifies this, splitter
      ensures ret == executor(old(buffer[l..]) + Rest(splitter.file, o + splitter.B))
    {
      hide *;
      lastPart := buffer[l..];
      buffer := splitter.FetchNext();
      HandleNextBlock(o + splitter.B);
      ret := executor(lastPart);
    }

    /** The block was fetched and its first line starts behind the newline at `r`: hand over the lines that
        start in it, up to the one that ends or overruns it. */
    method ScanBlock<Val>(ghost o: nat, executor: seq<byte> -> seq<Val>) returns (ret: seq<Val>)
      requires splitter.B >= 1 && o < |splitter.file|
      requires buffer == BlockOf(splitter.file, splitter.B, o) && splitter.cursor == o + splitter.B
      requires buffer != [] && -1 <= r < |buffer|
      modifies this, splitter
      ensures ret == Pending(executor, splitter.file, old(o + r + 1), o + splitter.B)
    {
      hide *;
      ret := [];
      ghost var file, B, first := splitter.file, splitter.B, o + r + 1;
      assert ret + Pending(executor, file, first, o + B) == Pending(executor, file, first, o + B);
      while true
        invariant buffer == BlockOf(file, B, o) && |buffer| > 0 && splitter.cursor == o + B && splitter.file == file
        invariant -1 <= r < |buffer|
        invariant ret + Pending(executor, file, o + r + 1, o + B) == Pending(executor, file, first, o + B)
        decreases |buffer| - r
      {
        if r == |buffer| - 1 {
          NewlineLast(executor, file, o, B);
          var rest := NextLine(o, executor);
          ret := ret + rest;
          return;
        }
        l := r + 1;
        r := FindNext(buffer, l);
        if r == NPOS {
          LineOverruns(executor, file, o, B, l);
          var rest := Overrun(o, executor);
          ret := ret + rest;
          return;
        } else {
          LineInside(executor, file, o, B, l);
          var result := executor(buffer[l..r]);
          if |result| != 0 {
            ret := ret + result;
          }
        }
      }
    }

    /** The body of the loop over the block descriptors. */
    method ReadBlock<Val>(o: nat, executor: seq<byte> -> seq<Val>) returns (ret: seq<Val>)
      requires splitter.B >= 1
      modifies this, splitter
      ensures ret == Executed(executor, BlockLines(splitter.file, o, splitter.B))
    {
      hide *;
      ghost var file, B := splitter.file, splitter.B;
      BlockEmpty(file, B, o);
      var success := FetchNewBlock(o);
      if !success {
        NoBlock(executor, file, o, B);
        return [];
      }
      if o == 0 {
        r := -1;
      } else {
        r := FindNext(buffer, 0);
        if r == NPOS {
          InsideOneLine(executor, file, o, B);
          return [];
        }
      }
      FirstStart(executor, file, o, B);
      ret := ScanBlock(o, executor);
    }

    /** Read the blocks at `offsets`, in that order, and hand each line they are responsible for to
        the executor. */
    method ReadData<Val>(offsets: seq<nat>, executor: seq<byte> -> seq<Val>) returns (ret: seq<Val>)
      requires splitter.B >= 1
      modifies this, splitter
      ensures ret == Executed(executor, Flatten(BlocksAt(splitter.file, offsets, splitter.B)))
    {
      ret := [];
      ghost var file, B := splitter.file, splitter.B;
      for i := 0 to |offsets|
        invariant ret == Executed(executor, Flatten(BlocksAt(file, offsets[..i], B)))
      {
        var block := ReadBlock(offsets[i], executor);
        ret := ret + block;
        assert offsets[..i + 1] == offsets[..i] + [offsets[i]];
        assert BlocksAt(file, offsets[..i + 1], B) == BlocksAt(file, offsets[..i], B) + [BlockLines(file, offsets[i], B)];
        FlattenSnoc(BlocksAt(file, offsets[..i], B), BlockLines(file, offsets[i], B));
        ExecutedConcat(executor, Flatten(BlocksAt(file, offsets[..i], B)), BlockLines(file, offsets[i], B));
      }
      assert offsets[..|offsets|] == offsets;
    }
  }
}
