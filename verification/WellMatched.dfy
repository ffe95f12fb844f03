/** Well-matched text, defined by a grammar without any stack, and the scan with a stack of round,
    square and curly brackets that finds exactly its segments. */
module WellMatched {
  import opened Brackets

  // ---------- the grammar of well-matched text ----------

  datatype Balanced = Empty | Plain(c: char, rest: Balanced) | Group(open: char, inner: Balanced, rest: Balanced)

  ghost predicate Proper(t: Balanced) {
    match t
    case Empty => true
    case Plain(c, rest) => !IsOpen(c) && !IsClose(c) && Proper(rest)
    case Group(o, inner, rest) => IsOpen(o) && Proper(inner) && Proper(rest)
  }

  ghost function Text(t: Balanced): string
    requires Proper(t)
  {
    match t
    case Empty => []
    case Plain(c, rest) => [c] + Text(rest)
    case Group(o, inner, rest) => [o] + Text(inner) + [Closer(o)] + Text(rest)
  }

  ghost predicate IsGroup(s: string, o: char, t: Balanced) {
    IsOpen(o) && Proper(t) && s == [o] + Text(t) + [Closer(o)]
  }

  /** `s` is an opening bracket, well-matched text, and the closing bracket that belongs to it. */
  ghost predicate Segment(s: string) {
    exists o, t :: IsGroup(s, o, t)
  }

  ghost function Join(t: Balanced, u: Balanced): (r: Balanced)
    requires Proper(t) && Proper(u)
    ensures Proper(r) && Text(r) == Text(t) + Text(u)
  {
    match t
    case Empty => u
    case Plain(c, rest) => Plain(c, Join(rest, u))
    case Group(o, inner, rest) => Group(o, inner, Join(rest, u))
  }

  // ---------- scanning for round, square and curly brackets only ----------

  function Shift(r: Outcome, k: nat): Outcome {
    if r.Found? then Found(r.pos + k) else r
  }

  function Scan(s: string, stack: string): (r: Outcome)
    ensures r.Found? ==> 1 <= r.pos <= |s|
  {
    if s == [] then Open(stack)
    else if IsOpen(s[0]) then Shift(Scan(s[1..], stack + [s[0]]), 1)
    else if IsClose(s[0]) then
      if stack != [] && Matches(stack[|stack| - 1], s[0]) then
        if |stack| == 1 then Found(1) else Shift(Scan(s[1..], stack[..|stack| - 1]), 1)
      else Failed
    else Shift(Scan(s[1..], stack), 1)
  }

  function ScanBack(s: string, stack: string): (r: Outcome)
    ensures r.Found? ==> r.pos < |s|
  {
    if s == [] then Open(stack)
    else
      var n := |s| - 1;
      if IsClose(s[n]) then ScanBack(s[..n], stack + [s[n]])
      else if IsOpen(s[n]) then
        if stack != [] && Matches(s[n], stack[|stack| - 1]) then
          if |stack| == 1 then Found(n) else ScanBack(s[..n], stack[..|stack| - 1])
        else Failed
      else ScanBack(s[..n], stack)
  }

  function ScanStep(c: char, stack: string): Move {
    if IsOpen(c) then Go(1, stack + [c])
    else if IsClose(c) then
      if stack != [] && Matches(stack[|stack| - 1], c) then
        if |stack| == 1 then Stop(Found(1)) else Go(1, stack[..|stack| - 1])
      else Stop(Failed)
    else Go(1, stack)
  }

  lemma ScanUnfold(s: string, stack: string)
    requires s != []
    ensures Scan(s, stack) ==
              match ScanStep(s[0], stack)
              case Stop(r) => r
              case Go(_, st) => Shift(Scan(s[1..], st), 1)
  {
  }

  lemma ScanEmpty(s: string, stack: string)
    requires s == []
    ensures Scan(s, stack) == ScanBack(s, stack) == Open(stack)
  {
  }

  function ScanBackStep(c: char, n: nat, stack: string): Move {
    if IsClose(c) then Go(n - 1, stack + [c])
    else if IsOpen(c) then
      if stack != [] && Matches(c, stack[|stack| - 1]) then
        if |stack| == 1 then Stop(Found(n)) else Go(n - 1, stack[..|stack| - 1])
      else Stop(Failed)
    else Go(n - 1, stack)
  }

  lemma ScanBackUnfold(line: string, i: nat, stack: string)
    requires i < |line|
    ensures ScanBack(line[..i + 1], stack) ==
              match ScanBackStep(line[i], i, stack)
              case Stop(r) => r
              case Go(_, st) => ScanBack(line[..i], st)
  {
    assert line[..i + 1][..i] == line[..i];
  }

  lemma {:induction false} ScanConcat(a: string, b: string, stack: string)
    ensures var r := Scan(a, stack);
            Scan(a + b, stack) == if r.Open? then Shift(Scan(b, r.stack), |a|) else r
  {
    if a == [] {
      assert a + b == b;
    } else {
      assert (a + b)[1..] == a[1..] + b;
      if IsOpen(a[0]) {
        ScanConcat(a[1..], b, stack + [a[0]]);
      } else if IsClose(a[0]) {
        if stack != [] {
          ScanConcat(a[1..], b, stack[..|stack| - 1]);
        }
      } else {
        ScanConcat(a[1..], b, stack);
      }
    }
  }

  lemma {:induction false} ScanBackConcat(a: string, b: string, stack: string)
    ensures var r := ScanBack(b, stack);
            ScanBack(a + b, stack) == if r.Open? then ScanBack(a, r.stack) else Shift(r, |a|)
    decreases |b|
  {
    if b == [] {
      assert a + b == a;
    } else {
      var n := |b| - 1;
      assert (a + b)[..|a + b| - 1] == a + b[..n];
      if IsClose(b[n]) {
        ScanBackConcat(a, b[..n], stack + [b[n]]);
      } else if IsOpen(b[n]) {
        if stack != [] {
          ScanBackConcat(a, b[..n], stack[..|stack| - 1]);
        }
      } else {
        ScanBackConcat(a, b[..n], stack);
      }
    }
  }

  /** Well-matched text leaves a non-empty stack as it was, in both directions. */
  lemma {:induction false} ScanText(t: Balanced, stack: string)
    requires Proper(t) && stack != []
    ensures Scan(Text(t), stack) == Open(stack)
  {
    match t
    case Empty =>
    case Plain(c, rest) =>
      ScanText(rest, stack);
      assert Text(t)[1..] == Text(rest);
    case Group(o, inner, rest) =>
      ScanText(inner, stack + [o]);
      ScanText(rest, stack);
      ScanGroup(o, Text(inner), Text(rest), stack);
  }

  lemma ScanGroup(o: char, x: string, y: string, stack: string)
    requires IsOpen(o) && stack != []
    requires Scan(x, stack + [o]) == Open(stack + [o]) && Scan(y, stack) == Open(stack)
    ensures Scan([o] + x + [Closer(o)] + y, stack) == Open(stack)
  {
    var s, tail := [o] + x + [Closer(o)] + y, [Closer(o)] + y;
    assert s[1..] == x + tail && s[0] == o;
    ScanConcat(x, tail, stack + [o]);
    assert tail[1..] == y && (stack + [o])[..|stack|] == stack;
  }

  lemma {:induction false} ScanBackText(t: Balanced, stack: string)
    requires Proper(t) && stack != []
    ensures ScanBack(Text(t), stack) == Open(stack)
  {
    match t
    case Empty =>
    case Plain(c, rest) =>
      ScanBackText(rest, stack);
      ScanBackConcat([c], Text(rest), stack);
      assert [c][..0] == [];
    case Group(o, inner, rest) =>
      ScanBackText(rest, stack);
      ScanBackText(inner, stack + [Closer(o)]);
      var front := [o] + Text(inner) + [Closer(o)];
      assert Text(t) == front + Text(rest);
      ScanBackConcat(front, Text(rest), stack);
      assert front[..|front| - 1] == [o] + Text(inner);
      ScanBackConcat([o], Text(inner), stack + [Closer(o)]);
      assert [o][..0] == [] && (stack + [Closer(o)])[..|stack|] == stack;
  }

  // ---------- a scan that finds something has read well-matched text ----------

  predicate OpenStack(stack: string) {
    forall i :: 0 <= i < |stack| ==> IsOpen(stack[i])
  }

  predicate CloseStack(stack: string) {
    forall i :: 0 <= i < |stack| ==> IsClose(stack[i])
  }

  function Opener(c: char): (o: char)
    requires IsClose(c)
    ensures IsOpen(o) && Closer(o) == c
  {
    if c == ')' then '(' else if c == ']' then '[' else '{'
  }

  /** The first j characters of `s` are the text `t`, then comes the closer of `o`. */
  ghost predicate ReadsTo(s: string, t: Balanced, o: char, j: nat) {
    Proper(t) && IsOpen(o) && j < |s| && s[..j] == Text(t) && s[j] == Closer(o)
  }

  /** A successful scan first reads well-matched text up to the closer of the innermost bracket,
      then goes on with the brackets outside it. */
  lemma {:induction false} ScanPeels(s: string, outer: string, o: char) returns (t: Balanced, j: nat)
    requires IsOpen(o) && OpenStack(outer) && Scan(s, outer + [o]).Found?
    ensures j < |s| && ReadsTo(s, t, o, j)
    ensures var k := Scan(s, outer + [o]).pos;
            if outer == [] then k == j + 1 else k > j + 1 && Scan(s[j + 1..], outer) == Found(k - j - 1)
    decreases |s|
  {
    hide Scan, Text, ReadsTo;
    var stack := outer + [o];
    if s == [] {
      ScanEmpty(s, stack);
    }
    ScanUnfold(s, stack);
    var c, rest := s[0], s[1..];
    assert stack[..|stack| - 1] == outer;
    if IsOpen(c) {
      var t1, j1 := ScanPeels(rest, stack, c);
      var t2, j2 := ScanPeels(rest[j1 + 1..], outer, o);
      t, j := Group(c, t1, t2), j1 + j2 + 2;
      GroupReads(s, c, t1, j1, t2, j2, o);
      assert rest[j1 + 1..][j2 + 1..] == s[j + 1..];
    } else if IsClose(c) {
      t, j := Empty, 0;
      EmptyReads(s, o);
    } else {
      var t1, j1 := ScanPeels(rest, outer, o);
      t, j := Plain(c, t1), j1 + 1;
      PlainReads(s, c, t1, j1, o);
      assert rest[j1 + 1..] == s[j + 1..];
    }
  }

  lemma EmptyReads(s: string, o: char)
    requires s != [] && IsOpen(o) && s[0] == Closer(o)
    ensures ReadsTo(s, Empty, o, 0)
  {
  }

  lemma PlainReads(s: string, c: char, t1: Balanced, j1: nat, o: char)
    requires s != [] && s[0] == c && !IsOpen(c) && !IsClose(c) && ReadsTo(s[1..], t1, o, j1)
    ensures ReadsTo(s, Plain(c, t1), o, j1 + 1)
  {
    assert s[..j1 + 1] == [c] + s[1..][..j1];
  }

  lemma GroupReads(s: string, c: char, t1: Balanced, j1: nat, t2: Balanced, j2: nat, o: char)
    requires s != [] && s[0] == c && ReadsTo(s[1..], t1, c, j1)
    requires j1 + 1 < |s| && ReadsTo(s[1..][j1 + 1..], t2, o, j2)
    ensures ReadsTo(s, Group(c, t1, t2), o, j1 + j2 + 2)
  {
    hide Text;
    assert s[..j1 + j2 + 2] == [c] + s[1..][..j1] + [Closer(c)] + s[1..][j1 + 1..][..j2];
    TextOfGroup(c, t1, t2);
  }

  lemma TextOfGroup(c: char, t1: Balanced, t2: Balanced)
    requires IsOpen(c) && Proper(t1) && Proper(t2)
    ensures Text(Group(c, t1, t2)) == [c] + Text(t1) + [Closer(c)] + Text(t2)
    ensures Proper(Group(c, t1, t2))
  {
  }

  /** `s` ends in the opener of `c` at j followed by the text `t`. */
  ghost predicate ReadsBackTo(s: string, t: Balanced, c: char, j: nat) {
    Proper(t) && IsClose(c) && j < |s| && s[j] == Opener(c) && s[j + 1..] == Text(t)
  }

  /** The successful scan of `s` goes on, left of j, with the brackets outside the innermost one. */
  ghost predicate LeavesBack(s: string, outer: string, c: char, j: nat) {
    var r := ScanBack(s, outer + [c]);
    j < |s| && r.Found? && if outer == [] then r.pos == j else ScanBack(s[..j], outer) == r
  }

  lemma {:induction false} ScanBackPeels(s: string, outer: string, c: char) returns (t: Balanced, j: nat)
    requires IsClose(c) && CloseStack(outer) && ScanBack(s, outer + [c]).Found?
    ensures j < |s| && ReadsBackTo(s, t, c, j) && LeavesBack(s, outer, c, j)
    decreases |s|
  {
    hide ScanBack, Text, ReadsBackTo, LeavesBack, Matches, Opener, CloseStack;
    BackStep(s, outer, c);
    var m := |s| - 1;
    var d, front := s[m], s[..m];
    if IsClose(d) {
      var t1, j1 := ScanBackPeels(front, outer + [c], d);
      InnerLeaves(front, outer, c, d, j1);
      var t2, j2 := ScanBackPeels(front[..j1], outer, c);
      t := GroupReadsBack(s, d, t1, j1, t2, j2, c);
      j := j2;
      GroupLeaves(s, outer, d, c, j1, j2);
    } else if IsOpen(d) {
      t, j := Empty, m;
      EmptyReadsBack(s, c);
    } else {
      var t1, j1 := ScanBackPeels(front, outer, c);
      t := PlainReadsBack(s, d, t1, j1, c);
      j := j1;
      PlainLeaves(s, outer, c, j1);
    }
  }

  /** What the last character of a successful backward scan does. */
  lemma BackStep(s: string, outer: string, c: char)
    requires IsClose(c) && CloseStack(outer) && ScanBack(s, outer + [c]).Found?
    ensures CloseStack(outer + [c]) && s != []
    ensures var m := |s| - 1;
            var d, front, r := s[m], s[..m], ScanBack(s, outer + [c]);
            if IsClose(d) then ScanBack(front, outer + [c] + [d]) == r
            else if IsOpen(d) then Matches(d, c) && LeavesBack(s, outer, c, m)
            else ScanBack(front, outer + [c]) == r
  {
    assert (outer + [c])[..|outer|] == outer;
  }

  lemma InnerLeaves(front: string, outer: string, c: char, d: char, j1: nat)
    requires LeavesBack(front, outer + [c], d, j1)
    ensures j1 < |front| && ScanBack(front[..j1], outer + [c]).Found?
  {
  }

  lemma GroupLeaves(s: string, outer: string, d: char, c: char, j1: nat, j2: nat)
    requires s != [] && s[|s| - 1] == d && IsClose(d) && j2 < j1 < |s| - 1
    requires LeavesBack(s[..|s| - 1], outer + [c], d, j1) && LeavesBack(s[..|s| - 1][..j1], outer, c, j2)
    ensures LeavesBack(s, outer, c, j2)
  {
    hide ScanBack;
    ScanBackUnfold(s, |s| - 1, outer + [c]);
    assert s[..|s|] == s;
    TakeTake(s, |s| - 1, j1);
    TakeTake(s, j1, j2);
  }

  lemma PlainLeaves(s: string, outer: string, c: char, j1: nat)
    requires s != [] && !IsOpen(s[|s| - 1]) && !IsClose(s[|s| - 1])
    requires j1 < |s| - 1 && LeavesBack(s[..|s| - 1], outer, c, j1)
    ensures LeavesBack(s, outer, c, j1)
  {
    hide ScanBack;
    ScanBackUnfold(s, |s| - 1, outer + [c]);
    assert s[..|s|] == s;
    TakeTake(s, |s| - 1, j1);
  }

  lemma TakeTake(s: string, m: nat, j: nat)
    requires j <= m <= |s|
    ensures s[..m][..j] == s[..j]
  {
  }

  lemma EmptyReadsBack(s: string, c: char)
    requires s != [] && Matches(s[|s| - 1], c)
    ensures ReadsBackTo(s, Empty, c, |s| - 1)
  {
  }

  lemma PlainReadsBack(s: string, d: char, t1: Balanced, j1: nat, c: char) returns (t: Balanced)
    requires s != [] && s[|s| - 1] == d && !IsOpen(d) && !IsClose(d)
    requires j1 < |s| - 1 && ReadsBackTo(s[..|s| - 1], t1, c, j1)
    ensures ReadsBackTo(s, t, c, j1)
  {
    hide Text;
    TextOfEmpty();
    TextOfPlain(d);
    t := Join(t1, Plain(d, Empty));
    assert s[j1 + 1..] == s[..|s| - 1][j1 + 1..] + [d];
  }

  lemma GroupReadsBack(s: string, d: char, t1: Balanced, j1: nat, t2: Balanced, j2: nat, c: char)
    returns (t: Balanced)
    requires IsClose(d) && s != [] && s[|s| - 1] == d && j2 < j1 < |s| - 1
    requires ReadsBackTo(s[..|s| - 1], t1, d, j1) && ReadsBackTo(s[..|s| - 1][..j1], t2, c, j2)
    ensures ReadsBackTo(s, t, c, j2)
  {
    hide Text;
    var front, g := s[..|s| - 1], Group(Opener(d), t1, Empty);
    TextOfGroup(Opener(d), t1, Empty);
    TextOfEmpty();
    assert Text(g) == [front[j1]] + front[j1 + 1..] + [d] + [];
    t := Join(t2, g);
    assert s[j2 + 1..] == Text(t2) + Text(g);
  }

  lemma TextOfPlain(d: char)
    requires !IsOpen(d) && !IsClose(d)
    ensures Text(Plain(d, Empty)) == [d]
  {
    assert Text(Empty) == [] && [d] + [] == [d];
  }

  lemma TextOfEmpty()
    ensures Text(Empty) == []
  {
  }

  // ---------- scans find exactly the segments ----------

  lemma ScanFindsSegment(s: string)
    requires s != [] && IsOpen(s[0]) && Scan(s, []).Found?
    ensures Segment(s[..Scan(s, []).pos])
  {
    var k := Scan(s, []).pos;
    assert [] + [s[0]] == [s[0]];
    var t, j := ScanPeels(s[1..], [], s[0]);
    hide Text, Scan;
    assert s[..k] == [s[0]] + s[1..][..j] + [s[1..][j]];
    assert IsGroup(s[..k], s[0], t);
  }

  lemma ScanBackFindsSegment(s: string)
    requires s != [] && IsClose(s[|s| - 1]) && ScanBack(s, []).Found?
    ensures Segment(s[ScanBack(s, []).pos..])
  {
    var k, m := ScanBack(s, []).pos, |s| - 1;
    var c := s[m];
    assert [] + [c] == [c];
    var t, j := ScanBackPeels(s[..m], [], c);
    assert s[k..] == [s[..m][j]] + s[..m][j + 1..] + [c];
    assert IsGroup(s[k..], Opener(c), t);
  }

  /** From an opening bracket, scanning finds k exactly when the first k characters are a segment. */
  lemma ScanExact(s: string, k: nat)
    requires s != [] && IsOpen(s[0]) && k <= |s|
    ensures Scan(s, []) == Found(k) <==> Segment(s[..k])
  {
    hide Scan, IsGroup;
    if Scan(s, []).Found? {
      ScanFindsSegment(s);
    }
    if Segment(s[..k]) {
      var o, t :| IsGroup(s[..k], o, t);
      SegmentScans(s[..k], o, t, s[k..]);
      assert s == s[..k] + s[k..];
    }
  }

  /** And from a closing bracket, leftwards. */
  lemma ScanBackExact(s: string, k: nat)
    requires s != [] && IsClose(s[|s| - 1]) && k < |s|
    ensures ScanBack(s, []) == Found(k) <==> Segment(s[k..])
  {
    hide ScanBack, IsGroup;
    if ScanBack(s, []).Found? {
      ScanBackFindsSegment(s);
    }
    if Segment(s[k..]) {
      var o, t :| IsGroup(s[k..], o, t);
      SegmentScansBack(s[k..], o, t, s[..k]);
      assert s == s[..k] + s[k..];
    }
  }

  lemma SegmentScans(s: string, o: char, t: Balanced, rest: string)
    requires IsGroup(s, o, t)
    ensures Scan(s + rest, []) == Found(|s|)
  {
    hide Scan, Text;
    var whole, inner, tail := s + rest, Text(t), [Closer(o)] + rest;
    assert whole[1..] == inner + tail && whole[0] == o && [] + [o] == [o];
    ScanUnfold(whole, []);
    ScanText(t, [o]);
    ScanConcat(inner, tail, [o]);
    ScanUnfold(tail, [o]);
  }

  lemma SegmentScansBack(s: string, o: char, t: Balanced, front: string)
    requires IsGroup(s, o, t)
    ensures ScanBack(front + s, []) == Found(|front|)
  {
    hide ScanBack, Text;
    var whole, inner, c, head := front + s, Text(t), Closer(o), front + [o];
    var m := |whole| - 1;
    assert whole[..m + 1] == whole && whole[..m] == head + inner && whole[m] == c && [] + [c] == [c];
    ScanBackUnfold(whole, m, []);
    ScanBackText(t, [c]);
    ScanBackConcat(head, inner, [c]);
    assert head[..|front| + 1] == head;
    ScanBackUnfold(head, |front|, [c]);
  }
}
