/** What the backward matcher of scripts/cpplint.py finds from a template bracket: read from right to left,
    it is the forward matcher on marks of its own, so it finds the same template argument lists. */
module AnglesBack {
  import opened Angles
  import opened Brackets
  import opened Characters
  import opened Matching
  import opened Sequences
  import opened WellMatched

  // ---------- reading from right to left ----------

  function Flip(c: char): (d: char)
    ensures Idle(c) ==> Idle(d) || c == '>'
  {
    match c
    case '(' => ')'
    case ')' => '('
    case '[' => ']'
    case ']' => '['
    case '{' => '}'
    case '}' => '{'
    case '<' => '>'
    case '>' => '<'
    case _ => c
  }

  /** A stack as the other matcher sees it. */
  function FlipAll(s: string): (r: string)
    ensures |r| == |s| && forall i :: 0 <= i < |s| ==> r[i] == Flip(s[i])
  {
    seq(|s|, i requires 0 <= i < |s| => Flip(s[i]))
  }

  function Mirror(s: string): (r: string)
    ensures |r| == |s| && forall i :: 0 <= i < |s| ==> r[i] == Flip(s[|s| - 1 - i])
  {
    seq(|s|, i requires 0 <= i < |s| => Flip(s[|s| - 1 - i]))
  }

  lemma MirrorMirror(s: string)
    ensures Mirror(Mirror(s)) == s
  {
  }

  lemma FlipTwice(s: string)
    ensures FlipAll(FlipAll(s)) == s
  {
  }

  lemma MirrorConcat(a: string, b: string)
    ensures Mirror(a + b) == Mirror(b) + Mirror(a)
  {
  }

  lemma FlipPush(s: string, c: char)
    ensures FlipAll(s + [c]) == FlipAll(s) + [Flip(c)]
  {
  }

  lemma FlipTake(s: string, n: nat)
    requires n <= |s|
    ensures FlipAll(s[..n]) == FlipAll(s)[..n]
  {
  }

  lemma {:induction false} FlipPop(stack: string)
    ensures PopAngles(FlipAll(stack), '<') == FlipAll(PopAngles(stack, '>'))
    decreases |stack|
  {
    if stack != [] && stack[|stack| - 1] == '>' {
      FlipTake(stack, |stack| - 1);
      FlipPop(stack[..|stack| - 1]);
    }
  }

  // ---------- the marks ----------

  /** How many `<` follow one another from position i on. */
  function LessRun(line: string, i: nat): nat
    decreases |line| - i
  {
    if i < |line| && line[i] == '<' then 1 + LessRun(line, i + 1) else 0
  }

  /** What the backward matcher takes character i for: of a run of `<` the shift operators are taken off its end,
      so that at most its first character is left. */
  ghost function BackwardMark(line: string, i: nat): char
    requires i < |line|
  {
    if line[i] == '<' then
      if (i == 0 || line[i - 1] != '<') && LessRun(line, i) % 2 == 1 then '<' else ' '
    else if line[i] == '>' then
      if i > 0 && (line[i - 1] == '-' || GreaterEqual(line, i) || EndsInOperator(line[..i])) then ' ' else '>'
    else if line[i] in "()[]{};" then line[i]
    else ' '
  }

  /** A comparison with white space around it. */
  predicate GreaterEqual(line: string, i: nat)
    requires 0 < i < |line|
  {
    i + 2 < |line| && IsSpace(line[i - 1]) && line[i..i + 2] == ">=" && IsSpace(line[i + 2])
  }

  ghost function BackwardMarks(line: string): (s: string)
    ensures |s| == |line| && forall i :: 0 <= i < |line| ==> s[i] == BackwardMark(line, i)
  {
    seq(|line|, i requires 0 <= i < |line| => BackwardMark(line, i))
  }

  lemma GreaterEqualShape(line: string, i: nat)
    requires 0 < i < |line| && line[i] == '>'
    ensures GreaterEqualAt(line, i) <==> GreaterEqual(line, i)
  {
    if i + 2 < |line| {
      assert line[i..i + 2] == [line[i], line[i + 1]];
    }
  }

  /** Positions at which the matcher stops on its way: not the first half of a shift operator. */
  predicate Visited(line: string, i: int)
    requires -1 <= i < |line|
  {
    i == -1 || line[i] != '<' || LessRun(line, i) % 2 == 1
  }

  /** A test that skips the character before it skips no bracket. */
  lemma SkippedIsIdle(line: string, i: nat)
    requires 0 < i < |line| && line[i] == '>'
    requires line[i - 1] == '-' || GreaterEqualAt(line, i) || OperatorBefore(line, i)
    ensures BackwardMark(line, i - 1) == ' ' && line[i - 1] != '<'
  {
    if OperatorBefore(line, i) && !IsSpace(line[i - 1]) {
      assert line[i - 8..i][7] == line[i - 1] == 'r';
    }
  }

  /** The matcher takes the character before i along with it. */
  predicate Skips(line: string, i: nat)
    requires i < |line|
  {
    i > 0 && if line[i] == '<' then line[i - 1] == '<'
             else line[i] == '>' && (line[i - 1] == '-' || GreaterEqualAt(line, i) || OperatorBefore(line, i))
  }

  lemma Lands(line: string, i: nat)
    requires i < |line| && Visited(line, i)
    ensures if Skips(line, i) then
              i > 0 && BackwardMark(line, i) == BackwardMark(line, i - 1) == ' ' && Visited(line, i - 2)
            else
              && Visited(line, i - 1)
              && BackwardMark(line, i) == if line[i] in "()[]{};<>" then line[i] else ' '
  {
    hide OperatorBefore, EndsInOperator, GreaterEqualAt, GreaterEqual;
    OperatorShape(line, i);
    if i > 0 {
      assert LessRun(line, i - 1) == if line[i - 1] == '<' then 1 + LessRun(line, i) else 0;
    }
    if i > 1 {
      assert LessRun(line, i - 2) == if line[i - 2] == '<' then 1 + LessRun(line, i - 1) else 0;
    }
    if i > 0 && line[i] == '>' {
      GreaterEqualShape(line, i);
      if Skips(line, i) {
        SkippedIsIdle(line, i);
      }
    }
  }

  /** On characters that are brackets or semicolons the two matchers do the same, seen in a mirror. */
  lemma StepFlips(line: string, i: nat, stack: string)
    requires i < |line| && !Skips(line, i)
    ensures FlipsTo(MarkStep(Flip(if line[i] in "()[]{};<>" then line[i] else ' '), FlipAll(stack)),
                    BackwardStep(line, i, stack), i)
  {
    hide BackwardStep, MarkStep, FlipAll, FlipsTo;
    if IsOpen(line[i]) || line[i] == ';' {
      PopFlips(line, i, stack);
    } else if line[i] == '<' {
      TopFlips(line, i, stack);
    } else {
      PushFlips(line, i, stack);
    }
  }

  predicate FlipsTo(m: Move, b: Move, i: nat) {
    match m
    case Stop(r) => (r == Found(1) && b == Stop(Found(i))) || (r == Failed && b == Stop(Failed))
    case Go(_, st) => b == Go(i - 1, FlipAll(st))
  }

  lemma PushFlips(line: string, i: nat, stack: string)
    requires i < |line| && !Skips(line, i) && !IsOpen(line[i]) && line[i] != ';' && line[i] != '<'
    ensures FlipsTo(MarkStep(Flip(if line[i] in "()[]{};<>" then line[i] else ' '), FlipAll(stack)),
                    BackwardStep(line, i, stack), i)
  {
    hide OperatorBefore, GreaterEqualAt, FlipAll;
    FlipTwice(stack);
    FlipPush(FlipAll(stack), Flip(line[i]));
  }

  lemma TopFlips(line: string, i: nat, stack: string)
    requires i < |line| && !Skips(line, i) && line[i] == '<'
    ensures FlipsTo(MarkStep('>', FlipAll(stack)), BackwardStep(line, i, stack), i)
  {
    hide OperatorBefore, GreaterEqualAt, FlipAll;
    FlipTwice(stack);
    if stack != [] {
      FlipTake(FlipAll(stack), |stack| - 1);
    }
  }

  lemma PopFlips(line: string, i: nat, stack: string)
    requires i < |line| && (IsOpen(line[i]) || line[i] == ';')
    ensures FlipsTo(MarkStep(Flip(line[i]), FlipAll(stack)), BackwardStep(line, i, stack), i)
  {
    hide OperatorBefore, GreaterEqualAt, PopAngles, FlipAll;
    FlipPop(stack);
    var p := PopAngles(stack, '>');
    FlipTwice(p);
    if p != [] {
      FlipTake(FlipAll(p), |p| - 1);
    }
  }

  lemma SkipStep(line: string, i: nat, stack: string)
    requires i < |line| && Skips(line, i)
    ensures BackwardStep(line, i, stack) == Go(i - 2, stack)
  {
    hide OperatorBefore, GreaterEqualAt;
  }

  lemma IdleStep(stack: string)
    ensures MarkStep(' ', stack) == Go(1, stack)
  {
  }

  /** What is found k marks from the right end of n is found at n - k. */
  function FromRight(r: Outcome, n: nat): Outcome
    requires r.Found? ==> r.pos <= n
  {
    match r
    case Found(k) => Found(n - k)
    case Failed => Failed
    case Open(st) => Open(FlipAll(st))
  }

  lemma MirrorSnoc(s: string, n: nat)
    requires n < |s|
    ensures Mirror(s[..n + 1])[1..] == Mirror(s[..n]) && Mirror(s[..n + 1])[0] == Flip(s[n])
  {
  }

  /** The matcher on a line is the forward scan of its marks in a mirror. */
  lemma {:induction false} BackwardIsMarkScan(line: string, i: int, stack: string)
    requires -1 <= i < |line| && Visited(line, i)
    ensures Backward(line, i, stack) ==
              FromRight(MarkScan(Mirror(BackwardMarks(line)[..i + 1]), FlipAll(stack)), i + 1)
    decreases i + 1
  {
    hide MarkScan, MarkStep, BackwardStep, BackwardMark, Skips, Visited, Mirror, FlipAll;
    var s, e := BackwardMarks(line), FlipAll(stack);
    if i >= 0 {
      Lands(line, i);
      MirrorSnoc(s, i);
      MarkScanUnfold(Mirror(s[..i + 1]), e);
      if Skips(line, i) {
        SkipStep(line, i, stack);
        IdleStep(e);
        MirrorSnoc(s, i - 1);
        MarkScanUnfold(Mirror(s[..i]), e);
        BackwardIsMarkScan(line, i - 2, stack);
      } else {
        StepFlips(line, i, stack);
        var m := BackwardStep(line, i, stack);
        if m.Go? {
          FlipTwice(MarkStep(Flip(s[i]), e).stack);
          BackwardIsMarkScan(line, i - 1, m.stack);
        }
      }
    } else {
      FlipTwice(stack);
      ScanNothing(Mirror(s[..0]), e);
    }
  }

  lemma ScanNothing(s: string, stack: string)
    requires s == []
    ensures MarkScan(s, stack) == Open(stack)
  {
  }

  /** From the end of a line, or from any character but `<`. */
  lemma BackwardMarksScan(line: string, i: int, stack: string)
    requires -1 <= i < |line| && (i == |line| - 1 || (i >= 0 && line[i] != '<'))
    ensures Backward(line, i, stack) ==
              FromRight(MarkScan(Mirror(BackwardMarks(line)[..i + 1]), FlipAll(stack)), i + 1)
  {
    hide Backward, MarkScan, Mirror, BackwardMarks;
    if i >= 0 && line[i] == '<' {
      assert LessRun(line, i + 1) == 0;
    }
    BackwardIsMarkScan(line, i, stack);
  }

  // ---------- across lines ----------

  ghost function Backwards(lines: seq<string>): (marks: seq<string>)
    ensures |marks| == |lines|
    ensures forall k :: 0 <= k < |lines| ==> marks[k] == BackwardMarks(lines[k]) && |marks[k]| == |lines[k]|
  {
    seq(|lines|, k requires 0 <= k < |lines| => BackwardMarks(lines[k]))
  }

  lemma {:induction false} OpenFromMarks(lines: seq<string>, m: nat, stack: string, l: nat, p: nat)
    requires l < m <= |lines| && p < |lines[l]| && stack != []
    ensures var marks := Backwards(lines);
            var r := MarkScan(Mirror(Flatten(marks[..m])), FlipAll(stack));
            OpenFrom(lines, m, stack) == At(l, p) <==>
              r.Found? && r.pos + |Flatten(marks[..l])| + p == |Flatten(marks[..m])|
    decreases m
  {
    hide MarkScan, Backward, BackwardMarks, Mirror, Flatten, FlipAll;
    var marks := Backwards(lines);
    var line, front := marks[m - 1], marks[..m - 1];
    BackwardMarksScan(lines[m - 1], |lines[m - 1]| - 1, stack);
    assert line[..|line|] == line;
    assert front + [line] == marks[..m];
    FlattenSnoc(front, line);
    MirrorConcat(Flatten(front), line);
    MarkScanConcat(Mirror(line), Mirror(Flatten(front)), FlipAll(stack));
    StackStays(Mirror(line), FlipAll(stack));
    var r := MarkScan(Mirror(line), FlipAll(stack));
    if r.Open? {
      FlipTwice(r.stack);
    }
    if l < m - 1 {
      FlattenGrows(marks, l, m - 1);
      if r.Open? {
        OpenFromMarks(lines, m - 1, FlipAll(r.stack), l, p);
      }
    } else if r.Open? {
      OpenFromEarlier(lines, m - 1, FlipAll(r.stack));
    }
  }

  /** A search that ends the line with something to open, or finds a beginning. */
  lemma OpenMarks(lines: seq<string>, l: nat, p: nat, m: nat, q: nat)
    requires m < |lines| && q < |lines[m]| && lines[m][q] == '>'
    requires l <= m && p < |lines[l]| && (l == m ==> p <= q)
    requires var r := MarkScan(Mirror(Backwards(lines)[m][..q + 1]), []); r.Open? ==> r.stack != []
    ensures var marks := Backwards(lines);
            ReverseClose(lines, m, q) == At(l, p) <==>
              MarkScan(Mirror(Flatten(marks[..m]) + marks[m][..q + 1]), []) == Found(|Between(marks, l, p, m, q + 1)|)
  {
    hide MarkScan, Backward, BackwardMarks, Mirror, OpenFrom, Flatten;
    var marks := Backwards(lines);
    var front, last := Flatten(marks[..m]), marks[m][..q + 1];
    BackwardMarksScan(lines[m], q, []);
    assert FlipAll([]) == [];
    MirrorConcat(front, last);
    MarkScanConcat(Mirror(last), Mirror(front), []);
    var r := MarkScan(Mirror(last), []);
    if r.Open? {
      FlipTwice(r.stack);
    }
    if l == m {
      if r.Open? {
        OpenFromEarlier(lines, m, FlipAll(r.stack));
      }
    } else {
      BetweenLength(marks, l, p, m, q);
      if r.Open? {
        OpenFromMarks(lines, m, FlipAll(r.stack), l, p);
      }
    }
  }

  lemma BetweenLength(marks: seq<string>, l: nat, p: nat, m: nat, q: nat)
    requires l < m < |marks| && p < |marks[l]| && q < |marks[m]|
    ensures |Between(marks, l, p, m, q + 1)| == |Flatten(marks[..m])| - |Flatten(marks[..l])| - p + q + 1
    ensures |Between(marks, l, p, m, q + 1)| > q + 1
  {
    hide Flatten, Between;
    FlattenGrows(marks, l, m);
    RestOfPrefix(marks, l, p, m, q);
  }

  // ---------- the grammar reads the same in a mirror ----------

  /** No mark of a backward scan takes a template bracket back. */
  predicate NoShift(s: string) { SHIFT !in s }

  ghost function Turned(t: Balanced): (r: Balanced)
    requires Proper(t)
    ensures Proper(r)
  {
    match t
    case Empty => Empty
    case Plain(c, rest) => Join(Turned(rest), Plain(Flip(c), Empty))
    case Group(o, inner, rest) => Join(Turned(rest), Group(o, Turned(inner), Empty))
  }

  lemma {:induction false} TurnedText(t: Balanced)
    requires Proper(t)
    ensures Text(Turned(t)) == Mirror(Text(t))
  {
    hide Mirror;
    TextOfEmpty();
    match t
    case Empty =>
    case Plain(c, rest) =>
      TurnedText(rest);
      MirrorConcat([c], Text(rest));
      assert Mirror([c]) == [Flip(c)];
      TextOfPlain(Flip(c));
    case Group(o, inner, rest) =>
      TurnedText(inner);
      TurnedText(rest);
      TextOfGroup(o, Turned(inner), Empty);
      MirrorGroup(o, Text(inner), Text(rest));
  }

  lemma MirrorGroup(o: char, inner: string, rest: string)
    requires IsOpen(o)
    ensures Mirror([o] + inner + [Closer(o)] + rest) == Mirror(rest) + ([o] + Mirror(inner) + [Closer(o)] + [])
  {
    hide Mirror;
    MirrorConcat([o] + inner + [Closer(o)], rest);
    MirrorConcat([o] + inner, [Closer(o)]);
    MirrorConcat([o], inner);
    assert Mirror([o]) == [Closer(o)] && Mirror([Closer(o)]) == [o];
    assert [o] + (Mirror(inner) + [Closer(o)]) == [o] + Mirror(inner) + [Closer(o)] + [];
  }

  lemma SegmentTurns(s: string)
    requires Segment(s)
    ensures Segment(Mirror(s))
  {
    hide Text, Mirror;
    var o, t :| IsGroup(s, o, t);
    TurnedText(t);
    MirrorGroup(o, Text(t), []);
    assert [o] + Text(t) + [Closer(o)] + [] == s;
    assert Mirror([]) == [];
    assert [] + ([o] + Mirror(Text(t)) + [Closer(o)] + []) == [o] + Mirror(Text(t)) + [Closer(o)];
    assert IsGroup(Mirror(s), o, Turned(t));
  }

  ghost function Append(t: Angled, u: Angled): (r: Angled)
    ensures Shown(r) == Shown(t) + Shown(u)
    ensures Fits(t) && Fits(u) ==> Fits(r)
  {
    match t
    case Done => u
    case Other(c, rest) => Other(c, Append(rest, u))
    case Bracketed(text, rest) => Bracketed(text, Append(rest, u))
    case Nested(inner, closer, rest) => Nested(inner, closer, Append(rest, u))
  }

  lemma {:induction false} ListTurns(t: Angled) returns (r: Angled)
    requires Fits(t) && NoShift(Shown(t))
    ensures Fits(r) && Shown(r) == Mirror(Shown(t))
  {
    hide Mirror, Segment;
    match t
    case Done =>
      r := Done;
      assert Mirror("") == "";
    case Other(c, rest) =>
      assert Shown(t)[0] == c && Shown(t)[1..] == Shown(rest);
      var r1 := ListTurns(rest);
      ShownOther(c);
      r := Append(r1, Other(c, Done));
      MirrorConcat([c], Shown(rest));
      assert Mirror([c]) == [c];
    case Bracketed(text, rest) =>
      assert Shown(t)[|text|..] == Shown(rest);
      var r1 := ListTurns(rest);
      SegmentTurns(text);
      ShownBracketed(Mirror(text));
      r := Append(r1, Bracketed(Mirror(text), Done));
      MirrorConcat(text, Shown(rest));
    case Nested(inner, closer, rest) =>
      var a, b := Shown(inner), Shown(rest);
      NestedNoShift(a, closer, b);
      var r1 := ListTurns(inner);
      var r2 := ListTurns(rest);
      ShownNested(r1);
      r := Append(r2, Nested(r1, '>', Done));
      MirrorNested(a, b);
  }

  lemma ShownOther(c: char)
    requires IsOther(c)
    ensures Shown(Other(c, Done)) == [c] && Fits(Other(c, Done))
  {
    assert Fits(Done);
    assert Shown(Done) == "" && [c] + "" == [c];
  }

  lemma ShownBracketed(text: string)
    requires Segment(text)
    ensures Shown(Bracketed(text, Done)) == text && Fits(Bracketed(text, Done))
  {
    assert Fits(Done);
    assert Shown(Done) == "" && text + "" == text;
  }

  lemma ShownNested(t: Angled)
    requires Fits(t)
    ensures Shown(Nested(t, '>', Done)) == "<" + Shown(t) + ['>'] + [] && Fits(Nested(t, '>', Done))
  {
    assert Fits(Done);
    assert Shown(Done) == [];
  }

  lemma NestedNoShift(a: string, closer: char, b: string)
    requires NoShift("<" + a + [closer] + b)
    ensures NoShift(a) && NoShift(b) && closer != SHIFT
  {
    var s := "<" + a + [closer] + b;
    assert a == s[1..1 + |a|] && s[1 + |a|] == closer && b == s[2 + |a|..];
  }

  lemma MirrorNested(a: string, b: string)
    ensures Mirror("<" + a + ['>'] + b) == Mirror(b) + ("<" + Mirror(a) + ['>'] + [])
  {
    hide Mirror;
    MirrorConcat("<" + a + ['>'], b);
    MirrorConcat("<" + a, ['>']);
    MirrorConcat("<", a);
    assert Mirror("<") == ['>'] && Mirror(['>']) == "<";
    assert "<" + (Mirror(a) + ['>']) == "<" + Mirror(a) + ['>'] + [];
  }

  lemma AngleTurns(s: string)
    requires AngleSegment(s) && NoShift(s)
    ensures AngleSegment(Mirror(s))
  {
    hide Mirror, Shown, Fits;
    var t :| IsAngle(s, t);
    assert s[1..|s| - 1] == Shown(t);
    var r := ListTurns(t);
    MirrorNested(Shown(t), []);
    assert "<" + Shown(t) + ['>'] + [] == s;
    assert Mirror([]) == [];
    assert [] + ("<" + Mirror(Shown(t)) + ['>'] + []) == "<" + Mirror(Shown(t)) + ">";
    assert IsAngle(Mirror(s), r);
  }

  lemma NoShiftTurns(s: string)
    requires NoShift(s)
    ensures NoShift(Mirror(s))
  {
  }

  /** A template argument list, read from right to left, is one. */
  lemma AngleMirrors(s: string)
    requires NoShift(s)
    ensures AngleSegment(s) <==> AngleSegment(Mirror(s))
    ensures AnySegment(s) <==> AnySegment(Mirror(s))
  {
    hide Mirror, AngleSegment, Segment, NoShift;
    MirrorMirror(s);
    NoShiftTurns(s);
    if AngleSegment(s) {
      AngleTurns(s);
    }
    if AngleSegment(Mirror(s)) {
      AngleTurns(Mirror(s));
    }
    if Segment(s) {
      SegmentTurns(s);
    }
    if Segment(Mirror(s)) {
      SegmentTurns(Mirror(s));
    }
  }

  // ---------- what ReverseCloseExpression finds ----------

  ghost predicate NoShifts(marks: seq<string>) {
    forall k :: 0 <= k < |marks| ==> NoShift(marks[k])
  }

  lemma BackwardsNoShift(lines: seq<string>)
    ensures NoShifts(Backwards(lines))
  {
  }

  lemma {:induction false} FlattenNoShift(marks: seq<string>)
    requires NoShifts(marks)
    ensures NoShift(Flatten(marks))
  {
    if marks != [] {
      FlattenNoShift(marks[1..]);
    }
  }

  /** The marks from a place on are the last ones of all that precede. */
  lemma BetweenLast(marks: seq<string>, l: nat, p: nat, m: nat, q: nat)
    requires l <= m < |marks| && p < |marks[l]| && q < |marks[m]| && (l == m ==> p <= q) && NoShifts(marks)
    ensures var all, b := Flatten(marks[..m]) + marks[m][..q + 1], Between(marks, l, p, m, q + 1);
            && |b| <= |all| && all[|all| - |b|..] == b && NoShift(b) && b != []
            && b[|b| - 1] == marks[m][q] == all[|all| - 1]
  {
    hide Flatten, NoShifts, NoShift;
    var all, b := Flatten(marks[..m]) + marks[m][..q + 1], Between(marks, l, p, m, q + 1);
    FlattenNoShift'(marks, m);
    if l < m {
      RestOfPrefix(marks, l, p, m, q);
    } else {
      assert all[|Flatten(marks[..m])| + p..] == marks[m][p..q + 1];
    }
    SuffixNoShift(Flatten(marks[..m]), marks[m], q + 1, |all| - |b|);
  }

  lemma FlattenNoShift'(marks: seq<string>, m: nat)
    requires m < |marks| && NoShifts(marks)
    ensures NoShift(Flatten(marks[..m])) && NoShift(marks[m])
  {
    FlattenNoShift(marks[..m]);
  }

  lemma SuffixNoShift(a: string, b: string, n: nat, k: nat)
    requires NoShift(a) && NoShift(b) && n <= |b| && k <= |a| + n
    ensures NoShift((a + b[..n])[k..])
  {
  }

  lemma MirrorTake(s: string, n: nat)
    requires n <= |s|
    ensures Mirror(s)[..n] == Mirror(s[|s| - n..]) && Mirror(s)[n..] == Mirror(s[..|s| - n])
  {
  }

  lemma FirstOfMirror(s: string)
    requires s != []
    ensures Mirror(s)[0] == Flip(s[|s| - 1])
  {
  }

  /** ReverseCloseExpression from a template bracket returns a place exactly when the marks from that place on are a
      template argument list. */
  lemma ReverseAngleExact(lines: seq<string>, l: nat, p: nat, m: nat, q: nat)
    requires m < |lines| && q < |lines[m]| && BackwardMark(lines[m], q) == '>'
    requires l <= m && p < |lines[l]| && (l == m ==> p <= q)
    ensures ReverseClose(lines, m, q) == At(l, p) <==> AngleSegment(Between(Backwards(lines), l, p, m, q + 1))
  {
    hide MarkScan, MarkStep, ReverseClose, BackwardMarks, Between, AngleSegment, Mirror, Flatten, NoShift, NoShifts;
    var marks := Backwards(lines);
    var last, all := marks[m][..q + 1], Flatten(marks[..m]) + marks[m][..q + 1];
    var b := Between(marks, l, p, m, q + 1);
    BackwardsNoShift(lines);
    BetweenLast(marks, l, p, m, q);
    FirstOfMirror(last);
    FirstOfMirror(all);
    MarkScanUnfold(Mirror(last), []);
    FirstAngle();
    StackStays(Mirror(last)[1..], Lefts(1));
    OpenMarks(lines, l, p, m, q);
    MarkScanExact(Mirror(all), |b|);
    MirrorTake(all, |b|);
    AngleMirrors(b);
  }

  /** The matcher with nothing to open passes over the marks from (m, q) down to behind (m, k), and from (l, p) to
      there is a segment. */
  ghost predicate Ends(marks: seq<string>, l: nat, p: nat, m: nat, k: nat, q: nat)
    requires l <= m < |marks| && p < |marks[l]|
  {
    && k <= q < |marks[m]| && (l == m ==> p <= k)
    && (forall i :: k < i <= q ==> marks[m][i] == ' ' || marks[m][i] == '<')
    && AnySegment(Between(marks, l, p, m, k + 1))
  }

  predicate Markers(marks: seq<string>) {
    forall j, i :: 0 <= j < |marks| && 0 <= i < |marks[j]| ==> marks[j][i] in "()[]{};<> "
  }

  lemma BackwardsMarkers(lines: seq<string>)
    ensures Markers(Backwards(lines))
  {
  }

  lemma FlipIdle(c: char)
    requires c in "()[]{};<> "
    ensures Idle(Flip(c)) <==> c == ' ' || c == '<'
  {
  }

  lemma IdleBack(s: string, f: nat)
    requires f == FirstBusy(Mirror(s)) && forall i :: 0 <= i < |s| ==> s[i] in "()[]{};<> "
    ensures forall i :: |s| - f <= i < |s| ==> s[i] == ' ' || s[i] == '<'
    ensures f < |s| ==> s[|s| - 1 - f] != ' ' && s[|s| - 1 - f] != '<'
  {
    forall i | |s| - f <= i < |s| ensures s[i] == ' ' || s[i] == '<' {
      assert Mirror(s)[|s| - 1 - i] == Flip(s[i]);
      FlipIdle(s[i]);
    }
    if f < |s| {
      assert Mirror(s)[f] == Flip(s[|s| - 1 - f]);
      FlipIdle(s[|s| - 1 - f]);
    }
  }

  lemma AnySegmentLast(s: string)
    requires AnySegment(s)
    ensures s != [] && s[|s| - 1] != ' ' && s[|s| - 1] != '<'
  {
    hide Text, Shown;
    if Segment(s) {
      var o, t :| IsGroup(s, o, t);
      assert s[|s| - 1] == Closer(o);
    } else {
      var t :| IsAngle(s, t);
      assert s[|s| - 1] == '>';
    }
  }

  lemma BetweenEnds(marks: seq<string>, l: nat, p: nat, m: nat, k: nat)
    requires l <= m < |marks| && p <= |marks[l]| && k < |marks[m]| && (l == m ==> p <= k)
    ensures var b := Between(marks, l, p, m, k + 1); b != [] && b[|b| - 1] == marks[m][k]
  {
  }

  lemma EndsFirst(marks: seq<string>, l: nat, p: nat, m: nat, k: nat, q: nat)
    requires l <= m < |marks| && p < |marks[l]| && q < |marks[m]| && Markers(marks) && Ends(marks, l, p, m, k, q)
    ensures k + FirstBusy(Mirror(marks[m][..q + 1])) == q
  {
    hide AnySegment, Between, Mirror;
    var last := marks[m][..q + 1];
    IdleBack(last, FirstBusy(Mirror(last)));
    AnySegmentLast(Between(marks, l, p, m, k + 1));
    BetweenEnds(marks, l, p, m, k);
    assert last[k] == marks[m][k];
    assert forall i :: k < i <= q ==> last[i] == marks[m][i];
  }

  /** ReverseCloseExpression from a `>` that is an operator finds the beginning of the first bracket before it on the
      line, if neither `;` nor an opening bracket comes first. */
  lemma ReverseIdleExact(lines: seq<string>, l: nat, p: nat, m: nat, q: nat)
    requires m < |lines| && q < |lines[m]| && lines[m][q] == '>' && BackwardMark(lines[m], q) != '>'
    requires l <= m && p < |lines[l]| && (l == m ==> p <= q)
    ensures ReverseClose(lines, m, q) == At(l, p) <==> exists k :: Ends(Backwards(lines), l, p, m, k, q)
  {
    hide MarkScan, MarkStep, ReverseClose, BackwardMarks, Between, AnySegment, Mirror, Flatten, NoShift, NoShifts, Ends,
         Markers;
    var marks := Backwards(lines);
    var last := marks[m][..q + 1];
    var f := FirstBusy(Mirror(last));
    BackwardsNoShift(lines);
    BackwardsMarkers(lines);
    forall k | Ends(marks, l, p, m, k, q) ensures k + f == q {
      EndsFirst(marks, l, p, m, k, q);
    }
    IdleScan(Mirror(last), f);
    if f == |last| {
      ScanNothing(Mirror(last)[f..], []);
      NothingOpen(lines, l, p, m, q);
    } else {
      BusyStays(Mirror(last)[f..]);
      OpenMarks(lines, l, p, m, q);
      BusyFoundBack(marks, l, p, m, q);
    }
  }

  lemma NothingOpen(lines: seq<string>, l: nat, p: nat, m: nat, q: nat)
    requires l <= m < |lines| && p < |lines[l]| && q < |lines[m]| && lines[m][q] == '>'
    requires MarkScan(Mirror(Backwards(lines)[m][..q + 1]), []) == Shift(Open([]), q + 1)
    ensures ReverseClose(lines, m, q) == Nowhere
  {
    hide MarkScan, Backward, BackwardMarks, Mirror, OpenFrom;
    BackwardMarksScan(lines[m], q, []);
    assert FlipAll([]) == [];
  }

  lemma BusyFoundBack(marks: seq<string>, l: nat, p: nat, m: nat, q: nat)
    requires l <= m < |marks| && p < |marks[l]| && q < |marks[m]| && (l == m ==> p <= q)
    requires NoShifts(marks) && Markers(marks) && FirstBusy(Mirror(marks[m][..q + 1])) <= q
    ensures MarkScan(Mirror(Flatten(marks[..m]) + marks[m][..q + 1]), []) == Found(|Between(marks, l, p, m, q + 1)|) <==>
              exists k :: Ends(marks, l, p, m, k, q)
  {
    hide MarkScan, Between, AnySegment, Mirror, Flatten, Ends, NoShift, NoShifts, Markers;
    var last, front := marks[m][..q + 1], Flatten(marks[..m]);
    var all, f := front + last, FirstBusy(Mirror(last));
    var k := q - f;
    MirrorConcat(front, last);
    assert Mirror(all)[..f] == Mirror(last)[..f];
    IdleScan(Mirror(all), f);
    MirrorTake(all, f);
    var rest := front + marks[m][..k + 1];
    assert all[..|all| - f] == rest;
    forall k' | Ends(marks, l, p, m, k', q) ensures k' == k {
      EndsFirst(marks, l, p, m, k', q);
    }
    BetweenLast(marks, l, p, m, q);
    if l == m && k < p {
      EndsBefore(marks, l, p, m, k, q);
      MirrorTake(all, |Between(marks, l, p, m, q + 1)|);
    } else {
      BetweenLast(marks, l, p, m, k);
      var b := Between(marks, l, p, m, k + 1);
      BetweenShrinks(marks, l, p, m, k, q);
      FirstBusyBusy(Mirror(last), Mirror(all), f);
      BusyExact(Mirror(rest), |b|);
      MirrorTake(rest, |b|);
      AngleMirrors(b);
      EndsHere(marks, l, p, m, k, q);
    }
  }

  lemma FirstBusyBusy(s: string, all: string, f: nat)
    requires s <= all && f == FirstBusy(s) < |s|
    ensures all[f..] != [] && !Idle(all[f..][0])
  {
  }

  lemma EndsBefore(marks: seq<string>, l: nat, p: nat, m: nat, k: nat, q: nat)
    requires l == m < |marks| && k < p <= q < |marks[m]|
    ensures !Ends(marks, l, p, m, k, q) && |Between(marks, l, p, m, q + 1)| <= q - k
  {
  }

  lemma BetweenShrinks(marks: seq<string>, l: nat, p: nat, m: nat, k: nat, q: nat)
    requires l <= m < |marks| && p < |marks[l]| && k <= q < |marks[m]| && (l == m ==> p <= k)
    ensures |Between(marks, l, p, m, q + 1)| == |Between(marks, l, p, m, k + 1)| + q - k
  {
    hide Flatten;
  }

  lemma EndsHere(marks: seq<string>, l: nat, p: nat, m: nat, k: nat, q: nat)
    requires l <= m < |marks| && p < |marks[l]| && k <= q < |marks[m]| && (l == m ==> p <= k) && Markers(marks)
    requires k + FirstBusy(Mirror(marks[m][..q + 1])) == q
    ensures Ends(marks, l, p, m, k, q) <==> AnySegment(Between(marks, l, p, m, k + 1))
  {
    hide Between, AnySegment, Mirror;
    var last := marks[m][..q + 1];
    IdleBack(last, FirstBusy(Mirror(last)));
    assert forall i :: k < i <= q ==> last[i] == marks[m][i];
  }

  // ---------- the two matchers undo each other ----------

  predicate Stands(line: string, i: nat, word: string) {
    i + |word| <= |line| && line[i..i + |word|] == word
  }

  /** No `->`, `<<` or `>=`, and no operator name. */
  ghost predicate PlainLine(line: string) {
    forall i: nat ::
      !Stands(line, i, "->") && !Stands(line, i, "<<") && !Stands(line, i, ">=") && !Stands(line, i, "operator")
  }

  /** On such a line every bracket counts, in both directions. */
  lemma PlainMarks(line: string)
    requires PlainLine(line)
    ensures ForwardMarks(line) == BackwardMarks(line)
    ensures forall i :: 0 <= i < |line| ==>
              ForwardMark(line, i) == if line[i] in "()[]{};<>" then line[i] else ' '
  {
    hide PlainLine, EndsInOperator, GreaterEqual;
    forall i | 0 <= i < |line|
      ensures ForwardMark(line, i) == BackwardMark(line, i) == if line[i] in "()[]{};<>" then line[i] else ' '
    {
      PlainMark(line, i);
    }
  }

  lemma PlainMark(line: string, i: nat)
    requires PlainLine(line) && i < |line|
    ensures ForwardMark(line, i) == BackwardMark(line, i) == if line[i] in "()[]{};<>" then line[i] else ' '
  {
    hide PlainLine, EndsInOperator;
    NoOperatorHere(line, i);
    if i > 0 {
      NoOperatorHere(line, i - 1);
      PlainPair(line, i);
    }
    if i + 1 < |line| {
      PlainPair(line, i + 1);
    }
    assert LessRun(line, i + 1) == if i + 1 < |line| && line[i + 1] == '<' then 1 + LessRun(line, i + 2) else 0;
    if i + 2 < |line| {
      assert line[i..i + 2] == [line[i], line[i + 1]];
    }
  }

  lemma PlainPair(line: string, i: nat)
    requires PlainLine(line) && 0 < i < |line|
    ensures !(line[i - 1] == '-' && line[i] == '>') && !(line[i - 1] == '<' && line[i] == '<')
    ensures !(line[i - 1] == '>' && line[i] == '=')
  {
    assert !Stands(line, i - 1, "->") && !Stands(line, i - 1, "<<") && !Stands(line, i - 1, ">=");
    assert line[i - 1..i + 1] == [line[i - 1], line[i]];
  }

  lemma NoOperatorHere(line: string, i: nat)
    requires PlainLine(line) && i <= |line|
    ensures !EndsInOperator(line[..i])
  {
    hide Stands;
    forall a, b ensures !OperatorSplit(line[..i], a, b) {
      if OperatorSplit(line[..i], a, b) {
        SplitStands(line, i, a, b);
      }
    }
  }

  lemma SplitStands(line: string, i: nat, a: string, b: string)
    requires i <= |line| && OperatorSplit(line[..i], a, b)
    ensures Stands(line, |a|, "operator")
  {
    var s := line[..i];
    assert s[|a|..|a| + 8] == "operator" && line[|a|..|a| + 8] == s[|a|..|a| + 8];
  }

  lemma ReverseRange(lines: seq<string>, m: nat, q: nat)
    requires m < |lines| && q < |lines[m]| && lines[m][q] == '>'
    ensures var r := ReverseClose(lines, m, q); r.At? ==> r.line < m || (r.line == m && r.pos <= q)
  {
    hide Backward, MarkScan, BackwardMarks, Mirror, OpenFrom;
    BackwardMarksScan(lines[m], q, []);
    var r := Backward(lines[m], q, []);
    if r.Open? {
      OpenFromEarlier(lines, m, r.stack);
    }
  }

  /** On lines that both matchers mark alike, CloseExpression leads from a template bracket to a `>` exactly when
      no `=` follows the bracket and ReverseCloseExpression leads from that `>` back to it. */
  lemma AngleMatchersInverse(lines: seq<string>, l: nat, p: nat, m: nat, q: nat)
    requires forall k :: 0 <= k < |lines| ==> ForwardMarks(lines[k]) == BackwardMarks(lines[k])
    requires l < |lines| && p < |lines[l]| && ForwardMark(lines[l], p) == '<'
    requires m < |lines| && q < |lines[m]| && BackwardMark(lines[m], q) == '>'
    ensures Close(lines, l, p) == At(m, q + 1) <==>
              ReverseClose(lines, m, q) == At(l, p) && !(p + 1 < |lines[l]| && lines[l][p + 1] == '=')
  {
    hide Close, ReverseClose, ForwardMarks, BackwardMarks, Between, AngleSegment, EndsInOperator;
    CloseRange(lines, l, p);
    ReverseRange(lines, m, q);
    assert Forwards(lines) == Backwards(lines);
    if p + 1 < |lines[l]| && lines[l][p + 1] == '<' {
      NeverShift(lines[l], p + 1);
    }
    if l < m || (l == m && p <= q) {
      CloseAngleExact(lines, l, p, m, q + 1);
      ReverseAngleExact(lines, l, p, m, q);
    }
  }

  lemma NeverShift(line: string, i: nat)
    requires i < |line|
    ensures BackwardMarks(line)[i] != SHIFT
  {
  }

  /** What CloseExpression returns from a template bracket is just behind a `>`. */
  lemma EndsAtGreater(lines: seq<string>, l: nat, p: nat)
    requires l < |lines| && p < |lines[l]| && ForwardMark(lines[l], p) == '<'
    ensures var r := Close(lines, l, p); r.At? ==> r.line < |lines| && 0 < r.pos <= |lines[r.line]| && lines[r.line][r.pos - 1] == '>'
  {
    hide Close, ForwardMarks, Between, AngleSegment, EndsInOperator;
    CloseRange(lines, l, p);
    var r := Close(lines, l, p);
    if r.At? {
      CloseAngleExact(lines, l, p, r.line, r.pos);
      var marks := Forwards(lines);
      BetweenEnds(marks, l, p, r.line, r.pos - 1);
      AngleLast(Between(marks, l, p, r.line, r.pos));
    }
  }

  lemma AngleLast(s: string)
    requires AngleSegment(s)
    ensures s != [] && s[|s| - 1] == '>'
  {
    hide Shown;
    var t :| IsAngle(s, t);
    assert s[|s| - 1] == '>';
  }
}
