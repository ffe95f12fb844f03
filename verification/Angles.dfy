/** What the bracket matchers of scripts/cpplint.py find from a template bracket.

    Each character of a line first gets a mark, which depends on its neighbours only: an operator such as
    `->`, `operator<` or the second half of `<<` is no bracket.  On the marks, what is found is given by a
    grammar without any stack. */
module Angles {
  import opened Brackets
  import opened Characters
  import opened Matching
  import opened Sequences
  import opened WellMatched

  // ---------- operator names ----------

  predicate OperatorSplit(s: string, a: string, b: string) {
    s == a + "operator" + b && Blank(b) && (a == [] || !IsWord(a[|a| - 1]))
  }

  /** `s` ends in the word `operator`, perhaps followed by white space. */
  ghost predicate EndsInOperator(s: string) {
    exists a, b :: OperatorSplit(s, a, b)
  }

  lemma {:induction false} SkipsBlanks(line: string, i: nat)
    requires i <= |line|
    ensures var j := SkipSpacesBack(line, i); Blank(line[j..i]) && (j > 0 ==> !IsSpace(line[j - 1]))
    decreases i
  {
    if i > 0 && IsSpace(line[i - 1]) {
      SkipsBlanks(line, i - 1);
      var j := SkipSpacesBack(line, i);
      assert line[j..i] == line[j..i - 1] + [line[i - 1]];
    }
  }

  lemma BlankAt(line: string, j: nat, i: nat, x: nat)
    requires j <= x < i <= |line| && Blank(line[j..i])
    ensures IsSpace(line[x])
  {
    assert line[j..i][x - j] == line[x];
  }

  /** The pattern for operator names finds just those. */
  lemma OperatorShape(line: string, i: nat)
    requires i <= |line|
    ensures OperatorBefore(line, i) <==> EndsInOperator(line[..i])
  {
    hide Blank, SkipSpacesBack, OperatorSplit;
    SkipsBlanks(line, i);
    if OperatorBefore(line, i) {
      OperatorSplits(line, i, SkipSpacesBack(line, i));
    }
    if EndsInOperator(line[..i]) {
      var a, b :| OperatorSplit(line[..i], a, b);
      SplitIsOperator(line, i, a, b);
    }
  }

  lemma OperatorSplits(line: string, i: nat, j: nat)
    requires 8 <= j <= i <= |line| && Blank(line[j..i])
    requires line[j - 8..j] == "operator" && (j == 8 || !IsWord(line[j - 9]))
    ensures EndsInOperator(line[..i])
  {
    hide *;
    var a, b := line[..j - 8], line[j..i];
    ThreeParts(line, j - 8, j, i);
    assert a != [] ==> a[|a| - 1] == line[j - 9];
    Splits(line[..i], a, b);
  }

  lemma Splits(s: string, a: string, b: string)
    requires s == a + "operator" + b && Blank(b) && (a == [] || !IsWord(a[|a| - 1]))
    ensures EndsInOperator(s)
  {
    assert OperatorSplit(s, a, b);
  }

  lemma ThreeParts(s: string, k: nat, j: nat, i: nat)
    requires k <= j <= i <= |s|
    ensures s[..i] == s[..k] + s[k..j] + s[j..i]
  {
  }

  lemma SplitIsOperator(line: string, i: nat, a: string, b: string)
    requires i <= |line| && OperatorSplit(line[..i], a, b)
    requires var j := SkipSpacesBack(line, i); Blank(line[j..i]) && (j > 0 ==> !IsSpace(line[j - 1]))
    ensures OperatorBefore(line, i)
  {
    hide SkipSpacesBack, Blank, IsSpace;
    var j, k := SkipSpacesBack(line, i), |a| + 8;
    SplitAt(line, i, a, b);
    LetterIsNoSpace();
    if j < k {
      BlankAt(line, j, i, k - 1);
    }
    if k < j {
      BlankAt(line, k, i, j - 1);
    }
  }

  lemma SplitAt(line: string, i: nat, a: string, b: string)
    requires i <= |line| && OperatorSplit(line[..i], a, b)
    ensures var k := |a| + 8;
            && k <= i && line[k - 8..k] == "operator" && line[k - 1] == 'r' && line[k..i] == b && Blank(b)
            && (k > 8 ==> !IsWord(line[k - 9]))
  {
    hide Blank, IsWord;
    var s, k := line[..i], |a| + 8;
    assert s[k - 1] == "operator"[7] == 'r' && s[k..] == b && s[k - 8..k] == "operator";
    assert line[k..i] == s[k..] && line[k - 8..k] == s[k - 8..k];
  }

  lemma LetterIsNoSpace()
    ensures !IsSpace('r')
  {
  }

  // ---------- the marks ----------

  /** The second half of `<<`: it takes back a template bracket, but ends nothing. */
  const SHIFT := '~'

  predicate IsOther(c: char) {
    !IsOpen(c) && !IsClose(c) && c != '<' && c != '>' && c != ';' && c != SHIFT
  }

  /** What the forward matcher takes character i for. */
  ghost function ForwardMark(line: string, i: nat): char
    requires i < |line|
  {
    if line[i] == '<' then
      if i > 0 && line[i - 1] == '<' then SHIFT
      else if EndsInOperator(line[..i]) then ' '
      else '<'
    else if line[i] == '>' then
      if i > 0 && (line[i - 1] == '-' || EndsInOperator(line[..i - 1])) then ' ' else '>'
    else if line[i] in "()[]{};" then line[i]
    else ' '
  }

  ghost function ForwardMarks(line: string): (s: string)
    ensures |s| == |line| && forall i :: 0 <= i < |line| ==> s[i] == ForwardMark(line, i)
  {
    seq(|line|, i requires 0 <= i < |line| => ForwardMark(line, i))
  }

  /** One step of the matcher, seen on the marks. */
  function MarkStep(c: char, stack: string): Move {
    var n := |stack| - 1;
    if IsOpen(c) || c == '<' then Go(1, stack + [c])
    else if IsClose(c) then
      var s := PopAngles(stack, '<');
      if s == [] || !Matches(s[|s| - 1], c) then Stop(Failed)
      else if |s| == 1 then Stop(Found(1)) else Go(1, s[..|s| - 1])
    else if c == ';' then
      var s := PopAngles(stack, '<');
      if s == [] then Stop(Failed) else Go(1, s)
    else if (c == '>' || c == SHIFT) && stack != [] && stack[n] == '<' then
      if n > 0 then Go(1, stack[..n]) else Stop(if c == '>' then Found(1) else Failed)
    else Go(1, stack)
  }

  function MarkScan(s: string, stack: string): (r: Outcome)
    ensures r.Found? ==> 1 <= r.pos <= |s|
  {
    if s == [] then Open(stack)
    else
      match MarkStep(s[0], stack)
      case Stop(r) => if r.Found? then Found(1) else r
      case Go(_, st) => Shift(MarkScan(s[1..], st), 1)
  }

  lemma ForwardStepMarks(line: string, i: nat, stack: string)
    requires i < |line|
    ensures match MarkStep(ForwardMark(line, i), stack)
            case Stop(r) => (r == Failed || r == Found(1)) && ForwardStep(line, i, stack) == Stop(Shift(r, i))
            case Go(_, st) => ForwardStep(line, i, stack) == Go(i + 1, st)
  {
    hide OperatorBefore, EndsInOperator, PopAngles;
    OperatorShape(line, i);
    if i > 0 {
      OperatorShape(line, i - 1);
    } else {
      NoOperator();
      assert line[..0] == "";
    }
  }

  lemma NoOperator()
    ensures !EndsInOperator("")
  {
    forall a, b ensures !OperatorSplit("", a, b) {
      assert |a + "operator" + b| >= 8;
    }
  }

  /** The matcher on a line is the scan of its marks. */
  lemma {:induction false} ForwardIsMarkScan(line: string, i: nat, stack: string)
    requires i <= |line|
    ensures Forward(line, i, stack) == Shift(MarkScan(ForwardMarks(line)[i..], stack), i)
    decreases |line| - i
  {
    hide MarkStep, ForwardStep, ForwardMark;
    var s := ForwardMarks(line);
    if i < |line| {
      ForwardStepMarks(line, i, stack);
      assert s[i..][1..] == s[i + 1..] && s[i..][0] == ForwardMark(line, i);
      var m := MarkStep(ForwardMark(line, i), stack);
      if m.Go? {
        ForwardIsMarkScan(line, i + 1, m.stack);
      }
    }
  }

  lemma MarkScanUnfold(s: string, stack: string)
    requires s != []
    ensures MarkScan(s, stack) ==
              match MarkStep(s[0], stack)
              case Stop(r) => if r.Found? then Found(1) else r
              case Go(_, st) => Shift(MarkScan(s[1..], st), 1)
  {
  }

  lemma {:induction false} MarkScanConcat(a: string, b: string, stack: string)
    ensures var r := MarkScan(a, stack);
            MarkScan(a + b, stack) == if r.Open? then Shift(MarkScan(b, r.stack), |a|) else r
  {
    hide MarkStep;
    if a == [] {
      assert a + b == b;
    } else {
      assert (a + b)[1..] == a[1..] + b;
      StepStays(a[0], stack);
      var m := MarkStep(a[0], stack);
      if m.Go? {
        MarkScanConcat(a[1..], b, m.stack);
      }
    }
  }

  /** A scan that has something to close goes on having something to close, until it ends. */
  lemma {:induction false} StackStays(s: string, stack: string)
    requires stack != []
    ensures var r := MarkScan(s, stack); r.Open? ==> r.stack != []
  {
    hide MarkStep;
    if s != [] {
      StepStays(s[0], stack);
      var m := MarkStep(s[0], stack);
      if m.Go? {
        StackStays(s[1..], m.stack);
      }
    }
  }

  lemma StepStays(c: char, stack: string)
    ensures var m := MarkStep(c, stack); m.Go? && stack != [] ==> m.stack != []
    ensures var m := MarkStep(c, stack); m.Stop? ==> m.outcome == Failed || m.outcome == Found(1)
  {
  }

  // ---------- a real bracket is skipped to its end ----------

  lemma {:induction false} PopAnglesBase(base: string, st: string)
    requires Bottomed(st, '<')
    ensures PopAngles(base + st, '<') == base + PopAngles(st, '<') && Bottomed(PopAngles(st, '<'), '<')
    decreases |st|
  {
    var n := |st| - 1;
    assert (base + st)[|base + st| - 1] == st[n];
    if st[n] == '<' {
      assert (base + st)[..|base + st| - 1] == base + st[..n];
      PopAnglesBase(base, st[..n]);
    }
  }

  /** With a real bracket open, one step is the step of the scan for real brackets. */
  lemma MarkStepErases(c: char, base: string, st: string)
    requires Bottomed(st, '<')
    ensures match ScanStep(c, Erase(st, '<'))
            case Stop(Found(_)) => MarkStep(c, base + st) == if base == [] then Stop(Found(1)) else Go(1, base)
            case Stop(r) => r == Failed && MarkStep(c, base + st) == Stop(Failed)
            case Go(_, e) => exists st' :: MarkStep(c, base + st) == Go(1, base + st') && Bottomed(st', '<') && Erase(st', '<') == e
  {
    hide Erase, PopAngles;
    ErasePush(st, c, '<');
    EraseTop(st, '<');
    EraseAngle(st, '<');
    PopAnglesBase(base, st);
    var p := PopAngles(st, '<');
    var n, m := |st| - 1, |p| - 1;
    assert base + st + [c] == base + (st + [c]);
    assert (base + st)[|base + st| - 1] == st[n] && (base + st)[..|base + st| - 1] == base + st[..n];
    assert (base + p)[|base + p| - 1] == p[m] && (base + p)[..|base + p| - 1] == base + p[..m];
  }

  /** So a real bracket is read to its end, whatever template brackets it holds, and then the scan goes on. */
  lemma {:induction false} BracketSkips(s: string, base: string, st: string)
    requires Bottomed(st, '<')
    ensures match Scan(s, Erase(st, '<'))
            case Found(k) => MarkScan(s, base + st) == if base == [] then Found(k) else Shift(MarkScan(s[k..], base), k)
            case Failed => MarkScan(s, base + st) == Failed
            case Open(_) => MarkScan(s, base + st).Open?
  {
    hide Scan, Erase, Bottomed, MarkStep, ScanStep;
    if s == [] {
      ScanEmpty(s, Erase(st, '<'));
    } else {
      ScanUnfold(s, Erase(st, '<'));
      MarkScanUnfold(s, base + st);
      MarkStepErases(s[0], base, st);
      var m := ScanStep(s[0], Erase(st, '<'));
      ScanStepFinds(s[0], Erase(st, '<'));
      if m.Go? {
        var st' :| MarkStep(s[0], base + st) == Go(1, base + st') && Bottomed(st', '<') && Erase(st', '<') == m.stack;
        BracketSkips(s[1..], base, st');
        var r := Scan(s[1..], m.stack);
        if r.Found? {
          assert s[1..][r.pos..] == s[r.pos + 1..];
        }
      }
    }
  }

  lemma ScanStepFinds(c: char, stack: string)
    ensures var m := ScanStep(c, stack); m.Stop? ==> m.outcome == Failed || m.outcome == Found(1)
  {
  }

  // ---------- the grammar of template argument lists ----------

  /** Text between a template bracket and the `>` that closes it: other characters, whole groups in real brackets,
      and further template brackets, each closed by a `>` or taken back by a shift operator. */
  datatype Angled = Done | Other(c: char, rest: Angled) | Bracketed(text: string, rest: Angled)
                  | Nested(inner: Angled, closer: char, rest: Angled)

  ghost predicate Fits(t: Angled) {
    match t
    case Done => true
    case Other(c, rest) => IsOther(c) && Fits(rest)
    case Bracketed(text, rest) => Segment(text) && Fits(rest)
    case Nested(inner, closer, rest) => Fits(inner) && (closer == '>' || closer == SHIFT) && Fits(rest)
  }

  ghost function Shown(t: Angled): string {
    match t
    case Done => ""
    case Other(c, rest) => [c] + Shown(rest)
    case Bracketed(text, rest) => text + Shown(rest)
    case Nested(inner, closer, rest) => "<" + Shown(inner) + [closer] + Shown(rest)
  }

  ghost predicate IsAngle(s: string, t: Angled) {
    Fits(t) && s == "<" + Shown(t) + ">"
  }

  /** `s` is a template bracket, text as above, and the `>` that belongs to it. */
  ghost predicate AngleSegment(s: string) {
    exists t :: IsAngle(s, t)
  }

  function Lefts(n: nat): (s: string)
    ensures |s| == n && forall i :: 0 <= i < n ==> s[i] == '<'
  {
    seq(n, _ => '<')
  }

  lemma {:induction false} NoneLeft(n: nat)
    ensures PopAngles(Lefts(n), '<') == []
    decreases n
  {
    if n > 0 {
      NoneLeft(n - 1);
      assert Lefts(n)[..n - 1] == Lefts(n - 1);
    }
  }

  /** One step with nothing but n template brackets open. */
  lemma AngleStep(c: char, n: nat)
    requires n > 0
    ensures MarkStep(c, Lefts(n)) ==
              if IsOpen(c) then Go(1, Lefts(n) + [c])
              else if c == '<' then Go(1, Lefts(n + 1))
              else if IsClose(c) || c == ';' then Stop(Failed)
              else if c == '>' || c == SHIFT then
                if n > 1 then Go(1, Lefts(n - 1)) else Stop(if c == '>' then Found(1) else Failed)
              else Go(1, Lefts(n))
  {
    NoneLeft(n);
    assert Lefts(n) + ['<'] == Lefts(n + 1);
    assert Lefts(n)[..n - 1] == Lefts(n - 1);
  }

  lemma OneReal(c: char)
    requires IsOpen(c)
    ensures Bottomed([c], '<') && Erase([c], '<') == [c]
  {
    assert [c][..0] == [] && [] + [c] == [c];
  }

  /** A real bracket met with n template brackets open: the scan goes on behind its segment. */
  lemma GroupStep(s: string, n: nat)
    requires s != [] && IsOpen(s[0]) && n > 0
    ensures var r := Scan(s, []);
            if r.Found? then
              Segment(s[..r.pos]) && MarkScan(s, Lefts(n)) == Shift(MarkScan(s[r.pos..], Lefts(n)), r.pos)
            else !MarkScan(s, Lefts(n)).Found?
  {
    hide Scan, MarkScan, MarkStep, Erase, Segment;
    var c := s[0];
    OneReal(c);
    ScanUnfold(s, []);
    assert [] + [c] == [c];
    MarkScanUnfold(s, Lefts(n));
    AngleStep(c, n);
    BracketSkips(s[1..], Lefts(n), [c]);
    var r := Scan(s[1..], [c]);
    if r.Found? {
      assert s[1..][r.pos..] == s[r.pos + 1..];
      ScanExact(s, r.pos + 1);
    }
  }

  lemma {:induction false} ShownScans(t: Angled, n: nat, rest: string)
    requires Fits(t) && n > 0
    ensures MarkScan(Shown(t) + rest, Lefts(n)) == Shift(MarkScan(rest, Lefts(n)), |Shown(t)|)
    decreases t
  {
    hide MarkScan, Segment, Lefts, IsOther;
    var s := Shown(t) + rest;
    match t
    case Done => assert s == rest;
    case Other(c, r) =>
      ShownScans(r, n, rest);
      assert s[1..] == Shown(r) + rest;
      OtherScans(s, n);
    case Bracketed(text, r) =>
      ShownScans(r, n, rest);
      assert s == text + (Shown(r) + rest);
      BracketedScans(text, Shown(r) + rest, n);
    case Nested(inner, closer, r) =>
      var tail := [closer] + (Shown(r) + rest);
      ShownScans(inner, n + 1, tail);
      ShownScans(r, n, rest);
      NestedParts(Shown(inner), closer, Shown(r), rest);
      NestedScans(s, Shown(inner), tail, n);
  }

  lemma NestedParts(inner: string, closer: char, r: string, rest: string)
    ensures ("<" + inner + [closer] + r + rest)[1..] == inner + ([closer] + (r + rest))
    ensures ([closer] + (r + rest))[1..] == r + rest
  {
  }

  lemma OtherScans(s: string, n: nat)
    requires n > 0 && s != [] && IsOther(s[0])
    ensures MarkScan(s, Lefts(n)) == Shift(MarkScan(s[1..], Lefts(n)), 1)
  {
    hide MarkScan, MarkStep, Lefts;
    AngleStep(s[0], n);
    MarkScanUnfold(s, Lefts(n));
  }

  lemma BracketedScans(text: string, rest: string, n: nat)
    requires n > 0 && Segment(text)
    ensures MarkScan(text + rest, Lefts(n)) == Shift(MarkScan(rest, Lefts(n)), |text|)
  {
    hide Scan, MarkScan, Segment, Lefts;
    SegmentFirst(text, rest);
    GroupStep(text + rest, n);
    assert (text + rest)[|text|..] == rest;
  }

  lemma NestedScans(s: string, inner: string, tail: string, n: nat)
    requires n > 0 && s != [] && tail != [] && s[0] == '<' && s[1..] == inner + tail
    requires tail[0] == '>' || tail[0] == SHIFT
    requires MarkScan(inner + tail, Lefts(n + 1)) == Shift(MarkScan(tail, Lefts(n + 1)), |inner|)
    ensures MarkScan(s, Lefts(n)) == Shift(MarkScan(tail[1..], Lefts(n)), |inner| + 2)
  {
    hide MarkScan, MarkStep, Lefts;
    AngleStep('<', n);
    AngleStep(tail[0], n + 1);
    MarkScanUnfold(s, Lefts(n));
    MarkScanUnfold(tail, Lefts(n + 1));
  }

  lemma SegmentFirst(text: string, rest: string)
    requires Segment(text)
    ensures text != [] && IsOpen((text + rest)[0]) && Scan(text + rest, []) == Found(|text|)
  {
    hide Scan, Text;
    var o, t :| IsGroup(text, o, t);
    SegmentScans(text, o, t, rest);
  }

  /** The first j characters of `s` are the text `t`. */
  ghost predicate Reads(s: string, t: Angled, j: nat) {
    Fits(t) && j <= |s| && s[..j] == Shown(t)
  }

  /** A scan that succeeds with n template brackets open reads text up to what closes the innermost one. */
  lemma {:induction false} AnglePeels(s: string, n: nat) returns (t: Angled, j: nat)
    requires n > 0 && MarkScan(s, Lefts(n)).Found?
    ensures j < |s| && Reads(s, t, j)
    ensures var k := MarkScan(s, Lefts(n)).pos;
            if n == 1 then s[j] == '>' && k == j + 1
            else (s[j] == '>' || s[j] == SHIFT) && MarkScan(s[j + 1..], Lefts(n - 1)).Found?
                 && MarkScan(s[j + 1..], Lefts(n - 1)).pos == k - j - 1
    decreases |s|
  {
    hide MarkScan, MarkStep, Reads, Lefts, Segment;
    ScanNeedsText(s, n);
    MarkScanUnfold(s, Lefts(n));
    var c, rest := s[0], s[1..];
    AngleStep(c, n);
    if IsOpen(c) {
      GroupStep(s, n);
      var k := Scan(s, []).pos;
      var t1, j1 := AnglePeels(s[k..], n);
      t, j := Bracketed(s[..k], t1), k + j1;
      BracketedReads(s, k, t1, j1);
      assert s[k..][j1 + 1..] == s[j + 1..];
    } else if c == '<' {
      var t1, j1 := AnglePeels(rest, n + 1);
      var t2, j2 := AnglePeels(rest[j1 + 1..], n);
      t, j := Nested(t1, rest[j1], t2), j1 + j2 + 2;
      NestedReads(s, t1, j1, t2, j2);
      assert rest[j1 + 1..][j2 + 1..] == s[j + 1..];
    } else if c == '>' || c == SHIFT {
      t, j := Done, 0;
      DoneReads(s);
    } else {
      var t1, j1 := AnglePeels(rest, n);
      t, j := Other(c, t1), j1 + 1;
      OtherReads(s, t1, j1);
      assert rest[j1 + 1..] == s[j + 1..];
    }
  }

  lemma ScanNeedsText(s: string, n: nat)
    requires MarkScan(s, Lefts(n)).Found?
    ensures s != []
  {
  }

  lemma DoneReads(s: string)
    ensures Reads(s, Done, 0)
  {
  }

  lemma OtherReads(s: string, t1: Angled, j1: nat)
    requires s != [] && IsOther(s[0]) && Reads(s[1..], t1, j1)
    ensures Reads(s, Other(s[0], t1), j1 + 1)
  {
    assert s[..j1 + 1] == [s[0]] + s[1..][..j1];
  }

  lemma BracketedReads(s: string, k: nat, t1: Angled, j1: nat)
    requires k <= |s| && Segment(s[..k]) && Reads(s[k..], t1, j1)
    ensures Reads(s, Bracketed(s[..k], t1), k + j1)
  {
    hide Segment;
    assert s[..k + j1] == s[..k] + s[k..][..j1];
  }

  lemma NestedReads(s: string, t1: Angled, j1: nat, t2: Angled, j2: nat)
    requires s != [] && s[0] == '<' && Reads(s[1..], t1, j1) && j1 + 1 < |s|
    requires (s[j1 + 1] == '>' || s[j1 + 1] == SHIFT) && Reads(s[1..][j1 + 1..], t2, j2)
    ensures Reads(s, Nested(t1, s[1..][j1], t2), j1 + j2 + 2)
  {
    hide Segment;
    assert s[..j1 + j2 + 2] == "<" + s[1..][..j1] + [s[1..][j1]] + s[1..][j1 + 1..][..j2];
  }

  /** From a template bracket, the scan of the marks finds k exactly when the first k marks are its segment. */
  lemma MarkScanExact(s: string, k: nat)
    requires s != [] && s[0] == '<' && k <= |s|
    ensures MarkScan(s, []) == Found(k) <==> AngleSegment(s[..k])
  {
    hide MarkScan, MarkStep, IsAngle;
    MarkScanUnfold(s, []);
    FirstAngle();
    if MarkScan(s, []) == Found(k) {
      var t, j := AnglePeels(s[1..], 1);
      AngleRead(s, t, j);
    }
    if AngleSegment(s[..k]) {
      var t :| IsAngle(s[..k], t);
      AngleScans(s, k, t);
    }
  }

  lemma FirstAngle()
    ensures MarkStep('<', []) == Go(1, Lefts(1))
  {
    assert [] + ['<'] == Lefts(1);
  }

  lemma AngleRead(s: string, t: Angled, j: nat)
    requires s != [] && s[0] == '<' && Reads(s[1..], t, j) && j + 1 < |s| && s[j + 1] == '>'
    ensures AngleSegment(s[..j + 2])
  {
    assert s[..j + 2] == "<" + s[1..][..j] + ">";
    assert IsAngle(s[..j + 2], t);
  }

  lemma AngleScans(s: string, k: nat, t: Angled)
    requires s != [] && k <= |s| && IsAngle(s[..k], t)
    ensures MarkScan(s, []) == Found(k)
  {
    hide MarkScan, MarkStep, Shown;
    var rest := s[k..];
    var tail := ">" + rest;
    assert s == s[..k] + rest;
    assert s[1..] == Shown(t) + tail && s[0] == '<';
    MarkScanUnfold(s, []);
    FirstAngle();
    ShownScans(t, 1, tail);
    MarkScanUnfold(tail, Lefts(1));
    AngleStep('>', 1);
  }

  // ---------- across lines ----------

  ghost function Forwards(lines: seq<string>): (marks: seq<string>)
    ensures |marks| == |lines|
    ensures forall k :: 0 <= k < |lines| ==> marks[k] == ForwardMarks(lines[k]) && |marks[k]| == |lines[k]|
  {
    seq(|lines|, k requires 0 <= k < |lines| => ForwardMarks(lines[k]))
  }

  lemma {:induction false} CloseFromMarks(lines: seq<string>, l: nat, stack: string, m: nat, q: nat)
    requires l <= m < |lines| && 1 <= q <= |lines[m]| && stack != []
    ensures CloseFrom(lines, l, stack) == At(m, q) <==>
              MarkScan(Flatten(Forwards(lines)[l..]), stack) == Found(|Flatten(Forwards(lines)[l..m])| + q)
    decreases |lines| - l
  {
    hide MarkScan, Forward, ForwardMarks;
    var marks := Forwards(lines);
    var line, rest := marks[l], marks[l + 1..];
    ForwardIsMarkScan(lines[l], 0, stack);
    assert line[0..] == line;
    assert marks[l..][1..] == rest && marks[l..][0] == line;
    MarkScanConcat(line, Flatten(rest), stack);
    StackStays(line, stack);
    var r := MarkScan(line, stack);
    if m == l {
      assert marks[l..m] == [];
      if r.Open? && l + 1 < |lines| {
        CloseFromLater(lines, l + 1, r.stack);
      }
    } else {
      assert marks[l..m][1..] == marks[l + 1..m] && marks[l..m][0] == line;
      if r.Open? {
        CloseFromMarks(lines, l + 1, r.stack, m, q);
      }
    }
  }

  /** A search that starts with nothing to close and the line ends with something to close, or finds an end. */
  lemma CloseMarks(lines: seq<string>, l: nat, p: nat, m: nat, q: nat)
    requires l < |lines| && p < |lines[l]| && l <= m < |lines| && 1 <= q <= |lines[m]| && (l == m ==> p <= q)
    requires lines[l][p] == '<' && (p + 1 < |lines[l]| ==> lines[l][p + 1] != '<' && lines[l][p + 1] != '=')
    requires var r := MarkScan(Forwards(lines)[l][p..], []); r.Open? ==> r.stack != []
    ensures Close(lines, l, p) == At(m, q) <==>
              MarkScan(Forwards(lines)[l][p..] + Flatten(Forwards(lines)[l + 1..]), [])
                == Found(|Between(Forwards(lines), l, p, m, q)|)
  {
    hide MarkScan, Forward, ForwardMarks, CloseFrom;
    var marks := Forwards(lines);
    var head, tail := marks[l][p..], Flatten(marks[l + 1..]);
    ForwardIsMarkScan(lines[l], p, []);
    MarkScanConcat(head, tail, []);
    var r := MarkScan(head, []);
    if l == m {
      if r.Open? {
        CloseFromLater(lines, l + 1, r.stack);
      }
    } else if r.Open? {
      CloseFromMarks(lines, l + 1, r.stack, m, q);
    }
  }

  /** The marks up to a place are the first ones of all that follow. */
  lemma BetweenFirst(marks: seq<string>, l: nat, p: nat, m: nat, q: nat)
    requires l <= m < |marks| && p <= |marks[l]| && q <= |marks[m]| && (l == m ==> p <= q)
    ensures var all, n := marks[l][p..] + Flatten(marks[l + 1..]), |Between(marks, l, p, m, q)|;
            n <= |all| && all[..n] == Between(marks, l, p, m, q)
  {
    hide Flatten;
    if l < m {
      PrefixOfRest(marks, l, m, q);
    }
  }

  /** CloseExpression from a template bracket returns a place exactly when neither `<` nor `=` follows the bracket
      and the marks up to that place are a template argument list. */
  lemma CloseAngleExact(lines: seq<string>, l: nat, p: nat, m: nat, q: nat)
    requires l < |lines| && p < |lines[l]| && ForwardMark(lines[l], p) == '<'
    requires l <= m < |lines| && 1 <= q <= |lines[m]| && (l == m ==> p <= q)
    ensures Close(lines, l, p) == At(m, q) <==>
              && !(p + 1 < |lines[l]| && (lines[l][p + 1] == '<' || lines[l][p + 1] == '='))
              && AngleSegment(Between(Forwards(lines), l, p, m, q))
  {
    hide MarkScan, MarkStep, Forward, ForwardMarks, CloseFrom, Between, AngleSegment;
    var marks := Forwards(lines);
    var head, tail := marks[l][p..], Flatten(marks[l + 1..]);
    MarkScanUnfold(head, []);
    FirstAngle();
    StackStays(head[1..], Lefts(1));
    if !(p + 1 < |lines[l]| && (lines[l][p + 1] == '<' || lines[l][p + 1] == '=')) {
      CloseMarks(lines, l, p, m, q);
      BetweenFirst(marks, l, p, m, q);
      MarkScanExact(head + tail, |Between(marks, l, p, m, q)|);
    }
  }

  lemma {:induction false} CloseFromRange(lines: seq<string>, l: nat, stack: string)
    requires stack != []
    ensures var r := CloseFrom(lines, l, stack); r.At? ==> l <= r.line < |lines| && 1 <= r.pos <= |lines[r.line]|
    decreases |lines| - l
  {
    hide Forward, MarkScan, ForwardMarks;
    if l < |lines| {
      ForwardIsMarkScan(lines[l], 0, stack);
      StackStays(ForwardMarks(lines[l])[0..], stack);
      var r := Forward(lines[l], 0, stack);
      if r.Open? {
        CloseFromRange(lines, l + 1, r.stack);
      }
    }
  }

  /** A place that is returned lies behind the `<` and inside or at the end of a line. */
  lemma CloseRange(lines: seq<string>, l: nat, p: nat)
    requires l < |lines| && p < |lines[l]| && lines[l][p] == '<'
    ensures var r := Close(lines, l, p);
            r.At? ==> && l <= r.line < |lines| && 1 <= r.pos <= |lines[r.line]| && (r.line == l ==> p < r.pos)
  {
    hide Forward, MarkScan, ForwardMarks, CloseFrom;
    ForwardIsMarkScan(lines[l], p, []);
    var r := Forward(lines[l], p, []);
    if r.Open? && r.stack != [] {
      CloseFromRange(lines, l + 1, r.stack);
    }
  }

  /** From any other character there is nothing to find. */
  lemma OnlyFromBrackets(lines: seq<string>, l: nat, p: nat)
    requires l < |lines| && p < |lines[l]|
    ensures lines[l][p] !in "([{<" ==> Close(lines, l, p) == Nowhere
    ensures lines[l][p] !in ")]}>" ==> ReverseClose(lines, l, p) == Nowhere
  {
  }

  // ---------- a `<` that is an operator ----------

  /** Marks that a matcher with nothing to close passes over. */
  predicate Idle(c: char) { IsOther(c) || c == '>' || c == SHIFT }

  predicate AllIdle(s: string) {
    forall i :: 0 <= i < |s| ==> Idle(s[i])
  }

  lemma {:induction false} IdleScan(s: string, k: nat)
    requires k <= |s| && AllIdle(s[..k])
    ensures MarkScan(s, []) == Shift(MarkScan(s[k..], []), k)
    decreases k
  {
    hide MarkScan;
    if k == 0 {
      assert s[0..] == s;
    } else {
      assert s[..k][0] == s[0] && s[..k][1..] == s[1..][..k - 1] && s[1..][k - 1..] == s[k..];
      MarkScanUnfold(s, []);
      IdleScan(s[1..], k - 1);
    }
  }

  function FirstBusy(s: string): (k: nat)
    ensures k <= |s| && (k < |s| ==> !Idle(s[k])) && forall i :: 0 <= i < k ==> Idle(s[i])
  {
    if s != [] && Idle(s[0]) then 1 + FirstBusy(s[1..]) else 0
  }

  /** `s` is what a real or a template bracket and its other end enclose. */
  ghost predicate AnySegment(s: string) { Segment(s) || AngleSegment(s) }

  lemma AnySegmentFirst(s: string)
    requires AnySegment(s)
    ensures s != [] && (IsOpen(s[0]) || s[0] == '<') && !Idle(s[0])
    ensures Segment(s) ==> IsOpen(s[0])
    ensures AngleSegment(s) ==> s[0] == '<'
  {
    hide Text, Shown;
    if Segment(s) {
      var o, t :| IsGroup(s, o, t);
    }
    if AngleSegment(s) {
      var t :| IsAngle(s, t);
    }
  }

  /** With nothing to close, a scan that begins at a bracket finds k exactly when the first k marks are its segment. */
  lemma BusyExact(s: string, k: nat)
    requires s != [] && !Idle(s[0]) && k <= |s|
    ensures MarkScan(s, []) == Found(k) <==> AnySegment(s[..k])
  {
    hide MarkScan, Segment, AngleSegment, Erase;
    var c := s[0];
    MarkScanUnfold(s, []);
    if k > 0 {
      assert s[..k][0] == c;
    }
    if AnySegment(s[..k]) {
      AnySegmentFirst(s[..k]);
    }
    if c == '<' {
      MarkScanExact(s, k);
    } else if IsOpen(c) {
      OneReal(c);
      ScanUnfold(s, []);
      assert [] + [c] == [c] && [] + [c] == [c];
      BracketSkips(s[1..], [], [c]);
      ScanExact(s, k);
    }
  }

  /** The matcher with nothing to close passes over the marks from (l, p) up to (l, k), and from there up to (m, q)
      is a segment. */
  ghost predicate Starts(marks: seq<string>, l: nat, p: nat, k: nat, m: nat, q: nat)
    requires l <= m < |marks| && q <= |marks[m]|
  {
    p <= k < |marks[l]| && (l == m ==> k <= q) && AllIdle(marks[l][p..k]) && AnySegment(Between(marks, l, k, m, q))
  }

  lemma BetweenSplits(marks: seq<string>, l: nat, p: nat, k: nat, m: nat, q: nat)
    requires l <= m < |marks| && p <= k <= |marks[l]| && q <= |marks[m]| && (l == m ==> k <= q)
    ensures Between(marks, l, p, m, q) == marks[l][p..k] + Between(marks, l, k, m, q)
  {
    hide Flatten;
    var line := marks[l];
    if l == m {
      SliceSplits(line, p, k, q);
    } else {
      SliceSplits(line, p, k, |line|);
      ConcatAssoc(line[p..k], line[k..], Flatten(marks[l + 1..m]), marks[m][..q]);
    }
  }

  lemma SliceSplits(s: string, p: nat, k: nat, q: nat)
    requires p <= k <= q <= |s|
    ensures s[p..q] == s[p..k] + s[k..q]
  {
  }

  lemma ConcatAssoc(a: string, b: string, c: string, d: string)
    ensures a + b + c + d == a + (b + c + d)
  {
  }

  lemma BetweenBegins(marks: seq<string>, l: nat, k: nat, m: nat, q: nat)
    requires l <= m < |marks| && k < |marks[l]| && q <= |marks[m]| && (l == m ==> k <= q)
    ensures var b := Between(marks, l, k, m, q); b != [] ==> b[0] == marks[l][k]
  {
  }

  lemma StartsFirst(marks: seq<string>, l: nat, p: nat, k: nat, m: nat, q: nat)
    requires l <= m < |marks| && p <= |marks[l]| && q <= |marks[m]| && Starts(marks, l, p, k, m, q)
    ensures k == p + FirstBusy(marks[l][p..])
  {
    hide AnySegment, Between;
    var s := marks[l][p..];
    BetweenBegins(marks, l, k, m, q);
    AnySegmentFirst(Between(marks, l, k, m, q));
    var f := FirstBusy(s);
    assert s[k - p] == marks[l][k];
    assert forall i :: 0 <= i < k - p ==> marks[l][p..k][i] == s[i];
  }

  /** CloseExpression from a `<` that is an operator finds the end of the first bracket behind it on the line, if
      neither `;` nor a closing bracket comes first. */
  lemma CloseIdleExact(lines: seq<string>, l: nat, p: nat, m: nat, q: nat)
    requires l < |lines| && p < |lines[l]| && lines[l][p] == '<' && ForwardMark(lines[l], p) != '<'
    requires l <= m < |lines| && 1 <= q <= |lines[m]| && (l == m ==> p <= q)
    ensures Close(lines, l, p) == At(m, q) <==>
              && !(p + 1 < |lines[l]| && (lines[l][p + 1] == '<' || lines[l][p + 1] == '='))
              && exists k :: Starts(Forwards(lines), l, p, k, m, q)
  {
    hide MarkScan, MarkStep, Forward, ForwardMarks, CloseFrom, Between, AnySegment, Starts, Flatten;
    var marks := Forwards(lines);
    var head, tail := marks[l][p..], Flatten(marks[l + 1..]);
    var f := FirstBusy(head);
    forall k | Starts(marks, l, p, k, m, q) ensures k == p + f {
      StartsFirst(marks, l, p, k, m, q);
    }
    IdleScan(head, f);
    if f == |head| {
      NothingBusy(lines, l, p, m, q);
    } else {
      BusyStays(head[f..]);
      if !(p + 1 < |lines[l]| && (lines[l][p + 1] == '<' || lines[l][p + 1] == '=')) {
        CloseMarks(lines, l, p, m, q);
        BusyFound(marks, l, p, m, q);
      }
    }
  }

  lemma NothingBusy(lines: seq<string>, l: nat, p: nat, m: nat, q: nat)
    requires l <= m < |lines| && p < |lines[l]| && 1 <= q <= |lines[m]| && (l == m ==> p <= q) && lines[l][p] == '<'
    requires FirstBusy(Forwards(lines)[l][p..]) == |lines[l]| - p
    ensures Close(lines, l, p) != At(m, q) && forall k :: !Starts(Forwards(lines), l, p, k, m, q)
  {
    hide MarkScan, Forward, ForwardMarks, CloseFrom, Between, AnySegment, Starts;
    var head := Forwards(lines)[l][p..];
    ForwardIsMarkScan(lines[l], p, []);
    IdleScan(head, |head|);
    MarkScanNone();
    assert head[|head|..] == [];
    forall k ensures !Starts(Forwards(lines), l, p, k, m, q) {
      if Starts(Forwards(lines), l, p, k, m, q) {
        StartsFirst(Forwards(lines), l, p, k, m, q);
        StartsInside(Forwards(lines), l, p, k, m, q);
      }
    }
  }

  lemma StartsInside(marks: seq<string>, l: nat, p: nat, k: nat, m: nat, q: nat)
    requires l <= m < |marks| && q <= |marks[m]| && Starts(marks, l, p, k, m, q)
    ensures k < |marks[l]|
  {
  }

  lemma MarkScanNone()
    ensures MarkScan([], []) == Open([])
  {
  }

  lemma BusyStays(s: string)
    requires s != [] && !Idle(s[0])
    ensures var r := MarkScan(s, []); r.Open? ==> r.stack != []
  {
    hide MarkScan;
    MarkScanUnfold(s, []);
    var m := MarkStep(s[0], []);
    if m.Go? {
      StackStays(s[1..], m.stack);
    }
  }

  lemma BusyFound(marks: seq<string>, l: nat, p: nat, m: nat, q: nat)
    requires l <= m < |marks| && p < |marks[l]| && 1 <= q <= |marks[m]| && (l == m ==> p <= q)
    requires FirstBusy(marks[l][p..]) < |marks[l]| - p
    ensures MarkScan(marks[l][p..] + Flatten(marks[l + 1..]), []) == Found(|Between(marks, l, p, m, q)|) <==>
              exists k :: Starts(marks, l, p, k, m, q)
  {
    hide MarkScan, Between, AnySegment, Starts, Flatten;
    var head, tail := marks[l][p..], Flatten(marks[l + 1..]);
    var f, all := FirstBusy(head), marks[l][p..] + Flatten(marks[l + 1..]);
    var k := p + f;
    assert head[..f] == marks[l][p..k] && all[..f] == head[..f];
    IdleScan(all, f);
    assert all[f..] == marks[l][k..] + tail;
    forall k' | Starts(marks, l, p, k', m, q) ensures k' == k {
      StartsFirst(marks, l, p, k', m, q);
    }
    if l == m && q < k {
      StartsBefore(marks, l, p, k, m, q);
      BetweenFirst(marks, l, p, m, q);
    } else {
      BetweenSplits(marks, l, p, k, m, q);
      BetweenFirst(marks, l, k, m, q);
      BusyExact(all[f..], |Between(marks, l, k, m, q)|);
      StartsHere(marks, l, p, k, m, q);
    }
  }

  lemma StartsHere(marks: seq<string>, l: nat, p: nat, k: nat, m: nat, q: nat)
    requires l <= m < |marks| && p <= k < |marks[l]| && q <= |marks[m]| && (l == m ==> k <= q) && AllIdle(marks[l][p..k])
    ensures Starts(marks, l, p, k, m, q) <==> AnySegment(Between(marks, l, k, m, q))
  {
  }

  lemma StartsBefore(marks: seq<string>, l: nat, p: nat, k: nat, m: nat, q: nat)
    requires l == m < |marks| && p <= q < k && q <= |marks[m]|
    ensures !Starts(marks, l, p, k, m, q) && |Between(marks, l, p, m, q)| < k - p
  {
  }

  /** Asked for the end of a shift operator, CloseExpression returns the end of a bracket that follows it. */
  lemma ShiftFindsOther()
    ensures Close(["<<a(b)"], 0, 1) == At(0, 6)
  {
    hide Close, EndsInOperator, AnySegment;
    var lines: seq<string> := ["<<a(b)"];
    var line := lines[0];
    var marks := Forwards(lines);
    assert ForwardMark(line, 1) == SHIFT && ForwardMark(line, 2) == ' ';
    assert marks[0][3..6] == "( )";
    assert marks[0][1..3] == [SHIFT, ' '];
    OneGroup();
    assert Between(marks, 0, 3, 0, 6) == "( )";
    assert Starts(marks, 0, 1, 3, 0, 6);
    CloseIdleExact(lines, 0, 1, 0, 6);
  }

  lemma OneGroup()
    ensures AnySegment("( )")
  {
    var t := Plain(' ', Empty);
    TextOfPlain(' ');
    assert "( )" == ['('] + [' '] + [')'];
    assert IsGroup("( )", '(', t);
  }
}
