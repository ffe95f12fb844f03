/** What the bracket matchers find.  Starting from a round, square or curly bracket, whatever angle
    brackets, operators and semicolons the lines hold, it is exactly the other end of the segment. */
module Matching {
  import opened Brackets
  import opened Sequences
  import opened WellMatched

  // ---------- angle brackets, operators and semicolons do not matter ----------

  /** The stack without its tentative template brackets. */
  function Erase(stack: string, angle: char): (r: string)
    ensures |r| <= |stack|
  {
    if stack == [] then []
    else
      var n := |stack| - 1;
      if stack[n] == angle then Erase(stack[..n], angle) else Erase(stack[..n], angle) + [stack[n]]
  }

  /** The scan started at a round, square or curly bracket. */
  predicate Bottomed(stack: string, angle: char) {
    stack != [] && stack[0] != angle
  }

  lemma ErasePush(stack: string, c: char, angle: char)
    ensures Erase(stack + [c], angle) == if c == angle then Erase(stack, angle) else Erase(stack, angle) + [c]
  {
    assert (stack + [c])[..|stack|] == stack;
  }

  /** Dropping template brackets changes nothing else and uncovers the innermost real bracket. */
  lemma {:induction false} ErasePop(stack: string, angle: char)
    requires Bottomed(stack, angle)
    ensures var s := PopAngles(stack, angle);
            && Bottomed(s, angle) && s[|s| - 1] != angle && Erase(s, angle) == Erase(stack, angle)
            && Erase(s, angle) == Erase(s[..|s| - 1], angle) + [s[|s| - 1]]
            && (|s| == 1 <==> |Erase(s, angle)| == 1)
    decreases |stack|
  {
    var n := |stack| - 1;
    if stack[n] == angle {
      ErasePop(stack[..n], angle);
    } else if n > 0 {
      EraseBottom(stack[..n], angle);
    }
  }

  /** The innermost real bracket, seen on either stack. */
  lemma EraseTop(stack: string, angle: char)
    requires Bottomed(stack, angle)
    ensures var s, e := PopAngles(stack, angle), Erase(stack, angle);
            && s != [] && e != [] && Bottomed(s, angle) && Erase(s, angle) == e
            && e[|e| - 1] == s[|s| - 1] && (|e| == 1 <==> |s| == 1)
            && e[..|e| - 1] == Erase(s[..|s| - 1], angle) && (|s| > 1 ==> Bottomed(s[..|s| - 1], angle))
  {
    hide Erase, PopAngles;
    ErasePop(stack, angle);
  }

  lemma EraseAngle(stack: string, angle: char)
    requires Bottomed(stack, angle)
    ensures stack[|stack| - 1] == angle ==>
              |stack| > 1 && Bottomed(stack[..|stack| - 1], angle) && Erase(stack[..|stack| - 1], angle) == Erase(stack, angle)
  {
  }

  lemma {:induction false} EraseBottom(stack: string, angle: char)
    requires Bottomed(stack, angle)
    ensures Erase(stack, angle) != []
    decreases |stack|
  {
    if |stack| > 1 {
      EraseBottom(stack[..|stack| - 1], angle);
    }
  }

  /** `r` on the full stack and `e` on the erased one are the same outcome, `k` characters apart. */
  ghost predicate SameOutcome(r: Outcome, e: Outcome, k: nat, angle: char) {
    match r
    case Found(p) => p >= k && e == Found(p - k)
    case Failed => e == Failed
    case Open(s) => Bottomed(s, angle) && e == Open(Erase(s, angle))
  }

  lemma ForwardStepErases(line: string, i: nat, stack: string)
    requires i < |line| && (Bottomed(stack, '<') || (stack == [] && IsOpen(line[i])))
    ensures var e := ScanStep(line[i], Erase(stack, '<'));
            match ForwardStep(line, i, stack)
            case Stop(r) => (r == Found(i + 1) && e == Stop(Found(1))) || (r == Failed && e == Stop(Failed))
            case Go(_, s) => Bottomed(s, '<') && e == Go(1, Erase(s, '<'))
  {
    hide OperatorBefore, Erase, PopAngles;
    var c := line[i];
    ErasePush(stack, c, '<');
    if stack != [] {
      EraseTop(stack, '<');
      EraseAngle(stack, '<');
    }
  }

  lemma {:induction false} ForwardErases(line: string, i: nat, stack: string)
    requires i <= |line| && (Bottomed(stack, '<') || (stack == [] && i < |line| && IsOpen(line[i])))
    ensures SameOutcome(Forward(line, i, stack), Scan(line[i..], Erase(stack, '<')), i, '<')
    decreases |line| - i
  {
    hide Scan, Erase, ScanStep, ForwardStep, Bottomed;
    if i < |line| {
      ScanUnfold(line[i..], Erase(stack, '<'));
      ForwardStepErases(line, i, stack);
      var m := ForwardStep(line, i, stack);
      assert line[i..][1..] == line[i + 1..];
      if m.Go? {
        ForwardErases(line, i + 1, m.stack);
      }
    } else {
      ScanEmpty(line[i..], Erase(stack, '<'));
    }
  }

  /** The character an operator test skips is no bracket. */
  lemma OperatorIsNoBracket(line: string, i: nat)
    requires 0 < i <= |line| && OperatorBefore(line, i)
    ensures !IsOpen(line[i - 1]) && !IsClose(line[i - 1])
  {
    var j := SkipSpacesBack(line, i);
    if j == i {
      assert line[j - 8..j][7] == line[j - 1] == 'r';
    }
  }

  lemma BackwardStepErases(line: string, i: nat, stack: string)
    requires i < |line| && (Bottomed(stack, '>') || (stack == [] && IsClose(line[i])))
    ensures var e := ScanBackStep(line[i], i, Erase(stack, '>'));
            match BackwardStep(line, i, stack)
            case Stop(r) => (r == Found(i) || r == Failed) && e == Stop(r)
            case Go(k, s) => Bottomed(s, '>') && e == Go(i - 1, Erase(s, '>'))
                             && (k == i - 2 ==> !IsOpen(line[i - 1]) && !IsClose(line[i - 1]))
  {
    hide OperatorBefore, GreaterEqualAt, Erase, PopAngles;
    var c := line[i];
    ErasePush(stack, c, '>');
    if stack != [] {
      EraseTop(stack, '>');
      EraseAngle(stack, '>');
    }
    if i > 0 && OperatorBefore(line, i) {
      OperatorIsNoBracket(line, i);
    }
    if i > 0 && GreaterEqualAt(line, i) {
      GreaterEqualIsNoBracket(line, i);
    }
  }

  /** Nor is the one the test for `>=` skips. */
  lemma GreaterEqualIsNoBracket(line: string, i: nat)
    requires 0 < i < |line| && GreaterEqualAt(line, i)
    ensures !IsOpen(line[i - 1]) && !IsClose(line[i - 1])
  {
  }

  lemma {:induction false} BackwardErases(line: string, i: int, stack: string)
    requires -1 <= i < |line| && (Bottomed(stack, '>') || (stack == [] && i >= 0 && IsClose(line[i])))
    ensures SameOutcome(Backward(line, i, stack), ScanBack(line[..i + 1], Erase(stack, '>')), 0, '>')
    decreases i + 1
  {
    hide ScanBack, Erase, BackwardStep, Bottomed;
    if i >= 0 {
      ScanBackUnfold(line, i, Erase(stack, '>'));
      BackwardStepErases(line, i, stack);
      var m := BackwardStep(line, i, stack);
      if m.Go? {
        if m.to == i - 2 {
          ScanBackUnfold(line, i - 1, Erase(m.stack, '>'));
        }
        BackwardErases(line, m.to, m.stack);
      }
    } else {
      ScanEmpty(line[..i + 1], Erase(stack, '>'));
    }
  }

  // ---------- the theorems, across lines ----------

  /** The characters of the lines from place (l, p) up to place (m, q). */
  function Between(lines: seq<string>, l: nat, p: nat, m: nat, q: nat): string
    requires l <= m < |lines| && p <= |lines[l]| && q <= |lines[m]| && (l == m ==> p <= q)
  {
    if l == m then lines[l][p..q] else lines[l][p..] + Flatten(lines[l + 1..m]) + lines[m][..q]
  }

  lemma {:induction false} CloseFromExact(lines: seq<string>, l: nat, stack: string, m: nat, q: nat)
    requires l <= m < |lines| && 1 <= q <= |lines[m]| && Bottomed(stack, '<')
    ensures CloseFrom(lines, l, stack) == At(m, q) <==>
              Scan(Flatten(lines[l..]), Erase(stack, '<')) == Found(|Flatten(lines[l..m])| + q)
    decreases |lines| - l
  {
    var line, rest := lines[l], lines[l + 1..];
    ForwardErases(line, 0, stack);
    assert line[0..] == line;
    assert lines[l..][1..] == rest && lines[l..][0] == line;
    ScanConcat(line, Flatten(rest), Erase(stack, '<'));
    var r := Forward(line, 0, stack);
    if m == l {
      assert lines[l..m] == [];
      if r.Open? && l + 1 < |lines| {
        CloseFromLater(lines, l + 1, r.stack);
      }
    } else {
      assert lines[l..m][1..] == lines[l + 1..m] && lines[l..m][0] == line;
      if r.Open? {
        CloseFromExact(lines, l + 1, r.stack, m, q);
      }
    }
  }

  lemma {:induction false} CloseFromLater(lines: seq<string>, l: nat, stack: string)
    ensures var r := CloseFrom(lines, l, stack); r.At? ==> r.line >= l
    decreases |lines| - l
  {
    if l < |lines| {
      var r := Forward(lines[l], 0, stack);
      if r.Open? {
        CloseFromLater(lines, l + 1, r.stack);
      }
    }
  }

  /** CloseExpression from a round, square or curly bracket returns a place exactly when the text up
      to that place is the segment the bracket opens. */
  lemma CloseExact(lines: seq<string>, l: nat, p: nat, m: nat, q: nat)
    requires l < |lines| && p < |lines[l]| && IsOpen(lines[l][p])
    requires l <= m < |lines| && 1 <= q <= |lines[m]| && (l == m ==> p <= q)
    ensures Close(lines, l, p) == At(m, q) <==> Segment(Between(lines, l, p, m, q))
  {
    if l == m {
      CloseExactSameLine(lines, l, p, q);
    } else {
      CloseExactLater(lines, l, p, m, q);
    }
  }

  lemma CloseExactSameLine(lines: seq<string>, l: nat, p: nat, q: nat)
    requires l < |lines| && p < |lines[l]| && IsOpen(lines[l][p]) && p <= q <= |lines[l]|
    ensures Close(lines, l, p) == At(l, q) <==> Segment(lines[l][p..q])
  {
    hide Forward, Scan, Segment, CloseFrom;
    var head, r := lines[l][p..], Forward(lines[l], p, []);
    ForwardErases(lines[l], p, []);
    ScanExact(head, q - p);
    assert head[..q - p] == lines[l][p..q];
    if r.Open? {
      CloseFromLater(lines, l + 1, r.stack);
    }
  }

  lemma CloseExactLater(lines: seq<string>, l: nat, p: nat, m: nat, q: nat)
    requires l < |lines| && p < |lines[l]| && IsOpen(lines[l][p])
    requires l < m < |lines| && 1 <= q <= |lines[m]|
    ensures Close(lines, l, p) == At(m, q) <==> Segment(Between(lines, l, p, m, q))
  {
    hide Forward, Scan, Segment, CloseFrom, Flatten;
    var head, tail, r := lines[l][p..], Flatten(lines[l + 1..]), Forward(lines[l], p, []);
    var between := Between(lines, l, p, m, q);
    ForwardErases(lines[l], p, []);
    ScanConcat(head, tail, []);
    PrefixOfRest(lines, l, m, q);
    assert (head + tail)[..|between|] == between;
    ScanExact(head + tail, |between|);
    if r.Open? {
      CloseFromExact(lines, l + 1, r.stack, m, q);
    }
  }

  lemma PrefixOfRest(lines: seq<string>, l: nat, m: nat, q: nat)
    requires l < m < |lines| && q <= |lines[m]|
    ensures Flatten(lines[l + 1..]) == Flatten(lines[l + 1..m]) + lines[m][..q] + (lines[m][q..] + Flatten(lines[m + 1..]))
  {
    FlattenConcat(lines[l + 1..m], lines[m..]);
    assert lines[l + 1..] == lines[l + 1..m] + lines[m..];
    assert lines[m..][1..] == lines[m + 1..];
  }

  /** A line before another one ends before it. */
  lemma {:induction false} FlattenGrows(lines: seq<string>, m: nat, k: nat)
    requires m < k <= |lines|
    ensures |Flatten(lines[..m])| + |lines[m]| <= |Flatten(lines[..k])|
    decreases k
  {
    FlattenSnoc(lines[..k - 1], lines[k - 1]);
    assert lines[..k - 1] + [lines[k - 1]] == lines[..k];
    if m < k - 1 {
      FlattenGrows(lines, m, k - 1);
    }
  }

  lemma {:induction false} OpenFromExact(lines: seq<string>, m: nat, stack: string, l: nat, p: nat)
    requires l < m <= |lines| && p < |lines[l]| && Bottomed(stack, '>')
    ensures OpenFrom(lines, m, stack) == At(l, p) <==>
              ScanBack(Flatten(lines[..m]), Erase(stack, '>')) == Found(|Flatten(lines[..l])| + p)
    decreases m
  {
    hide Backward, ScanBack, Flatten, Erase;
    var line, front := lines[m - 1], lines[..m - 1];
    BackwardErases(line, |line| - 1, stack);
    assert line[..|line|] == line;
    assert front + [line] == lines[..m];
    FlattenSnoc(front, line);
    ScanBackConcat(Flatten(front), line, Erase(stack, '>'));
    var r := Backward(line, |line| - 1, stack);
    if l < m - 1 {
      FlattenGrows(lines, l, m - 1);
      if r.Open? {
        OpenFromExact(lines, m - 1, r.stack, l, p);
      }
    } else if r.Open? {
      OpenFromEarlier(lines, m - 1, r.stack);
    }
  }

  lemma {:induction false} OpenFromEarlier(lines: seq<string>, m: nat, stack: string)
    requires m <= |lines|
    ensures var r := OpenFrom(lines, m, stack); r.At? ==> r.line < m
    decreases m
  {
    if m > 0 {
      var r := Backward(lines[m - 1], |lines[m - 1]| - 1, stack);
      if r.Open? {
        OpenFromEarlier(lines, m - 1, r.stack);
      }
    }
  }

  /** ReverseCloseExpression from a round, square or curly bracket returns a place exactly when the
      text from that place on is the segment the bracket closes. */
  lemma ReverseExact(lines: seq<string>, l: nat, p: nat, m: nat, q: nat)
    requires m < |lines| && q < |lines[m]| && IsClose(lines[m][q])
    requires l <= m && p < |lines[l]| && (l == m ==> p <= q)
    ensures ReverseClose(lines, m, q) == At(l, p) <==> Segment(Between(lines, l, p, m, q + 1))
  {
    if l == m {
      ReverseExactSameLine(lines, p, m, q);
    } else {
      ReverseExactEarlier(lines, l, p, m, q);
    }
  }

  lemma ReverseExactSameLine(lines: seq<string>, p: nat, m: nat, q: nat)
    requires m < |lines| && q < |lines[m]| && IsClose(lines[m][q]) && p <= q
    ensures ReverseClose(lines, m, q) == At(m, p) <==> Segment(lines[m][p..q + 1])
  {
    hide Backward, ScanBack, Segment, OpenFrom;
    var head, r := lines[m][..q + 1], Backward(lines[m], q, []);
    BackwardErases(lines[m], q, []);
    ScanBackExact(head, p);
    assert head[p..] == lines[m][p..q + 1];
    if r.Open? {
      OpenFromEarlier(lines, m, r.stack);
    }
  }

  lemma ReverseExactEarlier(lines: seq<string>, l: nat, p: nat, m: nat, q: nat)
    requires m < |lines| && q < |lines[m]| && IsClose(lines[m][q]) && l < m && p < |lines[l]|
    ensures ReverseClose(lines, m, q) == At(l, p) <==> Segment(Between(lines, l, p, m, q + 1))
  {
    hide Backward, ScanBack, Segment, OpenFrom, Flatten, Between;
    var front, last, r := Flatten(lines[..m]), lines[m][..q + 1], Backward(lines[m], q, []);
    var k := |Flatten(lines[..l])| + p;
    BackwardErases(lines[m], q, []);
    ScanBackConcat(front, last, []);
    RestOfPrefix(lines, l, p, m, q);
    ScanBackExact(front + last, k);
    if r.Open? {
      OpenFromExact(lines, m, r.stack, l, p);
    }
  }

  lemma RestOfPrefix(lines: seq<string>, l: nat, p: nat, m: nat, q: nat)
    requires m < |lines| && q < |lines[m]| && l < m && p < |lines[l]|
    ensures var k, s := |Flatten(lines[..l])| + p, Flatten(lines[..m]) + lines[m][..q + 1];
            |lines[m][..q + 1]| > 0 && k < |Flatten(lines[..m])| && s[k..] == Between(lines, l, p, m, q + 1)
  {
    hide Flatten;
    FlattenGrows(lines, l, m);
    FlattenConcat(lines[..l], [lines[l]] + lines[l + 1..m]);
    assert lines[..m] == lines[..l] + ([lines[l]] + lines[l + 1..m]);
    FlattenCons(lines[l], lines[l + 1..m]);
    DropInto(Flatten(lines[..l]), lines[l], Flatten(lines[l + 1..m]), lines[m][..q + 1], p);
  }

  lemma FlattenCons(line: string, rest: seq<string>)
    ensures Flatten([line] + rest) == line + Flatten(rest)
  {
    assert ([line] + rest)[1..] == rest;
  }

  lemma DropInto(a: string, b: string, c: string, d: string, p: nat)
    requires p <= |b|
    ensures (a + (b + c) + d)[|a| + p..] == b[p..] + c + d
  {
  }

  /** The two matchers undo each other: from an opening bracket CloseExpression reaches a closing one
      exactly when ReverseCloseExpression leads from there back to where the search started. */
  lemma MatchersInverse(lines: seq<string>, l: nat, p: nat, m: nat, q: nat)
    requires l < |lines| && p < |lines[l]| && IsOpen(lines[l][p])
    requires m < |lines| && q < |lines[m]|
    ensures Close(lines, l, p) == At(m, q + 1) <==> IsClose(lines[m][q]) && ReverseClose(lines, m, q) == At(l, p)
  {
    hide Close, ReverseClose, Segment, Between;
    CloseStaysAhead(lines, l, p);
    if IsClose(lines[m][q]) {
      ReverseStaysBehind(lines, m, q);
    }
    if l < m || (l == m && p <= q) {
      CloseExact(lines, l, p, m, q + 1);
      if Segment(Between(lines, l, p, m, q + 1)) {
        SegmentEndsClosed(lines, l, p, m, q);
      }
      if IsClose(lines[m][q]) {
        ReverseExact(lines, l, p, m, q);
      }
    }
  }

  lemma CloseStaysAhead(lines: seq<string>, l: nat, p: nat)
    requires l < |lines| && p < |lines[l]| && IsOpen(lines[l][p])
    ensures var r := Close(lines, l, p); r.At? ==> r.line > l || (r.line == l && r.pos > p)
  {
    hide Forward, CloseFrom;
    ForwardErases(lines[l], p, []);
    var r := Forward(lines[l], p, []);
    if r.Open? {
      CloseFromLater(lines, l + 1, r.stack);
    }
  }

  lemma ReverseStaysBehind(lines: seq<string>, m: nat, q: nat)
    requires m < |lines| && q < |lines[m]| && IsClose(lines[m][q])
    ensures var r := ReverseClose(lines, m, q); r.At? ==> r.line < m || (r.line == m && r.pos <= q)
  {
    hide Backward, OpenFrom;
    BackwardErases(lines[m], q, []);
    var r := Backward(lines[m], q, []);
    if r.Open? {
      OpenFromEarlier(lines, m, r.stack);
    }
  }

  lemma SegmentEndsClosed(lines: seq<string>, l: nat, p: nat, m: nat, q: nat)
    requires l <= m < |lines| && p < |lines[l]| && q < |lines[m]| && (l == m ==> p <= q)
    requires Segment(Between(lines, l, p, m, q + 1))
    ensures IsClose(lines[m][q])
  {
    hide Text, Flatten;
    var s := Between(lines, l, p, m, q + 1);
    var o, t :| IsGroup(s, o, t);
    assert s[|s| - 1] == lines[m][q];
  }
}
