/** The bracket matchers of scripts/cpplint.py: FindEndOfExpressionInLine, CloseExpression and their
    backward counterparts, with every branch for template brackets, operators and semicolons. */
module Brackets {
  import opened Characters

  // ---------- characters ----------

  predicate IsOpen(c: char) { c == '(' || c == '[' || c == '{' }

  predicate IsClose(c: char) { c == ')' || c == ']' || c == '}' }

  function Closer(c: char): char
    requires IsOpen(c)
  {
    if c == '(' then ')' else if c == '[' then ']' else '}'
  }

  predicate Matches(open: char, close: char) {
    (open == '(' && close == ')') || (open == '[' && close == ']') || (open == '{' && close == '}')
  }

  function SkipSpacesBack(line: string, i: nat): (j: nat)
    requires i <= |line|
    ensures j <= i && (j < i ==> IsSpace(line[i - 1]))
  {
    if i > 0 && IsSpace(line[i - 1]) then SkipSpacesBack(line, i - 1) else i
  }

  /** `Search(r'\boperator\s*$', line[0:i])`. */
  predicate OperatorBefore(line: string, i: nat)
    requires i <= |line|
  {
    var j := SkipSpacesBack(line, i);
    j >= 8 && line[j - 8..j] == "operator" && (j == 8 || !IsWord(line[j - 9]))
  }

  /** `Match(r'\s>=\s', line[i - 1:])`, where `line[i]` is '>'. */
  predicate GreaterEqualAt(line: string, i: nat)
    requires 0 < i < |line|
  {
    IsSpace(line[i - 1]) && i + 2 < |line| && line[i + 1] == '=' && IsSpace(line[i + 2])
  }

  // ---------- one line forward ----------

  /** What a line scan returns: the position, or (-1, None), or (-1, stack). */
  datatype Outcome = Found(pos: nat) | Failed | Open(stack: string)

  /** `while stack and stack[-1] == angle: stack.pop()` */
  function PopAngles(stack: string, angle: char): string {
    if stack != [] && stack[|stack| - 1] == angle then PopAngles(stack[..|stack| - 1], angle) else stack
  }

  /** What one character does: end the scan, or go on at `to` with a new stack. */
  datatype Move = Stop(outcome: Outcome) | Go(to: int, stack: string)

  function ForwardStep(line: string, i: nat, stack: string): (m: Move)
    requires i < |line|
    ensures m.Go? ==> m.to == i + 1
  {
    var c, n := line[i], |stack| - 1;
    if IsOpen(c) then Go(i + 1, stack + [c])
    else if c == '<' then
      if i > 0 && line[i - 1] == '<' then
        if stack != [] && stack[n] == '<' then
          if n == 0 then Stop(Failed) else Go(i + 1, stack[..n])
        else Go(i + 1, stack)
      else if i > 0 && OperatorBefore(line, i) then Go(i + 1, stack)
      else Go(i + 1, stack + ['<'])
    else if IsClose(c) then
      var s := PopAngles(stack, '<');
      if s == [] then Stop(Failed)
      else if Matches(s[|s| - 1], c) then
        if |s| == 1 then Stop(Found(i + 1)) else Go(i + 1, s[..|s| - 1])
      else Stop(Failed)
    else if c == '>' then
      if i > 0 && (line[i - 1] == '-' || OperatorBefore(line, i - 1)) then Go(i + 1, stack)
      else if stack != [] && stack[n] == '<' then
        if n == 0 then Stop(Found(i + 1)) else Go(i + 1, stack[..n])
      else Go(i + 1, stack)
    else if c == ';' then
      var s := PopAngles(stack, '<');
      if s == [] then Stop(Failed) else Go(i + 1, s)
    else Go(i + 1, stack)
  }

  function Forward(line: string, i: nat, stack: string): Outcome
    decreases |line| - i
  {
    if i >= |line| then Open(stack)
    else
      match ForwardStep(line, i, stack)
      case Stop(r) => r
      case Go(k, s) => Forward(line, k, s)
  }

  method FindEndOfExpressionInLine(line: string, startpos: nat, initial: string) returns (r: Outcome)
    ensures r == Forward(line, startpos, initial)
  {
    var stack := initial;
    var i := startpos;
    while i < |line|
      invariant startpos <= i
      invariant Forward(line, i, stack) == Forward(line, startpos, initial)
      decreases |line| - i
    {
      var c := line[i];
      if IsOpen(c) {
        stack := stack + [c];
      } else if c == '<' {
        if i > 0 && line[i - 1] == '<' {
          if stack != [] && stack[|stack| - 1] == '<' {
            stack := stack[..|stack| - 1];
            if stack == [] {
              return Failed;
            }
          }
        } else if i > 0 && OperatorBefore(line, i) {
        } else {
          stack := stack + ['<'];
        }
      } else if IsClose(c) {
        stack := DropAngles(stack, '<');
        if stack == [] {
          return Failed;
        }
        if Matches(stack[|stack| - 1], c) {
          stack := stack[..|stack| - 1];
          if stack == [] {
            return Found(i + 1);
          }
        } else {
          return Failed;
        }
      } else if c == '>' {
        if i > 0 && (line[i - 1] == '-' || OperatorBefore(line, i - 1)) {
        } else if stack != [] && stack[|stack| - 1] == '<' {
          stack := stack[..|stack| - 1];
          if stack == [] {
            return Found(i + 1);
          }
        }
      } else if c == ';' {
        stack := DropAngles(stack, '<');
        if stack == [] {
          return Failed;
        }
      }
      i := i + 1;
    }
    return Open(stack);
  }

  method DropAngles(initial: string, angle: char) returns (stack: string)
    ensures stack == PopAngles(initial, angle)
  {
    stack := initial;
    while stack != [] && stack[|stack| - 1] == angle
      invariant PopAngles(stack, angle) == PopAngles(initial, angle)
      decreases |stack|
    {
      stack := stack[..|stack| - 1];
    }
  }

  // ---------- one line backward ----------

  function BackwardStep(line: string, i: nat, stack: string): (m: Move)
    requires i < |line|
    ensures m.Go? ==> i - 2 <= m.to < i && m.to >= -1
  {
    var c, n := line[i], |stack| - 1;
    if IsClose(c) then Go(i - 1, stack + [c])
    else if c == '>' then
      if i > 0 && (line[i - 1] == '-' || GreaterEqualAt(line, i) || OperatorBefore(line, i)) then Go(i - 2, stack)
      else Go(i - 1, stack + ['>'])
    else if c == '<' then
      if i > 0 && line[i - 1] == '<' then Go(i - 2, stack)
      else if stack != [] && stack[n] == '>' then
        if n == 0 then Stop(Found(i)) else Go(i - 1, stack[..n])
      else Go(i - 1, stack)
    else if IsOpen(c) then
      var s := PopAngles(stack, '>');
      if s == [] then Stop(Failed)
      else if Matches(c, s[|s| - 1]) then
        if |s| == 1 then Stop(Found(i)) else Go(i - 1, s[..|s| - 1])
      else Stop(Failed)
    else if c == ';' then
      var s := PopAngles(stack, '>');
      if s == [] then Stop(Failed) else Go(i - 1, s)
    else Go(i - 1, stack)
  }

  /** From position i leftwards; i == -1 is the beginning of the line. */
  function Backward(line: string, i: int, stack: string): Outcome
    requires i < |line|
    decreases i
  {
    if i < 0 then Open(stack)
    else
      match BackwardStep(line, i, stack)
      case Stop(r) => r
      case Go(k, s) => Backward(line, k, s)
  }

  method FindStartOfExpressionInLine(line: string, endpos: int, initial: string) returns (r: Outcome)
    requires endpos < |line|
    ensures r == Backward(line, endpos, initial)
  {
    var stack := initial;
    var i := endpos;
    while i >= 0
      invariant i < |line|
      invariant Backward(line, i, stack) == Backward(line, endpos, initial)
      decreases i
    {
      var c := line[i];
      if IsClose(c) {
        stack := stack + [c];
      } else if c == '>' {
        if i > 0 && (line[i - 1] == '-' || GreaterEqualAt(line, i) || OperatorBefore(line, i)) {
          i := i - 1;
        } else {
          stack := stack + ['>'];
        }
      } else if c == '<' {
        if i > 0 && line[i - 1] == '<' {
          i := i - 1;
        } else if stack != [] && stack[|stack| - 1] == '>' {
          stack := stack[..|stack| - 1];
          if stack == [] {
            return Found(i);
          }
        }
      } else if IsOpen(c) {
        stack := DropAngles(stack, '>');
        if stack == [] {
          return Failed;
        }
        if Matches(c, stack[|stack| - 1]) {
          stack := stack[..|stack| - 1];
          if stack == [] {
            return Found(i);
          }
        } else {
          return Failed;
        }
      } else if c == ';' {
        stack := DropAngles(stack, '>');
        if stack == [] {
          return Failed;
        }
      }
      i := i - 1;
    }
    return Open(stack);
  }

  // ---------- across lines ----------

  datatype Place = Nowhere | At(line: nat, pos: nat)

  function CloseFrom(lines: seq<string>, l: nat, stack: string): Place
    decreases |lines| - l
  {
    if l >= |lines| then Nowhere
    else
      match Forward(lines[l], 0, stack)
      case Found(p) => At(l, p)
      case Failed => Nowhere
      case Open(s) => if s == [] then Nowhere else CloseFrom(lines, l + 1, s)
  }

  predicate LooksLikeShiftOrLessEqual(line: string, pos: nat)
    requires pos < |line|
  {
    line[pos] == '<' && pos + 1 < |line| && (line[pos + 1] == '<' || line[pos + 1] == '=')
  }

  function Close(lines: seq<string>, l: nat, p: nat): Place
    requires l < |lines| && p < |lines[l]|
  {
    var c := lines[l][p];
    if !(IsOpen(c) || c == '<') || LooksLikeShiftOrLessEqual(lines[l], p) then Nowhere
    else
      match Forward(lines[l], p, [])
      case Found(e) => At(l, e)
      case Failed => Nowhere
      case Open(s) => if s == [] then Nowhere else CloseFrom(lines, l + 1, s)
  }

  /** CloseExpression: the place just past the closing bracket; (NumLines, -1) if there is none. */
  method CloseExpression(lines: seq<string>, linenum: nat, pos: nat) returns (endLine: int, endPos: int)
    requires linenum < |lines| && pos < |lines[linenum]|
    ensures match Close(lines, linenum, pos)
            case Nowhere => endLine == |lines| && endPos == -1
            case At(l, p) => endLine == l && endPos == p
  {
    var line := lines[linenum];
    if !(IsOpen(line[pos]) || line[pos] == '<') || LooksLikeShiftOrLessEqual(line, pos) {
      return |lines|, -1;
    }
    var r := FindEndOfExpressionInLine(line, pos, []);
    if r.Found? {
      return linenum, r.pos;
    }
    var l := linenum;
    while r.Open? && r.stack != [] && l < |lines| - 1
      invariant linenum <= l < |lines| && !r.Found?
      invariant Close(lines, linenum, pos) ==
                  if r.Open? && r.stack != [] then CloseFrom(lines, l + 1, r.stack) else Nowhere
      decreases |lines| - l
    {
      l := l + 1;
      r := FindEndOfExpressionInLine(lines[l], 0, r.stack);
      if r.Found? {
        return l, r.pos;
      }
    }
    return |lines|, -1;
  }

  function OpenFrom(lines: seq<string>, l: nat, stack: string): Place
    requires l <= |lines|
    decreases l
  {
    if l == 0 then Nowhere
    else
      match Backward(lines[l - 1], |lines[l - 1]| - 1, stack)
      case Found(p) => At(l - 1, p)
      case Failed => Nowhere
      case Open(s) => if s == [] then Nowhere else OpenFrom(lines, l - 1, s)
  }

  function ReverseClose(lines: seq<string>, l: nat, p: nat): Place
    requires l < |lines| && p < |lines[l]|
  {
    var c := lines[l][p];
    if !(IsClose(c) || c == '>') then Nowhere
    else
      match Backward(lines[l], p, [])
      case Found(s) => At(l, s)
      case Failed => Nowhere
      case Open(s) => if s == [] then Nowhere else OpenFrom(lines, l, s)
  }

  /** ReverseCloseExpression: the place of the opening bracket; (0, -1) if there is none. */
  method ReverseCloseExpression(lines: seq<string>, linenum: nat, pos: nat) returns (startLine: int, startPos: int)
    requires linenum < |lines| && pos < |lines[linenum]|
    ensures match ReverseClose(lines, linenum, pos)
            case Nowhere => startLine == 0 && startPos == -1
            case At(l, p) => startLine == l && startPos == p
  {
    var line := lines[linenum];
    if !(IsClose(line[pos]) || line[pos] == '>') {
      return 0, -1;
    }
    var r := FindStartOfExpressionInLine(line, pos, []);
    if r.Found? {
      return linenum, r.pos;
    }
    var l := linenum;
    while r.Open? && r.stack != [] && l > 0
      invariant l <= linenum && !r.Found?
      invariant ReverseClose(lines, linenum, pos) ==
                  if r.Open? && r.stack != [] then OpenFrom(lines, l, r.stack) else Nowhere
      decreases l
    {
      l := l - 1;
      r := FindStartOfExpressionInLine(lines[l], |lines[l]| - 1, r.stack);
      if r.Found? {
        return l, r.pos;
      }
    }
    return 0, -1;
  }
}
