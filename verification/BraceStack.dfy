/** The loop of NestingState.Update in scripts/cpplint.py that consumes the braces, semicolons and
    closing parentheses of a line. */
module BraceStack {
  import opened Sequences

  // ---------- the tokens of a line ----------

  /** The fields of _BlockInfo and its subclasses that steer the brace loop: whether the opening brace
      was seen; `kind` stands for everything else. */
  datatype Block = Block(kind: nat, seenOpenBrace: bool)

  predicate SeenOpenBrace(stack: seq<Block>) {
    stack == [] || stack[|stack| - 1].seenOpenBrace
  }

  predicate IsToken(c: char) { c == '{' || c == '}' || c == ';' || c == ')' }

  /** Where `[{;)}]` first matches; the end of the line if nowhere. */
  function FirstToken(line: string): (i: nat)
    ensures i <= |line| && (i < |line| ==> IsToken(line[i]))
    ensures forall k :: 0 <= k < i ==> !IsToken(line[k])
  {
    if line == [] || IsToken(line[0]) then 0 else 1 + FirstToken(line[1..])
  }

  /** What one token does; `kindOf` tells the kind of the block that opens from the rest of the line. */
  function Token(kindOf: string -> nat, stack: seq<Block>, line: string, c: char): seq<Block> {
    var n := |stack| - 1;
    if c == '{' then
      if !SeenOpenBrace(stack) then stack[n := stack[n].(seenOpenBrace := true)]
      else stack + [Block(kindOf(line), true)]
    else if c == ';' || c == ')' then
      if !SeenOpenBrace(stack) then stack[..n] else stack
    else if stack != [] then stack[..n] else stack
  }

  function Consume(kindOf: string -> nat, stack: seq<Block>, line: string): seq<Block>
    decreases |line|
  {
    var i := FirstToken(line);
    if i == |line| then stack else Consume(kindOf, Token(kindOf, stack, line, line[i]), line[i + 1..])
  }

  method ConsumeBraces(kindOf: string -> nat, initial: seq<Block>, text: string) returns (stack: seq<Block>)
    ensures stack == Consume(kindOf, initial, text)
  {
    hide FirstToken;
    stack := initial;
    var line := text;
    while true
      invariant Consume(kindOf, stack, line) == Consume(kindOf, initial, text)
      decreases |line|
    {
      var i := FirstToken(line);
      if i == |line| {
        break;
      }
      var token := line[i];
      if token == '{' {
        if !SeenOpenBrace(stack) {
          stack := stack[|stack| - 1 := stack[|stack| - 1].(seenOpenBrace := true)];
        } else {
          stack := stack + [Block(kindOf(line), true)];
        }
      } else if token == ';' || token == ')' {
        if !SeenOpenBrace(stack) {
          stack := stack[..|stack| - 1];
        }
      } else {
        if stack != [] {
          stack := stack[..|stack| - 1];
        }
      }
      line := line[i + 1..];
    }
  }

  function ConsumeLines(kindOf: string -> nat, stack: seq<Block>, lines: seq<string>): seq<Block>
    decreases |lines|
  {
    if lines == [] then stack else ConsumeLines(kindOf, Consume(kindOf, stack, lines[0]), lines[1..])
  }

  /** The blocks from `base` up have seen their opening brace; the ones below may be pending. */
  ghost predicate SeenFrom(base: nat, stack: seq<Block>) {
    forall i :: base <= i < |stack| ==> stack[i].seenOpenBrace
  }

  function Level(h: nat, c: char): nat {
    if c == '{' then h + 1 else if c == '}' && h > 0 then h - 1 else h
  }

  /** The number of open blocks after a text, and the smallest number on the way. */
  function Height(h: nat, text: string): nat
    decreases |text|
  {
    if text == [] then h else Height(Level(h, text[0]), text[1..])
  }

  function Lowest(h: nat, text: string): (low: nat)
    ensures low <= h
    decreases |text|
  {
    if text == [] then h
    else
      var low := Lowest(Level(h, text[0]), text[1..]);
      if low < h then low else h
  }

  /** Read with h blocks open, the text never closes the block at position `base`. */
  ghost predicate StaysAbove(base: nat, h: nat, text: string) {
    base == 0 || Lowest(h, text) > base
  }

  /** `after` is `stack` cut down to its lowest blocks and grown again. */
  ghost predicate Reaches(base: nat, stack: seq<Block>, text: string, after: seq<Block>) {
    && SeenFrom(base, after) && |after| == Height(|stack|, text)
    && var low := Lowest(|stack|, text); low <= |after| && after[..low] == stack[..low]
  }

  lemma ReachesNothing(base: nat, stack: seq<Block>)
    requires SeenFrom(base, stack)
    ensures Reaches(base, stack, [], stack)
  {
  }

  lemma {:induction false} HeightConcat(h: nat, a: string, b: string)
    ensures Height(h, a + b) == Height(Height(h, a), b)
    ensures Lowest(h, a + b) == if Lowest(h, a) < Lowest(Height(h, a), b) then Lowest(h, a) else Lowest(Height(h, a), b)
    decreases |a|
  {
    hide Level;
    if a == [] {
      assert a + b == b;
    } else {
      assert (a + b)[1..] == a[1..] + b;
      HeightConcat(Level(h, a[0]), a[1..], b);
    }
  }

  lemma ReachesConcat(base: nat, stack: seq<Block>, a: string, middle: seq<Block>, b: string, after: seq<Block>)
    requires Reaches(base, stack, a, middle) && Reaches(base, middle, b, after)
    ensures Reaches(base, stack, a + b, after)
  {
    hide Height, Lowest, SeenFrom;
    HeightConcat(|stack|, a, b);
    var low := Lowest(|stack|, a + b);
    assert low <= Lowest(|stack|, a) && low <= Lowest(|middle|, b);
    assert after[..low] == middle[..low] == stack[..low];
  }

  lemma StaysAboveConcat(base: nat, h: nat, a: string, b: string)
    requires StaysAbove(base, h, a + b)
    ensures StaysAbove(base, h, a) && StaysAbove(base, Height(h, a), b)
  {
    HeightConcat(h, a, b);
  }

  lemma {:induction false} HeightPlain(h: nat, text: string)
    requires forall k :: 0 <= k < |text| ==> !IsToken(text[k])
    ensures Height(h, text) == h && Lowest(h, text) == h
  {
    if text != [] {
      HeightPlain(h, text[1..]);
    }
  }

  lemma ReachesPlain(base: nat, stack: seq<Block>, text: string)
    requires SeenFrom(base, stack) && forall k :: 0 <= k < |text| ==> !IsToken(text[k])
    ensures Reaches(base, stack, text, stack)
  {
    HeightPlain(|stack|, text);
  }

  lemma ReachesToken(base: nat, kindOf: string -> nat, stack: seq<Block>, line: string, c: char)
    requires SeenFrom(base, stack) && StaysAbove(base, |stack|, [c]) && IsToken(c)
    ensures Reaches(base, stack, [c], Token(kindOf, stack, line, c))
  {
    assert [c][1..] == [];
  }

  /** On any line the loop leaves the untouched lower part of the stack alone and counts the rest. */
  lemma {:induction false} ConsumeReaches(base: nat, kindOf: string -> nat, stack: seq<Block>, line: string)
    requires SeenFrom(base, stack) && StaysAbove(base, |stack|, line)
    ensures Reaches(base, stack, line, Consume(kindOf, stack, line))
    decreases |line|
  {
    hide Reaches, SeenFrom, StaysAbove, Token, FirstToken, Height, Lowest;
    var i := FirstToken(line);
    ReachesPlain(base, stack, line[..i]);
    if i == |line| {
      assert line[..i] == line;
    } else {
      var next := Token(kindOf, stack, line, line[i]);
      assert line == line[..i] + [line[i]] + line[i + 1..];
      StaysAboveConcat(base, |stack|, line[..i] + [line[i]], line[i + 1..]);
      StaysAboveConcat(base, |stack|, line[..i], [line[i]]);
      HeightPlain(|stack|, line[..i]);
      ReachesToken(base, kindOf, stack, line, line[i]);
      ReachesConcat(base, stack, line[..i], stack, [line[i]], next);
      ReachesSeen(base, stack, line[..i] + [line[i]], next);
      ConsumeReaches(base, kindOf, next, line[i + 1..]);
      ReachesConcat(base, stack, line[..i] + [line[i]], next, line[i + 1..], Consume(kindOf, stack, line));
    }
  }

  lemma ReachesSeen(base: nat, stack: seq<Block>, text: string, after: seq<Block>)
    requires Reaches(base, stack, text, after)
    ensures SeenFrom(base, after) && |after| == Height(|stack|, text)
  {
  }

  lemma {:induction false} ConsumeLinesReaches(base: nat, kindOf: string -> nat, stack: seq<Block>, lines: seq<string>)
    requires SeenFrom(base, stack) && StaysAbove(base, |stack|, Flatten(lines))
    ensures Reaches(base, stack, Flatten(lines), ConsumeLines(kindOf, stack, lines))
    decreases |lines|
  {
    hide Reaches, SeenFrom, StaysAbove, Consume, Height, Lowest;
    if lines == [] {
      ReachesNothing(base, stack);
    } else {
      var next, rest := Consume(kindOf, stack, lines[0]), Flatten(lines[1..]);
      StaysAboveConcat(base, |stack|, lines[0], rest);
      ConsumeReaches(base, kindOf, stack, lines[0]);
      ReachesSeen(base, stack, lines[0], next);
      ConsumeLinesReaches(base, kindOf, next, lines[1..]);
      ReachesConcat(base, stack, lines[0], next, rest, ConsumeLines(kindOf, stack, lines));
    }
  }

  /** The position of the innermost block. */
  function Top(stack: seq<Block>): nat {
    if stack == [] then 0 else |stack| - 1
  }

  // ---------- balanced code ----------

  datatype Code = Done | Char(c: char, rest: Code) | Nest(inner: Code, rest: Code)

  ghost predicate Proper(t: Code) {
    match t
    case Done => true
    case Char(c, rest) => c != '{' && c != '}' && Proper(rest)
    case Nest(inner, rest) => Proper(inner) && Proper(rest)
  }

  function Show(t: Code): string {
    match t
    case Done => []
    case Char(c, rest) => [c] + Show(rest)
    case Nest(inner, rest) => ['{'] + Show(inner) + ['}'] + Show(rest)
  }

  lemma NestedHeight(x: string, y: string, h: nat)
    requires Height(h + 1, x) == h + 1 == Lowest(h + 1, x) && Height(h, y) == h == Lowest(h, y)
    ensures Height(h, ['{'] + x + ['}'] + y) == h == Lowest(h, ['{'] + x + ['}'] + y)
  {
    var s := ['{'] + x + ['}'] + y;
    assert s[1..] == x + ['}'] + y && s[0] == '{';
    hide Height, Lowest;
    HeightConcat(h + 1, x + ['}'], y);
    HeightConcat(h + 1, x, ['}']);
    ClosingBrace(h + 1);
  }

  lemma {:induction false} BalancedHeight(t: Code, h: nat)
    requires Proper(t)
    ensures Height(h, Show(t)) == h && Lowest(h, Show(t)) == h
    decreases t
  {
    match t
    case Done =>
    case Char(c, rest) =>
      BalancedHeight(rest, h);
      assert Show(t)[1..] == Show(rest);
    case Nest(inner, rest) =>
      BalancedHeight(inner, h + 1);
      BalancedHeight(rest, h);
      NestedHeight(Show(inner), Show(rest), h);
  }

  /** Behind balanced code comes the end of the text, or a closing brace too many. */
  lemma {:induction false} CodePeels(text: string, h: nat) returns (t: Code, j: nat)
    requires h > 0 && Height(h, text) <= h
    ensures j <= |text| && Proper(t) && text[..j] == Show(t)
    ensures j < |text| ==> text[j] == '}' && Height(h - 1, text[j + 1..]) == Height(h, text) && Lowest(h, text) < h
    ensures j == |text| ==> Height(h, text) == h
    decreases |text|
  {
    hide Show, Lowest, Height;
    HeightUnfold(h, text);
    if text == [] {
      t, j := Done, 0;
      ShowDone();
    } else if text[0] == '}' {
      t, j := Done, 0;
      ShowDone();
    } else if text[0] == '{' {
      var rest := text[1..];
      var t1, j1 := CodePeels(rest, h + 1);
      var t2, j2 := CodePeels(rest[j1 + 1..], h);
      t, j := Nest(t1, t2), j1 + j2 + 2;
      ShowNest(text, t1, j1, t2, j2);
      BehindCode(text, t, j, h);
    } else {
      var t1, j1 := CodePeels(text[1..], h);
      t, j := Char(text[0], t1), j1 + 1;
      ShowChar(text, t1, j1);
      BehindCode(text, t, j, h);
    }
  }

  lemma HeightUnfold(h: nat, text: string)
    ensures text == [] ==> Height(h, text) == h
    ensures text != [] ==> Height(h, text) == Height(Level(h, text[0]), text[1..]) && Lowest(h, text) <= Level(h, text[0])
  {
  }

  lemma BehindCode(text: string, t: Code, j: nat, h: nat)
    requires h > 0 && Proper(t) && j <= |text| && text[..j] == Show(t)
    ensures Height(h, text) == Height(h, text[j..])
    ensures j < |text| && text[j] == '}' ==> Height(h, text) == Height(h - 1, text[j + 1..]) && Lowest(h, text) < h
  {
    hide Show;
    assert text == text[..j] + text[j..];
    BalancedHeight(t, h);
    HeightConcat(h, text[..j], text[j..]);
    HeightUnfold(h, text[j..]);
    if j < |text| {
      assert text[j..][1..] == text[j + 1..];
    }
  }

  lemma ShowDone()
    ensures Show(Done) == [] && Proper(Done)
  {
  }

  lemma ShowChar(text: string, t1: Code, j1: nat)
    requires text != [] && j1 + 1 <= |text| && text[1..][..j1] == Show(t1) && Proper(t1) && text[0] != '{' && text[0] != '}'
    ensures text[..j1 + 1] == Show(Char(text[0], t1)) && Proper(Char(text[0], t1))
  {
    assert text[..j1 + 1] == [text[0]] + text[1..][..j1];
  }

  lemma ShowNest(text: string, t1: Code, j1: nat, t2: Code, j2: nat)
    requires text != [] && text[0] == '{' && j1 + j2 + 2 <= |text| && text[j1 + 1] == '}' && Proper(t1) && Proper(t2)
    requires text[1..][..j1] == Show(t1) && text[1..][j1 + 1..][..j2] == Show(t2)
    ensures text[..j1 + j2 + 2] == Show(Nest(t1, t2)) && Proper(Nest(t1, t2))
  {
    assert text[..j1 + j2 + 2] == ['{'] + text[1..][..j1] + ['}'] + text[1..][j1 + 1..][..j2];
  }

  ghost predicate IsCode(text: string, t: Code) { Proper(t) && Show(t) == text }

  /** Code is balanced exactly when it closes, read with one block open, neither that block nor leaves another open. */
  lemma BalancedExact(text: string)
    ensures (exists t :: IsCode(text, t)) <==> Height(1, text) == 1 && Lowest(1, text) == 1
  {
    hide Height, Lowest, Show, Proper;
    forall t | IsCode(text, t) ensures Height(1, text) == 1 && Lowest(1, text) == 1 {
      BalancedHeight(t, 1);
    }
    if Height(1, text) == 1 && Lowest(1, text) == 1 {
      var t, j := CodePeels(text, 1);
      assert text[..j] == text;
      assert IsCode(text, t);
    }
  }

  /** Unless the innermost block still waits for its opening brace, code with balanced braces, over
      any number of lines, leaves the brace stack as it was. */
  lemma BalancedCodeInvisible(kindOf: string -> nat, stack: seq<Block>, lines: seq<string>, t: Code)
    requires SeenOpenBrace(stack) && Proper(t) && Flatten(lines) == Show(t)
    ensures ConsumeLines(kindOf, stack, lines) == stack
  {
    hide Height, Lowest, ConsumeLines, Show;
    BalancedHeight(t, |stack|);
    ConsumeLinesReaches(Top(stack), kindOf, stack, lines);
  }

  /** A brace opens the block that waits for it, which keeps its kind, or else a new one of the kind that the rest of the
      line tells; balanced code behind it leaves that block on top. */
  lemma BlockOpened(kindOf: string -> nat, stack: seq<Block>, line: string, more: seq<string>, t: Code)
    requires Proper(t) && FirstToken(line) < |line| && line[FirstToken(line)] == '{'
    requires line[FirstToken(line) + 1..] + Flatten(more) == Show(t)
    ensures SeenOpenBrace(stack) ==> ConsumeLines(kindOf, stack, [line] + more) == stack + [Block(kindOf(line), true)]
    ensures !SeenOpenBrace(stack) ==>
              ConsumeLines(kindOf, stack, [line] + more) == stack[..|stack| - 1] + [Block(stack[|stack| - 1].kind, true)]
  {
    hide FirstToken, Consume, Show, Proper, Flatten;
    var rest := line[FirstToken(line) + 1..];
    var open := if SeenOpenBrace(stack) then stack + [Block(kindOf(line), true)]
                else stack[..|stack| - 1] + [Block(stack[|stack| - 1].kind, true)];
    assert Token(kindOf, stack, line, '{') == open;
    ConsumeUnfold(kindOf, stack, line);
    assert ([line] + more)[1..] == more && ([rest] + more)[1..] == more;
    FlattenFirst(rest, more);
    BalancedCodeInvisible(kindOf, open, [rest] + more, t);
  }

  lemma FlattenFirst(line: string, more: seq<string>)
    ensures Flatten([line] + more) == line + Flatten(more)
  {
    assert ([line] + more)[1..] == more;
  }

  /** A class or namespace whose opening brace is still to come is gone after its closing brace: the
      brace opens the pending block instead of a new one. */
  lemma DeclarationConsumed(kindOf: string -> nat, stack: seq<Block>, head: Block, line: string, more: seq<string>, t: Code)
    requires SeenOpenBrace(stack) && !head.seenOpenBrace && Proper(t)
    requires FirstToken(line) < |line| && line[FirstToken(line)] == '{'
    requires line[FirstToken(line) + 1..] + Flatten(more) == Show(t) + ['}']
    ensures ConsumeLines(kindOf, stack + [head], [line] + more) == stack
  {
    hide Height, Lowest, Show, FirstToken, Consume;
    var rest, open := line[FirstToken(line) + 1..], stack + [head.(seenOpenBrace := true)];
    assert (stack + [head])[|stack| := head.(seenOpenBrace := true)] == open;
    assert ([line] + more)[1..] == more && ([rest] + more)[1..] == more;
    ConsumeUnfold(kindOf, stack + [head], line);
    BalancedHeight(t, |open|);
    HeightConcat(|open|, Show(t), ['}']);
    ClosingBrace(|open|);
    ConsumeLinesReaches(Top(stack), kindOf, open, [rest] + more);
    assert open[..|stack|] == stack;
  }

  lemma ClosingBrace(h: nat)
    requires h > 0
    ensures Height(h, ['}']) == h - 1 == Lowest(h, ['}'])
  {
    assert ['}'][1..] == [];
  }

  /** A pending head that meets a semicolon or a closing parenthesis first was no definition. */
  lemma ForwardDeclarationDropped(kindOf: string -> nat, stack: seq<Block>, head: Block, line: string)
    requires !head.seenOpenBrace && FirstToken(line) < |line| && line[FirstToken(line)] in ";)"
    ensures Consume(kindOf, stack + [head], line) == Consume(kindOf, stack, line[FirstToken(line) + 1..])
  {
    hide FirstToken, Consume;
    assert (stack + [head])[..|stack|] == stack;
    ConsumeUnfold(kindOf, stack + [head], line);
  }

  lemma ConsumeUnfold(kindOf: string -> nat, stack: seq<Block>, line: string)
    requires FirstToken(line) < |line|
    ensures var i := FirstToken(line);
            Consume(kindOf, stack, line) == Consume(kindOf, Token(kindOf, stack, line, line[i]), line[i + 1..])
  {
    hide FirstToken, Token;
  }
}
