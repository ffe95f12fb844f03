/** NestingState of scripts/cpplint.py: the checkpoint stack that makes every #else and #elif branch
    invisible to the brace stack. */
module Nesting {
  import opened Directives

  // ---------- the state and one line's effect on it ----------

  /** _PreprocessorInfo: checkpoints of the brace stack. */
  datatype Checkpoint<B> = Checkpoint(beforeIf: seq<B>, beforeElse: seq<B>, seenElse: bool)

  datatype State<B> = State(stack: seq<B>, pp: seq<Checkpoint<B>>)

  function Preprocess<B>(st: State<B>, d: Directive): State<B> {
    var n := |st.pp| - 1;
    match d
    case If => State(st.stack, st.pp + [Checkpoint(st.stack, [], false)])
    case Else =>
      if st.pp == [] then st
      else
        var top := st.pp[n];
        State(top.beforeIf,
              if top.seenElse then st.pp else st.pp[..n] + [Checkpoint(top.beforeIf, st.stack, true)])
    case Endif =>
      if st.pp == [] then st
      else State(if st.pp[n].seenElse then st.pp[n].beforeElse else st.stack, st.pp[..n])
    case Other => st
  }

  /** A numbered line. */
  datatype Line = Line(number: nat, text: string)

  type Classifier = Line -> Directive

  /** How a line is read: which directive it is, and what it does to the brace stack.  The effect may depend on
      the number of the line, and so on anything that stands around it in the whole file. */
  datatype Reader<!B> = Reader(kind: Classifier, effect: (seq<B>, Line) -> seq<B>)

  /** The reader of the source, for any effect of the lines. */
  function Patterns<B>(effect: (seq<B>, Line) -> seq<B>): Reader<B> {
    Reader((l: Line) => Kind(l.text), effect)
  }

  /** Update: the checkpoints first, then whatever the line does to the brace stack. */
  function Step<B>(r: Reader<B>, st: State<B>, line: Line): State<B> {
    var s := Preprocess(st, r.kind(line));
    State(r.effect(s.stack, line), s.pp)
  }

  function Run<B>(r: Reader<B>, st: State<B>, lines: seq<Line>): State<B>
    decreases |lines|
  {
    if lines == [] then st else Run(r, Step(r, st, lines[0]), lines[1..])
  }

  class NestingState<B> {
    var stack: seq<B>
    var ppStack: seq<Checkpoint<B>>

    function Value(): State<B>
      reads this
    {
      State(stack, ppStack)
    }

    constructor ()
      ensures Value() == State([], [])
    {
      stack, ppStack := [], [];
    }

    method UpdatePreprocessor(line: string)
      modifies this
      ensures Value() == Preprocess(old(Value()), Kind(line))
    {
      hide Kind;
      var kind := Kind(line);
      if kind == If {
        ppStack := ppStack + [Checkpoint(stack, [], false)];
      } else if kind == Else {
        if ppStack != [] {
          var top := ppStack[|ppStack| - 1];
          if !top.seenElse {
            top := top.(seenElse := true);
            top := top.(beforeElse := stack);
            ppStack := ppStack[|ppStack| - 1 := top];
          }
          stack := top.beforeIf;
        }
      } else if kind == Endif {
        if ppStack != [] {
          if ppStack[|ppStack| - 1].seenElse {
            stack := ppStack[|ppStack| - 1].beforeElse;
          }
          ppStack := ppStack[..|ppStack| - 1];
        }
      }
    }

    method Update(effect: (seq<B>, Line) -> seq<B>, line: Line)
      modifies this
      ensures Value() == Step(Patterns(effect), old(Value()), line)
    {
      UpdatePreprocessor(line.text);
      stack := effect(stack, line);
    }

    /** One call of Update for each line of a file, in order. */
    method UpdateAll(effect: (seq<B>, Line) -> seq<B>, lines: seq<Line>)
      modifies this
      ensures Value() == Run(Patterns(effect), old(Value()), lines)
    {
      var i := 0;
      while i < |lines|
        invariant i <= |lines|
        invariant Run(Patterns(effect), Value(), lines[i..]) == Run(Patterns(effect), old(Value()), lines)
      {
        assert lines[i..][1..] == lines[i + 1..];
        Update(effect, lines[i]);
        i := i + 1;
      }
    }
  }

  // ---------- deleting the alternative branches ----------

  /** How many conditionals are open whose first branch is being read, and how many are open in an
      alternative branch: that branch's own conditional and those inside it. */
  datatype Place = Place(live: nat, dead: nat)

  function Next(p: Place, d: Directive): Place {
    match d
    case If => if p.dead == 0 then Place(p.live + 1, 0) else Place(p.live, p.dead + 1)
    case Else => if p.dead == 0 && p.live > 0 then Place(p.live, 1) else p
    case Endif =>
      if p.dead > 1 then Place(p.live, p.dead - 1)
      else Place(if p.live > 0 then p.live - 1 else 0, 0)
    case Other => p
  }

  /** A line stays if it is outside every alternative branch; the #endif that ends one stays too. */
  predicate Stays(p: Place, d: Directive) {
    match d
    case Else => p == Place(0, 0)
    case Endif => p.dead <= 1
    case _ => p.dead == 0
  }

  function Prune(kind: Classifier, p: Place, lines: seq<Line>): seq<Line>
    decreases |lines|
  {
    if lines == [] then []
    else
      var d := kind(lines[0]);
      var rest := Prune(kind, Next(p, d), lines[1..]);
      if Stays(p, d) then [lines[0]] + rest else rest
  }

  function End(kind: Classifier, p: Place, lines: seq<Line>): Place
    decreases |lines|
  {
    if lines == [] then p else End(kind, Next(p, kind(lines[0])), lines[1..])
  }

  /** No alternative branch of an open conditional has been reached. */
  ghost predicate Untouched<B>(pp: seq<Checkpoint<B>>) {
    forall i :: 0 <= i < |pp| ==> !pp[i].seenElse
  }

  /** `full` has read a file and `lean` the same file without its alternative branches. */
  ghost predicate Agree<B>(full: State<B>, lean: State<B>, p: Place) {
    && Untouched(lean.pp) && |lean.pp| == p.live
    && if p.dead == 0 then full == lean
       else
         && p.live > 0 && |full.pp| == p.live - 1 + p.dead
         && full.pp[..p.live - 1] == lean.pp[..p.live - 1]
         && full.pp[p.live - 1] == Checkpoint(lean.pp[p.live - 1].beforeIf, lean.stack, true)
  }

  lemma AgreeStep<B>(r: Reader<B>, full: State<B>, lean: State<B>, p: Place, line: Line)
    requires Agree(full, lean, p)
    ensures var d := r.kind(line);
            Agree(Step(r, full, line), if Stays(p, d) then Step(r, lean, line) else lean, Next(p, d))
  {
    hide Agree, Step, Next, Stays;
    if p.dead == 0 {
      AgreeLive(r, full, lean, p, line);
    } else {
      AgreeDead(r, full, lean, p, line);
    }
  }

  lemma AgreeLive<B>(r: Reader<B>, full: State<B>, lean: State<B>, p: Place, line: Line)
    requires Agree(full, lean, p) && p.dead == 0
    ensures var d := r.kind(line);
            Agree(Step(r, full, line), if Stays(p, d) then Step(r, lean, line) else lean, Next(p, d))
  {
  }

  lemma AgreeDead<B>(r: Reader<B>, full: State<B>, lean: State<B>, p: Place, line: Line)
    requires Agree(full, lean, p) && p.dead > 0
    ensures var d := r.kind(line);
            Agree(Step(r, full, line), if Stays(p, d) then Step(r, lean, line) else lean, Next(p, d))
  {
    var d, s, k := r.kind(line), Step(r, full, line), p.live - 1;
    if d != Endif || p.dead > 1 {
      assert s.pp[..k] == full.pp[..k] && s.pp[k] == full.pp[k];
    } else {
      assert s.pp == full.pp[..k];
    }
  }

  /** Whatever each line does to the brace stack, and even if directives do not match up, a file
      that does not end inside an alternative branch leaves the same brace stack and the same
      checkpoints as the file without its alternative branches. */
  lemma {:induction false} BranchesInvisible<B>(r: Reader<B>, full: State<B>, lean: State<B>,
                                                p: Place, lines: seq<Line>)
    requires Agree(full, lean, p)
    ensures Agree(Run(r, full, lines), Run(r, lean, Prune(r.kind, p, lines)), End(r.kind, p, lines))
    decreases |lines|
  {
    hide Agree, Step, Stays, Next;
    if lines != [] {
      var d := r.kind(lines[0]);
      var kept := Prune(r.kind, Next(p, d), lines[1..]);
      AgreeStep(r, full, lean, p, lines[0]);
      var lean' := if Stays(p, d) then Step(r, lean, lines[0]) else lean;
      BranchesInvisible(r, Step(r, full, lines[0]), lean', Next(p, d), lines[1..]);
      assert ([lines[0]] + kept)[1..] == kept;
    }
  }

  // ---------- well-nested files as trees ----------

  datatype Source = Nothing | Text(line: Line, rest: Source)
                  | Cond(ifLine: Line, body: Source, alternatives: Branches, endLine: Line, rest: Source)

  datatype Branches = NoMore | Branch(elseLine: Line, body: Source, more: Branches)

  ghost predicate WellNested(kind: Classifier, f: Source) {
    match f
    case Nothing => true
    case Text(l, rest) => kind(l) == Other && WellNested(kind, rest)
    case Cond(i, body, alts, e, rest) =>
      kind(i) == If && WellNested(kind, body) && WellNestedAll(kind, alts) && kind(e) == Endif && WellNested(kind, rest)
  }

  ghost predicate WellNestedAll(kind: Classifier, b: Branches) {
    match b
    case NoMore => true
    case Branch(l, body, more) => kind(l) == Else && WellNested(kind, body) && WellNestedAll(kind, more)
  }

  function Lines(f: Source): seq<Line> {
    match f
    case Nothing => []
    case Text(l, rest) => [l] + Lines(rest)
    case Cond(i, body, alts, e, rest) => [i] + Lines(body) + BranchLines(alts) + [e] + Lines(rest)
  }

  function BranchLines(b: Branches): seq<Line> {
    match b
    case NoMore => []
    case Branch(l, body, more) => [l] + Lines(body) + BranchLines(more)
  }

  /** Read with h conditionals open, every #else and #endif is inside a conditional, and each one is closed. */
  ghost predicate Closes(kind: Classifier, h: nat, lines: seq<Line>)
    decreases |lines|
  {
    if lines == [] then h == 0
    else
      match kind(lines[0])
      case If => Closes(kind, h + 1, lines[1..])
      case Else => h > 0 && Closes(kind, h, lines[1..])
      case Endif => h > 0 && Closes(kind, h - 1, lines[1..])
      case Other => Closes(kind, h, lines[1..])
  }

  lemma ClosesCons(kind: Classifier, h: nat, l: Line, rest: seq<Line>)
    ensures Closes(kind, h, [l] + rest) <==>
              match kind(l)
              case If => Closes(kind, h + 1, rest)
              case Else => h > 0 && Closes(kind, h, rest)
              case Endif => h > 0 && Closes(kind, h - 1, rest)
              case Other => Closes(kind, h, rest)
  {
    assert ([l] + rest)[1..] == rest;
  }

  lemma {:induction false} NestedCloses(kind: Classifier, f: Source, h: nat, rest: seq<Line>)
    requires WellNested(kind, f)
    ensures Closes(kind, h, Lines(f) + rest) <==> Closes(kind, h, rest)
    decreases f
  {
    hide Closes;
    match f
    case Nothing => assert Lines(f) + rest == rest;
    case Text(l, more) =>
      Regroup1(l, Lines(more), rest);
      ClosesCons(kind, h, l, Lines(more) + rest);
      NestedCloses(kind, more, h, rest);
    case Cond(i, body, alts, e, more) =>
      var tail := [e] + (Lines(more) + rest);
      Regroup(i, Lines(body), BranchLines(alts), e, Lines(more), rest);
      ClosesCons(kind, h, i, Lines(body) + (BranchLines(alts) + tail));
      NestedCloses(kind, body, h + 1, BranchLines(alts) + tail);
      NestedBranchesClose(kind, alts, h + 1, tail);
      ClosesCons(kind, h + 1, e, Lines(more) + rest);
      NestedCloses(kind, more, h, rest);
  }

  lemma {:induction false} NestedBranchesClose(kind: Classifier, b: Branches, h: nat, rest: seq<Line>)
    requires WellNestedAll(kind, b) && h > 0
    ensures Closes(kind, h, BranchLines(b) + rest) <==> Closes(kind, h, rest)
    decreases b
  {
    hide Closes;
    match b
    case NoMore => assert BranchLines(b) + rest == rest;
    case Branch(l, body, more) =>
      Regroup2(l, Lines(body), BranchLines(more), rest);
      ClosesCons(kind, h, l, Lines(body) + (BranchLines(more) + rest));
      NestedCloses(kind, body, h, BranchLines(more) + rest);
      NestedBranchesClose(kind, more, h, rest);
  }

  lemma Regroup(i: Line, a: seq<Line>, b: seq<Line>, e: Line, c: seq<Line>, rest: seq<Line>)
    ensures [i] + a + b + [e] + c + rest == [i] + (a + (b + ([e] + (c + rest))))
  {
  }

  lemma Regroup1(l: Line, a: seq<Line>, rest: seq<Line>)
    ensures [l] + a + rest == [l] + (a + rest)
  {
  }

  lemma Regroup2(l: Line, a: seq<Line>, b: seq<Line>, rest: seq<Line>)
    ensures [l] + a + b + rest == [l] + (a + (b + rest))
  {
  }

  /** `lines` is the tree `f` and then `rest`, which is empty or begins with the #else or #endif of a conditional that was
      open before, and closes what was. */
  ghost predicate Tree(kind: Classifier, h: nat, lines: seq<Line>, f: Source, rest: seq<Line>) {
    && WellNested(kind, f) && lines == Lines(f) + rest && Closes(kind, h, rest)
    && if rest == [] then h == 0 else h > 0 && kind(rest[0]) in [Else, Endif]
  }

  lemma {:induction false} TreeOf(kind: Classifier, h: nat, lines: seq<Line>) returns (f: Source, rest: seq<Line>)
    requires Closes(kind, h, lines)
    ensures Tree(kind, h, lines, f, rest) && |rest| <= |lines|
    decreases |lines|, 0
  {
    hide Closes, Tree, WellNested, Lines;
    ClosesFirst(kind, h, lines);
    if lines == [] || kind(lines[0]) in [Else, Endif] {
      f, rest := Nothing, lines;
      NoTree(kind, h, lines);
    } else if kind(lines[0]) == Other {
      var f1;
      f1, rest := TreeOf(kind, h, lines[1..]);
      f := Text(lines[0], f1);
      TextTree(kind, h, lines, f1, rest);
    } else {
      var body, tail := TreeOf(kind, h + 1, lines[1..]);
      TreeRest(kind, h + 1, lines[1..], body, tail);
      var alts, ends := BranchesOf(kind, h + 1, tail);
      ClosesFirst(kind, h + 1, ends);
      var more;
      more, rest := TreeOf(kind, h, ends[1..]);
      f := Cond(lines[0], body, alts, ends[0], more);
      CondTree(kind, h, lines, body, tail, alts, ends, more, rest);
    }
  }

  /** And the alternatives of a conditional, up to its #endif. */
  lemma {:induction false} BranchesOf(kind: Classifier, h: nat, lines: seq<Line>) returns (b: Branches, rest: seq<Line>)
    requires Closes(kind, h, lines) && lines != [] && h > 0 && kind(lines[0]) in [Else, Endif]
    ensures WellNestedAll(kind, b) && lines == BranchLines(b) + rest && Closes(kind, h, rest)
    ensures rest != [] && kind(rest[0]) == Endif && |rest| <= |lines|
    decreases |lines|, 1
  {
    hide Closes, Tree, WellNested, Lines, WellNestedAll, BranchLines;
    ClosesFirst(kind, h, lines);
    if kind(lines[0]) == Endif {
      b, rest := NoMore, lines;
      NoBranches(kind, lines);
    } else {
      var body, tail := TreeOf(kind, h, lines[1..]);
      TreeRest(kind, h, lines[1..], body, tail);
      var more;
      more, rest := BranchesOf(kind, h, tail);
      b := Branch(lines[0], body, more);
      BranchTree(kind, lines, body, tail, more, rest);
    }
  }

  lemma NoTree(kind: Classifier, h: nat, lines: seq<Line>)
    requires Closes(kind, h, lines) && (lines == [] || kind(lines[0]) in [Else, Endif])
    ensures Tree(kind, h, lines, Nothing, lines)
  {
    ClosesFirst(kind, h, lines);
    assert [] + lines == lines;
  }

  lemma TextTree(kind: Classifier, h: nat, lines: seq<Line>, f1: Source, rest: seq<Line>)
    requires lines != [] && kind(lines[0]) == Other && Tree(kind, h, lines[1..], f1, rest)
    ensures Tree(kind, h, lines, Text(lines[0], f1), rest)
  {
    hide Closes;
    Regroup1(lines[0], Lines(f1), rest);
    assert lines == [lines[0]] + lines[1..];
  }

  lemma TreeRest(kind: Classifier, h: nat, lines: seq<Line>, f: Source, rest: seq<Line>)
    requires Tree(kind, h, lines, f, rest)
    ensures WellNested(kind, f) && lines == Lines(f) + rest && Closes(kind, h, rest)
    ensures if h == 0 then rest == [] else rest != [] && kind(rest[0]) in [Else, Endif]
  {
  }

  lemma CondTree(kind: Classifier, h: nat, lines: seq<Line>, body: Source, tail: seq<Line>, alts: Branches, ends: seq<Line>,
                 more: Source, rest: seq<Line>)
    requires lines != [] && kind(lines[0]) == If && WellNested(kind, body) && lines[1..] == Lines(body) + tail
    requires WellNestedAll(kind, alts) && tail == BranchLines(alts) + ends
    requires ends != [] && kind(ends[0]) == Endif && Tree(kind, h, ends[1..], more, rest)
    ensures Tree(kind, h, lines, Cond(lines[0], body, alts, ends[0], more), rest)
  {
    hide Closes;
    Regroup(lines[0], Lines(body), BranchLines(alts), ends[0], Lines(more), rest);
    assert lines == [lines[0]] + lines[1..] && ends == [ends[0]] + ends[1..];
  }

  lemma NoBranches(kind: Classifier, lines: seq<Line>)
    ensures WellNestedAll(kind, NoMore) && lines == BranchLines(NoMore) + lines
  {
    assert [] + lines == lines;
  }

  lemma BranchTree(kind: Classifier, lines: seq<Line>, body: Source, tail: seq<Line>, more: Branches, rest: seq<Line>)
    requires lines != [] && kind(lines[0]) == Else && WellNested(kind, body) && lines[1..] == Lines(body) + tail
    requires WellNestedAll(kind, more) && tail == BranchLines(more) + rest
    ensures WellNestedAll(kind, Branch(lines[0], body, more)) && lines == BranchLines(Branch(lines[0], body, more)) + rest
  {
    Regroup2(lines[0], Lines(body), BranchLines(more), rest);
    assert lines == [lines[0]] + lines[1..];
  }

  lemma ClosesFirst(kind: Classifier, h: nat, lines: seq<Line>)
    requires Closes(kind, h, lines)
    ensures if lines == [] then h == 0
            else
              match kind(lines[0])
              case If => Closes(kind, h + 1, lines[1..])
              case Else => h > 0 && Closes(kind, h, lines[1..])
              case Endif => h > 0 && Closes(kind, h - 1, lines[1..])
              case Other => Closes(kind, h, lines[1..])
  {
  }

  ghost predicate IsFile(kind: Classifier, lines: seq<Line>, f: Source) { WellNested(kind, f) && Lines(f) == lines }

  /** The lines of a file form a tree of conditionals exactly when they close. */
  lemma WellNestedExact(kind: Classifier, lines: seq<Line>)
    ensures (exists f :: IsFile(kind, lines, f)) <==> Closes(kind, 0, lines)
  {
    hide Closes, WellNested, Lines;
    forall f | IsFile(kind, lines, f) ensures Closes(kind, 0, lines) {
      NestedCloses(kind, f, 0, []);
      assert lines + [] == lines;
      NothingCloses(kind);
    }
    if Closes(kind, 0, lines) {
      var f, rest := TreeOf(kind, 0, lines);
      TreeRest(kind, 0, lines, f, rest);
      assert Lines(f) + [] == Lines(f);
      assert IsFile(kind, lines, f);
    }
  }

  lemma NothingCloses(kind: Classifier)
    ensures Closes(kind, 0, [])
  {
  }

  /** The file with every alternative branch deleted, at every depth. */
  function FirstBranches(f: Source): Source {
    match f
    case Nothing => Nothing
    case Text(l, rest) => Text(l, FirstBranches(rest))
    case Cond(i, body, _, e, rest) => Cond(i, FirstBranches(body), NoMore, e, FirstBranches(rest))
  }

  /** `lines` leads from p to q and `kept` is what is left of it. */
  ghost predicate Reads(kind: Classifier, p: Place, lines: seq<Line>, kept: seq<Line>, q: Place) {
    Prune(kind, p, lines) == kept && End(kind, p, lines) == q
  }

  lemma {:induction false} ReadsConcat(kind: Classifier, p: Place, a: seq<Line>, x: seq<Line>, q: Place, b: seq<Line>, y: seq<Line>, r: Place)
    requires Reads(kind, p, a, x, q) && Reads(kind, q, b, y, r)
    ensures Reads(kind, p, a + b, x + y, r)
    decreases |a|
  {
    hide Next, Stays;
    if a == [] {
      assert a + b == b && x + y == y;
    } else {
      var d := kind(a[0]);
      assert (a + b)[1..] == a[1..] + b && (a + b)[0] == a[0];
      ReadsConcat(kind, Next(p, d), a[1..], Prune(kind, Next(p, d), a[1..]), q, b, y, r);
      if Stays(p, d) {
        assert x + y == [a[0]] + (x[1..] + y);
      }
    }
  }

  lemma ReadsOne(kind: Classifier, p: Place, line: Line)
    ensures var d := kind(line); Reads(kind, p, [line], if Stays(p, d) then [line] else [], Next(p, d))
  {
    hide Next, Stays;
    assert [line][1..] == [];
    ReadsNothing(kind, Next(p, kind(line)));
    assert [line] + [] == [line];
  }

  lemma SkipsConcat(kind: Classifier, p: Place, a: seq<Line>, q: Place, b: seq<Line>, r: Place)
    requires Reads(kind, p, a, [], q) && Reads(kind, q, b, [], r)
    ensures Reads(kind, p, a + b, [], r)
  {
    hide *;
    ReadsConcat(kind, p, a, [], q, b, [], r);
    var none: seq<Line> := [];
    assert none + none == none;
  }

  lemma {:induction false} DeadSource(kind: Classifier, f: Source, p: Place)
    requires WellNested(kind, f) && p.dead > 0
    ensures Reads(kind, p, Lines(f), [], p)
    decreases f
  {
    hide Reads;
    match f
    case Nothing =>
      ReadsNothing(kind, p);
    case Text(l, rest) =>
      ReadsOne(kind, p, l);
      DeadSource(kind, rest, p);
      SkipsConcat(kind, p, [l], p, Lines(rest), p);
    case Cond(i, body, alts, e, rest) =>
      var q := Place(p.live, p.dead + 1);
      ReadsOne(kind, p, i);
      DeadSource(kind, body, q);
      DeadBranches(kind, alts, q);
      ReadsOne(kind, q, e);
      DeadSource(kind, rest, p);
      SkipsConcat(kind, p, [i], q, Lines(body), q);
      SkipsConcat(kind, p, [i] + Lines(body), q, BranchLines(alts), q);
      SkipsConcat(kind, p, [i] + Lines(body) + BranchLines(alts), q, [e], p);
      SkipsConcat(kind, p, [i] + Lines(body) + BranchLines(alts) + [e], p, Lines(rest), p);
  }

  lemma ReadsNothing(kind: Classifier, p: Place)
    ensures Reads(kind, p, [], [], p)
  {
  }

  lemma {:induction false} DeadBranches(kind: Classifier, b: Branches, p: Place)
    requires WellNestedAll(kind, b) && p.dead > 0
    ensures Reads(kind, p, BranchLines(b), [], p)
    decreases b
  {
    hide Reads;
    match b
    case NoMore =>
      ReadsNothing(kind, p);
    case Branch(l, body, more) =>
      ReadsOne(kind, p, l);
      DeadSource(kind, body, p);
      DeadBranches(kind, more, p);
      SkipsConcat(kind, p, [l], p, Lines(body), p);
      SkipsConcat(kind, p, [l] + Lines(body), p, BranchLines(more), p);
  }

  /** The alternative branches of one conditional, from the end of its first branch. */
  lemma {:induction false} SkippedBranches(kind: Classifier, b: Branches, live: nat)
    requires WellNestedAll(kind, b) && live > 0
    ensures Reads(kind, Place(live, 0), BranchLines(b), [], Place(live, if b.NoMore? then 0 else 1))
  {
    hide Reads;
    match b
    case NoMore =>
      ReadsNothing(kind, Place(live, 0));
    case Branch(l, body, more) =>
      var p, q := Place(live, 0), Place(live, 1);
      ReadsOne(kind, p, l);
      DeadSource(kind, body, q);
      DeadBranches(kind, more, q);
      SkipsConcat(kind, p, [l], q, Lines(body), q);
      SkipsConcat(kind, p, [l] + Lines(body), q, BranchLines(more), q);
  }

  /** On a well-nested file, pruning line by line is deleting the branches of the tree. */
  lemma {:induction false} PruneIsFirstBranches(kind: Classifier, f: Source, live: nat)
    requires WellNested(kind, f)
    ensures Reads(kind, Place(live, 0), Lines(f), Lines(FirstBranches(f)), Place(live, 0))
    decreases f
  {
    hide Reads;
    var p := Place(live, 0);
    match f
    case Nothing =>
      ReadsNothing(kind, p);
    case Text(l, rest) =>
      ReadsOne(kind, p, l);
      PruneIsFirstBranches(kind, rest, live);
      ReadsConcat(kind, p, [l], [l], p, Lines(rest), Lines(FirstBranches(rest)), p);
    case Cond(i, body, alts, e, rest) =>
      var q, r := Place(live + 1, 0), Place(live + 1, if alts.NoMore? then 0 else 1);
      var body', rest' := Lines(FirstBranches(body)), Lines(FirstBranches(rest));
      ReadsOne(kind, p, i);
      PruneIsFirstBranches(kind, body, live + 1);
      SkippedBranches(kind, alts, live + 1);
      ReadsOne(kind, r, e);
      PruneIsFirstBranches(kind, rest, live);
      ReadsConcat(kind, p, [i], [i], q, Lines(body), body', q);
      ReadsConcat(kind, p, [i] + Lines(body), [i] + body', q, BranchLines(alts), [], r);
      ReadsConcat(kind, p, [i] + Lines(body) + BranchLines(alts), [i] + body' + [], r, [e], [e], p);
      ReadsConcat(kind, p, [i] + Lines(body) + BranchLines(alts) + [e], [i] + body' + [] + [e], p, Lines(rest), rest', p);
      assert BranchLines(NoMore) == [];
  }

  lemma {:induction false} RunConcat<B>(r: Reader<B>, st: State<B>, a: seq<Line>, b: seq<Line>)
    ensures Run(r, st, a + b) == Run(r, Run(r, st, a), b)
    decreases |a|
  {
    hide Step;
    if a == [] {
      assert a + b == b;
    } else {
      assert (a + b)[1..] == a[1..] + b && (a + b)[0] == a[0];
      RunConcat(r, Step(r, st, a[0]), a[1..], b);
    }
  }

  lemma RunOne<B>(r: Reader<B>, st: State<B>, line: Line)
    ensures Run(r, st, [line]) == Step(r, st, line)
  {
    hide Step;
    assert [line][1..] == [];
  }

  /** A well-nested file gives back the checkpoints it was started with. */
  lemma {:induction false} CheckpointsReturn<B>(r: Reader<B>, st: State<B>, f: Source)
    requires WellNested(r.kind, f)
    ensures Run(r, st, Lines(f)).pp == st.pp
    decreases f
  {
    hide Run, Step;
    match f
    case Nothing =>
      RunNothing(r, st);
    case Text(l, rest) =>
      RunConcat(r, st, [l], Lines(rest));
      RunOne(r, st, l);
      StepCheckpoints(r, st, l);
      CheckpointsReturn(r, Step(r, st, l), rest);
    case Cond(i, body, alts, e, rest) =>
      var a, b := [i] + Lines(body), [i] + Lines(body) + BranchLines(alts);
      RunConcat(r, st, b + [e], Lines(rest));
      RunConcat(r, st, b, [e]);
      RunConcat(r, st, a, BranchLines(alts));
      RunConcat(r, st, [i], Lines(body));
      RunOne(r, st, i);
      StepCheckpoints(r, st, i);
      CheckpointsReturn(r, Step(r, st, i), body);
      AlternativesKeepOuter(r, Run(r, st, a), alts);
      RunOne(r, Run(r, st, b), e);
      StepCheckpoints(r, Run(r, st, b), e);
      CheckpointsReturn(r, Run(r, st, b + [e]), rest);
  }

  lemma RunNothing<B>(r: Reader<B>, st: State<B>)
    ensures Run(r, st, []) == st
  {
  }

  lemma StepCheckpoints<B>(r: Reader<B>, st: State<B>, line: Line)
    ensures var n, pp := |st.pp| - 1, Step(r, st, line).pp;
            match r.kind(line)
            case If => |pp| == |st.pp| + 1 && pp[..|st.pp|] == st.pp
            case Else => |pp| == |st.pp| && (n >= 0 ==> pp[..n] == st.pp[..n])
            case Endif => pp == if n >= 0 then st.pp[..n] else []
            case Other => pp == st.pp
  {
  }

  /** Alternative branches touch the checkpoint of their own conditional only. */
  lemma {:induction false} AlternativesKeepOuter<B>(r: Reader<B>, st: State<B>, b: Branches)
    requires WellNestedAll(r.kind, b) && st.pp != []
    ensures var r := Run(r, st, BranchLines(b)); |r.pp| == |st.pp| && r.pp[..|st.pp| - 1] == st.pp[..|st.pp| - 1]
    decreases b
  {
    hide Run, Step;
    match b
    case NoMore =>
      RunNothing(r, st);
    case Branch(l, body, more) =>
      var a := [l] + Lines(body);
      RunConcat(r, st, a, BranchLines(more));
      RunConcat(r, st, [l], Lines(body));
      RunOne(r, st, l);
      StepCheckpoints(r, st, l);
      CheckpointsReturn(r, Step(r, st, l), body);
      AlternativesKeepOuter(r, Run(r, st, a), more);
  }

  /** A well-nested file and the same file with every #else and #elif branch deleted end with the same
      brace stack, and both give back the checkpoints they were started with. */
  lemma DeletingBranches<B>(r: Reader<B>, st: State<B>, f: Source)
    requires WellNested(r.kind, f) && Untouched(st.pp)
    ensures Run(r, st, Lines(f)) == Run(r, st, Lines(FirstBranches(f)))
    ensures Run(r, st, Lines(f)).pp == st.pp
  {
    hide Run, Lines, FirstBranches, Prune, End;
    PruneIsFirstBranches(r.kind, f, |st.pp|);
    BranchesInvisible(r, st, st, Place(|st.pp|, 0), Lines(f));
    CheckpointsReturn(r, st, f);
  }
}
