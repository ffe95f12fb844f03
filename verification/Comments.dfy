/** RemoveMultiLineComments of scripts/cpplint.py: the lines of block comments are overwritten in
    place, so that the line numbers of everything else stay as they are. */
module Comments {
  import opened Characters

  // ---------- marker lines ----------

  function StripRight(s: string): (r: string)
    ensures |r| <= |s|
  {
    if s != [] && IsSpace(s[|s| - 1]) then StripRight(s[..|s| - 1]) else s
  }

  function Strip(s: string): string { StripRight(SkipSpaces(s)) }

  predicate HasAt(t: string, k: nat, mark: string) {
    k + |mark| <= |t| && t[k..k + |mark|] == mark
  }

  /** The line starts with a block comment that goes on beyond it. */
  predicate Opens(line: string) {
    var t := Strip(line);
    HasAt(t, 0, "/*") && forall k :: 2 <= k < |t| ==> !HasAt(t, k, "*/")
  }

  predicate Closes(line: string) {
    var t := Strip(line);
    |t| >= 2 && HasAt(t, |t| - 2, "*/")
  }

  const DUMMY := "/**/"

  lemma DummyIsNoMarker()
    ensures !Opens(DUMMY)
  {
    hide HasAt, Strip;
    assert Strip(DUMMY) == DUMMY by { DummyIsStripped(); }
    assert HasAt(DUMMY, 2, "*/") by { DummyCloses(); }
  }

  lemma DummyIsStripped()
    ensures Strip(DUMMY) == DUMMY
  {
  }

  lemma DummyCloses()
    ensures HasAt(DUMMY, 2, "*/")
  {
  }

  /** One line can be both: exactly when it is the three characters of a comment that is opened and
      half closed, which C++ does not take for closed. */
  lemma OpensAndCloses(line: string)
    ensures Opens(line) && Closes(line) <==> Strip(line) == "/*/"
  {
    hide Strip, HasAt;
    var t := Strip(line);
    if HasAt(t, 0, "/*") && |t| >= 2 && HasAt(t, |t| - 2, "*/") {
      ShortComment(t);
    }
    SlashStarSlash();
    MarksAreTwoLong(t);
  }

  lemma ShortComment(t: string)
    requires |t| >= 2 && HasAt(t, 0, "/*") && HasAt(t, |t| - 2, "*/")
    ensures |t| > 2 && (|t| == 3 ==> t == "/*/")
  {
    assert t[0] == "/*"[0] && t[1] == "/*"[1] && t[|t| - 2] == "*/"[0] && t[|t| - 1] == "*/"[1];
  }

  lemma SlashStarSlash()
    ensures HasAt("/*/", 0, "/*") && HasAt("/*/", 1, "*/")
  {
    assert "/*/"[0..2] == "/*" && "/*/"[1..3] == "*/";
  }

  lemma MarksAreTwoLong(t: string)
    ensures forall k: nat :: HasAt(t, k, "*/") ==> k + 2 <= |t|
  {
  }

  // ---------- the specification ----------

  /** Which lines open a comment that goes on, and which close one. */
  datatype Marks = Marks(opens: string -> bool, closes: string -> bool)

  function SourceMarks(): Marks { Marks(Opens, Closes) }

  /** The dummy comment is no marker to the source. */
  lemma SourceSkipsDummy()
    ensures !SourceMarks().opens(DUMMY)
  {
    DummyIsNoMarker();
  }

  predicate IsFirst(lines: seq<string>, from: nat, mark: string -> bool, r: nat) {
    && (from <= |lines| ==> from <= r <= |lines|) && (from > |lines| ==> r == |lines|)
    && (forall k :: from <= k < r && k < |lines| ==> !mark(lines[k]))
    && (r < |lines| ==> mark(lines[r]))
  }

  /** The first line from `from` on that bears the mark; the number of lines if there is none. */
  function First(lines: seq<string>, from: nat, mark: string -> bool): (r: nat)
    ensures IsFirst(lines, from, mark, r)
    decreases |lines| - from
  {
    if from >= |lines| then |lines|
    else if mark(lines[from]) then from
    else First(lines, from + 1, mark)
  }

  /** The condition determines the line. */
  lemma FirstUnique(lines: seq<string>, from: nat, mark: string -> bool, a: nat, b: nat)
    requires IsFirst(lines, from, mark, a) && IsFirst(lines, from, mark, b)
    ensures a == b
  {
  }

  datatype Range = Range(begin: nat, end: nat)

  /** The block comments of the lines from `from` on, and the line of the one that is never closed. */
  datatype Found = Found(ranges: seq<Range>, unclosed: nat)

  function Comments(m: Marks, lines: seq<string>, from: nat): (r: Found)
    decreases |lines| - from
  {
    var b := First(lines, from, m.opens);
    if b == |lines| then Found([], |lines|)
    else
      var e := First(lines, b, m.closes);
      if e == |lines| then Found([], b)
      else
        var more := Comments(m, lines, e + 1);
        Found([Range(b, e)] + more.ranges, more.unclosed)
  }

  /** To the source the line that is a slash, a star and a slash is a whole comment. */
  lemma HalfCommentRange()
    ensures Comments(SourceMarks(), ["/*/"], 0) == Found([Range(0, 0)], 1)
  {
    hide Opens, Closes;
    var lines := ["/*/"];
    assert Opens("/*/") && Closes("/*/") by {
      OpensAndCloses("/*/");
      StrippedAlready();
    }
    assert First(lines, 0, SourceMarks().opens) == 0 && First(lines, 0, SourceMarks().closes) == 0;
    assert First(lines, 1, SourceMarks().opens) == 1;
  }

  lemma StrippedAlready()
    ensures Strip("/*/") == "/*/"
  {
  }

  function Dummies(n: nat): seq<string> { seq(n, _ => DUMMY) }

  /** The lines from `from` on without their comments. */
  function Cleaned(m: Marks, lines: seq<string>, from: nat): seq<string>
    requires from <= |lines|
    decreases |lines| - from
  {
    var b := First(lines, from, m.opens);
    var e := First(lines, b, m.closes);
    if b == |lines| || e == |lines| then lines[from..]
    else lines[from..b] + Dummies(e + 1 - b) + Cleaned(m, lines, e + 1)
  }

  ghost predicate Covered(ranges: seq<Range>, k: nat) {
    exists i :: 0 <= i < |ranges| && ranges[i].begin <= k <= ranges[i].end
  }

  lemma CoveredCons(first: Range, more: seq<Range>, k: nat)
    ensures Covered([first] + more, k) <==> first.begin <= k <= first.end || Covered(more, k)
  {
    if Covered(more, k) {
      var i :| 0 <= i < |more| && more[i].begin <= k <= more[i].end;
      assert ([first] + more)[i + 1] == more[i];
    }
    assert ([first] + more)[0] == first;
  }

  lemma {:induction false} CleanedAt(m: Marks, lines: seq<string>, from: nat, k: nat)
    requires from <= |lines|
    ensures |Cleaned(m, lines, from)| == |lines| - from
    ensures var ranges := Comments(m, lines, from).ranges;
            && (Covered(ranges, k) ==> from <= k < |lines|)
            && (from <= k < |lines| ==> Cleaned(m, lines, from)[k - from] == if Covered(ranges, k) then DUMMY else lines[k])
    decreases |lines| - from
  {
    hide Covered;
    var b := First(lines, from, m.opens);
    var e := First(lines, b, m.closes);
    if b == |lines| || e == |lines| {
      CoveredNone(k);
    } else {
      CleanedAt(m, lines, e + 1, k);
      CoveredCons(Range(b, e), Comments(m, lines, e + 1).ranges, k);
    }
  }

  lemma CoveredNone(k: nat)
    ensures !Covered([], k)
  {
  }

  /** The cleaned lines differ from the originals in the comment lines only, and in all of them. */
  lemma CleanedOverwrites(m: Marks, lines: seq<string>)
    ensures |Cleaned(m, lines, 0)| == |lines|
    ensures forall k :: 0 <= k < |lines| ==>
              Cleaned(m, lines, 0)[k] == if Covered(Comments(m, lines, 0).ranges, k) then "/**/" else lines[k]
  {
    hide Covered, Cleaned, Comments;
    CleanedAt(m, lines, 0, 0);
    forall k | 0 <= k < |lines|
      ensures Cleaned(m, lines, 0)[k] == if Covered(Comments(m, lines, 0).ranges, k) then DUMMY else lines[k]
    {
      CleanedAt(m, lines, 0, k);
    }
  }

  /** One comment at a time. */
  lemma Unfold(m: Marks, lines: seq<string>, from: nat)
    requires from <= |lines|
    ensures var b := First(lines, from, m.opens);
            var e := First(lines, b, m.closes);
            && from <= b <= e <= |lines| && (b == |lines| ==> e == |lines|)
            && (e == |lines| ==> Cleaned(m, lines, from) == lines[from..] && Comments(m, lines, from) == Found([], b))
            && (e < |lines| ==>
                  && Cleaned(m, lines, from) == lines[from..b] + Dummies(e + 1 - b) + Cleaned(m, lines, e + 1)
                  && Comments(m, lines, from).ranges == [Range(b, e)] + Comments(m, lines, e + 1).ranges
                  && Comments(m, lines, from).unclosed == Comments(m, lines, e + 1).unclosed)
  {
    hide First, Dummies;
  }

  /** The range runs from a line that opens a comment to the first line that closes one. */
  ghost predicate IsComment(m: Marks, lines: seq<string>, r: Range) {
    && r.begin <= r.end < |lines| && m.opens(lines[r.begin]) && m.closes(lines[r.end])
    && forall k :: r.begin <= k < r.end ==> !m.closes(lines[k])
  }

  /** Every range is a comment, and they follow one another without overlapping. */
  lemma {:induction false} RangeIsComment(m: Marks, lines: seq<string>, from: nat, i: nat)
    requires from <= |lines| && i < |Comments(m, lines, from).ranges|
    ensures var found := Comments(m, lines, from);
            var r := found.ranges[i];
            && from <= r.begin && IsComment(m, lines, r)
            && r.end < (if i + 1 < |found.ranges| then found.ranges[i + 1].begin else found.unclosed)
    decreases |lines| - from
  {
    hide First, Cleaned, Comments, Dummies, IsComment;
    Unfold(m, lines, from);
    var b := First(lines, from, m.opens);
    var e := First(lines, b, m.closes);
    UnclosedAfter(m, lines, e + 1);
    FirstIsComment(m, lines, from);
    if i > 0 {
      RangeIsComment(m, lines, e + 1, i - 1);
    } else if Comments(m, lines, e + 1).ranges != [] {
      RangeIsComment(m, lines, e + 1, 0);
    }
  }

  lemma FirstIsComment(m: Marks, lines: seq<string>, from: nat)
    requires from <= |lines|
    ensures var b := First(lines, from, m.opens);
            var e := First(lines, b, m.closes);
            e < |lines| ==> IsComment(m, lines, Range(b, e))
  {
    hide First;
    var b := First(lines, from, m.opens);
  }

  // ---------- a second run ----------

  /** Cleaning leaves no comment behind but the unclosed one, if there was one. */
  lemma {:induction false} CleanedOpens(m: Marks, lines: seq<string>, from: nat, k: nat)
    requires from <= k < |lines| && !m.opens(DUMMY)
    ensures k - from < |Cleaned(m, lines, from)| == |lines| - from
    ensures var u := Comments(m, lines, from).unclosed;
            && (k < u ==> !m.opens(Cleaned(m, lines, from)[k - from]))
            && (k >= u ==> Cleaned(m, lines, from)[k - from] == lines[k] && !m.closes(lines[k]))
            && (k == u ==> m.opens(lines[k]))
    decreases |lines| - from
  {
    hide First, Cleaned, Comments;
    var b := First(lines, from, m.opens);
    var e := First(lines, b, m.closes);
    Unfold(m, lines, from);
    if e < |lines| {
      UnclosedAfter(m, lines, e + 1);
      CleanedAt(m, lines, e + 1, k);
      if k > e {
        CleanedOpens(m, lines, e + 1, k);
      }
    }
  }

  lemma {:induction false} UnclosedAfter(m: Marks, lines: seq<string>, from: nat)
    requires from <= |lines|
    ensures from <= Comments(m, lines, from).unclosed <= |lines|
    decreases |lines| - from
  {
    var b := First(lines, from, m.opens);
    var e := First(lines, b, m.closes);
    if b < |lines| && e < |lines| {
      UnclosedAfter(m, lines, e + 1);
    }
  }

  /** A second run changes nothing and reports the same unclosed comment, or again none, for all marks
      that the dummy comment does not bear (SourceSkipsDummy). */
  lemma SecondRunIsIdle(m: Marks, lines: seq<string>)
    requires !m.opens(DUMMY)
    ensures var once := Cleaned(m, lines, 0);
            Comments(m, once, 0) == Found([], Comments(m, lines, 0).unclosed) && Cleaned(m, once, 0) == once
  {
    var once, u := Cleaned(m, lines, 0), Comments(m, lines, 0).unclosed;
    CleanedAt(m, lines, 0, 0);
    UnclosedAfter(m, lines, 0);
    forall k: nat | k < |lines|
      ensures k < u ==> !m.opens(once[k])
      ensures k >= u ==> once[k] == lines[k] && !m.closes(lines[k])
      ensures k == u ==> m.opens(lines[k])
    {
      CleanedOpens(m, lines, 0, k);
    }
    FirstUnique(once, 0, m.opens, First(once, 0, m.opens), u);
    if u < |lines| {
      FirstUnique(once, u, m.closes, First(once, u, m.closes), |lines|);
    }
  }

  // ---------- the methods ----------

  /** What comes before makes no difference to a search. */
  lemma SameFirst(a: seq<string>, b: seq<string>, l: nat, from: nat, mark: string -> bool)
    requires l <= from <= |a| == |b| && a[l..] == b[l..]
    ensures First(a, from, mark) == First(b, from, mark) && from <= First(b, from, mark) <= |b|
  {
    assert forall k :: l <= k < |a| ==> a[k] == a[l..][k - l] == b[k];
    FirstUnique(b, from, mark, First(a, from, mark), First(b, from, mark));
  }

  method FindNext(lines: array<string>, lineix: nat, mark: string -> bool) returns (r: nat)
    ensures r == First(lines[..], lineix, mark)
  {
    r := lineix;
    while r < lines.Length
      invariant First(lines[..], r, mark) == First(lines[..], lineix, mark)
    {
      if mark(lines[r]) {
        return;
      }
      r := r + 1;
    }
    return lines.Length;
  }

  method RemoveMultiLineCommentsFromRange(lines: array<string>, begin: nat, end: nat)
    requires begin <= end <= lines.Length
    modifies lines
    ensures lines[..] == old(lines[..begin]) + Dummies(end - begin) + old(lines[end..])
  {
    for i := begin to end
      invariant lines[..i] == old(lines[..begin]) + Dummies(i - begin)
      invariant lines[i..] == old(lines[i..])
    {
      lines[i] := DUMMY;
    }
  }

  lemma NextPiece(now: seq<string>, before: seq<string>, after: seq<string>, l: nat, b: nat, e: nat, rest: seq<string>)
    requires l <= b <= e <= |now| == |before| && now[l..] == before[l..]
    requires after == now[..b] + Dummies(e - b) + now[e..]
    ensures |after| == |now| && after[e..] == before[e..]
    ensures after[..e] + rest == now[..l] + (before[l..b] + Dummies(e - b) + rest)
  {
    assert now[e..] == now[l..][e - l..] == before[e..];
    assert now[..b] == now[..l] + now[l..][..b - l];
    assert now[l..][..b - l] == before[l..b];
    assert after[..e] == now[..b] + Dummies(e - b);
  }

  /** `error` is the number, from 0, of a comment's first line if its end was not found. */
  method RemoveMultiLineComments(lines: array<string>) returns (error: nat)
    modifies lines
    ensures lines[..] == Cleaned(SourceMarks(), old(lines[..]), 0)
    ensures error == Comments(SourceMarks(), old(lines[..]), 0).unclosed
  {
    hide *;
    ghost var before := lines[..];
    var lineix := 0;
    while lineix < lines.Length
      invariant lineix <= lines.Length
      invariant lines[lineix..] == before[lineix..]
      invariant lines[..lineix] + Cleaned(SourceMarks(), before, lineix) == Cleaned(SourceMarks(), before, 0)
      invariant Comments(SourceMarks(), before, lineix).unclosed == Comments(SourceMarks(), before, 0).unclosed
    {
      var begin := FindNext(lines, lineix, SourceMarks().opens);
      SameFirst(lines[..], before, lineix, lineix, SourceMarks().opens);
      Unfold(SourceMarks(), before, lineix);
      if begin >= lines.Length {
        return lines.Length;
      }
      var end := FindNext(lines, begin, SourceMarks().closes);
      SameFirst(lines[..], before, lineix, begin, SourceMarks().closes);
      if end >= lines.Length {
        return begin;
      }
      ghost var now := lines[..];
      RemoveMultiLineCommentsFromRange(lines, begin, end + 1);
      NextPiece(now, before, lines[..], lineix, begin, end + 1, Cleaned(SourceMarks(), before, end + 1));
      lineix := end + 1;
    }
    Unfold(SourceMarks(), before, lineix);
    return lines.Length;
  }
}
