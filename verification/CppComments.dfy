/** What RemoveMultiLineComments of scripts/cpplint.py blanks, compared with where a comment ends in C++. */
module CppComments {
  import opened Characters
  import opened Comments

  // ---------- where a comment ends in C++ ----------

  const MARK := "*/"

  /** Where the first closing mark of `s` at or after k begins; the length of `s` if there is none. */
  function FirstMark(s: string, k: nat): (m: nat)
    ensures m <= |s| && (m < |s| ==> k <= m && HasAt(s, m, MARK))
    ensures forall i :: k <= i < m ==> !HasAt(s, i, MARK)
    decreases |s| - k
  {
    if k >= |s| then |s| else if HasAt(s, k, MARK) then k else FirstMark(s, k + 1)
  }

  /** The line of the closing mark and the column behind it. */
  datatype End = Never | End(line: nat, col: nat)

  /** The end of a comment that is open at column `from` of line l: the first mark from there on. */
  function CppEnd(lines: seq<string>, l: nat, from: nat): (end: End)
    ensures end.End? ==> l <= end.line < |lines| && end.col <= |lines[end.line]|
    decreases |lines| - l
  {
    if l >= |lines| then Never
    else
      var m := FirstMark(lines[l], from);
      if m < |lines[l]| then End(l, m + 2) else CppEnd(lines, l + 1, 0)
  }

  /** The column of the first character that is not white space. */
  function Indent(s: string): nat { |s| - |SkipSpaces(s)| }

  /** The end of the comment whose opening mark is the first thing on line b. */
  function EndFrom(lines: seq<string>, b: nat): End
    requires b < |lines|
  {
    CppEnd(lines, b, Indent(lines[b]) + 2)
  }

  /** From its opening mark on, lines b..e hold the comment and white space. */
  predicate OnlyComment(lines: seq<string>, b: nat, e: nat)
    requires b < |lines|
  {
    var end := EndFrom(lines, b);
    end.End? && end.line == e && Blank(lines[end.line][end.col..])
  }

  lemma MarkChars(s: string, k: nat)
    ensures HasAt(s, k, MARK) <==> k + 2 <= |s| && s[k] == '*' && s[k + 1] == '/'
  {
    assert k + 2 <= |s| ==> s[k..k + 2] == [s[k], s[k + 1]];
  }

  /** A comment can end on the line it begins on, but its two marks share no star. */
  lemma EndsAtOnce(a: string, b: string)
    requires Blank(a)
    ensures EndFrom([a + "/**/" + b], 0) == End(0, |a| + 4)
    ensures EndFrom([a + "/*/" + "*/" + b], 0) == End(0, |a| + 5)
  {
    hide HasAt, CppEnd, FirstMark, Indent;
    var one, two := a + "/**/" + b, a + "/*/" + "*/" + b;
    assert one == a + ("/**/" + b) && two == a + ("/*/" + "*/" + b);
    Indented(a, "/**/" + b);
    Indented(a, "/*/" + "*/" + b);
    MarkChars(one, |a| + 2);
    MarkChars(two, |a| + 2);
    MarkChars(two, |a| + 3);
    MarkIs(one, |a| + 2, |a| + 2);
    MarkIs(two, |a| + 2, |a| + 3);
    EndIs([one], 0, |a| + 2, |a| + 2);
    EndIs([two], 0, |a| + 2, |a| + 3);
  }

  lemma Indented(a: string, r: string)
    requires Blank(a) && r != [] && !IsSpace(r[0])
    ensures Indent(a + r) == |a|
  {
    SkipsAll(a, r);
  }

  lemma MarkIs(s: string, k: nat, m: nat)
    requires k <= m < |s| && HasAt(s, m, MARK) && forall i :: k <= i < m ==> !HasAt(s, i, MARK)
    ensures FirstMark(s, k) == m
  {
  }

  lemma EndIs(lines: seq<string>, l: nat, k: nat, m: nat)
    requires l < |lines| && FirstMark(lines[l], k) == m < |lines[l]|
    ensures CppEnd(lines, l, k) == End(l, m + 2)
  {
  }

  // ---------- what stripping leaves ----------

  lemma {:induction false} StripRightShape(s: string)
    ensures var t := StripRight(s);
            && t == s[..|t|] && Blank(s[|t|..]) && (t != [] ==> !IsSpace(t[|t| - 1]))
  {
    if s != [] && IsSpace(s[|s| - 1]) {
      StripRightShape(s[..|s| - 1]);
      var t := StripRight(s[..|s| - 1]);
      assert s[|t|..] == s[|t|..|s| - 1] + [s[|s| - 1]];
    }
  }

  /** The stripped text sits in the line behind its indent, with white space around it. */
  lemma StripShape(s: string)
    ensures var t, i := Strip(s), Indent(s);
            && i + |t| <= |s| && t == s[i..i + |t|]
            && Blank(s[..i]) && Blank(s[i + |t|..])
            && (t != [] ==> !IsSpace(t[|t| - 1]))
  {
    hide SkipSpaces, StripRight, IsSpace;
    var u := SkipSpaces(s);
    StripRightShape(u);
    TailSlices(s, |s| - |u|, |StripRight(u)|);
  }

  lemma TailSlices(s: string, i: nat, m: nat)
    requires i + m <= |s|
    ensures s[i..][m..] == s[i + m..] && s[i..][..m] == s[i..i + m]
  {
  }

  lemma OutsideIsSpace(s: string, k: nat)
    requires k < |s| && !(Indent(s) <= k < Indent(s) + |Strip(s)|)
    ensures IsSpace(s[k])
  {
    hide Strip, Indent;
    StripShape(s);
    var i, e := Indent(s), Indent(s) + |Strip(s)|;
    assert k < i ==> s[k] == s[..i][k];
    assert k >= e ==> s[k] == s[e..][k - e];
  }

  /** Marks hold no white space, so a line has them where its stripped text has them. */
  lemma MarkInside(s: string, k: nat)
    requires HasAt(s, k, MARK)
    ensures Indent(s) <= k && HasAt(Strip(s), k - Indent(s), MARK)
  {
    hide Strip, Indent, Blank;
    MarkChars(s, k);
    StripShape(s);
    if !(Indent(s) <= k < Indent(s) + |Strip(s)|) {
      OutsideIsSpace(s, k);
    } else if !(k + 1 < Indent(s) + |Strip(s)|) {
      OutsideIsSpace(s, k + 1);
    }
    MarkChars(Strip(s), k - Indent(s));
  }

  /** A line that opens a comment has no closing mark behind the opening one. */
  lemma OpenBeyond(line: string)
    requires Opens(line)
    ensures FirstMark(line, Indent(line) + 2) == |line|
  {
    hide Strip, Indent;
    var m := FirstMark(line, Indent(line) + 2);
    if m < |line| {
      MarkInside(line, m);
    }
  }

  /** `line` is white space, the opening mark, and `b`. */
  predicate OpensWith(line: string, a: string, b: string) {
    line == a + "/*" + b && Blank(a) && forall k: nat :: k < |b| ==> !HasAt(b, k, "*/")
  }

  /** A line opens a comment for the source exactly when its first text is an opening mark with no closing one behind. */
  lemma OpensShape(line: string)
    ensures Opens(line) <==> exists a, b :: OpensWith(line, a, b)
  {
    hide Strip, Indent, Blank, HasAt;
    if Opens(line) {
      OpensSplits(line);
    }
    forall a, b | OpensWith(line, a, b) ensures Opens(line) {
      SplitOpens(line, a, b);
    }
  }

  lemma OpensSplits(line: string)
    requires Opens(line)
    ensures exists a, b :: OpensWith(line, a, b)
  {
    hide Strip, Indent, Blank;
    StripShape(line);
    OpenBeyond(line);
    var i, t := Indent(line), Strip(line);
    var a, b := line[..i], line[i + 2..];
    assert line[i..i + 2] == t[0..2];
    assert line == a + line[i..i + 2] + b;
    forall k: nat | k < |b| ensures !HasAt(b, k, "*/") {
      MarkChars(b, k);
      MarkChars(line, i + 2 + k);
    }
    assert OpensWith(line, a, b);
  }

  lemma IndentOf(a: string, r: string)
    requires Blank(a) && r != [] && !IsSpace(r[0])
    ensures Indent(a + r) == |a| && Strip(a + r) == StripRight(r)
  {
    hide SkipSpaces, StripRight;
    SkipsAll(a, r);
  }

  lemma SplitOpens(line: string, a: string, b: string)
    requires OpensWith(line, a, b)
    ensures Opens(line)
  {
    hide Indent, Blank, StripRight;
    var r := "/*" + b;
    assert line == a + r && r[0] == '/';
    IndentOf(a, r);
    StripRightShape(r);
    var t := Strip(line);
    OpenStays(r, |t|);
    assert t[0..2] == "/*";
    forall k | 2 <= k < |t| ensures !HasAt(t, k, "*/") {
      MarkChars(t, k);
      MarkChars(b, k - 2);
      assert r[k..] == b[k - 2..];
    }
  }

  lemma NotBlankFrom(r: string, n: nat)
    requires n < 2 <= |r| && r[1] == '*'
    ensures !Blank(r[n..])
  {
    assert r[n..][1 - n] == '*';
    assert '*' in r[n..] && !IsSpace('*');
  }

  /** Stripping does not reach the opening mark. */
  lemma OpenStays(r: string, n: nat)
    requires n <= |r| && |r| >= 2 && r[0] == '/' && r[1] == '*' && Blank(r[n..])
    ensures n >= 2
  {
    hide Blank;
    NotBlankFrom(r, 0);
    NotBlankFrom(r, 1);
  }

  /** A line closes a comment for the source exactly when its last mark has only white space behind it. */
  lemma ClosesShape(line: string)
    ensures Closes(line) <==> exists k: nat :: HasAt(line, k, MARK) && Blank(line[k + 2..])
  {
    hide Strip, Indent;
    StripShape(line);
    var t, i := Strip(line), Indent(line);
    if Closes(line) {
      var k := i + |t| - 2;
      MarkChars(t, |t| - 2);
      MarkChars(line, k);
      assert HasAt(line, k, MARK) && Blank(line[k + 2..]);
    }
    if k: nat :| HasAt(line, k, MARK) && Blank(line[k + 2..]) {
      MarkInside(line, k);
      MarkChars(line, k);
      if |t| > 0 && k + 2 < i + |t| {
        assert line[i + |t| - 1] in line[k + 2..];
      }
      MarkChars(t, |t| - 2);
    }
  }

  // ---------- the comparison ----------

  lemma {:induction false} NoMarkBefore(lines: seq<string>, l: nat, k: nat)
    requires l <= k < |lines| && (CppEnd(lines, l, 0).End? ==> k < CppEnd(lines, l, 0).line)
    ensures FirstMark(lines[k], 0) == |lines[k]|
    decreases k - l
  {
    hide FirstMark;
    if l < k {
      NoMarkBefore(lines, l + 1, k);
    }
  }

  lemma {:induction false} MarkAtEnd(lines: seq<string>, l: nat)
    requires CppEnd(lines, l, 0).End?
    ensures var end := CppEnd(lines, l, 0); end.col >= 2 && HasAt(lines[end.line], end.col - 2, MARK)
    decreases |lines| - l
  {
    hide HasAt;
    if FirstMark(lines[l], 0) == |lines[l]| {
      MarkAtEnd(lines, l + 1);
    }
  }

  lemma ClosesHasMark(line: string)
    requires Closes(line)
    ensures FirstMark(line, 0) < |line|
  {
    ClosesShape(line);
    hide FirstMark, Closes, Blank;
    var k: nat :| HasAt(line, k, MARK) && Blank(line[k + 2..]);
    MarkChars(line, k);
  }

  lemma EndBelow(lines: seq<string>, b: nat)
    requires b < |lines| && Opens(lines[b])
    ensures EndFrom(lines, b) == CppEnd(lines, b + 1, 0)
  {
    hide Opens, Indent;
    OpenBeyond(lines[b]);
  }

  /** Of a comment opened on line b the source blanks lines b..e, where e is the first line from b on that
      closes one.  These lines hold just the comment, up to white space, exactly when line b is more than a
      slash, a star and a slash and nothing follows the comment on the line where C++ ends it. */
  lemma BlanksExactly(lines: seq<string>, b: nat)
    requires b < |lines| && Opens(lines[b])
    ensures var e, end := First(lines, b, Closes), EndFrom(lines, b);
            (e < |lines| && OnlyComment(lines, b, e)) <==>
              Strip(lines[b]) != "/*/" && end.End? && Blank(lines[end.line][end.col..])
  {
    hide Opens, Closes, Blank, FirstMark, CppEnd, Strip;
    var e, end := First(lines, b, Closes), EndFrom(lines, b);
    EndBelow(lines, b);
    OpensAndCloses(lines[b]);
    if end.End? && Blank(lines[end.line][end.col..]) {
      MarkAtEnd(lines, b + 1);
      ClosesShape(lines[end.line]);
      assert HasAt(lines[end.line], end.col - 2, MARK);
      assert Closes(lines[end.line]);
      if b < e < end.line {
        ClosesHasMark(lines[e]);
        NoMarkBefore(lines, b + 1, e);
      }
    }
  }

  /** The same for every comment the source finds. */
  lemma RangesExact(lines: seq<string>, i: nat)
    requires i < |Comments.Comments(SourceMarks(), lines, 0).ranges|
    ensures var r := Comments.Comments(SourceMarks(), lines, 0).ranges[i];
            && r.begin < |lines|
            && var end := EndFrom(lines, r.begin);
            OnlyComment(lines, r.begin, r.end) <==>
              Strip(lines[r.begin]) != "/*/" && end.End? && Blank(lines[end.line][end.col..])
  {
    hide Opens, Closes, Blank, FirstMark, CppEnd, Strip, Comments.Comments;
    RangeIsComment(SourceMarks(), lines, 0, i);
    var r := Comments.Comments(SourceMarks(), lines, 0).ranges[i];
    FirstUnique(lines, r.begin, Closes, First(lines, r.begin, Closes), r.end);
    BlanksExactly(lines, r.begin);
  }

  lemma NothingToStrip(s: string)
    requires s != [] && !IsSpace(s[0]) && !IsSpace(s[|s| - 1])
    ensures Strip(s) == s && Indent(s) == 0
  {
  }

  lemma MarksOfExample()
    ensures Opens("/*") && !Closes("/*") && !Closes("*/x") && Closes("*/")
    ensures Indent("/*") == 0 && FirstMark("*/x", 0) == 0
  {
    hide HasAt, Strip, Indent;
    NothingToStrip("/*");
    NothingToStrip("*/x");
    NothingToStrip("*/");
    MarkChars("/*", 0);
    MarkChars("*/x", 0);
    MarkChars("*/x", 1);
    MarkChars("*/", 0);
    OpensAt();
  }

  lemma OpensAt()
    ensures HasAt("/*", 0, "/*") && forall k :: 2 <= k ==> !HasAt("/*", k, "*/")
  {
    assert "/*"[0..2] == "/*";
  }

  /** A line that is code behind the end of the comment is blanked with it. */
  lemma CodeBehind()
    ensures var lines := ["/*", "*/x", "*/"];
            && Comments.Comments(SourceMarks(), lines, 0) == Found([Range(0, 2)], 3)
            && EndFrom(lines, 0) == End(1, 2) && !OnlyComment(lines, 0, 2)
  {
    hide Opens, Closes, FirstMark, Indent;
    var lines, m := ["/*", "*/x", "*/"], SourceMarks();
    MarksOfExample();
    assert First(lines, 0, m.opens) == 0;
    assert First(lines, 2, m.closes) == 2;
    assert First(lines, 1, m.closes) == 2;
    assert First(lines, 0, m.closes) == 2;
    assert Comments.Comments(m, lines, 3) == Found([], 3);
    EndBelow(lines, 0);
  }

  /** The line that is a slash, a star and a slash leaves the comment open. */
  lemma HalfCommentGoesOn()
    ensures Opens("/*/") && EndFrom(["/*/"], 0) == Never && !OnlyComment(["/*/"], 0, 0)
  {
    var lines := ["/*/"];
    assert Opens(lines[0]) by {
      OpensAndCloses("/*/");
      StrippedAlready();
    }
    EndBelow(lines, 0);
  }
}
