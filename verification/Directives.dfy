/** The preprocessor lines that NestingState of scripts/cpplint.py looks for. */
module Directives {
  import opened Characters

  datatype Directive = If | Else | Endif | Other

  /** The longest run of word characters at the start. */
  function Word(s: string): (w: string)
    ensures w <= s && (forall i :: 0 <= i < |w| ==> IsWord(w[i])) && (|w| < |s| ==> !IsWord(s[|w|]))
  {
    if s != [] && IsWord(s[0]) then [s[0]] + Word(s[1..]) else []
  }

  /** The word that follows the `#`, if the line begins with one. */
  function Named(line: string): string {
    var s := SkipSpaces(line);
    if s == [] || s[0] != '#' then "" else Word(SkipSpaces(s[1..]))
  }

  /** `^\s*#\s*(if|ifdef|ifndef)\b` and its two companions. */
  function Kind(line: string): Directive {
    var w := Named(line);
    if w in ["if", "ifdef", "ifndef"] then If
    else if w in ["else", "elif"] then Else
    else if w == "endif" then Endif
    else Other
  }

  // ---------- the shape of a directive ----------

  /** `line` is white space, `#`, white space, the word `w`, and what follows the word. */
  predicate Split(line: string, a: string, b: string, w: string, c: string) {
    line == a + "#" + b + w + c && Blank(a) && Blank(b) && (c == [] || !IsWord(c[0]))
  }

  ghost predicate Names(line: string, w: string) {
    exists a, b, c :: Split(line, a, b, w, c)
  }

  predicate AllWord(w: string) {
    forall i :: 0 <= i < |w| ==> IsWord(w[i])
  }

  lemma {:induction false} WordOf(w: string, c: string)
    requires AllWord(w) && (c == [] || !IsWord(c[0]))
    ensures Word(w + c) == w
  {
    if w == [] {
      assert w + c == c;
    } else {
      assert (w + c)[1..] == w[1..] + c;
      WordOf(w[1..], c);
    }
  }

  lemma NotSpace()
    ensures !IsSpace('#') && forall c: char :: IsWord(c) ==> !IsSpace(c)
  {
  }

  lemma SplitNames(line: string, a: string, b: string, w: string, c: string)
    requires w != [] && AllWord(w) && Split(line, a, b, w, c)
    ensures Named(line) == w
  {
    hide IsSpace, IsWord, SkipSpaces, Blank, Word, Named;
    NotSpace();
    var r := w + c;
    SplitJoined(line, a, b, w, c);
    SkipsAll(a, "#" + (b + r));
    SkipsAll(b, r);
    WordOf(w, c);
    NamedOf(line, b + r, r);
  }

  lemma SplitJoined(line: string, a: string, b: string, w: string, c: string)
    requires line == a + "#" + b + w + c
    ensures line == a + ("#" + (b + (w + c)))
  {
  }

  lemma NamedOf(line: string, t: string, r: string)
    requires SkipSpaces(line) == "#" + t && SkipSpaces(t) == r
    ensures Named(line) == Word(r)
  {
    hide SkipSpaces, Word;
    assert ("#" + t)[1..] == t;
  }

  lemma NamedSplits(line: string, w: string)
    requires w != [] && Named(line) == w
    ensures Names(line, w)
  {
    var s := SkipSpaces(line);
    var a := Skipped(line);
    var b := Skipped(s[1..]);
    NamedAfter(line, a, s, b, SkipSpaces(s[1..]), w);
  }

  lemma Skipped(s: string) returns (a: string)
    ensures s == a + SkipSpaces(s) && Blank(a)
  {
    a := s[..|s| - |SkipSpaces(s)|];
  }

  lemma NamedAfter(line: string, a: string, s: string, b: string, r: string, w: string)
    requires line == a + s && s != [] && s[0] == '#' && s[1..] == b + r && Word(r) == w && Blank(a) && Blank(b)
    ensures Names(line, w)
  {
    hide Blank;
    assert s == "#" + s[1..] && r == w + r[|w|..];
    SplitOf(line, a, s[1..], b, r, w, r[|w|..]);
  }

  lemma SplitOf(line: string, a: string, t: string, b: string, r: string, w: string, c: string)
    requires line == a + ("#" + t) && t == b + r && r == w + c
    requires Blank(a) && Blank(b) && (c == [] || !IsWord(c[0]))
    ensures Names(line, w)
  {
    hide Blank;
    assert a + ("#" + (b + (w + c))) == a + "#" + b + w + c;
    assert Split(line, a, b, w, c);
  }

  lemma NamedExact(line: string, w: string)
    requires w != [] && AllWord(w)
    ensures Named(line) == w <==> Names(line, w)
  {
    hide Named, Split;
    if Named(line) == w {
      NamedSplits(line, w);
    }
    if Names(line, w) {
      var a, b, c :| Split(line, a, b, w, c);
      SplitNames(line, a, b, w, c);
    }
  }

  /** A line opens a conditional exactly when it names `if`, `ifdef` or `ifndef`, has an alternative exactly when it
      names `else` or `elif`, and closes one exactly when it names `endif`. */
  lemma KindShape(line: string)
    ensures Kind(line) == If <==> Names(line, "if") || Names(line, "ifdef") || Names(line, "ifndef")
    ensures Kind(line) == Else <==> Names(line, "else") || Names(line, "elif")
    ensures Kind(line) == Endif <==> Names(line, "endif")
  {
    hide Names, Named;
    NamedExact(line, "if");
    NamedExact(line, "ifdef");
    NamedExact(line, "ifndef");
    NamedExact(line, "else");
    NamedExact(line, "elif");
    NamedExact(line, "endif");
  }
}
