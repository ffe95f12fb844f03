/** The character classes of the patterns in scripts/cpplint.py, on ASCII text. */
module Characters {
  /** `\s`, and what str.strip() removes. */
  predicate IsSpace(c: char) { c == ' ' || 9 <= c as int <= 13 }

  /** `\w` */
  predicate IsWord(c: char) {
    'a' <= c <= 'z' || 'A' <= c <= 'Z' || '0' <= c <= '9' || c == '_'
  }

  /** What is left of `s` after its leading white space. */
  function SkipSpaces(s: string): (r: string)
    ensures r != [] ==> !IsSpace(r[0])
    ensures |r| <= |s| && r == s[|s| - |r|..] && forall c :: c in s[..|s| - |r|] ==> IsSpace(c)
  {
    if s != [] && IsSpace(s[0]) then SkipSpaces(s[1..]) else s
  }

  /** All of `s` is white space. */
  predicate Blank(s: string) {
    forall c :: c in s ==> IsSpace(c)
  }

  /** Leading white space is skipped to its end, and nothing else is. */
  lemma {:induction false} SkipsAll(a: string, r: string)
    requires Blank(a) && (r == [] || !IsSpace(r[0]))
    ensures SkipSpaces(a + r) == r
  {
    if a == [] {
      assert a + r == r;
    } else {
      assert (a + r)[1..] == a[1..] + r;
      SkipsAll(a[1..], r);
    }
  }

  /** The classes by the ASCII numbers of their characters. */
  lemma ClassesListed(c: char)
    ensures IsSpace(c) <==> c in " \t\n\U{0B}\U{0C}\r"
    ensures IsWord(c) <==> 48 <= c as int <= 57 || 65 <= c as int <= 90 || c as int == 95 || 97 <= c as int <= 122
  {
  }
}
