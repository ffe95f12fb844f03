/** examples/word_count.cc, from the bytes of the file to the number it logs: the block reader, the
    per-line counts, both reductions.  Splitting a line into words is an arbitrary function. */
module WordCount {
  import opened Arithmetic
  import opened Codec
  import opened Grouping
  import opened LineInput
  import opened Sequences
  import opened Shuffle
  import opened TextSource

  // ---------- records ----------

  const INT_RANGE: nat := 0x1_0000_0000

  /** The bits of a C++ `int`; sums wrap around. */
  type Bits = n: int | 0 <= n < INT_RANGE

  type Word = w: seq<byte> | |w| < SIZE_LIMIT

  datatype Count = Count(word: Word, n: Bits)

  /** `agg.second += update.second` */
  function AddCounts(agg: Count, update: Count): Count {
    Count(agg.word, (agg.n + update.n) % INT_RANGE)
  }

  /** The order of std::string: bytes as unsigned characters. */
  predicate Less(a: Word, b: Word)
    decreases |a|
  {
    b != [] && (a == [] || a[0] < b[0] || (a[0] == b[0] && Less(a[1..], b[1..])))
  }

  function WordOf(c: Count): Word { c.word }

  function ByWord(): Reducer<Count, Word> {
    Reducer(WordOf, Less, AddCounts)
  }

  /** a and b agree up to position k, where a ends or holds the smaller byte. */
  predicate DiffersAt(a: Word, b: Word, k: nat) {
    k <= |a| && k < |b| && (forall i :: 0 <= i < k ==> a[i] == b[i]) && (k == |a| || a[k] < b[k])
  }

  /** One word comes before another exactly when, at the first place where they differ, it ends or holds the smaller
      byte. */
  lemma {:induction false} LessShape(a: Word, b: Word)
    ensures Less(a, b) <==> exists k: nat :: DiffersAt(a, b, k)
    decreases |a|
  {
    if a == [] {
      if b != [] {
        assert DiffersAt(a, b, 0);
      }
    } else if b != [] {
      if a[0] < b[0] {
        assert DiffersAt(a, b, 0);
      } else if a[0] == b[0] {
        LessShape(a[1..], b[1..]);
        forall k: nat | DiffersAt(a, b, k) ensures k > 0 && DiffersAt(a[1..], b[1..], k - 1) {
        }
        forall k: nat | DiffersAt(a[1..], b[1..], k) ensures DiffersAt(a, b, k + 1) {
        }
      }
    }
  }

  lemma {:induction false} LessIrreflexive(a: Word)
    ensures !Less(a, a)
  {
    if a != [] {
      LessIrreflexive(a[1..]);
    }
  }

  lemma {:induction false} LessTotal(a: Word, b: Word)
    requires a != b
    ensures Less(a, b) || Less(b, a)
    decreases |a|
  {
    if a != [] && b != [] && a[0] == b[0] {
      assert a == [a[0]] + a[1..] && b == [b[0]] + b[1..];
      LessTotal(a[1..], b[1..]);
    }
  }

  lemma {:induction false} LessTransitive(a: Word, b: Word, c: Word)
    requires Less(a, b) && Less(b, c)
    ensures Less(a, c)
    decreases |a|
  {
    if a != [] && a[0] == b[0] == c[0] {
      LessTransitive(a[1..], b[1..], c[1..]);
    }
  }

  lemma WordsOrdered()
    ensures Ordered(ByWord())
  {
    hide Less;
    forall a: Word ensures !Less(a, a) { LessIrreflexive(a); }
    forall a: Word, b: Word | a != b ensures Less(a, b) || Less(b, a) { LessTotal(a, b); }
    forall a: Word, b: Word, c: Word | Less(a, b) && Less(b, c) ensures Less(a, c) { LessTransitive(a, b, c); }
  }

  lemma CountsCombine()
    ensures Combines(ByWord())
  {
    hide Less, AddCounts;
    forall a: Count, b: Count, c: Count | a.word == b.word == c.word
      ensures AddCounts(AddCounts(a, b), c) == AddCounts(a, AddCounts(b, c))
    {
      CountLaws(a, b, c);
    }
    forall a: Count, b: Count | a.word == b.word
      ensures AddCounts(a, b) == AddCounts(b, a) && AddCounts(a, b).word == a.word
    {
      CountLaws(a, b, b);
    }
  }

  lemma CountLaws(a: Count, b: Count, c: Count)
    requires a.word == b.word == c.word
    ensures AddCounts(AddCounts(a, b), c) == AddCounts(a, AddCounts(b, c))
    ensures AddCounts(a, b) == AddCounts(b, a) && AddCounts(a, b).word == a.word
  {
    WrapAssociates(a.n, b.n, c.n, INT_RANGE);
  }

  lemma ByWordLawful()
    ensures Lawful(ByWord())
  {
    hide Ordered, Combines, ByWord;
    WordsOrdered();
    CountsCombine();
  }

  // ---------- how the records travel ----------

  function PackBits(n: Bits): Value { Raw(ToBytes(n, 4)) }

  function UnpackBits(v: Value): Bits {
    if v.Raw? then FromBytes(v.bytes) % INT_RANGE else 0
  }

  function PackWord(w: Word): Value {
    ListV(seq(|w|, i requires 0 <= i < |w| => Raw([w[i]])))
  }

  function UnpackWord(v: Value): Word {
    if v.ListV? && |v.elems| < SIZE_LIMIT then
      seq(|v.elems|, i requires 0 <= i < |v.elems| =>
            if v.elems[i].Raw? && |v.elems[i].bytes| == 1 then v.elems[i].bytes[0] else 0)
    else []
  }

  /** std::pair<std::string, int>; every word and every number fits. */
  function CountWire(): Wire<Count> {
    Wire(PairOf(VecOf(Fixed(1)), Fixed(4)),
         (c: Count) => PairV(PackWord(c.word), PackBits(c.n)),
         (v: Value) => if v.PairV? then Count(UnpackWord(v.first), UnpackBits(v.second)) else Count([], 0),
         (c: Count) => true)
  }

  function IntWire(): Wire<Bits> {
    Wire(Fixed(4), (n: Bits) => PackBits(n), (v: Value) => UnpackBits(v), (n: Bits) => true)
  }

  lemma BitsTravel(n: Bits)
    ensures HasType(Fixed(4), PackBits(n)) && UnpackBits(PackBits(n)) == n
  {
    assert Pow256(4) == INT_RANGE by { assert Pow256(2) == 0x1_0000; }
    BytesRoundTrip(n, 4);
  }

  lemma WordTravels(w: Word)
    ensures HasType(VecOf(Fixed(1)), PackWord(w)) && UnpackWord(PackWord(w)) == w
  {
  }

  lemma WiresFaithful()
    ensures Faithful(CountWire()) && Faithful(IntWire())
    ensures forall parts :: PartsFit(CountWire(), parts)
    ensures forall sizes :: PartsFit(IntWire(), sizes)
  {
    hide PackWord, PackBits, UnpackWord, UnpackBits;
    forall c: Count ensures HasType(CountWire().t, CountWire().pack(c)) && CountWire().unpack(CountWire().pack(c)) == c {
      WordTravels(c.word);
      BitsTravel(c.n);
    }
    forall n: Bits ensures HasType(IntWire().t, IntWire().pack(n)) && IntWire().unpack(IntWire().pack(n)) == n {
      BitsTravel(n);
    }
  }

  // ---------- counting words ----------

  ghost predicate DistinctWords(out: seq<Count>) {
    forall i, j :: 0 <= i < j < |out| ==> out[i].word != out[j].word
  }

  /** `out` lists every word of `words` once, with the number of its occurrences. */
  ghost predicate CountsOf(out: seq<Count>, words: seq<Word>) {
    && DistinctWords(out)
    && (forall i :: 0 <= i < |out| ==> out[i].word in words && out[i].n == multiset(words)[out[i].word] % INT_RANGE)
    && forall w :: w in words ==> exists i :: 0 <= i < |out| && out[i].word == w
  }

  /** Every occurrence as a record of its own. */
  function Ones(words: seq<Word>): (xs: seq<Count>)
    ensures |xs| == |words| && forall i :: 0 <= i < |xs| ==> xs[i] == Count(words[i], 1)
  {
    seq(|words|, i requires 0 <= i < |words| => Count(words[i], 1))
  }

  function Tally(words: seq<Word>, w: Word): Option<Count> {
    if w in words then Some(Count(w, multiset(words)[w] % INT_RANGE)) else None
  }

  lemma {:induction false} AggOnes(words: seq<Word>, w: Word)
    ensures Agg(ByWord(), Ones(words), w) == Tally(words, w)
  {
    hide Tally, Plus, Pick, ByWord;
    if words == [] {
      TallyNone(w);
    } else {
      AggOnes(words[1..], w);
      assert Ones(words)[1..] == Ones(words[1..]);
      TallyCons(words, w);
    }
  }

  lemma TallyNone(w: Word)
    ensures Tally([], w) == None
  {
  }

  lemma TallyCons(words: seq<Word>, w: Word)
    requires words != []
    ensures Tally(words, w) == Plus(ByWord(), Pick(ByWord(), Count(words[0], 1), w), Tally(words[1..], w))
  {
    var rest, m := words[1..], multiset(words[1..])[w];
    assert words == [words[0]] + rest;
    assert multiset(words)[w] == multiset([words[0]])[w] + m;
    assert w in rest <==> m > 0;
    WrapSum(1, m);
  }

  lemma WrapSum(a: int, b: int)
    ensures (a + b % INT_RANGE) % INT_RANGE == (a + b) % INT_RANGE
  {
  }

  lemma {:induction false} AggDistinct(out: seq<Count>, w: Word)
    requires DistinctWords(out)
    ensures (exists i :: 0 <= i < |out| && out[i].word == w) ==>
              exists i :: 0 <= i < |out| && out[i].word == w && Agg(ByWord(), out, w) == Some(out[i])
    ensures (forall i :: 0 <= i < |out| ==> out[i].word != w) ==> Agg(ByWord(), out, w) == None
  {
    if out != [] {
      var rest := out[1..];
      AggDistinct(rest, w);
      if out[0].word == w {
        assert forall i :: 0 <= i < |rest| ==> rest[i].word != w;
        assert Agg(ByWord(), out, w) == Some(out[0]);
      } else if exists i :: 0 <= i < |out| && out[i].word == w {
        var i :| 0 <= i < |out| && out[i].word == w;
        assert rest[i - 1].word == w;
        var j :| 0 <= j < |rest| && rest[j].word == w && Agg(ByWord(), rest, w) == Some(rest[j]);
        assert out[j + 1].word == w;
      }
    }
  }

  /** Listing the counts and grouping the occurrences are the same thing. */
  lemma CountsAreGroups(out: seq<Count>, words: seq<Word>)
    requires DistinctWords(out)
    ensures CountsOf(out, words) <==> SameGroups(ByWord(), out, Ones(words))
  {
    hide Agg, ByWord, Ones, CountsOf, SameGroups;
    if CountsOf(out, words) {
      CountsGroup(out, words);
    }
    if SameGroups(ByWord(), out, Ones(words)) {
      GroupsCount(out, words);
    }
  }

  lemma CountsGroup(out: seq<Count>, words: seq<Word>)
    requires CountsOf(out, words)
    ensures SameGroups(ByWord(), out, Ones(words))
  {
    hide Agg, ByWord, Ones;
    forall w: Word ensures Agg(ByWord(), out, w) == Agg(ByWord(), Ones(words), w) {
      AggOnes(words, w);
      AggDistinct(out, w);
    }
  }

  lemma GroupsCount(out: seq<Count>, words: seq<Word>)
    requires DistinctWords(out) && SameGroups(ByWord(), out, Ones(words))
    ensures CountsOf(out, words)
  {
    hide Agg, ByWord, Ones;
    forall i | 0 <= i < |out| ensures Tally(words, out[i].word) == Some(out[i]) {
      AggOnes(words, out[i].word);
      AggDistinct(out, out[i].word);
    }
    forall w | w in words ensures exists i :: 0 <= i < |out| && out[i].word == w {
      AggOnes(words, w);
      AggDistinct(out, w);
    }
  }

  // ---------- one line ----------

  /** ParseLine: counts in a hash map, which is then walked in whatever order it has. */
  method ParseLine(line: seq<byte>, tokenize: seq<byte> -> seq<Word>) returns (collection: seq<Count>)
    ensures CountsOf(collection, WordsOf(line, tokenize))
  {
    hide CountsTokens, Walked;
    collection := [];
    if line == [] {
      return;
    }
    hide CountsOf;
    var tokens := tokenize(line);
    var wordCount: map<Word, Bits> := map[];
    CountsNoTokens();
    assert tokens[..0] == [];
    for i := 0 to |tokens|
      invariant CountsTokens(wordCount, tokens[..i])
    {
      var tok := tokens[i];
      assert tokens[..i + 1] == tokens[..i] + [tok];
      CountToken(wordCount, tokens[..i], tok);
      wordCount := wordCount[tok := ((if tok in wordCount then wordCount[tok] else 0) + 1) % INT_RANGE];
    }
    assert tokens[..|tokens|] == tokens;
    var todo := wordCount.Keys;
    WalkStart(wordCount);
    while todo != {}
      invariant Walked(collection, wordCount, todo)
      decreases |todo|
    {
      var w :| w in todo;
      WalkStep(collection, wordCount, todo, w);
      collection := collection + [Count(w, wordCount[w])];
      todo := todo - {w};
    }
    WalkEnd(collection, wordCount, tokens);
  }

  ghost predicate CountsTokens(m: map<Word, Bits>, tokens: seq<Word>) {
    && (forall w: Word :: w in m <==> w in tokens)
    && forall w: Word :: w in m ==> m[w] == multiset(tokens)[w] % INT_RANGE
  }

  lemma CountsNoTokens()
    ensures CountsTokens(map[], [])
  {
  }

  lemma CountToken(m: map<Word, Bits>, tokens: seq<Word>, tok: Word)
    requires CountsTokens(m, tokens)
    ensures CountsTokens(m[tok := ((if tok in m then m[tok] else 0) + 1) % INT_RANGE], tokens + [tok])
  {
    var m' := m[tok := ((if tok in m then m[tok] else 0) + 1) % INT_RANGE];
    assert tok !in tokens ==> multiset(tokens)[tok] == 0;
    WrapSum(1, multiset(tokens)[tok]);
    forall w: Word | w in m' ensures m'[w] == multiset(tokens + [tok])[w] % INT_RANGE {
      assert multiset(tokens + [tok])[w] == multiset(tokens)[w] + multiset([tok])[w];
    }
  }

  /** `out` lists the entries of `m` whose keys are not in `todo` any more. */
  ghost predicate Walked(out: seq<Count>, m: map<Word, Bits>, todo: set<Word>) {
    && todo <= m.Keys && DistinctWords(out)
    && (forall i :: 0 <= i < |out| ==> out[i].word in m && out[i].word !in todo && out[i].n == m[out[i].word])
    && forall w: Word :: w in m && w !in todo ==> exists i :: 0 <= i < |out| && out[i].word == w
  }

  lemma WalkStart(m: map<Word, Bits>)
    ensures Walked([], m, m.Keys)
  {
  }

  lemma WalkStep(out: seq<Count>, m: map<Word, Bits>, todo: set<Word>, w: Word)
    requires Walked(out, m, todo) && w in todo
    ensures w in m && todo - {w} <= m.Keys && Walked(out + [Count(w, m[w])], m, todo - {w})
  {
    var next := out + [Count(w, m[w])];
    forall v: Word | v in m && v !in todo - {w} ensures exists i :: 0 <= i < |next| && next[i].word == v {
      if v == w {
        assert next[|out|].word == v;
      } else {
        var i :| 0 <= i < |out| && out[i].word == v;
        assert next[i].word == v;
      }
    }
  }

  lemma WalkEnd(out: seq<Count>, m: map<Word, Bits>, tokens: seq<Word>)
    requires Walked(out, m, {}) && CountsTokens(m, tokens)
    ensures CountsOf(out, tokens)
  {
  }

  function WordsOf(line: seq<byte>, tokenize: seq<byte> -> seq<Word>): seq<Word> {
    if line == [] then [] else tokenize(line)
  }

  /** All words of some lines. */
  function WordsIn(lines: seq<seq<byte>>, tokenize: seq<byte> -> seq<Word>): seq<Word> {
    Executed(line => WordsOf(line, tokenize), lines)
  }

  // ---------- many lines ----------

  /** What every executor that meets the contract of ParseLine satisfies. */
  ghost predicate ParsesLines(executor: seq<byte> -> seq<Count>, tokenize: seq<byte> -> seq<Word>) {
    forall line :: CountsOf(executor(line), WordsOf(line, tokenize))
  }

  lemma {:induction false} LinesGroup(executor: seq<byte> -> seq<Count>, tokenize: seq<byte> -> seq<Word>, lines: seq<seq<byte>>)
    requires ParsesLines(executor, tokenize)
    ensures SameGroups(ByWord(), Executed(executor, lines), Ones(WordsIn(lines, tokenize)))
  {
    hide CountsOf, ByWord, SameGroups, Ones, WordsOf, Combines;
    if lines == [] {
      NoRecords(ByWord());
      assert Ones([]) == [];
    } else {
      var first, rest := WordsOf(lines[0], tokenize), WordsIn(lines[1..], tokenize);
      CountsCombine();
      CountsGroup(executor(lines[0]), first);
      LinesGroup(executor, tokenize, lines[1..]);
      SameGroupsConcat(ByWord(), executor(lines[0]), Executed(executor, lines[1..]), Ones(first), Ones(rest));
      assert Ones(first + rest) == Ones(first) + Ones(rest);
    }
  }

  lemma {:induction false} WordsPermute(a: seq<seq<byte>>, b: seq<seq<byte>>, tokenize: seq<byte> -> seq<Word>)
    requires multiset(a) == multiset(b)
    ensures multiset(WordsIn(a, tokenize)) == multiset(WordsIn(b, tokenize))
  {
    hide WordsOf, WordsIn;
    if a == [] {
      assert |multiset(b)| == 0;
    } else {
      var l, r := SplitAtHead(a, b);
      WordsPermute(a[1..], l + r, tokenize);
      WordsPull([], a[0], a[1..], tokenize);
      WordsPull(l, a[0], r, tokenize);
    }
  }

  lemma WordsPull(l: seq<seq<byte>>, line: seq<byte>, r: seq<seq<byte>>, tokenize: seq<byte> -> seq<Word>)
    ensures multiset(WordsIn(l + ([line] + r), tokenize)) ==
              multiset(WordsOf(line, tokenize)) + multiset(WordsIn(l + r, tokenize))
  {
    hide WordsOf, Executed;
    var f := (x: seq<byte>) => WordsOf(x, tokenize);
    ExecutedConcat(f, l, [line] + r);
    ExecutedConcat(f, [line], r);
    ExecutedConcat(f, l, r);
    ExecutedOne(f, line);
  }

  lemma ExecutedOne<Val>(f: seq<byte> -> seq<Val>, line: seq<byte>)
    ensures Executed(f, [line]) == f(line)
  {
    assert [line][1..] == [];
  }

  lemma OnesPermute(a: seq<Word>, b: seq<Word>)
    requires multiset(a) == multiset(b)
    ensures SameGroups(ByWord(), Ones(a), Ones(b))
  {
    hide Agg, Ones, ByWord;
    forall w: Word ensures Agg(ByWord(), Ones(a), w) == Agg(ByWord(), Ones(b), w) {
      AggOnes(a, w);
      AggOnes(b, w);
      assert w in a <==> w in multiset(a);
      assert w in b <==> w in multiset(b);
    }
  }

  // ---------- what a list of counts adds up to ----------

  function SetOfWords(words: seq<Word>): set<Word> { set w | w in words }

  lemma {:induction false} DistinctLength(out: seq<Count>)
    requires DistinctWords(out)
    ensures |set i | 0 <= i < |out| :: out[i].word| == |out|
  {
    var all := set i | 0 <= i < |out| :: out[i].word;
    if out != [] {
      var n := |out| - 1;
      var fewer := set i | 0 <= i < n :: out[..n][i].word;
      DistinctLength(out[..n]);
      assert all == fewer + {out[n].word};
    }
  }

  /** As many records as distinct words. */
  lemma CountsLength(out: seq<Count>, words: seq<Word>)
    requires CountsOf(out, words)
    ensures |out| == |SetOfWords(words)|
  {
    DistinctLength(out);
    assert (set i | 0 <= i < |out| :: out[i].word) == SetOfWords(words);
  }

  function Total(xs: seq<Count>): nat {
    if xs == [] then 0 else xs[0].n + Total(xs[1..])
  }

  function Without(words: seq<Word>, w: Word): seq<Word> {
    if words == [] then [] else (if words[0] == w then [] else [words[0]]) + Without(words[1..], w)
  }

  lemma {:induction false} WithoutCounts(words: seq<Word>, w: Word, v: Word)
    ensures multiset(Without(words, w))[v] == if v == w then 0 else multiset(words)[v]
    ensures |words| == multiset(words)[w] + |Without(words, w)|
  {
    if words != [] {
      var rest: seq<Word> := words[1..];
      WithoutCounts(rest, w, v);
      assert words == [words[0]] + rest;
      assert multiset(words)[v] == multiset([words[0]])[v] + multiset(rest)[v];
      assert multiset(words)[w] == multiset([words[0]])[w] + multiset(rest)[w];
    }
  }

  /** The counts of all words add up to the number of words. */
  lemma {:induction false} CountsTotal(out: seq<Count>, words: seq<Word>)
    requires CountsOf(out, words)
    ensures Total(out) % 0x1_0000_0000 == |words| % 0x1_0000_0000
    ensures |words| < 0x1_0000_0000 ==> Total(out) == |words|
    decreases |out|
  {
    hide Without;
    if out == [] {
      CountsLength(out, words);
      NoWords(words);
    } else {
      var w, fewer := out[0].word, Without(words, out[0].word);
      CountsTail(out, words);
      CountsTotal(out[1..], fewer);
      WithoutCounts(words, w, w);
      SumFits(multiset(words)[w], Total(out[1..]), |fewer|);
    }
  }

  lemma NoWords(words: seq<Word>)
    ensures |SetOfWords(words)| == 0 ==> words == []
  {
    if words != [] {
      assert words[0] in SetOfWords(words);
    }
  }

  lemma SumFits(m: nat, a: nat, b: nat)
    requires a % INT_RANGE == b % INT_RANGE
    ensures (m % INT_RANGE + a) % INT_RANGE == (m + b) % INT_RANGE
    ensures m + b < INT_RANGE && a == b ==> m % INT_RANGE + a == m + b
  {
  }

  lemma CountsTail(out: seq<Count>, words: seq<Word>)
    requires CountsOf(out, words) && out != []
    ensures CountsOf(out[1..], Without(words, out[0].word))
  {
    hide Without;
    var rest: seq<Count>, fewer: seq<Word> := out[1..], Without(words, out[0].word);
    forall v: Word ensures v in fewer <==> v in words && v != out[0].word {
      WithoutCounts(words, out[0].word, v);
      assert v in fewer <==> multiset(fewer)[v] > 0;
      assert v in words <==> multiset(words)[v] > 0;
    }
    forall i | 0 <= i < |rest| ensures multiset(fewer)[rest[i].word] == multiset(words)[rest[i].word] {
      WithoutCounts(words, out[0].word, rest[i].word);
    }
    forall v | v in fewer ensures exists i :: 0 <= i < |rest| && rest[i].word == v {
      var i :| 0 <= i < |out| && out[i].word == v;
      assert rest[i - 1].word == v;
    }
  }

  // ---------- the sizes of the partitions ----------

  function AddBits(agg: Bits, update: Bits): Bits { (agg + update) % INT_RANGE }

  function Always(n: Bits): int { 1 }

  function IntLess(a: int, b: int): bool { a < b }

  function ToOne(): Reducer<Bits, int> { Reducer(Always, IntLess, AddBits) }

  lemma ToOneOrdered()
    ensures Ordered(ToOne())
  {
  }

  lemma AddBitsLaws(a: Bits, b: Bits, c: Bits)
    ensures AddBits(a, b) == AddBits(b, a) && AddBits(AddBits(a, b), c) == AddBits(a, AddBits(b, c))
  {
    WrapAssociates(a, b, c, INT_RANGE);
  }

  lemma ToOneCombines()
    ensures Combines(ToOne())
  {
    hide AddBits;
    forall a: Bits, b: Bits ensures AddBits(a, b) == AddBits(b, a) {
      AddBitsLaws(a, b, 0);
    }
    forall a: Bits, b: Bits, c: Bits ensures AddBits(AddBits(a, b), c) == AddBits(a, AddBits(b, c)) {
      AddBitsLaws(a, b, c);
    }
  }

  lemma ToOneLawful()
    ensures Lawful(ToOne())
  {
    hide ToOne, Ordered, Combines;
    ToOneOrdered();
    ToOneCombines();
  }

  function Sum(xs: seq<Bits>): nat {
    if xs == [] then 0 else xs[0] + Sum(xs[1..])
  }

  lemma {:induction false} AggToOne(xs: seq<Bits>)
    ensures Agg(ToOne(), xs, 1) == if xs == [] then None else Some(Sum(xs) % INT_RANGE)
  {
    if xs != [] {
      AggToOne(xs[1..]);
      WrapSum(xs[0], Sum(xs[1..]));
    }
  }

  /** MapPartition: the number of records of each partition, as an int. */
  function Sizes(parts: seq<seq<Count>>): (sizes: seq<seq<Bits>>)
    ensures |sizes| == |parts| && forall p :: 0 <= p < |parts| ==> sizes[p] == [|parts[p]| % INT_RANGE]
  {
    seq(|parts|, p requires 0 <= p < |parts| => [|parts[p]| % INT_RANGE])
  }

  lemma {:induction false} SizesAddUp(parts: seq<seq<Count>>)
    ensures Sum(Flatten(Sizes(parts))) % INT_RANGE == |Flatten(parts)| % INT_RANGE
    ensures parts != [] ==> Flatten(Sizes(parts)) != []
  {
    if parts != [] {
      SizesAddUp(parts[1..]);
      assert Sizes(parts)[1..] == Sizes(parts[1..]);
      var rest := Flatten(Sizes(parts[1..]));
      assert ([|parts[0]| % INT_RANGE] + rest)[1..] == rest;
      SumFits(|parts[0]|, Sum(rest), |Flatten(parts[1..])|);
    }
  }

  /** The last reduction leaves one record, the sum. */
  lemma OneSum(out: seq<Bits>, xs: seq<Bits>)
    requires xs != [] && IsGroupBy(ToOne(), out, xs)
    ensures out == [Sum(xs) % INT_RANGE]
  {
    hide Agg;
    ToOneLawful();
    AggToOne(xs);
    AggToOne(out);
    assert out != [] by {
      assert Agg(ToOne(), out, 1) == Agg(ToOne(), xs, 1);
    }
    AscendingAgg(ToOne(), out, 0);
    AtMostOne(out);
  }

  lemma AtMostOne(out: seq<Bits>)
    requires Grouping.Ascending(ToOne(), out)
    ensures |out| <= 1
  {
    assert |out| > 1 ==> IntLess(Always(out[0]), Always(out[1]));
  }

  // ---------- the job ----------

  /** The whole job, for every file, block size, assignment of blocks to tasks, hash functions and
      message orders.  Before the MapPartition step the partitions list each word of the file once with
      the number of its occurrences; the number logged is the number of distinct words. */
  method Run(file: seq<byte>, B: nat, blocks: nat, tasks: seq<seq<nat>>,
             executor: seq<byte> -> seq<Count>, ghost tokenize: seq<byte> -> seq<Word>,
             hash: Word -> nat, intHash: int -> nat, order: seq<seq<nat>>, lastOrder: seq<seq<nat>>)
    returns (counts: seq<seq<Count>>, distinct: Bits)
    requires Assigned(file, B, blocks, tasks) && |tasks| > 0 && ParsesLines(executor, tokenize)
    requires |order| == |tasks| && forall p :: 0 <= p < |tasks| ==> IsPermutation(order[p], |tasks|)
    requires |lastOrder| == 1 && IsPermutation(lastOrder[0], |tasks|)
    ensures |counts| == |tasks| && CountsOf(Flatten(counts), WordsIn(SplitLines(file), tokenize))
    ensures forall p :: 0 <= p < |tasks| ==> WordsOfPart(counts[p], hash, |tasks|, p)
    ensures distinct == |SetOfWords(WordsIn(SplitLines(file), tokenize))| % 0x1_0000_0000
  {
    hide *;
    WiresFaithful();
    CombinersClose();
    ByWordLawful();
    ToOneLawful();
    var records := FlatMap(file, B, blocks, tasks, executor);
    counts := ReduceBy(ByWord(), CountWire(), hash, |tasks|, records, order);
    WordsCounted(file, B, blocks, tasks, executor, tokenize, hash, Flatten(records), counts);
    forall p | 0 <= p < |tasks| ensures WordsOfPart(counts[p], hash, |tasks|, p) {
      PartPlaced(counts[p], Flatten(records), hash, |tasks|, p);
    }
    var sizes := Sizes(counts);
    SizesLength(counts);
    var last := ReduceBy(ToOne(), IntWire(), intHash, 1, sizes, lastOrder);
    LastSum(last[0], counts, intHash);
    CountsLength(Flatten(counts), WordsIn(SplitLines(file), tokenize));
    distinct := last[0][0];
  }

  /** `out` lists words of partition p of n, in ascending order. */
  ghost predicate WordsOfPart(out: seq<Count>, hash: Word -> nat, n: nat, p: nat)
    requires n > 0
  {
    && (forall i :: 0 <= i < |out| ==> hash(out[i].word) % n == p)
    && forall i, j :: 0 <= i < j < |out| ==> Less(out[i].word, out[j].word)
  }

  lemma PartPlaced(out: seq<Count>, records: seq<Count>, hash: Word -> nat, n: nat, p: nat)
    requires n > 0 && IsGroupBy(ByWord(), out, Routed(records, KeyRoute(ByWord(), hash), n, p))
    ensures WordsOfPart(out, hash, n, p)
  {
    hide Routed, Less;
    ByWordLawful();
    forall i | 0 <= i < |out| ensures hash(out[i].word) % n == p {
      var w := out[i].word;
      GroupByExactlyOnce(ByWord(), out, Routed(records, KeyRoute(ByWord(), hash), n, p), w);
      assert ByWord().key(out[i]) == w;
      RoutedMembers(records, KeyRoute(ByWord(), hash), n, p);
    }
    forall i, j | 0 <= i < j < |out| ensures Less(out[i].word, out[j].word) {
      AscendingWords(out, i, j);
    }
  }

  lemma AscendingWords(out: seq<Count>, i: nat, j: nat)
    requires Grouping.Ascending(ByWord(), out) && i < j < |out|
    ensures Less(out[i].word, out[j].word)
  {
  }

  lemma CombinersClose()
    ensures Closed(ByWord(), CountWire()) && Closed(ToOne(), IntWire())
  {
  }

  lemma SizesLength(parts: seq<seq<Count>>)
    ensures |Sizes(parts)| == |parts|
  {
  }

  lemma LastSum(out: seq<Bits>, counts: seq<seq<Count>>, intHash: int -> nat)
    requires counts != []
    requires IsGroupBy(ToOne(), out, Routed(Flatten(Sizes(counts)), KeyRoute(ToOne(), intHash), 1, 0))
    ensures out == [|Flatten(counts)| % 0x1_0000_0000]
  {
    hide IsGroupBy, ToOne, Flatten, Sizes, Routed;
    SizesAddUp(counts);
    AllRouted(Flatten(Sizes(counts)), KeyRoute(ToOne(), intHash));
    OneSum(out, Flatten(Sizes(counts)));
  }

  lemma WordsCounted(file: seq<byte>, B: nat, blocks: nat, tasks: seq<seq<nat>>,
                     executor: seq<byte> -> seq<Count>, tokenize: seq<byte> -> seq<Word>,
                     hash: Word -> nat, records: seq<Count>, counts: seq<seq<Count>>)
    requires Assigned(file, B, blocks, tasks) && |tasks| > 0 && ParsesLines(executor, tokenize)
    requires records == Executed(executor, LinesRead(file, B, blocks, tasks)) && |counts| == |tasks|
    requires forall p :: 0 <= p < |tasks| ==>
               IsGroupBy(ByWord(), counts[p], Routed(records, KeyRoute(ByWord(), hash), |tasks|, p))
    ensures CountsOf(Flatten(counts), WordsIn(SplitLines(file), tokenize))
  {
    hide Assigned, ParsesLines, Executed, IsGroupBy, Routed, SameGroups, Flatten, WordsIn, Ones, LinesRead, SplitLines, Lawful, CountsOf;
    var lines, read, r := SplitLines(file), LinesRead(file, B, blocks, tasks), ByWord();
    ByWordLawful();
    ReducedTogether(r, hash, |tasks|, counts, records);
    LinesGroup(executor, tokenize, read);
    SameGroupsTransitive(r, Flatten(counts), records, Ones(WordsIn(read, tokenize)));
    ReadExactlyOnce(file, B, blocks, tasks);
    WordsPermute(read, lines, tokenize);
    OnesPermute(WordsIn(read, tokenize), WordsIn(lines, tokenize));
    SameGroupsTransitive(r, Flatten(counts), Ones(WordsIn(read, tokenize)), Ones(WordsIn(lines, tokenize)));
    GroupsCount(Flatten(counts), WordsIn(lines, tokenize));
  }

  /** The counts listed before the MapPartition step add up to the number of words. */
  lemma WordsAddUp(counts: seq<seq<Count>>, words: seq<Word>)
    requires CountsOf(Flatten(counts), words)
    ensures Total(Flatten(counts)) % 0x1_0000_0000 == |words| % 0x1_0000_0000
    ensures |words| < 0x1_0000_0000 ==> Total(Flatten(counts)) == |words|
  {
    CountsTotal(Flatten(counts), words);
  }
}
