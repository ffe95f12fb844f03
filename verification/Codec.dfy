/** The byte codec of ursa/base/bin_stream.h.

    C++ picks the `operator<<` / `operator>>` of a value by its type.  `Type` is that static
    type, `Value` what an object of it holds.  The iteration order of a container is not part
    of its value, so an encoding is a relation: `Encodes(t, v, b)` says that `b` is what
    `operator<<` may append for `v`, whatever order the container is walked in. */
module Codec {
  import opened Arithmetic

  type byte = b: int | 0 <= b < 256
  type pos = n: int | 0 < n witness 1

  const SIZE_BYTES: nat := 8              // sizeof(size_t)
  const SIZE_LIMIT: nat := 0x1_0000_0000_0000_0000

  datatype Type =
    | Fixed(width: pos)                   // a trivially copyable type and its sizeof
    | VecOf(elem: Type)                   // std::vector and std::basic_string
    | SetOf(elem: Type)                   // std::set and std::unordered_set
    | MapOf(key: Type, val: Type)         // std::map and std::unordered_map
    | PairOf(first: Type, second: Type)
    | PtrTo(target: Type)                 // std::shared_ptr and std::unique_ptr
  {
    ghost function Size(): nat {
      match this
      case Fixed(_) => 0
      case VecOf(e) => 1 + e.Size()
      case SetOf(e) => 1 + e.Size()
      case MapOf(k, v) => 2 + k.Size() + v.Size()
      case PairOf(a, b) => 1 + a.Size() + b.Size()
      case PtrTo(t) => 1 + t.Size()
    }
  }

  datatype Value =
    | Raw(bytes: seq<byte>)
    | ListV(elems: seq<Value>)
    | SetV(members: set<Value>)
    | MapV(entries: map<Value, Value>)
    | PairV(first: Value, second: Value)

  datatype Parsed<+T> = Underflow | Parsed(value: T, rest: seq<byte>)

  /** `v` is an object of type `t`; a container's size is a size_t. */
  ghost predicate HasType(t: Type, v: Value)
    decreases t
  {
    match t
    case Fixed(w) => v.Raw? && |v.bytes| == w
    case VecOf(e) => v.ListV? && |v.elems| < SIZE_LIMIT && forall x :: x in v.elems ==> HasType(e, x)
    case SetOf(e) => v.SetV? && |v.members| < SIZE_LIMIT && forall x :: x in v.members ==> HasType(e, x)
    case MapOf(k, e) =>
      v.MapV? && |v.entries| < SIZE_LIMIT &&
      forall x :: x in v.entries ==> HasType(k, x) && HasType(e, v.entries[x])
    case PairOf(a, b) => v.PairV? && HasType(a, v.first) && HasType(b, v.second)
    case PtrTo(u) => HasType(u, v)
  }

  // ---------- size_t, little-endian ----------

  function ToBytes(n: nat, width: nat): (b: seq<byte>)
    ensures |b| == width
  {
    if width == 0 then [] else [n % 256] + ToBytes(n / 256, width - 1)
  }

  function FromBytes(b: seq<byte>): (n: nat)
  {
    if b == [] then 0 else b[0] + 256 * FromBytes(b[1..])
  }

  ghost function Pow256(width: nat): nat {
    if width == 0 then 1 else 256 * Pow256(width - 1)
  }

  lemma {:induction false} BytesRoundTrip(n: nat, width: nat)
    requires n < Pow256(width)
    ensures FromBytes(ToBytes(n, width)) == n
  {
    if width > 0 {
      BytesRoundTrip(n / 256, width - 1);
      assert ToBytes(n, width)[1..] == ToBytes(n / 256, width - 1);
    }
  }

  /** The bytes of a number are its digits to the base 256, the low one first. */
  lemma {:induction false} BytesAreDigits(n: nat, width: nat, i: nat)
    requires i < width
    ensures Pow256(i) > 0 && ToBytes(n, width)[i] == n / Pow256(i) % 256
    decreases width
  {
    PowPositive(i);
    if i > 0 {
      PowPositive(i - 1);
      BytesAreDigits(n / 256, width - 1, i - 1);
      assert ToBytes(n, width)[i] == ToBytes(n / 256, width - 1)[i - 1];
      QuotientTwice(n, Pow256(i - 1));
    }
  }

  lemma {:induction false} PowPositive(i: nat)
    ensures Pow256(i) > 0
  {
    if i > 0 {
      PowPositive(i - 1);
    }
  }

  lemma QuotientTwice(n: nat, p: nat)
    requires p > 0
    ensures n / 256 / p == n / (256 * p)
  {
    var q := n / 256 / p;
    assert n == 256 * (n / 256) + n % 256 && n / 256 == p * q + n / 256 % p;
    assert n == 256 * (p * q + n / 256 % p) + n % 256;
    var r := 256 * (n / 256 % p) + n % 256;
    assert 256 * (p * q + n / 256 % p) == 256 * p * q + 256 * (n / 256 % p);
    assert n == 256 * p * q + r && 0 <= r < 256 * p;
    assert q * (256 * p) == 256 * p * q;
    QuotientIff(n, 256 * p, q);
  }

  lemma SizeLimitIsPow256()
    ensures Pow256(SIZE_BYTES) == SIZE_LIMIT
  {
    assert Pow256(4) == 0x1_0000_0000 by { assert Pow256(2) == 0x1_0000; }
    assert Pow256(6) == 0x1_0000_0000_0000;
  }

  // ---------- operator<< ----------

  /** What `stream << v` may append. */
  ghost predicate Encodes(t: Type, v: Value, b: seq<byte>)
    decreases t.Size(), 0
  {
    match t
    case Fixed(_) => v.Raw? && b == v.bytes
    case VecOf(e) => v.ListV? && EncodesCounted(e, v.elems, b)
    case SetOf(e) => v.SetV? && exists order :: Enumerates(order, v.members) && EncodesCounted(e, order, b)
    case MapOf(k, e) =>
      v.MapV? && exists order :: EnumeratesMap(order, v.entries) && EncodesCounted(PairOf(k, e), order, b)
    case PairOf(a, c) =>
      v.PairV? && exists m :: 0 <= m <= |b| && Encodes(a, v.first, b[..m]) && Encodes(c, v.second, b[m..])
    case PtrTo(u) => Encodes(u, v, b)
  }

  /** A length followed by the elements. */
  ghost predicate EncodesCounted(t: Type, xs: seq<Value>, b: seq<byte>)
    decreases t.Size(), |xs| + 2
  {
    |b| >= SIZE_BYTES && b[..SIZE_BYTES] == ToBytes(|xs|, SIZE_BYTES) && EncodesAll(t, xs, b[SIZE_BYTES..])
  }

  /** The elements one after the other. */
  ghost predicate EncodesAll(t: Type, xs: seq<Value>, b: seq<byte>)
    decreases t.Size(), |xs| + 1
  {
    if xs == [] then b == []
    else exists m :: 0 <= m <= |b| && Encodes(t, xs[0], b[..m]) && EncodesAll(t, xs[1..], b[m..])
  }

  /** The value of a std::string with the characters `s`. */
  function Chars(s: seq<byte>): (xs: seq<Value>)
    ensures |xs| == |s| && forall i :: 0 <= i < |s| ==> xs[i] == Raw([s[i]])
  {
    seq(|s|, i requires 0 <= i < |s| => Raw([s[i]]))
  }

  /** A string is written as its length in eight bytes, low byte first, and then its characters. */
  lemma StringOnWire(s: seq<byte>, b: seq<byte>)
    ensures Encodes(VecOf(Fixed(1)), ListV(Chars(s)), b) <==> b == ToBytes(|s|, 8) + s
  {
    hide ToBytes, EncodesAll, Chars;
    if |b| >= 8 {
      CharsOnWire(s, b[8..]);
      assert b == b[..8] + b[8..];
    }
    assert (ToBytes(|s|, 8) + s)[..8] == ToBytes(|s|, 8) && (ToBytes(|s|, 8) + s)[8..] == s;
  }

  lemma {:induction false} CharsOnWire(s: seq<byte>, b: seq<byte>)
    ensures EncodesAll(Fixed(1), Chars(s), b) <==> b == s
    decreases |s|
  {
    if s != [] {
      assert Chars(s)[1..] == Chars(s[1..]);
      assert s == [s[0]] + s[1..];
      if EncodesAll(Fixed(1), Chars(s), b) {
        var m :| 0 <= m <= |b| && Encodes(Fixed(1), Chars(s)[0], b[..m]) && EncodesAll(Fixed(1), Chars(s)[1..], b[m..]);
        CharsOnWire(s[1..], b[m..]);
        assert b == b[..m] + b[m..];
      }
      if b == s {
        CharsOnWire(s[1..], b[1..]);
        assert b[..1] == [s[0]];
        assert Encodes(Fixed(1), Chars(s)[0], b[..1]);
      }
    }
  }

  /** `order` walks the set `s`, each member once. */
  ghost predicate Enumerates(order: seq<Value>, s: set<Value>) {
    |order| == |s| && forall x :: x in order <==> x in s
  }

  /** `order` walks the map `m` as key/value pairs, each key once. */
  ghost predicate EnumeratesMap(order: seq<Value>, m: map<Value, Value>) {
    && |order| == |m|
    && (forall p :: p in order ==> p.PairV? && p.first in m && m[p.first] == p.second)
    && forall k :: k in m ==> PairV(k, m[k]) in order
  }

  // ---------- operator>> ----------

  function Decode(t: Type, b: seq<byte>): (r: Parsed<Value>)
    ensures r.Parsed? ==> |r.rest| < |b|
    decreases t.Size(), 0
  {
    match t
    case Fixed(w) => if |b| < w then Underflow else Parsed(Raw(b[..w]), b[w..])
    case VecOf(e) =>
      (match DecodeCounted(e, b)
       case Underflow => Underflow
       case Parsed(xs, rest) => Parsed(ListV(xs), rest))
    case SetOf(e) =>
      (match DecodeCounted(e, b)
       case Underflow => Underflow
       case Parsed(xs, rest) => Parsed(SetV(set x | x in xs), rest))
    case MapOf(k, e) =>
      (match DecodeCounted(PairOf(k, e), b)
       case Underflow => Underflow
       case Parsed(xs, rest) => Parsed(MapV(InsertAll(xs)), rest))
    case PairOf(a, c) =>
      (match Decode(a, b)
       case Underflow => Underflow
       case Parsed(x, rest) =>
         match Decode(c, rest)
         case Underflow => Underflow
         case Parsed(y, rest') => Parsed(PairV(x, y), rest'))
    case PtrTo(u) => Decode(u, b)
  }

  function DecodeCounted(t: Type, b: seq<byte>): (r: Parsed<seq<Value>>)
    ensures r.Parsed? ==> |r.rest| < |b|
    decreases t.Size(), 2
  {
    if |b| < SIZE_BYTES then Underflow
    else DecodeMany(t, FromBytes(b[..SIZE_BYTES]), b[SIZE_BYTES..])
  }

  function DecodeMany(t: Type, n: nat, b: seq<byte>): (r: Parsed<seq<Value>>)
    ensures r.Parsed? ==> |r.rest| <= |b| && |r.value| == n
    decreases t.Size(), 1, n
  {
    if n == 0 then Parsed([], b)
    else
      match Decode(t, b)
      case Underflow => Underflow
      case Parsed(x, rest) =>
        match DecodeMany(t, n - 1, rest)
        case Underflow => Underflow
        case Parsed(xs, rest') => Parsed([x] + xs, rest')
  }

  /** `insert` never replaces: the first occurrence of a key stays. */
  function InsertAll(xs: seq<Value>): map<Value, Value> {
    if xs == [] then map[]
    else if xs[0].PairV? then InsertAll(xs[1..])[xs[0].first := xs[0].second]
    else InsertAll(xs[1..])
  }

  // ---------- decode after encode ----------

  /** The main law: every encoding is non-empty and marks its own end. */
  lemma {:induction false} RoundTrip(t: Type, v: Value, b: seq<byte>, rest: seq<byte>)
    requires HasType(t, v) && Encodes(t, v, b)
    ensures b != []
    ensures Decode(t, b + rest) == Parsed(v, rest)
    decreases t.Size(), 0
  {
    match t
    case Fixed(w) =>
    case VecOf(e) => CountedRoundTrip(e, v.elems, b, rest);
    case SetOf(e) =>
      var order :| Enumerates(order, v.members) && EncodesCounted(e, order, b);
      CountedRoundTrip(e, order, b, rest);
      assert (set x | x in order) == v.members;
    case MapOf(k, e) =>
      var order :| EnumeratesMap(order, v.entries) && EncodesCounted(PairOf(k, e), order, b);
      CountedRoundTrip(PairOf(k, e), order, b, rest);
      InsertAllEnumerated(order, v.entries);
    case PairOf(a, c) =>
      var m :| 0 <= m <= |b| && Encodes(a, v.first, b[..m]) && Encodes(c, v.second, b[m..]);
      assert b + rest == b[..m] + (b[m..] + rest);
      RoundTrip(a, v.first, b[..m], b[m..] + rest);
      RoundTrip(c, v.second, b[m..], rest);
    case PtrTo(u) => RoundTrip(u, v, b, rest);
  }

  lemma {:induction false} CountedRoundTrip(t: Type, xs: seq<Value>, b: seq<byte>, rest: seq<byte>)
    requires |xs| < SIZE_LIMIT && EncodesCounted(t, xs, b)
    requires forall x :: x in xs ==> HasType(t, x)
    ensures DecodeCounted(t, b + rest) == Parsed(xs, rest)
    decreases t.Size(), |xs| + 2
  {
    hide Encodes, EncodesAll, Decode, DecodeMany, HasType, FromBytes, ToBytes;
    SizeLimitIsPow256();
    BytesRoundTrip(|xs|, SIZE_BYTES);
    assert (b + rest)[..SIZE_BYTES] == b[..SIZE_BYTES];
    assert (b + rest)[SIZE_BYTES..] == b[SIZE_BYTES..] + rest;
    ManyRoundTrip(t, xs, b[SIZE_BYTES..], rest);
  }

  lemma {:induction false} ManyRoundTrip(t: Type, xs: seq<Value>, b: seq<byte>, rest: seq<byte>)
    requires EncodesAll(t, xs, b)
    requires forall x :: x in xs ==> HasType(t, x)
    ensures DecodeMany(t, |xs|, b + rest) == Parsed(xs, rest)
    decreases t.Size(), |xs| + 1
  {
    hide Encodes, Decode, HasType;
    if xs == [] {
      assert b + rest == rest;
    } else {
      var m :| 0 <= m <= |b| && Encodes(t, xs[0], b[..m]) && EncodesAll(t, xs[1..], b[m..]);
      assert b + rest == b[..m] + (b[m..] + rest);
      RoundTrip(t, xs[0], b[..m], b[m..] + rest);
      ManyRoundTrip(t, xs[1..], b[m..], rest);
      assert [xs[0]] + xs[1..] == xs;
    }
  }

  /** Walking a map and inserting its entries one by one rebuilds it. */
  lemma {:induction false} InsertAllEnumerated(order: seq<Value>, m: map<Value, Value>)
    requires EnumeratesMap(order, m)
    ensures InsertAll(order) == m
  {
    InsertAllWithin(order, m);
    forall k | k in m ensures k in InsertAll(order) {
      assert PairV(k, m[k]) in order;
    }
  }

  lemma {:induction false} InsertAllWithin(xs: seq<Value>, m: map<Value, Value>)
    requires forall p :: p in xs ==> p.PairV? && p.first in m && m[p.first] == p.second
    ensures forall k :: k in InsertAll(xs) ==> k in m && InsertAll(xs)[k] == m[k]
    ensures forall p :: p in xs ==> p.first in InsertAll(xs)
  {
    if xs != [] {
      InsertAllWithin(xs[1..], m);
    }
  }

  /** No encoding is a proper prefix of another: two readings of one stream agree. */
  lemma Unambiguous(t: Type, v: Value, b: seq<byte>, r: seq<byte>, v': Value, b': seq<byte>, r': seq<byte>)
    requires HasType(t, v) && Encodes(t, v, b)
    requires HasType(t, v') && Encodes(t, v', b')
    requires b + r == b' + r'
    ensures v == v' && b == b' && r == r'
  {
    RoundTrip(t, v, b, r);
    RoundTrip(t, v', b', r');
    assert |b| == |b'|;
    assert b == (b + r)[..|b|];
    assert b' == (b' + r')[..|b'|];
  }

  // ---------- sequences of records ----------

  lemma {:induction false} EncodesAllSnoc(t: Type, xs: seq<Value>, b: seq<byte>, x: Value, c: seq<byte>)
    requires EncodesAll(t, xs, b) && Encodes(t, x, c)
    ensures EncodesAll(t, xs + [x], b + c)
    decreases |xs|
  {
    hide Encodes;
    if xs == [] {
      assert (xs + [x])[1..] == [];
      assert c[..|c|] == c && c[|c|..] == [];
      assert b + c == c;
    } else {
      var m :| 0 <= m <= |b| && Encodes(t, xs[0], b[..m]) && EncodesAll(t, xs[1..], b[m..]);
      EncodesAllSnoc(t, xs[1..], b[m..], x, c);
      assert (xs + [x])[1..] == xs[1..] + [x];
      assert (b + c)[..m] == b[..m] && (b + c)[m..] == b[m..] + c;
    }
  }

  /** `while (stream.size() > 0) { stream >> val; ... }` */
  function Drain(t: Type, b: seq<byte>): Parsed<seq<Value>>
    decreases |b|
  {
    if b == [] then Parsed([], [])
    else
      match Decode(t, b)
      case Underflow => Underflow
      case Parsed(x, rest) =>
        match Drain(t, rest)
        case Underflow => Underflow
        case Parsed(xs, rest') => Parsed([x] + xs, rest')
  }

  /** Draining a stream recovers exactly the records written to it, in order. */
  lemma {:induction false} DrainRecovers(t: Type, xs: seq<Value>, b: seq<byte>)
    requires EncodesAll(t, xs, b)
    requires forall x :: x in xs ==> HasType(t, x)
    ensures Drain(t, b) == Parsed(xs, [])
    decreases |xs|
  {
    hide Encodes, Decode, HasType;
    if xs != [] {
      var m :| 0 <= m <= |b| && Encodes(t, xs[0], b[..m]) && EncodesAll(t, xs[1..], b[m..]);
      assert b == b[..m] + b[m..];
      RoundTrip(t, xs[0], b[..m], b[m..]);
      DrainRecovers(t, xs[1..], b[m..]);
      assert [xs[0]] + xs[1..] == xs;
    }
  }

  // ---------- the stream object ----------

  class BinStream {
    var buffer: seq<byte>
    var front: nat

    ghost predicate Valid() reads this { front <= |buffer| }

    /** The bytes not yet read. */
    function Contents(): seq<byte>
      reads this
      requires Valid()
    {
      buffer[front..]
    }

    constructor (bytes: seq<byte>)
      ensures Valid() && Contents() == bytes
    {
      buffer, front := bytes, 0;
    }

    function StreamSize(): (n: nat)
      reads this
      requires Valid()
      ensures n == |Contents()|
    {
      |buffer| - front
    }

    method PushBackBytes(src: seq<byte>)
      requires Valid()
      modifies this
      ensures Valid() && Contents() == old(Contents()) + src
    {
      buffer := buffer + src;
    }

    method PopFrontBytes(n: nat) returns (bytes: seq<byte>)
      requires Valid() && n <= |Contents()|
      modifies this
      ensures Valid() && bytes == old(Contents())[..n] && Contents() == old(Contents())[n..]
    {
      bytes := buffer[front..front + n];
      front := front + n;
    }

    /** `stream << v`, walking sets and maps in an arbitrary order. */
    method Write(t: Type, v: Value) returns (ghost appended: seq<byte>)
      requires Valid() && HasType(t, v)
      modifies this
      ensures Valid() && Contents() == old(Contents()) + appended
      ensures Encodes(t, v, appended)
      decreases t.Size(), 0
    {
      match t {
        case Fixed(w) =>
          PushBackBytes(v.bytes);
          appended := v.bytes;
        case VecOf(e) =>
          appended := WriteCounted(e, v.elems);
        case SetOf(e) =>
          var order := PickOrder(v.members);
          appended := WriteCounted(e, order);
        case MapOf(k, e) =>
          var order := PickMapOrder(v.entries);
          assert forall p :: p in order ==> HasType(PairOf(k, e), p);
          appended := WriteCounted(PairOf(k, e), order);
        case PairOf(a, c) =>
          ghost var b1 := Write(a, v.first);
          ghost var b2 := Write(c, v.second);
          appended := b1 + b2;
          assert appended[..|b1|] == b1 && appended[|b1|..] == b2;
        case PtrTo(u) =>
          appended := Write(u, v);
      }
    }

    method WriteCounted(t: Type, xs: seq<Value>) returns (ghost appended: seq<byte>)
      requires Valid() && forall x :: x in xs ==> HasType(t, x)
      modifies this
      ensures Valid() && Contents() == old(Contents()) + appended
      ensures EncodesCounted(t, xs, appended)
      decreases t.Size(), 2
    {
      hide Encodes, EncodesAll, HasType, ToBytes;
      var len := ToBytes(|xs|, SIZE_BYTES);
      PushBackBytes(len);
      ghost var body := WriteElements(t, xs);
      appended := len + body;
      assert appended[..SIZE_BYTES] == len && appended[SIZE_BYTES..] == body;
      assert old(Contents()) + len + body == old(Contents()) + appended;
    }

    method WriteElements(t: Type, xs: seq<Value>) returns (ghost appended: seq<byte>)
      requires Valid() && forall x :: x in xs ==> HasType(t, x)
      modifies this
      ensures Valid() && Contents() == old(Contents()) + appended
      ensures EncodesAll(t, xs, appended)
      decreases t.Size(), 1
    {
      hide Encodes, HasType;
      appended := [];
      for i := 0 to |xs|
        invariant Valid() && Contents() == old(Contents()) + appended
        invariant EncodesAll(t, xs[..i], appended)
      {
        ghost var b := Write(t, xs[i]);
        EncodesAllSnoc(t, xs[..i], appended, xs[i], b);
        assert xs[..i] + [xs[i]] == xs[..i + 1];
        appended := appended + b;
      }
      assert xs[..|xs|] == xs;
    }

    /** `stream >> v` on a stream that holds such a value. */
    method Read(t: Type) returns (v: Value)
      requires Valid() && Decode(t, Contents()).Parsed?
      modifies this
      ensures Valid() && Decode(t, old(Contents())) == Parsed(v, Contents())
      decreases t.Size(), 0
    {
      match t {
        case Fixed(w) =>
          var bytes := PopFrontBytes(w);
          v := Raw(bytes);
        case VecOf(e) =>
          var xs := ReadCounted(e);
          v := ListV(xs);
        case SetOf(e) =>
          var xs := ReadCounted(e);
          v := SetV(set x | x in xs);
        case MapOf(k, e) =>
          var xs := ReadCounted(PairOf(k, e));
          v := MapV(InsertAll(xs));
        case PairOf(a, c) =>
          var x := Read(a);
          var y := Read(c);
          v := PairV(x, y);
        case PtrTo(u) =>
          v := Read(u);
      }
    }

    method ReadCounted(t: Type) returns (xs: seq<Value>)
      requires Valid() && DecodeCounted(t, Contents()).Parsed?
      modifies this
      ensures Valid() && DecodeCounted(t, old(Contents())) == Parsed(xs, Contents())
      decreases t.Size(), 2
    {
      hide Decode, DecodeMany, FromBytes;
      var len := PopFrontBytes(SIZE_BYTES);
      xs := ReadElements(t, FromBytes(len));
    }

    method ReadElements(t: Type, n: nat) returns (xs: seq<Value>)
      requires Valid() && DecodeMany(t, n, Contents()).Parsed?
      modifies this
      ensures Valid() && DecodeMany(t, n, old(Contents())) == Parsed(xs, Contents())
      decreases t.Size(), 1
    {
      hide Decode;
      xs := [];
      ghost var whole := DecodeMany(t, n, Contents());
      ghost var tail := whole.value;
      for i := 0 to n
        invariant Valid() && xs + tail == whole.value
        invariant DecodeMany(t, n - i, Contents()) == Parsed(tail, whole.rest)
      {
        var x := Read(t);
        assert xs + tail == (xs + [x]) + tail[1..];
        xs, tail := xs + [x], tail[1..];
      }
      assert xs + [] == xs;
    }
  }

  method PickOrder(s: set<Value>) returns (order: seq<Value>)
    ensures Enumerates(order, s)
  {
    order := [];
    var todo := s;
    while todo != {}
      invariant todo <= s && |order| + |todo| == |s|
      invariant forall x :: x in order <==> x in s - todo
      decreases |todo|
    {
      var x :| x in todo;
      order, todo := order + [x], todo - {x};
    }
  }

  method PickMapOrder(m: map<Value, Value>) returns (order: seq<Value>)
    ensures EnumeratesMap(order, m)
  {
    order := [];
    var keys := PickOrder(m.Keys);
    for i := 0 to |keys|
      invariant |order| == i
      invariant forall j :: 0 <= j < i ==> order[j] == PairV(keys[j], m[keys[j]])
    {
      order := order + [PairV(keys[i], m[keys[i]])];
    }
    assert |m.Keys| == |m|;
    forall k | k in m ensures PairV(k, m[k]) in order {
      assert k in keys;
      var j :| 0 <= j < |keys| && keys[j] == k;
      assert order[j] == PairV(k, m[k]);
    }
  }
}
