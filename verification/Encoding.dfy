/** The byte encoding behind the manifest hash: eight-byte integers, length-prefixed strings and lists. Every
    piece can be read back unambiguously from the front of whatever follows it. */
module Encoding {

  type byte = x: int | 0 <= x < 256
  type Bytes = seq<byte>

  const TWO_63 := 0x8000_0000_0000_0000
  const TWO_64 := 0x1_0000_0000_0000_0000

  /** A machine word, as the program's integers are. */
  predicate Word(v: int) {
    -TWO_63 <= v < TWO_63
  }

  /** The program's strings are byte strings. */
  predicate ByteString(s: string) {
    Word(|s|) && forall i :: 0 <= i < |s| ==> s[i] as int < 256
  }

  function BigEndian(u: nat, n: nat): (out: Bytes)
    ensures |out| == n
  {
    if n == 0 then [] else BigEndian(u / 256, n - 1) + [u % 256]
  }

  function Power256(n: nat): nat {
    if n == 0 then 1 else 256 * Power256(n - 1)
  }

  /** The number some bytes stand for, the most significant first. */
  function Unsigned(s: Bytes): int {
    if s == [] then 0 else 256 * Unsigned(s[..|s| - 1]) + s[|s| - 1]
  }

  lemma {:induction false} BigEndianValue(u: nat, n: nat)
    requires u < Power256(n)
    ensures Unsigned(BigEndian(u, n)) == u
  {
    if n > 0 {
      BigEndianValue(u / 256, n - 1);
      assert BigEndian(u, n)[..n - 1] == BigEndian(u / 256, n - 1);
    }
  }

  lemma BigEndianReads(u: nat, v: nat, n: nat)
    requires u < Power256(n) && v < Power256(n) && BigEndian(u, n) == BigEndian(v, n)
    ensures u == v
  {
    hide BigEndian;
    BigEndianValue(u, n);
    BigEndianValue(v, n);
  }

  /** The two's complement of `v`, most significant byte first. */
  function PutInt(v: int): (out: Bytes)
    ensures |out| == 8
  {
    BigEndian(v % TWO_64, 8)
  }

  /** A string's own bytes. */
  function Raw(s: string): (out: Bytes)
    ensures |out| == |s|
  {
    seq(|s|, i requires 0 <= i < |s| => s[i] as int % 256)
  }

  function PutStr(s: string): Bytes {
    PutInt(|s|) + Raw(s)
  }

  function Concat<T>(put: T -> Bytes, xs: seq<T>): Bytes {
    if xs == [] then [] else put(xs[0]) + Concat(put, xs[1..])
  }

  function PutList<T>(put: T -> Bytes, xs: seq<T>): Bytes {
    PutInt(|xs|) + Concat(put, xs)
  }

  lemma {:induction false} ConcatOneMore<T>(put: T -> Bytes, xs: seq<T>, x: T)
    ensures Concat(put, xs + [x]) == Concat(put, xs) + put(x)
  {
    if xs == [] {
      assert (xs + [x])[1..] == [];
    } else {
      assert (xs + [x])[1..] == xs[1..] + [x];
      ConcatOneMore(put, xs[1..], x);
    }
  }

  /** What has been written of a list after `i` of its elements. */
  function Partly<T>(put: T -> Bytes, xs: seq<T>, i: nat): Bytes
    requires i <= |xs|
  {
    PutInt(|xs|) + Concat(put, xs[..i])
  }

  lemma PartlyStarted<T>(put: T -> Bytes, xs: seq<T>)
    ensures Partly(put, xs, 0) == PutInt(|xs|)
  {
  }

  lemma PartlyNext<T>(o: Bytes, put: T -> Bytes, xs: seq<T>, i: nat)
    requires i < |xs|
    ensures (o + Partly(put, xs, i)) + put(xs[i]) == o + Partly(put, xs, i + 1)
  {
    hide PutInt;
    ConcatOneMore(put, xs[..i], xs[i]);
    assert xs[..i + 1] == xs[..i] + [xs[i]];
    Regroup(o, PutInt(|xs|), Concat(put, xs[..i]), put(xs[i]));
  }

  lemma Regroup(o: Bytes, a: Bytes, b: Bytes, c: Bytes)
    ensures (o + (a + b)) + c == o + (a + (b + c))
  {
  }

  lemma PartlyDone<T>(put: T -> Bytes, xs: seq<T>)
    ensures Partly(put, xs, |xs|) == PutList(put, xs)
  {
    assert xs[..|xs|] == xs;
  }

  /** Two values encode alike, up to what follows, only if they are alike. */
  ghost predicate ReadsBack<T(!new)>(put: T -> Bytes, fits: T -> bool) {
    forall x, y, s: Bytes, t: Bytes {:trigger put(x) + s, put(y) + t} ::
      fits(x) && fits(y) && put(x) + s == put(y) + t ==> x == y && s == t
  }

  lemma SplitAt(a: Bytes, s: Bytes, b: Bytes, t: Bytes)
    requires a + s == b + t && |a| == |b|
    ensures a == b && s == t
  {
    assert a == (a + s)[..|a|] && b == (b + t)[..|a|];
    assert s == (a + s)[|a|..] && t == (b + t)[|a|..];
  }

  lemma IntReads(v: int, w: int, s: Bytes, t: Bytes)
    requires Word(v) && Word(w) && PutInt(v) + s == PutInt(w) + t
    ensures v == w && s == t
  {
    SplitAt(PutInt(v), s, PutInt(w), t);
    assert Power256(8) == TWO_64;
    BigEndianReads(v % TWO_64, w % TWO_64, 8);
    WordReads(v, w);
  }

  lemma WordReads(v: int, w: int)
    requires Word(v) && Word(w) && v % TWO_64 == w % TWO_64
    ensures v == w
  {
    assert v % TWO_64 == if v < 0 then v + TWO_64 else v;
    assert w % TWO_64 == if w < 0 then w + TWO_64 else w;
  }

  lemma StrReads(a: string, b: string, s: Bytes, t: Bytes)
    requires ByteString(a) && ByteString(b) && PutStr(a) + s == PutStr(b) + t
    ensures a == b && s == t
  {
    hide PutInt, ByteString, Raw;
    Fronted(PutStr(a), s, PutInt(|a|), Raw(a));
    Fronted(PutStr(b), t, PutInt(|b|), Raw(b));
    ShortStrings(a, b);
    IntReads(|a|, |b|, Raw(a) + s, Raw(b) + t);
    SplitAt(Raw(a), s, Raw(b), t);
    RawReads(a, b);
  }

  lemma ShortStrings(a: string, b: string)
    requires ByteString(a) && ByteString(b)
    ensures Word(|a|) && Word(|b|)
  {
  }

  lemma Fronted(put: Bytes, s: Bytes, front: Bytes, back: Bytes)
    requires put == front + back
    ensures put + s == front + (back + s)
  {
  }

  lemma RawReads(a: string, b: string)
    requires ByteString(a) && ByteString(b) && Raw(a) == Raw(b)
    ensures a == b
  {
    forall i | 0 <= i < |a|
      ensures a[i] == b[i]
    {
      assert Raw(a)[i] == a[i] as int && Raw(b)[i] == b[i] as int;
    }
  }

  lemma {:induction false} ConcatReads<T(!new)>(put: T -> Bytes, fits: T -> bool, xs: seq<T>, ys: seq<T>, s: Bytes,
                                                t: Bytes)
    requires ReadsBack(put, fits) && |xs| == |ys|
    requires forall x :: x in xs || x in ys ==> fits(x)
    requires Concat(put, xs) + s == Concat(put, ys) + t
    ensures xs == ys && s == t
  {
    if xs == [] {
      assert [] + s == s && [] + t == t;
    } else {
      var u, v := Concat(put, xs[1..]) + s, Concat(put, ys[1..]) + t;
      assert put(xs[0]) + u == Concat(put, xs) + s && put(ys[0]) + v == Concat(put, ys) + t;
      assert xs[0] == ys[0] && u == v;
      ConcatReads(put, fits, xs[1..], ys[1..], s, t);
      assert xs == [xs[0]] + xs[1..] && ys == [ys[0]] + ys[1..];
    }
  }

  lemma ListReads<T(!new)>(put: T -> Bytes, fits: T -> bool, xs: seq<T>, ys: seq<T>, s: Bytes, t: Bytes)
    requires ReadsBack(put, fits) && Word(|xs|) && Word(|ys|)
    requires forall x :: x in xs || x in ys ==> fits(x)
    requires PutList(put, xs) + s == PutList(put, ys) + t
    ensures xs == ys && s == t
  {
    hide PutInt, ReadsBack, Concat;
    Fronted(PutList(put, xs), s, PutInt(|xs|), Concat(put, xs));
    Fronted(PutList(put, ys), t, PutInt(|ys|), Concat(put, ys));
    IntReads(|xs|, |ys|, Concat(put, xs) + s, Concat(put, ys) + t);
    ConcatReads(put, fits, xs, ys, s, t);
  }

  lemma IntsReadBack()
    ensures ReadsBack(PutInt, Word)
  {
    forall v, w, s: Bytes, t: Bytes | Word(v) && Word(w) && PutInt(v) + s == PutInt(w) + t
      ensures v == w && s == t
    {
      IntReads(v, w, s, t);
    }
  }

  lemma StringsReadBack()
    ensures ReadsBack(PutStr, ByteString)
  {
    forall a, b, s: Bytes, t: Bytes | ByteString(a) && ByteString(b) && PutStr(a) + s == PutStr(b) + t
      ensures a == b && s == t
    {
      StrReads(a, b, s, t);
    }
  }
}
