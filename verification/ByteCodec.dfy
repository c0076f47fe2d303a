/** The length-prefixed wire encoding. The grammar below is fail-fast: a parser yields a
    value and the unread bytes, or nothing. The reader object with its sticky error flag
    refines it: its reads succeed exactly when the grammar does. */
module ByteCodec {
  import opened Basics

  datatype Parse<+T> = Fail | Parsed(value: T, rest: Bytes) {
    predicate IsFailure() { Fail? }

    function PropagateFailure<U>(): Parse<U>
      requires Fail?
    {
      Fail
    }

    function Extract(): (T, Bytes)
      requires Parsed?
    {
      (value, rest)
    }
  }

  // ---- printing ------------------------------------------------------------

  function PutU32(n: U32): (b: Bytes)
    ensures |b| == 4
  {
    var n1 := n / 256;
    var n2 := n1 / 256;
    [n % 256, n1 % 256, n2 % 256, n2 / 256]
  }

  function PutU64(n: U64): (b: Bytes)
    ensures |b| == 8
  {
    PutU32(n % TWO_32) + PutU32(n / TWO_32)
  }

  type I64 = n: int | -TWO_63 <= n < TWO_63

  /** Two's complement. */
  function PutI64(n: I64): Bytes {
    PutU64(if n < 0 then n + TWO_64 else n)
  }

  /** The length prefix keeps only 32 bits. */
  function PutStr(s: Bytes): Bytes {
    PutU32(|s| % TWO_32) + s
  }

  function PutList<T>(xs: seq<T>, put: T -> Bytes): Bytes {
    if xs == [] then [] else put(xs[0]) + PutList(xs[1..], put)
  }

  function PutCounted<T>(xs: seq<T>, put: T -> Bytes): Bytes {
    PutU32(|xs| % TWO_32) + PutList(xs, put)
  }

  // ---- parsing -------------------------------------------------------------

  function ParseU8(s: Bytes): Parse<Byte> {
    if |s| < 1 then Fail else Parsed(s[0], s[1..])
  }

  function LittleEndian(a: Byte, b: Byte, c: Byte, d: Byte): U32 {
    (a as int) + 0x100 * (b as int) + 0x1_0000 * (c as int) + 0x100_0000 * (d as int)
  }

  function ParseU32(s: Bytes): Parse<U32> {
    if |s| < 4 then Fail
    else Parsed(LittleEndian(s[0], s[1], s[2], s[3]), s[4..])
  }

  function ParseU64(s: Bytes): Parse<U64> {
    if |s| < 8 then Fail
    else Parsed(ParseU32(s).value + TWO_32 * ParseU32(s[4..]).value, s[8..])
  }

  function ParseI64(s: Bytes): Parse<I64> {
    var (n, s) :- ParseU64(s);
    Parsed(if n < TWO_63 then n else n - TWO_64, s)
  }

  function ParseStr(s: Bytes): Parse<Bytes> {
    var (n, s) :- ParseU32(s);
    if n > |s| then Fail else Parsed(s[..n], s[n..])
  }

  function ParseList<T>(n: nat, parse: Bytes -> Parse<T>, s: Bytes): Parse<seq<T>> {
    if n == 0 then Parsed([], s)
    else
      var (x, s) :- parse(s);
      var (xs, s) :- ParseList(n - 1, parse, s);
      Parsed([x] + xs, s)
  }

  function ParseCounted<T>(parse: Bytes -> Parse<T>, s: Bytes): Parse<seq<T>> {
    var (n, s) :- ParseU32(s);
    ParseList(n, parse, s)
  }

  // ---- round trips ----------------------------------------------------------

  lemma U32RoundTrip(n: U32, tail: Bytes)
    ensures ParseU32(PutU32(n) + tail) == Parsed(n, tail)
  {
  }

  lemma U64RoundTrip(n: U64, tail: Bytes)
    ensures ParseU64(PutU64(n) + tail) == Parsed(n, tail)
  {
    var low, high := PutU32(n % TWO_32), PutU32(n / TWO_32);
    var s := PutU64(n) + tail;
    assert s == low + (high + tail);
    U32RoundTrip(n % TWO_32, high + tail);
    U32RoundTrip(n / TWO_32, tail);
    assert s[4..] == high + tail;
    assert s[8..] == tail;
  }

  lemma I64RoundTrip(n: I64, tail: Bytes)
    ensures ParseI64(PutI64(n) + tail) == Parsed(n, tail)
  {
    U64RoundTrip(if n < 0 then n + TWO_64 else n, tail);
  }

  lemma StrRoundTrip(s: Bytes, tail: Bytes)
    requires |s| < TWO_32
    ensures ParseStr(PutStr(s) + tail) == Parsed(s, tail)
  {
    var head := PutU32(|s|);
    assert PutStr(s) == head + s;
    assert head + s + tail == head + (s + tail);
    U32RoundTrip(|s|, s + tail);
    assert (s + tail)[..|s|] == s && (s + tail)[|s|..] == tail;
  }

  function MapSeq<T>(xs: seq<T>, f: T -> T): seq<T> {
    seq(|xs|, i requires 0 <= i < |xs| => f(xs[i]))
  }

  ghost predicate RoundTrips<T>(x: T, put: T -> Bytes, parse: Bytes -> Parse<T>, canon: T -> T) {
    forall tail :: parse(put(x) + tail) == Parsed(canon(x), tail)
  }

  lemma {:induction false} ListRoundTrip<T>(xs: seq<T>, put: T -> Bytes, parse: Bytes -> Parse<T>, canon: T -> T,
                                            tail: Bytes)
    requires forall i :: 0 <= i < |xs| ==> RoundTrips(xs[i], put, parse, canon)
    ensures ParseList(|xs|, parse, PutList(xs, put) + tail) == Parsed(MapSeq(xs, canon), tail)
  {
    if xs != [] {
      var rest := PutList(xs[1..], put);
      assert PutList(xs, put) + tail == put(xs[0]) + (rest + tail);
      assert RoundTrips(xs[0], put, parse, canon);
      ListRoundTrip(xs[1..], put, parse, canon, tail);
      assert MapSeq(xs, canon) == [canon(xs[0])] + MapSeq(xs[1..], canon);
    } else {
      assert PutList(xs, put) + tail == tail;
    }
  }

  lemma CountedRoundTrip<T>(xs: seq<T>, put: T -> Bytes, parse: Bytes -> Parse<T>, canon: T -> T, tail: Bytes)
    requires |xs| < TWO_32
    requires forall i :: 0 <= i < |xs| ==> RoundTrips(xs[i], put, parse, canon)
    ensures ParseCounted(parse, PutCounted(xs, put) + tail) == Parsed(MapSeq(xs, canon), tail)
  {
    assert PutCounted(xs, put) + tail == PutU32(|xs|) + (PutList(xs, put) + tail);
    U32RoundTrip(|xs|, PutList(xs, put) + tail);
    ListRoundTrip(xs, put, parse, canon, tail);
  }

  lemma {:induction false} PutListOfConcat<T>(a: seq<T>, b: seq<T>, put: T -> Bytes)
    ensures PutList(a + b, put) == PutList(a, put) + PutList(b, put)
  {
    if a == [] {
      assert a + b == b;
    } else {
      assert (a + b)[1..] == a[1..] + b;
      PutListOfConcat(a[1..], b, put);
    }
  }

  lemma PutListSnoc<T>(xs: seq<T>, i: nat, put: T -> Bytes)
    requires i < |xs|
    ensures PutList(xs[..i + 1], put) == PutList(xs[..i], put) + put(xs[i])
  {
    assert xs[..i + 1] == xs[..i] + [xs[i]];
    PutListOfConcat(xs[..i], [xs[i]], put);
    assert [xs[i]][1..] == [];
    assert PutList([xs[i]], put) == put(xs[i]) + [];
  }

  /** An element's encoding is part of the list's, so it is no longer. */
  lemma {:induction false} ElementFits<T>(xs: seq<T>, i: nat, put: T -> Bytes)
    requires i < |xs|
    ensures |put(xs[i])| <= |PutList(xs, put)|
  {
    if i > 0 { ElementFits(xs[1..], i - 1, put); }
  }

  /** A list of nonempty encodings has at most as many elements as bytes. */
  lemma {:induction false} ListFits<T>(xs: seq<T>, put: T -> Bytes)
    requires forall i :: 0 <= i < |xs| ==> |put(xs[i])| >= 1
    ensures |xs| <= |PutList(xs, put)|
  {
    if xs != [] { ListFits(xs[1..], put); }
  }

  // ---- stability: more input never changes what was parsed -------------------

  ghost predicate StableAt<T>(parse: Bytes -> Parse<T>, s: Bytes, more: Bytes) {
    parse(s).Parsed? ==> parse(s + more) == Parsed(parse(s).value, parse(s).rest + more)
  }

  ghost predicate Stable<T>(parse: Bytes -> Parse<T>) {
    forall s, more :: StableAt(parse, s, more)
  }

  lemma PrimitivesStable(s: Bytes, more: Bytes)
    ensures StableAt(ParseU8, s, more) && StableAt(ParseU32, s, more)
    ensures StableAt(ParseU64, s, more) && StableAt(ParseI64, s, more)
  {
    if |s| >= 1 { assert (s + more)[1..] == s[1..] + more; }
    if |s| >= 4 { assert (s + more)[4..] == s[4..] + more; }
    if |s| >= 8 { assert (s + more)[8..] == s[8..] + more; }
  }

  lemma StrStable(s: Bytes, more: Bytes)
    ensures StableAt(ParseStr, s, more)
  {
    PrimitivesStable(s, more);
    if ParseStr(s).Parsed? {
      var n, body := ParseU32(s).value, ParseU32(s).rest;
      assert (body + more)[..n] == body[..n];
      assert (body + more)[n..] == body[n..] + more;
    }
  }

  lemma {:induction false} ListStable<T>(n: nat, parse: Bytes -> Parse<T>, s: Bytes, more: Bytes)
    requires Stable(parse)
    ensures ParseList(n, parse, s).Parsed? ==>
              ParseList(n, parse, s + more) == Parsed(ParseList(n, parse, s).value, ParseList(n, parse, s).rest + more)
  {
    if n > 0 {
      assert StableAt(parse, s, more);
      if parse(s).Parsed? {
        ListStable(n - 1, parse, parse(s).rest, more);
      }
    }
  }

  lemma CountedStable<T>(parse: Bytes -> Parse<T>, s: Bytes, more: Bytes)
    requires Stable(parse)
    ensures ParseCounted(parse, s).Parsed? ==>
              ParseCounted(parse, s + more)
              == Parsed(ParseCounted(parse, s).value, ParseCounted(parse, s).rest + more)
  {
    PrimitivesStable(s, more);
    if ParseU32(s).Parsed? {
      ListStable(ParseU32(s).value, parse, ParseU32(s).rest, more);
    }
  }

  /** What a stable parser accepts in full it rejects at every cut: were a strict prefix
      accepted, the whole would leave bytes unread. */
  lemma CutIsRejected<T>(parse: Bytes -> Parse<T>, whole: Bytes, n: nat)
    requires n < |whole|
    requires parse(whole).Parsed? && parse(whole).rest == []
    requires StableAt(parse, whole[..n], whole[n..])
    ensures parse(whole[..n]).Fail?
  {
    assert whole[..n] + whole[n..] == whole;
  }

  // ---- the writer ------------------------------------------------------------

  class ByteWriter {
    var buf: Bytes

    constructor ()
      ensures buf == []
    {
      buf := [];
    }

    method U8(v: Byte)
      modifies this
      ensures buf == old(buf) + [v]
    {
      buf := buf + [v];
    }

    method U32(v: U32)
      modifies this
      ensures buf == old(buf) + PutU32(v)
    {
      var v1 := v / 256;
      var v2 := v1 / 256;
      buf := buf + [v % 256, v1 % 256, v2 % 256, v2 / 256];
    }

    method U64(v: U64)
      modifies this
      ensures buf == old(buf) + PutU64(v)
    {
      U32(v % TWO_32);
      U32(v / TWO_32);
      assert buf == old(buf) + (PutU32(v % TWO_32) + PutU32(v / TWO_32));
    }

    method Str(s: Bytes)
      modifies this
      ensures buf == old(buf) + PutStr(s)
    {
      U32(|s| % TWO_32);
      buf := buf + s;
      assert buf == old(buf) + PutStr(s);
    }
  }

  // ---- the reader --------------------------------------------------------------

  /** How one read behaves: on a healthy reader it follows the parser; on failure, or on
      a reader that has already failed, it yields the default and the reader has failed. */
  ghost predicate Reads<T>(before: Option<Bytes>, after: Option<Bytes>, p: Bytes -> Parse<T>, v: T, default: T) {
    var r := if before.None? then Fail else p(before.value);
    if r.Fail? then after.None? && v == default else after == Some(r.rest) && v == r.value
  }

  /** The same without saying what a failed read yields. */
  ghost predicate Follows<T>(before: Option<Bytes>, after: Option<Bytes>, p: Bytes -> Parse<T>, v: T) {
    var r := if before.None? then Fail else p(before.value);
    if r.Fail? then after.None? else after == Some(r.rest) && v == r.value
  }

  class ByteReader {
    const data: Bytes
    var pos: nat
    var ok: bool

    ghost predicate Valid()
      reads this
    {
      pos <= |data|
    }

    /** The unread bytes of a healthy reader. */
    ghost function View(): Option<Bytes>
      requires Valid()
      reads this
    {
      if ok then Some(data[pos..]) else None
    }

    constructor (data: Bytes)
      ensures Valid() && this.data == data && ok && pos == 0 && View() == Some(data)
    {
      this.data := data;
      pos, ok := 0, true;
    }

    function Remaining(): nat
      requires Valid()
      reads this
    {
      |data| - pos
    }

    /** `n` raw bytes, or the sticky failure. */
    method Raw(n: nat) returns (b: Bytes)
      requires Valid()
      modifies this
      ensures Valid() && old(pos) <= pos && (ok ==> old(ok))
      ensures old(ok) && n <= old(Remaining()) ==> ok && pos == old(pos) + n && b == data[old(pos)..old(pos) + n]
      ensures !(old(ok) && n <= old(Remaining())) ==> !ok && b == [] && pos == old(pos)
    {
      if !ok || Remaining() < n {
        ok := false;
        return [];
      }
      b := data[pos..pos + n];
      pos := pos + n;
    }

    method U8() returns (v: Byte)
      requires Valid()
      modifies this
      ensures Valid() && old(pos) <= pos && (ok ==> old(pos) < pos)
      ensures Reads(old(View()), View(), ParseU8, v, 0)
    {
      var b := Raw(1);
      v := if ok then b[0] else 0;
      assert old(ok) && old(Remaining()) >= 1 ==> data[old(pos)..][1..] == data[pos..];
    }

    method U32() returns (v: U32)
      requires Valid()
      modifies this
      ensures Valid() && old(pos) <= pos && (ok ==> old(pos) < pos)
      ensures Reads(old(View()), View(), ParseU32, v, 0)
    {
      var b := Raw(4);
      v := if ok then LittleEndian(b[0], b[1], b[2], b[3]) else 0;
      assert old(ok) && old(Remaining()) >= 4 ==> data[old(pos)..][4..] == data[pos..];
    }

    method U64() returns (v: U64)
      requires Valid()
      modifies this
      ensures Valid() && old(pos) <= pos && (ok ==> old(pos) < pos)
      ensures Reads(old(View()), View(), ParseU64, v, 0)
    {
      var b := Raw(8);
      if ok {
        v := LittleEndian(b[0], b[1], b[2], b[3]) + TWO_32 * LittleEndian(b[4], b[5], b[6], b[7]);
        assert data[old(pos)..][8..] == data[pos..];
      } else {
        v := 0;
      }
    }

    method I64() returns (v: I64)
      requires Valid()
      modifies this
      ensures Valid() && old(pos) <= pos && (ok ==> old(pos) < pos)
      ensures Reads(old(View()), View(), ParseI64, v, 0)
    {
      var n := U64();
      v := if n < TWO_63 then n else n - TWO_64;
    }

    /** Str and Bytes share this reading. */
    method Str() returns (s: Bytes)
      requires Valid()
      modifies this
      ensures Valid() && old(pos) <= pos && (ok ==> old(pos) < pos)
      ensures Reads(old(View()), View(), ParseStr, s, [])
    {
      var n := U32();
      if !ok || n > Remaining() {
        ok := false;
        return [];
      }
      s := data[pos..pos + n];
      assert data[pos..][..n] == s && data[pos..][n..] == data[pos + n..];
      pos := pos + n;
    }
  }

  // ---- counted lists read by a loop ---------------------------------------------

  /** What a list still to be parsed will give, after the elements already read. */
  ghost function After<T>(xs: seq<T>, p: Parse<seq<T>>): Parse<seq<T>> {
    if p.Fail? then Fail else Parsed(xs + p.value, p.rest)
  }

  /** The loop invariant shared by the counted loops: a healthy reader has the elements
      read so far in hand; a failed one has run into the failure of the whole list. */
  ghost predicate ListProgress<T>(start: Option<Bytes>, now: Option<Bytes>, parse: Bytes -> Parse<T>, n: nat,
                                  xs: seq<T>) {
    && (now.Some? ==>
          && start.Some? && |xs| <= n
          && ParseList(n, parse, start.value) == After(xs, ParseList(n - |xs|, parse, now.value)))
    && (now.None? && start.Some? ==> ParseList(n, parse, start.value).Fail?)
  }

  ghost predicate ListOutcome<T>(start: Option<Bytes>, now: Option<Bytes>, parse: Bytes -> Parse<T>, n: nat,
                                 xs: seq<T>) {
    && (now.Some? ==> start.Some? && ParseList(n, parse, start.value) == Parsed(xs, now.value))
    && (now.None? && start.Some? ==> ParseList(n, parse, start.value).Fail?)
  }

  lemma ProgressStarts<T>(start: Option<Bytes>, parse: Bytes -> Parse<T>, n: nat)
    ensures ListProgress(start, start, parse, n, [])
  {
    if start.Some? {
      var whole := ParseList(n, parse, start.value);
      if whole.Parsed? { assert [] + whole.value == whole.value; }
    }
  }

  lemma ProgressGrows<T>(start: Option<Bytes>, before: Option<Bytes>, now: Option<Bytes>, parse: Bytes -> Parse<T>,
                         n: nat, xs: seq<T>, x: T)
    requires ListProgress(start, before, parse, n, xs) && before.Some? && |xs| < n
    requires if parse(before.value).Fail? then now.None?
          else now == Some(parse(before.value).rest) && x == parse(before.value).value
    ensures ListProgress(start, now, parse, n, xs + [x])
  {
    if now.Some? {
      var rest := ParseList(n - |xs| - 1, parse, now.value);
      if rest.Parsed? { assert xs + ([x] + rest.value) == (xs + [x]) + rest.value; }
    }
  }

  lemma ProgressEnds<T>(start: Option<Bytes>, now: Option<Bytes>, parse: Bytes -> Parse<T>, n: nat, xs: seq<T>)
    requires ListProgress(start, now, parse, n, xs) && (now.Some? ==> |xs| == n)
    ensures ListOutcome(start, now, parse, n, xs)
  {
    assert xs + [] == xs;
  }

  method ReadU32s(r: ByteReader, n: U32) returns (xs: seq<U32>)
    requires r.Valid()
    modifies r
    ensures r.Valid() && ListOutcome(old(r.View()), r.View(), ParseU32, n, xs)
    ensures |xs| <= old(r.Remaining()) + 1 && (!old(r.ok) ==> xs == [])
  {
    xs := [];
    ProgressStarts(r.View(), ParseU32, n);
    while |xs| < n && r.ok
      invariant r.Valid() && ListProgress(old(r.View()), r.View(), ParseU32, n, xs)
      invariant |xs| + r.Remaining() <= old(r.Remaining()) + (if r.ok then 0 else 1)
      invariant !old(r.ok) ==> xs == [] && !r.ok
      decreases n - |xs|
    {
      ghost var before := r.View();
      var x := r.U32();
      ProgressGrows(old(r.View()), before, r.View(), ParseU32, n, xs, x);
      xs := xs + [x];
    }
    ProgressEnds(old(r.View()), r.View(), ParseU32, n, xs);
  }

  method ReadStrs(r: ByteReader, n: U32) returns (xs: seq<Bytes>)
    requires r.Valid()
    modifies r
    ensures r.Valid() && ListOutcome(old(r.View()), r.View(), ParseStr, n, xs)
    ensures |xs| <= old(r.Remaining()) + 1 && (!old(r.ok) ==> xs == [])
  {
    xs := [];
    ProgressStarts(r.View(), ParseStr, n);
    while |xs| < n && r.ok
      invariant r.Valid() && ListProgress(old(r.View()), r.View(), ParseStr, n, xs)
      invariant |xs| + r.Remaining() <= old(r.Remaining()) + (if r.ok then 0 else 1)
      invariant !old(r.ok) ==> xs == [] && !r.ok
      decreases n - |xs|
    {
      ghost var before := r.View();
      var x := r.Str();
      ProgressGrows(old(r.View()), before, r.View(), ParseStr, n, xs, x);
      xs := xs + [x];
    }
    ProgressEnds(old(r.View()), r.View(), ParseStr, n, xs);
  }
}
