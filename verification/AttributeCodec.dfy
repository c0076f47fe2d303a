/** Lobby and session attributes: a tagged value under a key, with one trailing byte of
    visibility or advertisement. */
module AttributeCodec {
  import opened Basics
  import opened ByteCodec

  const AT_BOOLEAN: Byte := 0
  const AT_INT64: Byte := 1
  const AT_DOUBLE: Byte := 2
  const AT_STRING: Byte := 3

  /** All fields are stored; `kind` says which one counts. A double is its 64-bit
      pattern, an EOS_Bool any integer. */
  datatype AttrValue = AttrValue(kind: Byte, int64: I64, dbl: U64, flag: int, str: Bytes)

  datatype NamedAttr = NamedAttr(key: Bytes, value: AttrValue, tag: Byte)

  const DEFAULT_VALUE := AttrValue(AT_BOOLEAN, 0, 0, 0, [])

  function Truth(flag: int): int {
    if flag != 0 then 1 else 0
  }

  /** What survives the wire: the counting field, a boolean reduced to 0 or 1. */
  function CanonValue(v: AttrValue): AttrValue {
    var d := DEFAULT_VALUE.(kind := v.kind);
    if v.kind == AT_BOOLEAN then d.(flag := Truth(v.flag))
    else if v.kind == AT_INT64 then d.(int64 := v.int64)
    else if v.kind == AT_DOUBLE then d.(dbl := v.dbl)
    else if v.kind == AT_STRING then d.(str := v.str)
    else d
  }

  function CanonAttr(a: NamedAttr): NamedAttr {
    a.(value := CanonValue(a.value))
  }

  // ---- grammar ---------------------------------------------------------------

  function PutBody(v: AttrValue): Bytes {
    if v.kind == AT_BOOLEAN then [Truth(v.flag)]
    else if v.kind == AT_INT64 then PutI64(v.int64)
    else if v.kind == AT_DOUBLE then PutU64(v.dbl)
    else if v.kind == AT_STRING then PutStr(v.str)
    else []
  }

  function PutAttr(a: NamedAttr): Bytes {
    PutStr(a.key) + ([a.value.kind] + (PutBody(a.value) + [a.tag]))
  }

  function ParseBody(kind: Byte, s: Bytes): Parse<AttrValue> {
    var d := DEFAULT_VALUE.(kind := kind);
    if kind == AT_BOOLEAN then
      var (b, s) :- ParseU8(s);
      Parsed(d.(flag := Truth(b)), s)
    else if kind == AT_INT64 then
      var (n, s) :- ParseI64(s);
      Parsed(d.(int64 := n), s)
    else if kind == AT_DOUBLE then
      var (n, s) :- ParseU64(s);
      Parsed(d.(dbl := n), s)
    else if kind == AT_STRING then
      var (t, s) :- ParseStr(s);
      Parsed(d.(str := t), s)
    else
      Parsed(d, s)
  }

  function ParseAttr(s: Bytes): Parse<NamedAttr> {
    var (key, s) :- ParseStr(s);
    var (kind, s) :- ParseU8(s);
    var (value, s) :- ParseBody(kind, s);
    var (tag, s) :- ParseU8(s);
    Parsed(NamedAttr(key, value, tag), s)
  }

  function ParseFlag(s: Bytes): Parse<int> {
    var (b, s) :- ParseU8(s);
    Parsed(Truth(b), s)
  }

  lemma BodyRoundTrip(v: AttrValue, tail: Bytes)
    requires |PutBody(v)| < TWO_32
    ensures ParseBody(v.kind, PutBody(v) + tail) == Parsed(CanonValue(v), tail)
  {
    if v.kind == AT_BOOLEAN {
      assert (PutBody(v) + tail)[1..] == tail;
    } else if v.kind == AT_INT64 {
      I64RoundTrip(v.int64, tail);
    } else if v.kind == AT_DOUBLE {
      U64RoundTrip(v.dbl, tail);
    } else if v.kind == AT_STRING {
      StrRoundTrip(v.str, tail);
    } else {
      assert PutBody(v) + tail == tail;
    }
  }

  lemma ByteRoundTrip(b: Byte, tail: Bytes)
    ensures ParseU8([b] + tail) == Parsed(b, tail)
  {
    assert ([b] + tail)[1..] == tail;
  }

  lemma AttrRoundTrip(a: NamedAttr, tail: Bytes)
    requires |PutAttr(a)| < TWO_32
    ensures ParseAttr(PutAttr(a) + tail) == Parsed(CanonAttr(a), tail)
  {
    var afterBody := [a.tag] + tail;
    var afterKind := PutBody(a.value) + afterBody;
    var afterKey := [a.value.kind] + afterKind;
    assert PutAttr(a) + tail == PutStr(a.key) + afterKey;
    StrRoundTrip(a.key, afterKey);
    ByteRoundTrip(a.value.kind, afterKind);
    BodyRoundTrip(a.value, afterBody);
    ByteRoundTrip(a.tag, tail);
  }

  lemma BodyStable(kind: Byte, s: Bytes, more: Bytes)
    ensures ParseBody(kind, s).Parsed? ==>
              ParseBody(kind, s + more) == Parsed(ParseBody(kind, s).value, ParseBody(kind, s).rest + more)
  {
    PrimitivesStable(s, more);
    StrStable(s, more);
  }

  lemma AttrStable(s: Bytes, more: Bytes)
    ensures StableAt(ParseAttr, s, more)
  {
    StrStable(s, more);
    if ParseStr(s).Parsed? {
      var s1 := ParseStr(s).rest;
      PrimitivesStable(s1, more);
      if ParseU8(s1).Parsed? {
        var kind, s2 := ParseU8(s1).value, ParseU8(s1).rest;
        BodyStable(kind, s2, more);
        if ParseBody(kind, s2).Parsed? {
          PrimitivesStable(ParseBody(kind, s2).rest, more);
        }
      }
    }
  }

  lemma AttrsRoundTrip(xs: seq<NamedAttr>, tail: Bytes)
    requires |PutCounted(xs, PutAttr)| < TWO_32
    ensures ParseCounted(ParseAttr, PutCounted(xs, PutAttr) + tail) == Parsed(MapSeq(xs, CanonAttr), tail)
  {
    ListFits(xs, PutAttr);
    forall i | 0 <= i < |xs| ensures RoundTrips(xs[i], PutAttr, ParseAttr, CanonAttr) {
      ElementFits(xs, i, PutAttr);
      forall t ensures ParseAttr(PutAttr(xs[i]) + t) == Parsed(CanonAttr(xs[i]), t) {
        AttrRoundTrip(xs[i], t);
      }
    }
    CountedRoundTrip(xs, PutAttr, ParseAttr, CanonAttr, tail);
  }

  /** What an attribute keeps on the wire: key, kind, tag, and the value of its kind. */
  lemma CanonKeepsValues(a: NamedAttr)
    ensures var c := CanonAttr(a);
      && c.key == a.key && c.tag == a.tag && c.value.kind == a.value.kind
      && (a.value.kind == AT_BOOLEAN ==> (c.value.flag != 0 <==> a.value.flag != 0))
      && (a.value.kind == AT_INT64 ==> c.value.int64 == a.value.int64)
      && (a.value.kind == AT_DOUBLE ==> c.value.dbl == a.value.dbl)
      && (a.value.kind == AT_STRING ==> c.value.str == a.value.str)
  {
    assert AT_BOOLEAN != AT_INT64 && AT_DOUBLE != AT_STRING;
  }

  lemma CanonAttrsIdempotent(xs: seq<NamedAttr>)
    ensures MapSeq(MapSeq(xs, CanonAttr), CanonAttr) == MapSeq(xs, CanonAttr)
  {
    var once := MapSeq(xs, CanonAttr);
    forall i | 0 <= i < |once| ensures CanonAttr(once[i]) == once[i] {
      assert once[i] == CanonAttr(xs[i]);
    }
    assert MapSeq(once, CanonAttr) == once;
  }

  lemma AttrsStable(s: Bytes, more: Bytes)
    ensures ParseCounted(ParseAttr, s).Parsed? ==>
              ParseCounted(ParseAttr, s + more)
              == Parsed(ParseCounted(ParseAttr, s).value, ParseCounted(ParseAttr, s).rest + more)
  {
    forall t, m ensures StableAt(ParseAttr, t, m) { AttrStable(t, m); }
    CountedStable(ParseAttr, s, more);
  }

  lemma FlagStable(s: Bytes, more: Bytes)
    ensures StableAt(ParseFlag, s, more)
  {
    PrimitivesStable(s, more);
  }

  function Same<T>(x: T): T { x }

  lemma U32sRoundTrip(xs: seq<U32>, tail: Bytes)
    requires |PutCounted(xs, PutU32)| < TWO_32
    ensures ParseCounted(ParseU32, PutCounted(xs, PutU32) + tail) == Parsed(xs, tail)
  {
    ListFits(xs, PutU32);
    forall i | 0 <= i < |xs| ensures RoundTrips(xs[i], PutU32, ParseU32, Same) {
      forall t ensures ParseU32(PutU32(xs[i]) + t) == Parsed(Same(xs[i]), t) {
        U32RoundTrip(xs[i], t);
      }
    }
    CountedRoundTrip(xs, PutU32, ParseU32, Same, tail);
    assert MapSeq(xs, Same) == xs;
  }

  lemma StrsRoundTrip(xs: seq<Bytes>, tail: Bytes)
    requires |PutCounted(xs, PutStr)| < TWO_32
    ensures ParseCounted(ParseStr, PutCounted(xs, PutStr) + tail) == Parsed(xs, tail)
  {
    ListFits(xs, PutStr);
    forall i | 0 <= i < |xs| ensures RoundTrips(xs[i], PutStr, ParseStr, Same) {
      ElementFits(xs, i, PutStr);
      forall t ensures ParseStr(PutStr(xs[i]) + t) == Parsed(Same(xs[i]), t) {
        StrRoundTrip(xs[i], t);
      }
    }
    CountedRoundTrip(xs, PutStr, ParseStr, Same, tail);
    assert MapSeq(xs, Same) == xs;
  }

  // ---- writing and reading -----------------------------------------------------

  method WriteAttr(w: ByteWriter, a: NamedAttr)
    modifies w
    ensures w.buf == old(w.buf) + PutAttr(a)
  {
    ghost var start := w.buf;
    w.Str(a.key);
    w.U8(a.value.kind);
    WriteBody(w, a.value);
    w.U8(a.tag);
    Assoc(start, PutStr(a.key), [a.value.kind]);
    Assoc(start, PutStr(a.key) + [a.value.kind], PutBody(a.value));
    Assoc(PutStr(a.key), [a.value.kind], PutBody(a.value));
    Assoc(start, PutStr(a.key) + ([a.value.kind] + PutBody(a.value)), [a.tag]);
    Assoc(PutStr(a.key), [a.value.kind] + PutBody(a.value), [a.tag]);
    Assoc([a.value.kind], PutBody(a.value), [a.tag]);
  }

  method WriteBody(w: ByteWriter, v: AttrValue)
    modifies w
    ensures w.buf == old(w.buf) + PutBody(v)
  {
    if v.kind == AT_BOOLEAN {
      w.U8(Truth(v.flag));
    } else if v.kind == AT_INT64 {
      w.U64(if v.int64 < 0 then v.int64 + TWO_64 else v.int64);
    } else if v.kind == AT_DOUBLE {
      w.U64(v.dbl);
    } else if v.kind == AT_STRING {
      w.Str(v.str);
    } else {
      assert w.buf == old(w.buf) + [];
    }
  }

  /** A count and the attributes it announces. */
  method WriteAttrs(w: ByteWriter, xs: seq<NamedAttr>)
    modifies w
    ensures w.buf == old(w.buf) + PutCounted(xs, PutAttr)
  {
    w.U32(|xs| % TWO_32);
    ghost var was, start := old(w.buf), w.buf;
    for i := 0 to |xs|
      invariant w.buf == start + PutList(xs[..i], PutAttr)
    {
      PutListSnoc(xs, i, PutAttr);
      ghost var done := PutList(xs[..i], PutAttr);
      WriteAttr(w, xs[i]);
      Assoc(start, done, PutAttr(xs[i]));
    }
    assert xs[..|xs|] == xs;
    Assoc(was, PutU32(|xs| % TWO_32), PutList(xs, PutAttr));
  }

  method ReadAttr(r: ByteReader) returns (a: NamedAttr)
    requires r.Valid()
    modifies r
    ensures r.Valid() && old(r.pos) <= r.pos && (r.ok ==> old(r.pos) < r.pos)
    ensures Follows(old(r.View()), r.View(), ParseAttr, a)
  {
    var key := r.Str();
    var kind := r.U8();
    var value := DEFAULT_VALUE.(kind := kind);
    if kind == AT_BOOLEAN {
      var b := r.U8();
      value := value.(flag := Truth(b));
    } else if kind == AT_INT64 {
      var n := r.I64();
      value := value.(int64 := n);
    } else if kind == AT_DOUBLE {
      var n := r.U64();
      value := value.(dbl := n);
    } else if kind == AT_STRING {
      var t := r.Str();
      value := value.(str := t);
    }
    var tag := r.U8();
    a := NamedAttr(key, value, tag);
  }

  method ReadAttrs(r: ByteReader, n: U32) returns (xs: seq<NamedAttr>)
    requires r.Valid()
    modifies r
    ensures r.Valid() && old(r.pos) <= r.pos && ListOutcome(old(r.View()), r.View(), ParseAttr, n, xs)
    ensures |xs| <= old(r.Remaining()) + 1 && (!old(r.ok) ==> xs == [])
  {
    xs := [];
    ProgressStarts(r.View(), ParseAttr, n);
    while |xs| < n && r.ok
      invariant r.Valid() && old(r.pos) <= r.pos && ListProgress(old(r.View()), r.View(), ParseAttr, n, xs)
      invariant |xs| + r.Remaining() <= old(r.Remaining()) + (if r.ok then 0 else 1)
      invariant !old(r.ok) ==> xs == [] && !r.ok
      decreases n - |xs|
    {
      ghost var before := r.View();
      var x := ReadAttr(r);
      ProgressGrows(old(r.View()), before, r.View(), ParseAttr, n, xs, x);
      xs := xs + [x];
    }
    ProgressEnds(old(r.View()), r.View(), ParseAttr, n, xs);
  }

  method WriteU32s(w: ByteWriter, xs: seq<U32>)
    modifies w
    ensures w.buf == old(w.buf) + PutCounted(xs, PutU32)
  {
    w.U32(|xs| % TWO_32);
    ghost var was, start := old(w.buf), w.buf;
    for i := 0 to |xs|
      invariant w.buf == start + PutList(xs[..i], PutU32)
    {
      PutListSnoc(xs, i, PutU32);
      ghost var done := PutList(xs[..i], PutU32);
      w.U32(xs[i]);
      Assoc(start, done, PutU32(xs[i]));
    }
    assert xs[..|xs|] == xs;
    Assoc(was, PutU32(|xs| % TWO_32), PutList(xs, PutU32));
  }

  method WriteStrs(w: ByteWriter, xs: seq<Bytes>)
    modifies w
    ensures w.buf == old(w.buf) + PutCounted(xs, PutStr)
  {
    w.U32(|xs| % TWO_32);
    ghost var was, start := old(w.buf), w.buf;
    for i := 0 to |xs|
      invariant w.buf == start + PutList(xs[..i], PutStr)
    {
      PutListSnoc(xs, i, PutStr);
      ghost var done := PutList(xs[..i], PutStr);
      w.Str(xs[i]);
      Assoc(start, done, PutStr(xs[i]));
    }
    assert xs[..|xs|] == xs;
    Assoc(was, PutU32(|xs| % TWO_32), PutList(xs, PutStr));
  }

  method ReadFlag(r: ByteReader) returns (flag: int)
    requires r.Valid()
    modifies r
    ensures r.Valid() && old(r.pos) <= r.pos && Follows(old(r.View()), r.View(), ParseFlag, flag)
  {
    var b := r.U8();
    flag := Truth(b);
  }

  /** A count that cannot be read is 0; one that can be has used four bytes, so no list
      holds more elements than the datagram has bytes. */
  method ReadCountedU32s(r: ByteReader) returns (xs: seq<U32>)
    requires r.Valid()
    modifies r
    ensures r.Valid() && |xs| <= |r.data|
    ensures Follows(old(r.View()), r.View(), (s: Bytes) => ParseCounted(ParseU32, s), xs)
  {
    var count := r.U32();
    xs := ReadU32s(r, count);
  }

  method ReadCountedAttrs(r: ByteReader) returns (xs: seq<NamedAttr>)
    requires r.Valid()
    modifies r
    ensures r.Valid() && old(r.pos) <= r.pos && |xs| <= |r.data|
    ensures Follows(old(r.View()), r.View(), (s: Bytes) => ParseCounted(ParseAttr, s), xs)
  {
    var count := r.U32();
    xs := ReadAttrs(r, count);
  }
}
