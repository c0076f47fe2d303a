/** The discovery Hello: four base strings and, from newer builds, a presence extension
    that a reader takes whole or not at all. */
module HelloCodec {
  import opened Basics
  import opened ByteCodec
  import opened AttributeCodec

  datatype Pair = Pair(key: Bytes, value: Bytes)

  datatype Presence = Presence(
    status: Byte, joinInfo: Bytes, productId: Bytes, productVersion: Bytes, productName: Bytes, data: seq<Pair>)

  const ONLINE: Byte := 1
  const DefaultPresence := Presence(ONLINE, [], [], [], [], [])

  datatype Base = Base(productUserId: Bytes, epicId: Bytes, displayName: Bytes, richText: Bytes)

  datatype Hello = Hello(base: Base, presence: Presence)

  // ---- grammar -----------------------------------------------------------------

  function PutBase(b: Base): Bytes {
    PutStr(b.productUserId) + (PutStr(b.epicId) + (PutStr(b.displayName) + PutStr(b.richText)))
  }

  function PutPair(p: Pair): Bytes {
    PutStr(p.key) + PutStr(p.value)
  }

  function PutPresence(p: Presence): Bytes {
    [p.status] + (PutStr(p.joinInfo)
                  + (PutStr(p.productId)
                     + (PutStr(p.productVersion) + (PutStr(p.productName) + PutCounted(p.data, PutPair)))))
  }

  function PutHello(h: Hello): Bytes {
    PutBase(h.base) + PutPresence(h.presence)
  }

  function ParseBase(s: Bytes): Parse<Base> {
    var (productUserId, s) :- ParseStr(s);
    var (epicId, s) :- ParseStr(s);
    var (displayName, s) :- ParseStr(s);
    var (richText, s) :- ParseStr(s);
    Parsed(Base(productUserId, epicId, displayName, richText), s)
  }

  function ParsePair(s: Bytes): Parse<Pair> {
    var (key, s) :- ParseStr(s);
    var (value, s) :- ParseStr(s);
    Parsed(Pair(key, value), s)
  }

  function ParsePresence(s: Bytes): Parse<Presence> {
    var (status, s) :- ParseU8(s);
    var (joinInfo, s) :- ParseStr(s);
    var (productId, s) :- ParseStr(s);
    var (productVersion, s) :- ParseStr(s);
    var (productName, s) :- ParseStr(s);
    var (data, s) :- ParseCounted(ParsePair, s);
    Parsed(Presence(status, joinInfo, productId, productVersion, productName, data), s)
  }

  /** What a receiver makes of a Hello payload. */
  function Decode(s: Bytes): Option<Hello> {
    var b := ParseBase(s);
    if b.Fail? then None
    else
      var p := if b.rest == [] then Fail else ParsePresence(b.rest);
      Some(Hello(b.value, if p.Fail? then DefaultPresence else p.value))
  }

  // ---- round trips -----------------------------------------------------------------

  lemma BaseRoundTrip(b: Base, tail: Bytes)
    requires |PutBase(b)| < TWO_32
    ensures ParseBase(PutBase(b) + tail) == Parsed(b, tail)
  {
    var p, q, r, t := PutStr(b.productUserId), PutStr(b.epicId), PutStr(b.displayName), PutStr(b.richText);
    Assoc(p, q + (r + t), tail);
    Assoc(q, r + t, tail);
    Assoc(r, t, tail);
    StrRoundTrip(b.productUserId, q + (r + (t + tail)));
    StrRoundTrip(b.epicId, r + (t + tail));
    StrRoundTrip(b.displayName, t + tail);
    StrRoundTrip(b.richText, tail);
  }

  lemma PairRoundTrip(p: Pair, tail: Bytes)
    requires |PutPair(p)| < TWO_32
    ensures ParsePair(PutPair(p) + tail) == Parsed(p, tail)
  {
    Assoc(PutStr(p.key), PutStr(p.value), tail);
    StrRoundTrip(p.key, PutStr(p.value) + tail);
    StrRoundTrip(p.value, tail);
  }

  lemma PairsRoundTrip(xs: seq<Pair>, tail: Bytes)
    requires |PutCounted(xs, PutPair)| < TWO_32
    ensures ParseCounted(ParsePair, PutCounted(xs, PutPair) + tail) == Parsed(xs, tail)
  {
    ListFits(xs, PutPair);
    forall i | 0 <= i < |xs| ensures RoundTrips(xs[i], PutPair, ParsePair, Same) {
      ElementFits(xs, i, PutPair);
      forall t ensures ParsePair(PutPair(xs[i]) + t) == Parsed(Same(xs[i]), t) {
        PairRoundTrip(xs[i], t);
      }
    }
    CountedRoundTrip(xs, PutPair, ParsePair, Same, tail);
    assert MapSeq(xs, Same) == xs;
  }

  lemma PresenceRoundTrip(p: Presence, tail: Bytes)
    requires |PutPresence(p)| < TWO_32
    ensures ParsePresence(PutPresence(p) + tail) == Parsed(p, tail)
  {
    var a, b, c, d, e := PutStr(p.joinInfo), PutStr(p.productId), PutStr(p.productVersion),
                         PutStr(p.productName), PutCounted(p.data, PutPair);
    Assoc([p.status], a + (b + (c + (d + e))), tail);
    Assoc(a, b + (c + (d + e)), tail);
    Assoc(b, c + (d + e), tail);
    Assoc(c, d + e, tail);
    Assoc(d, e, tail);
    ByteRoundTrip(p.status, a + (b + (c + (d + (e + tail)))));
    StrRoundTrip(p.joinInfo, b + (c + (d + (e + tail))));
    StrRoundTrip(p.productId, c + (d + (e + tail)));
    StrRoundTrip(p.productVersion, d + (e + tail));
    StrRoundTrip(p.productName, e + tail);
    PairsRoundTrip(p.data, tail);
  }

  /** A full Hello is read back whole. */
  lemma HelloRoundTrip(h: Hello)
    requires |PutHello(h)| < TWO_32
    ensures Decode(PutHello(h)) == Some(h)
  {
    BaseRoundTrip(h.base, PutPresence(h.presence));
    PresenceRoundTrip(h.presence, []);
    assert PutPresence(h.presence) + [] == PutPresence(h.presence);
  }

  /** A Hello from a build without the extension gives the defaults. */
  lemma BaseOnlyGivesDefaults(b: Base)
    requires |PutBase(b)| < TWO_32
    ensures Decode(PutBase(b)) == Some(Hello(b, DefaultPresence))
  {
    BaseRoundTrip(b, []);
    assert PutBase(b) + [] == PutBase(b);
  }

  // ---- cuts -----------------------------------------------------------------------

  lemma BaseStable(s: Bytes, more: Bytes)
    ensures StableAt(ParseBase, s, more)
  {
    if ParseBase(s).Parsed? {
      StrStable(s, more);
      var s1 := ParseStr(s).rest;
      StrStable(s1, more);
      var s2 := ParseStr(s1).rest;
      StrStable(s2, more);
      StrStable(ParseStr(s2).rest, more);
    }
  }

  lemma PairStable(s: Bytes, more: Bytes)
    ensures StableAt(ParsePair, s, more)
  {
    StrStable(s, more);
    if ParseStr(s).Parsed? {
      StrStable(ParseStr(s).rest, more);
    }
  }

  lemma PresenceStable(s: Bytes, more: Bytes)
    ensures StableAt(ParsePresence, s, more)
  {
    if ParsePresence(s).Parsed? {
      PrimitivesStable(s, more);
      var s1 := ParseU8(s).rest;
      StrStable(s1, more);
      var s2 := ParseStr(s1).rest;
      StrStable(s2, more);
      var s3 := ParseStr(s2).rest;
      StrStable(s3, more);
      var s4 := ParseStr(s3).rest;
      StrStable(s4, more);
      forall t, m ensures StableAt(ParsePair, t, m) { PairStable(t, m); }
      CountedStable(ParsePair, ParseStr(s4).rest, more);
    }
  }

  /** A cut inside the base drops the Hello; a cut at or after its end keeps the base and
      gives the default extension, never part of one. */
  lemma CutHello(h: Hello, n: nat)
    requires |PutHello(h)| < TWO_32 && n < |PutHello(h)|
    ensures Decode(PutHello(h)[..n])
         == if n < |PutBase(h.base)| then None else Some(Hello(h.base, DefaultPresence))
  {
    var base, ext := PutBase(h.base), PutPresence(h.presence);
    if n < |base| {
      assert PutHello(h)[..n] == base[..n];
      BaseRoundTrip(h.base, []);
      assert base + [] == base;
      BaseStable(base[..n], base[n..]);
      CutIsRejected(ParseBase, base, n);
    } else {
      var m := n - |base|;
      assert PutHello(h)[..n] == base + ext[..m];
      BaseRoundTrip(h.base, ext[..m]);
      PresenceRoundTrip(h.presence, []);
      assert ext + [] == ext;
      PresenceStable(ext[..m], ext[m..]);
      CutIsRejected(ParsePresence, ext, m);
    }
  }

  // ---- writing and reading -----------------------------------------------------------

  method BroadcastHello(h: Hello) returns (payload: Bytes)
    ensures payload == PutHello(h)
  {
    var w := new ByteWriter();
    w.Str(h.base.productUserId);
    w.Str(h.base.epicId);
    w.Str(h.base.displayName);
    w.Str(h.base.richText);
    assert w.buf == PutBase(h.base);
    WritePresence(w, h.presence);
    payload := w.buf;
  }

  method WritePresence(w: ByteWriter, p: Presence)
    modifies w
    ensures w.buf == old(w.buf) + PutPresence(p)
  {
    ghost var start := w.buf;
    ghost var a, b, c, d, e := PutStr(p.joinInfo), PutStr(p.productId), PutStr(p.productVersion),
                               PutStr(p.productName), PutCounted(p.data, PutPair);
    w.U8(p.status);
    w.Str(p.joinInfo);
    w.Str(p.productId);
    w.Str(p.productVersion);
    w.Str(p.productName);
    WritePairs(w, p.data);
    assert w.buf == start + [p.status] + a + b + c + d + e;
    Assoc(start + [p.status] + a + b + c, d, e);
    Assoc(start + [p.status] + a + b, c, d + e);
    Assoc(start + [p.status] + a, b, c + (d + e));
    Assoc(start + [p.status], a, b + (c + (d + e)));
    Assoc(start, [p.status], a + (b + (c + (d + e))));
  }

  method WritePairs(w: ByteWriter, xs: seq<Pair>)
    modifies w
    ensures w.buf == old(w.buf) + PutCounted(xs, PutPair)
  {
    w.U32(|xs| % TWO_32);
    ghost var was, start := old(w.buf), w.buf;
    for i := 0 to |xs|
      invariant w.buf == start + PutList(xs[..i], PutPair)
    {
      PutListSnoc(xs, i, PutPair);
      ghost var done := PutList(xs[..i], PutPair);
      w.Str(xs[i].key);
      w.Str(xs[i].value);
      Assoc(start + done, PutStr(xs[i].key), PutStr(xs[i].value));
      Assoc(start, done, PutPair(xs[i]));
    }
    assert xs[..|xs|] == xs;
    Assoc(was, PutU32(|xs| % TWO_32), PutList(xs, PutPair));
  }

  method OnHello(payload: Bytes) returns (h: Option<Hello>)
    ensures h == Decode(payload)
    ensures h.Some? ==> |h.value.presence.data| <= |payload|
  {
    var r := new ByteReader(payload);
    var productUserId := r.Str();
    var epicId := r.Str();
    var displayName := r.Str();
    var richText := r.Str();
    if !r.ok {
      return None;
    }
    var base := Base(productUserId, epicId, displayName, richText);
    ghost var unread := payload[r.pos..];
    assert ParseBase(payload) == Parsed(base, unread);
    var presence := DefaultPresence;
    if r.Remaining() > 0 {
      var ext := ReadPresence(r);
      if r.ok {
        presence := ext;
      }
    }
    return Some(Hello(base, presence));
  }

  method ReadPresence(r: ByteReader) returns (p: Presence)
    requires r.Valid()
    modifies r
    ensures r.Valid() && Follows(old(r.View()), r.View(), ParsePresence, p)
    ensures |p.data| <= |r.data|
  {
    var status := r.U8();
    var joinInfo := r.Str();
    var productId := r.Str();
    var productVersion := r.Str();
    var productName := r.Str();
    var count := r.U32();
    var data := ReadPairs(r, count);
    p := Presence(status, joinInfo, productId, productVersion, productName, data);
  }

  method ReadPairs(r: ByteReader, n: U32) returns (xs: seq<Pair>)
    requires r.Valid()
    modifies r
    ensures r.Valid() && ListOutcome(old(r.View()), r.View(), ParsePair, n, xs)
    ensures |xs| <= old(r.Remaining()) + 1 && (!old(r.ok) ==> xs == [])
  {
    xs := [];
    ProgressStarts(r.View(), ParsePair, n);
    while r.ok && |xs| < n
      invariant r.Valid() && ListProgress(old(r.View()), r.View(), ParsePair, n, xs)
      invariant |xs| + r.Remaining() <= old(r.Remaining()) + (if r.ok then 0 else 1)
      invariant !old(r.ok) ==> xs == [] && !r.ok
      decreases n - |xs|
    {
      ghost var before := r.View();
      var key := r.Str();
      var value := r.Str();
      ProgressGrows(old(r.View()), before, r.View(), ParsePair, n, xs, Pair(key, value));
      xs := xs + [Pair(key, value)];
    }
    ProgressEnds(old(r.View()), r.View(), ParsePair, n, xs);
  }
}
