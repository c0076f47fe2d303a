/** The session record and its wire form. */
module SessionCodec {
  import opened Basics
  import opened ByteCodec
  import opened AttributeCodec

  /** The fields that travel. */
  datatype SessionRecord = SessionRecord(
    sessionId: Bytes,
    ownerId: Bytes,
    bucketId: Bytes,
    hostAddress: Bytes,
    maxPlayers: U32,
    permission: Byte,
    allowJoinInProgress: int,
    invitesAllowed: int,
    sanctionsEnabled: int,
    state: Byte,
    version: U64,
    platforms: seq<U32>,
    attributes: seq<NamedAttr>,
    players: seq<Bytes>)

  const BLANK := SessionRecord([], [], [], [], 0, 0, 0, 0, 0, 0, 0, [], [], [])

  function CanonRecord(r: SessionRecord): SessionRecord {
    r.(allowJoinInProgress := Truth(r.allowJoinInProgress), invitesAllowed := Truth(r.invitesAllowed),
       sanctionsEnabled := Truth(r.sanctionsEnabled), attributes := MapSeq(r.attributes, CanonAttr))
  }

  // ---- grammar -----------------------------------------------------------------

  function PutNames(r: SessionRecord): Bytes {
    PutStr(r.sessionId) + (PutStr(r.ownerId) + (PutStr(r.bucketId) + PutStr(r.hostAddress)))
  }

  function PutFlags(r: SessionRecord): Bytes {
    [r.permission, Truth(r.allowJoinInProgress), Truth(r.invitesAllowed), Truth(r.sanctionsEnabled), r.state]
  }

  function PutSettings(r: SessionRecord): Bytes {
    PutU32(r.maxPlayers) + (PutFlags(r) + PutU64(r.version))
  }

  function PutLists(r: SessionRecord): Bytes {
    PutCounted(r.platforms, PutU32) + (PutCounted(r.attributes, PutAttr) + PutCounted(r.players, PutStr))
  }

  function PutSession(r: SessionRecord): Bytes {
    PutNames(r) + (PutSettings(r) + PutLists(r))
  }

  function ParseNames(s: Bytes): Parse<SessionRecord> {
    var (sessionId, s) :- ParseStr(s);
    var (ownerId, s) :- ParseStr(s);
    var (bucketId, s) :- ParseStr(s);
    var (hostAddress, s) :- ParseStr(s);
    Parsed(BLANK.(sessionId := sessionId, ownerId := ownerId, bucketId := bucketId, hostAddress := hostAddress), s)
  }

  function ParseFlags(r: SessionRecord, s: Bytes): Parse<SessionRecord> {
    var (permission, s) :- ParseU8(s);
    var (inProgress, s) :- ParseFlag(s);
    var (invites, s) :- ParseFlag(s);
    var (sanctions, s) :- ParseFlag(s);
    var (state, s) :- ParseU8(s);
    Parsed(r.(permission := permission, allowJoinInProgress := inProgress, invitesAllowed := invites,
              sanctionsEnabled := sanctions, state := state), s)
  }

  function ParseSettings(r: SessionRecord, s: Bytes): Parse<SessionRecord> {
    var (maxPlayers, s) :- ParseU32(s);
    var (r, s) :- ParseFlags(r, s);
    var (version, s) :- ParseU64(s);
    Parsed(r.(maxPlayers := maxPlayers, version := version), s)
  }

  function ParseLists(r: SessionRecord, s: Bytes): Parse<SessionRecord> {
    var (platforms, s) :- ParseCounted(ParseU32, s);
    var (attributes, s) :- ParseCounted(ParseAttr, s);
    var (players, s) :- ParseCounted(ParseStr, s);
    Parsed(r.(platforms := platforms, attributes := attributes, players := players), s)
  }

  function ParseSession(s: Bytes): Parse<SessionRecord> {
    var (r, s) :- ParseNames(s);
    var (r, s) :- ParseSettings(r, s);
    ParseLists(r, s)
  }

  // ---- round trip ----------------------------------------------------------------

  lemma NamesRoundTrip(r: SessionRecord, tail: Bytes)
    requires |PutNames(r)| < TWO_32
    ensures ParseNames(PutNames(r) + tail)
         == Parsed(BLANK.(sessionId := r.sessionId, ownerId := r.ownerId, bucketId := r.bucketId,
                          hostAddress := r.hostAddress), tail)
  {
    var a, b, c, d := PutStr(r.sessionId), PutStr(r.ownerId), PutStr(r.bucketId), PutStr(r.hostAddress);
    Assoc(a, b + (c + d), tail);
    Assoc(b, c + d, tail);
    Assoc(c, d, tail);
    StrRoundTrip(r.sessionId, b + (c + (d + tail)));
    StrRoundTrip(r.ownerId, c + (d + tail));
    StrRoundTrip(r.bucketId, d + tail);
    StrRoundTrip(r.hostAddress, tail);
  }

  function CanonFlags(r: SessionRecord, blank: SessionRecord): SessionRecord {
    blank.(permission := r.permission, allowJoinInProgress := Truth(r.allowJoinInProgress),
           invitesAllowed := Truth(r.invitesAllowed), sanctionsEnabled := Truth(r.sanctionsEnabled), state := r.state)
  }

  lemma FlagsRoundTrip(r: SessionRecord, blank: SessionRecord, tail: Bytes)
    ensures ParseFlags(blank, PutFlags(r) + tail) == Parsed(CanonFlags(r, blank), tail)
  {
    var s := PutFlags(r) + tail;
    assert s[1..][1..][1..][1..][1..] == tail;
  }

  lemma SettingsRoundTrip(r: SessionRecord, blank: SessionRecord, tail: Bytes)
    ensures ParseSettings(blank, PutSettings(r) + tail)
         == Parsed(CanonFlags(r, blank).(maxPlayers := r.maxPlayers, version := r.version), tail)
  {
    var version := PutU64(r.version);
    Assoc(PutU32(r.maxPlayers), PutFlags(r) + version, tail);
    Assoc(PutFlags(r), version, tail);
    U32RoundTrip(r.maxPlayers, PutFlags(r) + (version + tail));
    FlagsRoundTrip(r, blank, version + tail);
    U64RoundTrip(r.version, tail);
  }

  lemma ListsRoundTrip(r: SessionRecord, blank: SessionRecord, tail: Bytes)
    requires |PutLists(r)| < TWO_32
    ensures ParseLists(blank, PutLists(r) + tail)
         == Parsed(blank.(platforms := r.platforms, attributes := MapSeq(r.attributes, CanonAttr),
                          players := r.players), tail)
  {
    var platforms, attributes, players :=
      PutCounted(r.platforms, PutU32), PutCounted(r.attributes, PutAttr), PutCounted(r.players, PutStr);
    Assoc(platforms, attributes + players, tail);
    Assoc(attributes, players, tail);
    U32sRoundTrip(r.platforms, attributes + (players + tail));
    AttrsRoundTrip(r.attributes, players + tail);
    StrsRoundTrip(r.players, tail);
  }

  /** What a session keeps on the wire: every field, flags as such, and each attribute's key
      and the value of its kind. */
  lemma CanonKeepsFields(r: SessionRecord)
    ensures var c := CanonRecord(r);
      && c.sessionId == r.sessionId && c.ownerId == r.ownerId && c.bucketId == r.bucketId
      && c.hostAddress == r.hostAddress && c.maxPlayers == r.maxPlayers && c.permission == r.permission
      && c.state == r.state && c.version == r.version && c.platforms == r.platforms && c.players == r.players
      && (c.allowJoinInProgress != 0 <==> r.allowJoinInProgress != 0)
      && (c.invitesAllowed != 0 <==> r.invitesAllowed != 0) && (c.sanctionsEnabled != 0 <==> r.sanctionsEnabled != 0)
      && |c.attributes| == |r.attributes|
      && forall i :: 0 <= i < |r.attributes| ==>
           && c.attributes[i].key == r.attributes[i].key && c.attributes[i].value.kind == r.attributes[i].value.kind
           && (r.attributes[i].value.kind == AT_STRING ==> c.attributes[i].value.str == r.attributes[i].value.str)
           && (r.attributes[i].value.kind == AT_INT64 ==> c.attributes[i].value.int64 == r.attributes[i].value.int64)
  {
    forall i | 0 <= i < |r.attributes| ensures CanonRecord(r).attributes[i] == CanonAttr(r.attributes[i]) {
      CanonKeepsValues(r.attributes[i]);
    }
  }

  lemma SessionRoundTrip(r: SessionRecord, tail: Bytes)
    requires |PutSession(r)| < TWO_32
    ensures ParseSession(PutSession(r) + tail) == Parsed(CanonRecord(r), tail)
  {
    Assoc(PutNames(r), PutSettings(r) + PutLists(r), tail);
    Assoc(PutSettings(r), PutLists(r), tail);
    var names := BLANK.(sessionId := r.sessionId, ownerId := r.ownerId, bucketId := r.bucketId,
        hostAddress := r.hostAddress);
    var fixed := CanonFlags(r, names).(maxPlayers := r.maxPlayers, version := r.version);
    NamesRoundTrip(r, PutSettings(r) + (PutLists(r) + tail));
    SettingsRoundTrip(r, names, PutLists(r) + tail);
    ListsRoundTrip(r, fixed, tail);
  }

  // ---- cuts -----------------------------------------------------------------------

  lemma NamesStable(s: Bytes, more: Bytes)
    ensures StableAt(ParseNames, s, more)
  {
    if ParseNames(s).Parsed? {
      StrStable(s, more);
      var s1 := ParseStr(s).rest;
      StrStable(s1, more);
      var s2 := ParseStr(s1).rest;
      StrStable(s2, more);
      StrStable(ParseStr(s2).rest, more);
    }
  }

  lemma FlagsStable(r: SessionRecord, s: Bytes, more: Bytes)
    ensures ParseFlags(r, s).Parsed? ==>
              ParseFlags(r, s + more) == Parsed(ParseFlags(r, s).value, ParseFlags(r, s).rest + more)
  {
    if ParseFlags(r, s).Parsed? {
      PrimitivesStable(s, more);
      var s2 := ParseU8(s).rest;
      FlagStable(s2, more);
      var s3 := ParseFlag(s2).rest;
      FlagStable(s3, more);
      var s4 := ParseFlag(s3).rest;
      FlagStable(s4, more);
      PrimitivesStable(ParseFlag(s4).rest, more);
    }
  }

  lemma SettingsStable(r: SessionRecord, s: Bytes, more: Bytes)
    ensures ParseSettings(r, s).Parsed? ==>
              ParseSettings(r, s + more) == Parsed(ParseSettings(r, s).value, ParseSettings(r, s).rest + more)
  {
    if ParseSettings(r, s).Parsed? {
      PrimitivesStable(s, more);
      var s1 := ParseU32(s).rest;
      FlagsStable(r, s1, more);
      PrimitivesStable(ParseFlags(r, s1).rest, more);
    }
  }

  lemma ListsStable(r: SessionRecord, s: Bytes, more: Bytes)
    ensures ParseLists(r, s).Parsed? ==>
              ParseLists(r, s + more) == Parsed(ParseLists(r, s).value, ParseLists(r, s).rest + more)
  {
    if ParseLists(r, s).Parsed? {
      forall t, m ensures StableAt(ParseU32, t, m) { PrimitivesStable(t, m); }
      CountedStable(ParseU32, s, more);
      var s1 := ParseCounted(ParseU32, s).rest;
      AttrsStable(s1, more);
      forall t, m ensures StableAt(ParseStr, t, m) { StrStable(t, m); }
      CountedStable(ParseStr, ParseCounted(ParseAttr, s1).rest, more);
    }
  }

  lemma SessionStable(s: Bytes, more: Bytes)
    ensures StableAt(ParseSession, s, more)
  {
    if ParseSession(s).Parsed? {
      NamesStable(s, more);
      var r, s1 := ParseNames(s).value, ParseNames(s).rest;
      SettingsStable(r, s1, more);
      ListsStable(ParseSettings(r, s1).value, ParseSettings(r, s1).rest, more);
    }
  }

  /** Every strict prefix of an encoded session is rejected. */
  lemma CutSessionIsRejected(r: SessionRecord, n: nat)
    requires |PutSession(r)| < TWO_32 && n < |PutSession(r)|
    ensures ParseSession(PutSession(r)[..n]).Fail?
  {
    var whole := PutSession(r);
    SessionRoundTrip(r, []);
    assert whole + [] == whole;
    SessionStable(whole[..n], whole[n..]);
    CutIsRejected(ParseSession, whole, n);
  }

  // ---- writing and reading -----------------------------------------------------------

  method SerializeRecord(w: ByteWriter, r: SessionRecord)
    modifies w
    ensures w.buf == old(w.buf) + PutSession(r)
  {
    ghost var start := w.buf;
    WriteNames(w, r);
    WriteSettings(w, r);
    WriteLists(w, r);
    Assoc(start, PutNames(r), PutSettings(r));
    Assoc(start, PutNames(r) + PutSettings(r), PutLists(r));
    Assoc(PutNames(r), PutSettings(r), PutLists(r));
  }

  method WriteNames(w: ByteWriter, r: SessionRecord)
    modifies w
    ensures w.buf == old(w.buf) + PutNames(r)
  {
    w.Str(r.sessionId);
    w.Str(r.ownerId);
    w.Str(r.bucketId);
    w.Str(r.hostAddress);
    assert w.buf == old(w.buf) + PutNames(r);
  }

  method WriteSettings(w: ByteWriter, r: SessionRecord)
    modifies w
    ensures w.buf == old(w.buf) + PutSettings(r)
  {
    w.U32(r.maxPlayers);
    w.U8(r.permission);
    w.U8(Truth(r.allowJoinInProgress));
    w.U8(Truth(r.invitesAllowed));
    w.U8(Truth(r.sanctionsEnabled));
    w.U8(r.state);
    w.U64(r.version);
  }

  method WriteLists(w: ByteWriter, r: SessionRecord)
    modifies w
    ensures w.buf == old(w.buf) + PutLists(r)
  {
    ghost var start := w.buf;
    ghost var platforms, attributes, players :=
      PutCounted(r.platforms, PutU32), PutCounted(r.attributes, PutAttr), PutCounted(r.players, PutStr);
    WriteU32s(w, r.platforms);
    WriteAttrs(w, r.attributes);
    WriteStrs(w, r.players);
    Assoc(start, platforms, attributes);
    Assoc(start, platforms + attributes, players);
    Assoc(platforms, attributes, players);
  }

  method DeserializeRecord(r: ByteReader) returns (ok: bool, out: SessionRecord)
    requires r.Valid()
    modifies r
    ensures r.Valid() && ok == r.ok
    ensures Follows(old(r.View()), r.View(), ParseSession, out)
  {
    out := ReadNames(r);
    out := ReadSettings(r, out);
    out := ReadLists(r, out);
    ok := r.ok;
  }

  method ReadNames(r: ByteReader) returns (out: SessionRecord)
    requires r.Valid()
    modifies r
    ensures r.Valid() && Follows(old(r.View()), r.View(), ParseNames, out)
  {
    var sessionId := r.Str();
    var ownerId := r.Str();
    var bucketId := r.Str();
    var hostAddress := r.Str();
    out := BLANK.(sessionId := sessionId, ownerId := ownerId, bucketId := bucketId, hostAddress := hostAddress);
  }

  method ReadSettings(r: ByteReader, blank: SessionRecord) returns (out: SessionRecord)
    requires r.Valid()
    modifies r
    ensures r.Valid() && Follows(old(r.View()), r.View(), (s: Bytes) => ParseSettings(blank, s), out)
  {
    var maxPlayers := r.U32();
    var permission := r.U8();
    var inProgress := ReadFlag(r);
    var invites := ReadFlag(r);
    var sanctions := ReadFlag(r);
    var state := r.U8();
    var version := r.U64();
    out := blank.(maxPlayers := maxPlayers, permission := permission, allowJoinInProgress := inProgress,
                  invitesAllowed := invites, sanctionsEnabled := sanctions, state := state, version := version);
  }

  method ReadLists(r: ByteReader, blank: SessionRecord) returns (out: SessionRecord)
    requires r.Valid()
    modifies r
    ensures r.Valid() && Follows(old(r.View()), r.View(), (s: Bytes) => ParseLists(blank, s), out)
    ensures |out.platforms| <= |r.data| && |out.attributes| <= |r.data| && |out.players| <= |r.data|
  {
    var platforms := ReadCountedU32s(r);
    var attributes := ReadCountedAttrs(r);
    var count := r.U32();
    var players := ReadStrs(r, count);
    out := blank.(platforms := platforms, attributes := attributes, players := players);
  }
}
