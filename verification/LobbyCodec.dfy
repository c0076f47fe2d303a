/** The lobby record and its wire form, as announced by an owner to everyone else. */
module LobbyCodec {
  import opened Basics
  import opened ByteCodec
  import opened AttributeCodec

  datatype Endpoint = Endpoint(ip: U32, port: nat)

  const NO_ENDPOINT := Endpoint(0, 0)

  datatype Member = Member(id: Bytes, platform: U32, attributes: seq<NamedAttr>)

  /** EOS_Bool fields are integers. The last two fields never travel. */
  datatype LobbyRecord = LobbyRecord(
    lobbyId: Bytes,
    ownerId: Bytes,
    bucketId: Bytes,
    maxMembers: U32,
    permission: Byte,
    allowInvites: int,
    allowHostMigration: int,
    rtcRoomEnabled: int,
    presenceEnabled: int,
    allowJoinById: int,
    version: U64,
    platforms: seq<U32>,
    attributes: seq<NamedAttr>,
    members: seq<Member>,
    host: Endpoint,
    lastSeen: nat)

  function CanonMember(m: Member): Member {
    m.(attributes := MapSeq(m.attributes, CanonAttr))
  }

  /** What a receiver reconstructs, before it fills in where and when it heard it. */
  function CanonRecord(r: LobbyRecord): LobbyRecord {
    r.(allowInvites := Truth(r.allowInvites), allowHostMigration := Truth(r.allowHostMigration),
       rtcRoomEnabled := Truth(r.rtcRoomEnabled), presenceEnabled := Truth(r.presenceEnabled),
       allowJoinById := Truth(r.allowJoinById),
       attributes := MapSeq(r.attributes, CanonAttr), members := MapSeq(r.members, CanonMember),
       host := NO_ENDPOINT, lastSeen := 0)
  }

  // ---- grammar ----------------------------------------------------------------

  function PutMember(m: Member): Bytes {
    PutStr(m.id) + (PutU32(m.platform) + PutCounted(m.attributes, PutAttr))
  }

  function ParseMember(s: Bytes): Parse<Member> {
    var (id, s) :- ParseStr(s);
    var (platform, s) :- ParseU32(s);
    var (attributes, s) :- ParseCounted(ParseAttr, s);
    Parsed(Member(id, platform, attributes), s)
  }

  function PutHead(r: LobbyRecord): Bytes {
    PutStr(r.lobbyId) + (PutStr(r.ownerId) + PutStr(r.bucketId))
  }

  function PutSettings(r: LobbyRecord): Bytes {
    PutU32(r.maxMembers) + (PutFlags(r) + PutU64(r.version))
  }

  function PutFlags(r: LobbyRecord): Bytes {
    [r.permission, Truth(r.allowInvites), Truth(r.allowHostMigration), Truth(r.rtcRoomEnabled),
     Truth(r.presenceEnabled), Truth(r.allowJoinById)]
  }

  function PutLists(r: LobbyRecord): Bytes {
    PutCounted(r.platforms, PutU32) + (PutCounted(r.attributes, PutAttr) + PutCounted(r.members, PutMember))
  }

  function PutLobby(r: LobbyRecord): Bytes {
    PutHead(r) + (PutSettings(r) + PutLists(r))
  }

  const BLANK := LobbyRecord([], [], [], 0, 0, 0, 0, 0, 0, 0, 0, [], [], [], NO_ENDPOINT, 0)

  function ParseHead(s: Bytes): Parse<LobbyRecord> {
    var (lobbyId, s) :- ParseStr(s);
    var (ownerId, s) :- ParseStr(s);
    var (bucketId, s) :- ParseStr(s);
    Parsed(BLANK.(lobbyId := lobbyId, ownerId := ownerId, bucketId := bucketId), s)
  }

  function ParseFlags(r: LobbyRecord, s: Bytes): Parse<LobbyRecord> {
    var (permission, s) :- ParseU8(s);
    var (invites, s) :- ParseFlag(s);
    var (migration, s) :- ParseFlag(s);
    var (rtc, s) :- ParseFlag(s);
    var (presence, s) :- ParseFlag(s);
    var (byId, s) :- ParseFlag(s);
    Parsed(r.(permission := permission, allowInvites := invites, allowHostMigration := migration,
              rtcRoomEnabled := rtc, presenceEnabled := presence, allowJoinById := byId), s)
  }

  function ParseSettings(r: LobbyRecord, s: Bytes): Parse<LobbyRecord> {
    var (maxMembers, s) :- ParseU32(s);
    var (r, s) :- ParseFlags(r, s);
    var (version, s) :- ParseU64(s);
    Parsed(r.(maxMembers := maxMembers, version := version), s)
  }

  function ParseLists(r: LobbyRecord, s: Bytes): Parse<LobbyRecord> {
    var (platforms, s) :- ParseCounted(ParseU32, s);
    var (attributes, s) :- ParseCounted(ParseAttr, s);
    var (members, s) :- ParseCounted(ParseMember, s);
    Parsed(r.(platforms := platforms, attributes := attributes, members := members), s)
  }

  function ParseLobby(s: Bytes): Parse<LobbyRecord> {
    var (r, s) :- ParseHead(s);
    var (r, s) :- ParseSettings(r, s);
    ParseLists(r, s)
  }

  // ---- round trip ----------------------------------------------------------------

  lemma MemberRoundTrip(m: Member, tail: Bytes)
    requires |PutMember(m)| < TWO_32
    ensures ParseMember(PutMember(m) + tail) == Parsed(CanonMember(m), tail)
  {
    var attrs := PutCounted(m.attributes, PutAttr);
    assert PutMember(m) + tail == PutStr(m.id) + (PutU32(m.platform) + (attrs + tail));
    StrRoundTrip(m.id, PutU32(m.platform) + (attrs + tail));
    U32RoundTrip(m.platform, attrs + tail);
    AttrsRoundTrip(m.attributes, tail);
  }

  lemma MembersRoundTrip(xs: seq<Member>, tail: Bytes)
    requires |PutCounted(xs, PutMember)| < TWO_32
    ensures ParseCounted(ParseMember, PutCounted(xs, PutMember) + tail) == Parsed(MapSeq(xs, CanonMember), tail)
  {
    ListFits(xs, PutMember);
    forall i | 0 <= i < |xs| ensures RoundTrips(xs[i], PutMember, ParseMember, CanonMember) {
      ElementFits(xs, i, PutMember);
      forall t ensures ParseMember(PutMember(xs[i]) + t) == Parsed(CanonMember(xs[i]), t) {
        MemberRoundTrip(xs[i], t);
      }
    }
    CountedRoundTrip(xs, PutMember, ParseMember, CanonMember, tail);
  }

  lemma HeadRoundTrip(r: LobbyRecord, tail: Bytes)
    requires |PutHead(r)| < TWO_32
    ensures ParseHead(PutHead(r) + tail)
         == Parsed(BLANK.(lobbyId := r.lobbyId, ownerId := r.ownerId, bucketId := r.bucketId), tail)
  {
    var s2 := PutStr(r.bucketId) + tail;
    var s1 := PutStr(r.ownerId) + s2;
    assert PutHead(r) + tail == PutStr(r.lobbyId) + s1;
    StrRoundTrip(r.lobbyId, s1);
    StrRoundTrip(r.ownerId, s2);
    StrRoundTrip(r.bucketId, tail);
  }

  function CanonFlags(r: LobbyRecord, blank: LobbyRecord): LobbyRecord {
    blank.(permission := r.permission, allowInvites := Truth(r.allowInvites),
           allowHostMigration := Truth(r.allowHostMigration), rtcRoomEnabled := Truth(r.rtcRoomEnabled),
           presenceEnabled := Truth(r.presenceEnabled), allowJoinById := Truth(r.allowJoinById))
  }

  lemma FlagsRoundTrip(r: LobbyRecord, blank: LobbyRecord, tail: Bytes)
    ensures ParseFlags(blank, PutFlags(r) + tail) == Parsed(CanonFlags(r, blank), tail)
  {
    var s := PutFlags(r) + tail;
    assert s[1..][1..][1..][1..][1..][1..] == tail;
  }

  lemma SettingsRoundTrip(r: LobbyRecord, blank: LobbyRecord, tail: Bytes)
    ensures ParseSettings(blank, PutSettings(r) + tail)
         == Parsed(CanonFlags(r, blank).(maxMembers := r.maxMembers, version := r.version), tail)
  {
    var version := PutU64(r.version);
    Assoc(PutU32(r.maxMembers), PutFlags(r) + version, tail);
    Assoc(PutFlags(r), version, tail);
    U32RoundTrip(r.maxMembers, PutFlags(r) + (version + tail));
    FlagsRoundTrip(r, blank, version + tail);
    U64RoundTrip(r.version, tail);
  }

  lemma ListsRoundTrip(r: LobbyRecord, blank: LobbyRecord, tail: Bytes)
    requires |PutLists(r)| < TWO_32
    ensures ParseLists(blank, PutLists(r) + tail)
         == Parsed(blank.(platforms := r.platforms, attributes := MapSeq(r.attributes, CanonAttr),
                          members := MapSeq(r.members, CanonMember)), tail)
  {
    var platforms, attributes, members :=
      PutCounted(r.platforms, PutU32), PutCounted(r.attributes, PutAttr), PutCounted(r.members, PutMember);
    Assoc(platforms, attributes + members, tail);
    Assoc(attributes, members, tail);
    U32sRoundTrip(r.platforms, attributes + (members + tail));
    AttrsRoundTrip(r.attributes, members + tail);
    MembersRoundTrip(r.members, tail);
  }

  /** Decoding an encoded record gives back every field that travels, and consumes
      exactly the encoding. */
  lemma LobbyRoundTrip(r: LobbyRecord, tail: Bytes)
    requires |PutLobby(r)| < TWO_32
    ensures ParseLobby(PutLobby(r) + tail) == Parsed(CanonRecord(r), tail)
  {
    Assoc(PutHead(r), PutSettings(r) + PutLists(r), tail);
    Assoc(PutSettings(r), PutLists(r), tail);
    var head := BLANK.(lobbyId := r.lobbyId, ownerId := r.ownerId, bucketId := r.bucketId);
    var fixed := CanonFlags(r, head).(maxMembers := r.maxMembers, version := r.version);
    HeadRoundTrip(r, PutSettings(r) + (PutLists(r) + tail));
    SettingsRoundTrip(r, head, PutLists(r) + tail);
    ListsRoundTrip(r, fixed, tail);
  }

  lemma CanonMemberIdempotent(m: Member)
    ensures CanonMember(CanonMember(m)) == CanonMember(m)
  {
    CanonAttrsIdempotent(m.attributes);
  }

  /** Travelling a second time changes nothing more. */
  lemma CanonRecordIdempotent(r: LobbyRecord)
    ensures CanonRecord(CanonRecord(r)) == CanonRecord(r)
  {
    CanonAttrsIdempotent(r.attributes);
    var once := MapSeq(r.members, CanonMember);
    forall i | 0 <= i < |once| ensures CanonMember(once[i]) == once[i] {
      CanonMemberIdempotent(r.members[i]);
      assert once[i] == CanonMember(r.members[i]);
    }
    assert MapSeq(once, CanonMember) == once;
  }

  // ---- cuts -----------------------------------------------------------------------

  lemma MemberStable(s: Bytes, more: Bytes)
    ensures StableAt(ParseMember, s, more)
  {
    StrStable(s, more);
    if ParseStr(s).Parsed? {
      var s1 := ParseStr(s).rest;
      PrimitivesStable(s1, more);
      if ParseU32(s1).Parsed? {
        AttrsStable(ParseU32(s1).rest, more);
      }
    }
  }

  lemma HeadStable(s: Bytes, more: Bytes)
    ensures StableAt(ParseHead, s, more)
  {
    StrStable(s, more);
    if ParseStr(s).Parsed? {
      var s1 := ParseStr(s).rest;
      StrStable(s1, more);
      if ParseStr(s1).Parsed? {
        StrStable(ParseStr(s1).rest, more);
      }
    }
  }

  lemma FlagsStable(r: LobbyRecord, s: Bytes, more: Bytes)
    ensures ParseFlags(r, s).Parsed? ==>
              ParseFlags(r, s + more) == Parsed(ParseFlags(r, s).value, ParseFlags(r, s).rest + more)
  {
    if ParseFlags(r, s).Parsed? {
      PrimitivesStable(s, more);
      var s2 := ParseU8(s).rest;
      FlagStable(s2, more);
      var s3 := ParseFlag(s2).rest;
      FlagStable(s3, more);
      var s4 := ParseFlag(s3).rest;
      FlagStable(s4, more);
      var s5 := ParseFlag(s4).rest;
      FlagStable(s5, more);
      FlagStable(ParseFlag(s5).rest, more);
    }
  }

  lemma SettingsStable(r: LobbyRecord, s: Bytes, more: Bytes)
    ensures ParseSettings(r, s).Parsed? ==>
              ParseSettings(r, s + more) == Parsed(ParseSettings(r, s).value, ParseSettings(r, s).rest + more)
  {
    if ParseSettings(r, s).Parsed? {
      PrimitivesStable(s, more);
      var s1 := ParseU32(s).rest;
      FlagsStable(r, s1, more);
      PrimitivesStable(ParseFlags(r, s1).rest, more);
    }
  }

  lemma ListsStable(r: LobbyRecord, s: Bytes, more: Bytes)
    ensures ParseLists(r, s).Parsed? ==>
              ParseLists(r, s + more) == Parsed(ParseLists(r, s).value, ParseLists(r, s).rest + more)
  {
    if ParseLists(r, s).Parsed? {
      forall t, m ensures StableAt(ParseU32, t, m) { PrimitivesStable(t, m); }
      CountedStable(ParseU32, s, more);
      var s1 := ParseCounted(ParseU32, s).rest;
      AttrsStable(s1, more);
      forall t, m ensures StableAt(ParseMember, t, m) { MemberStable(t, m); }
      CountedStable(ParseMember, ParseCounted(ParseAttr, s1).rest, more);
    }
  }

  lemma LobbyStable(s: Bytes, more: Bytes)
    ensures StableAt(ParseLobby, s, more)
  {
    if ParseLobby(s).Parsed? {
      HeadStable(s, more);
      var r, s1 := ParseHead(s).value, ParseHead(s).rest;
      SettingsStable(r, s1, more);
      ListsStable(ParseSettings(r, s1).value, ParseSettings(r, s1).rest, more);
    }
  }

  /** Every strict prefix of an encoded record is rejected. */
  lemma CutLobbyIsRejected(r: LobbyRecord, n: nat)
    requires |PutLobby(r)| < TWO_32 && n < |PutLobby(r)|
    ensures ParseLobby(PutLobby(r)[..n]).Fail?
  {
    var whole := PutLobby(r);
    LobbyRoundTrip(r, []);
    assert whole + [] == whole;
    LobbyStable(whole[..n], whole[n..]);
    CutIsRejected(ParseLobby, whole, n);
  }

  // ---- what a broadcast puts on the network ------------------------------------------

  const MAX_PAYLOAD: nat := 16384 - 16

  /** A broadcast takes the buffer's size truncated to 16 bits and drops what is then
      over the datagram cap. */
  function Broadcast(payload: Bytes): Option<Bytes> {
    var len := |payload| % 0x1_0000;
    if len > MAX_PAYLOAD then None else Some(payload[..len])
  }

  /** An announce is all or nothing, whatever the record's size: a record within the cap
      arrives whole, and of a larger one a receiver gets nothing or something it rejects. */
  lemma AnnounceIsExactOrRejected(r: LobbyRecord)
    requires |PutLobby(r)| < TWO_32
    ensures |PutLobby(r)| <= MAX_PAYLOAD ==>
              Broadcast(PutLobby(r)).Some? && ParseLobby(Broadcast(PutLobby(r)).value) == Parsed(CanonRecord(r), [])
    ensures |PutLobby(r)| > MAX_PAYLOAD && Broadcast(PutLobby(r)).Some? ==>
              ParseLobby(Broadcast(PutLobby(r)).value).Fail?
  {
    var whole := PutLobby(r);
    BroadcastCuts(whole);
    if |whole| <= MAX_PAYLOAD {
      LobbyRoundTrip(r, []);
      assert whole + [] == whole;
    } else if Broadcast(whole).Some? {
      CutLobbyIsRejected(r, |Broadcast(whole).value|);
    }
  }

  lemma BroadcastCuts(whole: Bytes)
    ensures |whole| <= MAX_PAYLOAD ==> Broadcast(whole) == Some(whole)
    ensures |whole| > MAX_PAYLOAD && Broadcast(whole).Some? ==>
              var n := |Broadcast(whole).value|; n < |whole| && Broadcast(whole).value == whole[..n]
  {
    assert whole[..|whole|] == whole;
  }

  // ---- writing and reading -------------------------------------------------------------

  method SerializeRecord(w: ByteWriter, r: LobbyRecord)
    modifies w
    ensures w.buf == old(w.buf) + PutLobby(r)
  {
    ghost var start := w.buf;
    WriteHead(w, r);
    WriteSettings(w, r);
    WriteLists(w, r);
    Assoc(start, PutHead(r), PutSettings(r));
    Assoc(start, PutHead(r) + PutSettings(r), PutLists(r));
    Assoc(PutHead(r), PutSettings(r), PutLists(r));
  }

  method WriteHead(w: ByteWriter, r: LobbyRecord)
    modifies w
    ensures w.buf == old(w.buf) + PutHead(r)
  {
    w.Str(r.lobbyId);
    w.Str(r.ownerId);
    w.Str(r.bucketId);
    assert w.buf == old(w.buf) + PutHead(r);
  }

  method WriteLists(w: ByteWriter, r: LobbyRecord)
    modifies w
    ensures w.buf == old(w.buf) + PutLists(r)
  {
    ghost var start := w.buf;
    ghost var platforms, attributes, members :=
      PutCounted(r.platforms, PutU32), PutCounted(r.attributes, PutAttr), PutCounted(r.members, PutMember);
    WriteU32s(w, r.platforms);
    WriteAttrs(w, r.attributes);
    WriteMembers(w, r.members);
    Assoc(start, platforms, attributes);
    Assoc(start, platforms + attributes, members);
    Assoc(platforms, attributes, members);
  }

  method WriteSettings(w: ByteWriter, r: LobbyRecord)
    modifies w
    ensures w.buf == old(w.buf) + PutSettings(r)
  {
    ghost var start := w.buf;
    w.U32(r.maxMembers);
    WriteFlags(w, r);
    w.U64(r.version);
    Assoc(start, PutU32(r.maxMembers), PutFlags(r));
    Assoc(start, PutU32(r.maxMembers) + PutFlags(r), PutU64(r.version));
    Assoc(PutU32(r.maxMembers), PutFlags(r), PutU64(r.version));
  }

  method WriteFlags(w: ByteWriter, r: LobbyRecord)
    modifies w
    ensures w.buf == old(w.buf) + PutFlags(r)
  {
    w.U8(r.permission);
    w.U8(Truth(r.allowInvites));
    w.U8(Truth(r.allowHostMigration));
    w.U8(Truth(r.rtcRoomEnabled));
    w.U8(Truth(r.presenceEnabled));
    w.U8(Truth(r.allowJoinById));
  }

  method WriteMembers(w: ByteWriter, xs: seq<Member>)
    modifies w
    ensures w.buf == old(w.buf) + PutCounted(xs, PutMember)
  {
    w.U32(|xs| % TWO_32);
    ghost var was, start := old(w.buf), w.buf;
    for i := 0 to |xs|
      invariant w.buf == start + PutList(xs[..i], PutMember)
    {
      PutListSnoc(xs, i, PutMember);
      ghost var done := PutList(xs[..i], PutMember);
      WriteMember(w, xs[i]);
      Assoc(start, done, PutMember(xs[i]));
    }
    assert xs[..|xs|] == xs;
    Assoc(was, PutU32(|xs| % TWO_32), PutList(xs, PutMember));
  }

  method WriteMember(w: ByteWriter, m: Member)
    modifies w
    ensures w.buf == old(w.buf) + PutMember(m)
  {
    ghost var start := w.buf;
    ghost var id, platform, attributes := PutStr(m.id), PutU32(m.platform), PutCounted(m.attributes, PutAttr);
    w.Str(m.id);
    w.U32(m.platform);
    WriteAttrs(w, m.attributes);
    Assoc(start, id, platform);
    Assoc(start, id + platform, attributes);
    Assoc(id, platform, attributes);
  }

  /** Accepts exactly what the grammar accepts, whatever the counts claim. */
  method DeserializeRecord(r: ByteReader) returns (ok: bool, out: LobbyRecord)
    requires r.Valid()
    modifies r
    ensures r.Valid() && ok == r.ok
    ensures Follows(old(r.View()), r.View(), ParseLobby, out)
  {
    out := ReadHead(r);
    out := ReadSettings(r, out);
    out := ReadLists(r, out);
    ok := r.ok;
  }

  method ReadHead(r: ByteReader) returns (out: LobbyRecord)
    requires r.Valid()
    modifies r
    ensures r.Valid() && Follows(old(r.View()), r.View(), ParseHead, out)
  {
    var lobbyId := r.Str();
    var ownerId := r.Str();
    var bucketId := r.Str();
    out := BLANK.(lobbyId := lobbyId, ownerId := ownerId, bucketId := bucketId);
  }

  method ReadLists(r: ByteReader, blank: LobbyRecord) returns (out: LobbyRecord)
    requires r.Valid()
    modifies r
    ensures r.Valid() && Follows(old(r.View()), r.View(), (s: Bytes) => ParseLists(blank, s), out)
    ensures |out.platforms| <= |r.data| && |out.attributes| <= |r.data| && |out.members| <= |r.data|
  {
    var platforms := ReadCountedU32s(r);
    var attributes := ReadCountedAttrs(r);
    var members := ReadCountedMembers(r);
    out := blank.(platforms := platforms, attributes := attributes, members := members);
  }

  method ReadCountedMembers(r: ByteReader) returns (xs: seq<Member>)
    requires r.Valid()
    modifies r
    ensures r.Valid() && |xs| <= |r.data|
    ensures Follows(old(r.View()), r.View(), (s: Bytes) => ParseCounted(ParseMember, s), xs)
  {
    var count := r.U32();
    xs := ReadMembers(r, count);
  }

  method ReadSettings(r: ByteReader, blank: LobbyRecord) returns (out: LobbyRecord)
    requires r.Valid()
    modifies r
    ensures r.Valid() && old(r.pos) <= r.pos
    ensures Follows(old(r.View()), r.View(), (s: Bytes) => ParseSettings(blank, s), out)
  {
    var maxMembers := r.U32();
    var flags := ReadFlags(r, blank);
    var version := r.U64();
    out := flags.(maxMembers := maxMembers, version := version);
  }

  method ReadFlags(r: ByteReader, blank: LobbyRecord) returns (out: LobbyRecord)
    requires r.Valid()
    modifies r
    ensures r.Valid() && old(r.pos) <= r.pos
    ensures Follows(old(r.View()), r.View(), (s: Bytes) => ParseFlags(blank, s), out)
  {
    var permission := r.U8();
    var invites := ReadFlag(r);
    var migration := ReadFlag(r);
    var rtc := ReadFlag(r);
    var presence := ReadFlag(r);
    var byId := ReadFlag(r);
    out := blank.(permission := permission, allowInvites := invites,
                  allowHostMigration := migration, rtcRoomEnabled := rtc, presenceEnabled := presence,
                  allowJoinById := byId);
  }

  method ReadMember(r: ByteReader) returns (m: Member)
    requires r.Valid()
    modifies r
    ensures r.Valid() && old(r.pos) <= r.pos && (r.ok ==> old(r.pos) < r.pos)
    ensures Follows(old(r.View()), r.View(), ParseMember, m)
  {
    var id := r.Str();
    var platform := r.U32();
    var attributes := ReadCountedAttrs(r);
    m := Member(id, platform, attributes);
  }

  method ReadMembers(r: ByteReader, n: U32) returns (xs: seq<Member>)
    requires r.Valid()
    modifies r
    ensures r.Valid() && ListOutcome(old(r.View()), r.View(), ParseMember, n, xs)
    ensures |xs| <= old(r.Remaining()) + 1 && (!old(r.ok) ==> xs == [])
  {
    xs := [];
    ProgressStarts(r.View(), ParseMember, n);
    while |xs| < n && r.ok
      invariant r.Valid() && ListProgress(old(r.View()), r.View(), ParseMember, n, xs)
      invariant |xs| + r.Remaining() <= old(r.Remaining()) + (if r.ok then 0 else 1)
      invariant !old(r.ok) ==> xs == [] && !r.ok
      decreases n - |xs|
    {
      ghost var before := r.View();
      var x := ReadMember(r);
      ProgressGrows(old(r.View()), before, r.View(), ParseMember, n, xs, x);
      xs := xs + [x];
    }
    ProgressEnds(old(r.View()), r.View(), ParseMember, n, xs);
  }
}
