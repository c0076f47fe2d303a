/** One node of the lobby protocol: its cache of lobby records, the lobbies it belongs to
    and the lobbies it owns, with every local call and every datagram it handles. */
module LobbyNode {
  import opened Basics
  import opened ByteCodec
  import opened AttributeCodec
  import opened LobbyCodec
  import opened AttrLists

  const PLATFORM_EPIC: U32 := 100

  const LMS_JOINED: Byte := 0
  const LMS_LEFT: Byte := 1
  const LMS_DISCONNECTED: Byte := 2
  const LMS_KICKED: Byte := 3
  const LMS_PROMOTED: Byte := 4
  const LMS_CLOSED: Byte := 5

  datatype NodeState = NodeState(me: Bytes, known: map<Bytes, LobbyRecord>, memberOf: set<Bytes>, owned: set<Bytes>)

  datatype Msg =
    | Announce(record: LobbyRecord)
    | Update(lobbyId: Bytes, member: Bytes, adds: seq<NamedAttr>, removes: seq<Bytes>)
    | JoinRequest(lobbyId: Bytes, joiner: Bytes)
    | Leave(lobbyId: Bytes, subject: Bytes, reason: Byte)

  datatype Outgoing = ToAll(msg: Msg) | ToHost(host: Endpoint, msg: Msg)

  /** Notifications about a lobby, in the order they are posted. */
  datatype Event =
    | LobbyUpdated(lobbyId: Bytes)
    | MemberUpdated(lobbyId: Bytes, member: Bytes)
    | MemberStatus(lobbyId: Bytes, member: Bytes, status: Byte)

  datatype Code = Success | NotFound | NotOwner

  datatype Outcome = Outcome(state: NodeState, code: Code, out: seq<Outgoing>, events: seq<Event>)

  function Quiet(s: NodeState, code: Code): Outcome {
    Outcome(s, code, [], [])
  }

  // ---- records -------------------------------------------------------------------

  function FirstMember(ms: seq<Member>, id: Bytes): (i: nat)
    ensures i <= |ms|
    ensures i < |ms| ==> ms[i].id == id
    ensures forall j :: 0 <= j < i ==> ms[j].id != id
  {
    if ms == [] || ms[0].id == id then 0 else 1 + FirstMember(ms[1..], id)
  }

  predicate HasMember(r: LobbyRecord, id: Bytes) {
    FirstMember(r.members, id) < |r.members|
  }

  function AvailableSlots(r: LobbyRecord): nat {
    if r.maxMembers > |r.members| then r.maxMembers - |r.members| else 0
  }

  function NewMember(id: Bytes): Member {
    Member(id, PLATFORM_EPIC, [])
  }

  function WithMember(r: LobbyRecord, id: Bytes): LobbyRecord {
    if HasMember(r, id) then r else r.(members := r.members + [NewMember(id)])
  }

  /** Drops the first entry for this member, if there is one. */
  function WithoutMember(r: LobbyRecord, id: Bytes): LobbyRecord {
    var i := FirstMember(r.members, id);
    if i < |r.members| then r.(members := r.members[..i] + r.members[i + 1..]) else r
  }

  /** The version counter has 64 bits. */
  function Bumped(r: LobbyRecord): LobbyRecord {
    r.(version := (r.version + 1) % TWO_64)
  }

  ghost function WithMemberAttrs(r: LobbyRecord, id: Bytes, adds: seq<NamedAttr>, removes: seq<Bytes>): LobbyRecord {
    var i := FirstMember(r.members, id);
    if i < |r.members| then
      r.(members := r.members[i := r.members[i].(attributes := Merge(r.members[i].attributes, adds, removes))])
    else r
  }

  predicate Reachable(e: Endpoint) {
    e.ip != 0 && e.port != 0
  }

  /** Broadcasting a record: what receivers will decode (LobbyCodec.AnnounceIsExactOrRejected). */
  function AnnounceOf(r: LobbyRecord): Outgoing {
    ToAll(Announce(CanonRecord(r)))
  }

  // ---- local calls -----------------------------------------------------------------

  datatype CreateOptions = CreateOptions(
    maxMembers: U32, permission: Byte, allowInvites: int, presenceEnabled: int, allowHostMigration: int,
    rtcRoomEnabled: int, bucketId: Bytes)

  function Created(me: Bytes, id: Bytes, o: CreateOptions): LobbyRecord {
    LobbyRecord(id, me, o.bucketId, o.maxMembers, o.permission, o.allowInvites, o.allowHostMigration,
                o.rtcRoomEnabled, o.presenceEnabled, 0, 1, [], [], [NewMember(me)], NO_ENDPOINT, 0)
  }

  /** `id` is the newly minted lobby id. */
  ghost function DoCreate(s: NodeState, id: Bytes, o: CreateOptions): Outcome {
    var r := Created(s.me, id, o);
    Outcome(s.(known := s.known[id := r], memberOf := s.memberOf + {id}, owned := s.owned + {id}),
            Success, [AnnounceOf(r)], [])
  }

  ghost function Forget(s: NodeState, id: Bytes): NodeState {
    s.(known := s.known - {id}, memberOf := s.memberOf - {id}, owned := s.owned - {id})
  }

  ghost function DoDestroy(s: NodeState, id: Bytes): Outcome {
    if id !in s.owned then Quiet(s, NotFound)
    else Outcome(Forget(s, id), Success, [ToAll(Leave(id, s.me, LMS_CLOSED))], [])
  }

  /** Joining through a details handle that holds a copy of the record. */
  ghost function DoJoin(s: NodeState, handle: LobbyRecord): Outcome {
    var id := handle.lobbyId;
    var stored := if id in s.known && s.known[id].lobbyId != [] then s.known[id] else handle;
    Outcome(s.(known := s.known[id := WithMember(stored, s.me)], memberOf := s.memberOf + {id}), Success,
            if Reachable(handle.host) then [ToHost(handle.host, JoinRequest(id, s.me))] else [], [])
  }

  ghost function DoJoinById(s: NodeState, id: Bytes): Outcome {
    if id !in s.known then Quiet(s, NotFound)
    else
      var r := s.known[id];
      Outcome(s.(known := s.known[id := WithMember(r, s.me)], memberOf := s.memberOf + {id}), Success,
              if Reachable(r.host) then [ToHost(r.host, JoinRequest(id, s.me))] else [], [])
  }

  /** Leaving; an owner that allows it hands the lobby to the first remaining member. */
  ghost function DoLeave(s: NodeState, id: Bytes): Outcome {
    if id !in s.known || id !in s.memberOf then Quiet(s, NotFound)
    else
      var r := WithoutMember(s.known[id], s.me);
      var left := s.(memberOf := s.memberOf - {id}, owned := s.owned - {id});
      var goodbye := ToAll(Leave(id, s.me, LMS_LEFT));
      if id in s.owned && r.allowHostMigration != 0 && r.members != [] then
        var handed := Bumped(r.(ownerId := r.members[0].id));
        Outcome(left.(known := s.known[id := handed]), Success, [goodbye, AnnounceOf(handed)], [])
      else
        Outcome(left.(known := s.known - {id}), Success, [goodbye], [])
  }

  datatype Modification = Modification(
    lobbyId: Bytes, bucketId: Option<Bytes>, permission: Option<Byte>, maxMembers: Option<U32>,
    allowInvites: Option<int>, platforms: Option<seq<U32>>,
    addAttrs: seq<NamedAttr>, removeAttrs: seq<Bytes>,
    addMemberAttrs: seq<NamedAttr>, removeMemberAttrs: seq<Bytes>)

  function GetOr<T>(o: Option<T>, default: T): T {
    if o.Some? then o.value else default
  }

  predicate LobbyScoped(m: Modification) {
    || m.bucketId.Some? || m.permission.Some? || m.maxMembers.Some? || m.allowInvites.Some? || m.platforms.Some?
    || m.addAttrs != [] || m.removeAttrs != []
  }

  ghost function Modified(r: LobbyRecord, m: Modification, me: Bytes): LobbyRecord {
    WithMemberAttrs(
      r.(bucketId := GetOr(m.bucketId, r.bucketId), permission := GetOr(m.permission, r.permission),
         maxMembers := GetOr(m.maxMembers, r.maxMembers), allowInvites := GetOr(m.allowInvites, r.allowInvites),
         platforms := GetOr(m.platforms, r.platforms),
         attributes := Merge(r.attributes, m.addAttrs, m.removeAttrs)),
      me, m.addMemberAttrs, m.removeMemberAttrs)
  }

  /** The member's part of a modification, as the owner will decode it
      (AttributeCodec.AttrRoundTrip). */
  function UpdateOf(id: Bytes, me: Bytes, m: Modification): Msg {
    Update(id, me, MapSeq(m.addMemberAttrs, CanonAttr), m.removeMemberAttrs)
  }

  ghost function DoUpdate(s: NodeState, m: Modification): Outcome {
    var id := m.lobbyId;
    if id !in s.known then Quiet(s, NotFound)
    else if id in s.owned then
      var r := Bumped(Modified(s.known[id], m, s.me));
      Outcome(s.(known := s.known[id := r]), Success, [AnnounceOf(r)], [])
    else if LobbyScoped(m) then Quiet(s, NotOwner)
    else if id in s.memberOf then
      var r := s.known[id];
      Outcome(s.(known := s.known[id := WithMemberAttrs(r, s.me, m.addMemberAttrs, m.removeMemberAttrs)]), Success,
              if Reachable(r.host) then [ToHost(r.host, UpdateOf(id, s.me, m))] else [], [])
    else Quiet(s, NotFound)
  }

  ghost function DoPromote(s: NodeState, id: Bytes, target: Bytes): Outcome {
    if id !in s.known || id !in s.owned || !HasMember(s.known[id], target) then Quiet(s, NotFound)
    else
      var r := Bumped(s.known[id].(ownerId := target));
      Outcome(s.(known := s.known[id := r], owned := s.owned - {id}), Success, [AnnounceOf(r)], [])
  }

  ghost function DoKick(s: NodeState, id: Bytes, target: Bytes): Outcome {
    if id !in s.known || id !in s.owned then Quiet(s, NotFound)
    else
      var r := Bumped(WithoutMember(s.known[id], target));
      Outcome(s.(known := s.known[id := r]), Success,
              [ToAll(Leave(id, target, LMS_KICKED)), AnnounceOf(r)], [])
  }

  // ---- datagrams -------------------------------------------------------------------

  /** The ids of members of `xs` that `ys` does not have. */
  function Missing(xs: seq<Member>, ys: seq<Member>): seq<Bytes> {
    if xs == [] then []
    else (if FirstMember(ys, xs[0].id) < |ys| then [] else [xs[0].id]) + Missing(xs[1..], ys)
  }

  /** The ids of members of `xs` whose attributes differ from those `ys` has for them. */
  ghost function Changed(xs: seq<Member>, ys: seq<Member>): seq<Bytes> {
    if xs == [] then []
    else (if IsChanged(xs[0], ys) then [xs[0].id] else []) + Changed(xs[1..], ys)
  }

  ghost predicate IsChanged(x: Member, ys: seq<Member>) {
    var j := FirstMember(ys, x.id);
    j < |ys| && !SameAttrs(ys[j].attributes, x.attributes)
  }

  ghost function StatusEvents(id: Bytes, pids: seq<Bytes>, status: Byte): seq<Event> {
    seq(|pids|, i requires 0 <= i < |pids| => MemberStatus(id, pids[i], status))
  }

  ghost function UpdateEvents(id: Bytes, pids: seq<Bytes>): seq<Event> {
    seq(|pids|, i requires 0 <= i < |pids| => MemberUpdated(id, pids[i]))
  }

  /** What a member is told when a newer record replaces the one it had. */
  ghost function DiffEvents(was: LobbyRecord, latest: LobbyRecord): seq<Event> {
    var id := latest.lobbyId;
    (if latest.version != was.version then [LobbyUpdated(id)] else [])
    + StatusEvents(id, Missing(latest.members, was.members), LMS_JOINED)
    + StatusEvents(id, Missing(was.members, latest.members), LMS_LEFT)
    + UpdateEvents(id, Changed(latest.members, was.members))
    + (if was.ownerId != latest.ownerId && latest.ownerId != [] then [MemberStatus(id, latest.ownerId, LMS_PROMOTED)]
        else [])
  }

  ghost function OnAnnounce(s: NodeState, record: LobbyRecord, from: Endpoint, tick: nat): Outcome {
    var id := record.lobbyId;
    if id == [] || id in s.owned then Quiet(s, Success)
    else
      var latest := record.(host := from, lastSeen := tick);
      var adopt := id in s.memberOf && latest.ownerId == s.me;
      Outcome(s.(known := s.known[id := latest], owned := if adopt then s.owned + {id} else s.owned), Success, [],
              if id in s.known && id in s.memberOf then DiffEvents(s.known[id], latest) else [])
  }

  ghost function OnUpdate(s: NodeState, id: Bytes, member: Bytes, adds: seq<NamedAttr>, removes: seq<Bytes>): Outcome {
    if id !in s.known || id !in s.owned || !HasMember(s.known[id], member) then Quiet(s, Success)
    else
      var r := Bumped(WithMemberAttrs(s.known[id], member, adds, removes));
      Outcome(s.(known := s.known[id := r]), Success, [AnnounceOf(r)], [MemberUpdated(id, member)])
  }

  ghost function OnJoinRequest(s: NodeState, id: Bytes, joiner: Bytes): Outcome {
    if id !in s.known || id !in s.owned || HasMember(s.known[id], joiner) || AvailableSlots(s.known[id]) == 0 then
      Quiet(s, Success)
    else
      var r := Bumped(WithMember(s.known[id], joiner));
      Outcome(s.(known := s.known[id := r]), Success, [AnnounceOf(r)], [MemberStatus(id, joiner, LMS_JOINED)])
  }

  ghost function OnLeave(s: NodeState, id: Bytes, subject: Bytes, reason: Byte): Outcome {
    if id !in s.known then Quiet(s, Success)
    else
      var events := if id in s.memberOf then [MemberStatus(id, subject, reason)] else [];
      if reason == LMS_CLOSED then Outcome(Forget(s, id), Success, [], events)
      else
        var removed := WithoutMember(s.known[id], subject);
        var r := if id in s.owned then Bumped(removed) else removed;
        Outcome(s.(known := s.known[id := r], memberOf := if subject == s.me then s.memberOf - {id} else s.memberOf),
                Success, if id in s.owned then [AnnounceOf(r)] else [], events)
  }

  ghost function OnMsg(s: NodeState, msg: Msg, from: Endpoint, tick: nat): Outcome {
    match msg
    case Announce(record) => OnAnnounce(s, record, from, tick)
    case Update(id, member, adds, removes) => OnUpdate(s, id, member, adds, removes)
    case JoinRequest(id, joiner) => OnJoinRequest(s, id, joiner)
    case Leave(id, subject, reason) => OnLeave(s, id, subject, reason)
  }

  // ---- the node object ---------------------------------------------------------------

  method FindMember(ms: seq<Member>, id: Bytes) returns (i: nat)
    ensures i == FirstMember(ms, id)
  {
    i := 0;
    while i < |ms| && ms[i].id != id
      invariant 0 <= i <= FirstMember(ms, id)
    {
      i := i + 1;
    }
  }

  method EraseMember(r: LobbyRecord, id: Bytes) returns (r': LobbyRecord)
    ensures r' == WithoutMember(r, id)
  {
    var i := FindMember(r.members, id);
    r' := if i < |r.members| then r.(members := r.members[..i] + r.members[i + 1..]) else r;
  }

  method MergeMember(r: LobbyRecord, id: Bytes, adds: seq<NamedAttr>, removes: seq<Bytes>) returns (r': LobbyRecord)
    ensures r' == WithMemberAttrs(r, id, adds, removes)
  {
    var i := FindMember(r.members, id);
    r' := r;
    if i < |r.members| {
      var attributes := ApplyAttrs(r.members[i].attributes, adds, removes);
      r' := r.(members := r.members[i := r.members[i].(attributes := attributes)]);
    }
  }

  lemma Reassociate(a: seq<Bytes>, b: seq<Bytes>, c: seq<Bytes>)
    ensures (a + b) + c == a + (b + c)
  {
  }

  lemma MissingOfConcat(a: seq<Member>, b: seq<Member>, ys: seq<Member>)
    ensures Missing(a + b, ys) == Missing(a, ys) + Missing(b, ys)
  {
    if a == [] {
      assert a + b == b;
    } else {
      assert (a + b)[1..] == a[1..] + b && (a + b)[0] == a[0];
      MissingOfConcat(a[1..], b, ys);
      Reassociate(if FirstMember(ys, a[0].id) < |ys| then [] else [a[0].id], Missing(a[1..], ys), Missing(b, ys));
    }
  }

  lemma ChangedOfConcat(a: seq<Member>, b: seq<Member>, ys: seq<Member>)
    ensures Changed(a + b, ys) == Changed(a, ys) + Changed(b, ys)
  {
    if a == [] {
      assert a + b == b;
    } else {
      assert (a + b)[1..] == a[1..] + b && (a + b)[0] == a[0];
      ChangedOfConcat(a[1..], b, ys);
      Reassociate(if !IsChanged(a[0], ys) then [] else [a[0].id], Changed(a[1..], ys), Changed(b, ys));
    }
  }

  method FindMissing(xs: seq<Member>, ys: seq<Member>) returns (ids: seq<Bytes>)
    ensures ids == Missing(xs, ys)
  {
    ids := [];
    for i := 0 to |xs|
      invariant ids == Missing(xs[..i], ys)
    {
      assert xs[..i + 1] == xs[..i] + [xs[i]];
      MissingOfConcat(xs[..i], [xs[i]], ys);
      var j := FindMember(ys, xs[i].id);
      if j == |ys| {
        ids := ids + [xs[i].id];
      }
    }
    assert xs[..|xs|] == xs;
  }

  method FindChanged(xs: seq<Member>, ys: seq<Member>) returns (ids: seq<Bytes>)
    ensures ids == Changed(xs, ys)
  {
    ids := [];
    for i := 0 to |xs|
      invariant ids == Changed(xs[..i], ys)
    {
      assert xs[..i + 1] == xs[..i] + [xs[i]];
      ChangedOfConcat(xs[..i], [xs[i]], ys);
      var j := FindMember(ys, xs[i].id);
      if j < |ys| {
        var same := MemberAttrsEqual(ys[j].attributes, xs[i].attributes);
        if !same {
          ids := ids + [xs[i].id];
        }
      }
    }
    assert xs[..|xs|] == xs;
  }

  class Lobby {
    const me: Bytes
    var known: map<Bytes, LobbyRecord>
    var memberOf: set<Bytes>
    var owned: set<Bytes>

    ghost function State(): NodeState
      reads this
    {
      NodeState(me, known, memberOf, owned)
    }

    /** The call ended as the outcome says. */
    ghost predicate Did(o: Outcome, out: seq<Outgoing>, events: seq<Event>)
      reads this
    {
      State() == o.state && out == o.out && events == o.events
    }

    constructor (me: Bytes)
      ensures State() == NodeState(me, map[], {}, {})
    {
      this.me := me;
      known, memberOf, owned := map[], {}, {};
    }

    method CreateLobby(id: Bytes, o: CreateOptions) returns (code: Code, out: seq<Outgoing>)
      modifies this
      ensures Did(DoCreate(old(State()), id, o), out, []) && code == Success
    {
      var r := BLANK.(lobbyId := id, ownerId := me, bucketId := o.bucketId, maxMembers := o.maxMembers,
                      permission := o.permission, allowInvites := o.allowInvites,
                      allowHostMigration := o.allowHostMigration, rtcRoomEnabled := o.rtcRoomEnabled,
                      presenceEnabled := o.presenceEnabled, version := 1);
      r := r.(members := [NewMember(me)]);
      known := known[id := r];
      memberOf := memberOf + {id};
      owned := owned + {id};
      return Success, [AnnounceOf(r)];
    }

    method DestroyLobby(id: Bytes) returns (code: Code, out: seq<Outgoing>)
      modifies this
      ensures Did(DoDestroy(old(State()), id), out, []) && code == DoDestroy(old(State()), id).code
    {
      if id !in owned {
        return NotFound, [];
      }
      known, memberOf, owned := known - {id}, memberOf - {id}, owned - {id};
      return Success, [ToAll(Leave(id, me, LMS_CLOSED))];
    }

    method JoinLobby(handle: LobbyRecord) returns (code: Code, out: seq<Outgoing>)
      modifies this
      ensures Did(DoJoin(old(State()), handle), out, []) && code == Success
    {
      var id := handle.lobbyId;
      var stored := if id in known then known[id] else BLANK;
      if stored.lobbyId == [] {
        stored := handle;
      }
      var i := FindMember(stored.members, me);
      if i == |stored.members| {
        stored := stored.(members := stored.members + [NewMember(me)]);
      }
      known := known[id := stored];
      memberOf := memberOf + {id};
      out := if Reachable(handle.host) then [ToHost(handle.host, JoinRequest(id, me))] else [];
      return Success, out;
    }

    method JoinLobbyById(id: Bytes) returns (code: Code, out: seq<Outgoing>)
      modifies this
      ensures Did(DoJoinById(old(State()), id), out, []) && code == DoJoinById(old(State()), id).code
    {
      if id !in known {
        return NotFound, [];
      }
      var r := known[id];
      var i := FindMember(r.members, me);
      if i == |r.members| {
        r := r.(members := r.members + [NewMember(me)]);
      }
      known := known[id := r];
      memberOf := memberOf + {id};
      out := if Reachable(r.host) then [ToHost(r.host, JoinRequest(id, me))] else [];
      return Success, out;
    }

    method LeaveLobby(id: Bytes) returns (code: Code, out: seq<Outgoing>)
      modifies this
      ensures Did(DoLeave(old(State()), id), out, []) && code == DoLeave(old(State()), id).code
    {
      if id !in known || id !in memberOf {
        return NotFound, [];
      }
      var wasOwner := id in owned;
      var r := EraseMember(known[id], me);
      var reannounce := wasOwner && r.allowHostMigration != 0 && r.members != [];
      if reannounce {
        r := r.(ownerId := r.members[0].id);
        r := Bumped(r);
      }
      memberOf := memberOf - {id};
      owned := owned - {id};
      known := if reannounce then known[id := r] else known - {id};
      out := [ToAll(Leave(id, me, LMS_LEFT))];
      if reannounce {
        out := out + [AnnounceOf(r)];
      }
      return Success, out;
    }

    method UpdateLobby(m: Modification) returns (code: Code, out: seq<Outgoing>)
      modifies this
      ensures Did(DoUpdate(old(State()), m), out, []) && code == DoUpdate(old(State()), m).code
    {
      var id := m.lobbyId;
      if id !in known {
        return NotFound, [];
      }
      var r := known[id];
      if id in owned {
        r := ApplyModification(r, m);
        r := Bumped(r);
        known := known[id := r];
        return Success, [AnnounceOf(r)];
      }
      if LobbyScoped(m) {
        return NotOwner, [];
      }
      if id !in memberOf {
        return NotFound, [];
      }
      out := if Reachable(r.host) then [ToHost(r.host, UpdateOf(id, me, m))] else [];
      r := MergeMember(r, me, m.addMemberAttrs, m.removeMemberAttrs);
      known := known[id := r];
      return Success, out;
    }

    method ApplyModification(r: LobbyRecord, m: Modification) returns (r': LobbyRecord)
      ensures r' == Modified(r, m, me)
    {
      r' := r;
      if m.bucketId.Some? { r' := r'.(bucketId := m.bucketId.value); }
      if m.permission.Some? { r' := r'.(permission := m.permission.value); }
      if m.maxMembers.Some? { r' := r'.(maxMembers := m.maxMembers.value); }
      if m.allowInvites.Some? { r' := r'.(allowInvites := m.allowInvites.value); }
      if m.platforms.Some? { r' := r'.(platforms := m.platforms.value); }
      var attributes := ApplyAttrs(r'.attributes, m.addAttrs, m.removeAttrs);
      r' := r'.(attributes := attributes);
      if m.addMemberAttrs != [] || m.removeMemberAttrs != [] {
        r' := MergeMember(r', me, m.addMemberAttrs, m.removeMemberAttrs);
      }
    }

    method PromoteMember(id: Bytes, target: Bytes) returns (code: Code, out: seq<Outgoing>)
      modifies this
      ensures Did(DoPromote(old(State()), id, target), out, []) && code == DoPromote(old(State()), id, target).code
    {
      if id !in known || id !in owned {
        return NotFound, [];
      }
      var i := FindMember(known[id].members, target);
      if i == |known[id].members| {
        return NotFound, [];
      }
      var r := known[id].(ownerId := target);
      r := Bumped(r);
      known := known[id := r];
      owned := owned - {id};
      return Success, [AnnounceOf(r)];
    }

    method KickMember(id: Bytes, target: Bytes) returns (code: Code, out: seq<Outgoing>)
      modifies this
      ensures Did(DoKick(old(State()), id, target), out, []) && code == DoKick(old(State()), id, target).code
    {
      if id !in known || id !in owned {
        return NotFound, [];
      }
      var r := EraseMember(known[id], target);
      r := Bumped(r);
      known := known[id := r];
      return Success, [ToAll(Leave(id, target, LMS_KICKED)), AnnounceOf(r)];
    }

    /** These are the announces of the cached lobbies with these ids. */
    ghost predicate AnnouncesEach(out: seq<Outgoing>, ids: seq<Bytes>)
      reads this
    {
      |out| == |ids| && forall i :: 0 <= i < |ids| ==> ids[i] in known && out[i] == AnnounceOf(known[ids[i]])
    }

    /** Owners announce every lobby they own, once. */
    method PeriodicAnnounce() returns (out: seq<Outgoing>)
      ensures exists ids: seq<Bytes> ::
        NoDuplicates(ids) && Elements(ids) == owned * known.Keys && AnnouncesEach(out, ids)
    {
      out := [];
      ghost var ids: seq<Bytes> := [];
      var left := owned;
      while left != {}
        invariant left <= owned
        invariant NoDuplicates(ids) && Elements(ids) == (owned - left) * known.Keys && AnnouncesEach(out, ids)
        decreases left
      {
        var id :| id in left;
        assert id !in Elements(ids);
        assert owned - (left - {id}) == (owned - left) + {id};
        if id in known {
          out := out + [AnnounceOf(known[id])];
          assert Elements(ids + [id]) == Elements(ids) + {id};
          ids := ids + [id];
        }
        left := left - {id};
      }
      assert owned - left == owned;
    }

    method HandleAnnounce(record: LobbyRecord, from: Endpoint, tick: nat)
      returns (out: seq<Outgoing>, events: seq<Event>)
      modifies this
      ensures Did(OnAnnounce(old(State()), record, from, tick), out, events)
    {
      out, events := [], [];
      var id := record.lobbyId;
      if id == [] || id in owned {
        return;
      }
      var latest := record.(host := from, lastSeen := tick);
      var amMember := id in memberOf;
      if id in known && amMember {
        events := Diff(known[id], latest);
      }
      known := known[id := latest];
      if amMember && latest.ownerId == me {
        owned := owned + {id};
      }
    }

    method Diff(was: LobbyRecord, latest: LobbyRecord) returns (events: seq<Event>)
      ensures events == DiffEvents(was, latest)
    {
      var id := latest.lobbyId;
      var joined := FindMissing(latest.members, was.members);
      var left := FindMissing(was.members, latest.members);
      var changed := FindChanged(latest.members, was.members);
      events := if latest.version != was.version then [LobbyUpdated(id)] else [];
      var joinedEvents := PostStatus(id, joined, LMS_JOINED);
      var leftEvents := PostStatus(id, left, LMS_LEFT);
      var changedEvents := PostUpdates(id, changed);
      events := events + joinedEvents + leftEvents + changedEvents;
      if was.ownerId != latest.ownerId && latest.ownerId != [] {
        events := events + [MemberStatus(id, latest.ownerId, LMS_PROMOTED)];
      }
    }

    method PostStatus(id: Bytes, pids: seq<Bytes>, status: Byte) returns (events: seq<Event>)
      ensures events == StatusEvents(id, pids, status)
    {
      events := [];
      for i := 0 to |pids|
        invariant |events| == i && forall j :: 0 <= j < i ==> events[j] == MemberStatus(id, pids[j], status)
      {
        events := events + [MemberStatus(id, pids[i], status)];
      }
    }

    method PostUpdates(id: Bytes, pids: seq<Bytes>) returns (events: seq<Event>)
      ensures events == UpdateEvents(id, pids)
    {
      events := [];
      for i := 0 to |pids|
        invariant |events| == i && forall j :: 0 <= j < i ==> events[j] == MemberUpdated(id, pids[j])
      {
        events := events + [MemberUpdated(id, pids[i])];
      }
    }

    method HandleUpdate(id: Bytes, member: Bytes, adds: seq<NamedAttr>, removes: seq<Bytes>)
      returns (out: seq<Outgoing>, events: seq<Event>)
      modifies this
      ensures Did(OnUpdate(old(State()), id, member, adds, removes), out, events)
    {
      out, events := [], [];
      if id !in known || id !in owned {
        return;
      }
      var r := known[id];
      var i := FindMember(r.members, member);
      if i == |r.members| {
        return;
      }
      r := MergeMember(r, member, adds, removes);
      r := Bumped(r);
      known := known[id := r];
      return [AnnounceOf(r)], [MemberUpdated(id, member)];
    }

    method HandleJoinRequest(id: Bytes, joiner: Bytes) returns (out: seq<Outgoing>, events: seq<Event>)
      modifies this
      ensures Did(OnJoinRequest(old(State()), id, joiner), out, events)
    {
      out, events := [], [];
      if id in known && id in owned {
        var r := known[id];
        var i := FindMember(r.members, joiner);
        if i == |r.members| && AvailableSlots(r) > 0 {
          r := r.(members := r.members + [NewMember(joiner)]);
          r := Bumped(r);
          known := known[id := r];
          out := [AnnounceOf(r)];
          events := [MemberStatus(id, joiner, LMS_JOINED)];
        }
      }
    }

    method HandleLeave(id: Bytes, subject: Bytes, reason: Byte) returns (out: seq<Outgoing>, events: seq<Event>)
      modifies this
      ensures Did(OnLeave(old(State()), id, subject, reason), out, events)
    {
      out, events := [], [];
      if id !in known {
        return;
      }
      var amMember := id in memberOf;
      if reason == LMS_CLOSED {
        known, memberOf, owned := known - {id}, memberOf - {id}, owned - {id};
      } else {
        var r := EraseMember(known[id], subject);
        if id in owned {
          r := Bumped(r);
          out := [AnnounceOf(r)];
        }
        known := known[id := r];
        if subject == me {
          memberOf := memberOf - {id};
        }
      }
      if amMember {
        events := [MemberStatus(id, subject, reason)];
      }
    }

    /** An announce datagram: decoded, then handled; a payload that does not decode is
        dropped. */
    method OnAnnounceDatagram(payload: Bytes, from: Endpoint, tick: nat)
      returns (out: seq<Outgoing>, events: seq<Event>)
      modifies this
      ensures var p := ParseLobby(payload);
              Did(if p.Fail? then Quiet(old(State()), Success)
                  else OnAnnounce(old(State()), p.value, from, tick), out, events)
    {
      var r := new ByteReader(payload);
      var ok, record := DeserializeRecord(r);
      if !ok {
        return [], [];
      }
      out, events := HandleAnnounce(record, from, tick);
    }
  }
}
