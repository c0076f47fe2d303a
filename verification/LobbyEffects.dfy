/** What each lobby call does, in the terms a caller thinks in: who is on the roster, who owns
    the lobby, what its settings and attributes are, which datagrams go out, and what the
    nodes that take them are left with. */
module LobbyEffects {
  import opened Basics
  import opened ByteCodec
  import opened AttributeCodec
  import opened LobbyCodec
  import opened AttrLists
  import opened LobbyNode
  import opened LobbySystem
  import opened LobbyReplicas
  import opened LobbyEvents
  import opened LobbyAttributes

  /** Nothing about any other lobby has changed. */
  ghost predicate OthersKept(s: NodeState, t: NodeState, id: Bytes) {
    && t.me == s.me && t.memberOf - {id} == s.memberOf - {id} && t.owned - {id} == s.owned - {id}
    && forall l :: l != id ==> (l in t.known <==> l in s.known) && (l in s.known ==> t.known[l] == s.known[l])
  }

  /** Which indexes the node lists the lobby in. */
  ghost predicate Holds(s: NodeState, id: Bytes, known: bool, member: bool, owner: bool) {
    (id in s.known <==> known) && (id in s.memberOf <==> member) && (id in s.owned <==> owner)
  }

  /** Everything but roster, owner, attributes and version is the same. */
  ghost predicate SameSettings(r: LobbyRecord, q: LobbyRecord) {
    && q.lobbyId == r.lobbyId && q.bucketId == r.bucketId && q.maxMembers == r.maxMembers
    && q.permission == r.permission && q.allowInvites == r.allowInvites
    && q.allowHostMigration == r.allowHostMigration && q.rtcRoomEnabled == r.rtcRoomEnabled
    && q.presenceEnabled == r.presenceEnabled && q.allowJoinById == r.allowJoinById && q.platforms == r.platforms
  }

  /** The entries of everybody but this member are the same. */
  ghost predicate EntriesKept(r: LobbyRecord, q: LobbyRecord, p: Bytes) {
    forall m: Member :: m.id != p ==> (m in q.members <==> m in r.members)
  }

  // ---- the roster operations ---------------------------------------------------------------

  lemma RemovedEntry(r: LobbyRecord, p: Bytes)
    requires DistinctMembers(r.members)
    ensures var q := WithoutMember(r, p);
      && Ids(q.members) == Ids(r.members) - {p} && DistinctMembers(q.members)
      && EntriesKept(r, q, p) && !HasMember(q, p)
  {
    var q, i := WithoutMember(r, p), FirstMember(r.members, p);
    RemovalIsErase(r.members, p);
    FoundIffIn(r.members, p);
    if i < |r.members| { assert q.members == Dropped(r.members, i); }
    FoundIffIn(q.members, p);
    RemovalKeepsOthers(r, p);
  }

  lemma RemovalKeepsOthers(r: LobbyRecord, p: Bytes)
    ensures EntriesKept(r, WithoutMember(r, p), p)
  {
    var q, i := WithoutMember(r, p), FirstMember(r.members, p);
    forall m: Member | m.id != p && m in r.members ensures m in q.members {
      var j :| 0 <= j < |r.members| && r.members[j] == m;
      if i < |r.members| { assert m == if j < i then q.members[j] else q.members[j - 1]; }
    }
  }

  lemma AddedEntry(r: LobbyRecord, p: Bytes)
    ensures var q := WithMember(r, p);
      && Ids(q.members) == Ids(r.members) + {p} && HasMember(q, p) && EntriesKept(r, q, p)
      && (!HasMember(r, p) ==> |q.members| == |r.members| + 1 && q.members[|r.members|].attributes == [])
  {
    var q := WithMember(r, p);
    FoundIffIn(r.members, p);
    if !HasMember(r, p) { AppendedIds(r.members, NewMember(p)); }
    FoundIffIn(q.members, p);
  }

  lemma {:induction false} SameIds(xs: seq<Member>, ys: seq<Member>)
    requires |xs| == |ys| && forall i :: 0 <= i < |xs| ==> xs[i].id == ys[i].id
    ensures Ids(xs) == Ids(ys)
  {
    if xs != [] { SameIds(xs[1..], ys[1..]); }
  }

  // ---- what an announce carries ------------------------------------------------------------

  /** What a node has after taking the announce of a record: the same settings, owner, version
      and roster, and for the lobby and each member the attributes as they travel. */
  ghost predicate Carries(r: LobbyRecord, q: LobbyRecord) {
    && q.lobbyId == r.lobbyId && q.ownerId == r.ownerId && q.version == r.version && q.bucketId == r.bucketId
    && q.maxMembers == r.maxMembers && q.permission == r.permission && q.platforms == r.platforms
    && (q.allowInvites != 0 <==> r.allowInvites != 0) && (q.allowHostMigration != 0 <==> r.allowHostMigration != 0)
    && (q.rtcRoomEnabled != 0 <==> r.rtcRoomEnabled != 0) && (q.presenceEnabled != 0 <==> r.presenceEnabled != 0)
    && (q.allowJoinById != 0 <==> r.allowJoinById != 0)
    && ToMap(q.attributes) == CanonMap(ToMap(r.attributes))
    && |q.members| == |r.members| && Ids(q.members) == Ids(r.members)
    && forall i :: 0 <= i < |r.members| ==>
         && q.members[i].id == r.members[i].id && q.members[i].platform == r.members[i].platform
         && ToMap(q.members[i].attributes) == CanonMap(ToMap(r.members[i].attributes))
  }

  lemma CanonCarries(r: LobbyRecord)
    ensures Carries(r, CanonRecord(r))
  {
    var q := CanonRecord(r);
    CanonKeepsMap(r.attributes);
    forall i | 0 <= i < |r.members|
      ensures q.members[i].id == r.members[i].id && q.members[i].platform == r.members[i].platform
      ensures ToMap(q.members[i].attributes) == CanonMap(ToMap(r.members[i].attributes))
    {
      assert q.members[i] == CanonMember(r.members[i]);
      CanonKeepsMap(r.members[i].attributes);
    }
    SameIds(q.members, r.members);
  }

  /** A node that does not own the lobby and takes an announce of it has what it carries, and
      owns the lobby from then on exactly if it belongs to it and is named. */
  lemma AnnounceTaken(t: NodeState, r: LobbyRecord, source: Endpoint, tick: nat)
    requires r.lobbyId != [] && r.lobbyId !in t.owned
    ensures var id, u := r.lobbyId, OnMsg(t, Announce(CanonRecord(r)), source, tick).state;
      && OthersKept(t, u, id) && Holds(u, id, true, id in t.memberOf, id in t.memberOf && r.ownerId == t.me)
      && Carries(r, u.known[id]) && u.known[id].host == source && u.known[id].lastSeen == tick
  {
    CanonCarries(r);
  }

  // ---- creating and closing ----------------------------------------------------------------

  /** A created lobby has its creator as owner and only member, and the settings asked for. */
  lemma CreateExactly(s: NodeState, id: Bytes, options: CreateOptions)
    ensures var o := DoCreate(s, id, options);
      && o.code == Success && OthersKept(s, o.state, id) && Holds(o.state, id, true, true, true)
      && var r := o.state.known[id];
      && r.lobbyId == id && r.ownerId == s.me && Ids(r.members) == {s.me} && |r.members| == 1 && r.version == 1
      && r.members[0].attributes == [] && r.attributes == [] && r.platforms == []
      && r.bucketId == options.bucketId && r.maxMembers == options.maxMembers && r.permission == options.permission
      && r.allowInvites == options.allowInvites && r.allowHostMigration == options.allowHostMigration
      && r.rtcRoomEnabled == options.rtcRoomEnabled && r.presenceEnabled == options.presenceEnabled
      && o.out == [ToAll(Announce(CanonRecord(r)))]
  {
    AppendedIds([], NewMember(s.me));
    assert [] + [NewMember(s.me)] == [NewMember(s.me)];
  }

  /** Closing a lobby: its owner and every node that takes the datagram forget it; nobody else
      can. */
  lemma DestroyExactly(s: NodeState, id: Bytes, t: NodeState, source: Endpoint, tick: nat)
    ensures var o := DoDestroy(s, id);
      if id in s.owned then
        && o.code == Success && OthersKept(s, o.state, id) && Holds(o.state, id, false, false, false)
        && o.out == [ToAll(Leave(id, s.me, LMS_CLOSED))]
      else o.code == NotFound && o.state == s && o.out == []
    ensures id in t.known ==>
      var u := OnMsg(t, Leave(id, s.me, LMS_CLOSED), source, tick);
      && OthersKept(t, u.state, id) && Holds(u.state, id, false, false, false) && u.out == []
      && u.events == if id in t.memberOf then [MemberStatus(id, s.me, LMS_CLOSED)] else []
  {
  }

  // ---- joining and leaving -----------------------------------------------------------------

  /** Joining a known lobby lists the node locally and asks the lobby's host. */
  lemma JoinExactly(s: NodeState, id: Bytes)
    requires id in s.known
    ensures var o, r := DoJoinById(s, id), s.known[id];
      && o.code == Success && OthersKept(s, o.state, id) && Holds(o.state, id, true, true, id in s.owned)
      && var q := o.state.known[id];
      && Ids(q.members) == Ids(r.members) + {s.me} && EntriesKept(r, q, s.me) && SameSettings(r, q)
      && q.ownerId == r.ownerId && q.attributes == r.attributes && q.version == r.version
      && o.out == if r.host.ip != 0 && r.host.port != 0 then [ToHost(r.host, JoinRequest(id, s.me))] else []
  {
    AddedEntry(s.known[id], s.me);
  }

  /** Joining through a handle is the same on the node's own record, or on the handle's when it
      has none; it asks the handle's host. */
  lemma JoinByHandleExactly(s: NodeState, handle: LobbyRecord)
    ensures var o, id := DoJoin(s, handle), handle.lobbyId;
      && o.code == Success && OthersKept(s, o.state, id) && Holds(o.state, id, true, true, id in s.owned)
      && var r, q := if id in s.known && s.known[id].lobbyId != [] then s.known[id] else handle, o.state.known[id];
      && Ids(q.members) == Ids(r.members) + {s.me} && EntriesKept(r, q, s.me) && SameSettings(r, q)
      && q.ownerId == r.ownerId && q.attributes == r.attributes && q.version == r.version
      && o.out == if handle.host.ip != 0 && handle.host.port != 0 then [ToHost(handle.host, JoinRequest(id, s.me))]
        else []
  {
    var id := handle.lobbyId;
    AddedEntry(if id in s.known && s.known[id].lobbyId != [] then s.known[id] else handle, s.me);
  }

  /** The owner admits a joiner exactly when it is not listed and a slot is free; then it lists
      it, without attributes, tells its game and announces the new record. Nobody else acts. */
  lemma JoinRequestExactly(s: NodeState, id: Bytes, joiner: Bytes, source: Endpoint, tick: nat)
    ensures var o := OnMsg(s, JoinRequest(id, joiner), source, tick);
      if id in s.known && id in s.owned && joiner !in Ids(s.known[id].members)
         && |s.known[id].members| < s.known[id].maxMembers
      then
        var r := s.known[id];
        && OthersKept(s, o.state, id) && Holds(o.state, id, true, id in s.memberOf, true)
        && var q := o.state.known[id];
        && Ids(q.members) == Ids(r.members) + {joiner} && EntriesKept(r, q, joiner) && SameSettings(r, q)
        && |q.members| == |r.members| + 1 && q.members[|r.members|].attributes == []
        && q.ownerId == r.ownerId && q.attributes == r.attributes
        && o.out == [ToAll(Announce(CanonRecord(q)))] && o.events == [MemberStatus(id, joiner, LMS_JOINED)]
      else o.state == s && o.out == [] && o.events == []
  {
    if id in s.known {
      FoundIffIn(s.known[id].members, joiner);
      AddedEntry(s.known[id], joiner);
    }
  }

  /** Leaving takes the node off: the lobby is forgotten, or, when the owner leaves others
      behind and migration is allowed, handed to the first of them with the roster that
      remains. Either way everybody is told. */
  lemma LeaveExactly(s: NodeState, id: Bytes)
    requires id in s.known && id in s.memberOf && DistinctMembers(s.known[id].members)
    ensures var o, r := DoLeave(s, id), s.known[id];
      && o.code == Success && OthersKept(s, o.state, id) && id !in o.state.memberOf && id !in o.state.owned
      && if id in s.owned && r.allowHostMigration != 0 && Ids(r.members) - {s.me} != {} then
           && id in o.state.known
           && var q := o.state.known[id];
           && Ids(q.members) == Ids(r.members) - {s.me} && EntriesKept(r, q, s.me) && SameSettings(r, q)
           && q.members != [] && q.ownerId == q.members[0].id && q.attributes == r.attributes
           && (r.version + 1 < TWO_64 ==> q.version == r.version + 1)
           && o.out == [ToAll(Leave(id, s.me, LMS_LEFT)), ToAll(Announce(CanonRecord(q)))]
         else id !in o.state.known && o.out == [ToAll(Leave(id, s.me, LMS_LEFT))]
  {
    RemovedEntry(s.known[id], s.me);
    var ms := WithoutMember(s.known[id], s.me).members;
    if ms != [] { assert ms[0].id in Ids(ms); } else { assert Ids(ms) == {}; }
  }

  /** A departure that does not close the lobby takes its subject off the roster, and off the
      lobby's membership if it is this node; an owner announces what remains; a member's game
      is told. */
  lemma DepartureExactly(s: NodeState, id: Bytes, subject: Bytes, reason: Byte, source: Endpoint, tick: nat)
    requires id in s.known && DistinctMembers(s.known[id].members) && reason != LMS_CLOSED
    ensures var o, r := OnMsg(s, Leave(id, subject, reason), source, tick), s.known[id];
      && OthersKept(s, o.state, id) && Holds(o.state, id, true, id in s.memberOf && subject != s.me, id in s.owned)
      && var q := o.state.known[id];
      && Ids(q.members) == Ids(r.members) - {subject} && EntriesKept(r, q, subject) && SameSettings(r, q)
      && DistinctMembers(q.members) && q.ownerId == r.ownerId && q.attributes == r.attributes
      && o.out == (if id in s.owned then [ToAll(Announce(CanonRecord(q)))] else [])
      && o.events == if id in s.memberOf then [MemberStatus(id, subject, reason)] else []
  {
    RemovedEntry(s.known[id], subject);
  }

  // ---- kicking and promoting ---------------------------------------------------------------

  /** A kick takes exactly the target off the owner's roster, and sends the departure first and
      then the record without the target; only the owner can. */
  lemma KickExactly(s: NodeState, id: Bytes, target: Bytes)
    requires id in s.known && DistinctMembers(s.known[id].members)
    ensures var o, r := DoKick(s, id, target), s.known[id];
      if id in s.owned then
        && o.code == Success && OthersKept(s, o.state, id) && Holds(o.state, id, true, id in s.memberOf, true)
        && var q := o.state.known[id];
        && Ids(q.members) == Ids(r.members) - {target} && EntriesKept(r, q, target) && SameSettings(r, q)
        && DistinctMembers(q.members) && q.ownerId == r.ownerId && q.attributes == r.attributes
        && (r.version + 1 < TWO_64 ==> q.version == r.version + 1)
        && o.out == [ToAll(Leave(id, target, LMS_KICKED)), ToAll(Announce(CanonRecord(q)))]
      else o.code == NotFound && o.state == s && o.out == []
  {
    RemovedEntry(s.known[id], target);
  }

  /** A node that takes the departure of a kick and then its announce has the target off its
      roster and everybody else on it, and the target no longer belongs to the lobby. */
  lemma KickReaches(s: NodeState, id: Bytes, target: Bytes, t: NodeState, source: Endpoint, first: nat, second: nat)
    requires OwnsProperly(s) && id in s.owned && DistinctMembers(s.known[id].members)
    requires id in t.known && id !in t.owned
    ensures var o := DoKick(s, id, target);
      && |o.out| == 2
      && var gone := OnMsg(t, o.out[0].msg, source, first).state;
      && (t.me == target ==> id !in gone.memberOf)
      && var told := OnMsg(gone, o.out[1].msg, source, second).state;
      && id in told.known && Ids(told.known[id].members) == Ids(s.known[id].members) - {target}
      && !HasMember(told.known[id], target) && told.memberOf == gone.memberOf
      && (id in told.memberOf <==> id in t.memberOf && t.me != target)
  {
    KickExactly(s, id, target);
    var o := DoKick(s, id, target);
    var q := o.state.known[id];
    var gone := OnMsg(t, o.out[0].msg, source, first).state;
    AnnounceTaken(gone, q, source, second);
    FoundIffIn(OnMsg(gone, o.out[1].msg, source, second).state.known[id].members, target);
  }

  /** A promotion names a listed member in the record and gives the lobby up; the roster and
      the caller's membership stay. It is refused to anybody else, and for anybody not listed. */
  lemma PromoteExactly(s: NodeState, id: Bytes, target: Bytes)
    ensures var o := DoPromote(s, id, target);
      if id in s.known && id in s.owned && target in Ids(s.known[id].members) then
        var r := s.known[id];
        && o.code == Success && OthersKept(s, o.state, id) && Holds(o.state, id, true, id in s.memberOf, false)
        && var q := o.state.known[id];
        && q.ownerId == target && q.members == r.members && q.attributes == r.attributes && SameSettings(r, q)
        && (r.version + 1 < TWO_64 ==> q.version == r.version + 1)
        && o.out == [ToAll(Announce(CanonRecord(q)))]
      else o.code == NotFound && o.state == s && o.out == []
  {
    if id in s.known { FoundIffIn(s.known[id].members, target); }
  }

  // ---- updating ----------------------------------------------------------------------------

  /** The attributes of everybody but this member are the same, and this member's are the old
      ones overridden by the additions, without the removed keys. */
  ghost predicate MemberMerged(r: LobbyRecord, q: LobbyRecord, p: Bytes, adds: seq<NamedAttr>, removes: seq<Bytes>) {
    && |q.members| == |r.members|
    && forall i :: 0 <= i < |r.members| ==>
         && q.members[i].id == r.members[i].id && q.members[i].platform == r.members[i].platform
         && if r.members[i].id != p then q.members[i] == r.members[i]
            else
              ToMap(q.members[i].attributes) == (ToMap(r.members[i].attributes) + Overrides(adds)) - Elements(removes)
  }

  lemma MergesOneMember(r: LobbyRecord, p: Bytes, adds: seq<NamedAttr>, removes: seq<Bytes>)
    requires Tidy(r)
    ensures MemberMerged(r, WithMemberAttrs(r, p, adds, removes), p, adds, removes)
  {
    var i := FirstMember(r.members, p);
    if i < |r.members| { MergeIsMapMerge(r.members[i].attributes, adds, removes); }
  }

  /** An owner's update: each setting given replaces the old one and no other changes; the
      lobby's attributes are the old ones overridden by the additions, without the removed
      keys, and so are the caller's own; the rest of the roster stays, and the new record is
      announced. */
  lemma OwnerUpdateExactly(s: NodeState, m: Modification)
    requires m.lobbyId in s.known && m.lobbyId in s.owned && Tidy(s.known[m.lobbyId])
    ensures var o, id, r := DoUpdate(s, m), m.lobbyId, s.known[m.lobbyId];
      && o.code == Success && OthersKept(s, o.state, id) && Holds(o.state, id, true, id in s.memberOf, true)
      && var q := o.state.known[id];
      && q.bucketId == (if m.bucketId.Some? then m.bucketId.value else r.bucketId)
      && q.permission == (if m.permission.Some? then m.permission.value else r.permission)
      && q.maxMembers == (if m.maxMembers.Some? then m.maxMembers.value else r.maxMembers)
      && q.allowInvites == (if m.allowInvites.Some? then m.allowInvites.value else r.allowInvites)
      && q.platforms == (if m.platforms.Some? then m.platforms.value else r.platforms)
      && q.lobbyId == r.lobbyId && q.ownerId == r.ownerId && q.allowHostMigration == r.allowHostMigration
      && q.rtcRoomEnabled == r.rtcRoomEnabled && q.presenceEnabled == r.presenceEnabled
      && q.allowJoinById == r.allowJoinById && (r.version + 1 < TWO_64 ==> q.version == r.version + 1)
      && ToMap(q.attributes) == (ToMap(r.attributes) + Overrides(m.addAttrs)) - Elements(m.removeAttrs)
      && UniqueKeys(q.attributes) && MemberMerged(r, q, s.me, m.addMemberAttrs, m.removeMemberAttrs)
      && o.out == [ToAll(Announce(CanonRecord(q)))]
  {
    AttributesApplied(s.known[m.lobbyId], m, s.me);
  }

  lemma AttributesApplied(r: LobbyRecord, m: Modification, me: Bytes)
    requires Tidy(r)
    ensures var q := Bumped(Modified(r, m, me));
      && ToMap(q.attributes) == (ToMap(r.attributes) + Overrides(m.addAttrs)) - Elements(m.removeAttrs)
      && UniqueKeys(q.attributes) && MemberMerged(r, q, me, m.addMemberAttrs, m.removeMemberAttrs)
  {
    MergeIsMapMerge(r.attributes, m.addAttrs, m.removeAttrs);
    MergesOneMember(r, me, m.addMemberAttrs, m.removeMemberAttrs);
    assert Modified(r, m, me).members == WithMemberAttrs(r, me, m.addMemberAttrs, m.removeMemberAttrs).members;
  }

  /** Anybody else's update: a member's own attributes are merged and forwarded to the host;
      a change of the lobby itself is refused. */
  lemma MemberUpdateExactly(s: NodeState, m: Modification)
    requires m.lobbyId in s.known && m.lobbyId !in s.owned && Tidy(s.known[m.lobbyId])
    ensures var o, id, r := DoUpdate(s, m), m.lobbyId, s.known[m.lobbyId];
      var lobbyWide := m.bucketId.Some? || m.permission.Some? || m.maxMembers.Some? || m.allowInvites.Some?
                       || m.platforms.Some? || m.addAttrs != [] || m.removeAttrs != [];
      if lobbyWide then o.code == NotOwner && o.state == s && o.out == []
      else if id !in s.memberOf then o.code == NotFound && o.state == s && o.out == []
      else
        && o.code == Success && OthersKept(s, o.state, id) && Holds(o.state, id, true, true, false)
        && var q := o.state.known[id];
        && SameSettings(r, q) && q.attributes == r.attributes && q.ownerId == r.ownerId && q.version == r.version
        && MemberMerged(r, q, s.me, m.addMemberAttrs, m.removeMemberAttrs)
        && o.out == if r.host.ip != 0 && r.host.port != 0 then [ToHost(r.host, UpdateOf(id, s.me, m))] else []
  {
    MergesOneMember(s.known[m.lobbyId], s.me, m.addMemberAttrs, m.removeMemberAttrs);
  }

  /** A forwarded update: the owner merges it for a listed member, tells its game and announces
      the new record; nobody else acts. */
  lemma ForwardedUpdateExactly(s: NodeState, id: Bytes, p: Bytes, adds: seq<NamedAttr>, removes: seq<Bytes>,
                               source: Endpoint, tick: nat)
    requires id in s.known ==> Tidy(s.known[id])
    ensures var o := OnMsg(s, Update(id, p, adds, removes), source, tick);
      if id in s.known && id in s.owned && p in Ids(s.known[id].members) then
        var r := s.known[id];
        && OthersKept(s, o.state, id) && Holds(o.state, id, true, id in s.memberOf, true)
        && var q := o.state.known[id];
        && SameSettings(r, q) && q.attributes == r.attributes && q.ownerId == r.ownerId
        && (r.version + 1 < TWO_64 ==> q.version == r.version + 1)
        && MemberMerged(r, q, p, adds, removes)
        && o.out == [ToAll(Announce(CanonRecord(q)))] && o.events == [MemberUpdated(id, p)]
      else o.state == s && o.out == [] && o.events == []
  {
    if id in s.known {
      FoundIffIn(s.known[id].members, p);
      MergesOneMember(s.known[id], p, adds, removes);
    }
  }

  // ---- what a game hears of an announce ----------------------------------------------------

  lemma CountConcatEvents(a: seq<Event>, b: seq<Event>, e: Event)
    ensures multiset(a + b)[e] == multiset(a)[e] + multiset(b)[e]
  {
  }

  lemma {:induction false} CountStatuses(id: Bytes, pids: seq<Bytes>, status: Byte, p: Bytes)
    ensures multiset(StatusEvents(id, pids, status))[MemberStatus(id, p, status)] == multiset(pids)[p]
  {
    if pids != [] {
      CountStatuses(id, pids[1..], status, p);
      assert pids == [pids[0]] + pids[1..];
      assert StatusEvents(id, pids, status)
          == [MemberStatus(id, pids[0], status)] + StatusEvents(id, pids[1..], status);
    }
  }

  lemma {:induction false} MissingOnce(xs: seq<Member>, ys: seq<Member>, p: Bytes)
    requires DistinctMembers(xs)
    ensures multiset(Missing(xs, ys))[p] == if p in Ids(xs) && p !in Ids(ys) then 1 else 0
  {
    if xs != [] {
      MissingOnce(xs[1..], ys, p);
      FoundIffIn(ys, xs[0].id);
      FoundIffIn(xs[1..], xs[0].id);
      var head := if FirstMember(ys, xs[0].id) < |ys| then [] else [xs[0].id];
      CountConcat(head, Missing(xs[1..], ys), p);
    }
  }

  lemma CountFive(a: seq<Event>, b: seq<Event>, c: seq<Event>, d: seq<Event>, f: seq<Event>, e: Event)
    ensures multiset(a + b + c + d + f)[e]
         == multiset(a)[e] + multiset(b)[e] + multiset(c)[e] + multiset(d)[e] + multiset(f)[e]
  {
    CountConcatEvents(a + b + c + d, f, e);
    CountConcatEvents(a + b + c, d, e);
    CountConcatEvents(a + b, c, e);
    CountConcatEvents(a, b, e);
  }

  /** On an announce between rosters that list members once, a game hears once of a new version,
      once of each member that came or went, and once of a new owner. */
  lemma AnnounceTells(was: LobbyRecord, latest: LobbyRecord, p: Bytes)
    requires DistinctMembers(was.members) && DistinctMembers(latest.members)
    ensures var told, id := multiset(DiffEvents(was, latest)), latest.lobbyId;
      && told[LobbyUpdated(id)] == (if latest.version != was.version then 1 else 0)
      && told[MemberStatus(id, p, LMS_JOINED)] == (if p in Ids(latest.members) - Ids(was.members) then 1 else 0)
      && told[MemberStatus(id, p, LMS_LEFT)] == (if p in Ids(was.members) - Ids(latest.members) then 1 else 0)
      && told[MemberStatus(id, p, LMS_PROMOTED)]
           == if p == latest.ownerId && latest.ownerId != was.ownerId && latest.ownerId != [] then 1 else 0
  {
    var id := latest.lobbyId;
    MissingOnce(latest.members, was.members, p);
    MissingOnce(was.members, latest.members, p);
    PartsTell(
      id, p, Missing(latest.members, was.members), Missing(was.members, latest.members),
      Changed(latest.members, was.members), latest.version != was.version,
      was.ownerId != latest.ownerId && latest.ownerId != [], latest.ownerId);
  }

  lemma PartsTell(id: Bytes, p: Bytes, joined: seq<Bytes>, left: seq<Bytes>, changed: seq<Bytes>,
                  newer: bool, moved: bool, owner: Bytes)
    ensures var told := multiset(
        (if newer then [LobbyUpdated(id)] else []) + StatusEvents(id, joined, LMS_JOINED)
        + StatusEvents(id, left, LMS_LEFT) + UpdateEvents(id, changed)
        + (if moved then [MemberStatus(id, owner, LMS_PROMOTED)] else []));
      && told[LobbyUpdated(id)] == (if newer then 1 else 0)
      && told[MemberStatus(id, p, LMS_JOINED)] == multiset(joined)[p]
      && told[MemberStatus(id, p, LMS_LEFT)] == multiset(left)[p]
      && told[MemberStatus(id, p, LMS_PROMOTED)] == if moved && p == owner then 1 else 0
  {
    FivePartsTell(id, p, if newer then [LobbyUpdated(id)] else [], joined, left, changed,
                  if moved then [MemberStatus(id, owner, LMS_PROMOTED)] else []);
  }

  lemma FivePartsTell(id: Bytes, p: Bytes, version: seq<Event>, joined: seq<Bytes>, left: seq<Bytes>,
                      changed: seq<Bytes>, promoted: seq<Event>)
    requires forall i :: 0 <= i < |version| ==> version[i].LobbyUpdated?
    requires forall i :: 0 <= i < |promoted| ==> promoted[i].MemberStatus? && promoted[i].status == LMS_PROMOTED
    ensures var j, l := StatusEvents(id, joined, LMS_JOINED), StatusEvents(id, left, LMS_LEFT);
      var told := multiset(version + j + l + UpdateEvents(id, changed) + promoted);
      && told[LobbyUpdated(id)] == multiset(version)[LobbyUpdated(id)]
      && told[MemberStatus(id, p, LMS_JOINED)] == multiset(joined)[p]
      && told[MemberStatus(id, p, LMS_LEFT)] == multiset(left)[p]
      && told[MemberStatus(id, p, LMS_PROMOTED)] == multiset(promoted)[MemberStatus(id, p, LMS_PROMOTED)]
  {
    var j, l, u := StatusEvents(id, joined, LMS_JOINED), StatusEvents(id, left, LMS_LEFT), UpdateEvents(id, changed);
    CountFive(version, j, l, u, promoted, LobbyUpdated(id));
    CountFive(version, j, l, u, promoted, MemberStatus(id, p, LMS_JOINED));
    CountFive(version, j, l, u, promoted, MemberStatus(id, p, LMS_LEFT));
    CountFive(version, j, l, u, promoted, MemberStatus(id, p, LMS_PROMOTED));
    CountStatuses(id, joined, LMS_JOINED, p);
    CountStatuses(id, left, LMS_LEFT, p);
    assert LobbyUpdated(id) !in j && LobbyUpdated(id) !in l && LobbyUpdated(id) !in u && LobbyUpdated(id) !in promoted;
    NotAmong(version, j, l, u, promoted, id, p);
  }

  lemma NotAmong(version: seq<Event>, j: seq<Event>, l: seq<Event>, u: seq<Event>, promoted: seq<Event>, id: Bytes,
                 p: Bytes)
    requires forall i :: 0 <= i < |version| ==> version[i].LobbyUpdated?
    requires forall i :: 0 <= i < |j| ==> j[i].MemberStatus? && j[i].status == LMS_JOINED
    requires forall i :: 0 <= i < |l| ==> l[i].MemberStatus? && l[i].status == LMS_LEFT
    requires forall i :: 0 <= i < |u| ==> u[i].MemberUpdated?
    requires forall i :: 0 <= i < |promoted| ==> promoted[i].MemberStatus? && promoted[i].status == LMS_PROMOTED
    ensures var came := MemberStatus(id, p, LMS_JOINED);
      came !in version && came !in l && came !in u && came !in promoted
    ensures var went := MemberStatus(id, p, LMS_LEFT);
      went !in version && went !in j && went !in u && went !in promoted
    ensures var named := MemberStatus(id, p, LMS_PROMOTED);
      named !in version && named !in j && named !in l && named !in u
  {
  }
}
