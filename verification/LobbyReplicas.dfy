/** What replication keeps over every run: rosters without duplicates inside the lobby's
    capacity, and version numbers that identify the content they were announced with, so
    that a replica fed the current version equals the owner's record. */
module LobbyReplicas {
  import opened Basics
  import opened AttributeCodec
  import opened LobbyCodec
  import opened LobbyNode
  import opened LobbySystem
  import LobbyHandoffs

  // ---- rosters -------------------------------------------------------------------------

  ghost predicate DistinctMembers(ms: seq<Member>) {
    forall i, j :: 0 <= i < j < |ms| ==> ms[i].id != ms[j].id
  }

  ghost predicate GoodRoster(r: LobbyRecord) {
    DistinctMembers(r.members) && |r.members| <= r.maxMembers
  }

  /** The lobbies a node belongs to and owns are ones it has a record of. */
  ghost predicate Indexed(s: NodeState) {
    s.memberOf <= s.known.Keys && s.owned <= s.known.Keys
  }

  ghost predicate GoodNode(s: NodeState) {
    Indexed(s) && forall id :: id in s.owned && id in s.known ==> GoodRoster(s.known[id])
  }

  /** The local calls under which capacity is promised: a created lobby holds at least its
      creator, an owner does not lower the limit below the roster, and an owner that is off
      its roster joins its own lobby only while a slot is free. */
  ghost predicate CarefulAct(s: NodeState, act: Act) {
    match act
    case Create(_, options) => options.maxMembers >= 1
    case UpdateLobby(m) =>
      m.lobbyId in s.owned && m.lobbyId in s.known && m.maxMembers.Some? ==>
        |s.known[m.lobbyId].members| <= m.maxMembers.value
    case Join(handle) => handle.lobbyId in s.owned && handle.lobbyId in s.known ==>
        HasRoomFor(s.known[handle.lobbyId], s.me)
    case JoinById(id) => id in s.owned && id in s.known ==> HasRoomFor(s.known[id], s.me)
    case _ => true
  }

  predicate HasRoomFor(r: LobbyRecord, id: Bytes) {
    HasMember(r, id) || AvailableSlots(r) > 0
  }

  ghost predicate GoodOutcome(o: Outcome) {
    GoodNode(o.state) && forall r :: Announces(o, r) ==> GoodRoster(r)
  }

  lemma CanonKeepsRoster(r: LobbyRecord)
    ensures GoodRoster(CanonRecord(r)) <==> GoodRoster(r)
  {
    var c := CanonRecord(r);
    assert |c.members| == |r.members|;
    assert forall i :: 0 <= i < |r.members| ==> c.members[i] == CanonMember(r.members[i]);
  }

  lemma RosterEdits(r: LobbyRecord, id: Bytes, adds: seq<NamedAttr>, removes: seq<Bytes>)
    requires GoodRoster(r)
    ensures GoodRoster(WithoutMember(r, id)) && GoodRoster(Bumped(r))
    ensures GoodRoster(WithMemberAttrs(r, id, adds, removes))
    ensures HasMember(r, id) || AvailableSlots(r) > 0 ==> GoodRoster(WithMember(r, id))
  {
  }

  lemma LeavingKeepsRosters(s: NodeState, id: Bytes)
    requires GoodNode(s) && OwnsProperly(s)
    ensures GoodOutcome(DoLeave(s, id))
  {
    if id in s.owned {
      RosterEdits(s.known[id], s.me, [], []);
      forall r { CanonKeepsRoster(r); }
    }
  }

  lemma ActKeepsRosters(s: NodeState, act: Act)
    requires GoodNode(s) && OwnsProperly(s) && CarefulAct(s, act)
    ensures GoodOutcome(ActOutcome(s, act))
  {
    var o := ActOutcome(s, act);
    match act
    case Create(id, options) => CanonKeepsRoster(Created(s.me, id, options));
    case Destroy(_) =>
    case Join(_) =>
    case JoinById(_) =>
    case LeaveLobby(id) => LeavingKeepsRosters(s, id);
    case UpdateLobby(m) => UpdateKeepsRosters(s, m);
    case Promote(id, target) =>
      if id in s.owned { CanonKeepsRoster(Bumped(s.known[id].(ownerId := target))); }
    case Kick(id, target) =>
      if id in s.owned {
        RosterEdits(s.known[id], target, [], []);
        CanonKeepsRoster(Bumped(WithoutMember(s.known[id], target)));
      }
    case Reannounce(id) =>
      if id in s.owned { CanonKeepsRoster(s.known[id]); }
  }

  lemma UpdateKeepsRosters(s: NodeState, m: Modification)
    requires GoodNode(s) && OwnsProperly(s) && CarefulAct(s, UpdateLobby(m))
    ensures GoodOutcome(DoUpdate(s, m))
  {
    if m.lobbyId in s.owned {
      var r := Modified(s.known[m.lobbyId], m, s.me);
      assert |r.members| == |s.known[m.lobbyId].members|;
      assert forall i :: 0 <= i < |r.members| ==> r.members[i].id == s.known[m.lobbyId].members[i].id;
      CanonKeepsRoster(Bumped(r));
    }
  }

  /** These conditions are exact: a call keeps rosters good if and only if it is careful. */
  lemma CarefulExactly(s: NodeState, act: Act)
    requires GoodNode(s) && OwnsProperly(s) && (act.Create? ==> act.id !in s.owned)
    ensures GoodOutcome(ActOutcome(s, act)) <==> CarefulAct(s, act)
  {
    var o := ActOutcome(s, act);
    if CarefulAct(s, act) {
      ActKeepsRosters(s, act);
    } else {
      match act
      case Create(id, options) => assert id in o.state.owned && !GoodRoster(o.state.known[id]);
      case UpdateLobby(m) => LoweringBreaksRoster(s, m);
      case Join(handle) => assert handle.lobbyId in o.state.owned && !GoodRoster(o.state.known[handle.lobbyId]);
      case JoinById(id) => assert id in o.state.owned && !GoodRoster(o.state.known[id]);
      case _ =>
    }
  }

  lemma LoweringBreaksRoster(s: NodeState, m: Modification)
    requires GoodNode(s) && OwnsProperly(s) && m.lobbyId in s.owned && m.maxMembers.Some?
    requires |s.known[m.lobbyId].members| > m.maxMembers.value
    ensures !GoodOutcome(DoUpdate(s, m))
  {
    var r := DoUpdate(s, m).state.known[m.lobbyId];
    assert |r.members| == |s.known[m.lobbyId].members| && r.maxMembers == m.maxMembers.value;
  }

  lemma MsgKeepsRosters(s: NodeState, msg: Msg, source: Endpoint, tick: nat)
    requires GoodNode(s) && OwnsProperly(s) && (msg.Announce? ==> GoodRoster(msg.record))
    ensures GoodOutcome(OnMsg(s, msg, source, tick))
  {
    match msg
    case Announce(_) =>
    case Update(id, member, adds, removes) =>
      if id in s.owned {
        RosterEdits(s.known[id], member, adds, removes);
        CanonKeepsRoster(Bumped(WithMemberAttrs(s.known[id], member, adds, removes)));
      }
    case JoinRequest(id, joiner) =>
      if id in s.owned && AvailableSlots(s.known[id]) > 0 {
        RosterEdits(s.known[id], joiner, [], []);
        CanonKeepsRoster(Bumped(WithMember(s.known[id], joiner)));
      }
    case Leave(id, subject, reason) =>
      if id in s.owned {
        RosterEdits(s.known[id], subject, [], []);
        CanonKeepsRoster(Bumped(WithoutMember(s.known[id], subject)));
      }
  }

  /** Joining one's own lobby skips the capacity check that join requests get: it keeps the
      roster good exactly when there was room, or nothing to add. */
  lemma JoiningOwnLobbyNeedsRoom(s: NodeState, id: Bytes)
    requires GoodNode(s) && OwnsProperly(s) && id in s.owned
    ensures GoodRoster(DoJoinById(s, id).state.known[id])
       <==> HasMember(s.known[id], s.me) || AvailableSlots(s.known[id]) > 0
  {
  }

  ghost predicate RosterInv(sys: System) {
    && (forall n :: n in sys.nodes ==> GoodNode(sys.nodes[n]))
    && (forall e :: e in sys.net && e.msg.Announce? ==> GoodRoster(e.msg.record))
  }

  ghost predicate Careful(sys: System, step: Step)
    requires Possible(sys, step)
  {
    step.Local? ==> CarefulAct(sys.nodes[step.node], step.act)
  }

  lemma StepKeepsRosters(sys: System, step: Step)
    requires BaseInv(sys) && RosterInv(sys) && Possible(sys, step) && Careful(sys, step)
    ensures RosterInv(Apply(sys, step))
  {
    match step
    case Local(n, act, dest) =>
      ActIsProper(sys.nodes[n], act);
      ActKeepsRosters(sys.nodes[n], act);
      SentRostersGood(sys, Apply(sys, step), n, sys.net, ActOutcome(sys.nodes[n], act), NewLobbies(act), dest);
    case Deliver(e, source, tick, dest) =>
      MsgIsProper(sys.nodes[e.to], e.msg, source, tick);
      MsgKeepsRosters(sys.nodes[e.to], e.msg, source, tick);
      SentRostersGood(sys, Apply(sys, step), e.to, sys.net - multiset{e}, OnMsg(sys.nodes[e.to], e.msg, source, tick),
                      Gained(sys.nodes[e.to], e.msg), dest);
    case Lose(_) =>
    case Duplicate(_) =>
  }

  lemma SentRostersGood(sys: System, next: System, n: Bytes, rest: multiset<Envelope>, o: Outcome, gained: set<Bytes>,
                        dest: Bytes)
    requires RosterInv(sys) && NodeStep(sys, next, n, rest, o, gained, dest) && GoodOutcome(o)
    ensures RosterInv(next)
  {
    forall e | e in next.net && e.msg.Announce? ensures GoodRoster(e.msg.record) {
      if e !in rest {
        SentAnnounce(sys.nodes.Keys, n, o.out, dest, e);
        assert Announces(o, e.msg.record);
      }
    }
  }

  // ---- versions ---------------------------------------------------------------------------

  /** The 64-bit version counters are clear of their end. */
  ghost predicate VersionsFit(sys: System) {
    forall n, id :: Owns(sys, n, id) && id in sys.nodes[n].known ==> sys.nodes[n].known[id].version + 1 < TWO_64
  }

  ghost predicate Unowned(sys: System, id: Bytes) {
    forall n :: !Owns(sys, n, id)
  }

  ghost predicate VersionsIdentify(sys: System, id: Bytes) {
    forall e, f :: InFlight(sys, e, id) && InFlight(sys, f, id) && e.msg.record.version == f.msg.record.version ==>
      e.msg.record == f.msg.record
  }

  /** In flight, a version number identifies the record; none is newer than the owner's,
      and the owner's own version is its current record; without an owner, a hand-off is
      the newest of all. */
  ghost predicate VersionsMeanContent(sys: System, id: Bytes) {
    && VersionsIdentify(sys, id)
    && (forall n, e :: Owns(sys, n, id) && InFlight(sys, e, id) ==> NotNewer(e.msg.record, sys.nodes[n].known, id))
    && (Unowned(sys, id) ==> TokensNewest(sys, id))
  }

  /** The acting node of a step, and what its step does. */
  ghost predicate Acts(sys: System, step: Step, n: Bytes, o: Outcome)
    requires Possible(sys, step)
  {
    match step
    case Local(node, act, _) => n == node && o == ActOutcome(sys.nodes[node], act)
    case Deliver(e, source, tick, _) => n == e.to && o == OnMsg(sys.nodes[e.to], e.msg, source, tick)
    case _ => false
  }

  /** The outcome announces nothing about this lobby. */
  ghost predicate Unannounced(o: Outcome, id: Bytes) {
    forall r :: Announces(o, r) ==> r.lobbyId != id
  }

  ghost predicate TokensNewest(sys: System, id: Bytes) {
    forall t, e :: Token(sys, t, id) && InFlight(sys, e, id) ==> e.msg.record.version <= t.msg.record.version
  }

  /** The lobby may be given up: no earlier hand-off of it is in flight, or it is given up in
      silence and nothing in flight is newer than such a hand-off. */
  ghost predicate MayRelease(sys: System, o: Outcome, id: Bytes) {
    NoTokens(sys, id) || (Unannounced(o, id) && TokensNewest(sys, id))
  }

  ghost predicate ReleasesSettled(sys: System, step: Step)
    requires Possible(sys, step)
  {
    forall n, o, id :: Acts(sys, step, n, o) && id in sys.nodes[n].owned && id !in o.state.owned ==>
        MayRelease(sys, o, id)
  }

  /** Naming an heir is giving the lobby up aloud. */
  lemma NamingReleases(sys: System, n: Bytes, o: Outcome, gained: set<Bytes>, id: Bytes)
    requires n in sys.nodes && sys.nodes[n].me == n && SpeaksForOwned(sys.nodes[n], o, gained)
          && NamesHeir(sys, n, o, id)
    ensures id in sys.nodes[n].owned && id !in o.state.owned && !Unannounced(o, id)
  {
  }

  lemma ReleasesCoverNaming(sys: System, n: Bytes, o: Outcome, gained: set<Bytes>, id: Bytes)
    requires n in sys.nodes && sys.nodes[n].me == n && SpeaksForOwned(sys.nodes[n], o, gained)
          && NamesHeir(sys, n, o, id)
    requires id in sys.nodes[n].owned && id !in o.state.owned ==> MayRelease(sys, o, id)
    ensures NoTokens(sys, id)
  {
    NamingReleases(sys, n, o, gained, id);
  }

  lemma ReleaseSettled(sys: System, step: Step, n: Bytes, o: Outcome, id: Bytes)
    requires Possible(sys, step) && ReleasesSettled(sys, step) && Acts(sys, step, n, o)
    ensures id in sys.nodes[n].owned && id !in o.state.owned ==> MayRelease(sys, o, id)
  {
  }

  lemma ReleasesCoverHandovers(sys: System, step: Step)
    requires BaseInv(sys) && Possible(sys, step) && ReleasesSettled(sys, step)
    ensures Settled(sys, step)
  {
    if step.Local? {
      var n, o := step.node, ActOutcome(sys.nodes[step.node], step.act);
      assert SpeaksForOwned(sys.nodes[n], o, NewLobbies(step.act)) by { ActIsProper(sys.nodes[n], step.act); }
      forall id | NamesHeir(sys, n, o, id) ensures NoTokens(sys, id) {
        ReleaseSettled(sys, step, n, o, id);
        ReleasesCoverNaming(sys, n, o, NewLobbies(step.act), id);
      }
    }
  }

  ghost predicate NotNewer(r: LobbyRecord, known: map<Bytes, LobbyRecord>, id: Bytes) {
    && id in known && r.version <= known[id].version
    && (r.version == known[id].version ==> r == CanonRecord(known[id]))
  }

  /** How an owner's step treats a lobby it owns: it leaves the record and announces at
      most that; or it announces one new version, which becomes its record if it stays
      owner; or it gives the lobby up in silence. */
  ghost predicate VersionStep(s: NodeState, o: Outcome, id: Bytes)
    requires id in s.known && OwnsProperly(o.state)
  {
    || KeepsRecord(s, o, id)
    || (exists r :: NewVersion(s, o, id, r))
    || (id !in o.state.owned && forall r :: Announces(o, r) ==> r.lobbyId != id)
  }

  ghost predicate KeepsRecord(s: NodeState, o: Outcome, id: Bytes)
    requires id in s.known && OwnsProperly(o.state)
  {
    && id in o.state.owned && o.state.known[id] == s.known[id]
    && forall r :: Announces(o, r) && r.lobbyId == id ==> r == CanonRecord(s.known[id])
  }

  ghost predicate NewVersion(s: NodeState, o: Outcome, id: Bytes, r: LobbyRecord)
    requires id in s.known && OwnsProperly(o.state)
  {
    && Announces(o, r) && r.lobbyId == id && r.version == s.known[id].version + 1
    && (id in o.state.owned ==> CanonRecord(o.state.known[id]) == r && o.state.known[id].version == r.version)
    && forall q :: Announces(o, q) ==> q == r
  }

  lemma BumpMakesVersion(s: NodeState, o: Outcome, id: Bytes, r: LobbyRecord)
    requires id in s.known && OwnsProperly(o.state) && s.known[id].version + 1 < TWO_64
    requires r.lobbyId == id && r.version == s.known[id].version
    requires o.state.known == s.known[id := Bumped(r)]
    requires o.out != [] && o.out[|o.out| - 1] == AnnounceOf(Bumped(r))
    requires forall i :: 0 <= i < |o.out| - 1 ==> !o.out[i].msg.Announce?
    ensures NewVersion(s, o, id, CanonRecord(Bumped(r)))
  {
    assert Announces(o, CanonRecord(Bumped(r)));
  }

  ghost predicate VersionRoom(s: NodeState, id: Bytes) {
    OwnsProperly(s) && id in s.owned && s.known[id].version + 1 < TWO_64
  }

  lemma LeaveVersions(s: NodeState, id: Bytes)
    requires VersionRoom(s, id) && OwnsProperly(DoLeave(s, id).state)
    ensures VersionStep(s, DoLeave(s, id), id)
  {
    var o := DoLeave(s, id);
    if |o.out| == 2 {
      var r := WithoutMember(s.known[id], s.me);
      BumpMakesVersion(s, o, id, r.(ownerId := r.members[0].id));
    } else {
      assert id in o.state.owned ==> KeepsRecord(s, o, id);
    }
  }

  lemma UpdateVersions(s: NodeState, m: Modification)
    requires VersionRoom(s, m.lobbyId) && OwnsProperly(DoUpdate(s, m).state)
    ensures VersionStep(s, DoUpdate(s, m), m.lobbyId)
  {
    BumpMakesVersion(s, DoUpdate(s, m), m.lobbyId, Modified(s.known[m.lobbyId], m, s.me));
  }

  lemma PromoteVersions(s: NodeState, id: Bytes, target: Bytes)
    requires VersionRoom(s, id) && OwnsProperly(DoPromote(s, id, target).state)
    ensures VersionStep(s, DoPromote(s, id, target), id)
  {
    var o := DoPromote(s, id, target);
    if o.out != [] {
      BumpMakesVersion(s, o, id, s.known[id].(ownerId := target));
    } else {
      assert KeepsRecord(s, o, id);
    }
  }

  lemma KickVersions(s: NodeState, id: Bytes, target: Bytes)
    requires VersionRoom(s, id) && OwnsProperly(DoKick(s, id, target).state)
    ensures VersionStep(s, DoKick(s, id, target), id)
  {
    BumpMakesVersion(s, DoKick(s, id, target), id, WithoutMember(s.known[id], target));
  }

  /** The lobby a call is about. */
  function Subject(act: Act): Bytes {
    match act
    case Create(id, _) => id
    case Destroy(id) => id
    case Join(handle) => handle.lobbyId
    case JoinById(id) => id
    case LeaveLobby(id) => id
    case UpdateLobby(m) => m.lobbyId
    case Promote(id, _) => id
    case Kick(id, _) => id
    case Reannounce(id) => id
  }

  lemma OtherActsKeepOthers(s: NodeState, act: Act, id: Bytes)
    requires Subject(act) != id
    ensures var t := ActOutcome(s, act).state;
      && (id in t.known <==> id in s.known) && (id in s.known ==> t.known[id] == s.known[id])
      && (id in t.owned <==> id in s.owned)
  {
  }

  lemma AnnouncesItsSubject(s: NodeState, act: Act, r: LobbyRecord)
    requires OwnsProperly(s) && Announces(ActOutcome(s, act), r)
    ensures r.lobbyId == Subject(act)
  {
    assert act.Create? || s.known[Subject(act)].lobbyId == Subject(act);
  }

  lemma OtherActsKeepRecord(s: NodeState, act: Act, id: Bytes)
    requires VersionRoom(s, id) && Subject(act) != id && OwnsProperly(ActOutcome(s, act).state)
    ensures KeepsRecord(s, ActOutcome(s, act), id)
  {
    OtherActsKeepOthers(s, act, id);
    forall r | Announces(ActOutcome(s, act), r) ensures r.lobbyId != id { AnnouncesItsSubject(s, act, r); }
  }

  /** The owner, off its own roster, joins its lobby: its record changes under an unchanged
      version, and nothing is announced. */
  predicate JoinsOffRoster(s: NodeState, act: Act, id: Bytes) {
    && (act.Join? || act.JoinById?) && Subject(act) == id
    && id in s.owned && id in s.known && !HasMember(s.known[id], s.me)
  }

  lemma ActVersions(s: NodeState, act: Act, id: Bytes)
    requires VersionRoom(s, id) && !JoinsOffRoster(s, act, id)
    requires act.Create? ==> act.id != [] && act.id != id
    requires OwnsProperly(ActOutcome(s, act).state)
    ensures VersionStep(s, ActOutcome(s, act), id)
  {
    var o := ActOutcome(s, act);
    if Subject(act) != id {
      OtherActsKeepRecord(s, act, id);
    } else {
      match act
      case Destroy(_) => assert id !in o.state.owned;
      case Join(_) => assert KeepsRecord(s, o, id);
      case JoinById(_) => assert KeepsRecord(s, o, id);
      case LeaveLobby(_) => LeaveVersions(s, id);
      case UpdateLobby(m) => UpdateVersions(s, m);
      case Promote(_, target) => PromoteVersions(s, id, target);
      case Kick(_, target) => KickVersions(s, id, target);
      case Reannounce(_) => assert KeepsRecord(s, o, id);
    }
  }

  lemma MsgVersions(s: NodeState, msg: Msg, source: Endpoint, tick: nat, id: Bytes)
    requires VersionRoom(s, id) && OwnsProperly(OnMsg(s, msg, source, tick).state)
    ensures VersionStep(s, OnMsg(s, msg, source, tick), id)
  {
    var o := OnMsg(s, msg, source, tick);
    match msg
    case Announce(_) => assert KeepsRecord(s, o, id);
    case Update(l, member, adds, removes) =>
      if l == id && o.out != [] { BumpMakesVersion(s, o, id, WithMemberAttrs(s.known[id], member, adds, removes)); }
      else { assert KeepsRecord(s, o, id); }
    case JoinRequest(l, joiner) =>
      if l == id && o.out != [] { BumpMakesVersion(s, o, id, WithMember(s.known[id], joiner)); }
      else { assert KeepsRecord(s, o, id); }
    case Leave(l, subject, reason) =>
      if l != id {
        assert KeepsRecord(s, o, id);
      } else if reason != LMS_CLOSED {
        BumpMakesVersion(s, o, id, WithoutMember(s.known[id], subject));
      }
  }

  /** What is in flight after an owner's step: what was, or its one announce. */
  lemma OwnerInFlight(sys: System, next: System, n: Bytes, rest: multiset<Envelope>, o: Outcome, gained: set<Bytes>,
                      dest: Bytes, id: Bytes, e: Envelope)
    requires NodesProper(sys) && VersionsMeanContent(sys, id)
    requires NodeStep(sys, next, n, rest, o, gained, dest) && Owns(sys, n, id) && InFlight(next, e, id)
    ensures if e in rest then InFlight(sys, e, id) && NotNewer(e.msg.record, sys.nodes[n].known, id)
          else Announces(o, e.msg.record)
  {
    if e in rest {
      assert InFlight(sys, e, id);
    } else {
      SentAnnounce(sys.nodes.Keys, n, o.out, dest, e);
    }
  }

  /** Everything in flight about the lobby is from before the step or is one of these. */
  ghost predicate InFlightFrom(sys: System, next: System, rest: multiset<Envelope>, known: map<Bytes, LobbyRecord>,
                               id: Bytes, r: LobbyRecord) {
    forall e :: InFlight(next, e, id) ==>
      if e in rest then InFlight(sys, e, id) && NotNewer(e.msg.record, known, id) else e.msg.record == r
  }

  /** The owner stays, and what it announced is its record. */
  lemma StayingKeepsVersions(sys: System, next: System, n: Bytes, rest: multiset<Envelope>, id: Bytes, r: LobbyRecord)
    requires VersionsIdentify(sys, id) && n in sys.nodes && InFlightFrom(sys, next, rest, sys.nodes[n].known, id, r)
    requires Owns(next, n, id) && forall m :: Owns(next, m, id) ==> m == n
    requires id in sys.nodes[n].known && id in next.nodes[n].known && CanonRecord(next.nodes[n].known[id]) == r
    requires next.nodes[n].known[id].version == r.version
    requires r == CanonRecord(sys.nodes[n].known[id]) || r.version == sys.nodes[n].known[id].version + 1
    ensures VersionsMeanContent(next, id)
  {
    assert r == CanonRecord(sys.nodes[n].known[id]) ==> r.version == sys.nodes[n].known[id].version;
  }

  /** The owner gives the lobby up with one announce, of a new version. */
  lemma HandingOverKeepsVersions(sys: System, next: System, n: Bytes, rest: multiset<Envelope>, id: Bytes,
                                 r: LobbyRecord)
    requires VersionsIdentify(sys, id) && n in sys.nodes && InFlightFrom(sys, next, rest, sys.nodes[n].known, id, r)
    requires Unowned(next, id) && id in sys.nodes[n].known && r.version == sys.nodes[n].known[id].version + 1
    requires forall t :: Token(next, t, id) ==> t !in rest
    ensures VersionsMeanContent(next, id)
  {
  }

  lemma OldTokensGone(sys: System, next: System, rest: multiset<Envelope>, id: Bytes)
    requires NoTokens(sys, id) && rest <= sys.net
    ensures forall t :: Token(next, t, id) ==> t !in rest
  {
    assert forall t :: t in rest && Token(next, t, id) ==> Token(sys, t, id);
  }

  /** An owner's step on a lobby it owns. */
  lemma OwnerKeepsVersions(sys: System, next: System, n: Bytes, rest: multiset<Envelope>, o: Outcome,
                           gained: set<Bytes>, dest: Bytes, id: Bytes)
    requires NodesProper(sys) && OneHeir(sys, id) && VersionsMeanContent(sys, id)
    requires NodeStep(sys, next, n, rest, o, gained, dest) && Owns(sys, n, id) && VersionStep(sys.nodes[n], o, id)
    requires id in o.state.owned || MayRelease(sys, o, id)
    ensures VersionsMeanContent(next, id)
  {
    var s := sys.nodes[n];
    forall m | Owns(next, m, id) ensures m == n {
      if m != n { assert Owns(sys, m, id); }
    }
    forall e | InFlight(next, e, id)
      ensures if e in rest then InFlight(sys, e, id) && NotNewer(e.msg.record, s.known, id)
            else Announces(o, e.msg.record)
    {
      OwnerInFlight(sys, next, n, rest, o, gained, dest, id, e);
    }
    if KeepsRecord(s, o, id) {
      StayingKeepsVersions(sys, next, n, rest, id, CanonRecord(s.known[id]));
    } else if exists r :: NewVersion(s, o, id, r) {
      var r :| NewVersion(s, o, id, r);
      if id in o.state.owned {
        StayingKeepsVersions(sys, next, n, rest, id, r);
      } else {
        OldTokensGone(sys, next, rest, id);
        HandingOverKeepsVersions(sys, next, n, rest, id, r);
      }
    } else {
      assert forall t :: Token(next, t, id) ==> Token(sys, t, id);
      assert forall e :: InFlight(next, e, id) ==> InFlight(sys, e, id);
    }
  }

  /** The release of a lobby, by whatever node step. */
  lemma NodeReleaseExactly(sys: System, next: System, n: Bytes, rest: multiset<Envelope>, o: Outcome,
                           gained: set<Bytes>, dest: Bytes, id: Bytes, m: Bytes)
    requires NodesProper(sys) && OneHeir(sys, id) && VersionsMeanContent(sys, id)
    requires NodeStep(sys, next, n, rest, o, gained, dest) && Owns(sys, n, id) && VersionStep(sys.nodes[n], o, id)
    requires id !in o.state.owned && m in sys.nodes && m != n && forall e :: InFlight(sys, e, id) ==> e in rest
    ensures VersionsMeanContent(next, id) <==> MayRelease(sys, o, id)
  {
    if MayRelease(sys, o, id) {
      OwnerKeepsVersions(sys, next, n, rest, o, gained, dest, id);
    } else {
      ReleaseNeedsSilence(sys, next, n, rest, o, gained, dest, id, m);
    }
  }

  lemma ReleaseNeedsSilence(sys: System, next: System, n: Bytes, rest: multiset<Envelope>, o: Outcome,
                            gained: set<Bytes>, dest: Bytes, id: Bytes, m: Bytes)
    requires NodesProper(sys) && OneHeir(sys, id) && VersionsMeanContent(sys, id)
    requires NodeStep(sys, next, n, rest, o, gained, dest) && Owns(sys, n, id) && VersionStep(sys.nodes[n], o, id)
    requires id !in o.state.owned && m in sys.nodes && m != n && forall e :: InFlight(sys, e, id) ==> e in rest
    requires !MayRelease(sys, o, id)
    ensures !VersionsMeanContent(next, id)
  {
    ReleasedIsUnowned(sys, next, n, o, id);
    if Unannounced(o, id) {
      var t, e :| Token(sys, t, id) && InFlight(sys, e, id) && e.msg.record.version > t.msg.record.version;
      OutdatedToken(next, t, e, id);
    } else {
      var t :| Token(sys, t, id);
      assert NotNewer(t.msg.record, sys.nodes[n].known, id);
      ReleaseOutdatesToken(sys, next, n, rest, o, gained, dest, id, m, t);
    }
  }

  lemma ReleasedIsUnowned(sys: System, next: System, n: Bytes, o: Outcome, id: Bytes)
    requires OneHeir(sys, id) && Owns(sys, n, id) && next.nodes == sys.nodes[n := o.state] && id !in o.state.owned
    ensures Unowned(next, id)
  {
    assert forall k :: k != n && Owns(next, k, id) ==> Owns(sys, k, id);
  }

  lemma OutdatedToken(sys: System, t: Envelope, e: Envelope, id: Bytes)
    requires Unowned(sys, id) && Token(sys, t, id) && InFlight(sys, e, id)
          && e.msg.record.version > t.msg.record.version
    ensures !VersionsMeanContent(sys, id)
  {
  }

  /** What is announced with the release is newer than an earlier hand-off. */
  lemma ReleaseOutdatesToken(sys: System, next: System, n: Bytes, rest: multiset<Envelope>, o: Outcome,
                             gained: set<Bytes>, dest: Bytes, id: Bytes, m: Bytes, t: Envelope)
    requires NodeStep(sys, next, n, rest, o, gained, dest) && id in sys.nodes[n].known
          && VersionStep(sys.nodes[n], o, id)
    requires id !in o.state.owned && m in sys.nodes && m != n && !Unannounced(o, id) && Unowned(next, id)
    requires Token(sys, t, id) && t in rest && NotNewer(t.msg.record, sys.nodes[n].known, id)
    ensures !VersionsMeanContent(next, id)
  {
    var r :| NewVersion(sys.nodes[n], o, id, r);
    BroadcastSent(sys.nodes.Keys, n, o.out, dest, Announce(r), m);
    OutdatedToken(next, t, Envelope(m, n, Announce(r)), id);
  }

  /** A step whose node owns the lobby neither before nor after, and says nothing about it. */
  lemma BystanderKeepsVersions(sys: System, next: System, n: Bytes, rest: multiset<Envelope>, o: Outcome,
                               gained: set<Bytes>, dest: Bytes, id: Bytes)
    requires NodesProper(sys) && VersionsMeanContent(sys, id)
    requires NodeStep(sys, next, n, rest, o, gained, dest) && !Owns(sys, n, id)
    requires id !in o.state.owned && forall r :: Announces(o, r) ==> r.lobbyId != id
    ensures VersionsMeanContent(next, id)
  {
    forall e | InFlight(next, e, id) ensures InFlight(sys, e, id) {
      if e !in rest {
        SentAnnounce(sys.nodes.Keys, n, o.out, dest, e);
      }
    }
    forall m ensures Owns(next, m, id) <==> Owns(sys, m, id) {
    }
    assert forall t :: Token(next, t, id) ==> Token(sys, t, id);
  }

  /** A node becomes the owner with a record nothing in flight is newer than. */
  lemma GainKeepsVersions(sys: System, next: System, n: Bytes, rest: multiset<Envelope>, o: Outcome,
                          gained: set<Bytes>, dest: Bytes, id: Bytes)
    requires NodesProper(sys) && VersionsMeanContent(sys, id) && OneHeir(next, id)
    requires NodeStep(sys, next, n, rest, o, gained, dest) && Owns(next, n, id)
    requires forall e :: e in rest && InFlight(sys, e, id) ==> NotNewer(e.msg.record, o.state.known, id)
    requires id in o.state.known && forall r :: Announces(o, r) && r.lobbyId == id ==>
          r == CanonRecord(o.state.known[id])
    ensures VersionsMeanContent(next, id)
  {
    forall e | InFlight(next, e, id)
      ensures NotNewer(e.msg.record, o.state.known, id)
      ensures e in rest || e.msg.record == CanonRecord(o.state.known[id])
    {
      if e in rest {
        assert InFlight(sys, e, id);
      } else {
        SentAnnounce(sys.nodes.Keys, n, o.out, dest, e);
        assert Announces(o, e.msg.record);
      }
    }
    assert forall e :: e in rest && InFlight(next, e, id) ==> InFlight(sys, e, id);
  }

  /** A local call of the lobby's owner. */
  lemma OwnerActKeepsVersions(sys: System, n: Bytes, act: Act, dest: Bytes, id: Bytes)
    requires BaseInv(sys) && OneHeir(sys, id) && VersionsFit(sys) && VersionsMeanContent(sys, id)
    requires Possible(sys, Local(n, act, dest)) && Owns(sys, n, id) && !JoinsOffRoster(sys.nodes[n], act, id)
    requires id in ActOutcome(sys.nodes[n], act).state.owned || MayRelease(sys, ActOutcome(sys.nodes[n], act), id)
    ensures VersionsMeanContent(Apply(sys, Local(n, act, dest)), id)
  {
    LocalIsNodeStep(sys, n, act, dest);
    ActVersions(sys.nodes[n], act, id);
    OwnerKeepsVersions(sys, Apply(sys, Local(n, act, dest)), n, sys.net, ActOutcome(sys.nodes[n], act),
        NewLobbies(act), dest, id);
  }

  lemma UnheardOf(sys: System, id: Bytes)
    requires BaseInv(sys) && id !in sys.minted
    ensures (forall e :: !InFlight(sys, e, id)) && NoTokens(sys, id)
  {
  }

  lemma CreateAnnouncesItsRecord(s: NodeState, act: Act)
    requires act.Create?
    ensures var o := ActOutcome(s, act);
      act.id in o.state.owned && act.id in o.state.known
      && forall r :: Announces(o, r) ==> r == CanonRecord(o.state.known[act.id])
  {
  }

  /** Creating the lobby: nobody has heard of it. */
  lemma CreateKeepsVersions(sys: System, n: Bytes, act: Act, dest: Bytes, id: Bytes)
    requires BaseInv(sys) && OneHeir(sys, id) && VersionsMeanContent(sys, id)
    requires Possible(sys, Local(n, act, dest)) && id in NewLobbies(act)
    ensures VersionsMeanContent(Apply(sys, Local(n, act, dest)), id)
  {
    LocalIsNodeStep(sys, n, act, dest);
    UnheardOf(sys, id);
    LocalKeepsHeir(sys, n, act, dest, id);
    CreateAnnouncesItsRecord(sys.nodes[n], act);
    GainKeepsVersions(sys, Apply(sys, Local(n, act, dest)), n, sys.net, ActOutcome(sys.nodes[n], act),
        NewLobbies(act), dest, id);
  }

  /** No announce in flight about the lobby has this version. */
  ghost predicate Unseen(sys: System, id: Bytes, version: nat) {
    forall e :: InFlight(sys, e, id) ==> e.msg.record.version != version
  }

  /** An owner's join of its own lobby keeps the meaning of versions exactly when it is still
      on the roster, or its current version is nowhere in flight: the join changes the record
      without a new version. */
  lemma OwnerJoinExactly(sys: System, n: Bytes, act: Act, dest: Bytes, id: Bytes)
    requires BaseInv(sys) && OneHeir(sys, id) && VersionsMeanContent(sys, id) && Owns(sys, n, id)
    requires Possible(sys, Local(n, act, dest)) && (act.Join? || act.JoinById?) && Subject(act) == id
    ensures VersionsMeanContent(Apply(sys, Local(n, act, dest)), id)
       <==> HasMember(sys.nodes[n].known[id], n) || Unseen(sys, id, sys.nodes[n].known[id].version)
  {
    var s, next := sys.nodes[n], Apply(sys, Local(n, act, dest));
    LocalIsNodeStep(sys, n, act, dest);
    assert ActOutcome(s, act).state.known[id] == WithMember(s.known[id], n);
    assert forall r :: !Announces(ActOutcome(s, act), r);
    forall e ensures InFlight(next, e, id) <==> InFlight(sys, e, id) {
      if InFlight(next, e, id) && e !in sys.net { SentAnnounce(sys.nodes.Keys, n, ActOutcome(s, act).out, dest, e); }
    }
    JoinedRecordDiffers(s.known[id], n);
    OwnerWithRecord(sys, next, n, id, WithMember(s.known[id], n));
  }

  lemma JoinedRecordDiffers(r: LobbyRecord, id: Bytes)
    ensures CanonRecord(WithMember(r, id)) == CanonRecord(r) <==> HasMember(r, id)
  {
    assert |CanonRecord(r).members| == |r.members|
        && |CanonRecord(WithMember(r, id)).members| == |WithMember(r, id).members|;
  }

  /** The owner's record is replaced by one of the same version, with nothing new in flight. */
  lemma OwnerWithRecord(sys: System, next: System, n: Bytes, id: Bytes, q: LobbyRecord)
    requires OneHeir(sys, id) && VersionsMeanContent(sys, id) && Owns(sys, n, id) && Owns(next, n, id)
    requires forall m :: Owns(next, m, id) ==> Owns(sys, m, id)
    requires forall e :: InFlight(next, e, id) <==> InFlight(sys, e, id)
    requires id in sys.nodes[n].known && id in next.nodes[n].known && next.nodes[n].known[id] == q
    requires q.version == sys.nodes[n].known[id].version
    ensures VersionsMeanContent(next, id)
       <==> CanonRecord(q) == CanonRecord(sys.nodes[n].known[id]) || Unseen(sys, id, q.version)
  {
    forall e | InFlight(sys, e, id) ensures NotNewer(e.msg.record, sys.nodes[n].known, id) {
    }
    if !Unseen(sys, id, q.version) {
      var e :| InFlight(sys, e, id) && e.msg.record.version == q.version;
      assert e.msg.record == CanonRecord(sys.nodes[n].known[id]);
      assert NotNewer(e.msg.record, next.nodes[n].known, id) <==> e.msg.record == CanonRecord(q);
      assert InFlight(next, e, id);
    }
  }

  lemma LocalKeepsVersions(sys: System, n: Bytes, act: Act, dest: Bytes, id: Bytes)
    requires BaseInv(sys) && OneHeir(sys, id) && VersionsFit(sys) && VersionsMeanContent(sys, id)
    requires Possible(sys, Local(n, act, dest))
    requires JoinsOffRoster(sys.nodes[n], act, id) ==> Unseen(sys, id, sys.nodes[n].known[id].version)
    requires Owns(sys, n, id) ==>
      id in ActOutcome(sys.nodes[n], act).state.owned || MayRelease(sys, ActOutcome(sys.nodes[n], act), id)
    ensures VersionsMeanContent(Apply(sys, Local(n, act, dest)), id)
  {
    if JoinsOffRoster(sys.nodes[n], act, id) {
      OwnerJoinExactly(sys, n, act, dest, id);
    } else if Owns(sys, n, id) {
      OwnerActKeepsVersions(sys, n, act, dest, id);
    } else if id in NewLobbies(act) {
      CreateKeepsVersions(sys, n, act, dest, id);
    } else {
      LocalIsNodeStep(sys, n, act, dest);
      BystanderKeepsVersions(sys, Apply(sys, Local(n, act, dest)), n, sys.net, ActOutcome(sys.nodes[n], act),
          NewLobbies(act), dest, id);
    }
  }

  lemma DeliverKeepsVersions(sys: System, e: Envelope, source: Endpoint, tick: nat, dest: Bytes, id: Bytes)
    requires BaseInv(sys) && OneHeir(sys, id) && VersionsFit(sys) && VersionsMeanContent(sys, id)
    requires Possible(sys, Deliver(e, source, tick, dest))
    requires Owns(sys, e.to, id) ==>
      var o := OnMsg(sys.nodes[e.to], e.msg, source, tick); id in o.state.owned || MayRelease(sys, o, id)
    ensures VersionsMeanContent(Apply(sys, Deliver(e, source, tick, dest)), id)
  {
    var next := Apply(sys, Deliver(e, source, tick, dest));
    var n, rest := e.to, sys.net - multiset{e};
    var s, o, gained := sys.nodes[n], OnMsg(sys.nodes[n], e.msg, source, tick), Gained(sys.nodes[n], e.msg);
    DeliverIsNodeStep(sys, e, source, tick, dest);
    if id in s.owned {
      MsgVersions(s, e.msg, source, tick, id);
      OwnerKeepsVersions(sys, next, n, rest, o, gained, dest, id);
    } else if id in o.state.owned {
      AdoptionKeepsVersions(sys, e, source, tick, dest, id);
    } else {
      BystanderKeepsVersions(sys, next, n, rest, o, gained, dest, id);
    }
  }

  /** A delivered hand-off that is adopted keeps the meaning of versions exactly when
      nothing left in flight is newer: a copy of an old hand-off, adopted late, takes the
      lobby back to an old version. */
  lemma AdoptionExactly(sys: System, e: Envelope, source: Endpoint, tick: nat, dest: Bytes, id: Bytes)
    requires BaseInv(sys) && OneHeir(sys, id) && VersionsIdentify(sys, id)
    requires Possible(sys, Deliver(e, source, tick, dest))
    requires id !in sys.nodes[e.to].owned && id in OnMsg(sys.nodes[e.to], e.msg, source, tick).state.owned
    ensures VersionsMeanContent(Apply(sys, Deliver(e, source, tick, dest)), id)
       <==> forall f :: f in sys.net - multiset{e} && InFlight(sys, f, id) ==>
           f.msg.record.version <= e.msg.record.version
  {
    var next := Apply(sys, Deliver(e, source, tick, dest));
    var n, rest := e.to, sys.net - multiset{e};
    DeliverIsNodeStep(sys, e, source, tick, dest);
    DeliverKeepsHeir(sys, e, source, tick, dest, id);
    assert InFlight(sys, e, id) && CanonRecord(e.msg.record) == e.msg.record;
    assert next.net == rest;
    OwnedVersions(sys, next, n, rest, id, e.msg.record);
  }

  /** One owner, with record r up to where it was heard, and only old announces in flight. */
  lemma OwnedVersions(sys: System, next: System, n: Bytes, rest: multiset<Envelope>, id: Bytes, r: LobbyRecord)
    requires VersionsIdentify(sys, id) && OneHeir(next, id) && Owns(next, n, id) && next.net == rest && rest <= sys.net
    requires id in next.nodes[n].known && CanonRecord(next.nodes[n].known[id]) == r
          && next.nodes[n].known[id].version == r.version
    requires exists e :: InFlight(sys, e, id) && e.msg.record == r
    ensures VersionsMeanContent(next, id)
       <==> forall f :: f in rest && InFlight(sys, f, id) ==> f.msg.record.version <= r.version
  {
    assert forall f :: f in rest ==> (InFlight(next, f, id) <==> InFlight(sys, f, id));
    assert forall f :: f in rest && InFlight(sys, f, id) ==>
      (NotNewer(f.msg.record, next.nodes[n].known, id) <==> f.msg.record.version <= r.version);
  }

  /** A delivered hand-off makes its addressee the owner. */
  lemma AdoptionKeepsVersions(sys: System, e: Envelope, source: Endpoint, tick: nat, dest: Bytes, id: Bytes)
    requires BaseInv(sys) && OneHeir(sys, id) && VersionsMeanContent(sys, id)
    requires Possible(sys, Deliver(e, source, tick, dest))
    requires id !in sys.nodes[e.to].owned && id in OnMsg(sys.nodes[e.to], e.msg, source, tick).state.owned
    ensures VersionsMeanContent(Apply(sys, Deliver(e, source, tick, dest)), id)
  {
    DeliverIsNodeStep(sys, e, source, tick, dest);
    assert Token(sys, e, id);
    assert Unowned(sys, id);
    AdoptionExactly(sys, e, source, tick, dest, id);
  }

  /** Giving a lobby up, by a local call or on a datagram that closes it, keeps the meaning of
      versions exactly under that condition, when another node is there to hear. */
  lemma ReleaseExactly(sys: System, step: Step, n: Bytes, o: Outcome, id: Bytes, m: Bytes)
    requires BaseInv(sys) && OneHeir(sys, id) && VersionsFit(sys) && VersionsMeanContent(sys, id)
    requires Possible(sys, step) && Acts(sys, step, n, o) && Owns(sys, n, id) && id !in o.state.owned
    requires m in sys.nodes && m != n
    ensures VersionsMeanContent(Apply(sys, step), id) <==> MayRelease(sys, o, id)
  {
    match step
    case Local(_, act, dest) =>
      LocalIsNodeStep(sys, n, act, dest);
      ActVersions(sys.nodes[n], act, id);
      NodeReleaseExactly(sys, Apply(sys, step), n, sys.net, o, NewLobbies(act), dest, id, m);
    case Deliver(e, source, tick, dest) =>
      DeliverIsNodeStep(sys, e, source, tick, dest);
      MsgVersions(sys.nodes[n], e.msg, source, tick, id);
      ReleasedByLeave(sys.nodes[n], e.msg, source, tick, id);
      NodeReleaseExactly(sys, Apply(sys, step), n, sys.net - multiset{e}, o, Gained(sys.nodes[n], e.msg), dest, id, m);
  }

  lemma ReleasedByLeave(s: NodeState, msg: Msg, source: Endpoint, tick: nat, id: Bytes)
    requires id in s.owned && id !in OnMsg(s, msg, source, tick).state.owned
    ensures msg.Leave?
  {
  }

  /** Losing and copying datagrams. */
  lemma NetworkKeepsVersions(sys: System, next: System, id: Bytes)
    requires VersionsMeanContent(sys, id) && next.nodes == sys.nodes && forall e :: e in next.net ==> e in sys.net
    ensures VersionsMeanContent(next, id)
  {
    assert forall f :: InFlight(next, f, id) ==> InFlight(sys, f, id);
    assert forall f :: Token(next, f, id) ==> Token(sys, f, id);
    assert forall m :: Owns(next, m, id) <==> Owns(sys, m, id);
  }

  /** An owner off its own roster joins its lobby only while its version is not in flight. */
  ghost predicate JoinsUnseen(sys: System, step: Step)
    requires Possible(sys, step)
  {
    step.Local? ==>
      forall id :: JoinsOffRoster(sys.nodes[step.node], step.act, id) ==>
          Unseen(sys, id, sys.nodes[step.node].known[id].version)
  }

  lemma StepKeepsVersions(sys: System, step: Step, id: Bytes)
    requires AuthorityInv(sys) && VersionsFit(sys) && VersionsMeanContent(sys, id)
    requires Possible(sys, step) && JoinsUnseen(sys, step) && ReleasesSettled(sys, step)
    ensures VersionsMeanContent(Apply(sys, step), id)
  {
    assert OneHeir(sys, id);
    match step
    case Local(n, act, dest) =>
      assert Acts(sys, step, n, ActOutcome(sys.nodes[n], act));
      LocalKeepsVersions(sys, n, act, dest, id);
    case Deliver(e, source, tick, dest) =>
      assert Acts(sys, step, e.to, OnMsg(sys.nodes[e.to], e.msg, source, tick));
      DeliverKeepsVersions(sys, e, source, tick, dest, id);
    case Lose(_) => NetworkKeepsVersions(sys, Apply(sys, step), id);
    case Duplicate(_) => NetworkKeepsVersions(sys, Apply(sys, step), id);
  }

  // ---- every careful run --------------------------------------------------------------------

  ghost predicate IsCarefulRun(run: seq<System>, steps: seq<Step>) {
    && IsRun(run, steps)
    && forall i :: 0 <= i < |steps| ==> Careful(run[i], steps[i])
  }

  /** Every lobby is given up under the condition of ReleaseExactly. */
  ghost predicate ReleasesSettle(run: seq<System>, steps: seq<Step>)
    requires IsRun(run, steps)
  {
    forall i :: 0 <= i < |steps| ==> ReleasesSettled(run[i], steps[i])
  }

  /** A run whose owners give lobbies up and join their own lobbies under the conditions of
      ReleaseExactly and OwnerJoinExactly. */
  ghost predicate IsVersionedRun(run: seq<System>, steps: seq<Step>) {
    && IsRun(run, steps) && ReleasesSettle(run, steps)
    && forall i :: 0 <= i < |steps| ==> JoinsUnseen(run[i], steps[i])
  }

  lemma ReleasesSettleHandoffs(run: seq<System>, steps: seq<Step>)
    requires IsRun(run, steps) && ReleasesSettle(run, steps)
    ensures HandoffsSettle(run, steps)
  {
    forall i | 0 <= i < |steps| ensures Settled(run[i], steps[i]) {
      RunKeepsBaseInv(run, steps, i);
      ReleasesCoverHandovers(run[i], steps[i]);
    }
  }

  /** No condition is left where the network copies no hand-off. */
  lemma UncopiedReleasesSettle(run: seq<System>, steps: seq<Step>)
    requires IsRun(run, steps) && LobbyHandoffs.NoHandoffCopied(steps)
    ensures ReleasesSettle(run, steps)
  {
    LobbyHandoffs.UncopiedHandoffsSettle(run, steps);
    forall i | 0 <= i < |steps| ensures ReleasesSettled(run[i], steps[i]) {
      forall n, o, id | Acts(run[i], steps[i], n, o) && id in run[i].nodes[n].owned ensures NoTokens(run[i], id) {
        assert Owns(run[i], n, id);
      }
    }
  }

  /** Admission: in every reachable state, whatever the network copies, each owner's record
      and each announce in flight has no duplicate members and no more than the lobby
      holds, across any number of hand-offs, and the indexes stay inside the cache. */
  lemma {:induction false} RostersStayGood(run: seq<System>, steps: seq<Step>, k: nat)
    requires IsCarefulRun(run, steps) && k < |run|
    ensures RosterInv(run[k])
  {
    if k == 0 {
      InitialRosters(run[0]);
    } else {
      RostersStayGood(run, steps, k - 1);
      RunKeepsBaseInv(run, steps, k - 1);
      RunStep(run, steps, k - 1);
      StepKeepsRosters(run[k - 1], steps[k - 1]);
    }
  }

  lemma InitialRosters(sys: System)
    requires Initial(sys)
    ensures RosterInv(sys)
  {
  }

  lemma {:induction false} VersionsStayMeaningful(run: seq<System>, steps: seq<Step>, k: nat, id: Bytes)
    requires IsVersionedRun(run, steps) && k < |run|
    requires forall i :: 0 <= i < k ==> VersionsFit(run[i])
    ensures AuthorityInv(run[k]) && VersionsMeanContent(run[k], id)
  {
    ReleasesSettleHandoffs(run, steps);
    RunKeepsAuthority(run, steps, k);
    if k > 0 {
      VersionsStayMeaningful(run, steps, k - 1, id);
      RunStep(run, steps, k - 1);
      StepKeepsVersions(run[k - 1], steps[k - 1], id);
    }
  }

  // ---- convergence ----------------------------------------------------------------------------

  /** Equal up to where and when the record was heard. */
  ghost predicate SameRecord(r: LobbyRecord, q: LobbyRecord) {
    CanonRecord(r) == CanonRecord(q)
  }

  ghost predicate Replicates(sys: System, m: Bytes, n: Bytes, id: Bytes)
    requires m in sys.nodes && n in sys.nodes
  {
    && id in sys.nodes[m].known && id in sys.nodes[n].known
    && SameRecord(sys.nodes[m].known[id], sys.nodes[n].known[id])
  }

  /** A non-owner that takes an announce in flight ends with a record equal to the owner's
      exactly when the announce carries the owner's version, whoever sent it and whenever:
      an announce that arrives late sets the replica back. */
  lemma CurrentAnnounceConverges(run: seq<System>, steps: seq<Step>, k: nat, n: Bytes, e: Envelope, id: Bytes,
                                 source: Endpoint, tick: nat, dest: Bytes)
    requires IsVersionedRun(run, steps) && k < |run| && forall i :: 0 <= i < k ==> VersionsFit(run[i])
    requires Owns(run[k], n, id) && InFlight(run[k], e, id) && e.to in run[k].nodes && e.to != n
    requires id in run[k].nodes[n].known
    ensures Replicates(Apply(run[k], Deliver(e, source, tick, dest)), e.to, n, id)
       <==> e.msg.record.version == run[k].nodes[n].known[id].version
  {
    VersionsStayMeaningful(run, steps, k, id);
    DeliveredReplica(run[k], n, e, id, source, tick, dest);
  }

  lemma DeliveredReplica(sys: System, n: Bytes, e: Envelope, id: Bytes, source: Endpoint, tick: nat, dest: Bytes)
    requires AuthorityInv(sys) && VersionsMeanContent(sys, id)
    requires Owns(sys, n, id) && InFlight(sys, e, id) && e.to in sys.nodes && e.to != n && id in sys.nodes[n].known
    ensures Replicates(Apply(sys, Deliver(e, source, tick, dest)), e.to, n, id)
       <==> e.msg.record.version == sys.nodes[n].known[id].version
  {
    assert OneHeir(sys, id) && !Owns(sys, e.to, id);
    assert CanonRecord(e.msg.record) == e.msg.record;
    assert NotNewer(e.msg.record, sys.nodes[n].known, id);
  }

  /** A re-announcement round: the listed nodes, one after the other, receive the owner's
      announce of `r`. */
  ghost function Round(sys: System, n: Bytes, r: LobbyRecord, ms: seq<Bytes>, source: Endpoint, tick: nat): System
    decreases ms
  {
    if ms == [] then sys
    else
      var step := Deliver(Envelope(ms[0], n, Announce(r)), source, tick, n);
      if Possible(sys, step) then Round(Apply(sys, step), n, r, ms[1..], source, tick) else sys
  }

  ghost predicate CopiesInFlight(sys: System, n: Bytes, r: LobbyRecord, ms: seq<Bytes>) {
    forall i :: 0 <= i < |ms| ==> ms[i] in sys.nodes && ms[i] != n && Envelope(ms[i], n, Announce(r)) in sys.net
  }

  /** The owner holds this record, up to where and when it was heard. */
  ghost predicate OwnerHolds(sys: System, n: Bytes, id: Bytes, r: LobbyRecord) {
    Owns(sys, n, id) && id in sys.nodes[n].known && CanonRecord(sys.nodes[n].known[id]) == r && r.lobbyId == id
  }

  /** Node m ends up with this record, up to where and when it was heard. */
  ghost predicate Holds(sys: System, m: Bytes, r: LobbyRecord) {
    m in sys.nodes && r.lobbyId in sys.nodes[m].known && CanonRecord(sys.nodes[m].known[r.lobbyId]) == r
  }

  lemma OneCopyArrives(sys: System, n: Bytes, id: Bytes, r: LobbyRecord, m: Bytes, source: Endpoint, tick: nat)
    requires AuthorityInv(sys) && OwnerHolds(sys, n, id, r) && m in sys.nodes && m != n
    requires Envelope(m, n, Announce(r)) in sys.net
    ensures var e := Envelope(m, n, Announce(r)); var next := Apply(sys, Deliver(e, source, tick, n));
      && AuthorityInv(next) && OwnerHolds(next, n, id, r) && Holds(next, m, r)
      && next.net == sys.net - multiset{e} && next.nodes.Keys == sys.nodes.Keys
      && forall k :: k in sys.nodes && k != m ==> next.nodes[k] == sys.nodes[k]
  {
    var e := Envelope(m, n, Announce(r));
    StepKeepsAuthorityInv(sys, Deliver(e, source, tick, n));
    assert OneHeir(sys, id) && !Owns(sys, m, id);
    assert InFlight(sys, e, id);
    assert id != [];
  }

  lemma {:induction false} RoundConverges(sys: System, n: Bytes, id: Bytes, r: LobbyRecord, ms: seq<Bytes>,
                                          source: Endpoint, tick: nat)
    requires AuthorityInv(sys) && OwnerHolds(sys, n, id, r) && CopiesInFlight(sys, n, r, ms) && NoDuplicates(ms)
    ensures var last := Round(sys, n, r, ms, source, tick);
      && OwnerHolds(last, n, id, r) && last.nodes.Keys == sys.nodes.Keys
      && (forall i :: 0 <= i < |ms| ==> Holds(last, ms[i], r))
      && (forall m :: m in sys.nodes && m !in ms ==> last.nodes[m] == sys.nodes[m])
    decreases ms
  {
    if ms != [] {
      var e := Envelope(ms[0], n, Announce(r));
      var next := Apply(sys, Deliver(e, source, tick, n));
      OneCopyArrives(sys, n, id, r, ms[0], source, tick);
      forall i | 0 <= i < |ms[1..]| ensures Envelope(ms[1..][i], n, Announce(r)) in next.net {
        assert ms[1..][i] == ms[i + 1];
      }
      RoundConverges(next, n, id, r, ms[1..], source, tick);
      assert ms[0] !in ms[1..];
      assert Round(sys, n, r, ms, source, tick) == Round(next, n, r, ms[1..], source, tick);
      forall i | 0 <= i < |ms| ensures Holds(Round(next, n, r, ms[1..], source, tick), ms[i], r) {
        if i > 0 { assert ms[i] == ms[1..][i - 1]; }
      }
    }
  }

  lemma ReannounceReaches(sys: System, n: Bytes, id: Bytes, m: Bytes)
    requires NodesProper(sys) && Owns(sys, n, id) && m in sys.nodes && m != n
    ensures Envelope(m, n, Announce(CanonRecord(sys.nodes[n].known[id]))) in Apply(sys, Local(n, Reannounce(id), n)).net
  {
    var o := ActOutcome(sys.nodes[n], Reannounce(id));
    assert o.out == [AnnounceOf(sys.nodes[n].known[id])];
    assert Envelope(m, n, Announce(CanonRecord(sys.nodes[n].known[id]))) in SendOne(sys.nodes.Keys, n, o.out[0], n);
  }

  /** The periodic announce repairs every replica: if the owner announces and every copy
      of that announce arrives, all nodes end with the owner's record, however far apart
      lost datagrams and local edits had driven them. */
  lemma AnnounceRoundConverges(run: seq<System>, steps: seq<Step>, k: nat, n: Bytes, id: Bytes, ms: seq<Bytes>,
                               source: Endpoint, tick: nat)
    requires IsRun(run, steps) && HandoffsSettle(run, steps) && k < |run| && Owns(run[k], n, id)
    requires NoDuplicates(ms) && Elements(ms) == run[k].nodes.Keys - {n}
    ensures id in run[k].nodes[n].known
    ensures var r := CanonRecord(run[k].nodes[n].known[id]);
      var last := Round(Apply(run[k], Local(n, Reannounce(id), n)), n, r, ms, source, tick);
      last.nodes.Keys == run[k].nodes.Keys && forall m :: m in last.nodes ==> Holds(last, m, r)
  {
    var sys := run[k];
    RunKeepsAuthority(run, steps, k);
    OwnerRound(sys, n, id, ms, source, tick);
  }

  lemma ReannounceSettled(sys: System, n: Bytes, id: Bytes)
    requires BaseInv(sys) && Owns(sys, n, id)
    ensures Settled(sys, Local(n, Reannounce(id), n))
  {
    var o := ActOutcome(sys.nodes[n], Reannounce(id));
    assert forall r :: Announces(o, r) ==> r.ownerId == n;
  }

  lemma OwnerRound(sys: System, n: Bytes, id: Bytes, ms: seq<Bytes>, source: Endpoint, tick: nat)
    requires AuthorityInv(sys) && Owns(sys, n, id)
    requires NoDuplicates(ms) && Elements(ms) == sys.nodes.Keys - {n}
    ensures id in sys.nodes[n].known
    ensures var r := CanonRecord(sys.nodes[n].known[id]);
      var last := Round(Apply(sys, Local(n, Reannounce(id), n)), n, r, ms, source, tick);
      last.nodes.Keys == sys.nodes.Keys && forall m :: m in last.nodes ==> Holds(last, m, r)
  {
    var sent := Apply(sys, Local(n, Reannounce(id), n));
    var r := CanonRecord(sys.nodes[n].known[id]);
    ReannounceSettled(sys, n, id);
    StepKeepsAuthorityInv(sys, Local(n, Reannounce(id), n));
    assert sent.nodes == sys.nodes;
    forall i | 0 <= i < |ms| ensures ms[i] in sent.nodes && ms[i] != n && Envelope(ms[i], n, Announce(r)) in sent.net {
      assert ms[i] in Elements(ms);
      ReannounceReaches(sys, n, id, ms[i]);
    }
    RoundConverges(sent, n, id, r, ms, source, tick);
    forall m | m in sys.nodes && m != n ensures exists i :: 0 <= i < |ms| && ms[i] == m {
      assert m in Elements(ms);
    }
  }
}
