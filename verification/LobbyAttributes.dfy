/** Attribute lists over runs: members are listed once and their attribute keys once, on every
    node and in flight, so that lists may be read as maps; and a member's change reads back
    through the owner. */
module LobbyAttributes {
  import opened Basics
  import opened ByteCodec
  import opened AttributeCodec
  import opened LobbyCodec
  import opened AttrLists
  import opened LobbyNode
  import opened LobbySystem
  import opened LobbyReplicas
  import opened LobbyEvents

  // ---- one record ------------------------------------------------------------------------

  /** Every member once, with every attribute key once, and every key of the lobby once. */
  ghost predicate Tidy(r: LobbyRecord) {
    DistinctMembers(r.members) && UniqueAttrKeys(r.members) && UniqueKeys(r.attributes)
  }

  lemma CanonIsTidy(r: LobbyRecord)
    ensures Tidy(CanonRecord(r)) <==> Tidy(r)
  {
    var ms, cs := r.members, CanonRecord(r).members;
    assert |cs| == |ms|;
    CanonKeepsMap(r.attributes);
    forall i | 0 <= i < |ms| ensures cs[i].id == ms[i].id
        && (UniqueKeys(cs[i].attributes) <==> UniqueKeys(ms[i].attributes)) {
      assert cs[i] == CanonMember(ms[i]);
      CanonKeepsMap(ms[i].attributes);
    }
  }

  lemma RosterEditsAreTidy(r: LobbyRecord, id: Bytes)
    requires Tidy(r)
    ensures Tidy(WithMember(r, id)) && Tidy(WithoutMember(r, id)) && Tidy(Bumped(r))
  {
  }

  lemma AttrEditsAreTidy(r: LobbyRecord, id: Bytes, adds: seq<NamedAttr>, removes: seq<Bytes>)
    requires Tidy(r)
    ensures Tidy(WithMemberAttrs(r, id, adds, removes))
  {
    var i := FirstMember(r.members, id);
    if i < |r.members| { MergeIsMapMerge(r.members[i].attributes, adds, removes); }
  }

  // ---- one node --------------------------------------------------------------------------

  /** The call stores the handle's record, having none of the lobby. */
  ghost predicate TakesHandle(s: NodeState, act: Act, id: Bytes) {
    act.Join? && act.handle.lobbyId == id && !(id in s.known && s.known[id].lobbyId != [])
  }

  lemma LeavingIsTidy(s: NodeState, id: Bytes)
    requires id in s.known && Tidy(s.known[id])
    ensures id in DoLeave(s, id).state.known ==> Tidy(DoLeave(s, id).state.known[id])
  {
    RosterEditsAreTidy(s.known[id], s.me);
  }

  lemma UpdateIsTidy(s: NodeState, m: Modification)
    requires m.lobbyId in s.known && Tidy(s.known[m.lobbyId])
    ensures m.lobbyId in DoUpdate(s, m).state.known && Tidy(DoUpdate(s, m).state.known[m.lobbyId])
  {
    var r := s.known[m.lobbyId];
    AttrEditsAreTidy(r, s.me, m.addMemberAttrs, m.removeMemberAttrs);
    MergeIsMapMerge(r.attributes, m.addAttrs, m.removeAttrs);
    assert Modified(r, m, s.me).members == WithMemberAttrs(r, s.me, m.addMemberAttrs, m.removeMemberAttrs).members;
  }

  /** A local call leaves the record tidy, if it was and if a handle it stores is. */
  lemma ActIsTidy(s: NodeState, act: Act, id: Bytes)
    requires id in s.known ==> Tidy(s.known[id])
    requires TakesHandle(s, act, id) ==> Tidy(act.handle)
    ensures var known := ActOutcome(s, act).state.known; id in known ==> Tidy(known[id])
  {
    var o := ActOutcome(s, act);
    if id in o.state.known {
      if Subject(act) != id {
        OtherActsKeepOthers(s, act, id);
      } else if act.Create? {
        assert o.state.known[id].members == [NewMember(s.me)];
      } else if act.Join? {
        RosterEditsAreTidy(if TakesHandle(s, act, id) then act.handle else s.known[id], s.me);
      } else {
        OwnRecordActIsTidy(s, act, id);
      }
    }
  }

  lemma OwnRecordActIsTidy(s: NodeState, act: Act, id: Bytes)
    requires Subject(act) == id && !act.Create? && !act.Join? && (id in s.known ==> Tidy(s.known[id]))
    ensures var known := ActOutcome(s, act).state.known; id in known ==> Tidy(known[id])
  {
    if id in s.known {
      match act
      case Destroy(_) =>
      case JoinById(_) => RosterEditsAreTidy(s.known[id], s.me);
      case LeaveLobby(_) => if id in s.memberOf { LeavingIsTidy(s, id); }
      case UpdateLobby(m) => UpdateIsTidy(s, m);
      case Promote(_, _) =>
      case Kick(_, target) => RosterEditsAreTidy(s.known[id], target);
      case Reannounce(_) =>
    }
  }

  lemma DepartureIsTidy(s: NodeState, l: Bytes, subject: Bytes, reason: Byte, id: Bytes)
    requires id in s.known && Tidy(s.known[id])
    ensures var known := OnLeave(s, l, subject, reason).state.known; id in known ==> Tidy(known[id])
  {
    RosterEditsAreTidy(s.known[id], subject);
  }

  lemma MsgIsTidy(s: NodeState, msg: Msg, source: Endpoint, tick: nat, id: Bytes)
    requires id in s.known ==> Tidy(s.known[id])
    requires msg.Announce? ==> Tidy(msg.record)
    ensures var known := OnMsg(s, msg, source, tick).state.known; id in known ==> Tidy(known[id])
  {
    if id in s.known {
      match msg
      case Announce(_) =>
      case Update(_, member, adds, removes) => AttrEditsAreTidy(s.known[id], member, adds, removes);
      case JoinRequest(_, joiner) => RosterEditsAreTidy(s.known[id], joiner);
      case Leave(l, subject, reason) => DepartureIsTidy(s, l, subject, reason, id);
    }
  }

  /** What a node announces is its new record of the lobby, which it owned or creates. */
  ghost predicate AnnouncesOwn(s: NodeState, o: Outcome, gained: set<Bytes>) {
    forall r :: Announces(o, r) ==>
      && (r.lobbyId in s.owned || r.lobbyId in gained)
      && r.lobbyId in o.state.known && r == CanonRecord(o.state.known[r.lobbyId])
  }

  lemma ActAnnouncesOwn(s: NodeState, act: Act)
    requires OwnsProperly(s)
    ensures AnnouncesOwn(s, ActOutcome(s, act), NewLobbies(act))
  {
  }

  lemma MsgAnnouncesOwn(s: NodeState, msg: Msg, source: Endpoint, tick: nat)
    requires OwnsProperly(s)
    ensures AnnouncesOwn(s, OnMsg(s, msg, source, tick), {})
  {
  }

  // ---- every run -------------------------------------------------------------------------

  ghost predicate TidyNet(net: multiset<Envelope>) {
    forall e :: e in net && e.msg.Announce? ==> Tidy(e.msg.record)
  }

  ghost predicate TidyOwned(s: NodeState) {
    forall id :: id in s.owned && id in s.known ==> Tidy(s.known[id])
  }

  ghost predicate TidyKnown(s: NodeState) {
    forall id :: id in s.known ==> Tidy(s.known[id])
  }

  /** Owners' records and announces in flight are tidy. */
  ghost predicate OwnersTidy(sys: System) {
    TidyNet(sys.net) && forall n :: n in sys.nodes ==> TidyOwned(sys.nodes[n])
  }

  /** So are all replicas. */
  ghost predicate AllTidy(sys: System) {
    TidyNet(sys.net) && forall n :: n in sys.nodes ==> TidyKnown(sys.nodes[n])
  }

  lemma SentIsTidy(sys: System, next: System, n: Bytes, rest: multiset<Envelope>, o: Outcome, gained: set<Bytes>,
                   dest: Bytes)
    requires TidyNet(sys.net) && NodeStep(sys, next, n, rest, o, gained, dest)
    requires forall r :: Announces(o, r) ==> Tidy(r)
    ensures TidyNet(next.net)
  {
    forall e | e in next.net && e.msg.Announce? ensures Tidy(e.msg.record) {
      if e !in rest {
        SentAnnounce(sys.nodes.Keys, n, o.out, dest, e);
        assert Announces(o, e.msg.record);
      }
    }
  }

  lemma AnnouncedIsTidy(s: NodeState, o: Outcome, gained: set<Bytes>)
    requires AnnouncesOwn(s, o, gained)
    requires forall id :: (id in s.owned || id in gained) && id in o.state.known ==> Tidy(o.state.known[id])
    ensures forall r :: Announces(o, r) ==> Tidy(r)
  {
    forall r | Announces(o, r) ensures Tidy(r) { CanonIsTidy(o.state.known[r.lobbyId]); }
  }

  /** A local call by an owner, whatever handles are about. */
  lemma LocalKeepsOwnersTidy(sys: System, n: Bytes, act: Act, dest: Bytes)
    requires BaseInv(sys) && OwnersTidy(sys) && Possible(sys, Local(n, act, dest))
    ensures OwnersTidy(Apply(sys, Local(n, act, dest)))
  {
    var s, o, next := sys.nodes[n], ActOutcome(sys.nodes[n], act), Apply(sys, Local(n, act, dest));
    LocalIsNodeStep(sys, n, act, dest);
    forall id | (id in s.owned || id in NewLobbies(act)) && id in o.state.known ensures Tidy(o.state.known[id]) {
      if id in s.owned { ActIsTidy(s, act, id); } else { CreatedIsTidy(s, act); }
    }
    ActAnnouncesOwn(s, act);
    AnnouncedIsTidy(s, o, NewLobbies(act));
    SentIsTidy(sys, next, n, sys.net, o, NewLobbies(act), dest);
  }

  lemma CreatedIsTidy(s: NodeState, act: Act)
    requires act.Create?
    ensures act.id in ActOutcome(s, act).state.known && Tidy(ActOutcome(s, act).state.known[act.id])
  {
    assert ActOutcome(s, act).state.known[act.id].members == [NewMember(s.me)];
  }

  lemma DeliverKeepsOwnersTidy(sys: System, e: Envelope, source: Endpoint, tick: nat, dest: Bytes)
    requires BaseInv(sys) && OwnersTidy(sys) && Possible(sys, Deliver(e, source, tick, dest))
    ensures OwnersTidy(Apply(sys, Deliver(e, source, tick, dest)))
  {
    var s, o := sys.nodes[e.to], OnMsg(sys.nodes[e.to], e.msg, source, tick);
    var next := Apply(sys, Deliver(e, source, tick, dest));
    DeliverIsNodeStep(sys, e, source, tick, dest);
    forall id | id in s.owned && id in o.state.known ensures Tidy(o.state.known[id]) {
      MsgIsTidy(s, e.msg, source, tick, id);
    }
    assert forall id :: id in o.state.owned && id !in s.owned ==>
      e.msg.Announce? && o.state.known[id] == e.msg.record.(host := source, lastSeen := tick);
    MsgAnnouncesOwn(s, e.msg, source, tick);
    AnnouncedIsTidy(s, o, {});
    SentIsTidy(sys, next, e.to, sys.net - multiset{e}, o, Gained(s, e.msg), dest);
  }

  lemma StepKeepsOwnersTidy(sys: System, step: Step)
    requires BaseInv(sys) && OwnersTidy(sys) && Possible(sys, step)
    ensures OwnersTidy(Apply(sys, step))
  {
    match step
    case Local(n, act, dest) => LocalKeepsOwnersTidy(sys, n, act, dest);
    case Deliver(e, source, tick, dest) => DeliverKeepsOwnersTidy(sys, e, source, tick, dest);
    case Lose(_) =>
    case Duplicate(_) =>
  }

  /** On every run, without conditions: owners' records and announces in flight list each
      member once and each of its attribute keys once. */
  lemma {:induction false} OwnersStayTidy(run: seq<System>, steps: seq<Step>, k: nat)
    requires IsRun(run, steps) && k < |run|
    ensures OwnersTidy(run[k])
  {
    if k == 0 {
      assert OwnersTidy(run[0]);
    } else {
      OwnersStayTidy(run, steps, k - 1);
      RunKeepsBaseInv(run, steps, k - 1);
      RunStep(run, steps, k - 1);
      StepKeepsOwnersTidy(run[k - 1], steps[k - 1]);
    }
  }

  ghost predicate HandleTidy(step: Step) {
    step.Local? && step.act.Join? ==> Tidy(step.act.handle)
  }

  lemma StepKeepsAllTidy(sys: System, step: Step)
    requires BaseInv(sys) && AllTidy(sys) && Possible(sys, step) && HandleTidy(step)
    ensures AllTidy(Apply(sys, step))
  {
    match step
    case Local(n, act, dest) =>
      forall id | id in ActOutcome(sys.nodes[n], act).state.known
          ensures Tidy(ActOutcome(sys.nodes[n], act).state.known[id]) {
        ActIsTidy(sys.nodes[n], act, id);
      }
      StepKeepsOwnersTidy(sys, step);
    case Deliver(e, source, tick, dest) =>
      forall id | id in OnMsg(sys.nodes[e.to], e.msg, source, tick).state.known
        ensures Tidy(OnMsg(sys.nodes[e.to], e.msg, source, tick).state.known[id])
      {
        MsgIsTidy(sys.nodes[e.to], e.msg, source, tick, id);
      }
      StepKeepsOwnersTidy(sys, step);
    case Lose(_) =>
    case Duplicate(_) =>
  }

  /** A details handle is a copy of a record the node has, or had when it was made. */
  ghost predicate IsCopy(run: seq<System>, i: nat, n: Bytes, handle: LobbyRecord)
    requires i < |run|
  {
    exists j, id :: 0 <= j <= i && HasRecord(run[j], n, id, handle)
  }

  ghost predicate HasRecord(sys: System, n: Bytes, id: Bytes, r: LobbyRecord) {
    n in sys.nodes && id in sys.nodes[n].known && sys.nodes[n].known[id] == r
  }

  ghost predicate HandlesAreCopies(run: seq<System>, steps: seq<Step>)
    requires |run| == |steps| + 1
  {
    forall i :: 0 <= i < |steps| && steps[i].Local? && steps[i].act.Join? ==>
      IsCopy(run, i, steps[i].node, steps[i].act.handle)
  }

  lemma CopyIsTidy(run: seq<System>, i: nat, n: Bytes, handle: LobbyRecord)
    requires i < |run| && IsCopy(run, i, n, handle) && forall j :: 0 <= j <= i ==> AllTidy(run[j])
    ensures Tidy(handle)
  {
    var j, id :| 0 <= j <= i && HasRecord(run[j], n, id, handle);
    assert AllTidy(run[j]);
  }

  /** With handles as they come about, every node's records are tidy. */
  lemma {:induction false} RecordsStayTidy(run: seq<System>, steps: seq<Step>, k: nat)
    requires IsRun(run, steps) && HandlesAreCopies(run, steps) && k < |run|
    ensures forall j :: 0 <= j <= k ==> AllTidy(run[j])
  {
    if k == 0 {
      assert AllTidy(run[0]);
    } else {
      RecordsStayTidy(run, steps, k - 1);
      RunKeepsBaseInv(run, steps, k - 1);
      RunStep(run, steps, k - 1);
      var step := steps[k - 1];
      if step.Local? && step.act.Join? { CopyIsTidy(run, k - 1, step.node, step.act.handle); }
      StepKeepsAllTidy(run[k - 1], step);
    }
  }

  /** A member that takes any announce in flight is told once of exactly those members of both
      rosters whose attribute maps differ. */
  lemma AnnouncedUpdatesExact(run: seq<System>, steps: seq<Step>, k: nat, e: Envelope, source: Endpoint, tick: nat,
                              p: Bytes)
    requires IsRun(run, steps) && HandlesAreCopies(run, steps) && k < |run|
    requires e in run[k].net && e.msg.Announce? && e.to in run[k].nodes
    requires var s, id := run[k].nodes[e.to], e.msg.record.lobbyId;
      id != [] && id in s.known && id in s.memberOf && id !in s.owned
    ensures var s, id := run[k].nodes[e.to], e.msg.record.lobbyId;
      multiset(OnMsg(s, e.msg, source, tick).events)[MemberUpdated(id, p)]
        == if AttrsDiffer(s.known[id], e.msg.record, p) then 1 else 0
  {
    RecordsStayTidy(run, steps, k);
    UpdatesGoToChangedMembers(run[k].nodes[e.to].known[e.msg.record.lobbyId],
        e.msg.record.(host := source, lastSeen := tick), p);
  }

  // ---- read-back -------------------------------------------------------------------------

  /** The attributes of a listed member as they travel, by key. */
  ghost function WireAttrs(r: LobbyRecord, p: Bytes): map<Bytes, NamedAttr> {
    var i := FirstMember(r.members, p);
    if i < |r.members| then CanonMap(ToMap(r.members[i].attributes)) else map[]
  }

  /** A member changes its own attributes, and the owner merges what the member forwards. If
      both had the same attributes for it, then what the owner announces for it is what the
      member already reads locally. */
  lemma UpdateReadsBack(s: NodeState, owner: NodeState, m: Modification, source: Endpoint, tick: nat)
    requires m.lobbyId in s.known && m.lobbyId !in s.owned && m.lobbyId in s.memberOf && !LobbyScoped(m)
    requires m.lobbyId in owner.known && m.lobbyId in owner.owned
    requires Tidy(s.known[m.lobbyId]) && Tidy(owner.known[m.lobbyId])
    requires HasMember(s.known[m.lobbyId], s.me) && HasMember(owner.known[m.lobbyId], s.me)
    requires WireAttrs(s.known[m.lobbyId], s.me) == WireAttrs(owner.known[m.lobbyId], s.me)
    ensures var id := m.lobbyId;
      var mine, theirs := DoUpdate(s, m), OnMsg(owner, UpdateOf(id, s.me, m), source, tick);
      && (Reachable(s.known[id].host) ==> mine.out == [ToHost(s.known[id].host, UpdateOf(id, s.me, m))])
      && theirs.out == [AnnounceOf(theirs.state.known[id])]
      && WireAttrs(theirs.state.known[id], s.me) == WireAttrs(mine.state.known[id], s.me)
      && WireAttrs(CanonRecord(theirs.state.known[id]), s.me) == WireAttrs(mine.state.known[id], s.me)
  {
    var mine, theirs := s.known[m.lobbyId], owner.known[m.lobbyId];
    var i, j := FirstMember(mine.members, s.me), FirstMember(theirs.members, s.me);
    MergeReadsBack(mine.members[i].attributes, theirs.members[j].attributes, m.addMemberAttrs, m.removeMemberAttrs);
    ReplacedIsFirst(mine, s.me, m.addMemberAttrs, m.removeMemberAttrs);
    ReplacedIsFirst(theirs, s.me, MapSeq(m.addMemberAttrs, CanonAttr), m.removeMemberAttrs);
    CanonKeepsWireAttrs(OnUpdate(owner, m.lobbyId, s.me, MapSeq(m.addMemberAttrs, CanonAttr),
        m.removeMemberAttrs).state.known[m.lobbyId], s.me);
  }

  lemma ReplacedIsFirst(r: LobbyRecord, p: Bytes, adds: seq<NamedAttr>, removes: seq<Bytes>)
    requires HasMember(r, p)
    ensures var i, q := FirstMember(r.members, p), WithMemberAttrs(r, p, adds, removes);
      FirstMember(q.members, p) == i && i < |q.members|
      && q.members[i].attributes == Merge(r.members[i].attributes, adds, removes)
  {
    var i, q := FirstMember(r.members, p), WithMemberAttrs(r, p, adds, removes);
    assert q.members[i].id == p && forall k :: 0 <= k < i ==> q.members[k].id == r.members[k].id;
  }

  lemma CanonKeepsWireAttrs(r: LobbyRecord, p: Bytes)
    ensures WireAttrs(CanonRecord(r), p) == WireAttrs(r, p)
  {
    var i, c := FirstMember(r.members, p), CanonRecord(r);
    assert |c.members| == |r.members| && forall k :: 0 <= k < |r.members| ==> c.members[k] == CanonMember(r.members[k]);
    if i < |r.members| {
      assert FirstMember(c.members, p) == i;
      CanonKeepsMap(r.members[i].attributes);
      CanonTwice(ToMap(r.members[i].attributes));
    }
  }
}
