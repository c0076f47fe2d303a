/** Handing a lobby over: when it keeps authority with one node, when it keeps it at all,
    and why no condition is needed if the network copies no hand-off. */
module LobbyHandoffs {
  import opened Basics
  import opened ByteCodec
  import opened AttributeCodec
  import opened LobbyCodec
  import opened LobbyNode
  import opened LobbySystem

  // ---- when a hand-over is safe --------------------------------------------------------

  /** What an act announces is in flight to every other node afterwards. */
  lemma AnnounceArrives(sys: System, n: Bytes, act: Act, dest: Bytes, r: LobbyRecord, to: Bytes)
    requires BaseInv(sys) && Possible(sys, Local(n, act, dest))
    requires Announces(ActOutcome(sys.nodes[n], act), r) && to in sys.nodes && to != n
    ensures InFlight(Apply(sys, Local(n, act, dest)), Envelope(to, n, Announce(r)), r.lobbyId)
  {
    BroadcastSent(sys.nodes.Keys, n, ActOutcome(sys.nodes[n], act).out, dest, Announce(r), to);
  }

  /** An owner's hand-over to another reachable node keeps the lobby with one heir exactly
      when no earlier hand-off of that lobby is still in flight. */
  lemma HandoverSafeExactly(sys: System, n: Bytes, act: Act, dest: Bytes, id: Bytes, r: LobbyRecord)
    requires BaseInv(sys) && OneHeir(sys, id) && Owns(sys, n, id) && Possible(sys, Local(n, act, dest))
    requires Announces(ActOutcome(sys.nodes[n], act), r) && r.lobbyId == id && r.ownerId != n && r.ownerId in sys.nodes
    ensures OneHeir(Apply(sys, Local(n, act, dest)), id) <==> NoTokens(sys, id)
  {
    var next := Apply(sys, Local(n, act, dest));
    if NoTokens(sys, id) {
      LocalKeepsHeir(sys, n, act, dest, id);
    } else {
      var e :| Token(sys, e, id);
      assert Token(next, e, id) && e.to == n;
      AnnounceArrives(sys, n, act, dest, r, r.ownerId);
      assert Token(next, Envelope(r.ownerId, n, Announce(r)), id);
    }
  }

  /** For every local call: it keeps a lobby with one heir exactly when, if it hands the
      lobby to a node that is there, no earlier hand-off of it is in flight. */
  lemma LocalSafeExactly(sys: System, n: Bytes, act: Act, dest: Bytes, id: Bytes)
    requires BaseInv(sys) && OneHeir(sys, id) && Possible(sys, Local(n, act, dest))
    ensures OneHeir(Apply(sys, Local(n, act, dest)), id)
       <==> (NamesHeir(sys, n, ActOutcome(sys.nodes[n], act), id) ==> NoTokens(sys, id))
  {
    var o := ActOutcome(sys.nodes[n], act);
    if NamesHeir(sys, n, o, id) {
      ActIsProper(sys.nodes[n], act);
      var r :| Announces(o, r) && r.lobbyId == id && r.ownerId != n && r.ownerId in sys.nodes;
      HandoverSafeExactly(sys, n, act, dest, id, r);
    } else {
      LocalKeepsHeir(sys, n, act, dest, id);
    }
  }

  lemma PromotionSafeExactly(sys: System, n: Bytes, id: Bytes, target: Bytes, dest: Bytes)
    requires BaseInv(sys) && OneHeir(sys, id) && Owns(sys, n, id)
    requires HasMember(sys.nodes[n].known[id], target) && target != n && target in sys.nodes
    ensures OneHeir(Apply(sys, Local(n, Promote(id, target), dest)), id) <==> NoTokens(sys, id)
  {
    var r := CanonRecord(Bumped(sys.nodes[n].known[id].(ownerId := target)));
    assert Announces(DoPromote(sys.nodes[n], id, target), r);
    HandoverSafeExactly(sys, n, Promote(id, target), dest, id, r);
  }

  /** The roster an owner leaves behind. */
  function Remaining(s: NodeState, id: Bytes): seq<Member>
    requires id in s.known
  {
    WithoutMember(s.known[id], s.me).members
  }

  /** Leaving hands the lobby over: migration is allowed and somebody remains. */
  predicate LeavesHeir(s: NodeState, id: Bytes)
    requires id in s.known
  {
    id in s.memberOf && s.known[id].allowHostMigration != 0 && Remaining(s, id) != []
  }

  ghost function LeaveRecord(s: NodeState, id: Bytes): LobbyRecord
    requires id in s.known && LeavesHeir(s, id)
  {
    CanonRecord(Bumped(WithoutMember(s.known[id], s.me).(ownerId := Remaining(s, id)[0].id)))
  }

  lemma LeaveSafeExactly(sys: System, n: Bytes, id: Bytes, dest: Bytes)
    requires BaseInv(sys) && OneHeir(sys, id) && Owns(sys, n, id) && LeavesHeir(sys.nodes[n], id)
    requires var heir := Remaining(sys.nodes[n], id)[0].id; heir != n && heir in sys.nodes
    ensures OneHeir(Apply(sys, Local(n, LeaveLobby(id), dest)), id) <==> NoTokens(sys, id)
  {
    var s := sys.nodes[n];
    assert DoLeave(s, id).out[1] == ToAll(Announce(LeaveRecord(s, id)));
    assert Announces(DoLeave(s, id), LeaveRecord(s, id));
    HandoverSafeExactly(sys, n, LeaveLobby(id), dest, id, LeaveRecord(s, id));
  }

  // ---- when authority survives ------------------------------------------------------------

  /** Some node owns the lobby or some announce in flight hands it on. */
  ghost predicate HasAuthority(sys: System, id: Bytes) {
    (exists m :: Owns(sys, m, id)) || !NoTokens(sys, id)
  }

  /** An owner that gives a lobby up leaves authority over it behind exactly when it names
      another node that is there, or an earlier hand-off is still in flight. */
  lemma GivingUpExactly(sys: System, n: Bytes, act: Act, dest: Bytes, id: Bytes)
    requires BaseInv(sys) && OneHeir(sys, id) && Owns(sys, n, id) && Possible(sys, Local(n, act, dest))
    requires id !in ActOutcome(sys.nodes[n], act).state.owned && id !in NewLobbies(act)
    ensures HasAuthority(Apply(sys, Local(n, act, dest)), id)
       <==> NamesHeir(sys, n, ActOutcome(sys.nodes[n], act), id) || !NoTokens(sys, id)
  {
    var next, o := Apply(sys, Local(n, act, dest)), ActOutcome(sys.nodes[n], act);
    LocalIsNodeStep(sys, n, act, dest);
    forall m ensures !Owns(next, m, id) {
      NoOwnerLeft(sys, next, n, o, id, m);
    }
    forall e | Token(next, e, id) ensures NamesHeir(sys, n, o, id) || !NoTokens(sys, id) {
      TokenNamesHeir(sys, next, n, o, NewLobbies(act), dest, id, e);
    }
    if NamesHeir(sys, n, o, id) {
      HeirHasToken(sys, n, act, dest, id);
    }
    if !NoTokens(sys, id) {
      var e :| Token(sys, e, id);
      assert Token(next, e, id);
    }
  }

  lemma NoOwnerLeft(sys: System, next: System, n: Bytes, o: Outcome, id: Bytes, m: Bytes)
    requires Owns(sys, n, id) && OneHeir(sys, id) && next.nodes == sys.nodes[n := o.state] && id !in o.state.owned
    ensures !Owns(next, m, id)
  {
    assert m != n && Owns(next, m, id) ==> Owns(sys, m, id);
  }

  lemma TokenNamesHeir(sys: System, next: System, n: Bytes, o: Outcome, gained: set<Bytes>, dest: Bytes, id: Bytes,
                       e: Envelope)
    requires NodesProper(sys) && NodeStep(sys, next, n, sys.net, o, gained, dest) && Token(next, e, id)
    ensures NamesHeir(sys, n, o, id) || !NoTokens(sys, id)
  {
    if e in sys.net {
      assert Token(sys, e, id);
    } else {
      SentAnnounce(sys.nodes.Keys, n, o.out, dest, e);
      assert Announces(o, e.msg.record);
    }
  }

  lemma HeirHasToken(sys: System, n: Bytes, act: Act, dest: Bytes, id: Bytes)
    requires BaseInv(sys) && Possible(sys, Local(n, act, dest)) && NamesHeir(sys, n, ActOutcome(sys.nodes[n], act), id)
    ensures !NoTokens(Apply(sys, Local(n, act, dest)), id)
  {
    var r :| Announces(ActOutcome(sys.nodes[n], act), r) && r.lobbyId == id && r.ownerId != n && r.ownerId in sys.nodes;
    AnnounceArrives(sys, n, act, dest, r, r.ownerId);
    assert Token(Apply(sys, Local(n, act, dest)), Envelope(r.ownerId, n, Announce(r)), id);
  }

  /** A promotion hands authority on exactly when it names another node that is there, or
      an earlier hand-off is still in flight. */
  lemma PromotionHandsOnExactly(sys: System, n: Bytes, id: Bytes, target: Bytes, dest: Bytes)
    requires BaseInv(sys) && OneHeir(sys, id) && Owns(sys, n, id) && HasMember(sys.nodes[n].known[id], target)
    ensures HasAuthority(Apply(sys, Local(n, Promote(id, target), dest)), id)
       <==> (target != n && target in sys.nodes) || !NoTokens(sys, id)
  {
    var o := DoPromote(sys.nodes[n], id, target);
    var r := CanonRecord(Bumped(sys.nodes[n].known[id].(ownerId := target)));
    assert Announces(o, r) && forall q :: Announces(o, q) ==> q == r;
    assert NamesHeir(sys, n, o, id) <==> target != n && target in sys.nodes;
    GivingUpExactly(sys, n, Promote(id, target), dest, id);
  }

  /** An owner that promotes itself strands its lobby, unless an earlier hand-off to it is
      still in flight. */
  lemma SelfPromotionStrands(sys: System, n: Bytes, id: Bytes, dest: Bytes)
    requires BaseInv(sys) && OneHeir(sys, id) && Owns(sys, n, id) && HasMember(sys.nodes[n].known[id], n)
    ensures HasAuthority(Apply(sys, Local(n, Promote(id, n), dest)), id) <==> !NoTokens(sys, id)
  {
    PromotionHandsOnExactly(sys, n, id, n, dest);
  }

  /** Leaving keeps authority exactly when the call fails because the owner is no member,
      or the first remaining member is another node that is there and migration is allowed,
      or an earlier hand-off is still in flight. */
  lemma LeaveHandsOnExactly(sys: System, n: Bytes, id: Bytes, dest: Bytes)
    requires BaseInv(sys) && OneHeir(sys, id) && Owns(sys, n, id)
    ensures var s := sys.nodes[n];
      HasAuthority(Apply(sys, Local(n, LeaveLobby(id), dest)), id)
      <==> || id !in s.memberOf
           || (LeavesHeir(s, id) && Remaining(s, id)[0].id != n && Remaining(s, id)[0].id in sys.nodes)
           || !NoTokens(sys, id)
  {
    var s, next := sys.nodes[n], Apply(sys, Local(n, LeaveLobby(id), dest));
    if id !in s.memberOf {
      assert Owns(next, n, id);
    } else {
      LeaveNamesHeir(sys, n, id);
      GivingUpExactly(sys, n, LeaveLobby(id), dest, id);
    }
  }

  lemma LeaveNamesHeir(sys: System, n: Bytes, id: Bytes)
    requires BaseInv(sys) && Owns(sys, n, id) && id in sys.nodes[n].memberOf
    ensures var s := sys.nodes[n];
      NamesHeir(sys, n, DoLeave(s, id), id)
      <==> LeavesHeir(s, id) && Remaining(s, id)[0].id != n && Remaining(s, id)[0].id in sys.nodes
  {
    var s := sys.nodes[n];
    var o := DoLeave(s, id);
    if LeavesHeir(s, id) {
      assert o.out[1] == ToAll(Announce(LeaveRecord(s, id)));
      assert Announces(o, LeaveRecord(s, id));
      assert forall q :: Announces(o, q) ==> q == LeaveRecord(s, id);
    } else {
      assert forall q :: !Announces(o, q);
    }
  }

  /** A hand-off makes its addressee the owner exactly when that node belongs to the lobby
      by its own account. */
  lemma AdoptsExactly(s: NodeState, record: LobbyRecord, source: Endpoint, tick: nat)
    requires record.lobbyId != [] && record.ownerId == s.me
    ensures record.lobbyId in OnAnnounce(s, record, source, tick).state.owned
       <==> record.lobbyId in s.owned || record.lobbyId in s.memberOf
  {
  }

  // ---- where copies do harm ----------------------------------------------------------------

  /** A run from anywhere, between these two states. */
  ghost predicate IsPath(run: seq<System>, steps: seq<Step>, from: System, to: System) {
    && |run| == |steps| + 1 && run[0] == from && run[|steps|] == to
    && forall i :: 0 <= i < |steps| ==> Takes(run[i], steps[i], run[i + 1])
  }

  ghost predicate Takes(sys: System, step: Step, next: System) {
    Possible(sys, step) && next == Apply(sys, step)
  }

  ghost predicate LeadsTo(from: System, to: System) {
    exists run, steps :: IsPath(run, steps, from, to)
  }

  lemma LeadsOn(from: System, mid: System, step: Step, to: System)
    requires LeadsTo(from, mid) && Takes(mid, step, to)
    ensures LeadsTo(from, to)
  {
    var run, steps :| IsPath(run, steps, from, mid);
    var longer, more := run + [to], steps + [step];
    forall i | 0 <= i < |more| ensures Takes(longer[i], more[i], longer[i + 1]) {
      if i < |steps| { assert Takes(run[i], steps[i], run[i + 1]); }
    }
    assert IsPath(longer, more, from, to);
  }

  lemma LeadsNowhere(sys: System)
    ensures LeadsTo(sys, sys)
  {
    assert IsPath([sys], [], sys, sys);
  }

  lemma PathIsRun(run: seq<System>, steps: seq<Step>, from: System, to: System)
    requires IsPath(run, steps, from, to) && Initial(from)
    ensures IsRun(run, steps)
  {
    forall i | 0 <= i < |steps| ensures Possible(run[i], steps[i]) && run[i + 1] == Apply(run[i], steps[i]) {
      assert Takes(run[i], steps[i], run[i + 1]);
    }
  }

  /** Two nodes that have what a fork needs: a's promotion of b is in flight, and both
      belong to the lobby. */
  ghost predicate Forkable(sys: System, a: Bytes, b: Bytes, id: Bytes, r: LobbyRecord) {
    && a != b && id != [] && a in sys.nodes && b in sys.nodes
    && sys.nodes[a].me == a && id in sys.nodes[a].memberOf && id !in sys.nodes[a].owned
    && sys.nodes[b].me == b && id in sys.nodes[b].memberOf && id !in sys.nodes[b].owned
    && r.lobbyId == id && r.ownerId == b && HasMember(r, a)
    && Envelope(b, a, Announce(r)) in sys.net
  }

  /** The record with which b, having taken the lobby over, hands it back to a. */
  ghost function HandedBack(r: LobbyRecord, a: Bytes, source: Endpoint, tick: nat): LobbyRecord {
    CanonRecord(Bumped(r.(host := source, lastSeen := tick, ownerId := a)))
  }

  lemma HandoffCopied(from: System, sys: System, a: Bytes, b: Bytes, id: Bytes, r: LobbyRecord) returns (to: System)
    requires LeadsTo(from, sys) && Forkable(sys, a, b, id, r)
    ensures LeadsTo(from, to) && Forkable(to, a, b, id, r) && to.net[Envelope(b, a, Announce(r))] >= 2
  {
    var e := Envelope(b, a, Announce(r));
    to := Apply(sys, Duplicate(e));
    LeadsOn(from, sys, Duplicate(e), to);
  }

  /** b has taken the hand-off, and owns the lobby as it was announced; a copy is left. */
  ghost predicate TakenOver(sys: System, a: Bytes, b: Bytes, id: Bytes, r: LobbyRecord, owned: LobbyRecord) {
    && a in sys.nodes && b in sys.nodes
    && sys.nodes[a].me == a && id in sys.nodes[a].memberOf && id !in sys.nodes[a].owned
    && sys.nodes[b].me == b && id in sys.nodes[b].memberOf && id in sys.nodes[b].owned
    && id in sys.nodes[b].known && sys.nodes[b].known[id] == owned
    && Envelope(b, a, Announce(r)) in sys.net
  }

  lemma TakesOver(from: System, sys: System, a: Bytes, b: Bytes, id: Bytes, r: LobbyRecord, source: Endpoint,
                  tick: nat) returns (to: System)
    requires LeadsTo(from, sys) && Forkable(sys, a, b, id, r) && sys.net[Envelope(b, a, Announce(r))] >= 2
    ensures LeadsTo(from, to) && TakenOver(to, a, b, id, r, r.(host := source, lastSeen := tick))
  {
    var e := Envelope(b, a, Announce(r));
    to := Apply(sys, Deliver(e, source, tick, a));
    assert to.net == sys.net - multiset{e};
    LeadsOn(from, sys, Deliver(e, source, tick, a), to);
  }

  lemma HandsBack(from: System, sys: System, a: Bytes, b: Bytes, id: Bytes, r: LobbyRecord, source: Endpoint,
                  tick: nat) returns (to: System)
    requires LeadsTo(from, sys) && TakenOver(sys, a, b, id, r, r.(host := source, lastSeen := tick)) && a != b
          && id != []
    requires r.lobbyId == id && r.ownerId == b && HasMember(r, a)
    ensures LeadsTo(from, to) && Forkable(to, a, b, id, r)
    ensures Envelope(a, b, Announce(HandedBack(r, a, source, tick))) in to.net
  {
    var o := DoPromote(sys.nodes[b], id, a);
    assert o.out == [ToAll(Announce(HandedBack(r, a, source, tick)))];
    BroadcastSent(sys.nodes.Keys, b, o.out, a, Announce(HandedBack(r, a, source, tick)), a);
    to := Apply(sys, Local(b, Promote(id, a), a));
    LeadsOn(from, sys, Local(b, Promote(id, a), a), to);
  }

  /** Each of the two takes the hand-off to it. */
  lemma BothTake(from: System, sys: System, a: Bytes, b: Bytes, id: Bytes, r: LobbyRecord, q: LobbyRecord,
                 source: Endpoint, tick: nat) returns (to: System)
    requires LeadsTo(from, sys) && Forkable(sys, a, b, id, r)
    requires q.lobbyId == id && q.ownerId == a && Envelope(a, b, Announce(q)) in sys.net
    ensures LeadsTo(from, to) && Owns(to, a, id) && Owns(to, b, id)
  {
    var e, f := Envelope(b, a, Announce(r)), Envelope(a, b, Announce(q));
    var mid := Apply(sys, Deliver(f, source, tick, b));
    assert mid.net == sys.net - multiset{f};
    LeadsOn(from, sys, Deliver(f, source, tick, b), mid);
    to := Apply(mid, Deliver(e, source, tick, a));
    LeadsOn(from, mid, Deliver(e, source, tick, a), to);
  }

  lemma Forks(from: System, sys: System, a: Bytes, b: Bytes, id: Bytes, r: LobbyRecord, source: Endpoint, tick: nat)
    returns (to: System)
    requires LeadsTo(from, sys) && Forkable(sys, a, b, id, r)
    ensures LeadsTo(from, to) && Owns(to, a, id) && Owns(to, b, id)
  {
    var copied := HandoffCopied(from, sys, a, b, id, r);
    var taken := TakesOver(from, copied, a, b, id, r, source, tick);
    var back := HandsBack(from, taken, a, b, id, r, source, tick);
    to := BothTake(from, back, a, b, id, r, HandedBack(r, a, source, tick), source, tick);
  }

  // How a forkable state comes about: a creates a lobby, b hears of it and joins, a admits b
  // and promotes it.

  ghost function CreatedRecord(a: Bytes, id: Bytes, options: CreateOptions): LobbyRecord {
    CanonRecord(Created(a, id, options))
  }

  ghost function AdmittedRecord(a: Bytes, b: Bytes, id: Bytes, options: CreateOptions): LobbyRecord {
    Bumped(WithMember(Created(a, id, options), b))
  }

  ghost function PromotedRecord(a: Bytes, b: Bytes, id: Bytes, options: CreateOptions): LobbyRecord {
    CanonRecord(Bumped(AdmittedRecord(a, b, id, options).(ownerId := b)))
  }

  /** a owns the lobby and b has heard of it. */
  ghost predicate Heard(sys: System, a: Bytes, b: Bytes, id: Bytes, options: CreateOptions, source: Endpoint) {
    && a in sys.nodes && b in sys.nodes
    && sys.nodes[a] == DoCreate(NodeState(a, map[], {}, {}), id, options).state
    && sys.nodes[b].me == b && sys.nodes[b].owned == {}
    && id in sys.nodes[b].known && sys.nodes[b].known[id].host == source
  }

  lemma OpeningHeard(sys: System, a: Bytes, b: Bytes, id: Bytes, options: CreateOptions, source: Endpoint, tick: nat)
    returns (to: System)
    requires Initial(sys) && a in sys.nodes && b in sys.nodes && a != b && id != []
    ensures LeadsTo(sys, to) && Heard(to, a, b, id, options, source)
  {
    var create, r := Local(a, Create(id, options), b), CreatedRecord(a, id, options);
    var mid := Apply(sys, create);
    LeadsNowhere(sys);
    LeadsOn(sys, sys, create, mid);
    var o := DoCreate(sys.nodes[a], id, options);
    assert o.out == [ToAll(Announce(r))];
    BroadcastSent(sys.nodes.Keys, a, o.out, b, Announce(r), b);
    to := Apply(mid, Deliver(Envelope(b, a, Announce(r)), source, tick, a));
    LeadsOn(sys, mid, Deliver(Envelope(b, a, Announce(r)), source, tick, a), to);
  }

  /** b has joined and a has admitted it. */
  ghost predicate Admitted(sys: System, a: Bytes, b: Bytes, id: Bytes, options: CreateOptions) {
    && a in sys.nodes && b in sys.nodes
    && sys.nodes[a].me == a && sys.nodes[a].memberOf == {id} && sys.nodes[a].owned == {id}
    && id in sys.nodes[a].known && sys.nodes[a].known[id] == AdmittedRecord(a, b, id, options)
    && sys.nodes[b].me == b && sys.nodes[b].owned == {} && id in sys.nodes[b].memberOf
  }

  lemma OpeningAdmits(from: System, sys: System, a: Bytes, b: Bytes, id: Bytes, options: CreateOptions,
                      source: Endpoint, tick: nat) returns (to: System)
    requires LeadsTo(from, sys) && Heard(sys, a, b, id, options, source) && a != b && Reachable(source)
          && options.maxMembers >= 2
    ensures LeadsTo(from, to) && Admitted(to, a, b, id, options)
  {
    var join, ask := Local(b, JoinById(id), a), Envelope(a, b, JoinRequest(id, b));
    var mid := Apply(sys, join);
    LeadsOn(from, sys, join, mid);
    var o := DoJoinById(sys.nodes[b], id);
    assert o.out == [ToHost(source, JoinRequest(id, b))];
    assert ask in SendOne(sys.nodes.Keys, b, o.out[0], a);
    var c := Created(a, id, options);
    assert c.members == [NewMember(a)] && !HasMember(c, b) && AvailableSlots(c) > 0;
    to := Apply(mid, Deliver(ask, source, tick, b));
    LeadsOn(from, mid, Deliver(ask, source, tick, b), to);
  }

  lemma OpeningForkable(from: System, sys: System, a: Bytes, b: Bytes, id: Bytes, options: CreateOptions, dest: Bytes)
    returns (to: System)
    requires LeadsTo(from, sys) && Admitted(sys, a, b, id, options) && a != b && id != []
    ensures LeadsTo(from, to) && Forkable(to, a, b, id, PromotedRecord(a, b, id, options))
  {
    to := Apply(sys, Local(a, Promote(id, b), dest));
    LeadsOn(from, sys, Local(a, Promote(id, b), dest), to);
    var r := AdmittedRecord(a, b, id, options);
    assert r.members == [NewMember(a), NewMember(b)];
    assert HasMember(r, b);
    var o := DoPromote(sys.nodes[a], id, b);
    assert o.out == [ToAll(Announce(PromotedRecord(a, b, id, options)))];
    BroadcastSent(sys.nodes.Keys, a, o.out, dest, Announce(PromotedRecord(a, b, id, options)), b);
    assert PromotedRecord(a, b, id, options).members == MapSeq(r.members, CanonMember);
    assert PromotedRecord(a, b, id, options).members[0] == CanonMember(r.members[0]);
  }

  /** One copied hand-off forks the authority, in a run any two nodes can have: a promotes b,
      b takes the lobby over and promotes a, and a copy of the announce that made b the owner
      makes it the owner again, beside a. */
  lemma DuplicateHandoffForks(sys: System, a: Bytes, b: Bytes, id: Bytes, options: CreateOptions, source: Endpoint,
                              tick: nat)
    requires Initial(sys) && a in sys.nodes && b in sys.nodes && a != b && id != []
    requires Reachable(source) && options.maxMembers >= 2
    ensures exists run, steps ::
      IsRun(run, steps) && run[0] == sys && Owns(run[|steps|], a, id) && Owns(run[|steps|], b, id)
  {
    var heard := OpeningHeard(sys, a, b, id, options, source, tick);
    var admitted := OpeningAdmits(sys, heard, a, b, id, options, source, tick);
    var forkable := OpeningForkable(sys, admitted, a, b, id, options, b);
    var forked := Forks(sys, forkable, a, b, id, PromotedRecord(a, b, id, options), source, tick);
    var run, steps :| IsPath(run, steps, sys, forked);
    PathIsRun(run, steps, sys, forked);
  }

  // ---- networks that copy no hand-off ---------------------------------------------------------

  /** The network may copy anything but an announce on its way to the node it names. */
  ghost predicate CopiesNoHandoff(step: Step) {
    step.Duplicate? ==> !(step.e.msg.Announce? && step.e.msg.record.ownerId == step.e.to)
  }

  /** Authority lies with one owner and no token, or with one token. */
  ghost predicate SoleAuthority(sys: System, id: Bytes) {
    && OneHeir(sys, id)
    && (forall n, e :: Owns(sys, n, id) && Token(sys, e, id) ==> false)
    && (forall e :: Token(sys, e, id) ==> sys.net[e] == 1)
    && (forall e, f :: Token(sys, e, id) && Token(sys, f, id) ==> e == f)
  }

  lemma {:induction false} SentOnce(nodes: set<Bytes>, from: Bytes, out: seq<Outgoing>, dest: Bytes, e: Envelope)
    requires e.msg.Announce?
    requires forall i :: 0 <= i < |out| && out[i].msg.Announce? ==> out[i].ToAll?
    requires forall i, j :: 0 <= i < j < |out| ==> !(out[i].msg.Announce? && out[j].msg.Announce?)
    ensures Sends(nodes, from, out, dest)[e] <= 1
    decreases out
  {
    if out != [] {
      SentOnce(nodes, from, out[1..], dest, e);
      if e in SendOne(nodes, from, out[0], dest) && e in Sends(nodes, from, out[1..], dest) {
        SentAnnounce(nodes, from, out[1..], dest, e);
      }
    }
  }

  /** Where the tokens in flight after a step of an unforked lobby come from. */
  lemma TokenOrigin(sys: System, next: System, n: Bytes, rest: multiset<Envelope>, o: Outcome, gained: set<Bytes>,
                    dest: Bytes, id: Bytes, e: Envelope)
    requires NodesProper(sys) && SoleAuthority(sys, id) && NodeStep(sys, next, n, rest, o, gained, dest)
    requires id in gained ==> forall f :: f in rest ==> !Token(sys, f, id)
    requires Token(next, e, id)
    ensures next.net[e] == 1
    ensures if e in rest then Token(sys, e, id) && id !in gained else Owns(sys, n, id) && !Owns(next, n, id)
  {
    SentOnce(sys.nodes.Keys, n, o.out, dest, e);
    if e in rest {
      assert Token(sys, e, id);
      if e in Sends(sys.nodes.Keys, n, o.out, dest) {
        SentAnnounce(sys.nodes.Keys, n, o.out, dest, e);
        assert Announces(o, e.msg.record);
        assert Owns(sys, n, id);
      }
    } else {
      NewTokens(sys, next, n, rest, o, gained, dest, id, e);
    }
  }

  lemma StepKeepsSole(sys: System, next: System, n: Bytes, rest: multiset<Envelope>, o: Outcome, gained: set<Bytes>,
                      dest: Bytes, id: Bytes)
    requires NodesProper(sys) && SoleAuthority(sys, id) && OneHeir(next, id)
          && NodeStep(sys, next, n, rest, o, gained, dest)
    requires id in gained ==> (forall m :: !Owns(sys, m, id)) && (forall e :: e in rest ==> !Token(sys, e, id))
    ensures SoleAuthority(next, id)
  {
    forall e | Token(next, e, id)
      ensures next.net[e] == 1
      ensures if e in rest then Token(sys, e, id) && id !in gained else Owns(sys, n, id) && !Owns(next, n, id)
    {
      TokenOrigin(sys, next, n, rest, o, gained, dest, id, e);
    }
    forall m | Owns(next, m, id) ensures Owns(sys, m, id) || id in gained {
    }
    forall e, f | Token(next, e, id) && Token(next, f, id) ensures e == f {
      assert e in rest <==> f in rest;
      if e !in rest { NewTokensAgree(sys, next, n, rest, o, gained, dest, id, e, f); }
    }
  }

  lemma SoleHandoverIsSettled(sys: System, n: Bytes, act: Act, dest: Bytes, id: Bytes)
    requires BaseInv(sys) && SoleAuthority(sys, id) && Possible(sys, Local(n, act, dest))
    ensures NamesHeir(sys, n, ActOutcome(sys.nodes[n], act), id) ==> Owns(sys, n, id) && NoTokens(sys, id)
  {
    ActIsProper(sys.nodes[n], act);
    assert NamesHeir(sys, n, ActOutcome(sys.nodes[n], act), id) ==> Owns(sys, n, id);
  }

  lemma LocalKeepsSole(sys: System, n: Bytes, act: Act, dest: Bytes, id: Bytes)
    requires BaseInv(sys) && SoleAuthority(sys, id) && Possible(sys, Local(n, act, dest))
    ensures SoleAuthority(Apply(sys, Local(n, act, dest)), id)
  {
    SoleHandoverIsSettled(sys, n, act, dest, id);
    LocalKeepsHeir(sys, n, act, dest, id);
    LocalIsNodeStep(sys, n, act, dest);
    if id in NewLobbies(act) {
      assert forall m :: !Owns(sys, m, id);
      assert forall e :: !InFlight(sys, e, id);
    }
    StepKeepsSole(sys, Apply(sys, Local(n, act, dest)), n, sys.net, ActOutcome(sys.nodes[n], act), NewLobbies(act),
        dest, id);
  }

  lemma DeliverKeepsSole(sys: System, e: Envelope, source: Endpoint, tick: nat, dest: Bytes, id: Bytes)
    requires BaseInv(sys) && SoleAuthority(sys, id) && Possible(sys, Deliver(e, source, tick, dest))
    ensures SoleAuthority(Apply(sys, Deliver(e, source, tick, dest)), id)
  {
    var s := sys.nodes[e.to];
    DeliverKeepsHeir(sys, e, source, tick, dest, id);
    DeliverIsNodeStep(sys, e, source, tick, dest);
    if id in Gained(s, e.msg) {
      assert Token(sys, e, id);
      assert forall m :: !Owns(sys, m, id);
    }
    StepKeepsSole(sys, Apply(sys, Deliver(e, source, tick, dest)), e.to, sys.net - multiset{e},
                  OnMsg(s, e.msg, source, tick), Gained(s, e.msg), dest, id);
  }

  lemma NetworkKeepsSole(sys: System, step: Step, id: Bytes)
    requires BaseInv(sys) && SoleAuthority(sys, id) && Possible(sys, step) && CopiesNoHandoff(step)
    requires step.Lose? || step.Duplicate?
    ensures SoleAuthority(Apply(sys, step), id)
  {
    var next := Apply(sys, step);
    NetworkKeepsAuthority(sys, next);
    assert forall m :: Owns(next, m, id) <==> Owns(sys, m, id);
    forall f | Token(next, f, id) ensures Token(sys, f, id) && next.net[f] == 1 {
      assert Token(sys, f, id);
    }
  }

  lemma StepKeepsSoleAuthority(sys: System, step: Step, id: Bytes)
    requires BaseInv(sys) && SoleAuthority(sys, id) && Possible(sys, step) && CopiesNoHandoff(step)
    ensures SoleAuthority(Apply(sys, step), id)
  {
    match step
    case Local(n, act, dest) => LocalKeepsSole(sys, n, act, dest, id);
    case Deliver(e, source, tick, dest) => DeliverKeepsSole(sys, e, source, tick, dest, id);
    case Lose(_) => NetworkKeepsSole(sys, step, id);
    case Duplicate(_) => NetworkKeepsSole(sys, step, id);
  }

  ghost predicate NoHandoffCopied(steps: seq<Step>) {
    forall i :: 0 <= i < |steps| ==> CopiesNoHandoff(steps[i])
  }

  lemma {:induction false} RunKeepsSoleAuthority(run: seq<System>, steps: seq<Step>, k: nat, id: Bytes)
    requires IsRun(run, steps) && NoHandoffCopied(steps) && k < |run|
    ensures SoleAuthority(run[k], id)
  {
    if k == 0 {
      InitialIsSole(run[0], id);
    } else {
      RunKeepsSoleAuthority(run, steps, k - 1, id);
      RunKeepsBaseInv(run, steps, k - 1);
      RunStep(run, steps, k - 1);
      StepKeepsSoleAuthority(run[k - 1], steps[k - 1], id);
    }
  }

  lemma InitialIsSole(sys: System, id: Bytes)
    requires Initial(sys)
    ensures SoleAuthority(sys, id)
  {
    assert forall e :: !Token(sys, e, id);
  }

  /** If no hand-off is copied, no hand-over ever finds another in flight, and while a node
      owns a lobby nothing in flight hands it over: every condition of the run theorems on
      hand-offs then holds by itself. */
  lemma UncopiedHandoffsSettle(run: seq<System>, steps: seq<Step>)
    requires IsRun(run, steps) && NoHandoffCopied(steps)
    ensures HandoffsSettle(run, steps)
    ensures forall k, n, id :: 0 <= k < |run| && Owns(run[k], n, id) ==> NoTokens(run[k], id)
  {
    forall i | 0 <= i < |steps| ensures Settled(run[i], steps[i]) {
      RunKeepsBaseInv(run, steps, i);
      if steps[i].Local? {
        forall id | NamesHeir(run[i], steps[i].node, ActOutcome(run[i].nodes[steps[i].node], steps[i].act), id)
          ensures NoTokens(run[i], id)
        {
          RunKeepsSoleAuthority(run, steps, i, id);
          SoleHandoverIsSettled(run[i], steps[i].node, steps[i].act, steps[i].dest, id);
        }
      }
    }
    forall k, n, id | 0 <= k < |run| && Owns(run[k], n, id) ensures NoTokens(run[k], id) {
      RunKeepsSoleAuthority(run, steps, k, id);
    }
  }
}
