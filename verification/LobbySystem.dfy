/** The lobby protocol among any number of nodes over a network that loses, reorders and
    duplicates datagrams. A broadcast puts one envelope per other node into the network,
    of which the network may make any number of copies; a unicast may reach any node. */
module LobbySystem {
  import opened Basics
  import opened AttributeCodec
  import opened LobbyCodec
  import opened LobbyNode

  datatype Envelope = Envelope(to: Bytes, from: Bytes, msg: Msg)

  /** `minted` holds every lobby id handed out so far. */
  datatype System = System(nodes: map<Bytes, NodeState>, net: multiset<Envelope>, minted: set<Bytes>)

  ghost predicate Initial(sys: System) {
    && sys.net == multiset{} && sys.minted == {}
    && forall n :: n in sys.nodes ==> sys.nodes[n] == NodeState(n, map[], {}, {})
  }

  datatype Act =
    | Create(id: Bytes, options: CreateOptions)
    | Destroy(id: Bytes)
    | Join(handle: LobbyRecord)
    | JoinById(id: Bytes)
    | LeaveLobby(id: Bytes)
    | UpdateLobby(mod: Modification)
    | Promote(id: Bytes, target: Bytes)
    | Kick(id: Bytes, target: Bytes)
    | Reannounce(id: Bytes)

  /** `dest` is where a unicast of this step ends up. */
  datatype Step =
    | Local(node: Bytes, act: Act, dest: Bytes)
    | Deliver(e: Envelope, source: Endpoint, tick: nat, dest: Bytes)
    | Lose(e: Envelope)
    | Duplicate(e: Envelope)

  ghost function ActOutcome(s: NodeState, act: Act): Outcome {
    match act
    case Create(id, options) => DoCreate(s, id, options)
    case Destroy(id) => DoDestroy(s, id)
    case Join(handle) => DoJoin(s, handle)
    case JoinById(id) => DoJoinById(s, id)
    case LeaveLobby(id) => DoLeave(s, id)
    case UpdateLobby(mod) => DoUpdate(s, mod)
    case Promote(id, target) => DoPromote(s, id, target)
    case Kick(id, target) => DoKick(s, id, target)
    case Reannounce(id) =>
      if id in s.owned && id in s.known then Outcome(s, Success, [AnnounceOf(s.known[id])], []) else Quiet(s, Success)
  }

  ghost function Sends(nodes: set<Bytes>, from: Bytes, out: seq<Outgoing>, dest: Bytes): multiset<Envelope> {
    if out == [] then multiset{}
    else SendOne(nodes, from, out[0], dest) + Sends(nodes, from, out[1..], dest)
  }

  ghost function SendOne(nodes: set<Bytes>, from: Bytes, o: Outgoing, dest: Bytes): multiset<Envelope> {
    match o
    case ToAll(msg) => multiset(set n | n in nodes && n != from :: Envelope(n, from, msg))
    case ToHost(_, msg) => if dest in nodes && dest != from then multiset{Envelope(dest, from, msg)} else multiset{}
  }

  /** Minted ids are new and not empty. */
  ghost predicate Possible(sys: System, step: Step) {
    match step
    case Local(n, act, _) => n in sys.nodes && (act.Create? ==> act.id !in sys.minted && act.id != [])
    case Deliver(e, _, _, _) => e in sys.net && e.to in sys.nodes
    case Lose(e) => e in sys.net
    case Duplicate(e) => e in sys.net
  }

  ghost function After(sys: System, n: Bytes, o: Outcome, dest: Bytes): System {
    sys.(nodes := sys.nodes[n := o.state], net := sys.net + Sends(sys.nodes.Keys, n, o.out, dest))
  }

  ghost function Apply(sys: System, step: Step): System
    requires Possible(sys, step)
  {
    match step
    case Local(n, act, dest) =>
      var next := After(sys, n, ActOutcome(sys.nodes[n], act), dest);
      if act.Create? then next.(minted := sys.minted + {act.id}) else next
    case Deliver(e, source, tick, dest) =>
      After(sys.(net := sys.net - multiset{e}), e.to, OnMsg(sys.nodes[e.to], e.msg, source, tick), dest)
    case Lose(e) => sys.(net := sys.net - multiset{e})
    case Duplicate(e) => sys.(net := sys.net + multiset{e})
  }

  // ---- what one node may do ----------------------------------------------------------

  /** An owner knows its lobby, under its id, and its record names it. */
  ghost predicate OwnsProperly(s: NodeState) {
    forall id :: id in s.owned ==>
      id != [] && id in s.known && s.known[id].lobbyId == id && s.known[id].ownerId == s.me
  }

  ghost predicate Announces(o: Outcome, r: LobbyRecord) {
    ToAll(Announce(r)) in o.out
  }

  ghost predicate OneAnnounce(o: Outcome) {
    forall i, j :: 0 <= i < j < |o.out| ==> !(o.out[i].msg.Announce? && o.out[j].msg.Announce?)
  }

  /** Announces are broadcast, only about lobbies owned before or created now, and one
      that names somebody else goes with giving the lobby up. */
  ghost predicate SpeaksForOwned(s: NodeState, o: Outcome, gained: set<Bytes>) {
    && OneAnnounce(o)
    && (forall i :: 0 <= i < |o.out| && o.out[i].msg.Announce? ==> o.out[i].ToAll?)
    && (forall r :: Announces(o, r) ==>
          && CanonRecord(r) == r
          && (r.lobbyId in s.owned || r.lobbyId in gained)
          && (r.ownerId != s.me ==> r.lobbyId in s.owned && r.lobbyId !in o.state.owned))
  }

  /** The step keeps its node's form and gains no lobby outside `gained`. */
  ghost predicate ActsProperly(s: NodeState, o: Outcome, gained: set<Bytes>) {
    && o.state.me == s.me && OwnsProperly(o.state)
    && o.state.owned <= s.owned + gained
    && SpeaksForOwned(s, o, gained)
  }

  ghost function NewLobbies(act: Act): set<Bytes> {
    if act.Create? then {act.id} else {}
  }

  lemma ActOwnsProperly(s: NodeState, act: Act)
    requires OwnsProperly(s) && (act.Create? ==> act.id != [])
    ensures var o := ActOutcome(s, act);
      o.state.me == s.me && OwnsProperly(o.state) && o.state.owned <= s.owned + NewLobbies(act)
  {
  }

  lemma ActSpeaksForOwned(s: NodeState, act: Act)
    requires OwnsProperly(s)
    ensures SpeaksForOwned(s, ActOutcome(s, act), NewLobbies(act))
  {
    var o := ActOutcome(s, act);
    assert |o.out| <= 2;
    forall r | Announces(o, r)
      ensures CanonRecord(r) == r
      ensures r.lobbyId in s.owned || r.lobbyId in NewLobbies(act)
      ensures r.ownerId != s.me ==> r.lobbyId in s.owned && r.lobbyId !in o.state.owned
    {
      CanonOfAnnounces(s, act, r);
      AnnounceOfAct(s, act, r);
    }
  }

  lemma AnnounceOfAct(s: NodeState, act: Act, r: LobbyRecord)
    requires OwnsProperly(s) && Announces(ActOutcome(s, act), r)
    ensures r.lobbyId in s.owned || r.lobbyId in NewLobbies(act)
    ensures r.ownerId != s.me ==> r.lobbyId in s.owned && r.lobbyId !in ActOutcome(s, act).state.owned
  {
  }

  lemma ActIsProper(s: NodeState, act: Act)
    requires OwnsProperly(s) && (act.Create? ==> act.id != [])
    ensures ActsProperly(s, ActOutcome(s, act), NewLobbies(act))
  {
    ActOwnsProperly(s, act);
    ActSpeaksForOwned(s, act);
  }

  lemma CanonOfAnnounces(s: NodeState, act: Act, r: LobbyRecord)
    requires Announces(ActOutcome(s, act), r)
    ensures CanonRecord(r) == r
  {
    var x: LobbyRecord :| r == CanonRecord(x);
    CanonRecordIdempotent(x);
  }

  ghost function Gained(s: NodeState, msg: Msg): set<Bytes> {
    if msg.Announce? && msg.record.ownerId == s.me then {msg.record.lobbyId} else {}
  }

  lemma MsgIsProper(s: NodeState, msg: Msg, source: Endpoint, tick: nat)
    requires OwnsProperly(s)
    ensures ActsProperly(s, OnMsg(s, msg, source, tick), Gained(s, msg))
    ensures msg.Announce? ==> OnMsg(s, msg, source, tick).out == []
  {
    MsgOwnsProperly(s, msg, source, tick);
    MsgSpeaksForOwned(s, msg, source, tick);
  }

  lemma MsgOwnsProperly(s: NodeState, msg: Msg, source: Endpoint, tick: nat)
    requires OwnsProperly(s)
    ensures var o := OnMsg(s, msg, source, tick);
      o.state.me == s.me && OwnsProperly(o.state) && o.state.owned <= s.owned + Gained(s, msg)
  {
  }

  lemma MsgSpeaksForOwned(s: NodeState, msg: Msg, source: Endpoint, tick: nat)
    requires OwnsProperly(s)
    ensures SpeaksForOwned(s, OnMsg(s, msg, source, tick), Gained(s, msg))
  {
    var o := OnMsg(s, msg, source, tick);
    forall r | Announces(o, r) ensures CanonRecord(r) == r {
      var x: LobbyRecord :| r == CanonRecord(x);
      CanonRecordIdempotent(x);
    }
  }

  // ---- at most one authority -----------------------------------------------------------

  ghost predicate Owns(sys: System, n: Bytes, id: Bytes) {
    n in sys.nodes && id in sys.nodes[n].owned
  }

  ghost predicate InFlight(sys: System, e: Envelope, id: Bytes) {
    e in sys.net && e.msg.Announce? && e.msg.record.lobbyId == id
  }

  /** An announce that names its own addressee hands that node the lobby. */
  ghost predicate Token(sys: System, e: Envelope, id: Bytes) {
    InFlight(sys, e, id) && e.msg.record.ownerId == e.to
  }

  /** All who own a lobby, and all to whom an announce in flight hands it, are one node. */
  ghost predicate OneHeir(sys: System, id: Bytes) {
    && (forall n, m :: Owns(sys, n, id) && Owns(sys, m, id) ==> n == m)
    && (forall n, e :: Owns(sys, n, id) && Token(sys, e, id) ==> e.to == n)
    && (forall e, f :: Token(sys, e, id) && Token(sys, f, id) ==> e.to == f.to)
  }

  ghost predicate WellMinted(sys: System) {
    && (forall n, id :: Owns(sys, n, id) ==> id in sys.minted)
    && (forall e, id :: InFlight(sys, e, id) ==> id in sys.minted && CanonRecord(e.msg.record) == e.msg.record)
  }

  ghost predicate NodesProper(sys: System) {
    forall n :: n in sys.nodes ==> sys.nodes[n].me == n && OwnsProperly(sys.nodes[n])
  }

  /** What every run keeps, whatever is duplicated. */
  ghost predicate BaseInv(sys: System) {
    NodesProper(sys) && WellMinted(sys)
  }

  ghost predicate AuthorityInv(sys: System) {
    BaseInv(sys) && forall id :: OneHeir(sys, id)
  }

  /** The node announces another owner of this lobby, giving it up. */
  ghost predicate HandsOver(s: NodeState, o: Outcome, id: Bytes) {
    exists r :: Announces(o, r) && r.lobbyId == id && r.ownerId != s.me
  }

  /** Among the announces of node n one names another node that is there. */
  ghost predicate NamesHeir(sys: System, n: Bytes, o: Outcome, id: Bytes) {
    exists r :: Announces(o, r) && r.lobbyId == id && r.ownerId != n && r.ownerId in sys.nodes
  }

  ghost predicate NoTokens(sys: System, id: Bytes) {
    forall e :: !Token(sys, e, id)
  }

  /** A lobby is handed over to a node that is there only when no earlier hand-off of it is
      still in flight. */
  ghost predicate Settled(sys: System, step: Step)
    requires Possible(sys, step)
  {
    step.Local? ==>
      forall id :: NamesHeir(sys, step.node, ActOutcome(sys.nodes[step.node], step.act), id) ==> NoTokens(sys, id)
  }

  /** Where a newly sent announce comes from. */
  lemma {:induction false} SentAnnounce(nodes: set<Bytes>, from: Bytes, out: seq<Outgoing>, dest: Bytes, e: Envelope)
    requires e in Sends(nodes, from, out, dest) && e.msg.Announce?
    requires forall i :: 0 <= i < |out| && out[i].msg.Announce? ==> out[i].ToAll?
    ensures e.from == from && e.to in nodes && e.to != from && ToAll(e.msg) in out
    decreases out
  {
    if e !in SendOne(nodes, from, out[0], dest) {
      SentAnnounce(nodes, from, out[1..], dest, e);
    }
  }

  /** Every broadcast reaches the network, once for each other node. */
  lemma {:induction false} BroadcastSent(nodes: set<Bytes>, from: Bytes, out: seq<Outgoing>, dest: Bytes, msg: Msg,
                                         to: Bytes)
    requires ToAll(msg) in out && to in nodes && to != from
    ensures Envelope(to, from, msg) in Sends(nodes, from, out, dest)
    decreases out
  {
    if out[0] != ToAll(msg) { BroadcastSent(nodes, from, out[1..], dest, msg, to); }
  }

  /** The network side of one node's step: `rest` is what was in flight, apart from a
      delivered envelope. */
  ghost predicate NodeStep(sys: System, next: System, n: Bytes, rest: multiset<Envelope>, o: Outcome,
                           gained: set<Bytes>, dest: Bytes) {
    && n in sys.nodes && rest <= sys.net
    && ActsProperly(sys.nodes[n], o, gained)
    && next.nodes == sys.nodes[n := o.state]
    && next.net == rest + Sends(sys.nodes.Keys, n, o.out, dest)
  }

  lemma NewTokens(sys: System, next: System, n: Bytes, rest: multiset<Envelope>, o: Outcome, gained: set<Bytes>,
                  dest: Bytes, id: Bytes, e: Envelope)
    requires NodesProper(sys) && NodeStep(sys, next, n, rest, o, gained, dest)
    requires Token(next, e, id) && e !in rest
    ensures Owns(sys, n, id) && !Owns(next, n, id) && Announces(o, e.msg.record)
    ensures NamesHeir(sys, n, o, id)
  {
    SentAnnounce(sys.nodes.Keys, n, o.out, dest, e);
  }

  lemma OneRecord(o: Outcome, r: LobbyRecord, q: LobbyRecord)
    requires OneAnnounce(o) && Announces(o, r) && Announces(o, q)
    ensures r == q
  {
    var i :| 0 <= i < |o.out| && o.out[i] == ToAll(Announce(r));
    var j :| 0 <= j < |o.out| && o.out[j] == ToAll(Announce(q));
    assert o.out[i].msg.Announce? && o.out[j].msg.Announce?;
  }

  /** Two announces newly sent in one step carry the same record. */
  lemma NewTokensAgree(sys: System, next: System, n: Bytes, rest: multiset<Envelope>, o: Outcome, gained: set<Bytes>,
                       dest: Bytes, id: Bytes, e: Envelope, f: Envelope)
    requires NodesProper(sys) && NodeStep(sys, next, n, rest, o, gained, dest)
    requires Token(next, e, id) && e !in rest && Token(next, f, id) && f !in rest
    ensures e == f
  {
    SentAnnounce(sys.nodes.Keys, n, o.out, dest, e);
    SentAnnounce(sys.nodes.Keys, n, o.out, dest, f);
    OneRecord(o, e.msg.record, f.msg.record);
  }

  /** A node's step keeps a lobby with one heir, if it gains the lobby at most as that heir
      and hands it over at most when no earlier hand-off is still in flight. */
  lemma StepKeepsHeir(sys: System, next: System, n: Bytes, rest: multiset<Envelope>, o: Outcome, gained: set<Bytes>,
                      dest: Bytes, id: Bytes)
    requires NodesProper(sys) && OneHeir(sys, id) && NodeStep(sys, next, n, rest, o, gained, dest)
    requires NamesHeir(sys, n, o, id) ==> NoTokens(sys, id)
    requires id in gained ==> (forall m :: Owns(sys, m, id) ==> m == n) && (forall e :: Token(sys, e, id) ==> e.to == n)
    ensures OneHeir(next, id)
  {
    forall m | Owns(next, m, id) ensures Owns(sys, m, id) || (m == n && id in gained) {
    }
    forall e | Token(next, e, id)
      ensures if e in rest then Token(sys, e, id)
              else NoTokens(sys, id) && Owns(sys, n, id) && !Owns(next, n, id)
    {
      if e !in rest { NewTokens(sys, next, n, rest, o, gained, dest, id, e); }
    }
    forall e, f | Token(next, e, id) && Token(next, f, id) ensures e.to == f.to {
      if e !in rest {
        NewTokensAgree(sys, next, n, rest, o, gained, dest, id, e, f);
      }
    }
  }

  // ---- each kind of step ----------------------------------------------------------------------

  lemma StepKeepsMint(sys: System, next: System, n: Bytes, rest: multiset<Envelope>, o: Outcome, gained: set<Bytes>,
                      dest: Bytes)
    requires BaseInv(sys) && NodeStep(sys, next, n, rest, o, gained, dest)
    requires sys.minted <= next.minted && gained <= next.minted
    ensures BaseInv(next)
  {
    forall m, id | Owns(next, m, id) ensures id in next.minted {
      assert Owns(sys, m, id) || id in gained;
    }
    forall e, id | InFlight(next, e, id) ensures id in next.minted && CanonRecord(e.msg.record) == e.msg.record {
      if e in rest {
        assert InFlight(sys, e, id);
      } else {
        SentAnnounce(sys.nodes.Keys, n, o.out, dest, e);
        assert Announces(o, e.msg.record);
        assert id in sys.nodes[n].owned ==> Owns(sys, n, id);
      }
    }
  }

  lemma LocalIsNodeStep(sys: System, n: Bytes, act: Act, dest: Bytes)
    requires BaseInv(sys) && Possible(sys, Local(n, act, dest))
    ensures var next := Apply(sys, Local(n, act, dest));
      && NodeStep(sys, next, n, sys.net, ActOutcome(sys.nodes[n], act), NewLobbies(act), dest)
      && BaseInv(next)
  {
    ActIsProper(sys.nodes[n], act);
    StepKeepsMint(sys, Apply(sys, Local(n, act, dest)), n, sys.net, ActOutcome(sys.nodes[n], act), NewLobbies(act),
        dest);
  }

  lemma DeliverIsNodeStep(sys: System, e: Envelope, source: Endpoint, tick: nat, dest: Bytes)
    requires BaseInv(sys) && Possible(sys, Deliver(e, source, tick, dest))
    ensures var next, s := Apply(sys, Deliver(e, source, tick, dest)), sys.nodes[e.to];
      && NodeStep(sys, next, e.to, sys.net - multiset{e}, OnMsg(s, e.msg, source, tick), Gained(s, e.msg), dest)
      && BaseInv(next)
  {
    var s := sys.nodes[e.to];
    MsgIsProper(s, e.msg, source, tick);
    if Gained(s, e.msg) != {} { assert InFlight(sys, e, e.msg.record.lobbyId); }
    StepKeepsMint(sys, Apply(sys, Deliver(e, source, tick, dest)), e.to, sys.net - multiset{e},
        OnMsg(s, e.msg, source, tick), Gained(s, e.msg), dest);
  }

  /** Handling a datagram hands nothing over. */
  lemma MsgHandsNothingOver(s: NodeState, msg: Msg, source: Endpoint, tick: nat, id: Bytes)
    requires OwnsProperly(s)
    ensures !HandsOver(s, OnMsg(s, msg, source, tick), id)
  {
    var o := OnMsg(s, msg, source, tick);
    forall r | Announces(o, r) ensures r.ownerId == s.me {
      assert forall i :: 0 <= i < |o.out| && o.out[i].msg.Announce? ==> o.out[i].msg.record.ownerId == s.me;
    }
  }

  lemma LocalKeepsHeir(sys: System, n: Bytes, act: Act, dest: Bytes, id: Bytes)
    requires BaseInv(sys) && OneHeir(sys, id) && Possible(sys, Local(n, act, dest))
    requires NamesHeir(sys, n, ActOutcome(sys.nodes[n], act), id) ==> NoTokens(sys, id)
    ensures OneHeir(Apply(sys, Local(n, act, dest)), id)
  {
    LocalIsNodeStep(sys, n, act, dest);
    if id in NewLobbies(act) {
      assert forall m :: !Owns(sys, m, id);
      assert forall e :: !InFlight(sys, e, id);
    }
    StepKeepsHeir(sys, Apply(sys, Local(n, act, dest)), n, sys.net, ActOutcome(sys.nodes[n], act), NewLobbies(act),
        dest, id);
  }

  lemma DeliverKeepsHeir(sys: System, e: Envelope, source: Endpoint, tick: nat, dest: Bytes, id: Bytes)
    requires BaseInv(sys) && OneHeir(sys, id) && Possible(sys, Deliver(e, source, tick, dest))
    ensures OneHeir(Apply(sys, Deliver(e, source, tick, dest)), id)
  {
    var s := sys.nodes[e.to];
    DeliverIsNodeStep(sys, e, source, tick, dest);
    MsgHandsNothingOver(s, e.msg, source, tick, id);
    assert !NamesHeir(sys, e.to, OnMsg(s, e.msg, source, tick), id);
    if id in Gained(s, e.msg) { assert Token(sys, e, id); }
    StepKeepsHeir(sys, Apply(sys, Deliver(e, source, tick, dest)), e.to, sys.net - multiset{e},
                  OnMsg(s, e.msg, source, tick), Gained(s, e.msg), dest, id);
  }

  /** Losing and copying datagrams: nothing in flight afterwards that was not before. */
  lemma NetworkKeepsAuthority(sys: System, next: System)
    requires BaseInv(sys) && next.nodes == sys.nodes && next.minted == sys.minted
    requires forall e :: e in next.net ==> e in sys.net
    ensures BaseInv(next)
    ensures forall id :: OneHeir(sys, id) ==> OneHeir(next, id)
  {
    assert forall f, id :: InFlight(next, f, id) ==> InFlight(sys, f, id);
    assert forall m, id :: Owns(next, m, id) <==> Owns(sys, m, id);
    forall id | OneHeir(sys, id) ensures OneHeir(next, id) {
      assert forall f :: Token(next, f, id) ==> Token(sys, f, id);
    }
  }

  lemma StepKeepsBaseInv(sys: System, step: Step)
    requires BaseInv(sys) && Possible(sys, step)
    ensures BaseInv(Apply(sys, step))
  {
    match step
    case Local(n, act, dest) => LocalIsNodeStep(sys, n, act, dest);
    case Deliver(e, source, tick, dest) => DeliverIsNodeStep(sys, e, source, tick, dest);
    case Lose(_) => NetworkKeepsAuthority(sys, Apply(sys, step));
    case Duplicate(_) => NetworkKeepsAuthority(sys, Apply(sys, step));
  }

  lemma StepKeepsAuthorityInv(sys: System, step: Step)
    requires AuthorityInv(sys) && Possible(sys, step) && Settled(sys, step)
    ensures AuthorityInv(Apply(sys, step))
  {
    StepKeepsBaseInv(sys, step);
    forall id ensures OneHeir(Apply(sys, step), id) {
      assert OneHeir(sys, id);
      match step
      case Local(n, act, dest) => LocalKeepsHeir(sys, n, act, dest, id);
      case Deliver(e, source, tick, dest) => DeliverKeepsHeir(sys, e, source, tick, dest, id);
      case Lose(_) => NetworkKeepsAuthority(sys, Apply(sys, step));
      case Duplicate(_) => NetworkKeepsAuthority(sys, Apply(sys, step));
    }
  }

  // ---- every run -----------------------------------------------------------------------

  ghost predicate IsRun(run: seq<System>, steps: seq<Step>) {
    && |run| == |steps| + 1 && Initial(run[0])
    && forall i :: 0 <= i < |steps| ==> Possible(run[i], steps[i]) && run[i + 1] == Apply(run[i], steps[i])
  }

  /** In this run every hand-over to a node that is there finds the earlier hand-offs of its lobby gone from the
      network: delivered or lost, with all their copies. */
  ghost predicate HandoffsSettle(run: seq<System>, steps: seq<Step>)
    requires IsRun(run, steps)
  {
    forall i :: 0 <= i < |steps| ==> Settled(run[i], steps[i])
  }

  lemma RunStep(run: seq<System>, steps: seq<Step>, k: nat)
    requires IsRun(run, steps) && k < |steps|
    ensures Possible(run[k], steps[k]) && run[k + 1] == Apply(run[k], steps[k])
  {
  }

  lemma {:induction false} RunKeepsBaseInv(run: seq<System>, steps: seq<Step>, k: nat)
    requires IsRun(run, steps) && k < |run|
    ensures BaseInv(run[k])
  {
    if k > 0 {
      RunKeepsBaseInv(run, steps, k - 1);
      StepKeepsBaseInv(run[k - 1], steps[k - 1]);
    }
  }

  lemma {:induction false} RunKeepsAuthority(run: seq<System>, steps: seq<Step>, k: nat)
    requires IsRun(run, steps) && HandoffsSettle(run, steps) && k < |run|
    ensures AuthorityInv(run[k])
  {
    if k > 0 {
      RunKeepsAuthority(run, steps, k - 1);
      StepKeepsAuthorityInv(run[k - 1], steps[k - 1]);
    }
  }

  /** At most one authority: in no reachable state do two nodes own the same lobby, and an
      owner's record names that owner. */
  lemma AtMostOneAuthority(run: seq<System>, steps: seq<Step>, k: nat, n: Bytes, m: Bytes, id: Bytes)
    requires IsRun(run, steps) && HandoffsSettle(run, steps) && k < |run|
    requires Owns(run[k], n, id) && Owns(run[k], m, id)
    ensures n == m
    ensures id in run[k].nodes[n].known && run[k].nodes[n].known[id].ownerId == n
  {
    RunKeepsAuthority(run, steps, k);
    assert OneHeir(run[k], id);
  }
}
