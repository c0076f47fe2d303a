/** The notifications a member gets about a lobby tell it exactly what its record says. */
module LobbyEvents {
  import opened Basics
  import opened AttributeCodec
  import opened AttrLists
  import opened LobbyCodec
  import opened LobbyNode
  import opened LobbyReplicas

  ghost function Ids(ms: seq<Member>): set<Bytes> {
    if ms == [] then {} else {ms[0].id} + Ids(ms[1..])
  }

  lemma {:induction false} FoundIffIn(ms: seq<Member>, id: Bytes)
    ensures id in Ids(ms) <==> FirstMember(ms, id) < |ms|
  {
    if ms != [] { FoundIffIn(ms[1..], id); }
  }

  // ---- folding a log of notifications ----------------------------------------------------

  const DEPARTED: set<Byte> := {LMS_LEFT, LMS_DISCONNECTED, LMS_KICKED}

  /** The roster of one lobby as a listener that only hears notifications keeps it. */
  ghost function Track(roster: set<Bytes>, id: Bytes, events: seq<Event>): set<Bytes>
    decreases events
  {
    if events == [] then roster else Track(TrackOne(roster, id, events[0]), id, events[1..])
  }

  ghost function TrackOne(roster: set<Bytes>, id: Bytes, e: Event): set<Bytes> {
    if !e.MemberStatus? || e.lobbyId != id then roster
    else if e.status == LMS_JOINED then roster + {e.member}
    else if e.status in DEPARTED then roster - {e.member}
    else roster
  }

  lemma {:induction false} TrackConcat(roster: set<Bytes>, id: Bytes, a: seq<Event>, b: seq<Event>)
    ensures Track(roster, id, a + b) == Track(Track(roster, id, a), id, b)
    decreases a
  {
    if a == [] {
      assert a + b == b;
    } else {
      assert (a + b)[1..] == a[1..] + b;
      TrackConcat(TrackOne(roster, id, a[0]), id, a[1..], b);
    }
  }

  lemma {:induction false} TrackStatuses(roster: set<Bytes>, id: Bytes, pids: seq<Bytes>)
    ensures Track(roster, id, StatusEvents(id, pids, LMS_JOINED)) == roster + Elements(pids)
    ensures Track(roster, id, StatusEvents(id, pids, LMS_LEFT)) == roster - Elements(pids)
    decreases pids
  {
    if pids != [] {
      TrackStatuses(roster + {pids[0]}, id, pids[1..]);
      TrackStatuses(roster - {pids[0]}, id, pids[1..]);
      assert StatusEvents(id, pids, LMS_JOINED)[1..] == StatusEvents(id, pids[1..], LMS_JOINED);
      assert StatusEvents(id, pids, LMS_LEFT)[1..] == StatusEvents(id, pids[1..], LMS_LEFT);
      assert Elements(pids) == {pids[0]} + Elements(pids[1..]);
    }
  }

  /** An event that says nothing about who is on this lobby's roster. */
  ghost predicate Mute(e: Event, id: Bytes) {
    !e.MemberStatus? || e.lobbyId != id || (e.status != LMS_JOINED && e.status !in DEPARTED)
  }

  lemma {:induction false} TrackIgnores(roster: set<Bytes>, id: Bytes, events: seq<Event>)
    requires forall i :: 0 <= i < |events| ==> Mute(events[i], id)
    ensures Track(roster, id, events) == roster
    decreases events
  {
    if events != [] { TrackIgnores(roster, id, events[1..]); }
  }

  // ---- what an announce tells ---------------------------------------------------------------

  lemma ConsElements(x: Bytes, rest: seq<Bytes>)
    ensures Elements([x] + rest) == {x} + Elements(rest)
  {
    assert forall y :: y in [x] + rest <==> y == x || y in rest;
  }

  lemma {:induction false} MissingIsDifference(xs: seq<Member>, ys: seq<Member>)
    ensures Elements(Missing(xs, ys)) == Ids(xs) - Ids(ys)
  {
    if xs != [] {
      MissingIsDifference(xs[1..], ys);
      FoundIffIn(ys, xs[0].id);
      ConsElements(xs[0].id, Missing(xs[1..], ys));
      assert Missing(xs, ys) == if FirstMember(ys, xs[0].id) < |ys| then Missing(xs[1..], ys)
          else [xs[0].id] + Missing(xs[1..], ys);
    }
  }

  lemma TrackParts(r0: set<Bytes>, r1: set<Bytes>, r2: set<Bytes>, id: Bytes,
                   a: seq<Event>, b: seq<Event>, c: seq<Event>, d: seq<Event>, e: seq<Event>)
    requires Track(r0, id, a) == r0 && Track(r0, id, b) == r1 && Track(r1, id, c) == r2
    requires Track(r2, id, d) == r2 && Track(r2, id, e) == r2
    ensures Track(r0, id, a + b + c + d + e) == r2
  {
    TrackConcat(r0, id, a + b + c + d, e);
    TrackConcat(r0, id, a + b + c, d);
    TrackConcat(r0, id, a + b, c);
    TrackConcat(r0, id, a, b);
  }

  lemma ArrivalsAndDepartures(a: set<Bytes>, b: set<Bytes>, id: Bytes, joined: seq<Bytes>, left: seq<Bytes>)
    requires Elements(joined) == b - a && Elements(left) == a - b
    ensures Track(a, id, StatusEvents(id, joined, LMS_JOINED)) == a + b
    ensures Track(a + b, id, StatusEvents(id, left, LMS_LEFT)) == b
  {
    TrackStatuses(a, id, joined);
    TrackStatuses(a + b, id, left);
    assert a + (b - a) == a + b;
    assert (a + b) - (a - b) == b;
  }

  lemma DiffTracks(a: set<Bytes>, b: set<Bytes>, id: Bytes, joined: seq<Bytes>, left: seq<Bytes>,
                   version: seq<Event>, updates: seq<Event>, promoted: seq<Event>)
    requires forall i :: 0 <= i < |version| ==> Mute(version[i], id)
    requires forall i :: 0 <= i < |updates| ==> Mute(updates[i], id)
    requires forall i :: 0 <= i < |promoted| ==> Mute(promoted[i], id)
    requires Elements(joined) == b - a && Elements(left) == a - b
    ensures Track(a, id, version + StatusEvents(id, joined, LMS_JOINED) + StatusEvents(id, left, LMS_LEFT) + updates
          + promoted) == b
  {
    TrackIgnores(a, id, version);
    ArrivalsAndDepartures(a, b, id, joined, left);
    TrackIgnores(b, id, updates);
    TrackIgnores(b, id, promoted);
    TrackParts(a, a + b, b, id, version, StatusEvents(id, joined, LMS_JOINED), StatusEvents(id, left, LMS_LEFT),
        updates, promoted);
  }

  /** What an announce about `latest` tells a listener that knew `was`. */
  lemma AnnounceTracks(was: LobbyRecord, latest: LobbyRecord)
    ensures Track(Ids(was.members), latest.lobbyId, DiffEvents(was, latest)) == Ids(latest.members)
  {
    var id := latest.lobbyId;
    MissingIsDifference(latest.members, was.members);
    MissingIsDifference(was.members, latest.members);
    DiffTracks(
      Ids(was.members), Ids(latest.members), id, Missing(latest.members, was.members),
          Missing(was.members, latest.members),
      if latest.version != was.version then [LobbyUpdated(id)] else [],
      UpdateEvents(id, Changed(latest.members, was.members)),
      if was.ownerId != latest.ownerId && latest.ownerId != [] then [MemberStatus(id, latest.ownerId, LMS_PROMOTED)]
      else []);
  }

  /** Both rosters hold the member, with attribute maps that differ. */
  ghost predicate AttrsDiffer(was: LobbyRecord, latest: LobbyRecord, p: Bytes) {
    var i, j := FirstMember(latest.members, p), FirstMember(was.members, p);
    && i < |latest.members| && j < |was.members|
    && !MapsEqual(ToMap(was.members[j].attributes), ToMap(latest.members[i].attributes))
  }

  ghost predicate UniqueAttrKeys(ms: seq<Member>) {
    forall i :: 0 <= i < |ms| ==> UniqueKeys(ms[i].attributes)
  }

  lemma IsChangedIsMapInequality(x: Member, ys: seq<Member>)
    requires UniqueKeys(x.attributes) && UniqueAttrKeys(ys)
    ensures var j := FirstMember(ys, x.id);
      IsChanged(x, ys) <==> j < |ys| && !MapsEqual(ToMap(ys[j].attributes), ToMap(x.attributes))
  {
    var j := FirstMember(ys, x.id);
    if j < |ys| { SameAttrsIsMapEquality(ys[j].attributes, x.attributes); }
  }

  /** Entry number i is this member's, with attributes that differ from those `ys` has. */
  ghost predicate ChangedAt(xs: seq<Member>, ys: seq<Member>, p: Bytes, i: int) {
    0 <= i < |xs| && xs[i].id == p && IsChanged(xs[i], ys)
  }

  ghost function ChangesOf(xs: seq<Member>, ys: seq<Member>, p: Bytes): set<int> {
    set i | 0 <= i < |xs| && ChangedAt(xs, ys, p, i)
  }

  lemma CountConcat(front: seq<Bytes>, back: seq<Bytes>, p: Bytes)
    ensures multiset(front + back)[p] == multiset(front)[p] + multiset(back)[p]
  {
  }

  lemma ChangedOfOne(x: Member, ys: seq<Member>)
    ensures Changed([x], ys) == if IsChanged(x, ys) then [x.id] else []
  {
    assert [x][1..] == [];
  }

  lemma ChangesOfSnoc(init: seq<Member>, last: Member, ys: seq<Member>, p: Bytes)
    ensures |ChangesOf(init + [last], ys, p)|
          == |ChangesOf(init, ys, p)| + (if last.id == p && IsChanged(last, ys) then 1 else 0)
  {
    var xs, n := init + [last], |init|;
    assert forall i :: 0 <= i < n ==> (ChangedAt(xs, ys, p, i) <==> ChangedAt(init, ys, p, i));
    assert n !in ChangesOf(init, ys, p);
    assert ChangesOf(xs, ys, p) == ChangesOf(init, ys, p) + (if ChangedAt(xs, ys, p, n) then {n} else {});
  }

  /** Each entry with changed attributes is listed, whatever else the roster holds. */
  lemma {:induction false} ChangedCounts(xs: seq<Member>, ys: seq<Member>, p: Bytes)
    ensures multiset(Changed(xs, ys))[p] == |ChangesOf(xs, ys, p)|
  {
    if xs == [] {
      assert ChangesOf(xs, ys, p) == {};
    } else {
      var n := |xs| - 1;
      var init, last := xs[..n], xs[n];
      assert xs == init + [last];
      ChangedCounts(init, ys, p);
      ChangedOfConcat(init, [last], ys);
      ChangedOfOne(last, ys);
      CountConcat(Changed(init, ys), Changed([last], ys), p);
      ChangesOfSnoc(init, last, ys, p);
    }
  }

  lemma {:induction false} CountUpdates(id: Bytes, pids: seq<Bytes>, p: Bytes)
    ensures multiset(UpdateEvents(id, pids))[MemberUpdated(id, p)] == multiset(pids)[p]
  {
    if pids != [] {
      CountUpdates(id, pids[1..], p);
      assert pids == [pids[0]] + pids[1..];
      assert UpdateEvents(id, pids) == [MemberUpdated(id, pids[0])] + UpdateEvents(id, pids[1..]);
    }
  }

  lemma UpdatesAreFourth(id: Bytes, p: Bytes, version: seq<Event>, joined: seq<Event>, left: seq<Event>,
                         changed: seq<Bytes>, promoted: seq<Event>)
    requires forall i :: 0 <= i < |version| ==> !version[i].MemberUpdated?
    requires forall i :: 0 <= i < |joined| ==> !joined[i].MemberUpdated?
    requires forall i :: 0 <= i < |left| ==> !left[i].MemberUpdated?
    requires forall i :: 0 <= i < |promoted| ==> !promoted[i].MemberUpdated?
    ensures multiset(version + joined + left + UpdateEvents(id, changed) + promoted)[MemberUpdated(id, p)]
          == multiset(changed)[p]
  {
    CountUpdates(id, changed, p);
    CountOnlyFourth(version, joined, left, UpdateEvents(id, changed), promoted, MemberUpdated(id, p));
  }

  /** For any two records, also ones off the wire that repeat members or keys: on an announce
      a member-update goes out for each entry whose attributes the comparison finds changed. */
  lemma UpdatesCountChanges(was: LobbyRecord, latest: LobbyRecord, p: Bytes)
    ensures multiset(DiffEvents(was, latest))[MemberUpdated(latest.lobbyId, p)]
          == |ChangesOf(latest.members, was.members, p)|
  {
    var id := latest.lobbyId;
    ChangedCounts(latest.members, was.members, p);
    UpdatesAreFourth(
      id, p, if latest.version != was.version then [LobbyUpdated(id)] else [],
      StatusEvents(id, Missing(latest.members, was.members), LMS_JOINED),
      StatusEvents(id, Missing(was.members, latest.members), LMS_LEFT),
      Changed(latest.members, was.members),
      if was.ownerId != latest.ownerId && latest.ownerId != [] then [MemberStatus(id, latest.ownerId, LMS_PROMOTED)]
      else []);
  }

  lemma ChangesOfDistinct(xs: seq<Member>, ys: seq<Member>, p: Bytes)
    requires DistinctMembers(xs)
    ensures var i := FirstMember(xs, p);
      ChangesOf(xs, ys, p) == if i < |xs| && IsChanged(xs[i], ys) then {i} else {}
  {
  }

  /** On an announce a member-update goes, once, to exactly the members of both rosters
      whose attribute maps differ. LobbyAttributes shows that runs keep records this tidy. */
  lemma UpdatesGoToChangedMembers(was: LobbyRecord, latest: LobbyRecord, p: Bytes)
    requires DistinctMembers(latest.members) && UniqueAttrKeys(latest.members) && UniqueAttrKeys(was.members)
    ensures multiset(DiffEvents(was, latest))[MemberUpdated(latest.lobbyId, p)]
         == if AttrsDiffer(was, latest, p) then 1 else 0
  {
    var i := FirstMember(latest.members, p);
    if i < |latest.members| { IsChangedIsMapInequality(latest.members[i], was.members); }
    UpdatesCountChanges(was, latest, p);
    ChangesOfDistinct(latest.members, was.members, p);
  }

  lemma CountOnlyFourth(a: seq<Event>, b: seq<Event>, c: seq<Event>, d: seq<Event>, f: seq<Event>, x: Event)
    requires x !in a && x !in b && x !in c && x !in f
    ensures multiset(a + b + c + d + f)[x] == multiset(d)[x]
  {
    assert multiset(a + b + c + d + f) == multiset(a) + multiset(b) + multiset(c) + multiset(d) + multiset(f);
  }

  // ---- every datagram -----------------------------------------------------------------------

  ghost predicate Belongs(s: NodeState, id: Bytes) {
    id in s.known && id in s.memberOf && DistinctMembers(s.known[id].members)
  }

  /** A listener follows a departure that says so, and one that takes nobody off the
      roster unless it says joined. */
  ghost predicate Followed(known: LobbyRecord, subject: Bytes, reason: Byte) {
    reason in DEPARTED || (reason != LMS_JOINED && !HasMember(known, subject))
  }

  /** Rosters that replace the node's have no duplicates, and departures neither close the
      lobby nor escape a listener. */
  ghost predicate Sound(s: NodeState, msg: Msg, id: Bytes)
    requires id in s.known
  {
    match msg
    case Announce(record) => record.lobbyId == id && id !in s.owned ==> DistinctMembers(record.members)
    case Leave(l, subject, reason) => l == id ==> reason != LMS_CLOSED && Followed(s.known[id], subject, reason)
    case _ => true
  }

  /** The members without number i. */
  function Dropped(ms: seq<Member>, i: nat): seq<Member>
    requires i < |ms|
  {
    ms[..i] + ms[i + 1..]
  }

  lemma {:induction false} DroppedIds(ms: seq<Member>, i: nat)
    requires DistinctMembers(ms) && i < |ms|
    ensures Ids(Dropped(ms, i)) == Ids(ms) - {ms[i].id}
  {
    if i == 0 {
      FoundIffIn(ms[1..], ms[0].id);
      assert Dropped(ms, i) == ms[1..];
    } else {
      DroppedIds(ms[1..], i - 1);
      assert Dropped(ms, i)[1..] == Dropped(ms[1..], i - 1);
    }
  }

  lemma DroppedDistinct(ms: seq<Member>, i: nat)
    requires DistinctMembers(ms) && i < |ms|
    ensures DistinctMembers(Dropped(ms, i))
  {
  }

  lemma RemovalIsErase(ms: seq<Member>, p: Bytes)
    requires DistinctMembers(ms)
    ensures var i := FirstMember(ms, p);
      if i < |ms| then Ids(Dropped(ms, i)) == Ids(ms) - {p} && DistinctMembers(Dropped(ms, i)) else p !in Ids(ms)
  {
    var i := FirstMember(ms, p);
    if i < |ms| {
      DroppedIds(ms, i);
      DroppedDistinct(ms, i);
    } else {
      FoundIffIn(ms, p);
    }
  }

  lemma {:induction false} AppendedIds(ms: seq<Member>, m: Member)
    ensures Ids(ms + [m]) == Ids(ms) + {m.id}
  {
    if ms == [] {
      assert ms + [m] == [m] && [m][1..] == [];
    } else {
      AppendedIds(ms[1..], m);
      assert (ms + [m])[1..] == ms[1..] + [m];
    }
  }

  lemma {:induction false} ReplacedKeepsIds(ms: seq<Member>, i: nat, m: Member)
    requires i < |ms| && m.id == ms[i].id
    ensures Ids(ms[i := m]) == Ids(ms)
  {
    if i == 0 {
      assert ms[0 := m][1..] == ms[1..];
    } else {
      ReplacedKeepsIds(ms[1..], i - 1, m);
      assert ms[i := m][1..] == ms[1..][i - 1 := m];
    }
  }

  lemma UpdateTracks(s: NodeState, id: Bytes, l: Bytes, member: Bytes, adds: seq<NamedAttr>, removes: seq<Bytes>)
    requires Belongs(s, id)
    ensures Tracks(s, id, OnUpdate(s, l, member, adds, removes))
  {
    var o, ms := OnUpdate(s, l, member, adds, removes), s.known[id].members;
    TrackIgnores(Ids(ms), id, o.events);
    if l == id && o.events != [] {
      var i := FirstMember(ms, member);
      ReplacedKeepsIds(ms, i, ms[i].(attributes := Merge(ms[i].attributes, adds, removes)));
    }
  }

  lemma JoinRequestTracks(s: NodeState, id: Bytes, l: Bytes, joiner: Bytes)
    requires Belongs(s, id)
    ensures Tracks(s, id, OnJoinRequest(s, l, joiner))
  {
    var o, ms := OnJoinRequest(s, l, joiner), s.known[id].members;
    if l == id && o.events != [] {
      AppendedIds(ms, NewMember(joiner));
      TrackSingle(Ids(ms), id, o.events[0]);
    } else {
      TrackIgnores(Ids(ms), id, o.events);
    }
  }

  lemma LeaveTracks(s: NodeState, id: Bytes, l: Bytes, subject: Bytes, reason: Byte)
    requires Belongs(s, id) && (l == id ==> reason != LMS_CLOSED && Followed(s.known[id], subject, reason))
    ensures Tracks(s, id, OnLeave(s, l, subject, reason))
  {
    var o, ms := OnLeave(s, l, subject, reason), s.known[id].members;
    if l == id {
      FoundIffIn(ms, subject);
      RemovalIsErase(ms, subject);
      TrackSingle(Ids(ms), id, MemberStatus(id, subject, reason));
    } else {
      TrackIgnores(Ids(ms), id, o.events);
    }
  }

  lemma TrackSingle(roster: set<Bytes>, id: Bytes, e: Event)
    ensures Track(roster, id, [e]) == TrackOne(roster, id, e)
  {
    assert [e][1..] == [];
  }

  /** Every event is about this lobby. */
  ghost predicate About(events: seq<Event>, l: Bytes) {
    forall i :: 0 <= i < |events| ==> events[i].lobbyId == l
  }

  lemma DiffIsAbout(was: LobbyRecord, latest: LobbyRecord)
    ensures About(DiffEvents(was, latest), latest.lobbyId)
  {
    var id := latest.lobbyId;
    AboutParts(id, if latest.version != was.version then [LobbyUpdated(id)] else [],
               StatusEvents(id, Missing(latest.members, was.members), LMS_JOINED),
               StatusEvents(id, Missing(was.members, latest.members), LMS_LEFT),
               UpdateEvents(id, Changed(latest.members, was.members)),
               if was.ownerId != latest.ownerId && latest.ownerId != [] then
                 [MemberStatus(id, latest.ownerId, LMS_PROMOTED)]
               else []);
  }

  lemma AboutParts(l: Bytes, a: seq<Event>, b: seq<Event>, c: seq<Event>, d: seq<Event>, e: seq<Event>)
    requires About(a, l) && About(b, l) && About(c, l) && About(d, l) && About(e, l)
    ensures About(a + b + c + d + e, l)
  {
    AboutConcat(a, b, l);
    AboutConcat(a + b, c, l);
    AboutConcat(a + b + c, d, l);
    AboutConcat(a + b + c + d, e, l);
  }

  lemma AboutConcat(a: seq<Event>, b: seq<Event>, l: Bytes)
    requires About(a, l) && About(b, l)
    ensures About(a + b, l)
  {
  }

  lemma AnnounceElsewhere(s: NodeState, id: Bytes, record: LobbyRecord, source: Endpoint, tick: nat)
    requires Belongs(s, id) && (record.lobbyId != id || id == [] || id in s.owned)
    ensures Tracks(s, id, OnAnnounce(s, record, source, tick))
  {
    var l, events := record.lobbyId, OnAnnounce(s, record, source, tick).events;
    if l in s.known { DiffIsAbout(s.known[l], record.(host := source, lastSeen := tick)); }
    assert events != [] ==> l != id && About(events, l);
    TrackIgnores(Ids(s.known[id].members), id, events);
  }

  /** The outcome's notifications move a listener's roster exactly to the new record's. */
  ghost predicate Tracks(s: NodeState, id: Bytes, o: Outcome)
    requires id in s.known
  {
    && id in o.state.known && DistinctMembers(o.state.known[id].members)
    && Track(Ids(s.known[id].members), id, o.events) == Ids(o.state.known[id].members)
  }

  /** One datagram: the notifications it causes tell exactly what the record then says. */
  lemma DatagramTracks(s: NodeState, id: Bytes, msg: Msg, source: Endpoint, tick: nat)
    requires Belongs(s, id) && Sound(s, msg, id)
    ensures Tracks(s, id, OnMsg(s, msg, source, tick))
  {
    match msg
    case Announce(record) =>
      if record.lobbyId == id && id != [] && id !in s.owned {
        AnnounceTracks(s.known[id], record.(host := source, lastSeen := tick));
      } else {
        AnnounceElsewhere(s, id, record, source, tick);
      }
    case Update(l, member, adds, removes) => UpdateTracks(s, id, l, member, adds, removes);
    case JoinRequest(l, joiner) => JoinRequestTracks(s, id, l, joiner);
    case Leave(l, subject, reason) => LeaveTracks(s, id, l, subject, reason);
  }

  /** A departure datagram is tracked exactly when its reason says departure, or when it
      neither says joined nor concerns anybody on the roster. */
  lemma LeaveTracksExactly(s: NodeState, id: Bytes, subject: Bytes, reason: Byte)
    requires Belongs(s, id) && reason != LMS_CLOSED
    ensures var o := OnLeave(s, id, subject, reason);
      Track(Ids(s.known[id].members), id, o.events) == Ids(o.state.known[id].members)
      <==> Followed(s.known[id], subject, reason)
  {
    var o := OnLeave(s, id, subject, reason);
    var ms := s.known[id].members;
    FoundIffIn(ms, subject);
    RemovalIsErase(ms, subject);
    assert o.events == [MemberStatus(id, subject, reason)];
    assert Track(Ids(ms), id, o.events) == TrackOne(Ids(ms), id, o.events[0]);
  }

  // ---- every sequence of datagrams -------------------------------------------------------------

  datatype Heard = Heard(msg: Msg, source: Endpoint, tick: nat)

  ghost function Hear(s: NodeState, heard: seq<Heard>): NodeState
    decreases heard
  {
    if heard == [] then s
    else Hear(OnMsg(s, heard[0].msg, heard[0].source, heard[0].tick).state, heard[1..])
  }

  ghost function Told(s: NodeState, heard: seq<Heard>): seq<Event>
    decreases heard
  {
    if heard == [] then []
    else
      var o := OnMsg(s, heard[0].msg, heard[0].source, heard[0].tick);
      o.events + Told(o.state, heard[1..])
  }

  /** The node is a member whenever a datagram comes in, and every datagram is sound. */
  ghost predicate MemberThroughout(s: NodeState, id: Bytes, heard: seq<Heard>)
    decreases heard
  {
    heard != [] ==>
      && id in s.known && id in s.memberOf && Sound(s, heard[0].msg, id)
      && MemberThroughout(OnMsg(s, heard[0].msg, heard[0].source, heard[0].tick).state, id, heard[1..])
  }

  /** While a node stays a member, the notifications it got, folded over its starting
      roster, give exactly the member set of its record. */
  lemma {:induction false} NotificationsReproduceRoster(s: NodeState, id: Bytes, heard: seq<Heard>)
    requires id in s.known && DistinctMembers(s.known[id].members) && MemberThroughout(s, id, heard)
    ensures var end := Hear(s, heard);
      id in end.known && Track(Ids(s.known[id].members), id, Told(s, heard)) == Ids(end.known[id].members)
    decreases heard
  {
    if heard != [] {
      var h := heard[0];
      var o := OnMsg(s, h.msg, h.source, h.tick);
      DatagramTracks(s, id, h.msg, h.source, h.tick);
      NotificationsReproduceRoster(o.state, id, heard[1..]);
      TrackConcat(Ids(s.known[id].members), id, o.events, Told(o.state, heard[1..]));
    }
  }
}
