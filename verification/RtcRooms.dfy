/** Voice rooms: the rooms the lobby system manages are reconciled once per tick with the
    lobbies the node belongs to; custom rooms are the game's own. */
module RtcRooms {
  import opened Basics
  import LobbyCodec

  const PREFIX: Bytes := [114, 116, 99, 95] // "rtc_"
  const AUDIO_DISABLED: int := 1

  /** The room of a lobby. */
  function RoomName(lobbyId: Bytes): Bytes {
    PREFIX + lobbyId
  }

  lemma RoomNameInjective(a: Bytes, b: Bytes)
    ensures RoomName(a) == RoomName(b) ==> a == b
  {
    assert RoomName(a)[|PREFIX|..] == a && RoomName(b)[|PREFIX|..] == b;
  }

  datatype Room = Room(managed: bool, lobbyId: Bytes, participants: seq<Bytes>, audio: int)
  type Rooms = map<Bytes, Room>

  /** A lobby with a voice room, and who is in it. */
  datatype View = View(lobbyId: Bytes, members: seq<Bytes>)

  datatype Event =
    | Connection(lobbyId: Bytes, connected: bool)
    | Participant(room: Bytes, pid: Bytes, joined: bool)
    | Audio(room: Bytes, pid: Bytes, status: int)
    | Data(room: Bytes, pid: Bytes)

  // ---- one tick, as a function ---------------------------------------------------------

  ghost function Bundle(room: Bytes, pid: Bytes): seq<Event> {
    [Participant(room, pid, true), Audio(room, pid, AUDIO_DISABLED), Data(room, pid)]
  }

  ghost function Bundles(room: Bytes, pids: seq<Bytes>): seq<Event> {
    if pids == [] then [] else Bundles(room, pids[..|pids| - 1]) + Bundle(room, pids[|pids| - 1])
  }

  ghost function Departures(room: Bytes, pids: seq<Bytes>): seq<Event> {
    if pids == [] then [] else Departures(room, pids[..|pids| - 1]) + [Participant(room, pids[|pids| - 1], false)]
  }

  /** The entries of `xs` that are not in `ys`, in order. */
  ghost function NotIn(xs: seq<Bytes>, ys: seq<Bytes>): seq<Bytes> {
    if xs == [] then []
    else NotIn(xs[..|xs| - 1], ys) + (if xs[|xs| - 1] in ys then [] else [xs[|xs| - 1]])
  }

  function Visit(rooms: Rooms, v: View): Rooms {
    var name := RoomName(v.lobbyId);
    rooms[name := if name in rooms then rooms[name].(participants := v.members)
                  else Room(true, v.lobbyId, v.members, AUDIO_DISABLED)]
  }

  ghost function VisitEvents(rooms: Rooms, v: View): seq<Event> {
    var name := RoomName(v.lobbyId);
    if name !in rooms then [Connection(v.lobbyId, true)] + Bundles(name, v.members)
    else
      var was := rooms[name].participants;
      Bundles(name, NotIn(v.members, was)) + Departures(name, NotIn(was, v.members))
  }

  ghost function VisitAll(rooms: Rooms, views: seq<View>): Rooms {
    if views == [] then rooms else Visit(VisitAll(rooms, views[..|views| - 1]), views[|views| - 1])
  }

  ghost function AllVisitEvents(rooms: Rooms, views: seq<View>): seq<Event> {
    if views == [] then []
    else
      var init := views[..|views| - 1];
      AllVisitEvents(rooms, init) + VisitEvents(VisitAll(rooms, init), views[|views| - 1])
  }

  ghost predicate Viewed(views: seq<View>, name: Bytes) {
    exists i :: 0 <= i < |views| && RoomName(views[i].lobbyId) == name
  }

  /** The managed rooms whose lobby is gone. */
  ghost function GoneRooms(rooms: Rooms, views: seq<View>): set<Bytes> {
    set k | k in rooms && rooms[k].managed && !Viewed(views, k)
  }

  ghost function Reconciled(rooms: Rooms, views: seq<View>): Rooms {
    var all := VisitAll(rooms, views);
    all - GoneRooms(all, views)
  }

  /** Names in the order the room map yields them. */
  ghost predicate Ascending(names: seq<Bytes>) {
    forall i, j :: 0 <= i < j < |names| ==> LexLess(names[i], names[j])
  }

  /** The disconnections of these rooms, each once, in the order of their names. */
  ghost predicate Disconnections(events: seq<Event>, names: seq<Bytes>, rooms: Rooms, gone: set<Bytes>) {
    && NoDuplicates(names) && Ascending(names) && Elements(names) == gone && |events| == |names|
    && forall i :: 0 <= i < |names| ==> names[i] in rooms && events[i] == Connection(rooms[names[i]].lobbyId, false)
  }

  /** What one tick does. */
  ghost predicate Ticked(rooms: Rooms, views: seq<View>, after: Rooms, events: seq<Event>, gone: seq<Event>,
                         names: seq<Bytes>) {
    var all := VisitAll(rooms, views);
    && after == Reconciled(rooms, views)
    && events == AllVisitEvents(rooms, views) + gone
    && Disconnections(gone, names, all, GoneRooms(all, views))
  }

  // ---- the managed rooms are the views ------------------------------------------------

  /** Managed rooms carry their lobby's room name. */
  ghost predicate NamedRooms(rooms: Rooms) {
    forall k :: k in rooms && rooms[k].managed ==> k == RoomName(rooms[k].lobbyId)
  }

  ghost predicate NoCustomViewed(rooms: Rooms, views: seq<View>) {
    forall k :: k in rooms && !rooms[k].managed ==> !Viewed(views, k)
  }

  ghost predicate DistinctViews(views: seq<View>) {
    forall i, j :: 0 <= i < j < |views| ==> views[i].lobbyId != views[j].lobbyId
  }

  /** A room after the visits, against the one before: nothing but its participants has
      changed, and a new one is managed and carries its lobby's name. */
  ghost predicate RoomKept(rooms: Rooms, all: Rooms, k: Bytes, viewed: bool) {
    && (k in all <==> k in rooms || viewed)
    && (k in rooms ==> if viewed then all[k].(participants := rooms[k].participants) == rooms[k]
      else all[k] == rooms[k])
    && (k !in rooms && k in all ==>
          all[k].managed && k == RoomName(all[k].lobbyId) && all[k].audio == AUDIO_DISABLED)
  }

  ghost predicate Faithful(rooms: Rooms, views: seq<View>, all: Rooms) {
    && (forall k :: RoomKept(rooms, all, k, Viewed(views, k)))
    && forall i :: 0 <= i < |views| ==> HasRoster(all, views[i])
  }

  ghost predicate HasRoster(rooms: Rooms, v: View) {
    RoomName(v.lobbyId) in rooms && rooms[RoomName(v.lobbyId)].participants == v.members
  }

  lemma {:induction false} VisitedRoom(rooms: Rooms, views: seq<View>, k: Bytes)
    ensures RoomKept(rooms, VisitAll(rooms, views), k, Viewed(views, k))
  {
    if views != [] {
      var init, v := views[..|views| - 1], views[|views| - 1];
      VisitedRoom(rooms, init, k);
      assert Viewed(views, k) <==> Viewed(init, k) || RoomName(v.lobbyId) == k;
    }
  }

  lemma {:induction false} VisitedView(rooms: Rooms, views: seq<View>, i: nat)
    requires DistinctViews(views) && i < |views|
    ensures HasRoster(VisitAll(rooms, views), views[i])
  {
    var init, v := views[..|views| - 1], views[|views| - 1];
    if i < |init| {
      VisitedView(rooms, init, i);
      RoomNameInjective(views[i].lobbyId, v.lobbyId);
    }
  }

  lemma VisitedRooms(rooms: Rooms, views: seq<View>)
    requires DistinctViews(views)
    ensures Faithful(rooms, views, VisitAll(rooms, views))
  {
    forall k ensures RoomKept(rooms, VisitAll(rooms, views), k, Viewed(views, k)) {
      VisitedRoom(rooms, views, k);
    }
    forall i | 0 <= i < |views| ensures HasRoster(VisitAll(rooms, views), views[i]) {
      VisitedView(rooms, views, i);
    }
  }

  /** After a tick the managed rooms are exactly the views, and custom rooms are as they
      were, if and only if no custom room has a lobby room's name. */
  lemma TickReconciles(rooms: Rooms, views: seq<View>)
    requires DistinctViews(views)
    ensures var after := Reconciled(rooms, views);
      (&& (forall k :: k in after && after[k].managed <==> Viewed(views, k))
       && (forall i :: 0 <= i < |views| ==> HasRoster(after, views[i]))
       && (forall k :: k in rooms && !rooms[k].managed ==> k in after && after[k] == rooms[k]))
      <==> NoCustomViewed(rooms, views)
  {
    VisitedRooms(rooms, views);
    var all, after := VisitAll(rooms, views), Reconciled(rooms, views);
    forall i | 0 <= i < |views| ensures Viewed(views, RoomName(views[i].lobbyId)) && RoomName(views[i].lobbyId) in all {
    }
    assert forall k :: Viewed(views, k) ==> k in after;
    if NoCustomViewed(rooms, views) {
      forall k | Viewed(views, k) ensures after[k].managed {
        var i :| 0 <= i < |views| && RoomName(views[i].lobbyId) == k;
      }
    } else {
      var k :| k in rooms && !rooms[k].managed && Viewed(views, k);
      assert k in after && !after[k].managed;
    }
  }

  /** Rooms that stay keep their audio setting and their lobby. */
  lemma TickKeepsSettings(rooms: Rooms, views: seq<View>, k: Bytes)
    requires k in rooms && k in Reconciled(rooms, views)
    ensures Reconciled(rooms, views)[k].(participants := rooms[k].participants) == rooms[k]
  {
    VisitedRoom(rooms, views, k);
  }

  lemma VisitsKeepNames(rooms: Rooms, views: seq<View>)
    requires NamedRooms(rooms)
    ensures NamedRooms(VisitAll(rooms, views)) && NamedRooms(Reconciled(rooms, views))
  {
    var all := VisitAll(rooms, views);
    forall k | k in all && all[k].managed ensures k == RoomName(all[k].lobbyId) {
      VisitedRoom(rooms, views, k);
    }
  }

  // ---- where the views come from --------------------------------------------------------

  ghost predicate HasRoom(known: map<Bytes, LobbyCodec.LobbyRecord>, memberOf: set<Bytes>, id: Bytes) {
    id in memberOf && id in known && known[id].rtcRoomEnabled != 0
  }

  ghost predicate IsViewOf(v: View, r: LobbyCodec.LobbyRecord) {
    |v.members| == |r.members| && forall j :: 0 <= j < |r.members| ==> v.members[j] == r.members[j].id
  }

  method MemberIds(ms: seq<LobbyCodec.Member>) returns (pids: seq<Bytes>)
    ensures |pids| == |ms| && forall j :: 0 <= j < |ms| ==> pids[j] == ms[j].id
  {
    pids := [];
    for i := 0 to |ms|
      invariant |pids| == i && forall j :: 0 <= j < i ==> pids[j] == ms[j].id
    {
      pids := pids + [ms[i].id];
    }
  }

  /** One view for each lobby the node belongs to that has a voice room, with the members
      its record lists. */
  method SnapshotRooms(known: map<Bytes, LobbyCodec.LobbyRecord>, memberOf: set<Bytes>) returns (views: seq<View>)
    ensures DistinctViews(views)
    ensures forall i :: 0 <= i < |views| ==>
          HasRoom(known, memberOf, views[i].lobbyId) && IsViewOf(views[i], known[views[i].lobbyId])
    ensures forall id :: HasRoom(known, memberOf, id) ==> exists i :: 0 <= i < |views| && views[i].lobbyId == id
  {
    views := [];
    var left := memberOf;
    while left != {}
      invariant left <= memberOf && DistinctViews(views)
      invariant forall i :: 0 <= i < |views| ==> views[i].lobbyId !in left
      invariant forall i :: 0 <= i < |views| ==>
            HasRoom(known, memberOf, views[i].lobbyId) && IsViewOf(views[i], known[views[i].lobbyId])
      invariant forall id :: HasRoom(known, memberOf, id) && id !in left ==>
            exists i :: 0 <= i < |views| && views[i].lobbyId == id
      decreases left
    {
      var id :| id in left;
      left := left - {id};
      if id in known && known[id].rtcRoomEnabled != 0 {
        var pids := MemberIds(known[id].members);
        ghost var before := views;
        views := views + [View(id, pids)];
        assert views[|before|].lobbyId == id;
        assert forall i :: 0 <= i < |before| ==> views[i] == before[i];
      }
    }
  }

  // ---- the events reproduce the rosters --------------------------------------------------

  /** The rosters of connected lobby rooms, as a listener keeps them. */
  type Rosters = map<Bytes, set<Bytes>>

  ghost function Listen(known: Rosters, e: Event): Rosters {
    match e
    case Connection(lobbyId, connected) =>
      if connected then known[RoomName(lobbyId) := {}] else known - {RoomName(lobbyId)}
    case Participant(room, pid, joined) =>
      if room !in known then known else known[room := if joined then known[room] + {pid} else known[room] - {pid}]
    case Audio(_, _, _) => known
    case Data(_, _) => known
  }

  ghost function ListenAll(known: Rosters, events: seq<Event>): Rosters {
    if events == [] then known else Listen(ListenAll(known, events[..|events| - 1]), events[|events| - 1])
  }

  lemma {:induction false} ListenConcat(known: Rosters, a: seq<Event>, b: seq<Event>)
    ensures ListenAll(known, a + b) == ListenAll(ListenAll(known, a), b)
    decreases b
  {
    if b == [] {
      assert a + b == a;
    } else {
      assert (a + b)[..|a + b| - 1] == a + b[..|b| - 1];
      ListenConcat(known, a, b[..|b| - 1]);
    }
  }

  ghost function ManagedRosters(rooms: Rooms): Rosters {
    map k | k in rooms && rooms[k].managed :: Elements(rooms[k].participants)
  }

  lemma SnocElements(xs: seq<Bytes>)
    requires xs != []
    ensures Elements(xs) == Elements(xs[..|xs| - 1]) + {xs[|xs| - 1]}
  {
    assert xs == xs[..|xs| - 1] + [xs[|xs| - 1]];
  }

  lemma {:induction false} BundlesListen(known: Rosters, room: Bytes, pids: seq<Bytes>)
    requires room in known
    ensures ListenAll(known, Bundles(room, pids)) == known[room := known[room] + Elements(pids)]
    decreases pids
  {
    if pids == [] {
      assert known[room] + Elements(pids) == known[room];
    } else {
      var init, last := pids[..|pids| - 1], pids[|pids| - 1];
      BundlesListen(known, room, init);
      var before := ListenAll(known, Bundles(room, init));
      ListenConcat(known, Bundles(room, init), Bundle(room, last));
      BundleListen(before, room, last);
      SnocElements(pids);
      assert known[room] + Elements(init) + {last} == known[room] + Elements(pids);
    }
  }

  lemma BundleListen(known: Rosters, room: Bytes, pid: Bytes)
    requires room in known
    ensures ListenAll(known, Bundle(room, pid)) == known[room := known[room] + {pid}]
  {
    var b := Bundle(room, pid);
    assert b[..2][..1][..0] == [];
    assert ListenAll(known, b[..2][..1]) == Listen(known, b[0]);
    assert ListenAll(known, b[..2]) == Listen(Listen(known, b[0]), b[1]);
  }

  lemma {:induction false} DeparturesListen(known: Rosters, room: Bytes, pids: seq<Bytes>)
    requires room in known
    ensures ListenAll(known, Departures(room, pids)) == known[room := known[room] - Elements(pids)]
    decreases pids
  {
    if pids == [] {
      assert known[room] - Elements(pids) == known[room];
    } else {
      var init, last := pids[..|pids| - 1], pids[|pids| - 1];
      DeparturesListen(known, room, init);
      ListenConcat(known, Departures(room, init), [Participant(room, last, false)]);
      var before := ListenAll(known, Departures(room, init));
      assert ListenAll(before, [Participant(room, last, false)]) == Listen(before, Participant(room, last, false));
      SnocElements(pids);
      assert known[room] - Elements(init) - {last} == known[room] - Elements(pids);
    }
  }

  lemma {:induction false} NotInIsDifference(xs: seq<Bytes>, ys: seq<Bytes>)
    ensures Elements(NotIn(xs, ys)) == Elements(xs) - Elements(ys)
  {
    if xs != [] {
      var init, last := xs[..|xs| - 1], xs[|xs| - 1];
      NotInIsDifference(init, ys);
      SnocElements(xs);
      var tail := if last in ys then [] else [last];
      assert Elements(NotIn(init, ys) + tail) == Elements(NotIn(init, ys)) + Elements(tail);
    }
  }

  lemma NewRoomListens(known: Rosters, lobbyId: Bytes, members: seq<Bytes>)
    ensures ListenAll(known, [Connection(lobbyId, true)] + Bundles(RoomName(lobbyId), members))
         == known[RoomName(lobbyId) := Elements(members)]
  {
    var name := RoomName(lobbyId);
    ListenConcat(known, [Connection(lobbyId, true)], Bundles(name, members));
    assert [Connection(lobbyId, true)][..0] == [];
    assert ListenAll(known, [Connection(lobbyId, true)]) == Listen(known, Connection(lobbyId, true));
    BundlesListen(known[name := {}], name, members);
    assert {} + Elements(members) == Elements(members);
  }

  lemma ChurnListens(known: Rosters, name: Bytes, was: seq<Bytes>, members: seq<Bytes>)
    requires name in known && known[name] == Elements(was)
    ensures ListenAll(known, Bundles(name, NotIn(members, was)) + Departures(name, NotIn(was, members)))
         == known[name := Elements(members)]
  {
    var come, gone := NotIn(members, was), NotIn(was, members);
    NotInIsDifference(members, was);
    NotInIsDifference(was, members);
    InAndOut(known, name, known[name], Elements(members), come, gone);
  }

  lemma InAndOut(known: Rosters, name: Bytes, a: set<Bytes>, b: set<Bytes>, come: seq<Bytes>, gone: seq<Bytes>)
    requires name in known && known[name] == a && Elements(come) == b - a && Elements(gone) == a - b
    ensures ListenAll(known, Bundles(name, come) + Departures(name, gone)) == known[name := b]
  {
    ListenConcat(known, Bundles(name, come), Departures(name, gone));
    BundlesListen(known, name, come);
    DeparturesListen(known[name := a + (b - a)], name, gone);
    assert a + (b - a) - (a - b) == b;
  }

  /** Whoever comes to or leaves a room the listener does not know tells it nothing. */
  lemma {:induction false} UnknownRoomListens(known: Rosters, room: Bytes, pids: seq<Bytes>)
    requires room !in known
    ensures ListenAll(known, Bundles(room, pids)) == known && ListenAll(known, Departures(room, pids)) == known
  {
    if pids != [] {
      var init, last := pids[..|pids| - 1], pids[|pids| - 1];
      UnknownRoomListens(known, room, init);
      UnknownBundleListens(known, room, last);
      ListenConcat(known, Bundles(room, init), Bundle(room, last));
      ListenConcat(known, Departures(room, init), [Participant(room, last, false)]);
      OneListens(known, Participant(room, last, false));
    }
  }

  lemma UnknownChurnListens(known: Rosters, room: Bytes, come: seq<Bytes>, gone: seq<Bytes>)
    requires room !in known
    ensures ListenAll(known, Bundles(room, come) + Departures(room, gone)) == known
  {
    UnknownRoomListens(known, room, come);
    UnknownRoomListens(known, room, gone);
    ListenConcat(known, Bundles(room, come), Departures(room, gone));
  }

  /** The events of one view move a listener from the old roster to the view's; those of a
      custom room that bears the lobby room's name leave it alone. */
  lemma VisitListens(rooms: Rooms, v: View)
    ensures ListenAll(ManagedRosters(rooms), VisitEvents(rooms, v)) == ManagedRosters(Visit(rooms, v))
  {
    var name, known := RoomName(v.lobbyId), ManagedRosters(rooms);
    if name !in rooms {
      NewRoomListens(known, v.lobbyId, v.members);
      assert ManagedRosters(Visit(rooms, v)) == known[name := Elements(v.members)];
    } else if rooms[name].managed {
      ChurnListens(known, name, rooms[name].participants, v.members);
      assert ManagedRosters(Visit(rooms, v)) == known[name := Elements(v.members)];
    } else {
      UnknownChurnListens(known, name, NotIn(v.members, rooms[name].participants),
          NotIn(rooms[name].participants, v.members));
      assert ManagedRosters(Visit(rooms, v)) == known;
    }
  }

  lemma {:induction false} VisitAllListens(rooms: Rooms, views: seq<View>)
    ensures ListenAll(ManagedRosters(rooms), AllVisitEvents(rooms, views)) == ManagedRosters(VisitAll(rooms, views))
  {
    if views != [] {
      var init, v := views[..|views| - 1], views[|views| - 1];
      VisitAllListens(rooms, init);
      VisitListens(VisitAll(rooms, init), v);
      ListenConcat(ManagedRosters(rooms), AllVisitEvents(rooms, init), VisitEvents(VisitAll(rooms, init), v));
    }
  }

  lemma {:induction false} DisconnectionsListen(known: Rosters, events: seq<Event>, names: seq<Bytes>, rooms: Rooms,
      gone: set<Bytes>)
    requires Disconnections(events, names, rooms, gone) && NamedRooms(rooms)
    requires forall k :: k in gone ==> k in rooms && rooms[k].managed
    ensures ListenAll(known, events) == known - gone
    decreases names
  {
    if names == [] {
      assert gone == {};
    } else {
      var init, last := names[..|names| - 1], names[|names| - 1];
      SnocElements(names);
      assert last in Elements(names);
      assert last !in init;
      assert Elements(init) == gone - {last};
      DisconnectionsListen(known, events[..|events| - 1], init, rooms, gone - {last});
      assert known - (gone - {last}) - {last} == known - gone;
    }
  }

  lemma RetiringListens(all: Rooms, views: seq<View>, gone: seq<Event>, names: seq<Bytes>)
    requires NamedRooms(all) && Disconnections(gone, names, all, GoneRooms(all, views))
    ensures ListenAll(ManagedRosters(all), gone) == ManagedRosters(all - GoneRooms(all, views))
  {
    DisconnectionsListen(ManagedRosters(all), gone, names, all, GoneRooms(all, views));
    assert ManagedRosters(all - GoneRooms(all, views)) == ManagedRosters(all) - GoneRooms(all, views);
  }

  /** One tick's events, folded over the rosters of the managed rooms, give the rosters
      after it. */
  lemma TickListens(rooms: Rooms, views: seq<View>, after: Rooms, events: seq<Event>, gone: seq<Event>,
                    names: seq<Bytes>)
    requires NamedRooms(rooms) && Ticked(rooms, views, after, events, gone, names)
    ensures ListenAll(ManagedRosters(rooms), events) == ManagedRosters(after)
  {
    VisitAllListens(rooms, views);
    VisitsKeepNames(rooms, views);
    ListenConcat(ManagedRosters(rooms), AllVisitEvents(rooms, views), gone);
    RetiringListens(VisitAll(rooms, views), views, gone, names);
  }

  // ---- a quiet tick ------------------------------------------------------------------------

  /** The rooms already say what this view says. */
  ghost predicate Matches(rooms: Rooms, v: View) {
    var name := RoomName(v.lobbyId);
    name in rooms && Elements(rooms[name].participants) == Elements(v.members)
  }

  ghost predicate UpToDate(rooms: Rooms, views: seq<View>) {
    && (forall i :: 0 <= i < |views| ==> Matches(rooms, views[i]))
    && forall k :: k in rooms && rooms[k].managed ==> Viewed(views, k)
  }

  lemma NothingIn(xs: seq<Bytes>)
    ensures xs == [] <==> Elements(xs) == {}
  {
    if xs != [] { assert xs[0] in Elements(xs); }
  }

  lemma NoChurn(name: Bytes, was: seq<Bytes>, members: seq<Bytes>)
    ensures Bundles(name, NotIn(members, was)) + Departures(name, NotIn(was, members)) == []
       <==> Elements(was) == Elements(members)
  {
    var come, gone := NotIn(members, was), NotIn(was, members);
    NotInIsDifference(members, was);
    NotInIsDifference(was, members);
    NothingIn(come);
    NothingIn(gone);
    assert Elements(was) == Elements(members)
        <==> Elements(members) - Elements(was) == {} && Elements(was) - Elements(members) == {};
  }

  lemma SilentVisit(rooms: Rooms, v: View)
    ensures VisitEvents(rooms, v) == [] <==> Matches(rooms, v)
  {
    var name := RoomName(v.lobbyId);
    if name in rooms { NoChurn(name, rooms[name].participants, v.members); }
  }

  lemma MatchesLater(rooms: Rooms, init: seq<View>, v: View)
    requires DistinctViews(init + [v])
    ensures Matches(VisitAll(rooms, init), v) <==> Matches(rooms, v)
  {
    var name := RoomName(v.lobbyId);
    forall i | 0 <= i < |init| ensures RoomName(init[i].lobbyId) != name {
      assert (init + [v])[i] == init[i] && (init + [v])[|init|] == v;
      RoomNameInjective(init[i].lobbyId, v.lobbyId);
    }
    VisitedRoom(rooms, init, name);
  }

  lemma {:induction false} SilentVisits(rooms: Rooms, views: seq<View>)
    requires DistinctViews(views)
    ensures AllVisitEvents(rooms, views) == [] <==> forall i :: 0 <= i < |views| ==> Matches(rooms, views[i])
  {
    if views != [] {
      var init, v := views[..|views| - 1], views[|views| - 1];
      assert views == init + [v];
      SilentVisits(rooms, init);
      MatchesLater(rooms, init, v);
      SilentVisit(VisitAll(rooms, init), v);
      assert AllVisitEvents(rooms, views) == []
          <==> AllVisitEvents(rooms, init) == [] && VisitEvents(VisitAll(rooms, init), v) == [];
      assert forall i :: 0 <= i < |init| ==> init[i] == views[i];
    }
  }

  lemma VisitsLoseNothing(rooms: Rooms, views: seq<View>)
    ensures GoneRooms(VisitAll(rooms, views), views) == GoneRooms(rooms, views)
  {
    forall k ensures k in GoneRooms(VisitAll(rooms, views), views) <==> k in GoneRooms(rooms, views) {
      VisitedRoom(rooms, views, k);
    }
  }

  /** A tick fires nothing if and only if the rooms already agree with the views. */
  lemma UnchangedViewsAreSilent(rooms: Rooms, views: seq<View>, after: Rooms, events: seq<Event>, gone: seq<Event>,
                                names: seq<Bytes>)
    requires DistinctViews(views) && Ticked(rooms, views, after, events, gone, names)
    ensures events == [] <==> UpToDate(rooms, views)
  {
    SilentVisits(rooms, views);
    VisitsLoseNothing(rooms, views);
    var lost := GoneRooms(rooms, views);
    assert names == [] <==> lost == {} by {
      if names != [] { assert names[0] in Elements(names); }
    }
    assert lost == {} <==> forall k :: k in rooms && rooms[k].managed ==> Viewed(views, k) by {
      assert forall k :: k in lost <==> k in rooms && rooms[k].managed && !Viewed(views, k);
    }
    assert events == [] <==> AllVisitEvents(rooms, views) == [] && gone == [];
  }

  // ---- the room table -----------------------------------------------------------------------

  datatype Code = Success | NotFound | AccessDenied

  /** What the game does to rooms between ticks. */
  datatype Op =
    | Tick(views: seq<View>)
    | JoinCustom(name: Bytes)
    | LeaveCustom(name: Bytes)
    | SetAudio(name: Bytes, status: int)

  function Joined(rooms: Rooms, me: Bytes, name: Bytes): Rooms {
    if name in rooms then rooms else rooms[name := Room(false, [], [me], AUDIO_DISABLED)]
  }

  function Left(rooms: Rooms, name: Bytes): Rooms {
    if name in rooms && !rooms[name].managed then rooms - {name} else rooms
  }

  function AudioSet(rooms: Rooms, name: Bytes, status: int): Rooms {
    if name in rooms then rooms[name := rooms[name].(audio := status)] else rooms
  }

  /** One operation takes `rooms` to `after` and fires these events. */
  ghost predicate OpDoes(rooms: Rooms, me: Bytes, op: Op, after: Rooms, events: seq<Event>) {
    match op
    case Tick(views) => exists gone, names :: Ticked(rooms, views, after, events, gone, names)
    case JoinCustom(name) =>
      after == Joined(rooms, me, name) && events == if name in rooms then [] else Bundle(name, me)
    case LeaveCustom(name) => after == Left(rooms, name) && events == []
    case SetAudio(name, status) =>
      && after == AudioSet(rooms, name, status)
      && events == if name in rooms && rooms[name].audio != status then [Audio(name, me, status)] else []
  }

  lemma UnknownBundleListens(known: Rosters, room: Bytes, pid: Bytes)
    requires room !in known
    ensures ListenAll(known, Bundle(room, pid)) == known
  {
    var b := Bundle(room, pid);
    assert b[..2][..1][..0] == [];
    assert ListenAll(known, b[..2][..1]) == Listen(known, b[0]) == known;
    assert ListenAll(known, b[..2]) == known;
  }

  lemma OneListens(known: Rosters, e: Event)
    ensures ListenAll(known, [e]) == Listen(known, e)
  {
    assert [e][..0] == [];
  }

  lemma QuietOpListens(rooms: Rooms, me: Bytes, op: Op, after: Rooms, events: seq<Event>)
    requires NamedRooms(rooms) && OpDoes(rooms, me, op, after, events) && !op.Tick?
    ensures NamedRooms(after) && ManagedRosters(after) == ManagedRosters(rooms)
    ensures ListenAll(ManagedRosters(rooms), events) == ManagedRosters(after)
  {
    var known := ManagedRosters(rooms);
    assert ManagedRosters(after) == known;
    if op.JoinCustom? && op.name !in rooms {
      UnknownBundleListens(known, op.name, me);
    } else if events != [] {
      OneListens(known, events[0]);
    }
  }

  lemma OpListens(rooms: Rooms, me: Bytes, op: Op, after: Rooms, events: seq<Event>)
    requires NamedRooms(rooms) && OpDoes(rooms, me, op, after, events)
    ensures NamedRooms(after) && ListenAll(ManagedRosters(rooms), events) == ManagedRosters(after)
  {
    if op.Tick? {
      var gone, names :| Ticked(rooms, op.views, after, events, gone, names);
      VisitsKeepNames(rooms, op.views);
      TickListens(rooms, op.views, after, events, gone, names);
    } else {
      QuietOpListens(rooms, me, op, after, events);
    }
  }

  ghost predicate IsRun(me: Bytes, run: seq<Rooms>, ops: seq<Op>, logs: seq<seq<Event>>) {
    && |run| == |ops| + 1 && |logs| == |ops| && run[0] == map[]
    && forall i :: 0 <= i < |ops| ==> OpDoes(run[i], me, ops[i], run[i + 1], logs[i])
  }

  ghost function Flat(logs: seq<seq<Event>>): seq<Event> {
    if logs == [] then [] else Flat(logs[..|logs| - 1]) + logs[|logs| - 1]
  }

  /** Over any sequence of ticks and custom-room calls, whatever the rooms' names, a listener that folds every event
      so far knows exactly the rosters of the lobby-managed rooms. */
  lemma {:induction false} ListenerKnowsRosters(me: Bytes, run: seq<Rooms>, ops: seq<Op>, logs: seq<seq<Event>>, k: nat)
    requires IsRun(me, run, ops, logs) && k < |run|
    ensures NamedRooms(run[k]) && ListenAll(map[], Flat(logs[..k])) == ManagedRosters(run[k])
  {
    if k == 0 {
      assert ManagedRosters(run[0]) == map[];
    } else {
      ListenerKnowsRosters(me, run, ops, logs, k - 1);
      OpListens(run[k - 1], me, ops[k - 1], run[k], logs[k - 1]);
      assert logs[..k][..k - 1] == logs[..k - 1];
      ListenConcat(map[], Flat(logs[..k - 1]), logs[k - 1]);
    }
  }

  class RoomTable {
    const me: Bytes
    var rooms: Rooms

    constructor (me: Bytes)
      ensures rooms == map[] && this.me == me
    {
      this.me := me;
      rooms := map[];
    }

    method Announce(name: Bytes, pids: seq<Bytes>, known: seq<Bytes>) returns (events: seq<Event>)
      ensures events == Bundles(name, NotIn(pids, known))
    {
      events := [];
      for i := 0 to |pids|
        invariant events == Bundles(name, NotIn(pids[..i], known))
      {
        assert pids[..i + 1] == pids[..i] + [pids[i]];
        Snocs(name, pids[..i], pids[i], known);
        if pids[i] !in known {
          events := events + [Participant(name, pids[i], true), Audio(name, pids[i], AUDIO_DISABLED),
              Data(name, pids[i])];
        }
      }
      assert pids[..|pids|] == pids;
    }

    method AnnounceDepartures(name: Bytes, pids: seq<Bytes>, known: seq<Bytes>) returns (events: seq<Event>)
      ensures events == Departures(name, NotIn(pids, known))
    {
      events := [];
      for i := 0 to |pids|
        invariant events == Departures(name, NotIn(pids[..i], known))
      {
        assert pids[..i + 1] == pids[..i] + [pids[i]];
        Snocs(name, pids[..i], pids[i], known);
        if pids[i] !in known {
          events := events + [Participant(name, pids[i], false)];
        }
      }
      assert pids[..|pids|] == pids;
    }

    /** Visits one view. */
    method Refresh(v: View) returns (events: seq<Event>)
      modifies this
      ensures rooms == Visit(old(rooms), v) && events == VisitEvents(old(rooms), v)
    {
      var name := RoomName(v.lobbyId);
      if name !in rooms {
        rooms := rooms[name := Room(true, v.lobbyId, v.members, AUDIO_DISABLED)];
        events := Announce(name, v.members, []);
        NotInNothing(v.members);
        events := [Connection(v.lobbyId, true)] + events;
      } else {
        var come := Announce(name, v.members, rooms[name].participants);
        var gone := AnnounceDepartures(name, rooms[name].participants, v.members);
        rooms := rooms[name := rooms[name].(participants := v.members)];
        events := come + gone;
      }
    }

    method IsViewed(name: Bytes, views: seq<View>) returns (alive: bool)
      ensures alive <==> Viewed(views, name)
    {
      for i := 0 to |views|
        invariant forall j :: 0 <= j < i ==> RoomName(views[j].lobbyId) != name
      {
        if RoomName(views[i].lobbyId) == name {
          return true;
        }
      }
      return false;
    }

    /** Drops the managed rooms whose lobby is gone. */
    method Retire(views: seq<View>) returns (gone: seq<Event>, ghost names: seq<Bytes>)
      modifies this
      ensures Disconnections(gone, names, old(rooms), GoneRooms(old(rooms), views))
      ensures rooms == old(rooms) - GoneRooms(old(rooms), views)
    {
      ghost var all := rooms;
      gone, names := [], [];
      var todo := rooms.Keys;
      while todo != {}
        invariant todo <= all.Keys
        invariant forall x, y :: x in names && y in todo ==> LexLess(x, y)
        invariant Disconnections(gone, names, all, GoneRooms(all, views) - todo)
        invariant rooms == all - Elements(names)
        decreases todo
      {
        FirstExists(todo);
        var name :| name in todo && forall x :: x in todo && x != name ==> LexLess(name, x);
        assert name !in Elements(names);
        ghost var before := GoneRooms(all, views) - todo;
        todo := todo - {name};
        var alive := IsViewed(name, views);
        if rooms[name].managed && !alive {
          gone := gone + [Connection(rooms[name].lobbyId, false)];
          rooms := rooms - {name};
          assert GoneRooms(all, views) - todo == before + {name};
          assert Elements(names + [name]) == Elements(names) + {name};
          names := names + [name];
        } else {
          assert GoneRooms(all, views) - todo == before;
        }
      }
      assert GoneRooms(all, views) - {} == GoneRooms(all, views);
    }

    method PumpTick(views: seq<View>) returns (events: seq<Event>)
      modifies this
      ensures OpDoes(old(rooms), me, Tick(views), rooms, events)
    {
      events := [];
      for i := 0 to |views|
        invariant rooms == VisitAll(old(rooms), views[..i]) && events == AllVisitEvents(old(rooms), views[..i])
      {
        assert views[..i + 1][..i] == views[..i];
        var visit := Refresh(views[i]);
        events := events + visit;
      }
      assert views[..|views|] == views;
      var gone, names := Retire(views);
      assert Ticked(old(rooms), views, rooms, events + gone, gone, names);
      events := events + gone;
    }

    method JoinCustomRoom(name: Bytes) returns (code: Code, events: seq<Event>)
      modifies this
      ensures OpDoes(old(rooms), me, JoinCustom(name), rooms, events)
      ensures if name in old(rooms) then rooms == old(rooms) && events == []
              else
                && rooms == old(rooms)[name := rooms[name]] && !rooms[name].managed && rooms[name].participants == [me]
                && events == [Participant(name, me, true), Audio(name, me, AUDIO_DISABLED), Data(name, me)]
      ensures code == if name in old(rooms) && old(rooms)[name].managed then AccessDenied else Success
    {
      if name in rooms {
        return if rooms[name].managed then AccessDenied else Success, [];
      }
      rooms := rooms[name := Room(false, [], [me], AUDIO_DISABLED)];
      return Success, [Participant(name, me, true), Audio(name, me, AUDIO_DISABLED), Data(name, me)];
    }

    method LeaveCustomRoom(name: Bytes) returns (code: Code)
      modifies this
      ensures OpDoes(old(rooms), me, LeaveCustom(name), rooms, [])
      ensures rooms == if code == Success then old(rooms) - {name} else old(rooms)
      ensures code == if name !in old(rooms) then NotFound else if old(rooms)[name].managed then AccessDenied
            else Success
    {
      if name !in rooms {
        return NotFound;
      }
      if rooms[name].managed {
        return AccessDenied;
      }
      rooms := rooms - {name};
      return Success;
    }

    method SetLocalAudioStatus(name: Bytes, status: int) returns (found: bool, events: seq<Event>)
      modifies this
      ensures OpDoes(old(rooms), me, SetAudio(name, status), rooms, events)
      ensures if name in old(rooms) then
                && rooms == old(rooms)[name := old(rooms)[name].(audio := status)]
                && events == if old(rooms)[name].audio != status then [Audio(name, me, status)] else []
              else rooms == old(rooms) && events == []
      ensures found <==> name in old(rooms)
    {
      if name !in rooms {
        return false, [];
      }
      var changed := rooms[name].audio != status;
      rooms := rooms[name := rooms[name].(audio := status)];
      return true, if changed then [Audio(name, me, status)] else [];
    }
  }

  /** What a log tells about one participant of a room adds up. */
  lemma JoinCounts(a: seq<Event>, b: seq<Event>, room: Bytes, p: Bytes)
    ensures var all, x, y := multiset(a + b), multiset(a), multiset(b);
      && all[Participant(room, p, true)] == x[Participant(room, p, true)] + y[Participant(room, p, true)]
      && all[Participant(room, p, false)] == x[Participant(room, p, false)] + y[Participant(room, p, false)]
      && all[Audio(room, p, AUDIO_DISABLED)] == x[Audio(room, p, AUDIO_DISABLED)] + y[Audio(room, p, AUDIO_DISABLED)]
      && all[Data(room, p)] == x[Data(room, p)] + y[Data(room, p)]
  {
  }

  /** The log tells n times of this arrival, with audio and data, and of no departure. */
  ghost predicate TellsArrivals(events: seq<Event>, room: Bytes, p: Bytes, n: nat) {
    var told := multiset(events);
    && told[Participant(room, p, true)] == n && told[Participant(room, p, false)] == 0
    && told[Audio(room, p, AUDIO_DISABLED)] == n && told[Data(room, p)] == n
  }

  lemma ArrivalsAdd(a: seq<Event>, b: seq<Event>, room: Bytes, p: Bytes, n: nat, m: nat)
    requires TellsArrivals(a, room, p, n) && TellsArrivals(b, room, p, m)
    ensures TellsArrivals(a + b, room, p, n + m)
  {
    JoinCounts(a, b, room, p);
  }

  lemma BundleCount(room: Bytes, pid: Bytes, p: Bytes)
    ensures TellsArrivals(Bundle(room, pid), room, p, if p == pid then 1 else 0)
  {
  }

  lemma CountPids(init: seq<Bytes>, last: Bytes, p: Bytes)
    ensures multiset(init + [last])[p] == multiset(init)[p] + (if p == last then 1 else 0)
  {
  }

  lemma {:induction false} BundlesCount(room: Bytes, pids: seq<Bytes>, p: Bytes)
    ensures TellsArrivals(Bundles(room, pids), room, p, multiset(pids)[p])
  {
    if pids != [] {
      var init, last := pids[..|pids| - 1], pids[|pids| - 1];
      BundlesCount(room, init, p);
      BundleCount(room, last, p);
      CountPids(init, last, p);
      assert pids == init + [last];
      ArrivalsAdd(Bundles(room, init), Bundle(room, last), room, p, multiset(init)[p], if p == last then 1 else 0);
    }
  }

  lemma {:induction false} DeparturesCount(room: Bytes, pids: seq<Bytes>, p: Bytes)
    ensures var told := multiset(Departures(room, pids));
      && told[Participant(room, p, false)] == multiset(pids)[p] && told[Participant(room, p, true)] == 0
      && told[Audio(room, p, AUDIO_DISABLED)] == 0 && told[Data(room, p)] == 0
  {
    if pids != [] {
      var init, last := pids[..|pids| - 1], pids[|pids| - 1];
      DeparturesCount(room, init, p);
      CountPids(init, last, p);
      assert pids == init + [last];
      JoinCounts(Departures(room, init), [Participant(room, last, false)], room, p);
    }
  }

  lemma {:induction false} NotInCount(xs: seq<Bytes>, ys: seq<Bytes>, p: Bytes)
    ensures multiset(NotIn(xs, ys))[p] == if p in ys then 0 else multiset(xs)[p]
  {
    if xs != [] {
      var init, last := xs[..|xs| - 1], xs[|xs| - 1];
      NotInCount(init, ys, p);
      assert xs == init + [last];
      var tail := if last in ys then [] else [last];
      assert multiset(NotIn(init, ys) + tail)[p] == multiset(NotIn(init, ys))[p] + multiset(tail)[p];
    }
  }

  /** When a room already there is visited, the game hears of each newcomer's arrival, audio and
      data, and of each departure, as often as the view or the room lists it; when it is new, of
      the connection first and then of everybody in it. */
  lemma VisitTells(rooms: Rooms, v: View, p: Bytes)
    ensures var room := RoomName(v.lobbyId);
      var events := VisitEvents(rooms, v);
      var was := if room in rooms then rooms[room].participants else [];
      var came := if p in was then 0 else multiset(v.members)[p];
      && (room !in rooms ==> events != [] && events[0] == Connection(v.lobbyId, true))
      && multiset(events)[Participant(room, p, true)] == came
      && multiset(events)[Audio(room, p, AUDIO_DISABLED)] == came && multiset(events)[Data(room, p)] == came
      && multiset(events)[Participant(room, p, false)] == if p in v.members then 0 else multiset(was)[p]
  {
    var room := RoomName(v.lobbyId);
    if room in rooms {
      var was := rooms[room].participants;
      NotInCount(v.members, was, p);
      NotInCount(was, v.members, p);
      EventsCount(room, NotIn(v.members, was), NotIn(was, v.members), p);
    } else {
      BundlesCount(room, v.members, p);
      JoinCounts([Connection(v.lobbyId, true)], Bundles(room, v.members), room, p);
    }
  }

  lemma EventsCount(room: Bytes, come: seq<Bytes>, gone: seq<Bytes>, p: Bytes)
    ensures var told := multiset(Bundles(room, come) + Departures(room, gone));
      && told[Participant(room, p, true)] == multiset(come)[p] && told[Participant(room, p, false)] == multiset(gone)[p]
      && told[Audio(room, p, AUDIO_DISABLED)] == multiset(come)[p] && told[Data(room, p)] == multiset(come)[p]
  {
    BundlesCount(room, come, p);
    DeparturesCount(room, gone, p);
    JoinCounts(Bundles(room, come), Departures(room, gone), room, p);
  }

  lemma Snocs(name: Bytes, xs: seq<Bytes>, x: Bytes, known: seq<Bytes>)
    ensures NotIn(xs + [x], known) == if x in known then NotIn(xs, known) else NotIn(xs, known) + [x]
    ensures var so := NotIn(xs, known);
      && Bundles(name, so + [x]) == Bundles(name, so) + Bundle(name, x)
      && Departures(name, so + [x]) == Departures(name, so) + [Participant(name, x, false)]
  {
    assert (xs + [x])[..|xs|] == xs;
    var so := NotIn(xs, known);
    assert (so + [x])[..|so|] == so;
  }

  lemma {:induction false} NotInNothing(xs: seq<Bytes>)
    ensures NotIn(xs, []) == xs
  {
    if xs != [] {
      NotInNothing(xs[..|xs| - 1]);
    }
  }
}
