/** The life of one peer connection as its datagrams, local calls and pump ticks drive
    it, and what the sequence of notifications promises over every run. */
module ConnectionLifecycle {
  import opened Basics

  const INTERRUPTED_GRACE: real := 10000.0

  datatype Conn = Conn(accepted: bool, established: bool, interrupted: bool, interruptedAt: real)

  const NEW_CONN := Conn(false, false, false, 0.0)

  datatype Reason = ClosedByPeer | ConnectionIgnored | TimedOut
  datatype Notice = Request | NewConnection | Reconnection | Interrupted | Closed(reason: Reason)

  datatype Input =
    | ConnectRequest(hasListener: bool)
    | ConnectIgnored
    | ConnectAccept
    | ConnectClose
    | Data
    | Ack
    | LocalSend(autoAccept: bool)
    | LocalAccept
    | LocalClose
    | PumpTick(now: real, exhausted: bool)

  datatype Outcome = Outcome(conn: Option<Conn>, notices: seq<Notice>)

  function OrNew(c: Option<Conn>): Conn {
    if c.Some? then c.value else NEW_CONN
  }

  /** Data and accept datagrams establish the connection and end an interruption. */
  function Answered(c: Conn): Outcome {
    Outcome(Some(c.(established := true, interrupted := false)),
            if !c.established then [NewConnection] else if c.interrupted then [Reconnection] else [])
  }

  function Handle(c: Option<Conn>, input: Input): Outcome {
    match input
    case ConnectRequest(hasListener) =>
      if (c.Some? && c.value.accepted) || !hasListener then Outcome(c, [])
      else Outcome(Some(OrNew(c)), [Request])
    case ConnectIgnored => Outcome(None, if c.Some? then [Closed(Reason.ConnectionIgnored)] else [])
    case ConnectAccept => Answered(OrNew(c).(accepted := true))
    case ConnectClose => Outcome(None, [Closed(ClosedByPeer)])
    case Data => Answered(OrNew(c))
    case Ack =>
      if c.Some? && c.value.interrupted then Outcome(Some(c.value.(interrupted := false)), [Reconnection])
      else Outcome(c, [])
    case LocalSend(autoAccept) =>
      if autoAccept then Outcome(Some(OrNew(c).(accepted := true)), []) else Outcome(c, [])
    case LocalAccept =>
      Outcome(Some(OrNew(c).(accepted := true, established := true)),
              if OrNew(c).established then [] else [NewConnection])
    case LocalClose => Outcome(None, [])
    case PumpTick(now, exhausted) =>
      var first := Interrupt(c, now, exhausted);
      var second := Sweep(first.conn, now);
      Outcome(second.conn, first.notices + second.notices)
  }

  function Interrupt(c: Option<Conn>, now: real, exhausted: bool): Outcome {
    if exhausted && c.Some? && !c.value.interrupted then
      Outcome(Some(c.value.(interrupted := true, interruptedAt := now)), [Interrupted])
    else
      Outcome(c, [])
  }

  function Sweep(c: Option<Conn>, now: real): Outcome {
    if c.Some? && c.value.interrupted && now - c.value.interruptedAt >= INTERRUPTED_GRACE then
      Outcome(None, [Closed(TimedOut)])
    else
      Outcome(c, [])
  }

  // ---- the history of one connection ---------------------------------------

  /** One handled input with its notices; `removed` when it took the connection away. */
  datatype Entry = Entry(input: Input, notices: seq<Notice>, removed: bool)

  ghost function EntryFor(c: Option<Conn>, input: Input): Entry {
    var o := Handle(c, input);
    Entry(input, o.notices, o.conn.None?)
  }

  ghost function StateAfter(inputs: seq<Input>): Option<Conn> {
    if inputs == [] then None
    else Handle(StateAfter(inputs[..|inputs| - 1]), inputs[|inputs| - 1]).conn
  }

  ghost function Log(inputs: seq<Input>): (log: seq<Entry>)
    ensures |log| == |inputs|
  {
    if inputs == [] then []
    else
      var before := inputs[..|inputs| - 1];
      Log(before) + [EntryFor(StateAfter(before), inputs[|inputs| - 1])]
  }

  ghost predicate ProofOfLife(e: Entry) {
    e.input.Data? || e.input.Ack? || e.input.ConnectAccept?
  }

  /** Between entries i and j (exclusive) the peer answered or the connection went. */
  ghost predicate AnsweredBetween(log: seq<Entry>, i: nat, j: nat)
    requires j <= |log|
  {
    exists k :: i < k < j && (ProofOfLife(log[k]) || log[k].removed)
  }

  ghost predicate RemovedBetween(log: seq<Entry>, i: nat, j: nat)
    requires j <= |log|
  {
    exists k :: i < k < j && log[k].removed
  }

  ghost predicate Established(log: seq<Entry>, i: nat)
    requires i < |log|
  {
    NewConnection in log[i].notices
  }

  /** Entry i interrupted the connection at time `at`. */
  ghost predicate InterruptedAt(log: seq<Entry>, i: nat, at: real)
    requires i < |log|
  {
    Interrupted in log[i].notices && log[i].input.PumpTick? && log[i].input.now == at
  }

  ghost predicate WasInterrupted(log: seq<Entry>, i: nat)
    requires i < |log|
  {
    Interrupted in log[i].notices
  }

  /** What the current state says about the history. */
  ghost predicate StateMatchesLog(c: Option<Conn>, log: seq<Entry>) {
    && (c.None? || !c.value.established ==>
          forall i :: 0 <= i < |log| && Established(log, i) ==> RemovedBetween(log, i, |log|))
    && (c.None? || !c.value.interrupted ==>
          forall i :: 0 <= i < |log| && WasInterrupted(log, i) ==> AnsweredBetween(log, i, |log|))
    && (c.Some? && c.value.interrupted ==>
          exists i :: 0 <= i < |log| && InterruptedAt(log, i, c.value.interruptedAt) && !AnsweredBetween(log, i, |log|))
  }

  lemma {:induction false} HistoryInvariant(inputs: seq<Input>)
    ensures StateMatchesLog(StateAfter(inputs), Log(inputs))
  {
    if inputs != [] {
      var before, input := inputs[..|inputs| - 1], inputs[|inputs| - 1];
      HistoryInvariant(before);
      HistoryStep(StateAfter(before), Log(before), input);
    }
  }

  lemma HistoryStep(c: Option<Conn>, log: seq<Entry>, input: Input)
    requires StateMatchesLog(c, log)
    ensures StateMatchesLog(Handle(c, input).conn, log + [EntryFor(c, input)])
  {
    var next, longer := Handle(c, input).conn, log + [EntryFor(c, input)];
    var n := |log|;
    assert forall i :: 0 <= i < n ==> longer[i] == log[i];
    forall i | 0 <= i < n ensures AnsweredBetween(log, i, n) ==> AnsweredBetween(longer, i, n + 1) {
      if AnsweredBetween(log, i, n) {
        var k :| i < k < n && (ProofOfLife(log[k]) || log[k].removed);
        assert ProofOfLife(longer[k]) || longer[k].removed;
      }
    }
    forall i | 0 <= i < n ensures RemovedBetween(log, i, n) ==> RemovedBetween(longer, i, n + 1) {
      if RemovedBetween(log, i, n) {
        var k :| i < k < n && log[k].removed;
        assert longer[k].removed;
      }
    }
    if next.None? || !next.value.established {
      forall i | 0 <= i < |longer| && Established(longer, i) ensures RemovedBetween(longer, i, n + 1) {
        assert i < n && Established(log, i);
        if next.None? { assert longer[n].removed; }
      }
    }
    if next.None? || !next.value.interrupted {
      forall i | 0 <= i < |longer| && WasInterrupted(longer, i) ensures AnsweredBetween(longer, i, n + 1) {
        assert i < n && WasInterrupted(log, i);
        if next.None? || ProofOfLife(longer[n]) { assert ProofOfLife(longer[n]) || longer[n].removed; }
      }
    } else {
      if c.Some? && c.value.interrupted {
        var i :| 0 <= i < n && InterruptedAt(log, i, c.value.interruptedAt) && !AnsweredBetween(log, i, n);
        assert InterruptedAt(longer, i, next.value.interruptedAt) && !AnsweredBetween(longer, i, n + 1);
      } else {
        assert InterruptedAt(longer, n, next.value.interruptedAt) && !AnsweredBetween(longer, n, n + 1);
      }
    }
  }

  lemma {:induction false} LogPrefix(inputs: seq<Input>, n: nat)
    requires n <= |inputs|
    ensures Log(inputs)[..n] == Log(inputs[..n])
    decreases |inputs|
  {
    if n == |inputs| {
      assert inputs[..n] == inputs;
    } else {
      var before := inputs[..|inputs| - 1];
      LogPrefix(before, n);
      assert before[..n] == inputs[..n];
    }
  }

  /** Entry j of a history, seen as one more input handled after the entries before it. */
  lemma EntryAt(inputs: seq<Input>, j: nat) returns (c: Option<Conn>)
    requires j < |inputs|
    ensures ExtendsHistory(c, Log(inputs), inputs[j], j)
  {
    LogPrefix(inputs, j + 1);
    LogPrefix(inputs, j);
    assert inputs[..j + 1][..j] == inputs[..j];
    assert Log(inputs)[j] == Log(inputs)[..j + 1][j];
    HistoryInvariant(inputs[..j]);
    c := StateAfter(inputs[..j]);
  }

  ghost predicate ExtendsHistory(c: Option<Conn>, log: seq<Entry>, input: Input, j: nat) {
    j < |log| && StateMatchesLog(c, log[..j]) && log[j] == EntryFor(c, input)
  }

  lemma BetweenOfPrefix(log: seq<Entry>, i: nat, j: nat)
    requires i < j <= |log|
    ensures AnsweredBetween(log[..j], i, j) <==> AnsweredBetween(log, i, j)
    ensures RemovedBetween(log[..j], i, j) <==> RemovedBetween(log, i, j)
  {
    var short := log[..j];
    assert forall k :: 0 <= k < j ==> short[k] == log[k];
    if AnsweredBetween(log, i, j) {
      var k :| i < k < j && (ProofOfLife(log[k]) || log[k].removed);
      assert ProofOfLife(short[k]) || short[k].removed;
    }
    if RemovedBetween(log, i, j) {
      var k :| i < k < j && log[k].removed;
      assert short[k].removed;
    }
  }

  lemma RepeatedNotices(c: Option<Conn>, log: seq<Entry>, input: Input, i: nat, j: nat)
    requires i < j && ExtendsHistory(c, log, input, j)
    ensures Established(log, i) && Established(log, j) ==> RemovedBetween(log, i, j)
    ensures WasInterrupted(log, i) && WasInterrupted(log, j) ==> AnsweredBetween(log, i, j)
  {
    BetweenOfPrefix(log, i, j);
    assert Established(log, i) ==> Established(log[..j], i);
    assert WasInterrupted(log, i) ==> WasInterrupted(log[..j], i);
  }

  /** A new connection is announced at most once until it is removed. */
  lemma NewConnectionOncePerLife(inputs: seq<Input>, i: nat, j: nat)
    requires i < j < |inputs| && Established(Log(inputs), i) && Established(Log(inputs), j)
    ensures RemovedBetween(Log(inputs), i, j)
  {
    var c := EntryAt(inputs, j);
    RepeatedNotices(c, Log(inputs), inputs[j], i, j);
  }

  /** Two interruptions are separated by an answer from the peer or by a removal. */
  lemma InterruptionsAreSeparated(inputs: seq<Input>, i: nat, j: nat)
    requires i < j < |inputs| && WasInterrupted(Log(inputs), i) && WasInterrupted(Log(inputs), j)
    ensures AnsweredBetween(Log(inputs), i, j)
  {
    var c := EntryAt(inputs, j);
    RepeatedNotices(c, Log(inputs), inputs[j], i, j);
  }

  /** A time-out follows an earlier interruption by at least the grace period, with no
      answer from the peer in between; in particular never in the same pump. */
  lemma TimeOutFollowsSilence(inputs: seq<Input>, j: nat) returns (i: nat, at: real)
    requires j < |inputs| && Closed(TimedOut) in Log(inputs)[j].notices
    ensures inputs[j].PumpTick? && !WasInterrupted(Log(inputs), j)
    ensures i < j && InterruptedAt(Log(inputs), i, at) && !AnsweredBetween(Log(inputs), i, j)
    ensures inputs[j].now - at >= INTERRUPTED_GRACE
  {
    var c := EntryAt(inputs, j);
    i, at := SilenceBefore(c, Log(inputs), inputs[j], j);
  }

  lemma SilenceBefore(c: Option<Conn>, log: seq<Entry>, input: Input, j: nat) returns (i: nat, at: real)
    requires ExtendsHistory(c, log, input, j) && Closed(TimedOut) in log[j].notices
    ensures input.PumpTick? && !WasInterrupted(log, j)
    ensures i < j && InterruptedAt(log, i, at) && !AnsweredBetween(log, i, j)
    ensures input.now - at >= INTERRUPTED_GRACE
  {
    at := c.value.interruptedAt;
    i :| 0 <= i < |log[..j]| && InterruptedAt(log[..j], i, at) && !AnsweredBetween(log[..j], i, |log[..j]|);
    BetweenOfPrefix(log, i, j);
    assert InterruptedAt(log, i, at);
  }

  // ---- the table of connections --------------------------------------------

  datatype ConnId = ConnId(peer: Bytes, socket: Bytes)

  function Lookup(conns: map<ConnId, Conn>, id: ConnId): Option<Conn> {
    if id in conns then Some(conns[id]) else None
  }

  function Put(conns: map<ConnId, Conn>, id: ConnId, c: Option<Conn>): map<ConnId, Conn> {
    if c.Some? then conns[id := c.value] else conns - {id}
  }

  class ConnectionTable {
    var conns: map<ConnId, Conn>

    ghost predicate Handled(before: map<ConnId, Conn>, id: ConnId, input: Input, notices: seq<Notice>)
      reads this
    {
      var o := Handle(Lookup(before, id), input);
      conns == Put(before, id, o.conn) && notices == o.notices
    }

    method OnConnectRequest(id: ConnId, hasListener: bool) returns (notices: seq<Notice>, ignored: bool)
      modifies this
      ensures Handled(old(conns), id, ConnectRequest(hasListener), notices)
      ensures ignored <==> !hasListener && !OrNew(Lookup(old(conns), id)).accepted
    {
      var alreadyAccepted := id in conns && conns[id].accepted;
      notices, ignored := [], false;
      if !alreadyAccepted && hasListener {
        if id !in conns {
          conns := conns[id := NEW_CONN];
        }
        notices := [Request];
      } else if !alreadyAccepted {
        ignored := true;
      }
      assert id in conns ==> conns[id := conns[id]] == conns;
      assert id !in conns ==> conns - {id} == conns;
    }

    method OnConnectIgnored(id: ConnId) returns (notices: seq<Notice>)
      modifies this
      ensures Handled(old(conns), id, ConnectIgnored, notices)
    {
      var existed := id in conns;
      conns := conns - {id};
      notices := if existed then [Closed(Reason.ConnectionIgnored)] else [];
    }

    method OnConnectAccept(id: ConnId) returns (notices: seq<Notice>)
      modifies this
      ensures Handled(old(conns), id, ConnectAccept, notices)
    {
      var c := if id in conns then conns[id] else NEW_CONN;
      c := c.(accepted := true);
      var established := !c.established;
      c := c.(established := true);
      var reconnected := c.interrupted;
      c := c.(interrupted := false);
      conns := conns[id := c];
      notices := if established then [NewConnection] else if reconnected then [Reconnection] else [];
    }

    method OnConnectClose(id: ConnId) returns (notices: seq<Notice>)
      modifies this
      ensures Handled(old(conns), id, ConnectClose, notices)
    {
      conns := conns - {id};
      notices := [Closed(ClosedByPeer)];
    }

    method OnData(id: ConnId) returns (notices: seq<Notice>)
      modifies this
      ensures Handled(old(conns), id, Data, notices)
    {
      var c := if id in conns then conns[id] else NEW_CONN;
      var established := !c.established;
      c := c.(established := true);
      var reconnected := c.interrupted;
      c := c.(interrupted := false);
      conns := conns[id := c];
      notices := if established then [NewConnection] else if reconnected then [Reconnection] else [];
    }

    method OnAck(id: ConnId) returns (notices: seq<Notice>)
      modifies this
      ensures Handled(old(conns), id, Ack, notices)
    {
      notices := [];
      if id in conns && conns[id].interrupted {
        conns := conns[id := conns[id].(interrupted := false)];
        notices := [Reconnection];
      }
      assert id in conns ==> conns[id := conns[id]] == conns;
      assert id !in conns ==> conns - {id} == conns;
    }

    /** The part of a send that concerns the connection; false for EOS_NoConnection. */
    method OnSend(id: ConnId, autoAccept: bool) returns (ok: bool)
      modifies this
      ensures Handled(old(conns), id, LocalSend(autoAccept), [])
      ensures ok <==> autoAccept || (id in old(conns) && old(conns)[id].accepted)
    {
      assert id in conns ==> conns[id := conns[id]] == conns;
      assert id !in conns ==> conns - {id} == conns;
      if id !in conns {
        if !autoAccept {
          return false;
        }
        conns := conns[id := NEW_CONN.(accepted := true)];
      } else if !conns[id].accepted && !autoAccept {
        return false;
      } else if !conns[id].accepted {
        conns := conns[id := conns[id].(accepted := true)];
      }
      return true;
    }

    method AcceptConnection(id: ConnId) returns (notices: seq<Notice>)
      modifies this
      ensures Handled(old(conns), id, LocalAccept, notices)
    {
      var c := if id in conns then conns[id] else NEW_CONN;
      notices := if c.established then [] else [NewConnection];
      conns := conns[id := c.(accepted := true, established := true)];
    }

    method CloseConnection(id: ConnId)
      modifies this
      ensures Handled(old(conns), id, LocalClose, [])
    {
      conns := conns - {id};
    }

    /** The connection half of a pump: interrupts the connections of exhausted streams,
        then closes those whose interruption has outlived the grace period. */
    method Pump(now: real, exhausted: seq<ConnId>) returns (interrupted: seq<ConnId>, timedOut: set<ConnId>)
      modifies this
      ensures forall id :: Lookup(conns, id) == Handle(Lookup(old(conns), id), PumpTick(now, id in exhausted)).conn
      ensures NoDuplicates(interrupted)
      ensures forall id :: id in interrupted <==>
                Interrupted in Handle(Lookup(old(conns), id), PumpTick(now, id in exhausted)).notices
      ensures forall id :: id in timedOut <==>
                Closed(TimedOut) in Handle(Lookup(old(conns), id), PumpTick(now, id in exhausted)).notices
    {
      interrupted := MarkInterrupted(now, exhausted);
      timedOut := SweepTimedOut(now);
    }

    method MarkInterrupted(now: real, exhausted: seq<ConnId>) returns (interrupted: seq<ConnId>)
      modifies this
      ensures forall id :: Lookup(conns, id) == Interrupt(Lookup(old(conns), id), now, id in exhausted).conn
      ensures NoDuplicates(interrupted)
      ensures forall id ::
        id in interrupted <==> Interrupted in Interrupt(Lookup(old(conns), id), now, id in exhausted).notices
    {
      interrupted := [];
      for n := 0 to |exhausted|
        invariant forall id :: Lookup(conns, id) == Interrupt(Lookup(old(conns), id), now, id in exhausted[..n]).conn
        invariant NoDuplicates(interrupted)
        invariant forall id ::
          id in interrupted <==> Interrupted in Interrupt(Lookup(old(conns), id), now, id in exhausted[..n]).notices
      {
        var id := exhausted[n];
        assert exhausted[..n + 1] == exhausted[..n] + [id];
        assert Lookup(conns, id) == Interrupt(Lookup(old(conns), id), now, id in exhausted[..n]).conn;
        if id in conns && !conns[id].interrupted {
          conns := conns[id := conns[id].(interrupted := true, interruptedAt := now)];
          interrupted := interrupted + [id];
        }
      }
      assert exhausted[..|exhausted|] == exhausted;
    }

    method SweepTimedOut(now: real) returns (timedOut: set<ConnId>)
      modifies this
      ensures forall id :: Lookup(conns, id) == Sweep(Lookup(old(conns), id), now).conn
      ensures forall id :: id in timedOut <==> Closed(TimedOut) in Sweep(Lookup(old(conns), id), now).notices
    {
      timedOut := {};
      var left := conns.Keys;
      while left != {}
        invariant left <= old(conns.Keys)
        invariant forall id :: Lookup(conns, id) == if id in left then Lookup(old(conns), id)
              else Sweep(Lookup(old(conns), id), now).conn
        invariant forall id ::
          id in timedOut <==> id !in left && Closed(TimedOut) in Sweep(Lookup(old(conns), id), now).notices
        decreases left
      {
        var id :| id in left;
        assert Lookup(conns, id) == Lookup(old(conns), id);
        left := left - {id};
        if conns[id].interrupted && now - conns[id].interruptedAt >= INTERRUPTED_GRACE {
          timedOut := timedOut + {id};
          conns := conns - {id};
        }
      }
    }
  }
}
