/** Whole runs of one send stream and the connection it belongs to: sends, acknowledgements
    and pump ticks in any order. */
module SendRuns {
  import opened Basics
  import opened RecvStream
  import opened SendStream
  import opened ConnectionLifecycle

  datatype World = World(stream: SendState, conn: Option<Conn>)

  /** `others` tells whether another stream of the connection is exhausted; `Heard` stands
      for anything else the connection goes through. */
  datatype Event =
    | Send(payload: Bytes, now: real)
    | AckArrives(ack: Ack, now: real)
    | Tick(now: real, others: bool)
    | Heard(input: Input)

  ghost function TickOf(w: World, now: real, others: bool): Input {
    PumpTick(now, Exhausted(w.stream, now) || others)
  }

  ghost function Next(w: World, e: Event): World {
    match e
    case Send(payload, now) => w.(stream := Enqueue(w.stream, payload, now))
    case AckArrives(ack, now) => World(Acknowledge(w.stream, ack, now), Handle(w.conn, Input.Ack).conn)
    case Tick(now, others) => World(Pumped(w.stream, now), Handle(w.conn, TickOf(w, now, others)).conn)
    case Heard(input) => w.(conn := Handle(w.conn, input).conn)
  }

  ghost function After(w: World, events: seq<Event>): World
    decreases events
  {
    if events == [] then w else After(Next(w, events[0]), events[1..])
  }

  // ---- the round-trip estimate ------------------------------------------------------------

  /** At every acknowledgement the samples it may take lie between lo and hi. */
  ghost predicate SampledWithin(w: World, events: seq<Event>, lo: real, hi: real)
    decreases events
  {
    events != [] ==>
      && (events[0].AckArrives? ==> SamplesWithin(w.stream, events[0].now, lo, hi))
      && SampledWithin(Next(w, events[0]), events[1..], lo, hi)
  }

  lemma {:induction false} EstimateFrom(w: World, events: seq<Event>, lo: real, hi: real)
    requires 0.0 <= lo <= hi && EstimateWithin(w.stream, lo, hi) && SampledWithin(w, events, lo, hi)
    ensures EstimateWithin(After(w, events).stream, lo, hi)
    decreases events
  {
    if events != [] {
      var e := events[0];
      if e.AckArrives? { EstimateStaysWithin(w.stream, e.ack, e.now, lo, hi); }
      EstimateFrom(Next(w, e), events[1..], lo, hi);
    }
  }

  /** Over a whole run with samples in [lo, hi], the smoothed time stays in [lo, hi], the
      variation at most max(hi / 2, hi - lo), and the timeout in its range. */
  lemma EstimateOverRuns(conn: Option<Conn>, events: seq<Event>, lo: real, hi: real)
    requires 0.0 <= lo <= hi && SampledWithin(World(FRESH_SENDER, conn), events, lo, hi)
    ensures var s := After(World(FRESH_SENDER, conn), events).stream;
      && (s.srtt < 0.0 || (lo <= s.srtt <= hi && 0.0 <= s.rttVar <= VarCeiling(lo, hi)))
      && MIN_RTO <= RtoFor(s.srtt, s.rttVar) <= MAX_RTO
  {
    EstimateFrom(World(FRESH_SENDER, conn), events, lo, hi);
  }

  // ---- a silent peer is noticed -------------------------------------------------------------

  /** What one event does to a pending packet that it does not acknowledge. */
  lemma PacketStep(w: World, k: nat, e: Event)
    requires k in w.stream.pending && k < w.stream.nextSeq && !(e.AckArrives? && AckCovers(e.ack, k))
    ensures var next := Next(w, e).stream;
      && k in next.pending && k < next.nextSeq
      && next.pending[k] ==
           if e.Tick? then AfterPump(w.stream.pending[k], PumpAt(e.now, RtoFor(w.stream.srtt, w.stream.rttVar)))
           else w.stream.pending[k]
  {
    if e.AckArrives? { AcknowledgeErases(w.stream, e.ack, e.now); }
  }

  /** The packet is never acknowledged. */
  ghost predicate NeverCovered(events: seq<Event>, k: nat) {
    forall i :: 0 <= i < |events| && events[i].AckArrives? ==> !AckCovers(events[i].ack, k)
  }

  /** Pump ticks come at most `gap` apart, the first at most `gap` after `since`. */
  ghost predicate TicksEvery(gap: real, since: real, events: seq<Event>)
    decreases events
  {
    if events == [] then true
    else if events[0].Tick? then since <= events[0].now <= since + gap && TicksEvery(gap, events[0].now, events[1..])
    else TicksEvery(gap, since, events[1..])
  }

  /** The time of the last pump tick. */
  ghost function LastTick(since: real, events: seq<Event>): real
    decreases events
  {
    if events == [] then since
    else LastTick(if events[0].Tick? then events[0].now else since, events[1..])
  }

  /** The connection is there whenever something happens. */
  ghost predicate LiveThroughout(w: World, events: seq<Event>)
    decreases events
  {
    events != [] ==> w.conn.Some? && LiveThroughout(Next(w, events[0]), events[1..])
  }

  /** Event i is a pump tick, no later than `deadline`, that interrupts the connection or
      finds an interruption already standing. */
  ghost predicate InterruptsAt(w: World, events: seq<Event>, i: nat, deadline: real)
    requires i < |events|
  {
    var before := After(w, events[..i]);
    && events[i].Tick? && events[i].now <= deadline && before.conn.Some?
    && (before.conn.value.interrupted
        || Interrupted in Handle(before.conn, TickOf(before, events[i].now, events[i].others)).notices)
  }

  lemma InterruptsLater(w: World, events: seq<Event>, i: nat, deadline: real)
    requires i + 1 < |events| && InterruptsAt(Next(w, events[0]), events[1..], i, deadline)
    ensures InterruptsAt(w, events, i + 1, deadline)
  {
    assert events[..i + 1][0] == events[0] && events[..i + 1][1..] == events[1..][..i];
  }

  /** A pump tick that finds a packet due after its last try interrupts a live connection. */
  lemma ExhaustedInterrupts(w: World, k: nat, events: seq<Event>, deadline: real)
    requires events != [] && events[0].Tick? && events[0].now <= deadline
    requires k in w.stream.pending && w.conn.Some? && w.stream.pending[k].tries >= MAX_TRANSMITS
    requires Due(w.stream.pending[k], RtoFor(w.stream.srtt, w.stream.rttVar), events[0].now)
    ensures InterruptsAt(w, events, 0, deadline)
  {
    assert events[..0] == [];
    assert k in DueSet(w.stream, events[0].now);
    assert Exhausted(w.stream, events[0].now);
  }

  /** From a packet with some tries behind it. */
  lemma {:induction false} InterruptedFrom(w: World, k: nat, events: seq<Event>, since: real, gap: real,
                                           deadline: real) returns (i: nat)
    requires k in w.stream.pending && k < w.stream.nextSeq && NeverCovered(events, k) && LiveThroughout(w, events)
    requires var u := w.stream.pending[k];
      1 <= u.tries <= MAX_TRANSMITS && u.lastSent <= since <= u.lastSent + MAX_RTO as real
          && Deadline(u, gap) <= deadline
    requires gap >= 0.0 && TicksEvery(gap, since, events) && since < deadline <= LastTick(since, events)
    ensures i < |events| && InterruptsAt(w, events, i, deadline)
    decreases events
  {
    var e, u := events[0], w.stream.pending[k];
    var p := PumpAt(if e.Tick? then e.now else since, RtoFor(w.stream.srtt, w.stream.rttVar));
    PacketStep(w, k, e);
    BackoffCapped(p.rto, u.tries);
    if e.Tick? && Due(u, p.rto, e.now) && u.tries == MAX_TRANSMITS {
      DeadlineOfLastTry(u, e.now, gap);
      ExhaustedInterrupts(w, k, events, deadline);
      i := 0;
    } else {
      if e.Tick? { DeadlineShrinks(u, p, gap); }
      assert forall j :: 0 <= j < |events[1..]| ==> events[1..][j] == events[j + 1];
      var j := InterruptedFrom(Next(w, e), k, events[1..], p.now, gap, deadline);
      InterruptsLater(w, events, j, deadline);
      i := j + 1;
    }
  }

  lemma DeadlineOfLastTry(u: Unacked, now: real, gap: real)
    requires u.tries == MAX_TRANSMITS && now <= u.lastSent + MAX_RTO as real + gap
    ensures now <= Deadline(u, gap)
  {
    assert (17 - u.tries) as real == 1.0;
  }

  /** A packet that is never acknowledged on a live connection interrupts it within 16
      capped waits and 16 pump gaps of its first transmission, whatever else is sent,
      acknowledged or received meanwhile and whatever the timeout estimate does. */
  lemma SilenceInterrupts(w: World, payload: Bytes, sent: real, events: seq<Event>, gap: real) returns (i: nat)
    requires gap >= 0.0 && TicksEvery(gap, sent, events)
    requires LastTick(sent, events) >= sent + 16.0 * (MAX_RTO as real + gap)
    requires NeverCovered(events, w.stream.nextSeq) && LiveThroughout(Next(w, Send(payload, sent)), events)
    ensures i < |events|
    ensures InterruptsAt(Next(w, Send(payload, sent)), events, i, sent + 16.0 * (MAX_RTO as real + gap))
  {
    i := InterruptedFrom(Next(w, Send(payload, sent)), w.stream.nextSeq, events, sent, gap, sent
        + 16.0 * (MAX_RTO as real + gap));
  }
}
