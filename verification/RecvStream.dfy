/** The receiving half of one reliable stream: deduplication, the acknowledgement
    watermark, reordering and back-pressured release to the inbox. */
module RecvStream {
  import opened Basics
  import opened Inbox
  import SeqExtension

  /** Who the stream's packets are delivered as. */
  datatype Source = Source(peer: Bytes, socket: Bytes, channel: Byte)

  datatype RecvState = RecvState(
    source: Source,
    ordered: bool,
    nextExpected: nat,
    nextToDeliver: nat,
    buffer: map<nat, Bytes>,
    received: set<nat>)

  function Fresh(source: Source, ordered: bool): RecvState {
    RecvState(source, ordered, 1, 1, map[], {})
  }

  /** A 32-bit word, least significant bit first. */
  type Mask32 = bits: seq<bool> | |bits| == 32 witness seq(32, _ => false)

  /** An acknowledgement: everything up to `upTo`, and for each set bit i the number
      `upTo + 2 + i` beyond the first hole. */
  datatype Ack = Ack(upTo: nat, sack: Mask32)

  ghost predicate AckCovers(a: Ack, s: nat) {
    s <= a.upTo || (a.upTo + 2 <= s < a.upTo + 34 && a.sack[s - a.upTo - 2])
  }

  // ---- what has been received --------------------------------------------

  /** Every number received so far, including those pruned from `received`. */
  ghost predicate Has(r: RecvState, s: nat) {
    1 <= s < r.nextExpected || s in r.received
  }

  /** The dedup set lies strictly above the watermark, the buffer holds only received
      numbers, and an ordered stream never releases past the watermark. */
  ghost predicate WellFormed(r: RecvState) {
    && 1 <= r.nextToDeliver && 1 <= r.nextExpected
    && (forall s :: s in r.received ==> r.nextExpected < s)
    && (forall s :: s in r.buffer ==> Has(r, s))
    && (r.ordered ==> r.nextToDeliver <= r.nextExpected)
    && (r.ordered ==> forall s :: Has(r, s) && r.nextToDeliver <= s ==> s in r.buffer)
    && (r.ordered ==> forall s :: s in r.buffer ==> r.nextToDeliver <= s)
  }

  /** The first number from `start` on that is missing from `s`. */
  ghost function FirstMissing(s: set<nat>, start: nat): (n: nat)
    ensures start <= n && n !in s
    ensures forall k :: start <= k < n ==> k in s
    decreases |s|
  {
    if start in s then
      var n := FirstMissing(s - {start}, start + 1);
      assert forall k {:trigger k in s} :: start < k < n ==> k in s - {start};
      n
    else start
  }

  // ---- one arriving packet -----------------------------------------------

  ghost function Accept(r: RecvState, s: nat, data: Bytes): RecvState {
    if s < r.nextExpected || s in r.received then
      r
    else
      var received := r.received + {s};
      var next := FirstMissing(received, r.nextExpected);
      r.(buffer := r.buffer[s := data],
         nextExpected := next,
         received := set x | x in received && next <= x)
  }

  ghost function AckOf(r: RecvState): Ack
    requires r.nextExpected >= 1
  {
    Ack(r.nextExpected - 1, seq(32, i requires 0 <= i => (r.nextExpected + 1 + i) in r.received))
  }

  /** Accepting records exactly one more number, with its data, and nothing else;
      number 0, which no sender uses, and duplicates change nothing. */
  lemma AcceptRecords(r: RecvState, s: nat, data: Bytes)
    requires WellFormed(r)
    ensures var n := Accept(r, s, data);
      && WellFormed(n)
      && (s == 0 || Has(r, s) ==> n == r)
      && (s >= 1 && !Has(r, s) ==> n.buffer == r.buffer[s := data])
      && (forall x: nat :: Has(n, x) <==> Has(r, x) || (x == s && s >= 1))
      && r.nextExpected <= n.nextExpected && !Has(n, n.nextExpected)
      && n.source == r.source && n.ordered == r.ordered && n.nextToDeliver == r.nextToDeliver
  {
    var n := Accept(r, s, data);
    if s >= 1 && !Has(r, s) {
      var received := r.received + {s};
      assert forall x :: x in n.received <==> x in received && n.nextExpected <= x;
      forall x: nat ensures Has(n, x) <==> Has(r, x) || x == s {
        if r.nextExpected <= x < n.nextExpected { assert x in received; }
      }
    }
  }

  /** An acknowledgement claims nothing that has not been received, and claims
      everything received within its reach. */
  lemma AckOfExact(r: RecvState, s: nat)
    requires WellFormed(r) && s >= 1
    ensures AckCovers(AckOf(r), s) ==> Has(r, s)
    ensures Has(r, s) && s < r.nextExpected + 33 ==> AckCovers(AckOf(r), s)
  {
    var a := AckOf(r);
    if a.upTo + 2 <= s < a.upTo + 34 {
      var i := s - a.upTo - 2;
      assert a.sack[i] == ((r.nextExpected + 1 + i) in r.received);
    }
  }

  // ---- release to the inbox ----------------------------------------------

  /** The number the stream wants to release next. */
  ghost function NextRelease(r: RecvState): Option<nat> {
    if r.ordered then
      if r.nextToDeliver in r.buffer then Some(r.nextToDeliver) else None
    else if r.buffer.Keys == {} then None
    else Some(Least(r.buffer.Keys))
  }

  ghost function PacketFor(r: RecvState, s: nat): Packet
    requires s in r.buffer
  {
    Packet(r.source.peer, r.source.socket, r.source.channel, r.buffer[s])
  }

  ghost function Release(r: RecvState, s: nat): RecvState
    requires s in r.buffer
  {
    r.(buffer := r.buffer - {s},
       nextToDeliver := if r.ordered then r.nextToDeliver + 1 else r.nextToDeliver)
  }

  /** `released` lists the numbers moved to the inbox, in order. */
  datatype Drained = Drained(stream: RecvState, inbox: InboxState, released: seq<nat>, blocked: bool)

  ghost function Drain(r: RecvState, box: InboxState): Drained
    decreases |r.buffer|
  {
    var next := NextRelease(r);
    if next.None? then
      Drained(r, box, [], false)
    else if !box.HasRoom(|r.buffer[next.value]|) then
      Drained(r, box, [], true)
    else
      SmallerBuffer(r.buffer, next.value);
      var d := Drain(Release(r, next.value), box.Enqueue(PacketFor(r, next.value)));
      d.(released := [next.value] + d.released)
  }

  lemma SmallerBuffer(m: map<nat, Bytes>, k: nat)
    requires k in m
    ensures |m - {k}| < |m|
  {
    assert (m - {k}).Keys == m.Keys - {k};
    assert |m.Keys - {k}| < |m.Keys|;
    assert |m - {k}| == |(m - {k}).Keys|;
    assert |m| == |m.Keys|;
  }

  lemma {:induction false} DrainKeepsForm(r: RecvState, box: InboxState)
    requires WellFormed(r) && box.Accounted()
    ensures var d := Drain(r, box);
      && WellFormed(d.stream) && d.inbox.Accounted()
      && d.inbox.limit == box.limit
      && d.stream.nextExpected == r.nextExpected && d.stream.received == r.received
      && d.stream.source == r.source && d.stream.ordered == r.ordered
    decreases |r.buffer|
  {
    var next := NextRelease(r);
    if next.Some? && box.HasRoom(|r.buffer[next.value]|) {
      SmallerBuffer(r.buffer, next.value);
      EnqueueKeepsAccount(box, PacketFor(r, next.value));
      ReleaseKeepsForm(r, next.value);
      DrainKeepsForm(Release(r, next.value), box.Enqueue(PacketFor(r, next.value)));
    }
  }

  ghost predicate Moves(r: RecvState, box: InboxState, d: Drained) {
    && NoDuplicates(d.released)
    && Elements(d.released) <= r.buffer.Keys
    && d.stream.buffer == r.buffer - Elements(d.released)
    && d.inbox.queue == box.queue + Packets(r, d.released)
    && (r.ordered ==> forall i :: 0 <= i < |d.released| ==> d.released[i] == r.nextToDeliver + i)
    && d.stream.nextToDeliver == r.nextToDeliver + (if r.ordered then |d.released| else 0)
  }

  /** Draining moves packets, whatever the limit: what leaves the buffer is what enters
      the inbox, each packet once and as it was buffered, in order on an ordered stream. */
  lemma {:induction false} DrainMoves(r: RecvState, box: InboxState)
    ensures Moves(r, box, Drain(r, box))
    decreases |r.buffer|
  {
    var next := NextRelease(r);
    if next.Some? && box.HasRoom(|r.buffer[next.value]|) {
      var k := next.value;
      var r1, box1 := Release(r, k), box.Enqueue(PacketFor(r, k));
      SmallerBuffer(r.buffer, k);
      DrainMoves(r1, box1);
      OneMoreMove(r, box, k, Drain(r1, box1));
    } else {
      assert r.buffer - Elements([]) == r.buffer;
      assert box.queue + Packets(r, []) == box.queue;
    }
  }

  lemma OneMoreMove(r: RecvState, box: InboxState, k: nat, d: Drained)
    requires NextRelease(r) == Some(k) && box.HasRoom(|r.buffer[k]|)
    requires Moves(Release(r, k), box.Enqueue(PacketFor(r, k)), d)
    ensures Moves(r, box, d.(released := [k] + d.released))
  {
    var rest, p := d.released, PacketFor(r, k);
    FirstThenRest(r, k, rest);
    assert (box.queue + [p]) + Packets(Release(r, k), rest) == box.queue + ([p] + Packets(Release(r, k), rest));
  }

  lemma FirstThenRest(r: RecvState, k: nat, rest: seq<nat>)
    requires k in r.buffer
    requires Elements(rest) <= Release(r, k).buffer.Keys
    requires NoDuplicates(rest)
    ensures Elements([k] + rest) <= r.buffer.Keys
    ensures NoDuplicates([k] + rest)
    ensures Release(r, k).buffer - Elements(rest) == r.buffer - Elements([k] + rest)
    ensures Packets(r, [k] + rest) == [PacketFor(r, k)] + Packets(Release(r, k), rest)
  {
    var r1, all := Release(r, k), [k] + rest;
    assert k !in r1.buffer;
    forall i | 0 <= i < |rest| ensures rest[i] in r1.buffer {
      assert rest[i] in Elements(rest);
    }
    assert Elements(all) == {k} + Elements(rest);
    assert r1.buffer - Elements(rest) == r.buffer - Elements(all);
  }

  /** When a drain stops: only a full inbox blocks it, and an unblocked drain leaves
      nothing that could be released. */
  lemma {:induction false} DrainStops(r: RecvState, box: InboxState)
    requires WellFormed(r)
    ensures var d := Drain(r, box);
      && (box.limit == 0 ==> !d.blocked)
      && (d.blocked ==> NextRelease(d.stream).Some?
                        && !d.inbox.HasRoom(|d.stream.buffer[NextRelease(d.stream).value]|))
      && (!d.blocked && !r.ordered ==> d.stream.buffer.Keys == {})
      && (!d.blocked && r.ordered ==> d.stream.nextToDeliver == d.stream.nextExpected)
    decreases |r.buffer|
  {
    var next := NextRelease(r);
    if next.Some? && box.HasRoom(|r.buffer[next.value]|) {
      SmallerBuffer(r.buffer, next.value);
      ReleaseKeepsForm(r, next.value);
      DrainStops(Release(r, next.value), box.Enqueue(PacketFor(r, next.value)));
    } else if r.ordered && next.None? {
      assert !Has(r, r.nextToDeliver);
    }
  }

  ghost function Packets(r: RecvState, released: seq<nat>): seq<Packet>
    requires Elements(released) <= r.buffer.Keys
  {
    seq(|released|, i requires 0 <= i < |released| =>
      assert released[i] in Elements(released);
      PacketFor(r, released[i]))
  }

  lemma ReleaseKeepsForm(r: RecvState, s: nat)
    requires WellFormed(r) && NextRelease(r) == Some(s)
    ensures WellFormed(Release(r, s))
  {
    var n := Release(r, s);
    assert forall x :: Has(n, x) <==> Has(r, x);
    if r.ordered {
      assert Has(r, s);
    }
  }

  /** One round of either release loop. */
  lemma DrainOnce(r: RecvState, box: InboxState, s: nat)
    requires NextRelease(r) == Some(s) && box.HasRoom(|r.buffer[s]|)
    ensures SameResult(Drain(r, box), Drain(Release(r, s), box.Enqueue(PacketFor(r, s))))
    ensures |Release(r, s).buffer| < |r.buffer|
  {
    SmallerBuffer(r.buffer, s);
  }

  ghost predicate SameResult(a: Drained, b: Drained) {
    SameOutcome(a, b.stream, b.inbox, b.blocked)
  }

  ghost predicate SameOutcome(d: Drained, r: RecvState, box: InboxState, blocked: bool) {
    d.stream == r && d.inbox == box && d.blocked == blocked
  }

  // ---- the stream object --------------------------------------------------

  class Stream {
    const source: Source
    const ordered: bool
    var nextExpected: nat
    var nextToDeliver: nat
    var buffer: map<nat, Bytes>
    var received: set<nat>

    ghost function State(): RecvState
      reads this
    {
      RecvState(source, ordered, nextExpected, nextToDeliver, buffer, received)
    }

    constructor (source: Source, ordered: bool)
      ensures State() == Fresh(source, ordered) && WellFormed(State())
    {
      this.source, this.ordered := source, ordered;
      nextExpected, nextToDeliver, buffer, received := 1, 1, map[], {};
    }

    /** Handles the reliable half of a data datagram: the 32 wire bits are extended
        against the watermark, the packet is recorded once, what fits is released, and
        the acknowledgement now owed is returned (also for a duplicate). */
    method OnData(wireSeq: U32, data: Bytes, inbox: PacketInbox) returns (ack: Ack, blocked: bool)
      requires WellFormed(State()) && inbox.Valid() && nextExpected < TWO_64
      modifies this, inbox
      ensures WellFormed(State()) && inbox.Valid()
      ensures var s := SeqExtension.Extend32(old(nextExpected), wireSeq);
              var d := Drain(Accept(old(State()), s, data), old(inbox.State()));
              SameOutcome(d, State(), inbox.State(), blocked) && ack == AckOf(State())
    {
      var s := SeqExtension.Extend32(nextExpected, wireSeq);
      AcceptRecords(State(), s, data);
      Record(s, data);
      DrainKeepsForm(State(), inbox.State());
      blocked := DrainInto(inbox);
      ack := OwedAck();
    }

    method Record(s: nat, data: Bytes)
      requires WellFormed(State())
      modifies this
      ensures State() == Accept(old(State()), s, data)
    {
      var duplicate := s < nextExpected || s in received;
      if duplicate {
        return;
      }
      received := received + {s};
      buffer := buffer[s := data];
      ghost var all, first := received, FirstMissing(received, nextExpected);
      while nextExpected in received
        invariant old(nextExpected) <= nextExpected <= first
        invariant received == all && buffer == old(buffer)[s := data]
        invariant nextToDeliver == old(nextToDeliver)
        decreases first - nextExpected
      {
        nextExpected := nextExpected + 1;
      }
      while received != {}
        invariant nextExpected == first && buffer == old(buffer)[s := data]
        invariant nextToDeliver == old(nextToDeliver)
        invariant received <= all
        invariant forall x :: x in all && first <= x ==> x in received
        decreases received
      {
        var lowest := Least(received);
        if lowest >= nextExpected {
          break;
        }
        received := received - {lowest};
      }
      assert received == set x | x in all && first <= x;
    }

    /** Moves buffered packets into the inbox while it has room; an Enqueue made here
        never takes the dropping branch. */
    method DrainInto(inbox: PacketInbox) returns (blocked: bool)
      requires inbox.Valid()
      modifies this`nextToDeliver, this`buffer, inbox
      ensures inbox.Valid()
      ensures SameOutcome(Drain(old(State()), old(inbox.State())), State(), inbox.State(), blocked)
    {
      if ordered {
        blocked := DrainOrdered(inbox);
      } else {
        blocked := DrainUnordered(inbox);
      }
    }

    method DrainOrdered(inbox: PacketInbox) returns (blocked: bool)
      requires ordered && inbox.Valid()
      modifies this`nextToDeliver, this`buffer, inbox
      ensures inbox.Valid()
      ensures SameOutcome(Drain(old(State()), old(inbox.State())), State(), inbox.State(), blocked)
    {
      ghost var goal := Drain(State(), inbox.State());
      while nextToDeliver in buffer
        invariant inbox.Valid()
        invariant SameResult(Drain(State(), inbox.State()), goal)
        decreases |buffer|
      {
        var data := buffer[nextToDeliver];
        if !inbox.HasRoom(|data|) {
          return true;
        }
        DrainOnce(State(), inbox.State(), nextToDeliver);
        var dropped := inbox.Enqueue(Packet(source.peer, source.socket, source.channel, data));
        assert !dropped;
        buffer := buffer - {nextToDeliver};
        nextToDeliver := nextToDeliver + 1;
      }
      return false;
    }

    method DrainUnordered(inbox: PacketInbox) returns (blocked: bool)
      requires !ordered && inbox.Valid()
      modifies this`buffer, inbox
      ensures inbox.Valid()
      ensures SameOutcome(Drain(old(State()), old(inbox.State())), State(), inbox.State(), blocked)
    {
      ghost var goal := Drain(State(), inbox.State());
      while buffer.Keys != {}
        invariant inbox.Valid()
        invariant SameResult(Drain(State(), inbox.State()), goal)
        decreases |buffer|
      {
        var first := Least(buffer.Keys);
        var data := buffer[first];
        if !inbox.HasRoom(|data|) {
          return true;
        }
        DrainOnce(State(), inbox.State(), first);
        var dropped := inbox.Enqueue(Packet(source.peer, source.socket, source.channel, data));
        assert !dropped;
        buffer := buffer - {first};
      }
      return false;
    }

    method OwedAck() returns (ack: Ack)
      requires WellFormed(State())
      ensures ack == AckOf(State())
    {
      var sack: seq<bool> := seq(32, _ => false);
      for i := 0 to 32
        invariant |sack| == 32
        invariant forall j :: 0 <= j < i ==> sack[j] == ((nextExpected + 1 + j) in received)
        invariant forall j :: i <= j < 32 ==> !sack[j]
      {
        if nextExpected + 1 + i in received {
          sack := sack[i := true];
        }
      }
      assert sack == AckOf(State()).sack;
      ack := Ack(nextExpected - 1, sack);
    }
  }
}
