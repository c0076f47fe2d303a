/** One reliable stream end to end: a sender, a receiver with its shared inbox, and a
    network that loses, duplicates and reorders. The record carries the history of what
    was sent, released to the inbox and taken out of it; every theorem at the end is
    about every run from the initial state. */
module ReliableChannel {
  import opened Basics
  import opened Inbox
  import opened RecvStream
  import opened SendStream
  import opened SeqExtension

  const MAX_PACKET: nat := 1170

  /** A data datagram. Only the low 32 bits of `number` travel. */
  datatype DataMsg = DataMsg(number: nat, payload: Bytes)

  /** A packet the application read, with the buffer size it offered. */
  datatype AppRead = AppRead(data: Bytes, capacity: nat)

  datatype Channel = Channel(
    sender: SendState,
    receiver: RecvState,
    inbox: InboxState,
    dataNet: set<DataMsg>,
    ackNet: set<Ack>,
    /** For each inbox slot the number it was released as, 0 for other traffic. */
    origin: seq<nat>,
    sent: seq<Bytes>,
    released: seq<nat>,
    /** The payloads enqueued into the inbox by those releases. */
    handed: seq<Bytes>,
    taken: seq<nat>,
    readings: seq<AppRead>,
    /** The number of each packet read, and of each packet a clear threw away. */
    readAs: seq<nat>,
    cleared: seq<nat>)

  ghost predicate Initial(ch: Channel) {
    ch == Channel(FRESH_SENDER, Fresh(ch.receiver.source, ch.receiver.ordered), InboxState([], 0, ch.inbox.limit),
                  {}, {}, [], [], [], [], [], [], [], [])
  }

  /** A datagram stays in its network set when delivered, so it may arrive again. */
  datatype Step =
    | Send(data: Bytes, now: real)
    | DeliverData(m: DataMsg)
    | DeliverAck(a: Ack, now: real)
    | LoseData(m: DataMsg)
    | LoseAck(a: Ack)
    | Pump(now: real)
    | Drain
    | AppReceive(filter: Option<Byte>, capacity: nat)
    | AppClear(peer: Option<Bytes>, socket: Bytes)
    | OtherTraffic(p: Packet)
    | SetLimit(limit: nat)

  ghost predicate Possible(ch: Channel, step: Step) {
    match step
    case DeliverData(m) => m in ch.dataNet && ch.receiver.nextExpected < TWO_64
    case DeliverAck(a, _) => a in ch.ackNet && ch.sender.nextSeq < TWO_64
    case AppReceive(_, _) => ch.inbox.Accounted() && |ch.origin| == |ch.inbox.queue|
    case AppClear(_, _) => |ch.origin| == |ch.inbox.queue|
    case _ => true
  }

  /** The distance assumption on the datagrams that are processed. */
  ghost predicate InReach(ch: Channel, step: Step) {
    match step
    case DeliverData(m) => ClearOfWrap(ch.receiver.nextExpected) && InWindow(ch.receiver.nextExpected, m.number)
    case DeliverAck(a, _) => ClearOfWrap(ch.sender.nextSeq) && InWindow(ch.sender.nextSeq, a.upTo)
    case _ => true
  }

  ghost function AfterDrain(ch: Channel): Channel {
    var d := RecvStream.Drain(ch.receiver, ch.inbox);
    ch.(receiver := d.stream, inbox := d.inbox,
        origin := ch.origin + d.released, released := ch.released + d.released,
        handed := ch.handed + PayloadsFrom(d.inbox.queue, |ch.inbox.queue|))
  }

  /** The payloads queued from position `from` on. */
  ghost function PayloadsFrom(queue: seq<Packet>, from: nat): seq<Bytes> {
    if |queue| < from then []
    else seq(|queue| - from, i requires 0 <= i < |queue| - from => queue[from + i].data)
  }

  ghost function AfterData(ch: Channel, number: nat, payload: Bytes): Channel
    requires ch.receiver.nextExpected >= 1
  {
    AfterDrain(ch.(receiver := Accept(ch.receiver, number, payload)))
  }

  ghost function Apply(ch: Channel, step: Step): Channel
    requires Possible(ch, step) && ch.receiver.nextExpected >= 1
  {
    match step
    case Send(data, now) =>
      if |data| > MAX_PACKET then ch
      else ch.(sender := Enqueue(ch.sender, data, now), sent := ch.sent + [data],
               dataNet := ch.dataNet + {DataMsg(ch.sender.nextSeq, data)})
    case DeliverData(m) =>
      var next := AfterData(ch, Extend32(ch.receiver.nextExpected, m.number % TWO_32), m.payload);
      if next.receiver.nextExpected >= 1 then next.(ackNet := next.ackNet + {AckOf(next.receiver)}) else next
    case DeliverAck(a, now) =>
      ch.(sender := Acknowledge(ch.sender, Ack(Extend32(ch.sender.nextSeq, a.upTo % TWO_32), a.sack), now))
    case LoseData(m) => ch.(dataNet := ch.dataNet - {m})
    case LoseAck(a) => ch.(ackNet := ch.ackNet - {a})
    case Pump(now) =>
      ch.(sender := Pumped(ch.sender, now),
          dataNet := ch.dataNet + set k | k in DueSet(ch.sender, now) :: DataMsg(k, ch.sender.pending[k].payload))
    case Drain => AfterDrain(ch)
    case AppReceive(filter, capacity) =>
      var i := FirstOnChannel(ch.inbox.queue, filter);
      if i == |ch.inbox.queue| then ch
      else
        var next := ch.(inbox := ch.inbox.Without(i), origin := ch.origin[..i] + ch.origin[i + 1..]);
        if ch.origin[i] == 0 then next
        else next.(taken := ch.taken + [ch.origin[i]], readAs := ch.readAs + [ch.origin[i]],
                   readings := ch.readings + [AppRead(Cut(ch.inbox.queue[i].data, capacity), capacity)])
    case AppClear(peer, socket) =>
      var keep := Uncleared(ch.inbox.queue, peer, socket);
      var origin := UnclearedOrigin(ch.inbox.queue, ch.origin, peer, socket);
      var next := ch.(inbox := InboxState(keep, TotalBytes(keep), ch.inbox.limit), origin := origin);
      if Cleared(OursExample(ch), peer, socket) then
        next.(taken := ch.taken + Ours(ch.origin), cleared := ch.cleared + Ours(ch.origin))
      else next
    case OtherTraffic(p) =>
      if ch.inbox.HasRoom(|p.data|) then ch.(inbox := ch.inbox.Enqueue(p), origin := ch.origin + [0]) else ch
    case SetLimit(limit) => ch.(inbox := ch.inbox.(limit := limit))
  }

  /** The stream's own packets among the inbox slots. */
  ghost function Ours(origin: seq<nat>): seq<nat> {
    if origin == [] then [] else (if origin[0] == 0 then [] else [origin[0]]) + Ours(origin[1..])
  }

  ghost function UnclearedOrigin(queue: seq<Packet>, origin: seq<nat>, peer: Option<Bytes>, socket: Bytes): seq<nat>
    requires |queue| == |origin|
  {
    if queue == [] then []
    else (if Cleared(queue[0], peer, socket) then [] else [origin[0]])
         + UnclearedOrigin(queue[1..], origin[1..], peer, socket)
  }

  // ---- the invariant -------------------------------------------------------

  ghost predicate Numbered(ch: Channel, k: nat, payload: Bytes) {
    1 <= k <= |ch.sent| && payload == ch.sent[k - 1]
  }

  ghost predicate SenderInv(ch: Channel) {
    && ch.sender.nextSeq == |ch.sent| + 1
    && (forall k :: k in ch.sender.pending ==> Numbered(ch, k, ch.sender.pending[k].payload))
  }

  ghost predicate NetworkInv(ch: Channel) {
    && (forall m :: m in ch.dataNet ==> Numbered(ch, m.number, m.payload))
    && (forall a, k: nat :: a in ch.ackNet && 1 <= k && AckCovers(a, k) ==> Has(ch.receiver, k))
  }

  ghost predicate ReceiverInv(ch: Channel) {
    && WellFormed(ch.receiver)
    && (forall k: nat :: Has(ch.receiver, k) ==> 1 <= k <= |ch.sent|)
    && (forall k :: k in ch.receiver.buffer ==> Numbered(ch, k, ch.receiver.buffer[k]))
  }

  /** Nothing is lost: every number is still pending or has been received. */
  ghost predicate NothingLost(ch: Channel) {
    forall k: nat :: 1 <= k <= |ch.sent| ==> k in ch.sender.pending || Has(ch.receiver, k)
  }

  /** Released and buffered numbers partition the received ones. */
  ghost predicate Partitioned(ch: Channel) {
    && NoDuplicates(ch.released)
    && (forall k: nat :: Has(ch.receiver, k) <==> k in ch.released || k in ch.receiver.buffer)
    && (forall k :: k in ch.released ==> k !in ch.receiver.buffer)
  }

  ghost predicate InOrder(ch: Channel) {
    ch.receiver.ordered ==>
      && |ch.released| == ch.receiver.nextToDeliver - 1
      && forall i :: 0 <= i < |ch.released| ==> ch.released[i] == i + 1
  }

  /** What was enqueued is what was sent under the released numbers. */
  ghost predicate HandedInv(ch: Channel) {
    && |ch.handed| == |ch.released|
    && forall i :: 0 <= i < |ch.released| ==> Numbered(ch, ch.released[i], ch.handed[i])
  }

  ghost predicate InboxInv(ch: Channel) {
    && ch.inbox.Accounted()
    && Slots(ch, ch.origin, ch.inbox.queue)
    && ch.taken + Ours(ch.origin) == ch.released
  }

  ghost predicate IsSlot(ch: Channel, k: nat, p: Packet) {
    && Numbered(ch, k, p.data)
    && p == Packet(ch.receiver.source.peer, ch.receiver.source.socket, ch.receiver.source.channel, p.data)
  }

  /** What was read is packet k from its start, as much as the buffer takes. */
  ghost predicate ReadOf(r: AppRead, k: nat, sent: seq<Bytes>) {
    && 1 <= k <= |sent| && r.data <= sent[k - 1]
    && |r.data| == if |sent[k - 1]| < r.capacity then |sent[k - 1]| else r.capacity
  }

  ghost predicate ReadsOf(readings: seq<AppRead>, readAs: seq<nat>, sent: seq<Bytes>) {
    && |readings| == |readAs|
    && forall i :: 0 <= i < |readings| ==> ReadOf(readings[i], readAs[i], sent)
  }

  /** What left the inbox was read, in the order it was released, or cleared. */
  ghost predicate ReadsInv(ch: Channel) {
    && ReadsOf(ch.readings, ch.readAs, ch.sent)
    && IsSubsequence(ch.readAs, ch.taken)
    && multiset(ch.taken) == multiset(ch.readAs) + multiset(ch.cleared)
  }

  ghost predicate StreamsInv(ch: Channel) {
    && SenderInv(ch) && NetworkInv(ch) && ReceiverInv(ch) && NothingLost(ch)
    && Partitioned(ch) && InOrder(ch) && HandedInv(ch)
  }

  ghost predicate Inv(ch: Channel) {
    StreamsInv(ch) && InboxInv(ch) && ReadsInv(ch)
  }

  // ---- every step keeps the invariant --------------------------------------

  lemma {:induction false} OursOfConcat(a: seq<nat>, b: seq<nat>)
    ensures Ours(a + b) == Ours(a) + Ours(b)
  {
    if a == [] {
      assert a + b == b;
    } else {
      assert (a + b)[1..] == a[1..] + b;
      OursOfConcat(a[1..], b);
    }
  }

  lemma {:induction false} OursOfNonzero(a: seq<nat>)
    requires forall i :: 0 <= i < |a| ==> a[i] != 0
    ensures Ours(a) == a
  {
    if a != [] { OursOfNonzero(a[1..]); }
  }

  lemma SendKeepsInv(ch: Channel, data: Bytes, now: real)
    requires Inv(ch)
    ensures Inv(Apply(ch, Send(data, now)))
  {
    var next := Apply(ch, Send(data, now));
    if |data| <= MAX_PACKET {
      assert forall k, p :: Numbered(ch, k, p) ==> Numbered(next, k, p);
      assert Numbered(next, ch.sender.nextSeq, data);
      assert NothingLost(next) by {
        forall k: nat | 1 <= k <= |next.sent| ensures k in next.sender.pending || Has(next.receiver, k) {
          if k <= |ch.sent| { assert k in ch.sender.pending || Has(ch.receiver, k); }
        }
      }
    }
  }

  lemma AcceptKeepsInv(ch: Channel, number: nat, payload: Bytes)
    requires Inv(ch) && Numbered(ch, number, payload)
    ensures Inv(ch.(receiver := Accept(ch.receiver, number, payload)))
    ensures Has(Accept(ch.receiver, number, payload), number)
  {
    AcceptRecords(ch.receiver, number, payload);
    var next := ch.(receiver := Accept(ch.receiver, number, payload));
    assert forall k, p :: Numbered(ch, k, p) <==> Numbered(next, k, p);
    InboxFrame(ch, next);
  }

  lemma DrainKeepsInv(ch: Channel)
    requires Inv(ch)
    ensures Inv(AfterDrain(ch))
    ensures forall k: nat :: Has(AfterDrain(ch).receiver, k) <==> Has(ch.receiver, k)
  {
    DrainKeepsStreams(ch);
    DrainKeepsPartition(ch);
    DrainKeepsHanded(ch);
    DrainKeepsInbox(ch);
  }

  lemma DrainKeepsHanded(ch: Channel)
    requires StreamsInv(ch) && InboxInv(ch)
    ensures HandedInv(AfterDrain(ch))
  {
    var next := AfterDrain(ch);
    var d := RecvStream.Drain(ch.receiver, ch.inbox);
    DrainMoves(ch.receiver, ch.inbox);
    var n, added := |ch.inbox.queue|, PayloadsFrom(d.inbox.queue, |ch.inbox.queue|);
    assert |added| == |d.released|;
    forall i | 0 <= i < |d.released| ensures Numbered(ch, d.released[i], added[i]) {
      assert d.released[i] in Elements(d.released);
      assert d.inbox.queue[n + i] == Packets(ch.receiver, d.released)[i];
    }
    forall i | 0 <= i < |next.released| ensures Numbered(next, next.released[i], next.handed[i]) {
      if i < |ch.released| {
        assert Numbered(ch, ch.released[i], ch.handed[i]);
      } else {
        assert Numbered(ch, d.released[i - |ch.released|], added[i - |ch.released|]);
      }
    }
  }

  lemma DrainKeepsStreams(ch: Channel)
    requires StreamsInv(ch) && InboxInv(ch)
    ensures var next := AfterDrain(ch);
      && SenderInv(next) && NetworkInv(next) && ReceiverInv(next) && NothingLost(next)
      && forall k: nat :: Has(next.receiver, k) <==> Has(ch.receiver, k)
  {
    var next := AfterDrain(ch);
    DrainKeepsForm(ch.receiver, ch.inbox);
    DrainMoves(ch.receiver, ch.inbox);
    assert forall k: nat :: Has(next.receiver, k) <==> Has(ch.receiver, k);
    assert forall k, p :: Numbered(ch, k, p) <==> Numbered(next, k, p);
  }

  lemma DrainKeepsPartition(ch: Channel)
    requires StreamsInv(ch) && InboxInv(ch)
    ensures Partitioned(AfterDrain(ch)) && InOrder(AfterDrain(ch))
  {
    var next := AfterDrain(ch);
    var d := RecvStream.Drain(ch.receiver, ch.inbox);
    DrainKeepsForm(ch.receiver, ch.inbox);
    DrainMoves(ch.receiver, ch.inbox);
    assert forall k :: k in d.released <==> k in Elements(d.released);
    forall i, j | 0 <= i < j < |next.released| ensures next.released[i] != next.released[j] {
      if i < |ch.released| <= j {
        assert next.released[i] in ch.released && d.released[j - |ch.released|] in d.released;
      }
    }
  }

  lemma DrainKeepsInbox(ch: Channel)
    requires StreamsInv(ch) && InboxInv(ch)
    ensures InboxInv(AfterDrain(ch))
  {
    var next := AfterDrain(ch);
    var d := RecvStream.Drain(ch.receiver, ch.inbox);
    DrainKeepsForm(ch.receiver, ch.inbox);
    DrainMoves(ch.receiver, ch.inbox);
    SlotsOfConcat(ch, ch.origin, ch.inbox.queue, d.released, Packets(ch.receiver, d.released));
    SlotsFrame(ch, next, next.origin, next.inbox.queue);
    forall k | k in d.released ensures k != 0 {
      assert k in Elements(d.released);
      assert Numbered(ch, k, ch.receiver.buffer[k]);
    }
    OursExtended(ch.taken, ch.origin, d.released);
  }

  lemma OursExtended(taken: seq<nat>, origin: seq<nat>, released: seq<nat>)
    requires forall k :: k in released ==> k != 0
    ensures taken + Ours(origin + released) == (taken + Ours(origin)) + released
  {
    OursOfConcat(origin, released);
    assert forall i :: 0 <= i < |released| ==> released[i] in released;
    OursOfNonzero(released);
  }

  ghost predicate Slots(ch: Channel, origin: seq<nat>, queue: seq<Packet>) {
    && |origin| == |queue|
    && forall i :: 0 <= i < |origin| && origin[i] != 0 ==> IsSlot(ch, origin[i], queue[i])
  }

  lemma SlotsOfConcat(ch: Channel, origin: seq<nat>, queue: seq<Packet>, released: seq<nat>, packets: seq<Packet>)
    requires ReceiverInv(ch) && Slots(ch, origin, queue)
    requires Elements(released) <= ch.receiver.buffer.Keys && packets == Packets(ch.receiver, released)
    ensures Slots(ch, origin + released, queue + packets)
  {
    forall i | 0 <= i < |released| ensures IsSlot(ch, released[i], packets[i]) {
      assert released[i] in Elements(released);
      assert Numbered(ch, released[i], ch.receiver.buffer[released[i]]);
    }
  }

  lemma SlotsFrame(ch: Channel, next: Channel, origin: seq<nat>, queue: seq<Packet>)
    requires Slots(ch, origin, queue)
    requires next.sent == ch.sent && next.receiver.source == ch.receiver.source
    ensures Slots(next, origin, queue)
  {
    forall i | 0 <= i < |origin| && origin[i] != 0 ensures IsSlot(next, origin[i], queue[i]) {
      assert IsSlot(ch, origin[i], queue[i]);
    }
  }

  /** What happens in the streams and on the network is no concern of the inbox. */
  lemma InboxFrame(ch: Channel, next: Channel)
    requires InboxInv(ch) && ReadsInv(ch)
    requires next.inbox == ch.inbox && next.origin == ch.origin && next.taken == ch.taken
          && next.readings == ch.readings
    requires next.readAs == ch.readAs && next.cleared == ch.cleared && next.released == ch.released
          && next.sent == ch.sent
    requires next.receiver.source == ch.receiver.source
    ensures InboxInv(next) && ReadsInv(next)
  {
    SlotsFrame(ch, next, ch.origin, ch.inbox.queue);
  }

  lemma DeliverDataKeepsInv(ch: Channel, m: DataMsg)
    requires Inv(ch) && Possible(ch, DeliverData(m)) && InReach(ch, DeliverData(m))
    ensures Inv(Apply(ch, DeliverData(m)))
    ensures Has(Apply(ch, DeliverData(m)).receiver, m.number)
  {
    Extend32Exact(ch.receiver.nextExpected, m.number);
    AcceptKeepsInv(ch, m.number, m.payload);
    var mid := ch.(receiver := Accept(ch.receiver, m.number, m.payload));
    DrainKeepsInv(mid);
    var after := AfterDrain(mid);
    forall k: nat | 1 <= k && AckCovers(AckOf(after.receiver), k) ensures Has(after.receiver, k) {
      AckOfExact(after.receiver, k);
    }
    AckAddsNothing(after);
  }

  lemma AckAddsNothing(ch: Channel)
    requires Inv(ch)
    requires forall k: nat :: 1 <= k && AckCovers(AckOf(ch.receiver), k) ==> Has(ch.receiver, k)
    ensures Inv(ch.(ackNet := ch.ackNet + {AckOf(ch.receiver)}))
  {
    var next := ch.(ackNet := ch.ackNet + {AckOf(ch.receiver)});
    assert forall k, p :: Numbered(ch, k, p) <==> Numbered(next, k, p);
    InboxFrame(ch, next);
  }

  /** Acknowledgement soundness: whatever an acknowledgement of any age erases had
      already been received. */
  lemma AckErasesOnlyReceived(ch: Channel, a: Ack, now: real)
    requires Inv(ch) && Possible(ch, DeliverAck(a, now)) && InReach(ch, DeliverAck(a, now))
    ensures var next := Apply(ch, DeliverAck(a, now));
      forall k :: k in ch.sender.pending && k !in next.sender.pending ==> Has(ch.receiver, k)
    ensures var next := Apply(ch, DeliverAck(a, now));
      forall k :: k in ch.sender.pending && AckCovers(a, k) ==> k !in next.sender.pending
    ensures Inv(Apply(ch, DeliverAck(a, now)))
  {
    Extend32Exact(ch.sender.nextSeq, a.upTo);
    AcknowledgeErases(ch.sender, a, now);
    var next := Apply(ch, DeliverAck(a, now));
    assert forall k, p :: Numbered(ch, k, p) <==> Numbered(next, k, p);
    InboxFrame(ch, next);
  }

  lemma PumpKeepsInv(ch: Channel, now: real)
    requires Inv(ch)
    ensures Inv(Apply(ch, Pump(now)))
  {
    var next := Apply(ch, Pump(now));
    assert forall k, p :: Numbered(ch, k, p) <==> Numbered(next, k, p);
    InboxFrame(ch, next);
    forall m | m in next.dataNet ensures Numbered(next, m.number, m.payload) {
      if m !in ch.dataNet {
        var k :| k in DueSet(ch.sender, now) && m == DataMsg(k, ch.sender.pending[k].payload);
      }
    }
  }

  lemma ReceiveKeepsInv(ch: Channel, filter: Option<Byte>, capacity: nat)
    requires Inv(ch)
    ensures Inv(Apply(ch, AppReceive(filter, capacity)))
  {
    var i := FirstOnChannel(ch.inbox.queue, filter);
    if i < |ch.inbox.queue| {
      StreamsFrame(ch, Apply(ch, AppReceive(filter, capacity)));
      ReceiveKeepsInbox(ch, filter, capacity);
      ReceiveKeepsReads(ch, filter, capacity);
    }
  }

  /** What happens in the inbox is no concern of the two streams. */
  lemma StreamsFrame(ch: Channel, next: Channel)
    requires StreamsInv(ch)
    requires next.sender == ch.sender && next.receiver == ch.receiver && next.sent == ch.sent
          && next.released == ch.released
    requires next.handed == ch.handed
    requires next.dataNet <= ch.dataNet && next.ackNet <= ch.ackNet
    ensures StreamsInv(next)
  {
    assert forall k, p :: Numbered(ch, k, p) <==> Numbered(next, k, p);
  }

  lemma ReceiveKeepsInbox(ch: Channel, filter: Option<Byte>, capacity: nat)
    requires InboxInv(ch) && ch.receiver.nextExpected >= 1
    ensures InboxInv(Apply(ch, AppReceive(filter, capacity)))
  {
    var i := FirstOnChannel(ch.inbox.queue, filter);
    if i < |ch.inbox.queue| {
      var next := Apply(ch, AppReceive(filter, capacity));
      TotalWithout(ch.inbox.queue, i);
      SlotsWithout(ch, i);
      SlotsFrame(ch, next, next.origin, next.inbox.queue);
      FirstOfOurs(ch, filter, i);
      TakenGrows(ch.taken, ch.origin[i], Ours(next.origin));
    }
  }

  lemma TakenGrows(taken: seq<nat>, k: nat, rest: seq<nat>)
    ensures taken + ([k] + rest) == (taken + [k]) + rest
  {
  }

  lemma SlotsWithout(ch: Channel, i: nat)
    requires InboxInv(ch) && i < |ch.origin|
    ensures Slots(ch, ch.origin[..i] + ch.origin[i + 1..], ch.inbox.queue[..i] + ch.inbox.queue[i + 1..])
  {
  }

  lemma ReceiveKeepsReads(ch: Channel, filter: Option<Byte>, capacity: nat)
    requires InboxInv(ch) && ReadsInv(ch) && ch.receiver.nextExpected >= 1
    ensures ReadsInv(Apply(ch, AppReceive(filter, capacity)))
  {
    var i := FirstOnChannel(ch.inbox.queue, filter);
    if i < |ch.inbox.queue| && ch.origin[i] != 0 {
      assert IsSlot(ch, ch.origin[i], ch.inbox.queue[i]);
      ReadingGrows(ch.readings, ch.readAs, ch.taken, ch.cleared, ch.sent,
                   AppRead(Cut(ch.inbox.queue[i].data, capacity), capacity), ch.origin[i]);
    }
  }

  lemma ReadingGrows(readings: seq<AppRead>, readAs: seq<nat>, taken: seq<nat>, cleared: seq<nat>, sent: seq<Bytes>,
                     r: AppRead, k: nat)
    requires ReadsOf(readings, readAs, sent) && IsSubsequence(readAs, taken)
    requires multiset(taken) == multiset(readAs) + multiset(cleared) && ReadOf(r, k, sent)
    ensures ReadsOf(readings + [r], readAs + [k], sent) && IsSubsequence(readAs + [k], taken + [k])
    ensures multiset(taken + [k]) == multiset(readAs + [k]) + multiset(cleared)
  {
    SubsequenceGrows(readAs, taken, k);
  }

  /** A channel filter takes the stream's packets in release order: when the packet taken
      is the stream's, it is the stream's oldest. */
  lemma FirstOfOurs(ch: Channel, filter: Option<Byte>, i: nat)
    requires InboxInv(ch) && i < |ch.inbox.queue| && i == FirstOnChannel(ch.inbox.queue, filter)
    ensures var rest := Ours(ch.origin[..i] + ch.origin[i + 1..]);
      Ours(ch.origin) == if ch.origin[i] == 0 then rest else [ch.origin[i]] + rest
  {
    if ch.origin[i] != 0 {
      assert IsSlot(ch, ch.origin[i], ch.inbox.queue[i]);
      forall j | 0 <= j < i ensures ch.origin[j] == 0 {
        if ch.origin[j] != 0 {
          assert IsSlot(ch, ch.origin[j], ch.inbox.queue[j]);
          assert OnChannel(ch.inbox.queue[j], filter);
        }
      }
    }
    OursWithout(ch.origin, i);
  }

  lemma OursOfParts(front: seq<nat>, k: nat, back: seq<nat>)
    ensures Ours(front + [k] + back) == Ours(front) + ((if k == 0 then [] else [k]) + Ours(back))
  {
    OursOfConcat(front + [k], back);
    OursOfConcat(front, [k]);
    OursOfOne(k);
    Regroup(Ours(front), Ours([k]), Ours(back));
  }

  lemma Regroup(a: seq<nat>, b: seq<nat>, c: seq<nat>)
    ensures (a + b) + c == a + (b + c)
  {
  }

  lemma NothingInFront(a: seq<nat>)
    ensures [] + a == a
  {
  }

  /** Taking out a slot takes its number out of the stream's; when nothing of the stream is
      in front of it, that number was the first. */
  lemma OursWithoutParts(front: seq<nat>, k: nat, back: seq<nat>)
    requires k != 0 ==> forall j :: 0 <= j < |front| ==> front[j] == 0
    ensures Ours(front + [k] + back) == if k == 0 then Ours(front + back) else [k] + Ours(front + back)
  {
    OursOfParts(front, k, back);
    OursOfConcat(front, back);
    NothingInFront(Ours(back));
    if k != 0 {
      OursOfNone(front);
      NothingInFront([k] + Ours(back));
    }
  }

  lemma OursWithout(origin: seq<nat>, i: nat)
    requires i < |origin|
    requires origin[i] != 0 ==> forall j :: 0 <= j < i ==> origin[j] == 0
    ensures var rest := Ours(origin[..i] + origin[i + 1..]);
      Ours(origin) == if origin[i] == 0 then rest else [origin[i]] + rest
  {
    SplitAt(origin, i);
    OursWithoutParts(origin[..i], origin[i], origin[i + 1..]);
  }

  lemma SplitAt(xs: seq<nat>, i: nat)
    requires i < |xs|
    ensures xs[..i] + [xs[i]] + xs[i + 1..] == xs
  {
  }

  lemma {:induction false} OursOfNone(origin: seq<nat>)
    requires forall j :: 0 <= j < |origin| ==> origin[j] == 0
    ensures Ours(origin) == []
  {
    if origin != [] { OursOfNone(origin[1..]); }
  }

  lemma OursOfOne(k: nat)
    ensures Ours([k]) == if k == 0 then [] else [k]
  {
    assert [k][1..] == [];
  }

  /** A clear keeps the pairing of slots and origins. */
  lemma {:induction false} ClearKeepsSlots(ch: Channel, queue: seq<Packet>, origin: seq<nat>, peer: Option<Bytes>,
                                           socket: Bytes)
    requires Slots(ch, origin, queue)
    ensures var left := UnclearedOrigin(queue, origin, peer, socket);
      && Slots(ch, left, Uncleared(queue, peer, socket))
      && Ours(left) == if Cleared(OursExample(ch), peer, socket) then [] else Ours(origin)
  {
    if queue != [] {
      assert Slots(ch, origin[1..], queue[1..]);
      ClearKeepsSlots(ch, queue[1..], origin[1..], peer, socket);
      if origin[0] != 0 {
        assert IsSlot(ch, origin[0], queue[0]);
      }
      ClearOne(ch, queue[0], origin[0], Uncleared(queue[1..], peer, socket),
               UnclearedOrigin(queue[1..], origin[1..], peer, socket), Cleared(queue[0], peer, socket));
    }
  }

  lemma ClearOne(ch: Channel, p: Packet, k: nat, queue: seq<Packet>, origin: seq<nat>, clear: bool)
    requires Slots(ch, origin, queue) && (k != 0 ==> IsSlot(ch, k, p))
    ensures var keep, left := (if clear then [] else [p]) + queue, (if clear then [] else [k]) + origin;
      && Slots(ch, left, keep)
      && Ours(left) == (if clear || k == 0 then [] else [k]) + Ours(origin)
  {
    if clear {
      assert [] + queue == queue && [] + origin == origin && [] + Ours(origin) == Ours(origin);
    } else {
      OursOfConcat([k], origin);
      OursOfOne(k);
      SlotsCons(ch, p, k, queue, origin);
    }
  }

  lemma SlotsCons(ch: Channel, p: Packet, k: nat, queue: seq<Packet>, origin: seq<nat>)
    requires Slots(ch, origin, queue) && (k != 0 ==> IsSlot(ch, k, p))
    ensures Slots(ch, [k] + origin, [p] + queue)
  {
  }

  ghost function OursExample(ch: Channel): Packet {
    Packet(ch.receiver.source.peer, ch.receiver.source.socket, ch.receiver.source.channel, [])
  }

  lemma ClearKeepsInv(ch: Channel, peer: Option<Bytes>, socket: Bytes)
    requires Inv(ch)
    ensures Inv(Apply(ch, AppClear(peer, socket)))
  {
    var next := Apply(ch, AppClear(peer, socket));
    StreamsFrame(ch, next);
    ClearKeepsSlots(ch, ch.inbox.queue, ch.origin, peer, socket);
    SlotsFrame(ch, next, next.origin, next.inbox.queue);
    SubsequenceOfFront(ch.readAs, ch.taken, Ours(ch.origin));
  }

  lemma OtherTrafficKeepsInv(ch: Channel, p: Packet)
    requires Inv(ch)
    ensures Inv(Apply(ch, OtherTraffic(p)))
  {
    var next := Apply(ch, OtherTraffic(p));
    StreamsFrame(ch, next);
    if ch.inbox.HasRoom(|p.data|) { OtherTrafficKeepsInbox(ch, next, p); }
  }

  lemma OtherTrafficKeepsInbox(ch: Channel, next: Channel, p: Packet)
    requires InboxInv(ch) && ch.inbox.HasRoom(|p.data|)
    requires next == ch.(inbox := ch.inbox.Enqueue(p), origin := ch.origin + [0])
    ensures InboxInv(next)
  {
    EnqueueKeepsAccount(ch.inbox, p);
    OursOfConcat(ch.origin, [0]);
    OursOfOne(0);
    assert Ours(ch.origin) + [] == Ours(ch.origin);
    SlotsFrame(ch, next, ch.origin, ch.inbox.queue);
  }

  lemma StepKeepsInv(ch: Channel, step: Step)
    requires Inv(ch) && Possible(ch, step) && InReach(ch, step)
    ensures Inv(Apply(ch, step))
  {
    match step
    case Send(data, now) => SendKeepsInv(ch, data, now);
    case DeliverData(m) => DeliverDataKeepsInv(ch, m);
    case DeliverAck(a, now) => AckErasesOnlyReceived(ch, a, now);
    case LoseData(_) => QuietKeepsInv(ch, step);
    case LoseAck(_) => QuietKeepsInv(ch, step);
    case Pump(now) => PumpKeepsInv(ch, now);
    case Drain => DrainKeepsInv(ch);
    case AppReceive(filter, capacity) => ReceiveKeepsInv(ch, filter, capacity);
    case AppClear(peer, socket) => ClearKeepsInv(ch, peer, socket);
    case OtherTraffic(p) => OtherTrafficKeepsInv(ch, p);
    case SetLimit(_) => QuietKeepsInv(ch, step);
  }

  lemma QuietKeepsInv(ch: Channel, step: Step)
    requires Inv(ch) && (step.LoseData? || step.LoseAck? || step.SetLimit?)
    ensures Inv(Apply(ch, step))
  {
    var next := Apply(ch, step);
    StreamsFrame(ch, next);
    SlotsFrame(ch, next, next.origin, next.inbox.queue);
  }

  // ---- every run -----------------------------------------------------------

  /** `run` is the sequence of states that `steps` produces. */
  ghost predicate IsRun(run: seq<Channel>, steps: seq<Step>) {
    && |run| == |steps| + 1 && Initial(run[0])
    && forall i :: 0 <= i < |steps| ==>
         Possible(run[i], steps[i]) && run[i].receiver.nextExpected >= 1 && run[i + 1] == Apply(run[i], steps[i])
  }

  ghost predicate StaysInReach(run: seq<Channel>, steps: seq<Step>) {
    |run| == |steps| + 1 && forall i :: 0 <= i < |steps| ==> InReach(run[i], steps[i])
  }

  lemma {:induction false} RunKeepsInv(run: seq<Channel>, steps: seq<Step>, n: nat)
    requires IsRun(run, steps) && StaysInReach(run, steps) && n < |run|
    ensures Inv(run[n])
  {
    if n == 0 {
      assert Inv(run[0]);
    } else {
      RunKeepsInv(run, steps, n - 1);
      StepKeepsInv(run[n - 1], steps[n - 1]);
    }
  }

  /** The distance assumption needs no watching while fewer than 2^31 packets are sent. */
  lemma {:induction false} FewPacketsStayInReach(run: seq<Channel>, steps: seq<Step>, n: nat)
    requires IsRun(run, steps) && n < |run|
    requires forall i :: 0 <= i < |run| ==> |run[i].sent| < TWO_31
    ensures Inv(run[n])
    ensures n < |steps| ==> InReach(run[n], steps[n])
  {
    if n == 0 {
      assert Inv(run[0]);
    } else {
      FewPacketsStayInReach(run, steps, n - 1);
      StepKeepsInv(run[n - 1], steps[n - 1]);
    }
    if n < |steps| {
      SmallNumbersInReach(run[n], steps[n]);
    }
  }

  lemma SmallNumbersInReach(ch: Channel, step: Step)
    requires Inv(ch) && Possible(ch, step) && |ch.sent| < TWO_31
    ensures InReach(ch, step)
  {
    var r := ch.receiver;
    assert r.nextExpected <= |ch.sent| + 1 by {
      if r.nextExpected > 1 { assert Has(r, r.nextExpected - 1); }
    }
    if step.DeliverData? {
      assert Numbered(ch, step.m.number, step.m.payload);
    }
    if step.DeliverAck? && step.a.upTo >= 1 {
      assert AckCovers(step.a, step.a.upTo);
    }
  }

  // ---- what every run guarantees -------------------------------------------

  /** Ordered delivery: at every moment the payloads enqueued into the inbox are a prefix
      of the payloads sent. */
  lemma OrderedDeliversPrefix(run: seq<Channel>, steps: seq<Step>, n: nat)
    requires IsRun(run, steps) && StaysInReach(run, steps) && n < |run| && run[n].receiver.ordered
    ensures |run[n].released| <= |run[n].sent|
    ensures forall i :: 0 <= i < |run[n].released| ==> run[n].released[i] == i + 1
    ensures |run[n].handed| == |run[n].released| && run[n].handed <= run[n].sent
  {
    RunKeepsInv(run, steps, n);
    ReleasedInSequence(run[n]);
  }

  lemma ReleasedInSequence(ch: Channel)
    requires StreamsInv(ch) && ch.receiver.ordered
    ensures |ch.released| <= |ch.sent|
    ensures forall i :: 0 <= i < |ch.released| ==> ch.released[i] == i + 1
    ensures |ch.handed| == |ch.released| && ch.handed <= ch.sent
  {
    if |ch.released| > 0 {
      assert ch.released[|ch.released| - 1] in ch.released;
      assert Has(ch.receiver, |ch.released|);
    }
    assert forall i :: 0 <= i < |ch.released| ==> Numbered(ch, ch.released[i], ch.handed[i]);
  }

  /** Whatever the application reads and clears, on either kind of stream: each packet it has
      read was sent, cut to the buffer it offered; none is read twice, and they come in the
      order in which the stream released them, which for an ordered stream is that of
      sending. What was released is read, cleared, or still queued, each once. */
  lemma ReadsAreSentOnce(run: seq<Channel>, steps: seq<Step>, n: nat)
    requires IsRun(run, steps) && StaysInReach(run, steps) && n < |run|
    ensures |run[n].readings| == |run[n].readAs|
    ensures forall i :: 0 <= i < |run[n].readings| ==>
      var r, k := run[n].readings[i], run[n].readAs[i];
      && 1 <= k <= |run[n].sent| && r.data <= run[n].sent[k - 1]
      && |r.data| == if |run[n].sent[k - 1]| < r.capacity then |run[n].sent[k - 1]| else r.capacity
    ensures NoDuplicates(run[n].readAs) && IsSubsequence(run[n].readAs, run[n].released)
    ensures run[n].receiver.ordered ==> Increasing(run[n].readAs)
    ensures multiset(run[n].released)
          == multiset(run[n].readAs) + multiset(run[n].cleared) + multiset(Ours(run[n].origin))
  {
    RunKeepsInv(run, steps, n);
    var ch := run[n];
    assert forall i :: 0 <= i < |ch.readings| ==> ReadOf(ch.readings[i], ch.readAs[i], ch.sent);
    SubsequenceOfFront(ch.readAs, ch.taken, Ours(ch.origin));
    SubsequenceDistinct(ch.readAs, ch.released);
    if ch.receiver.ordered { SubsequenceIncreases(ch.readAs, ch.released); }
    assert multiset(ch.taken + Ours(ch.origin)) == multiset(ch.taken) + multiset(Ours(ch.origin));
  }

  ghost predicate Consecutive(numbers: seq<nat>) {
    forall i :: 0 <= i < |numbers| ==> numbers[i] == i + 1
  }

  /** What was read is exactly the first packets sent. */
  ghost predicate ReadsPrefix(readings: seq<AppRead>, readAs: seq<nat>, sent: seq<Bytes>) {
    && |readings| <= |sent| && |readAs| == |readings| && Consecutive(readAs)
    && forall i :: 0 <= i < |readings| ==>
         && readings[i].data <= sent[i]
         && |readings[i].data| == if |sent[i]| < readings[i].capacity then |sent[i]| else readings[i].capacity
  }

  /** No packet was read after a clear had thrown an older one away. */
  ghost predicate ClearedLast(readAs: seq<nat>, cleared: seq<nat>) {
    forall k, c :: k in readAs && c in cleared ==> k < c
  }

  /** What the application has read from an ordered stream is a prefix of what was sent, each
      payload whole whenever the buffer it offered was large enough, exactly when it has read
      nothing past packets it cleared. */
  lemma ApplicationReadsPrefix(run: seq<Channel>, steps: seq<Step>, n: nat)
    requires IsRun(run, steps) && StaysInReach(run, steps) && n < |run| && run[n].receiver.ordered
    ensures ReadsPrefix(run[n].readings, run[n].readAs, run[n].sent) <==> ClearedLast(run[n].readAs, run[n].cleared)
  {
    RunKeepsInv(run, steps, n);
    ReadsAreSentOnce(run, steps, n);
    ReleasedInSequence(run[n]);
    FrontInSequence(run[n].taken, Ours(run[n].origin), run[n].released);
    TakenInSequence(run[n].taken, run[n].readAs, run[n].cleared);
    NumbersTellReads(run[n].readings, run[n].readAs, run[n].sent);
  }

  /** With buffers large enough, an ordered stream is read as it was sent: the payloads read
      are the first payloads sent, whole. */
  lemma LargeBuffersReadWhole(run: seq<Channel>, steps: seq<Step>, n: nat)
    requires IsRun(run, steps) && StaysInReach(run, steps) && n < |run| && run[n].receiver.ordered
    requires ClearedLast(run[n].readAs, run[n].cleared)
    requires forall i :: 0 <= i < |run[n].readings| && i < |run[n].sent| ==>
      run[n].readings[i].capacity >= |run[n].sent[i]|
    ensures |run[n].readings| <= |run[n].sent|
    ensures seq(|run[n].readings|, i requires 0 <= i < |run[n].readings| => run[n].readings[i].data)
         == run[n].sent[..|run[n].readings|]
  {
    ApplicationReadsPrefix(run, steps, n);
    forall i | 0 <= i < |run[n].readings| ensures run[n].readings[i].data == run[n].sent[i] {
      WholePrefix(run[n].readings[i].data, run[n].sent[i]);
    }
  }

  lemma WholePrefix(data: Bytes, payload: Bytes)
    requires data <= payload && |data| == |payload|
    ensures data == payload
  {
  }

  lemma NumbersTellReads(readings: seq<AppRead>, readAs: seq<nat>, sent: seq<Bytes>)
    requires ReadsOf(readings, readAs, sent) && |readAs| <= |sent|
    ensures ReadsPrefix(readings, readAs, sent) <==> Consecutive(readAs)
  {
    if Consecutive(readAs) {
      forall i | 0 <= i < |readings| ensures ReadOf(readings[i], i + 1, sent) {
        assert ReadOf(readings[i], readAs[i], sent);
      }
    }
  }

  /** 1, 2, ... split into an increasing part and the rest: the part is an initial piece
      exactly when nothing of the rest is below any of it. */
  lemma TakenInSequence(taken: seq<nat>, part: seq<nat>, rest: seq<nat>)
    requires Consecutive(taken) && Increasing(part) && multiset(taken) == multiset(part) + multiset(rest)
    ensures |part| <= |taken|
    ensures Consecutive(part) <==> ClearedLast(part, rest)
  {
    assert |multiset(taken)| == |taken| && |multiset(part)| == |part|;
    forall k: nat ensures (k in part || k in rest) <==> 1 <= k <= |taken| {
      SplitsInto(taken, part, rest, k);
      if 1 <= k <= |taken| { assert taken[k - 1] == k; }
    }
    forall c | c in part ensures c !in rest { TakenOnce(taken, c); }
    if ClearedLast(part, rest) {
      forall i | 0 <= i < |part| ensures part[i] == i + 1 { NoGap(part, rest, |taken|, i); }
    }
    if Consecutive(part) {
      HasInitial(part);
      assert forall k :: k in part ==> k <= |part|;
    }
  }

  lemma HasInitial(part: seq<nat>)
    requires Consecutive(part)
    ensures forall c: nat :: 1 <= c <= |part| ==> c in part
  {
    forall c: nat | 1 <= c <= |part| ensures c in part { assert part[c - 1] == c; }
  }

  lemma SplitsInto(all: seq<nat>, part: seq<nat>, rest: seq<nat>, k: nat)
    requires multiset(all) == multiset(part) + multiset(rest)
    ensures k in all <==> k in part || k in rest
  {
    assert k in all <==> k in multiset(all);
  }

  lemma {:induction false} TakenOnce(taken: seq<nat>, k: nat)
    requires NoDuplicates(taken)
    ensures multiset(taken)[k] <= 1
  {
    if taken != [] {
      var init, last := taken[..|taken| - 1], taken[|taken| - 1];
      TakenOnce(init, k);
      assert taken == init + [last];
      if k == last { assert k !in init; }
    }
  }

  lemma {:induction false} NoGap(part: seq<nat>, rest: seq<nat>, n: nat, i: nat)
    requires Increasing(part) && i < |part|
    requires forall k: nat :: (k in part || k in rest) <==> 1 <= k <= n
    requires ClearedLast(part, rest)
    ensures part[i] == i + 1
  {
    if i > 0 { NoGap(part, rest, n, i - 1); }
    assert part[i] in part && part[i] >= i + 1;
    assert part[i] > i + 1 ==> i + 1 in part;
    assert forall j :: 0 <= j < |part| && part[j] == i + 1 ==> j <= i;
  }

  lemma FrontInSequence(taken: seq<nat>, rest: seq<nat>, released: seq<nat>)
    requires taken + rest == released && Consecutive(released)
    ensures |taken| <= |released| && Consecutive(taken)
  {
    assert forall i :: 0 <= i < |taken| ==> released[i] == taken[i];
  }

  /** At most once, on either kind of stream: no number is released twice, none that was not
      sent, and each with the payload sent under it. */
  lemma DeliversAtMostOnce(run: seq<Channel>, steps: seq<Step>, n: nat)
    requires IsRun(run, steps) && StaysInReach(run, steps) && n < |run|
    ensures NoDuplicates(run[n].released)
    ensures forall k :: k in run[n].released ==> 1 <= k <= |run[n].sent|
    ensures |run[n].handed| == |run[n].released|
    ensures forall i :: 0 <= i < |run[n].released| ==>
              1 <= run[n].released[i] <= |run[n].sent| && run[n].handed[i] == run[n].sent[run[n].released[i] - 1]
    ensures run[n].taken <= run[n].released
  {
    RunKeepsInv(run, steps, n);
    var ch := run[n];
    forall k | k in ch.released ensures 1 <= k <= |ch.sent| {
      assert Has(ch.receiver, k);
    }
    assert forall i :: 0 <= i < |ch.released| ==> Numbered(ch, ch.released[i], ch.handed[i]);
  }

  /** Nothing is lost: once every packet is acknowledged, each one sent has been released
      or waits in the receive buffer with its payload intact. */
  lemma AcknowledgedIsDelivered(run: seq<Channel>, steps: seq<Step>, n: nat, k: nat)
    requires IsRun(run, steps) && StaysInReach(run, steps) && n < |run|
    requires 1 <= k <= |run[n].sent| && k !in run[n].sender.pending
    ensures (k in run[n].released) != (k in run[n].receiver.buffer)
    ensures k in run[n].receiver.buffer ==> run[n].receiver.buffer[k] == run[n].sent[k - 1]
  {
    RunKeepsInv(run, steps, n);
    assert Has(run[n].receiver, k);
    if k in run[n].receiver.buffer {
      assert Numbered(run[n], k, run[n].receiver.buffer[k]);
    }
  }

  /** Completion: with nothing pending, one drain into an unlimited inbox has released
      everything that was ever sent, in order on an ordered stream. */
  lemma QuiescentDeliversAll(run: seq<Channel>, steps: seq<Step>, n: nat)
    requires IsRun(run, steps) && StaysInReach(run, steps) && n < |run|
    requires run[n].sender.pending.Keys == {} && run[n].inbox.limit == 0
    ensures var done := AfterDrain(run[n]);
      && done.receiver.buffer.Keys == {}
      && (forall k: nat :: k in done.released <==> 1 <= k <= |run[n].sent|)
      && (done.receiver.ordered ==> done.released == seq(|run[n].sent|, i => i + 1) && done.handed == run[n].sent)
  {
    RunKeepsInv(run, steps, n);
    var ch := run[n];
    DrainKeepsInv(ch);
    DrainStops(ch.receiver, ch.inbox);
    DrainKeepsForm(ch.receiver, ch.inbox);
    assert forall k: nat :: k !in ch.sender.pending.Keys;
    DrainedIsComplete(AfterDrain(ch));
    InSequenceIsWhole(AfterDrain(ch));
  }

  lemma InSequenceIsWhole(ch: Channel)
    requires HandedInv(ch)
    ensures ch.released == seq(|ch.sent|, i => i + 1) ==> ch.handed == ch.sent
  {
    assert forall i :: 0 <= i < |ch.released| ==> Numbered(ch, ch.released[i], ch.handed[i]);
  }

  lemma DrainedIsComplete(ch: Channel)
    requires Inv(ch) && forall k: nat :: 1 <= k <= |ch.sent| ==> Has(ch.receiver, k)
    requires if ch.receiver.ordered then ch.receiver.nextToDeliver == ch.receiver.nextExpected
             else ch.receiver.buffer.Keys == {}
    ensures ch.receiver.buffer.Keys == {}
    ensures forall k: nat :: k in ch.released <==> 1 <= k <= |ch.sent|
    ensures ch.receiver.ordered ==> ch.released == seq(|ch.sent|, i => i + 1)
  {
    var r := ch.receiver;
    if r.ordered {
      assert !Has(r, r.nextExpected);
      assert r.nextExpected == |ch.sent| + 1 by {
        if r.nextExpected > 1 { assert Has(r, r.nextExpected - 1); }
      }
      assert forall k :: k in r.buffer ==> Has(r, k) && r.nextToDeliver <= k;
      assert forall k :: k !in r.buffer;
    }
    assert forall k :: k in r.buffer.Keys <==> k in r.buffer;
  }
}
