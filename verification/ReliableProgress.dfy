/** Recovery: from every reachable state of a reliable stream, whatever was lost, the two ends
    and the network can still finish, by pumps, deliveries, drains and reads alone. */
module ReliableProgress {
  import opened Basics
  import opened Inbox
  import opened RecvStream
  import opened SendStream
  import opened ReliableChannel
  import SeqExtension

  /** The steps that move packets along: nothing new is sent, nothing cleared, no limit
      changed. */
  ghost predicate Forwards(step: Step) {
    step.Pump? || step.DeliverData? || step.DeliverAck? || step.Drain? || step.AppReceive?
  }

  ghost predicate Takes(ch: Channel, step: Step, next: Channel) {
    Forwards(step) && Possible(ch, step) && ch.receiver.nextExpected >= 1 && next == Apply(ch, step)
  }

  ghost predicate IsPath(run: seq<Channel>, steps: seq<Step>, from: Channel, to: Channel) {
    && |run| == |steps| + 1 && run[0] == from && run[|steps|] == to
    && forall i :: 0 <= i < |steps| ==> Takes(run[i], steps[i], run[i + 1])
  }

  /** Some continuation by such steps. */
  ghost predicate LeadsTo(from: Channel, to: Channel) {
    exists run, steps :: IsPath(run, steps, from, to)
  }

  lemma LeadsNowhere(ch: Channel)
    ensures LeadsTo(ch, ch)
  {
    assert IsPath([ch], [], ch, ch);
  }

  lemma LeadsOn(from: Channel, mid: Channel, step: Step, to: Channel)
    requires LeadsTo(from, mid) && Takes(mid, step, to)
    ensures LeadsTo(from, to)
  {
    var run, steps :| IsPath(run, steps, from, mid);
    var longer, more := run + [to], steps + [step];
    forall i | 0 <= i < |more| ensures Takes(longer[i], more[i], longer[i + 1]) {
      if i < |steps| { assert Takes(run[i], steps[i], run[i + 1]); }
    }
    assert IsPath(longer, more, from, to);
  }

  /** What every state on the way has: the invariant, the same packets sent, the same room,
      and nothing more cleared. */
  ghost predicate OnTheWay(from: Channel, ch: Channel) {
    && LeadsTo(from, ch) && Inv(ch)
    && ch.sent == from.sent && ch.inbox.limit == from.inbox.limit && ch.cleared == from.cleared
    && ch.receiver.ordered == from.receiver.ordered && from.released <= ch.released
  }

  lemma Onward(from: Channel, ch: Channel, step: Step)
    requires OnTheWay(from, ch) && Forwards(step) && Possible(ch, step) && |ch.sent| < TWO_31
    ensures OnTheWay(from, Apply(ch, step))
  {
    SmallNumbersInReach(ch, step);
    StepKeepsInv(ch, step);
    ForwardsKeeps(ch, step);
    LeadsOn(from, ch, step, Apply(ch, step));
  }

  lemma ForwardsKeeps(ch: Channel, step: Step)
    requires Inv(ch) && Forwards(step) && Possible(ch, step) && |ch.sent| < TWO_31
    ensures var next := Apply(ch, step);
      && next.sent == ch.sent && next.inbox.limit == ch.inbox.limit && next.cleared == ch.cleared
      && next.receiver.ordered == ch.receiver.ordered && ch.released <= next.released
  {
    match step
    case DeliverData(m) =>
      SmallNumbersInReach(ch, step);
      SeqExtension.Extend32Exact(ch.receiver.nextExpected, m.number);
      AcceptKeepsInv(ch, m.number, m.payload);
      DrainKeepsForm(Accept(ch.receiver, m.number, m.payload), ch.inbox);
      AcceptRecords(ch.receiver, m.number, m.payload);
    case Drain => DrainKeepsForm(ch.receiver, ch.inbox);
    case _ =>
  }

  // ---- one packet is acknowledged ----------------------------------------------------------

  /** A pump late enough sends a pending packet again. */
  lemma PumpResends(from: Channel, ch: Channel, k: nat) returns (next: Channel)
    requires OnTheWay(from, ch) && |ch.sent| < TWO_31 && k in ch.sender.pending
    ensures OnTheWay(from, next) && next.receiver == ch.receiver
    ensures next.sender.pending.Keys == ch.sender.pending.Keys
    ensures DataMsg(k, ch.sent[k - 1]) in next.dataNet
  {
    var u := ch.sender.pending[k];
    var now := u.lastSent + MAX_RTO as real;
    var step := Step.Pump(now);
    BackoffCapped(RtoFor(ch.sender.srtt, ch.sender.rttVar), u.tries);
    assert k in DueSet(ch.sender, now);
    assert Numbered(ch, k, u.payload);
    next := Apply(ch, step);
    Onward(from, ch, step);
  }

  /** Whatever arrives, duplicate or not, is answered with an acknowledgement of all that has
      been received: in particular of the lowest pending number. */
  lemma DeliveryIsAcked(from: Channel, ch: Channel, k: nat) returns (next: Channel, a: Ack)
    requires OnTheWay(from, ch) && |ch.sent| < TWO_31 && IsLeast(k, ch.sender.pending.Keys)
    requires DataMsg(k, ch.sent[k - 1]) in ch.dataNet
    ensures OnTheWay(from, next) && next.sender == ch.sender
    ensures a in next.ackNet && AckCovers(a, k)
  {
    var m := DataMsg(k, ch.sent[k - 1]);
    assert Numbered(ch, k, ch.sender.pending[k].payload);
    ExpectedIsSmall(ch);
    var step := DeliverData(m);
    SmallNumbersInReach(ch, step);
    next := DeliveryAnswers(ch, m);
    Onward(from, ch, step);
    a := AckOf(next.receiver);
    LeastIsCovered(ch, next.receiver, k);
  }

  /** All below the lowest pending number has been received. */
  lemma LeastIsCovered(ch: Channel, r: RecvState, k: nat)
    requires NothingLost(ch) && IsLeast(k, ch.sender.pending.Keys) && 1 <= k <= |ch.sent|
    requires WellFormed(r) && Has(r, k) && forall j: nat :: Has(ch.receiver, j) ==> Has(r, j)
    ensures AckCovers(AckOf(r), k)
  {
    forall j: nat | 1 <= j < k ensures Has(r, j) {
      assert j !in ch.sender.pending.Keys;
      assert Has(ch.receiver, j);
    }
    ReceivedFront(r, k);
    AckOfExact(r, k);
  }

  lemma ExpectedIsSmall(ch: Channel)
    requires Inv(ch)
    ensures ch.receiver.nextExpected <= |ch.sent| + 1
  {
    if ch.receiver.nextExpected > 1 { assert Has(ch.receiver, ch.receiver.nextExpected - 1); }
  }

  lemma DeliveryAnswers(ch: Channel, m: DataMsg) returns (next: Channel)
    requires Inv(ch) && Possible(ch, DeliverData(m)) && InReach(ch, DeliverData(m))
    ensures next == Apply(ch, DeliverData(m)) && next.sender == ch.sender && WellFormed(next.receiver)
    ensures AckOf(next.receiver) in next.ackNet && Has(next.receiver, m.number)
    ensures forall j: nat :: Has(ch.receiver, j) ==> Has(next.receiver, j)
  {
    SeqExtension.Extend32Exact(ch.receiver.nextExpected, m.number);
    var accepted := Accept(ch.receiver, m.number, m.payload);
    AcceptKeepsInv(ch, m.number, m.payload);
    AcceptedKeepsReceived(ch.receiver, accepted, m.number, m.payload);
    next := DrainedAnswer(ch.(receiver := accepted));
  }

  lemma AcceptedKeepsReceived(r: RecvState, accepted: RecvState, k: nat, payload: Bytes)
    requires WellFormed(r) && accepted == Accept(r, k, payload)
    ensures forall j: nat :: Has(r, j) ==> Has(accepted, j)
  {
    AcceptRecords(r, k, payload);
  }

  lemma DrainedAnswer(mid: Channel) returns (next: Channel)
    requires Inv(mid)
    ensures WellFormed(next.receiver)
    ensures var after := AfterDrain(mid);
      && after.receiver == next.receiver && next == after.(ackNet := after.ackNet + {AckOf(next.receiver)})
    ensures forall j: nat :: Has(mid.receiver, j) <==> Has(next.receiver, j)
  {
    DrainKeepsInv(mid);
    var after := AfterDrain(mid);
    next := after.(ackNet := after.ackNet + {AckOf(after.receiver)});
  }

  /** With everything up to k received, the watermark is past k. */
  lemma ReceivedFront(r: RecvState, k: nat)
    requires WellFormed(r) && forall j: nat :: 1 <= j <= k ==> Has(r, j)
    ensures k < r.nextExpected
  {
    assert !Has(r, r.nextExpected);
  }

  lemma AckErases(from: Channel, ch: Channel, a: Ack, k: nat) returns (next: Channel)
    requires OnTheWay(from, ch) && |ch.sent| < TWO_31 && a in ch.ackNet && AckCovers(a, k) && k in ch.sender.pending
    ensures OnTheWay(from, next) && next.sender.pending.Keys < ch.sender.pending.Keys
  {
    var step := DeliverAck(a, 0.0);
    SmallNumbersInReach(ch, step);
    next := Apply(ch, step);
    SeqExtension.Extend32Exact(ch.sender.nextSeq, a.upTo);
    AcknowledgeErases(ch.sender, a, 0.0);
    Onward(from, ch, step);
  }

  /** Everything pending gets acknowledged. */
  lemma {:induction false} AllAcked(from: Channel, ch: Channel) returns (next: Channel)
    requires OnTheWay(from, ch) && |ch.sent| < TWO_31
    ensures OnTheWay(from, next) && next.sender.pending.Keys == {}
    decreases ch.sender.pending.Keys
  {
    if ch.sender.pending.Keys == {} {
      next := ch;
    } else {
      var k := Least(ch.sender.pending.Keys);
      assert k in ch.sender.pending;
      var resent := PumpResends(from, ch, k);
      var answered, a := DeliveryIsAcked(from, resent, k);
      var erased := AckErases(from, answered, a, k);
      next := AllAcked(from, erased);
    }
  }

  // ---- everything is released and read -----------------------------------------------------

  /** The application reads whatever is queued. */
  lemma {:induction false} AllRead(from: Channel, ch: Channel, capacity: nat) returns (next: Channel)
    requires OnTheWay(from, ch) && |ch.sent| < TWO_31
    ensures OnTheWay(from, next) && next.inbox.queue == [] && next.sender == ch.sender && next.receiver == ch.receiver
    decreases |ch.inbox.queue|
  {
    if ch.inbox.queue == [] {
      next := ch;
    } else {
      var step := AppReceive(None, capacity);
      Onward(from, ch, step);
      next := AllRead(from, Apply(ch, step), capacity);
    }
  }

  /** Every packet still to be released fits into an empty inbox. */
  ghost predicate Fits(ch: Channel) {
    ch.inbox.limit == 0 || forall k :: k in ch.receiver.buffer ==> |ch.receiver.buffer[k]| <= ch.inbox.limit
  }

  lemma DrainReleases(r: RecvState, box: InboxState)
    requires WellFormed(r) && box.queue == [] && box.Accounted() && NextRelease(r).Some?
    requires box.limit == 0 || |r.buffer[NextRelease(r).value]| <= box.limit
    ensures RecvStream.Drain(r, box).stream.buffer.Keys < r.buffer.Keys
  {
    var k := NextRelease(r).value;
    var d := RecvStream.Drain(Release(r, k), box.Enqueue(PacketFor(r, k)));
    DrainMoves(Release(r, k), box.Enqueue(PacketFor(r, k)));
    assert k !in d.stream.buffer;
    assert RecvStream.Drain(r, box).stream == d.stream;
    assert forall j :: j in d.stream.buffer.Keys ==> j in r.buffer.Keys;
    assert k in r.buffer.Keys && k !in d.stream.buffer.Keys;
  }

  /** With everything received, something can be released as long as something is buffered. */
  lemma SomethingNext(ch: Channel)
    requires Inv(ch) && ch.sender.pending.Keys == {} && ch.receiver.buffer.Keys != {}
    ensures NextRelease(ch.receiver).Some?
  {
    var r := ch.receiver;
    if r.ordered {
      var k :| k in r.buffer;
      assert Has(r, k) && r.nextToDeliver <= k;
      assert k <= |ch.sent|;
      assert r.nextToDeliver !in ch.sender.pending.Keys;
      assert Has(r, r.nextToDeliver);
    }
  }

  lemma DrainKeepsFit(ch: Channel)
    requires Inv(ch) && Fits(ch)
    ensures Fits(AfterDrain(ch))
  {
    DrainMoves(ch.receiver, ch.inbox);
    DrainKeepsForm(ch.receiver, ch.inbox);
  }

  /** Reading makes room and draining fills it, until nothing is buffered or queued. */
  lemma {:induction false} AllReleased(from: Channel, ch: Channel, capacity: nat) returns (next: Channel)
    requires OnTheWay(from, ch) && |ch.sent| < TWO_31 && ch.sender.pending.Keys == {} && Fits(ch)
    ensures OnTheWay(from, next) && next.sender.pending.Keys == {}
    ensures next.receiver.buffer.Keys == {} && next.inbox.queue == []
    decreases ch.receiver.buffer.Keys
  {
    var read := AllRead(from, ch, capacity);
    if ch.receiver.buffer.Keys == {} {
      next := read;
    } else {
      SomethingNext(read);
      DrainReleases(read.receiver, read.inbox);
      DrainKeepsFit(read);
      Onward(from, read, Step.Drain);
      next := AllReleased(from, Apply(read, Step.Drain), capacity);
    }
  }

  /** Each packet not released yet fits into the inbox. */
  ghost predicate FitsAll(ch: Channel) {
    forall k: nat :: 1 <= k <= |ch.sent| && k !in ch.released ==> FitsOne(ch, k)
  }

  ghost predicate FitsOne(ch: Channel, k: nat)
    requires 1 <= k <= |ch.sent|
  {
    ch.inbox.limit == 0 || |ch.sent[k - 1]| <= ch.inbox.limit
  }

  lemma BufferedFits(from: Channel, ch: Channel)
    requires OnTheWay(from, ch) && FitsAll(from)
    ensures Fits(ch)
  {
    forall k | k in ch.receiver.buffer ensures ch.inbox.limit == 0 || |ch.receiver.buffer[k]| <= ch.inbox.limit {
      assert Numbered(ch, k, ch.receiver.buffer[k]);
      assert Has(ch.receiver, k) && k !in ch.released;
      assert FitsOne(from, k);
    }
  }

  /** Nothing is left to do: all is acknowledged and released, in order on an ordered stream,
      and the application has read, each once, all that it did not clear. */
  ghost predicate Finished(from: Channel, done: Channel) {
    && done.sent == from.sent && done.sender.pending.Keys == {}
    && (forall k: nat :: k in done.released <==> 1 <= k <= |from.sent|)
    && (done.receiver.ordered ==> done.handed == from.sent)
    && multiset(done.released) == multiset(done.readAs) + multiset(from.cleared)
  }

  lemma EmptyIsFinished(from: Channel, ch: Channel)
    requires OnTheWay(from, ch) && ch.sender.pending.Keys == {} && ch.receiver.buffer.Keys == {} && ch.inbox.queue == []
    ensures Finished(from, ch)
  {
    forall k: nat ensures k in ch.released <==> 1 <= k <= |ch.sent| {
      assert k !in ch.sender.pending.Keys && k !in ch.receiver.buffer.Keys;
      assert Has(ch.receiver, k) <==> k in ch.released;
    }
    assert ch.origin == [] && ch.taken + [] == ch.taken;
    if ch.receiver.ordered {
      ReleasedInSequence(ch);
      AllInSequence(ch.released, |ch.sent|);
    }
  }

  lemma AllInSequence(released: seq<nat>, n: nat)
    requires forall i :: 0 <= i < |released| ==> released[i] == i + 1
    requires forall k: nat :: k in released <==> 1 <= k <= n
    ensures |released| == n
  {
    if |released| > 0 { assert released[|released| - 1] in released; }
    if n > 0 { assert n in released; var i :| 0 <= i < |released| && released[i] == n; }
  }

  lemma Recovers(from: Channel, capacity: nat) returns (done: Channel)
    requires Inv(from) && |from.sent| < TWO_31 && FitsAll(from)
    ensures LeadsTo(from, done) && Finished(from, done)
  {
    LeadsNowhere(from);
    var acked := AllAcked(from, from);
    BufferedFits(from, acked);
    done := AllReleased(from, acked, capacity);
    EmptyIsFinished(from, done);
  }

  // ---- a packet that does not fit stays ----------------------------------------------------

  lemma {:induction false} DrainReleasesFitting(r: RecvState, box: InboxState, k: nat)
    requires k in RecvStream.Drain(r, box).released && box.limit != 0
    ensures k in r.buffer && |r.buffer[k]| <= box.limit
    decreases |r.buffer|
  {
    var j := NextRelease(r).value;
    SmallerBuffer(r.buffer, j);
    if k != j { DrainReleasesFitting(Release(r, j), box.Enqueue(PacketFor(r, j)), k); }
  }

  lemma AfterDrainReleasesFitting(ch: Channel, k: nat)
    requires Inv(ch) && 1 <= k <= |ch.sent| && !FitsOne(ch, k) && k !in ch.released
    ensures k !in AfterDrain(ch).released
  {
    var d := RecvStream.Drain(ch.receiver, ch.inbox);
    forall j | j in d.released ensures 1 <= j <= |ch.sent| && FitsOne(ch, j) {
      DrainMoves(ch.receiver, ch.inbox);
      assert j in Elements(d.released);
      assert Numbered(ch, j, ch.receiver.buffer[j]);
      if ch.inbox.limit != 0 { DrainReleasesFitting(ch.receiver, ch.inbox, j); }
    }
  }

  lemma OversizedStepStays(ch: Channel, step: Step, k: nat)
    requires Inv(ch) && Forwards(step) && Possible(ch, step) && |ch.sent| < TWO_31
    requires 1 <= k <= |ch.sent| && !FitsOne(ch, k) && k !in ch.released
    ensures k !in Apply(ch, step).released
  {
    match step
    case DeliverData(m) =>
      SmallNumbersInReach(ch, step);
      SeqExtension.Extend32Exact(ch.receiver.nextExpected, m.number);
      AcceptKeepsInv(ch, m.number, m.payload);
      AfterDrainReleasesFitting(ch.(receiver := Accept(ch.receiver, m.number, m.payload)), k);
    case Drain => AfterDrainReleasesFitting(ch, k);
    case _ =>
  }

  ghost predicate Stuck(from: Channel, ch: Channel, k: nat) {
    Inv(ch) && ch.sent == from.sent && ch.inbox.limit == from.inbox.limit && k !in ch.released
  }

  lemma StuckStep(from: Channel, ch: Channel, step: Step, next: Channel, k: nat)
    requires |from.sent| < TWO_31 && 1 <= k <= |from.sent| && !FitsOne(from, k)
    requires Stuck(from, ch, k) && Takes(ch, step, next)
    ensures Stuck(from, next, k)
  {
    SmallNumbersInReach(ch, step);
    StepKeepsInv(ch, step);
    ForwardsKeeps(ch, step);
    OversizedStepStays(ch, step, k);
  }

  lemma {:induction false} OversizedStays(run: seq<Channel>, steps: seq<Step>, from: Channel, to: Channel, k: nat,
                                          i: nat)
    requires IsPath(run, steps, from, to) && i < |run|
    requires |from.sent| < TWO_31 && 1 <= k <= |from.sent| && !FitsOne(from, k) && Stuck(from, from, k)
    ensures Stuck(from, run[i], k)
  {
    if i > 0 {
      OversizedStays(run, steps, from, to, k, i - 1);
      StuckStep(from, run[i - 1], steps[i - 1], run[i], k);
    }
  }

  /** From every reachable state, whatever the network lost: some continuation of pumps,
      deliveries, drains and reads acknowledges every packet sent, releases each of them, and
      hands the application all that it has not cleared, exactly if each packet not released
      yet fits into the inbox. */
  lemma RecoveryExactly(run: seq<Channel>, steps: seq<Step>, n: nat)
    requires IsRun(run, steps) && StaysInReach(run, steps) && n < |run| && |run[n].sent| < TWO_31
    ensures (exists done :: LeadsTo(run[n], done) && Finished(run[n], done)) <==> FitsAll(run[n])
  {
    RunKeepsInv(run, steps, n);
    var from := run[n];
    if FitsAll(from) {
      var done := Recovers(from, 0);
    } else {
      var k: nat :| 1 <= k <= |from.sent| && k !in from.released && !FitsOne(from, k);
      forall done | LeadsTo(from, done) ensures !Finished(from, done) {
        var path, taken :| IsPath(path, taken, from, done);
        OversizedStays(path, taken, from, done, k, |taken|);
      }
    }
  }
}
