/** The sending half of one reliable stream: numbering, acknowledgement, round-trip
    estimation and timed retransmission. Times are milliseconds; the estimator's
    doubles are modelled as reals. */
module SendStream {
  import opened Basics
  import opened RecvStream
  import SeqExtension

  const INITIAL_RTO: int := 50
  const MIN_RTO: int := 10
  const MAX_RTO: int := 500
  const MAX_TRANSMITS: nat := 16

  datatype Unacked = Unacked(payload: Bytes, firstSent: real, lastSent: real, tries: nat)

  /** A negative `srtt` means no round trip has been sampled. */
  datatype SendState = SendState(nextSeq: nat, pending: map<nat, Unacked>, srtt: real, rttVar: real)

  const FRESH_SENDER := SendState(1, map[], -1.0, 0.0)

  // ---- sending and acknowledgement ----------------------------------------

  ghost function Enqueue(s: SendState, payload: Bytes, now: real): SendState {
    s.(nextSeq := s.nextSeq + 1,
       pending := s.pending[s.nextSeq := Unacked(payload, now, now, 1)])
  }

  function AbsReal(x: real): real {
    if x < 0.0 then -x else x
  }

  /** Karn's rule: only a packet sent exactly once gives a sample. */
  ghost function Sample(s: SendState, u: Unacked, now: real): SendState {
    if u.tries != 1 then s
    else
      var rtt := now - u.firstSent;
      if s.srtt < 0.0 then
        s.(srtt := rtt, rttVar := rtt / 2.0)
      else
        s.(rttVar := 0.75 * s.rttVar + 0.25 * AbsReal(s.srtt - rtt),
           srtt := 0.875 * s.srtt + 0.125 * rtt)
  }

  ghost function Erase(s: SendState, k: nat, now: real): SendState
    requires k in s.pending
  {
    Sample(s, s.pending[k], now).(pending := s.pending - {k})
  }

  ghost function AckUpTo(s: SendState, upTo: nat, now: real): SendState
    decreases |s.pending|
  {
    if s.pending.Keys == {} || Least(s.pending.Keys) > upTo then s
    else
      var k := Least(s.pending.Keys);
      FewerPending(s.pending, k);
      AckUpTo(Erase(s, k, now), upTo, now)
  }

  lemma FewerPending(m: map<nat, Unacked>, k: nat)
    requires k in m
    ensures |m - {k}| < |m|
  {
    assert (m - {k}).Keys == m.Keys - {k};
    assert |m - {k}| == |(m - {k}).Keys|;
    assert |m| == |m.Keys|;
  }

  ghost function AckSelected(s: SendState, a: Ack, i: nat, now: real): SendState
    requires i <= 32
    decreases 32 - i
  {
    if i == 32 then s
    else if a.sack[i] && (a.upTo + 2 + i) in s.pending then
      AckSelected(Erase(s, a.upTo + 2 + i, now), a, i + 1, now)
    else
      AckSelected(s, a, i + 1, now)
  }

  ghost function Acknowledge(s: SendState, a: Ack, now: real): SendState {
    AckSelected(AckUpTo(s, a.upTo, now), a, 0, now)
  }

  /** An acknowledgement erases exactly the pending numbers it covers. */
  lemma AcknowledgeErases(s: SendState, a: Ack, now: real)
    ensures var n := Acknowledge(s, a, now);
      && n.nextSeq == s.nextSeq
      && n.pending == map k | k in s.pending && !AckCovers(a, k) :: s.pending[k]
  {
    AckUpToErases(s, a.upTo, now);
    AckSelectedErases(AckUpTo(s, a.upTo, now), a, 0, now);
    CoversUpToOrSelected(s.pending, a);
  }

  lemma CoversUpToOrSelected(pending: map<nat, Unacked>, a: Ack)
    ensures var later := map k | k in pending && a.upTo < k :: pending[k];
      (map k | k in later && !(a.upTo + 2 <= k < a.upTo + 34 && a.sack[k - a.upTo - 2]) :: later[k])
      == map k | k in pending && !AckCovers(a, k) :: pending[k]
  {
  }

  lemma {:induction false} AckUpToErases(s: SendState, upTo: nat, now: real)
    ensures var n := AckUpTo(s, upTo, now);
      && n.nextSeq == s.nextSeq
      && n.pending == map k | k in s.pending && upTo < k :: s.pending[k]
    decreases |s.pending|
  {
    if s.pending.Keys != {} && Least(s.pending.Keys) <= upTo {
      FewerPending(s.pending, Least(s.pending.Keys));
      AckUpToErases(Erase(s, Least(s.pending.Keys), now), upTo, now);
    } else {
      assert forall k :: k in s.pending ==> k in s.pending.Keys;
    }
  }

  lemma {:induction false} AckSelectedErases(s: SendState, a: Ack, i: nat, now: real)
    requires i <= 32
    ensures var n := AckSelected(s, a, i, now);
      && n.nextSeq == s.nextSeq
      && n.pending == map k | k in s.pending
        && !(a.upTo + 2 + i <= k < a.upTo + 34 && a.sack[k - a.upTo - 2]) :: s.pending[k]
    decreases 32 - i
  {
    if i < 32 {
      if a.sack[i] && (a.upTo + 2 + i) in s.pending {
        AckSelectedErases(Erase(s, a.upTo + 2 + i, now), a, i + 1, now);
      } else {
        AckSelectedErases(s, a, i + 1, now);
      }
    }
  }

  // ---- the round-trip estimate --------------------------------------------

  /** The variance estimate's ceiling for samples between lo and hi. */
  function VarCeiling(lo: real, hi: real): real {
    if hi / 2.0 < hi - lo then hi - lo else hi / 2.0
  }

  ghost predicate EstimateWithin(s: SendState, lo: real, hi: real) {
    s.srtt < 0.0 || (lo <= s.srtt <= hi && 0.0 <= s.rttVar <= VarCeiling(lo, hi))
  }

  /** Every sample the pending packets could yield at `now` lies between lo and hi. */
  ghost predicate SamplesWithin(s: SendState, now: real, lo: real, hi: real) {
    forall k :: k in s.pending && s.pending[k].tries == 1 ==> lo <= now - s.pending[k].firstSent <= hi
  }

  /** The estimate stays inside the range of the samples over any acknowledgement. */
  lemma EstimateStaysWithin(s: SendState, a: Ack, now: real, lo: real, hi: real)
    requires 0.0 <= lo <= hi && EstimateWithin(s, lo, hi) && SamplesWithin(s, now, lo, hi)
    ensures EstimateWithin(Acknowledge(s, a, now), lo, hi)
  {
    UpToKeepsEstimate(s, a.upTo, now, lo, hi);
    SelectedKeepsEstimate(AckUpTo(s, a.upTo, now), a, 0, now, lo, hi);
  }

  lemma SampleKeepsEstimate(s: SendState, u: Unacked, now: real, lo: real, hi: real)
    requires 0.0 <= lo <= hi && EstimateWithin(s, lo, hi)
    requires u.tries == 1 ==> lo <= now - u.firstSent <= hi
    ensures EstimateWithin(Sample(s, u, now), lo, hi)
  {
    if u.tries == 1 && s.srtt >= 0.0 {
      assert AbsReal(s.srtt - (now - u.firstSent)) <= hi - lo <= VarCeiling(lo, hi);
    }
  }

  lemma {:induction false} UpToKeepsEstimate(s: SendState, upTo: nat, now: real, lo: real, hi: real)
    requires 0.0 <= lo <= hi && EstimateWithin(s, lo, hi) && SamplesWithin(s, now, lo, hi)
    ensures EstimateWithin(AckUpTo(s, upTo, now), lo, hi)
    ensures SamplesWithin(AckUpTo(s, upTo, now), now, lo, hi)
    decreases |s.pending|
  {
    if s.pending.Keys != {} && Least(s.pending.Keys) <= upTo {
      var k := Least(s.pending.Keys);
      FewerPending(s.pending, k);
      SampleKeepsEstimate(s, s.pending[k], now, lo, hi);
      UpToKeepsEstimate(Erase(s, k, now), upTo, now, lo, hi);
    }
  }

  lemma {:induction false} SelectedKeepsEstimate(s: SendState, a: Ack, i: nat, now: real, lo: real, hi: real)
    requires i <= 32 && 0.0 <= lo <= hi && EstimateWithin(s, lo, hi) && SamplesWithin(s, now, lo, hi)
    ensures EstimateWithin(AckSelected(s, a, i, now), lo, hi)
    decreases 32 - i
  {
    if i < 32 {
      var k := a.upTo + 2 + i;
      if a.sack[i] && k in s.pending {
        SampleKeepsEstimate(s, s.pending[k], now, lo, hi);
        SelectedKeepsEstimate(Erase(s, k, now), a, i + 1, now, lo, hi);
      } else {
        SelectedKeepsEstimate(s, a, i + 1, now, lo, hi);
      }
    }
  }

  // ---- retransmission ------------------------------------------------------

  function RtoFor(srtt: real, rttVar: real): (rto: int)
    ensures MIN_RTO <= rto <= MAX_RTO
    ensures 0.0 <= srtt < MAX_RTO as real - 1.0 ==> srtt < rto as real
  {
    if srtt < 0.0 then
      INITIAL_RTO
    else
      var rto := srtt + (if 4.0 * rttVar < 1.0 then 1.0 else 4.0 * rttVar);
      var ms := (rto + 0.5).Floor;
      if ms < MIN_RTO then MIN_RTO else if ms > MAX_RTO then MAX_RTO else ms
  }

  function Doubled(rto: int, times: nat): int {
    if times == 0 then rto else 2 * Doubled(rto, times - 1)
  }

  /** The wait after `tries` unanswered transmissions. */
  function Backoff(rto: int, tries: nat): int {
    Capped(Doubled(rto, if tries == 0 then 0 else tries - 1))
  }

  function Capped(wait: int): int {
    if wait > MAX_RTO then MAX_RTO else wait
  }

  /** The wait is the base timeout times a power of two, capped. */
  lemma {:induction false} BackoffIsExponential(rto: int, tries: nat)
    requires tries >= 1
    ensures Backoff(rto, tries) == Capped(rto * Pow2(tries - 1))
  {
    DoubledIsPower(rto, tries - 1);
  }

  lemma {:induction false} DoubledIsPower(rto: int, times: nat)
    ensures Doubled(rto, times) == rto * Pow2(times)
  {
    if times > 0 {
      DoubledIsPower(rto, times - 1);
      assert rto * Pow2(times) == 2 * (rto * Pow2(times - 1));
    }
  }

  lemma {:induction false} DoubledGrows(rto: int, a: nat, b: nat)
    requires rto >= 0 && a <= b
    ensures 0 <= rto <= Doubled(rto, a) <= Doubled(rto, b)
    decreases b
  {
    if b > 0 {
      if a == b { DoubledGrows(rto, a - 1, b - 1); } else { DoubledGrows(rto, a, b - 1); }
    }
  }

  method BackoffWait(rto: int, tries: nat) returns (wait: int)
    requires MIN_RTO <= rto <= MAX_RTO
    ensures wait == Backoff(rto, tries)
  {
    wait := rto;
    var t := 1;
    while t < tries && wait < MAX_RTO
      invariant 1 <= t && (t <= tries || t == 1)
      invariant wait == Doubled(rto, t - 1)
      decreases tries - t
    {
      wait := wait + wait;
      t := t + 1;
    }
    DoubledGrows(rto, t - 1, if tries == 0 then 0 else tries - 1);
    if wait > MAX_RTO {
      wait := MAX_RTO;
    }
  }

  ghost predicate Due(u: Unacked, rto: int, now: real) {
    now - u.lastSent >= Backoff(rto, u.tries) as real
  }

  ghost function Retried(u: Unacked, now: real): Unacked {
    u.(lastSent := now, tries := u.tries + 1)
  }

  ghost function DueSet(s: SendState, now: real): set<nat> {
    set k | k in s.pending && Due(s.pending[k], RtoFor(s.srtt, s.rttVar), now)
  }

  ghost function Pumped(s: SendState, now: real): SendState {
    s.(pending := map k | k in s.pending ::
         if k in DueSet(s, now) then Retried(s.pending[k], now) else s.pending[k])
  }

  /** Some packet is due again after all its transmissions went unanswered. */
  ghost predicate Exhausted(s: SendState, now: real) {
    AnySpent(s.pending, DueSet(s, now))
  }

  ghost predicate AnySpent(pending: map<nat, Unacked>, due: set<nat>) {
    exists k :: k in due && k in pending && pending[k].tries >= MAX_TRANSMITS
  }

  // ---- how soon a silent peer is noticed -----------------------------------

  /** One pump as a single pending packet sees it. */
  datatype PumpAt = PumpAt(now: real, rto: int)

  ghost function AfterPump(u: Unacked, p: PumpAt): Unacked {
    if Due(u, p.rto, p.now) then Retried(u, p.now) else u
  }

  ghost function AfterPumps(u: Unacked, pumps: seq<PumpAt>): Unacked
    decreases |pumps|
  {
    if pumps == [] then u else AfterPumps(AfterPump(u, pumps[0]), pumps[1..])
  }

  /** The pump with index i finds the packet exhausted. */
  ghost predicate GivesUpAt(u: Unacked, pumps: seq<PumpAt>, i: nat)
    requires i < |pumps|
  {
    var before := AfterPumps(u, pumps[..i]);
    Due(before, pumps[i].rto, pumps[i].now) && before.tries >= MAX_TRANSMITS
  }

  ghost predicate PumpedEvery(gap: real, since: real, pumps: seq<PumpAt>) {
    && (forall i :: 0 <= i < |pumps| ==> MIN_RTO <= pumps[i].rto <= MAX_RTO)
    && (pumps != [] ==> since <= pumps[0].now <= since + gap)
    && (forall i :: 0 <= i < |pumps| - 1 ==> pumps[i].now <= pumps[i + 1].now <= pumps[i].now + gap)
  }

  function Deadline(u: Unacked, gap: real): real {
    u.lastSent + (17 - u.tries) as real * (MAX_RTO as real + gap)
  }

  /** A packet nobody acknowledges is found exhausted within 16 capped waits and 16
      pump gaps of its first transmission, whatever the timeout estimate does. */
  lemma SilenceIsNoticed(payload: Bytes, sent: real, gap: real, pumps: seq<PumpAt>) returns (i: nat)
    requires PumpedEvery(gap, sent, pumps) && pumps != [] && gap >= 0.0
    requires pumps[|pumps| - 1].now >= sent + 16.0 * (MAX_RTO as real + gap)
    ensures i < |pumps| && GivesUpAt(Unacked(payload, sent, sent, 1), pumps, i)
    ensures pumps[i].now <= sent + 16.0 * (MAX_RTO as real + gap)
  {
    i := SilenceFrom(Unacked(payload, sent, sent, 1), sent, gap, pumps);
  }

  lemma {:induction false} SilenceFrom(u: Unacked, since: real, gap: real, pumps: seq<PumpAt>) returns (i: nat)
    requires 1 <= u.tries <= MAX_TRANSMITS && u.lastSent <= since <= u.lastSent + MAX_RTO as real
    requires PumpedEvery(gap, since, pumps) && pumps != [] && gap >= 0.0
    requires pumps[|pumps| - 1].now >= Deadline(u, gap)
    ensures i < |pumps| && GivesUpAt(u, pumps, i) && pumps[i].now <= Deadline(u, gap)
    decreases |pumps|
  {
    var p := pumps[0];
    var next := AfterPump(u, p);
    BackoffCapped(p.rto, u.tries);
    assert pumps[..0] == [];
    if Due(u, p.rto, p.now) && u.tries == MAX_TRANSMITS {
      i := 0;
    } else {
      DeadlineShrinks(u, p, gap);
      assert pumps[1..] != [];
      PumpedAfter(gap, since, pumps);
      var j := SilenceFrom(next, p.now, gap, pumps[1..]);
      i := j + 1;
      GivesUpLater(u, pumps, j);
    }
  }

  lemma PumpedAfter(gap: real, since: real, pumps: seq<PumpAt>)
    requires PumpedEvery(gap, since, pumps) && pumps != []
    ensures PumpedEvery(gap, pumps[0].now, pumps[1..])
  {
    var rest := pumps[1..];
    assert forall i :: 0 <= i < |rest| ==> rest[i] == pumps[i + 1];
  }

  lemma GivesUpLater(u: Unacked, pumps: seq<PumpAt>, j: nat)
    requires j + 1 < |pumps| && GivesUpAt(AfterPump(u, pumps[0]), pumps[1..], j)
    ensures GivesUpAt(u, pumps, j + 1)
  {
    assert pumps[..j + 1][0] == pumps[0] && pumps[..j + 1][1..] == pumps[1..][..j];
  }

  lemma BackoffCapped(rto: int, tries: nat)
    ensures Backoff(rto, tries) <= MAX_RTO
  {
  }

  lemma DeadlineShrinks(u: Unacked, p: PumpAt, gap: real)
    requires 1 <= u.tries <= MAX_TRANSMITS && gap >= 0.0
    requires p.now <= u.lastSent + MAX_RTO as real + gap && u.lastSent <= p.now
    requires Due(u, p.rto, p.now) ==> u.tries < MAX_TRANSMITS
    ensures var next := AfterPump(u, p);
      && next.lastSent <= p.now <= next.lastSent + MAX_RTO as real
      && Deadline(next, gap) <= Deadline(u, gap) && p.now < Deadline(next, gap)
      && 1 <= next.tries <= MAX_TRANSMITS
  {
    BackoffCapped(p.rto, u.tries);
    var unit := MAX_RTO as real + gap;
    assert (17 - u.tries) as real == (16 - u.tries) as real + 1.0;
    assert (17 - u.tries) as real * unit == (16 - u.tries) as real * unit + unit;
    assert (16 - u.tries) as real * unit >= 0.0;
    if Due(u, p.rto, p.now) {
      assert (16 - u.tries) as real == (15 - u.tries) as real + 1.0;
      assert (16 - u.tries) as real * unit == (15 - u.tries) as real * unit + unit;
      assert (15 - u.tries) as real * unit >= 0.0;
    }
  }

  // ---- the stream object --------------------------------------------------

  class Sender {
    var nextSeq: nat
    var pending: map<nat, Unacked>
    var srtt: real
    var rttVar: real

    ghost function State(): SendState
      reads this
    {
      SendState(nextSeq, pending, srtt, rttVar)
    }

    constructor ()
      ensures State() == FRESH_SENDER
    {
      nextSeq, pending, srtt, rttVar := 1, map[], -1.0, 0.0;
    }

    /** Numbers a payload and keeps it until it is acknowledged. */
    method Send(payload: Bytes, now: real) returns (s: nat)
      modifies this
      ensures s == old(nextSeq) && State() == Enqueue(old(State()), payload, now)
    {
      s := nextSeq;
      nextSeq := nextSeq + 1;
      pending := pending[s := Unacked(payload, now, now, 1)];
    }

    method TakeSample(u: Unacked, now: real)
      modifies this`srtt, this`rttVar
      ensures State() == Sample(old(State()), u, now)
      ensures u.tries != 1 ==> srtt == old(srtt) && rttVar == old(rttVar)
      ensures u.tries == 1 ==>
        var r, was := now - u.firstSent, old(srtt);
        if was < 0.0 then srtt == r && rttVar == r / 2.0
        else
          && srtt - r == 0.875 * (was - r)
          && rttVar == 0.75 * old(rttVar) + 0.25 * (if was < r then r - was else was - r)
    {
      if u.tries != 1 {
        return;
      }
      var rtt := now - u.firstSent;
      if srtt < 0.0 {
        srtt := rtt;
        rttVar := rtt / 2.0;
      } else {
        var err := srtt - rtt;
        rttVar := 0.75 * rttVar + 0.25 * (if err < 0.0 then -err else err);
        srtt := 0.875 * srtt + 0.125 * rtt;
      }
    }

    method OnAck(wireUpTo: U32, sack: Mask32, now: real)
      requires nextSeq < TWO_64
      modifies this
      ensures State() == Acknowledge(old(State()), Ack(SeqExtension.Extend32(old(nextSeq), wireUpTo), sack), now)
    {
      var upTo := SeqExtension.Extend32(nextSeq, wireUpTo);
      EraseUpTo(upTo, now);
      EraseSelected(Ack(upTo, sack), now);
    }

    method EraseUpTo(upTo: nat, now: real)
      modifies this`pending, this`srtt, this`rttVar
      ensures State() == AckUpTo(old(State()), upTo, now)
    {
      while pending.Keys != {} && Least(pending.Keys) <= upTo
        invariant nextSeq == old(nextSeq)
        invariant AckUpTo(State(), upTo, now) == AckUpTo(old(State()), upTo, now)
        decreases |pending|
      {
        ghost var was := State();
        var first := Least(pending.Keys);
        FewerPending(pending, first);
        TakeSample(pending[first], now);
        pending := pending - {first};
        assert State() == Erase(was, first, now);
      }
    }

    method EraseSelected(a: Ack, now: real)
      modifies this`pending, this`srtt, this`rttVar
      ensures State() == AckSelected(old(State()), a, 0, now)
    {
      for i := 0 to 32
        invariant AckSelected(State(), a, i, now) == AckSelected(old(State()), a, 0, now)
      {
        ghost var was := State();
        SelectedNext(was, a, i, now);
        if a.sack[i] {
          EraseOne(a.upTo + 2 + i, now);
        }
      }
    }

    method EraseOne(s: nat, now: real)
      modifies this`pending, this`srtt, this`rttVar
      ensures State() == if s in old(pending) then Erase(old(State()), s, now) else old(State())
    {
      if s in pending {
        TakeSample(pending[s], now);
        pending := pending - {s};
      }
    }

    /** Retransmits what is due. The payloads go out in ascending order of number;
        `exhausted` asks the caller to interrupt the connection. */
    method Pump(now: real) returns (toSend: seq<Bytes>, exhausted: bool, ghost order: seq<nat>)
      modifies this`pending
      ensures State() == Pumped(old(State()), now)
      ensures exhausted <==> Exhausted(old(State()), now)
      ensures Ascending(order) && Elements(order) == DueSet(old(State()), now)
      ensures toSend == PayloadsOf(old(State()), order)
    {
      ghost var was := State();
      toSend, exhausted, order := Retransmit(RtoFor(srtt, rttVar), now, DueSet(was, now));
      PumpEnds(was, now);
    }

    method Resend(k: nat, now: real)
      requires k in pending
      modifies this`pending
      ensures pending == old(pending)[k := Retried(old(pending)[k], now)]
    {
      pending := pending[k := pending[k].(lastSent := now, tries := pending[k].tries + 1)];
    }

    method Retransmit(rto: int, now: real, ghost due: set<nat>)
      returns (toSend: seq<Bytes>, exhausted: bool, ghost order: seq<nat>)
      requires MIN_RTO <= rto <= MAX_RTO && IsDueSet(pending, due, rto, now)
      modifies this`pending
      ensures pending == PartlyPumped(old(pending), due, {}, now)
      ensures exhausted <==> AnySpent(old(pending), due)
      ensures Ascending(order) && Elements(order) == due
      ensures toSend == PayloadsOf(old(State()), order)
    {
      toSend, exhausted, order := [], false, [];
      ghost var was := State();
      var left := pending.Keys;
      while left != {}
        invariant left <= was.pending.Keys
        invariant PumpedSoFar(was, due, left, now, pending, order, toSend, exhausted)
        decreases |left|
      {
        var k := Least(left);
        var u := pending[k];
        var wait := BackoffWait(rto, u.tries);
        KnowsDue(was.pending, due, k, rto, now, wait);
        PumpedOneMore(was, due, left, now, pending, order, toSend, exhausted, k);
        left := left - {k};
        if now - u.lastSent >= wait as real {
          exhausted := exhausted || u.tries >= MAX_TRANSMITS;
          Resend(k, now);
          toSend := toSend + [u.payload];
          order := order + [k];
        }
      }
      assert due - left == due;
    }
  }

  lemma SelectedNext(s: SendState, a: Ack, i: nat, now: real)
    requires i < 32
    ensures var k := a.upTo + 2 + i;
      AckSelected(s, a, i, now) ==
        AckSelected(if a.sack[i] && k in s.pending then Erase(s, k, now) else s, a, i + 1, now)
  {
  }

  ghost predicate Ascending(xs: seq<nat>) {
    forall i, j :: 0 <= i < j < |xs| ==> xs[i] < xs[j]
  }

  ghost function PayloadsOf(s: SendState, order: seq<nat>): seq<Bytes> {
    seq(|order|, i requires 0 <= i < |order| => if order[i] in s.pending then s.pending[order[i]].payload else [])
  }

  ghost predicate IsDueSet(pending: map<nat, Unacked>, due: set<nat>, rto: int, now: real) {
    due <= pending.Keys && forall k :: k in pending ==> (k in due <==> Due(pending[k], rto, now))
  }

  lemma KnowsDue(pending: map<nat, Unacked>, due: set<nat>, k: nat, rto: int, now: real, wait: int)
    requires IsDueSet(pending, due, rto, now) && k in pending && wait == Backoff(rto, pending[k].tries)
    ensures k in due <==> now - pending[k].lastSent >= wait as real
  {
  }

  /** The pending packets of a pump that has yet to visit the numbers in `left`. */
  ghost function PartlyPumped(pending: map<nat, Unacked>, due: set<nat>, left: set<nat>, now: real): map<nat, Unacked> {
    map k | k in pending :: if k !in left && k in due then Retried(pending[k], now) else pending[k]
  }

  lemma PumpVisits(pending: map<nat, Unacked>, due: set<nat>, left: set<nat>, k: nat, now: real)
    requires k in pending && k in left
    ensures var part := PartlyPumped(pending, due, left, now);
      && part[k] == pending[k]
      && PartlyPumped(pending, due, left - {k}, now)
         == (if k in due then part[k := Retried(pending[k], now)] else part)
      && due - (left - {k}) == (if k in due then (due - left) + {k} else due - left)
      && AnySpent(pending, due - (left - {k}))
         == (AnySpent(pending, due - left) || (k in due && pending[k].tries >= MAX_TRANSMITS))
  {
    assert due - (left - {k}) == (if k in due then (due - left) + {k} else due - left);
  }

  /** What the retransmission loop has done when the numbers in `left` remain. */
  ghost predicate PumpedSoFar(was: SendState, due: set<nat>, left: set<nat>, now: real, pending: map<nat, Unacked>,
                              order: seq<nat>, toSend: seq<Bytes>, exhausted: bool)
  {
    && pending == PartlyPumped(was.pending, due, left, now)
    && Elements(order) == due - left && Ascending(order) && AllBelow(order, left)
    && toSend == PayloadsOf(was, order)
    && (exhausted <==> AnySpent(was.pending, due - left))
  }

  lemma PumpedOneMore(was: SendState, due: set<nat>, left: set<nat>, now: real, pending: map<nat, Unacked>,
                      order: seq<nat>, toSend: seq<Bytes>, exhausted: bool, k: nat)
    requires PumpedSoFar(was, due, left, now, pending, order, toSend, exhausted)
    requires k in was.pending && IsLeast(k, left)
    ensures k in pending && pending[k] == was.pending[k]
    ensures
      if k in due then
        PumpedSoFar(was, due, left - {k}, now, pending[k := Retried(pending[k], now)], order + [k],
                    toSend + [pending[k].payload], exhausted || pending[k].tries >= MAX_TRANSMITS)
      else
        PumpedSoFar(was, due, left - {k}, now, pending, order, toSend, exhausted)
  {
    PumpVisits(was.pending, due, left, k, now);
    OrderGrows(was, order, due - left, left, k);
  }

  lemma PumpEnds(s: SendState, now: real)
    ensures PartlyPumped(s.pending, DueSet(s, now), {}, now) == Pumped(s, now).pending
  {
  }

  ghost predicate AllBelow(order: seq<nat>, left: set<nat>) {
    forall k, i :: k in left && 0 <= i < |order| ==> order[i] < k
  }

  lemma OrderGrows(s: SendState, order: seq<nat>, visited: set<nat>, left: set<nat>, k: nat)
    requires Ascending(order) && Elements(order) == visited && k in s.pending
    requires AllBelow(order, left) && IsLeast(k, left)
    ensures Ascending(order + [k]) && Elements(order + [k]) == visited + {k}
    ensures AllBelow(order + [k], left - {k}) && AllBelow(order, left - {k})
    ensures PayloadsOf(s, order + [k]) == PayloadsOf(s, order) + [s.pending[k].payload]
  {
    assert forall x :: x in order + [k] <==> x in order || x == k;
  }
}
