/** What the sender's clock promises: which acknowledgements move the round-trip estimate and
    how far, how the estimate settles on a steady link, what the timeout is, and exactly which
    packets a pump sends again. */
module SendTiming {
  import opened Basics
  import opened RecvStream
  import opened SendStream

  // ---- one sample ------------------------------------------------------------------------

  /** The first sample is taken as it is; a later one closes an eighth of the distance to it,
      and a quarter of that distance goes into the variation. */
  ghost predicate MovedBy(s: SendState, n: SendState, r: real) {
    if s.srtt < 0.0 then n.srtt == r && n.rttVar == r / 2.0
    else
      && n.srtt - r == 0.875 * (s.srtt - r)
      && n.rttVar == 0.75 * s.rttVar + 0.25 * (if s.srtt < r then r - s.srtt else s.srtt - r)
  }

  ghost predicate Unmoved(s: SendState, n: SendState) {
    n.srtt == s.srtt && n.rttVar == s.rttVar
  }

  /** Of the pending packets up to this number only k, if any, has been sent just once. */
  ghost predicate OnceSentUpTo(s: SendState, upTo: nat, k: nat) {
    forall j :: j in s.pending && j <= upTo && j != k ==> s.pending[j].tries != 1
  }

  lemma {:induction false} UpToUnmoved(s: SendState, upTo: nat, now: real, k: nat)
    requires OnceSentUpTo(s, upTo, k) && !(k in s.pending && k <= upTo)
    ensures Unmoved(s, AckUpTo(s, upTo, now))
    decreases |s.pending|
  {
    if s.pending.Keys != {} && Least(s.pending.Keys) <= upTo {
      var j := Least(s.pending.Keys);
      FewerPending(s.pending, j);
      assert j in s.pending;
      UpToUnmoved(Erase(s, j, now), upTo, now, k);
    }
  }

  lemma {:induction false} UpToMoves(s: SendState, upTo: nat, now: real, k: nat)
    requires OnceSentUpTo(s, upTo, k) && k in s.pending && k <= upTo && s.pending[k].tries == 1
    ensures MovedBy(s, AckUpTo(s, upTo, now), now - s.pending[k].firstSent)
    decreases |s.pending|
  {
    assert k in s.pending.Keys;
    var j := Least(s.pending.Keys);
    FewerPending(s.pending, j);
    assert j in s.pending;
    if j == k {
      UpToUnmoved(Erase(s, k, now), upTo, now, k);
    } else {
      UpToMoves(Erase(s, j, now), upTo, now, k);
    }
  }

  ghost predicate OnceSentSelected(s: SendState, a: Ack, k: nat) {
    forall j :: j in s.pending && a.upTo < j && AckCovers(a, j) && j != k ==> s.pending[j].tries != 1
  }

  lemma {:induction false} SelectedUnmoved(s: SendState, a: Ack, i: nat, now: real, k: nat)
    requires i <= 32 && OnceSentSelected(s, a, k)
    requires !(k in s.pending && a.upTo < k && AckCovers(a, k)) || k < a.upTo + 2 + i
    ensures Unmoved(s, AckSelected(s, a, i, now))
    decreases 32 - i
  {
    if i < 32 {
      var j := a.upTo + 2 + i;
      if a.sack[i] && j in s.pending {
        assert AckCovers(a, j);
        SelectedUnmoved(Erase(s, j, now), a, i + 1, now, k);
      } else {
        SelectedUnmoved(s, a, i + 1, now, k);
      }
    }
  }

  lemma {:induction false} SelectedMoves(s: SendState, a: Ack, i: nat, now: real, k: nat)
    requires i <= 32 && OnceSentSelected(s, a, k) && k in s.pending && s.pending[k].tries == 1
    requires a.upTo + 2 + i <= k && AckCovers(a, k)
    ensures MovedBy(s, AckSelected(s, a, i, now), now - s.pending[k].firstSent)
    decreases 32 - i
  {
    var j := a.upTo + 2 + i;
    if j == k {
      SelectedUnmoved(Erase(s, k, now), a, i + 1, now, k);
    } else if a.sack[i] && j in s.pending {
      assert AckCovers(a, j);
      SelectedMoves(Erase(s, j, now), a, i + 1, now, k);
    } else {
      SelectedMoves(s, a, i + 1, now, k);
    }
  }

  /** An acknowledgement that covers no packet sent just once leaves the estimate alone; one
      that covers a single such packet moves it by that packet's round trip. */
  lemma AckSamples(s: SendState, a: Ack, now: real, k: nat)
    requires forall j :: j in s.pending && AckCovers(a, j) && j != k ==> s.pending[j].tries != 1
    ensures var n := Acknowledge(s, a, now);
      if k in s.pending && AckCovers(a, k) && s.pending[k].tries == 1 then MovedBy(s, n, now - s.pending[k].firstSent)
      else Unmoved(s, n)
  {
    var mid := AckUpTo(s, a.upTo, now);
    AckUpToErases(s, a.upTo, now);
    if k in s.pending && AckCovers(a, k) && s.pending[k].tries == 1 {
      if k <= a.upTo {
        UpToMoves(s, a.upTo, now, k);
        SelectedUnmoved(mid, a, 0, now, k);
      } else {
        UpToUnmoved(s, a.upTo, now, k);
        SelectedMoves(mid, a, 0, now, k);
      }
    } else {
      NoneSampled(s, a, now);
    }
  }

  lemma NoneSampled(s: SendState, a: Ack, now: real)
    requires forall j :: j in s.pending && AckCovers(a, j) ==> s.pending[j].tries != 1
    ensures Unmoved(s, Acknowledge(s, a, now))
  {
    var mid, far := AckUpTo(s, a.upTo, now), a.upTo + 40;
    AckUpToErases(s, a.upTo, now);
    UpToUnmoved(s, a.upTo, now, far);
    SelectedUnmoved(mid, a, 0, now, far);
  }

  // ---- a steady link ---------------------------------------------------------------------

  function Power(x: real, n: nat): real {
    if n == 0 then 1.0 else x * Power(x, n - 1)
  }

  datatype Round = Round(payload: Bytes, sent: real)

  function NoSack(): Mask32 {
    seq(32, _ => false)
  }

  /** Each packet is acknowledged r after it was sent, before the next is sent. */
  ghost function AfterRounds(s: SendState, rounds: seq<Round>, r: real): SendState {
    if rounds == [] then s
    else
      var before, last := AfterRounds(s, rounds[..|rounds| - 1], r), rounds[|rounds| - 1];
      Acknowledge(Enqueue(before, last.payload, last.sent), Ack(before.nextSeq, NoSack()), last.sent + r)
  }

  lemma OneRound(s: SendState, round: Round, r: real)
    requires forall j :: j in s.pending ==> s.pending[j].tries != 1
    ensures var n := Acknowledge(Enqueue(s, round.payload, round.sent), Ack(s.nextSeq, NoSack()), round.sent + r);
      && MovedBy(s, n, r)
      && forall j :: j in n.pending ==> n.pending[j].tries != 1
  {
    var mid, a := Enqueue(s, round.payload, round.sent), Ack(s.nextSeq, NoSack());
    AcknowledgeErases(mid, a, round.sent + r);
    AckSamples(mid, a, round.sent + r, s.nextSeq);
  }

  lemma ScalesOn(d: real, p: real, e: real)
    requires e == p * d
    ensures 0.875 * e == (0.875 * p) * d
  {
  }

  lemma NotNegative(x: real, y: real)
    requires x >= 0.0 && y >= 0.0
    ensures x * y >= 0.0
  {
  }

  ghost function Distance(x: real, y: real): real {
    if x < y then y - x else x - y
  }

  lemma DistanceScales(x: real, y: real, r: real, p: real)
    requires p >= 0.0 && y - r == p * (x - r)
    ensures Distance(y, r) == p * Distance(x, r)
  {
    if x >= r {
      NotNegative(p, x - r);
    } else {
      NotNegative(p, r - x);
      assert p * (r - x) == -(p * (x - r));
    }
  }

  lemma {:induction false} PowersOrdered(n: nat)
    ensures 0.0 < Power(0.75, n) <= Power(0.875, n) <= 1.0
  {
    if n > 0 { PowersOrdered(n - 1); }
  }

  /** (7/8)^n falls below any bound. */
  lemma {:induction false} PowerVanishes(n: nat)
    ensures Power(0.875, n) * (n + 7) as real <= 7.0
  {
    if n > 0 {
      PowerVanishes(n - 1);
      PowersOrdered(n - 1);
      var p, m := Power(0.875, n - 1), (n + 6) as real;
      assert (n - 1 + 7) as real == m && (n + 7) as real == m + 1.0 && m >= 7.0;
      assert 0.875 * p * (m + 1.0) == 0.875 * (p * m) + 0.875 * p;
      assert p * m >= p * 7.0;
    }
  }

  /** The variation after n rounds that start at distance d with variation v. */
  ghost function VariationAfter(v: real, d: real, n: nat): real {
    Power(0.75, n) * v + 2.0 * (Power(0.875, n) - Power(0.75, n)) * d
  }

  lemma VariationNext(v: real, d: real, n: nat)
    ensures VariationAfter(v, d, n + 1) == 0.75 * VariationAfter(v, d, n) + 0.25 * (Power(0.875, n) * d)
  {
    var p, q := Power(0.875, n), Power(0.75, n);
    assert (0.75 * q) * v == 0.75 * (q * v);
    assert 2.0 * (0.875 * p - 0.75 * q) * d == 1.75 * (p * d) - 1.5 * (q * d);
    assert 2.0 * (p - q) * d == 2.0 * (p * d) - 2.0 * (q * d);
  }

  /** On a link with steady round trips the estimate settles: after n samples the distance to
      the round trip is (7/8)^n of what it was, and the variation follows in closed form. */
  lemma {:induction false} SteadyRounds(s: SendState, rounds: seq<Round>, r: real)
    requires s.srtt >= 0.0 && r >= 0.0 && forall j :: j in s.pending ==> s.pending[j].tries != 1
    ensures var n, end := |rounds|, AfterRounds(s, rounds, r);
      && end.srtt - r == Power(0.875, n) * (s.srtt - r)
      && end.rttVar == VariationAfter(s.rttVar, Distance(s.srtt, r), n)
      && end.srtt >= 0.0 && forall j :: j in end.pending ==> end.pending[j].tries != 1
  {
    if rounds != [] {
      var n := |rounds| - 1;
      SteadyRounds(s, rounds[..n], r);
      var before := AfterRounds(s, rounds[..n], r);
      OneRound(before, rounds[n], r);
      SettlesFurther(s, before, AfterRounds(s, rounds, r), r, n);
    }
  }

  lemma SettlesFurther(s: SendState, before: SendState, end: SendState, r: real, n: nat)
    requires before.srtt >= 0.0 && r >= 0.0 && MovedBy(before, end, r)
    requires before.srtt - r == Power(0.875, n) * (s.srtt - r)
    requires before.rttVar == VariationAfter(s.rttVar, Distance(s.srtt, r), n)
    ensures end.srtt - r == Power(0.875, n + 1) * (s.srtt - r) && end.srtt >= 0.0
    ensures end.rttVar == VariationAfter(s.rttVar, Distance(s.srtt, r), n + 1)
  {
    MovedOnce(before, end, r);
    OneMoreRound(s.srtt, s.rttVar, r, n, before.srtt, before.rttVar, end.srtt, end.rttVar);
  }

  lemma MovedOnce(s: SendState, n: SendState, r: real)
    requires s.srtt >= 0.0 && r >= 0.0 && MovedBy(s, n, r)
    ensures n.srtt - r == 0.875 * (s.srtt - r) && n.rttVar == 0.75 * s.rttVar + 0.25 * Distance(s.srtt, r)
    ensures n.srtt >= 0.0
  {
  }

  lemma OneMoreRound(x0: real, v0: real, r: real, n: nat, x: real, v: real, x': real, v': real)
    requires x - r == Power(0.875, n) * (x0 - r) && v == VariationAfter(v0, Distance(x0, r), n)
    requires x' - r == 0.875 * (x - r) && v' == 0.75 * v + 0.25 * Distance(x, r)
    ensures x' - r == Power(0.875, n + 1) * (x0 - r) && v' == VariationAfter(v0, Distance(x0, r), n + 1)
  {
    ScalesOn(x0 - r, Power(0.875, n), x - r);
    PowersOrdered(n);
    DistanceScales(x0, x, r, Power(0.875, n));
    VariationNext(v0, Distance(x0, r), n);
  }

  /** Both the distance and the variation tend to nothing: times n + 7 they stay bounded. */
  lemma SteadyRoundsSettle(s: SendState, rounds: seq<Round>, r: real)
    requires s.srtt >= 0.0 && s.rttVar >= 0.0 && r >= 0.0 && forall j :: j in s.pending ==> s.pending[j].tries != 1
    ensures var n, end, d := |rounds|, AfterRounds(s, rounds, r), Distance(s.srtt, r);
      && Distance(end.srtt, r) * (n + 7) as real <= 7.0 * d
      && 0.0 <= end.rttVar && end.rttVar * (n + 7) as real <= 7.0 * (s.rttVar + 2.0 * d)
  {
    var n, end := |rounds|, AfterRounds(s, rounds, r);
    SteadyRounds(s, rounds, r);
    Settles(s.srtt, s.rttVar, r, n, end.srtt);
  }

  lemma Settles(srtt: real, rttVar: real, r: real, n: nat, end: real)
    requires rttVar >= 0.0 && end - r == Power(0.875, n) * (srtt - r)
    ensures var d := Distance(srtt, r);
      && Distance(end, r) * (n + 7) as real <= 7.0 * d
      && 0.0 <= VariationAfter(rttVar, d, n)
      && VariationAfter(rttVar, d, n) * (n + 7) as real <= 7.0 * (rttVar + 2.0 * d)
  {
    var d := Distance(srtt, r);
    PowersOrdered(n);
    PowerVanishes(n);
    DistanceScales(srtt, end, r, Power(0.875, n));
    Vanishes(Power(0.875, n), (n + 7) as real, d, Distance(end, r));
    VariationBelow(rttVar, d, n);
    Vanishes(Power(0.875, n), (n + 7) as real, rttVar + 2.0 * d, Power(0.875, n) * (rttVar + 2.0 * d));
    Monotone(VariationAfter(rttVar, d, n), Power(0.875, n) * (rttVar + 2.0 * d), (n + 7) as real);
  }

  lemma Monotone(x: real, y: real, m: real)
    requires x <= y && m >= 0.0
    ensures x * m <= y * m
  {
  }

  lemma VariationBelow(v: real, d: real, n: nat)
    requires v >= 0.0 && d >= 0.0
    ensures 0.0 <= VariationAfter(v, d, n) <= Power(0.875, n) * (v + 2.0 * d)
  {
    PowersOrdered(n);
    var p, q := Power(0.875, n), Power(0.75, n);
    NotNegative(q, v);
    NotNegative(p - q, d);
    NotNegative(q, d);
    NotNegative(p - q, v);
    assert 2.0 * (p - q) * d == 2.0 * ((p - q) * d);
    assert p * (v + 2.0 * d) == p * v + 2.0 * (p * d);
    assert (p - q) * v == p * v - q * v && (p - q) * d == p * d - q * d;
  }

  lemma Vanishes(p: real, m: real, d: real, x: real)
    requires p * m <= 7.0 && d >= 0.0 && x == p * d
    ensures x * m <= 7.0 * d
  {
    assert (p * d) * m == (p * m) * d;
  }

  // ---- the timeout and the pump ----------------------------------------------------------

  /** The timeout: 50 ms before the first sample, then the smoothed time plus four variations,
      or plus 1 ms where those are less, to the nearest millisecond, within 10 and 500. */
  lemma RtoExactly(srtt: real, rttVar: real)
    ensures srtt < 0.0 ==> RtoFor(srtt, rttVar) == 50
    ensures srtt >= 0.0 ==>
      var x, rto := srtt + (if 4.0 * rttVar < 1.0 then 1.0 else 4.0 * rttVar), RtoFor(srtt, rttVar);
      && (x <= 10.0 ==> rto == 10)
      && (x >= 500.0 ==> rto == 500)
      && (10.0 <= x <= 500.0 ==> rto as real - 0.5 <= x <= rto as real + 0.5)
  {
  }

  /** The wait since the last transmission is over: the timeout, doubled for each earlier
      retransmission, but at most 500 ms. */
  ghost predicate WaitedOut(u: Unacked, rto: int, now: real)
    requires u.tries >= 1
  {
    var wait := rto * Pow2(u.tries - 1);
    now - u.lastSent >= (if wait > 500 then 500 else wait) as real
  }

  /** A pump sends a packet again, and counts it, exactly when its wait is over, and changes
      nothing else; it finds the stream exhausted exactly when such a packet had been sent 16
      times. */
  lemma PumpExactly(s: SendState, now: real)
    requires forall k :: k in s.pending ==> s.pending[k].tries >= 1
    ensures var n, rto := Pumped(s, now), RtoFor(s.srtt, s.rttVar);
      && n.nextSeq == s.nextSeq && n.srtt == s.srtt && n.rttVar == s.rttVar && n.pending.Keys == s.pending.Keys
      && (forall k :: k in s.pending ==>
            var u := s.pending[k];
            && (k in DueSet(s, now) <==> WaitedOut(u, rto, now))
            && n.pending[k] == if WaitedOut(u, rto, now) then Unacked(u.payload, u.firstSent, now, u.tries + 1) else u)
      && (Exhausted(s, now) <==> exists k ::
            k in s.pending && WaitedOut(s.pending[k], rto, now) && s.pending[k].tries >= 16)
  {
    var rto := RtoFor(s.srtt, s.rttVar);
    forall k | k in s.pending ensures Due(s.pending[k], rto, now) <==> WaitedOut(s.pending[k], rto, now) {
      BackoffIsExponential(rto, s.pending[k].tries);
    }
    if exists k :: k in s.pending && WaitedOut(s.pending[k], rto, now) && s.pending[k].tries >= 16 {
      var k :| k in s.pending && WaitedOut(s.pending[k], rto, now) && s.pending[k].tries >= 16;
      assert k in DueSet(s, now);
    }
  }
}
