/** What the history of a connection determines: its state, and each notice, in both
    directions. Whoever holds the inputs so far can tell which notices they caused. */
module ConnectionHistory {
  import opened Basics
  import opened ConnectionLifecycle

  /** What an input can do to a connection. */
  datatype Kind = Creates | Accepts | Establishes

  predicate Does(kind: Kind, input: Input) {
    match kind
    case Creates =>
      || (input.ConnectRequest? && input.hasListener) || input.ConnectAccept? || input.Data?
      || (input.LocalSend? && input.autoAccept) || input.LocalAccept?
    case Accepts => input.ConnectAccept? || (input.LocalSend? && input.autoAccept) || input.LocalAccept?
    case Establishes => input.ConnectAccept? || input.Data? || input.LocalAccept?
  }

  /** The peer refuses or closes, the game closes, or the time-out is announced. */
  ghost predicate Removes(e: Entry) {
    e.input.ConnectIgnored? || e.input.ConnectClose? || e.input.LocalClose? || Closed(TimedOut) in e.notices
  }

  ghost predicate LastsFrom(log: seq<Entry>, i: nat) {
    forall k :: i < k < |log| ==> !Removes(log[k])
  }

  /** Some input did this, and the connection has not been removed since. */
  ghost predicate Since(log: seq<Entry>, kind: Kind) {
    exists i :: 0 <= i < |log| && Does(kind, log[i].input) && LastsFrom(log, i)
  }

  ghost predicate SilentFrom(log: seq<Entry>, i: nat) {
    forall k :: i < k < |log| ==> !Removes(log[k]) && !ProofOfLife(log[k])
  }

  /** An interruption announced at this time, with neither answer nor removal since. */
  ghost predicate Standing(log: seq<Entry>, at: real) {
    exists i :: 0 <= i < |log| && InterruptedAt(log, i, at) && SilentFrom(log, i)
  }

  ghost predicate Stands(log: seq<Entry>) {
    exists at :: Standing(log, at)
  }

  /** The history tells the state. */
  ghost predicate Tells(log: seq<Entry>, c: Option<Conn>) {
    && (c.Some? <==> Since(log, Creates))
    && (c.Some? && c.value.accepted <==> Since(log, Accepts))
    && (c.Some? && c.value.established <==> Since(log, Establishes))
    && forall at :: Standing(log, at) <==> c.Some? && c.value.interrupted && c.value.interruptedAt == at
  }

  lemma SinceNext(log: seq<Entry>, e: Entry, kind: Kind)
    ensures Since(log + [e], kind) <==> Does(kind, e.input) || (Since(log, kind) && !Removes(e))
  {
    var longer, n := log + [e], |log|;
    if Does(kind, e.input) { assert longer[n] == e && LastsFrom(longer, n); }
    if Since(log, kind) && !Removes(e) {
      var i :| 0 <= i < n && Does(kind, log[i].input) && LastsFrom(log, i);
      assert longer[i] == log[i] && LastsFrom(longer, i);
    }
    if Since(longer, kind) {
      var i :| 0 <= i <= n && Does(kind, longer[i].input) && LastsFrom(longer, i);
      if i < n {
        assert longer[i] == log[i] && !Removes(longer[n]);
        assert forall k :: i < k < n ==> longer[k] == log[k];
        assert LastsFrom(log, i);
      }
    }
  }

  lemma StandingNext(log: seq<Entry>, e: Entry, at: real)
    ensures Standing(log + [e], at) <==>
      || (Interrupted in e.notices && e.input.PumpTick? && e.input.now == at)
      || (Standing(log, at) && !Removes(e) && !ProofOfLife(e))
  {
    var longer, n := log + [e], |log|;
    if Interrupted in e.notices && e.input.PumpTick? && e.input.now == at {
      assert InterruptedAt(longer, n, at) && SilentFrom(longer, n);
    }
    if Standing(log, at) && !Removes(e) && !ProofOfLife(e) {
      var i :| 0 <= i < n && InterruptedAt(log, i, at) && SilentFrom(log, i);
      assert InterruptedAt(longer, i, at) && SilentFrom(longer, i);
    }
    if Standing(longer, at) {
      var i :| 0 <= i <= n && InterruptedAt(longer, i, at) && SilentFrom(longer, i);
      if i < n {
        assert longer[n] == e && !Removes(longer[n]) && !ProofOfLife(longer[n]);
        assert forall k :: i <= k < n ==> longer[k] == log[k];
        assert InterruptedAt(log, i, at) && SilentFrom(log, i);
      }
    }
  }

  lemma TellsNext(log: seq<Entry>, c: Option<Conn>, input: Input)
    requires Tells(log, c)
    ensures Tells(log + [EntryFor(c, input)], Handle(c, input).conn)
  {
    var e := EntryFor(c, input);
    SinceNext(log, e, Creates);
    SinceNext(log, e, Accepts);
    SinceNext(log, e, Establishes);
    forall at ensures Standing(log + [e], at) <==>
      || (Interrupted in e.notices && e.input.PumpTick? && e.input.now == at)
      || (Standing(log, at) && !Removes(e) && !ProofOfLife(e))
    {
      StandingNext(log, e, at);
    }
  }

  /** After any inputs: the connection is there, accepted, established or interrupted exactly
      when the history says so. */
  lemma {:induction false} HistoryTellsState(inputs: seq<Input>)
    ensures Tells(Log(inputs), StateAfter(inputs))
  {
    if inputs == [] {
      assert Log(inputs) == [];
    } else {
      var before := inputs[..|inputs| - 1];
      HistoryTellsState(before);
      TellsNext(Log(before), StateAfter(before), inputs[|inputs| - 1]);
    }
  }

  /** Which notice each input brings, if any. */
  ghost predicate Brings(past: seq<Entry>, input: Input, notices: seq<Notice>) {
    && |notices| <= 1
    && (Request in notices <==> input.ConnectRequest? && input.hasListener && !Since(past, Accepts))
    && (NewConnection in notices <==>
          (input.Data? || input.ConnectAccept? || input.LocalAccept?) && !Since(past, Establishes))
    && (Reconnection in notices <==>
          && Stands(past)
          && (input.Ack? || ((input.Data? || input.ConnectAccept?) && Since(past, Establishes))))
    && (Interrupted in notices <==> input.PumpTick? && input.exhausted && Since(past, Creates) && !Stands(past))
    && (Closed(Reason.ConnectionIgnored) in notices <==> input.ConnectIgnored? && Since(past, Creates))
    && (Closed(ClosedByPeer) in notices <==> input.ConnectClose?)
    && (Closed(TimedOut) in notices <==>
          input.PumpTick? && exists at :: Standing(past, at) && input.now - at >= 10000.0)
  }

  lemma HandleBrings(past: seq<Entry>, c: Option<Conn>, input: Input)
    requires Tells(past, c)
    ensures Brings(past, input, Handle(c, input).notices)
  {
    if c.Some? && c.value.interrupted {
      assert Standing(past, c.value.interruptedAt);
    } else {
      assert !Stands(past);
    }
  }

  /** Entry j of any history carries exactly the notice its input and the entries before it
      call for. */
  lemma NoticesExactly(inputs: seq<Input>, j: nat)
    requires j < |inputs|
    ensures Brings(Log(inputs[..j]), inputs[j], Log(inputs)[j].notices)
    ensures Log(inputs)[j].input == inputs[j] && Log(inputs)[..j] == Log(inputs[..j])
  {
    LogPrefix(inputs, j + 1);
    LogPrefix(inputs, j);
    assert inputs[..j + 1][..j] == inputs[..j];
    assert Log(inputs)[j] == Log(inputs)[..j + 1][j];
    HistoryTellsState(inputs[..j]);
    HandleBrings(Log(inputs[..j]), StateAfter(inputs[..j]), inputs[j]);
  }

  /** The inputs that take a connection away: it is gone after an input that finds it there
      exactly when the input removes it. */
  lemma RemovedExactly(inputs: seq<Input>, input: Input)
    requires Since(Log(inputs), Creates)
    ensures !Since(Log(inputs + [input]), Creates) <==>
      || input.ConnectIgnored? || input.ConnectClose? || input.LocalClose?
      || (input.PumpTick? && exists at :: Standing(Log(inputs), at) && input.now - at >= 10000.0)
    ensures StateAfter(inputs + [input]).None? <==> !Since(Log(inputs + [input]), Creates)
  {
    var longer := inputs + [input];
    assert longer[..|inputs|] == inputs;
    HistoryTellsState(inputs);
    HistoryTellsState(longer);
    HandleBrings(Log(inputs), StateAfter(inputs), input);
    var e := EntryFor(StateAfter(inputs), input);
    SinceNext(Log(inputs), e, Creates);
    assert Log(longer) == Log(inputs) + [e];
    assert Brings(Log(inputs), input, e.notices);
  }
}
