/** The byte-bounded queue of delivered packets that the application polls. */
module Inbox {
  import opened Basics

  datatype Packet = Packet(peer: Bytes, socket: Bytes, channel: Byte, data: Bytes)

  /** The queue, its running byte count and its limit (0 means unlimited). */
  datatype InboxState = InboxState(queue: seq<Packet>, bytes: nat, limit: nat) {

    predicate HasRoom(size: nat) {
      limit == 0 || bytes + size <= limit
    }

    /** The running count is the sum of the queued sizes. */
    ghost predicate Accounted() {
      bytes == TotalBytes(queue)
    }

    /** A full queue drops the packet. */
    function Enqueue(p: Packet): InboxState {
      if HasRoom(|p.data|) then
        this.(queue := queue + [p], bytes := bytes + |p.data|)
      else
        this
    }

    ghost function Without(i: nat): InboxState
      requires i < |queue| && Accounted()
    {
      TotalWithout(queue, i);
      this.(queue := queue[..i] + queue[i + 1..], bytes := bytes - |queue[i].data|)
    }
  }

  /** What ReceivePacket hands the application: the packet, cut to the caller's buffer. */
  datatype Received = Received(peer: Bytes, socket: Bytes, channel: Byte, data: Bytes)

  /** As much of the payload, from its start, as the buffer takes. */
  function Cut(data: Bytes, capacity: nat): (r: Bytes)
    ensures r <= data && |r| == if |data| < capacity then |data| else capacity
  {
    if |data| < capacity then data else data[..capacity]
  }

  ghost function TotalBytes(queue: seq<Packet>): nat {
    if queue == [] then 0 else |queue[0].data| + TotalBytes(queue[1..])
  }

  lemma {:induction false} TotalOfConcat(a: seq<Packet>, b: seq<Packet>)
    ensures TotalBytes(a + b) == TotalBytes(a) + TotalBytes(b)
  {
    if a == [] {
      assert a + b == b;
    } else {
      assert (a + b)[1..] == a[1..] + b;
      TotalOfConcat(a[1..], b);
    }
  }

  lemma TotalWithout(queue: seq<Packet>, i: nat)
    requires i < |queue|
    ensures TotalBytes(queue[..i] + queue[i + 1..]) == TotalBytes(queue) - |queue[i].data|
  {
    assert queue == queue[..i] + ([queue[i]] + queue[i + 1..]);
    TotalOfConcat(queue[..i], [queue[i]] + queue[i + 1..]);
    TotalOfConcat([queue[i]], queue[i + 1..]);
    TotalOfConcat(queue[..i], queue[i + 1..]);
    assert [queue[i]][1..] == [];
  }

  predicate OnChannel(p: Packet, filter: Option<Byte>) {
    filter.None? || p.channel == filter.value
  }

  /** The oldest packet the filter admits; the queue's length when there is none. */
  function FirstOnChannel(queue: seq<Packet>, filter: Option<Byte>): (i: nat)
    ensures i <= |queue|
    ensures i < |queue| ==> OnChannel(queue[i], filter)
    ensures forall j :: 0 <= j < i ==> !OnChannel(queue[j], filter)
  {
    if queue == [] || OnChannel(queue[0], filter) then 0 else 1 + FirstOnChannel(queue[1..], filter)
  }

  predicate Cleared(p: Packet, peer: Option<Bytes>, socket: Bytes) {
    (peer.None? || p.peer == peer.value) && (socket == [] || p.socket == socket)
  }

  /** The packets a clear leaves in the queue, in their order. */
  ghost function Uncleared(queue: seq<Packet>, peer: Option<Bytes>, socket: Bytes): seq<Packet> {
    if queue == [] then []
    else (if Cleared(queue[0], peer, socket) then [] else [queue[0]]) + Uncleared(queue[1..], peer, socket)
  }

  lemma {:induction false} UnclearedOfConcat(a: seq<Packet>, b: seq<Packet>, peer: Option<Bytes>, socket: Bytes)
    ensures Uncleared(a + b, peer, socket) == Uncleared(a, peer, socket) + Uncleared(b, peer, socket)
  {
    if a == [] {
      assert a + b == b;
    } else {
      assert (a + b)[1..] == a[1..] + b;
      UnclearedOfConcat(a[1..], b, peer, socket);
      var head := if Cleared(a[0], peer, socket) then [] else [a[0]];
      assert (head + Uncleared(a[1..], peer, socket)) + Uncleared(b, peer, socket)
          == head + (Uncleared(a[1..], peer, socket) + Uncleared(b, peer, socket));
    }
  }

  lemma UnclearedNext(queue: seq<Packet>, i: nat, peer: Option<Bytes>, socket: Bytes)
    requires i < |queue|
    ensures Uncleared(queue[..i + 1], peer, socket)
         == if Cleared(queue[i], peer, socket) then Uncleared(queue[..i], peer, socket)
            else Uncleared(queue[..i], peer, socket) + [queue[i]]
  {
    assert queue[..i + 1] == queue[..i] + [queue[i]];
    UnclearedOfConcat(queue[..i], [queue[i]], peer, socket);
    assert [queue[i]][1..] == [];
  }

  /** `seen` packets have been looked at: those kept are in front of position i, the rest
      follow untouched. */
  ghost predicate ClearedSoFar(was: seq<Packet>, seen: nat, queue: seq<Packet>, i: nat, peer: Option<Bytes>,
                               socket: Bytes)
    requires seen <= |was| && i <= |queue|
  {
    queue[..i] == Uncleared(was[..seen], peer, socket) && queue[i..] == was[seen..]
  }

  lemma ClearsOneMore(was: seq<Packet>, seen: nat, queue: seq<Packet>, i: nat, peer: Option<Bytes>, socket: Bytes)
    requires seen <= |was| && i < |queue| && ClearedSoFar(was, seen, queue, i, peer, socket)
    ensures seen < |was|
    ensures if Cleared(queue[i], peer, socket)
          then ClearedSoFar(was, seen + 1, queue[..i] + queue[i + 1..], i, peer, socket)
            else ClearedSoFar(was, seen + 1, queue, i + 1, peer, socket)
  {
    assert queue[i] == queue[i..][0] == was[seen];
    assert queue[i + 1..] == queue[i..][1..] == was[seen + 1..];
    UnclearedNext(was, seen, peer, socket);
    var shorter := queue[..i] + queue[i + 1..];
    assert shorter[..i] == queue[..i] && shorter[i..] == queue[i + 1..];
    assert queue[..i + 1] == queue[..i] + [queue[i]];
  }

  lemma {:induction false} UnclearedInOrder(queue: seq<Packet>, peer: Option<Bytes>, socket: Bytes)
    ensures IsSubsequence(Uncleared(queue, peer, socket), queue)
  {
    if queue != [] {
      var rest := Uncleared(queue[1..], peer, socket);
      UnclearedInOrder(queue[1..], peer, socket);
      assert Uncleared(queue, peer, socket) == if Cleared(queue[0], peer, socket) then rest else [queue[0]] + rest;
      assert ([queue[0]] + rest)[1..] == rest;
    }
  }

  lemma CountCons(head: Packet, rest: seq<Packet>, p: Packet)
    ensures multiset([head] + rest)[p] == (if head == p then 1 else 0) + multiset(rest)[p]
  {
  }

  lemma {:induction false} UnclearedCount(queue: seq<Packet>, peer: Option<Bytes>, socket: Bytes, p: Packet)
    ensures multiset(Uncleared(queue, peer, socket))[p] == if Cleared(p, peer, socket) then 0 else multiset(queue)[p]
  {
    if queue != [] {
      UnclearedCount(queue[1..], peer, socket, p);
      CountCons(queue[0], queue[1..], p);
      CountCons(queue[0], Uncleared(queue[1..], peer, socket), p);
      assert queue == [queue[0]] + queue[1..];
      assert [] + Uncleared(queue[1..], peer, socket) == Uncleared(queue[1..], peer, socket);
    }
  }

  lemma {:induction false} UnclearedExtremes(queue: seq<Packet>, peer: Option<Bytes>, socket: Bytes)
    ensures peer.None? && socket == [] ==> Uncleared(queue, peer, socket) == []
    ensures (forall p :: p in queue ==> !Cleared(p, peer, socket)) ==> Uncleared(queue, peer, socket) == queue
  {
    if queue != [] { UnclearedExtremes(queue[1..], peer, socket); }
  }

  /** A clear keeps exactly the packets that do not match, as often as they were queued and
      in their order. */
  lemma UnclearedExact(queue: seq<Packet>, peer: Option<Bytes>, socket: Bytes, p: Packet)
    ensures IsSubsequence(Uncleared(queue, peer, socket), queue)
    ensures var matches := (peer == None || peer == Some(p.peer)) && (socket == [] || socket == p.socket);
      multiset(Uncleared(queue, peer, socket))[p] == if matches then 0 else multiset(queue)[p]
    ensures peer.None? && socket == [] ==> Uncleared(queue, peer, socket) == []
    ensures (forall q :: q in queue ==> !Cleared(q, peer, socket)) ==> Uncleared(queue, peer, socket) == queue
  {
    UnclearedInOrder(queue, peer, socket);
    UnclearedCount(queue, peer, socket, p);
    UnclearedExtremes(queue, peer, socket);
  }

  lemma EnqueueKeepsAccount(box: InboxState, p: Packet)
    requires box.Accounted()
    ensures box.Enqueue(p).Accounted()
    ensures box.limit != 0 && box.Enqueue(p) != box ==> box.Enqueue(p).bytes <= box.limit
    ensures box.HasRoom(|p.data|) <==> box.Enqueue(p).queue == box.queue + [p]
  {
    TotalOfConcat(box.queue, [p]);
    assert [p][1..] == [];
    assert |box.queue + [p]| != |box.queue|;
  }

  class PacketInbox {
    var queue: seq<Packet>
    var bytes: nat
    var limit: nat

    ghost function State(): InboxState
      reads this
    {
      InboxState(queue, bytes, limit)
    }

    ghost predicate Valid()
      reads this
    {
      State().Accounted()
    }

    constructor ()
      ensures Valid() && State() == InboxState([], 0, 0)
    {
      queue, bytes, limit := [], 0, 0;
    }

    method SetLimit(maxBytes: nat)
      requires Valid()
      modifies this`limit
      ensures Valid() && State() == old(State()).(limit := maxBytes)
    {
      limit := maxBytes;
    }

    predicate HasRoom(size: nat)
      reads this
      ensures HasRoom(size) == State().HasRoom(size)
    {
      limit == 0 || bytes + size <= limit
    }

    method Enqueue(p: Packet) returns (dropped: bool)
      requires Valid()
      modifies this
      ensures Valid() && State() == old(State()).Enqueue(p)
      ensures dropped <==> limit != 0 && TotalBytes(old(queue)) + |p.data| > limit
      ensures queue == if dropped then old(queue) else old(queue) + [p]
    {
      EnqueueKeepsAccount(State(), p);
      if !HasRoom(|p.data|) {
        return true;
      }
      bytes := bytes + |p.data|;
      queue := queue + [p];
      return false;
    }

    /** The size the next Receive with the same filter would report. */
    method NextSize(filter: Option<Byte>) returns (size: Option<nat>)
      requires Valid()
      ensures var i := FirstOnChannel(queue, filter);
              size == if i < |queue| then Some(|queue[i].data|) else None
    {
      for i := 0 to |queue|
        invariant FirstOnChannel(queue, filter) >= i
      {
        if OnChannel(queue[i], filter) {
          return Some(|queue[i].data|);
        }
      }
      return None;
    }

    method Receive(filter: Option<Byte>, capacity: nat) returns (r: Option<Received>)
      requires Valid()
      modifies this
      ensures Valid()
      ensures var was := old(State());
              var i := FirstOnChannel(was.queue, filter);
              if i < |was.queue| then
                && State() == was.Without(i)
                && var p := was.queue[i];
                && r.Some? && r.value.peer == p.peer && r.value.socket == p.socket && r.value.channel == p.channel
                && r.value.data <= p.data && |r.value.data| == if |p.data| < capacity then |p.data| else capacity
              else
                State() == was && r == None
    {
      var i := 0;
      while i < |queue|
        invariant 0 <= i <= FirstOnChannel(queue, filter)
        invariant State() == old(State())
      {
        var p := queue[i];
        if !OnChannel(p, filter) {
          i := i + 1;
          continue;
        }
        TotalWithout(queue, i);
        bytes := bytes - |p.data|;
        queue := queue[..i] + queue[i + 1..];
        return Some(Received(p.peer, p.socket, p.channel, Cut(p.data, capacity)));
      }
      return None;
    }

    /** `socketId` is None for a null socket pointer. */
    method Clear(peer: Option<Bytes>, socketId: Option<Bytes>)
      requires Valid()
      modifies this
      ensures Valid() && limit == old(limit)
      ensures var socket := if socketId.None? then [] else socketId.value;
              queue == Uncleared(old(queue), peer, socket)
    {
      var socket: Bytes := if socketId.None? then [] else socketId.value;
      if peer.None? && socketId.None? {
        UnclearedExtremes(queue, peer, socket);
        queue, bytes := [], 0;
        return;
      }
      ghost var was := queue;
      ghost var seen := 0;
      var i := 0;
      assert was[..0] == [];
      while i < |queue|
        invariant Valid() && limit == old(limit)
        invariant 0 <= seen <= |was| && 0 <= i <= |queue|
        invariant ClearedSoFar(was, seen, queue, i, peer, socket)
        decreases |was| - seen
      {
        ClearsOneMore(was, seen, queue, i, peer, socket);
        if Cleared(queue[i], peer, socket) {
          TotalWithout(queue, i);
          bytes := bytes - |queue[i].data|;
          queue := queue[..i] + queue[i + 1..];
        } else {
          i := i + 1;
        }
        seen := seen + 1;
      }
      assert was[..seen] == was;
      assert queue[..i] == queue;
    }
  }
}
