# eosemu in Dafny

eosemu answers the Epic Online Services interface on a local network, without a backend. This
project models the parts of it that are protocols or algorithms and proves what they promise.

**Peer-to-peer delivery** (`SeqExtension`, `Inbox`, `RecvStream`, `SendStream`, `SendTiming`, `SendRuns`,
`ReliableChannel`, `ReliableProgress`, `StreamKeys`, `ConnectionLifecycle`, `ConnectionHistory`, `P2PFrames`). A retransmitting sender, a receiver with a
watermark and a hole map, cumulative and selective acknowledgements, an inbox with a byte limit and
a pump with exponential backoff. `ReliableChannel` is a transition system: the network keeps a
datagram after delivering it, so it may arrive again, in any order, or be lost. Its theorems quantify
over every run, and `ReliableProgress` shows from every reachable state exactly when the stream can still finish.
`ConnectionHistory` tells from a connection's inputs its state and each of its notices. The classes `Stream`, `Sender`, `PacketInbox`, `ConnectionTable` and `StreamTables`
have the source's fields and loops; each method is proved to compute the function the transition
system steps with.

**Lobby replication** (`AttrLists`, `LobbyNode`, `LobbySystem`, `LobbyHandoffs`, `LobbyReplicas`,
`LobbyEvents`, `LobbyAttributes`, `LobbyEffects`). Any number of nodes, a multiset of datagrams that may be
lost, reordered and copied, and ownership that moves by announce. All owners of a lobby and all nodes that
announces in flight hand it to are one node. The class `Lobby` has the source's three indexes and its handlers;
`LobbyEffects` says of each call and datagram what it leaves on the roster, in the settings and attributes and in
the indexes, and what it sends.

**Wire formats** (`ByteCodec`, `AttributeCodec`, `LobbyCodec`, `SessionCodec`, `HelloCodec`,
`P2PFrames`). Each format is a pair of functions, printer and fail-fast parser, with round trips and
rejection of cut input; the writer and the reader with its sticky error flag are classes proved
against them. Values travel in canonical form: `Canon…` functions say what is normalised on the way.

**Smaller cores** (`RtcRooms`, `Dispatcher`, `ApiBlocks`, `StoredNames`). The voice-room reconciler,
the deferred-task queue, the block allocator with its hidden header and attachment chain, and the
percent-encoding of stored names.

Strings are byte sequences. Integers are unbounded except where the source's width matters: wire
counts and lengths, `Extend32` and its additions, lobby versions and broadcast sizes wrap or truncate
as in the source. Round-trip times are reals; a double on the wire is its 64-bit pattern. Clocks, the
answers of the underlying allocator, freshly minted lobby ids and the effects of posted tasks are
parameters. Enumeration values of the public SDK headers, which are not in the repository, are: attribute kinds
0 to 3, packet reliabilities 0 to 2, member statuses joined 0, left 1, disconnected 2, kicked 3,
promoted 4, closed 5, and the platform id 100.

## Assumptions of the run theorems

- One incarnation of a stream: closing a connection restarts its numbering at 1, and no claim spans that.
- Datagrams that are processed lie within 2^31 of the watermark; `FewPacketsStayInReach` shows this is
  automatic below 2^31 packets.
- A lobby is handed over to a node that is there only when no earlier hand-off of it, or copy of one, is still
  in flight. Broadcasts leave on every interface, so copies are real; `DuplicateHandoffForks` is a run that a
  late one takes to two owners, `LocalSafeExactly` shows that the condition is exact at each call, and
  `UncopiedHandoffsSettle` that it holds by itself where hand-offs are not copied.
- The meaning of versions asks two things: lobbies are given up under the condition of `ReleaseExactly`, which
  holds by itself where hand-offs are not copied (`UncopiedReleasesSettle`), and an owner that is off its
  roster joins its own lobby only while its current version is not in flight (`OwnerJoinExactly`). Limits
  play no part in it.
- A node's own broadcasts do not come back to it: they are dropped on receipt (src/net/Lan.cpp:395-399).
- Lobby capacity is promised for lobbies created for at least one member, whose owner does not lower the limit
  below the roster and, when off its roster, joins its own lobby only while a slot is free; `CarefulExactly`
  shows that these conditions are exact. Capacity asks nothing of hand-overs.
- Lobby versions stay clear of the end of 64 bits.
- Notices are folded while announced rosters are free of duplicates, which `RostersStayGood` gives, and
  departures do not close the lobby and meet the exact condition of `LeaveTracksExactly`.
- Where replicas are compared by attribute maps, a details handle is a copy of a record its node has or had, which
  is how the source makes them; owners' records and announces need no condition (`OwnersStayTidy`).
- A tick's views name distinct lobbies where rooms are compared with them (`TickReconciles`); that is proved of
  `SnapshotRooms`. `ListenerKnowsRosters` needs no such condition.

## Where the code differs from its comments, or surprises

- `Extend32` is described as the candidate closest to the reference; in epoch 0 it makes no downward
  correction, so numbers above the window are kept, and in the last epoch it misreads.
- The allocator's comment puts the header at the start of the raw allocation; the code puts it directly
  in front of the usable pointer, with the padding before it. `RoundUpPow2` raises small alignments and
  does not round others.
- The dispatcher's "FIFO order" is the pending tasks first and then the due delayed ones in insertion
  order, not in order of due time.
- A promotion of oneself or of a member that is not there, and a departure in favour of one, leave the lobby
  without an owner (`PromotionHandsOnExactly`, `LeaveHandsOnExactly`), and so does a hand-off to a member that
  has not joined locally (`AdoptsExactly`).
- Peer ids and socket names come off the wire with any bytes. A NUL inside a peer id can make two connections
  share their keys (`ConnKeyExactly`), and clearing a connection's streams, which goes by key prefix, also
  takes streams whose names differ by a NUL (`PrefixMatchesExactly`).
- An owner that a kick or a departure datagram took off its own roster, and that joins its lobby again, changes
  its record under an unchanged version and announces nothing: until the next change the same version stands
  for two records (`OwnerJoinExactly`).
- A custom room with a lobby room's name keeps the lobby's room from being made, and has its participants
  replaced by the lobby's at every tick (`TickReconciles`).
- Announces are applied whatever their version, so a late one sets a replica back until the next
  announce: a replica equals the owner's record exactly when the announce it took last has the owner's
  version (`CurrentAnnounceConverges`).
- Clearing the packet queue throws away packets whose delivery was acknowledged; reading then goes on past
  them, and what was read of an ordered stream is in order but no longer a prefix (`ApplicationReadsPrefix`).
- A member attribute of unknown kind, or a NaN, is reported as changed on every announce.

## Model

| member | source | states |
|---|---|---|
| `ReliableChannel.RunKeepsInv` | src/interfaces/P2P.cpp:381-406 | in every state reachable through sends, deliveries in any order and number, losses, pumps, drains, reads, clears and other traffic, the whole system invariant holds (one stream incarnation, datagrams within the 2^31 distance) |
| `ReliableChannel.StepKeepsInv` | src/interfaces/P2P.cpp:634-670 | each single step keeps that invariant: nothing lost, released and buffered numbers partition the received ones, ordered release in sequence, every ack in flight truthful |
| `ReliableChannel.FewPacketsStayInReach` | src/interfaces/P2P.cpp:81-84 | while fewer than 2^31 packets have been sent the distance assumption holds by itself on every datagram in flight, of whatever age |
| `ReliableChannel.OrderedDeliversPrefix` | src/interfaces/P2P.cpp:204-222 | the payloads an ordered stream puts into the inbox are, at every moment, a prefix of the payloads sent |
| `ReliableChannel.ApplicationReadsPrefix` | src/interfaces/P2P.cpp:468-488 | what the application has read from an ordered stream is a prefix of what was sent, cut only by the buffers it offered, whatever channel filters it used, if and only if it has read nothing past packets of the stream that it cleared |
| `ReliableChannel.ReadsAreSentOnce` | src/interfaces/P2P.cpp:451-489 | on either kind of stream, whatever is read and cleared: each read is a prefix of a packet sent, of the length of the packet or of the buffer, whichever is less; none is read twice, reads follow the order of release and on an ordered stream of sending, and what was released is read, cleared or queued, each once |
| `ReliableChannel.LargeBuffersReadWhole` | src/interfaces/P2P.cpp:474-478 | in that case, with buffers no smaller than the payloads, the payloads read are the first payloads sent, whole |
| `ReliableProgress.RecoveryExactly` | src/interfaces/P2P.cpp:656-671 | from every reachable state, whatever was lost, some continuation of pumps, deliveries, drains and reads acknowledges and releases every packet sent and hands the application all it has not cleared, if and only if each packet not yet released fits into the inbox; a lost ack recovers because a duplicate is acknowledged again |
| `ReliableChannel.DeliversAtMostOnce` | src/interfaces/P2P.cpp:640-655 | on either kind of reliable stream no packet is released twice and none that was not sent, each with its own payload; what leaves the inbox, read or cleared, leaves in the order of release |
| `ReliableChannel.AcknowledgedIsDelivered` | src/interfaces/P2P.cpp:748-766 | a number no longer pending at the sender has been released or is buffered at the receiver, not both, with its payload intact |
| `ReliableChannel.QuiescentDeliversAll` | src/interfaces/P2P.cpp:198-237 | with nothing pending, one drain into an unlimited inbox has released everything ever sent, in order on an ordered stream |
| `ReliableChannel.AckErasesOnlyReceived` | src/interfaces/P2P.cpp:748-766 | acknowledgements of any age, in any order, erase only numbers already received, and all the pending ones they cover |
| `RecvStream.AcceptRecords` | src/interfaces/P2P.cpp:639-654 | recording a packet adds exactly its number to the received set, once, and pruning loses none of it; the set stays [1, NextExpected) plus what lies above the hole |
| `RecvStream.AckOfExact` | src/interfaces/P2P.cpp:657-661 | an acknowledgement claims only received numbers, and claims every received one within its reach of 32 numbers past the hole |
| `RecvStream.DrainMoves` | src/interfaces/P2P.cpp:198-237 | whatever the limit, what leaves the receive buffer is what enters the inbox, each packet once and unchanged, in sequence on an ordered stream |
| `RecvStream.DrainStops` | src/interfaces/P2P.cpp:213-231 | a drain blocks only on a full inbox; an unblocked one leaves nothing releasable; an unlimited inbox never blocks |
| `RecvStream.DrainKeepsForm` | src/interfaces/P2P.cpp:198-237 | a drain keeps the stream well formed (ordered: NextToDeliver at most NextExpected) and the inbox byte count exact |
| `RecvStream.Stream.OnData` | src/interfaces/P2P.cpp:634-669 | the loop over a data datagram, its pruning, its drain and the ack it owes are the functions the theorems speak of |
| `RecvStream.Stream.Record` | src/interfaces/P2P.cpp:640-654 | duplicates change nothing; otherwise the watermark moves to the first gap and the received set is pruned below it |
| `RecvStream.Stream.DrainInto` | src/interfaces/P2P.cpp:198-237 | the in-place drain loops release exactly the specified packets and never reach the dropping branch of EnqueueInbox |
| `RecvStream.Stream.OwedAck` | src/interfaces/P2P.cpp:657-661 | the 32-step mask loop builds the acknowledgement of the state |
| `Inbox.EnqueueKeepsAccount` | src/interfaces/P2P.cpp:180-196 | the byte counter stays the sum of queued sizes; an enqueue happens exactly when there is room and never exceeds a nonzero limit |
| `Inbox.UnclearedExact` | src/interfaces/P2P.cpp:1272-1298 | a clear removes exactly the matching packets; the others stay, each as often as it was queued and in their order |
| `Inbox.PacketInbox.Enqueue` | src/interfaces/P2P.cpp:180-196 | queues the packet last, or drops it exactly when a limit is set and the queued bytes with it would exceed it |
| `Inbox.PacketInbox.NextSize` | src/interfaces/P2P.cpp:441-449 | reports the size of the packet the next matching receive returns, or none |
| `Inbox.PacketInbox.Receive` | src/interfaces/P2P.cpp:468-489 | takes the oldest packet the filter admits, returns its first min(size, buffer) bytes, gives back its bytes and leaves the rest in order |
| `Inbox.PacketInbox.Clear` | src/interfaces/P2P.cpp:1276-1297 | the erase-while-iterating loop leaves exactly the non-matching packets and an exact byte count |
| `Inbox.PacketInbox.SetLimit` | src/interfaces/P2P.cpp:1241-1247 | changing the limit touches neither the queue nor its account |
| `SeqExtension.Extend32Exact` | src/interfaces/P2P.cpp:85-97 | a 64-bit number is recovered from its low half if and only if it is in the half-open 2^31 window, or, in epoch 0 where no downward correction is made, above it |
| `SeqExtension.WindowIsTight` | src/interfaces/P2P.cpp:88-95 | both ends of the window: one step past either is misread by 2^32 |
| `SeqExtension.LastEpochMisreads` | src/interfaces/P2P.cpp:88-91 | near 2^64 the wrapping addition misreads an in-window successor |
| `SeqExtension.ClearOfWrapExactly` | src/interfaces/P2P.cpp:85-97 | a reference recovers every 64-bit number of its window if and only if it lies below the last 2^32 values |
| `SendStream.AcknowledgeErases` | src/interfaces/P2P.cpp:748-766 | cumulative and selective erasure together remove exactly the pending numbers the ack covers |
| `SendStream.EstimateStaysWithin` | src/interfaces/P2P.cpp:727-747 | with samples in [lo, hi], one acknowledgement keeps SRTT in [lo, hi] and RTTVAR at most max(hi/2, hi - lo) |
| `SendRuns.EstimateOverRuns` | src/interfaces/P2P.cpp:727-747 | the same over every run of sends, acknowledgements and pumps from a fresh stream, and the timeout in [10, 500] ms throughout |
| `SendTiming.AckSamples` | src/interfaces/P2P.cpp:727-747 | an ack covering no packet sent just once leaves the estimate alone; one covering a single such packet moves it by that round trip: taken as it is at first, afterwards SRTT keeps 7/8 of its distance and RTTVAR becomes 3/4 of itself plus 1/4 of that distance |
| `SendTiming.SteadyRounds` | src/interfaces/P2P.cpp:741-746 | after n round trips of r the distance of SRTT to r is (7/8)^n of what it was, and RTTVAR follows in closed form |
| `SendTiming.SteadyRoundsSettle` | src/interfaces/P2P.cpp:741-746 | hence both tend to zero, at least as fast as 7 / (n + 7) |
| `SendTiming.RtoExactly` | src/interfaces/P2P.cpp:239-248 | the timeout is 50 ms before a sample, then SRTT + max(1, 4 RTTVAR) to the nearest millisecond within 10 and 500 |
| `SendTiming.PumpExactly` | src/interfaces/P2P.cpp:804-848 | a pump sends a packet again, and counts it, exactly when min(500, RTO * 2^(tries-1)) ms have passed since it was last sent, changes nothing else, and finds the stream exhausted exactly when such a packet had 16 tries |
| `SendStream.RtoFor` | src/interfaces/P2P.cpp:239-248 | the timeout lies in [10, 500] ms and above SRTT while that is below the cap |
| `SendStream.BackoffIsExponential` | src/interfaces/P2P.cpp:815-824 | the wait is min(RTO * 2^(tries-1), 500) |
| `SendStream.BackoffWait` | src/interfaces/P2P.cpp:816-824 | the doubling loop with its early exit computes that wait |
| `SendStream.SilenceIsNoticed` | src/interfaces/P2P.cpp:825-847 | a never-acknowledged packet is found exhausted within 16 * 500 ms plus 16 pump gaps of its first transmission, whatever the estimate does |
| `SendRuns.SilenceInterrupts` | src/interfaces/P2P.cpp:804-848 | over every run of sends, other acknowledgements, pumps at most a gap apart and anything else on a live connection, a packet never acknowledged interrupts the connection, or finds an interruption standing, by that deadline |
| `SendRuns.PacketStep` | src/interfaces/P2P.cpp:812-847 | no event but its own acknowledgement touches a pending packet, except a pump, which retries it exactly when due |
| `SendStream.Sender.Send` | src/interfaces/P2P.cpp:388-405 | numbers are handed out in sequence and the payload stays pending |
| `SendStream.Sender.TakeSample` | src/interfaces/P2P.cpp:727-747 | only never-retransmitted packets are sampled (section 3 of RFC 6298), and how far each moves SRTT and RTTVAR |
| `SendStream.Sender.OnAck` | src/interfaces/P2P.cpp:725-766 | the two erasure loops over the ordered map perform the acknowledgement on the extended number |
| `SendStream.Sender.Pump` | src/interfaces/P2P.cpp:804-848 | the pump loop retransmits exactly the due packets in ascending order, counts the try, and reports exhaustion exactly when a due packet has had 16 |
| `ConnectionHistory.HistoryTellsState` | src/interfaces/P2P.cpp:503-626 | after every history the connection is there, accepted, established or interrupted, and since when, exactly when the inputs since its last removal say so |
| `ConnectionHistory.NoticesExactly` | src/interfaces/P2P.cpp:503-626 | over every history, each input brings at most one notice, and each of the seven kinds if and only if its input and the entries before it call for it: NewConnection on data or an accept of either side with none since the last removal, Reconnection on an answer to a standing interruption, and so on |
| `ConnectionHistory.RemovedExactly` | src/interfaces/P2P.cpp:544-596 | a connection goes exactly on a refusal, a close by either side, or a pump 10 s or more after a standing interruption |
| `ConnectionLifecycle.NewConnectionOncePerLife` | src/interfaces/P2P.cpp:621-626 | over every history, two NewConnection notices for a connection have its removal between them |
| `ConnectionLifecycle.InterruptionsAreSeparated` | src/interfaces/P2P.cpp:837-842 | two Interrupted notices have data, an ack, an accept or a removal between them |
| `ConnectionLifecycle.TimeOutFollowsSilence` | src/interfaces/P2P.cpp:851-864 | a time-out comes at least the 10 s grace after an interruption with no answer between, so never in the same pump |
| `ConnectionLifecycle.ConnectionTable.OnConnectRequest` | src/interfaces/P2P.cpp:509-543 | a request is notified, ignored or refused as acceptance and listeners decide; only its own entry changes |
| `ConnectionLifecycle.ConnectionTable.OnConnectIgnored` | src/interfaces/P2P.cpp:544-558 | the connection goes, with a notice only if there was one |
| `ConnectionLifecycle.ConnectionTable.OnConnectAccept` | src/interfaces/P2P.cpp:559-586 | an accept establishes and ends an interruption, with the one notice the history allows |
| `ConnectionLifecycle.ConnectionTable.OnConnectClose` | src/interfaces/P2P.cpp:587-596 | the connection goes and its closing is always notified |
| `ConnectionLifecycle.ConnectionTable.OnData` | src/interfaces/P2P.cpp:615-626 | data establishes or revives a connection, with the one notice the history allows |
| `ConnectionLifecycle.ConnectionTable.OnAck` | src/interfaces/P2P.cpp:713-720 | an ack ends an interruption but establishes nothing |
| `ConnectionLifecycle.ConnectionTable.OnSend` | src/interfaces/P2P.cpp:322-355 | a send creates or accepts the connection, or fails without a trace when auto-accept is off |
| `ConnectionLifecycle.ConnectionTable.AcceptConnection` | src/interfaces/P2P.cpp:1020-1046 | accepting establishes, notified once |
| `ConnectionLifecycle.ConnectionTable.CloseConnection` | src/interfaces/P2P.cpp:1057-1066 | closing removes exactly that connection, without a notice |
| `ConnectionLifecycle.ConnectionTable.Pump` | src/interfaces/P2P.cpp:829-864 | one pump over all connections does to each what one pump of its own history does |
| `StreamKeys.ConnKeyExactly` | src/interfaces/P2P.cpp:261-267 | for any ids and socket names two connections share a key if and only if they are the same, or one peer id holds a NUL at which the other reading of the same bytes splits it |
| `StreamKeys.StreamKeyExactly` | src/interfaces/P2P.cpp:129-136 | two streams share a key if and only if channels and modes agree and their connections share one |
| `StreamKeys.StreamKeyInjective` | src/interfaces/P2P.cpp:129-136 | hence streams of peer ids without NUL share a key only if they are the same stream |
| `StreamKeys.PrefixMatchesExactly` | src/interfaces/P2P.cpp:138-149 | for any ids and socket names, a connection prefix matches a stream if and only if their connections share a key, or the stream's key continues the connection's after a NUL, or the stream is on channel 0 of the key that the connection's extends by a NUL |
| `StreamKeys.PrefixStaysWithPeer` | src/interfaces/P2P.cpp:138-149 | for peer ids without NUL the prefix matches only streams of its peer, and its socket name covers theirs in the same three ways |
| `StreamKeys.PrefixMatchesOwnStreams` | src/interfaces/P2P.cpp:138-149 | without NULs in any name it matches exactly that connection's streams |
| `StreamKeys.PrefixNeedsNulFreeNames` | src/interfaces/P2P.cpp:140-143 | every way of over-matching occurs: both for any socket name, and one across peers |
| `StreamKeys.ClearErasesExactly` | src/interfaces/P2P.cpp:138-156 | clearing a connection keeps exactly the streams its prefix does not match, whatever the ids and names off the wire |
| `StreamKeys.StreamTables.ClearStreams` | src/interfaces/P2P.cpp:138-156 | the erase loops remove from both tables exactly the keys with the prefix |
| `StreamKeys.SocketName` | src/interfaces/P2P.cpp:37-51 | the name is the longest NUL-free prefix, at most 32 bytes |
| `P2PFrames.DataFrameRoundTrip` | src/interfaces/P2P.cpp:390-397 | a data frame decodes to itself if sender and socket are named, and is dropped otherwise |
| `P2PFrames.AckFrameRoundTrip` | src/interfaces/P2P.cpp:662-669 | an ack frame decodes to itself, each mask bit in its place |
| `P2PFrames.OnDataFrame` | src/interfaces/P2P.cpp:498-608 | the handler drops what the grammar rejects; any nonzero mode is reliable, exactly mode 2 ordered |
| `ByteCodec.ListRoundTrip` | src/interfaces/Lobby.cpp:125-141 | a list of elements that each round-trip decodes to the list they decode to, and consumes exactly its encoding |
| `ByteCodec.CutIsRejected` | src/net/Serialize.h:101-110 | a parser insensitive to following bytes that consumes a whole encoding rejects each of its strict prefixes |
| `ByteCodec.StrRoundTrip` | src/net/Serialize.h:33-37 | length-prefixed strings round-trip; the length is 32 bits wide |
| `ByteCodec.ByteWriter.Str` | src/net/Serialize.h:33-37 | appends exactly the encoding, the length truncated to 32 bits |
| `ByteCodec.ByteReader.Raw` | src/net/Serialize.h:101-110 | a read past the end fails for good and moves nothing |
| `ByteCodec.ByteReader.Str` | src/net/Serialize.h:74-85 | accepts exactly what fits in the remaining bytes, otherwise fails for good |
| `AttributeCodec.AttrRoundTrip` | src/interfaces/Attributes.cpp:20-47 | a tagged attribute round-trips to its canonical form, for every kind including unknown ones |
| `AttributeCodec.CanonKeepsValues` | src/interfaces/Attributes.cpp:20-47 | the canonical form keeps key, kind, tag and the value of that kind |
| `AttributeCodec.CanonAttrsIdempotent` | src/interfaces/Attributes.cpp:34-47 | travelling twice changes nothing more |
| `AttributeCodec.WriteAttr` | src/interfaces/Attributes.cpp:20-32 | the switch writes exactly the grammar's encoding |
| `AttributeCodec.ReadAttr` | src/interfaces/Attributes.cpp:34-47 | the switch accepts exactly what the grammar accepts |
| `LobbyCodec.LobbyRoundTrip` | src/interfaces/Lobby.cpp:109-184 | every serialised field of a lobby record comes back and exactly the encoding is consumed |
| `LobbyCodec.CanonRecordIdempotent` | src/interfaces/Lobby.cpp:144-184 | a record that has travelled once travels unchanged from then on |
| `LobbyCodec.CutLobbyIsRejected` | src/interfaces/Lobby.cpp:144-184 | every strict prefix of an encoded record is rejected |
| `LobbyCodec.AnnounceIsExactOrRejected` | src/interfaces/Lobby.cpp:186-191 | an announce within 16368 bytes arrives whole; of a larger one, with the size truncated to 16 bits, receivers get nothing or something they reject |
| `LobbyCodec.SerializeRecord` | src/interfaces/Lobby.cpp:109-142 | the writer loops append exactly the encoding |
| `LobbyCodec.DeserializeRecord` | src/interfaces/Lobby.cpp:144-184 | the reader loops accept exactly what the grammar accepts, whatever the counts claim |
| `LobbyCodec.ReadMembers` | src/interfaces/Lobby.cpp:164-183 | the member loop reads at most as many elements as bytes remain, plus the failed one |
| `SessionCodec.SessionRoundTrip` | src/interfaces/Sessions.cpp:48-99 | every serialised field of a session record comes back and exactly the encoding is consumed |
| `SessionCodec.CanonKeepsFields` | src/interfaces/Sessions.cpp:48-99 | every field survives, flags as truth values |
| `SessionCodec.CutSessionIsRejected` | src/interfaces/Sessions.cpp:73-99 | every strict prefix of an encoded session is rejected |
| `SessionCodec.SerializeRecord` | src/interfaces/Sessions.cpp:48-71 | the writer loops append exactly the encoding |
| `SessionCodec.DeserializeRecord` | src/interfaces/Sessions.cpp:73-99 | the reader loops accept exactly what the grammar accepts |
| `HelloCodec.HelloRoundTrip` | src/core/Platform.cpp:382-401 | a full Hello decodes to itself |
| `HelloCodec.BaseOnlyGivesDefaults` | src/core/Platform.cpp:299-301 | a Hello from a build without the extension decodes to its base with default presence |
| `HelloCodec.CutHello` | src/core/Platform.cpp:289-320 | cut inside the base it is dropped; cut inside the extension it yields the base with defaults, never part of the extension |
| `HelloCodec.BroadcastHello` | src/core/Platform.cpp:373-402 | the writer sends exactly the encoding |
| `HelloCodec.OnHello` | src/core/Platform.cpp:287-320 | the handler decodes exactly so, and never builds more presence records than the payload has bytes, whatever the count claims |
| `LobbySystem.AtMostOneAuthority` | src/interfaces/Lobby.cpp:1035-1062 | over every run with datagrams lost, reordered and copied, in which hand-overs to nodes that are there find no earlier hand-off of the lobby in flight, no two nodes own the same lobby, and an owner's record names it |
| `LobbySystem.StepKeepsAuthorityInv` | src/interfaces/Lobby.cpp:538-600 | every local call, delivery, loss and copy keeps all owners and all addressees of hand-offs of a lobby one node |
| `LobbySystem.MsgHandsNothingOver` | src/interfaces/Lobby.cpp:1016-1255 | no datagram makes a node name another owner, so only promotions and departures hand over |
| `LobbyHandoffs.LocalSafeExactly` | src/interfaces/Lobby.cpp:538-603 | every local call keeps one heir if and only if, in case it hands the lobby to a node that is there, no earlier hand-off of it is in flight |
| `LobbyHandoffs.HandoverSafeExactly` | src/interfaces/Lobby.cpp:593-600 | naming another reachable owner keeps one heir if and only if no earlier hand-off of the lobby is in flight |
| `LobbyHandoffs.PromotionSafeExactly` | src/interfaces/Lobby.cpp:588-603 | the same for promoting a member |
| `LobbyHandoffs.LeaveSafeExactly` | src/interfaces/Lobby.cpp:545-556 | the same for the hand-off of a leaving owner |
| `LobbyHandoffs.UncopiedHandoffsSettle` | src/interfaces/Lobby.cpp:1059-1062 | if the network copies no hand-off on its way to the heir, that condition always holds, and an owner never has a hand-off in flight |
| `LobbyHandoffs.DuplicateHandoffForks` | src/net/Lan.cpp:344-348 | for any two nodes of a fresh system there is a run with a copied hand-off at whose end both own the lobby |
| `LobbyHandoffs.PromotionHandsOnExactly` | src/interfaces/Lobby.cpp:593-600 | after a promotion somebody owns the lobby or is handed it, if and only if the target is another node that is there or an earlier hand-off is in flight |
| `LobbyHandoffs.SelfPromotionStrands` | src/interfaces/Lobby.cpp:593-600 | an owner that promotes itself leaves the lobby without authority, unless an earlier hand-off to it is in flight |
| `LobbyHandoffs.LeaveHandsOnExactly` | src/interfaces/Lobby.cpp:538-556 | exactly when a departing owner leaves authority behind |
| `LobbyHandoffs.AdoptsExactly` | src/interfaces/Lobby.cpp:1055-1062 | a delivered hand-off makes its addressee the owner if and only if it is one already or belongs to the lobby by its own account |
| `LobbyReplicas.RostersStayGood` | src/interfaces/Lobby.cpp:1182-1194 | over every run of calls that are careful in the sense of CarefulExactly, copies included, each owner's record and each announce in flight has distinct members within capacity, across hand-offs, and the indexes stay inside the cache |
| `LobbyReplicas.StepKeepsRosters` | src/interfaces/Lobby.cpp:582-643 | each careful step keeps that |
| `LobbyReplicas.CarefulExactly` | src/interfaces/Lobby.cpp:230-254 | a local call keeps records and announces good if and only if it creates for at least one member, does not lower the limit below the roster, and joins an owned lobby only while listed or while a slot is free |
| `LobbyReplicas.JoiningOwnLobbyNeedsRoom` | src/interfaces/Lobby.cpp:493-503 | joining one's own lobby keeps the roster good exactly when already listed or a slot is free, because it skips the capacity check |
| `LobbyReplicas.VersionsStayMeaningful` | src/interfaces/Lobby.cpp:331-338 | over every run in which lobbies are given up as in ReleaseExactly and owners join their own lobbies as in OwnerJoinExactly, copies included: equal versions in flight mean equal records, none is newer than the owner's, and the owner's version in flight is its current record |
| `LobbyReplicas.StepKeepsVersions` | src/interfaces/Lobby.cpp:1078-1110 | each step under those two conditions keeps that, hand-offs included, whatever limits are set |
| `LobbyReplicas.ReleaseExactly` | src/interfaces/Lobby.cpp:538-556 | giving a lobby up, by a call or on a datagram that closes it, keeps that, when another node is there to hear, if and only if no earlier hand-off of it is in flight, or it is given up in silence and nothing in flight is newer than such a hand-off |
| `LobbyReplicas.OwnerJoinExactly` | src/interfaces/Lobby.cpp:487-512 | an owner's join of its own lobby keeps that if and only if it is still listed or its current version is nowhere in flight |
| `LobbyReplicas.CurrentAnnounceConverges` | src/interfaces/Lobby.cpp:1023-1062 | in those runs a non-owner that takes an announce ends with the owner's record, up to where and when it was heard, if and only if the announce carries the owner's version |
| `LobbyReplicas.AdoptionExactly` | src/interfaces/Lobby.cpp:1055-1062 | adopting a hand-off keeps versions meaningful if and only if nothing left in flight is newer |
| `LobbyReplicas.UncopiedReleasesSettle` | src/interfaces/Lobby.cpp:1059-1062 | where the network copies no hand-off, the condition on giving lobbies up holds by itself |
| `LobbyReplicas.AnnounceRoundConverges` | src/interfaces/Lobby.cpp:193-205 | if the owner re-announces and every copy arrives, all nodes hold its record, however far apart losses and local edits had driven them |
| `LobbyEffects.CreateExactly` | src/interfaces/Lobby.cpp:230-257 | the creator is owner and only member, with exactly the settings asked for, and the record is announced |
| `LobbyEffects.DestroyExactly` | src/interfaces/Lobby.cpp:396-425 | the owner and every node that takes the closing datagram forget the lobby; anybody else is refused |
| `LobbyEffects.JoinExactly` | src/interfaces/Lobby.cpp:480-512 | joining lists exactly the caller in addition, locally, and asks the record's host |
| `LobbyEffects.JoinByHandleExactly` | src/interfaces/Lobby.cpp:438-468 | the same on the cached record or else the handle's |
| `LobbyEffects.JoinRequestExactly` | src/interfaces/Lobby.cpp:1174-1210 | the owner admits a joiner if and only if it is unlisted and a slot is free; then exactly it is added and the record announced |
| `LobbyEffects.LeaveExactly` | src/interfaces/Lobby.cpp:530-562 | the leaver goes off; the lobby is forgotten, or handed with the remaining roster to the first left behind |
| `LobbyEffects.DepartureExactly` | src/interfaces/Lobby.cpp:1213-1253 | a departure takes exactly its subject off the roster, and off the membership if it is this node |
| `LobbyEffects.KickExactly` | src/interfaces/Lobby.cpp:616-639 | a kick takes exactly the target off the owner's record and the announced one, departure first |
| `LobbyEffects.KickReaches` | src/interfaces/Lobby.cpp:616-639 | a node that takes both datagrams has the old roster without the target, and the target no longer belongs |
| `LobbyEffects.PromoteExactly` | src/interfaces/Lobby.cpp:588-603 | the record names a listed target, the caller gives the lobby up and stays a member; refused to anybody else |
| `LobbyEffects.OwnerUpdateExactly` | src/interfaces/Lobby.cpp:281-338 | each setting given replaces the old one and no other changes; attributes are the old ones overridden by the additions without the removed keys, for the lobby and for the caller alone |
| `LobbyEffects.MemberUpdateExactly` | src/interfaces/Lobby.cpp:340-370 | a member's own attributes are merged and forwarded; a change of the lobby itself is refused |
| `LobbyEffects.ForwardedUpdateExactly` | src/interfaces/Lobby.cpp:1126-1172 | only the owner merges it, for a listed member, and announces |
| `LobbyEffects.AnnounceTaken` | src/interfaces/Lobby.cpp:1021-1062 | a node that takes an announce has its settings, owner, version and roster, and its attribute maps as they travel |
| `LobbyEffects.AnnounceTells` | src/interfaces/Lobby.cpp:1038-1122 | between rosters without duplicates a game hears once of a new version, once of each arrival and departure, once of a new owner, and of no other |
| `LobbyEvents.NotificationsReproduceRoster` | src/interfaces/Lobby.cpp:1038-1110 | while a node stays a member, its join and departure notices folded over its starting roster give exactly its record's members, for any sequence of announces without duplicates, updates, join requests, and departures that LeaveTracksExactly admits |
| `LobbyEvents.DatagramTracks` | src/interfaces/Lobby.cpp:1183-1253 | each single datagram keeps that agreement |
| `LobbyEvents.LeaveTracksExactly` | src/interfaces/Lobby.cpp:1229-1253 | for a departure datagram the agreement holds if and only if its reason says departure, or it neither says joined nor names a member |
| `LobbyEvents.UpdatesGoToChangedMembers` | src/interfaces/Lobby.cpp:1046-1054 | on an announce between records that list members and keys once, each member whose attribute map differs is reported once, and no other |
| `LobbyEvents.UpdatesCountChanges` | src/interfaces/Lobby.cpp:1046-1054 | for any two records, also with repeated members or keys: one report per entry of the new roster that the comparison finds changed |
| `LobbyAttributes.OwnersStayTidy` | src/interfaces/Lobby.cpp:1154-1160 | on every run, without conditions, owners' records and announces in flight list each member once and each of its attribute keys once |
| `LobbyAttributes.RecordsStayTidy` | src/interfaces/Lobby.cpp:438-455 | so do all replicas, joining through details handles included, which are copies of records their node had |
| `LobbyAttributes.AnnouncedUpdatesExact` | src/interfaces/Lobby.cpp:1038-1054 | hence in those runs a member that takes any announce in flight is told once of exactly the members whose attribute maps differ |
| `LobbyAttributes.UpdateReadsBack` | src/interfaces/Lobby.cpp:346-370 | after a member changes its own attributes and the owner merges what it forwards, the owner announces for it the map the member already reads, if both had the same before |
| `AttrLists.MergeIsMapMerge` | src/interfaces/Lobby.cpp:52-65 | merging a unique-key list is override by the additions then removal of the keys, and keeps keys unique |
| `AttrLists.LastAdditionWins` | src/interfaces/Lobby.cpp:289-294 | among additions with one key the last wins |
| `AttrLists.MergeReadsBack` | src/interfaces/Lobby.cpp:346-370 | merging a change, and merging what the wire makes of it, into two lists of one map leaves two lists of one map |
| `AttrLists.MergeIdempotent` | src/interfaces/Lobby.cpp:1148-1159 | merging the same update twice leaves the same map, so a duplicated forward is harmless |
| `AttrLists.SameAttrsIsMapEquality` | src/interfaces/Lobby.cpp:67-84 | the order-insensitive comparison holds exactly when the two maps are equal |
| `AttrLists.PlainEquality` | src/interfaces/Attributes.h:43-54 | entry comparison is plain equality on known kinds without NaN or negative zero |
| `AttrLists.IncomparableNeverEqual` | src/interfaces/Attributes.h:43-54 | an attribute equals itself if and only if its kind is known and it is not a NaN; others are reported changed on every announce |
| `AttrLists.ApplyAttrs` | src/interfaces/Lobby.cpp:52-65 | the nested scan-and-replace loops perform the merge |
| `AttrLists.MemberAttrsEqual` | src/interfaces/Lobby.cpp:69-84 | the nested loops decide the comparison |
| `LobbyNode.FindMember` | src/interfaces/Lobby.cpp:32-41 | the first entry with the id |
| `LobbyNode.Lobby.CreateLobby` | src/interfaces/Lobby.cpp:230-254 | the creator owns, belongs to and announces a lobby whose only member it is |
| `LobbyNode.Lobby.DestroyLobby` | src/interfaces/Lobby.cpp:396-423 | only the owner destroys; the lobby is forgotten and its closing broadcast |
| `LobbyNode.Lobby.JoinLobby` | src/interfaces/Lobby.cpp:441-469 | an optimistic local join and a request to the host of the details copy |
| `LobbyNode.Lobby.JoinLobbyById` | src/interfaces/Lobby.cpp:487-512 | the same through the cache, or NotFound |
| `LobbyNode.Lobby.LeaveLobby` | src/interfaces/Lobby.cpp:532-569 | leaving, with the hand-off to the first remaining member when the owner leaves and migration is allowed |
| `LobbyNode.Lobby.UpdateLobby` | src/interfaces/Lobby.cpp:319-383 | an owner applies, versions and announces; a member applies its own attributes and forwards them; others are refused |
| `LobbyNode.Lobby.PromoteMember` | src/interfaces/Lobby.cpp:588-603 | hands a lobby to a listed member and gives up ownership |
| `LobbyNode.Lobby.KickMember` | src/interfaces/Lobby.cpp:616-639 | removes a member, with departure and new record broadcast in that order |
| `LobbyNode.Lobby.PeriodicAnnounce` | src/interfaces/Lobby.cpp:193-205 | every owned lobby that is cached is announced, once |
| `LobbyNode.Lobby.HandleAnnounce` | src/interfaces/Lobby.cpp:1020-1062 | ignored by the owner; otherwise replaces the record, adopts ownership when named, and reports the differences |
| `LobbyNode.Lobby.HandleUpdate` | src/interfaces/Lobby.cpp:1145-1178 | only the owner merges a listed member's attributes and re-announces |
| `LobbyNode.Lobby.HandleJoinRequest` | src/interfaces/Lobby.cpp:1180-1211 | admits an unlisted joiner while a slot is free |
| `LobbyNode.Lobby.HandleLeave` | src/interfaces/Lobby.cpp:1213-1255 | forgets a closed lobby; otherwise drops the member and, as owner, re-announces |
| `LobbyNode.Lobby.OnAnnounceDatagram` | src/interfaces/Lobby.cpp:1018-1024 | an announce payload is decoded and handled, or dropped without effect |
| `RtcRooms.TickReconciles` | src/interfaces/RTC.cpp:117-181 | after a tick the lobby-managed rooms are exactly the views and custom rooms are untouched, if and only if no custom room has a viewed lobby's room name |
| `RtcRooms.TickKeepsSettings` | src/interfaces/RTC.cpp:141-156 | a room that survives a tick keeps its audio status and lobby |
| `RtcRooms.ListenerKnowsRosters` | src/interfaces/RTC.cpp:117-181 | over any sequence of ticks and custom-room calls, whatever the rooms are named, all events so far folded give exactly the rosters of the lobby-managed rooms |
| `RtcRooms.VisitTells` | src/interfaces/RTC.cpp:117-160 | a visit tells once per listing of each newcomer, of its audio and its data, of each departure, and of a new room's connection first |
| `RtcRooms.UnchangedViewsAreSilent` | src/interfaces/RTC.cpp:121-157 | a tick fires nothing if and only if rooms and views already agree |
| `RtcRooms.SnapshotRooms` | src/interfaces/Lobby.cpp:982-1000 | the views handed to a tick are of distinct lobbies: exactly those the node belongs to that have a voice room, with their records' members |
| `RtcRooms.RoomTable.PumpTick` | src/interfaces/RTC.cpp:117-181 | the two loops reconcile as specified, disconnections once each in the order of room names |
| `RtcRooms.RoomTable.JoinCustomRoom` | src/interfaces/RTC.cpp:205-224 | a new custom room holds the local user; a lobby room is refused |
| `RtcRooms.RoomTable.LeaveCustomRoom` | src/interfaces/RTC.cpp:226-235 | removes exactly a custom room, silently |
| `RtcRooms.RoomTable.SetLocalAudioStatus` | src/interfaces/RTC.cpp:237-254 | fires only when the status changes |
| `Dispatcher.RunKeepsAccounts` | src/core/Dispatch.h:29-69 | over every run of posts and drains, with tasks that post, posted = executed + pending + delayed as multisets |
| `Dispatcher.RunsOnceAndOnTime` | src/core/Dispatch.h:49-69 | no task runs twice, none that ran is still queued, none runs before it is due |
| `Dispatcher.FirstInFirstOut` | src/core/Dispatch.h:49-69 | across drains, undelayed tasks run in the order posted |
| `Dispatcher.DelayIsKept` | src/core/Dispatch.h:43-50 | a delayed task is ready for a drain exactly when its delay is over, after what was ready before; an undelayed one after what was pending |
| `Dispatcher.DrainKeepsAccounts` | src/core/Dispatch.h:52-69 | a drain runs exactly the tasks pending when it started, then the due ones in insertion order, all posted earlier |
| `Dispatcher.DrainLeavesNewWork` | src/core/Dispatch.h:56-68 | afterwards the queues hold exactly what was not due and what the tasks posted meanwhile |
| `Dispatcher.TaskQueue.PostNow` | src/core/Dispatch.h:29-33 | queues last |
| `Dispatcher.TaskQueue.PostAfter` | src/core/Dispatch.h:43-47 | queues with its due time |
| `Dispatcher.TaskQueue.TakeDue` | src/core/Dispatch.h:59-63 | the erase-while-iterating loop splits the delayed queue, both halves in order |
| `Dispatcher.TaskQueue.Drain` | src/core/Dispatch.h:52-69 | the loops drain as specified, and terminate although tasks may repost themselves |
| `ApiBlocks.AlignedPointer` | src/core/Memory.cpp:174-175 | the mask arithmetic gives a pointer aligned as asked and to 16 bytes, past the header and within the slack, for every power of two |
| `ApiBlocks.RequestFitsExactly` | src/core/Memory.cpp:166-176 | the size computed in 64 bits has room for the payload behind its header or link, at the aligned pointer, if and only if their sum with the slack fits in 64 bits |
| `ApiBlocks.DoKeepsInv` | src/core/Memory.cpp:159-255 | allocation, attachment, refused allocation, the application writing its payloads, and release each keep headers and links intact, inside their allocations and clear of payloads |
| `ApiBlocks.LiveIsHeld` | src/core/Memory.cpp:159-255 | over any run the live allocations are exactly those made for blocks still held, each for one of them |
| `ApiBlocks.FreeOrderIsExact` | src/core/Memory.cpp:239-254 | the chain of a block is exactly the allocations made for it, without repetition |
| `ApiBlocks.ApiHeap.AllocApiBlock` | src/core/Memory.cpp:159-184 | the pointer is new and aligned, header in front; a refusal changes nothing |
| `ApiBlocks.ApiHeap.AttachBytes` | src/core/Memory.cpp:186-212 | links one aligned allocation to the block; null block or refusal changes nothing |
| `ApiBlocks.ApiHeap.FreeApiBlock` | src/core/Memory.cpp:239-254 | the pointer chase frees exactly that block's allocations, each once, newest attachment first |
| `StoredNames.DecodeUndoesEncode` | src/interfaces/PlayerDataStorage.cpp:89-135 | decoding undoes encoding for every byte string |
| `StoredNames.EncodingIsInjective` | src/interfaces/PlayerDataStorage.cpp:89-108 | different names never share a file |
| `StoredNames.EncodingIsFlat` | src/interfaces/PlayerDataStorage.cpp:80-108 | an encoded name has only letters, digits, dots, underscores, dashes and percent signs: no slash, backslash, colon or NUL |
| `StoredNames.ReencodingExactly` | src/interfaces/PlayerDataStorage.cpp:110-135 | a file name survives decoding and encoding if and only if the encoder could have written it |
| `StoredNames.EncodeName` | src/interfaces/PlayerDataStorage.cpp:89-108 | the index loop encodes as specified |
| `StoredNames.DecodeName` | src/interfaces/PlayerDataStorage.cpp:110-135 | the index loop decodes as specified, a stray percent standing for itself |

## Left out

- Sockets, the select loop, interface enumeration, threads and mutexes: a handler is one atomic step.
- The endpoints kept with connections and pending packets, and which endpoint a unicast reaches: in the lobby system a unicast may reach any node.
- Sends to a peer that is not discovered yet, which are accepted and never queued.
- Liveness under unbounded loss: `RecoveryExactly` shows that recovery stays possible, not that a fair network brings it about. Delivery across a close and reopen of a connection.
- Notification registries and their fan-out, including the queue-full notice; events are modelled as posted.
- Null and version checks of the exported calls, and the version-dependent defaults of options.
- Invites, searches, details copies, overlay requests, connect strings and mute of the lobby and session interfaces.
- The uniqueness of minted lobby ids: a created lobby's id is assumed new.
- The local user passed to lobby calls is assumed to be the node's own.
- Session state beyond its record format: transitions, registration, search.
- Peer directory, presence table, stats, achievements, leaderboards, commerce, mods, sanctions, title storage, friends, user info and authentication: tables and constant answers.
- Payload contents of API blocks, `AttachString` (an attachment of its length plus one) and `Realloc`.
- The dispatcher's lock: what other threads post during a drain is part of the effect of the task then running.
- Attribute comparison operators, the FNV id derivation, the test-loss scrambler, logging, configuration, disk mirror and overlay drawing.
- ApiBlocks.ApiHeap.AllocApiBlock: does not cover a request whose header, slack and size exceed 64 bits and is granted all the same; by `RequestFitsExactly` no such grant can hold the block.
- ApiBlocks.ApiHeap.AttachBytes: the same for link, slack and size.
- ApiBlocks.AlignedPointer: speaks of powers of two only, as the interface demands of its callers.
- SendStream.EstimateStaysWithin: real arithmetic; rounding of doubles is not modelled.
- SendRuns.SilenceInterrupts: the clock is a real number of milliseconds and pumps come at most the given gap apart.
- LobbySystem.AtMostOneAuthority: announces that exceed the datagram cap count as lost.
- Dispatcher.RunsOnceAndOnTime: tasks are told apart by their values, so it speaks of runs in which no two posts are equal.
