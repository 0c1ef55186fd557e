# A verified model of the Iroh WebRTC transport

This project models the logic of `iroh-webrtc-transport`: how application datagrams travel through
WebRTC data channels, how two nodes agree on a session over a bootstrap stream, and how a browser
node keeps its sessions, connections and accept queues. Check it with `dafny verify dfyconfig.toml`.

What the source does in place is a class with the same fields; its methods are proved against
functions on values, and the properties are proved about those functions, over every run.

**Packet data path.** `Frame`, `Addr` and `Chunks` are the formats and the meaning of a segmented
payload: the sequence of datagrams it is cut into. `Delivery` says what one call of `poll_recv`
hands out, for any stored packet, queue and buffers, and proves that both shapes of delivery (a
whole batch with a stride, one segment with a stored offset) refine "the next datagrams, in order";
`Endpoint` is the receive loop over the caller's arrays. `Hub` holds the queues, `Sender` and
`DataChannel` put packets on routes and pump them into a channel. `Pipeline` composes all of it into
one machine: many sessions share a node's receive queue and counters, each over a channel that loses,
reorders and carries forged messages; it proves end-to-end delivery per session, isolation, and the
balance of the two datagram counters. `Receiving` is the shared receive side on its own, and `Calls`
ties both machines to the classes: each call on the objects is one step of a machine.

**Bootstrap signalling.** `Signaling` has signals, coordinators and dial ids; `IceQueue` the bounded
queue of local candidates whose end marker (section 13 of RFC 8838) must survive overflow;
`NativeSession` the two receive loops with the exact streams they accept; `Handshake` two honest
native nodes over ordered streams: no interleaving fails, deadlocks or runs for ever.

**Browser node.** `Session` is the session state machine, `Accept` an accept queue with waiting
tasks, `Node` every operation of a node as a function of its state, `NodeRuns` what every run of
operations keeps, `NodeGuards` exactly when each operation is refused and what it does otherwise,
`NodeAccepts` that each queue of a node behaves as `Accept` says, `AddressList` the advertised list,
`BrowserNode` the node with its mutable fields, and `Network` any number of nodes exchanging signals
that may be lost, repeated, delayed and reordered. `Agreement` says what of this reaches the other
end: dials begin and end at both. `Keys` are the session keys.

**Small pieces.** `FrameReader` reads length-prefixed frames from chunks, `Replay` is the window of
recent nonces.

Assumptions: which byte strings are public keys is a parameter (`KeyCheck`), the same for every parse;
a mutex-guarded method is one atomic step; `usize` holds any 32-bit length; the hash that makes dial
ids does not collide on the inputs it is given in one run of the network (`Network.NoCollision`; a
hash into 16 bytes cannot be injective on all; that no two dials have the same inputs is proved).
Error values carry their kind; texts are kept only where one kind has several.

Two results are negative. The handler for incoming WebRTC connections claims a session before it
looks for a place in the accept queue, so a full queue leaves a session claimed without a connection;
`NodeRuns.ClaimWithoutConnection` gives the exact condition, in guards that can be checked before the
call. And a closed session is not final: one that does not require WebRTC can still become ready over
the relay, which `Session.ClosedIsNotFinal` states as an equivalence. `NodeExamples` shows both
happening in runs of new nodes.

## Model

| member | source | states |
|---|---|---|
| Frame.Encode | crates/iroh-webrtc-transport/src/core/frame.rs:28-54 | appending the fields one by one gives the specified frame, or the first error in the source's order of checks |
| Frame.EncodeSucceedsIffEncodable | crates/iroh-webrtc-transport/src/core/frame.rs:28-54 | encoding succeeds exactly for nonempty payloads within the limit and 32 bits, and no zero segment size |
| Frame.EncodeErrors | crates/iroh-webrtc-transport/src/core/frame.rs:28-54 | a payload beyond the limit is reported with both numbers; any other refusal is an invalid frame |
| Frame.Be32KeepsOrder | crates/iroh-webrtc-transport/src/core/frame.rs:50-51 | the length fields are big-endian: their bytes are ordered as the numbers are |
| Frame.DecodeAfterEncode | crates/iroh-webrtc-transport/src/core/frame.rs:28-151 | decoding an encoded frame gives it back with a segment size that cuts nothing dropped; a smaller receive limit is reported with both numbers; the header alone names the session |
| Frame.EncodeAfterDecode | crates/iroh-webrtc-transport/src/core/frame.rs:56-136 | whatever decodes is rebuilt byte for byte, and its segment size is positive and below the payload length |
| Frame.DecodeAcceptsExactlyEncodings | crates/iroh-webrtc-transport/src/core/frame.rs:56-136 | the decoder accepts a byte string if and only if the encoder can produce it |
| Frame.EncodeInjective | crates/iroh-webrtc-transport/src/core/frame.rs:138-151 | two frames have equal bytes exactly when they are equal up to a segment size that cuts nothing |
| Addr.EncodeAddr | crates/iroh-webrtc-transport/src/core/addr.rs:102-117 | pushing the fields gives the specified address |
| Addr.ParseAfterEncode | crates/iroh-webrtc-transport/src/core/addr.rs:102-161 | parsing an encoded address gives it back exactly when its endpoint id is a public key |
| Addr.EncodeAfterParse | crates/iroh-webrtc-transport/src/core/addr.rs:123-161 | an address that parses is rebuilt exactly: no trailing bytes, no other version or kind |
| Addr.EncodeAddrInjective | crates/iroh-webrtc-transport/src/core/addr.rs:102-117 | different endpoints, kinds or sessions have different addresses |
| Chunks.ChunksJoin | crates/iroh-webrtc-transport/src/core/endpoint.rs:137-193 | the datagrams of a payload, joined, are the payload |
| Chunks.ChunkByOffset | crates/iroh-webrtc-transport/src/core/endpoint.rs:164-185 | the i-th datagram is the payload from i times the size, cut at the end; exactly the offsets inside the payload have one |
| Chunks.ChunkCount | crates/iroh-webrtc-transport/src/core/endpoint.rs:138-152 | the number of datagrams is the rounded-up quotient that the delivery counter adds |
| Chunks.ChunkSizes | crates/iroh-webrtc-transport/src/core/endpoint.rs:164-165 | no datagram is empty or longer than the segment size |
| Delivery.HandOutConserves | crates/iroh-webrtc-transport/src/core/endpoint.rs:72-203 | for any buffers: what is handed out, split by stride, followed by what is left, is what was waiting, in order; the counter adds the number of datagrams handed out in either shape |
| Delivery.HandOutFits | crates/iroh-webrtc-transport/src/core/endpoint.rs:92-203 | no filled buffer is empty or overflows, and the call stops for full buffers exactly when all are filled |
| Delivery.HandOutKeepsBoundary | crates/iroh-webrtc-transport/src/core/endpoint.rs:99-196 | a packet stored across calls stands at a multiple of its stride strictly inside its payload |
| Delivery.FirstDatagramDecides | crates/iroh-webrtc-transport/src/core/endpoint.rs:99-203 | delivery, waiting, end and the error for a small buffer are each equivalent to a condition on the first waiting datagram alone |
| Delivery.LargeBuffersDrain | crates/iroh-webrtc-transport/src/core/endpoint.rs:72-203 | if every buffer can hold every waiting datagram, the call fills all buffers or leaves nothing |
| Delivery.SegmentBuffersDrain | crates/iroh-webrtc-transport/src/core/endpoint.rs:164-177 | buffers as large as the largest segment are enough: the call fills them all or leaves nothing |
| Delivery.WholeBatchWhenItFits | crates/iroh-webrtc-transport/src/core/endpoint.rs:138-161 | a segmented packet at the front that fits the first buffer is handed out whole in it, with its segment size as stride |
| Endpoint.OutcomeOfCall | crates/iroh-webrtc-transport/src/core/endpoint.rs:80-203 | what a call with buffers reports; it never succeeds with nothing |
| Endpoint.NothingLostWithoutDelivery | crates/iroh-webrtc-transport/src/core/endpoint.rs:164-177 | a call that fills nothing, for whatever reason, has lost no datagram |
| Endpoint.WebRtcEndpoint.Emit | crates/iroh-webrtc-transport/src/core/endpoint.rs:124-200 | one packet and one buffer: the whole batch, the next segment with what is left stored, a used-up packet dropped, or the packet put back when the buffer is too small; untouched bytes stay |
| Endpoint.WebRtcEndpoint.FillBuffers | crates/iroh-webrtc-transport/src/core/endpoint.rs:80-203 | the loop over the caller's buffers does what the specification of one call says, and terminates |
| Endpoint.WebRtcEndpoint.PollRecv | crates/iroh-webrtc-transport/src/core/endpoint.rs:72-203 | result, stored packet, queue, waker, counter and every buffer, meta and source slot after a call |
| Hub.OutboundChannel.Recv | crates/iroh-webrtc-transport/src/core/hub.rs:807-820 | the receiver of a route gets packets in order, wakes a blocked sender with each, and the end only when the sender is gone and nothing is left |
| Hub.SessionHub.PushReceived | crates/iroh-webrtc-transport/src/core/hub.rs:754-805 | accepted exactly on an open hub with room; an accepted packet is last in the queue and the stored waker has been woken; a refused one changes nothing |
| Hub.SessionHub.PopReceived | crates/iroh-webrtc-transport/src/core/hub.rs:934-957 | the front packet, even of a closed hub; otherwise the end, or a stored waker, which only an empty open hub has |
| Hub.SessionHub.RegisterOutboundSession | crates/iroh-webrtc-transport/src/core/hub.rs:807-820 | a fresh empty route; a route of that session before is replaced and drains to its end; on a closed hub the receiver finds the end at once |
| Hub.SessionHub.PollPushOutbound | crates/iroh-webrtc-transport/src/core/hub.rs:827-932 | the packet is queued last on the route its header names and on no other; a full route changes no queue and stores the waker; every queued packet names and is addressed to its route's session |
| Hub.SessionHub.PushResultMeans | crates/iroh-webrtc-transport/src/core/hub.rs:827-932 | a push goes through exactly if the route has a receiver and room, waits exactly if only room is missing, and otherwise the session is closed or the header at fault |
| Hub.SessionHub.UnregisterOutboundSession | crates/iroh-webrtc-transport/src/core/hub.rs:966-978 | the route is gone, its queue stays readable, its blocked sender has been woken, and other routes stay |
| Hub.SessionHub.UnregisterOutboundFor | crates/iroh-webrtc-transport/src/core/hub.rs:959-964 | for the session that a destination names: the route is gone, its sender is dropped, its queue stays readable and its blocked sender has been woken; nothing for a destination that names none |
| Hub.SessionHub.Close | crates/iroh-webrtc-transport/src/core/hub.rs:995-1009 | no route is left, every stored waker has been woken, and what was queued for receiving or on a route can still be taken |
| Sender.PacketIsConsistent | crates/iroh-webrtc-transport/src/core/sender.rs:82-147 | header and destination of every packet to send name the same session |
| Sender.DecodedDatagrams | crates/iroh-webrtc-transport/src/core/sender.rs:113-138 | the frame a receiver decodes stands for exactly the datagrams of the transmit, and the sender counted them right |
| Sender.WebRtcSender.IsValidSendAddr | crates/iroh-webrtc-transport/src/core/sender.rs:37-73 | exactly addresses that name a session can be sent to |
| Sender.WebRtcSender.PollSend | crates/iroh-webrtc-transport/src/core/sender.rs:75-178 | refused, waiting with its waker stored, or queued as one packet on its own route and counted with all its datagrams; nothing else changes |
| DataChannel.OnMessage | crates/iroh-webrtc-transport/src/native.rs:334-360 | a message is queued for receiving exactly if it is binary, decodes, is of this session, and there is room; queueing it wakes the receiver |
| DataChannel.FramesComeThrough | crates/iroh-webrtc-transport/src/native.rs:342-353 | a frame encoded for the session is queued as it was sent exactly if its payload is within the receiver's limit; one for another session never is |
| DataChannel.NativeChannel.WaitForCapacity | crates/iroh-webrtc-transport/src/native.rs:442-492 | the wait succeeds only with at most the low threshold buffered, and fails only on a close, which takes the route away, or on an error; without a close the channel stays open and its route registered |
| DataChannel.NativeChannel.PumpOne | crates/iroh-webrtc-transport/src/native.rs:403-439 | on an open channel with which nothing goes wrong the packet is never given up; one that fits under the high threshold is sent without waiting, one that has waited finds at most the low threshold before it; a closed channel sends nothing and gives up its route; whenever the pump ends its route is gone and whoever was blocked on it has been woken |
| DataChannel.NativeChannel.PumpOutboundFrames | crates/iroh-webrtc-transport/src/native.rs:382-440 | packets are sent in route order and none skipped; at most the last one taken is unsent, and none on an open channel with which nothing goes wrong: its pump ends only with the route drained; a channel closed at the start sends none; the amount buffered after a send never exceeds the larger of the high threshold and the low one plus the longest packet; the pump ends only with its route gone and the sender blocked on it woken |
| DataChannel.NativeChannel.NeverAboveHigh | crates/iroh-webrtc-transport/src/config.rs:117-131 | if the thresholds are apart by the longest packet, the high one is never exceeded |
| DataChannel.NativeChannel.RunPump | crates/iroh-webrtc-transport/src/native.rs:382-440 | when the pump has ended the route's receiver is gone with what was queued, and nobody waits on the channel or the route |
| DataChannel.PacketLength | crates/iroh-webrtc-transport/src/core/frame.rs:28-54 | a packet is its payload and 30 bytes, so the gap that keeps the pump below the high threshold is 30 plus the payload limit |
| Receiving.EveryRun | crates/iroh-webrtc-transport/src/core/endpoint.rs:72-203 | over any interleaving of pushes of any packets, calls with any buffers and a close: delivered and waiting datagrams are those of the packets let in, in order; the stored offset is sound; the counter is exact |
| Receiving.EndMeansAllDelivered | crates/iroh-webrtc-transport/src/core/endpoint.rs:101-110 | a call reports the end exactly when the hub is closed and everything let in has been delivered |
| Calls.Begin | crates/iroh-webrtc-transport/src/core/hub.rs:456-465 | a new hub and its endpoint are in the machine's initial state |
| Calls.Push | crates/iroh-webrtc-transport/src/core/hub.rs:754-805 | a push on the hub is the receiver's push step, accepted exactly when the machine has room |
| Calls.Receive | crates/iroh-webrtc-transport/src/core/endpoint.rs:72-203 | a receive call is the receiver's receive step: the caller's buffers hold exactly the datagrams that the machine delivers in it |
| Calls.CloseHub | crates/iroh-webrtc-transport/src/core/hub.rs:995-1009 | closing the hub is the receiver's close step |
| Calls.MessageIsPacket | crates/iroh-webrtc-transport/src/core/sender.rs:82-147 | a transmit to a session's address is refused or framed exactly as the line's message is |
| Calls.SendOn | crates/iroh-webrtc-transport/src/core/sender.rs:75-178 | a send is the line's send step, on its channel and in the counter, accepted exactly when the line can take it |
| Calls.PumpStep | crates/iroh-webrtc-transport/src/native.rs:403-439 | taking a packet and sending it is the line's pump step, followed by its loss if the channel refuses it |
| Calls.Arrives | crates/iroh-webrtc-transport/src/native.rs:334-360 | a message that comes in is the machine's arrival step: let into the receive queue or lost |
| Calls.UnregisterRoute | crates/iroh-webrtc-transport/src/core/hub.rs:966-978 | taking a route away is the line's unregister step; what is queued stays |
| Calls.DropReceiver | crates/iroh-webrtc-transport/src/native.rs:382-440 | a receiver that goes away is the line's drop step: what was queued is lost and nothing more is accepted |
| Pipeline.EndToEnd | crates/iroh-webrtc-transport/src/core/endpoint.rs:72-203 | many sessions, channels that lose and reorder, forged messages on any of them, any buffers and a close: from the source of a session the application reads, in order, exactly the messages of that session that were let in, each at most once, and an honest one whole as its transmit's datagrams |
| Pipeline.NothingElseIsDelivered | crates/iroh-webrtc-transport/src/core/endpoint.rs:72-203 | over all sessions together, what is delivered and waiting is what was let in, in order, and nothing else |
| Pipeline.SessionsAreIsolated | crates/iroh-webrtc-transport/src/native.rs:342-353 | every packet that a channel lets in names the session of that channel and carries its source, whatever was sent on it |
| Pipeline.CountersBalance | crates/iroh-webrtc-transport/src/core/sender.rs:113-152 | hub-wide over all sessions: the senders' count and the forged datagrams let in are the delivered count plus what waits, is in flight and was lost |
| Pipeline.OrderedRun | crates/iroh-webrtc-transport/src/native.rs:382-440 | over its ordered channel no message of a session overtakes another, and what is not lost is all that was sent, whatever the other sessions do |
| Pipeline.ReliableRun | crates/iroh-webrtc-transport/src/core/endpoint.rs:72-203 | a session over an ordered channel that has lost nothing reads exactly what was sent to it, from the first datagram on, on the queue it shares with sessions that lose or forge |
| IceQueue.LocalIceQueue.Push | crates/iroh-webrtc-transport/src/core/hub.rs:401-425 | the queue after a push, what is refused and what makes room; whenever it succeeds a sleeping task has been woken |
| IceQueue.LocalIceQueue.PollNext | crates/iroh-webrtc-transport/src/core/hub.rs:428-438 | events in order, then the end; a task sleeps only on an empty open queue |
| IceQueue.LocalIceQueue.Close | crates/iroh-webrtc-transport/src/core/hub.rs:446-452 | closed, and a sleeping task has been woken |
| IceQueue.PushShifts | crates/iroh-webrtc-transport/src/core/hub.rs:401-425 | a push puts the event last and throws out at most the oldest one, and that only for an end marker in a full queue without one; otherwise nothing moves |
| IceQueue.RunKeeps | crates/iroh-webrtc-transport/src/core/hub.rs:389-453 | over every run: bounded length, delivered then queued is a subsequence of what was let in, end markers are never thrown out, and evictions are at most one more than markers delivered |
| IceQueue.MarkerStays | crates/iroh-webrtc-transport/src/core/hub.rs:401-425 | on an open queue of positive capacity an end marker always gets in, and stays until delivered whatever follows |
| Signaling.AcceptsOnlyMirror | crates/iroh-webrtc-transport/src/core/coordinator.rs:152-156 | a coordinator accepts a signal exactly when its mirror image built it |
| Signaling.DialIdGenerator.Next | crates/iroh-webrtc-transport/src/core/signaling.rs:178-193 | the next generation of that remote and the id derived from it; other remotes' counters stay |
| Signaling.DialIdGenerator.InitiateWithTransportIntent | crates/iroh-webrtc-transport/src/core/coordinator.rs:22-35 | the initiator's coordinator for the next generation |
| Signaling.GenerationsCount | crates/iroh-webrtc-transport/src/core/signaling.rs:178-193 | the generation of a dial is the number of earlier dials to that remote |
| Signaling.DialsAreDistinct | crates/iroh-webrtc-transport/src/core/signaling.rs:178-193 | no two dials of a generator share responder and generation, whatever the order of remotes |
| NativeSession.NativeWebRtcSession.ReceiveDialerSignals | crates/iroh-webrtc-transport/src/facade/native.rs:766-806 | the dialer's loop ends as its specification says on every stream, with the same peer state and the same number of signals read |
| NativeSession.NativeWebRtcSession.ReceiveAnswererSignals | crates/iroh-webrtc-transport/src/facade/native.rs:808-864 | likewise the answerer's loop, with what it sent back |
| NativeSession.DialerSucceedsIff | crates/iroh-webrtc-transport/src/facade/native.rs:766-806 | the dialer succeeds exactly on one good answer, then good candidates, then the end marker, all on its route |
| NativeSession.AnswererSucceedsIff | crates/iroh-webrtc-transport/src/facade/native.rs:808-864 | the answerer succeeds exactly on one good offer, then good candidates, then the end marker, all on its route |
| NativeSession.OneAnswerAtMost | crates/iroh-webrtc-transport/src/facade/native.rs:814-834 | on any stream, honest or not, at most one answer is sent |
| NativeSession.DialerEndsAt | crates/iroh-webrtc-transport/src/facade/native.rs:766-806 | where a loop that has its description ends, and how: good candidates are read, and the first other signal decides - the end marker, a wrong route, a bad candidate, the other side's terminal with its reason, a second answer, or anything unexpected; without one, the stream has ended |
| NativeSession.AnswererEndsAt | crates/iroh-webrtc-transport/src/facade/native.rs:808-864 | where a loop that has its description ends, and how: good candidates are read, and the first other signal decides - the end marker, a wrong route, a bad candidate, the other side's terminal with its reason, a second offer, or anything unexpected; without one, the stream has ended |
| NativeSession.SendLocalIce | crates/iroh-webrtc-transport/src/facade/native.rs:866-892 | the ICE task sends what it is handed up to and with the first end marker, and finishes exactly on one |
| Handshake.RunKeeps | crates/iroh-webrtc-transport/src/facade/native.rs:245-306 | in every interleaving: what is on each stream, what each loop has applied of it, and that an end marker is still to come until one was sent |
| Handshake.NoLoopFails | crates/iroh-webrtc-transport/src/facade/native.rs:766-864 | in no interleaving does a loop fail, and nothing is applied before the remote description |
| Handshake.AnswerSentOnce | crates/iroh-webrtc-transport/src/facade/native.rs:821-834 | the answer is the first signal back and the only answer |
| Handshake.NoDeadlock | crates/iroh-webrtc-transport/src/facade/native.rs:245-306 | until both sides have returned some task can move |
| Handshake.Terminates | crates/iroh-webrtc-transport/src/facade/native.rs:766-892 | in every interleaving the number of steps that do anything is at most 8 plus three for each event to be gathered |
| Handshake.StuckMeansDone | crates/iroh-webrtc-transport/src/facade/native.rs:293-306 | where nothing can move both sides have succeeded, with the other's description and exactly the candidates that the other's ICE task was handed |
| Handshake.OverflowEvictsLittle | crates/iroh-webrtc-transport/src/core/hub.rs:401-425 | before the end marker an overflowing queue evicts at most one candidate, never the marker, and reorders nothing |
| Handshake.RunGathers | crates/iroh-webrtc-transport/src/core/hub.rs:401-425 | what a queue lets in is part of what was gathered, in order; it refuses and evicts nothing if everything gathered fits |
| Handshake.CompleteExchange | crates/iroh-webrtc-transport/src/facade/native.rs:293-306 | with queues large enough, a finished handshake has given each side exactly the other's candidates up to the end marker |
| Session.EventKeeps | crates/iroh-webrtc-transport/src/browser_runtime/node/session_state.rs:59-199 | the session invariant, and that channel rank climbs, resolution and terminals are never taken back, and negotiation is never re-entered |
| Session.HistoryKeeps | crates/iroh-webrtc-transport/src/browser_runtime/node/session_state.rs:20-199 | the same over every history of events |
| Session.NewSessionKeeps | crates/iroh-webrtc-transport/src/browser_runtime/node/session_state.rs:21-57 | a new session satisfies the invariant; it is live and waits for its channel exactly if it may use WebRTC, otherwise the relay is chosen; it is the end of the dial it was made for |
| Session.DeadStaysDead | crates/iroh-webrtc-transport/src/browser_runtime/node/session_state.rs:87-101 | a WebRTC session that is not live never becomes live; if it becomes ready again, then over the relay |
| Session.ClosedIsNotFinal | crates/iroh-webrtc-transport/src/browser_runtime/node/session_state.rs:103-124 | a closed session, of either role, can become ready again over some history exactly if it does not require WebRTC, and then only over the relay |
| Session.PendingDecision | crates/iroh-webrtc-transport/src/browser_runtime/direct/dial.rs:513-530 | an open channel is used; the relay is used exactly if the channel is not open and the relay was chosen; of the rest a failed session is given up, a closed one reported, and one whose channel is being set up goes on waiting; a transport that is to be used can be used |
| Session.TerminalTakesEffect | crates/iroh-webrtc-transport/src/browser_runtime/node/session_state.rs:126-201 | what each terminal reason makes of any session, sent or received, with what stays as it was |
| Session.ResolvesExactlyIf | crates/iroh-webrtc-transport/src/browser_runtime/node/session_state.rs:103-124 | a session is resolved exactly over an open channel that it may use, or over the relay unless it requires WebRTC |
| Session.OpenMeansBoth | crates/iroh-webrtc-transport/src/browser_runtime/node/session_state.rs:59-85 | over every history: an open channel was attached and, after that, opened |
| Session.DecisionStays | crates/iroh-webrtc-transport/src/browser_runtime/direct/dial.rs:513-530 | a decided dial is never undecided again |
| Session.TerminalDecidesDial | crates/iroh-webrtc-transport/src/browser_runtime/node/session_state.rs:174-199 | what a waiting dial concludes from each terminal reason, the same whether it was sent or received |
| Session.BrowserSessionState.AttachTransferredChannel | crates/iroh-webrtc-transport/src/browser_runtime/node/session_state.rs:59-71 | succeeds exactly for a channel that is awaited, which is then transferred, and keeps the invariant |
| Session.BrowserSessionState.MarkTransferredChannelOpen | crates/iroh-webrtc-transport/src/browser_runtime/node/session_state.rs:73-85 | succeeds exactly for a transferred channel, which is then open, and keeps the invariant |
| Session.BrowserSessionState.ResolveTransport | crates/iroh-webrtc-transport/src/browser_runtime/node/session_state.rs:103-111 | succeeds exactly if intent and channel allow the transport, and the session is then ready on it; a refusal changes nothing |
| Session.BrowserSessionState.CompleteDial | crates/iroh-webrtc-transport/src/browser_runtime/node/session_state.rs:113-124 | the same, for dialers only |
| Session.BrowserSessionState.RecordTerminalSent | crates/iroh-webrtc-transport/src/browser_runtime/node/session_state.rs:131-137 | in every state, established sessions included: a close or cancellation ends the session, a failure fails it, a fallback puts it on the relay exactly if it prefers WebRTC and fails it otherwise; only such a fallback selects a transport |
| Session.BrowserSessionState.RecordTerminalReceived | crates/iroh-webrtc-transport/src/browser_runtime/node/session_state.rs:126-129 | the same for a reason received; in each case the session is live no more |
| Session.BrowserSessionState.CloseForNode | crates/iroh-webrtc-transport/src/browser_runtime/node/session_state.rs:139-154 | a farewell, which says that the session closed, is owed exactly by a WebRTC session that sent no terminal yet; the session is over |
| Accept.RefusedLeavesNoTrace | crates/iroh-webrtc-transport/src/browser_runtime/node/accept_state.rs:31-51 | a connection is refused exactly by a full queue, and then nothing has changed, not even the waiters |
| Accept.ServesLongestWaiting | crates/iroh-webrtc-transport/src/browser_runtime/node/accept_state.rs:31-51 | the longest-waiting task that is still there is served, whenever there is one; tasks gone away swallow nothing |
| Accept.ExactlyOnceInOrder | crates/iroh-webrtc-transport/src/browser_runtime/node/accept_state.rs:19-59 | over every run: admitted connections leave the queue in order and once, no waiter is served twice, a nonempty queue has no waiters, and the capacity is kept |
| Accept.AcceptRegistrationState.PushOrWake | crates/iroh-webrtc-transport/src/browser_runtime/node/accept_state.rs:31-51 | the loop over waiters does what the specification says, and only the served waiter is told anything |
| Accept.AcceptRegistrationState.TakeOrWait | crates/iroh-webrtc-transport/src/browser_runtime/node/connection.rs:47-67 | the front connection, or a new waiter at the end of the line |
| Accept.AcceptRegistrationState.CloseAcceptor | crates/iroh-webrtc-transport/src/browser_runtime/node/accept_state.rs:53-59 | queue and waiters are empty, and every waiter still there is told that nothing will come |
| NodeRuns.StepKeepsNode | crates/iroh-webrtc-transport/src/browser_runtime/node.rs:62-141 | every operation keeps the node's invariant, and sessions only go on or are taken over by a dial |
| NodeRuns.RunKeepsNode | crates/iroh-webrtc-transport/src/browser_runtime/node.rs:62-141 | the invariant holds in every reachable state |
| NodeRuns.LiveIsAdvertised | crates/iroh-webrtc-transport/src/browser_runtime/node.rs:89-109 | in every reachable state each live WebRTC session's address is advertised, even after terminal steps, which do not refresh |
| NodeRuns.KeysNeverReused | crates/iroh-webrtc-transport/src/browser_runtime/node.rs:111-118 | connection keys are drawn once, and the next one is not in use |
| NodeRuns.ClaimedAtMostOnce | crates/iroh-webrtc-transport/src/browser_runtime/node/core.rs:707-754 | a session claimed by an incoming WebRTC connection is claimed by no other in the rest of the run |
| NodeRuns.AdmissionIsAtomic | crates/iroh-webrtc-transport/src/browser_runtime/node/connection.rs:262-342 | a failed admission changes nothing, except that a full queue uses up a key; the final resolution never fails |
| NodeRuns.AdmissionIsComplete | crates/iroh-webrtc-transport/src/browser_runtime/node/connection.rs:262-342 | a successful admission stores the connection under a new key and leaves its session ready on that transport; over WebRTC the selected path leads to the session |
| NodeRuns.RefusalsChangeNothing | crates/iroh-webrtc-transport/src/browser_runtime/node.rs:62-141 | every operation that reports an error has changed nothing, but for the key an admission drew |
| NodeRuns.ClosingWithdrawsAddress | crates/iroh-webrtc-transport/src/browser_runtime/node/connection.rs:200-236 | closing a WebRTC connection ends its session and takes exactly that session's address off the list of live ones |
| NodeRuns.PreferredDialFallsBack | crates/iroh-webrtc-transport/src/browser_runtime/node/session.rs:32-52 | a dial that prefers WebRTC but got no channel reaches the relay: decision, completion and admission all succeed |
| NodeRuns.WebRtcOnlyDialIsGivenUp | crates/iroh-webrtc-transport/src/browser_runtime/node/session.rs:53-63 | a dial that requires WebRTC selects no transport and can never be completed afterwards |
| NodeRuns.OneAcceptorAtATime | crates/iroh-webrtc-transport/src/browser_runtime/node/connection.rs:4-34 | a protocol's accept iterator cannot be opened twice until it is closed, and then can |
| NodeRuns.ClaimWithoutConnection | crates/iroh-webrtc-transport/src/browser_runtime/node/core.rs:866-888 | the handler admits a connection exactly if the claim's guards hold and the queue has a place; it leaves a claimed session without a connection exactly if they hold and the queue is full or missing |
| NodeRuns.ClaimsIff | crates/iroh-webrtc-transport/src/browser_runtime/node/core.rs:713-748 | a claim succeeds exactly on an open node, for a claimable session, over a path that leads to it |
| NodeGuards.RefusedExactlyIf | crates/iroh-webrtc-transport/src/browser_runtime/node.rs:62-141 | each of the twelve operations is refused exactly if its guard, which can be checked beforehand, does not hold |
| NodeGuards.DialMeans | crates/iroh-webrtc-transport/src/browser_runtime/node/session.rs:67-137 | only the dial's session is new; it is this node's end of the dial, for the protocol and intent asked for |
| NodeGuards.SignalMeans | crates/iroh-webrtc-transport/src/browser_runtime/node/rtc.rs:17-84 | which signals are let through, and what each kind of them does |
| NodeGuards.DecisionMeans | crates/iroh-webrtc-transport/src/browser_runtime/node/rtc.rs:229-269 | what a decision decides, does, and tells the other end |
| NodeGuards.NextTakesOldest | crates/iroh-webrtc-transport/src/browser_runtime/node/connection.rs:47-67 | what a call for the next connection returns, and what is left of the queue |
| NodeGuards.ClosingOneMeans | crates/iroh-webrtc-transport/src/browser_runtime/node/connection.rs:200-236 | a connection closed over the relay touches no session, one closed over WebRTC only its own |
| NodeGuards.ClosingMeans | crates/iroh-webrtc-transport/src/browser_runtime/node/core.rs:349-413 | closing the node ends each session; its farewell names its dial and says that it closed, and is sent exactly if nothing was told before |
| NodeGuards.ClaimableMeans | crates/iroh-webrtc-transport/src/browser_runtime/node/core.rs:713-734 | a claimable session is an unresolved accepted one for that remote and protocol with an open channel |
| NodeGuards.PathLeadsToPeer | crates/iroh-webrtc-transport/src/browser_runtime/node.rs:297-338 | the path check holds exactly if the path is the address that the other end of the session's dial advertises |
| NodeGuards.DialerConnects | crates/iroh-webrtc-transport/src/browser_runtime/node/core.rs:464-548 | a dialer whose channel is attached and opened completes its dial and admits its connection over WebRTC |
| NodeGuards.AcceptorConnects | crates/iroh-webrtc-transport/src/browser_runtime/node/core.rs:866-888 | an acceptor whose channel is attached and opened claims its session for the dialer's connection and stores it, if the queue has a place |
| NodeExamples.ClaimWithoutConnectionHappens | crates/iroh-webrtc-transport/src/browser_runtime/node/core.rs:866-888 | a run of any new node with one queue place after which the handler fails and the session stays claimed |
| NodeExamples.ClaimWithoutConnectionExample | crates/iroh-webrtc-transport/src/browser_runtime/node/core.rs:866-888 | the same at one concrete node, remote and dial |
| NodeExamples.ClosedSessionComesBack | crates/iroh-webrtc-transport/src/browser_runtime/node/session_state.rs:95-124 | in a run of any new node a dialed session is closed and then becomes ready over the relay, exactly if its dial does not require WebRTC |
| NodeExamples.ClosedDuringFallback | crates/iroh-webrtc-transport/src/browser_runtime/node/core.rs:415-462 | in a run that the dial flow makes, a dial falls back, the other side reports a close while the relay connection is awaited, and the session, then closed, becomes ready |
| NodeExamples.ClosedSessionExample | crates/iroh-webrtc-transport/src/browser_runtime/node/core.rs:415-462 | that run at one concrete node, remote and dial |
| NodeRuns.CloseNodeCloses | crates/iroh-webrtc-transport/src/browser_runtime/node/core.rs:349-413 | exactly one closing signal for each WebRTC session that had sent none; every session and connection is closed |
| NodeRuns.CloseNodeAnswersWaiters | crates/iroh-webrtc-transport/src/browser_runtime/node/core.rs:365-367 | every waiting task that is still there is told that nothing will come |
| NodeRuns.ClosedForGood | crates/iroh-webrtc-transport/src/browser_runtime/node/core.rs:349-413 | after closing no operation changes a session, connection or queue, and a second close tells nobody |
| NodeAccepts.QueueRefines | crates/iroh-webrtc-transport/src/browser_runtime/node/connection.rs:47-124 | in every run of a node each accept queue has a history that keeps `Accept`'s invariant, and the waiters it served hold the connections it says |
| AddressList.SortingSorts | crates/iroh-webrtc-transport/src/browser_runtime/node.rs:106 | sorting puts the same addresses in ascending order of their bytes |
| AddressList.DedupingDedups | crates/iroh-webrtc-transport/src/browser_runtime/node.rs:107 | of a sorted list, dropping equal neighbours leaves every address once |
| AddressList.ListIsUnique | crates/iroh-webrtc-transport/src/browser_runtime/node.rs:106-108 | the advertised list is settled by its elements, whatever order the sessions were met in |
| BrowserNode.InitialAcceptRegistrations | crates/iroh-webrtc-transport/src/browser_runtime/node/core.rs:792-809 | one empty registration for each protocol, numbered from one in order |
| BrowserNode.BrowserRuntimeNode.RefreshWebRtcTransportAddrs | crates/iroh-webrtc-transport/src/browser_runtime/node.rs:89-109 | the list is strictly ascending and holds exactly the capability address and those of live sessions |
| BrowserNode.BrowserRuntimeNode.AllocateDial | crates/iroh-webrtc-transport/src/browser_runtime/node/session.rs:67-137 | a new dialer session under the generator's next id, for the remote, protocol and intent asked for, waiting and advertised if it may use WebRTC; only an empty protocol, a closed node or a used-up generator is refused |
| BrowserNode.BrowserRuntimeNode.AllocateAcceptSession | crates/iroh-webrtc-transport/src/browser_runtime/node/session.rs:165-227 | a new acceptor session, unless the id is in use; the advertised list stays ordered |
| BrowserNode.BrowserRuntimeNode.HandleBootstrapSignal | crates/iroh-webrtc-transport/src/browser_runtime/node/rtc.rs:17-84 | let through exactly: requests to this open node for a protocol it serves under an unused id, terminals to an open node and all other signals, each from the other end of a known session; a request makes the other end of its dial, a terminal takes the effect of its reason, any other signal gives the session and changes nothing |
| BrowserNode.BrowserRuntimeNode.UpdateSession | crates/iroh-webrtc-transport/src/browser_runtime/node.rs:63-85 | succeeds exactly if the session is in the state that the transition starts from; then a refresh leaves the list exact; a refusal changes nothing |
| BrowserNode.BrowserRuntimeNode.EmitTerminalDecision | crates/iroh-webrtc-transport/src/browser_runtime/node/rtc.rs:229-269 | on an open node every known session can be decided; without an override it falls back if it prefers WebRTC and fails otherwise; exactly that reason is recorded, takes effect, and over WebRTC is what the signal to the other end says; a refusal changes nothing |
| BrowserNode.BrowserRuntimeNode.ApplyRemoteTerminal | crates/iroh-webrtc-transport/src/browser_runtime/node/rtc.rs:189-227 | a terminal signal is applied exactly on an open node, for a known session and on its route, and then has the effect of its reason whatever state the session was in |
| BrowserNode.BrowserRuntimeNode.AcceptWebRtcConnection | crates/iroh-webrtc-transport/src/browser_runtime/node/core.rs:707-754 | some claimable session is picked whenever there is one, and claimed exactly if the path leads to it |
| BrowserNode.BrowserRuntimeNode.AdmitConnection | crates/iroh-webrtc-transport/src/browser_runtime/node/connection.rs:262-363 | succeeds exactly if the transport is allowed, the path leads to the session and, where it is to be queued, there is a place; success stores the connection under an unused key and leaves its session ready on that transport; failure leaves sessions, connections, queues and waiters as they were |
| BrowserNode.BrowserRuntimeNode.ConnectionClose | crates/iroh-webrtc-transport/src/browser_runtime/node/connection.rs:200-236 | every known connection of an open node can be closed; over WebRTC its session has ended and its address is advertised no more, over the relay no session changes; a refusal changes nothing |
| BrowserNode.BrowserRuntimeNode.AcceptOpen | crates/iroh-webrtc-transport/src/browser_runtime/node/connection.rs:4-34 | succeeds exactly for a registered protocol without an open iterator, and gives its registration id |
| BrowserNode.BrowserRuntimeNode.AcceptNext | crates/iroh-webrtc-transport/src/browser_runtime/node/connection.rs:47-67 | the oldest waiting connection, which leaves the queue, or a new waiter that nobody has answered and that waits nowhere else; after closing, that nothing will come |
| BrowserNode.BrowserRuntimeNode.AcceptClose | crates/iroh-webrtc-transport/src/browser_runtime/node/connection.rs:109-124 | every waiter of the protocol that is still there is told that nothing will come, and no answer given before changes |
| BrowserNode.BrowserRuntimeNode.CloseInner | crates/iroh-webrtc-transport/src/browser_runtime/node/core.rs:349-373 | the hub is closed with every blocked sender woken; the loops close sessions, queues and connections; the signals returned are the farewells, each once; only the first close does anything |
| Network.RunNetKeeps | crates/iroh-webrtc-transport/src/browser_runtime/node/rtc.rs:17-84 | over every run of the network in which the hash does not collide on what it was asked: accepted sessions mirror dialed ones, a dial id has one dialer, each signal says only what its sender's session could say, and every id was drawn by its dialer |
| Network.NextIdIsFresh | crates/iroh-webrtc-transport/src/core/signaling.rs:178-193 | because generations climb, the next dial's id is in use nowhere as long as the hash does not collide |
| Network.BothEndsMirrored | crates/iroh-webrtc-transport/src/browser_runtime/node/session.rs:67-227 | wherever both ends of a dial have a session: same id, generation and intent, swapped endpoints, different roles |
| Network.RouteCheckAccepts | crates/iroh-webrtc-transport/src/browser_runtime/node/rtc.rs:189-227 | no signal that was really sent is refused by the route check of the session it is for |
| Network.DialerIsThere | crates/iroh-webrtc-transport/src/browser_runtime/node/rtc.rs:22-63 | an accepted session's dialer still has its session |
| Network.FallbackAgrees | crates/iroh-webrtc-transport/src/browser_runtime/node/rtc.rs:189-269 | a fallback signal belongs to a dial that prefers WebRTC, and moves an open receiver to the relay |
| Network.FailureMeansWebRtcOnly | crates/iroh-webrtc-transport/src/browser_runtime/node/rtc.rs:248-259 | a failure signal belongs to a dial that requires WebRTC |
| Network.WebRtcOnlyNeverRelays | crates/iroh-webrtc-transport/src/browser_runtime/node.rs:143-172 | a dial that requires WebRTC resolves to the relay on neither side |
| Agreement.SignalsAreHandled | crates/iroh-webrtc-transport/src/browser_runtime/node/rtc.rs:65-82 | in every run: no offer, answer, candidate or terminal that was sent is refused by a recipient that has the session (and, for a terminal, is open); each does what its kind says |
| Agreement.RequestsAreHandled | crates/iroh-webrtc-transport/src/browser_runtime/node/rtc.rs:17-64 | a request that was sent is accepted by every open recipient that serves its protocol and makes the mirror image of the dialer's session |
| Agreement.HandshakeReachesPeer | crates/iroh-webrtc-transport/src/browser_runtime/node/rtc.rs:65-82 | an offer, answer or candidate of one end is sent under its route and let through by the other |
| Agreement.DialReachesBoth | crates/iroh-webrtc-transport/src/browser_runtime/node/session.rs:67-227 | after a dial to an open node that serves the protocol and the arrival of its request, both ends have their session, mirrored, waiting alike |
| Agreement.DecisionIsSent | crates/iroh-webrtc-transport/src/browser_runtime/node/rtc.rs:229-269 | a decision sends one signal with the reason decided: left to itself a fallback for a dial that prefers WebRTC, a failure for one that requires it |
| Agreement.DecisionReachesBoth | crates/iroh-webrtc-transport/src/browser_runtime/node/rtc.rs:189-269 | once that signal has arrived both ends, in whatever state they were, are on the relay, failed or over alike |
| Agreement.ClosingReachesPeer | crates/iroh-webrtc-transport/src/browser_runtime/node/core.rs:349-413 | a closing node ends the session at both ends, once its farewell has arrived |
| Keys.SessionKeyFrom | crates/iroh-webrtc-transport/src/browser_runtime/types/keys.rs:28-36 | the loop writes the 32 hexadecimal digits of the id |
| Keys.KeysDiffer | crates/iroh-webrtc-transport/src/browser_runtime/types/keys.rs:28-36 | different dial ids have different keys |
| Keys.KeyReadsBack | crates/iroh-webrtc-transport/src/browser_runtime/types/keys.rs:28-36 | the digits of each byte, higher one first, read as that byte |
| FrameReader.SendFrame | examples/rust-browser-ping-pong/src/lib.rs:375-386 | length and payload, or a refusal beyond 32 bits |
| FrameReader.FrameReader.FillUntil | examples/rust-browser-ping-pong/src/lib.rs:433-444 | enough bytes are buffered exactly when the stream still has them; no byte is lost or reordered |
| FrameReader.FrameReader.ReadFrame | examples/rust-browser-ping-pong/src/lib.rs:403-431 | the frame returned depends only on the unread bytes, not on how they were cut into chunks |
| FrameReader.FrameComesThrough | examples/rust-browser-ping-pong/src/lib.rs:375-431 | a sent frame is received exactly if its payload is within 128 MiB, a smaller limit than the sender's |
| FrameReader.WholeStream | examples/rust-browser-ping-pong/src/lib.rs:375-431 | a stream of sent frames gives back exactly their payloads and then its end |
| FrameReader.ReadToEnd | examples/rust-browser-ping-pong/src/lib.rs:166-177 | reading to the end, over any chunks that carry the bytes of sent payloads, returns exactly these payloads and then the end |
| FrameReader.CutStream | examples/rust-browser-ping-pong/src/lib.rs:403-431 | a stream cut anywhere gives the payloads before the cut, and a clean end exactly between frames |
| Replay.ReplayLru.CheckAndInsert | examples/rust-browser-chat-room/src/protocol.rs:195-207 | one check as specified |
| Replay.WindowIsLastAccepted | examples/rust-browser-chat-room/src/protocol.rs:189-208 | after any calls a signer's window is its last 256 accepted nonces in order, each once |
| Replay.AcceptedIffNotRecent | examples/rust-browser-chat-room/src/protocol.rs:195-207 | a nonce is accepted exactly if it is none of those |
| Replay.SignersAreApart | examples/rust-browser-chat-room/src/protocol.rs:189-208 | what other signers send makes no difference |

## Left out

- Iroh endpoints, routers, QUIC connections and path selection: the address that a connection's selected path leads to is an input.
- RTCPeerConnection and SDP: which descriptions and candidates the stack accepts is a parameter; it is taken to refuse candidates before a remote description and a second answer.
- JSON encoding of signals, SDP normalisation, browser glue and the user interfaces of the examples: foreign, or only formats.
- Timing statistics, gap counters and snapshots: bookkeeping; of the counters only the two datagram counters are kept, without 64-bit wrap-around.
- Operation timeouts and closing a native node: they only cut runs short.
- The browser's bootstrap stream tasks and its wait for channel capacity (direct/bootstrap.rs, direct/data_channel.rs): the native side of both is modelled.
- Pipeline.EndToEnd: a session's route is not registered a second time; the program leaves that to fresh session ids.
- Hub.SessionHub.RegisterOutboundSession: a sender blocked on a replaced route is not woken, because the program does not wake it.
- Hub.SessionHub.PollPushOutbound: of two senders blocked on one route only the last one's waker is stored, as in the program; each route has one sender.
- DataChannel.NativeChannel.PumpOutboundFrames: what other tasks do while the pump waits is a finite list of moments, so the contract speaks of every finite run and not of fairness.
- Handshake.Terminates: the streams do not break and neither side gives up; a broken stream ends a loop with an error, which the loop methods' specifications cover.
- BrowserNode.BrowserRuntimeNode.AcceptWebRtcConnection: if two sessions have the same remote and protocol, the wrong one may be picked and a good connection refused, as in the program.
- Network.FallbackAgrees: two terminal signals that cross need not leave both sides in the same lifecycle; the lemma speaks of the state right after the signal has arrived.
- NodeRuns.ClaimWithoutConnection: the two critical sections of the handler run back to back; other tasks could run between them.
- The handler of main-thread RTC results (rtc.rs:86-143): it is a channel opening, a failure decision or a close, each of which is an operation of its own here.
- Accept ids: a registration is named by its protocol, which stands for its id one to one.
- BrowserNode.BrowserRuntimeNode.CloseInner: the program also closes the node's Iroh endpoints, routers and streams, which are not modelled.
- Streams on connections, benchmark echo tasks and the protocol transport lookup: they do not touch what is modelled.
- The table of dials that wait for a decision: it only removes an entry when `Session.PendingDecision` gives an action.
