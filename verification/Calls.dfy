/**
  The objects behind the machines: each call on a hub, its endpoint, a sender or a data channel
  (core/hub.rs, core/endpoint.rs, core/sender.rs, native.rs) is one step of `Receiving` or of a line of
  `Pipeline`. A relation between objects and machine state holds at the start and is kept by every call.
 */
module Calls {
  import opened Prelude
  import opened Addr
  import opened Frame
  import opened Delivery
  import opened Hub
  import opened Sender
  import opened DataChannel
  import opened Endpoint
  import opened Receiving
  import opened Pipeline

  // ---- The receive side ----

  /** The hub and its endpoint are in the receiver's state. */
  ghost predicate Shows(e: WebRtcEndpoint, r: Receiver)
    reads e`pending, e.hub`recv, e.hub`closed, e.hub`endpointDeliveredPackets
  {
    && e.hub.recvCapacity == r.capacity && e.hub.recv == r.recv && e.hub.closed == r.closed
    && e.pending == r.pending && e.hub.endpointDeliveredPackets == r.count
  }

  /** A new hub with its endpoint is the machine's initial state. */
  method Begin(recvCapacity: nat, outboundCapacity: nat, isKey: KeyCheck) returns (e: WebRtcEndpoint)
    requires outboundCapacity > 0
    ensures fresh(e) && fresh(e.hub) && e.Valid() && e.hub.Valid()
    ensures Shows(e, NewReceiver(recvCapacity))
  {
    var hub := new SessionHub.WithCapacities(recvCapacity, outboundCapacity, isKey);
    e := new WebRtcEndpoint(hub);
  }

  method Push(e: WebRtcEndpoint, packet: QueuedPacket, ghost r: Receiver) returns (result: Result<(), Error>)
    requires e.Valid() && Shows(e, r) && WellFormed(packet)
    modifies e.hub`recv, e.hub`recvWaker, e.hub`woken
    ensures e.Valid() && Shows(e, Receiving.Step(r, Receiving.Push(packet)))
    ensures result.Success? <==> HasRoom(r)
  {
    result := e.hub.PushReceived(packet);
  }

  /** One call of the receiver; the caller's buffers hold what the machine has delivered in this step. */
  method Receive(e: WebRtcEndpoint, waker: Waker, io: Buffers, ghost r: Receiver)
    returns (result: Poll<Result<nat, IoError>>, ghost filled: seq<Filled>)
    requires e.Valid() && io.Valid() && Shows(e, r)
    modifies e`pending, e.hub`recv, e.hub`recvWaker, e.hub`endpointDeliveredPackets, io.metas, io.sources, io.bufs
    ensures e.Valid() && Shows(e, Receiving.Step(r, Receiving.Receive(io.Capacities())))
    ensures Arranged(io, old(io.Now()), filled)
    ensures Receiving.Step(r, Receiving.Receive(io.Capacities())).delivered == r.delivered + FilledDatagrams(filled)
    ensures result == Reported(HandOut(r.pending, r.recv, r.closed, io.Capacities()), |io.bufs|)
  {
    filled := HandOut(r.pending, r.recv, r.closed, io.Capacities()).filled;
    result := e.PollRecv(waker, io);
  }

  method CloseHub(e: WebRtcEndpoint, ghost r: Receiver)
    requires e.Valid() && e.hub.Valid() && Shows(e, r)
    modifies e.hub`closed, e.hub`recvWaker, e.hub`outbound, e.hub`woken, e.hub.Channels()`senderDropped
    ensures e.Valid() && e.hub.Valid() && Shows(e, Receiving.Step(r, Receiving.Close))
  {
    e.hub.Close();
  }

  // ---- One session's route ----

  /** The session's route, if the hub has one, goes through this channel, which serves no other route. */
  ghost predicate Serves(hub: SessionHub, ch: OutboundChannel, id: SessionId)
    reads hub`outbound
  {
    && (id in hub.outbound ==> hub.outbound[id].sender == ch)
    && (forall j :: j in hub.outbound && hub.outbound[j].sender == ch ==> j == id)
  }

  /** The session's channel at the sending hub holds the messages of the line's route. */
  ghost predicate RouteShows(hub: SessionHub, ch: OutboundChannel, id: SessionId, line: Line)
    reads hub`outbound, ch
  {
    && Serves(hub, ch, id)
    && line.registered == (id in hub.outbound && !ch.receiverDropped)
    && |ch.queue| == |line.route|
    && (forall i :: 0 <= i < |ch.queue| ==> ch.queue[i].bytes == line.route[i].bytes)
  }

  /** Whether a transmit can be queued on the session's channel right now. */
  ghost predicate CanQueue(hub: SessionHub, ch: OutboundChannel, id: SessionId)
    reads hub`outbound, ch
  {
    id in hub.outbound && !ch.receiverDropped && |ch.queue| < hub.outboundCapacity
  }

  /** Whether a transmit has to wait for a place on the session's channel. */
  ghost predicate CanWait(hub: SessionHub, ch: OutboundChannel, id: SessionId)
    reads hub`outbound, ch
  {
    id in hub.outbound && !ch.receiverDropped && |ch.queue| == hub.outboundCapacity
  }

  /** A transmit sent to a session's address is turned into the bytes that the machine puts on the line. */
  lemma MessageIsPacket(cfg: Config, l: Link, remote: EndpointId, t: Transmit, isKey: KeyCheck)
    requires isKey(remote)
    ensures var to := ToCustomAddr(WebRtcAddr(remote, Session(l.id)));
      var plan, bytes := PacketFor(to, t, cfg.sendMax, isKey), EncodedFor(cfg, l, t);
      && plan.Success? == bytes.Success?
      && (plan.Success? ==> plan.value.bytes == bytes.value && HeaderNames(plan.value, l.id))
  {
    ParseAfterEncode(WebRtcAddr(remote, Session(l.id)), isKey);
    EncodeSucceedsIffEncodable(FrameOf(l.id, t), cfg.sendMax);
    if EncodedFor(cfg, l, t).Success? {
      DecodeAfterEncode(FrameOf(l.id, t), cfg.sendMax, cfg.sendMax);
    }
  }

  /** What sending does to the one channel it goes to. */
  method QueueOn(sender: WebRtcSender, ch: OutboundChannel, id: SessionId, waker: Waker, to: CustomAddr, t: Transmit)
    returns (r: Poll<Result<(), Error>>)
    requires sender.hub.Valid() && sender.hub.Addressed() && Serves(sender.hub, ch, id)
    requires var plan := PacketFor(to, t, sender.maxPayloadLen, sender.hub.isKey);
      plan.Success? ==> HeaderNames(plan.value, id)
    modifies sender.hub`outbound, sender.hub`senderTransmitDatagrams, sender.hub.Channels()
    ensures sender.hub.Valid() && sender.hub.Addressed() && Serves(sender.hub, ch, id)
    ensures id in sender.hub.outbound <==> id in old(sender.hub.outbound)
    ensures ch.receiverDropped == old(ch.receiverDropped)
    ensures var plan := PacketFor(to, t, sender.maxPayloadLen, sender.hub.isKey);
      && (r == Ready(Success(())) <==> plan.Success? && old(CanQueue(sender.hub, ch, id)))
      && (r.Pending? <==> plan.Success? && old(CanWait(sender.hub, ch, id)))
      && (plan.Failure? ==> r == Ready(Failure(plan.error)))
      && ch.queue == old(ch.queue) + (if r == Ready(Success(())) then [plan.value] else [])
    ensures sender.hub.senderTransmitDatagrams
            == old(sender.hub.senderTransmitDatagrams) + if r == Ready(Success(())) then DatagramCount(t) else 0
  {
    ghost var plan := PacketFor(to, t, sender.maxPayloadLen, sender.hub.isKey);
    if plan.Success? {
      sender.hub.PushResultMeans(plan.value);
    }
    r := sender.PollSend(waker, to, t);
    if id in sender.hub.outbound {
      assert sender.hub.Queues()[id] == ch.queue && old(sender.hub.Queues())[id] == old(ch.queue);
    }
  }

  method SendOn(sender: WebRtcSender, ch: OutboundChannel, waker: Waker, remote: EndpointId, t: Transmit,
                cfg: Config, l: Link, ghost line: Line)
    returns (r: Poll<Result<(), Error>>)
    requires sender.hub.Valid() && sender.hub.Addressed() && RouteShows(sender.hub, ch, l.id, line)
    requires sender.hub.isKey(remote)
    requires sender.maxPayloadLen == cfg.sendMax && sender.hub.outboundCapacity == cfg.routeCapacity
    modifies sender.hub`outbound, sender.hub`senderTransmitDatagrams, sender.hub.Channels()
    ensures sender.hub.Valid() && sender.hub.Addressed()
    ensures var (line', sent) := OwnStep(cfg, l, line, Send(t));
      && RouteShows(sender.hub, ch, l.id, line')
      && sender.hub.senderTransmitDatagrams == old(sender.hub.senderTransmitDatagrams) + sent
    ensures r == Ready(Success(())) <==> CanSend(cfg, l, line, t)
    ensures r.Pending?
            <==> line.registered && EncodedFor(cfg, l, t).Success? && |line.route| == cfg.routeCapacity
  {
    MessageIsPacket(cfg, l, remote, t, sender.hub.isKey);
    r := QueueOn(sender, ch, l.id, waker, ToCustomAddr(WebRtcAddr(remote, Session(l.id))), t);
  }

  method UnregisterRoute(hub: SessionHub, ch: OutboundChannel, cfg: Config, l: Link, ghost line: Line)
    requires hub.Valid() && RouteShows(hub, ch, l.id, line)
    modifies hub`outbound, hub`woken, hub.Channels()`senderDropped
    ensures hub.Valid() && RouteShows(hub, ch, l.id, OwnStep(cfg, l, line, Unregister).0)
  {
    var _ := hub.UnregisterOutboundSession(l.id);
  }

  method DropReceiver(hub: SessionHub, ch: OutboundChannel, cfg: Config, l: Link, ghost line: Line)
    requires RouteShows(hub, ch, l.id, line)
    modifies ch
    ensures RouteShows(hub, ch, l.id, OwnStep(cfg, l, line, DropRoute).0)
  {
    ch.DropReceiver();
  }

  // ---- A data channel ----

  /** The pump takes a packet off the route and hands it to the channel, which may refuse it: then it is lost. */
  method PumpStep(channel: NativeChannel, fails: bool, ghost line: Line) returns (ghost line': Line)
    requires channel.Valid() && RouteShows(channel.hub, channel.rx, channel.id, line) && line.route != []
    modifies channel`buffered, channel`sent, channel`peak, channel.rx
    ensures channel.Valid() && RouteShows(channel.hub, channel.rx, channel.id, line')
    ensures line' == if fails then LostOn(PumpedOn(line), |line.wire|) else PumpedOn(line)
    ensures channel.sent == old(channel.sent) + (if fails then [] else [line'.wire[|line.wire|].bytes])
  {
    line' := if fails then LostOn(PumpedOn(line), |line.wire|) else PumpedOn(line);
    var taken := channel.TryTake();
    channel.Send(taken.value.value.bytes, fails);
  }

  /** A message that comes in at the receiving node. */
  method Arrives(e: WebRtcEndpoint, bytes: seq<Byte>, cfg: Config, i: nat, k: nat, ghost s: State)
    requires i < |s.lines| == |cfg.links| && k < |s.lines[i].wire| && s.lines[i].wire[k].bytes == bytes
    requires e.Valid() && Shows(e, s.hub)
    modifies e.hub`recv, e.hub`recvWaker, e.hub`woken
    ensures e.Valid() && Shows(e, Pipeline.Step(cfg, s, At(i, Arrive(k))).hub)
  {
    var l := cfg.links[i];
    OnMessage(e.hub, false, bytes, Source(l), l.id, cfg.recvMax);
  }
}
