/** Sending: a transmit becomes a frame on its session's route (core/sender.rs). */
module Sender {
  import opened Prelude
  import opened Addr
  import opened Frame
  import opened Chunks
  import opened Delivery
  import opened Hub

  /** Contents to send; with a segment size they are several datagrams back to back. */
  datatype Transmit = Transmit(contents: seq<Byte>, segmentSize: Option<nat>)

  /** The number of datagrams the sender records for a transmit. */
  function DatagramCount(t: Transmit): nat {
    if t.segmentSize.Some? && t.segmentSize.value > 0
    then DivCeil(|t.contents|, t.segmentSize.value) else 1
  }

  function FrameOf(id: SessionId, t: Transmit): WebRtcPacketFrame {
    WebRtcPacketFrame(0, id, t.segmentSize, t.contents)
  }

  /** The packet that a transmit to `destination` is turned into, or the reason it is refused. */
  function PacketFor(destination: CustomAddr, t: Transmit, maxPayloadLen: nat,
                     isKey: KeyCheck): Result<OutboundPacket, Error> {
    match FromCustomAddr(destination, isKey)
    case Failure(e) => Failure(e)
    case Success(WebRtcAddr(_, Capability)) => Failure(InvalidAddr("cannot send to capability address"))
    case Success(WebRtcAddr(_, Session(id))) =>
      match Encoded(FrameOf(id, t), maxPayloadLen)
      case Failure(e) => Failure(e)
      case Success(bytes) => Success(OutboundPacket(destination, bytes))
  }

  /** The datagrams a transmit stands for. */
  function TransmitDatagrams(source: CustomAddr, t: Transmit): seq<Datagram> {
    Cut(source, t.contents, if t.segmentSize.Some? then t.segmentSize.value else |t.contents|)
  }

  /** Header and destination of a packet to send name the same session. */
  lemma PacketIsConsistent(destination: CustomAddr, t: Transmit, maxPayloadLen: nat, isKey: KeyCheck)
    requires PacketFor(destination, t, maxPayloadLen, isKey).Success?
    ensures Consistent(PacketFor(destination, t, maxPayloadLen, isKey).value, isKey)
  {
    var id := DestinationSession(destination, isKey).value;
    EncodeSucceedsIffEncodable(FrameOf(id, t), maxPayloadLen);
    DecodeAfterEncode(FrameOf(id, t), maxPayloadLen, maxPayloadLen);
  }

  /**
    What the receiver decodes stands for the datagrams of the transmit, even when the segment size
    was dropped because it did not cut anything; and the sender counted them right.
   */
  lemma DecodedDatagrams(id: SessionId, t: Transmit, sendMax: nat, recvMax: nat, source: CustomAddr)
    requires Encoded(FrameOf(id, t), sendMax).Success?
    requires Decoded(Encoded(FrameOf(id, t), sendMax).value, recvMax).Success?
    ensures var frame := Decoded(Encoded(FrameOf(id, t), sendMax).value, recvMax).value;
      && frame.sessionId == id && frame.flags == 0 && frame.payload == t.contents
      && WellFormed(QueuedPacket(source, frame))
      && PacketDatagrams(QueuedPacket(source, frame)) == TransmitDatagrams(source, t)
    ensures |TransmitDatagrams(source, t)| == DatagramCount(t) > 0
  {
    var frame := FrameOf(id, t);
    EncodeSucceedsIffEncodable(frame, sendMax);
    DecodeAfterEncode(frame, sendMax, recvMax);
    var len := |t.contents|;
    ChunkCount(t.contents, len);
    DivCeilSmall(len, len);
    if t.segmentSize.Some? {
      var size := t.segmentSize.value;
      ChunkCount(t.contents, size);
      ChunkByOffset(t.contents, size, 0);
      if size >= len {
        DivCeilSmall(len, size);
      }
    }
  }

  class WebRtcSender {
    const hub: SessionHub
    const maxPayloadLen: nat
    var validationChecks: nat

    constructor (hub: SessionHub, maxPayloadLen: nat)
      ensures this.hub == hub && this.maxPayloadLen == maxPayloadLen && validationChecks == 0
    {
      this.hub, this.maxPayloadLen, validationChecks := hub, maxPayloadLen, 0;
    }

    /** Only session addresses can be sent to. */
    method IsValidSendAddr(addr: CustomAddr) returns (valid: bool)
      modifies this`validationChecks
      ensures valid == DestinationSession(addr, hub.isKey).Some?
      ensures validationChecks == old(validationChecks) + 1
    {
      var parsed := FromCustomAddr(addr, hub.isKey);
      valid := parsed.Success? && parsed.value.kind.Session?;
      validationChecks := validationChecks + 1;
    }

    /**
      Send one transmit. A refused transmit changes nothing; a full route waits; an accepted one
      is queued as a single packet on its own session's route and counted with all its datagrams.
     */
    method PollSend(waker: Waker, destination: CustomAddr, t: Transmit) returns (r: Poll<Result<(), Error>>)
      requires hub.Valid() && hub.Addressed()
      modifies hub`outbound, hub`senderTransmitDatagrams, hub.Channels()
      ensures hub.Valid() && hub.Addressed()
      ensures hub.senderTransmitDatagrams
              == old(hub.senderTransmitDatagrams) + if r == Ready(Success(())) then DatagramCount(t) else 0
      ensures var plan := PacketFor(destination, t, maxPayloadLen, hub.isKey);
        && r == (if plan.Failure? then Ready(Failure(plan.error)) else old(hub.PushResult(plan.value)))
        && hub.Queues() == (if r == Ready(Success(())) then SessionHub.Appended(old(hub.Queues()), plan.value)
                            else old(hub.Queues()))
        && (r.Pending? ==> hub.BlockedOn(plan.value, waker))
      ensures hub.SameRoutes()
    {
      var packet := MakePacket(destination, t);
      r := QueueIfMade(waker, packet, DatagramCount(t));
    }

    /** A transmit that could not be framed is refused; otherwise its packet is queued. */
    method QueueIfMade(waker: Waker, packet: Result<OutboundPacket, Error>, datagrams: nat)
      returns (r: Poll<Result<(), Error>>)
      requires hub.Valid() && hub.Addressed() && (packet.Success? ==> Consistent(packet.value, hub.isKey))
      modifies hub`outbound, hub`senderTransmitDatagrams, hub.Channels()
      ensures hub.Valid() && hub.Addressed()
      ensures hub.senderTransmitDatagrams
              == old(hub.senderTransmitDatagrams) + if r == Ready(Success(())) then datagrams else 0
      ensures r == if packet.Failure? then Ready(Failure(packet.error)) else old(hub.PushResult(packet.value))
      ensures hub.Queues() == if r == Ready(Success(())) then SessionHub.Appended(old(hub.Queues()), packet.value)
                              else old(hub.Queues())
      ensures r.Pending? ==> hub.BlockedOn(packet.value, waker)
      ensures hub.SameRoutes()
    {
      if packet.Failure? {
        return Ready(Failure(packet.error));
      }
      r := QueuePacket(waker, packet.value, datagrams);
    }

    /** Queue a packet and, once it is accepted, record its datagrams. */
    method QueuePacket(waker: Waker, packet: OutboundPacket, datagrams: nat) returns (r: Poll<Result<(), Error>>)
      requires hub.Valid() && hub.Addressed() && Consistent(packet, hub.isKey)
      modifies hub`outbound, hub`senderTransmitDatagrams, hub.Channels()
      ensures hub.Valid() && hub.Addressed()
      ensures hub.senderTransmitDatagrams
              == old(hub.senderTransmitDatagrams) + if r == Ready(Success(())) then datagrams else 0
      ensures r == old(hub.PushResult(packet)) && hub.SameRoutes()
      ensures hub.Queues() == if r == Ready(Success(())) then SessionHub.Appended(old(hub.Queues()), packet)
                              else old(hub.Queues())
      ensures r.Pending? ==> hub.BlockedOn(packet, waker)
    {
      r := hub.PollPushOutbound(waker, packet);
      RecordIf(r == Ready(Success(())), datagrams);
    }

    method RecordIf(sent: bool, datagrams: nat)
      modifies hub`senderTransmitDatagrams
      ensures hub.senderTransmitDatagrams == old(hub.senderTransmitDatagrams) + if sent then datagrams else 0
      ensures old(hub.Valid()) ==> hub.Valid()
      ensures old(hub.Addressed()) ==> hub.Addressed()
      ensures hub.Queues() == old(hub.Queues()) && hub.SameRoutes()
    {
      if sent {
        hub.RecordSenderTransmit(datagrams);
      }
    }

    /** Parse the destination, then encode the frame for the session it names. */
    method MakePacket(destination: CustomAddr, t: Transmit) returns (r: Result<OutboundPacket, Error>)
      ensures r == PacketFor(destination, t, maxPayloadLen, hub.isKey)
      ensures r.Success? ==> Consistent(r.value, hub.isKey)
    {
      var parsed := FromCustomAddr(destination, hub.isKey);
      if parsed.Failure? {
        return Failure(parsed.error);
      }
      if parsed.value.kind.Capability? {
        return Failure(InvalidAddr("cannot send to capability address"));
      }
      var encoded := Encode(FrameOf(parsed.value.kind.sessionId, t), maxPayloadLen);
      if encoded.Failure? {
        return Failure(encoded.error);
      }
      PacketIsConsistent(destination, t, maxPayloadLen, hub.isKey);
      return Success(OutboundPacket(destination, encoded.value));
    }
  }
}
