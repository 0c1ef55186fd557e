/** One attached data channel: what it makes of incoming messages, and its outbound pump (native.rs). */
module DataChannel {
  import opened Prelude
  import opened Addr
  import opened Frame
  import opened Chunks
  import opened Delivery
  import opened Hub
  import opened Sender

  /** The packet an incoming message is queued as; a message that is not for this session is dropped. */
  function MessagePacket(bytes: seq<Byte>, source: CustomAddr, sessionId: SessionId,
                         maxPayloadLen: nat): (r: Option<QueuedPacket>)
    ensures r.Some? ==> r.value.frame.sessionId == sessionId && WellFormed(r.value) && r.value.source == source
                        && r.value.frame.payload != []
  {
    match Decoded(bytes, maxPayloadLen)
    case Failure(_) => None
    case Success(frame) =>
      if frame.sessionId != sessionId then None else Some(QueuedPacket(source, frame))
  }

  /**
    A frame that was encoded for this session is queued as it was sent, if its payload is within the receiver's
    limit; one for another session never is.
   */
  lemma FramesComeThrough(frame: WebRtcPacketFrame, source: CustomAddr, sessionId: SessionId,
                          sendMax: nat, recvMax: nat)
    requires Encoded(frame, sendMax).Success?
    ensures MessagePacket(Encoded(frame, sendMax).value, source, sessionId, recvMax)
            == if frame.sessionId == sessionId && |frame.payload| <= recvMax
               then Some(QueuedPacket(source, Normalized(frame))) else None
  {
    EncodeSucceedsIffEncodable(frame, sendMax);
    DecodeAfterEncode(frame, sendMax, recvMax);
  }

  /** A message comes in. Only frames of this session are queued, and only while there is room. */
  method OnMessage(hub: SessionHub, isString: bool, bytes: seq<Byte>, source: CustomAddr, sessionId: SessionId,
                   maxPayloadLen: nat)
    requires hub.RecvValid() && AllWellFormed(hub.recv)
    modifies hub`recv, hub`recvWaker, hub`woken
    ensures hub.RecvValid() && AllWellFormed(hub.recv)
    ensures var packet := if isString then None else MessagePacket(bytes, source, sessionId, maxPayloadLen);
      if packet.Some? && !hub.closed && |old(hub.recv)| < hub.recvCapacity
      then hub.recv == old(hub.recv) + [packet.value] && hub.recvWaker == None
           && (old(hub.recvWaker).Some? ==> old(hub.recvWaker).value in hub.woken)
      else hub.recv == old(hub.recv) && hub.recvWaker == old(hub.recvWaker)
  {
    if isString {
      return;
    }
    var packet := MessagePacket(bytes, source, sessionId, maxPayloadLen);
    if packet.None? {
      return;
    }
    var _ := hub.PushReceived(packet.value);
  }

  // ---- The outbound pump ----

  /**
    What happens around the pump while it awaits something: the channel sends some of its buffered
    bytes, another task queues a packet, the channel reports an error, the channel closes.
   */
  datatype Moment = Moment(
    drained: nat,
    queued: Option<OutboundPacket>,
    errors: bool,
    closes: bool,
    sendFails: bool)

  predicate NoClose(moments: seq<Moment>) {
    forall m :: m in moments ==> !m.closes
  }

  /** `spent` has happened, and `now` is still to come; a channel only ever closes, and only by a close. */
  ghost predicate Passed(was: seq<Moment>, wasOpen: bool, spent: seq<Moment>, now: seq<Moment>, open: bool) {
    && was == spent + now
    && (NoClose(spent) ==> open == wasOpen) && (open ==> wasOpen)
  }

  lemma PassedOn(was: seq<Moment>, wasOpen: bool, first: seq<Moment>, mid: seq<Moment>, midOpen: bool,
                 second: seq<Moment>, now: seq<Moment>, open: bool)
    requires Passed(was, wasOpen, first, mid, midOpen) && Passed(mid, midOpen, second, now, open)
    ensures Passed(was, wasOpen, first + second, now, open)
    ensures NoClose(first + second) <==> NoClose(first) && NoClose(second)
    ensures Healthy(first + second) <==> Healthy(first) && Healthy(second)
  {
  }

  /** Nothing goes wrong with the channel. */
  predicate Healthy(moments: seq<Moment>) {
    forall m :: m in moments ==> !m.closes && !m.errors && !m.sendFails
  }

  datatype Limits = Limits(low: nat, high: nat)

  datatype PumpEnd = Stopped | StillRunning

  datatype Capacity = Drained | ClosedMeanwhile | Interrupted | Undecided

  function BytesOf(packets: seq<OutboundPacket>): (r: seq<seq<Byte>>)
    ensures |r| == |packets|
    ensures forall i :: 0 <= i < |r| ==> r[i] == packets[i].bytes
  {
    seq(|packets|, i requires 0 <= i < |packets| => packets[i].bytes)
  }

  lemma BytesOfAppend(before: seq<seq<Byte>>, xs: seq<OutboundPacket>, ys: seq<OutboundPacket>)
    ensures before + BytesOf(xs + ys) == (before + BytesOf(xs)) + BytesOf(ys)
  {
  }

  ghost predicate NoLonger(packets: seq<OutboundPacket>, longest: nat) {
    forall i :: 0 <= i < |packets| ==> |packets[i].bytes| <= longest
  }

  function Max(a: nat, b: nat): nat {
    if a < b then b else a
  }

  /** A native data channel with the hub route it serves, and the moments still to come. */
  class NativeChannel {
    const hub: SessionHub
    const rx: OutboundChannel
    const destination: CustomAddr
    const id: SessionId
    var buffered: nat
    var open: bool
    var moments: seq<Moment>
    ghost var sent: seq<seq<Byte>>
    ghost var peak: nat
    /** The hub's route as it was when it was taken away. */
    ghost var left: Option<OutboundRoute>

    /** Once the route is gone, whoever was blocked on it has been woken. */
    ghost predicate Valid()
      reads this, hub, hub.Channels(), rx
    {
      && hub.Valid()
      && DestinationSession(destination, hub.isKey) == Some(id)
      && !rx.receiverDropped
      && (id in hub.outbound ==> hub.outbound[id].sender == rx)
      && (rx in hub.Channels() ==> id in hub.outbound)
      && (id !in hub.outbound ==> left.Some? && left.value.sender == rx && hub.Released(left.value))
      && buffered <= peak
    }

    constructor (hub: SessionHub, destination: CustomAddr, id: SessionId, moments: seq<Moment>)
      requires hub.Valid() && DestinationSession(destination, hub.isKey) == Some(id)
      requires id in hub.outbound && !hub.outbound[id].sender.receiverDropped
      ensures Valid() && this.hub == hub && this.id == id && rx == hub.outbound[id].sender
      ensures sent == [] && peak == 0 && this.moments == moments && open
    {
      this.hub, this.rx, this.destination, this.id := hub, hub.outbound[id].sender, destination, id;
      buffered, open, this.moments, sent, peak, left := 0, true, moments, [], 0, None;
    }

    /** Everything that happens during one await; nothing when no more moments are to come. */
    method Await() returns (now: Option<Moment>)
      requires Valid()
      modifies this`buffered, this`open, this`moments, this`left, hub`outbound, hub`woken, hub.Channels()
      ensures Valid() && hub.Channels() <= old(hub.Channels())
      ensures rx.taken == old(rx.taken) && buffered <= old(buffered)
      ensures now.None? ==> moments == old(moments) == [] && buffered == old(buffered)
      ensures Passed(old(moments), old(open), if now.Some? then [now.value] else [], moments, open)
      ensures now.Some? && now.value.closes ==> !open && id !in hub.outbound
      ensures now.None? || !now.value.closes ==> hub.outbound.Keys == old(hub.outbound.Keys)
    {
      if moments == [] {
        return None;
      }
      var moment := moments[0];
      moments := moments[1..];
      buffered := buffered - Min(moment.drained, buffered);
      if moment.queued.Some? {
        OtherTaskQueues(moment.queued.value);
      }
      if moment.closes {
        ChannelCloses();
      }
      return Some(moment);
    }

    /** Some task queues a packet on whichever route it names. */
    method OtherTaskQueues(packet: OutboundPacket)
      requires Valid()
      modifies hub`outbound, hub.Channels()
      ensures Valid() && hub.Channels() == old(hub.Channels()) && hub.outbound.Keys == old(hub.outbound.Keys)
      ensures rx.taken == old(rx.taken)
    {
      var _ := hub.PollPushOutbound(0, packet);
      assert hub.Channels() == old(hub.Channels());
    }

    /** The close callback. */
    method ChannelCloses()
      requires Valid()
      modifies this`open, this`left, hub`outbound, hub`woken, hub.Channels()
      ensures Valid() && hub.Channels() <= old(hub.Channels()) && !open
      ensures rx.taken == old(rx.taken) && id !in hub.outbound
    {
      open := false;
      if id in hub.outbound {
        left := Some(hub.outbound[id]);
      }
      var _ := hub.UnregisterOutboundSession(id);
    }

    /** One moment of a wait that has been set up: it may end the wait. */
    method WaitOn(low: nat) returns (r: Option<Capacity>, ghost spent: seq<Moment>)
      requires Valid() && buffered > low
      modifies this`buffered, this`open, this`moments, this`left, hub`outbound, hub`woken, hub.Channels()
      ensures Valid() && hub.Channels() <= old(hub.Channels())
      ensures rx.taken == old(rx.taken) && Passed(old(moments), old(open), spent, moments, open)
      ensures r.Some? ==> EndsWait(r.value, spent, low)
      ensures r.None? ==> |spent| == 1
      ensures NoClose(spent) ==> hub.outbound.Keys == old(hub.outbound.Keys)
    {
      var now := Await();
      if now.None? {
        return Some(Undecided), [];
      }
      spent := [now.value];
      var first: bool := *;
      if (now.value.closes || now.value.errors) && (buffered > low || first) {
        return Some(if now.value.closes then ClosedMeanwhile else Interrupted), spent;
      }
      r := None;
    }

    /** What the outcome of a wait says about the channel, and about the moment that ended it. */
    ghost predicate EndsWait(r: Capacity, spent: seq<Moment>, low: nat)
      reads this`buffered, this`open, this`moments, hub`outbound
    {
      match r
      case Drained => buffered <= low
      case ClosedMeanwhile => spent != [] && spent[|spent| - 1].closes && !open && id !in hub.outbound
      case Interrupted => spent != [] && spent[|spent| - 1].errors && !spent[|spent| - 1].closes
      case Undecided => moments == [] && buffered > low
    }

    /**
      Wait until little enough is buffered. A close and an error both end the wait early; an error
      leaves the channel open and its route in place. What happens before the wait is set up goes unnoticed.
     */
    method WaitForCapacity(low: nat) returns (r: Capacity, ghost spent: seq<Moment>)
      requires Valid()
      modifies this`buffered, this`open, this`moments, this`left, hub`outbound, hub`woken, hub.Channels()
      ensures Valid() && hub.Channels() <= old(hub.Channels())
      ensures rx.taken == old(rx.taken) && Passed(old(moments), old(open), spent, moments, open)
      ensures EndsWait(r, spent, low)
      ensures NoClose(spent) ==> hub.outbound.Keys == old(hub.outbound.Keys)
    {
      r, spent := Drained, [];
      if buffered <= low {
        return;
      }
      var setUp := Await();
      if setUp.Some? {
        spent := [setUp.value];
      }
      while buffered > low
        invariant Valid() && hub.Channels() <= old(hub.Channels())
        invariant rx.taken == old(rx.taken) && Passed(old(moments), old(open), spent, moments, open)
        invariant NoClose(spent) ==> hub.outbound.Keys == old(hub.outbound.Keys)
        decreases |moments|
      {
        ghost var mid, midOpen := moments, open;
        var end, more := WaitOn(low);
        PassedOn(old(moments), old(open), spent, mid, midOpen, more, moments, open);
        spent := spent + more;
        if end.Some? {
          return end.value, spent;
        }
      }
    }

    /** Take a packet off the route, if one is there. */
    method TryTake() returns (r: Poll<Option<OutboundPacket>>)
      requires Valid()
      modifies rx
      ensures Valid() && hub.Channels() == old(hub.Channels())
      ensures rx.taken == old(rx.taken) + (if r.Ready? && r.value.Some? then [r.value.value] else [])
      ensures if old(rx.queue) == [] then rx.queue == [] && (r == Pending || r == Ready(None))
              else r == Ready(Some(old(rx.queue)[0])) && rx.queue == old(rx.queue)[1..]
      ensures r == Ready(None) ==> id !in hub.outbound
    {
      r := rx.Recv();
    }

    /** The next packet of the route; none once the route is gone and drained, or while it is empty. */
    method NextPacket() returns (packet: Option<OutboundPacket>, over: bool, ghost spent: seq<Moment>)
      requires Valid()
      modifies this`buffered, this`open, this`moments, this`left, hub`outbound, hub`woken, hub.Channels(), rx
      ensures Valid() && hub.Channels() <= old(hub.Channels())
      ensures rx.taken == old(rx.taken) + (if packet.Some? then [packet.value] else [])
      ensures Passed(old(moments), old(open), spent, moments, open) && buffered <= old(buffered)
      ensures over ==> packet.None? && id !in hub.outbound
      ensures packet.None? ==> rx.queue == [] && (over || moments == [])
    {
      spent := [];
      while true
        invariant Valid() && hub.Channels() <= old(hub.Channels())
        invariant rx.taken == old(rx.taken) && buffered <= old(buffered)
        invariant Passed(old(moments), old(open), spent, moments, open)
        decreases |moments|
      {
        var next := TryTake();
        if next.Ready? {
          return next.value, next.value.None?, spent;
        }
        if moments == [] {
          return None, false, spent;
        }
        ghost var mid, midOpen := moments, open;
        var now := Await();
        PassedOn(old(moments), old(open), spent, mid, midOpen, [now.value], moments, open);
        spent := spent + [now.value];
      }
    }

    /** Hand one message to the channel. */
    method Send(bytes: seq<Byte>, fails: bool)
      requires Valid()
      modifies this`buffered, this`sent, this`peak
      ensures Valid()
      ensures sent == old(sent) + (if fails then [] else [bytes])
      ensures buffered == old(buffered) + (if fails then 0 else |bytes|)
      ensures peak == Max(old(peak), buffered)
    {
      if !fails {
        buffered := buffered + |bytes|;
        sent := sent + [bytes];
      }
      peak := Max(peak, buffered);
    }

    /** Give up the route; the channel takes no more packets. */
    method GiveUp()
      requires Valid()
      modifies this`left, hub`outbound, hub`woken, hub.Channels()
      ensures Valid() && hub.Channels() <= old(hub.Channels())
      ensures rx.taken == old(rx.taken) && id !in hub.outbound
      ensures id in old(hub.outbound) ==> left == Some(old(hub.outbound)[id])
    {
      if id in hub.outbound {
        left := Some(hub.outbound[id]);
      }
      var _ := hub.UnregisterOutboundFor(destination);
    }

    /**
      Wait until there is room for a packet; otherwise the pump ends, or its moments do. A packet that fits
      does not wait, and one that has to wait goes on only with at most the low threshold buffered.
     */
    method AwaitRoom(limits: Limits, packet: OutboundPacket) returns (end: Option<PumpEnd>, ghost spent: seq<Moment>)
      requires Valid()
      modifies this`buffered, this`open, this`moments, this`left, hub`outbound, hub`woken, hub.Channels()
      ensures Valid() && hub.Channels() <= old(hub.Channels())
      ensures rx.taken == old(rx.taken) && Passed(old(moments), old(open), spent, moments, open)
      ensures end == Some(Stopped) ==> id !in hub.outbound
      ensures end == Some(StillRunning) ==> moments == []
      ensures end.None? ==> buffered + |packet.bytes| <= Max(limits.high, limits.low + |packet.bytes|)
      ensures end.None? && |spent| > 1 ==> buffered <= limits.low
      ensures old(open) && old(buffered) + |packet.bytes| <= limits.high ==>
                if old(moments) == [] then end == Some(StillRunning) else end.None? && |spent| == 1
      ensures old(open) && Healthy(spent) ==> end != Some(Stopped)
      ensures !old(open) ==> end == Some(Stopped)
      ensures end.None? ==> spent != []
    {
      spent := [];
      if !open {
        GiveUp();
        return Some(Stopped), spent;
      }
      var now := Await();
      if now.None? {
        return Some(StillRunning), spent;
      }
      spent := [now.value];
      if buffered + |packet.bytes| > limits.high {
        ghost var mid, midOpen, more := moments, open, [];
        end, more := WaitOrGiveUp(limits.low);
        PassedOn(old(moments), old(open), spent, mid, midOpen, more, moments, open);
        spent := spent + more;
        return;
      }
      return None, spent;
    }

    /** Wait for capacity, and give the route up when the wait fails. */
    method WaitOrGiveUp(low: nat) returns (end: Option<PumpEnd>, ghost spent: seq<Moment>)
      requires Valid()
      modifies this`buffered, this`open, this`moments, this`left, hub`outbound, hub`woken, hub.Channels()
      ensures Valid() && hub.Channels() <= old(hub.Channels())
      ensures rx.taken == old(rx.taken) && Passed(old(moments), old(open), spent, moments, open)
      ensures end == Some(Stopped) ==> id !in hub.outbound && !Healthy(spent)
      ensures end == Some(StillRunning) ==> moments == []
      ensures end.None? ==> buffered <= low
    {
      var capacity;
      capacity, spent := WaitForCapacity(low);
      match capacity {
        case Drained => return None, spent;
        case ClosedMeanwhile | Interrupted =>
          assert !Healthy(spent) by {
            assert spent[|spent| - 1] in spent;
          }
          GiveUp();
          return Some(Stopped), spent;
        case Undecided => return Some(StillRunning), spent;
      }
    }

    /**
      What has become of one packet. It is sent, or the pump ends without having sent it; an open channel on
      which nothing goes wrong is not given up, and a closed one sends nothing. A packet that fits under the
      high threshold is not held back, and one that has waited finds at most the low threshold before it.
     */
    static ghost predicate PacketDone(end: Option<PumpEnd>, spent: seq<Moment>, wasOpen: bool, wasBuffered: nat,
                                      buffered: nat, limits: Limits, bytes: seq<Byte>, all: seq<Moment>) {
      && (wasOpen && Healthy(spent) ==> end != Some(Stopped))
      && (!wasOpen ==> end == Some(Stopped))
      && (end.None? ==> spent != [] && !spent[|spent| - 1].sendFails)
      && (end.None? && |spent| > 2 ==> buffered <= limits.low + |bytes|)
      && (wasOpen && wasBuffered + |bytes| <= limits.high ==>
            if |all| < 2 then end == Some(StillRunning)
            else |spent| == 2 && end == if all[1].sendFails then Some(Stopped) else None)
    }

    /** What becomes of one packet: it is sent, or the pump ends. */
    method PumpOne(limits: Limits, packet: OutboundPacket) returns (end: Option<PumpEnd>, ghost spent: seq<Moment>)
      requires Valid()
      modifies this`buffered, this`open, this`moments, this`sent, this`peak, this`left,
               hub`outbound, hub`woken, hub.Channels()
      ensures Valid() && hub.Channels() <= old(hub.Channels())
      ensures rx.taken == old(rx.taken) && Passed(old(moments), old(open), spent, moments, open)
      ensures sent == old(sent) + (if end.None? then [packet.bytes] else [])
      ensures end == Some(Stopped) ==> id !in hub.outbound
      ensures end == Some(StillRunning) ==> moments == []
      ensures PacketDone(end, spent, old(open), old(buffered), buffered, limits, packet.bytes, old(moments))
      ensures peak <= Max(old(peak), Max(limits.high, limits.low + |packet.bytes|))
    {
      end, spent := AwaitRoom(limits, packet);
      if end.Some? {
        return;
      }
      ghost var mid, midOpen, more := moments, open, [];
      end, more := SendOrGiveUp(packet);
      PassedOn(old(moments), old(open), spent, mid, midOpen, more, moments, open);
      spent := spent + more;
    }

    /** The packet is sent; if that fails the route is given up. */
    method SendOrGiveUp(packet: OutboundPacket) returns (end: Option<PumpEnd>, ghost spent: seq<Moment>)
      requires Valid()
      modifies this`buffered, this`open, this`moments, this`sent, this`peak, this`left,
               hub`outbound, hub`woken, hub.Channels()
      ensures Valid() && hub.Channels() <= old(hub.Channels())
      ensures rx.taken == old(rx.taken) && Passed(old(moments), old(open), spent, moments, open)
      ensures |spent| == Min(1, |old(moments)|)
      ensures end == if spent == [] then Some(StillRunning) else if spent[0].sendFails then Some(Stopped) else None
      ensures sent == old(sent) + (if end.None? then [packet.bytes] else [])
      ensures end == Some(Stopped) ==> id !in hub.outbound
      ensures end.None? ==> buffered <= old(buffered) + |packet.bytes|
      ensures peak <= Max(old(peak), old(buffered) + |packet.bytes|)
    {
      var now := Await();
      if now.None? {
        return Some(StillRunning), [];
      }
      Send(packet.bytes, now.value.sendFails);
      if now.value.sendFails {
        GiveUp();
        return Some(Stopped), [now.value];
      }
      return None, [now.value];
    }

    /** One round of the pump: the next packet, and what becomes of it. */
    method PumpNext(limits: Limits)
      returns (end: Option<PumpEnd>, ghost taken: seq<OutboundPacket>, ghost spent: seq<Moment>)
      requires Valid()
      modifies this`buffered, this`open, this`moments, this`sent, this`peak, this`left,
               hub`outbound, hub`woken, hub.Channels(), rx
      ensures Valid() && hub.Channels() <= old(hub.Channels())
      ensures |taken| <= 1 && rx.taken == old(rx.taken) + taken
      ensures Passed(old(moments), old(open), spent, moments, open)
      ensures sent == old(sent) + (if end.None? then BytesOf(taken) else [])
      ensures end == Some(Stopped) ==> id !in hub.outbound
      ensures end == Some(StillRunning) ==> moments == []
      ensures end.None? ==> spent != []
      ensures old(open) && Healthy(spent) && end == Some(Stopped) ==> taken == []
      ensures !old(open) ==> end.Some?
      ensures end.Some? && taken == [] ==> rx.queue == []
      ensures PeakWithin(old(peak), limits, taken)
    {
      var packet, over, waited := NextPacket();
      spent := waited;
      if packet.None? {
        return Some(if over then Stopped else StillRunning), [], spent;
      }
      taken := [packet.value];
      ghost var mid, midOpen, more := moments, open, [];
      end, more := PumpOne(limits, packet.value);
      PassedOn(old(moments), old(open), waited, mid, midOpen, more, moments, open);
      spent := waited + more;
      assert BytesOf(taken) == [packet.value.bytes];
    }

    /**
      The pump: it takes packets off the route one by one, waits while too much is buffered, and
      gives up its route when the channel cannot take a packet. What it took is what it has sent,
      in that order, and at most one packet more, which it still holds or has lost with its route. An
      open channel with which nothing goes wrong loses none: its pump ends only with its route drained.
     */
    method PumpOutboundFrames(limits: Limits)
      returns (end: PumpEnd, ghost done: seq<OutboundPacket>, ghost held: seq<OutboundPacket>,
               ghost spent: seq<Moment>)
      requires Valid()
      modifies this`buffered, this`open, this`moments, this`sent, this`peak, this`left,
               hub`outbound, hub`woken, hub.Channels(), rx
      ensures Valid() && |held| <= 1
      ensures rx.taken == old(rx.taken) + (done + held) && sent == old(sent) + BytesOf(done)
      ensures if end.Stopped? then id !in hub.outbound else moments == []
      ensures Passed(old(moments), old(open), spent, moments, open)
      ensures old(open) && Healthy(spent) && end.Stopped? ==> held == [] && open
      ensures held == [] ==> rx.queue == []
      ensures !old(open) ==> done == []
      ensures PeakWithin(old(peak), limits, done + held)
    {
      done, held, spent := [], [], [];
      while true
        invariant Valid() && hub.Channels() <= old(hub.Channels())
        invariant rx.taken == old(rx.taken) + done && sent == old(sent) + BytesOf(done)
        invariant Passed(old(moments), old(open), spent, moments, open)
        invariant !old(open) ==> done == []
        invariant PeakWithin(old(peak), limits, done)
        decreases |moments|
      {
        ghost var before, mid, midOpen := peak, moments, open;
        var outcome, taken, more := PumpNext(limits);
        PeakJoins(old(peak), before, limits, done, taken);
        AppendAssociates(old(rx.taken), done, taken);
        BytesOfAppend(old(sent), done, taken);
        PassedOn(old(moments), old(open), spent, mid, midOpen, more, moments, open);
        spent := spent + more;
        if outcome.Some? {
          return outcome.value, done, taken, spent;
        }
        done := done + taken;
      }
    }

    /** The most that was ever buffered is within the high threshold, or the low one and the longest packet. */
    ghost predicate PeakWithin(before: nat, limits: Limits, packets: seq<OutboundPacket>)
      reads this`peak
    {
      PeakBound(before, peak, limits, packets)
    }

    static ghost predicate PeakBound(before: nat, now: nat, limits: Limits, packets: seq<OutboundPacket>) {
      forall longest: nat :: NoLonger(packets, longest) ==> now <= Max(before, Max(limits.high, limits.low + longest))
    }

    lemma PeakJoins(start: nat, middle: nat, limits: Limits, first: seq<OutboundPacket>, second: seq<OutboundPacket>)
      requires PeakBound(start, middle, limits, first) && PeakWithin(middle, limits, second)
      ensures PeakWithin(start, limits, first + second)
    {
      forall longest: nat | NoLonger(first + second, longest)
        ensures peak <= Max(start, Max(limits.high, limits.low + longest))
      {
        var all := first + second;
        assert forall i :: 0 <= i < |first| ==> all[i] == first[i];
        assert forall i :: 0 <= i < |second| ==> all[|first| + i] == second[i];
        assert NoLonger(first, longest) && NoLonger(second, longest);
      }
    }

    /** With enough room between the thresholds for any packet, the high one is never exceeded. */
    lemma NeverAboveHigh(before: nat, limits: Limits, packets: seq<OutboundPacket>, longest: nat)
      requires PeakWithin(before, limits, packets) && NoLonger(packets, longest)
      requires limits.low + longest <= limits.high && before <= limits.high
      ensures peak <= limits.high
    {
    }

    /** The pump as a task: with its end the receiver of the route goes away, and nobody waits on the route any more. */
    method RunPump(limits: Limits)
      returns (end: PumpEnd, ghost done: seq<OutboundPacket>, ghost held: seq<OutboundPacket>,
               ghost spent: seq<Moment>)
      requires Valid()
      modifies this`buffered, this`open, this`moments, this`sent, this`peak, this`left,
               hub`outbound, hub`woken, hub.Channels(), rx
      ensures hub.Valid() && (end.StillRunning? ==> Valid())
      ensures end.Stopped? ==>
                && id !in hub.outbound && rx.receiverDropped && rx.queue == [] && rx.senderWaker == None
                && left.Some? && left.value.sender == rx && hub.Released(left.value)
      ensures old(open) && Healthy(spent) && end.Stopped? ==> held == []
    {
      end, done, held, spent := PumpOutboundFrames(limits);
      if end.Stopped? {
        rx.DropReceiver();
      }
    }
  }

  /** A packet made from a transmit is longer than its payload by the header only. */
  lemma PacketLength(destination: CustomAddr, t: Transmit, maxPayloadLen: nat, isKey: KeyCheck)
    requires PacketFor(destination, t, maxPayloadLen, isKey).Success?
    ensures |PacketFor(destination, t, maxPayloadLen, isKey).value.bytes| == HEADER_LEN + |t.contents|
            <= HEADER_LEN + maxPayloadLen
  {
    var id := DestinationSession(destination, isKey).value;
    EncodeSucceedsIffEncodable(FrameOf(id, t), maxPayloadLen);
  }
}
