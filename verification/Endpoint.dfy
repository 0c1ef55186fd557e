/** The receiving endpoint of the custom transport (core/endpoint.rs). */
module Endpoint {
  import opened Prelude
  import opened Addr
  import opened Chunks
  import opened Delivery
  import opened Hub

  /** How the caller reads one filled buffer. */
  datatype RecvMeta = RecvMeta(len: nat, stride: nat)

  datatype IoError = Transport(error: Error) | InvalidData(reason: string)

  const TOO_SMALL: IoError := InvalidData("receive buffer too small for WebRTC frame payload")

  /** The caller's buffers, with a slot for the meta data and the source address of each. */
  datatype Buffers = Buffers(bufs: seq<array<Byte>>, metas: array<RecvMeta>, sources: array<CustomAddr>) {
    ghost predicate Valid() {
      metas.Length == sources.Length == |bufs| && Distinct(bufs)
    }

    ghost function Capacities(): (caps: seq<nat>)
      ensures |caps| == |bufs|
      ensures forall i :: 0 <= i < |bufs| ==> caps[i] == bufs[i].Length
    {
      seq(|bufs|, i requires 0 <= i < |bufs| => bufs[i].Length)
    }

    ghost function Now(): (s: Snapshot)
      reads bufs, metas, sources
      ensures |s.bytes| == |bufs| && s.metas == metas[..] && s.sources == sources[..]
      ensures forall i :: 0 <= i < |bufs| ==> s.bytes[i] == bufs[i][..]
    {
      Snapshot(Contents(bufs), metas[..], sources[..])
    }
  }

  /** What the buffers and slots held at some moment. */
  datatype Snapshot = Snapshot(bytes: seq<seq<Byte>>, metas: seq<RecvMeta>, sources: seq<CustomAddr>)

  ghost function Contents(bufs: seq<array<Byte>>): (r: seq<seq<Byte>>)
    reads bufs
    ensures |r| == |bufs|
    ensures forall i :: 0 <= i < |bufs| ==> r[i] == bufs[i][..]
  {
    if bufs == [] then [] else [bufs[0][..]] + Contents(bufs[1..])
  }

  /** A buffer that reads as one filled buffer of the handout; what it held beyond that is untouched. */
  ghost predicate Holds(buf: array<Byte>, before: seq<Byte>, meta: RecvMeta, source: CustomAddr, f: Filled)
    reads buf
  {
    && |f.data| <= buf.Length == |before|
    && buf[..|f.data|] == f.data && buf[|f.data|..] == before[|f.data|..]
    && meta == RecvMeta(|f.data|, f.stride) && source == f.source
  }

  /**
    The caller's buffers after a call: the first ones hold what was handed out, buffer by buffer,
    and the others are what they were before.
   */
  ghost predicate Arranged(io: Buffers, before: Snapshot, filled: seq<Filled>)
    requires io.Valid()
    reads io.metas, io.sources, io.bufs
  {
    && |filled| <= |io.bufs| == |before.bytes| == |before.metas| == |before.sources|
    && forall i :: 0 <= i < |io.bufs| ==> SlotArranged(io, before, filled, i)
  }

  ghost predicate SlotArranged(io: Buffers, before: Snapshot, filled: seq<Filled>, i: nat)
    requires io.Valid()
    requires i < |io.bufs| == |before.bytes| == |before.metas| == |before.sources|
    reads io.metas, io.sources, io.bufs[i]
  {
    if i < |filled| then Holds(io.bufs[i], before.bytes[i], io.metas[i], io.sources[i], filled[i])
    else
      && io.bufs[i][..] == before.bytes[i]
      && io.metas[i] == before.metas[i] && io.sources[i] == before.sources[i]
  }

  /** The poll result that reports what was handed out. */
  function Reported(h: Handout, buffers: nat): Poll<Result<nat, IoError>> {
    if buffers == 0 then Ready(Success(0))
    else if h.filled != [] then Ready(Success(|h.filled|))
    else match h.stop
      case BuffersFull => Ready(Success(0))
      case QueueEmpty => Pending
      case QueueClosed => Ready(Failure(Transport(SessionClosed)))
      case BufferTooSmall => Ready(Failure(TOO_SMALL))
  }

  /** The first waiting datagram decides how a call with a buffer ends; it never succeeds with nothing. */
  lemma OutcomeOfCall(pending: Option<PendingPacket>, recv: seq<QueuedPacket>, closed: bool, caps: seq<nat>)
    requires Good(pending, recv) && caps != []
    ensures var rest := Rest(pending, recv);
      Reported(HandOut(pending, recv, closed, caps), |caps|) ==
      (if rest == [] then (if closed then Ready(Failure(Transport(SessionClosed))) else Pending)
       else if |rest[0].bytes| > caps[0] then Ready(Failure(TOO_SMALL))
       else Ready(Success(|HandOut(pending, recv, closed, caps).filled|)))
    ensures Reported(HandOut(pending, recv, closed, caps), |caps|) != Ready(Success(0))
  {
    FirstDatagramDecides(pending, recv, closed, caps);
  }

  /** A call that reports an error or has to wait has lost nothing. */
  lemma NothingLostWithoutDelivery(pending: Option<PendingPacket>, recv: seq<QueuedPacket>, closed: bool,
                                   caps: seq<nat>)
    requires Good(pending, recv) && HandOut(pending, recv, closed, caps).filled == []
    ensures var h := HandOut(pending, recv, closed, caps); Rest(h.pending, h.recv) == Rest(pending, recv)
  {
    HandOutConserves(pending, recv, closed, caps);
  }

  /** What one pass of the receive loop did with the current buffer. */
  datatype Pass = Stopped(stop: Stop) | Dropped | Wrote(meta: RecvMeta, source: CustomAddr)

  lemma DeliveryCountSnoc(fs: seq<Filled>, f: Filled)
    ensures DeliveryCount(fs + [f]) == DeliveryCount(fs) + DeliveryCount([f])
    decreases |fs|
  {
    if fs == [] {
      assert fs + [f] == [f];
    } else {
      assert (fs + [f])[1..] == fs[1..] + [f];
      DeliveryCountSnoc(fs[1..], f);
    }
  }

  /** The packet a pass works on: the stored one, or else the front of the queue. */
  function Current(pending: Option<PendingPacket>,
                   recv: seq<QueuedPacket>): (Option<PendingPacket>, seq<QueuedPacket>) {
    if pending.None? && recv != [] then (Some(PendingPacket(recv[0], 0)), recv[1..]) else (pending, recv)
  }

  /** The turn that a pass took, with the state it left. */
  predicate Took(pass: Pass, written: Filled, turn: Turn, current: Option<PendingPacket>, rest: seq<QueuedPacket>,
                 pending: Option<PendingPacket>, recv: seq<QueuedPacket>) {
    match pass
    case Stopped(stop) => turn == Halt(stop) && pending == current && recv == rest
    case Dropped => turn == Skip(pending, recv)
    case Wrote(_, _) => turn == Fill(written, pending, recv)
  }

  /** How a handout `h` goes on after one pass that left `pending` and `recv`. */
  ghost predicate Continues(h: Handout, pass: Pass, written: Filled, pending: Option<PendingPacket>,
                            recv: seq<QueuedPacket>, closed: bool, caps: seq<nat>)
    requires caps != []
  {
    match pass
    case Stopped(stop) => h == Handout([], pending, recv, stop)
    case Dropped => Good(pending, recv) && h == HandOut(pending, recv, closed, caps)
    case Wrote(_, _) => Good(pending, recv) && h == Prepended([written], HandOut(pending, recv, closed, caps[1..]))
  }

  /** One pass is one or two turns of the handout. */
  lemma PassStep(pending: Option<PendingPacket>, recv: seq<QueuedPacket>, closed: bool, caps: seq<nat>,
                 pass: Pass, written: Filled, pending': Option<PendingPacket>, recv': seq<QueuedPacket>)
    requires Good(pending, recv) && caps != []
    requires var (current, rest) := Current(pending, recv);
      Took(pass, written, TakeTurn(current, rest, closed, caps[0]), current, rest, pending', recv')
    ensures Continues(HandOut(pending, recv, closed, caps), pass, written, pending', recv', closed, caps)
    ensures pass.Dropped? ==> |recv'| < |recv| || (recv' == recv && pending.Some? && pending'.None?)
  {
    TurnConserves(pending, recv, closed, caps[0]);
    var (current, rest) := Current(pending, recv);
    TurnConserves(current, rest, closed, caps[0]);
  }

  /** The call will end as `total` says: `filled` is done, and the rest is still to be handed out. */
  ghost predicate InProgress(total: Handout, filled: seq<Filled>, pending: Option<PendingPacket>,
                             recv: seq<QueuedPacket>, closed: bool, caps: seq<nat>) {
    && |filled| <= |caps| && Good(pending, recv)
    && total == Prepended(filled, HandOut(pending, recv, closed, caps[|filled|..]))
  }

  /** What a pass means for the handout of the whole call. */
  lemma Advance(total: Handout, filled: seq<Filled>, rest: Handout, pass: Pass, written: Filled,
                pending: Option<PendingPacket>, recv: seq<QueuedPacket>, closed: bool, caps: seq<nat>)
    requires |filled| < |caps| && total == Prepended(filled, rest)
    requires Continues(rest, pass, written, pending, recv, closed, caps[|filled|..])
    ensures pass.Stopped? ==> total == Handout(filled, pending, recv, pass.stop)
    ensures pass.Dropped? ==> InProgress(total, filled, pending, recv, closed, caps)
    ensures pass.Wrote? ==> InProgress(total, filled + [written], pending, recv, closed, caps)
    ensures DeliveryCount(filled + [written]) == DeliveryCount(filled) + DeliveryCount([written])
  {
    DeliveryCountSnoc(filled, written);
    if pass.Stopped? {
      assert filled + [] == filled;
    } else if pass.Wrote? {
      var left := caps[|filled|..];
      var h := HandOut(pending, recv, closed, left[1..]);
      PrependedSnoc(filled, written, h);
      assert left[1..] == caps[|filled + [written]|..];
    }
  }

  lemma PrependedSnoc(filled: seq<Filled>, f: Filled, h: Handout)
    ensures Prepended(filled, Prepended([f], h)) == Prepended(filled + [f], h)
  {
    assert filled + ([f] + h.filled) == (filled + [f]) + h.filled;
  }

  lemma BuffersUsedUp(total: Handout, filled: seq<Filled>, pending: Option<PendingPacket>,
                      recv: seq<QueuedPacket>, closed: bool, caps: seq<nat>)
    requires InProgress(total, filled, pending, recv, closed, caps) && |filled| == |caps|
    ensures total == Handout(filled, pending, recv, BuffersFull)
  {
    assert caps[|filled|..] == [] && filled + [] == filled;
  }

  class WebRtcEndpoint {
    const hub: SessionHub
    var pending: Option<PendingPacket>

    ghost predicate Valid()
      reads this, hub`recv, hub`recvWaker, hub`closed
    {
      hub.RecvValid() && AllWellFormed(hub.recv) && ValidPending(pending)
    }

    constructor (hub: SessionHub)
      requires hub.RecvValid() && AllWellFormed(hub.recv)
      ensures this.hub == hub && pending == None && Valid()
    {
      this.hub := hub;
      pending := None;
    }

    /** The packet to work on: the stored one, which is taken out, or the next queued one. */
    method Fetch(waker: Waker) returns (r: Poll<Result<PendingPacket, Error>>)
      requires hub.RecvValid()
      modifies this`pending, hub`recv, hub`recvWaker
      ensures hub.RecvValid() && pending == None
      ensures var (current, rest) := Current(old(pending), old(hub.recv));
        && hub.recv == rest
        && r == (if current.Some? then Ready(Success(current.value))
                 else if hub.closed then Ready(Failure(SessionClosed)) else Pending)
      ensures hub.recvWaker == (if r.Pending? then Some(waker) else old(hub.recvWaker))
    {
      var stored := pending;
      pending := None;
      match stored {
        case Some(p) => return Ready(Success(p));
        case None =>
          var popped := hub.PopReceived(waker);
          match popped {
            case Ready(Success(packet)) => return Ready(Success(PendingPacket(packet, 0)));
            case Ready(Failure(e)) => return Ready(Failure(e));
            case Pending => return Pending;
          }
      }
    }

    /** Drop a used-up packet, or write its whole batch or its next segment and store what is left of it. */
    method Emit(current: PendingPacket, buf: array<Byte>) returns (pass: Pass, ghost written: Filled)
      requires pending == None && GoodPending(Some(current))
      modifies this`pending, hub`endpointDeliveredPackets, buf
      ensures Took(pass, written, TakeTurn(Some(current), hub.recv, hub.closed, buf.Length), Some(current), hub.recv,
                   pending, hub.recv)
      ensures pass.Wrote? ==> Holds(buf, old(buf[..]), pass.meta, pass.source, written)
      ensures !pass.Wrote? ==> buf[..] == old(buf[..])
      ensures hub.endpointDeliveredPackets
              == old(hub.endpointDeliveredPackets) + if pass.Wrote? then DeliveryCount([written]) else 0
    {
      written := Filled(current.packet.source, [], 0);
      var payload := current.packet.frame.payload;
      if |payload| == 0 {
        return Dropped, written;
      }
      if current.offset >= |payload| {
        return Dropped, written;
      }
      var stride := Stride(current.packet.frame);
      if current.offset == 0 && current.packet.frame.segmentSize.Some? {
        if |payload| <= buf.Length {
          written := Filled(current.packet.source, payload, stride);
          CopyInto(buf, payload);
          hub.endpointDeliveredPackets := hub.endpointDeliveredPackets + DivCeil(|payload|, stride);
          return Wrote(RecvMeta(|payload|, stride), current.packet.source), written;
        }
      }
      var segmentLen := Min(stride, |payload| - current.offset);
      if segmentLen > buf.Length {
        pending := Some(current);
        return Stopped(BufferTooSmall), written;
      }
      var end := current.offset + segmentLen;
      written := Filled(current.packet.source, payload[current.offset..end], segmentLen);
      DivCeilSmall(segmentLen, segmentLen);
      CopyInto(buf, payload[current.offset..end]);
      hub.endpointDeliveredPackets := hub.endpointDeliveredPackets + 1;
      if end < |payload| {
        pending := Some(PendingPacket(current.packet, end));
      }
      return Wrote(RecvMeta(segmentLen, segmentLen), current.packet.source), written;
    }

    /** One pass of the receive loop for one buffer. */
    method TryFill(waker: Waker, buf: array<Byte>) returns (pass: Pass, ghost written: Filled)
      requires hub.RecvValid() && Good(pending, hub.recv)
      modifies this`pending, hub`recv, hub`recvWaker, hub`endpointDeliveredPackets, buf
      ensures hub.RecvValid()
      ensures var (current, rest) := Current(old(pending), old(hub.recv));
        Took(pass, written, TakeTurn(current, rest, hub.closed, buf.Length), current, rest, pending, hub.recv)
      ensures pass.Wrote? ==> Holds(buf, old(buf[..]), pass.meta, pass.source, written)
      ensures !pass.Wrote? ==> buf[..] == old(buf[..])
      ensures hub.endpointDeliveredPackets
              == old(hub.endpointDeliveredPackets) + if pass.Wrote? then DeliveryCount([written]) else 0
      ensures hub.recvWaker == (if pass == Stopped(QueueEmpty) then Some(waker) else old(hub.recvWaker))
    {
      var fetched := Fetch(waker);
      match fetched {
        case Ready(Success(current)) => pass, written := Emit(current, buf);
        case Ready(Failure(_)) =>
          pass, written := Stopped(QueueClosed), Filled(CustomAddr(0, []), [], 0);
        case Pending =>
          pass, written := Stopped(QueueEmpty), Filled(CustomAddr(0, []), [], 0);
      }
    }

    /** One pass on the next free buffer of the caller. */
    method FillNext(waker: Waker, io: Buffers, count: nat, ghost before: Snapshot, ghost filled: seq<Filled>,
                    ghost total: Handout)
      returns (pass: Pass, ghost written: Filled)
      requires hub.RecvValid() && io.Valid() && count == |filled| < |io.bufs|
      requires Arranged(io, before, filled)
      requires InProgress(total, filled, pending, hub.recv, hub.closed, io.Capacities())
      modifies this`pending, hub`recv, hub`recvWaker, hub`endpointDeliveredPackets, io.metas, io.sources, io.bufs
      ensures hub.RecvValid()
      ensures pass.Stopped? ==> total == Handout(filled, pending, hub.recv, pass.stop)
      ensures pass.Dropped? ==> |hub.recv| < |old(hub.recv)|
                                || (hub.recv == old(hub.recv) && old(pending).Some? && pending.None?)
      ensures var now := if pass.Wrote? then filled + [written] else filled;
        && Arranged(io, before, now)
        && (!pass.Stopped? ==> InProgress(total, now, pending, hub.recv, hub.closed, io.Capacities()))
        && hub.endpointDeliveredPackets
           == old(hub.endpointDeliveredPackets) + (DeliveryCount(now) - DeliveryCount(filled))
      ensures hub.recvWaker == (if pass == Stopped(QueueEmpty) then Some(waker) else old(hub.recvWaker))
    {
      ghost var caps := io.Capacities();
      ghost var rest := HandOut(pending, hub.recv, hub.closed, caps[count..]);
      pass, written := TryFill(waker, io.bufs[count]);
      PassStep(old(pending), old(hub.recv), hub.closed, caps[count..], pass, written, pending, hub.recv);
      Advance(total, filled, rest, pass, written, pending, hub.recv, hub.closed, caps);
      if pass.Wrote? {
        io.metas[count], io.sources[count] := pass.meta, pass.source;
      }
      ghost var now := if pass.Wrote? then filled + [written] else filled;
      forall i | 0 <= i < |io.bufs|
        ensures SlotArranged(io, before, now, i)
      {
        assert old(SlotArranged(io, before, filled, i));
      }
    }

    /** One round of the receive loop: it ends the call, or it brings it forward. */
    method Round(waker: Waker, io: Buffers, count: nat, ghost before: Snapshot, ghost filled: seq<Filled>,
                 ghost total: Handout)
      returns (stop: Option<Stop>, count': nat, ghost filled': seq<Filled>)
      requires hub.RecvValid() && io.Valid() && count == |filled| <= |io.bufs|
      requires Arranged(io, before, filled)
      requires InProgress(total, filled, pending, hub.recv, hub.closed, io.Capacities())
      modifies this`pending, hub`recv, hub`recvWaker, hub`endpointDeliveredPackets, io.metas, io.sources, io.bufs
      ensures hub.RecvValid() && count' == |filled'| <= |io.bufs| && Arranged(io, before, filled')
      ensures stop.Some? ==> total == Handout(filled', pending, hub.recv, stop.value)
      ensures stop.None? ==> InProgress(total, filled', pending, hub.recv, hub.closed, io.Capacities())
      ensures stop.None? && count' <= count ==>
                count' == count
                && (|hub.recv| < |old(hub.recv)| || (hub.recv == old(hub.recv) && old(pending).Some? && pending.None?))
      ensures hub.endpointDeliveredPackets
              == old(hub.endpointDeliveredPackets) + (DeliveryCount(filled') - DeliveryCount(filled))
      ensures hub.recvWaker == (if stop == Some(QueueEmpty) then Some(waker) else old(hub.recvWaker))
    {
      count', filled' := count, filled;
      if count == |io.bufs| {
        BuffersUsedUp(total, filled, pending, hub.recv, hub.closed, io.Capacities());
        return Some(BuffersFull), count', filled';
      }
      var pass, written := FillNext(waker, io, count, before, filled, total);
      match pass {
        case Stopped(reason) => return Some(reason), count', filled';
        case Dropped => return None, count', filled';
        case Wrote(_, _) => return None, count + 1, filled + [written];
      }
    }

    /** The receive loop, up to the point where it has to stop. */
    method FillBuffers(waker: Waker, io: Buffers) returns (count: nat, stop: Stop, ghost filled: seq<Filled>)
      requires hub.RecvValid() && Good(pending, hub.recv) && io.Valid()
      modifies this`pending, hub`recv, hub`recvWaker, hub`endpointDeliveredPackets, io.metas, io.sources, io.bufs
      ensures hub.RecvValid() && count == |filled|
      ensures HandOut(old(pending), old(hub.recv), hub.closed, io.Capacities())
              == Handout(filled, pending, hub.recv, stop)
      ensures hub.endpointDeliveredPackets == old(hub.endpointDeliveredPackets) + DeliveryCount(filled)
      ensures hub.recvWaker == (if stop == QueueEmpty then Some(waker) else old(hub.recvWaker))
      ensures Arranged(io, old(io.Now()), filled)
    {
      ghost var before := io.Now();
      ghost var total := HandOut(pending, hub.recv, hub.closed, io.Capacities());
      filled, count := [], 0;
      assert io.Capacities()[0..] == io.Capacities();
      var reason: Option<Stop> := None;
      while reason.None?
        invariant count == |filled| <= |io.bufs|
        invariant hub.RecvValid() && Arranged(io, before, filled)
        invariant reason.None? ==> InProgress(total, filled, pending, hub.recv, hub.closed, io.Capacities())
        invariant reason.Some? ==> total == Handout(filled, pending, hub.recv, reason.value)
        invariant hub.recvWaker == (if reason == Some(QueueEmpty) then Some(waker) else old(hub.recvWaker))
        invariant hub.endpointDeliveredPackets == old(hub.endpointDeliveredPackets) + DeliveryCount(filled)
        decreases reason.None?, |io.bufs| - count, |hub.recv|, if pending.Some? then 1 else 0
      {
        reason, count, filled := Round(waker, io, count, before, filled, total);
      }
      stop := reason.value;
    }

    /** Fill as many of the caller's buffers as possible, and report how many. */
    method PollRecv(waker: Waker, io: Buffers) returns (r: Poll<Result<nat, IoError>>)
      requires Valid() && io.Valid()
      modifies this`pending, hub`recv, hub`recvWaker, hub`endpointDeliveredPackets, io.metas, io.sources, io.bufs
      ensures Valid()
      ensures var h := HandOut(old(pending), old(hub.recv), hub.closed, io.Capacities());
        && r == Reported(h, |io.bufs|)
        && pending == h.pending && hub.recv == h.recv
        && hub.recvWaker == (if h.stop == QueueEmpty then Some(waker) else old(hub.recvWaker))
        && hub.endpointDeliveredPackets == old(hub.endpointDeliveredPackets) + DeliveryCount(h.filled)
        && Arranged(io, old(io.Now()), h.filled)
    {
      if |io.bufs| == 0 {
        return Ready(Success(0));
      }
      HandOutKeepsBoundary(pending, hub.recv, hub.closed, io.Capacities());
      var count, stop, filled := FillBuffers(waker, io);
      if count > 0 {
        return Ready(Success(count));
      }
      match stop {
        case BuffersFull => return Ready(Success(count));
        case QueueEmpty => return Pending;
        case QueueClosed => return Ready(Failure(Transport(SessionClosed)));
        case BufferTooSmall => return Ready(Failure(TOO_SMALL));
      }
    }

    /** `bufs[count][..data.len()].copy_from_slice(data)`. */
    static method CopyInto(buf: array<Byte>, data: seq<Byte>)
      requires |data| <= buf.Length
      modifies buf
      ensures buf[..|data|] == data && buf[|data|..] == old(buf[|data|..])
    {
      forall i | 0 <= i < |data| {
        buf[i] := data[i];
      }
    }
  }

  ghost function Prepended(filled: seq<Filled>, h: Handout): Handout {
    h.(filled := filled + h.filled)
  }
}
