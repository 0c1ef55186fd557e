/**
  What one call of `poll_recv` hands out (core/endpoint.rs), as a function of the stored packet,
  the receive queue and the sizes of the caller's buffers; and why that refines the simple
  reading "the next datagrams, in order".
 */
module Delivery {
  import opened Prelude
  import opened Addr
  import opened Frame
  import opened Chunks

  datatype QueuedPacket = QueuedPacket(source: CustomAddr, frame: WebRtcPacketFrame)

  datatype PendingPacket = PendingPacket(packet: QueuedPacket, offset: nat)

  /** One filled buffer: its bytes, the stride the caller splits them by, and their source. */
  datatype Filled = Filled(source: CustomAddr, data: seq<Byte>, stride: nat)

  datatype Stop = BuffersFull | QueueEmpty | QueueClosed | BufferTooSmall

  datatype Handout = Handout(filled: seq<Filled>, pending: Option<PendingPacket>, recv: seq<QueuedPacket>, stop: Stop)

  /** A segment size of zero never comes out of the decoder. */
  predicate WellFormed(packet: QueuedPacket) {
    packet.frame.segmentSize != Some(0)
  }

  predicate AllWellFormed(recv: seq<QueuedPacket>) {
    forall i :: 0 <= i < |recv| ==> WellFormed(recv[i])
  }

  function Stride(frame: WebRtcPacketFrame): nat {
    if frame.segmentSize.Some? then frame.segmentSize.value else |frame.payload|
  }

  /** A packet may be stored only between two of its segments. */
  predicate ValidPending(pending: Option<PendingPacket>) {
    pending.Some? ==>
      var p := pending.value;
      && WellFormed(p.packet)
      && p.offset < |p.packet.frame.payload|
      && p.offset % Stride(p.packet.frame) == 0
  }

  // ---- The specification of one call ----

  /** One turn of the loop with a free buffer of `cap` bytes. */
  datatype Turn =
    | Halt(stop: Stop)
    | Skip(pending: Option<PendingPacket>, recv: seq<QueuedPacket>)
    | Fill(buffer: Filled, pending: Option<PendingPacket>, recv: seq<QueuedPacket>)

  function TakeTurn(pending: Option<PendingPacket>, recv: seq<QueuedPacket>, closed: bool, cap: nat): (t: Turn)
    ensures t.Skip? ==> |t.recv| < |recv| || (t.recv == recv && pending.Some? && t.pending.None?)
  {
    match pending
    case None =>
      if recv == [] then Halt(if closed then QueueClosed else QueueEmpty)
      else Skip(Some(PendingPacket(recv[0], 0)), recv[1..])
    case Some(PendingPacket(packet, offset)) =>
      var payload, len := packet.frame.payload, |packet.frame.payload|;
      var stride := Stride(packet.frame);
      if offset >= len then Skip(None, recv)
      else if offset == 0 && packet.frame.segmentSize.Some? && len <= cap then
        Fill(Filled(packet.source, payload, stride), None, recv)
      else
        var end := offset + Min(stride, len - offset);
        if end - offset > cap then Halt(BufferTooSmall)
        else Fill(Filled(packet.source, payload[offset..end], end - offset), NextPending(packet, end), recv)
  }

  function NextPending(packet: QueuedPacket, end: nat): Option<PendingPacket> {
    if end < |packet.frame.payload| then Some(PendingPacket(packet, end)) else None
  }

  function HandOut(pending: Option<PendingPacket>, recv: seq<QueuedPacket>, closed: bool, caps: seq<nat>): Handout
    decreases |caps|, |recv|, if pending.Some? then 1 else 0
  {
    if caps == [] then Handout([], pending, recv, BuffersFull)
    else match TakeTurn(pending, recv, closed, caps[0])
      case Halt(stop) => Handout([], pending, recv, stop)
      case Skip(p, r) => HandOut(p, r, closed, caps)
      case Fill(buffer, p, r) =>
        var h := HandOut(p, r, closed, caps[1..]);
        h.(filled := [buffer] + h.filled)
  }

  // ---- The simple reading: sequences of datagrams ----

  datatype Datagram = Datagram(source: CustomAddr, bytes: seq<Byte>)

  function Tag(source: CustomAddr, parts: seq<seq<Byte>>): (r: seq<Datagram>)
    ensures |r| == |parts|
    ensures forall i :: 0 <= i < |r| ==> r[i] == Datagram(source, parts[i])
  {
    seq(|parts|, i requires 0 <= i < |parts| => Datagram(source, parts[i]))
  }

  /** The datagrams of `payload` cut at `stride`; an empty payload has none. */
  function Cut(source: CustomAddr, payload: seq<Byte>, stride: nat): seq<Datagram> {
    if stride == 0 then [] else Tag(source, Chunk(payload, stride))
  }

  function PacketDatagrams(packet: QueuedPacket): seq<Datagram> {
    Cut(packet.source, packet.frame.payload, Stride(packet.frame))
  }

  function PendingDatagrams(pending: Option<PendingPacket>): seq<Datagram> {
    if pending.Some? && pending.value.offset <= |pending.value.packet.frame.payload| then
      var p := pending.value;
      Cut(p.packet.source, p.packet.frame.payload[p.offset..], Stride(p.packet.frame))
    else []
  }

  function QueueDatagrams(recv: seq<QueuedPacket>): seq<Datagram>
    decreases |recv|
  {
    if recv == [] then [] else PacketDatagrams(recv[0]) + QueueDatagrams(recv[1..])
  }

  function FilledDatagrams(filled: seq<Filled>): seq<Datagram>
    decreases |filled|
  {
    if filled == [] then []
    else Cut(filled[0].source, filled[0].data, filled[0].stride) + FilledDatagrams(filled[1..])
  }

  /** Everything not yet handed to the caller, in order. */
  function Rest(pending: Option<PendingPacket>, recv: seq<QueuedPacket>): seq<Datagram> {
    PendingDatagrams(pending) + QueueDatagrams(recv)
  }

  /** The datagrams recorded by the delivery counter for one filled buffer. */
  function DeliveryCount(filled: seq<Filled>): nat
    decreases |filled|
  {
    if filled == [] then 0
    else (if filled[0].stride == 0 then 0 else DivCeil(|filled[0].data|, filled[0].stride))
         + DeliveryCount(filled[1..])
  }

  lemma QueueDatagramsSnoc(recv: seq<QueuedPacket>, packet: QueuedPacket)
    ensures QueueDatagrams(recv + [packet]) == QueueDatagrams(recv) + PacketDatagrams(packet)
    decreases |recv|
  {
    if recv == [] {
      assert QueueDatagrams([packet]) == PacketDatagrams(packet) + QueueDatagrams([]);
    } else {
      assert (recv + [packet])[1..] == recv[1..] + [packet];
      QueueDatagramsSnoc(recv[1..], packet);
    }
  }

  // ---- Steps of the refinement ----

  /** Handing out one segment moves exactly one datagram. */
  lemma OneSegment(source: CustomAddr, payload: seq<Byte>, stride: nat, offset: nat)
    requires stride > 0 && offset < |payload|
    ensures var end := offset + Min(stride, |payload| - offset);
      && Cut(source, payload[offset..], stride)
         == Cut(source, payload[offset..end], end - offset) + Cut(source, payload[end..], stride)
      && Cut(source, payload[offset..end], end - offset) == [Datagram(source, payload[offset..end])]
  {
    var end := offset + Min(stride, |payload| - offset);
    var rest := payload[offset..];
    if |rest| > stride {
      assert rest[..stride] == payload[offset..end];
      assert rest[stride..] == payload[end..];
    } else {
      assert rest == payload[offset..end];
      assert payload[end..] == [];
    }
  }

  /** The same, for a stored packet and its next stored form; the offset stays on a segment boundary. */
  lemma SegmentStep(packet: QueuedPacket, offset: nat)
    requires WellFormed(packet) && offset < |packet.frame.payload|
    requires offset == 0 || offset % Stride(packet.frame) == 0
    ensures var payload, len := packet.frame.payload, |packet.frame.payload|;
      var end := offset + Min(Stride(packet.frame), len - offset);
      var next := if end < len then Some(PendingPacket(packet, end)) else None;
      && PendingDatagrams(Some(PendingPacket(packet, offset)))
         == [Datagram(packet.source, payload[offset..end])] + PendingDatagrams(next)
      && Cut(packet.source, payload[offset..end], end - offset) == [Datagram(packet.source, payload[offset..end])]
      && ValidPending(next)
  {
    var payload, len := packet.frame.payload, |packet.frame.payload|;
    var stride := Stride(packet.frame);
    var end := offset + Min(stride, len - offset);
    OneSegment(packet.source, payload, stride, offset);
    if offset == 0 {
      DivModUnique(0, stride, 0, 0);
    }
    NextOffset(offset, stride, len);
    if end == len {
      assert payload[end..] == [];
      assert Chunk([], stride) == [];
    }
  }

  /** The stored offset stays on a segment boundary. */
  lemma NextOffset(offset: nat, stride: nat, len: nat)
    requires stride > 0 && offset < len && offset % stride == 0
    ensures var end := offset + Min(stride, len - offset); end < len ==> end % stride == 0
  {
    if offset + stride < len {
      var q := offset / stride;
      assert offset + stride == (q + 1) * stride + 0;
      DivModUnique(offset + stride, stride, q + 1, 0);
    }
  }

  /** A stored packet is well formed, and its offset stands on a segment boundary or at the start. */
  predicate GoodPending(pending: Option<PendingPacket>) {
    pending.Some? ==>
      var p := pending.value;
      && WellFormed(p.packet)
      && (p.offset == 0 || (p.offset < |p.packet.frame.payload| && p.offset % Stride(p.packet.frame) == 0))
  }

  ghost predicate Good(pending: Option<PendingPacket>, recv: seq<QueuedPacket>) {
    AllWellFormed(recv) && GoodPending(pending)
  }

  /** Taking the next packet out of the queue, or dropping a used-up one, moves no datagram. */
  lemma SkipConserves(pending: Option<PendingPacket>, recv: seq<QueuedPacket>, closed: bool, cap: nat)
    requires Good(pending, recv) && TakeTurn(pending, recv, closed, cap).Skip?
    ensures var t := TakeTurn(pending, recv, closed, cap);
      Good(t.pending, t.recv) && Rest(t.pending, t.recv) == Rest(pending, recv)
  {
    if pending.None? {
      assert recv[0].frame.payload[0..] == recv[0].frame.payload;
    } else {
      assert PendingDatagrams(pending) == [];
    }
  }

  /** A whole batch holds all datagrams of its packet. */
  lemma WholePacket(packet: QueuedPacket)
    requires WellFormed(packet) && packet.frame.payload != []
    ensures PendingDatagrams(Some(PendingPacket(packet, 0))) == PacketDatagrams(packet)
  {
    assert packet.frame.payload[0..] == packet.frame.payload;
  }

  lemma FillConserves(pending: Option<PendingPacket>, recv: seq<QueuedPacket>, closed: bool, cap: nat)
    requires Good(pending, recv) && TakeTurn(pending, recv, closed, cap).Fill?
    ensures var t := TakeTurn(pending, recv, closed, cap);
      && Good(t.pending, t.recv) && ValidPending(t.pending)
      && t.recv == recv && t.buffer.stride > 0 && 0 < |t.buffer.data| <= cap
      && PendingDatagrams(pending)
         == Cut(t.buffer.source, t.buffer.data, t.buffer.stride) + PendingDatagrams(t.pending)
  {
    var PendingPacket(packet, offset) := pending.value;
    if offset == 0 {
      DivModUnique(0, Stride(packet.frame), 0, 0);
    }
    if offset == 0 && packet.frame.segmentSize.Some? && |packet.frame.payload| <= cap {
      WholePacket(packet);
    } else {
      SegmentStep(packet, offset);
    }
  }

  /** A buffer is too small only for the very next datagram. */
  lemma TooSmallForFirst(pending: Option<PendingPacket>, recv: seq<QueuedPacket>, closed: bool, cap: nat)
    requires Good(pending, recv) && TakeTurn(pending, recv, closed, cap) == Halt(BufferTooSmall)
    ensures Rest(pending, recv) != [] && |Rest(pending, recv)[0].bytes| > cap
    ensures ValidPending(pending)
  {
    var PendingPacket(packet, offset) := pending.value;
    if offset == 0 {
      DivModUnique(0, Stride(packet.frame), 0, 0);
    }
    SegmentStep(packet, offset);
  }

  /** What one turn does, for every way it can go. */
  lemma TurnConserves(pending: Option<PendingPacket>, recv: seq<QueuedPacket>, closed: bool, cap: nat)
    requires Good(pending, recv)
    ensures TurnMeaning(Rest(pending, recv), cap, closed, TakeTurn(pending, recv, closed, cap))
    ensures TakeTurn(pending, recv, closed, cap) == Halt(BufferTooSmall) ==> ValidPending(pending)
  {
    var t := TakeTurn(pending, recv, closed, cap);
    match t
    case Halt(stop) =>
      if stop == BufferTooSmall {
        TooSmallForFirst(pending, recv, closed, cap);
      }
    case Skip(_, _) =>
      SkipConserves(pending, recv, closed, cap);
    case Fill(buffer, p, r) =>
      FillConserves(pending, recv, closed, cap);
      AppendAssociates(Cut(buffer.source, buffer.data, buffer.stride), PendingDatagrams(p), QueueDatagrams(r));
  }

  /** A turn in terms of the datagrams left before it: it moves those of the filled buffer off the front. */
  ghost predicate TurnMeaning(rest: seq<Datagram>, cap: nat, closed: bool, t: Turn) {
    match t
    case Halt(QueueEmpty) => rest == [] && !closed
    case Halt(QueueClosed) => rest == [] && closed
    case Halt(BufferTooSmall) => rest != [] && |rest[0].bytes| > cap
    case Halt(BuffersFull) => false
    case Skip(p, r) => Good(p, r) && Rest(p, r) == rest
    case Fill(buffer, p, r) =>
      && Good(p, r) && ValidPending(p)
      && buffer.stride > 0 && 0 < |buffer.data| <= cap
      && rest == Cut(buffer.source, buffer.data, buffer.stride) + Rest(p, r)
  }

  /** One call moves datagrams from the front of the rest to the caller: none lost, none invented, none reordered. */
  lemma {:induction false} HandOutConserves(pending: Option<PendingPacket>, recv: seq<QueuedPacket>,
                                            closed: bool, caps: seq<nat>)
    requires Good(pending, recv)
    ensures var h := HandOut(pending, recv, closed, caps);
      && FilledDatagrams(h.filled) + Rest(h.pending, h.recv) == Rest(pending, recv)
      && DeliveryCount(h.filled) == |FilledDatagrams(h.filled)|
      && Good(h.pending, h.recv)
    decreases |caps|, |recv|, if pending.Some? then 1 else 0
  {
    if caps != [] {
      TurnConserves(pending, recv, closed, caps[0]);
      match TakeTurn(pending, recv, closed, caps[0])
      case Halt(_) =>
      case Skip(p, r) => HandOutConserves(p, r, closed, caps);
      case Fill(buffer, p, r) =>
        HandOutConserves(p, r, closed, caps[1..]);
        var h := HandOut(p, r, closed, caps[1..]);
        ConsFilled(buffer, h.filled);
        var ds := Cut(buffer.source, buffer.data, buffer.stride);
        AppendAssociates(ds, FilledDatagrams(h.filled), Rest(h.pending, h.recv));
    }
  }

  lemma ConsFilled(f: Filled, fs: seq<Filled>)
    requires f.stride > 0
    ensures FilledDatagrams([f] + fs) == Cut(f.source, f.data, f.stride) + FilledDatagrams(fs)
    ensures DeliveryCount([f] + fs) == |Cut(f.source, f.data, f.stride)| + DeliveryCount(fs)
  {
    assert ([f] + fs)[1..] == fs;
    ChunkCount(f.data, f.stride);
  }

  /** Buffer by buffer: filled, and with no more bytes than the buffer has. */
  ghost predicate FitsInto(filled: seq<Filled>, caps: seq<nat>) {
    && |filled| <= |caps|
    && (forall i :: 0 <= i < |filled| ==> 0 < |filled[i].data| <= caps[i] && filled[i].stride > 0)
  }

  lemma FitsIntoCons(f: Filled, fs: seq<Filled>, caps: seq<nat>)
    requires caps != [] && 0 < |f.data| <= caps[0] && f.stride > 0
    requires FitsInto(fs, caps[1..])
    ensures FitsInto([f] + fs, caps)
  {
    var all := [f] + fs;
    forall i | 0 <= i < |all|
      ensures 0 < |all[i].data| <= caps[i] && all[i].stride > 0
    {
      if i > 0 {
        assert all[i] == fs[i - 1] && caps[i] == caps[1..][i - 1];
      }
    }
  }

  /** No buffer overflows, and all of them are filled exactly when the call stopped for that reason. */
  lemma {:induction false} HandOutFits(pending: Option<PendingPacket>, recv: seq<QueuedPacket>, closed: bool,
                                       caps: seq<nat>)
    requires Good(pending, recv)
    ensures var h := HandOut(pending, recv, closed, caps);
      FitsInto(h.filled, caps) && (h.stop == BuffersFull <==> |h.filled| == |caps|)
    decreases |caps|, |recv|, if pending.Some? then 1 else 0
  {
    if caps != [] {
      TurnConserves(pending, recv, closed, caps[0]);
      match TakeTurn(pending, recv, closed, caps[0])
      case Halt(_) =>
      case Skip(p, r) => HandOutFits(p, r, closed, caps);
      case Fill(buffer, p, r) =>
        HandOutFits(p, r, closed, caps[1..]);
        FitsIntoCons(buffer, HandOut(p, r, closed, caps[1..]).filled, caps);
    }
  }

  /** What stays stored after a call stands on a segment boundary strictly inside its payload. */
  lemma {:induction false} HandOutKeepsBoundary(pending: Option<PendingPacket>, recv: seq<QueuedPacket>,
                                                closed: bool, caps: seq<nat>)
    requires Good(pending, recv) && (caps == [] ==> ValidPending(pending))
    ensures var h := HandOut(pending, recv, closed, caps);
      ValidPending(h.pending) && AllWellFormed(h.recv)
    decreases |caps|, |recv|, if pending.Some? then 1 else 0
  {
    if caps != [] {
      TurnConserves(pending, recv, closed, caps[0]);
      match TakeTurn(pending, recv, closed, caps[0])
      case Halt(_) =>
      case Skip(p, r) => HandOutKeepsBoundary(p, r, closed, caps);
      case Fill(_, p, r) => HandOutKeepsBoundary(p, r, closed, caps[1..]);
    }
  }

  /** Which way a call with at least one buffer goes, decided by the first datagram alone. */
  lemma {:induction false} FirstDatagramDecides(pending: Option<PendingPacket>, recv: seq<QueuedPacket>,
                                                closed: bool, caps: seq<nat>)
    requires Good(pending, recv) && caps != []
    ensures var h, rest := HandOut(pending, recv, closed, caps), Rest(pending, recv);
      && (h.filled != [] <==> rest != [] && |rest[0].bytes| <= caps[0])
      && (h.filled == [] && h.stop == BufferTooSmall <==> rest != [] && |rest[0].bytes| > caps[0])
      && (h.filled == [] && h.stop == QueueEmpty <==> rest == [] && !closed)
      && (h.filled == [] && h.stop == QueueClosed <==> rest == [] && closed)
    decreases |recv|, if pending.Some? then 1 else 0
  {
    TurnConserves(pending, recv, closed, caps[0]);
    match TakeTurn(pending, recv, closed, caps[0])
    case Halt(_) =>
    case Skip(p, r) => FirstDatagramDecides(p, r, closed, caps);
    case Fill(buffer, p, r) =>
      ChunkByOffset(buffer.data, buffer.stride, 0);
  }

  /** With buffers large enough for every datagram, a call fills all of them or leaves nothing behind. */
  lemma {:induction false} LargeBuffersDrain(pending: Option<PendingPacket>, recv: seq<QueuedPacket>,
                                             closed: bool, caps: seq<nat>)
    requires Good(pending, recv)
    requires forall d, c :: d in Rest(pending, recv) && c in caps ==> |d.bytes| <= c
    ensures var h := HandOut(pending, recv, closed, caps);
      |h.filled| == |caps| || (Rest(h.pending, h.recv) == [] && h.stop in {QueueEmpty, QueueClosed})
    decreases |caps|, |recv|, if pending.Some? then 1 else 0
  {
    if caps != [] {
      TurnConserves(pending, recv, closed, caps[0]);
      match TakeTurn(pending, recv, closed, caps[0])
      case Halt(stop) =>
        if stop == BufferTooSmall {
          var d, c := Rest(pending, recv)[0], caps[0];
          if d in Rest(pending, recv) && c in caps {
            assert false;
          }
        }
      case Skip(p, r) => LargeBuffersDrain(p, r, closed, caps);
      case Fill(buffer, p, r) =>
        var moved := Cut(buffer.source, buffer.data, buffer.stride);
        forall d, c | d in Rest(p, r) && c in caps[1..]
          ensures |d.bytes| <= c
        {
          assert d in moved + Rest(p, r) && c in caps;
        }
        LargeBuffersDrain(p, r, closed, caps[1..]);
    }
  }

  /** No waiting packet is cut into pieces of more than `size` bytes. */
  predicate SegmentsWithin(pending: Option<PendingPacket>, recv: seq<QueuedPacket>, size: nat) {
    && (pending.Some? ==> Stride(pending.value.packet.frame) <= size)
    && (forall i :: 0 <= i < |recv| ==> Stride(recv[i].frame) <= size)
  }

  lemma CutWithin(source: CustomAddr, payload: seq<Byte>, stride: nat)
    ensures forall d :: d in Cut(source, payload, stride) ==> 0 < |d.bytes| <= stride
  {
    if stride > 0 {
      ChunkSizes(payload, stride);
    }
  }

  lemma {:induction false} QueueWithin(recv: seq<QueuedPacket>, size: nat)
    requires SegmentsWithin(None, recv, size)
    ensures forall d :: d in QueueDatagrams(recv) ==> 0 < |d.bytes| <= size
    decreases |recv|
  {
    if recv != [] {
      CutWithin(recv[0].source, recv[0].frame.payload, Stride(recv[0].frame));
      QueueWithin(recv[1..], size);
    }
  }

  /** Buffers as large as the largest segment are large enough: a call fills all of them or leaves nothing behind. */
  lemma SegmentBuffersDrain(pending: Option<PendingPacket>, recv: seq<QueuedPacket>, closed: bool,
                            caps: seq<nat>, size: nat)
    requires Good(pending, recv) && SegmentsWithin(pending, recv, size) && forall c :: c in caps ==> size <= c
    ensures var h := HandOut(pending, recv, closed, caps);
      |h.filled| == |caps| || (Rest(h.pending, h.recv) == [] && h.stop in {QueueEmpty, QueueClosed})
  {
    QueueWithin(recv, size);
    if pending.Some? && pending.value.offset <= |pending.value.packet.frame.payload| {
      var p := pending.value;
      CutWithin(p.packet.source, p.packet.frame.payload[p.offset..], Stride(p.packet.frame));
    }
    LargeBuffersDrain(pending, recv, closed, caps);
  }

  /** A packet of several datagrams that fits a buffer is handed out whole, in one buffer with its stride. */
  lemma WholeBatchWhenItFits(recv: seq<QueuedPacket>, closed: bool, caps: seq<nat>)
    requires AllWellFormed(recv) && recv != [] && caps != []
    requires recv[0].frame.segmentSize.Some? && 0 < |recv[0].frame.payload| <= caps[0]
    ensures var h := HandOut(None, recv, closed, caps);
      && h.filled != []
      && h.filled[0] == Filled(recv[0].source, recv[0].frame.payload, recv[0].frame.segmentSize.value)
      && FilledDatagrams(h.filled[..1]) == PacketDatagrams(recv[0])
  {
    var stored := Some(PendingPacket(recv[0], 0));
    assert TakeTurn(None, recv, closed, caps[0]) == Skip(stored, recv[1..]);
    var h := HandOut(None, recv, closed, caps);
    assert h == HandOut(stored, recv[1..], closed, caps);
    assert h.filled[..1] == [h.filled[0]];
    ConsFilled(h.filled[0], []);
    assert [h.filled[0]] + [] == [h.filled[0]];
    assert PacketDatagrams(recv[0]) + [] == PacketDatagrams(recv[0]);
  }
}
