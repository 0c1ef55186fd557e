/**
  The receive side of a hub over whole runs (core/hub.rs, core/endpoint.rs): packets of any sessions are
  pushed, calls with any buffers take them out, and at some point the hub is closed.
 */
module Receiving {
  import opened Prelude
  import opened Delivery

  /**
    `accepted` and `delivered` record every packet let in and every datagram
    given to the caller; `count` is the hub's counter.
   */
  datatype Receiver = Receiver(
    capacity: nat,
    recv: seq<QueuedPacket>,
    pending: Option<PendingPacket>,
    closed: bool,
    accepted: seq<QueuedPacket>,
    delivered: seq<Datagram>,
    count: nat)

  datatype Op = Push(packet: QueuedPacket) | Receive(caps: seq<nat>) | Close

  function NewReceiver(capacity: nat): Receiver {
    Receiver(capacity, [], None, false, [], [], 0)
  }

  predicate HasRoom(r: Receiver) {
    !r.closed && |r.recv| < r.capacity
  }

  /** Only decoded frames are ever pushed, and those are well formed. */
  function Pushed(r: Receiver, packet: QueuedPacket): Receiver
    requires WellFormed(packet)
  {
    if HasRoom(r) then r.(recv := r.recv + [packet], accepted := r.accepted + [packet]) else r
  }

  function Received(r: Receiver, caps: seq<nat>): Receiver {
    var h := HandOut(r.pending, r.recv, r.closed, caps);
    r.(pending := h.pending, recv := h.recv,
       delivered := r.delivered + FilledDatagrams(h.filled), count := r.count + DeliveryCount(h.filled))
  }

  function Step(r: Receiver, op: Op): Receiver {
    match op
    case Push(packet) => if WellFormed(packet) then Pushed(r, packet) else r
    case Receive(caps) => Received(r, caps)
    case Close => r.(closed := true)
  }

  function Run(capacity: nat, ops: seq<Op>): Receiver
    decreases |ops|
  {
    if ops == [] then NewReceiver(capacity) else Step(Run(capacity, ops[..|ops| - 1]), ops[|ops| - 1])
  }

  /** What the caller has been given and what still waits is what was let in, in order; and the cursor is sound. */
  ghost predicate Inv(r: Receiver) {
    && ValidPending(r.pending) && AllWellFormed(r.recv)
    && r.delivered + Rest(r.pending, r.recv) == QueueDatagrams(r.accepted)
    && r.count == |r.delivered|
    && |r.recv| <= r.capacity
  }

  lemma PushKeeps(r: Receiver, packet: QueuedPacket)
    requires Inv(r) && WellFormed(packet)
    ensures Inv(Pushed(r, packet))
    ensures HasRoom(r) ==>
              QueueDatagrams(Pushed(r, packet).accepted) == QueueDatagrams(r.accepted) + PacketDatagrams(packet)
  {
    if HasRoom(r) {
      var ds := PacketDatagrams(packet);
      QueueDatagramsSnoc(r.recv, packet);
      QueueDatagramsSnoc(r.accepted, packet);
      AppendAssociates(PendingDatagrams(r.pending), QueueDatagrams(r.recv), ds);
      AppendAssociates(r.delivered, Rest(r.pending, r.recv), ds);
    }
  }

  lemma {:induction false} HandOutShrinks(pending: Option<PendingPacket>, recv: seq<QueuedPacket>, closed: bool,
                                          caps: seq<nat>)
    ensures |HandOut(pending, recv, closed, caps).recv| <= |recv|
    decreases |caps|, |recv|, if pending.Some? then 1 else 0
  {
    if caps != [] {
      match TakeTurn(pending, recv, closed, caps[0])
      case Halt(_) =>
      case Skip(p, r) => HandOutShrinks(p, r, closed, caps);
      case Fill(_, p, r) => HandOutShrinks(p, r, closed, caps[1..]);
    }
  }

  lemma ReceiveKeeps(r: Receiver, caps: seq<nat>)
    requires Inv(r)
    ensures Inv(Received(r, caps))
  {
    var h := HandOut(r.pending, r.recv, r.closed, caps);
    HandOutConserves(r.pending, r.recv, r.closed, caps);
    HandOutKeepsBoundary(r.pending, r.recv, r.closed, caps);
    HandOutShrinks(r.pending, r.recv, r.closed, caps);
    AppendAssociates(r.delivered, FilledDatagrams(h.filled), Rest(h.pending, h.recv));
  }

  /** Any interleaving of pushes, calls and a close, with packets of any sessions and peers. */
  lemma {:induction false} EveryRun(capacity: nat, ops: seq<Op>)
    ensures Inv(Run(capacity, ops)) && Run(capacity, ops).capacity == capacity
    decreases |ops|
  {
    if ops != [] {
      var r := Run(capacity, ops[..|ops| - 1]);
      EveryRun(capacity, ops[..|ops| - 1]);
      match ops[|ops| - 1]
      case Push(packet) =>
        if WellFormed(packet) {
          PushKeeps(r, packet);
        }
      case Receive(caps) => ReceiveKeeps(r, caps);
      case Close =>
    }
  }

  /** Closing loses nothing: a call reports the end only when everything let in has been delivered. */
  lemma EndMeansAllDelivered(capacity: nat, ops: seq<Op>, caps: seq<nat>)
    requires caps != []
    ensures var r := Run(capacity, ops);
      var h := HandOut(r.pending, r.recv, r.closed, caps);
      h.filled == [] && h.stop == QueueClosed <==> r.closed && r.delivered == QueueDatagrams(r.accepted)
  {
    EveryRun(capacity, ops);
    var r := Run(capacity, ops);
    FirstDatagramDecides(r.pending, r.recv, r.closed, caps);
    assert |r.delivered + Rest(r.pending, r.recv)| == |r.delivered| + |Rest(r.pending, r.recv)|;
    assert r.delivered + [] == r.delivered;
  }
}
