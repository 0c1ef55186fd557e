/** Packet queues shared by all sessions of a node (core/hub.rs), and the channel behind each outbound route. */
module Hub {
  import opened Prelude
  import opened Addr
  import opened Frame
  import opened Delivery

  datatype OutboundPacket = OutboundPacket(destination: CustomAddr, bytes: seq<Byte>)

  /** The session whose id stands in the header of the packet's bytes. */
  predicate HeaderNames(packet: OutboundPacket, id: SessionId) {
    HeaderSessionId(packet.bytes) == Success(id)
  }

  /** Header and destination name the same session. */
  predicate Consistent(packet: OutboundPacket, isKey: KeyCheck) {
    && HeaderSessionId(packet.bytes).Success?
    && DestinationSession(packet.destination, isKey) == Some(HeaderSessionId(packet.bytes).value)
  }

  /**
    A bounded channel with one sender and one receiver. A sender that found it full is woken when
    the receiver takes a packet or goes away.
   */
  class OutboundChannel {
    const capacity: nat
    var queue: seq<OutboundPacket>
    var receiverDropped: bool
    var senderDropped: bool
    var senderWaker: Option<Waker>
    ghost var woken: seq<Waker>
    ghost var taken: seq<OutboundPacket>

    constructor (capacity: nat)
      requires capacity > 0
      ensures this.capacity == capacity && queue == [] && taken == []
      ensures !receiverDropped && !senderDropped && senderWaker == None
    {
      this.capacity := capacity;
      queue, taken, woken := [], [], [];
      receiverDropped, senderDropped, senderWaker := false, false, None;
    }

    method PollReserve(waker: Waker) returns (r: Poll<Result<(), Error>>)
      modifies this`senderWaker
      ensures r == if receiverDropped then Ready(Failure(SessionClosed))
                   else if |queue| >= capacity then Pending
                   else Ready(Success(()))
      ensures senderWaker == if r.Pending? then Some(waker) else None
    {
      if receiverDropped {
        senderWaker := None;
        return Ready(Failure(SessionClosed));
      }
      if |queue| >= capacity {
        senderWaker := Some(waker);
        return Pending;
      }
      senderWaker := None;
      return Ready(Success(()));
    }

    method SendItem(packet: OutboundPacket)
      requires !receiverDropped && |queue| < capacity
      modifies this`queue
      ensures queue == old(queue) + [packet]
    {
      queue := queue + [packet];
    }

    /** The receiver's side: the next packet, or the end once the sender is gone and nothing is left. */
    method Recv() returns (r: Poll<Option<OutboundPacket>>)
      requires !receiverDropped
      modifies this`queue, this`senderWaker, this`woken, this`taken
      ensures old(queue) != [] ==>
                && r == Ready(Some(old(queue)[0])) && queue == old(queue)[1..]
                && taken == old(taken) + [old(queue)[0]]
                && senderWaker == None
                && woken == old(woken) + (if old(senderWaker).Some? then [old(senderWaker).value] else [])
      ensures old(queue) == [] ==>
                && r == (if senderDropped then Ready(None) else Pending)
                && unchanged(`queue) && unchanged(`senderWaker) && unchanged(`woken) && unchanged(`taken)
    {
      if queue != [] {
        r := Ready(Some(queue[0]));
        taken := taken + [queue[0]];
        queue := queue[1..];
        WakeSender();
      } else if senderDropped {
        r := Ready(None);
      } else {
        r := Pending;
      }
    }

    method DropReceiver()
      modifies this`queue, this`receiverDropped, this`senderWaker, this`woken
      ensures receiverDropped && queue == [] && senderWaker == None
      ensures woken == old(woken) + (if old(senderWaker).Some? then [old(senderWaker).value] else [])
    {
      receiverDropped := true;
      queue := [];
      WakeSender();
    }

    method WakeSender()
      modifies this`senderWaker, this`woken
      ensures senderWaker == None
      ensures woken == old(woken) + (if old(senderWaker).Some? then [old(senderWaker).value] else [])
    {
      if senderWaker.Some? {
        woken := woken + [senderWaker.value];
      }
      senderWaker := None;
    }
  }

  datatype OutboundRoute = OutboundRoute(sender: OutboundChannel, pendingWaker: Option<Waker>)

  class SessionHub {
    const recvCapacity: nat
    const outboundCapacity: nat
    /** Which byte strings are endpoint ids: the same for every parse of an address. */
    const isKey: KeyCheck
    var recv: seq<QueuedPacket>
    var outbound: map<SessionId, OutboundRoute>
    var recvWaker: Option<Waker>
    var closed: bool
    var senderTransmitDatagrams: nat
    var endpointDeliveredPackets: nat
    ghost var woken: seq<Waker>

    ghost function Channels(): set<OutboundChannel>
      reads `outbound
    {
      set id | id in outbound :: outbound[id].sender
    }

    /** What waits on each route. */
    ghost function Queues(): map<SessionId, seq<OutboundPacket>>
      reads `outbound, Channels()
    {
      map id | id in outbound :: outbound[id].sender.queue
    }

    /**
      What holds between any two operations. A stored receive waker means that there is nothing to
      receive, so no push or close can have been missed; every packet waiting on a route names the
      route's session in its header; no channel serves two routes.
     */
    ghost predicate Valid()
      reads `recv, `recvWaker, `closed, `outbound, Channels()
    {
      && RecvValid()
      && (closed ==> outbound == map[])
      && outboundCapacity > 0
      && (forall id :: id in outbound ==> RouteValid(id, outbound[id]))
      && (forall i, j :: i in outbound && j in outbound && outbound[i].sender == outbound[j].sender ==> i == j)
    }

    ghost predicate RecvValid()
      reads `recv, `recvWaker, `closed
    {
      && |recv| <= recvCapacity
      && (recvWaker.Some? ==> recv == [] && !closed)
    }

    ghost predicate RouteValid(id: SessionId, route: OutboundRoute)
      reads route.sender
    {
      var ch := route.sender;
      && ch.capacity == outboundCapacity
      && |ch.queue| <= ch.capacity
      && !ch.senderDropped
      && (forall i :: 0 <= i < |ch.queue| ==> HeaderNames(ch.queue[i], id))
    }

    /** Every packet waiting on a route is addressed to the route's session. */
    ghost predicate Addressed()
      reads `outbound, Channels()
    {
      forall id, i :: id in outbound && 0 <= i < |outbound[id].sender.queue| ==>
        DestinationSession(outbound[id].sender.queue[i].destination, isKey) == Some(id)
    }

    constructor WithCapacities(recvCapacity: nat, outboundCapacity: nat, isKey: KeyCheck)
      requires outboundCapacity > 0
      ensures Valid() && Addressed() && this.isKey == isKey && recv == [] && outbound == map[] && !closed
      ensures this.recvCapacity == recvCapacity && this.outboundCapacity == outboundCapacity
      ensures senderTransmitDatagrams == endpointDeliveredPackets == 0
    {
      this.recvCapacity, this.outboundCapacity, this.isKey := recvCapacity, outboundCapacity, isKey;
      recv, outbound, recvWaker, closed := [], map[], None, false;
      senderTransmitDatagrams, endpointDeliveredPackets, woken := 0, 0, [];
    }

    // ---- Receiving ----

    /** An accepted packet goes to the end of the queue and wakes whoever waits for one. */
    method PushReceived(packet: QueuedPacket) returns (r: Result<(), Error>)
      requires RecvValid()
      modifies this`recv, this`recvWaker, this`woken
      ensures RecvValid()
      ensures r == if closed then Failure(SessionClosed)
                   else if |old(recv)| >= recvCapacity then Failure(SendQueueFull)
                   else Success(())
      ensures r.Success? ==>
                && recv == old(recv) + [packet] && recvWaker == None
                && woken == old(woken) + (if old(recvWaker).Some? then [old(recvWaker).value] else [])
      ensures r.Failure? ==> unchanged(`recv) && unchanged(`recvWaker) && unchanged(`woken)
    {
      if closed {
        return Failure(SessionClosed);
      }
      if |recv| >= recvCapacity {
        return Failure(SendQueueFull);
      }
      recv := recv + [packet];
      WakeReceiver();
      return Success(());
    }

    /** The front of the queue; a caller that gets nothing leaves its waker, unless the hub is closed. */
    method PopReceived(waker: Waker) returns (r: Poll<Result<QueuedPacket, Error>>)
      requires RecvValid()
      modifies this`recv, this`recvWaker
      ensures RecvValid()
      ensures old(recv) != [] ==>
                r == Ready(Success(old(recv)[0])) && recv == old(recv)[1..] && unchanged(`recvWaker)
      ensures old(recv) == [] ==>
                && unchanged(`recv)
                && r == (if closed then Ready(Failure(SessionClosed)) else Pending)
                && recvWaker == (if closed then old(recvWaker) else Some(waker))
    {
      if recv != [] {
        r := Ready(Success(recv[0]));
        recv := recv[1..];
      } else if closed {
        r := Ready(Failure(SessionClosed));
      } else {
        recvWaker := Some(waker);
        r := Pending;
      }
    }

    method WakeReceiver()
      modifies this`recvWaker, this`woken
      ensures recvWaker == None
      ensures woken == old(woken) + (if old(recvWaker).Some? then [old(recvWaker).value] else [])
    {
      if recvWaker.Some? {
        woken := woken + [recvWaker.value];
      }
      recvWaker := None;
    }

    // ---- Sending ----

    /**
      A fresh route for a session; on a closed hub the receiver is left without a sender. A route
      that was there before is replaced: its receiver drains to the end, and a sender blocked on
      it is not woken.
     */
    method RegisterOutboundSession(id: SessionId) returns (rx: OutboundChannel)
      requires Valid()
      modifies this`outbound, (if id in outbound && !closed then {outbound[id].sender} else {})
      ensures Valid() && fresh(rx) && rx.queue == [] && !rx.receiverDropped && rx.senderDropped == closed
      ensures outbound == if closed then old(outbound) else old(outbound)[id := OutboundRoute(rx, None)]
      ensures id in old(outbound) && !closed ==>
                && old(outbound)[id].sender.senderDropped
                && old(outbound)[id].sender.queue == old(outbound[id].sender.queue)
      ensures old(Addressed()) ==> Addressed()
    {
      rx := new OutboundChannel(outboundCapacity);
      if closed {
        rx.senderDropped := true;
      } else {
        if id in outbound {
          outbound[id].sender.senderDropped := true;
        }
        outbound := outbound[id := OutboundRoute(rx, None)];
      }
    }

    /** The route a packet would be queued on: the one its header names. */
    ghost predicate HasRoute(packet: OutboundPacket)
      reads `closed, `outbound
    {
      var h := HeaderSessionId(packet.bytes);
      h.Success? && !closed && h.value in outbound
    }

    ghost function RouteChannel(packet: OutboundPacket): OutboundChannel
      requires HasRoute(packet)
      reads `closed, `outbound
    {
      outbound[HeaderSessionId(packet.bytes).value].sender
    }

    /**
      How a push of the packet would end: a missing route, a closed hub
      and a receiver that has gone away look alike.
     */
    ghost function PushResult(packet: OutboundPacket): Poll<Result<(), Error>>
      reads `closed, `outbound, Channels()
    {
      var h := HeaderSessionId(packet.bytes);
      if h.Failure? then Ready(Failure(h.error))
      else if closed || h.value !in outbound then Ready(Failure(SessionClosed))
      else
        var ch := outbound[h.value].sender;
        PushOutcome(ch.receiverDropped, |ch.queue|, ch.capacity)
    }

    /**
      A push goes through exactly if the route has a receiver and room, and waits exactly if there is only no room;
      everything else is an error, and says whether the packet's own header was at fault.
     */
    lemma PushResultMeans(packet: OutboundPacket)
      requires Valid()
      ensures var taking := HasRoute(packet) && !RouteChannel(packet).receiverDropped;
        && (PushResult(packet) == Ready(Success(())) <==> taking && |RouteChannel(packet).queue| < outboundCapacity)
        && (PushResult(packet).Pending? <==> taking && |RouteChannel(packet).queue| == outboundCapacity)
        && (PushResult(packet) == Ready(Failure(SessionClosed))
            <==> HeaderSessionId(packet.bytes).Success? && !taking)
    {
      if HasRoute(packet) {
        var id := HeaderSessionId(packet.bytes).value;
        assert RouteValid(id, outbound[id]);
      }
    }

    /** The packet's route has `waker` stored, to be woken when the route is taken away or the hub closes. */
    ghost predicate BlockedOn(packet: OutboundPacket, waker: Waker)
      reads `outbound
    {
      var h := HeaderSessionId(packet.bytes);
      h.Success? && h.value in outbound && outbound[h.value].pendingWaker == Some(waker)
    }

    /**
      Queue a packet on the route its header names. A full route stores the caller's waker and
      leaves every queue as it was. No other route is touched.
     */
    method PollPushOutbound(waker: Waker, packet: OutboundPacket) returns (r: Poll<Result<(), Error>>)
      requires Valid()
      modifies this`outbound, (if HasRoute(packet) then {RouteChannel(packet)} else {})
      ensures Valid()
      ensures r == old(PushResult(packet))
      ensures Queues() == if r == Ready(Success(())) then Appended(old(Queues()), packet) else old(Queues())
      ensures r.Pending? ==> BlockedOn(packet, waker)
      ensures outbound.Keys == old(outbound.Keys)
      ensures forall id :: id in outbound ==> outbound[id].sender == old(outbound)[id].sender
      ensures old(HasRoute(packet)) ==>
                var ch := old(RouteChannel(packet));
                && ch.receiverDropped == old(ch.receiverDropped) && ch.taken == old(ch.taken)
                && ch.senderWaker == (if r.Pending? then Some(waker) else None)
      ensures !old(HasRoute(packet)) ==> outbound == old(outbound)
      ensures old(Addressed()) && (HasRoute(packet) ==> Consistent(packet, isKey)) ==> Addressed()
    {
      var header := HeaderSessionId(packet.bytes);
      if header.Failure? {
        return Ready(Failure(header.error));
      }
      var id := header.value;
      if closed {
        return Ready(Failure(SessionClosed));
      }
      if id !in outbound {
        return Ready(Failure(SessionClosed));
      }
      r := PushOnRoute(id, waker, packet);
      OneQueueChanged(id);
    }

    /** The same routes, each with its channel and its receiver. */
    twostate predicate SameRoutes()
      reads `outbound, Channels()
    {
      && outbound.Keys == old(outbound.Keys)
      && forall id :: id in outbound ==>
           var ch := outbound[id].sender;
           ch == old(outbound)[id].sender && ch.receiverDropped == old(ch.receiverDropped)
    }

    /** Only the counter moves. */
    method RecordSenderTransmit(datagrams: nat)
      modifies this`senderTransmitDatagrams
      ensures senderTransmitDatagrams == old(senderTransmitDatagrams) + datagrams
      ensures old(Valid()) ==> Valid()
      ensures old(Addressed()) ==> Addressed()
      ensures Queues() == old(Queues()) && SameRoutes()
    {
      senderTransmitDatagrams := senderTransmitDatagrams + datagrams;
      assert Channels() == old(Channels());
    }

    /** Routes do not share channels, so a change to one channel is a change to one queue. */
    twostate lemma OneQueueChanged(id: SessionId)
      requires id in old(outbound) && outbound.Keys == old(outbound).Keys
      requires forall k :: k in outbound ==> outbound[k].sender == old(outbound)[k].sender
      requires forall k :: k in outbound && k != id ==> outbound[k].sender.queue == old(outbound[k].sender.queue)
      ensures Queues() == old(Queues())[id := outbound[id].sender.queue]
      ensures outbound[id].sender.queue == old(Queues())[id] ==> Queues() == old(Queues())
    {
    }

    /** The packet at the end of the route its header names. */
    static ghost function Appended(queues: map<SessionId, seq<OutboundPacket>>,
                                   packet: OutboundPacket): map<SessionId, seq<OutboundPacket>> {
      var h := HeaderSessionId(packet.bytes);
      if h.Success? && h.value in queues then queues[h.value := queues[h.value] + [packet]] else queues
    }

    static function PushOutcome(receiverDropped: bool, depth: nat, capacity: nat): Poll<Result<(), Error>> {
      if receiverDropped then Ready(Failure(SessionClosed))
      else if depth >= capacity then Pending
      else Ready(Success(()))
    }

    /** Ask the route's channel for a place; a full one keeps the waker, here and in the route. */
    method ReserveOnRoute(id: SessionId, waker: Waker) returns (r: Poll<Result<(), Error>>)
      requires Valid() && id in outbound
      modifies this`outbound, outbound[id].sender`senderWaker
      ensures Valid()
      ensures var ch := old(outbound)[id].sender;
        && r == PushOutcome(ch.receiverDropped, |ch.queue|, ch.capacity)
        && ch.senderWaker == (if r.Pending? then Some(waker) else None)
        && outbound == old(outbound)[id := OutboundRoute(ch, if r.Pending? then Some(waker) else None)]
      ensures old(Addressed()) ==> Addressed()
    {
      var route := outbound[id];
      r := route.sender.PollReserve(waker);
      assert Valid();
      if r.Pending? {
        if route.pendingWaker != Some(waker) {
          outbound := outbound[id := route.(pendingWaker := Some(waker))];
        }
      } else {
        outbound := outbound[id := route.(pendingWaker := None)];
      }
    }

    method PushOnRoute(id: SessionId, waker: Waker, packet: OutboundPacket) returns (r: Poll<Result<(), Error>>)
      requires Valid() && !closed && id in outbound && HeaderNames(packet, id)
      modifies this`outbound, outbound[id].sender
      ensures Valid()
      ensures var ch := old(outbound)[id].sender;
        && r == PushOutcome(ch.receiverDropped, |old(ch.queue)|, ch.capacity)
        && ch.queue == old(ch.queue) + (if r == Ready(Success(())) then [packet] else [])
        && ch.receiverDropped == old(ch.receiverDropped) && ch.taken == old(ch.taken)
        && ch.senderWaker == (if r.Pending? then Some(waker) else None)
        && outbound == old(outbound)[id := OutboundRoute(ch, if r.Pending? then Some(waker) else None)]
      ensures old(Addressed()) && Consistent(packet, isKey) ==> Addressed()
    {
      r := ReserveOnRoute(id, waker);
      if r == Ready(Success(())) {
        outbound[id].sender.SendItem(packet);
      }
    }

    /** Take a route away. Its blocked sender is woken, and will then find the session closed. */
    method UnregisterOutboundSession(id: SessionId) returns (removed: bool)
      requires Valid()
      modifies this`outbound, this`woken, (if id in outbound then {outbound[id].sender} else {})`senderDropped
      ensures Valid()
      ensures removed == (id in old(outbound))
      ensures outbound == old(outbound) - {id}
      ensures removed ==>
                var route := old(outbound)[id];
                && route.sender.senderDropped && route.sender.queue == old(route.sender.queue)
                && woken == old(woken) + (if route.pendingWaker.Some? then [route.pendingWaker.value] else [])
      ensures !removed ==> woken == old(woken)
      ensures old(Addressed()) ==> Addressed()
    {
      if id !in outbound {
        return false;
      }
      Release(id);
      return true;
    }

    /** The same, by destination address; an address that names no session removes nothing. */
    method UnregisterOutboundFor(destination: CustomAddr) returns (removed: bool)
      requires Valid()
      modifies this`outbound, this`woken, Channels()`senderDropped
      ensures Valid()
      ensures var named := DestinationSession(destination, isKey);
        && removed == (named.Some? && named.value in old(outbound))
        && outbound == (if named.Some? then old(outbound) - {named.value} else old(outbound))
        && (removed ==>
              var route := old(outbound)[named.value];
              && route.sender.senderDropped && route.sender.queue == old(route.sender.queue)
              && woken == old(woken) + (if route.pendingWaker.Some? then [route.pendingWaker.value] else []))
      ensures !removed ==> woken == old(woken)
      ensures old(Addressed()) ==> Addressed()
    {
      var named := DestinationSession(destination, isKey);
      if named.None? {
        return false;
      }
      removed := UnregisterOutboundSession(named.value);
    }

    /** Close: no route is left, every stored waker has been woken, and what was queued can still be taken. */
    method Close()
      requires Valid()
      modifies this`closed, this`recvWaker, this`outbound, this`woken, Channels()`senderDropped
      ensures Valid() && closed && recvWaker == None && outbound == map[] && unchanged(`recv)
      ensures old(recvWaker).Some? ==> old(recvWaker).value in woken
      ensures forall id :: id in old(outbound) ==>
                Released(old(outbound)[id]) && old(outbound)[id].sender.queue == old(outbound[id].sender.queue)
      ensures forall w :: w in old(woken) ==> w in woken
    {
      closed := true;
      WakeReceiver();
      ReleaseAll();
    }

    method ReleaseAll()
      modifies this`outbound, this`woken, Channels()`senderDropped
      ensures outbound == map[]
      ensures forall id :: id in old(outbound) ==> Released(old(outbound)[id])
      ensures forall w :: w in old(woken) ==> w in woken
    {
      while outbound.Keys != {}
        invariant outbound.Keys <= old(outbound).Keys
        invariant forall id :: id in outbound ==> outbound[id] == old(outbound)[id]
        invariant forall id :: id in old(outbound) && id !in outbound ==> Released(old(outbound)[id])
        invariant forall w :: w in old(woken) ==> w in woken
        decreases outbound.Keys
      {
        var id :| id in outbound;
        Release(id);
      }
    }

    /** Drop one route's sender and wake whoever was blocked on it. */
    method Release(id: SessionId)
      requires id in outbound
      modifies this`outbound, this`woken, outbound[id].sender`senderDropped
      ensures outbound == old(outbound) - {id} && Released(old(outbound)[id])
      ensures var route := old(outbound)[id];
        woken == old(woken) + (if route.pendingWaker.Some? then [route.pendingWaker.value] else [])
    {
      var route := outbound[id];
      outbound := outbound - {id};
      route.sender.senderDropped := true;
      if route.pendingWaker.Some? {
        woken := woken + [route.pendingWaker.value];
      }
    }

    /** The route's sender is gone and whoever was blocked on it has been woken. */
    ghost predicate Released(route: OutboundRoute)
      reads this`woken, route.sender`senderDropped
    {
      route.sender.senderDropped && (route.pendingWaker.Some? ==> route.pendingWaker.value in woken)
    }
  }
}
