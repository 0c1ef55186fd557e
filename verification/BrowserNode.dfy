/** The browser runtime node with its mutable state; each method is one critical section of the program. */
module BrowserNode {
  import opened Prelude
  import opened Addr
  import opened Signaling
  import opened Session
  import opened Accept
  import opened Node
  import opened AddressList
  import opened Hub
  import NodeRuns
  import NodeAccepts
  import NodeGuards

  /** Accept ids count up from one, in the order of the protocols; none is given twice. */
  method InitialAcceptRegistrations(alpns: seq<string>, capacity: nat) returns (accepts: map<string, Registration<nat>>)
    requires capacity > 0 && Distinct(alpns)
    ensures forall a :: a in accepts <==> a in alpns
    ensures forall i :: 0 <= i < |alpns| ==>
              accepts[alpns[i]] == Registration(i + 1, alpns[i], capacity, false, [], [])
  {
    accepts := map[];
    for i := 0 to |alpns|
      invariant forall a :: a in accepts <==> a in alpns[..i]
      invariant forall j :: 0 <= j < i ==>
                  alpns[j] in accepts && accepts[alpns[j]] == Registration(j + 1, alpns[j], capacity, false, [], [])
    {
      accepts := accepts[alpns[i] := Registration(i + 1, alpns[i], capacity, false, [], [])];
    }
  }

  /** Every operation keeps both invariants of a node. */
  lemma OpKeeps(n: NodeState, op: NodeRuns.Op)
    requires NodeRuns.Inv(n) && NodeAccepts.WaitersApart(n)
    ensures NodeRuns.Inv(NodeRuns.Step(n, op)) && NodeAccepts.WaitersApart(NodeRuns.Step(n, op))
    ensures NodeAccepts.AnswersStay(n, NodeRuns.Step(n, op))
  {
    NodeRuns.StepKeepsNode(n, op);
    NodeAccepts.StepKeepsApart(n, op);
  }

  class BrowserRuntimeNode {
    const hub: SessionHub
    const endpointId: EndpointId
    const otherAlpns: set<string>
    const dialIds: DialIdGenerator
    var sessions: map<DialId, Session>
    var connections: map<nat, ConnectionState>
    var accepts: map<string, Registration<nat>>
    var nextConnectionKey: nat
    var nextWaiter: nat
    var gone: set<nat>
    var answers: map<nat, AcceptNext>
    var localAddrs: seq<CustomAddr>
    var closed: bool
    ghost var claims: seq<DialId>
    ghost var keys: seq<nat>

    ghost function Now(): NodeState
      reads this
    {
      NodeState(endpointId, otherAlpns, sessions, connections, accepts, nextConnectionKey, nextWaiter, gone, answers,
                Elements(localAddrs), closed, claims, keys)
    }

    ghost predicate Valid()
      reads this
    {
      NodeRuns.Inv(Now()) && NodeAccepts.WaitersApart(Now()) && StrictlyAscending(localAddrs)
    }

    ghost predicate Ordered()
      reads this
    {
      StrictlyAscending(localAddrs)
    }

    constructor (hub: SessionHub, endpointId: EndpointId, epoch: seq<Byte>, derive: Derivation,
                 alpns: seq<string>, otherAlpns: set<string>, capacity: nat)
      requires capacity > 0 && Distinct(alpns)
      ensures Valid() && NodeRuns.Spawned(Now()) && this.hub == hub && this.endpointId == endpointId
      ensures forall a :: a in accepts <==> a in alpns
      ensures fresh(dialIds) && dialIds.local == endpointId && dialIds.nextByRemote == map[]
    {
      this.hub, this.endpointId, this.otherAlpns := hub, endpointId, otherAlpns;
      dialIds := new DialIdGenerator.WithEpoch(endpointId, epoch, derive);
      sessions, connections, nextConnectionKey, nextWaiter := map[], map[], 1, 0;
      gone, answers, closed, claims, keys := {}, map[], false, [], [];
      var registrations := InitialAcceptRegistrations(alpns, capacity);
      accepts := registrations;
      localAddrs := [ToCustomAddr(WebRtcAddr(endpointId, WebRtcAddrKind.Capability))];
      new;
      assert forall a :: a in accepts ==> exists i :: 0 <= i < |alpns| && alpns[i] == a;
      NodeRuns.RunKeepsNode(Now(), []);
      NodeAccepts.RunKeepsApart(Now(), []);
    }

    /** Give the transport the capability address and those of the live sessions. */
    method RefreshWebRtcTransportAddrs()
      modifies this`localAddrs
      ensures Now() == Refreshed(old(Now())) && StrictlyAscending(localAddrs)
    {
      var addrs := CollectAddrs();
      SortingSorts(addrs);
      DedupingDedups(SortedByData(addrs));
      localAddrs := Deduped(SortedByData(addrs));
    }

    method CollectAddrs() returns (addrs: seq<CustomAddr>)
      ensures SameTransport(addrs) && Elements(addrs) == Refreshed(Now()).advertised
    {
      addrs := [ToCustomAddr(WebRtcAddr(endpointId, WebRtcAddrKind.Capability))];
      var todo := sessions.Keys;
      while todo != {}
        invariant todo <= sessions.Keys && SameTransport(addrs)
        invariant Elements(addrs) == {CapabilityAddr(Now())} + LiveAddrs(sessions - todo)
      {
        var id :| id in todo;
        OneMoreSession(sessions, todo, id);
        todo := todo - {id};
        if Live(sessions[id]) {
          OneMoreElement(addrs, SessionAddr(sessions[id]));
          addrs := addrs + [SessionAddr(sessions[id])];
        }
      }
      assert sessions - todo == sessions;
    }

    static lemma OneMoreSession(sessions: map<DialId, Session>, todo: set<DialId>, id: DialId)
      requires id in todo && id in sessions
      ensures LiveAddrs(sessions - (todo - {id}))
              == LiveAddrs(sessions - todo) + if Live(sessions[id]) then {SessionAddr(sessions[id])} else {}
    {
      var less, more := sessions - todo, sessions - (todo - {id});
      assert forall k :: k in more <==> k in less || k == id;
      assert forall k :: k in less ==> more[k] == less[k];
      assert more[id] == sessions[id];
    }

    static lemma OneMoreElement(xs: seq<CustomAddr>, x: CustomAddr)
      ensures Elements(xs + [x]) == Elements(xs) + {x}
    {
    }

    // ---- Sessions ----

    method InsertSession(session: Session)
      modifies this`sessions, this`localAddrs
      ensures Now() == WithNewSession(old(Now()), session)
      ensures old(StrictlyAscending(localAddrs)) ==> StrictlyAscending(localAddrs)
    {
      sessions := sessions[session.dialId := session];
      if session.intent.UsesWebRtc() {
        RefreshWebRtcTransportAddrs();
      }
    }

    /** A dial of our own; nothing is allocated once the generator is used up, where the program aborts. */
    method AllocateDial(remote: EndpointId, alpn: string, intent: TransportIntent)
      returns (r: Option<Result<Session, ErrorCode>>)
      requires Valid() && dialIds.local == endpointId
      modifies this`sessions, this`localAddrs, dialIds
      ensures Valid()
      ensures alpn == "" || closed ==> Now() == old(Now()) && r.Some? && r.value.Failure? && unchanged(dialIds)
      ensures alpn != "" && !closed ==>
                var generation := NextGeneration(old(dialIds.nextByRemote), remote);
                if generation == U64_MAX then r == None && Now() == old(Now())
                else
                  var id := DialSessionId(dialIds.derive(endpointId, remote, dialIds.epoch, generation), generation);
                  && r.Some? && (Now(), r.value) == Node.AllocateDial(old(Now()), remote, alpn, intent, id)
                  && r.value.Success? && NodeGuards.IsNew(Now(), r.value.value, Dialer, alpn, intent)
                  && CoordinatorOf(r.value.value) == DialCoordinator(endpointId, remote, id.dialId, generation)
                  && dialIds.nextByRemote == old(dialIds.nextByRemote)[remote := generation + 1]
    {
      if alpn == "" {
        return Some(Failure(UnsupportedAlpn));
      }
      if closed {
        return Some(Failure(NodeClosed));
      }
      var id := dialIds.Next(remote);
      if id.None? {
        return None;
      }
      OpKeeps(Now(), NodeRuns.Dial(remote, alpn, intent, id.value));
      NodeGuards.DialMeans(Now(), remote, alpn, intent, id.value);
      var session := NewSession(id.value.dialId, id.value.generation, endpointId, remote, alpn, Dialer, intent);
      InsertSession(session);
      return Some(Success(session));
    }

    /** A session for a dial of `remote`, unless its id is in use. */
    method AllocateAcceptSession(remote: EndpointId, alpn: string, id: DialSessionId, intent: TransportIntent)
      returns (r: Result<Session, ErrorCode>)
      requires Ordered()
      modifies this`sessions, this`localAddrs
      ensures Ordered() && (Now(), r) == Node.AllocateAcceptSession(old(Now()), remote, alpn, id, intent)
    {
      if alpn == "" {
        return Failure(UnsupportedAlpn);
      }
      if closed {
        return Failure(NodeClosed);
      }
      if id.dialId in sessions {
        return Failure(WebRtcFailure);
      }
      var session := NewSession(id.dialId, id.generation, endpointId, remote, alpn, Acceptor, intent);
      InsertSession(session);
      return Success(session);
    }

    /**
      A signal from the bootstrap stream: a request makes the other end of the dial, a terminal takes
      effect, and any other signal is let through exactly if it comes from the other end of its session.
     */
    method HandleBootstrapSignal(signal: WebRtcSignal, input: Option<string>) returns (r: Result<Session, ErrorCode>)
      requires Valid()
      modifies this`sessions, this`localAddrs
      ensures Valid() && (Now(), r) == Node.HandleBootstrapSignal(old(Now()), signal, input)
      ensures r.Success? <==> NodeGuards.LetThrough(old(Now()), signal, input)
      ensures if r.Success? then NodeGuards.SignalDone(old(Now()), signal, input, Now(), r.value)
              else Now() == old(Now())
    {
      OpKeeps(Now(), NodeRuns.Receive(signal, input));
      NodeGuards.SignalMeans(Now(), signal, input);
      r := Dispatch(signal, input);
    }

    method Dispatch(signal: WebRtcSignal, input: Option<string>) returns (r: Result<Session, ErrorCode>)
      requires Ordered()
      modifies this`sessions, this`localAddrs
      ensures Ordered() && (Now(), r) == Node.HandleBootstrapSignal(old(Now()), signal, input)
    {
      var route := signal.route;
      match signal.body {
        case DialRequest(named, intent) =>
          if route.recipient != endpointId {
            return Failure(BootstrapFailure);
          }
          if input.None? && named == "" {
            return Failure(BootstrapFailure);
          }
          var alpn := if input.Some? then input.value else named;
          if alpn !in accepts && alpn !in otherAlpns {
            return Failure(UnsupportedAlpn);
          }
          r := AllocateAcceptSession(route.sender, alpn, DialSessionId(route.dialId, route.generation), intent);
        case Terminal(reason, _) =>
          r := ApplyRemoteTerminal(route, reason);
        case _ =>
          if route.recipient != endpointId {
            return Failure(BootstrapFailure);
          }
          if route.dialId !in sessions {
            return Failure(WebRtcFailure);
          }
          var session := sessions[route.dialId];
          if session.remote != route.sender || session.generation != route.generation {
            return Failure(BootstrapFailure);
          }
          return Success(session);
      }
    }

    method UpdateSession(id: DialId, u: Node.Update) returns (r: Result<Session, ErrorCode>)
      requires Valid()
      modifies this`sessions, this`localAddrs
      ensures Valid() && (Now(), r) == Node.UpdateSession(old(Now()), id, u)
      ensures r.Success? <==> !closed && id in old(sessions) && NodeGuards.CanUpdate(old(sessions)[id], u)
      ensures r.Success? ==>
                id in sessions && sessions[id] == r.value && Elements(localAddrs) == Refreshed(Now()).advertised
      ensures r.Failure? ==> Now() == old(Now())
    {
      NodeGuards.UpdatedExactlyIf(Now(), id, u);
      OpKeeps(Now(), NodeRuns.Update(id, u));
      if closed {
        return Failure(NodeClosed);
      }
      if id !in sessions {
        return Failure(WebRtcFailure);
      }
      r := Updated(sessions[id], u);
      if r.Success? {
        sessions := sessions[id := r.value];
        RefreshWebRtcTransportAddrs();
      }
    }

    method EmitTerminalDecision(id: DialId, override: Option<TerminalReason>, message: string)
      returns (r: Result<Decision, ErrorCode>)
      requires Valid()
      modifies this`sessions
      ensures Valid() && (Now(), r) == Node.EmitTerminalDecision(old(Now()), id, override, message)
      ensures r.Success? <==> !closed && id in old(sessions)
      ensures if r.Success? then NodeGuards.Decided(old(Now()), id, override, message, Now(), r.value)
              else Now() == old(Now())
    {
      OpKeeps(Now(), NodeRuns.Decide(id, override, message));
      NodeGuards.DecisionMeans(Now(), id, override, message);
      r := Decide(id, override, message);
    }

    method Decide(id: DialId, override: Option<TerminalReason>, message: string)
      returns (r: Result<Decision, ErrorCode>)
      modifies this`sessions
      ensures (Now(), r) == Node.EmitTerminalDecision(old(Now()), id, override, message)
    {
      if closed {
        return Failure(NodeClosed);
      }
      if id !in sessions {
        return Failure(WebRtcFailure);
      }
      var session := sessions[id];
      var reason := DecidedReason(session, override);
      var signal := None;
      if session.intent.UsesWebRtc() {
        signal := Some(TerminalSignal(session, reason, Some(message)));
      }
      var (session', selected) := TerminalWasSent(session, reason);
      sessions := sessions[id := session'];
      return Success(Decision(reason, signal, selected));
    }

    /** A terminal of the other side takes effect exactly on an open node, for a known session, and on its route. */
    method ApplyRemoteTerminal(route: Route, reason: TerminalReason) returns (r: Result<Session, ErrorCode>)
      modifies this`sessions
      ensures (Now(), r) == Node.ApplyRemoteTerminal(old(Now()), route, reason)
      ensures r.Success? <==>
                && route.recipient == endpointId && !closed
                && route.dialId in old(sessions) && OnRoute(old(sessions)[route.dialId], route)
      ensures r.Success? ==>
                sessions == old(sessions)[route.dialId := r.value] && r.value.terminalReceived == Some(reason)
      ensures r.Success? && Sound(old(sessions)[route.dialId]) ==> HasTerminated(r.value, reason)
    {
      if route.recipient != endpointId {
        return Failure(BootstrapFailure);
      }
      if closed {
        return Failure(NodeClosed);
      }
      if route.dialId !in sessions {
        return Failure(WebRtcFailure);
      }
      var session := sessions[route.dialId];
      if session.remote != route.sender || session.generation != route.generation {
        return Failure(BootstrapFailure);
      }
      if Sound(session) {
        TerminalTakesEffect(session, reason);
      }
      session := TerminalWasReceived(session, reason);
      sessions := sessions[route.dialId := session];
      return Success(session);
    }

    // ---- Connections ----

    /** Claim a session for an incoming connection: the first one that fits, in whatever order they are met. */
    method AcceptWebRtcConnection(c: Incoming) returns (r: Result<DialId, ErrorCode>, ghost pick: DialId)
      requires Valid()
      modifies this`sessions, this`localAddrs, this`claims
      ensures Valid() && (Now(), r) == Node.AcceptWebRtcConnection(old(Now()), c, pick)
      ensures (exists id :: id in old(sessions) && Claimable(old(sessions)[id], c)) ==>
                pick in old(sessions) && Claimable(old(sessions)[pick], c)
      ensures r.Success? <==> NodeRuns.CanClaim(old(Now()), c, pick)
    {
      pick := seq(16, _ => 0);
      if closed {
        return Failure(NodeClosed), pick;
      }
      var found := FindClaimable(c);
      if found.None? {
        return Failure(WebRtcFailure), pick;
      }
      pick := found.value;
      NodeRuns.ClaimsIff(Now(), c, pick);
      r := Claim(c, found.value);
    }

    method FindClaimable(c: Incoming) returns (found: Option<DialId>)
      ensures found.Some? ==> found.value in sessions && Claimable(sessions[found.value], c)
      ensures found.None? ==> forall id :: id in sessions ==> !Claimable(sessions[id], c)
    {
      var todo := sessions.Keys;
      while todo != {}
        invariant todo <= sessions.Keys
        invariant forall id :: id in sessions && id !in todo ==> !Claimable(sessions[id], c)
      {
        var id :| id in todo;
        todo := todo - {id};
        if Claimable(sessions[id], c) {
          return Some(id);
        }
      }
      return None;
    }

    method Claim(c: Incoming, id: DialId) returns (r: Result<DialId, ErrorCode>)
      requires Valid() && !closed && id in sessions && Claimable(sessions[id], c)
      modifies this`sessions, this`localAddrs, this`claims
      ensures Valid() && (Now(), r) == Node.AcceptWebRtcConnection(old(Now()), c, id)
    {
      OpKeeps(Now(), NodeRuns.Claim(c, id));
      if !PathMatches(c, sessions[id]) {
        return Failure(WebRtcFailure);
      }
      var resolved := Resolved(sessions[id], ViaWebRtc);
      if resolved.Failure? {
        return Failure(resolved.error);
      }
      sessions := sessions[id := resolved.value];
      claims := claims + [id];
      RefreshWebRtcTransportAddrs();
      return Success(id);
    }

    method AdmitConnection(c: Incoming, t: Transport, key: Option<DialId>, queueAccept: bool)
      returns (r: Result<nat, ErrorCode>)
      requires Valid()
      modifies this`sessions, this`connections, this`accepts, this`answers, this`nextConnectionKey, this`keys
      ensures Valid() && (Now(), r) == Node.AdmitConnection(old(Now()), c, t, key, queueAccept)
      ensures r.Success? <==>
                && NodeGuards.Admissible(old(Now()), c, t, key, queueAccept)
                && (queueAccept ==> !NodeRuns.NoPlace(old(Now()), c.alpn))
      ensures if r.Success? then Admitted(old(Now()), Now(), t, key, r.value) else NotAdmitted(old(Now()), Now())
    {
      OpKeeps(Now(), NodeRuns.Admit(c, t, key, queueAccept));
      AdmissionMeans(Now(), c, t, key, queueAccept);
      r := CheckAndAdmit(c, t, key, queueAccept);
    }

    /** The connection is stored under an unused key, and its session is ready on its transport. */
    static ghost predicate Admitted(n: NodeState, n': NodeState, t: Transport, key: Option<DialId>, k: nat) {
      && k !in n.connections && n'.connections == n.connections[k := ConnectionState(key, t, false)]
      && (key.Some? && key.value in n'.sessions ==>
            n'.sessions[key.value].resolved == Some(t) && n'.sessions[key.value].lifecycle == ApplicationReady)
    }

    static ghost predicate NotAdmitted(n: NodeState, n': NodeState) {
      && n'.sessions == n.sessions && n'.connections == n.connections
      && n'.accepts == n.accepts && n'.answers == n.answers
    }

    static lemma AdmissionMeans(n: NodeState, c: Incoming, t: Transport, key: Option<DialId>, queueAccept: bool)
      requires NodeRuns.Inv(n)
      ensures var (n', r) := Node.AdmitConnection(n, c, t, key, queueAccept);
        && (r.Success? <==>
              && NodeGuards.Admissible(n, c, t, key, queueAccept)
              && (queueAccept ==> !NodeRuns.NoPlace(n, c.alpn)))
        && if r.Success? then Admitted(n, n', t, key, r.value) else NotAdmitted(n, n')
    {
      NodeGuards.AdmittedExactlyIf(n, c, t, key, queueAccept);
      if Node.AdmitConnection(n, c, t, key, queueAccept).1.Success? {
        NodeRuns.AdmissionIsComplete(n, c, t, key, queueAccept);
      } else {
        NodeRuns.AdmissionIsAtomic(n, c, t, key, queueAccept);
      }
    }

    /** Check everything, draw a key, find the connection a place, store it, and resolve its session. */
    method CheckAndAdmit(c: Incoming, t: Transport, key: Option<DialId>, queueAccept: bool)
      returns (r: Result<nat, ErrorCode>)
      modifies this`sessions, this`connections, this`accepts, this`answers, this`nextConnectionKey, this`keys
      ensures (Now(), r) == Node.AdmitConnection(old(Now()), c, t, key, queueAccept)
    {
      var error := CheckAdmission(c, t, key, queueAccept);
      if error.Some? {
        return Failure(error.value);
      }
      var k := nextConnectionKey;
      nextConnectionKey := nextConnectionKey + 1;
      keys := keys + [k];
      if queueAccept {
        var taken := OfferToAcceptor(AcceptedConnection(k, key, c.remote, c.alpn, t));
        if !taken {
          return Failure(WebRtcFailure);
        }
      }
      r := StoreConnection(k, key, t);
    }

    method CheckAdmission(c: Incoming, t: Transport, key: Option<DialId>, queueAccept: bool)
      returns (e: Option<ErrorCode>)
      ensures e == AdmissionError(Now(), c, t, key, queueAccept)
    {
      if closed {
        return Some(NodeClosed);
      }
      if queueAccept && c.alpn !in accepts {
        return Some(UnsupportedAlpn);
      }
      if key.Some? && key.value in sessions {
        e := ResolutionError(sessions[key.value], t);
        if e.Some? {
          return;
        }
      }
      if t == ViaWebRtc {
        if key.None? || key.value !in sessions {
          return Some(WebRtcFailure);
        }
        if !PathMatches(c, sessions[key.value]) {
          return Some(WebRtcFailure);
        }
      }
      return None;
    }

    method OfferToAcceptor(connection: AcceptedConnection) returns (taken: bool)
      requires connection.alpn in accepts
      modifies this`accepts, this`answers
      ensures (Now(), taken) == Node.OfferToAcceptor(old(Now()), connection)
    {
      var (registration, outcome) := Accept.Pushed(accepts[connection.alpn], gone, connection);
      accepts := accepts[connection.alpn := registration];
      if outcome.Woke? {
        answers := answers[outcome.waiter := Accept.AcceptNext.Ready(connection)];
      }
      return !outcome.QueueFull?;
    }

    method StoreConnection(k: nat, key: Option<DialId>, t: Transport) returns (r: Result<nat, ErrorCode>)
      modifies this`sessions, this`connections
      ensures (Now(), r) == Node.StoreConnection(old(Now()), k, key, t)
    {
      connections := connections[k := ConnectionState(key, t, false)];
      if key.Some? && key.value in sessions {
        var resolved := Resolved(sessions[key.value], t);
        if resolved.Failure? {
          return Failure(resolved.error);
        }
        sessions := sessions[key.value := resolved.value];
      }
      return Success(k);
    }

    /** The connection is closed; over WebRTC its session ends and is no longer advertised. */
    method ConnectionClose(k: nat) returns (r: Result<(), ErrorCode>)
      requires Valid()
      modifies this`sessions, this`connections, this`localAddrs
      ensures Valid() && (Now(), r) == CloseConnection(old(Now()), k)
      ensures r.Success? ==> Withdrawn(Now(), k)
      ensures r.Success? <==> !closed && k in old(connections)
      ensures r.Success? && connections[k].transport == ViaIrohRelay ==>
                sessions == old(sessions) && localAddrs == old(localAddrs)
      ensures r.Failure? ==> Now() == old(Now())
    {
      ghost var after := CloseConnection(Now(), k).0;
      CloseMeans(Now(), k);
      r := CloseOne(k);
      assert Now() == after;
    }

    /** The connection is closed, and so is its session, whose address is not advertised. */
    static ghost predicate Withdrawn(n: NodeState, k: nat) {
      && k in n.connections && n.connections[k].closed
      && var c := n.connections[k];
      c.transport == ViaWebRtc && c.sessionKey.Some? && c.sessionKey.value in n.sessions ==>
        && n.sessions[c.sessionKey.value].lifecycle == SessionOver
        && SessionAddr(n.sessions[c.sessionKey.value]) !in n.advertised
    }

    static lemma CloseMeans(n: NodeState, k: nat)
      requires NodeRuns.Inv(n)
      ensures var (n', r) := CloseConnection(n, k);
        && NodeRuns.Inv(n') && (if r.Success? then Withdrawn(n', k) else n' == n)
        && NodeAccepts.QueuesUntouched(n, n')
    {
      NodeRuns.CloseOneKeeps(n, k);
      NodeAccepts.SessionsLeaveQueues(n, NodeRuns.CloseOne(k));
      if !n.closed && k in n.connections {
        var c := n.connections[k];
        if c.transport == ViaWebRtc && c.sessionKey.Some? && c.sessionKey.value in n.sessions {
          NodeRuns.ClosingWithdrawsAddress(n, k);
        }
      }
    }

    method CloseOne(k: nat) returns (r: Result<(), ErrorCode>)
      requires Ordered()
      modifies this`sessions, this`connections, this`localAddrs
      ensures Ordered() && (Now(), r) == CloseConnection(old(Now()), k)
      ensures k in old(connections) && old(connections)[k].transport == ViaIrohRelay ==>
                sessions == old(sessions) && localAddrs == old(localAddrs)
    {
      if closed {
        return Failure(NodeClosed);
      }
      if k !in connections {
        return Failure(WebRtcFailure);
      }
      var connection := connections[k];
      connections := connections[k := connection.(closed := true)];
      if connection.transport == ViaWebRtc {
        var id := connection.sessionKey;
        if id.Some? && id.value in sessions {
          sessions := sessions[id.value := Ended(sessions[id.value])];
        }
        RefreshWebRtcTransportAddrs();
      }
      return Success(());
    }

    // ---- Accepting ----

    /** A protocol's accept iterator; there is one at a time. */
    method AcceptOpen(alpn: string) returns (r: Result<nat, ErrorCode>)
      requires Valid()
      modifies this`accepts
      ensures Valid() && (Now(), r) == OpenAcceptor(old(Now()), alpn)
      ensures r.Success? <==> alpn != "" && !closed && alpn in old(accepts) && !old(accepts)[alpn].claimed
      ensures r.Success? ==> alpn in accepts && accepts[alpn].claimed && r.value == accepts[alpn].id
    {
      ghost var after := OpenAcceptor(Now(), alpn).0;
      OpKeeps(Now(), NodeRuns.OpenAccept(alpn));
      r := Open(alpn);
      assert Now() == after;
    }

    method Open(alpn: string) returns (r: Result<nat, ErrorCode>)
      modifies this`accepts
      ensures (Now(), r) == OpenAcceptor(old(Now()), alpn)
    {
      if alpn == "" {
        return Failure(UnsupportedAlpn);
      }
      if closed {
        return Failure(NodeClosed);
      }
      if alpn !in accepts || accepts[alpn].claimed {
        return Failure(UnsupportedAlpn);
      }
      accepts := accepts[alpn := accepts[alpn].(claimed := true)];
      return Success(accepts[alpn].id);
    }

    /** The oldest waiting connection, or a new waiter, which nobody has answered and nobody else waits under. */
    method AcceptNext(alpn: string) returns (r: Result<NextOutcome, ErrorCode>)
      requires Valid()
      modifies this`accepts, this`nextWaiter
      ensures Valid() && (Now(), r) == NextAccepted(old(Now()), alpn)
      ensures r.Success? && r.value.Later? ==> WaitsAnew(old(Now()), Now(), alpn, r.value.waiter)
      ensures r.Success? && r.value.Now? ==>
                if closed then r.value.next == Done
                else
                  && r.value.next.Ready? && alpn in accepts && alpn in old(accepts)
                  && old(accepts)[alpn].queue == [r.value.next.connection] + accepts[alpn].queue
    {
      NodeGuards.NextTakesOldest(Now(), alpn);
      ghost var after := NextAccepted(Now(), alpn).0;
      OpKeeps(Now(), NodeRuns.Next(alpn));
      NextMeans(Now(), alpn);
      r := TakeOrWait(alpn);
      assert Now() == after;
    }

    /** `w` waits for the protocol now, has not been answered, and waited nowhere before. */
    static ghost predicate WaitsAnew(n: NodeState, n': NodeState, alpn: string, w: nat) {
      && w !in n'.answers && NodeAccepts.Waits(n'.accepts, alpn, w)
      && forall a :: !NodeAccepts.Waits(n.accepts, a, w)
    }

    static lemma NextMeans(n: NodeState, alpn: string)
      requires NodeAccepts.WaitersApart(n)
      ensures var (n', r) := NextAccepted(n, alpn);
        r.Success? && r.value.Later? ==> WaitsAnew(n, n', alpn, r.value.waiter)
    {
      var (n', r) := NextAccepted(n, alpn);
      if r.Success? && r.value.Later? {
        var waiters := n.accepts[alpn].waiters;
        assert n'.accepts[alpn].waiters[|waiters|] == r.value.waiter;
      }
    }

    method TakeOrWait(alpn: string) returns (r: Result<NextOutcome, ErrorCode>)
      modifies this`accepts, this`nextWaiter
      ensures (Now(), r) == NextAccepted(old(Now()), alpn)
    {
      if closed {
        return Success(NextOutcome.Now(Done));
      }
      if alpn !in accepts {
        return Failure(UnsupportedAlpn);
      }
      var registration := accepts[alpn];
      if registration.queue != [] {
        accepts := accepts[alpn := registration.(queue := registration.queue[1..])];
        return Success(NextOutcome.Now(Accept.AcceptNext.Ready(registration.queue[0])));
      }
      var waiter := nextWaiter;
      nextWaiter := nextWaiter + 1;
      accepts := accepts[alpn := registration.(waiters := registration.waiters + [waiter])];
      return Success(Later(waiter));
    }

    /** The iterator is closed: its queue is dropped, and whoever waits on it is told that nothing will come. */
    method AcceptClose(alpn: string) returns (known: bool)
      requires Valid()
      modifies this`accepts, this`answers
      ensures Valid() && (Now(), known) == CloseAccepting(old(Now()), alpn)
      ensures forall w :: NodeAccepts.Waits(old(accepts), alpn, w) && w !in gone ==> w in answers && answers[w] == Done
      ensures forall w :: w in old(answers) ==> w in answers && answers[w] == old(answers)[w]
    {
      ghost var after := CloseAccepting(Now(), alpn).0;
      OpKeeps(Now(), NodeRuns.CloseAccept(alpn));
      AcceptCloseMeans(Now(), alpn);
      known := CloseQueue(alpn);
      assert Now() == after;
    }

    static lemma AcceptCloseMeans(n: NodeState, alpn: string)
      requires NodeAccepts.WaitersApart(n)
      ensures var answers := CloseAccepting(n, alpn).0.answers;
        && (forall w :: NodeAccepts.Waits(n.accepts, alpn, w) && w !in n.gone ==> w in answers && answers[w] == Done)
        && (forall w :: w in n.answers ==> w in answers && answers[w] == n.answers[w])
    {
      NodeAccepts.CloseKeepsApart(n, alpn);
    }

    method CloseQueue(alpn: string) returns (known: bool)
      modifies this`accepts, this`answers
      ensures (Now(), known) == CloseAccepting(old(Now()), alpn)
    {
      if alpn !in accepts {
        return false;
      }
      var registration := accepts[alpn];
      var waiters := set w | w in registration.waiters;
      accepts := accepts[alpn := ClosedAcceptor(registration)];
      answers := ToldDone(answers, waiters, gone);
      return true;
    }

    /** A waiting task goes away. */
    method WaiterGone(w: nat)
      requires Valid()
      modifies this`gone
      ensures Valid() && Now() == old(Now()).(gone := old(gone) + {w})
    {
      OpKeeps(Now(), NodeRuns.WaiterGone(w));
      gone := gone + {w};
    }

    // ---- Closing ----

    /** One farewell for each of these sessions, in some order. */
    static ghost predicate EachOnce(farewells: map<DialId, WebRtcSignal>, told: seq<DialId>,
                                    signals: seq<WebRtcSignal>) {
      && |told| == |signals| && Distinct(told)
      && (forall id :: id in farewells <==> id in told)
      && (forall i :: 0 <= i < |told| ==> told[i] in farewells && signals[i] == farewells[told[i]])
    }

    /**
      Close the node with its hub, once: no route is left and every blocked sender has been woken. The
      signals returned are one farewell for each session that still owes one.
     */
    method CloseInner(reason: Option<string>) returns (first: bool, signals: seq<WebRtcSignal>, ghost told: seq<DialId>)
      requires Valid() && hub.Valid()
      modifies this`closed, this`sessions, this`accepts, this`answers, this`connections
      modifies hub`closed, hub`recvWaker, hub`outbound, hub`woken, hub.Channels()`senderDropped
      ensures Valid() && hub.Valid() && first == !old(closed)
      ensures Now() == CloseNode(old(Now()), reason).0
      ensures if first then EachOnce(Farewells(old(sessions), reason), told, signals) else signals == []
      ensures first ==>
                && hub.closed && hub.outbound == map[]
                && forall id :: id in old(hub.outbound) ==> hub.Released(old(hub.outbound)[id])
    {
      ghost var after := CloseNode(Now(), reason).0;
      NodeRuns.CloseKeepsNode(Now(), reason);
      NodeAccepts.CloseNodeKeepsApart(Now(), reason);
      signals, told := [], [];
      first := !closed;
      if first {
        hub.Close();
        signals, told := CloseEverything(reason);
      }
      assert Now() == after;
    }

    method CloseEverything(reason: Option<string>) returns (signals: seq<WebRtcSignal>, ghost told: seq<DialId>)
      requires !closed
      modifies this`closed, this`sessions, this`accepts, this`answers, this`connections
      ensures Now() == CloseNode(old(Now()), reason).0
      ensures EachOnce(Farewells(old(sessions), reason), told, signals)
    {
      closed := true;
      signals, told := CloseSessions(reason);
      CompleteWaiters();
      CloseConnections();
    }

    method CloseSessions(reason: Option<string>) returns (signals: seq<WebRtcSignal>, ghost told: seq<DialId>)
      modifies this`sessions
      ensures sessions == ClosedSessions(old(sessions), reason)
      ensures EachOnce(Farewells(old(sessions), reason), told, signals)
    {
      signals, told := [], [];
      var todo := sessions.Keys;
      ghost var was := sessions;
      while todo != {}
        invariant todo <= was.Keys && sessions.Keys == was.Keys
        invariant forall id :: id in was ==>
                    sessions[id] == if id in todo then was[id] else ClosedForNode(was[id], reason).0
        invariant EachOnce(Farewells(was - todo, reason), told, signals)
      {
        var id :| id in todo;
        var (session, signal) := ClosedForNode(sessions[id], reason);
        OneMoreFarewell(was, todo, id, reason, told, signals);
        todo := todo - {id};
        sessions := sessions[id := session];
        if signal.Some? {
          signals := signals + [signal.value];
          told := told + [id];
        }
      }
      assert was - todo == was;
    }

    static lemma OneMoreFarewell(was: map<DialId, Session>, todo: set<DialId>, id: DialId, reason: Option<string>,
                                 told: seq<DialId>, signals: seq<WebRtcSignal>)
      requires id in todo && id in was && EachOnce(Farewells(was - todo, reason), told, signals)
      ensures var signal := ClosedForNode(was[id], reason).1;
        if signal.Some? then EachOnce(Farewells(was - (todo - {id}), reason), told + [id], signals + [signal.value])
        else EachOnce(Farewells(was - (todo - {id}), reason), told, signals)
    {
      var less, more := was - todo, was - (todo - {id});
      assert forall k :: k in more <==> k in less || k == id;
      assert forall k :: k in less ==> more[k] == less[k];
      assert more[id] == was[id];
    }

    /** Every waiting task is told that nothing will come. */
    method CompleteWaiters()
      modifies this`accepts, this`answers
      ensures accepts == map[] && answers == ToldDone(old(answers), AllWaiters(old(accepts)), gone)
    {
      while accepts.Keys != {}
        invariant accepts.Keys <= old(accepts).Keys
        invariant accepts == Without(old(accepts), old(accepts).Keys - accepts.Keys)
        invariant answers == ToldDone(old(answers), AllWaiters(Without(old(accepts), accepts.Keys)), gone)
        decreases accepts.Keys
      {
        var alpn :| alpn in accepts;
        ghost var drained := Without(old(accepts), accepts.Keys);
        var waiters := set w | w in accepts[alpn].waiters;
        ghost var left := accepts;
        accepts := accepts - {alpn};
        OneMoreDrained(old(accepts), left, alpn);
        ToldTwice(old(answers), AllWaiters(drained), waiters, gone);
        answers := ToldDone(answers, waiters, gone);
      }
      assert Without(old(accepts), {}) == old(accepts);
    }

    static ghost function Without(accepts: map<string, Registration<nat>>,
                                  alpns: set<string>): map<string, Registration<nat>> {
      accepts - alpns
    }

    static lemma OneMoreDrained(all: map<string, Registration<nat>>, left: map<string, Registration<nat>>, alpn: string)
      requires left.Keys <= all.Keys && left == Without(all, all.Keys - left.Keys) && alpn in left
      ensures left - {alpn} == Without(all, all.Keys - (left - {alpn}).Keys)
      ensures AllWaiters(Without(all, (left - {alpn}).Keys))
              == AllWaiters(Without(all, left.Keys)) + (set w | w in left[alpn].waiters)
    {
      var fewer, more := Without(all, left.Keys), Without(all, (left - {alpn}).Keys);
      assert forall a :: a in more <==> a in fewer || a == alpn;
      assert forall a :: a in fewer ==> more[a] == fewer[a];
      assert more[alpn] == left[alpn];
    }

    static lemma ToldTwice(answers: map<nat, AcceptNext>, first: set<nat>, second: set<nat>, gone: set<nat>)
      ensures ToldDone(ToldDone(answers, first, gone), second, gone) == ToldDone(answers, first + second, gone)
    {
      assert ToldDone(ToldDone(answers, first, gone), second, gone).Keys
          == ToldDone(answers, first + second, gone).Keys;
    }

    method CloseConnections()
      modifies this`connections
      ensures connections == ClosedConnections(old(connections))
    {
      var todo := connections.Keys;
      while todo != {}
        invariant todo <= old(connections).Keys && connections.Keys == old(connections).Keys
        invariant forall k :: k in connections ==>
                    connections[k] == if k in todo then old(connections)[k] else old(connections)[k].(closed := true)
      {
        var k :| k in todo;
        todo := todo - {k};
        connections := connections[k := connections[k].(closed := true)];
      }
    }
  }
}
