/** What every run of node operations keeps (browser_runtime/node.rs and node/). */
module NodeRuns {
  import opened Prelude
  import opened Addr
  import opened Signaling
  import opened Session
  import opened Accept
  import opened Node

  datatype Op =
    | Dial(remote: EndpointId, alpn: string, intent: TransportIntent, id: DialSessionId)
    | Update(key: DialId, update: Node.Update)
    | Decide(key: DialId, override: Option<TerminalReason>, message: string)
    | Receive(signal: WebRtcSignal, input: Option<string>)
    | Admit(incoming: Incoming, transport: Transport, sessionKey: Option<DialId>, queueAccept: bool)
    | Claim(incoming: Incoming, pick: DialId)
    | CloseOne(connection: nat)
    | OpenAccept(protocol: string)
    | Next(protocol: string)
    | CloseAccept(protocol: string)
    | WaiterGone(waiter: nat)
    | Close(reason: Option<string>)

  function Step(n: NodeState, op: Op): NodeState {
    match op
    case Dial(remote, alpn, intent, id) => AllocateDial(n, remote, alpn, intent, id).0
    case Update(id, u) => UpdateSession(n, id, u).0
    case Decide(id, override, message) => EmitTerminalDecision(n, id, override, message).0
    case Receive(signal, alpn) => HandleBootstrapSignal(n, signal, alpn).0
    case Admit(c, t, key, queueAccept) => AdmitConnection(n, c, t, key, queueAccept).0
    case Claim(c, pick) => AcceptWebRtcConnection(n, c, pick).0
    case CloseOne(k) => CloseConnection(n, k).0
    case OpenAccept(alpn) => OpenAcceptor(n, alpn).0
    case Next(alpn) => NextAccepted(n, alpn).0
    case CloseAccept(alpn) => CloseAccepting(n, alpn).0
    case WaiterGone(w) => n.(gone := n.gone + {w})
    case Close(reason) => CloseNode(n, reason).0
  }

  function Run(n: NodeState, ops: seq<Op>): NodeState
    decreases |ops|
  {
    if ops == [] then n else Step(Run(n, ops[..|ops| - 1]), ops[|ops| - 1])
  }

  /** A node just spawned. */
  ghost predicate Spawned(n: NodeState) {
    && n.sessions == map[] && n.connections == map[] && n.claims == [] && n.keys == [] && !n.closed
    && n.nextConnectionKey == 1 && n.advertised == {CapabilityAddr(n)}
    && n.nextWaiter == 0 && n.gone == {} && n.answers == map[]
    && forall a :: a in n.accepts ==>
         && n.accepts[a] == Registration(n.accepts[a].id, a, n.accepts[a].capacity, false, [], [])
         && n.accepts[a].capacity > 0
  }

  // ---- The invariant ----

  ghost predicate GoodSession(n: NodeState, id: DialId, s: Session) {
    Sound(s) && s.dialId == id && s.local == n.endpointId
  }

  ghost predicate SessionsGood(n: NodeState) {
    forall id :: id in n.sessions ==> GoodSession(n, id, n.sessions[id])
  }

  /** Every live session can be reached at its address. */
  ghost predicate Reachable(n: NodeState) {
    CapabilityAddr(n) in n.advertised && LiveAddrs(n.sessions) <= n.advertised
  }

  ghost predicate AcceptsGood(n: NodeState) {
    forall a :: a in n.accepts ==> Valid(n.accepts[a])
  }

  ghost predicate KeysFresh(n: NodeState) {
    && Distinct(n.keys)
    && (forall k :: k in n.keys ==> k < n.nextConnectionKey)
    && (forall k :: k in n.connections ==> k in n.keys)
  }

  /** A session that was claimed once is not claimable any more. */
  ghost predicate Spent(n: NodeState, id: DialId) {
    id in n.sessions && (n.sessions[id].role == Dialer || n.sessions[id].resolved.Some?)
  }

  ghost predicate ClaimsOnce(n: NodeState) {
    Distinct(n.claims) && forall id :: id in n.claims ==> Spent(n, id)
  }

  ghost predicate ClosedDown(n: NodeState) {
    n.closed ==>
      && n.accepts == map[]
      && (forall id :: id in n.sessions ==> n.sessions[id].lifecycle == SessionOver)
      && (forall k :: k in n.connections ==> n.connections[k].closed)
  }

  ghost predicate Inv(n: NodeState) {
    SessionsGood(n) && Reachable(n) && AcceptsGood(n) && KeysFresh(n) && ClaimsOnce(n) && ClosedDown(n)
  }

  /** How sessions may change: one at a time goes on, or a dial of our own takes an id over. */
  ghost predicate Evolves(n: NodeState, n': NodeState) {
    forall id :: id in n.sessions ==>
      id in n'.sessions && (Follows(n.sessions[id], n'.sessions[id]) || n'.sessions[id].role == Dialer)
  }

  lemma LiveByRank(s: Session)
    requires Sound(s)
    ensures Live(s) <==> s.intent.UsesWebRtc() && Rank(s.channel) < 3
  {
  }

  /** A session goes on: nothing becomes live, and what was claimed stays claimed. */
  lemma SessionChanged(n: NodeState, n': NodeState, id: DialId)
    requires Inv(n) && !n.closed && id in n.sessions && id in n'.sessions
    requires n'.sessions == n.sessions[id := n'.sessions[id]]
    requires Follows(n.sessions[id], n'.sessions[id]) && Sound(n'.sessions[id])
    requires n'.endpointId == n.endpointId && n'.claims == n.claims && !n'.closed
    requires n'.advertised == n.advertised || n' == Refreshed(n')
    ensures SessionsGood(n') && Reachable(n') && ClaimsOnce(n') && ClosedDown(n') && Evolves(n, n')
  {
    assert SessionsGood(n') by {
      assert GoodSession(n, id, n.sessions[id]);
    }
    forall k | k in n'.sessions && Live(n'.sessions[k])
      ensures k in n.sessions && Live(n.sessions[k]) && SessionAddr(n.sessions[k]) == SessionAddr(n'.sessions[k])
    {
      assert GoodSession(n, k, n.sessions[k]);
      LiveByRank(n.sessions[k]);
      LiveByRank(n'.sessions[k]);
    }
    forall k | k in n'.claims
      ensures Spent(n', k)
    {
      assert Spent(n, k);
    }
  }

  lemma Untouched(n: NodeState, n': NodeState)
    requires Inv(n) && n'.sessions == n.sessions && n'.endpointId == n.endpointId && n'.claims == n.claims
    requires n'.closed == n.closed
    requires n'.advertised == n.advertised || n' == Refreshed(n')
    requires n.closed ==> n'.accepts == map[] && n'.connections == n.connections
    ensures SessionsGood(n') && Reachable(n') && ClaimsOnce(n') && ClosedDown(n') && Evolves(n, n')
  {
    forall k | k in n'.claims
      ensures Spent(n', k)
    {
      assert Spent(n, k);
    }
    forall id | id in n'.sessions
      ensures GoodSession(n', id, n'.sessions[id])
    {
      assert GoodSession(n, id, n.sessions[id]);
    }
  }

  function Changed(n: NodeState, id: DialId, s: Session): NodeState {
    n.(sessions := n.sessions[id := s])
  }

  /** The same with all else left alone, with and without a refresh of the advertised addresses. */
  lemma ChangedKeeps(n: NodeState, id: DialId, s: Session)
    requires Inv(n) && !n.closed && id in n.sessions && Follows(n.sessions[id], s) && Sound(s)
    ensures Inv(Changed(n, id, s)) && Evolves(n, Changed(n, id, s))
    ensures Inv(Refreshed(Changed(n, id, s))) && Evolves(n, Refreshed(Changed(n, id, s)))
  {
    SessionChanged(n, Changed(n, id, s), id);
    SessionChanged(n, Refreshed(Changed(n, id, s)), id);
  }

  // ---- Each operation keeps it ----

  /** What a new session does to the sessions and the claims. */
  lemma NewAmongSessions(n: NodeState, n': NodeState, s: Session)
    requires Inv(n) && n'.sessions == n.sessions[s.dialId := s]
    requires n'.endpointId == n.endpointId && n'.claims == n.claims
    requires GoodSession(n, s.dialId, s) && (s.role == Acceptor ==> s.dialId !in n.sessions)
    ensures SessionsGood(n') && ClaimsOnce(n') && Evolves(n, n')
  {
    forall id | id in n'.sessions
      ensures GoodSession(n', id, n'.sessions[id])
    {
      if id != s.dialId {
        assert GoodSession(n, id, n.sessions[id]);
      }
    }
    forall k | k in n'.claims
      ensures Spent(n', k)
    {
      assert Spent(n, k);
    }
    forall id | id in n.sessions
      ensures id in n'.sessions && (Follows(n.sessions[id], n'.sessions[id]) || n'.sessions[id].role == Dialer)
    {
    }
  }

  lemma NewSessionKeepsNode(n: NodeState, s: Session)
    requires Inv(n) && !n.closed && GoodSession(n, s.dialId, s)
    requires s == NewSession(s.dialId, s.generation, s.local, s.remote, s.alpn, s.role, s.intent)
    requires s.role == Acceptor ==> s.dialId !in n.sessions
    ensures Inv(WithNewSession(n, s)) && Evolves(n, WithNewSession(n, s))
  {
    var n' := WithNewSession(n, s);
    NewAmongSessions(n, n', s);
    if !s.intent.UsesWebRtc() {
      assert LiveAddrs(n'.sessions) <= LiveAddrs(n.sessions);
    }
    assert n' == n.(sessions := n'.sessions, advertised := n'.advertised);
  }

  lemma DialKeeps(n: NodeState, remote: EndpointId, alpn: string, intent: TransportIntent, id: DialSessionId)
    requires Inv(n)
    ensures var n' := AllocateDial(n, remote, alpn, intent, id).0; Inv(n') && Evolves(n, n')
  {
    if alpn != "" && !n.closed {
      NewSessionKeeps(id.dialId, id.generation, n.endpointId, remote, alpn, Dialer, intent);
      NewSessionKeepsNode(n, NewSession(id.dialId, id.generation, n.endpointId, remote, alpn, Dialer, intent));
    }
  }

  lemma UpdateKeeps(n: NodeState, id: DialId, u: Node.Update)
    requires Inv(n)
    ensures var n' := UpdateSession(n, id, u).0; Inv(n') && Evolves(n, n')
  {
    if !n.closed && id in n.sessions && Updated(n.sessions[id], u).Success? {
      assert GoodSession(n, id, n.sessions[id]);
      var event :=
        match u
        case AttachChannel => Attach
        case MarkChannelOpen => OpenChannel
        case Complete(t) => CompleteDial(t);
      EventKeeps(n.sessions[id], event);
      ChangedKeeps(n, id, Updated(n.sessions[id], u).value);
    }
  }

  lemma SentKeeps(s: Session, reason: TerminalReason)
    requires Sound(s)
    ensures Sound(TerminalWasSent(s, reason).0) && Follows(s, TerminalWasSent(s, reason).0)
    ensures Sound(TerminalWasReceived(s, reason)) && Follows(s, TerminalWasReceived(s, reason))
  {
    TerminalKeeps(s.(terminalSent := Some(reason)), s, reason);
    TerminalKeeps(s.(terminalReceived := Some(reason)), s, reason);
  }

  lemma DecideKeeps(n: NodeState, id: DialId, override: Option<TerminalReason>, message: string)
    requires Inv(n)
    ensures var n' := EmitTerminalDecision(n, id, override, message).0; Inv(n') && Evolves(n, n')
  {
    if !n.closed && id in n.sessions {
      assert GoodSession(n, id, n.sessions[id]);
      var reason := DecidedReason(n.sessions[id], override);
      SentKeeps(n.sessions[id], reason);
      ChangedKeeps(n, id, TerminalWasSent(n.sessions[id], reason).0);
    }
  }

  lemma RemoteTerminalKeeps(n: NodeState, r: Route, reason: TerminalReason)
    requires Inv(n)
    ensures var n' := ApplyRemoteTerminal(n, r, reason).0; Inv(n') && Evolves(n, n')
  {
    if !n.closed && r.dialId in n.sessions {
      assert GoodSession(n, r.dialId, n.sessions[r.dialId]);
      SentKeeps(n.sessions[r.dialId], reason);
      ChangedKeeps(n, r.dialId, TerminalWasReceived(n.sessions[r.dialId], reason));
    }
  }

  lemma AcceptSessionKeeps(n: NodeState, remote: EndpointId, alpn: string, id: DialSessionId, intent: TransportIntent)
    requires Inv(n)
    ensures var n' := AllocateAcceptSession(n, remote, alpn, id, intent).0; Inv(n') && Evolves(n, n')
  {
    if alpn != "" && !n.closed && id.dialId !in n.sessions {
      NewSessionKeeps(id.dialId, id.generation, n.endpointId, remote, alpn, Acceptor, intent);
      NewSessionKeepsNode(n, NewSession(id.dialId, id.generation, n.endpointId, remote, alpn, Acceptor, intent));
    }
  }

  /** A signal is a request for a session, a terminal, or read only. */
  lemma ReceiveOutcome(n: NodeState, signal: WebRtcSignal, alpn: Option<string>)
    ensures var n', r := HandleBootstrapSignal(n, signal, alpn).0, signal.route;
      || n' == n
      || (signal.body.DialRequest?
          && n' == AllocateAcceptSession(n, r.sender, if alpn.Some? then alpn.value else signal.body.alpn,
                                         DialSessionId(r.dialId, r.generation), signal.body.transportIntent).0)
      || (signal.body.Terminal? && n' == ApplyRemoteTerminal(n, r, signal.body.reason).0)
  {
  }

  lemma Stays(n: NodeState)
    requires Inv(n)
    ensures Evolves(n, n)
  {
  }

  lemma ReceiveKeeps(n: NodeState, signal: WebRtcSignal, alpn: Option<string>)
    requires Inv(n)
    ensures var n' := HandleBootstrapSignal(n, signal, alpn).0; Inv(n') && Evolves(n, n')
  {
    var r := signal.route;
    ReceiveOutcome(n, signal, alpn);
    Stays(n);
    if signal.body.DialRequest? {
      AcceptSessionKeeps(n, r.sender, if alpn.Some? then alpn.value else signal.body.alpn,
                         DialSessionId(r.dialId, r.generation), signal.body.transportIntent);
    } else if signal.body.Terminal? {
      RemoteTerminalKeeps(n, r, signal.body.reason);
    }
  }

  lemma ClaimRecorded(n: NodeState, id: DialId)
    requires Inv(n) && Spent(n, id) && id !in n.claims
    ensures Inv(n.(claims := n.claims + [id]))
  {
    var n' := n.(claims := n.claims + [id]);
    forall k | k in n'.claims
      ensures Spent(n', k)
    {
      assert Spent(n, k);
    }
    forall k | k in n'.sessions
      ensures GoodSession(n', k, n'.sessions[k])
    {
      assert GoodSession(n, k, n.sessions[k]);
    }
  }

  lemma ClaimKeeps(n: NodeState, c: Incoming, pick: DialId)
    requires Inv(n)
    ensures var n' := AcceptWebRtcConnection(n, c, pick).0; Inv(n') && Evolves(n, n')
  {
    if AcceptWebRtcConnection(n, c, pick).1.Success? {
      var s := Resolved(n.sessions[pick], ViaWebRtc).value;
      var n1 := Refreshed(Changed(n, pick, s));
      assert GoodSession(n, pick, n.sessions[pick]) && !Spent(n, pick);
      EventKeeps(n.sessions[pick], Resolve(ViaWebRtc));
      ChangedKeeps(n, pick, s);
      ClaimRecorded(n1, pick);
      assert AcceptWebRtcConnection(n, c, pick).0 == n1.(claims := n.claims + [pick]);
    }
  }

  /** The connection is marked as closed. */
  function Marked(n: NodeState, k: nat): NodeState
    requires k in n.connections
  {
    n.(connections := n.connections[k := n.connections[k].(closed := true)])
  }

  lemma MarkedKeeps(n: NodeState, k: nat)
    requires Inv(n) && !n.closed && k in n.connections
    ensures Inv(Marked(n, k)) && Evolves(n, Marked(n, k))
    ensures Inv(Refreshed(Marked(n, k))) && Evolves(n, Refreshed(Marked(n, k)))
  {
    Untouched(n, Marked(n, k));
    Untouched(n, Refreshed(Marked(n, k)));
  }

  lemma MarkedThenEnded(n: NodeState, k: nat, id: DialId)
    requires Inv(n) && !n.closed && k in n.connections && id in n.sessions
    ensures var n' := Refreshed(Changed(Marked(n, k), id, Ended(n.sessions[id]))); Inv(n') && Evolves(n, n')
  {
    MarkedKeeps(n, k);
    assert GoodSession(n, id, n.sessions[id]);
    EventKeeps(n.sessions[id], End);
    ChangedKeeps(Marked(n, k), id, Ended(n.sessions[id]));
  }

  lemma CloseOneKeeps(n: NodeState, k: nat)
    requires Inv(n)
    ensures var n' := CloseConnection(n, k).0; Inv(n') && Evolves(n, n')
  {
    if n.closed || k !in n.connections {
      Stays(n);
    } else {
      var c := n.connections[k];
      MarkedKeeps(n, k);
      if c.transport == ViaWebRtc && c.sessionKey.Some? && c.sessionKey.value in n.sessions {
        MarkedThenEnded(n, k, c.sessionKey.value);
      }
    }
  }

  /** The last step of an admission never fails: it was checked before anything was changed. */
  lemma StoreSucceeds(n: NodeState, c: Incoming, t: Transport, key: Option<DialId>, queueAccept: bool,
                      n2: NodeState, k: nat)
    requires AdmissionError(n, c, t, key, queueAccept).None?
    ensures n2.sessions == n.sessions ==> StoreConnection(n2, k, key, t).1 == Success(k)
  {
  }

  /** Offering a connection changes queues, waiters and answers, nothing else; a refusal changes nothing. */
  lemma OfferKeeps(n: NodeState, c: AcceptedConnection)
    requires AcceptsGood(n) && c.alpn in n.accepts
    ensures var (n', taken) := OfferToAcceptor(n, c);
      && AcceptsGood(n')
      && n' == n.(accepts := n'.accepts, answers := n'.answers)
      && (!taken <==> |n.accepts[c.alpn].queue| == n.accepts[c.alpn].capacity)
      && (!taken ==> n' == n)
  {
    ServesLongestWaiting(n.accepts[c.alpn], n.gone, c);
    RefusedLeavesNoTrace(n.accepts[c.alpn], n.gone, c);
    var n' := OfferToAcceptor(n, c).0;
    if !OfferToAcceptor(n, c).1 {
      assert n'.accepts == n.accepts;
    }
  }

  lemma NewKey(n: NodeState, n': NodeState)
    requires KeysFresh(n)
    requires n'.keys == n.keys + [n.nextConnectionKey] && n'.nextConnectionKey == n.nextConnectionKey + 1
    requires n'.connections.Keys <= n.connections.Keys + {n.nextConnectionKey}
    ensures KeysFresh(n') && n.nextConnectionKey !in n.connections
  {
  }

  lemma StoreKeeps(n: NodeState, n2: NodeState, key: Option<DialId>, t: Transport)
    requires Inv(n) && !n.closed && StoreConnection(n2, n.nextConnectionKey, key, t).1.Success?
    requires n2 == KeyDrawn(n).(accepts := n2.accepts, answers := n2.answers)
    requires AcceptsGood(n2)
    ensures var n' := StoreConnection(n2, n.nextConnectionKey, key, t).0; Inv(n') && Evolves(n, n')
  {
    var n' := StoreConnection(n2, n.nextConnectionKey, key, t).0;
    NewKey(n, n');
    if key.Some? && key.value in n.sessions {
      assert GoodSession(n, key.value, n.sessions[key.value]);
      EventKeeps(n.sessions[key.value], Resolve(t));
      SessionChanged(n, n', key.value);
    } else {
      Untouched(n, n');
    }
  }

  lemma KeyDrawnKeeps(n: NodeState)
    requires Inv(n)
    ensures Inv(KeyDrawn(n)) && Evolves(n, KeyDrawn(n))
  {
    NewKey(n, KeyDrawn(n));
    Untouched(n, KeyDrawn(n));
  }

  /** Finding a place changes queues, waiters and answers, nothing else; without a place nothing changes but the key. */
  lemma PlacedKeeps(n: NodeState, offered: AcceptedConnection, queueAccept: bool)
    requires AcceptsGood(n) && (queueAccept ==> offered.alpn in n.accepts)
    ensures var (placed, taken) := Placed(n, offered, queueAccept);
      && AcceptsGood(placed)
      && placed == KeyDrawn(n).(accepts := placed.accepts, answers := placed.answers)
      && (taken <==> !queueAccept || |n.accepts[offered.alpn].queue| != n.accepts[offered.alpn].capacity)
      && (!taken ==> placed == KeyDrawn(n))
  {
    if queueAccept {
      OfferKeeps(KeyDrawn(n), offered);
    }
  }

  /** An admission that has passed the checks, from its place to its end. */
  lemma CheckedAdmissionKeeps(n: NodeState, placed: NodeState, taken: bool, key: Option<DialId>, t: Transport,
                              n': NodeState)
    requires Inv(n) && !n.closed && AcceptsGood(placed)
    requires placed == KeyDrawn(n).(accepts := placed.accepts, answers := placed.answers)
    requires !taken ==> placed == KeyDrawn(n)
    requires taken ==> StoreConnection(placed, n.nextConnectionKey, key, t).1.Success?
    requires n' == if taken then StoreConnection(placed, n.nextConnectionKey, key, t).0 else placed
    ensures Inv(n') && Evolves(n, n')
  {
    if taken {
      StoreKeeps(n, placed, key, t);
    } else {
      KeyDrawnKeeps(n);
    }
  }

  /** What an admission comes to: an error, a refusal for want of a place, or a stored connection. */
  lemma AdmissionSteps(n: NodeState, c: Incoming, t: Transport, key: Option<DialId>, queueAccept: bool)
    requires AdmissionError(n, c, t, key, queueAccept).None?
    ensures queueAccept ==> c.alpn in n.accepts
    ensures var (placed, taken) := Placed(n, Offered(n, c, t, key), queueAccept);
      && !n.closed
      && AdmitConnection(n, c, t, key, queueAccept)
         == (if taken then StoreConnection(placed, n.nextConnectionKey, key, t) else (placed, Failure(WebRtcFailure)))
      && (placed.sessions == n.sessions ==>
            StoreConnection(placed, n.nextConnectionKey, key, t).1 == Success(n.nextConnectionKey))
  {
    StoreSucceeds(n, c, t, key, queueAccept, Placed(n, Offered(n, c, t, key), queueAccept).0, n.nextConnectionKey);
  }

  lemma AdmitKeepsNode(n: NodeState, c: Incoming, t: Transport, key: Option<DialId>, queueAccept: bool)
    requires Inv(n)
    ensures var n' := AdmitConnection(n, c, t, key, queueAccept).0; Inv(n') && Evolves(n, n')
  {
    if AdmissionError(n, c, t, key, queueAccept).Some? {
      Stays(n);
    } else {
      AdmissionSteps(n, c, t, key, queueAccept);
      var offered := Offered(n, c, t, key);
      PlacedKeeps(n, offered, queueAccept);
      var (placed, taken) := Placed(n, offered, queueAccept);
      CheckedAdmissionKeeps(n, placed, taken, key, t, AdmitConnection(n, c, t, key, queueAccept).0);
    }
  }

  /** Operations on the accept queues touch nothing else. */
  lemma AcceptsChanged(n: NodeState, n': NodeState)
    requires Inv(n) && AcceptsGood(n') && (n.closed ==> n'.accepts == map[])
    requires n' == n.(accepts := n'.accepts, nextWaiter := n'.nextWaiter, gone := n'.gone, answers := n'.answers)
    ensures Inv(n') && Evolves(n, n')
  {
    Untouched(n, n');
  }

  lemma AcceptCallsKeep(n: NodeState, op: Op)
    requires Inv(n) && (op.OpenAccept? || op.Next? || op.CloseAccept? || op.WaiterGone?)
    ensures Inv(Step(n, op)) && Evolves(n, Step(n, op))
  {
    AcceptsStayGood(n, op);
    AcceptsChanged(n, Step(n, op));
  }

  lemma AcceptsStayGood(n: NodeState, op: Op)
    requires AcceptsGood(n) && (op.OpenAccept? || op.Next? || op.CloseAccept? || op.WaiterGone?)
    ensures var n' := Step(n, op);
      && AcceptsGood(n') && (n.accepts == map[] ==> n'.accepts == map[])
      && n' == n.(accepts := n'.accepts, nextWaiter := n'.nextWaiter, gone := n'.gone, answers := n'.answers)
  {
    match op
    case OpenAccept(alpn) =>
    case Next(alpn) =>
    case CloseAccept(alpn) =>
    case WaiterGone(w) =>
  }

  /** Closing the node ends every session. */
  lemma CloseEndsSessions(n: NodeState, reason: Option<string>)
    requires SessionsGood(n) && !n.closed
    ensures var n' := CloseNode(n, reason).0;
      && SessionsGood(n') && Evolves(n, n') && LiveAddrs(n'.sessions) == {}
      && (forall id :: id in n.sessions ==> id in n'.sessions && Follows(n.sessions[id], n'.sessions[id]))
      && (forall id :: id in n'.sessions ==> n'.sessions[id].lifecycle == SessionOver)
  {
    var n' := CloseNode(n, reason).0;
    forall id | id in n.sessions
      ensures GoodSession(n', id, n'.sessions[id]) && Follows(n.sessions[id], n'.sessions[id])
      ensures !Live(n'.sessions[id]) && n'.sessions[id].lifecycle == SessionOver
    {
      assert GoodSession(n, id, n.sessions[id]);
      EndedForNode(n.sessions[id], reason);
    }
  }

  /** Claimed sessions stay claimed while their sessions go on. */
  lemma ClaimsStay(n: NodeState, n': NodeState)
    requires ClaimsOnce(n) && n'.claims == n.claims
    requires forall id :: id in n.sessions ==> id in n'.sessions && Follows(n.sessions[id], n'.sessions[id])
    ensures ClaimsOnce(n')
  {
    forall k | k in n'.claims
      ensures Spent(n', k)
    {
      assert Spent(n, k);
    }
  }

  lemma CloseKeepsNode(n: NodeState, reason: Option<string>)
    requires Inv(n)
    ensures var n' := CloseNode(n, reason).0; Inv(n') && Evolves(n, n')
  {
    Stays(n);
    if !n.closed {
      CloseEndsSessions(n, reason);
      ClaimsStay(n, CloseNode(n, reason).0);
    }
  }

  lemma EndedForNode(s: Session, reason: Option<string>)
    requires Sound(s)
    ensures var s' := ClosedForNode(s, reason).0;
      && Sound(s') && Follows(s, s') && !Live(s')
      && s'.lifecycle == SessionOver && s'.dialId == s.dialId && s'.local == s.local
  {
    EventKeeps(s, CloseForNode);
  }

  lemma StepKeepsNode(n: NodeState, op: Op)
    requires Inv(n)
    ensures Inv(Step(n, op)) && Evolves(n, Step(n, op))
  {
    match op
    case Dial(remote, alpn, intent, id) => DialKeeps(n, remote, alpn, intent, id);
    case Update(id, u) => UpdateKeeps(n, id, u);
    case Decide(id, override, message) => DecideKeeps(n, id, override, message);
    case Receive(signal, alpn) => ReceiveKeeps(n, signal, alpn);
    case Admit(c, t, key, queueAccept) => AdmitKeepsNode(n, c, t, key, queueAccept);
    case Claim(c, pick) => ClaimKeeps(n, c, pick);
    case CloseOne(k) => CloseOneKeeps(n, k);
    case OpenAccept(_) => AcceptCallsKeep(n, op);
    case Next(_) => AcceptCallsKeep(n, op);
    case CloseAccept(_) => AcceptCallsKeep(n, op);
    case WaiterGone(_) => AcceptCallsKeep(n, op);
    case Close(reason) => CloseKeepsNode(n, reason);
  }

  lemma {:induction false} RunKeepsNode(n: NodeState, ops: seq<Op>)
    requires Spawned(n)
    ensures Inv(Run(n, ops))
    decreases |ops|
  {
    if ops != [] {
      RunKeepsNode(n, ops[..|ops| - 1]);
      StepKeepsNode(Run(n, ops[..|ops| - 1]), ops[|ops| - 1]);
    }
  }

  // ---- What holds in every run ----

  /** In every reachable state each live session is advertised, even after steps that do not refresh. */
  lemma LiveIsAdvertised(n: NodeState, ops: seq<Op>, id: DialId)
    requires Spawned(n) && id in Run(n, ops).sessions && Live(Run(n, ops).sessions[id])
    ensures SessionAddr(Run(n, ops).sessions[id]) in Run(n, ops).advertised
  {
    RunKeepsNode(n, ops);
    assert SessionAddr(Run(n, ops).sessions[id]) in LiveAddrs(Run(n, ops).sessions);
  }

  /** Every admission draws its key once, and every stored connection has its own. */
  lemma KeysNeverReused(n: NodeState, ops: seq<Op>)
    requires Spawned(n)
    ensures var m := Run(n, ops);
      && Distinct(m.keys) && m.nextConnectionKey !in m.connections
      && (forall k :: k in m.connections ==> k in m.keys)
  {
    RunKeepsNode(n, ops);
    assert Run(n, ops).nextConnectionKey !in Run(n, ops).keys;
  }

  /** Over a whole run a session is claimed by one incoming WebRTC connection at most. */
  lemma ClaimedAtMostOnce(n: NodeState, before: seq<Op>, c: Incoming, pick: DialId, after: seq<Op>, d: Incoming)
    requires Spawned(n) && AcceptWebRtcConnection(Run(n, before), c, pick).1.Success?
    ensures AcceptWebRtcConnection(Run(AcceptWebRtcConnection(Run(n, before), c, pick).0, after), d, pick).1.Failure?
  {
    RunKeepsNode(n, before);
    var m := AcceptWebRtcConnection(Run(n, before), c, pick).0;
    ClaimKeeps(Run(n, before), c, pick);
    assert m.claims[|m.claims| - 1] == pick;
    SpentForGood(m, after, pick);
  }

  lemma {:induction false} SpentForGood(n: NodeState, ops: seq<Op>, id: DialId)
    requires Inv(n) && id in n.claims
    ensures var m := Run(n, ops); Inv(m) && id in m.claims && Spent(m, id)
    decreases |ops|
  {
    if ops != [] {
      var before, last := ops[..|ops| - 1], ops[|ops| - 1];
      SpentForGood(n, before, id);
      StepKeepsNode(Run(n, before), last);
      ClaimsGrow(Run(n, before), last);
    }
  }

  lemma ClaimsGrow(n: NodeState, op: Op)
    ensures forall id :: id in n.claims ==> id in Step(n, op).claims
  {
  }

  /** A failed admission changes nothing but the next key, which only a full queue uses up. */
  lemma AdmissionIsAtomic(n: NodeState, c: Incoming, t: Transport, key: Option<DialId>, queueAccept: bool)
    requires AcceptsGood(n) && AdmitConnection(n, c, t, key, queueAccept).1.Failure?
    ensures var n' := AdmitConnection(n, c, t, key, queueAccept).0;
      if AdmissionError(n, c, t, key, queueAccept).Some? then n' == n
      else queueAccept && |n.accepts[c.alpn].queue| == n.accepts[c.alpn].capacity && n' == KeyDrawn(n)
  {
    if AdmissionError(n, c, t, key, queueAccept).None? {
      AdmissionSteps(n, c, t, key, queueAccept);
      PlacedKeeps(n, Offered(n, c, t, key), queueAccept);
    }
  }

  predicate Refused(n: NodeState, op: Op) {
    match op
    case Dial(remote, alpn, intent, id) => AllocateDial(n, remote, alpn, intent, id).1.Failure?
    case Update(id, u) => UpdateSession(n, id, u).1.Failure?
    case Decide(id, override, message) => EmitTerminalDecision(n, id, override, message).1.Failure?
    case Receive(signal, alpn) => HandleBootstrapSignal(n, signal, alpn).1.Failure?
    case Admit(c, t, key, queueAccept) => AdmitConnection(n, c, t, key, queueAccept).1.Failure?
    case Claim(c, pick) => AcceptWebRtcConnection(n, c, pick).1.Failure?
    case CloseOne(k) => CloseConnection(n, k).1.Failure?
    case OpenAccept(alpn) => OpenAcceptor(n, alpn).1.Failure?
    case Next(alpn) => NextAccepted(n, alpn).1.Failure?
    case CloseAccept(alpn) => !CloseAccepting(n, alpn).1
    case WaiterGone(_) => false
    case Close(_) => false
  }

  lemma OtherRefusals(n: NodeState, op: Op)
    requires !op.Admit? && Refused(n, op)
    ensures Step(n, op) == n
  {
  }

  /** Whatever the operation: one that reports an error has changed nothing, but for the key of an admission. */
  lemma RefusalsChangeNothing(n: NodeState, op: Op)
    requires AcceptsGood(n) && Refused(n, op)
    ensures Step(n, op) == n || (op.Admit? && Step(n, op) == KeyDrawn(n))
  {
    if op.Admit? {
      AdmissionIsAtomic(n, op.incoming, op.transport, op.sessionKey, op.queueAccept);
    } else {
      OtherRefusals(n, op);
    }
  }

  /** A stored connection has its key, and its session is ready on its transport. */
  lemma StoredMeans(n: NodeState, k: nat, key: Option<DialId>, t: Transport)
    requires StoreConnection(n, k, key, t).1 == Success(k)
    ensures var n' := StoreConnection(n, k, key, t).0;
      && n'.connections == n.connections[k := ConnectionState(key, t, false)]
      && n'.nextConnectionKey == n.nextConnectionKey
      && (key.Some? && key.value in n.sessions ==>
            && n'.sessions == n.sessions[key.value := n'.sessions[key.value]]
            && n'.sessions[key.value] == n.sessions[key.value].(resolved := Some(t), lifecycle := ApplicationReady))
  {
  }

  lemma ErrorFree(n: NodeState, c: Incoming, t: Transport, key: Option<DialId>, queueAccept: bool)
    requires AdmissionError(n, c, t, key, queueAccept).None?
    ensures t == ViaWebRtc ==> key.Some? && key.value in n.sessions && PathMatches(c, n.sessions[key.value])
  {
  }

  /** A successful one stores the connection under a new key and leaves its session ready on that transport. */
  lemma AdmissionIsComplete(n: NodeState, c: Incoming, t: Transport, key: Option<DialId>, queueAccept: bool)
    requires AcceptsGood(n) && KeysFresh(n) && AdmitConnection(n, c, t, key, queueAccept).1.Success?
    ensures var (n', r) := AdmitConnection(n, c, t, key, queueAccept);
      && r.value == n.nextConnectionKey && r.value !in n.connections
      && n'.connections == n.connections[r.value := ConnectionState(key, t, false)]
      && n'.nextConnectionKey == n.nextConnectionKey + 1
      && (t == ViaWebRtc ==> key.Some? && key.value in n.sessions && PathMatches(c, n.sessions[key.value]))
      && (key.Some? && key.value in n.sessions ==>
            && n'.sessions == n.sessions[key.value := n'.sessions[key.value]]
            && n'.sessions[key.value] == n.sessions[key.value].(resolved := Some(t), lifecycle := ApplicationReady))
  {
    AdmissionSteps(n, c, t, key, queueAccept);
    ErrorFree(n, c, t, key, queueAccept);
    PlacedKeeps(n, Offered(n, c, t, key), queueAccept);
    StoredMeans(Placed(n, Offered(n, c, t, key), queueAccept).0, n.nextConnectionKey, key, t);
    assert n.nextConnectionKey !in n.keys;
  }

  /** Addresses tell sessions of a node apart, and from the capability address. */
  lemma AddressesDiffer(n: NodeState, s: Session, t: Session)
    ensures SessionAddr(s) != CapabilityAddr(n)
    ensures s.dialId != t.dialId ==> SessionAddr(s) != SessionAddr(t)
  {
    var a := WebRtcAddr(s.local, WebRtcAddrKind.Session(s.dialId));
    EncodeAddrInjective(a, WebRtcAddr(n.endpointId, WebRtcAddrKind.Capability));
    EncodeAddrInjective(a, WebRtcAddr(t.local, WebRtcAddrKind.Session(t.dialId)));
  }

  /** With one session ended, its address is the only one that is not live any more. */
  lemma OneAddressGone(n: NodeState, id: DialId)
    requires SessionsGood(n) && id in n.sessions
    ensures var sessions := n.sessions[id := Ended(n.sessions[id])];
      && SessionAddr(n.sessions[id]) !in LiveAddrs(sessions)
      && (forall j :: j in n.sessions && j != id && Live(n.sessions[j]) ==>
            SessionAddr(n.sessions[j]) in LiveAddrs(sessions))
  {
    var sessions := n.sessions[id := Ended(n.sessions[id])];
    assert GoodSession(n, id, n.sessions[id]);
    forall j | j in n.sessions && j != id
      ensures SessionAddr(n.sessions[j]) != SessionAddr(n.sessions[id]) && sessions[j] == n.sessions[j]
    {
      assert GoodSession(n, j, n.sessions[j]);
      AddressesDiffer(n, n.sessions[j], n.sessions[id]);
    }
  }

  /** Closing a WebRTC connection ends its session and withdraws that session's address, and no other live one. */
  lemma ClosingWithdrawsAddress(n: NodeState, k: nat)
    requires SessionsGood(n) && !n.closed && k in n.connections && n.connections[k].transport == ViaWebRtc
    requires n.connections[k].sessionKey.Some? && n.connections[k].sessionKey.value in n.sessions
    ensures var n', id := CloseConnection(n, k).0, n.connections[k].sessionKey.value;
      && n'.connections[k].closed && n'.sessions[id].lifecycle == SessionOver
      && SessionAddr(n.sessions[id]) !in n'.advertised
      && (forall j :: j in n.sessions && j != id ==>
            n'.sessions[j] == n.sessions[j] && (Live(n.sessions[j]) ==> SessionAddr(n.sessions[j]) in n'.advertised))
  {
    var id := n.connections[k].sessionKey.value;
    AddressesDiffer(n, n.sessions[id], n.sessions[id]);
    OneAddressGone(n, id);
  }

  // ---- Dialing without a data channel ----

  /** A dial that prefers WebRTC ends up on the relay: every step of the fallback succeeds. */
  lemma PreferredDialFallsBack(n: NodeState, remote: EndpointId, alpn: string, id: DialSessionId,
                               message: string, c: Incoming)
    requires Inv(n) && !n.closed && alpn != ""
    ensures var n1 := AllocateDial(n, remote, alpn, WebRtcPreferred, id).0;
      var (n2, decided) := EmitTerminalDecision(n1, id.dialId, None, message);
      var (n3, completed) := UpdateSession(n2, id.dialId, Complete(ViaIrohRelay));
      && decided.Success? && decided.value.reason == FallbackSelected && decided.value.selected == Some(ViaIrohRelay)
      && completed.Success? && completed.value.lifecycle == ApplicationReady
      && AdmitConnection(n3, c, ViaIrohRelay, Some(id.dialId), false).1.Success?
  {
  }

  lemma WebRtcOnlyDialFails(n: NodeState, remote: EndpointId, alpn: string, id: DialSessionId, message: string)
    requires !n.closed && alpn != ""
    ensures var n1 := AllocateDial(n, remote, alpn, WebRtcOnly, id).0;
      var (n2, decided) := EmitTerminalDecision(n1, id.dialId, None, message);
      && decided.Success? && decided.value.reason == WebRtcFailed && decided.value.selected.None?
      && id.dialId in n2.sessions && n2.sessions[id.dialId].intent == WebRtcOnly && !Live(n2.sessions[id.dialId])
      && Sound(n2.sessions[id.dialId])
  {
  }

  /** A session that requires WebRTC and has died can never be completed. */
  lemma NeverCompleted(s: Session, es: seq<Event>, t: Transport)
    requires Sound(s) && s.intent == WebRtcOnly && !Live(s)
    ensures DialCompleted(AfterAll(s, es), t).Failure?
  {
    DeadStaysDead(s, es);
    HistoryKeeps(s, es);
  }

  /** A dial that requires WebRTC is given up: from then on no transport completes it. */
  lemma WebRtcOnlyDialIsGivenUp(n: NodeState, remote: EndpointId, alpn: string, id: DialSessionId, message: string,
                                es: seq<Event>, t: Transport)
    requires !n.closed && alpn != ""
    ensures var n1 := AllocateDial(n, remote, alpn, WebRtcOnly, id).0;
      var (n2, decided) := EmitTerminalDecision(n1, id.dialId, None, message);
      && decided.Success? && decided.value.reason == WebRtcFailed && decided.value.selected.None?
      && id.dialId in n2.sessions && DialCompleted(AfterAll(n2.sessions[id.dialId], es), t).Failure?
  {
    WebRtcOnlyDialFails(n, remote, alpn, id, message);
    var n1 := AllocateDial(n, remote, alpn, WebRtcOnly, id).0;
    NeverCompleted(EmitTerminalDecision(n1, id.dialId, None, message).0.sessions[id.dialId], es, t);
  }

  /** A protocol has one accept iterator at a time. */
  lemma OneAcceptorAtATime(n: NodeState, alpn: string)
    requires OpenAcceptor(n, alpn).1.Success?
    ensures var n1 := OpenAcceptor(n, alpn).0;
      OpenAcceptor(n1, alpn).1.Failure? && OpenAcceptor(CloseAccepting(n1, alpn).0, alpn).1 == OpenAcceptor(n, alpn).1
  {
  }

  // ---- Incoming WebRTC connections: claim a session, then admit ----

  /** The protocol handler for incoming WebRTC connections, run without interruption. */
  function FacadeAccept(n: NodeState, c: Incoming, pick: DialId): (NodeState, Result<nat, ErrorCode>) {
    var (n1, claimed) := AcceptWebRtcConnection(n, c, pick);
    if claimed.Failure? then (n1, Failure(claimed.error))
    else AdmitConnection(n1, c, ViaWebRtc, Some(claimed.value), true)
  }

  /** Without a free place in the queue, or without the queue itself, the connection is refused. */
  predicate NoPlace(n: NodeState, alpn: string) {
    alpn !in n.accepts || |n.accepts[alpn].queue| == n.accepts[alpn].capacity
  }

  lemma ClaimLeavesAccepts(n: NodeState, c: Incoming, pick: DialId)
    ensures var n' := AcceptWebRtcConnection(n, c, pick).0;
      && n'.accepts == n.accepts && n'.connections == n.connections && n'.closed == n.closed
      && (AcceptWebRtcConnection(n, c, pick).1.Success? ==>
            && pick in n.sessions && n.sessions[pick].resolved.None? && pick in n'.sessions
            && n'.sessions[pick].resolved == Some(ViaWebRtc) && n'.sessions[pick].channel == Open
            && n'.sessions[pick].intent.UsesWebRtc() && PathMatches(c, n'.sessions[pick]) && !n'.closed
            && AcceptWebRtcConnection(n, c, pick).1.value == pick)
  {
  }

  /** A connection that passes the checks is admitted exactly if there is a place in the queue. */
  lemma AdmittedIffPlace(n: NodeState, c: Incoming, t: Transport, key: Option<DialId>)
    requires AcceptsGood(n) && AdmissionError(n, c, t, key, true).None?
    ensures AdmitConnection(n, c, t, key, true).1.Success? <==> !NoPlace(n, c.alpn)
  {
    AdmissionSteps(n, c, t, key, true);
    PlacedKeeps(n, Offered(n, c, t, key), true);
  }

  /** The claim of `pick` succeeds. */
  predicate CanClaim(n: NodeState, c: Incoming, pick: DialId) {
    !n.closed && pick in n.sessions && Claimable(n.sessions[pick], c) && PathMatches(c, n.sessions[pick])
  }

  lemma ClaimsIff(n: NodeState, c: Incoming, pick: DialId)
    ensures AcceptWebRtcConnection(n, c, pick).1.Success? <==> CanClaim(n, c, pick)
  {
  }

  /** After a claim, admission succeeds exactly if there is a place. */
  lemma AdmissionAfterClaim(n: NodeState, c: Incoming, pick: DialId)
    requires Inv(n) && CanClaim(n, c, pick)
    ensures var n1 := AcceptWebRtcConnection(n, c, pick).0;
      AdmitConnection(n1, c, ViaWebRtc, Some(pick), true).1.Success? <==> !NoPlace(n, c.alpn)
  {
    ClaimsIff(n, c, pick);
    ClaimKeeps(n, c, pick);
    ClaimLeavesAccepts(n, c, pick);
    var n1 := AcceptWebRtcConnection(n, c, pick).0;
    if c.alpn in n.accepts {
      AdmittedIffPlace(n1, c, ViaWebRtc, Some(pick));
    }
  }

  /**
    The two steps are not one: with no place left the claim stays although no connection is
    admitted, and by `ClaimedAtMostOnce` no later connection can claim the session. In all other
    cases the handler does both or nothing.
   */
  lemma ClaimWithoutConnection(n: NodeState, c: Incoming, pick: DialId)
    requires Inv(n)
    ensures var (n', r) := FacadeAccept(n, c, pick);
      && (r.Success? <==> CanClaim(n, c, pick) && !NoPlace(n, c.alpn))
      && (r.Failure? && n'.sessions != n.sessions <==> CanClaim(n, c, pick) && NoPlace(n, c.alpn))
      && (r.Failure? ==> n'.connections == n.connections)
  {
    ClaimsIff(n, c, pick);
    if CanClaim(n, c, pick) {
      ClaimKeeps(n, c, pick);
      ClaimLeavesAccepts(n, c, pick);
      AdmissionAfterClaim(n, c, pick);
      if NoPlace(n, c.alpn) {
        var n1 := AcceptWebRtcConnection(n, c, pick).0;
        AdmissionIsAtomic(n1, c, ViaWebRtc, Some(pick), true);
        assert n1.sessions[pick] != n.sessions[pick];
      }
    }
  }

  // ---- Closing the node ----

  /** The other side of each WebRTC session is told, unless it was before, and everything is closed. */
  lemma CloseNodeCloses(n: NodeState, reason: Option<string>)
    requires Inv(n) && !n.closed
    ensures var (n', farewells) := CloseNode(n, reason);
      && n'.closed
      && (forall id :: id in farewells <==>
            id in n.sessions && n.sessions[id].intent.UsesWebRtc() && n.sessions[id].terminalSent.None?)
      && (forall id :: id in farewells ==> farewells[id] == TerminalSignal(n.sessions[id], Closed, reason))
      && (forall id :: id in n'.sessions <==> id in n.sessions)
      && (forall id :: id in n'.sessions ==>
            n'.sessions[id].lifecycle == SessionOver
            && (n'.sessions[id].intent.UsesWebRtc() ==> n'.sessions[id].terminalSent.Some?))
      && (forall k :: k in n'.connections ==> n'.connections[k].closed)
  {
  }

  lemma CloseNodeAnswersWaiters(n: NodeState, reason: Option<string>)
    requires !n.closed
    ensures var n' := CloseNode(n, reason).0;
      forall a, w :: a in n.accepts && w in n.accepts[a].waiters && w !in n.gone ==>
        w in n'.answers && n'.answers[w] == Done
  {
    var n' := CloseNode(n, reason).0;
    forall a, w | a in n.accepts && w in n.accepts[a].waiters && w !in n.gone
      ensures w in n'.answers && n'.answers[w] == Done
    {
      assert w in AllWaiters(n.accepts);
    }
  }

  /** Afterwards nothing moves: no session, no connection, no queue, and a second close tells nobody. */
  lemma {:induction false} ClosedForGood(n: NodeState, ops: seq<Op>, reason: Option<string>)
    requires Inv(n) && n.closed
    ensures var m := Run(n, ops);
      && m.closed && m.sessions == n.sessions && m.connections == n.connections && m.accepts == map[]
      && CloseNode(m, reason) == (m, map[])
    decreases |ops|
  {
    if ops != [] {
      ClosedForGood(n, ops[..|ops| - 1], reason);
      ClosedStep(Run(n, ops[..|ops| - 1]), ops[|ops| - 1]);
    }
  }

  lemma ClosedStep(n: NodeState, op: Op)
    requires n.closed && n.accepts == map[]
    ensures Step(n, op) == n.(gone := Step(n, op).gone)
  {
  }
}
