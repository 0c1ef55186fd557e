/**
  What each operation of a node asks beforehand, and what it then does (browser_runtime/node/): an operation
  is refused exactly if its guard does not hold, so none of them refuses what it should take.
 */
module NodeGuards {
  import opened Prelude
  import opened Addr
  import opened Signaling
  import opened Session
  import opened Accept
  import opened Node
  import opened NodeRuns

  // ---- The guards ----

  /** A signal from the other end of the session's dial. */
  predicate FromPeer(n: NodeState, r: Route) {
    && r.recipient == n.endpointId && r.dialId in n.sessions
    && CoordinatorOf(n.sessions[r.dialId]).remote == r.sender
    && CoordinatorOf(n.sessions[r.dialId]).generation == r.generation
  }

  /** The protocol that a dial request is for. */
  function Wanted(named: string, input: Option<string>): string {
    if input.Some? then input.value else named
  }

  predicate Served(n: NodeState, alpn: string) {
    alpn != "" && (alpn in n.accepts || alpn in n.otherAlpns)
  }

  /**
    A request is for a protocol that is served, and under an id that is not in use; any other signal
    comes from the other end of a known session. Handshake signals are let through even when the node is closed.
   */
  predicate LetThrough(n: NodeState, signal: WebRtcSignal, input: Option<string>) {
    match signal.body
    case DialRequest(named, _) =>
      && signal.route.recipient == n.endpointId && !n.closed
      && Served(n, Wanted(named, input)) && signal.route.dialId !in n.sessions
    case Terminal(_, _) => !n.closed && FromPeer(n, signal.route)
    case _ => FromPeer(n, signal.route)
  }

  /** Over WebRTC the session must be known, and be the one that the selected path leads to. */
  predicate Admissible(n: NodeState, c: Incoming, t: Transport, key: Option<DialId>, queueAccept: bool) {
    var known := key.Some? && key.value in n.sessions;
    && !n.closed && (queueAccept ==> c.alpn in n.accepts)
    && (known ==> Allows(n.sessions[key.value].intent, n.sessions[key.value].channel, t))
    && (t == ViaWebRtc ==> known && PathMatches(c, n.sessions[key.value]))
  }

  predicate CanUpdate(s: Session, u: Node.Update) {
    match u
    case AttachChannel => s.channel == AwaitingTransfer
    case MarkChannelOpen => s.channel == Transferred
    case Complete(t) => s.role == Dialer && Allows(s.intent, s.channel, t)
  }

  predicate CanOpen(n: NodeState, alpn: string) {
    alpn != "" && !n.closed && alpn in n.accepts && !n.accepts[alpn].claimed
  }

  predicate Allowed(n: NodeState, op: NodeRuns.Op) {
    match op
    case Dial(_, alpn, _, _) => alpn != "" && !n.closed
    case Update(id, u) => !n.closed && id in n.sessions && CanUpdate(n.sessions[id], u)
    case Decide(id, _, _) => !n.closed && id in n.sessions
    case Receive(signal, input) => LetThrough(n, signal, input)
    case Admit(c, t, key, queueAccept) =>
      Admissible(n, c, t, key, queueAccept) && (queueAccept ==> !NoPlace(n, c.alpn))
    case Claim(c, pick) => CanClaim(n, c, pick)
    case CloseOne(k) => !n.closed && k in n.connections
    case OpenAccept(alpn) => CanOpen(n, alpn)
    case Next(alpn) => n.closed || alpn in n.accepts
    case CloseAccept(alpn) => alpn in n.accepts
    case WaiterGone(_) => true
    case Close(_) => true
  }

  lemma AdmissibleExactlyIf(n: NodeState, c: Incoming, t: Transport, key: Option<DialId>, queueAccept: bool)
    ensures AdmissionError(n, c, t, key, queueAccept).None? <==> Admissible(n, c, t, key, queueAccept)
  {
  }

  lemma AdmittedExactlyIf(n: NodeState, c: Incoming, t: Transport, key: Option<DialId>, queueAccept: bool)
    requires AcceptsGood(n)
    ensures AdmitConnection(n, c, t, key, queueAccept).1.Success?
            <==> Admissible(n, c, t, key, queueAccept) && (queueAccept ==> !NoPlace(n, c.alpn))
  {
    AdmissibleExactlyIf(n, c, t, key, queueAccept);
    if Admissible(n, c, t, key, queueAccept) {
      AdmissionSteps(n, c, t, key, queueAccept);
      PlacedKeeps(n, Offered(n, c, t, key), queueAccept);
    }
  }

  lemma LetThroughExactlyIf(n: NodeState, signal: WebRtcSignal, input: Option<string>)
    ensures HandleBootstrapSignal(n, signal, input).1.Success? <==> LetThrough(n, signal, input)
  {
  }

  lemma UpdatedExactlyIf(n: NodeState, id: DialId, u: Node.Update)
    ensures UpdateSession(n, id, u).1.Success? <==> !n.closed && id in n.sessions && CanUpdate(n.sessions[id], u)
  {
    if id in n.sessions && u.Complete? {
      ResolvesExactlyIf(n.sessions[id], u.t);
    }
  }

  /** No operation refuses what its guard allows, and none goes through without it. */
  lemma RefusedExactlyIf(n: NodeState, op: NodeRuns.Op)
    requires AcceptsGood(n)
    ensures Refused(n, op) <==> !Allowed(n, op)
  {
    match op
    case Update(id, u) => UpdatedExactlyIf(n, id, u);
    case Receive(signal, input) => LetThroughExactlyIf(n, signal, input);
    case Admit(c, t, key, queueAccept) => AdmittedExactlyIf(n, c, t, key, queueAccept);
    case Claim(c, pick) => ClaimsIff(n, c, pick);
    case _ =>
  }

  // ---- The effects ----

  /** Only this session has changed, or is new; the list of addresses is its own matter. */
  ghost predicate OnlySession(n: NodeState, n': NodeState, id: DialId) {
    && id in n'.sessions && n'.sessions == n.sessions[id := n'.sessions[id]]
    && n' == n.(sessions := n'.sessions, advertised := n'.advertised)
  }

  /** A new session, advertised exactly if it may use WebRTC. */
  ghost predicate IsNew(n': NodeState, s: Session, role: Role, alpn: string, intent: TransportIntent) {
    && s.role == role && s.alpn == alpn && s.intent == intent && s.local == n'.endpointId
    && Sound(s) && Rank(s.channel) == 0 && s.resolved.None? && s.terminalSent.None? && s.terminalReceived.None?
    && PendingDialAction(s) == (if intent == IrohRelay then Some(UseRelay) else None)
    && (intent != IrohRelay ==> Live(s) && SessionAddr(s) in n'.advertised)
  }

  /** The dial's session is this node's end, under the id it was given. */
  lemma DialMeans(n: NodeState, remote: EndpointId, alpn: string, intent: TransportIntent, id: DialSessionId)
    requires alpn != "" && !n.closed
    ensures var (n', r) := AllocateDial(n, remote, alpn, intent, id);
      && r.Success? && OnlySession(n, n', id.dialId) && n'.sessions[id.dialId] == r.value
      && IsNew(n', r.value, Dialer, alpn, intent)
      && CoordinatorOf(r.value) == DialCoordinator(n.endpointId, remote, id.dialId, id.generation)
  {
    NewSessionKeeps(id.dialId, id.generation, n.endpointId, remote, alpn, Dialer, intent);
    InLiveAddrs(AllocateDial(n, remote, alpn, intent, id).0, id.dialId);
  }

  lemma InLiveAddrs(n: NodeState, id: DialId)
    requires id in n.sessions
    ensures Live(n.sessions[id]) ==> SessionAddr(n.sessions[id]) in LiveAddrs(n.sessions)
  {
  }

  /** A request makes the other end of the dial it was sent for; its coordinator accepts what that end sends. */
  ghost predicate RequestDone(n: NodeState, signal: WebRtcSignal, input: Option<string>, n': NodeState, s: Session)
    requires signal.body.DialRequest?
  {
    && OnlySession(n, n', signal.route.dialId) && n'.sessions[signal.route.dialId] == s
    && IsNew(n', s, Acceptor, Wanted(signal.body.alpn, input), signal.body.transportIntent)
    && CoordinatorOf(s).Accepts(signal)
  }

  /** What a signal that was let through has done. */
  ghost predicate SignalDone(n: NodeState, signal: WebRtcSignal, input: Option<string>, n': NodeState, s: Session) {
    match signal.body
    case DialRequest(_, _) => RequestDone(n, signal, input, n', s)
    case Terminal(reason, _) =>
      && OnlySession(n, n', signal.route.dialId) && n'.sessions[signal.route.dialId] == s
      && n'.advertised == n.advertised
      && HasTerminated(s, reason) && s.terminalReceived == Some(reason)
    case _ => n' == n && signal.route.dialId in n.sessions && s == n.sessions[signal.route.dialId]
  }

  lemma RequestMeans(n: NodeState, signal: WebRtcSignal, input: Option<string>)
    requires signal.body.DialRequest? && LetThrough(n, signal, input)
    ensures var (n', r) := HandleBootstrapSignal(n, signal, input);
      r.Success? && RequestDone(n, signal, input, n', r.value)
  {
    var route := signal.route;
    var alpn := Wanted(signal.body.alpn, input);
    NewSessionKeeps(route.dialId, route.generation, n.endpointId, route.sender, alpn, Acceptor,
                    signal.body.transportIntent);
    InLiveAddrs(HandleBootstrapSignal(n, signal, input).0, route.dialId);
  }

  lemma RemoteTerminalMeans(n: NodeState, r: Route, reason: TerminalReason)
    requires SessionsGood(n) && !n.closed && FromPeer(n, r)
    ensures var (n', result) := ApplyRemoteTerminal(n, r, reason);
      && result.Success? && OnlySession(n, n', r.dialId) && n'.sessions[r.dialId] == result.value
      && n'.advertised == n.advertised
      && HasTerminated(result.value, reason) && result.value.terminalReceived == Some(reason)
  {
    assert GoodSession(n, r.dialId, n.sessions[r.dialId]);
    TerminalTakesEffect(n.sessions[r.dialId], reason);
  }

  /** A signal is let through exactly if its guard holds, and then does what its kind says. */
  lemma SignalMeans(n: NodeState, signal: WebRtcSignal, input: Option<string>)
    requires SessionsGood(n)
    ensures var (n', r) := HandleBootstrapSignal(n, signal, input);
      && (r.Success? <==> LetThrough(n, signal, input))
      && if r.Success? then SignalDone(n, signal, input, n', r.value) else n' == n
  {
    LetThroughExactlyIf(n, signal, input);
    if LetThrough(n, signal, input) {
      match signal.body
      case DialRequest(_, _) => RequestMeans(n, signal, input);
      case Terminal(reason, _) => RemoteTerminalMeans(n, signal.route, reason);
      case _ =>
    }
  }

  /**
    A decision: its reason is the override, or else what the intent calls for. It is recorded and takes effect,
    and over WebRTC exactly this reason is told to the other end.
   */
  ghost predicate Decided(n: NodeState, id: DialId, override: Option<TerminalReason>, message: string,
                          n': NodeState, d: Decision)
    requires id in n.sessions
  {
    var s := n.sessions[id];
    && d.reason == (match override
                    case Some(reason) => reason
                    case None => if s.intent == WebRtcPreferred then FallbackSelected else WebRtcFailed)
    && OnlySession(n, n', id) && n'.advertised == n.advertised
    && HasTerminated(n'.sessions[id], d.reason) && n'.sessions[id].terminalSent == Some(d.reason)
    && d.signal == (if s.intent == IrohRelay then None
                    else Some(WebRtcSignal(Route(id, n.endpointId, s.remote, s.generation),
                                           Terminal(d.reason, Some(message)))))
    && d.selected == (if n'.sessions[id].lifecycle == RelaySelected then Some(ViaIrohRelay) else None)
  }

  lemma DecisionMeans(n: NodeState, id: DialId, override: Option<TerminalReason>, message: string)
    requires SessionsGood(n)
    ensures var (n', r) := EmitTerminalDecision(n, id, override, message);
      && (r.Success? <==> !n.closed && id in n.sessions)
      && if r.Success? then Decided(n, id, override, message, n', r.value) else n' == n
  {
    if !n.closed && id in n.sessions {
      var s := n.sessions[id];
      assert GoodSession(n, id, s);
      TerminalTakesEffect(s, DecidedReason(s, override));
    }
  }

  /** The front connection, which leaves the queue; or else a new waiter at the end of the line. */
  lemma NextTakesOldest(n: NodeState, alpn: string)
    ensures var (n', r) := NextAccepted(n, alpn);
      && (r.Success? <==> n.closed || alpn in n.accepts)
      && (n.closed ==> r == Success(Now(Done)) && n' == n)
      && (!n.closed && alpn in n.accepts ==>
            var was, now := n.accepts[alpn], n'.accepts[alpn];
            if was.queue == [] then r == Success(Later(n.nextWaiter)) && now.waiters == was.waiters + [n.nextWaiter]
            else
              && r.value.Now? && r.value.next.Ready?
              && was.queue == [r.value.next.connection] + now.queue && now.waiters == was.waiters)
  {
  }

  /** Closing a connection over the relay is of no consequence for any session. */
  lemma ClosingOneMeans(n: NodeState, k: nat)
    requires !n.closed && k in n.connections
    ensures var (n', r) := CloseConnection(n, k);
      var c := n.connections[k];
      && r.Success? && n'.connections == n.connections[k := n'.connections[k]]
      && n'.connections[k] == ConnectionState(c.sessionKey, c.transport, true)
      && (c.transport == ViaIrohRelay ==> n'.sessions == n.sessions && n'.advertised == n.advertised)
      && (forall id :: id in n.sessions && c.sessionKey != Some(id) ==>
            id in n'.sessions && n'.sessions[id] == n.sessions[id])
  {
  }

  /** Closing the node ends each session, and tells the other end unless it was told something before. */
  lemma ClosingMeans(n: NodeState, id: DialId, reason: Option<string>)
    requires SessionsGood(n) && !n.closed && id in n.sessions
    ensures var (n', farewells) := CloseNode(n, reason);
      var s := n.sessions[id];
      && id in n'.sessions && HasTerminated(n'.sessions[id], Closed)
      && (s.intent != IrohRelay && s.terminalSent.None? ==>
            && id in farewells
            && farewells[id] == WebRtcSignal(Route(id, n.endpointId, s.remote, s.generation), Terminal(Closed, reason)))
      && (s.intent == IrohRelay || s.terminalSent.Some? ==> id !in farewells)
  {
    assert GoodSession(n, id, n.sessions[id]);
  }

  /** A path leads to a session exactly if it is the address that the other end of its dial advertises. */
  lemma PathLeadsToPeer(c: Incoming, s: Session, peer: Session)
    requires peer.local == s.remote && peer.dialId == s.dialId
    ensures PathMatches(c, s) <==> c.path.Some? && ToCustomAddr(c.path.value) == SessionAddr(peer)
  {
    if c.path.Some? {
      EncodeAddrInjective(c.path.value, WebRtcAddr(peer.local, WebRtcAddrKind.Session(peer.dialId)));
    }
  }

  // ---- A dial over WebRTC, at each of its ends ----

  /** The session after its channel was transferred and has opened. */
  function ChannelUp(n: NodeState, id: DialId): NodeState {
    UpdateSession(UpdateSession(n, id, AttachChannel).0, id, MarkChannelOpen).0
  }

  lemma ChannelComesUp(n: NodeState, id: DialId)
    requires NodeRuns.Inv(n) && !n.closed && id in n.sessions && n.sessions[id].intent != IrohRelay
    requires Rank(n.sessions[id].channel) == 0
    ensures var n' := ChannelUp(n, id);
      && NodeRuns.Inv(n') && n' == n.(sessions := n'.sessions, advertised := n'.advertised)
      && n'.sessions == n.sessions[id := n.sessions[id].(channel := Open)]
      && PendingDialAction(n'.sessions[id]) == Some(UseWebRtc)
  {
    ChannelIsAttached(n, id);
    ChannelIsOpened(n, UpdateSession(n, id, AttachChannel).0, id);
  }

  lemma ChannelIsAttached(n: NodeState, id: DialId)
    requires NodeRuns.Inv(n) && !n.closed && id in n.sessions && n.sessions[id].intent != IrohRelay
    requires Rank(n.sessions[id].channel) == 0
    ensures var n1 := UpdateSession(n, id, AttachChannel).0; WasAttached(n, n1, id) && NodeRuns.Inv(n1)
  {
    assert GoodSession(n, id, n.sessions[id]);
    UpdateMeans(n, id, AttachChannel);
    UpdateKeeps(n, id, AttachChannel);
  }

  ghost predicate WasAttached(n: NodeState, n1: NodeState, id: DialId)
    requires id in n.sessions
  {
    && n1 == n.(sessions := n1.sessions, advertised := n1.advertised)
    && n1.sessions == n.sessions[id := n.sessions[id].(channel := Transferred)]
  }

  lemma ChannelIsOpened(n: NodeState, n1: NodeState, id: DialId)
    requires NodeRuns.Inv(n1) && !n.closed && id in n.sessions && WasAttached(n, n1, id)
    ensures var n' := UpdateSession(n1, id, MarkChannelOpen).0;
      && NodeRuns.Inv(n') && n' == n.(sessions := n'.sessions, advertised := n'.advertised)
      && n'.sessions == n.sessions[id := n.sessions[id].(channel := Open)]
      && PendingDialAction(n'.sessions[id]) == Some(UseWebRtc)
  {
    UpdateMeans(n1, id, MarkChannelOpen);
    UpdateKeeps(n1, id, MarkChannelOpen);
  }

  /** An update that its guard allows changes its session, and refreshes the advertised addresses. */
  lemma UpdateMeans(n: NodeState, id: DialId, u: Node.Update)
    requires !n.closed && id in n.sessions && CanUpdate(n.sessions[id], u)
    ensures var (n', r) := UpdateSession(n, id, u);
      && r.Success? && n' == n.(sessions := n'.sessions, advertised := n'.advertised)
      && n'.sessions == n.sessions[id := r.value]
      && r.value == (match u
                     case AttachChannel => n.sessions[id].(channel := Transferred)
                     case MarkChannelOpen => n.sessions[id].(channel := Open)
                     case Complete(t) => n.sessions[id].(resolved := Some(t), lifecycle := ApplicationReady))
  {
  }

  /** A dialer whose channel comes up completes its dial and admits its connection over WebRTC. */
  lemma DialerConnects(n: NodeState, id: DialId, c: Incoming)
    requires NodeRuns.Inv(n) && !n.closed && id in n.sessions && n.sessions[id].role == Dialer
    requires n.sessions[id].intent != IrohRelay && Rank(n.sessions[id].channel) == 0 && n.sessions[id].resolved.None?
    requires PathMatches(c, n.sessions[id])
    ensures var (n1, completed) := UpdateSession(ChannelUp(n, id), id, Complete(ViaWebRtc));
      && completed.Success? && completed.value.lifecycle == ApplicationReady
      && completed.value.resolved == Some(ViaWebRtc) && n1.sessions[id] == completed.value
      && AdmitConnection(n1, c, ViaWebRtc, Some(id), false).1.Success?
  {
    ChannelComesUp(n, id);
    var m := ChannelUp(n, id);
    UpdateMeans(m, id, Complete(ViaWebRtc));
    UpdateKeeps(m, id, Complete(ViaWebRtc));
    AdmittedExactlyIf(UpdateSession(m, id, Complete(ViaWebRtc)).0, c, ViaWebRtc, Some(id), false);
  }

  /** An acceptor whose channel comes up claims its session for the dialer's connection and queues it. */
  lemma AcceptorConnects(n: NodeState, id: DialId, c: Incoming)
    requires NodeRuns.Inv(n) && !n.closed && id in n.sessions && n.sessions[id].role == Acceptor
    requires n.sessions[id].intent != IrohRelay && Rank(n.sessions[id].channel) == 0 && n.sessions[id].resolved.None?
    requires c == Incoming(n.sessions[id].remote, n.sessions[id].alpn,
                           Some(WebRtcAddr(n.sessions[id].remote, WebRtcAddrKind.Session(id))))
    requires !NoPlace(n, c.alpn)
    ensures var (n', r) := FacadeAccept(ChannelUp(n, id), c, id);
      && r.Success? && id in n'.sessions && n'.sessions[id].lifecycle == ApplicationReady
      && n'.sessions[id].resolved == Some(ViaWebRtc)
      && r.value in n'.connections && n'.connections[r.value] == ConnectionState(Some(id), ViaWebRtc, false)
  {
    var m := ChannelUp(n, id);
    ChannelComesUp(n, id);
    assert GoodSession(n, id, n.sessions[id]);
    ClaimableMeans(m.sessions[id], c);
    ClaimConnects(m, c, id);
  }

  lemma ClaimConnects(m: NodeState, c: Incoming, id: DialId)
    requires NodeRuns.Inv(m) && CanClaim(m, c, id) && !NoPlace(m, c.alpn)
    ensures var (n', r) := FacadeAccept(m, c, id);
      && r.Success? && id in n'.sessions && n'.sessions[id].lifecycle == ApplicationReady
      && n'.sessions[id].resolved == Some(ViaWebRtc)
      && r.value in n'.connections && n'.connections[r.value] == ConnectionState(Some(id), ViaWebRtc, false)
  {
    ClaimsIff(m, c, id);
    ClaimKeeps(m, c, id);
    ClaimLeavesAccepts(m, c, id);
    AdmissionAfterClaim(m, c, id);
    AdmissionIsComplete(AcceptWebRtcConnection(m, c, id).0, c, ViaWebRtc, Some(id), true);
  }

  /** In a sound session an open channel that is not resolved yet is all that a claim can hope for. */
  lemma ClaimableMeans(s: Session, c: Incoming)
    requires Sound(s)
    ensures Claimable(s, c)
            <==> s.role == Acceptor && s.remote == c.remote && s.alpn == c.alpn && s.resolved.None? && s.channel == Open
  {
  }
}
