/**
  The browser runtime node as a value (browser_runtime/node.rs and node/): its sessions, connections,
  accept queues and advertised addresses, one atomic operation at a time.
 */
module Node {
  import opened Prelude
  import opened Addr
  import opened Signaling
  import opened Session
  import opened Accept

  datatype ConnectionState = ConnectionState(sessionKey: Option<DialId>, transport: Transport, closed: bool)

  /**
    `advertised` is the set of local addresses last given to the transport. `gone` are the waiters
    whose tasks went away and `answers` what the others were told. `claims` and `keys` record, for
    the proofs, the sessions claimed by incoming WebRTC connections and the connection keys used.
   */
  datatype NodeState = NodeState(
    endpointId: EndpointId,
    otherAlpns: set<string>,
    sessions: map<DialId, Session>,
    connections: map<nat, ConnectionState>,
    accepts: map<string, Registration<nat>>,
    nextConnectionKey: nat,
    nextWaiter: nat,
    gone: set<nat>,
    answers: map<nat, AcceptNext>,
    advertised: set<CustomAddr>,
    closed: bool,
    claims: seq<DialId>,
    keys: seq<nat>)

  /** An application connection; `path` is the WebRTC address its selected path leads to, if it is one. */
  datatype Incoming = Incoming(remote: EndpointId, alpn: string, path: Option<WebRtcAddr>)

  function CapabilityAddr(n: NodeState): CustomAddr {
    ToCustomAddr(WebRtcAddr(n.endpointId, WebRtcAddrKind.Capability))
  }

  function SessionAddr(s: Session): CustomAddr {
    ToCustomAddr(WebRtcAddr(s.local, WebRtcAddrKind.Session(s.dialId)))
  }

  function LiveAddrs(sessions: map<DialId, Session>): set<CustomAddr> {
    set id | id in sessions && Live(sessions[id]) :: SessionAddr(sessions[id])
  }

  function Refreshed(n: NodeState): NodeState {
    n.(advertised := {CapabilityAddr(n)} + LiveAddrs(n.sessions))
  }

  // ---- Sessions ----

  function WithNewSession(n: NodeState, s: Session): NodeState {
    var n' := n.(sessions := n.sessions[s.dialId := s]);
    if s.intent.UsesWebRtc() then Refreshed(n') else n'
  }

  /** A session of our own; an id that was in use before is taken over. */
  function AllocateDial(n: NodeState, remote: EndpointId, alpn: string, intent: TransportIntent,
                        id: DialSessionId): (NodeState, Result<Session, ErrorCode>) {
    if alpn == "" then (n, Failure(UnsupportedAlpn))
    else if n.closed then (n, Failure(NodeClosed))
    else
      var s := NewSession(id.dialId, id.generation, n.endpointId, remote, alpn, Dialer, intent);
      (WithNewSession(n, s), Success(s))
  }

  function AllocateAcceptSession(n: NodeState, remote: EndpointId, alpn: string, id: DialSessionId,
                                 intent: TransportIntent): (NodeState, Result<Session, ErrorCode>) {
    if alpn == "" then (n, Failure(UnsupportedAlpn))
    else if n.closed then (n, Failure(NodeClosed))
    else if id.dialId in n.sessions then (n, Failure(WebRtcFailure))
    else
      var s := NewSession(id.dialId, id.generation, n.endpointId, remote, alpn, Acceptor, intent);
      (WithNewSession(n, s), Success(s))
  }

  datatype Update = AttachChannel | MarkChannelOpen | Complete(t: Transport)

  function Updated(s: Session, u: Update): Result<Session, ErrorCode> {
    match u
    case AttachChannel => Attached(s)
    case MarkChannelOpen => Opened(s)
    case Complete(t) => DialCompleted(s, t)
  }

  function UpdateSession(n: NodeState, id: DialId, u: Update): (NodeState, Result<Session, ErrorCode>) {
    if n.closed then (n, Failure(NodeClosed))
    else if id !in n.sessions then (n, Failure(WebRtcFailure))
    else match Updated(n.sessions[id], u)
      case Failure(e) => (n, Failure(e))
      case Success(s) => (Refreshed(n.(sessions := n.sessions[id := s])), Success(s))
  }

  datatype Decision = Decision(reason: TerminalReason, signal: Option<WebRtcSignal>, selected: Option<Transport>)

  /** Without an override the intent decides between falling back and failing. */
  function DecidedReason(s: Session, override: Option<TerminalReason>): TerminalReason {
    if override.Some? then override.value
    else if s.intent.AllowsIrohRelayFallback() then FallbackSelected
    else WebRtcFailed
  }

  function EmitTerminalDecision(n: NodeState, id: DialId, override: Option<TerminalReason>, message: string)
    : (NodeState, Result<Decision, ErrorCode>) {
    if n.closed then (n, Failure(NodeClosed))
    else if id !in n.sessions then (n, Failure(WebRtcFailure))
    else
      var s := n.sessions[id];
      var reason := DecidedReason(s, override);
      var signal := if s.intent.UsesWebRtc() then Some(TerminalSignal(s, reason, Some(message))) else None;
      var (s', selected) := TerminalWasSent(s, reason);
      (n.(sessions := n.sessions[id := s']), Success(Decision(reason, signal, selected)))
  }

  // ---- Bootstrap signals ----

  predicate OnRoute(s: Session, r: Route) {
    s.remote == r.sender && s.generation == r.generation
  }

  function ApplyRemoteTerminal(n: NodeState, r: Route,
                               reason: TerminalReason): (NodeState, Result<Session, ErrorCode>) {
    if r.recipient != n.endpointId then (n, Failure(BootstrapFailure))
    else if n.closed then (n, Failure(NodeClosed))
    else if r.dialId !in n.sessions then (n, Failure(WebRtcFailure))
    else if !OnRoute(n.sessions[r.dialId], r) then (n, Failure(BootstrapFailure))
    else
      var s := TerminalWasReceived(n.sessions[r.dialId], reason);
      (n.(sessions := n.sessions[r.dialId := s]), Success(s))
  }

  /** `alpn` overrides the protocol named in a dial request. */
  function HandleBootstrapSignal(n: NodeState, signal: WebRtcSignal, alpn: Option<string>)
    : (NodeState, Result<Session, ErrorCode>) {
    var r := signal.route;
    match signal.body
    case DialRequest(named, intent) =>
      if r.recipient != n.endpointId then (n, Failure(BootstrapFailure))
      else if alpn.None? && named == "" then (n, Failure(BootstrapFailure))
      else
        var chosen := if alpn.Some? then alpn.value else named;
        if chosen !in n.accepts && chosen !in n.otherAlpns then (n, Failure(UnsupportedAlpn))
        else AllocateAcceptSession(n, r.sender, chosen, DialSessionId(r.dialId, r.generation), intent)
    case Terminal(reason, _) => ApplyRemoteTerminal(n, r, reason)
    case _ =>
      if r.recipient != n.endpointId then (n, Failure(BootstrapFailure))
      else if r.dialId !in n.sessions then (n, Failure(WebRtcFailure))
      else if !OnRoute(n.sessions[r.dialId], r) then (n, Failure(BootstrapFailure))
      else (n, Success(n.sessions[r.dialId]))
  }

  // ---- Application connections ----

  predicate PathMatches(c: Incoming, s: Session) {
    c.path == Some(WebRtcAddr(s.remote, WebRtcAddrKind.Session(s.dialId)))
  }

  /** Why a connection may not be admitted, if it may not. */
  function AdmissionError(n: NodeState, c: Incoming, t: Transport, key: Option<DialId>,
                          queueAccept: bool): Option<ErrorCode> {
    var s := if key.Some? && key.value in n.sessions then Some(n.sessions[key.value]) else None;
    if n.closed then Some(NodeClosed)
    else if queueAccept && c.alpn !in n.accepts then Some(UnsupportedAlpn)
    else if s.Some? && ResolutionError(s.value, t).Some? then ResolutionError(s.value, t)
    else if t == ViaWebRtc && s.None? then Some(WebRtcFailure)
    else if t == ViaWebRtc && !PathMatches(c, s.value) then Some(WebRtcFailure)
    else None
  }

  /** Queue the connection or hand it to a waiter. */
  function OfferToAcceptor(n: NodeState, connection: AcceptedConnection): (NodeState, bool)
    requires connection.alpn in n.accepts
  {
    var (registration, outcome) := Accept.Pushed(n.accepts[connection.alpn], n.gone, connection);
    var n' := n.(accepts := n.accepts[connection.alpn := registration]);
    match outcome
    case Woke(w) => (n'.(answers := n.answers[w := AcceptNext.Ready(connection)]), true)
    case Queued => (n', true)
    case QueueFull => (n', false)
  }

  function StoreConnection(n: NodeState, k: nat, key: Option<DialId>,
                           t: Transport): (NodeState, Result<nat, ErrorCode>) {
    var n' := n.(connections := n.connections[k := ConnectionState(key, t, false)]);
    if key.None? || key.value !in n.sessions then (n', Success(k))
    else match Resolved(n.sessions[key.value], t)
      case Failure(e) => (n', Failure(e))
      case Success(s) => (n'.(sessions := n.sessions[key.value := s]), Success(k))
  }

  /** The next connection key is used up. */
  function KeyDrawn(n: NodeState): NodeState {
    n.(nextConnectionKey := n.nextConnectionKey + 1, keys := n.keys + [n.nextConnectionKey])
  }

  /** The connection as it is offered to its acceptor, under the next key. */
  function Offered(n: NodeState, c: Incoming, t: Transport, key: Option<DialId>): AcceptedConnection {
    AcceptedConnection(n.nextConnectionKey, key, c.remote, c.alpn, t)
  }

  /** The key is drawn and the connection has its place, if it needs one. */
  function Placed(n: NodeState, offered: AcceptedConnection, queueAccept: bool): (NodeState, bool)
    requires queueAccept ==> offered.alpn in n.accepts
  {
    if queueAccept then OfferToAcceptor(KeyDrawn(n), offered) else (KeyDrawn(n), true)
  }

  function AdmitConnection(n: NodeState, c: Incoming, t: Transport, key: Option<DialId>, queueAccept: bool)
    : (NodeState, Result<nat, ErrorCode>) {
    var error := AdmissionError(n, c, t, key, queueAccept);
    if error.Some? then (n, Failure(error.value))
    else
      var (placed, taken) := Placed(n, Offered(n, c, t, key), queueAccept);
      if taken then StoreConnection(placed, n.nextConnectionKey, key, t) else (placed, Failure(WebRtcFailure))
  }

  /** A session that an incoming WebRTC connection of this remote and protocol may claim. */
  predicate Claimable(s: Session, c: Incoming) {
    && s.role == Acceptor && s.remote == c.remote && s.alpn == c.alpn && s.intent.UsesWebRtc()
    && s.resolved.None? && s.channel == Open
    && (s.lifecycle == WebRtcNegotiating || s.lifecycle == ApplicationReady)
  }

  /** Claim a session for a connection; `pick` is the claimable one that the search meets first. */
  function AcceptWebRtcConnection(n: NodeState, c: Incoming, pick: DialId): (NodeState, Result<DialId, ErrorCode>) {
    if n.closed then (n, Failure(NodeClosed))
    else if pick !in n.sessions || !Claimable(n.sessions[pick], c) then (n, Failure(WebRtcFailure))
    else if !PathMatches(c, n.sessions[pick]) then (n, Failure(WebRtcFailure))
    else match Resolved(n.sessions[pick], ViaWebRtc)
      case Failure(e) => (n, Failure(e))
      case Success(s) =>
        (Refreshed(n.(sessions := n.sessions[pick := s], claims := n.claims + [pick])), Success(pick))
  }

  function CloseConnection(n: NodeState, k: nat): (NodeState, Result<(), ErrorCode>) {
    if n.closed then (n, Failure(NodeClosed))
    else if k !in n.connections then (n, Failure(WebRtcFailure))
    else
      var c := n.connections[k];
      var n1 := n.(connections := n.connections[k := c.(closed := true)]);
      if c.transport != ViaWebRtc then (n1, Success(()))
      else if c.sessionKey.None? || c.sessionKey.value !in n.sessions then (Refreshed(n1), Success(()))
      else
        var id := c.sessionKey.value;
        (Refreshed(n1.(sessions := n.sessions[id := Ended(n.sessions[id])])), Success(()))
  }

  // ---- Accepting ----

  function OpenAcceptor(n: NodeState, alpn: string): (NodeState, Result<nat, ErrorCode>) {
    if alpn == "" then (n, Failure(UnsupportedAlpn))
    else if n.closed then (n, Failure(NodeClosed))
    else if alpn !in n.accepts || n.accepts[alpn].claimed then (n, Failure(UnsupportedAlpn))
    else (n.(accepts := n.accepts[alpn := n.accepts[alpn].(claimed := true)]), Success(n.accepts[alpn].id))
  }

  datatype NextOutcome = Now(next: AcceptNext) | Later(waiter: nat)

  function NextAccepted(n: NodeState, alpn: string): (NodeState, Result<NextOutcome, ErrorCode>) {
    if n.closed then (n, Success(Now(Done)))
    else if alpn !in n.accepts then (n, Failure(UnsupportedAlpn))
    else
      var r := n.accepts[alpn];
      if r.queue != [] then
        (n.(accepts := n.accepts[alpn := r.(queue := r.queue[1..])]), Success(Now(AcceptNext.Ready(r.queue[0]))))
      else
        (n.(accepts := n.accepts[alpn := r.(waiters := r.waiters + [n.nextWaiter])], nextWaiter := n.nextWaiter + 1),
         Success(Later(n.nextWaiter)))
  }

  function ToldDone(answers: map<nat, AcceptNext>, waiters: set<nat>, gone: set<nat>): map<nat, AcceptNext> {
    map w | w in answers.Keys + (waiters - gone) :: if w in waiters - gone then Done else answers[w]
  }

  function CloseAccepting(n: NodeState, alpn: string): (NodeState, bool) {
    if alpn !in n.accepts then (n, false)
    else
      var r := n.accepts[alpn];
      (n.(accepts := n.accepts[alpn := ClosedAcceptor(r)],
          answers := ToldDone(n.answers, (set w | w in r.waiters), n.gone)), true)
  }

  // ---- Closing ----

  function AllWaiters(accepts: map<string, Registration<nat>>): set<nat> {
    set a, w | a in accepts && w in accepts[a].waiters :: w
  }

  /** What the other sides are told: for each session the signal that `close_for_node` gives, if any. */
  function Farewells(sessions: map<DialId, Session>, reason: Option<string>): map<DialId, WebRtcSignal> {
    map id | id in sessions && ClosedForNode(sessions[id], reason).1.Some? ::
      ClosedForNode(sessions[id], reason).1.value
  }

  function ClosedSessions(sessions: map<DialId, Session>, reason: Option<string>): map<DialId, Session> {
    map id | id in sessions :: ClosedForNode(sessions[id], reason).0
  }

  function ClosedConnections(connections: map<nat, ConnectionState>): map<nat, ConnectionState> {
    map k | k in connections :: connections[k].(closed := true)
  }

  function CloseNode(n: NodeState, reason: Option<string>): (NodeState, map<DialId, WebRtcSignal>) {
    if n.closed then (n, map[])
    else
      (n.(closed := true,
          sessions := ClosedSessions(n.sessions, reason),
          accepts := map[],
          answers := ToldDone(n.answers, AllWaiters(n.accepts), n.gone),
          connections := ClosedConnections(n.connections)),
       Farewells(n.sessions, reason))
  }
}
