/**
  What reaches the other end in a run of the network (browser_runtime/node/rtc.rs, node/session.rs): signals
  that were sent are not refused, a dial comes about at both ends, and so does its end.
 */
module Agreement {
  import opened Prelude
  import opened Signaling
  import opened Session
  import opened Node
  import opened Network
  import NodeRuns
  import NodeGuards

  /** A reachable state of a network whose hash has not collided. */
  ghost predicate Reached(net: Net, steps: seq<(EndpointId, Action)>, m: Net) {
    Initial(net) && m == RunNet(net, steps) && NoCollision(m)
  }

  /** The other end of a dial has its session, under the signal's id. */
  lemma PeerIsThere(m: Net, signal: WebRtcSignal)
    requires Inv(m) && Authentic(m, signal) && Has(m, signal.route.recipient, signal.route.dialId)
    ensures NodeGuards.FromPeer(m.nodes[signal.route.recipient], signal.route)
  {
    var r := signal.route;
    var s := At(m, r.sender, r.dialId);
    assert NodeRuns.GoodSession(m.nodes[r.sender], r.dialId, s);
    if s.remote != r.sender {
      MirroredIn(m, r.sender, r.dialId);
    }
  }

  /**
    No offer, answer or candidate that was sent is refused by a recipient that has the session, and no
    terminal by one that is also open; each of them does there what its kind says.
   */
  lemma SignalsAreHandled(net: Net, steps: seq<(EndpointId, Action)>, m: Net, signal: WebRtcSignal,
                          input: Option<string>)
    requires Reached(net, steps, m) && signal in m.sent && !signal.body.DialRequest?
    requires Has(m, signal.route.recipient, signal.route.dialId)
    requires signal.body.Terminal? ==> !m.nodes[signal.route.recipient].closed
    ensures var n := m.nodes[signal.route.recipient];
      var (n', r) := HandleBootstrapSignal(n, signal, input);
      r.Success? && NodeGuards.SignalDone(n, signal, input, n', r.value)
  {
    RunNetKeeps(net, steps);
    assert Authentic(m, signal);
    PeerIsThere(m, signal);
    NodeGuards.SignalMeans(m.nodes[signal.route.recipient], signal, input);
  }

  /** What an end says of its offer, answer or candidates is sent, and let through by the other end. */
  lemma HandshakeReachesPeer(net: Net, steps: seq<(EndpointId, Action)>, m: Net, at: EndpointId, id: DialId,
                             body: Body, input: Option<string>)
    requires Reached(net, steps, m) && Network.Complete(m) && Has(m, at, id) && IsHandshake(body)
    requires var remote := At(m, at, id).remote; remote != at && Has(m, remote, id)
    ensures var s := At(m, at, id);
      var signal := WebRtcSignal(Route(id, at, s.remote, s.generation), body);
      var m1 := StepNet(m, at, SendHandshake(id, body));
      && m1.nodes == m.nodes && m1.sent == m.sent + {signal}
      && HandleBootstrapSignal(m1.nodes[s.remote], signal, input)
         == (m1.nodes[s.remote], Success(At(m, s.remote, id)))
  {
    RunNetKeeps(net, steps);
    OtherEnd(m, at, id);
    var s := At(m, at, id);
    HandshakeIsSent(m, at, id, body);
    PeerLetsThrough(m.nodes[s.remote], WebRtcSignal(Route(id, at, s.remote, s.generation), body), input);
  }

  lemma HandshakeIsSent(m: Net, at: EndpointId, id: DialId, body: Body)
    requires Network.Complete(m) && Has(m, at, id) && IsHandshake(body)
    ensures var m1 := StepNet(m, at, SendHandshake(id, body));
      m1.nodes == m.nodes && m1.sent == m.sent + {CoordinatorOf(At(m, at, id)).Signal(body)}
  {
    assert m.nodes[at := m.nodes[at]] == m.nodes;
  }

  lemma PeerLetsThrough(n: NodeState, signal: WebRtcSignal, input: Option<string>)
    requires NodeRuns.SessionsGood(n) && NodeGuards.FromPeer(n, signal.route) && IsHandshake(signal.body)
    ensures HandleBootstrapSignal(n, signal, input) == (n, Success(n.sessions[signal.route.dialId]))
  {
    NodeGuards.SignalMeans(n, signal, input);
  }

  /** A request that was sent makes the mirror image of the dialer's session, if its protocol is served. */
  lemma RequestsAreHandled(net: Net, steps: seq<(EndpointId, Action)>, m: Net, signal: WebRtcSignal,
                           input: Option<string>)
    requires Reached(net, steps, m) && signal in m.sent && signal.body.DialRequest?
    requires signal.route.recipient in m.nodes && !m.nodes[signal.route.recipient].closed
    requires NodeGuards.Served(m.nodes[signal.route.recipient], NodeGuards.Wanted(signal.body.alpn, input))
    requires signal.route.dialId !in m.nodes[signal.route.recipient].sessions
    ensures var n, r := m.nodes[signal.route.recipient], signal.route;
      var (n', result) := HandleBootstrapSignal(n, signal, input);
      && result.Success? && NodeGuards.SignalDone(n, signal, input, n', result.value)
      && Has(m, r.sender, r.dialId) && Mirrored(result.value, At(m, r.sender, r.dialId))
  {
    RunNetKeeps(net, steps);
    assert Authentic(m, signal);
    var n, r := m.nodes[signal.route.recipient], signal.route;
    assert NodeRuns.GoodSession(m.nodes[r.sender], r.dialId, At(m, r.sender, r.dialId));
    NodeGuards.SignalMeans(n, signal, input);
    NodeGuards.RequestMeans(n, signal, input);
  }

  // ---- A dial comes about at both ends ----

  /** The request that a dial sends. */
  ghost function RequestOf(m: Net, at: EndpointId, a: Action): WebRtcSignal
    requires a.StartDial? && Network.Complete(m) && at in m.nodes
  {
    var id := IdAfter(m, at, m.dials[at], a.remote);
    WebRtcSignal(Route(id.dialId, at, a.remote, id.generation), DialRequest(a.alpn, a.intent))
  }

  /** Two ends of a dial that has just begun: each the mirror image of the other, both waiting or both on the relay. */
  ghost predicate BothBegin(m: Net, at: EndpointId, remote: EndpointId, id: DialId, alpn: string,
                            intent: TransportIntent) {
    && Has(m, at, id) && Has(m, remote, id)
    && NodeGuards.IsNew(m.nodes[at], At(m, at, id), Dialer, alpn, intent)
    && NodeGuards.IsNew(m.nodes[remote], At(m, remote, id), Acceptor, alpn, intent)
    && Mirrored(At(m, at, id), At(m, remote, id))
  }

  lemma DialIsSent(m: Net, at: EndpointId, a: Action)
    requires a.StartDial? && Possible(m, at, a) && Draws(m.nodes[at], a) && m.nodes[at].endpointId == at
    ensures var m1, id := StepNet(m, at, a), IdAfter(m, at, m.dials[at], a.remote);
      && RequestOf(m, at, a) in m1.sent && Network.Complete(m1) && m1.nodes.Keys == m.nodes.Keys
      && (forall e :: e in m.nodes && e != at ==> m1.nodes[e] == m.nodes[e])
      && Has(m1, at, id.dialId) && NodeGuards.IsNew(m1.nodes[at], At(m1, at, id.dialId), Dialer, a.alpn, a.intent)
      && CoordinatorOf(At(m1, at, id.dialId)) == DialCoordinator(at, a.remote, id.dialId, id.generation)
  {
    NodeGuards.DialMeans(m.nodes[at], a.remote, a.alpn, a.intent, IdAfter(m, at, m.dials[at], a.remote));
  }

  lemma RequestArrives(m1: Net, at: EndpointId, remote: EndpointId, signal: WebRtcSignal)
    requires Network.Complete(m1) && signal in m1.sent && signal.body.DialRequest? && remote != at
    requires signal.route.sender == at && signal.route.recipient == remote && remote in m1.nodes
    requires NodeGuards.LetThrough(m1.nodes[remote], signal, None) && m1.nodes[remote].endpointId == remote
    requires Has(m1, at, signal.route.dialId)
    requires CoordinatorOf(At(m1, at, signal.route.dialId)).Signal(signal.body) == signal
    requires NodeGuards.IsNew(m1.nodes[at], At(m1, at, signal.route.dialId), Dialer, signal.body.alpn,
                              signal.body.transportIntent)
    ensures BothBegin(StepNet(m1, remote, Deliver(signal, None)), at, remote, signal.route.dialId, signal.body.alpn,
                      signal.body.transportIntent)
  {
    NodeGuards.RequestMeans(m1.nodes[remote], signal, None);
  }

  /** A dial to an open node that serves the protocol: once its request has arrived, both ends have begun. */
  lemma DialReachesBoth(net: Net, steps: seq<(EndpointId, Action)>, m: Net, at: EndpointId, a: Action)
    requires Initial(net) && m == RunNet(net, steps) && a.StartDial? && Possible(m, at, a)
    requires NoCollision(StepNet(m, at, a))
    requires a.alpn != "" && !m.nodes[at].closed && a.remote != at
    requires a.remote in m.nodes && !m.nodes[a.remote].closed && NodeGuards.Served(m.nodes[a.remote], a.alpn)
    ensures var signal := RequestOf(m, at, a);
      var m2 := StepNet(StepNet(m, at, a), a.remote, Deliver(signal, None));
      signal in StepNet(m, at, a).sent && BothBegin(m2, at, a.remote, signal.route.dialId, a.alpn, a.intent)
  {
    var m1 := StepNet(m, at, a);
    NoCollisionEarlier(m, at, a);
    RunNetKeeps(net, steps);
    NextIdIsFresh(m, m1, at, a.remote);
    DialIsSent(m, at, a);
    RequestArrives(m1, at, a.remote, RequestOf(m, at, a));
  }

  // ---- The end of a dial reaches both ----

  /** Both ends of the dial have ended for the same reason. */
  ghost predicate BothTerminated(m: Net, e: EndpointId, f: EndpointId, id: DialId, reason: TerminalReason) {
    && Has(m, e, id) && HasTerminated(At(m, e, id), reason)
    && Has(m, f, id) && HasTerminated(At(m, f, id), reason)
    && At(m, e, id).intent == At(m, f, id).intent
  }

  /** What a decision of `at` says to the other end. */
  ghost function DecisionSignal(m: Net, at: EndpointId, id: DialId, reason: TerminalReason,
                                message: string): WebRtcSignal
    requires Has(m, at, id)
  {
    WebRtcSignal(Route(id, at, At(m, at, id).remote, At(m, at, id).generation), Terminal(reason, Some(message)))
  }

  /** Left to itself a dial falls back if it may, and fails otherwise. */
  function ReasonFor(intent: TransportIntent, override: Option<TerminalReason>): TerminalReason {
    match override
    case Some(reason) => reason
    case None => if intent == WebRtcPreferred then FallbackSelected else WebRtcFailed
  }

  /** `at` has ended its session and has sent the signal that says so. */
  ghost predicate Told(m: Net, m1: Net, at: EndpointId, id: DialId, signal: WebRtcSignal)
    requires Has(m, at, id)
  {
    && m1.nodes.Keys == m.nodes.Keys && (forall e :: e in m.nodes && e != at ==> m1.nodes[e] == m.nodes[e])
    && Network.Complete(m1) && Has(m1, at, id) && SameDial(At(m, at, id), At(m1, at, id))
    && signal in m1.sent && signal.body.Terminal? && HasTerminated(At(m1, at, id), signal.body.reason)
  }

  lemma MovedTells(m: Net, at: EndpointId, n': NodeState, signals: set<WebRtcSignal>, id: DialId, signal: WebRtcSignal)
    requires Network.Complete(m) && Has(m, at, id) && Quiet(m.nodes[at], n') && signal in signals
    requires signal.body.Terminal? && HasTerminated(n'.sessions[id], signal.body.reason)
    ensures Told(m, Moved(m, at, n', signals), at, id, signal)
  {
  }

  lemma DecisionTells(m: Net, at: EndpointId, id: DialId, override: Option<TerminalReason>, message: string)
    requires Possible(m, at, DecideTerminal(id, override, message)) && Has(m, at, id)
    requires NodeRuns.SessionsGood(m.nodes[at]) && m.nodes[at].endpointId == at
    requires !m.nodes[at].closed && At(m, at, id).intent != IrohRelay
    ensures var signal := DecisionSignal(m, at, id, ReasonFor(At(m, at, id).intent, override), message);
      var m1 := StepNet(m, at, DecideTerminal(id, override, message));
      m1.sent == m.sent + {signal} && Told(m, m1, at, id, signal)
  {
    var (n', r) := EmitTerminalDecision(m.nodes[at], id, override, message);
    var signal := DecisionSignal(m, at, id, ReasonFor(At(m, at, id).intent, override), message);
    NodeGuards.DecisionMeans(m.nodes[at], id, override, message);
    DecisionIsQuiet(m.nodes[at], id, override, message);
    assert r.value.signal == Some(signal);
    assert StepNet(m, at, DecideTerminal(id, override, message)) == Moved(m, at, n', {signal});
  }

  /** A decision on an open node is sent, with the reason that was decided, and nothing else is. */
  lemma DecisionIsSent(net: Net, steps: seq<(EndpointId, Action)>, m: Net, at: EndpointId, id: DialId,
                       override: Option<TerminalReason>, message: string)
    requires Reached(net, steps, m) && Possible(m, at, DecideTerminal(id, override, message))
    requires !m.nodes[at].closed && Has(m, at, id) && At(m, at, id).intent != IrohRelay
    ensures var signal := DecisionSignal(m, at, id, ReasonFor(At(m, at, id).intent, override), message);
      var m1 := StepNet(m, at, DecideTerminal(id, override, message));
      m1.sent == m.sent + {signal} && Told(m, m1, at, id, signal)
  {
    RunNetKeeps(net, steps);
    DecisionTells(m, at, id, override, message);
  }

  /** A terminal that has arrived, at a node other than its sender. */
  lemma TerminalArrives(m1: Net, e: EndpointId, f: EndpointId, signal: WebRtcSignal, input: Option<string>)
    requires Network.Complete(m1) && signal in m1.sent && signal.body.Terminal? && f != e
    requires Has(m1, e, signal.route.dialId) && f in m1.nodes && NodeRuns.SessionsGood(m1.nodes[f])
    requires HasTerminated(At(m1, e, signal.route.dialId), signal.body.reason)
    requires !m1.nodes[f].closed && NodeGuards.FromPeer(m1.nodes[f], signal.route)
    requires At(m1, e, signal.route.dialId).intent == At(m1, f, signal.route.dialId).intent
    ensures BothTerminated(StepNet(m1, f, Deliver(signal, input)), e, f, signal.route.dialId, signal.body.reason)
  {
    NodeGuards.SignalMeans(m1.nodes[f], signal, input);
    TerminalIsQuiet(m1.nodes[f], signal.route, signal.body.reason);
    assert StepNet(m1, f, Deliver(signal, input))
        == Moved(m1, f, HandleBootstrapSignal(m1.nodes[f], signal, input).0, {});
  }

  /** The other end of a dial, if it has its session, is this end's mirror image. */
  lemma OtherEnd(m: Net, at: EndpointId, id: DialId)
    requires Inv(m) && Has(m, at, id) && At(m, at, id).remote != at && Has(m, At(m, at, id).remote, id)
    ensures var s := At(m, at, id);
      && Mirrored(s, At(m, s.remote, id)) && m.nodes[s.remote].endpointId == s.remote
      && NodeRuns.SessionsGood(m.nodes[s.remote]) && s.local == at && s.dialId == id
  {
    MirroredIn(m, at, id);
    assert NodeRuns.GoodSession(m.nodes[at], id, At(m, at, id));
  }

  /** What one end has been told of reaches the other. */
  lemma EndReachesPeer(m: Net, m1: Net, at: EndpointId, id: DialId, signal: WebRtcSignal, input: Option<string>)
    requires Inv(m) && Has(m, at, id) && Told(m, m1, at, id, signal)
    requires CoordinatorOf(At(m, at, id)).Signal(signal.body) == signal
    requires var remote := At(m, at, id).remote; remote != at && Has(m, remote, id) && !m.nodes[remote].closed
    ensures var remote := At(m, at, id).remote;
      BothTerminated(StepNet(m1, remote, Deliver(signal, input)), at, remote, id, signal.body.reason)
  {
    OtherEnd(m, at, id);
    TerminalArrives(m1, at, At(m, at, id).remote, signal, input);
  }

  /**
    Whatever one end decides, once its signal has arrived both ends have ended for that reason: both on the relay,
    both failed, or both over. This holds in every state the two ends may be in.
   */
  lemma DecisionReachesBoth(net: Net, steps: seq<(EndpointId, Action)>, m: Net, at: EndpointId, id: DialId,
                            override: Option<TerminalReason>, message: string, input: Option<string>)
    requires Reached(net, steps, m) && Possible(m, at, DecideTerminal(id, override, message))
    requires !m.nodes[at].closed && Has(m, at, id) && At(m, at, id).intent != IrohRelay
    requires var remote := At(m, at, id).remote; remote != at && Has(m, remote, id) && !m.nodes[remote].closed
    ensures var reason, remote := ReasonFor(At(m, at, id).intent, override), At(m, at, id).remote;
      var m1 := StepNet(m, at, DecideTerminal(id, override, message));
      var m2 := StepNet(m1, remote, Deliver(DecisionSignal(m, at, id, reason, message), input));
      BothTerminated(m2, at, remote, id, reason)
  {
    var signal := DecisionSignal(m, at, id, ReasonFor(At(m, at, id).intent, override), message);
    DecisionIsSent(net, steps, m, at, id, override, message);
    RunNetKeeps(net, steps);
    OtherEnd(m, at, id);
    EndReachesPeer(m, StepNet(m, at, DecideTerminal(id, override, message)), at, id, signal, input);
  }

  /** What closing says to the other end of a session. */
  ghost function FarewellSignal(m: Net, at: EndpointId, id: DialId, reason: Option<string>): WebRtcSignal
    requires Has(m, at, id)
  {
    WebRtcSignal(Route(id, at, At(m, at, id).remote, At(m, at, id).generation), Terminal(Closed, reason))
  }

  lemma ClosingMoves(m: Net, at: EndpointId, reason: Option<string>)
    requires Possible(m, at, CloseTheNode(reason))
    ensures var (n', farewells) := CloseNode(m.nodes[at], reason);
      StepNet(m, at, CloseTheNode(reason)) == Moved(m, at, n', farewells.Values)
  {
  }

  lemma FarewellIsSent(m: Net, at: EndpointId, id: DialId, reason: Option<string>)
    requires Possible(m, at, CloseTheNode(reason)) && NodeRuns.Inv(m.nodes[at]) && m.nodes[at].endpointId == at
    requires !m.nodes[at].closed && Has(m, at, id)
    requires At(m, at, id).intent != IrohRelay && At(m, at, id).terminalSent.None?
    ensures Told(m, StepNet(m, at, CloseTheNode(reason)), at, id, FarewellSignal(m, at, id, reason))
  {
    var (n', farewells) := CloseNode(m.nodes[at], reason);
    NodeGuards.ClosingMeans(m.nodes[at], id, reason);
    ClosingIsQuiet(m.nodes[at], reason);
    assert farewells[id] in farewells.Values;
    MovedTells(m, at, n', farewells.Values, id, FarewellSignal(m, at, id, reason));
    ClosingMoves(m, at, reason);
  }

  /** A node that closes ends, at every other end that its farewell reaches, the session there as well. */
  lemma ClosingReachesPeer(net: Net, steps: seq<(EndpointId, Action)>, m: Net, at: EndpointId, id: DialId,
                           reason: Option<string>, input: Option<string>)
    requires Reached(net, steps, m) && Possible(m, at, CloseTheNode(reason))
    requires !m.nodes[at].closed && Has(m, at, id)
    requires At(m, at, id).intent != IrohRelay && At(m, at, id).terminalSent.None?
    requires var remote := At(m, at, id).remote; remote != at && Has(m, remote, id) && !m.nodes[remote].closed
    ensures var signal, remote := FarewellSignal(m, at, id, reason), At(m, at, id).remote;
      var m1 := StepNet(m, at, CloseTheNode(reason));
      signal in m1.sent && BothTerminated(StepNet(m1, remote, Deliver(signal, input)), at, remote, id, Closed)
  {
    RunNetKeeps(net, steps);
    FarewellIsSent(m, at, id, reason);
    OtherEnd(m, at, id);
    EndReachesPeer(m, StepNet(m, at, CloseTheNode(reason)), at, id, FarewellSignal(m, at, id, reason), input);
  }
}
