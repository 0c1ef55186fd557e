/** Runs of real nodes in which the two negative results happen (browser_runtime/node/core.rs, session_state.rs). */
module NodeExamples {
  import opened Prelude
  import opened Addr
  import opened Signaling
  import opened Session
  import Accept
  import opened Node
  import opened NodeRuns

  /** What happens to a node with one free place: a relay connection takes it, and a WebRTC session is set up. */
  function FillAndConnect(alpn: string, remote: EndpointId, id: DialId, node: EndpointId): seq<Op> {
    [Op.Admit(Incoming(remote, alpn, None), ViaIrohRelay, None, true),
     Receive(WebRtcSignal(Route(id, remote, node, 0), DialRequest(alpn, WebRtcPreferred)), None),
     Update(id, AttachChannel),
     Update(id, MarkChannelOpen)]
  }

  /** The connection that then comes in for the session, over a path that leads to it. */
  function ConnectionFor(remote: EndpointId, alpn: string, id: DialId): Incoming {
    Incoming(remote, alpn, Some(WebRtcAddr(remote, WebRtcAddrKind.Session(id))))
  }

  /**
    The failure happens in a run of any new node whose queue has one
    place: the session is spent without a connection.
   */
  lemma ClaimWithoutConnectionHappens(n: NodeState, alpn: string, remote: EndpointId, id: DialId)
    requires Spawned(n) && alpn != "" && alpn in n.accepts && n.accepts[alpn].capacity == 1
    ensures var m := Run(n, FillAndConnect(alpn, remote, id, n.endpointId));
      var (m', r) := FacadeAccept(m, ConnectionFor(remote, alpn, id), id);
      r.Failure? && id in m'.sessions && m'.sessions[id].resolved == Some(ViaWebRtc) && m'.connections == m.connections
  {
    var ops := FillAndConnect(alpn, remote, id, n.endpointId);
    RunOfFour(n, ops[0], ops[1], ops[2], ops[3]);
    QueueFilled(n, alpn, remote);
    SessionSetUp(Step(n, ops[0]), alpn, remote, id);
    RunKeepsNode(n, ops);
    ClaimFails(Run(n, ops), ConnectionFor(remote, alpn, id), id);
  }

  /** Without a place the claim stays and the admission fails. */
  lemma ClaimFails(m: NodeState, c: Incoming, id: DialId)
    requires Inv(m) && CanClaim(m, c, id) && NoPlace(m, c.alpn)
    ensures var (m', r) := FacadeAccept(m, c, id);
      r.Failure? && id in m'.sessions && m'.sessions[id].resolved == Some(ViaWebRtc) && m'.connections == m.connections
  {
    ClaimsIff(m, c, id);
    ClaimLeavesAccepts(m, c, id);
    ClaimKeeps(m, c, id);
    AdmissionAfterClaim(m, c, id);
    AdmissionIsAtomic(AcceptWebRtcConnection(m, c, id).0, c, ViaWebRtc, Some(id), true);
  }

  lemma OneMore(n: NodeState, ops: seq<Op>, op: Op)
    ensures Run(n, ops + [op]) == Step(Run(n, ops), op)
  {
    assert (ops + [op])[..|ops|] == ops;
  }

  lemma RunOfOne(n: NodeState, a: Op)
    ensures Run(n, [a]) == Step(n, a)
  {
    OneMore(n, [], a);
    assert [] + [a] == [a];
  }

  lemma RunOfTwo(n: NodeState, a: Op, b: Op)
    ensures Run(n, [a, b]) == Step(Step(n, a), b)
  {
    RunOfOne(n, a);
    OneMore(n, [a], b);
    assert [a] + [b] == [a, b];
  }

  lemma RunOfThree(n: NodeState, a: Op, b: Op, c: Op)
    ensures Run(n, [a, b, c]) == Step(Step(Step(n, a), b), c)
  {
    RunOfTwo(n, a, b);
    OneMore(n, [a, b], c);
    assert [a, b] + [c] == [a, b, c];
  }

  lemma RunOfFour(n: NodeState, a: Op, b: Op, c: Op, d: Op)
    ensures Run(n, [a, b, c, d]) == Step(Step(Step(Step(n, a), b), c), d)
  {
    RunOfThree(n, a, b, c);
    OneMore(n, [a, b, c], d);
    assert [a, b, c] + [d] == [a, b, c, d];
  }

  lemma QueueFilled(n: NodeState, alpn: string, remote: EndpointId)
    requires Spawned(n) && alpn in n.accepts && n.accepts[alpn].capacity == 1
    ensures var n1 := Step(n, Op.Admit(Incoming(remote, alpn, None), ViaIrohRelay, None, true));
      && NoPlace(n1, alpn) && alpn in n1.accepts && n1.sessions == map[] && !n1.closed && n1.endpointId == n.endpointId
  {
  }

  lemma SessionSetUp(n: NodeState, alpn: string, remote: EndpointId, id: DialId)
    requires !n.closed && alpn != "" && alpn in n.accepts && n.sessions == map[]
    ensures var signal := WebRtcSignal(Route(id, remote, n.endpointId, 0), DialRequest(alpn, WebRtcPreferred));
      var m := Step(Step(Step(n, Receive(signal, None)), Update(id, AttachChannel)), Update(id, MarkChannelOpen));
      && CanClaim(m, Incoming(remote, alpn, Some(WebRtcAddr(remote, WebRtcAddrKind.Session(id)))), id)
      && m.accepts == n.accepts
  {
  }

  /** A new node with one protocol and one place in its queue. */
  const SMALL_NODE: NodeState := NodeState(
    seq(32, _ => 0), {}, map[], map[], map["chat" := Accept.Registration(1, "chat", 1, false, [], [])],
    1, 0, {}, map[], {ToCustomAddr(WebRtcAddr(seq(32, _ => 0), WebRtcAddrKind.Capability))}, false, [], [])

  /** The same at one concrete node, remote and dial. */
  lemma ClaimWithoutConnectionExample()
    ensures Spawned(SMALL_NODE)
    ensures var remote, id := seq(32, _ => 1), seq(16, _ => 2);
      var m := Run(SMALL_NODE, FillAndConnect("chat", remote, id, SMALL_NODE.endpointId));
      var (m', r) := FacadeAccept(m, ConnectionFor(remote, "chat", id), id);
      r.Failure? && id in m'.sessions && m'.sessions[id].resolved == Some(ViaWebRtc)
  {
    ClaimWithoutConnectionHappens(SMALL_NODE, "chat", seq(32, _ => 1), seq(16, _ => 2));
  }

  // ---- A closed session comes back ----

  /** A session is closed by this node and then completed over the relay. */
  function CloseAndComplete(remote: EndpointId, alpn: string, intent: TransportIntent, id: DialSessionId): seq<Op> {
    [Dial(remote, alpn, intent, id),
     Decide(id.dialId, Some(TerminalReason.Closed), "closed"),
     Update(id.dialId, Complete(ViaIrohRelay))]
  }

  /**
    A dial falls back; while its relay connection is awaited the other side reports that it has
    closed; then the relay connection is there and completes the dial.
   */
  function FallBackAndComplete(node: EndpointId, remote: EndpointId, alpn: string, id: DialSessionId): seq<Op> {
    [Dial(remote, alpn, WebRtcPreferred, id),
     Decide(id.dialId, None, "no data channel"),
     Receive(WebRtcSignal(Route(id.dialId, remote, node, id.generation), Terminal(TerminalReason.Closed, None)), None),
     Update(id.dialId, Complete(ViaIrohRelay))]
  }

  /** The node is open and has a closed session that it dialed. */
  predicate HasClosedDial(m: NodeState, id: DialId, intent: TransportIntent) {
    && !m.closed && id in m.sessions && m.sessions[id].lifecycle == SessionOver
    && m.sessions[id].role == Dialer && m.sessions[id].intent == intent
  }

  predicate HasReadySession(m: NodeState, id: DialId) {
    id in m.sessions && m.sessions[id].lifecycle == ApplicationReady
  }

  lemma DialedAndClosed(n: NodeState, remote: EndpointId, alpn: string, intent: TransportIntent, id: DialSessionId)
    requires !n.closed && alpn != ""
    ensures var ops := CloseAndComplete(remote, alpn, intent, id);
      HasClosedDial(Step(Step(n, ops[0]), ops[1]), id.dialId, intent)
  {
  }

  lemma FellBackAndClosed(n: NodeState, remote: EndpointId, alpn: string, id: DialSessionId)
    requires !n.closed && alpn != ""
    ensures var ops := FallBackAndComplete(n.endpointId, remote, alpn, id);
      HasClosedDial(Step(Step(Step(n, ops[0]), ops[1]), ops[2]), id.dialId, WebRtcPreferred)
  {
  }

  lemma ClosedThenCompleted(m: NodeState, id: DialId, intent: TransportIntent)
    requires HasClosedDial(m, id, intent)
    ensures HasReadySession(Step(m, Update(id, Complete(ViaIrohRelay))), id) <==> intent != WebRtcOnly
  {
  }

  /** In a run of any new node a closed session becomes ready, unless its dial requires WebRTC. */
  lemma ClosedSessionComesBack(n: NodeState, remote: EndpointId, alpn: string, intent: TransportIntent,
                               id: DialSessionId)
    requires Spawned(n) && alpn != ""
    ensures var ops := CloseAndComplete(remote, alpn, intent, id);
      && HasClosedDial(Run(n, ops[..2]), id.dialId, intent)
      && (HasReadySession(Run(n, ops), id.dialId) <==> intent != WebRtcOnly)
  {
    var ops := CloseAndComplete(remote, alpn, intent, id);
    assert ops[..2] == [ops[0], ops[1]] && ops == [ops[0], ops[1], ops[2]];
    RunOfTwo(n, ops[0], ops[1]);
    RunOfThree(n, ops[0], ops[1], ops[2]);
    DialedAndClosed(n, remote, alpn, intent, id);
    ClosedThenCompleted(Run(n, ops[..2]), id.dialId, intent);
  }

  /**
    The dial flow itself makes such a run: a close that arrives during the
    fallback does not keep the dial from completing.
   */
  lemma ClosedDuringFallback(n: NodeState, remote: EndpointId, alpn: string, id: DialSessionId)
    requires Spawned(n) && alpn != ""
    ensures var ops := FallBackAndComplete(n.endpointId, remote, alpn, id);
      && HasClosedDial(Run(n, ops[..3]), id.dialId, WebRtcPreferred)
      && HasReadySession(Run(n, ops), id.dialId)
  {
    var ops := FallBackAndComplete(n.endpointId, remote, alpn, id);
    assert ops[..3] == [ops[0], ops[1], ops[2]] && ops == [ops[0], ops[1], ops[2], ops[3]];
    RunOfThree(n, ops[0], ops[1], ops[2]);
    RunOfFour(n, ops[0], ops[1], ops[2], ops[3]);
    FellBackAndClosed(n, remote, alpn, id);
    ClosedThenCompleted(Run(n, ops[..3]), id.dialId, WebRtcPreferred);
  }

  /** The same at one concrete node, remote and dial. */
  lemma ClosedSessionExample()
    ensures var remote, id := seq(32, _ => 1), DialSessionId(seq(16, _ => 2), 0);
      var ops := FallBackAndComplete(SMALL_NODE.endpointId, remote, "chat", id);
      && HasClosedDial(Run(SMALL_NODE, ops[..3]), id.dialId, WebRtcPreferred)
      && HasReadySession(Run(SMALL_NODE, ops), id.dialId)
  {
    ClosedDuringFallback(SMALL_NODE, seq(32, _ => 1), "chat", DialSessionId(seq(16, _ => 2), 0));
  }
}
