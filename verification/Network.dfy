/**
  Any number of honest browser nodes exchanging bootstrap signals over a network that may lose,
  repeat, delay and reorder them (browser_runtime/node/rtc.rs, node/session.rs).
 */
module Network {
  import opened Prelude
  import opened Signaling
  import opened Session
  import Accept
  import opened Node
  import NodeRuns

  /**
    `sent` holds every signal that was ever sent; each can arrive any number of times, or never.
    Each node draws the ids of its dials with its own epoch; `dials` are the remotes it has dialed.
   */
  datatype Net = Net(
    nodes: map<EndpointId, NodeState>,
    sent: set<WebRtcSignal>,
    derive: Derivation,
    epochs: map<EndpointId, seq<Byte>>,
    dials: map<EndpointId, seq<EndpointId>>)

  /** What one node does; only some of it can send a signal. */
  datatype Action =
    | StartDial(remote: EndpointId, alpn: string, intent: TransportIntent)
    | SendHandshake(key: DialId, body: Body)
    | DecideTerminal(key: DialId, override: Option<TerminalReason>, message: string)
    | Deliver(signal: WebRtcSignal, input: Option<string>)
    | CloseTheNode(reason: Option<string>)
    | Local(op: NodeRuns.Op)

  /** Offers, answers and candidates are sent for a session that exists, by its coordinator. */
  predicate IsHandshake(b: Body) {
    b.Offer? || b.Answer? || b.Ice? || b.NoMoreCandidates?
  }

  /** The operations that neither send nor receive a signal. */
  predicate LocalOnly(op: NodeRuns.Op) {
    !op.Dial? && !op.Receive? && !op.Decide? && !op.Close?
  }

  /** The id that a node draws for a dial to `remote` after the dials it has made. */
  function IdAfter(net: Net, at: EndpointId, dials: seq<EndpointId>, remote: EndpointId): DialSessionId
    requires at in net.epochs
  {
    var generation := GenerationAfter(dials, remote);
    DialSessionId(net.derive(at, remote, net.epochs[at], generation), generation)
  }

  /** `id` is the one that a dial would draw. */
  function Act(n: NodeState, a: Action, id: DialSessionId): (NodeState, set<WebRtcSignal>) {
    match a
    case StartDial(remote, alpn, intent) =>
      var (n', r) := AllocateDial(n, remote, alpn, intent, id);
      (n', if r.Success? then {CoordinatorOf(r.value).Signal(DialRequest(alpn, intent))} else {})
    case SendHandshake(key, body) =>
      (n, if key in n.sessions && IsHandshake(body) then {CoordinatorOf(n.sessions[key]).Signal(body)} else {})
    case DecideTerminal(key, override, message) =>
      var (n', r) := EmitTerminalDecision(n, key, override, message);
      (n', if r.Success? && r.value.signal.Some? then {r.value.signal.value} else {})
    case Deliver(signal, alpn) => (HandleBootstrapSignal(n, signal, alpn).0, {})
    case CloseTheNode(reason) =>
      var (n', farewells) := CloseNode(n, reason);
      (n', farewells.Values)
    case Local(op) => (NodeRuns.Step(n, op), {})
  }

  ghost predicate Complete(net: Net) {
    net.nodes.Keys == net.epochs.Keys == net.dials.Keys
  }

  /**
    What may happen: a dial while its counter is not used up, a terminal that the program can decide
    on, the delivery of a signal that was sent.
   */
  ghost predicate Possible(net: Net, at: EndpointId, a: Action) {
    && Complete(net) && at in net.nodes
    && match a
       case StartDial(remote, _, _) => GenerationAfter(net.dials[at], remote) < U64_MAX
       case DecideTerminal(_, override, _) => override in {None, Some(Closed), Some(Cancelled)}
       case Deliver(signal, _) => signal in net.sent
       case Local(op) => LocalOnly(op)
       case _ => true
  }

  /** The node has moved, and has sent some signals. */
  function Moved(net: Net, at: EndpointId, n: NodeState, signals: set<WebRtcSignal>): Net {
    net.(nodes := net.nodes[at := n], sent := net.sent + signals)
  }

  /** A dial is counted by the generator once it is allocated. */
  predicate Draws(n: NodeState, a: Action) {
    a.StartDial? && a.alpn != "" && !n.closed
  }

  ghost function StepNet(net: Net, at: EndpointId, a: Action): Net {
    if !Possible(net, at, a) then net
    else
      var remote := if a.StartDial? then a.remote else at;
      var (n', signals) := Act(net.nodes[at], a, IdAfter(net, at, net.dials[at], remote));
      var moved := Moved(net, at, n', signals);
      if Draws(net.nodes[at], a) then moved.(dials := net.dials[at := net.dials[at] + [a.remote]]) else moved
  }

  ghost function RunNet(net: Net, steps: seq<(EndpointId, Action)>): Net
    decreases |steps|
  {
    if steps == [] then net
    else
      var (at, a) := steps[|steps| - 1];
      StepNet(RunNet(net, steps[..|steps| - 1]), at, a)
  }

  ghost predicate Initial(net: Net) {
    && net.sent == {} && Complete(net)
    && (forall e :: e in net.dials ==> net.dials[e] == [])
    && (forall e :: e in net.nodes ==> NodeRuns.Spawned(net.nodes[e]) && net.nodes[e].endpointId == e)
  }

  // ---- The invariant ----

  /** The same dial, seen from its two ends. */
  ghost predicate Mirrored(s: Session, t: Session) {
    && s.dialId == t.dialId && s.generation == t.generation && s.intent == t.intent
    && s.local == t.remote && s.remote == t.local && s.role != t.role
  }

  ghost predicate NodesGood(net: Net) {
    forall e :: e in net.nodes ==> NodeRuns.Inv(net.nodes[e]) && net.nodes[e].endpointId == e
  }

  /** The session that a dial id names at a node. */
  ghost predicate Has(net: Net, e: EndpointId, id: DialId) {
    e in net.nodes && id in net.nodes[e].sessions
  }

  ghost function At(net: Net, e: EndpointId, id: DialId): Session
    requires Has(net, e, id)
  {
    net.nodes[e].sessions[id]
  }

  /** Every accepted session is the mirror image of a session its remote dialed. */
  ghost predicate AcceptedFromDialer(net: Net) {
    forall e, id :: Has(net, e, id) && At(net, e, id).role == Acceptor ==>
      && Has(net, At(net, e, id).remote, id)
      && At(net, At(net, e, id).remote, id).role == Dialer
      && Mirrored(At(net, e, id), At(net, At(net, e, id).remote, id))
  }

  /** A dial id has one dialer. */
  ghost predicate OneDialer(net: Net) {
    forall e, f, id ::
      Has(net, e, id) && Has(net, f, id) && At(net, e, id).role == Dialer && At(net, f, id).role == Dialer ==>
        e == f
  }

  /** A signal on its way was sent for a session of its sender, and says what that session could say. */
  ghost predicate Authentic(net: Net, signal: WebRtcSignal) {
    var r := signal.route;
    && Has(net, r.sender, r.dialId)
    && var s := At(net, r.sender, r.dialId);
      && signal.route == CoordinatorOf(s).Signal(signal.body).route
      && (signal.body.DialRequest? ==> s.role == Dialer && s.intent == signal.body.transportIntent)
      && (signal.body.Terminal? && signal.body.reason == FallbackSelected ==> s.intent == WebRtcPreferred)
      && (signal.body.Terminal? && signal.body.reason == WebRtcFailed ==> s.intent == WebRtcOnly)
  }

  ghost predicate AllAuthentic(net: Net) {
    forall signal :: signal in net.sent ==> Authentic(net, signal)
  }

  ghost predicate Inv(net: Net) {
    NodesGood(net) && AcceptedFromDialer(net) && OneDialer(net) && AllAuthentic(net)
  }

  // ---- Dial ids ----

  ghost predicate Drawn(net: Net, e: EndpointId, i: nat) {
    e in net.epochs && e in net.dials && i < |net.dials[e]|
  }

  /** The id of the i-th dial of a node. */
  ghost function DrawnId(net: Net, e: EndpointId, i: nat): DialSessionId
    requires Drawn(net, e, i)
  {
    IdAfter(net, e, net.dials[e][..i], net.dials[e][i])
  }

  /** The hash does not collide on what it was asked in this run: equal ids come from equal inputs. */
  ghost predicate NoCollision(net: Net) {
    forall e, i: nat, f, j: nat ::
      Drawn(net, e, i) && Drawn(net, f, j) && DrawnId(net, e, i).dialId == DrawnId(net, f, j).dialId ==>
      e == f && net.dials[e][i] == net.dials[f][j] && DrawnId(net, e, i).generation == DrawnId(net, f, j).generation
  }

  /** Every session's id was drawn by the node that dialed it. */
  ghost predicate IdsDrawn(net: Net) {
    forall e, id :: Has(net, e, id) ==> exists f, j: nat :: Drawn(net, f, j) && DrawnId(net, f, j).dialId == id
  }

  /** A dial id that no session of the network has yet. */
  ghost predicate FreshId(net: Net, id: DialId) {
    forall e :: e in net.nodes ==> id !in net.nodes[e].sessions
  }

  /** One more dial of `at`. */
  ghost predicate DrawsOne(net: Net, net': Net, at: EndpointId, remote: EndpointId) {
    && Complete(net) && at in net.nodes
    && net'.derive == net.derive && net'.epochs == net.epochs && net'.dials == net.dials[at := net.dials[at] + [remote]]
  }

  lemma EarlierDraws(net: Net, net': Net, at: EndpointId, remote: EndpointId)
    requires DrawsOne(net, net', at, remote)
    ensures forall e, i: nat :: Drawn(net, e, i) ==>
              Drawn(net', e, i) && DrawnId(net', e, i) == DrawnId(net, e, i) && net'.dials[e][i] == net.dials[e][i]
    ensures Drawn(net', at, |net.dials[at]|)
    ensures DrawnId(net', at, |net.dials[at]|) == IdAfter(net, at, net.dials[at], remote)
  {
    forall e, i: nat | Drawn(net, e, i)
      ensures Drawn(net', e, i) && DrawnId(net', e, i) == DrawnId(net, e, i) && net'.dials[e][i] == net.dials[e][i]
    {
      assert net'.dials[e][..i] == net.dials[e][..i];
    }
    assert net'.dials[at][..|net.dials[at]|] == net.dials[at];
  }

  /** Because generations climb, the next id is new as long as the hash does not collide. */
  lemma NextIdIsFresh(net: Net, net': Net, at: EndpointId, remote: EndpointId)
    requires DrawsOne(net, net', at, remote) && IdsDrawn(net) && NoCollision(net')
    ensures FreshId(net, IdAfter(net, at, net.dials[at], remote).dialId)
  {
    var id, k := IdAfter(net, at, net.dials[at], remote).dialId, |net.dials[at]|;
    EarlierDraws(net, net', at, remote);
    forall e | e in net.nodes
      ensures id !in net.nodes[e].sessions
    {
      if Has(net, e, id) {
        var f, j: nat :| Drawn(net, f, j) && DrawnId(net, f, j).dialId == id;
        assert Drawn(net', f, j) && DrawnId(net', f, j).dialId == DrawnId(net', at, k).dialId;
        DialsAreDistinct(net'.dials[at], j, k);
        assert false;
      }
    }
  }

  /** What holds of the hash over a whole run held all along. */
  lemma NoCollisionBefore(net: Net, net': Net, at: EndpointId, remote: EndpointId)
    requires DrawsOne(net, net', at, remote) && NoCollision(net')
    ensures NoCollision(net)
  {
    EarlierDraws(net, net', at, remote);
  }

  // ---- How a step changes sessions ----

  /** What identifies a session does not change. */
  predicate SameDial(s: Session, t: Session) {
    && s.dialId == t.dialId && s.generation == t.generation && s.local == t.local && s.remote == t.remote
    && s.role == t.role && s.intent == t.intent
  }

  /** No session is added, removed or exchanged. */
  ghost predicate Quiet(n: NodeState, n': NodeState) {
    && n'.sessions.Keys == n.sessions.Keys && n'.endpointId == n.endpointId
    && forall id :: id in n.sessions ==> SameDial(n.sessions[id], n'.sessions[id])
  }

  lemma UpdateIsQuiet(n: NodeState, id: DialId, u: Node.Update)
    ensures Quiet(n, UpdateSession(n, id, u).0)
  {
  }

  lemma ClaimIsQuiet(n: NodeState, c: Incoming, pick: DialId)
    ensures Quiet(n, AcceptWebRtcConnection(n, c, pick).0)
  {
  }

  lemma ConnectionCloseIsQuiet(n: NodeState, k: nat)
    ensures Quiet(n, CloseConnection(n, k).0)
  {
  }

  lemma StoringIsQuiet(n: NodeState, k: nat, key: Option<DialId>, t: Transport)
    ensures Quiet(n, StoreConnection(n, k, key, t).0)
  {
  }

  lemma OfferIsQuiet(n: NodeState, c: Accept.AcceptedConnection)
    requires c.alpn in n.accepts
    ensures OfferToAcceptor(n, c).0.sessions == n.sessions && OfferToAcceptor(n, c).0.endpointId == n.endpointId
  {
  }

  lemma PlacingIsQuiet(n: NodeState, offered: Accept.AcceptedConnection, queueAccept: bool)
    requires queueAccept ==> offered.alpn in n.accepts
    ensures Quiet(n, Placed(n, offered, queueAccept).0)
  {
    if queueAccept {
      OfferIsQuiet(KeyDrawn(n), offered);
    }
  }

  lemma AdmissionIsQuiet(n: NodeState, c: Incoming, t: Transport, key: Option<DialId>, queueAccept: bool)
    ensures Quiet(n, AdmitConnection(n, c, t, key, queueAccept).0)
  {
    if AdmissionError(n, c, t, key, queueAccept).None? {
      NodeRuns.AdmissionSteps(n, c, t, key, queueAccept);
      var offered := Offered(n, c, t, key);
      PlacingIsQuiet(n, offered, queueAccept);
      StoringIsQuiet(Placed(n, offered, queueAccept).0, n.nextConnectionKey, key, t);
    }
  }

  lemma LocalIsQuiet(n: NodeState, op: NodeRuns.Op)
    requires LocalOnly(op)
    ensures Quiet(n, NodeRuns.Step(n, op))
  {
    match op
    case Update(id, u) => UpdateIsQuiet(n, id, u);
    case Claim(c, pick) => ClaimIsQuiet(n, c, pick);
    case CloseOne(k) => ConnectionCloseIsQuiet(n, k);
    case Admit(c, t, key, queueAccept) => AdmissionIsQuiet(n, c, t, key, queueAccept);
    case _ =>
  }

  lemma DecisionIsQuiet(n: NodeState, key: DialId, override: Option<TerminalReason>, message: string)
    ensures Quiet(n, EmitTerminalDecision(n, key, override, message).0)
  {
  }

  lemma TerminalIsQuiet(n: NodeState, r: Route, reason: TerminalReason)
    ensures Quiet(n, ApplyRemoteTerminal(n, r, reason).0)
  {
  }

  lemma ClosingIsQuiet(n: NodeState, reason: Option<string>)
    ensures Quiet(n, CloseNode(n, reason).0)
  {
  }

  lemma QuietSame(net: Net, at: EndpointId, n': NodeState, sent: set<WebRtcSignal>)
    requires at in net.nodes && Quiet(net.nodes[at], n')
    ensures var net' := net.(nodes := net.nodes[at := n'], sent := sent);
      && (forall e, id :: Has(net', e, id) <==> Has(net, e, id))
      && (forall e, id :: Has(net', e, id) ==> SameDial(At(net, e, id), At(net', e, id)))
  {
  }

  lemma QuietMirrors(net: Net, at: EndpointId, n': NodeState, sent: set<WebRtcSignal>)
    requires AcceptedFromDialer(net) && OneDialer(net) && at in net.nodes && Quiet(net.nodes[at], n')
    ensures var net' := net.(nodes := net.nodes[at := n'], sent := sent); AcceptedFromDialer(net') && OneDialer(net')
  {
    var net' := net.(nodes := net.nodes[at := n'], sent := sent);
    QuietSame(net, at, n', sent);
    forall e, id | Has(net', e, id) && At(net', e, id).role == Acceptor
      ensures Has(net', At(net', e, id).remote, id)
      ensures At(net', At(net', e, id).remote, id).role == Dialer
      ensures Mirrored(At(net', e, id), At(net', At(net', e, id).remote, id))
    {
      assert Has(net, e, id) && At(net, e, id).role == Acceptor;
      assert Has(net, At(net, e, id).remote, id);
    }
  }

  /** The network after a node has moved without gaining a session. */
  lemma QuietKeeps(net: Net, at: EndpointId, n': NodeState, signals: set<WebRtcSignal>)
    requires Inv(net) && at in net.nodes && Quiet(net.nodes[at], n') && NodeRuns.Inv(n')
    requires forall signal :: signal in signals ==> Authentic(net, signal)
    ensures Inv(Moved(net, at, n', signals))
  {
    var net' := Moved(net, at, n', signals);
    QuietMirrors(net, at, n', net.sent + signals);
    QuietSame(net, at, n', net.sent + signals);
    forall signal | signal in net'.sent
      ensures Authentic(net', signal)
    {
      assert Authentic(net, signal);
    }
  }

  // ---- New sessions ----

  /** A session is added at one node: either a dial with a fresh id, or the mirror image of one. */
  ghost predicate Added(net: Net, at: EndpointId, n': NodeState, s: Session) {
    && at in net.nodes && n'.endpointId == at && s.local == at
    && s.dialId !in net.nodes[at].sessions && n'.sessions == net.nodes[at].sessions[s.dialId := s]
    && (s.role == Dialer ==> FreshId(net, s.dialId))
    && (s.role == Acceptor ==>
          && Has(net, s.remote, s.dialId) && At(net, s.remote, s.dialId).role == Dialer
          && Mirrored(s, At(net, s.remote, s.dialId)))
  }

  /** Everything else stays as it was. */
  lemma OnlyAdded(net: Net, at: EndpointId, n': NodeState, s: Session, sent: set<WebRtcSignal>)
    requires Added(net, at, n', s)
    ensures var net' := net.(nodes := net.nodes[at := n'], sent := sent);
      && (forall e, id :: Has(net, e, id) ==> Has(net', e, id) && At(net', e, id) == At(net, e, id))
      && (forall e, id :: Has(net', e, id) && !Has(net, e, id) ==> e == at && id == s.dialId)
      && Has(net', at, s.dialId) && At(net', at, s.dialId) == s
  {
  }

  lemma AddedMirrors(net: Net, at: EndpointId, n': NodeState, s: Session, sent: set<WebRtcSignal>)
    requires AcceptedFromDialer(net) && OneDialer(net) && Added(net, at, n', s)
    ensures var net' := net.(nodes := net.nodes[at := n'], sent := sent); AcceptedFromDialer(net') && OneDialer(net')
  {
    var net' := net.(nodes := net.nodes[at := n'], sent := sent);
    OnlyAdded(net, at, n', s, sent);
    forall e, id | Has(net', e, id) && At(net', e, id).role == Acceptor
      ensures Has(net', At(net', e, id).remote, id)
      ensures At(net', At(net', e, id).remote, id).role == Dialer
      ensures Mirrored(At(net', e, id), At(net', At(net', e, id).remote, id))
    {
      if Has(net, e, id) {
        assert Has(net, At(net, e, id).remote, id);
      } else {
        assert Has(net, s.remote, s.dialId);
      }
    }
  }

  lemma AddedKeepsSignals(net: Net, at: EndpointId, n': NodeState, s: Session, signals: set<WebRtcSignal>)
    requires AllAuthentic(net) && Added(net, at, n', s)
    requires signals <= {CoordinatorOf(s).Signal(DialRequest(s.alpn, s.intent))} && (signals != {} ==> s.role == Dialer)
    ensures AllAuthentic(Moved(net, at, n', signals))
  {
    var net' := Moved(net, at, n', signals);
    OnlyAdded(net, at, n', s, net.sent + signals);
    forall signal | signal in net'.sent
      ensures Authentic(net', signal)
    {
      if signal in net.sent {
        assert Authentic(net, signal);
      } else {
        assert Has(net', at, s.dialId);
      }
    }
  }

  lemma AddedKeeps(net: Net, at: EndpointId, n': NodeState, s: Session, signals: set<WebRtcSignal>)
    requires Inv(net) && Added(net, at, n', s) && NodeRuns.Inv(n')
    requires signals <= {CoordinatorOf(s).Signal(DialRequest(s.alpn, s.intent))} && (signals != {} ==> s.role == Dialer)
    ensures Inv(Moved(net, at, n', signals))
  {
    AddedMirrors(net, at, n', s, net.sent + signals);
    AddedKeepsSignals(net, at, n', s, signals);
  }

  lemma DialAdds(net: Net, at: EndpointId, a: Action, id: DialSessionId)
    requires at in net.nodes && a.StartDial? && net.nodes[at].endpointId == at && FreshId(net, id.dialId)
    requires AllocateDial(net.nodes[at], a.remote, a.alpn, a.intent, id).1.Success?
    ensures var (n', r) := AllocateDial(net.nodes[at], a.remote, a.alpn, a.intent, id);
      && Added(net, at, n', r.value) && r.value.role == Dialer && r.value.dialId == id.dialId
      && Act(net.nodes[at], a, id) == (n', {CoordinatorOf(r.value).Signal(DialRequest(r.value.alpn, r.value.intent))})
  {
  }

  /** The ids in use afterwards were in use before, but for the one that a dial has just drawn. */
  ghost predicate KnownIds(net: Net, net': Net, drawn: Option<DialId>) {
    forall e, id :: Has(net', e, id) ==> drawn == Some(id) || exists f :: Has(net, f, id)
  }

  lemma QuietKnows(net: Net, at: EndpointId, n': NodeState, signals: set<WebRtcSignal>)
    requires at in net.nodes && Quiet(net.nodes[at], n')
    ensures KnownIds(net, Moved(net, at, n', signals), None)
  {
    QuietSame(net, at, n', net.sent + signals);
  }

  lemma AddedKnows(net: Net, at: EndpointId, n': NodeState, s: Session, signals: set<WebRtcSignal>)
    requires Added(net, at, n', s)
    ensures KnownIds(net, Moved(net, at, n', signals), if s.role == Dialer then Some(s.dialId) else None)
  {
    OnlyAdded(net, at, n', s, net.sent + signals);
  }

  lemma StartDialKeeps(net: Net, at: EndpointId, a: Action, id: DialSessionId)
    requires Inv(net) && at in net.nodes && a.StartDial? && (Draws(net.nodes[at], a) ==> FreshId(net, id.dialId))
    ensures var (n', signals) := Act(net.nodes[at], a, id);
      && Inv(Moved(net, at, n', signals))
      && KnownIds(net, Moved(net, at, n', signals), if Draws(net.nodes[at], a) then Some(id.dialId) else None)
  {
    var n := net.nodes[at];
    NodeRuns.DialKeeps(n, a.remote, a.alpn, a.intent, id);
    var (n', r) := AllocateDial(n, a.remote, a.alpn, a.intent, id);
    var signals := Act(n, a, id).1;
    if r.Success? {
      DialAdds(net, at, a, id);
      AddedKeeps(net, at, n', r.value, signals);
      AddedKnows(net, at, n', r.value, signals);
    } else {
      QuietKeeps(net, at, n', {});
      QuietKnows(net, at, n', {});
    }
  }

  /** An accepted request makes the mirror image of the session it was sent for. */
  lemma RequestAdds(net: Net, at: EndpointId, signal: WebRtcSignal, input: Option<string>)
    requires Inv(net) && at in net.nodes && signal in net.sent && signal.body.DialRequest?
    requires HandleBootstrapSignal(net.nodes[at], signal, input).1.Success?
    ensures var (n', r) := HandleBootstrapSignal(net.nodes[at], signal, input);
      Added(net, at, n', r.value) && r.value.role == Acceptor
  {
    assert Authentic(net, signal);
    var r := signal.route;
    assert NodeRuns.GoodSession(net.nodes[r.sender], r.dialId, At(net, r.sender, r.dialId));
  }

  lemma DeliverKeeps(net: Net, at: EndpointId, signal: WebRtcSignal, input: Option<string>)
    requires Inv(net) && at in net.nodes && signal in net.sent
    ensures var net' := Moved(net, at, HandleBootstrapSignal(net.nodes[at], signal, input).0, {});
      Inv(net') && KnownIds(net, net', None)
  {
    var n := net.nodes[at];
    NodeRuns.ReceiveKeeps(n, signal, input);
    var (n', result) := HandleBootstrapSignal(n, signal, input);
    if signal.body.DialRequest? && result.Success? {
      RequestAdds(net, at, signal, input);
      AddedKeeps(net, at, n', result.value, {});
      AddedKnows(net, at, n', result.value, {});
    } else {
      OtherSignalsAreQuiet(n, signal, input);
      QuietKeeps(net, at, n', {});
      QuietKnows(net, at, n', {});
    }
  }

  lemma OtherSignalsAreQuiet(n: NodeState, signal: WebRtcSignal, input: Option<string>)
    requires !signal.body.DialRequest? || HandleBootstrapSignal(n, signal, input).1.Failure?
    ensures Quiet(n, HandleBootstrapSignal(n, signal, input).0)
  {
    if signal.body.Terminal? {
      TerminalIsQuiet(n, signal.route, signal.body.reason);
    }
  }

  // ---- What is sent ----

  lemma DecisionIsAuthentic(net: Net, at: EndpointId, a: Action, id: DialSessionId)
    requires Inv(net) && at in net.nodes && a.DecideTerminal? && a.override in {None, Some(Closed), Some(Cancelled)}
    ensures forall signal :: signal in Act(net.nodes[at], a, id).1 ==> Authentic(net, signal)
  {
    var n := net.nodes[at];
    if a.key in n.sessions {
      assert Has(net, at, a.key) && NodeRuns.GoodSession(n, a.key, n.sessions[a.key]);
      IntentIsOneOfThree(n.sessions[a.key]);
    }
  }

  lemma IntentIsOneOfThree(s: Session)
    ensures s.intent == IrohRelay || s.intent == WebRtcPreferred || s.intent == WebRtcOnly
  {
  }

  lemma FarewellsAreAuthentic(net: Net, at: EndpointId, reason: Option<string>)
    requires Inv(net) && at in net.nodes
    ensures forall signal :: signal in CloseNode(net.nodes[at], reason).1.Values ==> Authentic(net, signal)
  {
    var n := net.nodes[at];
    forall signal | signal in CloseNode(n, reason).1.Values
      ensures Authentic(net, signal)
    {
      var id :| id in CloseNode(n, reason).1 && CloseNode(n, reason).1[id] == signal;
      assert Has(net, at, id) && NodeRuns.GoodSession(n, id, n.sessions[id]);
    }
  }

  /** Everything but dialing and delivering adds no session, and sends only what is authentic. */
  lemma QuietActions(net: Net, at: EndpointId, a: Action, id: DialSessionId)
    requires Inv(net) && Possible(net, at, a) && !a.StartDial? && !a.Deliver?
    ensures var (n', signals) := Act(net.nodes[at], a, id);
      && Quiet(net.nodes[at], n') && NodeRuns.Inv(n')
      && forall signal :: signal in signals ==> Authentic(net, signal)
  {
    var n := net.nodes[at];
    match a
    case SendHandshake(key, body) =>
      if key in n.sessions {
        assert Has(net, at, key) && NodeRuns.GoodSession(n, key, n.sessions[key]);
      }
    case DecideTerminal(key, override, message) =>
      NodeRuns.DecideKeeps(n, key, override, message);
      DecisionIsQuiet(n, key, override, message);
      DecisionIsAuthentic(net, at, a, id);
    case CloseTheNode(reason) =>
      NodeRuns.CloseKeepsNode(n, reason);
      ClosingIsQuiet(n, reason);
      FarewellsAreAuthentic(net, at, reason);
    case Local(op) =>
      NodeRuns.StepKeepsNode(n, op);
      LocalIsQuiet(n, op);
  }

  lemma ActKeeps(net: Net, at: EndpointId, a: Action, id: DialSessionId)
    requires Inv(net) && Possible(net, at, a) && (Draws(net.nodes[at], a) ==> FreshId(net, id.dialId))
    ensures var (n', signals) := Act(net.nodes[at], a, id);
      && Inv(Moved(net, at, n', signals))
      && KnownIds(net, Moved(net, at, n', signals), if Draws(net.nodes[at], a) then Some(id.dialId) else None)
  {
    if a.StartDial? {
      StartDialKeeps(net, at, a, id);
    } else if a.Deliver? {
      DeliverKeeps(net, at, a.signal, a.input);
    } else {
      var (n', signals) := Act(net.nodes[at], a, id);
      QuietActions(net, at, a, id);
      QuietKeeps(net, at, n', signals);
      QuietKnows(net, at, n', signals);
    }
  }

  /** Sessions and signals do not depend on what has been drawn. */
  lemma DrawingLeavesRest(net: Net, dials: map<EndpointId, seq<EndpointId>>)
    requires Inv(net)
    ensures Inv(net.(dials := dials))
  {
    var net' := net.(dials := dials);
    assert forall e, id :: Has(net', e, id) <==> Has(net, e, id);
    forall signal | signal in net'.sent
      ensures Authentic(net', signal)
    {
      assert Authentic(net, signal);
    }
    forall e, id | Has(net', e, id) && At(net', e, id).role == Acceptor
      ensures Has(net', At(net', e, id).remote, id)
      ensures At(net', At(net', e, id).remote, id).role == Dialer
      ensures Mirrored(At(net', e, id), At(net', At(net', e, id).remote, id))
    {
      assert Has(net, e, id);
      assert Has(net, At(net, e, id).remote, id);
    }
  }

  lemma StillDrawn(net: Net, net': Net)
    requires IdsDrawn(net) && KnownIds(net, net', None)
    requires net'.derive == net.derive && net'.epochs == net.epochs && net'.dials == net.dials
    ensures IdsDrawn(net')
  {
    forall e, id | Has(net', e, id)
      ensures exists f, j: nat :: Drawn(net', f, j) && DrawnId(net', f, j).dialId == id
    {
      var g :| Has(net, g, id);
      var f, j: nat :| Drawn(net, f, j) && DrawnId(net, f, j).dialId == id;
      assert Drawn(net', f, j) && DrawnId(net', f, j).dialId == id;
    }
  }

  lemma NewlyDrawn(net: Net, net': Net, at: EndpointId, remote: EndpointId)
    requires IdsDrawn(net) && DrawsOne(net, net', at, remote)
    requires KnownIds(net, net', Some(IdAfter(net, at, net.dials[at], remote).dialId))
    ensures IdsDrawn(net')
  {
    EarlierDraws(net, net', at, remote);
    forall e, id | Has(net', e, id)
      ensures exists f, j: nat :: Drawn(net', f, j) && DrawnId(net', f, j).dialId == id
    {
      if id == IdAfter(net, at, net.dials[at], remote).dialId {
        assert Drawn(net', at, |net.dials[at]|) && DrawnId(net', at, |net.dials[at]|).dialId == id;
      } else {
        var g :| Has(net, g, id);
        var f, j: nat :| Drawn(net, f, j) && DrawnId(net, f, j).dialId == id;
        assert Drawn(net', f, j) && DrawnId(net', f, j).dialId == id;
      }
    }
  }

  /** Dialing keeps everything if the hash has not collided up to and with this dial. */
  lemma DialStepKeeps(net: Net, at: EndpointId, a: Action)
    requires Inv(net) && IdsDrawn(net) && Possible(net, at, a)
    requires Draws(net.nodes[at], a) && NoCollision(StepNet(net, at, a))
    ensures Inv(StepNet(net, at, a)) && IdsDrawn(StepNet(net, at, a)) && NoCollision(net)
  {
    var net', id := StepNet(net, at, a), IdAfter(net, at, net.dials[at], a.remote);
    var (n', signals) := Act(net.nodes[at], a, id);
    NoCollisionBefore(net, net', at, a.remote);
    NextIdIsFresh(net, net', at, a.remote);
    ActKeeps(net, at, a, id);
    DrawingLeavesRest(Moved(net, at, n', signals), net'.dials);
    assert forall e, k :: Has(net', e, k) <==> Has(Moved(net, at, n', signals), e, k);
    NewlyDrawn(net, net', at, a.remote);
  }

  lemma OtherStepKeeps(net: Net, at: EndpointId, a: Action)
    requires Inv(net) && IdsDrawn(net) && Possible(net, at, a) && !Draws(net.nodes[at], a)
    ensures Inv(StepNet(net, at, a)) && IdsDrawn(StepNet(net, at, a))
    ensures NoCollision(StepNet(net, at, a)) ==> NoCollision(net)
  {
    var net' := StepNet(net, at, a);
    var id := IdAfter(net, at, net.dials[at], if a.StartDial? then a.remote else at);
    ActKeeps(net, at, a, id);
    StillDrawn(net, net');
    if NoCollision(net') {
      SameDraws(net, net');
    }
  }

  lemma SameDraws(net: Net, net': Net)
    requires net'.derive == net.derive && net'.epochs == net.epochs && net'.dials == net.dials && NoCollision(net')
    ensures NoCollision(net)
  {
    assert forall e, i: nat :: Drawn(net, e, i) ==> Drawn(net', e, i) && DrawnId(net', e, i) == DrawnId(net, e, i);
  }

  lemma StepNetKeeps(net: Net, at: EndpointId, a: Action)
    requires Inv(net) && IdsDrawn(net) && NoCollision(StepNet(net, at, a))
    ensures Inv(StepNet(net, at, a)) && IdsDrawn(StepNet(net, at, a))
  {
    if Possible(net, at, a) {
      if Draws(net.nodes[at], a) {
        DialStepKeeps(net, at, a);
      } else {
        OtherStepKeeps(net, at, a);
      }
    }
  }

  /** No collision at the end of a step means none before it. */
  lemma NoCollisionEarlier(net: Net, at: EndpointId, a: Action)
    requires NoCollision(StepNet(net, at, a))
    ensures NoCollision(net)
  {
    if Possible(net, at, a) {
      if Draws(net.nodes[at], a) {
        NoCollisionBefore(net, StepNet(net, at, a), at, a.remote);
      } else {
        SameDraws(net, StepNet(net, at, a));
      }
    }
  }

  lemma NothingDrawnYet(net: Net)
    requires Initial(net)
    ensures IdsDrawn(net)
  {
  }

  lemma StartNet(net: Net)
    requires Initial(net)
    ensures Inv(net)
  {
    forall e | e in net.nodes
      ensures NodeRuns.Inv(net.nodes[e])
    {
      NodeRuns.RunKeepsNode(net.nodes[e], []);
    }
  }

  lemma {:induction false} RunNetKeeps(net: Net, steps: seq<(EndpointId, Action)>)
    requires Initial(net) && NoCollision(RunNet(net, steps))
    ensures Inv(RunNet(net, steps)) && IdsDrawn(RunNet(net, steps))
    decreases |steps|
  {
    if steps == [] {
      StartNet(net);
      NothingDrawnYet(net);
    } else {
      var (at, a) := steps[|steps| - 1];
      NoCollisionEarlier(RunNet(net, steps[..|steps| - 1]), at, a);
      RunNetKeeps(net, steps[..|steps| - 1]);
      StepNetKeeps(RunNet(net, steps[..|steps| - 1]), at, a);
    }
  }

  // ---- What holds in every run ----

  /** Wherever both ends of a dial have a session, the two are mirror images. */
  lemma BothEndsMirrored(net: Net, steps: seq<(EndpointId, Action)>, e: EndpointId, id: DialId)
    requires Initial(net) && NoCollision(RunNet(net, steps)) && Has(RunNet(net, steps), e, id)
    requires At(RunNet(net, steps), e, id).remote != e
    requires Has(RunNet(net, steps), At(RunNet(net, steps), e, id).remote, id)
    ensures var m := RunNet(net, steps); Mirrored(At(m, e, id), At(m, At(m, e, id).remote, id))
  {
    RunNetKeeps(net, steps);
    MirroredIn(RunNet(net, steps), e, id);
  }

  lemma MirroredIn(m: Net, e: EndpointId, id: DialId)
    requires Inv(m) && Has(m, e, id) && At(m, e, id).remote != e && Has(m, At(m, e, id).remote, id)
    ensures Mirrored(At(m, e, id), At(m, At(m, e, id).remote, id))
  {
    var s := At(m, e, id);
    assert NodeRuns.GoodSession(m.nodes[e], id, s);
    if s.role == Dialer {
      var t := At(m, s.remote, id);
      if t.role == Acceptor {
        assert Has(m, t.remote, id) && At(m, t.remote, id).role == Dialer;
      }
    }
  }

  /** A signal that was sent passes the route check of any open session it is for. */
  lemma RouteCheckAccepts(net: Net, steps: seq<(EndpointId, Action)>, signal: WebRtcSignal)
    requires Initial(net) && NoCollision(RunNet(net, steps)) && signal in RunNet(net, steps).sent
    requires Has(RunNet(net, steps), signal.route.recipient, signal.route.dialId)
    ensures OnRoute(At(RunNet(net, steps), signal.route.recipient, signal.route.dialId), signal.route)
  {
    var m, r := RunNet(net, steps), signal.route;
    RunNetKeeps(net, steps);
    assert Authentic(m, signal);
    var s := At(m, r.sender, r.dialId);
    assert NodeRuns.GoodSession(m.nodes[r.sender], r.dialId, s);
    if s.remote != r.sender {
      MirroredIn(m, r.sender, r.dialId);
    }
  }

  /** The dialer is always there to receive what the acceptor of its dial sends. */
  lemma DialerIsThere(net: Net, steps: seq<(EndpointId, Action)>, e: EndpointId, id: DialId)
    requires Initial(net) && NoCollision(RunNet(net, steps))
    requires Has(RunNet(net, steps), e, id) && At(RunNet(net, steps), e, id).role == Acceptor
    ensures Has(RunNet(net, steps), At(RunNet(net, steps), e, id).remote, id)
  {
    RunNetKeeps(net, steps);
  }

  /** A fallback that arrives moves the other side to the relay as well. */
  lemma FallbackAgrees(net: Net, steps: seq<(EndpointId, Action)>, signal: WebRtcSignal, input: Option<string>)
    requires Initial(net) && NoCollision(RunNet(net, steps)) && signal in RunNet(net, steps).sent
    requires signal.body.Terminal? && signal.body.reason == FallbackSelected
    requires Has(RunNet(net, steps), signal.route.recipient, signal.route.dialId)
    requires !RunNet(net, steps).nodes[signal.route.recipient].closed
    ensures var m, r := RunNet(net, steps), signal.route;
      var (n', result) := HandleBootstrapSignal(m.nodes[r.recipient], signal, input);
      && Has(m, r.sender, r.dialId) && At(m, r.sender, r.dialId).intent == WebRtcPreferred
      && result.Success? && n'.sessions[r.dialId] == result.value
      && result.value.lifecycle == RelaySelected && result.value.resolved == Some(ViaIrohRelay)
  {
    var m, r := RunNet(net, steps), signal.route;
    RunNetKeeps(net, steps);
    RouteCheckAccepts(net, steps, signal);
    assert Authentic(m, signal);
    assert NodeRuns.GoodSession(m.nodes[r.sender], r.dialId, At(m, r.sender, r.dialId));
    if r.recipient != r.sender {
      MirroredIn(m, r.sender, r.dialId);
    }
  }

  /** A reported WebRTC failure belongs to a dial that allows nothing else. */
  lemma FailureMeansWebRtcOnly(net: Net, steps: seq<(EndpointId, Action)>, signal: WebRtcSignal)
    requires Initial(net) && NoCollision(RunNet(net, steps)) && signal in RunNet(net, steps).sent
    requires signal.body.Terminal? && signal.body.reason == WebRtcFailed
    ensures Has(RunNet(net, steps), signal.route.sender, signal.route.dialId)
    ensures At(RunNet(net, steps), signal.route.sender, signal.route.dialId).intent == WebRtcOnly
  {
    RunNetKeeps(net, steps);
    assert Authentic(RunNet(net, steps), signal);
  }

  /** A dial that requires WebRTC resolves to the relay on neither side. */
  lemma WebRtcOnlyNeverRelays(net: Net, steps: seq<(EndpointId, Action)>, e: EndpointId, id: DialId)
    requires Initial(net) && NoCollision(RunNet(net, steps))
    requires Has(RunNet(net, steps), e, id) && At(RunNet(net, steps), e, id).intent == WebRtcOnly
    ensures var m := RunNet(net, steps); var s := At(m, e, id);
      && s.resolved != Some(ViaIrohRelay) && s.lifecycle != RelaySelected
      && (s.remote != e && Has(m, s.remote, id) ==>
            At(m, s.remote, id).resolved != Some(ViaIrohRelay) && At(m, s.remote, id).lifecycle != RelaySelected)
  {
    RunNetKeeps(net, steps);
    var m := RunNet(net, steps);
    var s := At(m, e, id);
    assert NodeRuns.GoodSession(m.nodes[e], id, s);
    if s.remote != e && Has(m, s.remote, id) {
      MirroredIn(m, e, id);
      assert NodeRuns.GoodSession(m.nodes[s.remote], id, At(m, s.remote, id));
    }
  }
}
