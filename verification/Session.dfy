/** One browser session and its transitions (browser_runtime/node/session_state.rs, node.rs, direct/dial.rs). */
module Session {
  import opened Prelude
  import opened Signaling

  datatype ErrorCode = NodeClosed | WebRtcFailure | DataChannelFailure | UnsupportedAlpn | BootstrapFailure

  datatype Transport = ViaWebRtc | ViaIrohRelay

  datatype Role = Dialer | Acceptor

  datatype Channel = NotRequired | AwaitingTransfer | Transferred | Open | ChannelFailed | ChannelClosed

  datatype Lifecycle = Allocated | WebRtcNegotiating | RelaySelected | ApplicationReady | SessionFailed | SessionOver

  datatype Session = Session(
    dialId: DialId,
    generation: nat,
    local: EndpointId,
    remote: EndpointId,
    alpn: string,
    role: Role,
    intent: TransportIntent,
    resolved: Option<Transport>,
    channel: Channel,
    lifecycle: Lifecycle,
    terminalSent: Option<TerminalReason>,
    terminalReceived: Option<TerminalReason>)

  // ---- The transitions ----

  function NewSession(id: DialId, generation: nat, local: EndpointId, remote: EndpointId, alpn: string,
                      role: Role, intent: TransportIntent): Session {
    Session(id, generation, local, remote, alpn, role, intent, None,
            if intent.UsesWebRtc() then AwaitingTransfer else NotRequired,
            if intent.UsesWebRtc() then WebRtcNegotiating else RelaySelected,
            None, None)
  }

  function Attached(s: Session): Result<Session, ErrorCode> {
    if s.channel != AwaitingTransfer then Failure(DataChannelFailure) else Success(s.(channel := Transferred))
  }

  function Opened(s: Session): Result<Session, ErrorCode> {
    if s.channel != Transferred then Failure(DataChannelFailure) else Success(s.(channel := Open))
  }

  function Failed(s: Session): Session {
    s.(channel := if s.channel == NotRequired then NotRequired else ChannelFailed, lifecycle := SessionFailed)
  }

  function Ended(s: Session): Session {
    s.(channel := if s.channel == NotRequired then NotRequired else ChannelClosed, lifecycle := SessionOver)
  }

  /** Why a session may not be resolved to a transport, if it may not. */
  function ResolutionError(s: Session, t: Transport): Option<ErrorCode> {
    if t == ViaWebRtc && s.intent == IrohRelay then Some(WebRtcFailure)
    else if t == ViaIrohRelay && s.intent == WebRtcOnly then Some(WebRtcFailure)
    else if t == ViaWebRtc && s.channel != Open then Some(DataChannelFailure)
    else None
  }

  function Resolved(s: Session, t: Transport): Result<Session, ErrorCode> {
    var error := ResolutionError(s, t);
    if error.Some? then Failure(error.value)
    else Success(s.(resolved := Some(t), lifecycle := ApplicationReady))
  }

  function DialCompleted(s: Session, t: Transport): Result<Session, ErrorCode> {
    if s.role != Dialer then Failure(WebRtcFailure) else Resolved(s, t)
  }

  /** What a terminal reason means for the session; on a fallback, also the transport it falls back to. */
  function Terminated(s: Session, reason: TerminalReason): (Session, Option<Transport>) {
    match reason
    case FallbackSelected =>
      if s.intent.AllowsIrohRelayFallback() then
        (s.(resolved := Some(ViaIrohRelay), lifecycle := RelaySelected, channel := ChannelFailed), Some(ViaIrohRelay))
      else (Failed(s), None)
    case WebRtcFailed => (Failed(s), None)
    case Cancelled => (Ended(s), None)
    case Closed => (Ended(s), None)
  }

  function TerminalWasReceived(s: Session, reason: TerminalReason): Session {
    Terminated(s.(terminalReceived := Some(reason)), reason).0
  }

  function TerminalWasSent(s: Session, reason: TerminalReason): (Session, Option<Transport>) {
    Terminated(s.(terminalSent := Some(reason)), reason)
  }

  /** The session's own end of its dial. */
  function CoordinatorOf(s: Session): DialCoordinator {
    DialCoordinator(s.local, s.remote, s.dialId, s.generation)
  }

  function TerminalSignal(s: Session, reason: TerminalReason, message: Option<string>): WebRtcSignal {
    CoordinatorOf(s).Signal(Terminal(reason, message))
  }

  /** Closing the node: the other side is told once, unless it was told something already. */
  function ClosedForNode(s: Session, message: Option<string>): (Session, Option<WebRtcSignal>) {
    if s.terminalSent.None? && s.intent.UsesWebRtc()
    then (Ended(s.(terminalSent := Some(Closed))), Some(TerminalSignal(s, Closed, message)))
    else (Ended(s), None)
  }

  // ---- What holds of every session ----

  ghost predicate Sound(s: Session) {
    && (s.intent == IrohRelay <==> s.channel == NotRequired)
    && s.lifecycle != Allocated
    && (s.resolved == Some(ViaWebRtc) ==> s.intent != IrohRelay)
    && (s.resolved == Some(ViaIrohRelay) ==> s.intent != WebRtcOnly)
    && (s.lifecycle == ApplicationReady ==> s.resolved.Some? && (s.resolved == Some(ViaWebRtc) ==> s.channel == Open))
    && (s.lifecycle == WebRtcNegotiating ==>
          && s.intent != IrohRelay && s.resolved.None? && s.terminalSent.None? && s.terminalReceived.None?
          && (s.channel == AwaitingTransfer || s.channel == Transferred || s.channel == Open))
    && (s.lifecycle == RelaySelected ==>
          || (s.intent == IrohRelay && s.resolved.None? && s.terminalSent.None? && s.terminalReceived.None?)
          || (s.intent == WebRtcPreferred && s.resolved == Some(ViaIrohRelay) && s.channel == ChannelFailed))
    && (s.lifecycle == SessionFailed ==> s.channel == NotRequired || s.channel == ChannelFailed)
    && (s.lifecycle == SessionOver ==> s.channel == NotRequired || s.channel == ChannelClosed)
  }

  /** How far the channel has come; the two dead ends are equally far. */
  function Rank(c: Channel): nat {
    match c
    case NotRequired => 0
    case AwaitingTransfer => 0
    case Transferred => 1
    case Open => 2
    case ChannelFailed => 3
    case ChannelClosed => 3
  }

  /** What never changes in a session, or changes one way only. */
  ghost predicate Follows(s: Session, later: Session) {
    && later.dialId == s.dialId && later.generation == s.generation && later.local == s.local
    && later.remote == s.remote && later.alpn == s.alpn && later.role == s.role && later.intent == s.intent
    && (s.resolved.Some? ==> later.resolved.Some?)
    && (s.terminalSent.Some? ==> later.terminalSent.Some?)
    && (s.terminalReceived.Some? ==> later.terminalReceived.Some?)
    && Rank(s.channel) <= Rank(later.channel)
    && (later.lifecycle == WebRtcNegotiating ==> s.lifecycle == WebRtcNegotiating)
  }

  datatype Event =
    | Attach
    | OpenChannel
    | Resolve(t: Transport)
    | CompleteDial(t: Transport)
    | SendTerminal(reason: TerminalReason)
    | ReceiveTerminal(reason: TerminalReason)
    | End
    | CloseForNode

  /** The session after an event; a refused one leaves it as it was. */
  function After(s: Session, e: Event): Session {
    match e
    case Attach => Attached(s).GetOr(s)
    case OpenChannel => Opened(s).GetOr(s)
    case Resolve(t) => Resolved(s, t).GetOr(s)
    case CompleteDial(t) => DialCompleted(s, t).GetOr(s)
    case SendTerminal(reason) => TerminalWasSent(s, reason).0
    case ReceiveTerminal(reason) => TerminalWasReceived(s, reason)
    case End => Ended(s)
    case CloseForNode => ClosedForNode(s, None).0
  }

  lemma EventKeeps(s: Session, e: Event)
    requires Sound(s)
    ensures Sound(After(s, e)) && Follows(s, After(s, e))
  {
    match e
    case SendTerminal(reason) => TerminalKeeps(s.(terminalSent := Some(reason)), s, reason);
    case ReceiveTerminal(reason) => TerminalKeeps(s.(terminalReceived := Some(reason)), s, reason);
    case _ =>
  }

  lemma TerminalKeeps(marked: Session, s: Session, reason: TerminalReason)
    requires Sound(s)
    requires marked == s.(terminalSent := Some(reason)) || marked == s.(terminalReceived := Some(reason))
    ensures Sound(Terminated(marked, reason).0) && Follows(s, Terminated(marked, reason).0)
  {
  }

  function AfterAll(s: Session, es: seq<Event>): Session
    decreases |es|
  {
    if es == [] then s else After(AfterAll(s, es[..|es| - 1]), es[|es| - 1])
  }

  /** Every session that started as a new one, whatever has happened to it since. */
  lemma {:induction false} HistoryKeeps(s: Session, es: seq<Event>)
    requires Sound(s)
    ensures Sound(AfterAll(s, es)) && Follows(s, AfterAll(s, es))
    decreases |es|
  {
    if es != [] {
      HistoryKeeps(s, es[..|es| - 1]);
      EventKeeps(AfterAll(s, es[..|es| - 1]), es[|es| - 1]);
    }
  }

  /** A new session waits for its channel exactly if it may use WebRTC; otherwise the relay is chosen already. */
  lemma NewSessionKeeps(id: DialId, generation: nat, local: EndpointId, remote: EndpointId, alpn: string,
                        role: Role, intent: TransportIntent)
    ensures var s := NewSession(id, generation, local, remote, alpn, role, intent);
      && Sound(s) && s.resolved.None? && s.terminalSent.None? && s.terminalReceived.None?
      && (Live(s) <==> intent != IrohRelay) && Rank(s.channel) == 0
      && PendingDialAction(s) == (if intent == IrohRelay then Some(UseRelay) else None)
      && CoordinatorOf(s) == DialCoordinator(local, remote, id, generation)
      && s.alpn == alpn && s.role == role && s.intent == intent
  {
  }

  // ---- What a terminal reason does ----

  /** A session after a terminal reason, whatever it was before: live no more, and over, failed or on the relay. */
  ghost predicate HasTerminated(s: Session, reason: TerminalReason) {
    && !Live(s)
    && (reason == Closed || reason == Cancelled ==> s.lifecycle == SessionOver)
    && (reason == WebRtcFailed ==> s.lifecycle == SessionFailed)
    && (reason == FallbackSelected ==>
          if s.intent == WebRtcPreferred then s.lifecycle == RelaySelected && s.resolved == Some(ViaIrohRelay)
          else s.lifecycle == SessionFailed)
  }

  /** A terminal takes effect in every state, established sessions included; only a fallback selects a transport. */
  lemma TerminalTakesEffect(s: Session, reason: TerminalReason)
    requires Sound(s)
    ensures HasTerminated(TerminalWasReceived(s, reason), reason)
    ensures HasTerminated(TerminalWasSent(s, reason).0, reason)
    ensures TerminalWasReceived(s, reason).terminalReceived == Some(reason)
    ensures TerminalWasSent(s, reason).0.terminalSent == Some(reason)
    ensures TerminalWasSent(s, reason).1
            == if reason == FallbackSelected && s.intent == WebRtcPreferred then Some(ViaIrohRelay) else None
    ensures !(reason == FallbackSelected && s.intent == WebRtcPreferred) ==>
              TerminalWasReceived(s, reason).resolved == TerminalWasSent(s, reason).0.resolved == s.resolved
  {
  }

  // ---- Which transports a session can be resolved to ----

  /** A channel must be open to be used, and the intent must allow the transport. */
  predicate Allows(intent: TransportIntent, channel: Channel, t: Transport) {
    match t
    case ViaWebRtc => intent != IrohRelay && channel == Open
    case ViaIrohRelay => intent != WebRtcOnly
  }

  lemma ResolvesExactlyIf(s: Session, t: Transport)
    ensures Resolved(s, t).Success? <==> Allows(s.intent, s.channel, t)
    ensures DialCompleted(s, t).Success? <==> s.role == Dialer && Allows(s.intent, s.channel, t)
    ensures Resolved(s, t).Success? ==>
              var s' := Resolved(s, t).value;
              s'.resolved == Some(t) && s'.lifecycle == ApplicationReady && s'.channel == s.channel
  {
  }

  // ---- How a channel opens ----

  /** A channel is transferred by the one event and opened by the other, and only from the state before it. */
  lemma ChannelSteps(s: Session, e: Event)
    ensures s.channel != Transferred ==>
              (After(s, e).channel == Transferred <==> e == Attach && s.channel == AwaitingTransfer)
    ensures s.channel != Open ==>
              (After(s, e).channel == Open <==> e == OpenChannel && s.channel == Transferred)
  {
    match e
    case SendTerminal(reason) =>
    case ReceiveTerminal(reason) =>
    case _ =>
  }

  predicate AttachedThenOpened(es: seq<Event>, i: nat, j: nat) {
    i < j < |es| && es[i] == Attach && es[j] == OpenChannel
  }

  /** Whatever else has happened, an open channel was attached and opened after that. */
  lemma {:induction false} OpenMeansBoth(s: Session, es: seq<Event>)
    requires Rank(s.channel) == 0
    ensures AfterAll(s, es).channel == Transferred ==>
              exists i :: 0 <= i < |es| && es[i] == Attach
    ensures AfterAll(s, es).channel == Open ==> exists i, j :: AttachedThenOpened(es, i, j)
    decreases |es|
  {
    if es != [] {
      var before, e := es[..|es| - 1], es[|es| - 1];
      OpenMeansBoth(s, before);
      ChannelSteps(AfterAll(s, before), e);
      if AfterAll(s, es).channel == Open {
        if AfterAll(s, before).channel == Open {
          var i, j :| AttachedThenOpened(before, i, j);
          assert AttachedThenOpened(es, i, j);
        } else {
          var i :| 0 <= i < |before| && before[i] == Attach;
          assert AttachedThenOpened(es, i, |es| - 1);
        }
      } else if AfterAll(s, es).channel == Transferred {
        if AfterAll(s, before).channel == Transferred {
          var i :| 0 <= i < |before| && before[i] == Attach;
          assert es[i] == Attach;
        } else {
          assert es[|es| - 1] == Attach;
        }
      }
    }
  }

  /** A session whose address is advertised. */
  predicate Live(s: Session) {
    && s.intent.UsesWebRtc()
    && s.channel != ChannelClosed && s.channel != ChannelFailed
    && s.lifecycle != SessionOver && s.lifecycle != SessionFailed
  }

  lemma EitherTransport(s: Session)
    ensures s.resolved == None || s.resolved == Some(ViaWebRtc) || s.resolved == Some(ViaIrohRelay)
  {
    match s.resolved
    case None =>
    case Some(ViaWebRtc) =>
    case Some(ViaIrohRelay) =>
  }

  /** A session that has died stays dead, even one that is later completed over the relay. */
  lemma DeadStaysDead(s: Session, es: seq<Event>)
    requires Sound(s) && s.intent.UsesWebRtc() && !Live(s)
    ensures !Live(AfterAll(s, es)) && Rank(AfterAll(s, es).channel) == 3
    ensures AfterAll(s, es).lifecycle == ApplicationReady ==> AfterAll(s, es).resolved == Some(ViaIrohRelay)
  {
    HistoryKeeps(s, es);
    EitherTransport(AfterAll(s, es));
  }

  /**
    Yet a closed lifecycle is not the last one: whatever its role, such a session can become ready
    again, and only over the relay, exactly if it does not require WebRTC.
   */
  lemma ClosedIsNotFinal(s: Session)
    requires Sound(s) && s.lifecycle == SessionOver
    ensures s.intent != WebRtcOnly <==> exists es :: AfterAll(s, es).lifecycle == ApplicationReady
    ensures s.intent != WebRtcOnly ==> After(s, Resolve(ViaIrohRelay)).lifecycle == ApplicationReady
    ensures s.role == Dialer ==> After(s, CompleteDial(ViaIrohRelay)) == After(s, Resolve(ViaIrohRelay))
    ensures forall es :: AfterAll(s, es).lifecycle == ApplicationReady ==>
              AfterAll(s, es).resolved == Some(ViaIrohRelay)
  {
    AfterOne(s, Resolve(ViaIrohRelay));
    if s.intent != WebRtcOnly {
      assert AfterAll(s, [Resolve(ViaIrohRelay)]).lifecycle == ApplicationReady;
    }
    forall es | AfterAll(s, es).lifecycle == ApplicationReady
      ensures AfterAll(s, es).resolved == Some(ViaIrohRelay) && s.intent != WebRtcOnly
    {
      OnlyOverRelay(s, es);
    }
  }

  lemma AfterOne(s: Session, e: Event)
    ensures AfterAll(s, [e]) == After(s, e)
  {
    assert [e][..0] == [];
    assert AfterAll(s, []) == s;
  }

  lemma OnlyOverRelay(s: Session, es: seq<Event>)
    requires Sound(s) && s.lifecycle == SessionOver && AfterAll(s, es).lifecycle == ApplicationReady
    ensures AfterAll(s, es).resolved == Some(ViaIrohRelay) && s.intent != WebRtcOnly
  {
    HistoryKeeps(s, es);
    EitherTransport(AfterAll(s, es));
    if s.intent.UsesWebRtc() {
      DeadStaysDead(s, es);
    }
  }

  // ---- The decision on a waiting dial ----

  datatype PendingAction = UseWebRtc | UseRelay | GiveUp | ReportClosed

  function PendingDialAction(s: Session): Option<PendingAction> {
    if s.channel == Open then Some(UseWebRtc)
    else if s.resolved == Some(ViaIrohRelay) || s.lifecycle == RelaySelected then Some(UseRelay)
    else if s.lifecycle == SessionFailed || s.channel == ChannelFailed then Some(GiveUp)
    else if s.lifecycle == SessionOver || s.channel == ChannelClosed then Some(ReportClosed)
    else None
  }

  /**
    Waiting goes on exactly while the channel is being set up. An open channel is used; the relay is used once
    it was chosen, even by a session that has ended since; otherwise the lifecycle decides. A transport that is
    to be used can be used.
   */
  lemma PendingDecision(s: Session)
    requires Sound(s)
    ensures PendingDialAction(s) == Some(UseWebRtc) <==> s.channel == Open
    ensures PendingDialAction(s) == Some(UseRelay)
            <==> s.channel != Open && (s.resolved == Some(ViaIrohRelay) || s.lifecycle == RelaySelected)
    ensures PendingDialAction(s) == Some(GiveUp) <==> s.lifecycle == SessionFailed && s.resolved != Some(ViaIrohRelay)
    ensures PendingDialAction(s) == Some(ReportClosed)
            <==> s.lifecycle == SessionOver && s.resolved != Some(ViaIrohRelay)
    ensures PendingDialAction(s).None?
            <==> s.lifecycle == WebRtcNegotiating && (s.channel == AwaitingTransfer || s.channel == Transferred)
    ensures PendingDialAction(s) == Some(UseRelay) ==> s.intent != WebRtcOnly
    ensures PendingDialAction(s) == Some(UseWebRtc) ==> s.intent != IrohRelay
    ensures s.role == Dialer && PendingDialAction(s) == Some(UseWebRtc) ==> DialCompleted(s, ViaWebRtc).Success?
    ensures s.role == Dialer && PendingDialAction(s) == Some(UseRelay) ==> DialCompleted(s, ViaIrohRelay).Success?
    ensures PendingDialAction(s) in {Some(GiveUp), Some(ReportClosed)} ==> DialCompleted(s, ViaWebRtc).Failure?
  {
    EitherTransport(s);
  }

  /** Once decided, a dial is never undecided again. */
  lemma DecisionStays(s: Session, e: Event)
    requires Sound(s) && PendingDialAction(s).Some?
    ensures PendingDialAction(After(s, e)).Some?
  {
    EventKeeps(s, e);
    PendingDecision(s);
    PendingDecision(After(s, e));
  }

  /** What a dial that still waits concludes when a terminal signal is sent or received for its session. */
  lemma TerminalDecidesDial(s: Session, reason: TerminalReason)
    requires Sound(s) && s.lifecycle == WebRtcNegotiating
    ensures PendingDialAction(After(s, ReceiveTerminal(reason))) == PendingDialAction(After(s, SendTerminal(reason)))
            == Some(match reason
                    case FallbackSelected => if s.intent == WebRtcPreferred then UseRelay else GiveUp
                    case WebRtcFailed => GiveUp
                    case Cancelled => ReportClosed
                    case Closed => ReportClosed)
  {
  }

  // ---- The session as the program keeps it ----

  class BrowserSessionState {
    const dialId: DialId
    const generation: nat
    const local: EndpointId
    const remote: EndpointId
    const alpn: string
    const role: Role
    const intent: TransportIntent
    var resolved: Option<Transport>
    var channel: Channel
    var lifecycle: Lifecycle
    var terminalSent: Option<TerminalReason>
    var terminalReceived: Option<TerminalReason>

    function Snapshot(): Session
      reads this
    {
      Session(dialId, generation, local, remote, alpn, role, intent, resolved, channel, lifecycle,
              terminalSent, terminalReceived)
    }

    constructor (id: DialId, generation: nat, local: EndpointId, remote: EndpointId, alpn: string,
                 role: Role, intent: TransportIntent)
      ensures Sound(Snapshot()) && Snapshot() == NewSession(id, generation, local, remote, alpn, role, intent)
    {
      this.dialId, this.generation, this.local, this.remote := id, generation, local, remote;
      this.alpn, this.role, this.intent := alpn, role, intent;
      resolved, terminalSent, terminalReceived := None, None, None;
      if intent.UsesWebRtc() {
        channel, lifecycle := AwaitingTransfer, WebRtcNegotiating;
      } else {
        channel, lifecycle := NotRequired, RelaySelected;
      }
    }

    method AttachTransferredChannel() returns (r: Result<(), ErrorCode>)
      requires Sound(Snapshot())
      modifies this
      ensures Sound(Snapshot()) && Snapshot() == After(old(Snapshot()), Attach)
      ensures r.Success? <==> old(channel) == AwaitingTransfer
      ensures r.Success? ==> channel == Transferred
    {
      if channel != AwaitingTransfer {
        return Failure(DataChannelFailure);
      }
      channel := Transferred;
      return Success(());
    }

    method MarkTransferredChannelOpen() returns (r: Result<(), ErrorCode>)
      requires Sound(Snapshot())
      modifies this
      ensures Sound(Snapshot()) && Snapshot() == After(old(Snapshot()), OpenChannel)
      ensures r.Success? <==> old(channel) == Transferred
      ensures r.Success? ==> channel == Open
    {
      if channel != Transferred {
        return Failure(DataChannelFailure);
      }
      channel := Open;
      return Success(());
    }

    method Fail()
      modifies this
      ensures Snapshot() == Failed(old(Snapshot()))
    {
      if channel != NotRequired {
        channel := ChannelFailed;
      }
      lifecycle := SessionFailed;
    }

    method Close()
      modifies this
      ensures Snapshot() == Ended(old(Snapshot()))
    {
      if channel != NotRequired {
        channel := ChannelClosed;
      }
      lifecycle := SessionOver;
    }

    method ResolveTransport(t: Transport) returns (r: Result<(), ErrorCode>)
      requires Sound(Snapshot())
      modifies this
      ensures Sound(Snapshot()) && Snapshot() == After(old(Snapshot()), Resolve(t))
      ensures r == (var e := ResolutionError(old(Snapshot()), t); if e.Some? then Failure(e.value) else Success(()))
      ensures r.Success? <==> Allows(intent, old(channel), t)
      ensures r.Success? ==> resolved == Some(t) && lifecycle == ApplicationReady && unchanged(`channel)
    {
      ResolvesExactlyIf(Snapshot(), t);
      var error := ResolutionError(Snapshot(), t);
      if error.Some? {
        return Failure(error.value);
      }
      resolved := Some(t);
      lifecycle := ApplicationReady;
      return Success(());
    }

    method CompleteDial(t: Transport) returns (r: Result<(), ErrorCode>)
      requires Sound(Snapshot())
      modifies this
      ensures Sound(Snapshot()) && Snapshot() == After(old(Snapshot()), Event.CompleteDial(t))
      ensures r.Success? <==> role == Dialer && Allows(intent, old(channel), t)
      ensures r.Success? ==> resolved == Some(t) && lifecycle == ApplicationReady && unchanged(`channel)
    {
      if role != Dialer {
        return Failure(WebRtcFailure);
      }
      r := ResolveTransport(t);
    }

    method ApplyTerminalReason(reason: TerminalReason) returns (selected: Option<Transport>)
      modifies this
      ensures (Snapshot(), selected) == Terminated(old(Snapshot()), reason)
    {
      selected := None;
      match reason {
        case FallbackSelected =>
          if intent.AllowsIrohRelayFallback() {
            resolved := Some(ViaIrohRelay);
            lifecycle := RelaySelected;
            channel := ChannelFailed;
            selected := Some(ViaIrohRelay);
          } else {
            Fail();
          }
        case WebRtcFailed => Fail();
        case _ => Close();
      }
    }

    method RecordTerminalReceived(reason: TerminalReason)
      requires Sound(Snapshot())
      modifies this
      ensures Sound(Snapshot()) && Snapshot() == After(old(Snapshot()), ReceiveTerminal(reason))
      ensures HasTerminated(Snapshot(), reason) && terminalReceived == Some(reason) && unchanged(`terminalSent)
    {
      TerminalTakesEffect(Snapshot(), reason);
      TerminalKeeps(Snapshot().(terminalReceived := Some(reason)), Snapshot(), reason);
      terminalReceived := Some(reason);
      var _ := ApplyTerminalReason(reason);
    }

    method RecordTerminalSent(reason: TerminalReason) returns (selected: Option<Transport>)
      requires Sound(Snapshot())
      modifies this
      ensures Sound(Snapshot()) && (Snapshot(), selected) == TerminalWasSent(old(Snapshot()), reason)
      ensures HasTerminated(Snapshot(), reason) && terminalSent == Some(reason) && unchanged(`terminalReceived)
      ensures selected == Some(ViaIrohRelay) <==> reason == FallbackSelected && intent == WebRtcPreferred
    {
      TerminalTakesEffect(Snapshot(), reason);
      TerminalKeeps(Snapshot().(terminalSent := Some(reason)), Snapshot(), reason);
      terminalSent := Some(reason);
      selected := ApplyTerminalReason(reason);
    }

    method CloseForNode(message: Option<string>) returns (signal: Option<WebRtcSignal>)
      requires Sound(Snapshot())
      modifies this
      ensures Sound(Snapshot()) && (Snapshot(), signal) == ClosedForNode(old(Snapshot()), message)
      ensures signal.Some? <==> old(terminalSent).None? && intent.UsesWebRtc()
      ensures signal.Some? ==>
                signal.value == DialCoordinator(local, remote, dialId, generation).Signal(Terminal(Closed, message))
      ensures lifecycle == SessionOver && (intent.UsesWebRtc() ==> terminalSent.Some?)
    {
      EventKeeps(Snapshot(), Event.CloseForNode);
      signal := None;
      if terminalSent.None? && intent.UsesWebRtc() {
        signal := Some(TerminalSignal(Snapshot(), Closed, message));
        terminalSent := Some(Closed);
      }
      Close();
    }
  }
}
