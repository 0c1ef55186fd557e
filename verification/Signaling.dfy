/** Bootstrap signals, who may send which, and the ids of dials (core/signaling.rs, core/coordinator.rs). */
module Signaling {
  import opened Prelude
  import opened IceQueue

  datatype TransportIntent = IrohRelay | WebRtcPreferred | WebRtcOnly {
    predicate UsesWebRtc() { !IrohRelay? }
    predicate AllowsIrohRelayFallback() { WebRtcPreferred? }
  }

  datatype TerminalReason = WebRtcFailed | FallbackSelected | Cancelled | Closed

  type DialId = SessionId

  /** Where a signal belongs: the fields that every signal carries. */
  datatype Route = Route(dialId: DialId, sender: EndpointId, recipient: EndpointId, generation: nat)

  datatype Body =
    | DialRequest(alpn: string, transportIntent: TransportIntent)
    | Offer(sdp: string)
    | Answer(sdp: string)
    | Ice(candidate: IceCandidate)
    | NoMoreCandidates
    | Terminal(reason: TerminalReason, message: Option<string>)

  datatype WebRtcSignal = WebRtcSignal(route: Route, body: Body) {
    predicate IsFor(local: EndpointId, remote: EndpointId) {
      route.recipient == local && route.sender == remote
    }
  }

  /** One end of one dial. */
  datatype DialCoordinator = DialCoordinator(local: EndpointId, remote: EndpointId, dialId: DialId, generation: nat) {

    function Signal(body: Body): WebRtcSignal {
      WebRtcSignal(Route(dialId, local, remote, generation), body)
    }

    predicate Accepts(signal: WebRtcSignal) {
      signal.route.dialId == dialId && signal.route.generation == generation && signal.IsFor(local, remote)
    }

    /** The coordinator of the other end. */
    function Mirror(): DialCoordinator {
      DialCoordinator(remote, local, dialId, generation)
    }
  }

  /** A coordinator accepts exactly the signals that its own mirror image builds. */
  lemma AcceptsOnlyMirror(c: DialCoordinator, sender: DialCoordinator, body: Body)
    ensures c.Accepts(sender.Signal(body)) <==> sender == c.Mirror()
    ensures c.Mirror().Mirror() == c
  {
  }

  // ---- Dial ids ----

  /** How a dial id is computed from initiator, responder, epoch and generation: a hash. */
  type Derivation = (EndpointId, EndpointId, seq<Byte>, nat) -> DialId

  datatype DialSessionId = DialSessionId(dialId: DialId, generation: nat)

  const U64_MAX: nat := 0xffff_ffff_ffff_ffff

  function NextGeneration(next: map<EndpointId, nat>, remote: EndpointId): nat {
    if remote in next then next[remote] else 0
  }

  /** Hands out the ids of the dials that one endpoint initiates. */
  class DialIdGenerator {
    const local: EndpointId
    const epoch: seq<Byte>
    const derive: Derivation
    var nextByRemote: map<EndpointId, nat>

    constructor WithEpoch(local: EndpointId, epoch: seq<Byte>, derive: Derivation)
      ensures this.local == local && this.epoch == epoch && this.derive == derive && nextByRemote == map[]
    {
      this.local, this.epoch, this.derive, nextByRemote := local, epoch, derive, map[];
    }

    /** The next id for `remote`; nothing once its 64-bit counter is used up, where the program aborts. */
    method Next(remote: EndpointId) returns (r: Option<DialSessionId>)
      modifies this
      ensures var generation := NextGeneration(old(nextByRemote), remote);
        if generation == U64_MAX then r == None && unchanged(this)
        else && r == Some(DialSessionId(derive(local, remote, epoch, generation), generation))
             && nextByRemote == old(nextByRemote)[remote := generation + 1]
    {
      var current := if remote in nextByRemote then nextByRemote[remote] else 0;
      if current == U64_MAX {
        return None;
      }
      nextByRemote := nextByRemote[remote := current + 1];
      return Some(DialSessionId(derive(local, remote, epoch, current), current));
    }

    method InitiateWithTransportIntent(remote: EndpointId) returns (r: Option<DialCoordinator>)
      modifies this
      ensures var generation := NextGeneration(old(nextByRemote), remote);
        if generation == U64_MAX then r == None && unchanged(this)
        else && r == Some(DialCoordinator(local, remote, derive(local, remote, epoch, generation), generation))
             && nextByRemote == old(nextByRemote)[remote := generation + 1]
    {
      var session := Next(remote);
      if session.None? {
        return None;
      }
      return Some(DialCoordinator(local, remote, session.value.dialId, session.value.generation));
    }
  }

  /** The counters after dialing the remotes one after another. */
  function Counters(remotes: seq<EndpointId>): map<EndpointId, nat>
    decreases |remotes|
  {
    if remotes == [] then map[]
    else
      var before, last := Counters(remotes[..|remotes| - 1]), remotes[|remotes| - 1];
      before[last := NextGeneration(before, last) + 1]
  }

  /** The generation that the dial after these gets. */
  function GenerationAfter(remotes: seq<EndpointId>, remote: EndpointId): nat {
    NextGeneration(Counters(remotes), remote)
  }

  /** Generations count the dials to that remote, from zero. */
  lemma {:induction false} GenerationsCount(remotes: seq<EndpointId>, remote: EndpointId)
    ensures GenerationAfter(remotes, remote) == multiset(remotes)[remote]
    decreases |remotes|
  {
    if remotes != [] {
      var n := |remotes| - 1;
      GenerationsCount(remotes[..n], remote);
      assert remotes == remotes[..n] + [remotes[n]];
    }
  }

  lemma {:induction false} GenerationsClimb(remotes: seq<EndpointId>, i: nat, remote: EndpointId)
    requires i < |remotes| && remotes[i] == remote
    ensures GenerationAfter(remotes[..i], remote) < GenerationAfter(remotes, remote)
    decreases |remotes|
  {
    var before := remotes[..|remotes| - 1];
    if i < |remotes| - 1 {
      GenerationsClimb(before, i, remote);
      assert before[..i] == remotes[..i];
    }
  }

  /** No two dials of one endpoint are derived from the same responder and generation. */
  lemma DialsAreDistinct(remotes: seq<EndpointId>, i: nat, j: nat)
    requires i < j < |remotes|
    ensures (remotes[i], GenerationAfter(remotes[..i], remotes[i]))
            != (remotes[j], GenerationAfter(remotes[..j], remotes[j]))
  {
    if remotes[i] == remotes[j] {
      GenerationsClimb(remotes[..j], i, remotes[i]);
      assert remotes[..j][..i] == remotes[..i];
    }
  }
}
