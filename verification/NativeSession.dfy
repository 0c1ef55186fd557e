/**
  The native peer connection as far as signalling sees it, and the two receive loops that drive it
  (native.rs, facade/native.rs).
 */
module NativeSession {
  import opened Prelude
  import opened IceQueue
  import opened Signaling

  /** What the WebRTC stack makes of descriptions and candidates. */
  datatype Media = Media(
    validSdp: string -> bool,
    validCandidate: IceCandidate -> bool,
    answerFor: string -> string)

  /** `ends` counts the end-of-candidates indications that were applied. */
  datatype Peer = Peer(remote: Option<string>, applied: seq<IceCandidate>, ends: nat)

  const NEW_PEER: Peer := Peer(None, [], 0)

  datatype HandshakeError =
    | StreamEnded
    | WrongRoute
    | Rejected
    | AnswerAlreadySent
    | RemoteTerminal(reason: TerminalReason, message: string)
    | UnexpectedSignal
    | UnsupportedProtocol

  /** The offerer waits for one answer: a second one finds it in the stable state. */
  function ApplyAnswer(m: Media, p: Peer, sdp: string): Result<Peer, HandshakeError> {
    if m.validSdp(sdp) && p.remote.None? then Success(p.(remote := Some(sdp))) else Failure(Rejected)
  }

  function ApplyOffer(m: Media, p: Peer, sdp: string): Result<Peer, HandshakeError> {
    if m.validSdp(sdp) then Success(p.(remote := Some(sdp))) else Failure(Rejected)
  }

  /** The stack refuses candidates while it has no remote description. */
  function AddIceCandidate(m: Media, p: Peer, c: IceCandidate): Result<Peer, HandshakeError> {
    if p.remote.Some? && m.validCandidate(c) then Success(p.(applied := p.applied + [c])) else Failure(Rejected)
  }

  function AddEndOfCandidates(p: Peer): Result<Peer, HandshakeError> {
    if p.remote.Some? then Success(p.(ends := p.ends + 1)) else Failure(Rejected)
  }

  function TerminalMessage(message: Option<string>): string {
    if message.Some? then message.value else "remote terminal WebRTC signal"
  }

  // ---- One signal ----

  /** A receive loop between two signals; `described` stands for `answered` and for `offered`. */
  datatype Loop = Loop(peer: Peer, described: bool)

  datatype Outcome = Going | Finished | Failed(error: HandshakeError)

  const NEW_LOOP: Loop := Loop(NEW_PEER, false)

  /** The reaction to a signal that both loops share. */
  function ReactToIce(m: Media, s: Loop, body: Body): (Loop, Outcome) {
    match body
    case Ice(candidate) =>
      var added := AddIceCandidate(m, s.peer, candidate);
      if added.Failure? then (s, Failed(added.error)) else (s.(peer := added.value), Going)
    case NoMoreCandidates =>
      var added := AddEndOfCandidates(s.peer);
      if added.Failure? then (s, Failed(added.error))
      else (s.(peer := added.value), if s.described then Finished else Going)
    case Terminal(reason, message) => (s, Failed(RemoteTerminal(reason, TerminalMessage(message))))
    case _ => (s, Failed(UnexpectedSignal))
  }

  function DialerReacts(m: Media, c: DialCoordinator, s: Loop, signal: WebRtcSignal): (Loop, Outcome) {
    if !c.Accepts(signal) then (s, Failed(WrongRoute))
    else match signal.body
      case Answer(sdp) =>
        var applied := ApplyAnswer(m, s.peer, sdp);
        if applied.Failure? then (s, Failed(applied.error)) else (Loop(applied.value, true), Going)
      case body => ReactToIce(m, s, body)
  }

  /** The answerer also says whether it sends its answer now. */
  function AnswererReacts(m: Media, c: DialCoordinator, s: Loop,
                          signal: WebRtcSignal): (Loop, Outcome, Option<WebRtcSignal>) {
    if !c.Accepts(signal) then (s, Failed(WrongRoute), None)
    else match signal.body
      case Offer(sdp) =>
        var applied := ApplyOffer(m, s.peer, sdp);
        if applied.Failure? then (s, Failed(applied.error), None)
        else if s.described then (s.(peer := applied.value), Failed(AnswerAlreadySent), None)
        else (Loop(applied.value, true), Going, Some(c.Signal(Answer(m.answerFor(sdp)))))
      case body =>
        var (s', outcome) := ReactToIce(m, s, body);
        (s', outcome, None)
  }

  // ---- Whole loops ----

  /** How a loop ended, how many signals it took, and what it had sent back by then. */
  datatype LoopEnd = LoopEnd(r: Result<(), HandshakeError>, last: Loop, consumed: nat, answers: seq<WebRtcSignal>)

  function DialerLoop(m: Media, c: DialCoordinator, s: Loop, incoming: seq<WebRtcSignal>): LoopEnd
    decreases |incoming|
  {
    if incoming == [] then LoopEnd(Failure(StreamEnded), s, 0, [])
    else
      var (s', outcome) := DialerReacts(m, c, s, incoming[0]);
      match outcome
      case Finished => LoopEnd(Success(()), s', 1, [])
      case Failed(e) => LoopEnd(Failure(e), s', 1, [])
      case Going => After(1, [], DialerLoop(m, c, s', incoming[1..]))
  }

  function AnswererLoop(m: Media, c: DialCoordinator, s: Loop, incoming: seq<WebRtcSignal>): LoopEnd
    decreases |incoming|
  {
    if incoming == [] then LoopEnd(Failure(StreamEnded), s, 0, [])
    else
      var (s', outcome, answer) := AnswererReacts(m, c, s, incoming[0]);
      var answers := if answer.Some? then [answer.value] else [];
      match outcome
      case Finished => LoopEnd(Success(()), s', 1, answers)
      case Failed(e) => LoopEnd(Failure(e), s', 1, answers)
      case Going => After(1, answers, AnswererLoop(m, c, s', incoming[1..]))
  }

  /** The end of a loop that had taken `n` signals and answered `answers` before. */
  function After(n: nat, answers: seq<WebRtcSignal>, e: LoopEnd): LoopEnd {
    e.(consumed := n + e.consumed, answers := answers + e.answers)
  }

  /** Whatever arrives, honest or not: no second answer is ever sent. */
  lemma {:induction false} OneAnswerAtMost(m: Media, c: DialCoordinator, s: Loop, incoming: seq<WebRtcSignal>)
    ensures |AnswererLoop(m, c, s, incoming).answers| <= if s.described then 0 else 1
    decreases |incoming|
  {
    if incoming != [] {
      var (s', outcome, answer) := AnswererReacts(m, c, s, incoming[0]);
      if outcome.Going? {
        OneAnswerAtMost(m, c, s', incoming[1..]);
      }
    }
  }

  /** Candidates to the end marker: the only way for a described loop to finish. */
  predicate IceBurst(m: Media, c: DialCoordinator, incoming: seq<WebRtcSignal>, n: nat) {
    && n < |incoming|
    && (forall i :: 0 <= i <= n ==> c.Accepts(incoming[i]))
    && (forall i :: 0 <= i < n ==> incoming[i].body.Ice? && m.validCandidate(incoming[i].body.candidate))
    && incoming[n].body.NoMoreCandidates?
  }

  lemma {:induction false} DescribedDialerSucceedsIff(m: Media, c: DialCoordinator, s: Loop,
                                                      incoming: seq<WebRtcSignal>)
    requires s.described && s.peer.remote.Some?
    ensures DialerLoop(m, c, s, incoming).r.Success? <==> exists n :: IceBurst(m, c, incoming, n)
    decreases |incoming|
  {
    if incoming != [] {
      var (s', outcome) := DialerReacts(m, c, s, incoming[0]);
      IceBurstStep(m, c, incoming);
      if outcome.Going? {
        DescribedDialerSucceedsIff(m, c, s', incoming[1..]);
      }
    }
  }

  lemma IceBurstStep(m: Media, c: DialCoordinator, incoming: seq<WebRtcSignal>)
    requires incoming != []
    ensures (exists n :: IceBurst(m, c, incoming, n)) <==>
            c.Accepts(incoming[0])
            && (incoming[0].body.NoMoreCandidates?
                || (incoming[0].body.Ice? && m.validCandidate(incoming[0].body.candidate)
                    && exists n :: IceBurst(m, c, incoming[1..], n)))
  {
    var rest := incoming[1..];
    forall n: nat | IceBurst(m, c, incoming, n) && n > 0
      ensures IceBurst(m, c, rest, n - 1)
    {
      assert forall i :: 0 <= i < n ==> rest[i] == incoming[i + 1];
    }
    forall n: nat | IceBurst(m, c, rest, n) && c.Accepts(incoming[0]) && incoming[0].body.Ice?
               && m.validCandidate(incoming[0].body.candidate)
      ensures IceBurst(m, c, incoming, n + 1)
    {
      assert forall i :: 0 < i <= n + 1 ==> incoming[i] == rest[i - 1];
    }
    if c.Accepts(incoming[0]) && incoming[0].body.NoMoreCandidates? {
      assert IceBurst(m, c, incoming, 0);
    }
  }

  /** The dialer succeeds exactly on one good answer followed by good candidates and the end marker. */
  lemma DialerSucceedsIff(m: Media, c: DialCoordinator, incoming: seq<WebRtcSignal>)
    ensures DialerLoop(m, c, NEW_LOOP, incoming).r.Success? <==>
            && incoming != [] && c.Accepts(incoming[0])
            && incoming[0].body.Answer? && m.validSdp(incoming[0].body.sdp)
            && exists n :: IceBurst(m, c, incoming[1..], n)
  {
    if incoming != [] {
      var (s', outcome) := DialerReacts(m, c, NEW_LOOP, incoming[0]);
      if outcome.Going? {
        DescribedDialerSucceedsIff(m, c, s', incoming[1..]);
      }
    }
  }

  lemma {:induction false} DescribedAnswererSucceedsIff(m: Media, c: DialCoordinator, s: Loop,
                                                        incoming: seq<WebRtcSignal>)
    requires s.described && s.peer.remote.Some?
    ensures AnswererLoop(m, c, s, incoming).r.Success? <==> exists n :: IceBurst(m, c, incoming, n)
    decreases |incoming|
  {
    if incoming != [] {
      var (s', outcome, _) := AnswererReacts(m, c, s, incoming[0]);
      IceBurstStep(m, c, incoming);
      if outcome.Going? {
        DescribedAnswererSucceedsIff(m, c, s', incoming[1..]);
      }
    }
  }

  /** The answerer likewise, on one good offer. */
  lemma AnswererSucceedsIff(m: Media, c: DialCoordinator, incoming: seq<WebRtcSignal>)
    ensures AnswererLoop(m, c, NEW_LOOP, incoming).r.Success? <==>
            && incoming != [] && c.Accepts(incoming[0])
            && incoming[0].body.Offer? && m.validSdp(incoming[0].body.sdp)
            && exists n :: IceBurst(m, c, incoming[1..], n)
  {
    if incoming != [] {
      var (s', outcome, _) := AnswererReacts(m, c, NEW_LOOP, incoming[0]);
      if outcome.Going? {
        DescribedAnswererSucceedsIff(m, c, s', incoming[1..]);
      }
    }
  }

  // ---- How a loop fails ----

  predicate GoodCandidate(m: Media, c: DialCoordinator, signal: WebRtcSignal) {
    c.Accepts(signal) && signal.body.Ice? && m.validCandidate(signal.body.candidate)
  }

  /** What a described loop makes of the first signal that is not a good candidate. */
  function Verdict(m: Media, c: DialCoordinator, signal: WebRtcSignal, answerer: bool): Result<(), HandshakeError> {
    if !c.Accepts(signal) then Failure(WrongRoute)
    else match signal.body
      case NoMoreCandidates => Success(())
      case Ice(_) => Failure(Rejected)
      case Terminal(reason, message) => Failure(RemoteTerminal(reason, TerminalMessage(message)))
      case Offer(sdp) =>
        Failure(if !answerer then UnexpectedSignal else if m.validSdp(sdp) then AnswerAlreadySent else Rejected)
      case Answer(_) => Failure(if answerer then UnexpectedSignal else Rejected)
      case DialRequest(_, _) => Failure(UnexpectedSignal)
  }

  /** Good candidates are read to the first signal of another kind, which decides; without one the stream has ended. */
  ghost predicate EndsAt(m: Media, c: DialCoordinator, incoming: seq<WebRtcSignal>, n: nat, e: LoopEnd,
                         answerer: bool) {
    && n <= |incoming| && (forall i :: 0 <= i < n ==> GoodCandidate(m, c, incoming[i]))
    && e.r == (if n == |incoming| then Failure(StreamEnded) else Verdict(m, c, incoming[n], answerer))
    && e.consumed == (if n == |incoming| then n else n + 1)
  }

  lemma {:induction false} DialerEndsAt(m: Media, c: DialCoordinator, s: Loop, incoming: seq<WebRtcSignal>, n: nat)
    requires s.described && s.peer.remote.Some? && n <= |incoming|
    requires forall i :: 0 <= i < n ==> GoodCandidate(m, c, incoming[i])
    requires n < |incoming| ==> !GoodCandidate(m, c, incoming[n])
    ensures EndsAt(m, c, incoming, n, DialerLoop(m, c, s, incoming), false)
    ensures |DialerLoop(m, c, s, incoming).last.peer.applied| == |s.peer.applied| + n
    decreases n
  {
    if n > 0 {
      var s' := DialerReacts(m, c, s, incoming[0]).0;
      assert forall i :: 0 <= i < n - 1 ==> incoming[1..][i] == incoming[i + 1];
      DialerEndsAt(m, c, s', incoming[1..], n - 1);
    }
  }

  lemma {:induction false} AnswererEndsAt(m: Media, c: DialCoordinator, s: Loop, incoming: seq<WebRtcSignal>, n: nat)
    requires s.described && s.peer.remote.Some? && n <= |incoming|
    requires forall i :: 0 <= i < n ==> GoodCandidate(m, c, incoming[i])
    requires n < |incoming| ==> !GoodCandidate(m, c, incoming[n])
    ensures EndsAt(m, c, incoming, n, AnswererLoop(m, c, s, incoming), true)
    ensures |AnswererLoop(m, c, s, incoming).last.peer.applied| == |s.peer.applied| + n
    decreases n
  {
    if n > 0 {
      var s' := AnswererReacts(m, c, s, incoming[0]).0;
      assert forall i :: 0 <= i < n - 1 ==> incoming[1..][i] == incoming[i + 1];
      AnswererEndsAt(m, c, s', incoming[1..], n - 1);
    }
  }

  // ---- The loops as the program runs them ----

  class NativeWebRtcSession {
    const media: Media
    var peer: Peer

    constructor (media: Media)
      ensures this.media == media && peer == NEW_PEER
    {
      this.media, peer := media, NEW_PEER;
    }

    method Keep(r: Result<Peer, HandshakeError>) returns (e: Result<(), HandshakeError>)
      modifies this
      ensures e == (if r.Success? then Success(()) else Failure(r.error))
      ensures peer == if r.Success? then r.value else old(peer)
    {
      match r {
        case Success(p) =>
          peer := p;
          return Success(());
        case Failure(error) => return Failure(error);
      }
    }

    /** An end marker finishes the loop once a description is there; a terminal signal always does. */
    method HandleIce(body: Body, described: bool) returns (outcome: Outcome)
      modifies this
      ensures (Loop(peer, described), outcome) == ReactToIce(media, Loop(old(peer), described), body)
    {
      match body {
        case Ice(candidate) =>
          var added := Keep(AddIceCandidate(media, peer, candidate));
          return if added.Failure? then Failed(added.error) else Going;
        case NoMoreCandidates =>
          var added := Keep(AddEndOfCandidates(peer));
          return if added.Failure? then Failed(added.error) else if described then Finished else Going;
        case Terminal(reason, message) =>
          return Failed(RemoteTerminal(reason, TerminalMessage(message)));
        case _ =>
          return Failed(UnexpectedSignal);
      }
    }

    method HandleDialerSignal(c: DialCoordinator, signal: WebRtcSignal, answered: bool)
      returns (outcome: Outcome, answered': bool)
      modifies this
      ensures (Loop(peer, answered'), outcome) == DialerReacts(media, c, Loop(old(peer), answered), signal)
    {
      if !c.Accepts(signal) {
        return Failed(WrongRoute), answered;
      }
      if signal.body.Answer? {
        var applied := Keep(ApplyAnswer(media, peer, signal.body.sdp));
        if applied.Failure? {
          return Failed(applied.error), answered;
        }
        return Going, true;
      }
      outcome := HandleIce(signal.body, answered);
      return outcome, answered;
    }

    /** The first offer is answered; the sender it is answered with is used up by then. */
    method HandleAnswererSignal(c: DialCoordinator, signal: WebRtcSignal, offered: bool)
      returns (outcome: Outcome, offered': bool, answer: Option<WebRtcSignal>)
      modifies this
      ensures (Loop(peer, offered'), outcome, answer) == AnswererReacts(media, c, Loop(old(peer), offered), signal)
    {
      if !c.Accepts(signal) {
        return Failed(WrongRoute), offered, None;
      }
      if signal.body.Offer? {
        var applied := Keep(ApplyOffer(media, peer, signal.body.sdp));
        if applied.Failure? {
          return Failed(applied.error), offered, None;
        }
        if offered {
          return Failed(AnswerAlreadySent), offered, None;
        }
        return Going, true, Some(c.Signal(Answer(media.answerFor(signal.body.sdp))));
      }
      outcome := HandleIce(signal.body, offered);
      return outcome, offered, None;
    }

    /** Handle signals until the answerer's candidates have ended. */
    method ReceiveDialerSignals(c: DialCoordinator, incoming: seq<WebRtcSignal>)
      returns (r: Result<(), HandshakeError>, ghost consumed: nat, ghost answered: bool)
      modifies this
      ensures LoopEnd(r, Loop(peer, answered), consumed, []) == DialerLoop(media, c, Loop(old(peer), false), incoming)
    {
      var next, described := 0, false;
      while next < |incoming|
        invariant next <= |incoming|
        invariant After(next, [], DialerLoop(media, c, Loop(peer, described), incoming[next..]))
               == DialerLoop(media, c, Loop(old(peer), false), incoming)
      {
        var signal := incoming[next];
        assert incoming[next..][1..] == incoming[next + 1..];
        next := next + 1;
        var outcome;
        outcome, described := HandleDialerSignal(c, signal, described);
        match outcome {
          case Going =>
          case Finished => return Success(()), next, described;
          case Failed(e) => return Failure(e), next, described;
        }
      }
      return Failure(StreamEnded), next, described;
    }

    /** Handle signals until the dialer's candidates have ended. */
    method ReceiveAnswererSignals(c: DialCoordinator, incoming: seq<WebRtcSignal>)
      returns (r: Result<(), HandshakeError>, sent: seq<WebRtcSignal>, ghost consumed: nat, ghost offered: bool)
      modifies this
      ensures LoopEnd(r, Loop(peer, offered), consumed, sent)
              == AnswererLoop(media, c, Loop(old(peer), false), incoming)
    {
      var next, described := 0, false;
      sent := [];
      while next < |incoming|
        invariant next <= |incoming|
        invariant After(next, sent, AnswererLoop(media, c, Loop(peer, described), incoming[next..]))
               == AnswererLoop(media, c, Loop(old(peer), false), incoming)
      {
        var signal := incoming[next];
        assert incoming[next..][1..] == incoming[next + 1..];
        ghost var was, before := sent, Loop(peer, described);
        next := next + 1;
        var outcome, answer;
        outcome, described, answer := HandleAnswererSignal(c, signal, described);
        if answer.Some? {
          sent := sent + [answer.value];
        }
        AfterStep(next - 1, was, AnswererLoop(media, c, Loop(peer, described), incoming[next..]), answer);
        match outcome {
          case Going =>
          case Finished => return Success(()), sent, next, described;
          case Failed(e) => return Failure(e), sent, next, described;
        }
      }
      return Failure(StreamEnded), sent, next, described;
    }
  }

  lemma AfterStep(n: nat, sent: seq<WebRtcSignal>, e: LoopEnd, answer: Option<WebRtcSignal>)
    ensures var answers := if answer.Some? then [answer.value] else [];
      After(n, sent, After(1, answers, e)) == After(n + 1, if answer.Some? then sent + [answer.value] else sent, e)
  {
    if answer.Some? {
      assert sent + ([answer.value] + e.answers) == sent + [answer.value] + e.answers;
    }
  }

  // ---- Sending local candidates ----

  function IceSignal(c: DialCoordinator, event: LocalIceEvent): WebRtcSignal {
    match event
    case Candidate(candidate) => c.Signal(Ice(candidate))
    case EndOfCandidates => c.Signal(NoMoreCandidates)
  }

  function IceSignals(c: DialCoordinator, events: seq<LocalIceEvent>): (r: seq<WebRtcSignal>)
    ensures |r| == |events|
    ensures forall i :: 0 <= i < |events| ==> r[i] == IceSignal(c, events[i])
  {
    seq(|events|, i requires 0 <= i < |events| => IceSignal(c, events[i]))
  }

  /** Up to and with the first end marker. */
  function UpToMarker(events: seq<LocalIceEvent>): seq<LocalIceEvent>
    decreases |events|
  {
    if events == [] then []
    else if events[0].EndOfCandidates? then [events[0]]
    else [events[0]] + UpToMarker(events[1..])
  }

  lemma {:induction false} MarkerAt(events: seq<LocalIceEvent>, n: nat)
    requires n <= |events| && EndOfCandidates !in events[..n]
    ensures n == |events| ==> UpToMarker(events) == events
    ensures n < |events| && events[n].EndOfCandidates? ==> UpToMarker(events) == events[..n + 1]
    decreases n
  {
    if n > 0 {
      assert events[0] in events[..n];
      assert events[1..][..n - 1] == events[..n][1..];
      MarkerAt(events[1..], n - 1);
    }
  }

  /** The ICE task: it sends what the queue hands out, and stops after the end marker. */
  method SendLocalIce(c: DialCoordinator, handedOut: seq<LocalIceEvent>)
    returns (out: seq<WebRtcSignal>, finished: bool)
    ensures out == IceSignals(c, UpToMarker(handedOut))
    ensures finished <==> EndOfCandidates in handedOut
  {
    out, finished := [], false;
    var next := 0;
    while next < |handedOut|
      invariant next <= |handedOut|
      invariant EndOfCandidates !in handedOut[..next]
      invariant out == IceSignals(c, handedOut[..next])
    {
      var event := handedOut[next];
      out := out + [IceSignal(c, event)];
      if event.EndOfCandidates? {
        MarkerAt(handedOut, next);
        return out, true;
      }
      next := next + 1;
    }
    MarkerAt(handedOut, next);
  }
}
