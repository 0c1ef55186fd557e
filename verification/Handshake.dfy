/**
  Two honest native nodes opening a session over two reliable ordered streams (facade/native.rs):
  every interleaving of their tasks, of local ICE gathering, and of overflowing ICE queues.
 */
module Handshake {
  import opened Prelude
  import opened IceQueue
  import opened Signaling
  import opened NativeSession

  /** What is fixed for one handshake; `gathered` is what each ICE agent will find. */
  datatype Setup = Setup(
    media: Media,
    dialer: DialCoordinator,
    alpn: string,
    answererAlpns: set<string>,
    intent: TransportIntent,
    offer: string,
    dialerGathers: seq<LocalIceEvent>,
    answererGathers: seq<LocalIceEvent>,
    dialerCapacity: nat,
    answererCapacity: nat)

  ghost predicate ValidEvents(m: Media, events: seq<LocalIceEvent>) {
    forall e :: e in events && e.Candidate? ==> m.validCandidate(e.candidate)
  }

  /** Gathering ends, the protocol is served, and each side accepts what the other side's own stack has made. */
  ghost predicate Honest(u: Setup) {
    && u.intent.UsesWebRtc() && u.alpn in u.answererAlpns
    && u.media.validSdp(u.offer) && u.media.validSdp(u.media.answerFor(u.offer))
    && u.dialerCapacity > 0 && u.answererCapacity > 0
    && EndOfCandidates in u.dialerGathers && EndOfCandidates in u.answererGathers
    && ValidEvents(u.media, u.dialerGathers) && ValidEvents(u.media, u.answererGathers)
  }

  /** The ICE side of a node: what is still to be gathered, its queue, and the task that empties it. */
  datatype IceSide = IceSide(gather: seq<LocalIceEvent>, history: History, started: bool, finished: bool)

  /** The receive side of a node: how many signals it has read, and how its loop stands. */
  datatype Reader = Reader(read: nat, state: Loop, outcome: Outcome, joined: bool)

  /** `toAnswerer` and `toDialer` are everything ever sent on each stream. */
  datatype Machine = Machine(
    toAnswerer: seq<WebRtcSignal>,
    toDialer: seq<WebRtcSignal>,
    dialerIce: IceSide,
    answererIce: IceSide,
    dialer: Reader,
    answerer: Reader,
    responder: Option<DialCoordinator>)

  datatype Choice =
    | SendDialRequest
    | SendOffer
    | ReadDialRequest
    | DialerReads
    | AnswererReads
    | DialerGathers
    | AnswererGathers
    | DialerSendsIce
    | AnswererSendsIce
    | DialerJoins
    | AnswererJoins

  function NewIce(gathers: seq<LocalIceEvent>, capacity: nat): IceSide {
    IceSide(gathers, History(IceState(capacity, [], None, false), [], [], []), false, false)
  }

  const NEW_READER: Reader := Reader(0, NEW_LOOP, Going, false)

  function Start(u: Setup): Machine {
    Machine([], [], NewIce(u.dialerGathers, u.dialerCapacity), NewIce(u.answererGathers, u.answererCapacity),
            NEW_READER, NEW_READER, None)
  }

  // ---- Steps; one that is not possible changes nothing ----

  function Gather(i: IceSide): IceSide {
    if i.gather == [] then i
    else i.(gather := i.gather[1..], history := IceQueue.Step(i.history, Push(i.gather[0])))
  }

  predicate CanSendIce(i: IceSide) {
    i.started && !i.finished && i.history.now.queue != []
  }

  /** The ICE task takes one event and sends it; the end marker is its last. */
  function SendIce(c: DialCoordinator, i: IceSide): (IceSide, seq<WebRtcSignal>) {
    if !CanSendIce(i) then (i, [])
    else
      var event := i.history.now.queue[0];
      (i.(history := IceQueue.Step(i.history, Poll(0)), finished := event.EndOfCandidates?), [IceSignal(c, event)])
  }

  predicate CanRead(r: Reader, stream: seq<WebRtcSignal>) {
    r.outcome.Going? && r.read < |stream|
  }

  /** The answerer learns who calls from the first signal; a dial over the relay leaves it nothing to do. */
  function AcceptRequest(u: Setup, signal: WebRtcSignal): (Option<DialCoordinator>, Outcome) {
    var self, r := u.dialer.remote, signal.route;
    if !signal.body.DialRequest? then (None, Failed(UnexpectedSignal))
    else if r.recipient != self then (None, Failed(WrongRoute))
    else if !signal.body.transportIntent.UsesWebRtc() then (None, Finished)
    else if signal.body.alpn !in u.answererAlpns then (None, Failed(UnsupportedProtocol))
    else (Some(DialCoordinator(self, r.sender, r.dialId, r.generation)), Going)
  }

  function Step(u: Setup, s: Machine, choice: Choice): Machine {
    match choice
    case SendDialRequest =>
      if s.toAnswerer != [] then s
      else s.(toAnswerer := [u.dialer.Signal(DialRequest(u.alpn, u.intent))])
    case SendOffer =>
      if |s.toAnswerer| != 1 then s
      else s.(toAnswerer := s.toAnswerer + [u.dialer.Signal(Offer(u.offer))],
              dialerIce := s.dialerIce.(started := true))
    case ReadDialRequest =>
      if s.responder.Some? || !CanRead(s.answerer, s.toAnswerer) then s
      else
        var (c, outcome) := AcceptRequest(u, s.toAnswerer[s.answerer.read]);
        s.(responder := c, answerer := s.answerer.(read := s.answerer.read + 1, outcome := outcome))
    case DialerReads =>
      if !s.dialerIce.started || !CanRead(s.dialer, s.toDialer) then s
      else
        var (state, outcome) := DialerReacts(u.media, u.dialer, s.dialer.state, s.toDialer[s.dialer.read]);
        s.(dialer := Reader(s.dialer.read + 1, state, outcome, false))
    case AnswererReads =>
      if s.responder.None? || !CanRead(s.answerer, s.toAnswerer) then s
      else
        var (state, outcome, answer) :=
          AnswererReacts(u.media, s.responder.value, s.answerer.state, s.toAnswerer[s.answerer.read]);
        var next := s.(answerer := Reader(s.answerer.read + 1, state, outcome, false));
        if answer.None? then next
        else next.(toDialer := s.toDialer + [answer.value], answererIce := s.answererIce.(started := true))
    case DialerGathers => s.(dialerIce := Gather(s.dialerIce))
    case AnswererGathers => s.(answererIce := Gather(s.answererIce))
    case DialerSendsIce =>
      var (ice, signals) := SendIce(u.dialer, s.dialerIce);
      s.(dialerIce := ice, toAnswerer := s.toAnswerer + signals)
    case AnswererSendsIce =>
      if s.responder.None? then s
      else
        var (ice, signals) := SendIce(s.responder.value, s.answererIce);
        s.(answererIce := ice, toDialer := s.toDialer + signals)
    case DialerJoins =>
      if s.dialer.outcome.Finished? && s.dialerIce.finished then s.(dialer := s.dialer.(joined := true)) else s
    case AnswererJoins =>
      if s.answerer.outcome.Finished? && s.answererIce.finished then s.(answerer := s.answerer.(joined := true)) else s
  }

  function Run(u: Setup, choices: seq<Choice>): Machine
    decreases |choices|
  {
    if choices == [] then Start(u) else Step(u, Run(u, choices[..|choices| - 1]), choices[|choices| - 1])
  }

  // ---- The invariant ----

  function Candidates(events: seq<LocalIceEvent>): seq<IceCandidate>
    decreases |events|
  {
    if events == [] then []
    else
      var last := events[|events| - 1];
      Candidates(events[..|events| - 1]) + if last.Candidate? then [last.candidate] else []
  }

  predicate EndsWithMarker(events: seq<LocalIceEvent>) {
    events != [] && events[|events| - 1].EndOfCandidates?
  }

  /** The ICE side: the end marker is on its way, however often the queue overflows. */
  ghost predicate IceInv(m: Media, i: IceSide) {
    && IceQueue.Inv(i.history) && !i.history.now.closed && i.history.now.capacity > 0
    && ValidEvents(m, i.gather) && ValidEvents(m, i.history.now.queue) && ValidEvents(m, i.history.delivered)
    && (i.finished <==> EndsWithMarker(i.history.delivered))
    && (i.history.delivered != [] ==>
          i.started && EndOfCandidates !in i.history.delivered[..|i.history.delivered| - 1])
    && (!i.finished ==> EndOfCandidates in i.history.now.queue || EndOfCandidates in i.gather)
  }

  /** A stream: first its opening signals, then the events that the ICE task was handed. */
  predicate StreamIs(stream: seq<WebRtcSignal>, opening: seq<WebRtcSignal>, c: DialCoordinator, i: IceSide) {
    stream == opening + IceSignals(c, i.history.delivered)
  }

  function DialerOpening(u: Setup): seq<WebRtcSignal> {
    [u.dialer.Signal(DialRequest(u.alpn, u.intent)), u.dialer.Signal(Offer(u.offer))]
  }

  function AnswererOpening(u: Setup): seq<WebRtcSignal> {
    [u.dialer.Mirror().Signal(Answer(u.media.answerFor(u.offer)))]
  }

  /**
    The reader of a stream with `opening` signals before the ICE events: it has applied the
    description exactly when it has read the opening, and since then just the candidates it read.
   */
  predicate ReaderInv(r: Reader, opening: nat, description: string, sent: seq<LocalIceEvent>) {
    && (r.joined ==> r.outcome.Finished?)
    && (r.state.described <==> r.read >= opening)
    && r.state.peer.remote == (if r.state.described then Some(description) else None)
    && (r.read < opening ==> r.state.peer == NEW_PEER && r.outcome.Going?)
    && (r.read >= opening ==>
          && r.read - opening <= |sent|
          && r.state.peer.applied == Candidates(sent[..r.read - opening])
          && r.outcome == (if EndsWithMarker(sent[..r.read - opening]) then Finished else Going))
  }

  ghost predicate Inv(u: Setup, s: Machine) {
    && IceInv(u.media, s.dialerIce) && IceInv(u.media, s.answererIce)
    && (if s.dialerIce.started then StreamIs(s.toAnswerer, DialerOpening(u), u.dialer, s.dialerIce)
        else
          && s.dialerIce.history.delivered == []
          && |s.toAnswerer| <= 1 && s.toAnswerer == DialerOpening(u)[..|s.toAnswerer|])
    && (if s.answererIce.started then StreamIs(s.toDialer, AnswererOpening(u), u.dialer.Mirror(), s.answererIce)
        else s.answererIce.history.delivered == [] && s.toDialer == [])
    && (s.responder == if s.answerer.read == 0 then None else Some(u.dialer.Mirror()))
    && (s.answererIce.started <==> s.answerer.state.described)
    && s.answerer.read <= |s.toAnswerer| && s.dialer.read <= |s.toDialer|
    && ReaderInv(s.answerer, 2, u.offer, s.dialerIce.history.delivered)
    && ReaderInv(s.dialer, 1, u.media.answerFor(u.offer), s.answererIce.history.delivered)
    && (s.dialer.joined ==> s.dialerIce.finished) && (s.answerer.joined ==> s.answererIce.finished)
  }

  // ---- Each kind of step keeps the invariant ----

  lemma GatherKeeps(m: Media, i: IceSide)
    requires IceInv(m, i)
    ensures IceInv(m, Gather(i)) && Gather(i).history.delivered == i.history.delivered
  {
    if i.gather != [] {
      var event := i.gather[0];
      PushKeeps(i.history, event);
      assert i.gather == [event] + i.gather[1..];
      PushedEvents(i.history.now, event);
    }
  }

  /** What is queued after a push: nothing new but the event, and a marker neither vanishes nor is refused. */
  lemma PushedEvents(q: IceState, event: LocalIceEvent)
    requires Valid(q) && !q.closed && q.capacity > 0
    ensures var after := Pushed(q, event).after;
      && !after.closed && after.capacity == q.capacity
      && (forall e :: e in after.queue ==> e in q.queue || e == event)
      && (EndOfCandidates in q.queue || event.EndOfCandidates? ==> EndOfCandidates in after.queue)
  {
    var after := Pushed(q, event).after;
    if Pushed(q, event).appended {
      assert after.queue[|after.queue| - 1] == event;
      assert forall e :: e in q.queue && Pushed(q, event).evicted == [] ==> e in after.queue;
    }
  }

  lemma IceSignalsSnoc(c: DialCoordinator, events: seq<LocalIceEvent>, event: LocalIceEvent, opening: seq<WebRtcSignal>)
    ensures opening + IceSignals(c, events + [event]) == (opening + IceSignals(c, events)) + [IceSignal(c, event)]
  {
  }

  lemma NoMarkerSoFar(done: seq<LocalIceEvent>)
    requires done != [] ==> EndOfCandidates !in done[..|done| - 1]
    requires !EndsWithMarker(done)
    ensures EndOfCandidates !in done
  {
    if done != [] {
      assert done == done[..|done| - 1] + [done[|done| - 1]];
    }
  }

  lemma FirstOrLater(q: seq<LocalIceEvent>)
    requires q != []
    ensures forall e :: e in q ==> e == q[0] || e in q[1..]
  {
    assert q == [q[0]] + q[1..];
  }

  lemma SendIceKeeps(m: Media, c: DialCoordinator, i: IceSide)
    requires IceInv(m, i) && CanSendIce(i)
    ensures IceInv(m, SendIce(c, i).0)
  {
    var done, event := i.history.delivered, i.history.now.queue[0];
    PollKeeps(i.history, 0);
    FirstOrLater(i.history.now.queue);
    NoMarkerSoFar(done);
    assert (done + [event])[..|done|] == done;
  }

  lemma SendIceStream(c: DialCoordinator, i: IceSide, stream: seq<WebRtcSignal>, opening: seq<WebRtcSignal>)
    requires StreamIs(stream, opening, c, i) && CanSendIce(i)
    ensures var (i', signals) := SendIce(c, i);
      && StreamIs(stream + signals, opening, c, i')
      && i'.history.delivered == i.history.delivered + [i.history.now.queue[0]]
  {
    IceSignalsSnoc(c, i.history.delivered, i.history.now.queue[0], opening);
  }

  lemma MoreSent(r: Reader, opening: nat, description: string, sent: seq<LocalIceEvent>, event: LocalIceEvent)
    requires ReaderInv(r, opening, description, sent)
    ensures ReaderInv(r, opening, description, sent + [event])
  {
    if r.read >= opening {
      assert (sent + [event])[..r.read - opening] == sent[..r.read - opening];
    }
  }

  /** A reader past the opening applies the next event, and finishes on the end marker. */
  lemma ReadIceEvent(m: Media, c: DialCoordinator, r: Reader, opening: nat, description: string,
                     sent: seq<LocalIceEvent>)
    requires opening > 0 && ReaderInv(r, opening, description, sent) && r.outcome.Going? && ValidEvents(m, sent)
    requires opening <= r.read < opening + |sent|
    ensures var (state, outcome) := ReactToIce(m, r.state, IceSignal(c, sent[r.read - opening]).body);
      ReaderInv(Reader(r.read + 1, state, outcome, false), opening, description, sent)
  {
    var k := r.read - opening;
    assert sent[..k + 1][..k] == sent[..k];
    assert sent[k] in sent;
  }

  /** A candidate or end marker passes the route check and is handled alike on both sides. */
  lemma IceReaction(m: Media, c: DialCoordinator, state: Loop, event: LocalIceEvent)
    ensures var signal := IceSignal(c.Mirror(), event);
      var (state', outcome) := ReactToIce(m, state, signal.body);
      && DialerReacts(m, c, state, signal) == (state', outcome)
      && AnswererReacts(m, c, state, signal) == (state', outcome, None)
  {
  }

  lemma ReadOpening(u: Setup, r: Reader, sent: seq<LocalIceEvent>)
    requires Honest(u)
    ensures ReaderInv(r, 1, u.media.answerFor(u.offer), sent) && r.read == 0 ==>
              var (state, outcome) := DialerReacts(u.media, u.dialer, r.state, AnswererOpening(u)[0]);
              ReaderInv(Reader(1, state, outcome, false), 1, u.media.answerFor(u.offer), sent)
    ensures ReaderInv(r, 2, u.offer, sent) && r.read == 1 ==>
              var (state, outcome, answer) := AnswererReacts(u.media, u.dialer.Mirror(), r.state, DialerOpening(u)[1]);
              ReaderInv(Reader(2, state, outcome, false), 2, u.offer, sent) && answer == Some(AnswererOpening(u)[0])
  {
    assert sent[..0] == [];
  }

  lemma OpeningKeeps(u: Setup, s: Machine, choice: Choice)
    requires Honest(u) && Inv(u, s) && choice in {SendDialRequest, SendOffer}
    ensures Inv(u, Step(u, s, choice))
  {
    if choice == SendOffer && |s.toAnswerer| == 1 {
      assert s.toAnswerer + [u.dialer.Signal(Offer(u.offer))] == DialerOpening(u) + IceSignals(u.dialer, []);
    }
  }

  /** Only the dialer's reader changes. */
  lemma DialerReaderChanged(u: Setup, s: Machine, r: Reader)
    requires Inv(u, s) && ReaderInv(r, 1, u.media.answerFor(u.offer), s.answererIce.history.delivered)
    requires r.read <= |s.toDialer| && !r.joined
    ensures Inv(u, s.(dialer := r))
  {
  }

  /** Only the answerer's reader changes, and it has not just read the offer. */
  lemma AnswererReaderChanged(u: Setup, s: Machine, r: Reader)
    requires Inv(u, s) && ReaderInv(r, 2, u.offer, s.dialerIce.history.delivered)
    requires s.answerer.read > 0 && 0 < r.read <= |s.toAnswerer| && !r.joined
    requires r.state.described == s.answerer.state.described
    ensures Inv(u, s.(answerer := r))
  {
  }

  lemma DialerReadsAnswer(u: Setup, s: Machine)
    requires Honest(u) && Inv(u, s) && s.dialer.read == 0
    ensures Inv(u, Step(u, s, DialerReads))
  {
    if s.dialerIce.started && CanRead(s.dialer, s.toDialer) {
      ReadOpening(u, s.dialer, s.answererIce.history.delivered);
      assert s.toDialer[0] == AnswererOpening(u)[0];
      var (state, outcome) := DialerReacts(u.media, u.dialer, s.dialer.state, s.toDialer[0]);
      DialerReaderChanged(u, s, Reader(1, state, outcome, false));
    }
  }

  /** Past its opening a stream holds the events that the ICE task was handed. */
  lemma StreamAt(stream: seq<WebRtcSignal>, opening: seq<WebRtcSignal>, c: DialCoordinator, i: IceSide, k: nat)
    requires StreamIs(stream, opening, c, i) && |opening| <= k < |stream|
    ensures k - |opening| < |i.history.delivered| && stream[k] == IceSignal(c, i.history.delivered[k - |opening|])
  {
  }

  /** The dialer's reader on one ICE signal of the answerer. */
  lemma DialerTurn(u: Setup, r: Reader, sent: seq<LocalIceEvent>, signal: WebRtcSignal)
    requires ReaderInv(r, 1, u.media.answerFor(u.offer), sent) && r.outcome.Going? && ValidEvents(u.media, sent)
    requires 1 <= r.read < 1 + |sent| && signal == IceSignal(u.dialer.Mirror(), sent[r.read - 1])
    ensures var (state, outcome) := DialerReacts(u.media, u.dialer, r.state, signal);
      ReaderInv(Reader(r.read + 1, state, outcome, false), 1, u.media.answerFor(u.offer), sent)
  {
    IceReaction(u.media, u.dialer, r.state, sent[r.read - 1]);
    ReadIceEvent(u.media, u.dialer, r, 1, u.media.answerFor(u.offer), sent);
  }

  /** The answerer's reader on one ICE signal of the dialer: no answer is sent. */
  lemma AnswererTurn(u: Setup, r: Reader, sent: seq<LocalIceEvent>, signal: WebRtcSignal)
    requires ReaderInv(r, 2, u.offer, sent) && r.outcome.Going? && ValidEvents(u.media, sent)
    requires 2 <= r.read < 2 + |sent| && signal == IceSignal(u.dialer, sent[r.read - 2])
    ensures var (state, outcome, answer) := AnswererReacts(u.media, u.dialer.Mirror(), r.state, signal);
      && ReaderInv(Reader(r.read + 1, state, outcome, false), 2, u.offer, sent)
      && answer.None? && state.described
  {
    IceReaction(u.media, u.dialer.Mirror(), r.state, sent[r.read - 2]);
    ReadIceEvent(u.media, u.dialer.Mirror(), r, 2, u.offer, sent);
  }

  lemma DialerReadsIce(u: Setup, s: Machine)
    requires Honest(u) && Inv(u, s) && s.dialer.read > 0
    ensures Inv(u, Step(u, s, DialerReads))
  {
    if CanRead(s.dialer, s.toDialer) {
      var signal := s.toDialer[s.dialer.read];
      StreamAt(s.toDialer, AnswererOpening(u), u.dialer.Mirror(), s.answererIce, s.dialer.read);
      DialerTurn(u, s.dialer, s.answererIce.history.delivered, signal);
      var (state, outcome) := DialerReacts(u.media, u.dialer, s.dialer.state, signal);
      DialerReaderChanged(u, s, Reader(s.dialer.read + 1, state, outcome, false));
    }
  }

  lemma AnswererReadsOffer(u: Setup, s: Machine)
    requires Honest(u) && Inv(u, s) && s.answerer.read == 1
    ensures Inv(u, Step(u, s, AnswererReads))
  {
    if CanRead(s.answerer, s.toAnswerer) {
      ReadOpening(u, s.answerer, s.dialerIce.history.delivered);
      assert s.toAnswerer[1] == DialerOpening(u)[1];
      assert [] + AnswererOpening(u) == AnswererOpening(u) + IceSignals(u.dialer.Mirror(), []);
    }
  }

  lemma AnswererReadsIce(u: Setup, s: Machine)
    requires Honest(u) && Inv(u, s) && s.answerer.read > 1
    ensures Inv(u, Step(u, s, AnswererReads))
  {
    if CanRead(s.answerer, s.toAnswerer) {
      var signal := s.toAnswerer[s.answerer.read];
      StreamAt(s.toAnswerer, DialerOpening(u), u.dialer, s.dialerIce, s.answerer.read);
      AnswererTurn(u, s.answerer, s.dialerIce.history.delivered, signal);
      var (state, outcome, _) := AnswererReacts(u.media, u.dialer.Mirror(), s.answerer.state, signal);
      AnswererReaderChanged(u, s, Reader(s.answerer.read + 1, state, outcome, false));
    }
  }

  lemma DialerSendsKeeps(u: Setup, s: Machine)
    requires Inv(u, s)
    ensures Inv(u, Step(u, s, DialerSendsIce))
  {
    if CanSendIce(s.dialerIce) {
      SendIceKeeps(u.media, u.dialer, s.dialerIce);
      SendIceStream(u.dialer, s.dialerIce, s.toAnswerer, DialerOpening(u));
      MoreSent(s.answerer, 2, u.offer, s.dialerIce.history.delivered, s.dialerIce.history.now.queue[0]);
    }
  }

  lemma AnswererSendsKeeps(u: Setup, s: Machine)
    requires Inv(u, s)
    ensures Inv(u, Step(u, s, AnswererSendsIce))
  {
    if s.responder.Some? && CanSendIce(s.answererIce) {
      var c := u.dialer.Mirror();
      SendIceKeeps(u.media, c, s.answererIce);
      SendIceStream(c, s.answererIce, s.toDialer, AnswererOpening(u));
      var ice := s.answererIce.history;
      MoreSent(s.dialer, 1, u.media.answerFor(u.offer), ice.delivered, ice.now.queue[0]);
    }
  }

  lemma RequestKeeps(u: Setup, s: Machine)
    requires Honest(u) && Inv(u, s)
    ensures Inv(u, Step(u, s, ReadDialRequest))
  {
    if s.responder.None? && CanRead(s.answerer, s.toAnswerer) {
      assert s.toAnswerer[0] == DialerOpening(u)[0];
    }
  }

  lemma DialerGathersKeeps(u: Setup, s: Machine)
    requires Inv(u, s)
    ensures Inv(u, Step(u, s, DialerGathers))
  {
    GatherKeeps(u.media, s.dialerIce);
  }

  lemma AnswererGathersKeeps(u: Setup, s: Machine)
    requires Inv(u, s)
    ensures Inv(u, Step(u, s, AnswererGathers))
  {
    GatherKeeps(u.media, s.answererIce);
  }

  lemma DialerJoinKeeps(u: Setup, s: Machine)
    requires Inv(u, s)
    ensures Inv(u, Step(u, s, DialerJoins))
  {
  }

  lemma AnswererJoinKeeps(u: Setup, s: Machine)
    requires Inv(u, s)
    ensures Inv(u, Step(u, s, AnswererJoins))
  {
  }

  lemma StepKeeps(u: Setup, s: Machine, choice: Choice)
    requires Honest(u) && Inv(u, s)
    ensures Inv(u, Step(u, s, choice))
  {
    match choice
    case SendDialRequest => OpeningKeeps(u, s, choice);
    case SendOffer => OpeningKeeps(u, s, choice);
    case ReadDialRequest => RequestKeeps(u, s);
    case DialerReads =>
      if s.dialer.read == 0 {
        DialerReadsAnswer(u, s);
      } else {
        DialerReadsIce(u, s);
      }
    case AnswererReads =>
      if s.answerer.read == 1 {
        AnswererReadsOffer(u, s);
      } else if s.answerer.read > 1 {
        AnswererReadsIce(u, s);
      }
    case DialerGathers => DialerGathersKeeps(u, s);
    case AnswererGathers => AnswererGathersKeeps(u, s);
    case DialerSendsIce => DialerSendsKeeps(u, s);
    case AnswererSendsIce => AnswererSendsKeeps(u, s);
    case DialerJoins => DialerJoinKeeps(u, s);
    case AnswererJoins => AnswererJoinKeeps(u, s);
  }

  lemma {:induction false} RunKeeps(u: Setup, choices: seq<Choice>)
    requires Honest(u)
    ensures Inv(u, Run(u, choices))
    decreases |choices|
  {
    if choices != [] {
      RunKeeps(u, choices[..|choices| - 1]);
      StepKeeps(u, Run(u, choices[..|choices| - 1]), choices[|choices| - 1]);
    } else {
      assert IceQueue.Run(u.dialerCapacity, []) == NewIce(u.dialerGathers, u.dialerCapacity).history;
      assert IceQueue.Run(u.answererCapacity, []) == NewIce(u.answererGathers, u.answererCapacity).history;
      IceQueue.RunKeeps(u.dialerCapacity, []);
      IceQueue.RunKeeps(u.answererCapacity, []);
    }
  }

  // ---- Progress ----

  function IceWork(i: IceSide): nat {
    3 * |i.gather| + 2 * |i.history.now.queue|
  }

  /** What is left to do; an event weighs less the further it has come. */
  function Measure(s: Machine): int {
    (if s.toAnswerer == [] then 4 else if |s.toAnswerer| == 1 then 2 else 0)
    + IceWork(s.dialerIce) + IceWork(s.answererIce)
    + (|s.toAnswerer| - s.answerer.read) + (|s.toDialer| - s.dialer.read)
    + (if s.answerer.state.described then 0 else 2)
    + (if s.dialer.joined then 0 else 1) + (if s.answerer.joined then 0 else 1)
  }

  lemma MeasureIsNat(u: Setup, s: Machine)
    requires Inv(u, s)
    ensures Measure(s) >= 0
  {
  }

  lemma GatherDecreases(m: Media, i: IceSide)
    requires IceInv(m, i) && Gather(i) != i
    ensures IceWork(Gather(i)) < IceWork(i)
  {
  }

  /** Every step that does anything brings the end nearer. */
  lemma StepDecreases(u: Setup, s: Machine, choice: Choice)
    requires Honest(u) && Inv(u, s) && Step(u, s, choice) != s
    ensures Measure(Step(u, s, choice)) < Measure(s)
  {
    match choice
    case AnswererReads => AnswererReadsDecreases(u, s);
    case DialerReads => DialerReadsDecreases(u, s);
    case DialerGathers => GatherDecreases(u.media, s.dialerIce);
    case AnswererGathers => GatherDecreases(u.media, s.answererIce);
    case DialerSendsIce => SendDecreases(u.dialer, s.dialerIce);
    case AnswererSendsIce => SendDecreases(s.responder.value, s.answererIce);
    case _ => OpeningAndJoinDecrease(u, s, choice);
  }

  lemma SendDecreases(c: DialCoordinator, i: IceSide)
    ensures CanSendIce(i) ==> IceWork(SendIce(c, i).0) == IceWork(i) - 2 && |SendIce(c, i).1| == 1
    ensures !CanSendIce(i) ==> SendIce(c, i) == (i, [])
  {
  }

  lemma OpeningAndJoinDecrease(u: Setup, s: Machine, choice: Choice)
    requires choice in {SendDialRequest, SendOffer, ReadDialRequest, DialerJoins, AnswererJoins}
    requires Step(u, s, choice) != s
    ensures Measure(Step(u, s, choice)) < Measure(s)
  {
  }

  lemma DialerReadsDecreases(u: Setup, s: Machine)
    requires Step(u, s, DialerReads) != s && !s.dialer.joined
    ensures Measure(Step(u, s, DialerReads)) < Measure(s)
  {
  }

  lemma AnswererReadsDecreases(u: Setup, s: Machine)
    requires Honest(u) && Inv(u, s) && Step(u, s, AnswererReads) != s
    ensures Measure(Step(u, s, AnswererReads)) < Measure(s)
  {
    if s.answerer.read == 1 {
      ReadOpening(u, s.answerer, s.dialerIce.history.delivered);
      assert s.toAnswerer[1] == DialerOpening(u)[1];
    } else {
      StreamAt(s.toAnswerer, DialerOpening(u), u.dialer, s.dialerIce, s.answerer.read);
      AnswererTurn(u, s.answerer, s.dialerIce.history.delivered, s.toAnswerer[s.answerer.read]);
    }
  }

  /** Something that can be done next. */
  function NextChoice(s: Machine): Choice {
    if s.toAnswerer == [] then SendDialRequest
    else if |s.toAnswerer| == 1 then SendOffer
    else if s.dialerIce.gather != [] then DialerGathers
    else if CanSendIce(s.dialerIce) then DialerSendsIce
    else if s.answerer.read == 0 then ReadDialRequest
    else if s.answerer.outcome.Going? then AnswererReads
    else if s.answererIce.gather != [] then AnswererGathers
    else if CanSendIce(s.answererIce) then AnswererSendsIce
    else if s.dialer.outcome.Going? then DialerReads
    else if !s.dialer.joined then DialerJoins
    else AnswererJoins
  }

  lemma FinishedIce(m: Media, i: IceSide)
    requires IceInv(m, i) && i.started && i.gather == [] && !CanSendIce(i)
    ensures i.finished && EndsWithMarker(i.history.delivered)
  {
  }

  /** Nothing is left unread by a reader that still goes on, once the other side's ICE is finished. */
  lemma NotAllRead(r: Reader, opening: nat, description: string, sent: seq<LocalIceEvent>)
    requires ReaderInv(r, opening, description, sent) && r.outcome.Going? && EndsWithMarker(sent)
    ensures r.read < opening + |sent|
  {
    assert sent[..|sent|] == sent;
  }

  /** The answerer's loop is Going or Finished, and while it is Going it can read. */
  lemma AnswererMoves(u: Setup, s: Machine)
    requires Honest(u) && Inv(u, s) && s.dialerIce.finished && s.answerer.outcome.Going?
    ensures CanRead(s.answerer, s.toAnswerer)
  {
    NotAllRead(s.answerer, 2, u.offer, s.dialerIce.history.delivered);
  }

  lemma DialerMoves(u: Setup, s: Machine)
    requires Honest(u) && Inv(u, s) && s.answererIce.finished && s.dialer.outcome.Going?
    ensures CanRead(s.dialer, s.toDialer)
  {
    NotAllRead(s.dialer, 1, u.media.answerFor(u.offer), s.answererIce.history.delivered);
  }

  /** A choice that is possible changes something. */
  lemma PossibleChoicesAct(u: Setup, s: Machine)
    ensures s.dialerIce.gather != [] ==> Step(u, s, DialerGathers) != s
    ensures s.answererIce.gather != [] ==> Step(u, s, AnswererGathers) != s
    ensures CanSendIce(s.dialerIce) ==> Step(u, s, DialerSendsIce) != s
    ensures CanSendIce(s.answererIce) && s.responder.Some? ==> Step(u, s, AnswererSendsIce) != s
    ensures CanRead(s.dialer, s.toDialer) && s.dialerIce.started ==> Step(u, s, DialerReads) != s
    ensures CanRead(s.answerer, s.toAnswerer) && s.responder.Some? ==> Step(u, s, AnswererReads) != s
  {
  }

  /** No deadlock: until both sides have returned, something can be done. */
  lemma NoDeadlock(u: Setup, s: Machine)
    requires Honest(u) && Inv(u, s) && !(s.dialer.joined && s.answerer.joined)
    ensures Step(u, s, NextChoice(s)) != s
  {
    PossibleChoicesAct(u, s);
    if |s.toAnswerer| > 1 && s.dialerIce.gather == [] && !CanSendIce(s.dialerIce) {
      FinishedIce(u.media, s.dialerIce);
      if s.answerer.outcome.Going? {
        AnswererMoves(u, s);
      } else if s.answererIce.gather == [] && !CanSendIce(s.answererIce) {
        FinishedIce(u.media, s.answererIce);
        if s.dialer.outcome.Going? {
          DialerMoves(u, s);
        }
      }
    }
  }

  // ---- What holds of every handshake ----

  function WorkDone(u: Setup, choices: seq<Choice>): nat
    decreases |choices|
  {
    if choices == [] then 0
    else
      var before := choices[..|choices| - 1];
      WorkDone(u, before) + if Step(u, Run(u, before), choices[|choices| - 1]) == Run(u, before) then 0 else 1
  }

  lemma {:induction false} WorkIsPaidFor(u: Setup, choices: seq<Choice>)
    requires Honest(u)
    ensures WorkDone(u, choices) + Measure(Run(u, choices)) <= Measure(Start(u))
    decreases |choices|
  {
    if choices != [] {
      var before, last := choices[..|choices| - 1], choices[|choices| - 1];
      WorkIsPaidFor(u, before);
      RunKeeps(u, before);
      if Step(u, Run(u, before), last) != Run(u, before) {
        StepDecreases(u, Run(u, before), last);
      }
    }
  }

  /** No interleaving goes on for ever: the steps that do something are bounded from the start. */
  lemma Terminates(u: Setup, choices: seq<Choice>)
    requires Honest(u)
    ensures WorkDone(u, choices) <= 8 + 3 * (|u.dialerGathers| + |u.answererGathers|)
  {
    WorkIsPaidFor(u, choices);
    RunKeeps(u, choices);
    MeasureIsNat(u, Run(u, choices));
  }

  /** In no interleaving does a receive loop fail, and candidates are applied only after the description. */
  lemma NoLoopFails(u: Setup, choices: seq<Choice>)
    requires Honest(u)
    ensures var s := Run(u, choices);
      && !s.dialer.outcome.Failed? && !s.answerer.outcome.Failed?
      && (s.dialer.state.peer.remote.None? ==> s.dialer.state.peer == NEW_PEER)
      && (s.answerer.state.peer.remote.None? ==> s.answerer.state.peer == NEW_PEER)
  {
    RunKeeps(u, choices);
  }

  /** The answer is the first signal back and no other is one; a dialer that has finished has read it. */
  lemma AnswerSentOnce(u: Setup, choices: seq<Choice>)
    requires Honest(u)
    ensures var s := Run(u, choices);
      && (forall i :: 0 <= i < |s.toDialer| ==> (s.toDialer[i].body.Answer? <==> i == 0))
      && (s.toDialer != [] <==> s.answerer.state.described)
      && (s.dialer.outcome.Finished? ==> s.toDialer != [])
  {
    RunKeeps(u, choices);
    var s := Run(u, choices);
    if s.answererIce.started {
      assert s.toDialer == AnswererOpening(u) + IceSignals(u.dialer.Mirror(), s.answererIce.history.delivered);
    }
  }

  /**
    Where nothing more can happen, both sides have returned successfully, each with the other's
    description and with exactly the candidates that the other's ICE task was handed.
   */
  lemma StuckMeansDone(u: Setup, choices: seq<Choice>)
    requires Honest(u) && forall c :: Step(u, Run(u, choices), c) == Run(u, choices)
    ensures var s := Run(u, choices);
      && s.dialer.joined && s.answerer.joined && s.dialer.outcome.Finished? && s.answerer.outcome.Finished?
      && s.dialer.state.peer.remote == Some(u.media.answerFor(u.offer))
      && s.answerer.state.peer.remote == Some(u.offer)
      && s.dialer.state.peer.applied == Candidates(s.answererIce.history.delivered)
      && s.answerer.state.peer.applied == Candidates(s.dialerIce.history.delivered)
  {
    RunKeeps(u, choices);
    var s := Run(u, choices);
    if !(s.dialer.joined && s.answerer.joined) {
      NoDeadlock(u, s);
      assert false;
    }
    AllRead(s.answerer, 2, u.offer, s.dialerIce.history.delivered);
    AllRead(s.dialer, 1, u.media.answerFor(u.offer), s.answererIce.history.delivered);
  }

  /** A reader that finished has read everything, since the end marker is the last thing sent. */
  lemma AllRead(r: Reader, opening: nat, description: string, sent: seq<LocalIceEvent>)
    requires ReaderInv(r, opening, description, sent) && r.outcome.Finished?
    requires sent != [] ==> EndOfCandidates !in sent[..|sent| - 1]
    ensures r.read == opening + |sent| && r.state.peer.applied == Candidates(sent)
  {
    if sent != [] {
      assert forall j :: 0 <= j < |sent| - 1 ==> sent[j] in sent[..|sent| - 1];
    }
    assert sent[..|sent|] == sent;
  }

  /** However often a queue overflows: before the end marker it evicts at most one candidate, and never the marker. */
  lemma OverflowEvictsLittle(u: Setup, choices: seq<Choice>)
    requires Honest(u)
    ensures forall i :: i in {Run(u, choices).dialerIce, Run(u, choices).answererIce} ==>
              && Subsequence(i.history.delivered, i.history.appended)
              && EndOfCandidates !in i.history.evicted
              && (!i.finished ==> |i.history.evicted| <= 1)
  {
    RunKeeps(u, choices);
    forall i | i in {Run(u, choices).dialerIce, Run(u, choices).answererIce}
      ensures Subsequence(i.history.delivered, i.history.appended)
      ensures EndOfCandidates !in i.history.evicted
      ensures !i.finished ==> |i.history.evicted| <= 1
    {
      SubsequenceFront(i.history.delivered, i.history.now.queue, i.history.appended);
      if !i.finished {
        NoMarkerSoFar(i.history.delivered);
      }
    }
  }

  // ---- What is gathered and what comes through ----

  /**
    Of what was gathered so far the queue lets in a part, in order; it refuses and evicts nothing at
    all if everything there is to gather fits.
   */
  ghost predicate GatherInv(all: seq<LocalIceEvent>, i: IceSide) {
    && |i.gather| <= |all| && i.gather == all[|all| - |i.gather|..]
    && LetIn(all, |all| - |i.gather|, i.history)
  }

  lemma PushedPart(h: History, gathered: seq<LocalIceEvent>, event: LocalIceEvent)
    requires Subsequence(h.appended, gathered)
    ensures Subsequence(IceQueue.Step(h, Push(event)).appended, gathered + [event])
  {
    SubsequenceSnoc(h.appended, gathered, event);
    SubsequencePrefix(h.appended, gathered, event);
  }

  lemma PushedWhole(h: History, gathered: seq<LocalIceEvent>, event: LocalIceEvent)
    requires IceQueue.Inv(h) && !h.now.closed
    requires h.appended == gathered && h.evicted == [] && |gathered| < h.now.capacity
    ensures IceQueue.Step(h, Push(event)).appended == gathered + [event] && IceQueue.Step(h, Push(event)).evicted == []
  {
  }

  lemma NextOf<T>(all: seq<T>, k: nat)
    requires k < |all|
    ensures all[k..][0] == all[k] && all[k..][1..] == all[k + 1..]
  {
  }

  ghost predicate LetIn(all: seq<LocalIceEvent>, k: nat, h: History)
    requires k <= |all|
  {
    && Subsequence(h.appended, all[..k])
    && (|all| <= h.now.capacity ==> h.appended == all[..k] && h.evicted == [])
  }

  lemma PushLetsIn(all: seq<LocalIceEvent>, k: nat, h: History)
    requires IceQueue.Inv(h) && !h.now.closed && k < |all| && LetIn(all, k, h)
    ensures LetIn(all, k + 1, IceQueue.Step(h, Push(all[k])))
  {
    assert all[..k + 1] == all[..k] + [all[k]];
    PushedPart(h, all[..k], all[k]);
    if |all| <= h.now.capacity {
      PushedWhole(h, all[..k], all[k]);
    }
  }

  lemma GatherKeepsCapacity(i: IceSide)
    ensures Gather(i).history.now.capacity == i.history.now.capacity
  {
  }

  lemma GatherGathers(m: Media, all: seq<LocalIceEvent>, i: IceSide)
    requires IceInv(m, i) && GatherInv(all, i)
    ensures GatherInv(all, Gather(i))
  {
    if i.gather != [] {
      var k := |all| - |i.gather|;
      NextOf(all, k);
      PushLetsIn(all, k, i.history);
    }
  }

  lemma SendingGathersNothing(c: DialCoordinator, all: seq<LocalIceEvent>, i: IceSide)
    requires GatherInv(all, i)
    ensures GatherInv(all, SendIce(c, i).0)
  {
  }

  lemma SideKept(m: Media, c: DialCoordinator, all: seq<LocalIceEvent>, i: IceSide, i': IceSide)
    requires IceInv(m, i) && GatherInv(all, i) && i' in {i, i.(started := true), Gather(i), SendIce(c, i).0}
    ensures GatherInv(all, i') && i'.history.now.capacity == i.history.now.capacity
  {
    if i' == Gather(i) {
      GatherKeepsCapacity(i);
      GatherGathers(m, all, i);
    } else if i' == SendIce(c, i).0 {
      SendingGathersNothing(c, all, i);
    }
  }

  /** What a step can do to the ICE side of a node. */
  lemma SidesStep(u: Setup, s: Machine, choice: Choice)
    ensures Step(u, s, choice).dialerIce in
              {s.dialerIce, s.dialerIce.(started := true), Gather(s.dialerIce), SendIce(u.dialer, s.dialerIce).0}
    ensures s.responder.None? || s.responder == Some(u.dialer.Mirror()) ==>
              Step(u, s, choice).answererIce in
                {s.answererIce, s.answererIce.(started := true), Gather(s.answererIce),
                 SendIce(u.dialer.Mirror(), s.answererIce).0}
  {
  }

  lemma {:induction false} RunGathers(u: Setup, choices: seq<Choice>)
    requires Honest(u)
    ensures GatherInv(u.dialerGathers, Run(u, choices).dialerIce)
    ensures GatherInv(u.answererGathers, Run(u, choices).answererIce)
    ensures Run(u, choices).dialerIce.history.now.capacity == u.dialerCapacity
    ensures Run(u, choices).answererIce.history.now.capacity == u.answererCapacity
    decreases |choices|
  {
    if choices != [] {
      var before, last := choices[..|choices| - 1], choices[|choices| - 1];
      var s := Run(u, before);
      RunGathers(u, before);
      RunKeeps(u, before);
      SidesStep(u, s, last);
      SideKept(u.media, u.dialer, u.dialerGathers, s.dialerIce, Step(u, s, last).dialerIce);
      SideKept(u.media, u.dialer.Mirror(), u.answererGathers, s.answererIce, Step(u, s, last).answererIce);
    }
  }

  lemma {:induction false} SubsequenceOfEqualLength<T>(a: seq<T>, b: seq<T>)
    requires Subsequence(a, b)
    ensures |a| <= |b| && (|a| == |b| ==> a == b)
    decreases |b|
  {
    if a != [] {
      var a', b' := a[..|a| - 1], b[..|b| - 1];
      if Subsequence(a, b') {
        SubsequenceOfEqualLength(a, b');
      } else {
        SubsequenceOfEqualLength(a', b');
        assert a == a' + [a[|a| - 1]] && b == b' + [b[|b| - 1]];
      }
    }
  }

  /** If all fits, what an ICE task has handed out is a front part of what was gathered. */
  lemma FrontHandedOut(m: Media, all: seq<LocalIceEvent>, i: IceSide)
    requires IceInv(m, i) && GatherInv(all, i) && |all| <= i.history.now.capacity
    ensures var done := i.history.delivered; |done| <= |all| && done == all[..|done|]
  {
    var done, h := i.history.delivered, i.history;
    SubsequenceOfEqualLength(done + h.now.queue, h.appended);
    assert h.appended[..|done|] == done;
  }

  lemma EndsAtMarker(all: seq<LocalIceEvent>, k: nat)
    requires k <= |all| && EndsWithMarker(all[..k]) && EndOfCandidates !in all[..k][..k - 1]
    ensures all[..k] == UpToMarker(all)
  {
    assert all[..k][..k - 1] == all[..k - 1];
    MarkerAt(all, k - 1);
  }

  /** If all fits, an ICE task that has finished has handed out everything gathered up to the end marker. */
  lemma AllHandedOut(m: Media, all: seq<LocalIceEvent>, i: IceSide)
    requires IceInv(m, i) && GatherInv(all, i) && i.finished && |all| <= i.history.now.capacity
    ensures i.history.delivered == UpToMarker(all)
  {
    FrontHandedOut(m, all, i);
    EndsAtMarker(all, |i.history.delivered|);
  }

  /** A finished handshake whose queues were large enough has exchanged exactly all candidates, both ways. */
  lemma CompleteExchange(u: Setup, choices: seq<Choice>)
    requires Honest(u) && forall c :: Step(u, Run(u, choices), c) == Run(u, choices)
    ensures |u.answererGathers| <= u.answererCapacity ==>
              Run(u, choices).dialer.state.peer.applied == Candidates(UpToMarker(u.answererGathers))
    ensures |u.dialerGathers| <= u.dialerCapacity ==>
              Run(u, choices).answerer.state.peer.applied == Candidates(UpToMarker(u.dialerGathers))
  {
    var s := Run(u, choices);
    StuckMeansDone(u, choices);
    RunKeeps(u, choices);
    RunGathers(u, choices);
    if |u.answererGathers| <= u.answererCapacity {
      AllHandedOut(u.media, u.answererGathers, s.answererIce);
    }
    if |u.dialerGathers| <= u.dialerCapacity {
      AllHandedOut(u.media, u.dialerGathers, s.dialerIce);
    }
  }

  lemma {:induction false} SubsequenceFront<T>(a: seq<T>, b: seq<T>, c: seq<T>)
    requires Subsequence(a + b, c)
    ensures Subsequence(a, c)
    decreases |b|
  {
    if b == [] {
      assert a + b == a;
    } else {
      var all := a + b;
      SubsequenceDrop(all, |all| - 1, c);
      assert all[..|all| - 1] + all[|all|..] == a + b[..|b| - 1];
      SubsequenceFront(a, b[..|b| - 1], c);
    }
  }
}
