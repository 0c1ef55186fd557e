/** Each accept queue of a node, over whole runs of the node, behaves as the queue of `Accept` does on its own. */
module NodeAccepts {
  import opened Prelude
  import opened Signaling
  import opened Session
  import Accept
  import opened Node
  import NodeRuns

  /** What a node operation does to the queue of one protocol. */
  function QueueOps(n: NodeState, op: NodeRuns.Op, alpn: string): seq<Accept.Op> {
    match op
    case Admit(c, t, key, queueAccept) =>
      if queueAccept && c.alpn == alpn && AdmissionError(n, c, t, key, true).None?
      then [Accept.Admit(Accept.AcceptedConnection(n.nextConnectionKey, key, c.remote, alpn, t))] else []
    case Next(a) => if a == alpn && !n.closed then [Accept.AcceptNextCall(n.nextWaiter)] else []
    case OpenAccept(a) =>
      if a == alpn && alpn != "" && !n.closed then [Accept.ClaimAcceptor] else []
    case CloseAccept(a) => if a == alpn then [Accept.CloseAcceptor] else []
    case WaiterGone(w) => [Accept.WaiterGone(w)]
    case _ => []
  }

  function AllQueueOps(n: NodeState, ops: seq<NodeRuns.Op>, alpn: string): seq<Accept.Op>
    decreases |ops|
  {
    if ops == [] then []
    else
      var before := ops[..|ops| - 1];
      AllQueueOps(n, before, alpn) + QueueOps(NodeRuns.Run(n, before), ops[|ops| - 1], alpn)
  }

  /** The queue's own history in a run of the node. */
  function QueueHistory(n: NodeState, ops: seq<NodeRuns.Op>, alpn: string): Accept.History
    requires alpn in n.accepts
  {
    Accept.Run(n.accepts[alpn].id, alpn, n.accepts[alpn].capacity, AllQueueOps(n, ops, alpn))
  }

  /** The node's queue is where its history has led, and its waiters were told what the history says. */
  ghost predicate Agrees(n: NodeState, h: Accept.History, alpn: string) {
    && alpn in n.accepts && n.accepts[alpn] == h.now && n.gone == h.gone
    && h.nextWaiter <= n.nextWaiter
    && forall i :: 0 <= i < |h.fates| && h.fates[i].HandedTo? ==>
         && h.fates[i].waiter in n.answers
         && n.answers[h.fates[i].waiter] == Accept.AcceptNext.Ready(h.fates[i].connection)
  }

  lemma OneOp(id: nat, alpn: string, capacity: nat, ops: seq<Accept.Op>, more: seq<Accept.Op>)
    requires |more| <= 1
    ensures Accept.Run(id, alpn, capacity, ops + more)
            == if more == [] then Accept.Run(id, alpn, capacity, ops)
               else Accept.Step(Accept.Run(id, alpn, capacity, ops), more[0])
  {
    if more == [] {
      assert ops + more == ops;
    } else {
      assert (ops + more)[..|ops + more| - 1] == ops;
    }
  }

  // ---- The waiters of a node ----

  type Queues = map<string, Accept.Registration<nat>>

  predicate Waits(accepts: Queues, alpn: string, w: nat) {
    alpn in accepts && w in accepts[alpn].waiters
  }

  /** A waiter waits in one place, until it is answered. */
  ghost predicate Apart(accepts: Queues, answers: map<nat, Accept.AcceptNext>, next: nat) {
    && (forall a :: a in accepts ==> Distinct(accepts[a].waiters))
    && (forall a, w: nat :: Waits(accepts, a, w) ==> w < next && w !in answers)
    && (forall a, b, w: nat :: Waits(accepts, a, w) && Waits(accepts, b, w) ==> a == b)
    && (forall w :: w in answers ==> w < next)
  }

  ghost predicate WaitersApart(n: NodeState) {
    Apart(n.accepts, n.answers, n.nextWaiter)
  }

  /** What was answered stays answered as it was. */
  ghost predicate AnswersStay(n: NodeState, n': NodeState) {
    forall w :: w in n.answers ==> w in n'.answers && n'.answers[w] == n.answers[w]
  }

  /** Some waiters are answered and wait no longer. */
  lemma FewerWaiting(accepts: Queues, answers: map<nat, Accept.AcceptNext>, next: nat, accepts': Queues,
                     answers': map<nat, Accept.AcceptNext>)
    requires Apart(accepts, answers, next)
    requires forall a :: a in accepts' ==> Distinct(accepts'[a].waiters)
    requires forall a, w: nat :: Waits(accepts', a, w) ==> Waits(accepts, a, w) && w !in answers'
    requires forall w :: w in answers' ==> w in answers || exists a :: Waits(accepts, a, w)
    ensures Apart(accepts', answers', next)
  {
  }

  lemma ServingKeepsApart(accepts: Queues, answers: map<nat, Accept.AcceptNext>, next: nat, alpn: string,
                          r: Accept.Registration<nat>, i: nat, answer: Accept.AcceptNext)
    requires Apart(accepts, answers, next) && alpn in accepts && i < |accepts[alpn].waiters|
    requires r.waiters == accepts[alpn].waiters[i + 1..]
    ensures accepts[alpn].waiters[i] !in answers
    ensures Apart(accepts[alpn := r], answers[accepts[alpn].waiters[i] := answer], next)
  {
    var w := accepts[alpn].waiters[i];
    assert Waits(accepts, alpn, w);
    forall a, x: nat | Waits(accepts[alpn := r], a, x)
      ensures Waits(accepts, a, x) && x !in answers[w := answer]
    {
      if a == alpn {
        var j :| 0 <= j < |r.waiters| && r.waiters[j] == x;
        assert accepts[alpn].waiters[i + 1 + j] == x;
      }
      assert Waits(accepts, a, x);
    }
    FewerWaiting(accepts, answers, next, accepts[alpn := r], answers[w := answer]);
  }

  lemma EmptiedKeepsApart(accepts: Queues, answers: map<nat, Accept.AcceptNext>, next: nat, alpn: string,
                          r: Accept.Registration<nat>)
    requires Apart(accepts, answers, next) && r.waiters == []
    ensures Apart(accepts[alpn := r], answers, next)
  {
    forall a, x: nat | Waits(accepts[alpn := r], a, x)
      ensures Waits(accepts, a, x) && x !in answers
    {
      assert Waits(accepts, a, x);
    }
    FewerWaiting(accepts, answers, next, accepts[alpn := r], answers);
  }

  lemma OfferKeepsApart(n: NodeState, c: Accept.AcceptedConnection)
    requires WaitersApart(n) && c.alpn in n.accepts
    ensures var n' := OfferToAcceptor(n, c).0; WaitersApart(n') && AnswersStay(n, n')
  {
    var (r, outcome) := Accept.Pushed(n.accepts[c.alpn], n.gone, c);
    if outcome.Woke? {
      ServingKeepsApart(n.accepts, n.answers, n.nextWaiter, c.alpn, r,
                        Accept.FirstLive(n.accepts[c.alpn].waiters, n.gone, 0), Accept.AcceptNext.Ready(c));
    } else {
      EmptiedKeepsApart(n.accepts, n.answers, n.nextWaiter, c.alpn, r);
    }
  }

  lemma StoringLeavesQueues(n: NodeState, k: nat, key: Option<DialId>, t: Transport)
    ensures QueuesUntouched(n, StoreConnection(n, k, key, t).0)
  {
  }

  /** Drawing a key first makes no difference to an offer. */
  lemma OfferAfterKey(n: NodeState, c: Accept.AcceptedConnection)
    requires c.alpn in n.accepts
    ensures QueuesUntouched(OfferToAcceptor(n, c).0, OfferToAcceptor(KeyDrawn(n), c).0)
  {
  }

  /** The node after the offer that an admission makes, if it comes to one. */
  function AfterOffer(n: NodeState, c: Incoming, t: Transport, key: Option<DialId>, queueAccept: bool): NodeState {
    if queueAccept && AdmissionError(n, c, t, key, true).None? then OfferToAcceptor(n, Offered(n, c, t, key)).0 else n
  }

  /** What an admission does to the queues, the waiters and their answers. */
  lemma AdmitOnlyOffers(n: NodeState, c: Incoming, t: Transport, key: Option<DialId>, queueAccept: bool)
    ensures QueuesUntouched(AfterOffer(n, c, t, key, queueAccept), AdmitConnection(n, c, t, key, queueAccept).0)
  {
    if AdmissionError(n, c, t, key, queueAccept).None? {
      NodeRuns.AdmissionSteps(n, c, t, key, queueAccept);
      var offered := Offered(n, c, t, key);
      if queueAccept {
        OfferAfterKey(n, offered);
      }
      StoringLeavesQueues(Placed(n, offered, queueAccept).0, n.nextConnectionKey, key, t);
    }
  }

  lemma AdmitKeepsApart(n: NodeState, c: Incoming, t: Transport, key: Option<DialId>, queueAccept: bool)
    requires WaitersApart(n)
    ensures var n' := AdmitConnection(n, c, t, key, queueAccept).0; WaitersApart(n') && AnswersStay(n, n')
  {
    AdmitOnlyOffers(n, c, t, key, queueAccept);
    if queueAccept && AdmissionError(n, c, t, key, true).None? {
      OfferKeepsApart(n, Offered(n, c, t, key));
    }
  }

  lemma NextKeepsApart(n: NodeState, alpn: string)
    requires WaitersApart(n)
    ensures var n' := NextAccepted(n, alpn).0; WaitersApart(n') && AnswersStay(n, n')
  {
    var n' := NextAccepted(n, alpn).0;
    if !n.closed && alpn in n.accepts {
      var ws := n.accepts[alpn].waiters;
      forall a, w: nat | Waits(n'.accepts, a, w)
        ensures Waits(n.accepts, a, w) || (a == alpn && w == n.nextWaiter && n'.nextWaiter == w + 1)
      {
      }
      assert forall w :: w in ws ==> Waits(n.accepts, alpn, w);
      DistinctSnoc(ws, n.nextWaiter);
    }
  }

  lemma DistinctSnoc(xs: seq<nat>, x: nat)
    ensures Distinct(xs) && x !in xs ==> Distinct(xs + [x])
  {
  }

  /** Closing queues answers those who waited there, and no one else. */
  lemma DoneKeepsApart(n: NodeState, n': NodeState, waiters: set<nat>)
    requires WaitersApart(n) && n'.nextWaiter == n.nextWaiter && n'.answers == ToldDone(n.answers, waiters, n.gone)
    requires forall w :: w in waiters ==> exists a :: Waits(n.accepts, a, w)
    requires forall a :: a in n'.accepts ==> Distinct(n'.accepts[a].waiters)
    requires forall a, w: nat :: Waits(n'.accepts, a, w) ==> Waits(n.accepts, a, w) && w !in waiters
    ensures WaitersApart(n') && AnswersStay(n, n')
  {
    FewerWaiting(n.accepts, n.answers, n.nextWaiter, n'.accepts, n'.answers);
  }

  lemma CloseKeepsApart(n: NodeState, alpn: string)
    requires WaitersApart(n)
    ensures var n' := CloseAccepting(n, alpn).0; WaitersApart(n') && AnswersStay(n, n')
  {
    if alpn in n.accepts {
      var n' := CloseAccepting(n, alpn).0;
      var waiters := set w | w in n.accepts[alpn].waiters;
      assert forall w :: w in waiters ==> Waits(n.accepts, alpn, w);
      forall a, w: nat | Waits(n'.accepts, a, w)
        ensures Waits(n.accepts, a, w) && w !in waiters
      {
        assert a != alpn && Waits(n.accepts, a, w);
      }
      DoneKeepsApart(n, n', waiters);
    }
  }

  lemma CloseNodeKeepsApart(n: NodeState, reason: Option<string>)
    requires WaitersApart(n)
    ensures var n' := CloseNode(n, reason).0; WaitersApart(n') && AnswersStay(n, n')
  {
    if !n.closed {
      forall w | w in AllWaiters(n.accepts)
        ensures exists a :: Waits(n.accepts, a, w)
      {
        var a :| a in n.accepts && w in n.accepts[a].waiters;
        assert Waits(n.accepts, a, w);
      }
      DoneKeepsApart(n, CloseNode(n, reason).0, AllWaiters(n.accepts));
    }
  }

  lemma OpenKeepsApart(n: NodeState, alpn: string)
    requires WaitersApart(n)
    ensures WaitersApart(OpenAcceptor(n, alpn).0)
  {
    var n' := OpenAcceptor(n, alpn).0;
    forall a, w: nat | Waits(n'.accepts, a, w)
      ensures Waits(n.accepts, a, w)
    {
    }
  }

  /** Operations on sessions leave the queues alone. */
  ghost predicate QueuesUntouched(n: NodeState, n': NodeState) {
    && n'.accepts == n.accepts && n'.answers == n.answers
    && n'.gone == n.gone && n'.nextWaiter == n.nextWaiter && n'.closed == n.closed
  }

  lemma ReceiveLeavesQueues(n: NodeState, signal: WebRtcSignal, input: Option<string>)
    ensures QueuesUntouched(n, HandleBootstrapSignal(n, signal, input).0)
  {
  }

  lemma DialLeavesQueues(n: NodeState, remote: EndpointId, alpn: string, intent: TransportIntent, id: DialSessionId)
    ensures QueuesUntouched(n, AllocateDial(n, remote, alpn, intent, id).0)
  {
  }

  lemma ClaimLeavesQueues(n: NodeState, c: Incoming, pick: DialId)
    ensures QueuesUntouched(n, AcceptWebRtcConnection(n, c, pick).0)
  {
  }

  lemma SessionsLeaveQueues(n: NodeState, op: NodeRuns.Op)
    requires op.Dial? || op.Update? || op.Decide? || op.Receive? || op.Claim? || op.CloseOne?
    ensures QueuesUntouched(n, NodeRuns.Step(n, op))
  {
    match op
    case Dial(remote, alpn, intent, id) => DialLeavesQueues(n, remote, alpn, intent, id);
    case Receive(signal, input) => ReceiveLeavesQueues(n, signal, input);
    case Claim(c, pick) => ClaimLeavesQueues(n, c, pick);
    case _ =>
  }

  lemma StepKeepsApart(n: NodeState, op: NodeRuns.Op)
    requires WaitersApart(n)
    ensures WaitersApart(NodeRuns.Step(n, op)) && AnswersStay(n, NodeRuns.Step(n, op))
  {
    match op
    case Admit(c, t, key, queueAccept) => AdmitKeepsApart(n, c, t, key, queueAccept);
    case Next(alpn) => NextKeepsApart(n, alpn);
    case CloseAccept(alpn) => CloseKeepsApart(n, alpn);
    case Close(reason) => CloseNodeKeepsApart(n, reason);
    case OpenAccept(alpn) => OpenKeepsApart(n, alpn);
    case WaiterGone(_) =>
    case _ => SessionsLeaveQueues(n, op);
  }

  // ---- The refinement ----

  /** The history after the queue operations of one node step. */
  function Followed(n: NodeState, op: NodeRuns.Op, h: Accept.History, alpn: string): Accept.History {
    var more := QueueOps(n, op, alpn);
    if more == [] then h else Accept.Step(h, more[0])
  }

  lemma OfferFollows(n: NodeState, c: Accept.AcceptedConnection, h: Accept.History, alpn: string)
    requires Agrees(n, h, alpn) && WaitersApart(n) && c.alpn in n.accepts
    ensures Agrees(OfferToAcceptor(n, c).0, if c.alpn == alpn then Accept.Step(h, Accept.Admit(c)) else h, alpn)
  {
    OfferKeepsApart(n, c);
  }

  lemma AgreesUntouched(n: NodeState, n': NodeState, h: Accept.History, alpn: string)
    requires Agrees(n, h, alpn) && QueuesUntouched(n, n')
    ensures Agrees(n', h, alpn)
  {
  }

  lemma AdmitFollows(n: NodeState, c: Incoming, t: Transport, key: Option<DialId>, queueAccept: bool,
                     h: Accept.History, alpn: string)
    requires Agrees(n, h, alpn) && WaitersApart(n)
    ensures Agrees(AdmitConnection(n, c, t, key, queueAccept).0,
                   Followed(n, NodeRuns.Admit(c, t, key, queueAccept), h, alpn), alpn)
  {
    AdmitOnlyOffers(n, c, t, key, queueAccept);
    var h' := Followed(n, NodeRuns.Admit(c, t, key, queueAccept), h, alpn);
    if queueAccept && AdmissionError(n, c, t, key, true).None? {
      OfferFollows(n, Offered(n, c, t, key), h, alpn);
    }
    AgreesUntouched(AfterOffer(n, c, t, key, queueAccept), AdmitConnection(n, c, t, key, queueAccept).0, h', alpn);
  }

  lemma NextFollows(n: NodeState, a: string, h: Accept.History, alpn: string)
    requires Agrees(n, h, alpn) && !n.closed
    ensures Agrees(NextAccepted(n, a).0, Followed(n, NodeRuns.Next(a), h, alpn), alpn)
  {
  }

  lemma CloseFollows(n: NodeState, a: string, h: Accept.History, alpn: string)
    requires Agrees(n, h, alpn) && WaitersApart(n)
    ensures Agrees(CloseAccepting(n, a).0, Followed(n, NodeRuns.CloseAccept(a), h, alpn), alpn)
  {
    CloseKeepsApart(n, a);
    var h' := Followed(n, NodeRuns.CloseAccept(a), h, alpn);
    assert forall i :: 0 <= i < |h'.fates| && h'.fates[i].HandedTo? ==> i < |h.fates| && h'.fates[i] == h.fates[i];
  }

  lemma OpenFollows(n: NodeState, a: string, h: Accept.History, alpn: string)
    requires Agrees(n, h, alpn) && !n.closed && alpn != ""
    ensures Agrees(OpenAcceptor(n, a).0, Followed(n, NodeRuns.OpenAccept(a), h, alpn), alpn)
  {
  }

  lemma StepFollows(n: NodeState, op: NodeRuns.Op, h: Accept.History, alpn: string)
    requires Agrees(n, h, alpn) && WaitersApart(n) && alpn != "" && alpn in NodeRuns.Step(n, op).accepts
    requires n.closed ==> n.accepts == map[]
    ensures Agrees(NodeRuns.Step(n, op), Followed(n, op, h, alpn), alpn)
  {
    match op
    case Admit(c, t, key, queueAccept) => AdmitFollows(n, c, t, key, queueAccept, h, alpn);
    case Next(a) => NextFollows(n, a, h, alpn);
    case OpenAccept(a) => OpenFollows(n, a, h, alpn);
    case CloseAccept(a) => CloseFollows(n, a, h, alpn);
    case WaiterGone(_) =>
    case Close(_) =>
    case _ => SessionsLeaveQueues(n, op);
  }

  lemma {:induction false} RunKeepsApart(n: NodeState, ops: seq<NodeRuns.Op>)
    requires NodeRuns.Spawned(n)
    ensures WaitersApart(NodeRuns.Run(n, ops))
    decreases |ops|
  {
    if ops != [] {
      RunKeepsApart(n, ops[..|ops| - 1]);
      StepKeepsApart(NodeRuns.Run(n, ops[..|ops| - 1]), ops[|ops| - 1]);
    }
  }

  lemma StartAgrees(n: NodeState, alpn: string)
    requires NodeRuns.Spawned(n) && alpn in n.accepts
    ensures Agrees(n, QueueHistory(n, [], alpn), alpn)
  {
  }

  lemma NextAgrees(n: NodeState, before: seq<NodeRuns.Op>, last: NodeRuns.Op, alpn: string)
    requires NodeRuns.Spawned(n) && alpn != "" && alpn in n.accepts
    requires alpn in NodeRuns.Step(NodeRuns.Run(n, before), last).accepts
    requires Agrees(NodeRuns.Run(n, before), QueueHistory(n, before, alpn), alpn)
    ensures Agrees(NodeRuns.Step(NodeRuns.Run(n, before), last), QueueHistory(n, before + [last], alpn), alpn)
  {
    RunKeepsApart(n, before);
    ClosedMeansEmpty(n, before);
    StepFollows(NodeRuns.Run(n, before), last, QueueHistory(n, before, alpn), alpn);
    HistoryFollows(n, before, last, alpn);
  }

  /** The last operation of a run, apart from those before it. */
  lemma LastOfRun(n: NodeState, ops: seq<NodeRuns.Op>, alpn: string)
    requires ops != [] && alpn in NodeRuns.Run(n, ops).accepts
    ensures var before, last := ops[..|ops| - 1], ops[|ops| - 1];
      && before + [last] == ops && NodeRuns.Run(n, ops) == NodeRuns.Step(NodeRuns.Run(n, before), last)
      && alpn in NodeRuns.Run(n, before).accepts
  {
    QueuesNeverAppear(NodeRuns.Run(n, ops[..|ops| - 1]), ops[|ops| - 1], alpn);
  }

  lemma {:induction false} RunAgrees(n: NodeState, ops: seq<NodeRuns.Op>, alpn: string)
    requires NodeRuns.Spawned(n) && alpn != "" && alpn in NodeRuns.Run(n, ops).accepts
    ensures alpn in n.accepts && Agrees(NodeRuns.Run(n, ops), QueueHistory(n, ops, alpn), alpn)
    decreases |ops|
  {
    if ops == [] {
      StartAgrees(n, alpn);
    } else {
      LastOfRun(n, ops, alpn);
      RunAgrees(n, ops[..|ops| - 1], alpn);
      NextAgrees(n, ops[..|ops| - 1], ops[|ops| - 1], alpn);
    }
  }

  lemma HistoryFollows(n: NodeState, before: seq<NodeRuns.Op>, last: NodeRuns.Op, alpn: string)
    requires alpn in n.accepts
    ensures QueueHistory(n, before + [last], alpn)
            == Followed(NodeRuns.Run(n, before), last, QueueHistory(n, before, alpn), alpn)
  {
    var m := NodeRuns.Run(n, before);
    assert (before + [last])[..|before|] == before;
    OneOp(n.accepts[alpn].id, alpn, n.accepts[alpn].capacity, AllQueueOps(n, before, alpn), QueueOps(m, last, alpn));
  }

  lemma ClosedMeansEmpty(n: NodeState, ops: seq<NodeRuns.Op>)
    requires NodeRuns.Spawned(n)
    ensures NodeRuns.Run(n, ops).closed ==> NodeRuns.Run(n, ops).accepts == map[]
  {
    NodeRuns.RunKeepsNode(n, ops);
  }

  /**
    While a node is open, each of its accept queues has a history of its own in which admitted
    connections are handed out once and in order; and every waiter that was served has been
    answered with its connection, for good.
   */
  lemma QueueRefines(n: NodeState, ops: seq<NodeRuns.Op>, alpn: string)
    requires NodeRuns.Spawned(n) && alpn != "" && alpn in NodeRuns.Run(n, ops).accepts
    ensures alpn in n.accepts && Agrees(NodeRuns.Run(n, ops), QueueHistory(n, ops, alpn), alpn)
    ensures Accept.Inv(QueueHistory(n, ops, alpn))
  {
    RunAgrees(n, ops, alpn);
    Accept.ExactlyOnceInOrder(n.accepts[alpn].id, alpn, n.accepts[alpn].capacity, AllQueueOps(n, ops, alpn));
  }

  lemma AdmittingAddsNoQueue(n: NodeState, c: Incoming, t: Transport, key: Option<DialId>, queueAccept: bool)
    ensures AdmitConnection(n, c, t, key, queueAccept).0.accepts.Keys <= n.accepts.Keys
  {
    AdmitOnlyOffers(n, c, t, key, queueAccept);
  }

  lemma QueuesNeverAppear(n: NodeState, op: NodeRuns.Op, alpn: string)
    requires alpn in NodeRuns.Step(n, op).accepts
    ensures alpn in n.accepts
  {
    match op
    case Admit(c, t, key, queueAccept) => AdmittingAddsNoQueue(n, c, t, key, queueAccept);
    case OpenAccept(_) | Next(_) | CloseAccept(_) | WaiterGone(_) | Close(_) =>
    case _ => SessionsLeaveQueues(n, op);
  }
}
