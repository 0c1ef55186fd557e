/**
  Queues of accepted connections and the tasks that wait for them
  (browser_runtime/node/accept_state.rs, connection.rs).
 */
module Accept {
  import opened Prelude
  import opened Signaling
  import opened Session

  datatype AcceptedConnection = AcceptedConnection(
    key: nat,
    sessionKey: Option<DialId>,
    remote: EndpointId,
    alpn: string,
    transport: Transport)

  datatype AcceptNext = Ready(connection: AcceptedConnection) | Done

  /** One registered application protocol; `W` names the waiting tasks. */
  datatype Registration<W> = Registration(
    id: nat,
    alpn: string,
    capacity: nat,
    claimed: bool,
    queue: seq<AcceptedConnection>,
    waiters: seq<W>)

  datatype PushOutcome<W> = Woke(waiter: W) | Queued | QueueFull

  /** The position of the first waiter from `k` on whose task has not gone away. */
  function FirstLive<W(==)>(waiters: seq<W>, gone: set<W>, k: nat): (i: nat)
    requires k <= |waiters|
    ensures k <= i <= |waiters|
    ensures i < |waiters| ==> waiters[i] !in gone
    ensures forall j :: k <= j < i ==> waiters[j] in gone
    decreases |waiters| - k
  {
    if k == |waiters| || waiters[k] !in gone then k else FirstLive(waiters, gone, k + 1)
  }

  function Pushed<W(==)>(r: Registration<W>, gone: set<W>, c: AcceptedConnection): (Registration<W>, PushOutcome<W>) {
    var i := FirstLive(r.waiters, gone, 0);
    if i < |r.waiters| then (r.(waiters := r.waiters[i + 1..]), Woke(r.waiters[i]))
    else if |r.queue| >= r.capacity then (r.(waiters := []), QueueFull)
    else (r.(waiters := [], queue := r.queue + [c]), Queued)
  }

  function ClosedAcceptor<W>(r: Registration<W>): Registration<W> {
    r.(claimed := false, queue := [], waiters := [])
  }

  /** A task is kept waiting only while there is nothing to hand out. */
  ghost predicate Valid<W>(r: Registration<W>) {
    && r.capacity > 0
    && |r.queue| <= r.capacity
    && (r.queue != [] ==> r.waiters == [])
  }

  /** A refused connection leaves no trace, not even among the waiters. */
  lemma RefusedLeavesNoTrace<W>(r: Registration<W>, gone: set<W>, c: AcceptedConnection)
    requires Valid(r)
    ensures Pushed(r, gone, c).1.QueueFull? <==> |r.queue| == r.capacity
    ensures Pushed(r, gone, c).1.QueueFull? ==> Pushed(r, gone, c).0 == r
  {
  }

  /** `w` is the first of the waiters that is not gone, and `rest` are those behind it. */
  ghost predicate LongestWaiting<W>(waiters: seq<W>, gone: set<W>, i: nat, w: W, rest: seq<W>) {
    && i < |waiters| && waiters == waiters[..i] + [w] + rest && w !in gone
    && forall j :: 0 <= j < i ==> waiters[j] in gone
  }

  /** The longest-waiting live task is served, if there is one. */
  lemma ServesLongestWaiting<W>(r: Registration<W>, gone: set<W>, c: AcceptedConnection)
    requires Valid(r)
    ensures var (after, outcome) := Pushed(r, gone, c);
      && Valid(after)
      && (outcome.Woke? <==> exists i :: 0 <= i < |r.waiters| && r.waiters[i] !in gone)
      && (outcome.Woke? ==>
            && after.queue == r.queue == []
            && exists i :: LongestWaiting(r.waiters, gone, i, outcome.waiter, after.waiters))
      && (!outcome.Woke? ==> after.waiters == [])
  {
    var i := FirstLive(r.waiters, gone, 0);
    if i < |r.waiters| {
      assert LongestWaiting(r.waiters, gone, i, r.waiters[i], r.waiters[i + 1..]);
    }
  }

  // ---- One registration over a whole run ----

  /** What became of an admitted connection that is no longer queued. */
  datatype Fate =
    | Taken(connection: AcceptedConnection)
    | HandedTo(connection: AcceptedConnection, waiter: nat)
    | Discarded(connection: AcceptedConnection)

  datatype Op =
    | Admit(connection: AcceptedConnection)
    | AcceptNextCall(newWaiter: nat)
    | WaiterGone(waiter: nat)
    | ClaimAcceptor
    | CloseAcceptor

  /** `nextWaiter` is above every waiter so far. */
  datatype History = History(
    now: Registration<nat>,
    gone: set<nat>,
    nextWaiter: nat,
    admitted: seq<AcceptedConnection>,
    fates: seq<Fate>,
    ended: seq<nat>)

  function Discards(cs: seq<AcceptedConnection>): (r: seq<Fate>)
    ensures |r| == |cs|
    ensures forall i :: 0 <= i < |cs| ==> r[i] == Discarded(cs[i])
  {
    seq(|cs|, i requires 0 <= i < |cs| => Discarded(cs[i]))
  }

  function Connections(fates: seq<Fate>): (r: seq<AcceptedConnection>)
    ensures |r| == |fates|
    ensures forall i :: 0 <= i < |fates| ==> r[i] == fates[i].connection
  {
    seq(|fates|, i requires 0 <= i < |fates| => fates[i].connection)
  }

  function Admitted(h: History, c: AcceptedConnection): History {
    var (now, outcome) := Pushed(h.now, h.gone, c);
    match outcome
    case Woke(w) => h.(now := now, admitted := h.admitted + [c], fates := h.fates + [HandedTo(c, w)])
    case Queued => h.(now := now, admitted := h.admitted + [c])
    case QueueFull => h.(now := now)
  }

  /** A call for the next connection takes one, or leaves a waiter, which has to be new. */
  function NextCalled(h: History, w: nat): History {
    if h.now.queue != [] then
      h.(now := h.now.(queue := h.now.queue[1..]), fates := h.fates + [Taken(h.now.queue[0])])
    else if w < h.nextWaiter then h
    else h.(now := h.now.(waiters := h.now.waiters + [w]), nextWaiter := w + 1)
  }

  function AcceptorClosed(h: History): History {
    h.(now := ClosedAcceptor(h.now), fates := h.fates + Discards(h.now.queue), ended := h.ended + h.now.waiters)
  }

  function Step(h: History, op: Op): History {
    match op
    case Admit(c) => Admitted(h, c)
    case AcceptNextCall(w) => NextCalled(h, w)
    case WaiterGone(w) => h.(gone := h.gone + {w})
    case ClaimAcceptor => h.(now := h.now.(claimed := true))
    case CloseAcceptor => AcceptorClosed(h)
  }

  function Run(id: nat, alpn: string, capacity: nat, ops: seq<Op>): History
    decreases |ops|
  {
    if ops == [] then History(Registration(id, alpn, capacity, false, [], []), {}, 0, [], [], [])
    else Step(Run(id, alpn, capacity, ops[..|ops| - 1]), ops[|ops| - 1])
  }

  /** The waiters that were handed a connection. */
  function Served(fates: seq<Fate>): seq<nat>
    decreases |fates|
  {
    if fates == [] then []
    else
      var last := fates[|fates| - 1];
      Served(fates[..|fates| - 1]) + if last.HandedTo? then [last.waiter] else []
  }

  /** Every waiter there ever was: served, told that nothing will come, or still waiting. */
  function Waiters(h: History): seq<nat> {
    Served(h.fates) + h.ended + h.now.waiters
  }

  function Count(ws: seq<nat>, w: nat): nat {
    multiset(ws)[w]
  }

  ghost predicate OncePerWaiter(ws: seq<nat>, bound: nat) {
    forall w: nat :: Count(ws, w) <= (if w < bound then 1 else 0)
  }

  /** Nothing admitted is lost, doubled or overtaken. */
  ghost predicate InOrder(h: History) {
    h.admitted == Connections(h.fates) + h.now.queue
  }

  ghost predicate Inv(h: History) {
    Valid(h.now) && InOrder(h) && OncePerWaiter(Waiters(h), h.nextWaiter)
  }

  lemma ConnectionsSnoc(fates: seq<Fate>, f: Fate)
    ensures Connections(fates + [f]) == Connections(fates) + [f.connection]
  {
  }

  lemma ServedSnoc(fates: seq<Fate>, f: Fate)
    ensures Served(fates + [f]) == if f.HandedTo? then Served(fates) + [f.waiter] else Served(fates)
  {
    assert (fates + [f])[..|fates|] == fates;
    assert Served(fates) + [] == Served(fates);
  }

  lemma DiscardsSnoc(fates: seq<Fate>, cs: seq<AcceptedConnection>)
    requires cs != []
    ensures var n := |cs| - 1; fates + Discards(cs) == (fates + Discards(cs[..n])) + [Discarded(cs[n])]
  {
  }

  lemma {:induction false} ServedDiscards(fates: seq<Fate>, cs: seq<AcceptedConnection>)
    ensures Served(fates + Discards(cs)) == Served(fates)
    decreases |cs|
  {
    if cs == [] {
      assert fates + Discards(cs) == fates;
    } else {
      var n := |cs| - 1;
      DiscardsSnoc(fates, cs);
      ServedDiscards(fates, cs[..n]);
      ServedSnoc(fates + Discards(cs[..n]), Discarded(cs[n]));
    }
  }

  lemma ConnectionsDiscards(fates: seq<Fate>, cs: seq<AcceptedConnection>)
    ensures Connections(fates + Discards(cs)) == Connections(fates) + cs
  {
  }

  /** Serving a waiter moves it, and forgets those that were passed over. */
  lemma OneServed(served: seq<nat>, ended: seq<nat>, waiters: seq<nat>, i: nat, w: nat, rest: seq<nat>, bound: nat)
    requires OncePerWaiter(served + ended + waiters, bound)
    requires i < |waiters| && waiters == waiters[..i] + [w] + rest
    ensures OncePerWaiter((served + [w]) + ended + rest, bound)
  {
    var before, after := served + ended + waiters, (served + [w]) + ended + rest;
    forall x: nat
      ensures Count(after, x) <= if x < bound then 1 else 0
    {
      assert before == served + ended + waiters[..i] + [w] + rest;
      assert Count(before, x) <= if x < bound then 1 else 0;
    }
  }

  lemma Unserved(done: seq<nat>, waiters: seq<nat>, bound: nat)
    requires OncePerWaiter(done + waiters, bound)
    ensures OncePerWaiter(done + [], bound)
  {
    forall x: nat
      ensures Count(done + [], x) <= if x < bound then 1 else 0
    {
      assert Count(done + waiters, x) <= if x < bound then 1 else 0;
    }
  }

  lemma NewWaiter(done: seq<nat>, waiters: seq<nat>, bound: nat, w: nat)
    requires OncePerWaiter(done + waiters, bound) && w >= bound
    ensures OncePerWaiter(done + (waiters + [w]), w + 1)
  {
    assert done + (waiters + [w]) == (done + waiters) + [w];
    forall x: nat
      ensures Count((done + waiters) + [w], x) <= if x < w + 1 then 1 else 0
    {
      assert Count(done + waiters, x) <= if x < bound then 1 else 0;
    }
  }

  lemma WokeKeeps(h: History, c: AcceptedConnection)
    requires Inv(h) && Pushed(h.now, h.gone, c).1.Woke?
    ensures Inv(Admitted(h, c))
  {
    ServesLongestWaiting(h.now, h.gone, c);
    ConnectionsSnoc(h.fates, HandedTo(c, Pushed(h.now, h.gone, c).1.waiter));
    WokeServesOnce(h, c);
  }

  lemma WokeServesOnce(h: History, c: AcceptedConnection)
    requires Inv(h) && Pushed(h.now, h.gone, c).1.Woke?
    ensures OncePerWaiter(Waiters(Admitted(h, c)), Admitted(h, c).nextWaiter)
  {
    ServesLongestWaiting(h.now, h.gone, c);
    var (now, outcome) := Pushed(h.now, h.gone, c);
    var w := outcome.waiter;
    ServedSnoc(h.fates, HandedTo(c, w));
    var i :| LongestWaiting(h.now.waiters, h.gone, i, w, now.waiters);
    OneServed(Served(h.fates), h.ended, h.now.waiters, i, w, now.waiters, h.nextWaiter);
  }

  lemma QueuedKeeps(h: History, c: AcceptedConnection)
    requires Inv(h) && Pushed(h.now, h.gone, c).1.Queued?
    ensures Inv(Admitted(h, c))
  {
    ServesLongestWaiting(h.now, h.gone, c);
    Unserved(Served(h.fates) + h.ended, h.now.waiters, h.nextWaiter);
    AppendAssociates(Connections(h.fates), h.now.queue, [c]);
  }

  lemma AdmitKeeps(h: History, c: AcceptedConnection)
    requires Inv(h)
    ensures Inv(Admitted(h, c))
  {
    match Pushed(h.now, h.gone, c).1
    case Woke(_) => WokeKeeps(h, c);
    case Queued => QueuedKeeps(h, c);
    case QueueFull => RefusedLeavesNoTrace(h.now, h.gone, c);
  }

  lemma TakeKeeps(h: History, w: nat)
    requires Inv(h) && h.now.queue != []
    ensures Inv(NextCalled(h, w))
  {
    var q := h.now.queue;
    ServedSnoc(h.fates, Taken(q[0]));
    ConnectionsSnoc(h.fates, Taken(q[0]));
    assert Waiters(NextCalled(h, w)) == Waiters(h);
    assert Connections(h.fates) + q == (Connections(h.fates) + [q[0]]) + q[1..];
  }

  lemma WaitKeeps(h: History, w: nat)
    requires Inv(h) && h.now.queue == [] && w >= h.nextWaiter
    ensures Inv(NextCalled(h, w))
  {
    NewWaiter(Served(h.fates) + h.ended, h.now.waiters, h.nextWaiter, w);
  }

  lemma AllEnded(served: seq<nat>, ended: seq<nat>, waiters: seq<nat>)
    ensures served + (ended + waiters) + [] == served + ended + waiters
  {
  }

  lemma CloseKeeps(h: History)
    requires Inv(h)
    ensures Inv(AcceptorClosed(h))
  {
    ServedDiscards(h.fates, h.now.queue);
    ConnectionsDiscards(h.fates, h.now.queue);
    AllEnded(Served(h.fates), h.ended, h.now.waiters);
  }

  /**
    Every run of admissions, calls, tasks going away and closings: the admitted connections are, in
    the order of admission, those that left the queue and those still in it; none is handed out
    twice, and no waiter gets two.
   */
  lemma {:induction false} ExactlyOnceInOrder(id: nat, alpn: string, capacity: nat, ops: seq<Op>)
    requires capacity > 0
    ensures var h := Run(id, alpn, capacity, ops); Inv(h) && h.now.capacity == capacity
    decreases |ops|
  {
    if ops != [] {
      ExactlyOnceInOrder(id, alpn, capacity, ops[..|ops| - 1]);
      var h := Run(id, alpn, capacity, ops[..|ops| - 1]);
      StepKeeps(h, ops[|ops| - 1]);
    }
  }

  lemma CapacityStays(h: History, op: Op)
    ensures Step(h, op).now.capacity == h.now.capacity
  {
  }

  lemma SameQueueKeeps(h: History, h': History)
    requires Inv(h)
    requires h'.now.queue == h.now.queue && h'.now.waiters == h.now.waiters && h'.now.capacity == h.now.capacity
    requires h'.nextWaiter == h.nextWaiter && h'.admitted == h.admitted && h'.fates == h.fates && h'.ended == h.ended
    ensures Inv(h')
  {
  }

  lemma StepKeeps(h: History, op: Op)
    requires Inv(h)
    ensures Inv(Step(h, op)) && Step(h, op).now.capacity == h.now.capacity
  {
    CapacityStays(h, op);
    match op
    case Admit(c) => AdmitKeeps(h, c);
    case AcceptNextCall(w) =>
      if h.now.queue != [] {
        TakeKeeps(h, w);
      } else if w >= h.nextWaiter {
        WaitKeeps(h, w);
      }
    case CloseAcceptor => CloseKeeps(h);
    case _ => SameQueueKeeps(h, Step(h, op));
  }

  // ---- The registration as the program keeps it ----

  /** The sending half of a one-time channel; the receiving task may have gone away. */
  class Oneshot {
    var receiverGone: bool
    var value: Option<AcceptNext>

    constructor ()
      ensures !receiverGone && value == None
    {
      receiverGone, value := false, None;
    }

    method Send(v: AcceptNext) returns (ok: bool)
      modifies this`value
      ensures ok == !receiverGone
      ensures value == if ok then Some(v) else old(value)
    {
      if !receiverGone {
        value := Some(v);
      }
      return !receiverGone;
    }
  }

  class AcceptRegistrationState {
    const id: nat
    const alpn: string
    const capacity: nat
    var claimed: bool
    var queue: seq<AcceptedConnection>
    var waiters: seq<Oneshot>

    function Now(): Registration<Oneshot>
      reads this
    {
      Registration(id, alpn, capacity, claimed, queue, waiters)
    }

    /** No stored waiter has been answered yet. */
    ghost predicate Fresh()
      reads this, waiters
    {
      Valid(Now()) && Distinct(waiters) && forall w :: w in waiters ==> w.value == None
    }

    ghost function Gone(): set<Oneshot>
      reads this, waiters
    {
      set w | w in waiters && w.receiverGone
    }

    constructor (id: nat, alpn: string, capacity: nat)
      requires capacity > 0
      ensures Fresh() && Now() == Registration(id, alpn, capacity, false, [], [])
    {
      this.id, this.alpn, this.capacity := id, alpn, capacity;
      claimed, queue, waiters := false, [], [];
    }

    /** Hand the connection to the longest-waiting live task; without one, no waiter is left. */
    method WakeOne(c: AcceptedConnection) returns (woke: bool)
      requires Distinct(waiters)
      modifies this`waiters, waiters`value
      ensures var i := FirstLive(old(waiters), old(Gone()), 0);
        && woke == (i < |old(waiters)|)
        && waiters == (if woke then old(waiters)[i + 1..] else [])
        && (forall j :: 0 <= j < |old(waiters)| ==>
              old(waiters)[j].value == (if j == i then Some(AcceptNext.Ready(c)) else old(waiters[j].value)))
    {
      ghost var gone, all, k := Gone(), waiters, 0;
      while waiters != []
        invariant k <= |all| && waiters == all[k..] && all == old(waiters)
        invariant FirstLive(all, gone, 0) == FirstLive(all, gone, k)
        invariant forall w :: w in all ==> w.value == old(w.value)
        decreases |waiters|
      {
        var waiter := waiters[0];
        waiters := waiters[1..];
        var sent := waiter.Send(AcceptNext.Ready(c));
        k := k + 1;
        if sent {
          return true;
        }
      }
      return false;
    }

    /** Hand the connection to the longest-waiting live task, or queue it while there is room. */
    method PushOrWake(c: AcceptedConnection) returns (r: Result<(), ErrorCode>)
      requires Fresh()
      modifies this`queue, this`waiters, waiters`value
      ensures Fresh()
      ensures var (now, outcome) := Pushed(old(Now()), old(Gone()), c);
        && Now() == now
        && r == (if outcome.QueueFull? then Failure(WebRtcFailure) else Success(()))
        && (forall w :: w in old(waiters) ==>
              w.value == (if outcome == Woke(w) then Some(AcceptNext.Ready(c)) else old(w.value)))
    {
      var woke := WakeOne(c);
      if woke {
        return Success(());
      }
      if |queue| >= capacity {
        return Failure(WebRtcFailure);
      }
      queue := queue + [c];
      return Success(());
    }

    /** The next connection, or else a place in the line of waiters. */
    method TakeOrWait() returns (r: Option<AcceptedConnection>, waiter: Option<Oneshot>)
      requires Fresh()
      modifies this`queue, this`waiters
      ensures Fresh()
      ensures old(queue) != [] ==>
                r == Some(old(queue)[0]) && waiter == None && Now() == old(Now()).(queue := old(queue)[1..])
      ensures old(queue) == [] ==>
                && r == None && waiter.Some? && fresh(waiter.value) && !waiter.value.receiverGone
                && Now() == old(Now()).(waiters := old(waiters) + [waiter.value])
    {
      if queue != [] {
        r, waiter := Some(queue[0]), None;
        queue := queue[1..];
      } else {
        var w := new Oneshot();
        r, waiter := None, Some(w);
        waiters := waiters + [w];
      }
    }

    /** Every waiter that is still there is told that nothing will come. */
    method CloseAcceptor()
      requires Fresh()
      modifies this`claimed, this`queue, this`waiters, waiters`value
      ensures Fresh() && Now() == ClosedAcceptor(old(Now()))
      ensures forall w :: w in old(waiters) ==> w.value == (if w.receiverGone then None else Some(Done))
    {
      claimed := false;
      queue := [];
      ghost var all := waiters;
      while waiters != []
        invariant !claimed && queue == []
        invariant waiters == all[|all| - |waiters|..]
        invariant forall i :: 0 <= i < |all| - |waiters| ==>
                    all[i].value == (if all[i].receiverGone then None else Some(Done))
        invariant forall w :: w in waiters ==> w.value == None
        decreases |waiters|
      {
        var waiter := waiters[0];
        waiters := waiters[1..];
        var _ := waiter.Send(Done);
      }
    }
  }
}
