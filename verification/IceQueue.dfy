/** The bounded queue between local ICE gathering and the signalling side (core/hub.rs). */
module IceQueue {
  import opened Prelude

  datatype IceCandidate = IceCandidate(candidate: string, sdpMid: Option<string>, sdpMlineIndex: Option<nat>)

  datatype LocalIceEvent = Candidate(candidate: IceCandidate) | EndOfCandidates

  /** The queue as a value. */
  datatype IceState = IceState(capacity: nat, queue: seq<LocalIceEvent>, waker: Option<Waker>, closed: bool)

  /** What a push does: the new state, its result, and what it threw out. */
  datatype PushEffect = PushEffect(after: IceState, r: Result<(), Error>, appended: bool, evicted: seq<LocalIceEvent>)

  function Pushed(q: IceState, event: LocalIceEvent): PushEffect {
    if q.closed then PushEffect(q, Failure(SessionClosed), false, [])
    else if |q.queue| < q.capacity then
      PushEffect(q.(queue := q.queue + [event], waker := None), Success(()), true, [])
    else if !event.EndOfCandidates? || q.capacity == 0 then PushEffect(q, Failure(SendQueueFull), false, [])
    else if EndOfCandidates in q.queue then PushEffect(q, Success(()), false, [])
    else PushEffect(q.(queue := q.queue[1..] + [event], waker := None), Success(()), true, [q.queue[0]])
  }

  /** A task waits only for something that is not there yet. */
  ghost predicate Valid(q: IceState) {
    && |q.queue| <= q.capacity
    && (q.waker.Some? ==> q.queue == [] && !q.closed)
  }

  /** The mutex-guarded queue that both sides share. */
  class LocalIceQueue {
    const capacity: nat
    var queue: seq<LocalIceEvent>
    var waker: Option<Waker>
    var closed: bool
    ghost var woken: seq<Waker>

    function Now(): IceState
      reads this
    {
      IceState(capacity, queue, waker, closed)
    }

    constructor WithCapacity(capacity: nat)
      ensures Now() == IceState(capacity, [], None, false) && woken == []
    {
      this.capacity := capacity;
      queue, waker, closed, woken := [], None, false, [];
    }

    /** A push that changes the queue wakes the waiting task; no push is ever missed. */
    method Push(event: LocalIceEvent) returns (r: Result<(), Error>)
      requires Valid(Now())
      modifies this
      ensures Valid(Now())
      ensures Now() == Pushed(old(Now()), event).after && r == Pushed(old(Now()), event).r
      ensures r.Success? ==> waker == None && (old(waker).Some? ==> woken == old(woken) + [old(waker).value])
    {
      if closed {
        return Failure(SessionClosed);
      }
      if |queue| >= capacity {
        if event == EndOfCandidates && capacity > 0 {
          if EndOfCandidates in queue {
            return Success(());
          }
          queue := queue[1..];
        } else {
          return Failure(SendQueueFull);
        }
      }
      queue := queue + [event];
      Wake();
      return Success(());
    }

    method PollNext(task: Waker) returns (r: Poll<Result<LocalIceEvent, Error>>)
      requires Valid(Now())
      modifies this
      ensures Valid(Now())
      ensures old(queue) != [] ==> r == Ready(Success(old(queue)[0])) && Now() == old(Now()).(queue := old(queue)[1..])
      ensures old(queue) == [] && closed ==> r == Ready(Failure(SessionClosed)) && Now() == old(Now())
      ensures old(queue) == [] && !closed ==> r == Pending && Now() == old(Now()).(waker := Some(task))
    {
      if queue != [] {
        r := Ready(Success(queue[0]));
        queue := queue[1..];
        return;
      }
      if closed {
        return Ready(Failure(SessionClosed));
      }
      waker := Some(task);
      return Pending;
    }

    method Close()
      requires Valid(Now())
      modifies this
      ensures Valid(Now()) && Now() == old(Now()).(closed := true, waker := None)
      ensures old(waker).Some? ==> woken == old(woken) + [old(waker).value]
    {
      closed := true;
      Wake();
    }

    method Wake()
      modifies this`waker, this`woken
      ensures waker == None
      ensures woken == old(woken) + (if old(waker).Some? then [old(waker).value] else [])
    {
      if waker.Some? {
        woken := woken + [waker.value];
      }
      waker := None;
    }
  }

  /** A push lets the event in at the end; what it throws out is the oldest, and otherwise nothing moves. */
  lemma PushShifts(q: IceState, event: LocalIceEvent)
    requires Valid(q)
    ensures var p := Pushed(q, event);
      && (p.appended ==>
            && p.r.Success? && p.evicted + p.after.queue == q.queue + [event]
            && |p.after.queue| <= q.capacity)
      && (p.evicted != [] ==> |q.queue| == q.capacity && event.EndOfCandidates? && EndOfCandidates !in q.queue)
      && (!p.appended ==>
            && p.after == q
            && (p.r.Success? <==> !q.closed && event.EndOfCandidates? && EndOfCandidates in q.queue))
  {
    if q.queue != [] {
      assert q.queue == [q.queue[0]] + q.queue[1..];
    }
  }

  // ---- Whole runs of one queue ----

  datatype Op = Push(event: LocalIceEvent) | Poll(task: Waker) | Close

  /** A queue with its history: what was let in, handed out and thrown out, in order. */
  datatype History = History(
    now: IceState,
    appended: seq<LocalIceEvent>,
    delivered: seq<LocalIceEvent>,
    evicted: seq<LocalIceEvent>)

  function Step(h: History, op: Op): History {
    match op
    case Push(event) =>
      var p := Pushed(h.now, event);
      History(p.after, if p.appended then h.appended + [event] else h.appended, h.delivered, h.evicted + p.evicted)
    case Poll(task) =>
      if h.now.queue != [] then
        h.(now := h.now.(queue := h.now.queue[1..]), delivered := h.delivered + [h.now.queue[0]])
      else if h.now.closed then h
      else h.(now := h.now.(waker := Some(task)))
    case Close => h.(now := h.now.(closed := true, waker := None))
  }

  function Run(capacity: nat, ops: seq<Op>): History
    decreases |ops|
  {
    if ops == [] then History(IceState(capacity, [], None, false), [], [], [])
    else Step(Run(capacity, ops[..|ops| - 1]), ops[|ops| - 1])
  }

  /** `a` is `b` with some elements left out. */
  predicate Subsequence<T(==)>(a: seq<T>, b: seq<T>)
    decreases |b|
  {
    if a == [] then true
    else if b == [] then false
    else (a[|a| - 1] == b[|b| - 1] && Subsequence(a[..|a| - 1], b[..|b| - 1])) || Subsequence(a, b[..|b| - 1])
  }

  lemma SubsequenceSnoc<T>(a: seq<T>, b: seq<T>, x: T)
    requires Subsequence(a, b)
    ensures Subsequence(a + [x], b + [x])
  {
    assert (a + [x])[..|a|] == a && (b + [x])[..|b|] == b;
  }

  lemma {:induction false} SubsequenceDrop<T>(a: seq<T>, i: nat, b: seq<T>)
    requires i < |a| && Subsequence(a, b)
    ensures Subsequence(a[..i] + a[i + 1..], b)
    decreases |b|
  {
    var less, front := a[..i] + a[i + 1..], b[..|b| - 1];
    if less != [] {
      if Subsequence(a, front) {
        SubsequenceDrop(a, i, front);
      } else if i == |a| - 1 {
        assert less == a[..|a| - 1];
        SubsequencePrefix(less, front, b[|b| - 1]);
      } else {
        SubsequenceDrop(a[..|a| - 1], i, front);
        assert less[..|less| - 1] == a[..|a| - 1][..i] + a[..|a| - 1][i + 1..];
      }
    }
  }

  lemma SubsequencePrefix<T>(a: seq<T>, b: seq<T>, x: T)
    requires Subsequence(a, b)
    ensures Subsequence(a, b + [x])
  {
    assert (b + [x])[..|b|] == b;
  }

  function Marks(events: seq<LocalIceEvent>): nat {
    multiset(events)[EndOfCandidates]
  }

  /**
    What holds of every history: no task sleeps beside a waiting event, nothing is reordered or
    made up, the end marker is never thrown out, and a candidate is thrown out only to make room
    for a marker, so at most once more than markers were handed out.
   */
  ghost predicate Inv(h: History) {
    && Valid(h.now)
    && Subsequence(h.delivered + h.now.queue, h.appended)
    && |h.appended| == |h.delivered| + |h.now.queue| + |h.evicted|
    && EndOfCandidates !in h.evicted
    && Marks(h.appended) == Marks(h.delivered) + Marks(h.now.queue)
    && |h.evicted| <= Marks(h.delivered) + (if EndOfCandidates in h.now.queue then 1 else 0)
  }

  lemma AppendOrder(delivered: seq<LocalIceEvent>, queue: seq<LocalIceEvent>, appended: seq<LocalIceEvent>,
                    event: LocalIceEvent)
    requires Subsequence(delivered + queue, appended)
    ensures Subsequence(delivered + (queue + [event]), appended + [event])
    ensures queue != [] ==> Subsequence(delivered + (queue[1..] + [event]), appended + [event])
  {
    var all := (delivered + queue) + [event];
    SubsequenceSnoc(delivered + queue, appended, event);
    assert delivered + (queue + [event]) == all;
    if queue != [] {
      var k := |delivered|;
      SubsequenceDrop(all, k, appended + [event]);
      assert delivered + (queue[1..] + [event]) == all[..k] + all[k + 1..];
    }
  }

  lemma AppendMarks(events: seq<LocalIceEvent>, event: LocalIceEvent)
    ensures Marks(events + [event]) == Marks(events) + (if event.EndOfCandidates? then 1 else 0)
  {
  }

  lemma DropMarks(events: seq<LocalIceEvent>)
    requires events != []
    ensures Marks(events) == Marks(events[1..]) + (if events[0].EndOfCandidates? then 1 else 0)
  {
    assert events == [events[0]] + events[1..];
  }

  lemma PushKeeps(h: History, event: LocalIceEvent)
    requires Inv(h)
    ensures Inv(Step(h, Push(event)))
  {
    var q := h.now.queue;
    var p := Pushed(h.now, event);
    if p.appended {
      AppendOrder(h.delivered, q, h.appended, event);
      AppendMarks(h.appended, event);
      if p.evicted == [] {
        AppendMarks(q, event);
        assert EndOfCandidates in q ==> EndOfCandidates in q + [event];
      } else {
        DropMarks(q);
        AppendMarks(q[1..], event);
        assert event in q[1..] + [event];
        assert EndOfCandidates !in q;
      }
    }
  }

  lemma PollKeeps(h: History, task: Waker)
    requires Inv(h)
    ensures Inv(Step(h, Poll(task)))
  {
    if h.now.queue != [] {
      assert h.now.queue == [h.now.queue[0]] + h.now.queue[1..];
      assert (h.delivered + [h.now.queue[0]]) + h.now.queue[1..] == h.delivered + h.now.queue;
    }
  }

  /** Every run of a queue, of any capacity, with pushes and polls interleaved in any way. */
  lemma {:induction false} RunKeeps(capacity: nat, ops: seq<Op>)
    ensures Inv(Run(capacity, ops)) && Run(capacity, ops).now.capacity == capacity
    decreases |ops|
  {
    if ops != [] {
      var before := ops[..|ops| - 1];
      RunKeeps(capacity, before);
      match ops[|ops| - 1]
      case Push(event) => PushKeeps(Run(capacity, before), event);
      case Poll(task) => PollKeeps(Run(capacity, before), task);
      case Close =>
    }
  }

  /** A marker pushed into an open queue that can hold anything gets in, and only delivery takes it out. */
  lemma MarkerStays(capacity: nat, ops: seq<Op>, later: seq<Op>)
    requires capacity > 0 && !Run(capacity, ops).now.closed
    ensures var h := Step(Run(capacity, ops), Push(EndOfCandidates));
      && Pushed(Run(capacity, ops).now, EndOfCandidates).r == Success(())
      && EndOfCandidates in h.now.queue
      && (EndOfCandidates in Resume(h, later).now.queue
          || Marks(Resume(h, later).delivered) > Marks(h.delivered))
  {
    RunKeeps(capacity, ops);
    var h := Step(Run(capacity, ops), Push(EndOfCandidates));
    PushKeeps(Run(capacity, ops), EndOfCandidates);
    assert EndOfCandidates in h.now.queue by {
      if Pushed(Run(capacity, ops).now, EndOfCandidates).appended {
        assert h.now.queue[|h.now.queue| - 1] == EndOfCandidates;
      }
    }
    StaysUntilDelivered(h, later);
  }

  function Resume(h: History, ops: seq<Op>): History
    decreases |ops|
  {
    if ops == [] then h else Step(Resume(h, ops[..|ops| - 1]), ops[|ops| - 1])
  }

  lemma {:induction false} StaysUntilDelivered(h: History, later: seq<Op>)
    requires EndOfCandidates in h.now.queue
    ensures var g := Resume(h, later);
      && Marks(g.delivered) >= Marks(h.delivered)
      && (EndOfCandidates in g.now.queue || Marks(g.delivered) > Marks(h.delivered))
    decreases |later|
  {
    if later != [] {
      StaysUntilDelivered(h, later[..|later| - 1]);
      var g, op := Resume(h, later[..|later| - 1]), later[|later| - 1];
      var q := g.now.queue;
      if EndOfCandidates in q {
        var p := Pushed(g.now, EndOfCandidates);
        assert q[0] == EndOfCandidates || EndOfCandidates in q[1..];
        if op.Push? && Pushed(g.now, op.event).appended && Pushed(g.now, op.event).evicted == [] {
          assert EndOfCandidates in q + [op.event];
        }
      }
    }
  }
}
