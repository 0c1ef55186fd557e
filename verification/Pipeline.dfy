/**
  The whole data path into one node as a machine. Many sessions share the node's hub: transmits are
  framed and queued on each session's route, pumped into its data channel, which may lose and reorder
  messages and on which a hostile peer may send any bytes, decoded, pushed into the one receive queue,
  and handed out by calls with any buffers until the hub is closed.
 */
module Pipeline {
  import opened Prelude
  import opened Addr
  import opened Frame
  import opened Delivery
  import opened Sender
  import opened DataChannel
  import opened Receiving

  /** One session: its id and the endpoint at its other end. */
  datatype Link = Link(id: SessionId, remote: EndpointId)

  datatype Config = Config(links: seq<Link>, sendMax: nat, recvMax: nat, routeCapacity: nat, recvCapacity: nat)

  /** The source address that the session's packets are queued with. */
  function Source(l: Link): CustomAddr {
    ToCustomAddr(WebRtcAddr(l.remote, Session(l.id)))
  }

  ghost predicate DistinctIds(cfg: Config) {
    forall i, j :: 0 <= i < j < |cfg.links| ==> cfg.links[i].id != cfg.links[j].id
  }

  /** A message on a channel, with its number among those of the session; one without a transmit is forged. */
  datatype Message = Message(bytes: seq<Byte>, transmit: Option<Transmit>, number: nat)

  /**
    One session's way: `put` are all its messages in the order they were made, `arrived` those let into
    the receive queue; `lost` counts datagrams that went missing, `forged` those of forged messages let in.
   */
  datatype Line = Line(
    registered: bool,
    put: seq<Message>,
    route: seq<Message>,
    wire: seq<Message>,
    arrived: seq<Message>,
    lost: nat,
    forged: nat)

  /** `sentCount` is the sum of the counters of the sending hubs. */
  datatype State = State(lines: seq<Line>, hub: Receiver, sentCount: nat)

  /** What happens to one session. */
  datatype LineOp =
    | Send(t: Transmit)
    | Pump
    | Lose(k: nat)
    | Forge(bytes: seq<Byte>)
    | Arrive(k: nat)
    | Unregister
    | DropRoute

  datatype Op = At(i: nat, op: LineOp) | Receive(caps: seq<nat>) | CloseHub

  const NEW_LINE: Line := Line(true, [], [], [], [], 0, 0)

  function NewLines(n: nat): (lines: seq<Line>)
    ensures |lines| == n && forall i :: 0 <= i < n ==> lines[i] == NEW_LINE
  {
    if n == 0 then [] else NewLines(n - 1) + [NEW_LINE]
  }

  function Start(cfg: Config): State {
    State(NewLines(|cfg.links|), NewReceiver(cfg.recvCapacity), 0)
  }

  // ---- What happens on one line ----

  function Without<T>(xs: seq<T>, k: nat): seq<T>
    requires k < |xs|
  {
    xs[..k] + xs[k + 1..]
  }

  /** The datagrams the sender counted for a message. */
  function Weight(m: Message): nat {
    if m.transmit.Some? then DatagramCount(m.transmit.value) else 0
  }

  function EncodedFor(cfg: Config, l: Link, t: Transmit): Result<seq<Byte>, Error> {
    Encoded(FrameOf(l.id, t), cfg.sendMax)
  }

  function PacketOf(cfg: Config, l: Link, m: Message): Option<QueuedPacket> {
    MessagePacket(m.bytes, Source(l), l.id, cfg.recvMax)
  }

  function CanSend(cfg: Config, l: Link, line: Line, t: Transmit): bool {
    line.registered && EncodedFor(cfg, l, t).Success? && |line.route| < cfg.routeCapacity
  }

  function Sent(cfg: Config, l: Link, line: Line, t: Transmit): Line
    requires CanSend(cfg, l, line, t)
  {
    var m := Message(EncodedFor(cfg, l, t).value, Some(t), |line.put|);
    line.(put := line.put + [m], route := line.route + [m])
  }

  function PumpedOn(line: Line): Line {
    if line.route == [] then line else line.(route := line.route[1..], wire := line.wire + [line.route[0]])
  }

  function ForgedOn(line: Line, bytes: seq<Byte>): Line {
    var m := Message(bytes, None, |line.put|);
    line.(put := line.put + [m], wire := line.wire + [m])
  }

  function LostOn(line: Line, k: nat): Line
    requires k < |line.wire|
  {
    line.(wire := Without(line.wire, k), lost := line.lost + Weight(line.wire[k]))
  }

  function ArrivedOn(line: Line, k: nat, packet: QueuedPacket): Line
    requires k < |line.wire|
  {
    var m := line.wire[k];
    line.(wire := Without(line.wire, k), arrived := line.arrived + [m],
          forged := line.forged + if m.transmit.None? then |PacketDatagrams(packet)| else 0)
  }

  /** The route's receiver goes away with everything that is still queued. */
  function RouteDropped(line: Line): Line {
    line.(registered := false, route := [], lost := line.lost + CountOf(line.route))
  }

  // ---- Steps; one that cannot happen, or is refused, changes nothing ----

  function OnLine(s: State, i: nat, line: Line): State
    requires i < |s.lines|
  {
    s.(lines := s.lines[i := line])
  }

  /** A message is queued if it is a frame of its session and there is room, whoever made it. */
  function Arrived(cfg: Config, s: State, i: nat, k: nat): State
    requires i < |s.lines| == |cfg.links| && k < |s.lines[i].wire|
  {
    var packet := PacketOf(cfg, cfg.links[i], s.lines[i].wire[k]);
    if packet.None? || !HasRoom(s.hub) then OnLine(s, i, LostOn(s.lines[i], k))
    else OnLine(s, i, ArrivedOn(s.lines[i], k, packet.value)).(hub := Pushed(s.hub, packet.value))
  }

  /** What an operation other than an arrival makes of its line, and how many datagrams it sends. */
  function OwnStep(cfg: Config, l: Link, line: Line, op: LineOp): (Line, nat)
    requires !op.Arrive?
  {
    match op
    case Send(t) => if CanSend(cfg, l, line, t) then (Sent(cfg, l, line, t), DatagramCount(t)) else (line, 0)
    case Pump => (PumpedOn(line), 0)
    case Lose(k) => (if k < |line.wire| then LostOn(line, k) else line, 0)
    case Forge(bytes) => (ForgedOn(line, bytes), 0)
    case Unregister => (line.(registered := false), 0)
    case DropRoute => (RouteDropped(line), 0)
  }

  function LineOpOn(cfg: Config, s: State, i: nat, op: LineOp): State
    requires i < |s.lines| == |cfg.links|
  {
    if op.Arrive? then
      if op.k < |s.lines[i].wire| then Arrived(cfg, s, i, op.k) else s
    else
      var (line, sent) := OwnStep(cfg, cfg.links[i], s.lines[i], op);
      OnLine(s, i, line).(sentCount := s.sentCount + sent)
  }

  function Step(cfg: Config, s: State, op: Op): State
    requires |s.lines| == |cfg.links|
  {
    match op
    case At(i, lineOp) => if i < |s.lines| then LineOpOn(cfg, s, i, lineOp) else s
    case Receive(caps) => s.(hub := Received(s.hub, caps))
    case CloseHub => s.(hub := s.hub.(closed := true))
  }

  function Run(cfg: Config, ops: seq<Op>): (s: State)
    ensures |s.lines| == |cfg.links|
    decreases |ops|
  {
    if ops == [] then Start(cfg) else Step(cfg, Run(cfg, ops[..|ops| - 1]), ops[|ops| - 1])
  }

  // ---- Sums over messages ----

  /** The datagrams that the messages are queued as, one message after another. */
  function DatagramsOf(cfg: Config, l: Link, ms: seq<Message>): seq<Datagram>
    decreases |ms|
  {
    if ms == [] then [] else DatagramsOf(cfg, l, ms[..|ms| - 1]) + MessageDatagrams(cfg, l, ms[|ms| - 1])
  }

  function MessageDatagrams(cfg: Config, l: Link, m: Message): seq<Datagram> {
    var packet := PacketOf(cfg, l, m);
    if packet.Some? then PacketDatagrams(packet.value) else []
  }

  /** The datagrams of the messages' transmits, as the senders meant them. */
  function TransmitsOf(l: Link, ms: seq<Message>): seq<Datagram>
    decreases |ms|
  {
    if ms == [] then []
    else
      var m := ms[|ms| - 1];
      TransmitsOf(l, ms[..|ms| - 1]) + if m.transmit.Some? then TransmitDatagrams(Source(l), m.transmit.value) else []
  }

  function CountOf(ms: seq<Message>): nat
    decreases |ms|
  {
    if ms == [] then 0 else CountOf(ms[..|ms| - 1]) + Weight(ms[|ms| - 1])
  }

  lemma {:induction false} CountOfAppend(xs: seq<Message>, ys: seq<Message>)
    ensures CountOf(xs + ys) == CountOf(xs) + CountOf(ys)
    decreases |ys|
  {
    if ys == [] {
      assert xs + ys == xs;
    } else {
      var n := |ys| - 1;
      assert (xs + ys)[..|xs + ys| - 1] == xs + ys[..n];
      CountOfAppend(xs, ys[..n]);
    }
  }

  lemma {:induction false} TransmitsOfAppend(l: Link, xs: seq<Message>, ys: seq<Message>)
    ensures TransmitsOf(l, xs + ys) == TransmitsOf(l, xs) + TransmitsOf(l, ys)
    decreases |ys|
  {
    if ys == [] {
      assert xs + ys == xs;
    } else {
      var n := |ys| - 1;
      var last := if ys[n].transmit.Some? then TransmitDatagrams(Source(l), ys[n].transmit.value) else [];
      assert (xs + ys)[..|xs + ys| - 1] == xs + ys[..n];
      TransmitsOfAppend(l, xs, ys[..n]);
      AppendAssociates(TransmitsOf(l, xs), TransmitsOf(l, ys[..n]), last);
    }
  }

  lemma CountOfOne(m: Message)
    ensures CountOf([m]) == Weight(m)
  {
    assert [m][..0] == [];
  }

  lemma CountOfMiddle(xs: seq<Message>, m: Message, ys: seq<Message>)
    ensures CountOf((xs + [m]) + ys) == CountOf(xs + ys) + Weight(m)
  {
    CountOfAppend(xs + [m], ys);
    CountOfAppend(xs, [m]);
    CountOfAppend(xs, ys);
    CountOfOne(m);
  }

  lemma SplitAround(ms: seq<Message>, k: nat)
    requires k < |ms|
    ensures ms == (ms[..k] + [ms[k]]) + ms[k + 1..]
  {
  }

  lemma CountOfWithout(ms: seq<Message>, k: nat)
    requires k < |ms|
    ensures CountOf(ms) == CountOf(Without(ms, k)) + Weight(ms[k])
  {
    SplitAround(ms, k);
    CountOfMiddle(ms[..k], ms[k], ms[k + 1..]);
  }

  lemma DatagramsOfSnoc(cfg: Config, l: Link, ms: seq<Message>, m: Message)
    ensures DatagramsOf(cfg, l, ms + [m]) == DatagramsOf(cfg, l, ms) + MessageDatagrams(cfg, l, m)
  {
    assert (ms + [m])[..|ms|] == ms;
  }

  // ---- The invariant of one line ----

  /** Where messages are: let in, on the wire, or on the route. */
  function Places(line: Line): seq<Message> {
    line.arrived + line.wire + line.route
  }

  /** The message was put on the line under its number; an honest one is what its transmit encodes to. */
  ghost predicate Genuine(cfg: Config, l: Link, put: seq<Message>, m: Message) {
    && m.number < |put| && put[m.number] == m
    && (m.transmit.Some? ==> EncodedFor(cfg, l, m.transmit.value) == Success(m.bytes))
  }

  ghost predicate AllGenuine(cfg: Config, l: Link, put: seq<Message>, ms: seq<Message>) {
    forall k :: 0 <= k < |ms| ==> Genuine(cfg, l, put, ms[k])
  }

  /** No message is in two places. */
  ghost predicate Once(ms: seq<Message>) {
    forall m :: multiset(ms)[m] <= 1
  }

  ghost predicate Tracked(cfg: Config, l: Link, line: Line) {
    AllGenuine(cfg, l, line.put, Places(line)) && Once(Places(line))
  }

  ghost predicate Counted(cfg: Config, l: Link, line: Line) {
    && CountOf(line.put) == CountOf(line.arrived) + CountOf(line.wire) + CountOf(line.route) + line.lost
    && |DatagramsOf(cfg, l, line.arrived)| == CountOf(line.arrived) + line.forged
  }

  /** What is let in is a frame of the session; of an honest message, exactly the datagrams of its transmit. */
  ghost predicate ComesThrough(cfg: Config, l: Link, m: Message) {
    && PacketOf(cfg, l, m).Some?
    && (m.transmit.Some? ==> MessageDatagrams(cfg, l, m) == TransmitDatagrams(Source(l), m.transmit.value))
  }

  ghost predicate AllComeThrough(cfg: Config, l: Link, ms: seq<Message>) {
    forall k :: 0 <= k < |ms| ==> ComesThrough(cfg, l, ms[k])
  }

  ghost predicate LineInv(cfg: Config, l: Link, line: Line) {
    && Tracked(cfg, l, line) && Counted(cfg, l, line) && AllComeThrough(cfg, l, line.arrived)
    && |line.route| <= cfg.routeCapacity
  }

  /** What arrives of an honest message is exactly the datagrams of its transmit, as many as were counted. */
  lemma HonestArrival(cfg: Config, l: Link, m: Message)
    requires m.transmit.Some? && EncodedFor(cfg, l, m.transmit.value) == Success(m.bytes)
    ensures |TransmitDatagrams(Source(l), m.transmit.value)| == DatagramCount(m.transmit.value) > 0
    ensures PacketOf(cfg, l, m).None? <==> |m.transmit.value.contents| > cfg.recvMax
    ensures PacketOf(cfg, l, m).Some? ==> MessageDatagrams(cfg, l, m) == TransmitDatagrams(Source(l), m.transmit.value)
  {
    var t := m.transmit.value;
    EncodeSucceedsIffEncodable(FrameOf(l.id, t), cfg.sendMax);
    DecodeAfterEncode(FrameOf(l.id, t), cfg.sendMax, cfg.recvMax);
    DecodeAfterEncode(FrameOf(l.id, t), cfg.sendMax, |t.contents|);
    DecodedDatagrams(l.id, t, cfg.sendMax, |t.contents|, Source(l));
    if |t.contents| <= cfg.recvMax {
      DecodedDatagrams(l.id, t, cfg.sendMax, cfg.recvMax, Source(l));
    }
  }

  /** A new message is in no place yet. */
  lemma NewMessage(cfg: Config, l: Link, put: seq<Message>, places: seq<Message>, m: Message)
    requires AllGenuine(cfg, l, put, places) && Once(places)
    requires m.number == |put| && (m.transmit.Some? ==> EncodedFor(cfg, l, m.transmit.value) == Success(m.bytes))
    ensures AllGenuine(cfg, l, put + [m], places) && AllGenuine(cfg, l, put + [m], places + [m])
    ensures Once(places + [m])
  {
    assert forall x :: x in places ==> x.number < |put|;
    var all := places + [m];
    forall k | 0 <= k < |all|
      ensures Genuine(cfg, l, put + [m], all[k])
    {
      if k < |places| {
        assert all[k] == places[k] && Genuine(cfg, l, put, places[k]);
      }
    }
    forall k | 0 <= k < |places|
      ensures Genuine(cfg, l, put + [m], places[k])
    {
      assert Genuine(cfg, l, put + [m], all[k]);
    }
    assert multiset(places)[m] == 0;
  }

  /** The same messages in another order are tracked as well, and so are fewer of them. */
  lemma Rearranged(cfg: Config, l: Link, put: seq<Message>, before: seq<Message>, after: seq<Message>)
    requires AllGenuine(cfg, l, put, before) && Once(before) && multiset(after) <= multiset(before)
    ensures AllGenuine(cfg, l, put, after) && Once(after)
  {
    forall k | 0 <= k < |after|
      ensures Genuine(cfg, l, put, after[k])
    {
      assert after[k] in multiset(after);
      assert after[k] in before;
    }
  }

  lemma SentKeeps(cfg: Config, l: Link, line: Line, t: Transmit)
    requires LineInv(cfg, l, line) && CanSend(cfg, l, line, t)
    ensures LineInv(cfg, l, Sent(cfg, l, line, t))
    ensures CountOf(Sent(cfg, l, line, t).put) == CountOf(line.put) + DatagramCount(t)
  {
    var line' := Sent(cfg, l, line, t);
    var m := line'.put[|line.put|];
    NewMessage(cfg, l, line.put, Places(line), m);
    assert Places(line') == Places(line) + [m];
    CountOfAppend(line.put, [m]);
    CountOfAppend(line.route, [m]);
    CountOfOne(m);
  }

  lemma PumpedPlaces(line: Line)
    ensures Places(PumpedOn(line)) == Places(line)
    ensures CountOf(PumpedOn(line).wire) + CountOf(PumpedOn(line).route) == CountOf(line.wire) + CountOf(line.route)
  {
    if line.route != [] {
      var m, rest := line.route[0], line.route[1..];
      assert line.route == [m] + rest;
      assert line.wire + ([m] + rest) == (line.wire + [m]) + rest;
      CountOfAppend([m], rest);
      CountOfAppend(line.wire, [m]);
    }
  }

  lemma PumpedKeeps(cfg: Config, l: Link, line: Line)
    requires LineInv(cfg, l, line)
    ensures LineInv(cfg, l, PumpedOn(line))
  {
    PumpedPlaces(line);
  }

  /** A forged message goes straight onto the wire. */
  lemma ForgedPlaces(cfg: Config, l: Link, line: Line, bytes: seq<Byte>)
    requires Tracked(cfg, l, line)
    ensures Tracked(cfg, l, ForgedOn(line, bytes))
  {
    var line' := ForgedOn(line, bytes);
    var m := line'.put[|line.put|];
    NewMessage(cfg, l, line.put, Places(line), m);
    assert Places(line') == line.arrived + line.wire + [m] + line.route;
    Rearranged(cfg, l, line'.put, Places(line) + [m], Places(line'));
  }

  lemma ForgedKeeps(cfg: Config, l: Link, line: Line, bytes: seq<Byte>)
    requires LineInv(cfg, l, line)
    ensures LineInv(cfg, l, ForgedOn(line, bytes)) && CountOf(ForgedOn(line, bytes).put) == CountOf(line.put)
  {
    var m := Message(bytes, None, |line.put|);
    ForgedPlaces(cfg, l, line, bytes);
    CountOfAppend(line.put, [m]);
    CountOfAppend(line.wire, [m]);
    CountOfOne(m);
  }

  /** Taking a message off the wire leaves the others where they are. */
  lemma OffTheWire(cfg: Config, l: Link, line: Line, k: nat)
    requires Tracked(cfg, l, line) && k < |line.wire|
    ensures var left := line.(wire := Without(line.wire, k));
      && Tracked(cfg, l, left) && Tracked(cfg, l, left.(arrived := line.arrived + [line.wire[k]]))
      && Genuine(cfg, l, line.put, line.wire[k])
  {
    var m, left := line.wire[k], line.(wire := Without(line.wire, k));
    var moved := left.(arrived := line.arrived + [m]);
    assert line.wire == line.wire[..k] + [m] + line.wire[k + 1..];
    assert Places(line)[|line.arrived| + k] == m;
    assert multiset(Places(moved)) == multiset(Places(line));
    Rearranged(cfg, l, line.put, Places(line), Places(moved));
    Rearranged(cfg, l, line.put, Places(line), Places(left));
  }

  lemma LostKeeps(cfg: Config, l: Link, line: Line, k: nat)
    requires LineInv(cfg, l, line) && k < |line.wire|
    ensures LineInv(cfg, l, LostOn(line, k))
  {
    OffTheWire(cfg, l, line, k);
    CountOfWithout(line.wire, k);
  }

  lemma ArrivedKeeps(cfg: Config, l: Link, line: Line, k: nat, packet: QueuedPacket)
    requires LineInv(cfg, l, line) && k < |line.wire| && PacketOf(cfg, l, line.wire[k]) == Some(packet)
    ensures LineInv(cfg, l, ArrivedOn(line, k, packet))
    ensures DatagramsOf(cfg, l, ArrivedOn(line, k, packet).arrived)
            == DatagramsOf(cfg, l, line.arrived) + PacketDatagrams(packet)
  {
    var m := line.wire[k];
    OffTheWire(cfg, l, line, k);
    CountOfWithout(line.wire, k);
    CountOfAppend(line.arrived, [m]);
    CountOfOne(m);
    DatagramsOfSnoc(cfg, l, line.arrived, m);
    if m.transmit.Some? {
      HonestArrival(cfg, l, m);
    }
  }

  lemma RouteDroppedKeeps(cfg: Config, l: Link, line: Line)
    requires LineInv(cfg, l, line)
    ensures LineInv(cfg, l, RouteDropped(line))
  {
    assert Places(line) == line.arrived + line.wire + line.route;
    assert Places(RouteDropped(line)) == line.arrived + line.wire;
    Rearranged(cfg, l, line.put, Places(line), Places(RouteDropped(line)));
  }

  // ---- What the sessions share ----

  /** The datagrams that come from one source. */
  function From(ds: seq<Datagram>, source: CustomAddr): seq<Datagram>
    decreases |ds|
  {
    if ds == [] then []
    else From(ds[..|ds| - 1], source) + if ds[|ds| - 1].source == source then [ds[|ds| - 1]] else []
  }

  lemma {:induction false} FromAppend(xs: seq<Datagram>, ys: seq<Datagram>, source: CustomAddr)
    ensures From(xs + ys, source) == From(xs, source) + From(ys, source)
    decreases |ys|
  {
    if ys == [] {
      assert xs + ys == xs;
    } else {
      var n := |ys| - 1;
      assert (xs + ys)[..|xs + ys| - 1] == xs + ys[..n];
      FromAppend(xs, ys[..n], source);
    }
  }

  lemma {:induction false} FromOne(ds: seq<Datagram>, one: CustomAddr, source: CustomAddr)
    requires forall k :: 0 <= k < |ds| ==> ds[k].source == one
    ensures From(ds, source) == if one == source then ds else []
    decreases |ds|
  {
    if ds != [] {
      FromOne(ds[..|ds| - 1], one, source);
      assert ds == ds[..|ds| - 1] + [ds[|ds| - 1]];
    }
  }

  lemma SourcesDiffer(cfg: Config, i: nat, j: nat)
    requires DistinctIds(cfg) && i < |cfg.links| && j < |cfg.links|
    ensures Source(cfg.links[i]) == Source(cfg.links[j]) <==> i == j
  {
    EncodeAddrInjective(WebRtcAddr(cfg.links[i].remote, Session(cfg.links[i].id)),
                        WebRtcAddr(cfg.links[j].remote, Session(cfg.links[j].id)));
  }

  /** A sum over the lines. */
  function Total(lines: seq<Line>, f: Line -> nat): nat
    decreases |lines|
  {
    if lines == [] then 0 else Total(lines[..|lines| - 1], f) + f(lines[|lines| - 1])
  }

  lemma {:induction false} TotalUpdate(lines: seq<Line>, i: nat, line: Line, f: Line -> nat)
    requires i < |lines|
    ensures Total(lines[i := line], f) + f(lines[i]) == Total(lines, f) + f(line)
    decreases |lines|
  {
    var n := |lines| - 1;
    if i < n {
      TotalUpdate(lines[..n], i, line, f);
      assert lines[i := line][..n] == lines[..n][i := line];
    } else {
      assert lines[i := line][..n] == lines[..n];
    }
  }

  function PutCount(line: Line): nat { CountOf(line.put) }
  function InFlight(line: Line): nat { CountOf(line.wire) + CountOf(line.route) }
  function Lost(line: Line): nat { line.lost }
  function Forged(line: Line): nat { line.forged }
  function ArrivedCount(line: Line): nat { CountOf(line.arrived) + line.forged }

  ghost predicate LinesGood(cfg: Config, s: State) {
    && |s.lines| == |cfg.links|
    && forall i :: 0 <= i < |s.lines| ==> LineInv(cfg, cfg.links[i], s.lines[i])
  }

  /** What each session has let in is what the queue has let in from its source. */
  ghost predicate Shared(cfg: Config, s: State)
    requires |s.lines| == |cfg.links|
  {
    forall i :: 0 <= i < |s.lines| ==>
      From(QueueDatagrams(s.hub.accepted), Source(cfg.links[i])) == DatagramsOf(cfg, cfg.links[i], s.lines[i].arrived)
  }

  ghost predicate Totals(s: State) {
    && |QueueDatagrams(s.hub.accepted)| == Total(s.lines, ArrivedCount)
    && s.sentCount == Total(s.lines, PutCount)
  }

  ghost predicate Inv(cfg: Config, s: State) {
    LinesGood(cfg, s) && Receiving.Inv(s.hub) && Shared(cfg, s) && Totals(s)
  }

  /** A line goes on without anything being let in. */
  lemma LineStep(cfg: Config, s: State, i: nat, line: Line, sent: nat)
    requires Inv(cfg, s) && i < |s.lines| && LineInv(cfg, cfg.links[i], line)
    requires line.arrived == s.lines[i].arrived && line.forged == s.lines[i].forged
    requires CountOf(line.put) == CountOf(s.lines[i].put) + sent
    ensures Inv(cfg, OnLine(s, i, line).(sentCount := s.sentCount + sent))
  {
    LineStepTotals(s, i, line, sent);
    LineStepShared(cfg, s, i, line);
  }

  lemma LineStepTotals(s: State, i: nat, line: Line, sent: nat)
    requires Totals(s) && i < |s.lines|
    requires line.arrived == s.lines[i].arrived && line.forged == s.lines[i].forged
    requires CountOf(line.put) == CountOf(s.lines[i].put) + sent
    ensures Totals(OnLine(s, i, line).(sentCount := s.sentCount + sent))
  {
    TotalUpdate(s.lines, i, line, ArrivedCount);
    TotalUpdate(s.lines, i, line, PutCount);
  }

  lemma LineStepShared(cfg: Config, s: State, i: nat, line: Line)
    requires |s.lines| == |cfg.links| && Shared(cfg, s) && i < |s.lines| && line.arrived == s.lines[i].arrived
    ensures Shared(cfg, OnLine(s, i, line))
  {
  }

  /** A packet is let in on line `i`: it adds its datagrams to that session and to no other. */
  lemma SharedStep(cfg: Config, s: State, i: nat, line: Line, packet: QueuedPacket)
    requires DistinctIds(cfg) && |s.lines| == |cfg.links| && Shared(cfg, s) && i < |s.lines| && HasRoom(s.hub)
    requires packet.source == Source(cfg.links[i]) && WellFormed(packet)
    requires DatagramsOf(cfg, cfg.links[i], line.arrived)
             == DatagramsOf(cfg, cfg.links[i], s.lines[i].arrived) + PacketDatagrams(packet)
    ensures Shared(cfg, OnLine(s, i, line).(hub := Pushed(s.hub, packet)))
  {
    var s' := OnLine(s, i, line).(hub := Pushed(s.hub, packet));
    var before, ds := QueueDatagrams(s.hub.accepted), PacketDatagrams(packet);
    QueueDatagramsSnoc(s.hub.accepted, packet);
    forall j | 0 <= j < |s'.lines|
      ensures From(QueueDatagrams(s'.hub.accepted), Source(cfg.links[j]))
              == DatagramsOf(cfg, cfg.links[j], s'.lines[j].arrived)
    {
      SourcesDiffer(cfg, i, j);
      FromAppend(before, ds, Source(cfg.links[j]));
      FromOne(ds, packet.source, Source(cfg.links[j]));
    }
  }

  lemma ArriveKeeps(cfg: Config, s: State, i: nat, k: nat)
    requires DistinctIds(cfg) && Inv(cfg, s) && i < |s.lines| && k < |s.lines[i].wire|
    ensures Inv(cfg, Arrived(cfg, s, i, k))
  {
    var l, line := cfg.links[i], s.lines[i];
    var packet := PacketOf(cfg, l, line.wire[k]);
    if packet.None? || !HasRoom(s.hub) {
      LostKeeps(cfg, l, line, k);
      LineStep(cfg, s, i, LostOn(line, k), 0);
    } else {
      LetIn(cfg, s, i, k, packet.value);
    }
  }

  lemma LetIn(cfg: Config, s: State, i: nat, k: nat, packet: QueuedPacket)
    requires DistinctIds(cfg) && Inv(cfg, s) && i < |s.lines| && k < |s.lines[i].wire| && HasRoom(s.hub)
    requires PacketOf(cfg, cfg.links[i], s.lines[i].wire[k]) == Some(packet)
    ensures Inv(cfg, OnLine(s, i, ArrivedOn(s.lines[i], k, packet)).(hub := Pushed(s.hub, packet)))
  {
    var line := ArrivedOn(s.lines[i], k, packet);
    ArrivedKeeps(cfg, cfg.links[i], s.lines[i], k, packet);
    SharedStep(cfg, s, i, line, packet);
    PushKeeps(s.hub, packet);
    LetInTotals(cfg, s, i, line, packet);
  }

  lemma LetInTotals(cfg: Config, s: State, i: nat, line: Line, packet: QueuedPacket)
    requires |s.lines| == |cfg.links| && Totals(s) && i < |s.lines| && HasRoom(s.hub) && WellFormed(packet)
    requires Counted(cfg, cfg.links[i], s.lines[i]) && Counted(cfg, cfg.links[i], line) && line.put == s.lines[i].put
    requires DatagramsOf(cfg, cfg.links[i], line.arrived)
             == DatagramsOf(cfg, cfg.links[i], s.lines[i].arrived) + PacketDatagrams(packet)
    ensures Totals(OnLine(s, i, line).(hub := Pushed(s.hub, packet)))
  {
    QueueDatagramsSnoc(s.hub.accepted, packet);
    TotalUpdate(s.lines, i, line, ArrivedCount);
    TotalUpdate(s.lines, i, line, PutCount);
  }

  lemma OwnStepKeeps(cfg: Config, l: Link, line: Line, op: LineOp)
    requires LineInv(cfg, l, line) && !op.Arrive?
    ensures var (line', sent) := OwnStep(cfg, l, line, op);
      && LineInv(cfg, l, line') && line'.arrived == line.arrived && line'.forged == line.forged
      && CountOf(line'.put) == CountOf(line.put) + sent
  {
    match op
    case Send(t) =>
      if CanSend(cfg, l, line, t) {
        SentKeeps(cfg, l, line, t);
      }
    case Pump => PumpedKeeps(cfg, l, line);
    case Lose(k) =>
      if k < |line.wire| {
        LostKeeps(cfg, l, line, k);
      }
    case Forge(bytes) => ForgedKeeps(cfg, l, line, bytes);
    case Unregister =>
    case DropRoute => RouteDroppedKeeps(cfg, l, line);
  }

  lemma LineOpKeeps(cfg: Config, s: State, i: nat, op: LineOp)
    requires DistinctIds(cfg) && Inv(cfg, s) && i < |s.lines|
    ensures Inv(cfg, LineOpOn(cfg, s, i, op))
  {
    if op.Arrive? {
      if op.k < |s.lines[i].wire| {
        ArriveKeeps(cfg, s, i, op.k);
      }
    } else {
      var own := OwnStep(cfg, cfg.links[i], s.lines[i], op);
      OwnStepKeeps(cfg, cfg.links[i], s.lines[i], op);
      LineStep(cfg, s, i, own.0, own.1);
    }
  }

  /** Calls and a close concern the hub alone. */
  lemma HubStepKeeps(cfg: Config, s: State, hub: Receiver)
    requires Inv(cfg, s) && Receiving.Inv(hub) && hub.accepted == s.hub.accepted
    ensures Inv(cfg, s.(hub := hub))
  {
    assert s.(hub := hub).lines == s.lines;
  }

  lemma StepKeeps(cfg: Config, s: State, op: Op)
    requires DistinctIds(cfg) && Inv(cfg, s)
    ensures Inv(cfg, Step(cfg, s, op))
  {
    match op
    case At(i, lineOp) =>
      if i < |s.lines| {
        LineOpKeeps(cfg, s, i, lineOp);
      }
    case Receive(caps) =>
      ReceiveKeeps(s.hub, caps);
      HubStepKeeps(cfg, s, Received(s.hub, caps));
    case CloseHub => HubStepKeeps(cfg, s, s.hub.(closed := true));
  }

  lemma {:induction false} RunKeeps(cfg: Config, ops: seq<Op>)
    requires DistinctIds(cfg)
    ensures Inv(cfg, Run(cfg, ops))
    decreases |ops|
  {
    if ops == [] {
      StartKeeps(cfg);
    } else {
      RunKeeps(cfg, ops[..|ops| - 1]);
      StepKeeps(cfg, Run(cfg, ops[..|ops| - 1]), ops[|ops| - 1]);
    }
  }

  lemma NewLineKeeps(cfg: Config, l: Link)
    ensures LineInv(cfg, l, NEW_LINE) && DatagramsOf(cfg, l, NEW_LINE.arrived) == []
  {
  }

  lemma StartKeeps(cfg: Config)
    ensures Inv(cfg, Start(cfg))
  {
    StartLines(cfg);
    NewTotals(Start(cfg).lines);
    StartHub(cfg.recvCapacity);
    NothingLetInYet(cfg, Start(cfg));
  }

  lemma NothingLetInYet(cfg: Config, s: State)
    requires LinesGood(cfg, s) && Receiving.Inv(s.hub) && s.hub.accepted == [] && s.sentCount == 0
    requires forall i :: 0 <= i < |cfg.links| ==> DatagramsOf(cfg, cfg.links[i], s.lines[i].arrived) == []
    requires Total(s.lines, ArrivedCount) == 0 && Total(s.lines, PutCount) == 0
    ensures Inv(cfg, s)
  {
    assert QueueDatagrams([]) == [];
  }

  lemma StartLines(cfg: Config)
    ensures LinesGood(cfg, Start(cfg))
    ensures forall i :: 0 <= i < |cfg.links| ==> DatagramsOf(cfg, cfg.links[i], Start(cfg).lines[i].arrived) == []
  {
    forall i | 0 <= i < |cfg.links|
      ensures LineInv(cfg, cfg.links[i], Start(cfg).lines[i])
      ensures DatagramsOf(cfg, cfg.links[i], Start(cfg).lines[i].arrived) == []
    {
      NewLineKeeps(cfg, cfg.links[i]);
    }
  }

  lemma {:induction false} TotalZero(lines: seq<Line>, f: Line -> nat)
    requires forall i :: 0 <= i < |lines| ==> f(lines[i]) == 0
    ensures Total(lines, f) == 0
    decreases |lines|
  {
    if lines != [] {
      TotalZero(lines[..|lines| - 1], f);
    }
  }

  lemma NewTotals(lines: seq<Line>)
    requires forall i :: 0 <= i < |lines| ==> lines[i] == NEW_LINE
    ensures Total(lines, ArrivedCount) == 0 && Total(lines, PutCount) == 0
  {
    forall i | 0 <= i < |lines|
      ensures ArrivedCount(lines[i]) == PutCount(lines[i]) == 0
    {
      NothingCounted();
    }
    TotalZero(lines, ArrivedCount);
    TotalZero(lines, PutCount);
  }

  lemma NothingCounted()
    ensures ArrivedCount(NEW_LINE) == PutCount(NEW_LINE) == 0
  {
  }

  lemma StartHub(capacity: nat)
    ensures Receiving.Inv(NewReceiver(capacity)) && QueueDatagrams(NewReceiver(capacity).accepted) == []
  {
    EveryRun(capacity, []);
  }

  // ---- What holds of every run ----

  /** What the node's application has been given, followed by what is still queued for it. */
  function Readable(s: State): seq<Datagram> {
    s.hub.delivered + Rest(s.hub.pending, s.hub.recv)
  }

  /**
    Whatever the channels do, whatever other sessions and forged messages do, and however the buffers are
    sized: from the source of a session the application reads, in order, the datagrams of messages of that
    session, each at most once, and an honest message gives exactly and whole the datagrams of its transmit.
   */
  lemma EndToEnd(cfg: Config, ops: seq<Op>, i: nat)
    requires DistinctIds(cfg) && i < |cfg.links|
    ensures var s, l := Run(cfg, ops), cfg.links[i];
      var line := s.lines[i];
      && From(Readable(s), Source(l)) == DatagramsOf(cfg, l, line.arrived)
      && (forall k :: 0 <= k < |line.arrived| ==>
            Genuine(cfg, l, line.put, line.arrived[k]) && ComesThrough(cfg, l, line.arrived[k]))
      && (forall j, k :: 0 <= j < k < |line.arrived| ==> line.arrived[j].number != line.arrived[k].number)
  {
    RunKeeps(cfg, ops);
    TrackedApart(cfg, cfg.links[i], Run(cfg, ops).lines[i]);
  }

  /** All sessions together: every packet let in is delivered whole and in order, and nothing else is. */
  lemma NothingElseIsDelivered(cfg: Config, ops: seq<Op>)
    requires DistinctIds(cfg)
    ensures var s := Run(cfg, ops);
      && Readable(s) == QueueDatagrams(s.hub.accepted) && ValidPending(s.hub.pending)
      && |Readable(s)| == Total(s.lines, ArrivedCount)
  {
    RunKeeps(cfg, ops);
  }

  /** The packet came in on the channel of the session it names, from that session's source. */
  ghost predicate Isolated(cfg: Config, packet: QueuedPacket) {
    exists i :: 0 <= i < |cfg.links|
      && packet.source == Source(cfg.links[i]) && packet.frame.sessionId == cfg.links[i].id
  }

  /** No channel can bring in a packet of another session, whatever is sent on it. */
  lemma {:induction false} SessionsAreIsolated(cfg: Config, ops: seq<Op>)
    ensures forall k :: 0 <= k < |Run(cfg, ops).hub.accepted| ==> Isolated(cfg, Run(cfg, ops).hub.accepted[k])
    decreases |ops|
  {
    if ops != [] {
      var s, op := Run(cfg, ops[..|ops| - 1]), ops[|ops| - 1];
      SessionsAreIsolated(cfg, ops[..|ops| - 1]);
      WhatIsLetIn(cfg, s, op);
    }
  }

  lemma WhatIsLetIn(cfg: Config, s: State, op: Op)
    requires |s.lines| == |cfg.links|
    ensures var before, after := s.hub.accepted, Step(cfg, s, op).hub.accepted;
      after == before || exists packet :: after == before + [packet] && Isolated(cfg, packet)
  {
    if op.At? && op.i < |s.lines| && op.op.Arrive? && op.op.k < |s.lines[op.i].wire| {
      var packet := PacketOf(cfg, cfg.links[op.i], s.lines[op.i].wire[op.op.k]);
      if packet.Some? {
        assert Isolated(cfg, packet.value);
      }
    }
  }

  lemma TrackedApart(cfg: Config, l: Link, line: Line)
    requires Tracked(cfg, l, line)
    ensures forall k :: 0 <= k < |line.arrived| ==> Genuine(cfg, l, line.put, line.arrived[k])
    ensures forall j, k :: 0 <= j < k < |line.arrived| ==> line.arrived[j].number != line.arrived[k].number
  {
    forall k | 0 <= k < |line.arrived|
      ensures Genuine(cfg, l, line.put, line.arrived[k])
    {
      assert Places(line)[k] == line.arrived[k];
    }
    forall j, k | 0 <= j < k < |line.arrived|
      ensures line.arrived[j].number != line.arrived[k].number
    {
      OnceApart(Places(line), j, k);
      assert line.arrived[j] == Places(line)[j] && line.arrived[k] == Places(line)[k];
    }
  }

  lemma OnceApart(ms: seq<Message>, i: nat, j: nat)
    requires Once(ms) && i < j < |ms|
    ensures ms[i] != ms[j]
  {
    var front, back := ms[..j], ms[j..];
    assert ms == front + back;
    assert front[i] in multiset(front) && back[0] in multiset(back);
    assert multiset(ms)[ms[i]] <= 1;
  }

  /** The hub-wide counters account for every datagram of every session, whichever shapes it was delivered in. */
  lemma CountersBalance(cfg: Config, ops: seq<Op>)
    requires DistinctIds(cfg)
    ensures var s := Run(cfg, ops);
      s.sentCount + Total(s.lines, Forged)
      == s.hub.count + |Rest(s.hub.pending, s.hub.recv)| + Total(s.lines, InFlight) + Total(s.lines, Lost)
  {
    RunKeeps(cfg, ops);
    InvBalances(cfg, Run(cfg, ops));
  }

  lemma InvBalances(cfg: Config, s: State)
    requires Inv(cfg, s)
    ensures s.sentCount + Total(s.lines, Forged)
            == s.hub.count + |Rest(s.hub.pending, s.hub.recv)| + Total(s.lines, InFlight) + Total(s.lines, Lost)
  {
    HubBalances(s.hub);
    LinesBalance(cfg, s.lines, |s.lines|);
    assert s.lines[..|s.lines|] == s.lines;
  }

  lemma HubBalances(r: Receiver)
    requires Receiving.Inv(r)
    ensures |QueueDatagrams(r.accepted)| == r.count + |Rest(r.pending, r.recv)|
  {
  }

  lemma {:induction false} LinesBalance(cfg: Config, lines: seq<Line>, n: nat)
    requires |lines| == |cfg.links| && n <= |lines|
    requires forall i :: 0 <= i < |lines| ==> LineInv(cfg, cfg.links[i], lines[i])
    ensures var some := lines[..n];
      Total(some, PutCount) + Total(some, Forged)
      == Total(some, ArrivedCount) + Total(some, InFlight) + Total(some, Lost)
    decreases n
  {
    if n > 0 {
      LinesBalance(cfg, lines, n - 1);
      assert lines[..n][..n - 1] == lines[..n - 1];
      assert Counted(cfg, cfg.links[n - 1], lines[n - 1]);
    }
  }

  // ---- Ordered channels ----

  /** The channel of session `i` delivers in order, and nobody forges messages on it. */
  predicate InOrder(ops: seq<Op>, i: nat) {
    forall op :: op in ops && op.At? && op.i == i ==> !op.op.Forge? && (op.op.Arrive? ==> op.op.k == 0)
  }

  predicate Increasing(ms: seq<Message>) {
    forall j, k :: 0 <= j < k < |ms| ==> ms[j].number < ms[k].number
  }

  /** The messages are in the order they were sent; if none was lost, these are all. */
  ghost predicate Lined(line: Line) {
    && Increasing(Places(line)) && (line.lost == 0 ==> Places(line) == line.put)
    && (forall m :: m in line.put ==> m.transmit.Some?)
  }

  lemma Removed(line: Line, k: nat)
    requires Increasing(Places(line)) && k < |line.wire|
    ensures Increasing(line.arrived + Without(line.wire, k) + line.route)
  {
    var j := |line.arrived| + k;
    assert line.arrived + Without(line.wire, k) + line.route == Places(line)[..j] + Places(line)[j + 1..];
  }

  lemma SentLined(cfg: Config, l: Link, line: Line, t: Transmit)
    requires LineInv(cfg, l, line) && Lined(line) && CanSend(cfg, l, line, t)
    ensures Lined(Sent(cfg, l, line, t))
  {
    var line' := Sent(cfg, l, line, t);
    assert Places(line') == Places(line) + [line'.put[|line.put|]];
    forall k | 0 <= k < |Places(line)|
      ensures Places(line)[k].number < |line.put|
    {
      assert Genuine(cfg, l, line.put, Places(line)[k]);
    }
  }

  lemma PumpedLined(line: Line)
    requires Lined(line)
    ensures Lined(PumpedOn(line))
  {
    PumpedPlaces(line);
  }

  lemma WireWeighs(cfg: Config, l: Link, line: Line, k: nat)
    requires Tracked(cfg, l, line) && Lined(line) && k < |line.wire|
    ensures Weight(line.wire[k]) > 0
  {
    OffTheWire(cfg, l, line, k);
    HonestArrival(cfg, l, line.wire[k]);
  }

  lemma LostLined(cfg: Config, l: Link, line: Line, k: nat)
    requires LineInv(cfg, l, line) && Lined(line) && k < |line.wire|
    ensures Lined(LostOn(line, k))
  {
    Removed(line, k);
    WireWeighs(cfg, l, line, k);
  }

  lemma FirstMoved(arrived: seq<Message>, wire: seq<Message>, route: seq<Message>)
    requires wire != []
    ensures (arrived + [wire[0]]) + Without(wire, 0) + route == arrived + wire + route
  {
  }

  lemma ArrivedLined(line: Line, packet: QueuedPacket)
    requires Lined(line) && line.wire != []
    ensures Lined(ArrivedOn(line, 0, packet))
  {
    FirstMoved(line.arrived, line.wire, line.route);
  }

  lemma RouteDroppedLined(cfg: Config, l: Link, line: Line)
    requires LineInv(cfg, l, line) && Lined(line)
    ensures Lined(RouteDropped(line))
  {
    var line' := RouteDropped(line);
    assert Places(line') == Places(line)[..|line.arrived| + |line.wire|];
    if line.route != [] {
      var m := line.route[|line.route| - 1];
      assert Places(line)[|Places(line)| - 1] == m;
      assert Genuine(cfg, l, line.put, m);
      assert line.put[m.number] in line.put;
      HonestArrival(cfg, l, m);
    } else {
      assert Places(line') == Places(line);
    }
  }

  lemma LineOpLined(cfg: Config, s: State, i: nat, op: LineOp)
    requires LinesGood(cfg, s) && i < |s.lines| && Lined(s.lines[i]) && !op.Forge? && (op.Arrive? ==> op.k == 0)
    ensures Lined(LineOpOn(cfg, s, i, op).lines[i])
  {
    var l, line := cfg.links[i], s.lines[i];
    match op
    case Send(t) =>
      if CanSend(cfg, l, line, t) {
        SentLined(cfg, l, line, t);
      }
    case Pump => PumpedLined(line);
    case Lose(k) =>
      if k < |line.wire| {
        LostLined(cfg, l, line, k);
      }
    case Arrive(k) =>
      if k < |line.wire| {
        LostLined(cfg, l, line, k);
        var packet := PacketOf(cfg, l, line.wire[k]);
        if packet.Some? {
          ArrivedLined(line, packet.value);
        }
      }
    case Unregister => assert Places(line.(registered := false)) == Places(line);
    case DropRoute => RouteDroppedLined(cfg, l, line);
  }

  lemma OtherLinesStay(cfg: Config, s: State, j: nat, op: LineOp, i: nat)
    requires |s.lines| == |cfg.links| && i < |s.lines| && j < |s.lines| && i != j
    ensures LineOpOn(cfg, s, j, op).lines[i] == s.lines[i]
  {
  }

  /** Over its ordered channel no message of a session overtakes another, whatever the other sessions do. */
  lemma {:induction false} OrderedRun(cfg: Config, ops: seq<Op>, i: nat)
    requires DistinctIds(cfg) && i < |cfg.links| && InOrder(ops, i)
    ensures Lined(Run(cfg, ops).lines[i])
    decreases |ops|
  {
    if ops != [] {
      var before, op := ops[..|ops| - 1], ops[|ops| - 1];
      var s := Run(cfg, before);
      assert op in ops;
      OrderedRun(cfg, before, i);
      RunKeeps(cfg, before);
      if op.At? && op.i < |s.lines| {
        if op.i == i {
          LineOpLined(cfg, s, i, op.op);
        } else {
          OtherLinesStay(cfg, s, op.i, op.op, i);
        }
      }
    }
  }

  lemma {:induction false} HonestDatagrams(cfg: Config, l: Link, ms: seq<Message>)
    requires AllComeThrough(cfg, l, ms) && forall k :: 0 <= k < |ms| ==> ms[k].transmit.Some?
    ensures DatagramsOf(cfg, l, ms) == TransmitsOf(l, ms)
    decreases |ms|
  {
    if ms != [] {
      assert ComesThrough(cfg, l, ms[|ms| - 1]);
      HonestDatagrams(cfg, l, ms[..|ms| - 1]);
    }
  }

  /**
    Over its ordered channel that has lost nothing, a session reads exactly what was sent to it, from the
    first datagram on, whatever happens on the channels of the other sessions.
   */
  lemma ReliableRun(cfg: Config, ops: seq<Op>, i: nat)
    requires DistinctIds(cfg) && i < |cfg.links| && InOrder(ops, i) && Run(cfg, ops).lines[i].lost == 0
    ensures var s, l := Run(cfg, ops), cfg.links[i];
      var line := s.lines[i];
      && From(Readable(s), Source(l)) + TransmitsOf(l, line.wire) + TransmitsOf(l, line.route)
         == TransmitsOf(l, line.put)
      && line.forged == 0
  {
    var s, l := Run(cfg, ops), cfg.links[i];
    var line := s.lines[i];
    OrderedRun(cfg, ops, i);
    RunKeeps(cfg, ops);
    LinedIsHonest(line);
    HonestDatagrams(cfg, l, line.arrived);
    TransmitsOfAppend(l, line.arrived, line.wire);
    TransmitsOfAppend(l, line.arrived + line.wire, line.route);
    NothingForged(cfg, l, line);
  }

  lemma LinedIsHonest(line: Line)
    requires Lined(line) && line.lost == 0
    ensures forall k :: 0 <= k < |line.arrived| ==> line.arrived[k].transmit.Some?
  {
    forall k | 0 <= k < |line.arrived|
      ensures line.arrived[k].transmit.Some?
    {
      assert Places(line)[k] == line.arrived[k];
      assert line.put[k] in line.put;
    }
  }

  lemma NothingForged(cfg: Config, l: Link, line: Line)
    requires LineInv(cfg, l, line) && forall k :: 0 <= k < |line.arrived| ==> line.arrived[k].transmit.Some?
    ensures line.forged == 0
  {
    AsMany(cfg, l, line.put, line.arrived);
    assert AllGenuine(cfg, l, line.put, line.arrived) by {
      assert forall k :: 0 <= k < |line.arrived| ==> Places(line)[k] == line.arrived[k];
    }
  }

  lemma {:induction false} AsMany(cfg: Config, l: Link, put: seq<Message>, ms: seq<Message>)
    ensures && AllGenuine(cfg, l, put, ms) && AllComeThrough(cfg, l, ms)
            && (forall k :: 0 <= k < |ms| ==> ms[k].transmit.Some?) ==>
              |DatagramsOf(cfg, l, ms)| == CountOf(ms)
    decreases |ms|
  {
    if ms != [] && AllGenuine(cfg, l, put, ms) && AllComeThrough(cfg, l, ms)
       && forall k :: 0 <= k < |ms| ==> ms[k].transmit.Some?
    {
      var last := ms[|ms| - 1];
      assert Genuine(cfg, l, put, last) && ComesThrough(cfg, l, last);
      HonestArrival(cfg, l, last);
      AsMany(cfg, l, put, ms[..|ms| - 1]);
    }
  }
}
