/** Length-prefixed frames over a byte stream (examples/rust-browser-ping-pong/src/lib.rs). */
module FrameReader {
  import opened Prelude
  import opened Frame

  const MAX_BENCHMARK_FRAME_BYTES: nat := 128 * 1024 * 1024

  datatype ReadError = StreamBroken | CutInHeader | FrameTooLarge | CutInBody

  datatype ReadResult = Got(payload: seq<Byte>) | Nothing | Failed(error: ReadError)

  /** The bytes that carry one payload; lengths that need more than 32 bits are refused. */
  method SendFrame(payload: seq<Byte>) returns (r: Option<seq<Byte>>)
    ensures r == if |payload| < U32_LIMIT then Some(FrameBytes(payload)) else None
  {
    if |payload| > 0xffff_ffff {
      return None;
    }
    var frame: seq<Byte> := ToBe32(|payload|);
    frame := frame + payload;
    return Some(frame);
  }

  function FrameBytes(payload: seq<Byte>): seq<Byte>
    requires |payload| < U32_LIMIT
  {
    ToBe32(|payload|) + payload
  }

  /** What reading the next frame off these bytes gives, and what it leaves. */
  function NextFrame(bytes: seq<Byte>, broken: bool): (ReadResult, seq<Byte>) {
    if |bytes| < 4 then
      (if broken then Failed(StreamBroken) else if bytes == [] then Nothing else Failed(CutInHeader), bytes)
    else
      var len := FromBe32(bytes[..4]);
      if len > MAX_BENCHMARK_FRAME_BYTES then (Failed(FrameTooLarge), bytes)
      else if |bytes| < 4 + len then (Failed(if broken then StreamBroken else CutInBody), bytes)
      else (Got(bytes[4..4 + len]), bytes[4 + len..])
  }

  lemma HeaderInBuffer(buffer: seq<Byte>, rest: seq<Byte>)
    requires |buffer| >= 4
    ensures (buffer + rest)[..4] == buffer[..4]
  {
  }

  lemma FrameInBuffer(buffer: seq<Byte>, rest: seq<Byte>, len: nat)
    requires |buffer| >= 4 + len
    ensures (buffer + rest)[4..4 + len] == buffer[4..4 + len]
    ensures (buffer + rest)[4 + len..] == buffer[4 + len..] + rest
  {
  }

  /** A stream of chunks of any sizes that ends, or breaks, after the last of them. */
  class FrameReader {
    var chunks: seq<seq<Byte>>
    const broken: bool
    var buffer: seq<Byte>
    var eof: bool

    constructor (chunks: seq<seq<Byte>>, broken: bool)
      ensures Valid() && Unread() == Flatten(chunks) && this.broken == broken
    {
      this.chunks, this.broken, buffer, eof := chunks, broken, [], false;
    }

    ghost predicate Valid()
      reads this
    {
      eof ==> chunks == [] && !broken
    }

    /** Everything not yet returned, wherever it is. */
    ghost function Unread(): seq<Byte>
      reads this
    {
      buffer + Flatten(chunks)
    }

    method ReadChunk() returns (r: Result<Option<seq<Byte>>, ReadError>)
      modifies this`chunks
      ensures old(chunks) == [] ==> chunks == [] && r == if broken then Failure(StreamBroken) else Success(None)
      ensures old(chunks) != [] ==> chunks == old(chunks)[1..] && r == Success(Some(old(chunks)[0]))
    {
      if chunks == [] {
        return if broken then Failure(StreamBroken) else Success(None);
      }
      r := Success(Some(chunks[0]));
      chunks := chunks[1..];
    }

    /** Buffer at least `len` bytes, if the stream has as many. */
    method FillUntil(len: nat) returns (r: Result<bool, ReadError>)
      requires Valid()
      modifies this
      ensures Valid() && Unread() == old(Unread())
      ensures r == if |Unread()| >= len then Success(true) else if broken then Failure(StreamBroken) else Success(false)
      ensures r == Success(true) ==> |buffer| >= len
      ensures r == Success(false) ==> chunks == [] && buffer == Unread()
    {
      while |buffer| < len
        invariant Valid() && Unread() == old(Unread())
        decreases |chunks|, if eof then 0 else 1
      {
        if eof {
          return Success(false);
        }
        var chunk := ReadChunk();
        match chunk {
          case Failure(e) => return Failure(e);
          case Success(Some(bytes)) => buffer := buffer + bytes;
          case Success(None) => eof := true;
        }
      }
      return Success(true);
    }

    /** The next frame. How the stream was cut into chunks makes no difference. */
    method ReadFrame() returns (r: ReadResult)
      requires Valid()
      modifies this
      ensures Valid() && (r, Unread()) == NextFrame(old(Unread()), broken)
    {
      var filled := FillUntil(4);
      if filled.Failure? {
        return Failed(filled.error);
      }
      if !filled.value {
        return if buffer == [] then Nothing else Failed(CutInHeader);
      }
      HeaderInBuffer(buffer, Flatten(chunks));
      var len := FromBe32(buffer[..4]);
      if len > MAX_BENCHMARK_FRAME_BYTES {
        return Failed(FrameTooLarge);
      }
      filled := FillUntil(4 + len);
      if filled.Failure? {
        return Failed(filled.error);
      }
      if !filled.value {
        return Failed(CutInBody);
      }
      r := Got(buffer[4..4 + len]);
      FrameInBuffer(buffer, Flatten(chunks), len);
      buffer := buffer[4 + len..];
    }
  }

  // ---- Whole streams ----

  predicate Sendable(payloads: seq<seq<Byte>>) {
    forall i :: 0 <= i < |payloads| ==> |payloads[i]| <= MAX_BENCHMARK_FRAME_BYTES
  }

  /** The bytes of frames sent one after another. */
  function StreamOf(payloads: seq<seq<Byte>>): seq<Byte>
    requires Sendable(payloads)
    decreases |payloads|
  {
    if payloads == [] then [] else FrameBytes(payloads[0]) + StreamOf(payloads[1..])
  }

  /** The payloads that reading to the end gives, and how that ends. */
  function ReadAll(bytes: seq<Byte>, broken: bool): (seq<seq<Byte>>, ReadResult)
    decreases |bytes|
  {
    var (r, rest) := NextFrame(bytes, broken);
    if r.Got? then var (more, end) := ReadAll(rest, broken); ([r.payload] + more, end) else ([], r)
  }

  /** The receiver takes exactly the frames within its own limit, which is smaller than the sender's. */
  lemma FrameComesThrough(payload: seq<Byte>, rest: seq<Byte>, broken: bool)
    requires |payload| < U32_LIMIT
    ensures NextFrame(FrameBytes(payload) + rest, broken)
            == if |payload| <= MAX_BENCHMARK_FRAME_BYTES then (Got(payload), rest)
               else (Failed(FrameTooLarge), FrameBytes(payload) + rest)
  {
    var all := FrameBytes(payload) + rest;
    FromToBe32(|payload|);
    assert all[..4] == ToBe32(|payload|);
    assert all[4..4 + |payload|] == payload && all[4 + |payload|..] == rest;
  }

  /** A whole stream gives back exactly the payloads that were sent, and then its end. */
  lemma {:induction false} WholeStream(payloads: seq<seq<Byte>>, broken: bool)
    requires Sendable(payloads)
    ensures ReadAll(StreamOf(payloads), broken) == (payloads, if broken then Failed(StreamBroken) else Nothing)
    decreases |payloads|
  {
    if payloads != [] {
      FrameComesThrough(payloads[0], StreamOf(payloads[1..]), broken);
      WholeStream(payloads[1..], broken);
      assert payloads == [payloads[0]] + payloads[1..];
    }
  }

  /** Reading on gives `total`, of which `read` has been read, unless `last` already ended it. */
  ghost predicate OnTheWay(total: (seq<seq<Byte>>, ReadResult), read: seq<seq<Byte>>, last: ReadResult,
                           unread: seq<Byte>, broken: bool) {
    if last.Got? then
      var (more, end) := ReadAll(unread, broken);
      total.0 == read + more && total.1 == end
    else total.0 == read && total.1 == last
  }

  lemma ReadsOn(total: (seq<seq<Byte>>, ReadResult), read: seq<seq<Byte>>, last: ReadResult,
                unread: seq<Byte>, broken: bool)
    requires last.Got? && OnTheWay(total, read, last, unread, broken)
    ensures var (next, rest) := NextFrame(unread, broken);
      OnTheWay(total, if next.Got? then read + [next.payload] else read, next, rest, broken)
  {
    var (next, rest) := NextFrame(unread, broken);
    if next.Got? {
      AppendAssociates(read, [next.payload], ReadAll(rest, broken).0);
    }
  }

  /**
    Read frame after frame up to the end. However the bytes of sent payloads were cut into chunks,
    reading gives back exactly these payloads, and then the end of the stream.
   */
  method ReadToEnd(chunks: seq<seq<Byte>>, broken: bool) returns (read: seq<seq<Byte>>, end: ReadResult)
    ensures (read, end) == ReadAll(Flatten(chunks), broken)
    ensures forall payloads :: Sendable(payloads) && Flatten(chunks) == StreamOf(payloads) ==>
              read == payloads && end == (if broken then Failed(StreamBroken) else Nothing)
  {
    var reader := new FrameReader(chunks, broken);
    read, end := [], Got([]);
    assert [] + ReadAll(Flatten(chunks), broken).0 == ReadAll(Flatten(chunks), broken).0;
    while end.Got?
      invariant reader.Valid() && reader.broken == broken
      invariant OnTheWay(ReadAll(Flatten(chunks), broken), read, end, reader.Unread(), broken)
      decreases end.Got?, |reader.Unread()|
    {
      ReadsOn(ReadAll(Flatten(chunks), broken), read, end, reader.Unread(), broken);
      end := reader.ReadFrame();
      if end.Got? {
        read := read + [end.payload];
      }
    }
    forall payloads | Sendable(payloads) && Flatten(chunks) == StreamOf(payloads)
      ensures read == payloads && end == if broken then Failed(StreamBroken) else Nothing
    {
      WholeStream(payloads, broken);
    }
  }

  /** The number of whole frames within the first `k` bytes. */
  function WholeFrames(payloads: seq<seq<Byte>>, k: nat): (m: nat)
    requires Sendable(payloads)
    ensures m <= |payloads|
    decreases |payloads|
  {
    if payloads == [] || k < 4 + |payloads[0]| then 0
    else 1 + WholeFrames(payloads[1..], k - 4 - |payloads[0]|)
  }

  /** The length of that many whole frames. */
  function LengthOf(payloads: seq<seq<Byte>>): nat
    decreases |payloads|
  {
    if payloads == [] then 0 else 4 + |payloads[0]| + LengthOf(payloads[1..])
  }

  /** A cut inside the first frame is found out, in its header or in its body. */
  lemma CutInFirst(payload: seq<Byte>, rest: seq<Byte>, k: nat)
    requires |payload| <= MAX_BENCHMARK_FRAME_BYTES && k < 4 + |payload|
    ensures ReadAll((FrameBytes(payload) + rest)[..k], false)
            == ([], if k == 0 then Nothing else Failed(if k < 4 then CutInHeader else CutInBody))
  {
    var cut := (FrameBytes(payload) + rest)[..k];
    FromToBe32(|payload|);
    if k >= 4 {
      assert cut[..4] == ToBe32(|payload|);
    }
  }

  /** A cut behind the first frame leaves that frame whole. */
  lemma CutBehindFirst(payload: seq<Byte>, rest: seq<Byte>, k: nat)
    requires |payload| <= MAX_BENCHMARK_FRAME_BYTES && k <= |rest|
    ensures var (read, end) := ReadAll(rest[..k], false);
      ReadAll((FrameBytes(payload) + rest)[..4 + |payload| + k], false) == ([payload] + read, end)
  {
    assert (FrameBytes(payload) + rest)[..4 + |payload| + k] == FrameBytes(payload) + rest[..k];
    FrameComesThrough(payload, rest[..k], false);
  }

  lemma FrontOf(payloads: seq<seq<Byte>>, m: nat)
    requires m < |payloads|
    ensures payloads[..m + 1] == [payloads[0]] + payloads[1..][..m]
    ensures LengthOf(payloads[..m + 1]) == 4 + |payloads[0]| + LengthOf(payloads[1..][..m])
  {
    assert payloads[..m + 1][1..] == payloads[1..][..m];
  }

  /** The payloads of the whole frames, then a clean end exactly if the cut is behind the last of them. */
  ghost predicate GoodCut(payloads: seq<seq<Byte>>, k: nat, read: seq<seq<Byte>>, end: ReadResult)
    requires Sendable(payloads)
  {
    var m := WholeFrames(payloads, k);
    && read == payloads[..m]
    && !end.Got? && (end.Nothing? <==> k == LengthOf(payloads[..m]))
    && (end.Failed? ==> end.error == CutInHeader || end.error == CutInBody)
  }

  lemma GoodCutInFirst(payloads: seq<seq<Byte>>, k: nat, end: ReadResult)
    requires Sendable(payloads) && payloads != [] && k < 4 + |payloads[0]|
    requires end == if k == 0 then Nothing else Failed(if k < 4 then CutInHeader else CutInBody)
    ensures GoodCut(payloads, k, [], end)
  {
  }

  lemma GoodCutBehind(payloads: seq<seq<Byte>>, k: nat, read: seq<seq<Byte>>, end: ReadResult)
    requires Sendable(payloads) && payloads != [] && GoodCut(payloads[1..], k, read, end)
    ensures GoodCut(payloads, 4 + |payloads[0]| + k, [payloads[0]] + read, end)
  {
    FrontOf(payloads, WholeFrames(payloads[1..], k));
  }

  /** A stream cut anywhere is read up to its last whole frame; never is a wrong payload returned. */
  lemma {:induction false} CutStream(payloads: seq<seq<Byte>>, k: nat)
    requires Sendable(payloads) && k <= |StreamOf(payloads)|
    ensures var (read, end) := ReadAll(StreamOf(payloads)[..k], false); GoodCut(payloads, k, read, end)
    decreases |payloads|
  {
    if payloads != [] {
      var rest := StreamOf(payloads[1..]);
      if k < 4 + |payloads[0]| {
        CutInFirst(payloads[0], rest, k);
        GoodCutInFirst(payloads, k, ReadAll((FrameBytes(payloads[0]) + rest)[..k], false).1);
      } else {
        var k' := k - 4 - |payloads[0]|;
        CutBehindFirst(payloads[0], rest, k');
        CutStream(payloads[1..], k');
        var (read, end) := ReadAll(rest[..k'], false);
        GoodCutBehind(payloads, k', read, end);
      }
    }
  }
}
