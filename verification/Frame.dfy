/** The binary frame that carries one transmit over a data channel (core/frame.rs). */
module Frame {
  import opened Prelude

  const FRAME_MAGIC: seq<Byte> := [73, 87, 82, 84]
  const FRAME_VERSION: Byte := 4
  const HEADER_LEN: nat := 30

  datatype WebRtcPacketFrame = WebRtcPacketFrame(
    flags: Byte,
    sessionId: SessionId,
    segmentSize: Option<nat>,
    payload: seq<Byte>)

  datatype FrameHeader = FrameHeader(
    flags: Byte,
    sessionId: SessionId,
    segmentSize: Option<nat>,
    payloadLen: nat)

  // ---- Big-endian 32-bit numbers ----

  function ToBe32(n: nat): (r: seq<Byte>)
    requires n < U32_LIMIT
    ensures |r| == 4
  {
    [n / 0x100_0000, n / 0x1_0000 % 256, n / 256 % 256, n % 256]
  }

  function FromBe32(b: seq<Byte>): (n: nat)
    requires |b| == 4
    ensures n < U32_LIMIT
  {
    ((b[0] as int * 256 + b[1]) * 256 + b[2]) * 256 + b[3]
  }

  lemma FromToBe32(n: nat)
    requires n < U32_LIMIT
    ensures FromBe32(ToBe32(n)) == n
  {
    assert n == n / 256 * 256 + n % 256;
    assert n / 256 == n / 256 / 256 * 256 + n / 256 % 256;
    assert n / 256 / 256 == n / 0x1_0000;
    assert n / 0x1_0000 == n / 0x1_0000 / 256 * 256 + n / 0x1_0000 % 256;
    assert n / 0x1_0000 / 256 == n / 0x100_0000;
  }

  lemma ToFromBe32(b: seq<Byte>)
    requires |b| == 4
    ensures ToBe32(FromBe32(b)) == b
  {
    var n := FromBe32(b);
    assert n % 256 == b[3] && n / 256 == (b[0] as int * 256 + b[1]) * 256 + b[2];
    assert n / 256 % 256 == b[2] && n / 0x1_0000 == b[0] as int * 256 + b[1];
    assert n / 0x1_0000 % 256 == b[1] && n / 0x100_0000 == b[0];
  }

  /** The byte order is the one in which the bytes, compared from the left, are ordered as the numbers are. */
  lemma Be32KeepsOrder(m: nat, n: nat)
    requires m < U32_LIMIT && n < U32_LIMIT
    ensures LexLess(ToBe32(m), ToBe32(n)) <==> m < n
  {
    var a, b := ToBe32(m), ToBe32(n);
    FromToBe32(m);
    FromToBe32(n);
    LexLessOfFour(a, b);
  }

  lemma LexLessOfFour(a: seq<Byte>, b: seq<Byte>)
    requires |a| == |b| == 4
    ensures LexLess(a, b) <==> FromBe32(a) < FromBe32(b)
  {
    assert a[1..][1..] == a[2..] && b[1..][1..] == b[2..];
    assert a[2..][1..] == a[3..] && b[2..][1..] == b[3..];
    assert a[3..][1..] == [] && b[3..][1..] == [];
    assert LexLess(a, b) <==> a[0] < b[0] || (a[0] == b[0] && LexLess(a[1..], b[1..]));
    assert LexLess(a[1..], b[1..]) <==> a[1] < b[1] || (a[1] == b[1] && LexLess(a[2..], b[2..]));
    assert LexLess(a[2..], b[2..]) <==> a[2] < b[2] || (a[2] == b[2] && LexLess(a[3..], b[3..]));
    assert LexLess(a[3..], b[3..]) <==> a[3] < b[3];
  }

  // ---- Encoding ----

  /** The segment size field: zero stands for "one datagram". */
  function NormalizedSegmentSize(segmentSize: Option<nat>, payloadLen: nat): Result<nat, Error> {
    match segmentSize
    case None => Success(0)
    case Some(size) =>
      if size == 0 then Failure(InvalidFrame("segment size is zero"))
      else if size >= payloadLen then Success(0)
      else if size >= U32_LIMIT then Failure(InvalidFrame("segment size exceeds u32"))
      else Success(size)
  }

  function HeaderBytes(flags: Byte, sessionId: SessionId, segmentField: nat, payloadLen: nat): (r: seq<Byte>)
    requires segmentField < U32_LIMIT && payloadLen < U32_LIMIT
    ensures |r| == HEADER_LEN
  {
    FRAME_MAGIC + [FRAME_VERSION] + [flags] + sessionId + ToBe32(segmentField) + ToBe32(payloadLen)
  }

  /** What `encode` produces for a frame. */
  function Encoded(frame: WebRtcPacketFrame, maxPayloadLen: nat): Result<seq<Byte>, Error> {
    var len := |frame.payload|;
    if len == 0 then Failure(InvalidFrame("payload is empty"))
    else if len > maxPayloadLen then Failure(PayloadTooLarge(len, maxPayloadLen))
    else if len >= U32_LIMIT then Failure(InvalidFrame("payload length exceeds u32"))
    else match NormalizedSegmentSize(frame.segmentSize, len)
      case Failure(e) => Failure(e)
      case Success(field) =>
        Success(HeaderBytes(frame.flags, frame.sessionId, field, len) + frame.payload)
  }

  /** The encoder: it appends the fields one after another to an output buffer. */
  method Encode(frame: WebRtcPacketFrame, maxPayloadLen: nat) returns (r: Result<seq<Byte>, Error>)
    ensures r == Encoded(frame, maxPayloadLen)
  {
    var len := |frame.payload|;
    if len == 0 {
      return Failure(InvalidFrame("payload is empty"));
    }
    if len > maxPayloadLen {
      return Failure(PayloadTooLarge(len, maxPayloadLen));
    }
    if len >= U32_LIMIT {
      return Failure(InvalidFrame("payload length exceeds u32"));
    }
    var segment := NormalizedSegmentSize(frame.segmentSize, len);
    if segment.Failure? {
      return Failure(segment.error);
    }
    var out: seq<Byte> := FRAME_MAGIC;
    out := out + [FRAME_VERSION];
    out := out + [frame.flags];
    out := out + frame.sessionId;
    out := out + ToBe32(segment.value);
    out := out + ToBe32(len);
    out := out + frame.payload;
    return Success(out);
  }

  // ---- Decoding ----

  function DecodeHeader(bytes: seq<Byte>): Result<FrameHeader, Error> {
    if |bytes| < HEADER_LEN then Failure(InvalidFrame("frame too short"))
    else if bytes[..4] != FRAME_MAGIC then Failure(InvalidFrame("bad magic"))
    else if bytes[4] != FRAME_VERSION then Failure(InvalidFrame("unsupported version"))
    else
      var size := FromBe32(bytes[22..26]);
      var payloadLen := FromBe32(bytes[26..30]);
      if size == 0 then Success(FrameHeader(bytes[5], bytes[6..22], None, payloadLen))
      else if size >= payloadLen then Failure(InvalidFrame("segment size is not smaller than payload"))
      else Success(FrameHeader(bytes[5], bytes[6..22], Some(size), payloadLen))
  }

  function Decoded(bytes: seq<Byte>, maxPayloadLen: nat): Result<WebRtcPacketFrame, Error> {
    match DecodeHeader(bytes)
    case Failure(e) => Failure(e)
    case Success(header) =>
      if |bytes| != HEADER_LEN + header.payloadLen then Failure(InvalidFrame("payload length mismatch"))
      else if header.payloadLen == 0 then Failure(InvalidFrame("payload is empty"))
      else if header.payloadLen > maxPayloadLen then Failure(PayloadTooLarge(header.payloadLen, maxPayloadLen))
      else Success(WebRtcPacketFrame(header.flags, header.sessionId, header.segmentSize, bytes[HEADER_LEN..]))
  }

  /** The session id read from a frame whose payload is not looked at. */
  function HeaderSessionId(bytes: seq<Byte>): Result<SessionId, Error> {
    match DecodeHeader(bytes)
    case Failure(e) => Failure(e)
    case Success(header) => Success(header.sessionId)
  }

  // ---- Round trips ----

  /** A segment size that does not cut the payload says the same as no segment size. */
  function Normalized(frame: WebRtcPacketFrame): WebRtcPacketFrame {
    if frame.segmentSize.Some? && frame.segmentSize.value >= |frame.payload|
    then frame.(segmentSize := None)
    else frame
  }

  /** The frames for which `encode` succeeds: a guard a caller can evaluate first. */
  predicate Encodable(frame: WebRtcPacketFrame, maxPayloadLen: nat) {
    && 0 < |frame.payload| <= maxPayloadLen
    && |frame.payload| < U32_LIMIT
    && frame.segmentSize != Some(0)
  }

  lemma EncodeSucceedsIffEncodable(frame: WebRtcPacketFrame, maxPayloadLen: nat)
    ensures Encoded(frame, maxPayloadLen).Success? <==> Encodable(frame, maxPayloadLen)
  {
  }

  /** A payload beyond the limit is refused with both numbers; what else is refused is an invalid frame. */
  lemma EncodeErrors(frame: WebRtcPacketFrame, maxPayloadLen: nat)
    requires !Encodable(frame, maxPayloadLen)
    ensures var r, len := Encoded(frame, maxPayloadLen), |frame.payload|;
      if len > maxPayloadLen then r == Failure(PayloadTooLarge(len, maxPayloadLen))
      else r.Failure? && r.error.InvalidFrame?
  {
  }

  /** The header fields sit where the decoder looks for them. */
  lemma HeaderLayout(flags: Byte, sessionId: SessionId, field: nat, len: nat, rest: seq<Byte>)
    requires field < U32_LIMIT && len < U32_LIMIT
    ensures var b := HeaderBytes(flags, sessionId, field, len) + rest;
      && |b| == HEADER_LEN + |rest|
      && b[..4] == FRAME_MAGIC && b[4] == FRAME_VERSION && b[5] == flags
      && b[6..22] == sessionId
      && b[22..26] == ToBe32(field) && b[26..30] == ToBe32(len) && b[30..] == rest
  {
  }

  lemma DecodeAfterEncode(frame: WebRtcPacketFrame, sendMax: nat, recvMax: nat)
    requires Encodable(frame, sendMax)
    ensures Encoded(frame, sendMax).Success?
    ensures var bytes := Encoded(frame, sendMax).value;
      && HeaderSessionId(bytes) == Success(frame.sessionId)
      && Decoded(bytes, recvMax) ==
         (if |frame.payload| <= recvMax then Success(Normalized(frame))
          else Failure(PayloadTooLarge(|frame.payload|, recvMax)))
  {
    var len := |frame.payload|;
    var field := NormalizedSegmentSize(frame.segmentSize, len).value;
    HeaderLayout(frame.flags, frame.sessionId, field, len, frame.payload);
    FromToBe32(field);
    FromToBe32(len);
  }

  /** Every header that decodes is rebuilt byte for byte by the encoder. */
  lemma RebuildHeader(bytes: seq<Byte>)
    requires DecodeHeader(bytes).Success?
    ensures var h := DecodeHeader(bytes).value;
      var field := if h.segmentSize.Some? then h.segmentSize.value else 0;
      && field < U32_LIMIT && h.payloadLen < U32_LIMIT
      && bytes[..HEADER_LEN] == HeaderBytes(h.flags, h.sessionId, field, h.payloadLen)
  {
    var h := DecodeHeader(bytes).value;
    ToFromBe32(bytes[22..26]);
    ToFromBe32(bytes[26..30]);
    assert bytes[..30] == bytes[..4] + [bytes[4]] + [bytes[5]] + bytes[6..22] + bytes[22..26] + bytes[26..30];
  }

  /** The decoder accepts exactly what the encoder can produce, and loses nothing. */
  lemma EncodeAfterDecode(bytes: seq<Byte>, maxPayloadLen: nat)
    requires Decoded(bytes, maxPayloadLen).Success?
    ensures var frame := Decoded(bytes, maxPayloadLen).value;
      && Encoded(frame, maxPayloadLen) == Success(bytes)
      && Normalized(frame) == frame
      && (frame.segmentSize.Some? ==> 0 < frame.segmentSize.value < |frame.payload|)
  {
    RebuildHeader(bytes);
    assert bytes == bytes[..HEADER_LEN] + bytes[HEADER_LEN..];
  }

  lemma DecodeAcceptsExactlyEncodings(bytes: seq<Byte>, maxPayloadLen: nat)
    ensures Decoded(bytes, maxPayloadLen).Success?
            <==> exists frame :: Encoded(frame, maxPayloadLen) == Success(bytes)
  {
    if Decoded(bytes, maxPayloadLen).Success? {
      EncodeAfterDecode(bytes, maxPayloadLen);
    }
    forall frame | Encoded(frame, maxPayloadLen) == Success(bytes)
      ensures Decoded(bytes, maxPayloadLen).Success?
    {
      DecodeAfterEncode(frame, maxPayloadLen, maxPayloadLen);
    }
  }

  /** Two frames have the same bytes only if they say the same. */
  lemma EncodeInjective(a: WebRtcPacketFrame, b: WebRtcPacketFrame, maxPayloadLen: nat)
    requires Encodable(a, maxPayloadLen) && Encodable(b, maxPayloadLen)
    ensures Encoded(a, maxPayloadLen) == Encoded(b, maxPayloadLen) <==> Normalized(a) == Normalized(b)
  {
    DecodeAfterEncode(a, maxPayloadLen, maxPayloadLen);
    DecodeAfterEncode(b, maxPayloadLen, maxPayloadLen);
  }
}
