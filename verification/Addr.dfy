/** The virtual WebRTC address carried inside a custom address (core/addr.rs). */
module Addr {
  import opened Prelude

  const WEBRTC_TRANSPORT_ID: nat := 0x6977_7274_6300_0001
  const VERSION: Byte := 1
  const KIND_CAPABILITY: Byte := 1
  const KIND_SESSION: Byte := 2

  datatype CustomAddr = CustomAddr(id: nat, data: seq<Byte>)

  datatype WebRtcAddrKind = Capability | Session(sessionId: SessionId)

  datatype WebRtcAddr = WebRtcAddr(endpointId: EndpointId, kind: WebRtcAddrKind)

  /** Tells which 32-byte strings are public keys; the curve arithmetic is not modelled. */
  type KeyCheck = EndpointId -> bool

  function ToCustomAddr(addr: WebRtcAddr): CustomAddr {
    match addr.kind
    case Capability => CustomAddr(WEBRTC_TRANSPORT_ID, [VERSION] + [KIND_CAPABILITY] + addr.endpointId)
    case Session(id) => CustomAddr(WEBRTC_TRANSPORT_ID, [VERSION] + [KIND_SESSION] + addr.endpointId + id)
  }

  /** The encoder: it pushes the fields into a byte buffer. */
  method EncodeAddr(addr: WebRtcAddr) returns (r: CustomAddr)
    ensures r == ToCustomAddr(addr)
  {
    var data: seq<Byte> := [VERSION];
    match addr.kind {
      case Capability =>
        data := data + [KIND_CAPABILITY];
        data := data + addr.endpointId;
      case Session(id) =>
        data := data + [KIND_SESSION];
        data := data + addr.endpointId;
        data := data + id;
    }
    r := CustomAddr(WEBRTC_TRANSPORT_ID, data);
  }

  function FromCustomAddr(addr: CustomAddr, isKey: KeyCheck): Result<WebRtcAddr, Error> {
    var data := addr.data;
    if addr.id != WEBRTC_TRANSPORT_ID then Failure(InvalidAddr("unexpected custom transport id"))
    else if |data| < 34 then Failure(InvalidAddr("address data too short"))
    else if data[0] != VERSION then Failure(InvalidAddr("unsupported address version"))
    else if !isKey(data[2..34]) then Failure(InvalidAddr("invalid endpoint id bytes"))
    else if data[1] == KIND_CAPABILITY then
      if |data| != 34 then Failure(InvalidAddr("capability address has trailing data"))
      else Success(WebRtcAddr(data[2..34], Capability))
    else if data[1] == KIND_SESSION then
      if |data| != 50 then Failure(InvalidAddr("session address has invalid length"))
      else Success(WebRtcAddr(data[2..34], Session(data[34..])))
    else Failure(InvalidAddr("unknown address kind"))
  }

  lemma ParseAfterEncode(addr: WebRtcAddr, isKey: KeyCheck)
    ensures FromCustomAddr(ToCustomAddr(addr), isKey)
            == (if isKey(addr.endpointId) then Success(addr)
                else Failure(InvalidAddr("invalid endpoint id bytes")))
  {
    var data := ToCustomAddr(addr).data;
    assert data[2..34] == addr.endpointId;
    if addr.kind.Session? {
      assert data[34..] == addr.kind.sessionId;
    }
  }

  /** The parser accepts only what the encoder can produce. */
  lemma EncodeAfterParse(addr: CustomAddr, isKey: KeyCheck)
    requires FromCustomAddr(addr, isKey).Success?
    ensures ToCustomAddr(FromCustomAddr(addr, isKey).value) == addr
  {
    var data := addr.data;
    if data[1] == KIND_CAPABILITY {
      assert data == [data[0]] + [data[1]] + data[2..34];
    } else {
      assert data == [data[0]] + [data[1]] + data[2..34] + data[34..];
    }
  }

  lemma EncodeAddrInjective(a: WebRtcAddr, b: WebRtcAddr)
    ensures ToCustomAddr(a) == ToCustomAddr(b) <==> a == b
  {
    ParseAfterEncode(a, _ => true);
    ParseAfterEncode(b, _ => true);
  }

  /** The session a destination names, if it names one. */
  function DestinationSession(addr: CustomAddr, isKey: KeyCheck): Option<SessionId> {
    match FromCustomAddr(addr, isKey)
    case Success(WebRtcAddr(_, Session(id))) => Some(id)
    case _ => None
  }

  // ---- The order of addresses: byte strings compared from the left ----

  lemma {:induction false} LexTotal(a: seq<Byte>, b: seq<Byte>)
    ensures (LexLess(a, b) && a != b && !LexLess(b, a))
            || (LexLess(b, a) && a != b && !LexLess(a, b))
            || (a == b && !LexLess(a, b))
    decreases |b|
  {
    if a != [] && b != [] {
      LexTotal(a[1..], b[1..]);
      assert a == [a[0]] + a[1..] && b == [b[0]] + b[1..];
    }
  }

  lemma {:induction false} LexTransitive(a: seq<Byte>, b: seq<Byte>, c: seq<Byte>)
    requires LexLess(a, b) && LexLess(b, c)
    ensures LexLess(a, c)
    decreases |c|
  {
    if a != [] && a[0] == b[0] == c[0] {
      LexTransitive(a[1..], b[1..], c[1..]);
    }
  }
}
