/** Types and sequence facts shared by every module of the model. */
module Prelude {

  datatype Option<+T> = None | Some(value: T)

  datatype Result<+T, +E> = Success(value: T) | Failure(error: E) {
    function GetOr(default: T): T { if Success? then value else default }
  }

  /** The outcome of polling an asynchronous operation once. */
  datatype Poll<+T> = Pending | Ready(value: T)

  /** The transport errors this model can produce. */
  datatype Error =
    | InvalidAddr(reason: string)
    | InvalidFrame(reason: string)
    | PayloadTooLarge(actual: nat, max: nat)
    | SessionClosed
    | SendQueueFull

  type Byte = b: int | 0 <= b < 256

  /** Sixteen bytes: a dial id, used as the id of the session it starts. */
  type SessionId = s: seq<Byte> | |s| == 16 witness seq(16, _ => 0)

  /** Thirty-two bytes: the public key that names an Iroh endpoint. */
  type EndpointId = s: seq<Byte> | |s| == 32 witness seq(32, _ => 0)

  /** A task to be woken, named by a number. */
  type Waker = nat

  const U32_LIMIT: nat := 0x1_0000_0000

  /** The concatenation of a sequence of sequences. */
  function Flatten<T>(parts: seq<seq<T>>): (r: seq<T>)
    decreases |parts|
  {
    if parts == [] then [] else parts[0] + Flatten(parts[1..])
  }

  lemma AppendAssociates<T>(a: seq<T>, b: seq<T>, c: seq<T>)
    ensures (a + b) + c == a + (b + c)
  {
  }

  /** No value occurs twice. */
  ghost predicate Distinct<T>(xs: seq<T>) {
    forall i, j :: 0 <= i < j < |xs| ==> xs[i] != xs[j]
  }

  /** The order of byte strings compared from the left. */
  predicate LexLess(a: seq<Byte>, b: seq<Byte>)
    decreases |b|
  {
    b != [] && (a == [] || a[0] < b[0] || (a[0] == b[0] && LexLess(a[1..], b[1..])))
  }
}
