/** The window of recent nonces that rejects repeated messages (examples/rust-browser-chat-room/src/protocol.rs). */
module Replay {
  import opened Prelude

  type Nonce = SessionId

  const REPLAY_CAP_PER_SIGNER: nat := 256

  class ReplayLru {
    var seen: map<string, seq<Nonce>>

    constructor ()
      ensures seen == map[]
    {
      seen := map[];
    }

    /** Accept a nonce unless it is among the remembered ones of its signer. */
    method CheckAndInsert(signer: string, nonce: Nonce) returns (accepted: bool)
      modifies this
      ensures (seen, accepted) == Checked(old(seen), Call(signer, nonce))
    {
      var entry := if signer in seen then seen[signer] else [];
      if nonce in entry {
        seen := seen[signer := entry];
        return false;
      }
      if |entry| >= REPLAY_CAP_PER_SIGNER {
        entry := entry[1..];
      }
      entry := entry + [nonce];
      seen := seen[signer := entry];
      return true;
    }
  }

  datatype Call = Call(signer: string, nonce: Nonce)

  function Window(seen: map<string, seq<Nonce>>, signer: string): seq<Nonce> {
    if signer in seen then seen[signer] else []
  }

  function Checked(seen: map<string, seq<Nonce>>, c: Call): (map<string, seq<Nonce>>, bool) {
    var entry := Window(seen, c.signer);
    if c.nonce in entry then (seen[c.signer := entry], false)
    else
      var kept := if |entry| >= REPLAY_CAP_PER_SIGNER then entry[1..] else entry;
      (seen[c.signer := kept + [c.nonce]], true)
  }

  function Run(calls: seq<Call>): map<string, seq<Nonce>>
    decreases |calls|
  {
    if calls == [] then map[] else Checked(Run(calls[..|calls| - 1]), calls[|calls| - 1]).0
  }

  function Last(nonces: seq<Nonce>): seq<Nonce> {
    if |nonces| <= REPLAY_CAP_PER_SIGNER then nonces else nonces[|nonces| - REPLAY_CAP_PER_SIGNER..]
  }

  /** The rule itself: the nonces of a signer that are accepted, one by one, from the calls alone. */
  function Accepted(calls: seq<Call>, signer: string): seq<Nonce>
    decreases |calls|
  {
    if calls == [] then []
    else
      var before, c := Accepted(calls[..|calls| - 1], signer), calls[|calls| - 1];
      if c.signer == signer && c.nonce !in Last(before) then before + [c.nonce] else before
  }

  lemma LastSnoc(nonces: seq<Nonce>, n: Nonce)
    ensures Last(nonces + [n])
            == (if |Last(nonces)| >= REPLAY_CAP_PER_SIGNER then Last(nonces)[1..] else Last(nonces)) + [n]
  {
  }

  /** After any calls each signer's window holds its last 256 accepted nonces, in order, each once. */
  lemma {:induction false} WindowIsLastAccepted(calls: seq<Call>, signer: string)
    ensures Window(Run(calls), signer) == Last(Accepted(calls, signer))
    ensures Distinct(Window(Run(calls), signer))
    decreases |calls|
  {
    if calls != [] {
      var before, c := calls[..|calls| - 1], calls[|calls| - 1];
      WindowIsLastAccepted(before, signer);
      if c.signer == signer {
        LastSnoc(Accepted(before, signer), c.nonce);
      }
    }
  }

  /** So a call is accepted exactly if its nonce is none of them; other signers play no part. */
  lemma AcceptedIffNotRecent(calls: seq<Call>, c: Call)
    ensures Checked(Run(calls), c).1 <==> c.nonce !in Last(Accepted(calls, c.signer))
  {
    WindowIsLastAccepted(calls, c.signer);
  }

  lemma {:induction false} AcceptedApart(calls: seq<Call>, signer: string)
    ensures Accepted(calls, signer) == Accepted(CallsOf(calls, signer), signer)
    decreases |calls|
  {
    if calls != [] {
      var before, c := calls[..|calls| - 1], calls[|calls| - 1];
      AcceptedApart(before, signer);
      if c.signer == signer {
        assert (CallsOf(before, signer) + [c])[..|CallsOf(before, signer)|] == CallsOf(before, signer);
      } else {
        assert CallsOf(calls, signer) == CallsOf(before, signer);
      }
    }
  }

  /** What other signers send makes no difference to a signer's window. */
  lemma SignersAreApart(calls: seq<Call>, signer: string)
    ensures Window(Run(calls), signer) == Window(Run(CallsOf(calls, signer)), signer)
  {
    WindowIsLastAccepted(calls, signer);
    WindowIsLastAccepted(CallsOf(calls, signer), signer);
    AcceptedApart(calls, signer);
  }

  function CallsOf(calls: seq<Call>, signer: string): seq<Call>
    decreases |calls|
  {
    if calls == [] then []
    else
      var c := calls[|calls| - 1];
      CallsOf(calls[..|calls| - 1], signer) + if c.signer == signer then [c] else []
  }
}
