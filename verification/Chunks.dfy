/** The meaning of a segmented payload: the datagrams it is cut into. */
module Chunks {
  import opened Prelude

  /** The payload cut into pieces of `size` bytes, the last one possibly shorter. */
  function Chunk(payload: seq<Byte>, size: nat): (r: seq<seq<Byte>>)
    requires size > 0
    decreases |payload|
  {
    if payload == [] then []
    else if |payload| <= size then [payload]
    else [payload[..size]] + Chunk(payload[size..], size)
  }

  /** `usize::div_ceil`. */
  function DivCeil(n: nat, d: nat): nat
    requires d > 0
  {
    if n % d == 0 then n / d else n / d + 1
  }

  function Min(a: nat, b: nat): nat {
    if a < b then a else b
  }

  lemma {:induction false} ChunksJoin(payload: seq<Byte>, size: nat)
    requires size > 0
    ensures Flatten(Chunk(payload, size)) == payload
    decreases |payload|
  {
    if |payload| > size {
      ChunksJoin(payload[size..], size);
      assert Chunk(payload, size)[1..] == Chunk(payload[size..], size);
    } else if payload != [] {
      assert Flatten([payload]) == payload + Flatten<Byte>([]);
    }
  }

  lemma DivCeilStep(n: nat, d: nat)
    requires 0 < d < n
    ensures DivCeil(n, d) == 1 + DivCeil(n - d, d)
  {
    assert n / d == (n - d) / d + 1 && n % d == (n - d) % d by {
      var q, r := (n - d) / d, (n - d) % d;
      assert n == (q + 1) * d + r;
      DivModUnique(n, d, q + 1, r);
    }
  }

  lemma MulStrict(a: nat, b: nat, d: nat)
    requires a < b
    ensures a * d + d <= b * d
  {
    var k := b - a - 1;
    assert b * d == (a + 1 + k) * d == a * d + d + k * d;
  }

  lemma DivModUnique(n: nat, d: nat, q: nat, r: nat)
    requires d > 0 && n == q * d + r && r < d
    ensures n / d == q && n % d == r
  {
    var q', r' := n / d, n % d;
    assert n == q' * d + r';
    if q' < q {
      MulStrict(q', q, d);
    } else if q < q' {
      MulStrict(q, q', d);
    }
  }

  lemma DivCeilSmall(n: nat, d: nat)
    requires 0 < n <= d
    ensures DivCeil(n, d) == 1
  {
    if n < d {
      DivModUnique(n, d, 0, n);
    } else {
      DivModUnique(n, d, 1, 0);
    }
  }

  /** The number of pieces, and each piece by its offset: what chunking means without recursion. */
  lemma {:induction false} ChunkByOffset(payload: seq<Byte>, size: nat, i: nat)
    requires size > 0 && payload != []
    ensures i * size < |payload| <==> i < |Chunk(payload, size)|
    ensures i < |Chunk(payload, size)| ==>
              Chunk(payload, size)[i] == payload[i * size..Min(i * size + size, |payload|)]
    decreases |payload|
  {
    if i == 0 {
      assert i * size == 0;
      assert payload[0..|payload|] == payload;
    } else {
      var j := i - 1;
      assert i * size == j * size + size;
      if |payload| > size {
        var rest := payload[size..];
        ChunkByOffset(rest, size, j);
        if i < |Chunk(payload, size)| {
          assert Chunk(payload, size)[i] == Chunk(rest, size)[j];
          SliceShift(payload, size, j * size, Min(j * size + size, |rest|));
        }
      }
    }
  }

  lemma SliceShift(s: seq<Byte>, k: nat, lo: nat, hi: nat)
    requires k <= |s| && lo <= hi <= |s| - k
    ensures s[k..][lo..hi] == s[k + lo..k + hi]
  {
  }

  lemma {:induction false} ChunkCount(payload: seq<Byte>, size: nat)
    requires size > 0
    ensures |Chunk(payload, size)| == DivCeil(|payload|, size)
    decreases |payload|
  {
    if payload == [] {
      DivModUnique(0, size, 0, 0);
    } else if |payload| <= size {
      DivCeilSmall(|payload|, size);
    } else {
      DivCeilStep(|payload|, size);
      ChunkCount(payload[size..], size);
    }
  }

  /** No datagram is empty or longer than the segment size. */
  lemma {:induction false} ChunkSizes(payload: seq<Byte>, size: nat)
    requires size > 0
    ensures forall c :: c in Chunk(payload, size) ==> 0 < |c| <= size
    decreases |payload|
  {
    if |payload| > size {
      ChunkSizes(payload[size..], size);
    }
  }
}
