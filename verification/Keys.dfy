/** Session keys: a dial id written in hexadecimal (browser_runtime/types/keys.rs). */
module Keys {
  import opened Prelude
  import opened Signaling

  const DIGITS: string := "0123456789abcdef"

  function HexOf(bytes: seq<Byte>): string
    decreases |bytes|
  {
    if bytes == [] then ""
    else HexOf(bytes[..|bytes| - 1]) + [DIGITS[bytes[|bytes| - 1] / 16], DIGITS[bytes[|bytes| - 1] % 16]]
  }

  /** The key is written byte by byte, two digits each. */
  method SessionKeyFrom(id: DialId) returns (key: string)
    ensures key == HexOf(id) && |key| == 32
  {
    key := "";
    for i := 0 to |id|
      invariant key == HexOf(id[..i]) && |key| == 2 * i
    {
      assert id[..i + 1][..i] == id[..i];
      key := key + [DIGITS[id[i] / 16], DIGITS[id[i] % 16]];
    }
    assert id[..|id|] == id;
  }

  /** The value of a hexadecimal digit. */
  function ValueOf(digit: char): nat {
    if '0' <= digit <= '9' then digit as nat - '0' as nat
    else if 'a' <= digit <= 'f' then digit as nat - 'a' as nat + 10
    else 16
  }

  lemma ValueOfDigit(k: nat)
    requires k < 16
    ensures ValueOf(DIGITS[k]) == k
  {
    assert ValueOf('5') == 5 && ValueOf('f') == 15;
  }

  /** The two digits of each byte, read as a number with the higher digit first, are that byte. */
  lemma {:induction false} KeyReadsBack(bytes: seq<Byte>, i: nat)
    requires i < |bytes|
    ensures |HexOf(bytes)| == 2 * |bytes|
    ensures 16 * ValueOf(HexOf(bytes)[2 * i]) + ValueOf(HexOf(bytes)[2 * i + 1]) == bytes[i]
    decreases |bytes|
  {
    var n := |bytes| - 1;
    HexLength(bytes[..n]);
    if i < n {
      KeyReadsBack(bytes[..n], i);
    } else {
      ValueOfDigit(bytes[n] / 16);
      ValueOfDigit(bytes[n] % 16);
    }
  }

  lemma DigitsDiffer(a: nat, b: nat)
    requires a < 16 && b < 16
    ensures DIGITS[a] == DIGITS[b] <==> a == b
  {
  }

  /** Different dials have different keys, so looking a session up by key is looking it up by dial. */
  lemma {:induction false} KeysDiffer(a: seq<Byte>, b: seq<Byte>)
    requires |a| == |b|
    ensures HexOf(a) == HexOf(b) <==> a == b
    decreases |a|
  {
    if a != [] && HexOf(a) == HexOf(b) {
      var n := |a| - 1;
      HexLength(a[..n]);
      HexLength(b[..n]);
      assert HexOf(a)[..2 * n] == HexOf(a[..n]) && HexOf(b)[..2 * n] == HexOf(b[..n]);
      KeysDiffer(a[..n], b[..n]);
      DigitsDiffer(a[n] / 16, b[n] / 16);
      DigitsDiffer(a[n] % 16, b[n] % 16);
      assert HexOf(a)[2 * n] == DIGITS[a[n] / 16] && HexOf(a)[2 * n + 1] == DIGITS[a[n] % 16];
      assert HexOf(b)[2 * n] == DIGITS[b[n] / 16] && HexOf(b)[2 * n + 1] == DIGITS[b[n] % 16];
      assert a == a[..n] + [a[n]] && b == b[..n] + [b[n]];
    }
  }

  lemma {:induction false} HexLength(bytes: seq<Byte>)
    ensures |HexOf(bytes)| == 2 * |bytes|
    decreases |bytes|
  {
    if bytes != [] {
      HexLength(bytes[..|bytes| - 1]);
    }
  }
}
