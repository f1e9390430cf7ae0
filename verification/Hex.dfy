/** Byte strings, SHA-256-sized digests, and Go's `encoding/hex`.

    A Go string is a byte string; the hash-carrying strings of the ledger are modelled as such.
    `encoding/hex` writes lower case and reads both cases, which matters to the verifiers: a path
    node is accepted in either case, a root only in lower case. */
module Hex {
  import opened Wrappers

  type byte = x: int | 0 <= x < 256

  type Bytes = seq<byte>

  /** The output of the hash function: exactly 32 bytes. */
  type Digest = d: Bytes | |d| == 32 witness seq(32, _ => 0)

  /** A zeroed fixed-size array. */
  function ZeroDigest(): Digest { seq(32, i => 0) }

  function Digit(n: int): (c: byte)
    requires 0 <= n < 16
  {
    if n < 10 then 48 + n else 87 + n
  }

  function DigitValue(c: byte): (v: Option<int>)
    ensures v.Some? ==> 0 <= v.value < 16
  {
    if 48 <= c <= 57 then Some(c - 48)
    else if 97 <= c <= 102 then Some(c - 87)
    else if 65 <= c <= 70 then Some(c - 55)
    else None
  }

  function Encode(b: Bytes): (s: Bytes)
    ensures |s| == 2 * |b|
  {
    if b == [] then [] else [Digit(b[0] / 16), Digit(b[0] % 16)] + Encode(b[1..])
  }

  function Decode(s: Bytes): (b: Option<Bytes>)
    ensures b.Some? ==> |s| == 2 * |b.value|
  {
    if s == [] then Some([])
    else if |s| == 1 then None
    else
      match (DigitValue(s[0]), DigitValue(s[1]), Decode(s[2..]))
      case (Some(hi), Some(lo), Some(rest)) => Some([16 * hi + lo] + rest)
      case _ => None
  }

  /** Decodes to exactly one digest, as `decodeNodes`, `decodeRoot` and `isHexSize` require. */
  function DecodeDigest(s: Bytes): (d: Option<Digest>)
  {
    var b := Decode(s);
    if b.Some? && |b.value| == 32 then Some(b.value) else None
  }

  lemma {:induction false} DecodeEncode(b: Bytes)
    ensures Decode(Encode(b)) == Some(b)
  {
    if b != [] {
      DecodeEncode(b[1..]);
      var s := Encode(b);
      assert s[2..] == Encode(b[1..]);
      assert b == [b[0]] + b[1..];
    }
  }

  lemma EncodeInjective(a: Bytes, b: Bytes)
    requires Encode(a) == Encode(b)
    ensures a == b
  {
    DecodeEncode(a);
    DecodeEncode(b);
  }
}
