/** Result types and byte strings shared by every module. */
module Wrappers {

  datatype Option<+T> = None | Some(value: T)

  datatype Result<+T, +E> = Ok(value: T) | Err(error: E)
}

/** Bytes, big-endian integers and ASCII text as the wire formats use them. */
module ByteStrings {

  type byte = b: int | 0 <= b < 256

  type Bytes = seq<byte>

  type Bytes32 = b: Bytes | |b| == 32 witness seq(32, _ => 0)

  type Bytes12 = b: Bytes | |b| == 12 witness seq(12, _ => 0)

  /** `u64::MAX`, and `usize::MAX` on the 64-bit targets. */
  const U64_MAX := 0xFFFF_FFFF_FFFF_FFFF

  /** `n` zero bytes. */
  function Zeros(n: nat): (z: Bytes)
    ensures |z| == n
    ensures forall i | 0 <= i < n :: z[i] == 0
  {
    seq(n, _ => 0)
  }

  /** The bytes of an ASCII text. */
  function Ascii(s: string): (b: Bytes)
    ensures |b| == |s|
  {
    seq(|s|, i requires 0 <= i < |s| => s[i] as int % 256)
  }

  lemma AsciiJoin(s: string, t: string)
    ensures Ascii(s + t) == Ascii(s) + Ascii(t)
  {
  }
}
