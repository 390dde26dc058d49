/** Byte strings and the numbers they encode, most significant byte first. */
module Bytes {
  import opened BitOps

  type Byte = x: nat | x < 256

  /** `int.from_bytes(bytes, "big")` */
  function BigEndian(bytes: seq<Byte>): nat {
    if bytes == [] then 0 else Shl(BigEndian(bytes[..|bytes| - 1]), 8) + bytes[|bytes| - 1]
  }

  /** The n low bytes of x, most significant first. */
  function ToBytes(x: nat, n: nat): (bytes: seq<Byte>)
    ensures |bytes| == n
  {
    if n == 0 then [] else ToBytes(x / 256, n - 1) + [x % 256]
  }

  lemma BigEndianSnoc(bytes: seq<Byte>, b: Byte)
    ensures BigEndian(bytes + [b]) == Shl(BigEndian(bytes), 8) + b
    ensures BigEndian(bytes + [b]) == 256 * BigEndian(bytes) + b
  {
    assert (bytes + [b])[..|bytes|] == bytes;
    ShlIsMul(BigEndian(bytes), 8);
    Pow2Values();
  }

  lemma {:induction false} BigEndianBound(bytes: seq<Byte>)
    ensures BigEndian(bytes) < Pow2(8 * |bytes|)
  {
    if bytes != [] {
      var n := |bytes| - 1;
      BigEndianBound(bytes[..n]);
      assert bytes == bytes[..n] + [bytes[n]];
      BigEndianSnoc(bytes[..n], bytes[n]);
      Pow2Values();
      Pow2Add(8, 8 * n);
    }
  }

  /** Writing out the number that was read gives the bytes back. */
  lemma {:induction false} BytesRoundTrip(bytes: seq<Byte>)
    ensures ToBytes(BigEndian(bytes), |bytes|) == bytes
  {
    if bytes != [] {
      var n := |bytes| - 1;
      BytesRoundTrip(bytes[..n]);
      assert bytes == bytes[..n] + [bytes[n]];
      BigEndianSnoc(bytes[..n], bytes[n]);
    }
  }
}
