/** Bytes, and numbers as they lie in memory on the little-endian machines the server is built for. */
module Bytes {
  type Byte = b: int | 0 <= b < 256

  function Power256(n: nat): (p: nat)
    ensures p >= 1
  {
    if n == 0 then 1 else 256 * Power256(n - 1)
  }

  /** The n low bytes of v, the lowest first. */
  function Encoded(n: nat, v: nat): (bytes: seq<Byte>)
    ensures |bytes| == n
  {
    if n == 0 then [] else [v % 256] + Encoded(n - 1, v / 256)
  }

  function Decoded(bytes: seq<Byte>): nat {
    if bytes == [] then 0 else bytes[0] + 256 * Decoded(bytes[1..])
  }

  lemma {:induction false} DecodedEncoded(n: nat, v: nat)
    requires v < Power256(n)
    ensures Decoded(Encoded(n, v)) == v
  {
    if n > 0 {
      DecodedEncoded(n - 1, v / 256);
      assert Encoded(n, v)[1..] == Encoded(n - 1, v / 256);
    }
  }
}
