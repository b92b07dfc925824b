/** Bytes, lengths in four bytes, and double-mapped memory. */
module Bytes {
  type Byte = x: int | 0 <= x < 256

  const WORD32 := 0x1_0000_0000

  /** A 32-bit length in four bytes, lowest first. */
  function Encode(n: nat): (r: seq<Byte>)
    requires n < WORD32
    ensures |r| == 4
  {
    [n % 256, n / 256 % 256, n / 65536 % 256, n / 16777216]
  }

  function Decode(b: seq<Byte>): nat
    requires |b| == 4
  {
    var b0: int, b1: int, b2: int, b3: int := b[0], b[1], b[2], b[3];
    b0 + 256 * b1 + 65536 * b2 + 16777216 * b3
  }

  lemma DecodeEncode(n: nat)
    requires n < WORD32
    ensures Decode(Encode(n)) == n
  {
    DigitsOf(n, n / 256, n / 65536, n / 16777216);
  }

  /** The quotients by the powers of 256 follow from one another. */
  lemma DigitsOf(n: nat, n1: nat, n2: nat, n3: nat)
    requires n1 == n / 256 && n2 == n / 65536 && n3 == n / 16777216
    ensures n == 256 * n1 + n % 256 && n1 == 256 * n2 + n1 % 256 && n2 == 256 * n3 + n2 % 256
  {
  }

  /** The n bytes from an offset on, through the double mapping. */
  function Cells(mem: seq<Byte>, off: nat, n: nat): (r: seq<Byte>)
    requires mem != []
    ensures |r| == n
  {
    seq(n, k requires 0 <= k < n => mem[(off + k) % |mem|])
  }
}
