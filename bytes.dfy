/** Bytes and the big-endian 32-bit words of Ruby's pack/unpack directive 'N'. */
module Bytes {
  type byte = x: int | 0 <= x < 0x100

  /** An unsigned 32-bit word, the range of one 'N' field. */
  type u32 = x: int | 0 <= x < 0x1_0000_0000

  /** pack('N'): four bytes, most significant first. */
  function Be32Encode(n: u32): (b: seq<byte>)
    ensures |b| == 4
  {
    [n / 0x100_0000, (n / 0x1_0000) % 0x100, (n / 0x100) % 0x100, n % 0x100]
  }

  /** unpack('N') of four bytes. */
  function Be32Decode(b: seq<byte>): (n: u32)
    requires |b| == 4
  {
    (b[0] as int) * 0x100_0000 + (b[1] as int) * 0x1_0000 + (b[2] as int) * 0x100 + b[3] as int
  }

  lemma DecodeEncode(n: u32)
    ensures Be32Decode(Be32Encode(n)) == n
  {
    var b3, m3 := n % 0x100, n / 0x100;
    var b2, m2 := m3 % 0x100, m3 / 0x100;
    var b1, b0 := m2 % 0x100, m2 / 0x100;
    assert n == m3 * 0x100 + b3;
    assert m3 == m2 * 0x100 + b2;
    assert m2 == b0 * 0x100 + b1;
    assert m2 == n / 0x1_0000;
    assert b0 == n / 0x100_0000;
  }

  lemma EncodeDecode(b: seq<byte>)
    requires |b| == 4
    ensures Be32Encode(Be32Decode(b)) == b
  {
    var b0, b1, b2, b3 := b[0] as int, b[1] as int, b[2] as int, b[3] as int;
    var n := Be32Decode(b);
    var hi, lo := b0 * 0x100 + b1, b2 * 0x100 + b3;
    assert n == hi * 0x1_0000 + lo;
    assert n / 0x1_0000 == hi;
    assert hi % 0x100 == b1;
    assert n / 0x100_0000 == b0;
    assert n / 0x100 == hi * 0x100 + b2;
    assert (hi * 0x100 + b2) % 0x100 == b2;
    assert n % 0x100 == b3;
  }

  /** A run of n NUL bytes, as Ruby's "\0" * n. */
  function Zeros(n: nat): (z: seq<byte>)
    ensures |z| == n && forall i :: 0 <= i < n ==> z[i] == 0
  {
    if n == 0 then [] else Zeros(n - 1) + [0]
  }
}
