/** Octets and the fixed-width integers the framings are built from. */
module Bytes {
  type byte = x: int | 0 <= x < 256
  type bytes = seq<byte>

  const TWO_16: int := 0x1_0000
  const TWO_32: int := 0x1_0000_0000

  function Octet(n: int): byte { n % 256 }

  /** `struct.pack("<H", n)` for n in range. */
  function Le16(n: int): (r: bytes)
    ensures |r| == 2
  {
    [Octet(n), Octet(n / 256)]
  }

  /** `struct.pack("<I", n)` for n in range. */
  function Le32(n: int): (r: bytes)
    ensures |r| == 4
  {
    [Octet(n), Octet(n / 0x100), Octet(n / 0x1_0000), Octet(n / 0x100_0000)]
  }

  /** `n.to_bytes(4, "big")` for n in range. */
  function Be32(n: int): (r: bytes)
    ensures |r| == 4
  {
    [Octet(n / 0x100_0000), Octet(n / 0x1_0000), Octet(n / 0x100), Octet(n)]
  }

  function U16At(b: bytes, i: nat): (n: nat)
    requires i + 2 <= |b|
    ensures n < TWO_16
  {
    b[i] as int + 0x100 * b[i + 1] as int
  }

  function U32At(b: bytes, i: nat): (n: nat)
    requires i + 4 <= |b|
    ensures n < TWO_32
  {
    b[i] as int + 0x100 * b[i + 1] as int + 0x1_0000 * b[i + 2] as int + 0x100_0000 * b[i + 3] as int
  }

  function Big32At(b: bytes, i: nat): (n: nat)
    requires i + 4 <= |b|
    ensures n < TWO_32
  {
    0x100_0000 * b[i] as int + 0x1_0000 * b[i + 1] as int + 0x100 * b[i + 2] as int + b[i + 3] as int
  }

  lemma Split32(n: int)
    requires 0 <= n < TWO_32
    ensures n == Octet(n) as int + 0x100 * Octet(n / 0x100) as int + 0x1_0000 * Octet(n / 0x1_0000) as int
              + 0x100_0000 * Octet(n / 0x100_0000) as int
  {
    var a := n / 0x100;
    var b := a / 0x100;
    var c := b / 0x100;
    assert n / 0x1_0000 == b && n / 0x100_0000 == c;
    assert n == 0x100 * a + n % 0x100 && a == 0x100 * b + a % 0x100 && b == 0x100 * c + b % 0x100;
  }

  /** Reading back a little-endian word written anywhere in a string. */
  lemma Le32Reads(before: bytes, n: int, after: bytes)
    requires 0 <= n < TWO_32
    ensures U32At(before + Le32(n) + after, |before|) == n
  {
    var b := before + Le32(n) + after;
    assert b[|before|..|before| + 4] == Le32(n);
    assert b[|before|] == Le32(n)[0] && b[|before| + 1] == Le32(n)[1]
        && b[|before| + 2] == Le32(n)[2] && b[|before| + 3] == Le32(n)[3];
    Split32(n);
  }

  lemma Le16Reads(before: bytes, n: int, after: bytes)
    requires 0 <= n < TWO_16
    ensures U16At(before + Le16(n) + after, |before|) == n
  {
    var b := before + Le16(n) + after;
    assert b[|before|] == Le16(n)[0] && b[|before| + 1] == Le16(n)[1];
  }

  lemma Be32Reads(before: bytes, n: int, after: bytes)
    requires 0 <= n < TWO_32
    ensures Big32At(before + Be32(n) + after, |before|) == n
  {
    var b := before + Be32(n) + after;
    assert b[|before|] == Be32(n)[0] && b[|before| + 1] == Be32(n)[1]
        && b[|before| + 2] == Be32(n)[2] && b[|before| + 3] == Be32(n)[3];
    Split32(n);
  }
}
